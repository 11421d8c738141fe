/** Why a cycle that asked its peers and was corroborated by none says so: the reason it
    publishes, in every run, is the one its own replies leave behind. */
module CustodyReasons {
  import opened Bytes
  import opened Custody
  import opened CustodyRuns

  /** The replies to cycle `c`, in arrival order. */
  function Answers(log: seq<Event>, c: CycleId): seq<Answer>
  {
    if log == [] then []
    else
      var n := |log| - 1;
      var before := Answers(log[..n], c);
      if log[n].Reply? && log[n].cycle == c then before + [Answer(log[n].peer, log[n].reply, false)] else before
  }

  /** A re-check after a reply found the membership or the peer's role moved. */
  predicate FailedCheck(e: Event, c: CycleId, generation: nat)
  {
    || (e.CheckGeneration? && e.cycle == c && e.generation != generation)
    || (e.CheckReplica? && e.cycle == c && !e.holds)
    || (e.CheckWriter? && e.cycle == c && !e.holds)
  }

  /** Every re-check of cycle `c` found its premises unmoved. */
  predicate PremisesHeld(log: seq<Event>, c: CycleId, generation: nat)
  {
    forall i :: 0 <= i < |log| ==> !FailedCheck(log[i], c, generation)
  }

  predicate NoneAgrees(local: RootSetSummary, answers: seq<Answer>)
  {
    forall i :: 0 <= i < |answers| ==> !Agrees(local, answers[i])
  }

  // ----- the invariant --------------------------------------------------

  predicate HasNotAsked(stage: Stage)
  {
    stage.NeedsEpoch? || stage.NeedsLocal? || stage.NeedsCandidates?
  }

  predicate IsChecking(stage: Stage)
  {
    stage.CheckingGeneration? || stage.CheckingReplica? || stage.CheckingWriter?
  }

  /** The answers so far leave `reason`, and agree with nothing while the premises held. */
  predicate Leaves(log: seq<Event>, c: CycleId, cy: Cycle, reason: NotCorroboratedReason)
  {
    && reason == ReasonOf(cy.local, Answers(log, c))
    && (PremisesHeld(log, c, cy.generationBefore) ==> NoneAgrees(cy.local, Answers(log, c)))
    && ReadLocal(c, Some(cy.local)) in log
  }

  /** The last answer agrees, so it would leave `PremisesMoved`. */
  predicate LastAgrees(log: seq<Event>, c: CycleId, cy: Cycle)
  {
    && Answers(log, c) != [] && Agrees(cy.local, Answers(log, c)[|Answers(log, c)| - 1])
    && ReadLocal(c, Some(cy.local)) in log
  }

  predicate ReasonInv(log: seq<Event>, c: CycleId, cy: Cycle)
  {
    if HasNotAsked(cy.stage) then
      Answers(log, c) == [] && StopAsking(c) !in log
      && (cy.stage.NeedsCandidates? ==> ReadLocal(c, Some(cy.local)) in log)
    else if cy.stage.Asking? then StopAsking(c) !in log && Leaves(log, c, cy, cy.reason)
    else if IsChecking(cy.stage) then StopAsking(c) !in log && LastAgrees(log, c, cy)
    else if cy.stage.Rereading? then StopAsking(c) !in log
    else
      StopAsking(c) in log ==> cy.evidence.NotCorroborated? && Leaves(log, c, cy, cy.evidence.reason)
  }

  /** Nothing in the log is cycle `c`'s. */
  predicate Untouched(log: seq<Event>, c: CycleId)
  {
    Answers(log, c) == [] && StopAsking(c) !in log
  }

  ghost predicate Inv(w: World)
  {
    && (forall c :: c in w.cycles ==> ReasonInv(w.log, c, w.cycles[c]))
    && (forall c :: c !in w.cycles ==> Untouched(w.log, c))
  }

  // ----- every step keeps it --------------------------------------------

  lemma AnswersStep(log: seq<Event>, e: Event, c: CycleId)
    ensures Answers(log + [e], c)
         == if e.Reply? && e.cycle == c then Answers(log, c) + [Answer(e.peer, e.reply, false)] else Answers(log, c)
  {
    assert (log + [e])[..|log|] == log;
  }

  lemma HeldStep(log: seq<Event>, e: Event, c: CycleId, generation: nat)
    ensures PremisesHeld(log + [e], c, generation) <==> PremisesHeld(log, c, generation) && !FailedCheck(e, c, generation)
  {
    if PremisesHeld(log + [e], c, generation) {
      assert forall i :: 0 <= i < |log| ==> log[i] == (log + [e])[i];
      assert (log + [e])[|log|] == e;
    }
  }

  /** Events of others, and those that neither bring an answer, fail a check nor stop, change nothing. */
  lemma LeavesStays(log: seq<Event>, e: Event, c: CycleId, cy: Cycle, reason: NotCorroboratedReason)
    requires Leaves(log, c, cy, reason) && !(e.Reply? && e.cycle == c)
    ensures Leaves(log + [e], c, cy, reason)
  {
    AnswersStep(log, e, c);
    HeldStep(log, e, c, cy.generationBefore);
  }

  lemma OthersKeep(log: seq<Event>, e: Event, c: CycleId, cy: Cycle)
    requires ReasonInv(log, c, cy) && !(OfCycle(e) && e.cycle == c)
    ensures ReasonInv(log + [e], c, cy)
  {
    AnswersStep(log, e, c);
    if cy.stage.Asking? {
      LeavesStays(log, e, c, cy, cy.reason);
    } else if !HasNotAsked(cy.stage) && !IsChecking(cy.stage) && !cy.stage.Rereading? && StopAsking(c) in log {
      LeavesStays(log, e, c, cy, cy.evidence.reason);
    }
  }

  lemma UntouchedStays(log: seq<Event>, e: Event, c: CycleId)
    requires Untouched(log, c) && !(OfCycle(e) && e.cycle == c)
    ensures Untouched(log + [e], c)
  {
    AnswersStep(log, e, c);
  }

  /** `e` is the next step of cycle `cy`. */
  predicate NextOf(log: seq<Event>, e: Event, cy: Cycle)
  {
    OfCycle(e) && cy.stage == StageOf(e) && ReasonInv(log, e.cycle, cy)
  }

  lemma StartKeeps(log: seq<Event>, e: Event, cy: Cycle, at: nat)
    requires NextOf(log, e, cy) && (e.CaptureEpoch? || e.ReadLocal? || e.ChooseCandidates?)
    ensures ReasonInv(log + [e], e.cycle, AfterEvent(cy, e, at))
  {
    AnswersStep(log, e, e.cycle);
  }

  lemma ReplyKeeps(log: seq<Event>, e: Event, cy: Cycle, at: nat)
    requires NextOf(log, e, cy) && e.Reply?
    ensures ReasonInv(log + [e], e.cycle, AfterEvent(cy, e, at))
  {
    AnswersStep(log, e, e.cycle);
    HeldStep(log, e, e.cycle, cy.generationBefore);
    var before, after := Answers(log, e.cycle), Answers(log + [e], e.cycle);
    assert after[..|after| - 1] == before;
  }

  lemma CheckKeeps(log: seq<Event>, e: Event, cy: Cycle, at: nat)
    requires NextOf(log, e, cy) && (e.CheckGeneration? || e.CheckReplica? || e.CheckWriter?)
    ensures ReasonInv(log + [e], e.cycle, AfterEvent(cy, e, at))
  {
    AnswersStep(log, e, e.cycle);
    HeldStep(log, e, e.cycle, cy.generationBefore);
  }

  lemma StopKeeps(log: seq<Event>, e: Event, cy: Cycle, at: nat)
    requires NextOf(log, e, cy) && e.StopAsking?
    ensures ReasonInv(log + [e], e.cycle, AfterEvent(cy, e, at))
  {
    LeavesStays(log, e, e.cycle, cy, cy.reason);
  }

  lemma EndKeeps(log: seq<Event>, e: Event, cy: Cycle, at: nat)
    requires NextOf(log, e, cy) && (e.RereadLocal? || e.ReadGeneration? || e.Publish?)
    ensures ReasonInv(log + [e], e.cycle, AfterEvent(cy, e, at))
  {
    if !e.RereadLocal? && StopAsking(e.cycle) in log {
      LeavesStays(log, e, e.cycle, cy, cy.evidence.reason);
    }
  }

  lemma OwnStepKeeps(log: seq<Event>, e: Event, cy: Cycle, at: nat)
    requires NextOf(log, e, cy)
    ensures ReasonInv(log + [e], e.cycle, AfterEvent(cy, e, at))
  {
    if e.Reply? {
      ReplyKeeps(log, e, cy, at);
    } else if e.CheckGeneration? || e.CheckReplica? || e.CheckWriter? {
      CheckKeeps(log, e, cy, at);
    } else if e.StopAsking? {
      StopKeeps(log, e, cy, at);
    } else if e.RereadLocal? || e.ReadGeneration? || e.Publish? {
      EndKeeps(log, e, cy, at);
    } else {
      StartKeeps(log, e, cy, at);
    }
  }

  /** What a step does to the cycles. */
  lemma CyclesAfter(w: World, e: Event, c: CycleId)
    requires Enabled(w, e)
    ensures OfCycle(e) ==> e.cycle in w.cycles && w.cycles[e.cycle].stage == StageOf(e)
    ensures c in Step(w, e).cycles <==> c in w.cycles || (e.CaptureGeneration? && e.cycle == c)
    ensures c in Step(w, e).cycles ==>
              Step(w, e).cycles[c]
              == if e.CaptureGeneration? && e.cycle == c then FirstStep(e.generation, |w.log|)
                 else if OfCycle(e) && e.cycle == c then AfterEvent(w.cycles[c], e, |w.log|) else w.cycles[c]
  {
  }

  lemma StepKeepsReason(w: World, e: Event, c: CycleId)
    requires Inv(w) && Enabled(w, e)
    ensures if c in Step(w, e).cycles then ReasonInv(w.log + [e], c, Step(w, e).cycles[c]) else Untouched(w.log + [e], c)
  {
    CyclesAfter(w, e, c);
    if c !in w.cycles {
      UntouchedStays(w.log, e, c);
    } else if OfCycle(e) && e.cycle == c {
      OwnStepKeeps(w.log, e, w.cycles[c], |w.log|);
    } else {
      OthersKeep(w.log, e, c, w.cycles[c]);
    }
  }

  lemma StepKeepsInv(w: World, e: Event)
    requires Inv(w) && Enabled(w, e)
    ensures Inv(Step(w, e))
  {
    StepFrame(w, e);
    forall c ensures if c in Step(w, e).cycles then ReasonInv(w.log + [e], c, Step(w, e).cycles[c])
                     else Untouched(w.log + [e], c)
    {
      StepKeepsReason(w, e, c);
    }
  }

  lemma {:induction false} RunKeepsReasons(ws: seq<World>, es: seq<Event>, n: nat)
    requires Run(ws, es) && n <= |es|
    ensures Inv(ws[n])
    decreases n
  {
    if n > 0 {
      RunKeepsReasons(ws, es, n - 1);
      assert StepAt(ws, es, n - 1);
      StepKeepsInv(ws[n - 1], es[n - 1]);
    }
  }

  // ----- what is published ----------------------------------------------

  /** A usable answer is a reply that arrived and was readable. */
  predicate UsableReply(e: Event, c: CycleId)
  {
    e.Reply? && e.cycle == c && e.reply.Some?
  }

  lemma {:induction false} UsableIffReplied(log: seq<Event>, c: CycleId)
    ensures (exists i :: 0 <= i < |Answers(log, c)| && Usable(Answers(log, c)[i]))
            <==> exists i :: 0 <= i < |log| && UsableReply(log[i], c)
    decreases |log|
  {
    if log != [] {
      var n := |log| - 1;
      var before, answers := Answers(log[..n], c), Answers(log, c);
      UsableIffReplied(log[..n], c);
      assert log[..n] + [log[n]] == log;
      if i :| 0 <= i < n && UsableReply(log[..n][i], c) {
        assert UsableReply(log[i], c);
      }
      if i :| 0 <= i < |before| && Usable(before[i]) {
        assert Usable(answers[i]);
      }
      if UsableReply(log[n], c) {
        assert Usable(answers[|before|]);
      }
      if i :| 0 <= i < |answers| && Usable(answers[i]) {
        if i < |before| {
          assert Usable(before[i]);
        }
      }
      if i :| 0 <= i < |log| && UsableReply(log[i], c) {
        if i < n {
          assert UsableReply(log[..n][i], c);
        }
      }
    }
  }

  lemma ReasonBehind(w: World, e: Event)
    requires Inv(w) && Enabled(w, e) && e.Publish? && StopAsking(e.cycle) in w.log
    ensures e.evidence.NotCorroborated?
    ensures Leaves(w.log, e.cycle, w.cycles[e.cycle], e.evidence.reason)
    ensures w.cycles[e.cycle].generationBefore == e.generation
  {
    assert ReasonInv(w.log, e.cycle, w.cycles[e.cycle]);
  }

  /** In every run, a cycle that asked its peers and stopped without a corroboration publishes the
      reason its last usable reply leaves, measured against the local state it read;
      and while its re-checks found the premises unmoved, that is a contradiction
      exactly when any usable reply arrived, in whatever order. */
  lemma FanOutPublishes(ws: seq<World>, es: seq<Event>, n: nat) returns (local: RootSetSummary)
    requires Run(ws, es) && n < |es| && es[n].Publish? && StopAsking(es[n].cycle) in es[..n]
    ensures ReadLocal(es[n].cycle, Some(local)) in es[..n]
    ensures es[n].evidence == NotCorroborated(ReasonOf(local, Answers(es[..n], es[n].cycle)))
    ensures PremisesHeld(es[..n], es[n].cycle, es[n].generation) ==>
              (es[n].evidence.reason.IsContradiction()
               <==> exists i :: 0 <= i < n && UsableReply(es[i], es[n].cycle))
  {
    RunKeepsReasons(ws, es, n);
    RunKeepsInv(ws, es, n);
    assert StepAt(ws, es, n);
    var c, log := es[n].cycle, es[..n];
    ReasonBehind(ws[n], es[n]);
    local := ws[n].cycles[c].local;
    if PremisesHeld(log, c, es[n].generation) {
      ContradictionIffAnyoneAnswered(local, Answers(log, c));
      UsableIffReplied(log, c);
      SameReplies(es, n, c);
    }
  }

  lemma SameReplies(es: seq<Event>, n: nat, c: CycleId)
    requires n <= |es|
    ensures (exists i :: 0 <= i < n && UsableReply(es[..n][i], c)) <==> exists i :: 0 <= i < n && UsableReply(es[i], c)
  {
    if i :| 0 <= i < n && UsableReply(es[i], c) {
      assert UsableReply(es[..n][i], c);
    }
  }
}
