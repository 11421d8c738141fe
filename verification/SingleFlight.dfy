/** Coalescing of concurrent hydrations (hydration_single_flight.rs): one leader per
    group and folded path, everyone else waits for that leader's outcome. */
module SingleFlight {
  import opened Bytes

  type Key = (string, string)
  type Outcome = Result<(), ()>
  type CallerId = nat
  type RoundId = nat

  /** The folding of path spellings that name one file; any function will do here. */
  type Fold = string -> string

  /** A leader runs, then takes its entry out of the map, then broadcasts. */
  datatype Phase = Running | Removed(outcome: Outcome) | Sent(outcome: Outcome)

  datatype Round = Round(key: Key, phase: Phase)

  datatype Caller = Leads(round: RoundId) | Waits(round: RoundId) | Got(round: RoundId, outcome: Outcome)

  datatype World = World(inFlight: map<Key, RoundId>, rounds: seq<Round>, callers: map<CallerId, Caller>)

  datatype Step =
    | Join(caller: CallerId, group: string, path: string)
    | Finish(round: RoundId, completed: Option<Outcome>)
    | Send(round: RoundId)
    | Receive(caller: CallerId)

  const EMPTY := World(map[], [], map[])

  predicate Enabled(w: World, s: Step)
  {
    match s
    case Join(c, _, _) => c !in w.callers
    case Finish(r, _) => r < |w.rounds| && w.rounds[r].phase.Running?
    case Send(r) => r < |w.rounds| && w.rounds[r].phase.Removed?
    case Receive(c) =>
      c in w.callers && w.callers[c].Waits? && w.callers[c].round < |w.rounds| && w.rounds[w.callers[c].round].phase.Sent?
  }

  /** What a leader leaves behind: its outcome, or failure if it was dropped without one. */
  function OutcomeOf(completed: Option<Outcome>): Outcome
  {
    match completed
    case Some(outcome) => outcome
    case None => Err(())
  }

  function Joined(w: World, c: CallerId, key: Key): World
  {
    if key in w.inFlight then w.(callers := w.callers[c := Waits(w.inFlight[key])])
    else
      w.(inFlight := w.inFlight[key := |w.rounds|], rounds := w.rounds + [Round(key, Running)],
         callers := w.callers[c := Leads(|w.rounds|)])
  }

  function Apply(fold: Fold, w: World, s: Step): World
    requires Enabled(w, s)
  {
    match s
    case Join(c, group, path) => Joined(w, c, (group, fold(path)))
    case Finish(r, completed) =>
      w.(inFlight := w.inFlight - {w.rounds[r].key},
         rounds := w.rounds[r := w.rounds[r].(phase := Removed(OutcomeOf(completed)))])
    case Send(r) => w.(rounds := w.rounds[r := w.rounds[r].(phase := Sent(w.rounds[r].phase.outcome))])
    case Receive(c) =>
      var r := w.callers[c].round;
      w.(callers := w.callers[c := Got(r, w.rounds[r].phase.outcome)])
  }

  predicate Run(fold: Fold, ws: seq<World>, ss: seq<Step>)
  {
    && |ws| == |ss| + 1 && ws[0] == EMPTY
    && forall i :: 0 <= i < |ss| ==> Enabled(ws[i], ss[i]) && ws[i + 1] == Apply(fold, ws[i], ss[i])
  }

  // ----- the invariant --------------------------------------------------

  /** The map holds exactly the running rounds, each under its own key. */
  predicate MapInv(w: World)
  {
    && (forall k :: k in w.inFlight ==>
          w.inFlight[k] < |w.rounds| && w.rounds[w.inFlight[k]] == Round(k, Running))
    && (forall r :: 0 <= r < |w.rounds| && w.rounds[r].phase.Running? ==>
          w.rounds[r].key in w.inFlight && w.inFlight[w.rounds[r].key] == r)
  }

  predicate CallerInv(w: World, caller: Caller)
  {
    caller.round < |w.rounds| && (caller.Got? ==> w.rounds[caller.round].phase == Sent(caller.outcome))
  }

  predicate Inv(w: World)
  {
    MapInv(w) && forall c :: c in w.callers ==> CallerInv(w, w.callers[c])
  }

  lemma StepKeepsMap(fold: Fold, w: World, s: Step)
    requires MapInv(w) && Enabled(w, s)
    ensures MapInv(Apply(fold, w, s))
  {
  }

  lemma StepKeepsInv(fold: Fold, w: World, s: Step)
    requires Inv(w) && Enabled(w, s)
    ensures Inv(Apply(fold, w, s))
  {
    StepKeepsMap(fold, w, s);
    var next := Apply(fold, w, s);
    forall c | c in next.callers ensures CallerInv(next, next.callers[c]) {
      if c in w.callers {
        assert CallerInv(w, w.callers[c]);
      }
    }
  }

  lemma {:induction false} RunKeepsInv(fold: Fold, ws: seq<World>, ss: seq<Step>, n: nat)
    requires Run(fold, ws, ss) && n <= |ss|
    ensures Inv(ws[n])
    decreases n
  {
    if n > 0 {
      RunKeepsInv(fold, ws, ss, n - 1);
      StepKeepsInv(fold, ws[n - 1], ss[n - 1]);
    }
  }

  // ----- what callers get -----------------------------------------------

  /** In every reachable state at most one leader of a key is unfinished. */
  lemma OneRunningLeader(fold: Fold, ws: seq<World>, ss: seq<Step>, n: nat, r1: RoundId, r2: RoundId)
    requires Run(fold, ws, ss) && n <= |ss| && r1 < |ws[n].rounds| && r2 < |ws[n].rounds|
    requires ws[n].rounds[r1].phase.Running? && ws[n].rounds[r2].phase.Running?
    requires ws[n].rounds[r1].key == ws[n].rounds[r2].key
    ensures r1 == r2
  {
    RunKeepsInv(fold, ws, ss, n);
  }

  lemma RoundStep(fold: Fold, w: World, s: Step, r: RoundId)
    requires Enabled(w, s) && r < |w.rounds|
    ensures var next := Apply(fold, w, s);
            && r < |next.rounds| && next.rounds[r].key == w.rounds[r].key
            && (!w.rounds[r].phase.Running? ==>
                  !next.rounds[r].phase.Running? && next.rounds[r].phase.outcome == w.rounds[r].phase.outcome)
            && (w.rounds[r].phase.Running? && !next.rounds[r].phase.Running? ==>
                  s.Finish? && s.round == r && next.rounds[r].phase.outcome == OutcomeOf(s.completed))
  {
  }

  /** A round that ran at `m` and no longer runs at `n` was finished once in between, and
      that is the outcome it has from then on. */
  lemma {:induction false} FinishedOnce(fold: Fold, ws: seq<World>, ss: seq<Step>, m: nat, n: nat, r: RoundId)
    requires Run(fold, ws, ss) && m <= n <= |ss| && r < |ws[m].rounds| && ws[m].rounds[r].phase.Running?
    ensures r < |ws[n].rounds| && ws[n].rounds[r].key == ws[m].rounds[r].key
    ensures !ws[n].rounds[r].phase.Running? ==>
              exists j :: m <= j < n && ss[j].Finish? && ss[j].round == r
                          && ws[n].rounds[r].phase.outcome == OutcomeOf(ss[j].completed)
    decreases n
  {
    if m < n {
      FinishedOnce(fold, ws, ss, m, n - 1, r);
      RoundStep(fold, ws[n - 1], ss[n - 1], r);
    }
  }

  lemma CallerStep(fold: Fold, w: World, s: Step, c: CallerId)
    requires Enabled(w, s) && c in w.callers
    ensures var next := Apply(fold, w, s); c in next.callers && next.callers[c].round == w.callers[c].round
    ensures Apply(fold, w, s).callers[c].Leads? == w.callers[c].Leads?
  {
  }

  lemma {:induction false} KeepsItsRound(fold: Fold, ws: seq<World>, ss: seq<Step>, m: nat, n: nat, c: CallerId)
    requires Run(fold, ws, ss) && m <= n <= |ss| && c in ws[m].callers
    ensures c in ws[n].callers && ws[n].callers[c].round == ws[m].callers[c].round
    ensures ws[n].callers[c].Leads? == ws[m].callers[c].Leads?
    decreases n
  {
    if m < n {
      KeepsItsRound(fold, ws, ss, m, n - 1, c);
      CallerStep(fold, ws[n - 1], ss[n - 1], c);
    }
  }

  /** A follower gets the outcome of the round that was running for its folded path when it
      joined: the outcome its leader completed with after the join, or failure if
      the leader was dropped. So an outcome settled before the join is never seen. */
  lemma FollowerGetsItsRound(fold: Fold, ws: seq<World>, ss: seq<Step>, m: nat, n: nat)
    requires Run(fold, ws, ss) && m < n <= |ss| && ss[m].Join?
    requires ss[m].caller in ws[n].callers && ws[n].callers[ss[m].caller].Got?
    ensures var got := ws[n].callers[ss[m].caller];
            && got.round < |ws[m].rounds|
            && ws[m].rounds[got.round] == Round((ss[m].group, fold(ss[m].path)), Running)
            && exists j :: m < j < n && ss[j].Finish? && ss[j].round == got.round
                           && (ss[j].completed == Some(got.outcome) || (ss[j].completed == None && got.outcome == Err(())))
  {
    var c, key := ss[m].caller, (ss[m].group, fold(ss[m].path));
    RunKeepsInv(fold, ws, ss, m);
    RunKeepsInv(fold, ws, ss, n);
    assert CallerInv(ws[n], ws[n].callers[c]);
    assert ws[m + 1] == Joined(ws[m], c, key);
    KeepsItsRound(fold, ws, ss, m + 1, n, c);
    FinishedOnce(fold, ws, ss, m + 1, n, ws[m].inFlight[key]);
  }

  /** No follower is stranded: for each one waiting, its leader can still finish, or the
      finished leader's broadcast is still to come, or it can read it now. */
  lemma NoFollowerStranded(fold: Fold, ws: seq<World>, ss: seq<Step>, n: nat, c: CallerId)
    requires Run(fold, ws, ss) && n <= |ss| && c in ws[n].callers && ws[n].callers[c].Waits?
    ensures var r := ws[n].callers[c].round;
            Enabled(ws[n], Finish(r, None)) || Enabled(ws[n], Send(r)) || Enabled(ws[n], Receive(c))
  {
    RunKeepsInv(fold, ws, ss, n);
    assert CallerInv(ws[n], ws[n].callers[c]);
  }

  // ----- the registry ---------------------------------------------------

  /** The map of rounds in flight; each method is one section under its lock. */
  class HydrateSingleFlight {
    var inFlight: map<Key, RoundId>
    var rounds: nat

    constructor ()
      ensures inFlight == map[] && rounds == 0
    {
      inFlight, rounds := map[], 0;
    }

    /** A caller follows the round already in the map, or leads a new one. */
    method Join(group: string, path: string, fold: Fold) returns (leads: bool, round: RoundId)
      modifies this
      ensures var key := (group, fold(path));
              && leads == (key !in old(inFlight))
              && inFlight == old(inFlight)[key := round]
              && (leads ==> round == old(rounds) && rounds == old(rounds) + 1)
              && (!leads ==> round == old(inFlight)[key] && rounds == old(rounds) && inFlight == old(inFlight))
    {
      var key := (group, fold(path));
      if key in inFlight {
        return false, inFlight[key];
      }
      inFlight, round, rounds := inFlight[key := rounds], rounds, rounds + 1;
      return true, round;
    }

    /** A leader's drop, completed or not: the entry goes, then the outcome is broadcast. */
    method Drop(key: Key, completed: Option<Outcome>) returns (broadcast: Outcome)
      modifies this`inFlight
      ensures inFlight == old(inFlight) - {key} && broadcast == OutcomeOf(completed)
    {
      broadcast := if completed.Some? then completed.value else Err(());
      inFlight := inFlight - {key};
    }
  }
}
