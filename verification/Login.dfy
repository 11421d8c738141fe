/** One sign-in (session.rs): the flow's task, any number of cancels, the start
    of the session and its one consumer, interleaved step by step. A mutex
    section is one step; the `notify_one` after it is another. */
module Login {
  import opened Bytes

  type Account = string
  type Error = string

  datatype LoginEvent = Report(step: string) | SignedIn(account: Account) | Failed(error: Error) | Cancelled
  {
    predicate IsTerminal() { !Report? }
  }

  const SIGN_IN_TIMEOUT: Error := "timed out waiting for browser sign-in"

  // ----- the queue ------------------------------------------------------

  datatype Queue = Queue(
    events: seq<LoginEvent>, terminalQueued: bool, terminalDelivered: bool, flowRunning: bool, cancelRequested: bool)

  const EMPTY_QUEUE := Queue([], false, false, false, false)

  predicate Refuses(q: Queue, event: LoginEvent)
  {
    q.terminalQueued || (q.cancelRequested && !event.IsTerminal())
  }

  function Pushed(q: Queue, event: LoginEvent): Queue
  {
    if Refuses(q, event) then q else q.(events := q.events + [event], terminalQueued := event.IsTerminal())
  }

  function AfterCancel(q: Queue): Queue
  {
    if q.terminalQueued then q
    else if q.flowRunning then q.(events := [], cancelRequested := true)
    else q.(events := [Cancelled], cancelRequested := true, terminalQueued := true)
  }

  function Popped(q: Queue): Queue
    requires q.events != []
  {
    q.(events := q.events[1..], terminalDelivered := q.events[0].IsTerminal())
  }

  datatype Next = Ended | Event(event: LoginEvent) | Nothing

  /** The shared queue; each method is one section under its lock. */
  class LoginQueue {
    var events: seq<LoginEvent>
    var terminalQueued: bool
    var terminalDelivered: bool
    var flowRunning: bool
    var cancelRequested: bool

    constructor ()
      ensures Value() == EMPTY_QUEUE
    {
      events, terminalQueued, terminalDelivered, flowRunning, cancelRequested := [], false, false, false, false;
    }

    function Value(): Queue
      reads this
    {
      Queue(events, terminalQueued, terminalDelivered, flowRunning, cancelRequested)
    }

    method Push(event: LoginEvent) returns (notify: bool)
      modifies this
      ensures Value() == Pushed(old(Value()), event) && notify == !Refuses(old(Value()), event)
    {
      if terminalQueued || (cancelRequested && !event.IsTerminal()) {
        return false;
      }
      terminalQueued := event.IsTerminal();
      events := events + [event];
      return true;
    }

    method Cancel()
      modifies this
      ensures Value() == AfterCancel(old(Value()))
    {
      if !terminalQueued {
        cancelRequested := true;
        events := [];
        if !flowRunning {
          events := events + [Cancelled];
          terminalQueued := true;
        }
      }
    }

    method TryNext() returns (next: Next)
      modifies this
      ensures old(terminalDelivered) ==> next == Ended && Value() == old(Value())
      ensures !old(terminalDelivered) && old(events) == [] ==> next == Nothing && Value() == old(Value())
      ensures !old(terminalDelivered) && old(events) != []
              ==> next == Event(old(events)[0]) && Value() == Popped(old(Value()))
    {
      if terminalDelivered {
        return Ended;
      }
      if events != [] {
        var event := events[0];
        events := events[1..];
        terminalDelivered := event.IsTerminal();
        return Event(event);
      }
      return Nothing;
    }

    method TryStart() returns (started: bool)
      modifies this
      ensures started == !old(cancelRequested)
      ensures Value() == if started then old(Value()).(flowRunning := true) else old(Value())
    {
      if cancelRequested {
        return false;
      }
      flowRunning := true;
      return true;
    }
  }

  // ----- the machine ----------------------------------------------------

  datatype Begin = NotBegun | TookStage | NotCancelled | Prechecked | Starting | Started | Refused

  datatype Task = Absent | AtStop | AtFlow | AtDeadline | Decided(terminal: LoginEvent) | Finished

  datatype Consumer = Idle | Checking | Awaiting | Parked | Woken

  /** Everything ever queued; what the consumer was given before the first effective
      cancel and after it; and what cancels dropped unread. */
  datatype History = History(queued: seq<LoginEvent>, before: seq<LoginEvent>, lost: seq<LoginEvent>, after: seq<LoginEvent>)
  {
    function Delivered(): seq<LoginEvent> { before + after }
  }

  /** `ready` and `stop` are the two permits, the pendings are `notify_one` calls still
      to come. */
  datatype World = World(
    q: Queue, begin: Begin, task: Task, outcome: Option<Result<Account, Error>>, timedOut: bool, consumer: Consumer,
    ready: bool, stop: bool, readyPending: nat, stopPending: nat, h: History)

  datatype Step =
    | BeginTakesStage | BeginChecksCancel | BeginPrechecks(ok: bool) | BeginStarts | BeginSpawns
    | SinkSends(event: LoginEvent)
    | TaskChecksStop | TaskPollsFlow(result: Option<Result<Account, Error>>) | TaskChecksDeadline(passed: bool) | TaskPushes
    | Cancels | NotifiesReady | NotifiesStop
    | ConsumerCalls | ConsumerChecks | ConsumerWaits | ConsumerResumes | ConsumerAbandons

  predicate Initial(w: World)
  {
    && w.q == EMPTY_QUEUE && w.begin.NotBegun? && w.task.Absent? && w.outcome.None? && !w.timedOut && w.consumer.Idle?
    && !w.ready && !w.stop && w.readyPending == 0 && w.stopPending == 0
    && w.h == History([], [], [], [])
  }

  predicate Enabled(w: World, s: Step)
  {
    match s
    case BeginTakesStage => w.begin.NotBegun?
    case BeginChecksCancel => w.begin.TookStage?
    case BeginPrechecks(_) => w.begin.NotCancelled?
    case BeginStarts => w.begin.Prechecked?
    case BeginSpawns => w.begin.Starting?
    case SinkSends(_) => w.q.flowRunning
    case TaskChecksStop => w.task.AtStop?
    case TaskPollsFlow(_) => w.task.AtFlow?
    case TaskChecksDeadline(_) => w.task.AtDeadline?
    case TaskPushes => w.task.Decided?
    case Cancels => true
    case NotifiesReady => w.readyPending > 0
    case NotifiesStop => w.stopPending > 0
    case ConsumerCalls => w.consumer.Idle?
    case ConsumerChecks => w.consumer.Checking?
    case ConsumerWaits => w.consumer.Awaiting?
    case ConsumerResumes => w.consumer.Woken?
    case ConsumerAbandons => !w.consumer.Idle?
  }

  function Push(w: World, event: LoginEvent): World
  {
    if Refuses(w.q, event) then w
    else w.(q := Pushed(w.q, event), h := w.h.(queued := w.h.queued + [event]), readyPending := w.readyPending + 1)
  }

  function RecordCancel(q: Queue, h: History): History
  {
    if q.terminalQueued then h
    else h.(queued := if q.flowRunning then h.queued else h.queued + [Cancelled], lost := h.lost + q.events)
  }

  function RecordDelivery(q: Queue, h: History): History
    requires q.events != []
  {
    if q.cancelRequested then h.(after := h.after + [q.events[0]]) else h.(before := h.before + [q.events[0]])
  }

  function Decision(result: Result<Account, Error>): LoginEvent
  {
    match result
    case Ok(account) => SignedIn(account)
    case Err(error) => Failed(error)
  }

  function Check(w: World): World
  {
    if w.q.terminalDelivered then w.(consumer := Idle)
    else if w.q.events == [] then w.(consumer := Awaiting)
    else w.(consumer := Idle, q := Popped(w.q), h := RecordDelivery(w.q, w.h))
  }

  function Apply(w: World, s: Step): World
    requires Enabled(w, s)
  {
    match s
    case BeginTakesStage => w.(begin := TookStage)
    case BeginChecksCancel => w.(begin := if w.q.cancelRequested then Refused else NotCancelled)
    case BeginPrechecks(ok) => w.(begin := if ok then Prechecked else Refused)
    case BeginStarts =>
      if w.q.cancelRequested then w.(begin := Refused) else w.(begin := Starting, q := w.q.(flowRunning := true))
    case BeginSpawns => w.(begin := Started, task := AtStop)
    case SinkSends(event) => if event.IsTerminal() then w else Push(w, event)
    case TaskChecksStop => if w.stop then w.(stop := false, task := Decided(Cancelled)) else w.(task := AtFlow)
    case TaskPollsFlow(None) => w.(task := AtDeadline)
    case TaskPollsFlow(Some(result)) => w.(task := Decided(Decision(result)), outcome := Some(result))
    case TaskChecksDeadline(passed) =>
      if passed then w.(task := Decided(Failed(SIGN_IN_TIMEOUT)), timedOut := true) else w.(task := AtStop)
    case TaskPushes => Push(w.(task := Finished), w.task.terminal)
    case Cancels =>
      w.(q := AfterCancel(w.q), h := RecordCancel(w.q, w.h),
         readyPending := w.readyPending + 1, stopPending := w.stopPending + 1)
    case NotifiesReady =>
      var sent := w.(readyPending := w.readyPending - 1);
      if w.consumer.Parked? then sent.(consumer := Woken) else sent.(ready := true)
    case NotifiesStop => w.(stopPending := w.stopPending - 1, stop := true)
    case ConsumerCalls => w.(consumer := Checking)
    case ConsumerChecks => Check(w)
    case ConsumerWaits => if w.ready then w.(ready := false, consumer := Checking) else w.(consumer := Parked)
    case ConsumerResumes => w.(consumer := Checking)
    case ConsumerAbandons => w.(consumer := Idle, ready := w.ready || w.consumer.Woken?)
  }

  predicate Run(ws: seq<World>, ss: seq<Step>)
  {
    && |ws| == |ss| + 1 && Initial(ws[0])
    && forall i :: 0 <= i < |ss| ==> Enabled(ws[i], ss[i]) && ws[i + 1] == Apply(ws[i], ss[i])
  }

  // ----- the stream -----------------------------------------------------

  /** No terminal event except possibly the last. */
  predicate OnlyLastTerminal(es: seq<LoginEvent>)
  {
    forall i :: 0 <= i < |es| - 1 ==> !es[i].IsTerminal()
  }

  predicate EndsTerminal(es: seq<LoginEvent>)
  {
    es != [] && es[|es| - 1].IsTerminal()
  }

  predicate NoTerminal(es: seq<LoginEvent>)
  {
    forall e :: e in es ==> !e.IsTerminal()
  }

  /** Nothing was ever queued after a terminal event. Before a cancel the events
      returned and waiting are those queued, in order; after it the ones it
      dropped are missing from the middle, and all that is returned or waiting
      is the terminal event, once there is one. */
  predicate StreamInv(q: Queue, h: History)
  {
    && OnlyLastTerminal(h.queued) && q.terminalQueued == EndsTerminal(h.queued)
    && h.queued == h.before + h.lost + h.after + q.events
    && q.terminalDelivered == EndsTerminal(h.Delivered())
    && if q.cancelRequested
       then NoTerminal(h.before) && NoTerminal(h.lost) && |h.after| + |q.events| == (if q.terminalQueued then 1 else 0)
       else h.lost == [] && h.after == []
  }

  // ----- the outcome ----------------------------------------------------

  /** What a terminal event claims is what happened to the flow. */
  predicate Honest(outcome: Option<Result<Account, Error>>, timedOut: bool, terminal: LoginEvent)
  {
    match terminal
    case Report(_) => true
    case SignedIn(account) => outcome == Some(Ok(account))
    case Failed(error) => outcome == Some(Err(error)) || (timedOut && error == SIGN_IN_TIMEOUT && outcome.None?)
    case Cancelled => outcome.None?
  }

  /** The flow starts only on an uncancelled queue and only its task queues a terminal event from then on. */
  predicate FlowInv(w: World)
  {
    && (w.q.flowRunning <==> w.begin.Starting? || w.begin.Started?)
    && (w.task.Absent? <==> !w.begin.Started?)
    && (w.q.terminalQueued ==> if w.q.flowRunning then w.task.Finished? else w.q.cancelRequested)
    && (w.q.cancelRequested && !w.q.flowRunning ==> w.q.terminalQueued)
    && (w.outcome.Some? || w.timedOut ==> w.task.Decided? || w.task.Finished?)
    && (w.task.Decided? ==> Honest(w.outcome, w.timedOut, w.task.terminal) && w.task.terminal.IsTerminal())
    && forall e :: e in w.h.queued && e.IsTerminal() ==> w.q.terminalQueued && Honest(w.outcome, w.timedOut, e)
  }

  // ----- wakeups --------------------------------------------------------

  /** A consumer about to wait, or waiting, beside a queued event has a wakeup coming. */
  predicate WakeInv(w: World)
  {
    && (w.consumer.Parked? ==> !w.ready)
    && ((w.consumer.Awaiting? || w.consumer.Parked?) && w.q.events != [] ==> w.ready || w.readyPending > 0)
    && (w.consumer.Awaiting? || w.consumer.Parked? || w.consumer.Woken? ==> !w.q.terminalDelivered)
  }

  predicate Inv(w: World)
  {
    StreamInv(w.q, w.h) && FlowInv(w) && WakeInv(w)
  }

  // ----- every step keeps the invariant ---------------------------------

  lemma PushKeepsStream(q: Queue, h: History, event: LoginEvent)
    requires StreamInv(q, h) && !Refuses(q, event)
    ensures StreamInv(Pushed(q, event), h.(queued := h.queued + [event]))
  {
  }

  /** While no terminal event is queued, none is anywhere, and after a cancel nothing else is either. */
  lemma NothingTerminal(q: Queue, h: History)
    requires StreamInv(q, h) && !q.terminalQueued
    ensures NoTerminal(h.queued) && NoTerminal(h.before) && NoTerminal(h.lost + q.events) && h.after == []
    ensures h.queued == h.before + (h.lost + q.events)
  {
    assert forall i :: 0 <= i < |h.queued| ==> !h.queued[i].IsTerminal();
    NoTerminalParts(h.before, h.lost, h.after, q.events);
  }

  lemma CancelKeepsStream(q: Queue, h: History)
    requires StreamInv(q, h)
    ensures StreamInv(AfterCancel(q), RecordCancel(q, h))
  {
    if !q.terminalQueued {
      NothingTerminal(q, h);
      CancelledStream(AfterCancel(q), RecordCancel(q, h), h.queued);
    }
  }

  lemma CancelledStream(q: Queue, h: History, queued: seq<LoginEvent>)
    requires NoTerminal(queued) && queued == h.before + h.lost && NoTerminal(h.before) && NoTerminal(h.lost)
    requires h.after == [] && q.cancelRequested && !q.terminalDelivered
    requires q.events == if q.terminalQueued then [Cancelled] else []
    requires h.queued == queued + q.events
    ensures StreamInv(q, h)
  {
  }

  lemma NoTerminalParts(a: seq<LoginEvent>, b: seq<LoginEvent>, c: seq<LoginEvent>, d: seq<LoginEvent>)
    requires forall i :: 0 <= i < |a + b + c + d| ==> !(a + b + c + d)[i].IsTerminal()
    ensures NoTerminal(a) && NoTerminal(b + d)
  {
    forall i | 0 <= i < |a| ensures !a[i].IsTerminal() {
      assert a[i] == (a + b + c + d)[i];
    }
    forall i | 0 <= i < |b| ensures !b[i].IsTerminal() {
      assert b[i] == (a + b + c + d)[|a| + i];
    }
    forall i | 0 <= i < |d| ensures !d[i].IsTerminal() {
      assert d[i] == (a + b + c + d)[|a + b + c| + i];
    }
  }

  lemma DeliveryKeepsStream(q: Queue, h: History)
    requires StreamInv(q, h) && q.events != []
    ensures StreamInv(Popped(q), RecordDelivery(q, h))
  {
    assert q.events == [q.events[0]] + q.events[1..];
    assert !q.cancelRequested ==> h.queued == h.before + q.events;
  }

  lemma StepKeepsStream(w: World, s: Step)
    requires StreamInv(w.q, w.h) && Enabled(w, s)
    ensures StreamInv(Apply(w, s).q, Apply(w, s).h)
  {
    if s.SinkSends? && !Refuses(w.q, s.event) {
      PushKeepsStream(w.q, w.h, s.event);
    } else if s.TaskPushes? && !Refuses(w.q, w.task.terminal) {
      PushKeepsStream(w.q, w.h, w.task.terminal);
    } else if s.Cancels? {
      CancelKeepsStream(w.q, w.h);
    } else if s.ConsumerChecks? && w.q.events != [] {
      DeliveryKeepsStream(w.q, w.h);
    }
  }

  lemma PushKeepsFlow(w: World, s: Step)
    requires FlowInv(w) && Enabled(w, s) && (s.SinkSends? || s.TaskPushes?)
    ensures FlowInv(Apply(w, s))
  {
  }

  lemma StepKeepsFlow(w: World, s: Step)
    requires FlowInv(w) && Enabled(w, s)
    ensures FlowInv(Apply(w, s))
  {
    if s.SinkSends? || s.TaskPushes? {
      PushKeepsFlow(w, s);
    } else if s.Cancels? {
      assert w.q.flowRunning || w.outcome.None?;
    }
  }

  lemma StepKeepsWake(w: World, s: Step)
    requires WakeInv(w) && Enabled(w, s)
    ensures WakeInv(Apply(w, s))
  {
  }

  lemma {:induction false} RunKeepsInv(ws: seq<World>, ss: seq<Step>, n: nat)
    requires Run(ws, ss) && n <= |ss|
    ensures Inv(ws[n])
    decreases n
  {
    if n > 0 {
      RunKeepsInv(ws, ss, n - 1);
      StepKeepsStream(ws[n - 1], ss[n - 1]);
      StepKeepsFlow(ws[n - 1], ss[n - 1]);
      StepKeepsWake(ws[n - 1], ss[n - 1]);
    }
  }

  // ----- what a front end may rely on -----------------------------------

  /** In every run: at most one terminal event is ever queued and nothing follows it; what the
      consumer was given is what was queued, in order, except what a cancel
      dropped; once it was given a terminal event it is given nothing more. */
  lemma OneTerminalAndLast(ws: seq<World>, ss: seq<Step>, n: nat)
    requires Run(ws, ss) && n <= |ss|
    ensures var w := ws[n];
            && OnlyLastTerminal(w.h.queued) && OnlyLastTerminal(w.h.Delivered())
            && w.h.queued == w.h.before + w.h.lost + w.h.after + w.q.events
            && (EndsTerminal(w.h.Delivered()) ==> w.q.events == [] && Check(w) == w.(consumer := Idle))
  {
    RunKeepsInv(ws, ss, n);
    DeliveredEndsOnce(ws[n].q, ws[n].h);
  }

  lemma DeliveredEndsOnce(q: Queue, h: History)
    requires StreamInv(q, h)
    ensures OnlyLastTerminal(h.Delivered()) && (EndsTerminal(h.Delivered()) ==> q.events == [])
  {
    if q.cancelRequested {
      assert forall i :: 0 <= i < |h.before| ==> h.before[i] in h.before;
    } else {
      assert h.queued == h.before + q.events;
      assert h.Delivered() == h.before;
      assert forall i :: 0 <= i < |h.before| ==> h.before[i] == h.queued[i];
    }
  }

  /** Once a cancel came before the terminal event, every event given from then on is that terminal event. */
  lemma {:induction false} NoStepAfterCancel(ws: seq<World>, ss: seq<Step>, m: nat, n: nat)
    requires Run(ws, ss) && m < n <= |ss| && ss[m].Cancels? && !ws[m].q.terminalQueued
    ensures ws[m].h.Delivered() <= ws[n].h.Delivered()
    ensures var given := ws[n].h.Delivered()[|ws[m].h.Delivered()|..];
            |given| <= 1 && forall e :: e in given ==> e.IsTerminal()
  {
    RunKeepsInv(ws, ss, m);
    RunKeepsInv(ws, ss, n);
    NothingTerminal(ws[m].q, ws[m].h);
    CancelFixesBefore(ws, ss, m, n);
    assert ws[n].h.Delivered()[|ws[m].h.before|..] == ws[n].h.after;
    if ws[n].h.after != [] {
      LastIsTerminal(ws[n].q, ws[n].h);
    }
  }

  lemma LastIsTerminal(q: Queue, h: History)
    requires StreamInv(q, h) && q.cancelRequested && h.after != []
    ensures h.after[0].IsTerminal()
  {
    assert h.queued[|h.queued| - 1] == h.after[0];
  }

  lemma CancelledStep(w: World, s: Step)
    requires Enabled(w, s)
    ensures w.q.cancelRequested || (s.Cancels? && !w.q.terminalQueued)
            ==> Apply(w, s).q.cancelRequested && Apply(w, s).h.before == w.h.before
  {
  }

  lemma {:induction false} CancelFixesBefore(ws: seq<World>, ss: seq<Step>, m: nat, n: nat)
    requires Run(ws, ss) && m < n <= |ss| && ss[m].Cancels? && !ws[m].q.terminalQueued
    ensures ws[n].q.cancelRequested && ws[n].h.before == ws[m].h.before
    decreases n
  {
    CancelledStep(ws[n - 1], ss[n - 1]);
    if m < n - 1 {
      CancelFixesBefore(ws, ss, m, n - 1);
    }
  }

  /** A terminal event tells what happened: `SignedIn` names the account the flow completed
      with, `Cancelled` is given only if the flow never completed, and then it never
      will; `Failed` only if the flow failed or the deadline passed first. */
  lemma TerminalIsHonest(ws: seq<World>, ss: seq<Step>, m: nat, n: nat, e: LoginEvent)
    requires Run(ws, ss) && m <= n <= |ss| && e in ws[m].h.Delivered()
    ensures Honest(ws[n].outcome, ws[n].timedOut, e)
  {
    RunKeepsInv(ws, ss, m);
    RunKeepsInv(ws, ss, n);
    DeliveredWasQueued(ws[m].q, ws[m].h, e);
    QueuedStays(ws, ss, m, n, e);
  }

  lemma DeliveredWasQueued(q: Queue, h: History, e: LoginEvent)
    requires StreamInv(q, h) && e in h.Delivered()
    ensures e in h.queued
  {
  }

  lemma {:induction false} QueuedStays(ws: seq<World>, ss: seq<Step>, m: nat, n: nat, e: LoginEvent)
    requires Run(ws, ss) && m <= n <= |ss| && e in ws[m].h.queued
    ensures e in ws[n].h.queued
    decreases n
  {
    if m < n {
      QueuedStays(ws, ss, m, n - 1, e);
      QueuedStep(ws, ss, n - 1, e);
    }
  }

  lemma QueuedStep(ws: seq<World>, ss: seq<Step>, k: nat, e: LoginEvent)
    requires Run(ws, ss) && k < |ss| && e in ws[k].h.queued
    ensures e in ws[k + 1].h.queued
  {
    var w, s := ws[k], ss[k];
    assert e in Apply(w, s).h.queued;
  }

  // ----- what a cancel stops --------------------------------------------

  /** The flow has not completed, and its task has decided otherwise or will find the stop
      before it polls the flow again. */
  predicate PastCompleting(w: World)
  {
    w.outcome.None? && (w.task.Decided? || w.task.Finished? || (w.stop && !w.task.AtFlow?))
  }

  lemma PastCompletingStep(w: World, s: Step)
    requires PastCompleting(w) && FlowInv(w) && Enabled(w, s)
    ensures PastCompleting(Apply(w, s))
  {
  }

  /** A stop that is there while the flow task is not inside a poll of the flow keeps the flow
      from ever completing. */
  lemma {:induction false} StoppedFlowNeverCompletes(ws: seq<World>, ss: seq<Step>, m: nat, n: nat)
    requires Run(ws, ss) && m <= n <= |ss| && ws[m].stop && ws[m].outcome.None? && !ws[m].task.AtFlow?
    ensures PastCompleting(ws[n])
    decreases n
  {
    if m < n {
      StoppedFlowNeverCompletes(ws, ss, m, n - 1);
      RunKeepsInv(ws, ss, n - 1);
      PastCompletingStep(ws[n - 1], ss[n - 1]);
    }
  }

  /** Some continuation of the run has the flow complete. */
  ghost predicate CanComplete(ws: seq<World>, ss: seq<Step>)
  {
    exists more: seq<World>, steps: seq<Step> ::
      Run(more, steps) && ws <= more && ss <= steps && more[|steps|].outcome.Some?
  }

  lemma RunOn(ws: seq<World>, ss: seq<Step>, s: Step)
    requires Run(ws, ss) && Enabled(ws[|ss|], s)
    ensures Run(ws + [Apply(ws[|ss|], s)], ss + [s])
  {
  }

  /** After a cancel, once its stop is set and the flow has not completed, the flow can still
      complete exactly when its task is already inside a poll of it. */
  lemma CompletesAfterStopIff(ws: seq<World>, ss: seq<Step>)
    requires Run(ws, ss) && ws[|ss|].stop && ws[|ss|].outcome.None?
    ensures CanComplete(ws, ss) <==> ws[|ss|].task.AtFlow?
  {
    var w, m := ws[|ss|], |ss|;
    if w.task.AtFlow? {
      var s := TaskPollsFlow(Some(Ok("")));
      RunOn(ws, ss, s);
      var more, steps := ws + [Apply(w, s)], ss + [s];
      assert more[|steps|].outcome.Some?;
    } else if CanComplete(ws, ss) {
      var more: seq<World>, steps: seq<Step> :| Run(more, steps) && ws <= more && ss <= steps && more[|steps|].outcome.Some?;
      assert more[m] == w;
      StoppedFlowNeverCompletes(more, steps, m, |steps|);
    }
  }

  /** A sign-in whose task is about to poll its flow. */
  function Polling(q: Queue, stop: bool, readyPending: nat, stopPending: nat): World
  {
    World(q, Started, AtFlow, None, false, Idle, false, stop, readyPending, stopPending, History([], [], [], []))
  }

  lemma Begins() returns (ws: seq<World>, ss: seq<Step>)
    ensures Run(ws, ss) && |ss| == 6 && Cancels !in ss && ws[6] == Polling(EMPTY_QUEUE.(flowRunning := true), false, 0, 0)
  {
    ss := [BeginTakesStage, BeginChecksCancel, BeginPrechecks(true), BeginStarts, BeginSpawns, TaskChecksStop];
    var w0 := World(EMPTY_QUEUE, NotBegun, Absent, None, false, Idle, false, false, 0, 0, History([], [], [], []));
    var w1 := Apply(w0, ss[0]);
    var w2 := Apply(w1, ss[1]);
    var w3 := Apply(w2, ss[2]);
    var w4 := Apply(w3, ss[3]);
    var w5 := Apply(w4, ss[4]);
    ws := [w0, w1, w2, w3, w4, w5, Apply(w5, ss[5])];
  }

  lemma CancelLocks() returns (ws: seq<World>, ss: seq<Step>)
    ensures Run(ws, ss) && |ss| == 7 && ss[6] == Cancels
    ensures ws[7] == Polling(EMPTY_QUEUE.(flowRunning := true, cancelRequested := true), false, 1, 1)
  {
    ws, ss := Begins();
    RunOn(ws, ss, Cancels);
    ws, ss := ws + [Apply(ws[6], Cancels)], ss + [Cancels];
  }

  lemma CancelReturns() returns (ws: seq<World>, ss: seq<Step>)
    ensures Run(ws, ss) && |ss| == 9 && ss[6] == Cancels && ss[7] == NotifiesReady && ss[8] == NotifiesStop
    ensures ws[9] == Polling(EMPTY_QUEUE.(flowRunning := true, cancelRequested := true), true, 0, 0).(ready := true)
  {
    ws, ss := CancelLocks();
    var w8 := Polling(ws[7].q, false, 0, 1).(ready := true);
    assert Apply(ws[7], NotifiesReady) == w8;
    RunOn(ws, ss, NotifiesReady);
    ws, ss := ws + [w8], ss + [NotifiesReady];
    RunOn(ws, ss, NotifiesStop);
    ws, ss := ws + [Apply(w8, NotifiesStop)], ss + [NotifiesStop];
  }

  /** A whole cancel, both of its notifications sent, finds the flow task past its look at the stop: the
      flow then completes, and the sign-in is given out. */
  lemma CancelTooLate(account: Account) returns (ws: seq<World>, ss: seq<Step>)
    ensures Run(ws, ss) && |ss| == 13 && ss[6] == Cancels && ss[8] == NotifiesStop
    ensures ws[9].outcome.None? && ws[9].stop
    ensures ss[9] == TaskPollsFlow(Some(Ok(account))) && ws[13].h.Delivered() == [SignedIn(account)]
  {
    ws, ss := CancelReturns();
    var s9 := TaskPollsFlow(Some(Ok(account)));
    var w10 := Apply(ws[9], s9);
    var w11 := Apply(w10, TaskPushes);
    var w12 := Apply(w11, ConsumerCalls);
    ws, ss := ws + [w10, w11, w12, Apply(w12, ConsumerChecks)], ss + [s9, TaskPushes, ConsumerCalls, ConsumerChecks];
  }

  /** No lost wakeup: a parked consumer beside a queued event has a `notify_one` still to
      come, and any that comes wakes it. */
  lemma NoLostWakeup(ws: seq<World>, ss: seq<Step>, n: nat)
    requires Run(ws, ss) && n <= |ss| && ws[n].consumer.Parked? && ws[n].q.events != []
    ensures Enabled(ws[n], NotifiesReady) && Apply(ws[n], NotifiesReady).consumer.Woken?
  {
    RunKeepsInv(ws, ss, n);
  }
}
