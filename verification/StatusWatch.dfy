/** The status poll loop and its one consumer (session.rs), step by step. A mutex
    section is one step; the `notify_one` after it is another. */
module StatusWatch {
  import opened Bytes

  /** A snapshot with its capture time, or a result that has none. */
  datatype StatusUpdate = Snapshot(capturedAt: nat, content: string) | Unavailable(detail: string)

  predicate SameContent(a: StatusUpdate, b: StatusUpdate)
  {
    match (a, b)
    case (Snapshot(t, _), Snapshot(_, _)) => a == b.(capturedAt := t)
    case _ => a == b
  }

  /** "Equal apart from the capture time" is an equivalence, and exactly equality of what a reader is shown. */
  lemma SameContentIsEquivalence(a: StatusUpdate, b: StatusUpdate, c: StatusUpdate)
    ensures SameContent(a, a)
    ensures SameContent(a, b) ==> SameContent(b, a)
    ensures SameContent(a, b) && SameContent(b, c) ==> SameContent(a, c)
    ensures SameContent(a, b)
            <==> (a.Snapshot? && b.Snapshot? && a.content == b.content)
                 || (a.Unavailable? && b.Unavailable? && a.detail == b.detail)
  {
  }

  // ----- the slot -------------------------------------------------------

  datatype Slot = Slot(value: Option<StatusUpdate>, unread: bool, cancelled: bool)

  predicate Unchanged(s: Slot, update: StatusUpdate)
  {
    s.value.Some? && SameContent(s.value.value, update)
  }

  /** Whether `publish` leaves the slot alone. */
  predicate Skips(s: Slot, update: StatusUpdate, forced: bool)
  {
    s.cancelled || (Unchanged(s, update) && !forced)
  }

  function Stored(s: Slot, update: StatusUpdate, forced: bool): Slot
  {
    if Skips(s, update, forced) then s
    else s.(value := if Unchanged(s, update) then s.value else Some(update), unread := true)
  }

  class WatchSlot {
    var value: Option<StatusUpdate>
    var unread: bool
    var cancelled: bool

    constructor ()
      ensures Contents() == Slot(None, false, false)
    {
      value, unread, cancelled := None, false, false;
    }

    function Contents(): Slot
      reads this
    {
      Slot(value, unread, cancelled)
    }

    method Publish(update: StatusUpdate, forced: bool) returns (notify: bool)
      modifies this
      ensures Contents() == Stored(old(Contents()), update, forced)
      ensures notify == !Skips(old(Contents()), update, forced)
    {
      if cancelled {
        return false;
      }
      var same := value.Some? && SameContent(value.value, update);
      if same && !forced {
        return false;
      }
      if !same {
        value := Some(update);
      }
      unread := true;
      return true;
    }

    method TryNext() returns (ended: bool, update: Option<StatusUpdate>)
      modifies this`unread
      ensures ended == old(cancelled)
      ensures !ended && old(unread) ==> update == value && !unread
      ensures ended || !old(unread) ==> update == None && unread == old(unread)
    {
      if cancelled {
        return true, None;
      }
      if unread {
        unread := false;
        return false, value;
      }
      return false, None;
    }

    method Cancel()
      modifies this`cancelled
      ensures cancelled
    {
      cancelled := true;
    }
  }

  // ----- the machine ----------------------------------------------------

  datatype Task = AtPoll(forced: bool) | Polled(update: StatusUpdate, forced: bool) | AtWait | Finished

  datatype Consumer = Idle | Checking | Awaiting | Parked | Woken

  datatype Poll = Poll(update: StatusUpdate, forced: bool)

  /** `polls` is every result published while the watch was not cancelled, `delivered`
      every result returned, and `seen` how many polls came before the last
      of those. */
  datatype World = World(
    slot: Slot, task: Task, consumer: Consumer, ready: bool, readyPending: nat, refresh: bool, stop: bool, stopPending: nat,
    polls: seq<Poll>, delivered: seq<StatusUpdate>, seen: nat)

  datatype Step =
    | TaskStops | TaskPolls(update: StatusUpdate) | TaskPublishes | TaskRefreshes | TaskSleeps
    | Refreshes | Cancels | NotifiesReady | NotifiesStop
    | ConsumerCalls | ConsumerChecks | ConsumerWaits | ConsumerResumes | ConsumerAbandons

  /** A watch starts polling, or starts cancelled where there is no runtime to poll on. */
  predicate Initial(w: World)
  {
    && w.slot.value.None? && !w.slot.unread && w.task == (if w.slot.cancelled then Finished else AtPoll(false))
    && w.consumer.Idle? && !w.ready && w.readyPending == 0 && !w.refresh && !w.stop && w.stopPending == 0
    && w.polls == [] && w.delivered == [] && w.seen == 0
  }

  predicate Enabled(w: World, s: Step)
  {
    match s
    case TaskStops => w.stop && (w.task.AtPoll? || w.task.AtWait?)
    case TaskPolls(_) => w.task.AtPoll?
    case TaskPublishes => w.task.Polled?
    case TaskRefreshes => w.task.AtWait? && w.refresh
    case TaskSleeps => w.task.AtWait?
    case Refreshes => true
    case Cancels => true
    case NotifiesReady => w.readyPending > 0
    case NotifiesStop => w.stopPending > 0
    case ConsumerCalls => w.consumer.Idle?
    case ConsumerChecks => w.consumer.Checking?
    case ConsumerWaits => w.consumer.Awaiting?
    case ConsumerResumes => w.consumer.Woken?
    case ConsumerAbandons => !w.consumer.Idle?
  }

  function Publish(w: World, update: StatusUpdate, forced: bool): World
  {
    w.(task := AtWait, slot := Stored(w.slot, update, forced),
       readyPending := w.readyPending + if Skips(w.slot, update, forced) then 0 else 1,
       polls := if w.slot.cancelled then w.polls else w.polls + [Poll(update, forced)])
  }

  function Check(w: World): World
  {
    if w.slot.cancelled then w.(consumer := Idle)
    else if w.slot.unread && w.slot.value.Some? then
      w.(consumer := Idle, slot := w.slot.(unread := false),
         delivered := w.delivered + [w.slot.value.value], seen := |w.polls|)
    else w.(consumer := Awaiting)
  }

  function Apply(w: World, s: Step): World
    requires Enabled(w, s)
  {
    match s
    case TaskStops => w.(stop := false, task := Finished)
    case TaskPolls(update) => w.(task := Polled(update, w.task.forced))
    case TaskPublishes => Publish(w, w.task.update, w.task.forced)
    case TaskRefreshes => w.(refresh := false, task := AtPoll(true))
    case TaskSleeps => w.(task := AtPoll(false))
    case Refreshes => w.(refresh := true)
    case Cancels =>
      w.(slot := w.slot.(cancelled := true), readyPending := w.readyPending + 1, stopPending := w.stopPending + 1)
    case NotifiesReady =>
      var sent := w.(readyPending := w.readyPending - 1);
      if w.consumer.Parked? then sent.(consumer := Woken) else sent.(ready := true)
    case NotifiesStop => w.(stopPending := w.stopPending - 1, stop := true)
    case ConsumerCalls => w.(consumer := Checking)
    case ConsumerChecks => Check(w)
    case ConsumerWaits => if w.ready then w.(ready := false, consumer := Checking) else w.(consumer := Parked)
    case ConsumerResumes => w.(consumer := Checking)
    case ConsumerAbandons => w.(consumer := Idle, ready := w.ready || w.consumer.Woken?)
  }

  predicate Run(ws: seq<World>, ss: seq<Step>)
  {
    && |ws| == |ss| + 1 && Initial(ws[0])
    && forall i :: 0 <= i < |ss| ==> Enabled(ws[i], ss[i]) && ws[i + 1] == Apply(ws[i], ss[i])
  }

  // ----- the invariant --------------------------------------------------

  /** Poll `j` is one the consumer must be told of: the first, a forced one, or one
      whose content differs from the poll before it. */
  predicate Matters(polls: seq<Poll>, j: nat)
    requires j < |polls|
  {
    j == 0 || polls[j].forced || !SameContent(polls[j - 1].update, polls[j].update)
  }

  predicate SlotInv(slot: Slot, polls: seq<Poll>, delivered: seq<StatusUpdate>, seen: nat)
  {
    && seen <= |polls| && (slot.value.None? <==> polls == [])
    && (slot.value.Some? ==> SameContent(slot.value.value, polls[|polls| - 1].update))
    && (slot.unread <==> exists j :: seen <= j < |polls| && Matters(polls, j))
    && (!slot.unread && slot.value.Some? ==>
          delivered != [] && SameContent(delivered[|delivered| - 1], slot.value.value))
  }

  predicate WakeInv(w: World)
  {
    && (w.consumer.Parked? ==> !w.ready)
    && ((w.consumer.Awaiting? || w.consumer.Parked?) && (w.slot.unread || w.slot.cancelled) ==> w.ready || w.readyPending > 0)
  }

  lemma PublishKeepsSlot(
    slot: Slot, polls: seq<Poll>, delivered: seq<StatusUpdate>, seen: nat, update: StatusUpdate, forced: bool)
    requires SlotInv(slot, polls, delivered, seen) && !slot.cancelled
    ensures SlotInv(Stored(slot, update, forced), polls + [Poll(update, forced)], delivered, seen)
  {
    var n := |polls|;
    var more := polls + [Poll(update, forced)];
    assert forall j :: 0 <= j < n ==> Matters(polls, j) == Matters(more, j);
    assert Matters(more, n) <==> !(Unchanged(slot, update) && !forced);
  }

  lemma DeliveryKeepsSlot(slot: Slot, polls: seq<Poll>, delivered: seq<StatusUpdate>, seen: nat)
    requires SlotInv(slot, polls, delivered, seen) && slot.value.Some?
    ensures SlotInv(slot.(unread := false), polls, delivered + [slot.value.value], |polls|)
  {
  }

  lemma StepKeepsSlot(w: World, s: Step)
    requires SlotInv(w.slot, w.polls, w.delivered, w.seen) && Enabled(w, s)
    ensures var next := Apply(w, s); SlotInv(next.slot, next.polls, next.delivered, next.seen)
  {
    if s.TaskPublishes? && !w.slot.cancelled {
      PublishKeepsSlot(w.slot, w.polls, w.delivered, w.seen, w.task.update, w.task.forced);
    } else if s.ConsumerChecks? && w.slot.value.Some? {
      DeliveryKeepsSlot(w.slot, w.polls, w.delivered, w.seen);
    }
  }

  lemma StepKeepsWake(w: World, s: Step)
    requires WakeInv(w) && SlotInv(w.slot, w.polls, w.delivered, w.seen) && Enabled(w, s)
    ensures WakeInv(Apply(w, s))
  {
  }

  lemma {:induction false} RunKeepsInv(ws: seq<World>, ss: seq<Step>, n: nat)
    requires Run(ws, ss) && n <= |ss|
    ensures SlotInv(ws[n].slot, ws[n].polls, ws[n].delivered, ws[n].seen) && WakeInv(ws[n])
    decreases n
  {
    if n > 0 {
      RunKeepsInv(ws, ss, n - 1);
      StepKeepsSlot(ws[n - 1], ss[n - 1]);
      StepKeepsWake(ws[n - 1], ss[n - 1]);
    }
  }

  // ----- what a front end may rely on -----------------------------------

  /** With nothing unread and the watch not cancelled, the last result returned shows what the
      latest poll found; and there is something unread exactly when a poll since
      then was forced or found something else than the poll before it. */
  lemma NeverStale(ws: seq<World>, ss: seq<Step>, n: nat)
    requires Run(ws, ss) && n <= |ss| && ws[n].polls != []
    ensures var w := ws[n];
            && (!w.slot.unread ==>
                  w.delivered != [] && SameContent(w.delivered[|w.delivered| - 1], w.polls[|w.polls| - 1].update))
            && (w.slot.unread <==> exists j :: w.seen <= j < |w.polls| && Matters(w.polls, j))
  {
    RunKeepsInv(ws, ss, n);
    var w := ws[n];
    if !w.slot.unread {
      SameContentIsEquivalence(w.delivered[|w.delivered| - 1], w.slot.value.value, w.polls[|w.polls| - 1].update);
    }
  }

  /** A parked consumer that has something to read, or whose watch was cancelled, has a
      wakeup still to come. */
  lemma NoLostWakeup(ws: seq<World>, ss: seq<Step>, n: nat)
    requires Run(ws, ss) && n <= |ss| && ws[n].consumer.Parked? && (ws[n].slot.unread || ws[n].slot.cancelled)
    ensures Enabled(ws[n], NotifiesReady) && Apply(ws[n], NotifiesReady).consumer.Woken?
  {
    RunKeepsInv(ws, ss, n);
  }

  lemma FirstDelivery(a: StatusUpdate) returns (ws: seq<World>, ss: seq<Step>)
    ensures Run(ws, ss) && |ss| == 4 && Refreshes !in ss
    ensures ws[4] == World(Slot(Some(a), false, false), AtWait, Idle, false, 1, false, false, 0, [Poll(a, false)], [a], 1)
  {
    ss := [TaskPolls(a), TaskPublishes, ConsumerCalls, ConsumerChecks];
    var w0 := World(Slot(None, false, false), AtPoll(false), Idle, false, 0, false, false, 0, [], [], 0);
    var w1 := Apply(w0, ss[0]);
    var w2 := Apply(w1, ss[1]);
    var w3 := Apply(w2, ss[2]);
    ws := [w0, w1, w2, w3, Apply(w3, ss[3])];
  }

  /** One unforced poll that finds something new. */
  lemma PollsNew(ws: seq<World>, ss: seq<Step>, a: StatusUpdate) returns (ws': seq<World>, ss': seq<Step>)
    requires Run(ws, ss) && Refreshes !in ss && ws[|ss|].task.AtWait?
    requires !ws[|ss|].slot.cancelled && !Unchanged(ws[|ss|].slot, a)
    ensures Run(ws', ss') && Refreshes !in ss'
    ensures var w := ws[|ss|];
            ws'[|ss'|] == w.(slot := Slot(Some(a), true, false), readyPending := w.readyPending + 1,
                             polls := w.polls + [Poll(a, false)])
  {
    var w := ws[|ss|];
    var w1 := Apply(w, TaskSleeps);
    var w2 := Apply(w1, TaskPolls(a));
    ws', ss' := ws + [w1, w2, Apply(w2, TaskPublishes)], ss + [TaskSleeps, TaskPolls(a), TaskPublishes];
  }

  /** A slow consumer can be given the same content twice in a row with no refresh: the result
      changed and changed back while it was not reading. */
  lemma SameContentTwice(a: StatusUpdate, b: StatusUpdate) returns (ws: seq<World>, ss: seq<Step>)
    requires !SameContent(a, b)
    ensures Run(ws, ss) && Refreshes !in ss && ws[|ss|].delivered == [a, a]
  {
    SameContentIsEquivalence(b, a, b);
    ws, ss := FirstDelivery(a);
    ws, ss := PollsNew(ws, ss, b);
    ws, ss := PollsNew(ws, ss, a);
    var w1 := Apply(ws[|ss|], ConsumerCalls);
    ws, ss := ws + [w1, Apply(w1, ConsumerChecks)], ss + [ConsumerCalls, ConsumerChecks];
  }
}
