/** The start/stop protocol of link slots (link_registry.rs): starts reserve a slot
    and later publish or give it up; stops wait out a start and take what is ready.
    A mutex section is one step; the `notify_waiters` after it is another. Stops
    of one path are serialized by its stop lock. */
module LinkSlots {
  import opened Bytes

  type Path = string
  type Runtime = nat
  type StartId = nat
  type StopId = nat

  datatype Slot = Starting | Ready(runtime: Runtime)

  /** A reservation, resolved once published or given up. */
  datatype Start = Start(path: Path, resolved: bool)

  /** A stop has registered for wakeups, found the slot starting and waits, found it
      settled and is about to take it, or is done. `woken` says a wakeup came since it registered. */
  datatype Stage =
    | Registered(woken: bool) | Waiting(woken: bool) | Taking | Done(taken: Option<Runtime>) | Panicked

  datatype Stop = Stop(path: Path, stage: Stage)

  datatype World = World(slots: map<Path, Slot>, starts: map<StartId, Start>, stops: map<StopId, Stop>, notifies: nat)

  const EMPTY := World(map[], map[], map[], 0)

  datatype Step =
    | Reserve(start: StartId, path: Path)
    | Publish(start: StartId, runtime: Runtime)
    | GiveUp(start: StartId)
    | Notify
    | StopRegisters(stop: StopId, path: Path)
    | StopLooks(stop: StopId)
    | StopWakes(stop: StopId)
    | StopTakes(stop: StopId)

  predicate Active(stop: Stop)
  {
    !stop.stage.Done? && !stop.stage.Panicked?
  }

  predicate Enabled(w: World, s: Step)
  {
    match s
    case Reserve(a, _) => a !in w.starts
    case Publish(a, _) => a in w.starts && !w.starts[a].resolved
    case GiveUp(a) => a in w.starts && !w.starts[a].resolved
    case Notify => w.notifies > 0
    case StopRegisters(b, path) =>
      b !in w.stops && forall other :: other in w.stops && w.stops[other].path == path ==> !Active(w.stops[other])
    case StopLooks(b) => b in w.stops && w.stops[b].stage.Registered?
    case StopWakes(b) => b in w.stops && w.stops[b].stage.Waiting? && w.stops[b].stage.woken
    case StopTakes(b) => b in w.stops && w.stops[b].stage.Taking?
  }

  function Wake(stage: Stage): Stage
  {
    match stage
    case Registered(_) => Registered(true)
    case Waiting(_) => Waiting(true)
    case _ => stage
  }

  function Look(w: World, path: Path, woken: bool): Stage
  {
    if path in w.slots && w.slots[path].Starting? then Waiting(woken) else Taking
  }

  /** What a stop does with the slot it finds when it takes it. */
  function Take(w: World, path: Path): Stage
  {
    if path !in w.slots then Done(None)
    else match w.slots[path]
         case Ready(runtime) => Done(Some(runtime))
         case Starting => Panicked
  }

  function Apply(w: World, s: Step): World
    requires Enabled(w, s)
  {
    match s
    case Reserve(a, path) =>
      if path in w.slots then w
      else w.(slots := w.slots[path := Starting], starts := w.starts[a := Start(path, false)])
    case Publish(a, runtime) =>
      w.(slots := w.slots[w.starts[a].path := Ready(runtime)], starts := w.starts[a := w.starts[a].(resolved := true)],
         notifies := w.notifies + 1)
    case GiveUp(a) =>
      w.(slots := w.slots - {w.starts[a].path}, starts := w.starts[a := w.starts[a].(resolved := true)],
         notifies := w.notifies + 1)
    case Notify =>
      w.(notifies := w.notifies - 1,
         stops := map b | b in w.stops :: w.stops[b].(stage := Wake(w.stops[b].stage)))
    case StopRegisters(b, path) => w.(stops := w.stops[b := Stop(path, Registered(false))])
    case StopLooks(b) =>
      w.(stops := w.stops[b := w.stops[b].(stage := Look(w, w.stops[b].path, w.stops[b].stage.woken))])
    case StopWakes(b) => w.(stops := w.stops[b := w.stops[b].(stage := Registered(false))])
    case StopTakes(b) =>
      w.(slots := w.slots - {w.stops[b].path}, stops := w.stops[b := w.stops[b].(stage := Take(w, w.stops[b].path))])
  }

  predicate Run(ws: seq<World>, ss: seq<Step>)
  {
    && |ws| == |ss| + 1 && ws[0] == EMPTY
    && forall i :: 0 <= i < |ss| ==> Enabled(ws[i], ss[i]) && ws[i + 1] == Apply(ws[i], ss[i])
  }

  // ----- the invariant --------------------------------------------------

  /** `a` is a reservation of `path` that is not resolved yet. */
  predicate Owns(w: World, a: StartId, path: Path)
  {
    a in w.starts && w.starts[a] == Start(path, false)
  }

  predicate IsStarting(w: World, path: Path)
  {
    path in w.slots && w.slots[path].Starting?
  }

  /** The slot of `path` is starting exactly while one unresolved reservation owns it. */
  ghost predicate SlotInv(w: World, path: Path)
  {
    && (IsStarting(w, path) ==> exists a :: Owns(w, a, path))
    && (forall a :: Owns(w, a, path) ==> IsStarting(w, path))
    && (forall a, b :: Owns(w, a, path) && Owns(w, b, path) ==> a == b)
  }

  ghost predicate PanickedOn(w: World, path: Path)
  {
    exists b :: b in w.stops && w.stops[b] == Stop(path, Panicked)
  }

  /** A waiting stop that was not woken still has a reason to wait, or a wakeup to come. */
  predicate WaitInv(w: World, stop: Stop)
  {
    stop.stage.Waiting? && !stop.stage.woken ==> IsStarting(w, stop.path) || w.notifies > 0
  }

  ghost predicate OneStopPerPath(w: World)
  {
    forall b, c :: b in w.stops && c in w.stops && w.stops[b].path == w.stops[c].path ==>
                     Active(w.stops[b]) && Active(w.stops[c]) ==> b == c
  }

  /** After a stop of a path panicked, the slot it removed no longer says who owns that path, and
      only the waking of its stops is still promised. */
  ghost predicate Inv(w: World)
  {
    && OneStopPerPath(w)
    && (forall b :: b in w.stops ==> WaitInv(w, w.stops[b]))
    && (forall path :: !PanickedOn(w, path) ==> SlotInv(w, path))
  }

  // ----- every step keeps it --------------------------------------------

  lemma StepKeepsOneStop(w: World, s: Step)
    requires OneStopPerPath(w) && Enabled(w, s)
    ensures OneStopPerPath(Apply(w, s))
  {
  }

  lemma PanicStays(w: World, s: Step, path: Path)
    requires Enabled(w, s) && PanickedOn(w, path)
    ensures PanickedOn(Apply(w, s), path)
  {
    var b :| b in w.stops && w.stops[b] == Stop(path, Panicked);
    assert b in Apply(w, s).stops && Apply(w, s).stops[b] == Stop(path, Panicked);
  }

  /** Unless the path has panicked, it had not before either. */
  lemma NoPanicBefore(w: World, s: Step, path: Path)
    requires Enabled(w, s) && !PanickedOn(Apply(w, s), path)
    ensures !PanickedOn(w, path)
  {
    if PanickedOn(w, path) {
      PanicStays(w, s, path);
    }
  }

  lemma StepKeepsWaiting(w: World, s: Step, b: StopId)
    requires Inv(w) && Enabled(w, s) && b in Apply(w, s).stops
    ensures WaitInv(Apply(w, s), Apply(w, s).stops[b])
  {
    if b in w.stops {
      assert WaitInv(w, w.stops[b]);
    }
  }

  /** The reservation `a` ends with this step. */
  predicate Resolves(s: Step, a: StartId)
  {
    (s.Publish? || s.GiveUp?) && s.start == a
  }

  predicate Reserves(w: World, s: Step, path: Path)
  {
    s.Reserve? && s.path == path && path !in w.slots
  }

  lemma OwnsAfter(w: World, s: Step, a: StartId, path: Path)
    requires Enabled(w, s)
    ensures Owns(Apply(w, s), a, path)
            <==> (Owns(w, a, path) && !Resolves(s, a)) || (Reserves(w, s, path) && s.start == a)
  {
  }

  lemma StartingAfter(w: World, s: Step, path: Path)
    requires SlotInv(w, path) && Enabled(w, s) && !PanickedOn(Apply(w, s), path)
    ensures IsStarting(Apply(w, s), path)
            <==> (IsStarting(w, path) && forall a :: Owns(w, a, path) ==> !Resolves(s, a)) || Reserves(w, s, path)
  {
    if s.Publish? || s.GiveUp? {
      assert Owns(w, s.start, w.starts[s.start].path);
      if IsStarting(w, path) {
        var a :| Owns(w, a, path);
      }
    }
    if s.StopTakes? {
      assert Apply(w, s).stops[s.stop] == Stop(w.stops[s.stop].path, Take(w, w.stops[s.stop].path));
    }
  }

  lemma StepKeepsSlot(w: World, s: Step, path: Path)
    requires SlotInv(w, path) && Enabled(w, s) && !PanickedOn(Apply(w, s), path)
    ensures SlotInv(Apply(w, s), path)
  {
    var next := Apply(w, s);
    StartingAfter(w, s, path);
    if IsStarting(next, path) {
      var a := if Reserves(w, s, path) then s.start else var b :| Owns(w, b, path); b;
      OwnsAfter(w, s, a, path);
    }
    forall a | Owns(next, a, path) ensures IsStarting(next, path) {
      OwnsAfter(w, s, a, path);
    }
    forall a, b | Owns(next, a, path) && Owns(next, b, path) ensures a == b {
      OwnsAfter(w, s, a, path);
      OwnsAfter(w, s, b, path);
    }
  }

  lemma StepKeepsInv(w: World, s: Step)
    requires Inv(w) && Enabled(w, s)
    ensures Inv(Apply(w, s))
  {
    var next := Apply(w, s);
    StepKeepsOneStop(w, s);
    forall b | b in next.stops ensures WaitInv(next, next.stops[b]) {
      StepKeepsWaiting(w, s, b);
    }
    forall path | !PanickedOn(next, path) ensures SlotInv(next, path) {
      NoPanicBefore(w, s, path);
      StepKeepsSlot(w, s, path);
    }
  }

  lemma {:induction false} RunKeepsInv(ws: seq<World>, ss: seq<Step>, n: nat)
    requires Run(ws, ss) && n <= |ss|
    ensures Inv(ws[n])
    decreases n
  {
    if n > 0 {
      RunKeepsInv(ws, ss, n - 1);
      StepKeepsInv(ws[n - 1], ss[n - 1]);
    }
  }

  // ----- what starts and stops may rely on ------------------------------

  /** In every run, unless a stop of the path panicked, its slot is starting exactly while one
      unresolved reservation owns it; panics on other paths do not matter. */
  lemma StartingWhileReserved(ws: seq<World>, ss: seq<Step>, n: nat, path: Path)
    requires Run(ws, ss) && n <= |ss| && !PanickedOn(ws[n], path)
    ensures IsStarting(ws[n], path) <==> exists a :: Owns(ws[n], a, path)
    ensures forall a, b :: Owns(ws[n], a, path) && Owns(ws[n], b, path) ==> a == b
  {
    RunKeepsInv(ws, ss, n);
    assert SlotInv(ws[n], path);
  }

  /** A stop that waits is woken, or its slot is still starting, or the wakeup of the
      transition that ended that is still to come and will reach it. */
  lemma WaitingStopIsWoken(ws: seq<World>, ss: seq<Step>, n: nat, b: StopId)
    requires Run(ws, ss) && n <= |ss| && b in ws[n].stops && ws[n].stops[b].stage.Waiting?
    ensures || Enabled(ws[n], StopWakes(b)) || IsStarting(ws[n], ws[n].stops[b].path)
            || (Enabled(ws[n], Notify) && Enabled(Apply(ws[n], Notify), StopWakes(b)))
  {
    RunKeepsInv(ws, ss, n);
    assert WaitInv(ws[n], ws[n].stops[b]);
  }

  lemma TakingStep(w: World, s: Step, b: StopId)
    requires Enabled(w, s) && b in w.stops && (w.stops[b].stage.Taking? || !Active(w.stops[b]))
    ensures var next := Apply(w, s);
            && b in next.stops && next.stops[b].path == w.stops[b].path
            && (next.stops[b].stage.Taking? ==> next.stops[b] == w.stops[b])
            && (next.stops[b].stage.Taking? || !Active(next.stops[b]))
  {
  }

  /** A stop that found its path settled is about to take it until it has. */
  lemma {:induction false} TakingKept(ws: seq<World>, ss: seq<Step>, m: nat, n: nat, b: StopId)
    requires Run(ws, ss) && m < n <= |ss| && b in ws[m].stops && ss[m] == StopLooks(b)
    requires !IsStarting(ws[m], ws[m].stops[b].path)
    ensures b in ws[n].stops && ws[n].stops[b].path == ws[m].stops[b].path
    ensures ws[n].stops[b].stage.Taking? || !Active(ws[n].stops[b])
    decreases n
  {
    if m + 1 < n {
      TakingKept(ws, ss, m, n - 1, b);
      TakingStep(ws[n - 1], ss[n - 1], b);
    }
  }

  /** A slot that was not starting at `m` and is at `n` was reserved in between, by a start that
      still owns it. */
  lemma {:induction false} StartingSince(ws: seq<World>, ss: seq<Step>, m: nat, n: nat, path: Path)
    returns (j: nat, a: StartId)
    requires Run(ws, ss) && m <= n <= |ss| && !IsStarting(ws[m], path) && IsStarting(ws[n], path)
    ensures m <= j < n && ss[j] == Reserve(a, path) && Owns(ws[n], a, path)
    decreases n
  {
    var w, s := ws[n - 1], ss[n - 1];
    if IsStarting(w, path) {
      j, a := StartingSince(ws, ss, m, n - 1, path);
      StillOwns(w, s, a, path);
    } else {
      j, a := n - 1, s.start;
    }
  }

  lemma StillOwns(w: World, s: Step, a: StartId, path: Path)
    requires Enabled(w, s) && Owns(w, a, path) && IsStarting(Apply(w, s), path)
    ensures Owns(Apply(w, s), a, path)
  {
    OwnsAfter(w, s, a, path);
  }

  /** Between stop `b`'s look at `m`, which found the path settled, and its take at `t`, start `a`
      reserved the path at `j` and was still unresolved at the take. */
  predicate SlippedIn(ws: seq<World>, ss: seq<Step>, path: Path, b: StopId, m: nat, j: nat, t: nat, a: StartId)
    requires Run(ws, ss)
  {
    && m < j < t < |ss| && ss[m] == StopLooks(b) && ss[t] == StopTakes(b) && ss[j] == Reserve(a, path)
    && b in ws[m].stops && ws[m].stops[b].path == path && !IsStarting(ws[m], path) && Owns(ws[t], a, path)
  }

  /** On a path that has not panicked, a take reaches the branch called unreachable exactly when a
      start of it slipped in between the stop's two lock acquisitions. */
  lemma TakePanicsIff(ws: seq<World>, ss: seq<Step>, m: nat, t: nat, b: StopId, path: Path)
    requires Run(ws, ss) && m < t < |ss| && ss[m] == StopLooks(b) && ss[t] == StopTakes(b)
    requires b in ws[m].stops && ws[m].stops[b].path == path && !IsStarting(ws[m], path) && !PanickedOn(ws[t], path)
    ensures b in ws[t + 1].stops
    ensures ws[t + 1].stops[b].stage.Panicked? <==> exists j: nat, a: StartId :: SlippedIn(ws, ss, path, b, m, j, t, a)
  {
    RunKeepsInv(ws, ss, t);
    TakingKept(ws, ss, m, t, b);
    assert SlotInv(ws[t], path);
    if IsStarting(ws[t], path) {
      var j, a := StartingSince(ws, ss, m, t, path);
      assert SlippedIn(ws, ss, path, b, m, j, t, a);
    }
  }

  // ----- when a path panics ---------------------------------------------

  lemma PanicStep(w: World, s: Step, b: StopId)
    requires Enabled(w, s) && b in Apply(w, s).stops && Apply(w, s).stops[b].stage.Panicked?
    ensures b in w.stops && w.stops[b].path == Apply(w, s).stops[b].path
    ensures w.stops[b].stage.Panicked?
            || (s == StopTakes(b) && w.stops[b].stage.Taking? && IsStarting(w, w.stops[b].path))
  {
  }

  lemma {:induction false} PanickedAt(ws: seq<World>, ss: seq<Step>, n: nat, b: StopId, path: Path) returns (t: nat)
    requires Run(ws, ss) && n <= |ss| && b in ws[n].stops && ws[n].stops[b] == Stop(path, Panicked)
    ensures t < n && ss[t] == StopTakes(b) && IsStarting(ws[t], path)
    ensures b in ws[t].stops && ws[t].stops[b].path == path && ws[t].stops[b].stage.Taking?
    decreases n
  {
    PanicStep(ws[n - 1], ss[n - 1], b);
    if ws[n - 1].stops[b].stage.Panicked? {
      t := PanickedAt(ws, ss, n - 1, b, path);
    } else {
      t := n - 1;
    }
  }

  lemma LookStep(w: World, s: Step, b: StopId)
    requires Enabled(w, s) && b in Apply(w, s).stops && Apply(w, s).stops[b].stage.Taking?
    ensures b in w.stops && w.stops[b].path == Apply(w, s).stops[b].path
    ensures w.stops[b].stage.Taking? || (s == StopLooks(b) && !IsStarting(w, w.stops[b].path))
  {
  }

  lemma {:induction false} LookedAt(ws: seq<World>, ss: seq<Step>, n: nat, b: StopId, path: Path) returns (m: nat)
    requires Run(ws, ss) && n <= |ss| && b in ws[n].stops && ws[n].stops[b].path == path && ws[n].stops[b].stage.Taking?
    ensures m < n && ss[m] == StopLooks(b) && b in ws[m].stops && ws[m].stops[b].path == path && !IsStarting(ws[m], path)
    decreases n
  {
    LookStep(ws[n - 1], ss[n - 1], b);
    if ws[n - 1].stops[b].stage.Taking? {
      m := LookedAt(ws, ss, n - 1, b, path);
    } else {
      m := n - 1;
    }
  }

  lemma {:induction false} PanicLasts(ws: seq<World>, ss: seq<Step>, m: nat, n: nat, path: Path)
    requires Run(ws, ss) && m <= n <= |ss| && PanickedOn(ws[m], path)
    ensures PanickedOn(ws[n], path)
    decreases n
  {
    if m < n {
      PanicLasts(ws, ss, m, n - 1, path);
      PanicStay(ws, ss, n - 1, path);
    }
  }

  lemma PanicStay(ws: seq<World>, ss: seq<Step>, k: nat, path: Path)
    requires Run(ws, ss) && k < |ss| && PanickedOn(ws[k], path)
    ensures PanickedOn(ws[k + 1], path)
  {
    PanicStays(ws[k], ss[k], path);
  }

  lemma PanicHasItsStart(ws: seq<World>, ss: seq<Step>, n: nat, path: Path)
    returns (b: StopId, m: nat, j: nat, t: nat, a: StartId)
    requires Run(ws, ss) && n <= |ss| && PanickedOn(ws[n], path)
    ensures t < n && SlippedIn(ws, ss, path, b, m, j, t, a)
  {
    b :| b in ws[n].stops && ws[n].stops[b] == Stop(path, Panicked);
    t := PanickedAt(ws, ss, n, b, path);
    m := LookedAt(ws, ss, t, b, path);
    j, a := StartingSince(ws, ss, m, t, path);
  }

  lemma SlippedInPanics(
    ws: seq<World>, ss: seq<Step>, n: nat, path: Path, b: StopId, m: nat, j: nat, t: nat, a: StartId)
    requires Run(ws, ss) && n <= |ss| && t < n && SlippedIn(ws, ss, path, b, m, j, t, a)
    ensures PanickedOn(ws[n], path)
  {
    if PanickedOn(ws[t], path) {
      PanicLasts(ws, ss, t, n, path);
    } else {
      TakePanicsIff(ws, ss, m, t, b, path);
      TakingKept(ws, ss, m, t, b);
      assert ws[t + 1].stops[b] == Stop(path, Panicked);
      PanicLasts(ws, ss, t + 1, n, path);
    }
  }

  /** In every run: a path has panicked exactly if, for some stop of it, a start slipped in between
      the look and the take. Nothing else in the run matters, earlier panics included. */
  lemma PathPanicsIff(ws: seq<World>, ss: seq<Step>, n: nat, path: Path)
    requires Run(ws, ss) && n <= |ss|
    ensures PanickedOn(ws[n], path) <==> exists b: StopId, m: nat, j: nat, t: nat, a: StartId ::
              t < n && SlippedIn(ws, ss, path, b, m, j, t, a)
  {
    if PanickedOn(ws[n], path) {
      var b, m, j, t, a := PanicHasItsStart(ws, ss, n, path);
    }
    forall b: StopId, m: nat, j: nat, t: nat, a: StartId | t < n && SlippedIn(ws, ss, path, b, m, j, t, a)
      ensures PanickedOn(ws[n], path)
    {
      SlippedInPanics(ws, ss, n, path, b, m, j, t, a);
    }
  }

  /** No start of the path is begun while a stop of it is between its look and its take. */
  predicate StartsKeepOut(ws: seq<World>, ss: seq<Step>, path: Path)
    requires Run(ws, ss)
  {
    forall j :: 0 <= j < |ss| && ss[j].Reserve? && ss[j].path == path ==> NobodyTaking(ws[j], path)
  }

  predicate NobodyTaking(w: World, path: Path)
  {
    forall b :: b in w.stops && w.stops[b].path == path ==> !w.stops[b].stage.Taking?
  }

  /** If starts of a path keep out of its stops' gaps, that path never panics. */
  lemma KeptOutNeverPanics(ws: seq<World>, ss: seq<Step>, n: nat, path: Path)
    requires Run(ws, ss) && n <= |ss| && StartsKeepOut(ws, ss, path)
    ensures !PanickedOn(ws[n], path)
  {
    if PanickedOn(ws[n], path) {
      var b, m, j, t, a := PanicHasItsStart(ws, ss, n, path);
      TakingBetween(ws, ss, m, j, t, b);
    }
  }

  lemma TakingBetween(ws: seq<World>, ss: seq<Step>, m: nat, j: nat, t: nat, b: StopId)
    requires Run(ws, ss) && m < j < t < |ss| && ss[m] == StopLooks(b) && ss[t] == StopTakes(b) && b in ws[m].stops
    requires !IsStarting(ws[m], ws[m].stops[b].path)
    ensures b in ws[j].stops && ws[j].stops[b].path == ws[m].stops[b].path && ws[j].stops[b].stage.Taking?
  {
    TakingKept(ws, ss, m, j, b);
    if !Active(ws[j].stops[b]) {
      DoneStays(ws, ss, j, t, b);
    }
  }

  lemma {:induction false} DoneStays(ws: seq<World>, ss: seq<Step>, j: nat, t: nat, b: StopId)
    requires Run(ws, ss) && j <= t <= |ss| && b in ws[j].stops && !Active(ws[j].stops[b])
    ensures b in ws[t].stops && !Active(ws[t].stops[b])
    decreases t
  {
    if j < t {
      DoneStays(ws, ss, j, t - 1, b);
      DoneStep(ws[t - 1], ss[t - 1], b);
    }
  }

  lemma DoneStep(w: World, s: Step, b: StopId)
    requires Enabled(w, s) && b in w.stops && !Active(w.stops[b])
    ensures b in Apply(w, s).stops && !Active(Apply(w, s).stops[b])
  {
  }

  /** It can happen: a stop finds nothing, a start reserves the path, and the stop's removal
      takes the reservation's slot away and panics. */
  lemma StopPanics(path: Path) returns (ws: seq<World>, ss: seq<Step>)
    ensures Run(ws, ss) && |ss| == 4 && ss[3] == StopTakes(0) && ws[4].stops[0].stage.Panicked?
    ensures Owns(ws[4], 0, path) && path !in ws[4].slots
  {
    ss := [StopRegisters(0, path), StopLooks(0), Reserve(0, path), StopTakes(0)];
    var w1 := Apply(EMPTY, ss[0]);
    var w2 := Apply(w1, ss[1]);
    var w3 := Apply(w2, ss[2]);
    ws := [EMPTY, w1, w2, w3, Apply(w3, ss[3])];
  }

  /** The slot of `path` holds what `was` held and no start can change it before stop `b` takes it. */
  ghost predicate Settled(w: World, was: World, b: StopId, path: Path)
  {
    && b in w.stops && w.stops[b].path == path && w.stops[b].stage.Taking?
    && (path in w.slots <==> path in was.slots) && (path in w.slots ==> w.slots[path] == was.slots[path])
    && forall a :: !Owns(w, a, path)
  }

  lemma SettledStep(w: World, s: Step, was: World, b: StopId, path: Path)
    requires Inv(w) && Enabled(w, s) && Settled(w, was, b, path)
    requires s != StopTakes(b) && !(s.Reserve? && s.path == path)
    ensures Settled(Apply(w, s), was, b, path)
  {
    TakingStep(w, s, b);
    forall a ensures !Owns(Apply(w, s), a, path) {
      OwnsAfter(w, s, a, path);
    }
    if s.Publish? || s.GiveUp? {
      assert !Owns(w, s.start, path);
    }
  }

  /** A stop that no start of its path slips into returns the runtime it saw, or nothing if
      it saw nothing. */
  lemma {:induction false} SettledUntilTaken(ws: seq<World>, ss: seq<Step>, m: nat, n: nat, b: StopId, path: Path)
    requires Run(ws, ss) && m < n <= |ss| && ss[m] == StopLooks(b) && b in ws[m].stops && ws[m].stops[b].path == path
    requires !IsStarting(ws[m], path) && !PanickedOn(ws[m], path)
    requires forall j :: m < j < n ==> ss[j] != StopTakes(b) && !(ss[j].Reserve? && ss[j].path == path)
    ensures Settled(ws[n], ws[m], b, path)
    decreases n
  {
    if m + 1 == n {
      RunKeepsInv(ws, ss, m);
      LookSettles(ws[m], b);
    } else {
      SettledUntilTaken(ws, ss, m, n - 1, b, path);
      RunKeepsInv(ws, ss, n - 1);
      SettledStep(ws[n - 1], ss[n - 1], ws[m], b, path);
    }
  }

  lemma LookSettles(w: World, b: StopId)
    requires Inv(w) && Enabled(w, StopLooks(b)) && !IsStarting(w, w.stops[b].path) && !PanickedOn(w, w.stops[b].path)
    ensures Settled(Apply(w, StopLooks(b)), w, b, w.stops[b].path)
  {
    forall a ensures !Owns(Apply(w, StopLooks(b)), a, w.stops[b].path) {
      OwnsAfter(w, StopLooks(b), a, w.stops[b].path);
    }
  }

  lemma TakeReturnsWhatItSaw(ws: seq<World>, ss: seq<Step>, m: nat, n: nat, b: StopId, path: Path)
    requires Run(ws, ss) && m < n < |ss| && ss[m] == StopLooks(b) && b in ws[m].stops && ws[m].stops[b].path == path
    requires !IsStarting(ws[m], path) && !PanickedOn(ws[m], path) && ss[n] == StopTakes(b)
    requires forall j :: m < j < n ==> ss[j] != StopTakes(b) && !(ss[j].Reserve? && ss[j].path == path)
    ensures b in ws[n + 1].stops && path !in ws[n + 1].slots
    ensures ws[n + 1].stops[b].stage
         == Done(if path in ws[m].slots then Some(ws[m].slots[path].runtime) else None)
  {
    SettledUntilTaken(ws, ss, m, n, b, path);
  }

  // ----- the registry ---------------------------------------------------

  /** The slots; each method is one section under their lock. */
  class LinkRegistry {
    var slots: map<Path, Slot>

    constructor ()
      ensures slots == map[]
    {
      slots := map[];
    }

    /** Refused while the path has any slot, starting or ready. */
    method ReserveStarting(path: Path) returns (reserved: bool)
      modifies this
      ensures reserved == (path !in old(slots))
      ensures slots == if reserved then old(slots)[path := Starting] else old(slots)
    {
      if path in slots {
        return false;
      }
      slots := slots[path := Starting];
      return true;
    }

    method PublishReady(path: Path, runtime: Runtime)
      modifies this
      ensures slots == old(slots)[path := Ready(runtime)]
    {
      slots := slots[path := Ready(runtime)];
    }

    method RemoveStartingReservation(path: Path)
      modifies this
      ensures slots == old(slots) - {path}
    {
      slots := slots - {path};
    }

    /** The section after the wait: the slot is removed whatever it holds, and a starting one
        panics once it is gone. */
    method TakeReady(path: Path) returns (stage: Stage)
      modifies this
      ensures stage == Take(EMPTY.(slots := old(slots)), path)
      ensures slots == old(slots) - {path}
    {
      if path !in slots {
        return Done(None);
      }
      var slot := slots[path];
      slots := slots - {path};
      match slot
      case Ready(runtime) => return Done(Some(runtime));
      case Starting => return Panicked;
    }
  }
}
