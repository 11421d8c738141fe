/** Garbage collection of blocks (gc.rs, gc_state.rs): writers and sweeps that exclude
    each other through the block liveness gate, interleaved step by step with
    unguarded caching of blocks, removal of index rows, and time. */
module Gc {
  import opened Bytes

  type Block = string
  type RowId = nat
  type WriterId = nat
  type SweepId = nat

  /** Ten minutes, in seconds. */
  const GRACE_WINDOW := 600

  /** Whether a sweep may go on when nothing is live. Only an on-demand sweep allows it. */
  datatype EmptyLiveSet = Allow | Refuse

  datatype Stage =
    | Claimed | Safe | Gated | Snapshotted | Probed | Sweeping
    | Leaving(gated: bool)
    | Done

  datatype Sweep = Sweep(
    policy: EmptyLiveSet, dryRun: bool, cutoff: int, stage: Stage, live: set<Block>, todo: set<Block>, deleted: set<Block>)

  /** `holders` are the writers inside the gate, `writers` the gate's count of them;
      `counted` those that also raised `active`, the count of write operations;
      `owner` is the sweep whose guard holds the running flag. */
  datatype World = World(
    now: nat, store: map<Block, nat>, rows: map<RowId, set<Block>>,
    running: bool, owner: Option<SweepId>, deleting: bool, writers: nat, active: nat,
    holders: set<WriterId>, counted: set<WriterId>, sweeps: map<SweepId, Sweep>)

  datatype Step =
    | WriterEnters(w: WriterId) | WriterCounts(w: WriterId) | WriterPuts(w: WriterId, block: Block)
    | WriterCommits(w: WriterId, row: RowId, blocks: set<Block>) | WriterUncounts(w: WriterId) | WriterLeaves(w: WriterId)
    | Caches(block: Block) | DropsRow(row: RowId) | Ticks(time: nat)
    | Claims(s: SweepId, policy: EmptyLiveSet, dryRun: bool)
    | ChecksSafePoint(s: SweepId) | TakesGate(s: SweepId) | Snapshots(s: SweepId, ok: bool) | Probes(s: SweepId, ok: bool)
    | Lists(s: SweepId, ok: bool) | Deletes(s: SweepId, block: Block) | Finishes(s: SweepId)
    | ReleasesGate(s: SweepId) | ReleasesRunning(s: SweepId)

  predicate Initial(x: World)
  {
    && !x.running && x.owner.None? && !x.deleting && x.writers == 0 && x.active == 0
    && x.holders == {} && x.counted == {} && x.sweeps == map[]
  }

  predicate At(x: World, s: SweepId, stage: Stage)
  {
    s in x.sweeps && x.sweeps[s].stage == stage
  }

  predicate Enabled(x: World, e: Step)
  {
    match e
    case WriterEnters(w) => w !in x.holders && !x.deleting
    case WriterCounts(w) => w in x.holders && w !in x.counted
    case WriterPuts(w, _) => w in x.holders
    case WriterCommits(w, _, _) => w in x.holders
    case WriterUncounts(w) => w in x.counted && x.active > 0
    case WriterLeaves(w) => w in x.holders && w !in x.counted && x.writers > 0
    case Caches(_) => true
    case DropsRow(r) => r in x.rows
    case Ticks(t) => t >= x.now
    case Claims(s, _, _) => s !in x.sweeps
    case ChecksSafePoint(s) => At(x, s, Claimed)
    case TakesGate(s) => At(x, s, Safe) && !x.deleting && x.writers == 0
    case Snapshots(s, _) => At(x, s, Gated)
    case Probes(s, _) => At(x, s, Snapshotted)
    case Lists(s, _) => At(x, s, Probed)
    case Deletes(s, b) => At(x, s, Sweeping) && b in x.sweeps[s].todo
    case Finishes(s) => At(x, s, Sweeping)
    case ReleasesGate(s) => At(x, s, Leaving(true))
    case ReleasesRunning(s) => At(x, s, Leaving(false))
  }

  function Refs(rows: map<RowId, set<Block>>): set<Block>
  {
    set r, b | r in rows && b in rows[r] :: b
  }

  function Candidates(store: map<Block, nat>, live: set<Block>, cutoff: int): set<Block>
  {
    set b | b in store && store[b] <= cutoff && b !in live
  }

  /** A block already stored keeps the time it was added at. */
  function Put(x: World, b: Block): World
  {
    if b in x.store then x else x.(store := x.store[b := x.now])
  }

  function After(x: World, e: Step, sweep: Sweep): Sweep
  {
    match e
    case ChecksSafePoint(_) => sweep.(stage := if x.active == 0 then Safe else Leaving(false))
    case TakesGate(_) => sweep.(stage := Gated)
    case Snapshots(_, ok) =>
      if ok then sweep.(stage := Snapshotted, live := Refs(x.rows)) else sweep.(stage := Leaving(true))
    case Probes(_, ok) =>
      if sweep.policy.Refuse? && sweep.live == {} && (!ok || Candidates(x.store, {}, sweep.cutoff) != {})
      then sweep.(stage := Leaving(true)) else sweep.(stage := Probed)
    case Lists(_, ok) =>
      if !ok || sweep.dryRun then sweep.(stage := Leaving(true))
      else sweep.(stage := Sweeping, todo := Candidates(x.store, sweep.live, sweep.cutoff))
    case Deletes(_, b) => sweep.(todo := sweep.todo - {b}, deleted := sweep.deleted + {b})
    case Finishes(_) => sweep.(stage := Leaving(true))
    case ReleasesGate(_) => sweep.(stage := Leaving(false))
    case ReleasesRunning(_) => sweep.(stage := Done)
    case _ => sweep
  }

  predicate OfSweep(e: Step)
  {
    e.ChecksSafePoint? || e.TakesGate? || e.Snapshots? || e.Probes? || e.Lists? || e.Deletes? || e.Finishes?
    || e.ReleasesGate? || e.ReleasesRunning?
  }

  function Apply(x: World, e: Step): World
    requires Enabled(x, e)
  {
    match e
    case WriterEnters(w) => x.(holders := x.holders + {w}, writers := x.writers + 1)
    case WriterCounts(w) => x.(counted := x.counted + {w}, active := x.active + 1)
    case WriterPuts(_, b) => Put(x, b)
    case WriterCommits(_, r, blocks) => x.(rows := x.rows[r := blocks])
    case WriterUncounts(w) => x.(counted := x.counted - {w}, active := x.active - 1)
    case WriterLeaves(w) => x.(holders := x.holders - {w}, writers := x.writers - 1)
    case Caches(b) => Put(x, b)
    case DropsRow(r) => x.(rows := x.rows - {r})
    case Ticks(t) => x.(now := t)
    case Claims(s, policy, dryRun) =>
      var sweep := Sweep(policy, dryRun, x.now - GRACE_WINDOW, Claimed, {}, {}, {});
      if x.running then x.(sweeps := x.sweeps[s := sweep.(stage := Done)])
      else x.(sweeps := x.sweeps[s := sweep], running := true, owner := Some(s))
    case TakesGate(s) => Advanced(x, e, s).(deleting := true)
    case Deletes(s, b) => Advanced(x, e, s).(store := x.store - {b})
    case ReleasesGate(s) => Advanced(x, e, s).(deleting := false)
    case ReleasesRunning(s) => Advanced(x, e, s).(running := false, owner := None)
    case _ => Advanced(x, e, e.s)
  }

  function Advanced(x: World, e: Step, s: SweepId): World
    requires s in x.sweeps
  {
    x.(sweeps := x.sweeps[s := After(x, e, x.sweeps[s])])
  }

  predicate Run(xs: seq<World>, es: seq<Step>)
  {
    && |xs| == |es| + 1 && Initial(xs[0])
    && forall i :: 0 <= i < |es| ==> Enabled(xs[i], es[i]) && xs[i + 1] == Apply(xs[i], es[i])
  }

  // ----- the invariant --------------------------------------------------

  predicate InGate(sweep: Sweep)
  {
    sweep.stage in {Gated, Snapshotted, Probed, Sweeping, Leaving(true)}
  }

  /** The counts are those of the writers; nobody writes while a sweep deletes. */
  predicate GateInv(x: World)
  {
    x.writers == |x.holders| && x.active == |x.counted| && x.counted <= x.holders && (x.deleting ==> x.holders == {})
  }

  /** The flag is held by exactly one unfinished sweep, the gate by it while it is past it. */
  predicate OwnerInv(x: World)
  {
    && (x.running <==> x.owner.Some?)
    && (x.owner.Some? ==> x.owner.value in x.sweeps && !x.sweeps[x.owner.value].stage.Done?)
    && (forall s :: s in x.sweeps && !x.sweeps[s].stage.Done? ==> x.owner == Some(s))
    && (x.deleting <==> x.owner.Some? && InGate(x.sweeps[x.owner.value]))
  }

  /** From its snapshot on a sweep's live set covers every committed row, and what it is
      about to delete is not in it. */
  predicate LiveInv(x: World, sweep: Sweep)
  {
    && (sweep.stage in {Snapshotted, Probed, Sweeping} ==> Refs(x.rows) <= sweep.live)
    && (sweep.stage.Sweeping? ==> sweep.todo !! sweep.live)
  }

  /** A sweep that must refuse an empty live set and goes on has nothing to delete. */
  predicate EmptyInv(x: World, sweep: Sweep)
  {
    && sweep.cutoff < x.now
    && (sweep.stage in {Claimed, Safe, Gated, Snapshotted, Probed} ==> sweep.deleted == {})
    && (sweep.policy.Refuse? && sweep.live == {} ==>
          && sweep.deleted == {}
          && (sweep.stage in {Probed, Sweeping} ==> Candidates(x.store, {}, sweep.cutoff) == {})
          && (sweep.stage.Sweeping? ==> sweep.todo == {}))
    && (sweep.dryRun ==> sweep.deleted == {} && !sweep.stage.Sweeping?)
  }

  predicate Inv(x: World)
  {
    && GateInv(x) && OwnerInv(x)
    && forall s :: s in x.sweeps ==> LiveInv(x, x.sweeps[s]) && EmptyInv(x, x.sweeps[s])
  }

  // ----- every step keeps it --------------------------------------------

  lemma StepKeepsGate(x: World, e: Step)
    requires GateInv(x) && Enabled(x, e)
    ensures GateInv(Apply(x, e))
  {
  }

  lemma SweepStepKeepsOwner(x: World, e: Step)
    requires OwnerInv(x) && Enabled(x, e) && OfSweep(e)
    ensures OwnerInv(Apply(x, e))
  {
  }

  lemma StepKeepsOwner(x: World, e: Step)
    requires OwnerInv(x) && Enabled(x, e)
    ensures OwnerInv(Apply(x, e))
  {
    if OfSweep(e) {
      SweepStepKeepsOwner(x, e);
    }
  }

  lemma PutKeepsCandidates(x: World, b: Block, cutoff: int)
    requires cutoff < x.now
    ensures Candidates(Put(x, b).store, {}, cutoff) == Candidates(x.store, {}, cutoff)
  {
  }

  predicate Touches(e: Step, s: SweepId)
  {
    (OfSweep(e) || e.Claims?) && e.s == s
  }

  /** Rows are committed only while no sweep is in the gate, and dropping one adds no reference. */
  lemma RefsCovered(x: World, e: Step, s: SweepId)
    requires Inv(x) && Enabled(x, e) && s in x.sweeps && InGate(x.sweeps[s])
    ensures Refs(Apply(x, e).rows) <= Refs(x.rows)
  {
    assert x.owner == Some(s);
  }

  lemma OthersKeepSweep(x: World, e: Step, s: SweepId)
    requires Enabled(x, e) && s in x.sweeps && !Touches(e, s)
    ensures s in Apply(x, e).sweeps && Apply(x, e).sweeps[s] == x.sweeps[s]
  {
  }

  /** Steps of others leave a sweep's promises true. */
  lemma OthersKeepLive(x: World, e: Step, s: SweepId)
    requires Inv(x) && Enabled(x, e) && s in x.sweeps && !Touches(e, s)
    ensures LiveInv(Apply(x, e), x.sweeps[s])
  {
    assert LiveInv(x, x.sweeps[s]);
    if InGate(x.sweeps[s]) {
      RefsCovered(x, e, s);
    }
  }

  lemma OthersKeepEmpty(x: World, e: Step, s: SweepId)
    requires Inv(x) && Enabled(x, e) && s in x.sweeps && !Touches(e, s)
    ensures EmptyInv(Apply(x, e), x.sweeps[s])
  {
    assert EmptyInv(x, x.sweeps[s]);
    if e.WriterPuts? || e.Caches? {
      PutKeepsCandidates(x, e.block, x.sweeps[s].cutoff);
    }
  }

  lemma OwnStepKeepsLive(x: World, e: Step)
    requires Inv(x) && Enabled(x, e) && OfSweep(e)
    ensures LiveInv(Apply(x, e), Apply(x, e).sweeps[e.s])
  {
    assert LiveInv(x, x.sweeps[e.s]);
  }

  lemma OwnStepKeepsEmpty(x: World, e: Step)
    requires Inv(x) && Enabled(x, e) && OfSweep(e)
    ensures EmptyInv(Apply(x, e), Apply(x, e).sweeps[e.s])
  {
    assert EmptyInv(x, x.sweeps[e.s]);
  }

  lemma StepKeepsSweep(x: World, e: Step, s: SweepId)
    requires Inv(x) && Enabled(x, e) && s in Apply(x, e).sweeps
    ensures LiveInv(Apply(x, e), Apply(x, e).sweeps[s]) && EmptyInv(Apply(x, e), Apply(x, e).sweeps[s])
  {
    if OfSweep(e) && e.s == s {
      OwnStepKeepsLive(x, e);
      OwnStepKeepsEmpty(x, e);
    } else if !Touches(e, s) {
      OthersKeepSweep(x, e, s);
      OthersKeepLive(x, e, s);
      OthersKeepEmpty(x, e, s);
    }
  }

  lemma StepKeepsInv(x: World, e: Step)
    requires Inv(x) && Enabled(x, e)
    ensures Inv(Apply(x, e))
  {
    StepKeepsGate(x, e);
    StepKeepsOwner(x, e);
    forall s | s in Apply(x, e).sweeps
      ensures LiveInv(Apply(x, e), Apply(x, e).sweeps[s]) && EmptyInv(Apply(x, e), Apply(x, e).sweeps[s])
    {
      StepKeepsSweep(x, e, s);
    }
  }

  lemma {:induction false} RunKeepsInv(xs: seq<World>, es: seq<Step>, n: nat)
    requires Run(xs, es) && n <= |es|
    ensures Inv(xs[n])
    decreases n
  {
    if n > 0 {
      RunKeepsInv(xs, es, n - 1);
      StepKeepsInv(xs[n - 1], es[n - 1]);
    }
  }

  // ----- what the daemon may rely on ------------------------------------

  /** In every interleaving, a stored block that a committed row refers to is still stored
      after the next step, whatever that step is. */
  lemma ReferencedBlockStays(xs: seq<World>, es: seq<Step>, n: nat, b: Block)
    requires Run(xs, es) && n < |es| && b in xs[n].store && b in Refs(xs[n].rows)
    ensures b in xs[n + 1].store
  {
    RunKeepsInv(xs, es, n);
    StepKeepsReferenced(xs[n], es[n], b);
  }

  lemma StepKeepsReferenced(x: World, e: Step, b: Block)
    requires Inv(x) && Enabled(x, e) && b in x.store && b in Refs(x.rows)
    ensures b in Apply(x, e).store
  {
    if e.Deletes? {
      assert LiveInv(x, x.sweeps[e.s]);
    }
  }

  /** At most one sweep is unfinished, the running flag is up exactly while one is, and the
      deletion guard is held only by it: once every sweep has left, by whatever
      exit, both are released. */
  lemma OneSweepAtATime(xs: seq<World>, es: seq<Step>, n: nat)
    requires Run(xs, es) && n <= |es|
    ensures var x := xs[n];
            && (forall s, t :: s in x.sweeps && t in x.sweeps && !x.sweeps[s].stage.Done? && !x.sweeps[t].stage.Done?
                               ==> s == t)
            && (x.running <==> exists s :: s in x.sweeps && !x.sweeps[s].stage.Done?)
            && (x.deleting ==> x.running && x.holders == {})
  {
    RunKeepsInv(xs, es, n);
    var x := xs[n];
    if x.running {
      assert x.owner.value in x.sweeps && !x.sweeps[x.owner.value].stage.Done?;
    }
  }

  /** An unfinished sweep is never stuck, except while writers are inside the gate it waits for. */
  lemma SweepCanGoOn(xs: seq<World>, es: seq<Step>, n: nat, s: SweepId)
    requires Run(xs, es) && n <= |es| && s in xs[n].sweeps && !xs[n].sweeps[s].stage.Done?
    ensures (exists e :: OfSweep(e) && e.s == s && Enabled(xs[n], e))
            || (xs[n].sweeps[s].stage.Safe? && xs[n].holders != {})
  {
    RunKeepsInv(xs, es, n);
    var x := xs[n];
    var e := match x.sweeps[s].stage
      case Claimed => ChecksSafePoint(s)
      case Safe => TakesGate(s)
      case Gated => Snapshots(s, true)
      case Snapshotted => Probes(s, true)
      case Probed => Lists(s, true)
      case Sweeping => Finishes(s)
      case Leaving(gated) => if gated then ReleasesGate(s) else ReleasesRunning(s)
      case Done => ReleasesRunning(s);
    if x.holders == {} || !x.sweeps[s].stage.Safe? {
      assert x.owner == Some(s);
      assert Enabled(x, e);
    }
  }

  /** An automatic sweep that found nothing live deletes nothing, ever; nor does a dry run. */
  lemma NothingLiveNothingDeleted(xs: seq<World>, es: seq<Step>, n: nat, s: SweepId)
    requires Run(xs, es) && n <= |es| && s in xs[n].sweeps
    requires (xs[n].sweeps[s].policy.Refuse? && xs[n].sweeps[s].live == {}) || xs[n].sweeps[s].dryRun
    ensures xs[n].sweeps[s].deleted == {}
  {
    RunKeepsInv(xs, es, n);
    assert EmptyInv(xs[n], xs[n].sweeps[s]);
  }

  // ----- one sweep, undisturbed -----------------------------------------

  datatype GcError = AlreadyRunning | SyncBurstInProgress | SweepFailed

  datatype GcReport = GcReport(blocksDeleted: nat, bytesReclaimed: nat)

  /** The payload length of each block, which its content fixes. */
  type Lengths = Block -> nat

  ghost function TotalBytes(length: Lengths, blocks: set<Block>): nat
  {
    if blocks == {} then 0
    else
      var b :| b in blocks;
      length(b) + TotalBytes(length, blocks - {b})
  }

  lemma {:induction false} TotalWithout(length: Lengths, blocks: set<Block>, b: Block)
    requires b in blocks
    ensures TotalBytes(length, blocks) == length(b) + TotalBytes(length, blocks - {b})
    decreases |blocks|
  {
    var first :| first in blocks && TotalBytes(length, blocks) == length(first) + TotalBytes(length, blocks - {first});
    if first != b {
      TotalWithout(length, blocks - {first}, b);
      TotalWithout(length, blocks - {b}, first);
      assert blocks - {first} - {b} == blocks - {b} - {first};
    }
  }

  /** Taking blocks away takes their bytes away and no others. */
  lemma {:induction false} TotalSplits(length: Lengths, blocks: set<Block>, part: set<Block>)
    requires part <= blocks
    ensures TotalBytes(length, blocks) == TotalBytes(length, blocks - part) + TotalBytes(length, part)
    decreases |part|
  {
    if part == {} {
      assert blocks - part == blocks;
    } else {
      var b :| b in part;
      TotalSplits(length, blocks - {b}, part - {b});
      TotalWithout(length, blocks, b);
      TotalWithout(length, part, b);
      assert blocks - {b} - (part - {b}) == blocks - part;
    }
  }

  method SumBytes(length: Lengths, blocks: set<Block>) returns (total: nat)
    ensures total == TotalBytes(length, blocks)
  {
    total := 0;
    var rest := blocks;
    while rest != {}
      invariant rest <= blocks && total + TotalBytes(length, rest) == TotalBytes(length, blocks)
      decreases |rest|
    {
      var b :| b in rest;
      TotalWithout(length, rest, b);
      total, rest := total + length(b), rest - {b};
    }
  }

  /** What the sweep uses, and the counters it keeps. */
  class GcState {
    var running: bool
    var lastRun: nat
    var lastDeleted: nat
    var lastReclaimed: nat
    var reclaimable: nat
    var active: nat
    var rows: map<RowId, set<Block>>
    var store: map<Block, nat>
    const length: Lengths

    constructor (index: map<RowId, set<Block>>, blocks: map<Block, nat>, payload: Lengths)
      ensures !running && lastRun == lastDeleted == lastReclaimed == reclaimable == 0 && active == 0
      ensures rows == index && store == blocks && length == payload
    {
      running, lastRun, lastDeleted, lastReclaimed, reclaimable, active := false, 0, 0, 0, 0, 0;
      rows, store, length := index, blocks, payload;
    }

    method TryStart() returns (claimed: bool)
      modifies this`running
      ensures running && claimed == !old(running)
    {
      claimed := !running;
      running := true;
    }

    method Release()
      modifies this`running
      ensures !running
    {
      running := false;
    }

    /** A dry run sets the estimate; a real sweep sets the three figures of the last one and
        leaves nothing to reclaim. */
    method Record(dryRun: bool, now: nat, report: GcReport)
      modifies this`lastRun, this`lastDeleted, this`lastReclaimed, this`reclaimable
      ensures reclaimable == if dryRun then report.bytesReclaimed else 0
      ensures (lastRun, lastDeleted, lastReclaimed)
           == if dryRun then (old(lastRun), old(lastDeleted), old(lastReclaimed))
              else (now, report.blocksDeleted, report.bytesReclaimed)
    {
      if dryRun {
        reclaimable := report.bytesReclaimed;
      } else {
        lastRun, lastDeleted, lastReclaimed, reclaimable := now, report.blocksDeleted, report.bytesReclaimed, 0;
      }
    }

    /** The sweep past its checks: `snapshot` and `listed` say whether the index and the store
        could be read. The bytes it reports are the bytes the store lost. */
    method SweepStore(dryRun: bool, cutoff: int, policy: EmptyLiveSet, now: nat, snapshot: bool, listed: bool)
      returns (r: Result<GcReport, GcError>)
      modifies this`store, this`lastRun, this`lastDeleted, this`lastReclaimed, this`reclaimable
      ensures var found := Candidates(old(store), Refs(rows), cutoff);
              && r.Ok? == (snapshot && listed && !(policy.Refuse? && Refs(rows) == {} && found != {}))
              && (r.Ok? ==> r.value == GcReport(|found|, TotalBytes(length, found)))
              && store == (if r.Ok? && !dryRun then old(store) - found else old(store))
      ensures r.Ok? && !dryRun ==>
                TotalBytes(length, old(store).Keys) == TotalBytes(length, store.Keys) + r.value.bytesReclaimed
      ensures r.Ok? && dryRun ==> reclaimable == r.value.bytesReclaimed
      ensures r.Ok? && !dryRun ==> reclaimable == 0 && lastRun == now && lastDeleted == r.value.blocksDeleted
                                   && lastReclaimed == r.value.bytesReclaimed
      ensures r.Err? ==> r.error == SweepFailed && reclaimable == old(reclaimable)
      ensures r.Err? || dryRun ==>
                lastRun == old(lastRun) && lastDeleted == old(lastDeleted) && lastReclaimed == old(lastReclaimed)
    {
      if !snapshot {
        return Err(SweepFailed);
      }
      var live := Refs(rows);
      if policy.Refuse? && live == {} {
        var probe := Candidates(store, live, cutoff);
        if !listed || probe != {} {
          return Err(SweepFailed);
        }
      }
      if !listed {
        return Err(SweepFailed);
      }
      var found := Candidates(store, live, cutoff);
      var bytes := SumBytes(length, found);
      if !dryRun {
        TotalSplits(length, store.Keys, found);
        assert (store - found).Keys == store.Keys - found;
        store := store - found;
      }
      Record(dryRun, now, GcReport(|found|, bytes));
      r := Ok(GcReport(|found|, bytes));
    }

    /** Every way out of a sweep that claimed the flag releases it, and no way out loses a
        block that a row refers to. */
    method RunSweepSync(dryRun: bool, cutoff: int, policy: EmptyLiveSet, now: nat, snapshot: bool, listed: bool)
      returns (r: Result<GcReport, GcError>)
      modifies this
      ensures running == old(running) && rows == old(rows) && active == old(active)
      ensures (r == Err(AlreadyRunning) <==> old(running)) && (r == Err(SyncBurstInProgress) <==> !old(running) && active > 0)
      ensures forall b :: b in Refs(rows) && b in old(store) ==> b in store && store[b] == old(store)[b]
      ensures store == if r.Ok? && !dryRun then old(store) - Candidates(old(store), Refs(rows), cutoff) else old(store)
      ensures policy.Refuse? && Refs(rows) == {} ==> store == old(store)
    {
      var claimed := TryStart();
      if !claimed {
        return Err(AlreadyRunning);
      }
      if active > 0 {
        Release();
        return Err(SyncBurstInProgress);
      }
      r := SweepStore(dryRun, cutoff, policy, now, snapshot, listed);
      Release();
    }
  }
}
