/** Opening and rotating a replica's author incarnation (author_identity.rs): the
    database record is committed first, its sidecar is made durable second, the
    handle is given out last, and a crash or a failed write may fall anywhere. */
module AuthorIdentity {
  import opened Bytes
  import opened Sidecar

  type DeviceId = string

  /** A machine fingerprint; `Unreadable` is the one of a machine whose id could not be read. */
  datatype Fingerprint = Machine(id: string) | Unreadable

  datatype MintReason = Install | Restore | Migration | IdentityMismatch | OwnAuthorAhead | Rebootstrap

  datatype IncarnationRecord = IncarnationRecord(
    device: DeviceId, incarnation: Id, nonce: Id, machine: Fingerprint, reason: MintReason, previous: Option<Id>)

  function ForRecord(r: IncarnationRecord): InstanceSidecar
  {
    InstanceSidecar(r.nonce, r.incarnation)
  }

  /** Two fresh random draws. */
  datatype Draw = Draw(incarnation: Id, nonce: Id)

  // ----- the incarnation check ------------------------------------------

  /** An unreadable machine id is compared as if it were the recorded one. */
  function Comparable(record: Option<IncarnationRecord>, machine: Fingerprint): Fingerprint
  {
    if machine.Machine? || record.None? then machine else record.value.machine
  }

  /** The sidecar still names the incarnation this record's own rebootstrap replaced. */
  predicate LeftByRebootstrap(r: IncarnationRecord, sidecar: Option<InstanceSidecar>)
  {
    r.reason.Rebootstrap? && r.previous.Some? && sidecar.Some? && sidecar.value.incarnation == r.previous.value
  }

  function Mismatch(r: IncarnationRecord, device: DeviceId, sidecar: Option<InstanceSidecar>, machine: Fingerprint)
    : Option<MintReason>
  {
    if r.device != device then Some(IdentityMismatch)
    else if sidecar != Some(ForRecord(r)) && !LeftByRebootstrap(r, sidecar) then Some(Restore)
    else if r.machine != machine then Some(Migration)
    else None
  }

  /** A machine whose id cannot be read, possibly only for this boot, never causes a migration. */
  lemma UnreadableNeverMigrates(r: IncarnationRecord, device: DeviceId, sidecar: Option<InstanceSidecar>, machine: Fingerprint)
    ensures Mismatch(r, device, sidecar, Comparable(Some(r), machine)) == Some(Migration)
            <==> && r.device == device && (sidecar == Some(ForRecord(r)) || LeftByRebootstrap(r, sidecar))
                 && machine.Machine? && machine != r.machine
  {
  }

  // ----- the machine ----------------------------------------------------

  /** Where the one running call stands. A call that holds record `k` is `overtaken`
      once a rebootstrap commits a newer one. */
  datatype Call =
    | NoCall
    | Opening(device: DeviceId, machine: Fingerprint, seen: Option<InstanceSidecar>)
    | Ensured(k: nat, overtaken: bool)
    | Writing(k: nat, overtaken: bool)

  /** `minted` is every record ever committed, the last being the current one; `slot`
      and `handed` name records by their place in it. */
  datatype World = World(
    minted: seq<IncarnationRecord>, sidecar: Option<InstanceSidecar>, ahead: bool, call: Call, slot: Option<nat>,
    handed: seq<nat>)

  datatype Step =
    | OpenReads(device: DeviceId, machine: Fingerprint)
    | OpenEnsures(draw: Draw)
    | OpenRotates(draw: Draw)
    | RotateStarts(draw: Draw)
    | WriteSucceeds
    | WriteFails(landed: bool)
    | Reports
    | Rebootstraps(draw: Draw)
    | Crashes(landed: bool)

  predicate Initial(w: World)
  {
    w.minted == [] && !w.ahead && w.call.NoCall? && w.slot.None? && w.handed == []
  }

  /** The draw repeats no earlier incarnation or nonce. */
  predicate Fresh(w: World, d: Draw)
  {
    && (forall i :: 0 <= i < |w.minted| ==> w.minted[i].incarnation != d.incarnation && w.minted[i].nonce != d.nonce)
    && (w.sidecar.Some? ==> w.sidecar.value.incarnation != d.incarnation)
  }

  predicate Enabled(w: World, s: Step)
  {
    match s
    case OpenReads(_, _) => w.call.NoCall?
    case OpenEnsures(d) => w.call.Opening? && Fresh(w, d)
    case OpenRotates(d) => w.call.Ensured? && Fresh(w, d)
    case RotateStarts(d) => w.call.NoCall? && w.slot.Some? && w.minted != [] && Fresh(w, d)
    case WriteSucceeds => w.call.Writing? && w.call.k < |w.minted|
    case WriteFails(_) => w.call.Writing? && w.call.k < |w.minted|
    case Reports => w.minted != []
    case Rebootstraps(d) => w.minted != [] && Fresh(w, d)
    case Crashes(landed) => landed ==> w.call.Writing? && w.call.k < |w.minted|
  }

  function Last(w: World): IncarnationRecord
    requires w.minted != []
  {
    w.minted[|w.minted| - 1]
  }

  /** Committing a record drops every report: they were about the author it replaces. */
  function Commit(w: World, r: IncarnationRecord): World
  {
    w.(minted := w.minted + [r], ahead := false)
  }

  function Successor(r: IncarnationRecord, d: Draw, reason: MintReason): IncarnationRecord
  {
    IncarnationRecord(r.device, d.incarnation, d.nonce, r.machine, reason, Some(r.incarnation))
  }

  function Ensure(w: World, device: DeviceId, machine: Fingerprint, seen: Option<InstanceSidecar>, d: Draw): World
  {
    if w.minted == [] then Commit(w, IncarnationRecord(device, d.incarnation, d.nonce, machine, Install, None))
    else
      var compared := Comparable(Some(Last(w)), machine);
      match Mismatch(Last(w), device, seen, compared)
      case None => w
      case Some(reason) =>
        Commit(w, IncarnationRecord(device, d.incarnation, d.nonce, compared, reason, Some(Last(w).incarnation)))
  }

  function Rotate(w: World, d: Draw): World
    requires w.minted != []
  {
    Commit(w, Successor(Last(w), d, OwnAuthorAhead))
  }

  function Handed(w: World, k: nat): World
  {
    w.(call := NoCall, slot := Some(k), handed := w.handed + [k])
  }

  function Overtaken(call: Call): Call
  {
    match call
    case Ensured(k, _) => Ensured(k, true)
    case Writing(k, _) => Writing(k, true)
    case _ => call
  }

  function Apply(w: World, s: Step): World
    requires Enabled(w, s)
  {
    match s
    case OpenReads(device, machine) => w.(call := Opening(device, machine, w.sidecar))
    case OpenEnsures(d) =>
      var next := Ensure(w, w.call.device, w.call.machine, w.call.seen, d);
      next.(call := Ensured(|next.minted| - 1, false))
    case OpenRotates(d) =>
      if w.ahead && w.minted != []
      then Rotate(w, d).(call := Writing(|w.minted|, false))
      else w.(call := Writing(w.call.k, w.call.overtaken))
    case RotateStarts(d) =>
      if w.ahead then Rotate(w, d).(call := Writing(|w.minted|, false))
      else if w.slot == Some(|w.minted| - 1) then Handed(w, |w.minted| - 1)
      else w.(call := Writing(|w.minted| - 1, false))
    case WriteSucceeds => Handed(w, w.call.k).(sidecar := Some(ForRecord(w.minted[w.call.k])))
    case WriteFails(landed) =>
      w.(call := NoCall, sidecar := if landed then Some(ForRecord(w.minted[w.call.k])) else w.sidecar)
    case Reports => w.(ahead := true)
    case Rebootstraps(d) => Commit(w, Successor(Last(w), d, Rebootstrap)).(call := Overtaken(w.call))
    case Crashes(landed) =>
      w.(call := NoCall, slot := None, sidecar := if landed then Some(ForRecord(w.minted[w.call.k])) else w.sidecar)
  }

  predicate Run(ws: seq<World>, ss: seq<Step>)
  {
    && |ws| == |ss| + 1 && Initial(ws[0])
    && forall i :: 0 <= i < |ss| ==> Enabled(ws[i], ss[i]) && ws[i + 1] == Apply(ws[i], ss[i])
  }

  // ----- the invariant --------------------------------------------------

  predicate HoldsRecord(w: World)
  {
    w.call.Ensured? || w.call.Writing?
  }

  /** A call holds the current record exactly while it is not overtaken; records given out
      are no newer than the one held; and a slot that names the current record has
      its sidecar beside the database. */
  predicate Inv(w: World)
  {
    && (HoldsRecord(w) ==> w.call.k < |w.minted| && (w.call.k == |w.minted| - 1 <==> !w.call.overtaken))
    && (forall i :: 0 <= i < |w.handed| ==> w.handed[i] < |w.minted|)
    && (HoldsRecord(w) ==> forall i :: 0 <= i < |w.handed| ==> w.handed[i] <= w.call.k)
    && (w.slot.Some? ==> w.handed != [] && w.slot.value == w.handed[|w.handed| - 1])
    && (w.slot.Some? && w.slot.value == |w.minted| - 1 ==> w.sidecar == Some(ForRecord(Last(w))))
    && (forall i, j :: 0 <= i < j < |w.handed| ==> w.handed[i] <= w.handed[j])
  }

  predicate Commits(s: Step) { s.OpenEnsures? || s.OpenRotates? || s.RotateStarts? || s.Rebootstraps? }

  lemma CommitKeepsInv(w: World, s: Step)
    requires Inv(w) && Enabled(w, s) && Commits(s) && !(s.RotateStarts? && !w.ahead)
    ensures Inv(Apply(w, s))
  {
  }

  lemma StepKeepsInv(w: World, s: Step)
    requires Inv(w) && Enabled(w, s)
    ensures Inv(Apply(w, s))
  {
    if Commits(s) && !(s.RotateStarts? && !w.ahead) {
      CommitKeepsInv(w, s);
    }
  }

  lemma {:induction false} RunKeepsInv(ws: seq<World>, ss: seq<Step>, n: nat)
    requires Run(ws, ss) && n <= |ss|
    ensures Inv(ws[n])
    decreases n
  {
    if n > 0 {
      RunKeepsInv(ws, ss, n - 1);
      StepKeepsInv(ws[n - 1], ss[n - 1]);
    }
  }

  // ----- what a handle stands for ---------------------------------------

  /** Every handle given out names a record whose sidecar is durable by then, and it is the
      current record exactly when no rebootstrap committed another while the call
      held it; records are given out in the order they were minted. */
  lemma HandleHasDurableSidecar(ws: seq<World>, ss: seq<Step>, n: nat)
    requires Run(ws, ss) && n < |ss| && ws[n + 1].handed != ws[n].handed
    ensures var w, next := ws[n], ws[n + 1];
            && next.handed != [] && next.handed[..|next.handed| - 1] == w.handed
            && var k := next.handed[|next.handed| - 1];
            && k < |next.minted| && next.sidecar == Some(ForRecord(next.minted[k])) && next.slot == Some(k)
            && (k == |next.minted| - 1 <==> !(w.call.Writing? && w.call.overtaken))
            && forall i :: 0 <= i < |w.handed| ==> w.handed[i] <= k
  {
    RunKeepsInv(ws, ss, n);
    RunKeepsInv(ws, ss, n + 1);
    GivesOut(ws[n], ss[n]);
  }

  lemma GivesOut(w: World, s: Step)
    requires Inv(w) && Enabled(w, s) && Apply(w, s).handed != w.handed
    ensures s.WriteSucceeds? || (s.RotateStarts? && !w.ahead && w.slot == Some(|w.minted| - 1))
    ensures Apply(w, s).handed == w.handed + [if s.WriteSucceeds? then w.call.k else |w.minted| - 1]
  {
  }

  /** Retrying converges: from any idle state with a slot, whatever writes failed before, one
      rotation whose write succeeds leaves the slot on the current record, its
      sidecar durable; if it does not write, that was so already. */
  lemma RetryConverges(w: World, d: Draw)
    requires Inv(w) && Enabled(w, RotateStarts(d))
    ensures var started := Apply(w, RotateStarts(d));
            && (started.call.Writing? ==> Enabled(started, WriteSucceeds))
            && var done := if started.call.Writing? then Apply(started, WriteSucceeds) else started;
            && done.minted != [] && done.slot == Some(|done.minted| - 1)
            && done.sidecar == Some(ForRecord(Last(done))) && done.call.NoCall?
  {
  }

  // ----- an incarnation that died before its sidecar --------------------

  /** Record `k` can no longer be given out: a newer one is current and nothing holds `k`, or
      `k` is current and every open will see a sidecar that does not match it. */
  predicate Dead(w: World, k: nat)
  {
    && k < |w.minted|
    && if k == |w.minted| - 1
       then && !HoldsRecord(w) && w.slot.None? && Rejected(w.minted[k], w.sidecar)
            && (w.call.Opening? ==> Rejected(w.minted[k], w.call.seen))
       else (HoldsRecord(w) ==> w.call.k > k) && (w.slot.Some? ==> w.slot.value > k)
  }

  predicate Rejected(r: IncarnationRecord, sidecar: Option<InstanceSidecar>)
  {
    sidecar != Some(ForRecord(r)) && !LeftByRebootstrap(r, sidecar)
  }

  /** Since `before` only records newer than `k` were given out. */
  predicate OnlyNewer(before: seq<nat>, now: seq<nat>, k: nat)
  {
    |before| <= |now| && forall i :: |before| <= i < |now| ==> now[i] > k
  }

  lemma DeadStays(w: World, s: Step, k: nat)
    requires Dead(w, k) && Enabled(w, s)
    ensures Dead(Apply(w, s), k)
    ensures forall before :: OnlyNewer(before, w.handed, k) ==> OnlyNewer(before, Apply(w, s).handed, k)
  {
  }

  /** The record may be kept by a later open: it is current, and the sidecar found is its own or
      the one its rebootstrap left behind. */
  predicate Survives(w: World, k: nat)
  {
    w.minted != [] && k == |w.minted| - 1 && !Rejected(Last(w), w.sidecar)
  }

  lemma CrashIsDeath(w: World, landed: bool, k: nat)
    requires Enabled(w, Crashes(landed)) && k < |w.minted| && !Survives(Apply(w, Crashes(landed)), k)
    ensures Dead(Apply(w, Crashes(landed)), k)
  {
  }

  /** No incarnation minted before a crash is given out after it unless it survives: in particular
      none whose process died before its sidecar was durable, whether it was still
      current at the crash or had been replaced already, except one minted by a
      rebootstrap whose replaced incarnation the sidecar still names. */
  lemma {:induction false} DiedIncarnationNeverGivenOut(ws: seq<World>, ss: seq<Step>, m: nat, n: nat, k: nat)
    requires Run(ws, ss) && m < n <= |ss| && ss[m].Crashes? && k < |ws[m].minted| && !Survives(ws[m + 1], k)
    ensures Dead(ws[n], k) && OnlyNewer(ws[m].handed, ws[n].handed, k)
    decreases n
  {
    if n == m + 1 {
      CrashIsDeath(ws[m], ss[m].landed, k);
    } else {
      DiedIncarnationNeverGivenOut(ws, ss, m, n - 1, k);
      DeadStays(ws[n - 1], ss[n - 1], k);
    }
  }

  /** Two draws that repeat nothing, not even each other. */
  predicate BothFresh(w: World, d1: Draw, d2: Draw)
  {
    Fresh(w, d1) && Fresh(w, d2) && d1.incarnation != d2.incarnation && d1.nonce != d2.nonce
  }

  /** An undisturbed open up to its sidecar write. */
  function Chosen(w: World, device: DeviceId, machine: Fingerprint, d1: Draw, d2: Draw): (next: World)
    requires Inv(w) && w.call.NoCall? && BothFresh(w, d1, d2)
    ensures next.minted != [] && next.call == Writing(|next.minted| - 1, false)
    ensures var e := Ensure(w, device, machine, w.sidecar, d1);
            next == (if e.ahead then Rotate(e, d2) else e).(call := next.call)
  {
    var w1 := Apply(w, OpenReads(device, machine));
    var w2 := Apply(w1, OpenEnsures(d1));
    Apply(w2, OpenRotates(d2))
  }

  /** Exactly when an undisturbed open gives out the record it finds: same device, no report
      about its author, a readable machine id that agrees, and a sidecar that is
      its own or the one its rebootstrap left behind. Otherwise it gives out a
      new one. Either way the slot is on the current record, its sidecar durable. */
  lemma OpenKeepsTheRecordIff(w: World, device: DeviceId, machine: Fingerprint, d1: Draw, d2: Draw)
    requires Inv(w) && w.call.NoCall? && w.minted != [] && BothFresh(w, d1, d2)
    ensures var done := Apply(Chosen(w, device, machine, d1, d2), WriteSucceeds);
            && done.minted != [] && done.slot == Some(|done.minted| - 1) && done.sidecar == Some(ForRecord(Last(done)))
            && (done.minted == w.minted
                <==> !w.ahead && Last(w).device == device && !Rejected(Last(w), w.sidecar)
                     && (machine.Machine? ==> machine == Last(w).machine))
  {
  }

  /** So a record that died before its sidecar is given out after all when a rebootstrap
      minted it: the run installs, rebootstraps, crashes and opens again. */
  lemma RebootstrapSurvivesItsCrash(device: DeviceId, machine: Fingerprint, d1: Draw, d2: Draw, d3: Draw)
    returns (ws: seq<World>, ss: seq<Step>)
    requires d1.incarnation != d2.incarnation && d1.nonce != d2.nonce
    requires d1.incarnation != d3.incarnation && d1.nonce != d3.nonce
    requires d2.incarnation != d3.incarnation && d2.nonce != d3.nonce
    ensures Run(ws, ss) && |ss| == 10 && ss[5].Crashes? && |ws[6].minted| == 2
    ensures ws[6].sidecar != Some(ForRecord(Last(ws[6]))) && ws[10].handed == [0, 1]
  {
    ws, ss := InstallThenRebootstrap(device, machine, d1, d2);
    var w5 := ws[5];
    var w6 := Apply(w5, Crashes(false));
    var w7 := Apply(w6, OpenReads(device, machine));
    var w8 := Apply(w7, OpenEnsures(d3));
    var w9 := Apply(w8, OpenRotates(d3));
    ws, ss := ws + [w6, w7, w8, w9, Apply(w9, WriteSucceeds)],
              ss + [Crashes(false), OpenReads(device, machine), OpenEnsures(d3), OpenRotates(d3), WriteSucceeds];
  }

  lemma InstallThenRebootstrap(device: DeviceId, machine: Fingerprint, d1: Draw, d2: Draw)
    returns (ws: seq<World>, ss: seq<Step>)
    requires d1.incarnation != d2.incarnation && d1.nonce != d2.nonce
    ensures Run(ws, ss) && |ss| == 5
    ensures var r := IncarnationRecord(device, d1.incarnation, d1.nonce, machine, Install, None);
            ws[5] == World([r, Successor(r, d2, Rebootstrap)], Some(ForRecord(r)), false, NoCall, Some(0), [0])
  {
    ss := [OpenReads(device, machine), OpenEnsures(d1), OpenRotates(d2), WriteSucceeds, Rebootstraps(d2)];
    var w0 := World([], None, false, NoCall, None, []);
    var w1 := Apply(w0, ss[0]);
    var w2 := Apply(w1, ss[1]);
    var w3 := Apply(w2, ss[2]);
    var w4 := Apply(w3, ss[3]);
    ws := [w0, w1, w2, w3, w4, Apply(w4, ss[4])];
  }

  // ----- exactly which records survive a crash --------------------------

  lemma RunOn(ws: seq<World>, ss: seq<Step>, s: Step)
    requires Run(ws, ss) && Enabled(ws[|ss|], s)
    ensures Run(ws + [Apply(ws[|ss|], s)], ss + [s])
  {
  }

  /** Some continuation of the run gives out record `k`. */
  ghost predicate CanBeGivenOut(ws: seq<World>, ss: seq<Step>, k: nat)
    requires Run(ws, ss)
  {
    exists more: seq<World>, steps: seq<Step> ::
      Run(more, steps) && ws <= more && ss <= steps && GivenSince(ws[|ss|].handed, more[|steps|].handed, k)
  }

  predicate GivenSince(before: seq<nat>, now: seq<nat>, k: nat)
  {
    |before| <= |now| && k in now[|before|..]
  }

  /** An open on the same device keeps a record that survives. */
  lemma Reopens(ws: seq<World>, ss: seq<Step>, d: Draw) returns (more: seq<World>, steps: seq<Step>)
    requires Run(ws, ss)
    requires var w := ws[|ss|]; w.call.NoCall? && w.minted != [] && !Rejected(Last(w), w.sidecar) && Fresh(w, d)
    ensures Run(more, steps) && ws <= more && ss <= steps
    ensures more[|steps|] == ws[|ss|].(call := Ensured(|ws[|ss|].minted| - 1, false))
  {
    var w := ws[|ss|];
    var s1, s2 := OpenReads(Last(w).device, Unreadable), OpenEnsures(d);
    var w1 := w.(call := Opening(Last(w).device, Unreadable, w.sidecar));
    assert Apply(w, s1) == w1;
    RunOn(ws, ss, s1);
    RunOn(ws + [w1], ss + [s1], s2);
    more, steps := ws + [w1] + [Apply(w1, s2)], ss + [s1] + [s2];
  }

  /** From there the record is given out: at once, or, if a report asks for a rotation, after a
      rebootstrap of the replica has answered that report meanwhile. */
  lemma GivesOutHeld(ws: seq<World>, ss: seq<Step>, k: nat, d2: Draw)
    returns (more: seq<World>, steps: seq<Step>)
    requires Run(ws, ss)
    requires var w := ws[|ss|]; w.call == Ensured(k, false) && k == |w.minted| - 1 && !w.ahead && Fresh(w, d2)
    ensures Run(more, steps) && ws <= more && ss <= steps && more[|steps|].handed == ws[|ss|].handed + [k]
  {
    var w := ws[|ss|];
    var w1 := w.(call := Writing(k, false));
    assert Apply(w, OpenRotates(d2)) == w1;
    RunOn(ws, ss, OpenRotates(d2));
    RunOn(ws + [w1], ss + [OpenRotates(d2)], WriteSucceeds);
    more, steps := ws + [w1] + [Apply(w1, WriteSucceeds)], ss + [OpenRotates(d2)] + [WriteSucceeds];
  }

  lemma GivesOutOvertaken(ws: seq<World>, ss: seq<Step>, k: nat, d1: Draw, d2: Draw)
    returns (more: seq<World>, steps: seq<Step>)
    requires Run(ws, ss)
    requires var w := ws[|ss|]; w.call == Ensured(k, false) && k == |w.minted| - 1 && BothFresh(w, d1, d2)
    ensures Run(more, steps) && ws <= more && ss <= steps && more[|steps|].handed == ws[|ss|].handed + [k]
  {
    var w := ws[|ss|];
    var w1 := Commit(w, Successor(Last(w), d1, Rebootstrap)).(call := Ensured(k, true));
    assert Apply(w, Rebootstraps(d1)) == w1;
    RunOn(ws, ss, Rebootstraps(d1));
    more, steps := ws + [w1], ss + [Rebootstraps(d1)];
    var w2 := w1.(call := Writing(k, true));
    assert Apply(w1, OpenRotates(d2)) == w2;
    RunOn(more, steps, OpenRotates(d2));
    more, steps := more + [w2], steps + [OpenRotates(d2)];
    RunOn(more, steps, WriteSucceeds);
    more, steps := more + [Apply(w2, WriteSucceeds)], steps + [WriteSucceeds];
  }

  lemma SurvivorIsGivenOut(ws: seq<World>, ss: seq<Step>, k: nat, d1: Draw, d2: Draw)
    requires Run(ws, ss) && ws[|ss|].call.NoCall? && Survives(ws[|ss|], k) && BothFresh(ws[|ss|], d1, d2)
    ensures CanBeGivenOut(ws, ss, k)
  {
    var more, steps := Reopens(ws, ss, d1);
    if ws[|ss|].ahead {
      more, steps := GivesOutOvertaken(more, steps, k, d1, d2);
    } else {
      more, steps := GivesOutHeld(more, steps, k, d2);
    }
    assert GivenSince(ws[|ss|].handed, more[|steps|].handed, k);
  }

  /** Right after a crash, exactly the surviving record can be given out again, of all that were
      minted before it (while new incarnations can still be drawn). */
  lemma GivenOutAfterCrashIff(ws: seq<World>, ss: seq<Step>, k: nat, d1: Draw, d2: Draw)
    requires Run(ws, ss) && ss != [] && ss[|ss| - 1].Crashes? && k < |ws[|ss|].minted| && BothFresh(ws[|ss|], d1, d2)
    ensures CanBeGivenOut(ws, ss, k) <==> Survives(ws[|ss|], k)
  {
    var m := |ss| - 1;
    assert ws[m + 1] == Apply(ws[m], ss[m]);
    if Survives(ws[|ss|], k) {
      SurvivorIsGivenOut(ws, ss, k, d1, d2);
    } else if CanBeGivenOut(ws, ss, k) {
      var more: seq<World>, steps: seq<Step> :|
        Run(more, steps) && ws <= more && ss <= steps && GivenSince(ws[|ss|].handed, more[|steps|].handed, k);
      NotGivenSince(ws, ss, more, steps, k);
    }
  }

  lemma NotGivenSince(ws: seq<World>, ss: seq<Step>, more: seq<World>, steps: seq<Step>, k: nat)
    requires Run(ws, ss) && ss != [] && ss[|ss| - 1].Crashes? && k < |ws[|ss|].minted| && !Survives(ws[|ss|], k)
    requires Run(more, steps) && ws <= more && ss <= steps
    ensures !GivenSince(ws[|ss|].handed, more[|steps|].handed, k)
  {
    var m := |ss| - 1;
    assert more[m] == ws[m] && more[m + 1] == ws[m + 1] && steps[m] == ss[m];
    assert ws[m + 1] == Apply(ws[m], ss[m]);
    DiedIncarnationNeverGivenOut(more, steps, m, |steps|, k);
  }

  // ----- the two operations ---------------------------------------------

  /** How a sidecar write ends: durable; failed before the rename; failed after it. */
  datatype Write = Durable | Unwritten | Renamed

  function WriteStep(write: Write): Step
  {
    match write
    case Durable => WriteSucceeds
    case Unwritten => WriteFails(false)
    case Renamed => WriteFails(true)
  }

  /** The database, the sidecar and the locked slot; each method is one undisturbed call. */
  class Replica {
    var minted: seq<IncarnationRecord>
    var sidecar: Option<InstanceSidecar>
    var ahead: bool
    var slot: Option<nat>
    var handed: seq<nat>

    constructor (found: Option<InstanceSidecar>)
      ensures Initial(State()) && sidecar == found
    {
      minted, sidecar, ahead, slot, handed := [], found, false, None, [];
    }

    function State(): World
      reads this
    {
      World(minted, sidecar, ahead, NoCall, slot, handed)
    }

    method Mint(device: DeviceId, machine: Fingerprint, reason: MintReason, previous: Option<Id>, d: Draw)
      modifies this`minted, this`ahead
      ensures State() == Commit(old(State()), IncarnationRecord(device, d.incarnation, d.nonce, machine, reason, previous))
    {
      minted := minted + [IncarnationRecord(device, d.incarnation, d.nonce, machine, reason, previous)];
      ahead := false;
    }

    /** Writes the sidecar of the current record and, once it is durable, gives out the handle. */
    method Publish(write: Write) returns (handle: Option<nat>)
      requires minted != []
      modifies this`sidecar, this`slot, this`handed
      ensures State() == Apply(old(State()).(call := Writing(|minted| - 1, false)), WriteStep(write))
      ensures handle == if write.Durable? then Some(|minted| - 1) else None
    {
      var k := |minted| - 1;
      if !write.Unwritten? {
        sidecar := Some(ForRecord(minted[k]));
      }
      if !write.Durable? {
        return None;
      }
      slot, handed := Some(k), handed + [k];
      return Some(k);
    }

    method EnsureIncarnation(device: DeviceId, machine: Fingerprint, seen: Option<InstanceSidecar>, d: Draw)
      modifies this`minted, this`ahead
      ensures State() == Ensure(old(State()), device, machine, seen, d) && minted != []
    {
      if minted == [] {
        Mint(device, machine, Install, None, d);
        return;
      }
      var current := minted[|minted| - 1];
      var compared := if machine.Machine? then machine else current.machine;
      if current.device != device {
        Mint(device, compared, IdentityMismatch, Some(current.incarnation), d);
      } else if seen != Some(ForRecord(current)) && !LeftByRebootstrap(current, seen) {
        Mint(device, compared, Restore, Some(current.incarnation), d);
      } else if current.machine != compared {
        Mint(device, compared, Migration, Some(current.incarnation), d);
      }
    }

    method RotateIfAhead(d: Draw)
      requires minted != []
      modifies this`minted, this`ahead
      ensures State() == (if old(ahead) then Rotate(old(State()), d) else old(State())) && minted != []
    {
      if ahead {
        var current := minted[|minted| - 1];
        Mint(current.device, current.machine, OwnAuthorAhead, Some(current.incarnation), d);
      }
    }

    method ChooseRecord(device: DeviceId, machine: Fingerprint, d1: Draw, d2: Draw)
      requires Inv(State()) && BothFresh(State(), d1, d2)
      modifies this`minted, this`ahead
      ensures State() == Chosen(old(State()), device, machine, d1, d2).(call := NoCall) && minted != []
    {
      EnsureIncarnation(device, machine, sidecar, d1);
      RotateIfAhead(d2);
    }

    method OpenAuthorIdentity(device: DeviceId, machine: Fingerprint, d1: Draw, d2: Draw, write: Write)
      returns (handle: Option<nat>)
      requires Inv(State()) && BothFresh(State(), d1, d2)
      modifies this
      ensures State() == Apply(Chosen(old(State()), device, machine, d1, d2), WriteStep(write))
      ensures handle == if write.Durable? then Some(|minted| - 1) else None
    {
      ChooseRecord(device, machine, d1, d2);
      handle := Publish(write);
    }

    method RotateOnOwnAuthorAhead(d: Draw, write: Write) returns (handle: Option<nat>)
      requires Inv(State()) && Enabled(State(), RotateStarts(d))
      modifies this
      ensures var started := Apply(old(State()), RotateStarts(d));
              && State() == (if started.call.Writing? then Apply(started, WriteStep(write)) else started)
              && handle == (if started.call.Writing? && !write.Durable? then None else Some(|minted| - 1))
    {
      if !ahead && slot == Some(|minted| - 1) {
        handed := handed + [|minted| - 1];
        return slot;
      }
      RotateIfAhead(d);
      handle := Publish(write);
    }
  }
}
