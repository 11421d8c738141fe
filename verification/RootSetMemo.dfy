/** The memo of a group's root-set summary (durability_service.rs), keyed by the
    group's root-set generation, under concurrent callers and writers. The memo
    lock is not held across the database reads, so a slow computation may
    overwrite a newer entry. */
module RootSetMemo {
  import opened Bytes
  import opened Custody

  /** What a scan of the rows gives, without the generation stamped on it. */
  datatype Rows = Rows(currentCount: nat, currentDigest: Hash, rootsDigest: Hash)

  /** One instant of the index: every committed write starts a new one. */
  datatype Instant = Instant(generation: nat, rows: Rows)

  /** A computed summary. The generation is read first and the rows in a second
      read, so the two may come from different instants, kept here by number. */
  datatype Summary = Summary(generation: nat, rows: Rows, stampAt: nat, rowsAt: nat)

  type CallId = nat

  datatype Call =
    | Looking(start: nat, generation: nat)
    | Missed(start: nat)
    | Stamped(start: nat, stamp: nat, stampAt: nat)
    | Computed(start: nat, summary: Summary)
    | Returned(start: nat, end: nat, answer: Option<Summary>)

  datatype World = World(past: seq<Instant>, memo: Option<Summary>, calls: map<CallId, Call>)

  datatype Event =
    | Write(next: Instant)
    | ReadGeneration(call: CallId)
    | LookUp(call: CallId)
    | ReadStamp(call: CallId)
    | ReadRows(call: CallId)
    | Insert(call: CallId)
    | Fail(call: CallId)

  predicate Initial(w: World)
  {
    |w.past| == 1 && w.memo == None && w.calls == map[]
  }

  predicate Enabled(w: World, e: Event)
  {
    match e
    case Write(_) => true
    case ReadGeneration(c) => c !in w.calls
    case LookUp(c) => c in w.calls && w.calls[c].Looking?
    case ReadStamp(c) => c in w.calls && w.calls[c].Missed?
    case ReadRows(c) => c in w.calls && w.calls[c].Stamped?
    case Insert(c) => c in w.calls && w.calls[c].Computed?
    case Fail(c) => c in w.calls && (w.calls[c].Missed? || w.calls[c].Stamped?)
  }

  function Step(w: World, e: Event): World
    requires Enabled(w, e) && |w.past| > 0
  {
    var now := |w.past| - 1;
    match e
    case Write(next) => w.(past := w.past + [next])
    case ReadGeneration(c) => w.(calls := w.calls[c := Looking(now, w.past[now].generation)])
    case LookUp(c) =>
      var call := w.calls[c];
      if w.memo.Some? && w.memo.value.generation == call.generation
      then w.(calls := w.calls[c := Returned(call.start, now, w.memo)])
      else w.(calls := w.calls[c := Missed(call.start)])
    case ReadStamp(c) => w.(calls := w.calls[c := Stamped(w.calls[c].start, w.past[now].generation, now)])
    case ReadRows(c) =>
      var call := w.calls[c];
      w.(calls := w.calls[c := Computed(call.start, Summary(call.stamp, w.past[now].rows, call.stampAt, now))])
    case Insert(c) =>
      var call := w.calls[c];
      w.(memo := Some(call.summary), calls := w.calls[c := Returned(call.start, now, Some(call.summary))])
    case Fail(c) => w.(calls := w.calls[c := Returned(w.calls[c].start, now, None)])
  }

  predicate Run(ws: seq<World>, es: seq<Event>)
  {
    && |ws| == |es| + 1 && Initial(ws[0])
    && forall i :: 0 <= i < |es| ==> |ws[i].past| > 0 && Enabled(ws[i], es[i]) && ws[i + 1] == Step(ws[i], es[i])
  }

  /** Every write moved the generation to a value it never had. */
  predicate GenerationsDistinct(past: seq<Instant>)
  {
    forall i, j :: 0 <= i < j < |past| ==> past[i].generation != past[j].generation
  }

  // ----- the invariant --------------------------------------------------

  /** The summary's stamp and rows were each true at the instant they were read, the stamp no later. */
  predicate TakenFrom(past: seq<Instant>, s: Summary)
  {
    && s.stampAt <= s.rowsAt < |past|
    && s.generation == past[s.stampAt].generation && s.rows == past[s.rowsAt].rows
  }

  /** Both reads happened between the call's first read and its return. */
  predicate Within(s: Summary, start: nat, end: nat)
  {
    start <= s.stampAt && s.rowsAt <= end
  }

  predicate CallInv(past: seq<Instant>, call: Call)
  {
    && call.start < |past|
    && match call
       case Looking(start, g) => g == past[start].generation
       case Missed(_) => true
       case Stamped(start, g, at) => start <= at < |past| && g == past[at].generation
       case Computed(start, s) => TakenFrom(past, s) && start <= s.stampAt
       case Returned(start, end, answer) =>
         end < |past| && (answer.Some? ==> TakenFrom(past, answer.value) && Within(answer.value, start, end))
  }

  predicate Inv(w: World)
  {
    && |w.past| > 0 && (w.memo.Some? ==> TakenFrom(w.past, w.memo.value))
    && forall c :: c in w.calls ==> CallInv(w.past, w.calls[c])
  }

  /** A hit is never stale: an entry with the generation just read was stamped at this very instant. */
  lemma HitIsInsideTheCall(past: seq<Instant>, start: nat, s: Summary)
    requires GenerationsDistinct(past) && TakenFrom(past, s) && start < |past|
    requires s.generation == past[start].generation
    ensures s.stampAt == start
  {
  }

  lemma CallStays(past: seq<Instant>, next: Instant, call: Call)
    requires CallInv(past, call)
    ensures CallInv(past + [next], call)
  {
  }

  lemma CallAdvances(w: World, e: Event)
    requires Inv(w) && Enabled(w, e) && !e.Write? && GenerationsDistinct(w.past)
    ensures CallInv(w.past, Step(w, e).calls[e.call])
  {
    if e.call in w.calls {
      assert CallInv(w.past, w.calls[e.call]);
      if e.LookUp? && w.memo.Some? && w.memo.value.generation == w.calls[e.call].generation {
        HitIsInsideTheCall(w.past, w.calls[e.call].start, w.memo.value);
      }
    }
  }

  lemma StepKeepsInv(w: World, e: Event)
    requires Inv(w) && Enabled(w, e) && GenerationsDistinct(w.past)
    ensures Inv(Step(w, e))
  {
    if e.Write? {
      forall c | c in w.calls ensures CallInv(w.past + [e.next], w.calls[c]) {
        CallStays(w.past, e.next, w.calls[c]);
      }
    } else {
      CallAdvances(w, e);
      assert e.Insert? ==> CallInv(w.past, w.calls[e.call]);
    }
  }

  lemma {:induction false} PastGrows(ws: seq<World>, es: seq<Event>, m: nat, n: nat)
    requires Run(ws, es) && m <= n <= |es|
    ensures ws[m].past <= ws[n].past
    decreases n
  {
    if m < n {
      PastGrows(ws, es, m, n - 1);
      assert ws[n] == Step(ws[n - 1], es[n - 1]);
    }
  }

  lemma {:induction false} RunKeepsInv(ws: seq<World>, es: seq<Event>, n: nat)
    requires Run(ws, es) && n <= |es| && GenerationsDistinct(ws[n].past)
    ensures Inv(ws[n])
    decreases n
  {
    if n > 0 {
      PastGrows(ws, es, n - 1, n);
      assert forall i :: 0 <= i < |ws[n - 1].past| ==> ws[n - 1].past[i] == ws[n].past[i];
      RunKeepsInv(ws, es, n - 1);
      StepKeepsInv(ws[n - 1], es[n - 1]);
    }
  }

  /** Linearizable: every answer's rows are the rows of an instant between the call's first
      read and its return, and so is its stamp. The pair is one instant's exactly when
      that instant still had the stamped generation. */
  lemma AnswersFromInsideTheCall(ws: seq<World>, es: seq<Event>, n: nat, c: CallId)
    requires Run(ws, es) && n <= |es| && GenerationsDistinct(ws[n].past)
    requires c in ws[n].calls && ws[n].calls[c].Returned? && ws[n].calls[c].answer.Some?
    ensures var past, call := ws[n].past, ws[n].calls[c];
            var s := call.answer.value;
            && call.start <= s.stampAt <= s.rowsAt <= call.end < |past|
            && past[s.rowsAt].rows == s.rows && past[s.stampAt].generation == s.generation
            && (past[s.rowsAt].generation == s.generation <==> s.stampAt == s.rowsAt)
  {
    RunKeepsInv(ws, es, n);
    assert CallInv(ws[n].past, ws[n].calls[c]);
  }

  /** Why a cycle reads again before it publishes: if a call that starts after another
      returned answers with the same stamp, no write fell between the first call's
      stamp and the second's, and the first answer was one instant's. */
  lemma SameStampMeansUnmoved(ws: seq<World>, es: seq<Event>, n: nat, c: CallId, d: CallId)
    requires Run(ws, es) && n <= |es| && GenerationsDistinct(ws[n].past)
    requires c in ws[n].calls && ws[n].calls[c].Returned? && ws[n].calls[c].answer.Some?
    requires d in ws[n].calls && ws[n].calls[d].Returned? && ws[n].calls[d].answer.Some?
    requires ws[n].calls[c].end <= ws[n].calls[d].start
    requires ws[n].calls[c].answer.value.generation == ws[n].calls[d].answer.value.generation
    ensures var first, again := ws[n].calls[c].answer.value, ws[n].calls[d].answer.value;
            && first.stampAt == first.rowsAt == ws[n].calls[d].start == again.stampAt
            && ws[n].calls[d].start < |ws[n].past|
            && ws[n].past[ws[n].calls[d].start] == Instant(first.generation, first.rows)
  {
    AnswersFromInsideTheCall(ws, es, n, c);
    AnswersFromInsideTheCall(ws, es, n, d);
  }

  /** One uninterrupted call over an empty memo. */
  lemma FirstCall(g: nat, rows: Rows) returns (ws: seq<World>, es: seq<Event>)
    ensures Run(ws, es) && |es| == 5
    ensures var s := Summary(g, rows, 0, 0);
            ws[5] == World([Instant(g, rows)], Some(s), map[0 := Returned(0, 0, Some(s))])
  {
    es := [ReadGeneration(0), LookUp(0), ReadStamp(0), ReadRows(0), Insert(0)];
    var w0 := World([Instant(g, rows)], None, map[]);
    var w1 := Step(w0, es[0]);
    var w2 := Step(w1, es[1]);
    var w3 := Step(w2, es[2]);
    var w4 := Step(w3, es[3]);
    ws := [w0, w1, w2, w3, w4, Step(w4, es[4])];
  }

  /** The hypothesis is needed: let the generation return to an old value and a later
      call is answered with rows that were not there at any instant of it. */
  lemma StaleHitWhenAGenerationReturns(g: nat, other: nat, rows: Rows, changed: Rows)
    returns (ws: seq<World>, es: seq<Event>)
    requires g != other && rows != changed
    ensures Run(ws, es) && |es| == 9
    ensures ws[9].past == [Instant(g, rows), Instant(other, changed), Instant(g, changed)]
    ensures 1 in ws[9].calls && ws[9].calls[1] == Returned(2, 2, Some(Summary(g, rows, 0, 0)))
  {
    ws, es := FirstCall(g, rows);
    var e5, e6, e7, e8 := Write(Instant(other, changed)), Write(Instant(g, changed)), ReadGeneration(1), LookUp(1);
    var w6 := Step(ws[5], e5);
    var w7 := Step(w6, e6);
    var w8 := Step(w7, e7);
    ws, es := ws + [w6, w7, w8, Step(w8, e8)], es + [e5, e6, e7, e8];
  }

  // ----- the method -----------------------------------------------------

  /** The memo and one sequential call of it; the reads' results are parameters. */
  class SummaryMemo {
    var memo: map<GroupId, RootSetSummary>

    constructor ()
      ensures memo == map[]
    {
      memo := map[];
    }

    method LocalRootSetSummary(group: GroupId, generation: Option<nat>, computed: Option<RootSetSummary>)
      returns (answer: Option<RootSetSummary>)
      modifies this
      ensures generation.None? ==> answer == None
      ensures generation.Some? && group in old(memo) && old(memo[group]).generation == generation.value
              ==> answer == Some(old(memo[group])) && memo == old(memo)
      ensures generation.Some? && !(group in old(memo) && old(memo[group]).generation == generation.value)
              ==> answer == computed
                  && memo == if computed.Some? then old(memo)[group := computed.value] else old(memo)
      ensures generation.None? ==> memo == old(memo)
    {
      if generation.None? {
        return None;
      }
      if group in memo && memo[group].generation == generation.value {
        return Some(memo[group]);
      }
      if computed.None? {
        return None;
      }
      memo := memo[group := computed.value];
      return computed;
    }
  }
}
