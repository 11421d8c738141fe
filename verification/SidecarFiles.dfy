/** How a sidecar is replaced on disk (author_sidecar.rs): a temp file of its own is
    written and synced, renamed over the sidecar, and the directory synced. Several
    writes may overlap, any of them may fail, and a crash may come at any point
    and undo every rename since the last directory sync. */
module SidecarFiles {
  import opened Bytes
  import opened Sidecar

  /** A file's identity, apart from the names that lead to it. */
  type FileId = nat
  type WriteId = nat

  datatype Stage = Writing | Written | Synced | Renamed | Returned(ok: bool)

  datatype Write = Write(file: FileId, encoded: seq<byte>, stage: Stage)

  /** `content` is what each file holds, `synced` the files a crash cannot damage,
      `sidecar` the file the sidecar's name leads to, and `afterCrash` those it
      may lead to after a crash. */
  datatype World = World(
    content: map<FileId, seq<byte>>, synced: set<FileId>, sidecar: Option<FileId>, afterCrash: set<Option<FileId>>,
    writes: map<WriteId, Write>)

  datatype Step =
    | Creates(w: WriteId, file: FileId, value: InstanceSidecar, encoded: seq<byte>)
    | Appends(w: WriteId, n: nat)
    | SyncsFile(w: WriteId)
    | Renames(w: WriteId)
    | SyncsDirectory(w: WriteId)
    | Fails(w: WriteId)
    | Crashes(kept: Option<FileId>, damaged: map<FileId, seq<byte>>)

  /** A directory with no sidecar, or with a whole and durable one. */
  predicate Initial(x: World)
  {
    && x.writes == map[] && x.afterCrash == {x.sidecar}
    && (x.sidecar.Some? ==> Whole(x, x.sidecar.value))
  }

  /** A synced file that holds the encoding of a sidecar. */
  predicate Whole(x: World, f: FileId)
  {
    f in x.synced && f in x.content && Decode(x.content[f]).Some?
  }

  predicate At(x: World, w: WriteId, stage: Stage)
  {
    w in x.writes && x.writes[w].stage == stage
  }

  predicate Enabled(x: World, s: Step)
  {
    match s
    case Creates(w, f, value, encoded) =>
      w !in x.writes && f !in x.content && f !in x.synced && LaidOut(encoded, value)
    case Appends(w, n) => At(x, w, Writing) && x.writes[w].file in x.content
                          && |x.content[x.writes[w].file]| < n <= |x.writes[w].encoded|
    case SyncsFile(w) => At(x, w, Written)
    case Renames(w) => At(x, w, Synced)
    case SyncsDirectory(w) => At(x, w, Renamed)
    case Fails(w) => w in x.writes && !x.writes[w].stage.Returned?
    case Crashes(kept, damaged) =>
      kept in x.afterCrash && damaged.Keys == x.content.Keys
      && forall f :: f in x.synced && f in x.content ==> damaged[f] == x.content[f]
  }

  function Moved(x: World, w: WriteId, stage: Stage): World
    requires w in x.writes
  {
    x.(writes := x.writes[w := x.writes[w].(stage := stage)])
  }

  function Apply(x: World, s: Step): World
    requires Enabled(x, s)
  {
    match s
    case Creates(w, f, _, encoded) => x.(content := x.content[f := []], writes := x.writes[w := Write(f, encoded, Writing)])
    case Appends(w, n) =>
      var write := x.writes[w];
      Moved(x, w, if n == |write.encoded| then Written else Writing).(content := x.content[write.file := write.encoded[..n]])
    case SyncsFile(w) => Moved(x, w, Synced).(synced := x.synced + {x.writes[w].file})
    case Renames(w) =>
      Moved(x, w, Renamed).(sidecar := Some(x.writes[w].file), afterCrash := x.afterCrash + {Some(x.writes[w].file)})
    case SyncsDirectory(w) => Moved(x, w, Returned(true)).(afterCrash := {x.sidecar})
    case Fails(w) =>
      var failed := Moved(x, w, Returned(false));
      if x.writes[w].stage.Renamed? then failed else failed.(content := x.content - {x.writes[w].file})
    case Crashes(kept, damaged) => x.(content := damaged, sidecar := kept, afterCrash := {kept}, writes := map[])
  }

  predicate Run(xs: seq<World>, ss: seq<Step>)
  {
    && |xs| == |ss| + 1 && Initial(xs[0])
    && forall i :: 0 <= i < |ss| ==> Enabled(xs[i], ss[i]) && xs[i + 1] == Apply(xs[i], ss[i])
  }

  // ----- the invariant --------------------------------------------------

  /** What a write has made of its own file so far. */
  predicate WriteInv(x: World, write: Write)
  {
    && Decode(write.encoded).Some?
    && match write.stage
       case Writing => write.file in x.content && write.file !in x.synced && write.encoded != []
       case Written => write.file in x.content && write.file !in x.synced && x.content[write.file] == write.encoded
       case Synced => write.file in x.synced && write.file in x.content && x.content[write.file] == write.encoded
       case Renamed => write.file in x.synced && write.file in x.content && x.content[write.file] == write.encoded
       case Returned(_) => true
  }

  /** Not yet renamed: no name but the temp file's leads to it. */
  predicate Private(write: Write)
  {
    write.stage.Writing? || write.stage.Written? || write.stage.Synced?
  }

  /** Every file the sidecar's name may lead to is whole, and is nobody's temp file. */
  ghost predicate Inv(x: World)
  {
    && x.sidecar in x.afterCrash
    && (forall f :: Some(f) in x.afterCrash ==> Whole(x, f))
    && (forall w :: w in x.writes ==> WriteInv(x, x.writes[w]))
    && (forall w :: w in x.writes && Private(x.writes[w]) ==> Some(x.writes[w].file) !in x.afterCrash)
    && OwnFiles(x)
  }

  /** No two writes in progress share a temp file. */
  ghost predicate OwnFiles(x: World)
  {
    forall v, w :: v in x.writes && w in x.writes && v != w ==>
      (Private(x.writes[v]) && !x.writes[w].stage.Returned? ==> x.writes[v].file != x.writes[w].file)
  }

  lemma StepKeepsOwnFiles(x: World, s: Step)
    requires Inv(x) && Enabled(x, s)
    ensures OwnFiles(Apply(x, s))
  {
  }

  predicate Touches(s: Step, w: WriteId)
  {
    !s.Crashes? && s.w == w
  }

  lemma OthersKeepWrite(x: World, s: Step, w: WriteId)
    requires Inv(x) && Enabled(x, s) && !s.Crashes? && !Touches(s, w) && w in x.writes
    ensures w in Apply(x, s).writes && Apply(x, s).writes[w] == x.writes[w]
    ensures WriteInv(Apply(x, s), x.writes[w])
  {
    assert WriteInv(x, x.writes[w]);
    if s.Appends? || s.SyncsFile? || s.Fails? {
      assert WriteInv(x, x.writes[s.w]);
    }
  }

  lemma OwnStepKeepsWrite(x: World, s: Step)
    requires Inv(x) && Enabled(x, s) && !s.Crashes?
    ensures WriteInv(Apply(x, s), Apply(x, s).writes[s.w])
  {
    if s.w in x.writes {
      assert WriteInv(x, x.writes[s.w]);
    }
  }

  lemma StepKeepsWrite(x: World, s: Step, w: WriteId)
    requires Inv(x) && Enabled(x, s) && w in Apply(x, s).writes
    ensures WriteInv(Apply(x, s), Apply(x, s).writes[w])
  {
    if Touches(s, w) {
      OwnStepKeepsWrite(x, s);
    } else {
      OthersKeepWrite(x, s, w);
    }
  }

  lemma StepKeepsPrivate(x: World, s: Step, w: WriteId)
    requires Inv(x) && Enabled(x, s) && w in Apply(x, s).writes && Private(Apply(x, s).writes[w])
    ensures Some(Apply(x, s).writes[w].file) !in Apply(x, s).afterCrash
  {
  }

  lemma StepKeepsWhole(x: World, s: Step, f: FileId)
    requires Inv(x) && Enabled(x, s) && Some(f) in x.afterCrash
    ensures Whole(Apply(x, s), f)
    ensures Apply(x, s).content[f] == x.content[f]
  {
    assert Whole(x, f);
  }

  lemma StepKeepsNames(x: World, s: Step)
    requires Inv(x) && Enabled(x, s)
    ensures Apply(x, s).sidecar in Apply(x, s).afterCrash
    ensures forall f :: Some(f) in Apply(x, s).afterCrash ==> Whole(Apply(x, s), f)
  {
    forall f | Some(f) in Apply(x, s).afterCrash ensures Whole(Apply(x, s), f) {
      if Some(f) in x.afterCrash {
        StepKeepsWhole(x, s, f);
      } else {
        assert WriteInv(x, x.writes[s.w]);
      }
    }
  }

  lemma StepKeepsInv(x: World, s: Step)
    requires Inv(x) && Enabled(x, s)
    ensures Inv(Apply(x, s))
  {
    StepKeepsNames(x, s);
    StepKeepsOwnFiles(x, s);
    forall w | w in Apply(x, s).writes
      ensures WriteInv(Apply(x, s), Apply(x, s).writes[w])
      ensures Private(Apply(x, s).writes[w]) ==> Some(Apply(x, s).writes[w].file) !in Apply(x, s).afterCrash
    {
      StepKeepsWrite(x, s, w);
      if Private(Apply(x, s).writes[w]) {
        StepKeepsPrivate(x, s, w);
      }
    }
  }

  lemma {:induction false} RunKeepsInv(xs: seq<World>, ss: seq<Step>, n: nat)
    requires Run(xs, ss) && n <= |ss|
    ensures Inv(xs[n])
    decreases n
  {
    if n > 0 {
      RunKeepsInv(xs, ss, n - 1);
      StepKeepsInv(xs[n - 1], ss[n - 1]);
    }
  }

  // ----- what a reader sees ---------------------------------------------

  /** At every point of every run, crashes included, the sidecar is absent or whole: what is
      read there decodes, never a torn or partly written file, even while other
      writes overlap. */
  lemma NeverTorn(xs: seq<World>, ss: seq<Step>, n: nat)
    requires Run(xs, ss) && n <= |ss| && xs[n].sidecar.Some?
    ensures xs[n].sidecar.value in xs[n].content && Decode(xs[n].content[xs[n].sidecar.value]).Some?
  {
    RunKeepsInv(xs, ss, n);
  }

  /** A rename puts exactly the bytes of its own write there, whole. */
  lemma RenamePublishesItsOwn(xs: seq<World>, ss: seq<Step>, n: nat, w: WriteId)
    requires Run(xs, ss) && n < |ss| && ss[n] == Renames(w)
    ensures w in xs[n].writes && xs[n + 1].sidecar == Some(xs[n].writes[w].file)
    ensures xs[n].writes[w].file in xs[n + 1].content
    ensures xs[n + 1].content[xs[n].writes[w].file] == xs[n].writes[w].encoded
  {
    RunKeepsInv(xs, ss, n);
    assert WriteInv(xs[n], xs[n].writes[w]);
  }

  predicate NoRename(ss: seq<Step>, from: nat, to: nat)
    requires to <= |ss|
  {
    forall i :: from <= i < to ==> !ss[i].Renames?
  }

  /** The sidecar is `f`, holding `bytes`, and stays so across a crash. */
  predicate Settled(x: World, f: FileId, bytes: seq<byte>)
  {
    x.sidecar == Some(f) && x.afterCrash == {Some(f)} && f in x.content && x.content[f] == bytes
  }

  lemma SettledStep(x: World, s: Step, f: FileId, bytes: seq<byte>)
    requires Inv(x) && Enabled(x, s) && !s.Renames? && Settled(x, f, bytes)
    ensures Settled(Apply(x, s), f, bytes)
  {
    StepKeepsWhole(x, s, f);
  }

  lemma SyncSettles(x: World, w: WriteId)
    requires Inv(x) && Enabled(x, SyncsDirectory(w)) && x.sidecar.Some?
    ensures x.sidecar.value in x.content
    ensures Settled(Apply(x, SyncsDirectory(w)), x.sidecar.value, x.content[x.sidecar.value])
  {
    assert Whole(x, x.sidecar.value);
  }

  /** Once a write returned success, the sidecar survives any crash unchanged until the next
      rename. */
  lemma {:induction false} ReturnedIsDurable(xs: seq<World>, ss: seq<Step>, m: nat, n: nat)
    requires Run(xs, ss) && m < n <= |ss| && ss[m].SyncsDirectory? && NoRename(ss, m + 1, n)
    requires xs[m].sidecar.Some?
    ensures xs[m].sidecar.value in xs[m].content
    ensures Settled(xs[n], xs[m].sidecar.value, xs[m].content[xs[m].sidecar.value])
    decreases n
  {
    if n == m + 1 {
      RunKeepsInv(xs, ss, m);
      SyncSettles(xs[m], ss[m].w);
    } else {
      ReturnedIsDurable(xs, ss, m, n - 1);
      RunKeepsInv(xs, ss, n - 1);
      SettledStep(xs[n - 1], ss[n - 1], xs[m].sidecar.value, xs[m].content[xs[m].sidecar.value]);
    }
  }
}
