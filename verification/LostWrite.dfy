// The driver ignores whether a new hash could be written, or an old one deleted. What a build leaves
// when it could not, or when it is interrupted there: the old hash, or the first digits of the new
// one, beside the new output.
module LostWrite {
  import opened Bytes
  import opened Powers
  import opened StateHash
  import opened BuildCache
  import opened IncrementalBuild
  import opened HashFile
  import Depfile

  // How the write of the hash file, or its deletion, goes: whole, not at all, or cut short.
  datatype Write = Whole | Refused | Cut(count: nat)

  // The hash file stays as it is.
  function Unrecorded(t: Target, p: Product, d: Dir): Dir {
    match p.depfile
    case None => d
    case Some(text) => d.(depfiles := d.depfiles[t.out := text])
  }

  // What is read back of a hash of which the first characters were written.
  function CutHash(h: nat, count: nat): Option<nat> {
    var text := HashText(h);
    ReadHash(if count < |text| then text[..count] else text)
  }

  // record_build_state
  function Attempted(tools: Toolchain, t: Target, p: Product, d: Dir, before: Files, w: Write): Dir {
    match w
    case Whole => Recorded(tools, t, p, d, before)
    case Refused => Unrecorded(t, p, d)
    case Cut(count) =>
      var e := Recorded(tools, t, p, d, before);
      if t.out !in e.hashes then e
      else
        match CutHash(e.hashes[t.out], count)
        case None => e.(hashes := e.hashes - {t.out})
        case Some(h) => e.(hashes := e.hashes[t.out := h])
  }

  // A build of the target whose hash is written so.
  function Tried(tools: Toolchain, t: Target, d: Dir, w: Write): Dir
    requires tools.run(t.cmd, d.files).Some?
  {
    var p := tools.run(t.cmd, d.files).value;
    Attempted(tools, t, p, Installed(t, p, d), d.files, w)
  }

  // ----- what a hash comes from, its dependency file there or not -----

  predicate Sourced(tools: Toolchain, out: Path, d: Dir) {
    out in d.hashes ==>
      && out in d.records
      && var r := d.records[out];
         && tools.run(r.cmd, r.files).Some?
         && var p := tools.run(r.cmd, r.files).value;
            && p.depfile.Some?
            && CurrentHash(tools, r.cmd, Depfile.Parse(p.depfile.value), r.files) == Some(d.hashes[out])
            && (out in d.depfiles ==> d.depfiles[out] == p.depfile.value)
            && (out in d.files ==> d.files[out] == p.output)
  }

  lemma SourcedIsFaithful(tools: Toolchain, out: Path, d: Dir)
    requires Sourced(tools, out, d)
    ensures Faithful(tools, out, d)
  {
    hide CurrentHash;
  }

  lemma SourcedSame(tools: Toolchain, out: Path, d: Dir, e: Dir)
    requires Sourced(tools, out, d) && SameFor(d, e, out)
    ensures Sourced(tools, out, e)
  {
    hide CurrentHash, TimeOf;
  }

  // A build whose hash is written whole, or that needs none, leaves every hash one of a build.
  lemma StepSourced(tools: Toolchain, t: Target, d: Dir, force: bool, out: Path, outs: set<Path>)
    requires Sourced(tools, out, d) && Honest(tools, outs) && Apart(tools, t, outs)
    ensures Sourced(tools, out, Step(tools, t, d, force))
  {
    hide CurrentHash, NeedsBuild, Rebuilt, Sourced;
    if out != t.out {
      StepSame(tools, t, d, force, out);
      hide Step;
      SourcedSame(tools, out, d, Step(tools, t, d, force));
    } else if tools.run(t.cmd, d.files).Some? {
      RebuiltSourced(tools, t, d, outs);
    } else {
      assert Rebuilt(tools, t, d) == d by { NothingRebuilt(tools, t, d); }
    }
  }

  lemma NothingRebuilt(tools: Toolchain, t: Target, d: Dir)
    requires tools.run(t.cmd, d.files).None?
    ensures Rebuilt(tools, t, d) == d
  {
  }

  lemma RebuiltSourced(tools: Toolchain, t: Target, d: Dir, outs: set<Path>)
    requires tools.run(t.cmd, d.files).Some? && Honest(tools, outs) && Apart(tools, t, outs)
    ensures Sourced(tools, t.out, Rebuilt(tools, t, d))
  {
    hide CurrentHash;
    var p := tools.run(t.cmd, d.files).value;
    assert HonestRun(tools, t.cmd, d.files, outs);
    if p.depfile.Some? && Depfile.Parse(p.depfile.value).Some? {
      SameHash(tools, t.cmd, Depfile.Parse(p.depfile.value), Installed(t, p, d).files, d.files);
    }
    NoDepsNoHash(tools, t.cmd, Installed(t, p, d).files);
  }

  lemma {:induction false} RunSourced(tools: Toolchain, ts: seq<Target>, d: Dir, force: bool, out: Path, outs: set<Path>)
    requires Sourced(tools, out, d) && Honest(tools, outs) && Layer(tools, ts, outs)
    ensures Sourced(tools, out, Run(tools, ts, d, force))
    decreases |ts|
  {
    hide Sourced, Step, Honest, Apart, Unrelated;
    if ts != [] {
      var n := |ts| - 1;
      LayerFront(tools, ts, outs);
      RunSourced(tools, ts[..n], d, force, out, outs);
      StepSourced(tools, ts[n], Run(tools, ts[..n], d, force), force, out, outs);
    }
  }

  lemma OutcomeSourced(tools: Toolchain, plan: Plan, d: Dir, force: bool, out: Path, outs: set<Path>)
    requires Honest(tools, outs) && Layer(tools, plan.compiles, outs) && Layer(tools, plan.links, outs)
    requires Sourced(tools, out, d)
    ensures Sourced(tools, out, Outcome(tools, plan, d, force))
  {
    hide Honest, Sourced, RunOk, Run, Compiled, Apart, Unrelated;
    if RunOk(tools, plan.compiles, d, force) {
      RunSourced(tools, plan.compiles, d, force, out, outs);
      RunSourced(tools, plan.links, Run(tools, plan.compiles, d, force), force, out, outs);
    } else {
      var n := CompiledIsPrefix(tools, plan.compiles, d, force);
      RunSourced(tools, plan.compiles[..n], d, force, out, outs);
    }
  }

  lemma NoDepsNoHash(tools: Toolchain, cmd: seq<string>, files: Files)
    ensures CurrentHash(tools, cmd, None, files) == None
  {
  }

  lemma EditSourced(tools: Toolchain, out: Path, d: Dir, e: Dir, outs: set<Path>)
    requires Sourced(tools, out, d) && Edited(d, e, outs) && out in outs
    ensures Sourced(tools, out, e)
  {
    hide CurrentHash;
  }

  // ----- a hash cut short -----

  // Without a digit it is no hash, with every digit it is the whole one; in between it is a smaller
  // number, and the output is built again as long as nothing else changes.
  lemma CutWrite(tools: Toolchain, t: Target, d: Dir, count: nat, outs: set<Path>)
    requires tools.run(t.cmd, d.files).Some? && Honest(tools, outs) && Apart(tools, t, outs)
    ensures var whole, e := Tried(tools, t, d, Whole), Tried(tools, t, d, Cut(count));
            t.out in whole.hashes ==>
              var h := whole.hashes[t.out];
              var n := |Digits(h)|;
              && (count == 0 ==> t.out !in e.hashes)
              && (count >= n ==> e == whole)
              && (0 < count < n ==> t.out in e.hashes && e.hashes[t.out] == h / Pow(10, n - count) < h)
              && (count < n ==> NeedsBuild(tools, t, e, false))
    ensures t.out !in Tried(tools, t, d, Whole).hashes ==> Tried(tools, t, d, Cut(count)) == Tried(tools, t, d, Whole)
  {
    hide CurrentHash, Digits, Pow, CutHash;
    var whole := Tried(tools, t, d, Whole);
    if t.out in whole.hashes {
      var p := tools.run(t.cmd, d.files).value;
      var deps, i := Depfile.Parse(p.depfile.value), Installed(t, p, d);
      var h := whole.hashes[t.out];
      assert CurrentHash(tools, t.cmd, deps, i.files) == Some(h);
      HashBound(tools, t.cmd, deps, i.files);
      CutHashIs(h, count);
      if count >= |Digits(h)| {
        assert whole.hashes[t.out := h] == whole.hashes;
      }
    }
  }

  lemma CutHashIs(h: nat, count: nat)
    requires h < TWO_32
    ensures var n := |Digits(h)|;
            && CutHash(h, count) == (if count == 0 then None else if count >= n then Some(h) else Some(h / Pow(10, n - count)))
            && (0 < count < n ==> h / Pow(10, n - count) < h)
  {
    hide Digits, Pow, ReadHash;
    CutTextRead(h, if count < |HashText(h)| then count else |HashText(h)|);
    assert HashText(h)[..|HashText(h)|] == HashText(h);
  }

  lemma HashBound(tools: Toolchain, cmd: seq<string>, deps: Option<seq<Path>>, files: Files)
    ensures var h := CurrentHash(tools, cmd, deps, files); h.Some? ==> h.value < TWO_32
  {
    hide Fold, State;
    if Readable(tools, cmd, deps, files) {
      FoldBound(5381, State(tools, cmd, deps.value, files));
    }
  }

  // ----- a hash not written -----

  // The new build made what the recorded one had made.
  predicate SameOutputs(tools: Toolchain, t: Target, d: Dir)
    requires t.out in d.records && tools.run(t.cmd, d.files).Some?
    requires var r := d.records[t.out]; tools.run(r.cmd, r.files).Some?
  {
    var r := d.records[t.out];
    tools.run(t.cmd, d.files).value.output == tools.run(r.cmd, r.files).value.output
  }

  // The dependencies the record's hash was taken from.
  function RecordDeps(tools: Toolchain, out: Path, d: Dir): Option<seq<Path>>
    requires Sourced(tools, out, d) && out in d.hashes
  {
    var r := d.records[out];
    Depfile.Parse(tools.run(r.cmd, r.files).value.depfile.value)
  }

  // The record stays right if and only if there was no hash, or none that can be read against, or
  // nothing new was made.
  lemma LostWriteIsHarmless(tools: Toolchain, t: Target, d: Dir)
    requires Sourced(tools, t.out, d) && tools.run(t.cmd, d.files).Some?
    ensures var e := Tried(tools, t, d, Refused);
            Faithful(tools, t.out, e) <==>
              || t.out !in d.hashes || t.out !in e.depfiles
              || (var r := d.records[t.out];
                  tools.run(r.cmd, r.files).value.depfile == Some(e.depfiles[t.out]) && SameOutputs(tools, t, d))
  {
    hide CurrentHash;
  }

  // The sources in g are as at the recorded build, under the same command.
  predicate Reverted(tools: Toolchain, t: Target, d: Dir, g: Dir)
    requires Sourced(tools, t.out, d) && t.out in d.hashes
  {
    var r, deps := d.records[t.out], RecordDeps(tools, t.out, d);
    && r.cmd == t.cmd && deps.Some? && SameReads(deps.value, r.files, g.files)
    && (tools.objects(t.cmd).Some? ==> SameReads(tools.objects(t.cmd).value, r.files, g.files))
  }

  // Nobody has touched the output, its hash and its dependency file.
  predicate OwnFilesSame(d: Dir, e: Dir, out: Path) {
    && (out in e.hashes <==> out in d.hashes) && (out in d.hashes ==> e.hashes[out] == d.hashes[out])
    && (out in e.depfiles <==> out in d.depfiles) && (out in d.depfiles ==> e.depfiles[out] == d.depfiles[out])
    && (out in e.files <==> out in d.files) && (out in d.files ==> e.files[out] == d.files[out])
  }

  // Whatever the hash tells apart: with the sources as they were, the driver keeps a good output.
  lemma RevertedIsKept(tools: Toolchain, t: Target, d: Dir, g: Dir, outs: set<Path>)
    requires Hermetic(tools) && Honest(tools, outs) && Sourced(tools, t.out, d)
    requires t.out in d.hashes && tools.run(t.cmd, d.files).Some?
    requires OwnFilesSame(Tried(tools, t, d, Refused), g, t.out) && OutputGood(tools, t, g)
    requires Deps(g.depfiles, t.out) == RecordDeps(tools, t.out, d) && Reverted(tools, t, d, g)
    ensures !NeedsBuild(tools, t, g, false) && (UpToDate(tools, t, g) <==> SameOutputs(tools, t, d))
  {
    hide CurrentHash, Depfile.Parse, OutputGood, Hermetic, Honest;
    var r, deps := d.records[t.out], RecordDeps(tools, t.out, d);
    SameHash(tools, t.cmd, deps, r.files, g.files);
    RevertedRun(tools, t, d, g, outs);
  }

  // After a lost write, and any change that leaves the target's own files alone, the driver keeps the
  // output if and only if the sources are as they were before, the dependency file names the same, and
  // the output is good; and that is wrong if and only if the two builds made different outputs.
  lemma KeptExactly(tools: Toolchain, t: Target, d: Dir, g: Dir, outs: set<Path>)
    requires Hermetic(tools) && Honest(tools, outs) && Sourced(tools, t.out, d)
    requires t.out in d.hashes && tools.run(t.cmd, d.files).Some?
    requires OwnFilesSame(Tried(tools, t, d, Refused), g, t.out) && Separable(tools, t, d, g)
    ensures !NeedsBuild(tools, t, g, false) <==>
              Deps(g.depfiles, t.out) == RecordDeps(tools, t.out, d) && OutputGood(tools, t, g) && Reverted(tools, t, d, g)
    ensures !NeedsBuild(tools, t, g, false) ==> (UpToDate(tools, t, g) <==> SameOutputs(tools, t, d))
  {
    hide CurrentHash, Deps, RecordDeps, Reverted, OutputGood, Hermetic, Honest, Separable, Sourced, SameOutputs, UpToDate;
    assert t.out in g.hashes && g.hashes[t.out] == d.hashes[t.out];
    if !NeedsBuild(tools, t, g, false) {
      HashedIsReadable(tools, t, g);
      HashMeansSame(tools, t, d, g);
    }
    if Deps(g.depfiles, t.out) == RecordDeps(tools, t.out, d) && Reverted(tools, t, d, g) && OutputGood(tools, t, g) {
      RevertedIsKept(tools, t, d, g, outs);
    }
  }

  // The recorded stream and the one g has do not collide, and if they are equal they can be read back:
  // the same names, or whole lines in every file.
  predicate Separable(tools: Toolchain, t: Target, d: Dir, g: Dir)
    requires Sourced(tools, t.out, d) && t.out in d.hashes
  {
    var r, deps, there := d.records[t.out], RecordDeps(tools, t.out, d), Deps(g.depfiles, t.out);
    Readable(tools, r.cmd, deps, r.files) && Readable(tools, t.cmd, there, g.files) ==>
      if there == deps then ToldApart(tools, r, t, deps.value, g.files)
      else
        var s, s' := State(tools, r.cmd, deps.value, r.files), State(tools, t.cmd, there.value, g.files);
        && (Fold(5381, s) == Fold(5381, s') ==> s == s')
        && (s == s' ==>
              && AreLined(deps.value, r.files) && AreLined(there.value, g.files)
              && (forall i :: 0 <= i < |r.cmd| ==> IsArgument(r.cmd[i])) && (forall i :: 0 <= i < |t.cmd| ==> IsArgument(t.cmd[i]))
              && (tools.objects(r.cmd).Some? <==> tools.objects(t.cmd).Some?))
  }

  // Where the old hash is met again, the names and the files are the recorded ones.
  lemma HashMeansSame(tools: Toolchain, t: Target, d: Dir, g: Dir)
    requires Sourced(tools, t.out, d) && t.out in d.hashes && Separable(tools, t, d, g)
    requires CurrentHash(tools, t.cmd, Deps(g.depfiles, t.out), g.files) == Some(d.hashes[t.out])
    ensures Deps(g.depfiles, t.out) == RecordDeps(tools, t.out, d) && Reverted(tools, t, d, g)
  {
    hide Depfile.Parse, Fold, State, ToldApart;
    var r, deps, there := d.records[t.out], RecordDeps(tools, t.out, d), Deps(g.depfiles, t.out);
    if there == deps {
      hide CurrentHash;
      ToldApartIsSame(tools, r, t, deps, g.files);
    } else {
      hide AreLined, IsArgument;
      NamesAreSame(tools, r, t, deps.value, there.value, g.files);
    }
  }

  lemma ToldApartIsSame(tools: Toolchain, r: Record, t: Target, deps: Option<seq<Path>>, files: Files)
    requires Readable(tools, r.cmd, deps, r.files) && Readable(tools, t.cmd, deps, files) ==>
               ToldApart(tools, r, t, deps.value, files)
    requires CurrentHash(tools, r.cmd, deps, r.files).Some?
    requires CurrentHash(tools, r.cmd, deps, r.files) == CurrentHash(tools, t.cmd, deps, files)
    ensures deps.Some? && r.cmd == t.cmd && SameReads(deps.value, r.files, files)
    ensures tools.objects(t.cmd).Some? ==> SameReads(tools.objects(t.cmd).value, r.files, files)
  {
    hide State, Fold, Legible, NoCollision;
    EqualStreams(tools, r, t, deps.value, files);
    SameState(tools, r, t, deps.value, files);
    AgreeIsSame(deps.value, r.files, files);
    if tools.objects(t.cmd).Some? { AgreeIsSame(tools.objects(t.cmd).value, r.files, files); }
  }

  lemma NamesAreSame(tools: Toolchain, r: Record, t: Target, deps: seq<Path>, there: seq<Path>, files: Files)
    requires Readable(tools, r.cmd, Some(deps), r.files) && Readable(tools, t.cmd, Some(there), files)
    requires State(tools, r.cmd, deps, r.files) == State(tools, t.cmd, there, files)
    requires AreLined(deps, r.files) && AreLined(there, files)
    requires (forall i :: 0 <= i < |r.cmd| ==> IsArgument(r.cmd[i])) && (forall i :: 0 <= i < |t.cmd| ==> IsArgument(t.cmd[i]))
    requires tools.objects(r.cmd).Some? <==> tools.objects(t.cmd).Some?
    ensures deps == there
  {
    hide StateStream, AreLined, IsArgument;
    LinedStatesDetermine(r.cmd, deps, r.files, Extra(tools, r.cmd, r.files), t.cmd, there, files, Extra(tools, t.cmd, files));
  }

  // On the recorded sources the compiler makes what it made then.
  lemma RevertedRun(tools: Toolchain, t: Target, d: Dir, g: Dir, outs: set<Path>)
    requires Hermetic(tools) && Honest(tools, outs) && Sourced(tools, t.out, d) && t.out in d.hashes
    requires Reverted(tools, t, d, g)
    ensures tools.run(t.cmd, g.files) == tools.run(t.cmd, d.records[t.out].files)
  {
    hide CurrentHash, Depfile.Parse;
    var r, deps := d.records[t.out], RecordDeps(tools, t.out, d);
    assert HonestRun(tools, t.cmd, r.files, outs);
    var p := tools.run(t.cmd, r.files).value;
    assert SameReads(p.inputs, r.files, g.files) by {
      forall q | q in p.inputs ensures q in g.files && r.files[q] == g.files[q] {
        assert q in deps.value || (tools.objects(t.cmd).Some? && q in tools.objects(t.cmd).value);
      }
    }
  }

  // The edit that takes every source of the recorded build back: after it the driver is content, so
  // every lost write over a different output can end in a wrong one.
  lemma SomeEditIsKept(tools: Toolchain, t: Target, d: Dir, outs: set<Path>) returns (g: Dir)
    requires Hermetic(tools) && Honest(tools, outs) && Sourced(tools, t.out, d) && Apart(tools, t, outs)
    requires t.out in d.hashes && d.records[t.out].cmd == t.cmd && tools.objects(t.cmd).None?
    requires tools.run(t.cmd, d.files).Some? && tools.run(t.cmd, d.files).value.output != ""
    requires var e := Tried(tools, t, d, Refused); Deps(e.depfiles, t.out) == RecordDeps(tools, t.out, d)
    ensures SameFor(Tried(tools, t, d, Refused), g, t.out) && Edited(Tried(tools, t, d, Refused), g, outs)
    ensures !NeedsBuild(tools, t, g, false) && (UpToDate(tools, t, g) <==> SameOutputs(tools, t, d))
  {
    hide CurrentHash, Depfile.Parse, NeedsBuild, UpToDate, SameOutputs, Hermetic, Honest;
    var r, deps, e := d.records[t.out], RecordDeps(tools, t.out, d), Tried(tools, t, d, Refused);
    HashIsPresent(tools, r.cmd, deps, r.files);
    RecordDepsAreSources(tools, t.out, d, outs);
    g := e.(files := e.files + map q | q in deps.value :: r.files[q]);
    assert g.files[t.out] == e.files[t.out] != "";
    RevertedIsKept(tools, t, d, g, outs);
  }

  lemma RecordDepsAreSources(tools: Toolchain, out: Path, d: Dir, outs: set<Path>)
    requires Sourced(tools, out, d) && out in d.hashes && Honest(tools, outs)
    ensures var deps := RecordDeps(tools, out, d); deps.Some? ==> forall q :: q in deps.value ==> q !in outs
  {
    hide CurrentHash, Depfile.Parse;
    var r := d.records[out];
    assert HonestRun(tools, r.cmd, r.files, outs);
  }

  lemma HashIsPresent(tools: Toolchain, cmd: seq<string>, deps: Option<seq<Path>>, files: Files)
    requires CurrentHash(tools, cmd, deps, files).Some?
    ensures deps.Some? && forall q :: q in deps.value ==> q in files
  {
  }

  // ----- one such history -----

  // A compiler that copies its one source.
  const SOURCE: Path := "a.c"
  const COPIER: Toolchain := Toolchain(Copy, NoObjects)
  const COPY: Target := Target("a.o", ["cc"])

  function Copy(cmd: seq<string>, f: Files): Option<Product> {
    if SOURCE in f then Some(Product(f[SOURCE], false, Some(CopyDepfile()), [SOURCE])) else None
  }

  function CopyDepfile(): string {
    Depfile.Munge("a.o", 0) + ":" + Depfile.Listing([Depfile.Entry(false, SOURCE)]) + "\n"
  }

  function NoObjects(cmd: seq<string>): Option<seq<Path>> { None }

  lemma CopyDeps()
    ensures Depfile.Parse(CopyDepfile()) == Some([SOURCE])
  {
    hide Depfile.Parse, Depfile.Munge, Depfile.Listing;
    var names := [Depfile.Entry(false, SOURCE)];
    Depfile.RoundTrip("a.o", names, "\n");
    assert Depfile.Paths(names) == [SOURCE] && Depfile.IsPlainName(SOURCE);
  }

  lemma CopierIsHonest()
    ensures Hermetic(COPIER) && Honest(COPIER, {COPY.out})
  {
    hide Depfile.Parse, CopyDepfile;
    CopyDeps();
  }

  // Built, edited, rebuilt with the hash lost, and edited back: the driver is content with the wrong object.
  lemma LostWriteKeepsAStaleObject(d0: Dir, x: string, y: string) returns (d1: Dir, d2: Dir, d3: Dir, d4: Dir)
    requires d0.files == map[SOURCE := x] && d0.hashes == map[] && x != y && x != "" && y != ""
    ensures Hermetic(COPIER) && Honest(COPIER, {COPY.out}) && Faithful(COPIER, COPY.out, d0)
    ensures d1 == Step(COPIER, COPY, d0, false)
    ensures d2 == d1.(files := d1.files[SOURCE := y]) && Faithful(COPIER, COPY.out, d2)
    ensures COPIER.run(COPY.cmd, d2.files).Some? && d3 == Tried(COPIER, COPY, d2, Refused)
    ensures d4 == d3.(files := d3.files[SOURCE := x])
    ensures !NeedsBuild(COPIER, COPY, d4, false) && !UpToDate(COPIER, COPY, d4)
  {
    hide CurrentHash, Step, Depfile.Parse, CopyDepfile, Hermetic, Honest;
    CopierIsHonest();
    d1 := Step(COPIER, COPY, d0, false);
    FirstCopy(d0, x);
    d2 := d1.(files := d1.files[SOURCE := y]);
    d3 := Tried(COPIER, COPY, d2, Refused);
    d4 := d3.(files := d3.files[SOURCE := x]);
    CopyDeps();
    RevertedIsKept(COPIER, COPY, d2, d4, {COPY.out});
  }

  lemma FirstCopy(d: Dir, x: string)
    requires d.files == map[SOURCE := x] && d.hashes == map[]
    ensures var e := Step(COPIER, COPY, d, false);
            && e.files == map[SOURCE := x, COPY.out := x]
            && COPY.out in e.hashes && COPY.out in e.depfiles && e.depfiles[COPY.out] == CopyDepfile()
            && COPY.out in e.records && e.records[COPY.out] == Record(COPY.cmd, d.files)
            && Faithful(COPIER, COPY.out, e)
  {
    hide State, Faithful, Depfile.Parse, CopyDepfile, Hermetic, Honest;
    CopierIsHonest();
    CopyDeps();
    NoHashYet(COPIER, COPY.out, d);
    FaithfulKept(COPIER, COPY, d, COPY.out, {COPY.out});
  }

  lemma NoHashYet(tools: Toolchain, out: Path, d: Dir)
    requires out !in d.hashes
    ensures Faithful(tools, out, d)
  {
  }
}
