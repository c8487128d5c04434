// The incremental build: which objects and executables are rebuilt, and what is recorded for the
// next build. The file system is a map, the compiler a function of what it reads.
module BuildCache {
  import opened Bytes
  import opened StateHash
  import Depfile

  // What one successful run of the compiler leaves: an output, perhaps a dependency file, and the
  // list of the files it read.
  datatype Product = Product(output: string, executable: bool, depfile: Option<string>, inputs: seq<Path>)

  // run: a command on the files there are; None when it fails or its output cannot be installed.
  // objects: the library objects a link command names; None for a compile command.
  datatype Toolchain = Toolchain(run: (seq<string>, Files) -> Option<Product>, objects: seq<string> -> Option<seq<Path>>)

  datatype Target = Target(out: Path, cmd: seq<string>)

  // The build a recorded hash comes from: never read by the driver.
  datatype Record = Record(cmd: seq<string>, files: Files)

  // A build directory with the sources beside it.
  datatype Dir = Dir(
    files: Files, times: map<Path, nat>, executables: set<Path>,
    depfiles: map<Path, string>, hashes: map<Path, nat>,     // <out>.d and <out>.cmdhash
    clock: nat, records: map<Path, Record>)

  // ----- the decision -----

  // The dependencies an output's depfile names, if it has one that can be read.
  function Deps(depfiles: map<Path, string>, out: Path): Option<seq<Path>> {
    if out in depfiles then Depfile.Parse(depfiles[out]) else None
  }

  function ObjectsHash(objects: seq<Path>, files: Files): nat
    requires Present(objects, files)
  {
    Fold(2166136261, Stream(objects, files))
  }

  // The library objects' hash as four bytes more, for a link.
  function Extra(tools: Toolchain, cmd: seq<string>, files: Files): seq<int>
    requires tools.objects(cmd).Some? ==> Present(tools.objects(cmd).value, files)
  {
    match tools.objects(cmd)
    case None => []
    case Some(objects) => Word(ObjectsHash(objects, files))
  }

  predicate Readable(tools: Toolchain, cmd: seq<string>, deps: Option<seq<Path>>, files: Files) {
    && deps.Some? && Present(deps.value, files)
    && (tools.objects(cmd).Some? ==> Present(tools.objects(cmd).value, files))
  }

  // The state an output would be built from now.
  function State(tools: Toolchain, cmd: seq<string>, deps: seq<Path>, files: Files): seq<int>
    requires Readable(tools, cmd, Some(deps), files)
  {
    StateStream(cmd, deps, files, Extra(tools, cmd, files))
  }

  function CurrentHash(tools: Toolchain, cmd: seq<string>, deps: Option<seq<Path>>, files: Files): Option<nat> {
    if Readable(tools, cmd, deps, files) then Some(Fold(5381, State(tools, cmd, deps.value, files))) else None
  }

  predicate HashDiffers(tools: Toolchain, t: Target, d: Dir) {
    var h := CurrentHash(tools, t.cmd, Deps(d.depfiles, t.out), d.files);
    h.None? || t.out !in d.hashes || d.hashes[t.out] != h.value
  }

  function TimeOf(d: Dir, p: Path): nat { if p in d.times then d.times[p] else 0 }

  // The output is there, not empty, and for a link executable and no older than an object.
  predicate OutputGood(tools: Toolchain, t: Target, d: Dir) {
    && t.out in d.files && d.files[t.out] != ""
    && (tools.objects(t.cmd).Some? ==>
          && t.out in d.executables
          && var objects := tools.objects(t.cmd).value;
             forall i :: 0 <= i < |objects| ==> TimeOf(d, objects[i]) <= TimeOf(d, t.out))
  }

  predicate NeedsBuild(tools: Toolchain, t: Target, d: Dir, force: bool) {
    HashDiffers(tools, t, d) || !OutputGood(tools, t, d) || force
  }

  // ----- one target -----

  // The output is installed.
  function Installed(t: Target, p: Product, d: Dir): Dir {
    d.(files := d.files[t.out := p.output], times := d.times[t.out := d.clock], clock := d.clock + 1,
       executables := if p.executable then d.executables + {t.out} else d.executables - {t.out})
  }

  // record_build_state: the new depfile, and the hash taken from it; without one the hash is deleted.
  function Recorded(tools: Toolchain, t: Target, p: Product, d: Dir, before: Files): Dir {
    match p.depfile
    case None => d.(hashes := d.hashes - {t.out})
    case Some(text) =>
      var h := CurrentHash(tools, t.cmd, Depfile.Parse(text), d.files);
      var d' := d.(depfiles := d.depfiles[t.out := text]);
      if h.None? then d'.(hashes := d.hashes - {t.out})
      else d'.(hashes := d.hashes[t.out := h.value], records := d.records[t.out := Record(t.cmd, before)])
  }

  function Rebuilt(tools: Toolchain, t: Target, d: Dir): Dir {
    match tools.run(t.cmd, d.files)
    case None => d
    case Some(p) => Recorded(tools, t, p, Installed(t, p, d), d.files)
  }

  // Rebuild if needed. A failed build leaves the old output and its record.
  function Step(tools: Toolchain, t: Target, d: Dir, force: bool): Dir {
    if NeedsBuild(tools, t, d, force) then Rebuilt(tools, t, d) else d
  }

  predicate StepOk(tools: Toolchain, t: Target, d: Dir, force: bool) {
    NeedsBuild(tools, t, d, force) ==> tools.run(t.cmd, d.files).Some?
  }

  // ----- what is asked of the compiler -----

  // The same command on the same contents of what it read does the same.
  ghost predicate Hermetic(tools: Toolchain) {
    forall cmd, f, g :: tools.run(cmd, f).Some? && SameReads(tools.run(cmd, f).value.inputs, f, g) ==>
      tools.run(cmd, g) == tools.run(cmd, f)
  }

  predicate SameReads(paths: seq<Path>, f: Files, g: Files) {
    forall q :: q in paths ==> q in f && q in g && f[q] == g[q]
  }

  // A dependency file that can be read names every file read except the objects; the output and
  // the other outputs of the build are not among the files it names.
  ghost predicate Honest(tools: Toolchain, outs: set<Path>) {
    forall cmd, f :: tools.run(cmd, f).Some? ==> HonestRun(tools, cmd, f, outs)
  }

  predicate HonestRun(tools: Toolchain, cmd: seq<string>, f: Files, outs: set<Path>)
    requires tools.run(cmd, f).Some?
  {
    var p := tools.run(cmd, f).value;
    && (forall r :: r in p.inputs ==> r in f)
    && (forall r :: r in p.inputs ==> r !in outs || (tools.objects(cmd).Some? && r in tools.objects(cmd).value))
    && (p.depfile.Some? && Depfile.Parse(p.depfile.value).Some? ==>
          var deps := Depfile.Parse(p.depfile.value).value;
          && (forall q :: q in deps ==> q !in outs)
          && (forall r :: r in p.inputs ==> r in deps || (tools.objects(cmd).Some? && r in tools.objects(cmd).value)))
  }

  // ----- what every step keeps -----

  // A recorded hash is that of the build the output came from.
  predicate Faithful(tools: Toolchain, out: Path, d: Dir) {
    out in d.hashes && out in d.depfiles ==>
      && out in d.records
      && var r := d.records[out];
         && CurrentHash(tools, r.cmd, Deps(d.depfiles, out), r.files) == Some(d.hashes[out])
         && tools.run(r.cmd, r.files).Some?
         && var p := tools.run(r.cmd, r.files).value;
            && p.depfile == Some(d.depfiles[out])
            && (out in d.files ==> d.files[out] == p.output)
  }

  // The recorded hash does not take the state these files are in for the one it was taken from.
  predicate Distinguished(tools: Toolchain, t: Target, d: Dir, files: Files) {
    var deps := Deps(d.depfiles, t.out);
    t.out in d.hashes && t.out in d.records && CurrentHash(tools, t.cmd, deps, files) == Some(d.hashes[t.out]) ==>
      && d.records[t.out].cmd == t.cmd
      && SameReads(deps.value, d.records[t.out].files, files)
      && (tools.objects(t.cmd).Some? ==> SameReads(tools.objects(t.cmd).value, d.records[t.out].files, files))
  }

  // The output is what the compiler makes of the files there are.
  predicate UpToDate(tools: Toolchain, t: Target, d: Dir) {
    && tools.run(t.cmd, d.files).Some?
    && t.out in d.files && d.files[t.out] == tools.run(t.cmd, d.files).value.output
  }

  // The target does not read its own output.
  predicate Apart(tools: Toolchain, t: Target, outs: set<Path>) {
    t.out in outs && (tools.objects(t.cmd).Some? ==> t.out !in tools.objects(t.cmd).value)
  }

  // ----- one step -----

  // Nothing about another output changes.
  predicate SameFor(d: Dir, e: Dir, u: Path) {
    && (u in e.hashes <==> u in d.hashes) && (u in d.hashes ==> e.hashes[u] == d.hashes[u])
    && (u in e.depfiles <==> u in d.depfiles) && (u in d.depfiles ==> e.depfiles[u] == d.depfiles[u])
    && (u in e.records <==> u in d.records) && (u in d.records ==> e.records[u] == d.records[u])
    && (u in e.files <==> u in d.files) && (u in d.files ==> e.files[u] == d.files[u])
    && (u in e.executables <==> u in d.executables) && TimeOf(e, u) == TimeOf(d, u)
  }

  lemma InstalledOnly(t: Target, p: Product, d: Dir, u: Path)
    requires u != t.out
    ensures SameFor(d, Installed(t, p, d), u)
  {
  }

  lemma ForgottenOnly(t: Target, d: Dir, depfiles: map<Path, string>, u: Path)
    requires u != t.out && depfiles - {t.out} == d.depfiles - {t.out}
    ensures SameFor(d, d.(depfiles := depfiles, hashes := d.hashes - {t.out}), u)
  {
    assert u in depfiles <==> u in depfiles - {t.out};
    assert u in d.depfiles <==> u in d.depfiles - {t.out};
    assert u in depfiles ==> depfiles[u] == (depfiles - {t.out})[u];
  }

  lemma RememberedOnly(t: Target, d: Dir, text: string, h: nat, r: Record, u: Path)
    requires u != t.out
    ensures SameFor(d, d.(depfiles := d.depfiles[t.out := text], hashes := d.hashes[t.out := h],
                          records := d.records[t.out := r]), u)
  {
  }

  lemma SameTransitive(c: Dir, d: Dir, e: Dir, u: Path)
    requires SameFor(c, d, u) && SameFor(d, e, u)
    ensures SameFor(c, e, u)
  {
    hide TimeOf;
  }

  lemma RecordedOnly(tools: Toolchain, t: Target, p: Product, d: Dir, before: Files, u: Path)
    requires u != t.out
    ensures SameFor(d, Recorded(tools, t, p, d, before), u)
  {
    hide CurrentHash, SameFor;
    if p.depfile.None? {
      ForgottenOnly(t, d, d.depfiles, u);
    } else {
      var text := p.depfile.value;
      var h := CurrentHash(tools, t.cmd, Depfile.Parse(text), d.files);
      if h.None? {
        assert d.depfiles[t.out := text] - {t.out} == d.depfiles - {t.out};
        ForgottenOnly(t, d, d.depfiles[t.out := text], u);
      } else {
        RememberedOnly(t, d, text, h.value, Record(t.cmd, before), u);
      }
    }
  }

  lemma SameSelf(d: Dir, u: Path)
    ensures SameFor(d, d, u)
  {
  }

  lemma OnlyItsOutput(tools: Toolchain, t: Target, d: Dir, u: Path)
    requires u != t.out
    ensures SameFor(d, Rebuilt(tools, t, d), u)
  {
    hide SameFor, Recorded, Installed;
    match tools.run(t.cmd, d.files)
    case None =>
      SameSelf(d, u);
    case Some(p) =>
      var e := Installed(t, p, d);
      InstalledOnly(t, p, d, u);
      RecordedOnly(tools, t, p, e, d.files, u);
      SameTransitive(d, e, Recorded(tools, t, p, e, d.files), u);
  }

  lemma RebuiltFiles(tools: Toolchain, t: Target, d: Dir)
    ensures var e := Rebuilt(tools, t, d);
            && (tools.run(t.cmd, d.files).None? ==> e == d)
            && (tools.run(t.cmd, d.files).Some? ==>
                  e.files == d.files[t.out := tools.run(t.cmd, d.files).value.output] && e.clock == d.clock + 1)
  {
    hide CurrentHash;
  }

  // A rebuilt output is the linker's or the compiler's, runnable if they made it so, and newest of all.
  lemma RebuiltMeans(tools: Toolchain, t: Target, d: Dir)
    requires tools.run(t.cmd, d.files).Some?
    ensures var p, e := tools.run(t.cmd, d.files).value, Rebuilt(tools, t, d);
            && e.files == d.files[t.out := p.output] && (t.out in e.executables <==> p.executable)
            && TimeOf(e, t.out) == d.clock && e.clock == d.clock + 1
            && (t.out in e.hashes ==>
                  (p.depfile.Some? && t.out in e.depfiles && e.depfiles[t.out] == p.depfile.value
                   && Some(e.hashes[t.out]) == CurrentHash(tools, t.cmd, Depfile.Parse(p.depfile.value), e.files)))
  {
    hide CurrentHash;
  }

  // Files that agree on what the hash covers have the same hash.
  lemma SameHash(tools: Toolchain, cmd: seq<string>, deps: Option<seq<Path>>, f: Files, g: Files)
    requires deps.Some? ==> forall q :: q in deps.value ==> (q in f <==> q in g) && (q in f ==> f[q] == g[q])
    requires tools.objects(cmd).Some? ==>
               forall q :: q in tools.objects(cmd).value ==> (q in f <==> q in g) && (q in f ==> f[q] == g[q])
    ensures CurrentHash(tools, cmd, deps, f) == CurrentHash(tools, cmd, deps, g)
  {
    hide Fold, Stream, Word;
    if Readable(tools, cmd, deps, f) {
      SameStream(deps.value, f, g);
      if tools.objects(cmd).Some? { SameStream(tools.objects(cmd).value, f, g); }
    }
  }

  lemma FaithfulKept(tools: Toolchain, t: Target, d: Dir, out: Path, outs: set<Path>)
    requires Faithful(tools, out, d) && Honest(tools, outs) && Apart(tools, t, outs)
    ensures Faithful(tools, out, Rebuilt(tools, t, d))
  {
    hide CurrentHash;
    RebuiltFiles(tools, t, d);
    if out != t.out {
      OnlyItsOutput(tools, t, d, out);
      hide Rebuilt;
    } else if tools.run(t.cmd, d.files).Some? {
      var p := tools.run(t.cmd, d.files).value;
      if p.depfile.Some? {
        var deps := Depfile.Parse(p.depfile.value);
        assert HonestRun(tools, t.cmd, d.files, outs);
        hide Faithful;
        var e := Installed(t, p, d);
        if deps.Some? {
          SameHash(tools, t.cmd, deps, e.files, d.files);
        }
        FaithfulRecord(tools, t, p, d, deps);
      } else {
        assert out !in Rebuilt(tools, t, d).hashes;
      }
    }
  }

  lemma FaithfulRecord(tools: Toolchain, t: Target, p: Product, d: Dir, deps: Option<seq<Path>>)
    requires tools.run(t.cmd, d.files) == Some(p) && p.depfile.Some? && deps == Depfile.Parse(p.depfile.value)
    requires deps.Some? ==>
               CurrentHash(tools, t.cmd, deps, Installed(t, p, d).files) == CurrentHash(tools, t.cmd, deps, d.files)
    ensures Faithful(tools, t.out, Rebuilt(tools, t, d))
  {
    hide State;
  }

  // A kept output is what the compiler would make now.
  lemma KeptIsUpToDate(tools: Toolchain, t: Target, d: Dir, outs: set<Path>)
    requires Hermetic(tools) && Honest(tools, outs) && Faithful(tools, t.out, d)
    requires !NeedsBuild(tools, t, d, false) && Distinguished(tools, t, d, d.files)
    ensures UpToDate(tools, t, d)
  {
    hide CurrentHash;
    HashedIsReadable(tools, t, d);
    var r := d.records[t.out];
    var p := tools.run(r.cmd, r.files).value;
    assert HonestRun(tools, r.cmd, r.files, outs);
    var deps := Deps(d.depfiles, t.out);
    assert deps == Depfile.Parse(p.depfile.value);
    assert SameReads(p.inputs, r.files, d.files) by {
      forall q | q in p.inputs ensures q in r.files && q in d.files && r.files[q] == d.files[q] {
        assert q in deps.value || (tools.objects(r.cmd).Some? && q in tools.objects(r.cmd).value);
      }
    }
  }

  lemma HashedIsReadable(tools: Toolchain, t: Target, d: Dir)
    requires !HashDiffers(tools, t, d)
    ensures Deps(d.depfiles, t.out).Some?
    ensures CurrentHash(tools, t.cmd, Deps(d.depfiles, t.out), d.files) == Some(d.hashes[t.out])
  {
  }

  lemma StepUpToDate(tools: Toolchain, t: Target, d: Dir, force: bool, outs: set<Path>)
    requires Hermetic(tools) && Honest(tools, outs) && Apart(tools, t, outs)
    requires Faithful(tools, t.out, d) && StepOk(tools, t, d, force) && Distinguished(tools, t, d, d.files)
    ensures UpToDate(tools, t, Step(tools, t, d, force))
  {
    hide CurrentHash;
    if NeedsBuild(tools, t, d, force) {
      RebuiltFiles(tools, t, d);
      assert HonestRun(tools, t.cmd, d.files, outs);
      hide Rebuilt, NeedsBuild;
      assert SameReads(tools.run(t.cmd, d.files).value.inputs, d.files, Rebuilt(tools, t, d).files);
    } else {
      KeptIsUpToDate(tools, t, d, outs);
    }
  }

  // What the driver keeps: an output whose state has the recorded hash, and that is good, unforced.
  lemma KeptMeans(tools: Toolchain, t: Target, d: Dir, force: bool)
    ensures !NeedsBuild(tools, t, d, force) <==>
              && !force && t.out in d.files && d.files[t.out] != "" && t.out in d.hashes && t.out in d.depfiles
              && var deps := Depfile.Parse(d.depfiles[t.out]);
                 && deps.Some? && (forall q :: q in deps.value ==> q in d.files)
                 && match tools.objects(t.cmd) {
                      case None => d.hashes[t.out] == Fold(5381, SignedValues(CmdText(t.cmd)) + Stream(deps.value, d.files))
                      case Some(objects) =>
                        && (forall o :: o in objects ==> o in d.files && TimeOf(d, o) <= TimeOf(d, t.out))
                        && t.out in d.executables
                        && d.hashes[t.out] == Fold(5381, SignedValues(CmdText(t.cmd)) + Stream(deps.value, d.files) +
                                                         Word(Fold(2166136261, Stream(objects, d.files))))
                    }
  {
    hide Fold, Stream, CmdText, Word, Depfile.Parse;
    if t.out in d.depfiles && Depfile.Parse(d.depfiles[t.out]).Some? {
      var deps := Depfile.Parse(d.depfiles[t.out]).value;
      assert forall i :: 0 <= i < |deps| ==> deps[i] in deps;
      if tools.objects(t.cmd).None? && Present(deps, d.files) {
        NothingMore(SignedValues(CmdText(t.cmd)) + Stream(deps, d.files));
      }
    }
    if tools.objects(t.cmd).Some? {
      var objects := tools.objects(t.cmd).value;
      assert forall i :: 0 <= i < |objects| ==> objects[i] in objects;
    }
  }

  lemma NothingMore(s: seq<int>)
    ensures s + [] == s
  {
  }

  lemma ForcedIsNeeded(tools: Toolchain, t: Target, d: Dir)
    ensures NeedsBuild(tools, t, d, true)
  {
  }

  // A forced step asks nothing of the recorded hashes.
  lemma ForcedStepUpToDate(tools: Toolchain, t: Target, d: Dir, outs: set<Path>)
    requires Hermetic(tools) && Honest(tools, outs) && Apart(tools, t, outs) && StepOk(tools, t, d, true)
    ensures UpToDate(tools, t, Step(tools, t, d, true))
  {
    RebuiltFiles(tools, t, d);
    assert HonestRun(tools, t.cmd, d.files, outs);
    hide Rebuilt;
    assert SameReads(tools.run(t.cmd, d.files).value.inputs, d.files, Rebuilt(tools, t, d).files);
  }

  // ----- what a step leaves of another target -----

  // t is another output than u, and u does not read it.
  predicate Unrelated(tools: Toolchain, u: Target, t: Target) {
    t.out != u.out && (tools.objects(u.cmd).Some? ==> t.out !in tools.objects(u.cmd).value)
  }

  lemma StepSame(tools: Toolchain, t: Target, d: Dir, force: bool, u: Path)
    requires u != t.out
    ensures SameFor(d, Step(tools, t, d, force), u)
  {
    hide SameFor, Rebuilt, NeedsBuild;
    OnlyItsOutput(tools, t, d, u);
    SameSelf(d, u);
  }

  lemma StepFaithful(tools: Toolchain, t: Target, d: Dir, force: bool, out: Path, outs: set<Path>)
    requires Faithful(tools, out, d) && Honest(tools, outs) && Apart(tools, t, outs)
    ensures Faithful(tools, out, Step(tools, t, d, force))
  {
    hide Faithful, Rebuilt, NeedsBuild;
    FaithfulKept(tools, t, d, out, outs);
  }

  // Where two directories are the same for what a target reads, they are the same for the target.
  lemma UpToDateSame(tools: Toolchain, u: Target, d: Dir, e: Dir, t: Target, outs: set<Path>)
    requires Hermetic(tools) && Honest(tools, outs) && UpToDate(tools, u, d) && Unrelated(tools, u, t) && t.out in outs
    requires forall q :: q != t.out ==> SameFor(d, e, q)
    ensures UpToDate(tools, u, e)
  {
    assert HonestRun(tools, u.cmd, d.files, outs);
    var inputs := tools.run(u.cmd, d.files).value.inputs;
    forall q | q in inputs ensures q in d.files && q in e.files && d.files[q] == e.files[q] {
      assert q != t.out && SameFor(d, e, q);
    }
    assert SameReads(inputs, d.files, e.files);
    assert SameFor(d, e, u.out);
  }

  lemma UpToDateKept(tools: Toolchain, u: Target, t: Target, d: Dir, force: bool, outs: set<Path>)
    requires Hermetic(tools) && Honest(tools, outs) && UpToDate(tools, u, d) && Unrelated(tools, u, t) && t.out in outs
    ensures UpToDate(tools, u, Step(tools, t, d, force))
  {
    hide SameFor, UpToDate, Step;
    var e := Step(tools, t, d, force);
    forall q | q != t.out ensures SameFor(d, e, q) {
      StepSame(tools, t, d, force, q);
    }
    UpToDateSame(tools, u, d, e, t, outs);
  }

  // The dependencies recorded for an output are none of the outputs.
  lemma DepsAreSources(tools: Toolchain, out: Path, d: Dir, outs: set<Path>)
    requires Faithful(tools, out, d) && Honest(tools, outs) && out in d.hashes
    ensures var deps := Deps(d.depfiles, out); deps.Some? ==> forall q :: q in deps.value ==> q !in outs
  {
    hide CurrentHash;
    if out in d.depfiles {
      var r := d.records[out];
      assert HonestRun(tools, r.cmd, r.files, outs);
    }
  }

  // The hash of a target that has one is not changed by a step of an unrelated target.
  lemma HashSame(tools: Toolchain, u: Target, d: Dir, e: Dir, t: Target, outs: set<Path>)
    requires Faithful(tools, u.out, d) && Honest(tools, outs) && Unrelated(tools, u, t) && t.out in outs && u.out in d.hashes
    requires forall q :: q != t.out ==> SameFor(d, e, q)
    ensures Deps(d.depfiles, u.out) == Deps(e.depfiles, u.out)
    ensures CurrentHash(tools, u.cmd, Deps(d.depfiles, u.out), d.files) == CurrentHash(tools, u.cmd, Deps(d.depfiles, u.out), e.files)
  {
    DepsAreSources(tools, u.out, d, outs);
    hide CurrentHash, Faithful;
    assert SameFor(d, e, u.out);
    var deps := Deps(d.depfiles, u.out);
    assert deps.Some? ==> forall q :: q in deps.value ==> q != t.out && SameFor(d, e, q);
    assert tools.objects(u.cmd).Some? ==> forall q :: q in tools.objects(u.cmd).value ==> q != t.out && SameFor(d, e, q);
    SameHash(tools, u.cmd, deps, d.files, e.files);
  }

  lemma DistinguishedKept(tools: Toolchain, u: Target, t: Target, d: Dir, force: bool, outs: set<Path>)
    requires Faithful(tools, u.out, d) && Honest(tools, outs) && Unrelated(tools, u, t) && t.out in outs
    requires Distinguished(tools, u, d, d.files)
    ensures var e := Step(tools, t, d, force); Distinguished(tools, u, e, e.files)
  {
    var e := Step(tools, t, d, force);
    hide Step, CurrentHash;
    forall q | q != t.out ensures SameFor(d, e, q) {
      StepSame(tools, t, d, force, q);
    }
    assert SameFor(d, e, u.out);
    if u.out in d.hashes {
      HashSame(tools, u, d, e, t, outs);
      DepsAreSources(tools, u.out, d, outs);
      hide Faithful;
      DistinguishedSame(tools, u, d, e, t);
    }
  }

  lemma DistinguishedSame(tools: Toolchain, u: Target, d: Dir, e: Dir, t: Target)
    requires Unrelated(tools, u, t) && Distinguished(tools, u, d, d.files)
    requires forall q :: q != t.out ==> SameFor(d, e, q)
    requires var deps := Deps(d.depfiles, u.out);
             && deps == Deps(e.depfiles, u.out) && (deps.Some? ==> t.out !in deps.value)
             && CurrentHash(tools, u.cmd, deps, d.files) == CurrentHash(tools, u.cmd, deps, e.files)
    ensures Distinguished(tools, u, e, e.files)
  {
    hide Deps, TimeOf, CurrentHash;
    var deps := Deps(d.depfiles, u.out);
    assert SameFor(d, e, u.out);
    if u.out in d.hashes && u.out in d.records && CurrentHash(tools, u.cmd, deps, d.files) == Some(d.hashes[u.out]) {
      HashIsOfFiles(tools, u.cmd, deps, d.files);
      SameReadsElsewhere(deps.value, d, e, d.records[u.out].files, t);
      if tools.objects(u.cmd).Some? {
        SameReadsElsewhere(tools.objects(u.cmd).value, d, e, d.records[u.out].files, t);
      }
    }
  }

  lemma HashIsOfFiles(tools: Toolchain, cmd: seq<string>, deps: Option<seq<Path>>, files: Files)
    requires CurrentHash(tools, cmd, deps, files).Some?
    ensures deps.Some?
  {
  }

  lemma SameReadsElsewhere(paths: seq<Path>, d: Dir, e: Dir, f: Files, t: Target)
    requires SameReads(paths, f, d.files) && t.out !in paths
    requires forall q :: q != t.out ==> SameFor(d, e, q)
    ensures SameReads(paths, f, e.files)
  {
    hide TimeOf;
    forall q | q in paths ensures q in f && q in e.files && f[q] == e.files[q] {
      assert SameFor(d, e, q);
    }
  }

  // ----- a list of targets in order -----

  // All steps; one that fails changes nothing.
  function Run(tools: Toolchain, ts: seq<Target>, d: Dir, force: bool): Dir {
    if ts == [] then d
    else Step(tools, ts[|ts| - 1], Run(tools, ts[..|ts| - 1], d, force), force)
  }

  predicate RunOk(tools: Toolchain, ts: seq<Target>, d: Dir, force: bool) {
    forall i :: 0 <= i < |ts| ==> StepOk(tools, ts[i], Run(tools, ts[..i], d, force), force)
  }

  // Outputs of one kind: distinct, among outs, and none reads another.
  ghost predicate Layer(tools: Toolchain, ts: seq<Target>, outs: set<Path>) {
    && (forall i :: 0 <= i < |ts| ==> Apart(tools, ts[i], outs))
    && (forall i, j :: 0 <= i < |ts| && 0 <= j < |ts| && i != j ==> Unrelated(tools, ts[i], ts[j]))
  }

  ghost predicate AllFaithful(tools: Toolchain, outs: set<Path>, d: Dir) { forall o :: o in outs ==> Faithful(tools, o, d) }

  lemma LayerFront(tools: Toolchain, ts: seq<Target>, outs: set<Path>)
    requires Layer(tools, ts, outs) && ts != []
    ensures Layer(tools, ts[..|ts| - 1], outs)
  {
  }

  lemma RunStep(tools: Toolchain, ts: seq<Target>, d: Dir, force: bool)
    requires ts != []
    ensures var n := |ts| - 1;
            Run(tools, ts, d, force) == Step(tools, ts[n], Run(tools, ts[..n], d, force), force)
  {
  }

  lemma RunOkFront(tools: Toolchain, ts: seq<Target>, d: Dir, force: bool)
    requires RunOk(tools, ts, d, force) && ts != []
    ensures var n := |ts| - 1;
            RunOk(tools, ts[..n], d, force) && StepOk(tools, ts[n], Run(tools, ts[..n], d, force), force)
  {
    var front := ts[..|ts| - 1];
    forall i | 0 <= i < |front| ensures StepOk(tools, front[i], Run(tools, front[..i], d, force), force) {
      assert front[..i] == ts[..i];
    }
  }

  lemma RunOkExtend(tools: Toolchain, ts: seq<Target>, i: nat, d: Dir, force: bool)
    requires i < |ts|
    ensures RunOk(tools, ts[..i + 1], d, force) <==>
            RunOk(tools, ts[..i], d, force) && StepOk(tools, ts[i], Run(tools, ts[..i], d, force), force)
    ensures Run(tools, ts[..i + 1], d, force) == Step(tools, ts[i], Run(tools, ts[..i], d, force), force)
  {
    var front := ts[..i + 1];
    assert front[..i] == ts[..i] && front[i] == ts[i];
    RunStep(tools, front, d, force);
    hide Step, StepOk, Run, RunOk;
    if RunOk(tools, front, d, force) { RunOkFront(tools, front, d, force); }
    if RunOk(tools, ts[..i], d, force) && StepOk(tools, ts[i], Run(tools, ts[..i], d, force), force) {
      RunOkBack(tools, front, d, force);
    }
  }

  lemma RunOkBack(tools: Toolchain, ts: seq<Target>, d: Dir, force: bool)
    requires ts != []
    requires var n := |ts| - 1;
             RunOk(tools, ts[..n], d, force) && StepOk(tools, ts[n], Run(tools, ts[..n], d, force), force)
    ensures RunOk(tools, ts, d, force)
  {
    hide Step, StepOk, Run;
    var front := ts[..|ts| - 1];
    forall k | 0 <= k < |ts| ensures StepOk(tools, ts[k], Run(tools, ts[..k], d, force), force) {
      assert k < |front| ==> front[..k] == ts[..k] && front[k] == ts[k];
    }
  }

  lemma {:induction false} RunFaithful(tools: Toolchain, ts: seq<Target>, d: Dir, force: bool, outs: set<Path>)
    requires AllFaithful(tools, outs, d) && Honest(tools, outs) && Layer(tools, ts, outs)
    ensures AllFaithful(tools, outs, Run(tools, ts, d, force))
    decreases |ts|
  {
    hide Faithful, Step, Honest, Apart, Unrelated;
    if ts != [] {
      var n := |ts| - 1;
      LayerFront(tools, ts, outs);
      RunFaithful(tools, ts[..n], d, force, outs);
      forall o | o in outs ensures Faithful(tools, o, Run(tools, ts, d, force)) {
        StepFaithful(tools, ts[n], Run(tools, ts[..n], d, force), force, o, outs);
      }
    }
  }

  // The steps up to and with the first that fails, which changes nothing.
  function Compiled(tools: Toolchain, ts: seq<Target>, d: Dir, force: bool): Dir
    decreases |ts|
  {
    if ts == [] then d
    else if RunOk(tools, ts[..|ts| - 1], d, force) then Run(tools, ts, d, force)
    else Compiled(tools, ts[..|ts| - 1], d, force)
  }

  lemma {:induction false} CompiledIsPrefix(tools: Toolchain, ts: seq<Target>, d: Dir, force: bool) returns (n: nat)
    ensures n <= |ts| && Compiled(tools, ts, d, force) == Run(tools, ts[..n], d, force)
    ensures RunOk(tools, ts, d, force) ==> n == |ts|
    decreases |ts|
  {
    hide Step, StepOk, Run;
    n := |ts|;
    assert ts[..n] == ts;
    if ts == [] {
      RunNone(tools, d, force);
    } else {
      var front := ts[..|ts| - 1];
      if RunOk(tools, ts, d, force) { RunOkFront(tools, ts, d, force); }
      if !RunOk(tools, front, d, force) {
        n := CompiledIsPrefix(tools, front, d, force);
        assert front[..n] == ts[..n];
      }
    }
  }

  lemma RunNone(tools: Toolchain, d: Dir, force: bool)
    ensures Run(tools, [], d, force) == d
  {
  }

  lemma {:induction false} CompiledStops(tools: Toolchain, ts: seq<Target>, i: nat, d: Dir, force: bool)
    requires i < |ts| && RunOk(tools, ts[..i], d, force) && !RunOk(tools, ts[..i + 1], d, force)
    ensures Compiled(tools, ts, d, force) == Run(tools, ts[..i + 1], d, force) && !RunOk(tools, ts, d, force)
    decreases |ts|
  {
    hide Step, StepOk, Run, RunOk;
    var front := ts[..|ts| - 1];
    if i + 1 == |ts| {
      assert ts[..i + 1] == ts;
    } else {
      assert front[..i] == ts[..i] && front[..i + 1] == ts[..i + 1];
      CompiledStops(tools, front, i, d, force);
      if RunOk(tools, ts, d, force) { RunOkFront(tools, ts, d, force); }
    }
  }

  // u is none of the targets and reads none of their outputs.
  ghost predicate Outside(tools: Toolchain, u: Target, ts: seq<Target>) {
    forall i :: 0 <= i < |ts| ==> Unrelated(tools, u, ts[i])
  }

  lemma {:induction false} DistinguishedAfter(tools: Toolchain, u: Target, ts: seq<Target>, d: Dir, force: bool, outs: set<Path>)
    requires AllFaithful(tools, outs, d) && Honest(tools, outs) && Layer(tools, ts, outs)
    requires u.out in outs && Outside(tools, u, ts) && Distinguished(tools, u, d, d.files)
    ensures var e := Run(tools, ts, d, force); Distinguished(tools, u, e, e.files)
    decreases |ts|
  {
    hide Faithful, Step, Honest, Unrelated, Distinguished;
    if ts != [] {
      var n := |ts| - 1;
      LayerFront(tools, ts, outs);
      DistinguishedAfter(tools, u, ts[..n], d, force, outs);
      RunFaithful(tools, ts[..n], d, force, outs);
      DistinguishedKept(tools, u, ts[n], Run(tools, ts[..n], d, force), force, outs);
    }
  }

  lemma {:induction false} UpToDateAfter(tools: Toolchain, u: Target, ts: seq<Target>, d: Dir, force: bool, outs: set<Path>)
    requires Hermetic(tools) && Honest(tools, outs) && Layer(tools, ts, outs) && Outside(tools, u, ts) && UpToDate(tools, u, d)
    ensures UpToDate(tools, u, Run(tools, ts, d, force))
    decreases |ts|
  {
    hide Step, Honest, Unrelated, UpToDate, Hermetic;
    if ts != [] {
      var n := |ts| - 1;
      LayerFront(tools, ts, outs);
      UpToDateAfter(tools, u, ts[..n], d, force, outs);
      UpToDateKept(tools, u, ts[n], Run(tools, ts[..n], d, force), force, outs);
    }
  }

  lemma {:induction false} RunUpToDate(tools: Toolchain, ts: seq<Target>, d: Dir, force: bool, outs: set<Path>)
    requires Hermetic(tools) && Honest(tools, outs) && Layer(tools, ts, outs) && AllFaithful(tools, outs, d)
    requires RunOk(tools, ts, d, force)
    requires forall i :: 0 <= i < |ts| ==> Distinguished(tools, ts[i], d, d.files)
    ensures forall i :: 0 <= i < |ts| ==> UpToDate(tools, ts[i], Run(tools, ts, d, force))
    decreases |ts|
  {
    hide Step, Honest, Unrelated, UpToDate, Hermetic, Distinguished, Faithful, StepOk;
    if ts != [] {
      var n := |ts| - 1;
      var front, mid := ts[..n], Run(tools, ts[..n], d, force);
      LayerFront(tools, ts, outs);
      RunOkFront(tools, ts, d, force);
      hide RunOk;
      RunUpToDate(tools, front, d, force, outs);
      DistinguishedAfter(tools, ts[n], front, d, force, outs);
      RunFaithful(tools, front, d, force, outs);
      StepUpToDate(tools, ts[n], mid, force, outs);
      forall i | 0 <= i < n ensures UpToDate(tools, ts[i], Run(tools, ts, d, force)) {
        assert front[i] == ts[i];
        UpToDateKept(tools, ts[i], ts[n], mid, force, outs);
      }
    }
  }

  // Neither does a forced run: whatever was recorded, every target is what the compiler makes now.
  lemma {:induction false} ForcedRunUpToDate(tools: Toolchain, ts: seq<Target>, d: Dir, outs: set<Path>)
    requires Hermetic(tools) && Honest(tools, outs) && Layer(tools, ts, outs) && RunOk(tools, ts, d, true)
    ensures forall t :: t in ts ==> UpToDate(tools, t, Run(tools, ts, d, true))
    decreases |ts|
  {
    hide Step, Honest, Unrelated, UpToDate, Hermetic, StepOk, Run, RunOk, Apart;
    if ts != [] {
      var n := |ts| - 1;
      var front, mid := ts[..n], Run(tools, ts[..n], d, true);
      LayerFront(tools, ts, outs);
      RunOkFront(tools, ts, d, true);
      RunStep(tools, ts, d, true);
      ForcedRunUpToDate(tools, front, d, outs);
      ForcedStepUpToDate(tools, ts[n], mid, outs);
      forall t | t in ts ensures UpToDate(tools, t, Run(tools, ts, d, true)) {
        if t in front {
          var i :| 0 <= i < n && front[i] == t;
          assert Unrelated(tools, ts[i], ts[n]) && Apart(tools, ts[n], outs);
          assert ts[n].out in outs by { ApartIsOut(tools, ts[n], outs); }
          UpToDateKept(tools, t, ts[n], mid, true, outs);
        }
      }
    }
  }

  lemma ApartIsOut(tools: Toolchain, t: Target, outs: set<Path>)
    requires Apart(tools, t, outs)
    ensures t.out in outs
  {
  }
}
