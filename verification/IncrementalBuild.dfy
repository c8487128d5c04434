// A whole build - the library objects, then the test executables that link them - and what an
// incremental one has in common with a clean one.
module IncrementalBuild {
  import opened Bytes
  import opened Powers
  import opened StateHash
  import opened BuildCache
  import Depfile

  datatype Plan = Plan(compiles: seq<Target>, links: seq<Target>)

  function OutsOf(ts: seq<Target>): set<Path> { set t | t in ts :: t.out }

  function Outs(plan: Plan): set<Path> { OutsOf(plan.compiles) + OutsOf(plan.links) }

  // Distinct outputs; a compile command names no objects, and a link command only compiled ones.
  ghost predicate WellFormed(tools: Toolchain, plan: Plan) {
    && Layer(tools, plan.compiles, Outs(plan)) && Layer(tools, plan.links, Outs(plan))
    && (forall c :: c in plan.compiles ==> tools.objects(c.cmd).None? && Outside(tools, c, plan.links))
    && (forall l :: l in plan.links ==>
          && tools.objects(l.cmd).Some? && (forall o :: o in tools.objects(l.cmd).value ==> o in OutsOf(plan.compiles))
          && l.out !in OutsOf(plan.compiles))
  }

  function Build(tools: Toolchain, plan: Plan, d: Dir, force: bool): Dir {
    Run(tools, plan.links, Run(tools, plan.compiles, d, force), force)
  }

  predicate BuildOk(tools: Toolchain, plan: Plan, d: Dir, force: bool) {
    && RunOk(tools, plan.compiles, d, force)
    && RunOk(tools, plan.links, Run(tools, plan.compiles, d, force), force)
  }

  // What a build leaves, whether it succeeds or not: a failed compile ends it, a failed link does not.
  function Outcome(tools: Toolchain, plan: Plan, d: Dir, force: bool): Dir {
    if RunOk(tools, plan.compiles, d, force) then Build(tools, plan, d, force)
    else Compiled(tools, plan.compiles, d, force)
  }

  // No recorded hash takes the state it meets for another: of an object when the build starts, of an
  // executable when the objects are there.
  ghost predicate Trusted(tools: Toolchain, plan: Plan, d: Dir, force: bool) {
    && (forall c :: c in plan.compiles ==> Distinguished(tools, c, d, d.files))
    && var mid := Run(tools, plan.compiles, d, force);
       forall l :: l in plan.links ==> Distinguished(tools, l, mid, mid.files)
  }

  // Every output is what the compiler makes of the files there are.
  ghost predicate AllUpToDate(tools: Toolchain, plan: Plan, d: Dir) {
    && (forall c :: c in plan.compiles ==> UpToDate(tools, c, d))
    && (forall l :: l in plan.links ==> UpToDate(tools, l, d))
  }

  lemma BuildIsUpToDate(tools: Toolchain, plan: Plan, d: Dir, force: bool)
    requires Hermetic(tools) && Honest(tools, Outs(plan)) && WellFormed(tools, plan)
    requires AllFaithful(tools, Outs(plan), d) && BuildOk(tools, plan, d, force) && Trusted(tools, plan, d, force)
    ensures AllUpToDate(tools, plan, Build(tools, plan, d, force))
    ensures AllFaithful(tools, Outs(plan), Build(tools, plan, d, force))
  {
    hide Hermetic, Honest, Layer, RunOk, Distinguished, Outside, UpToDate, Faithful, Run;
    var mid := Run(tools, plan.compiles, d, force);
    RunUpToDate(tools, plan.compiles, d, force, Outs(plan));
    RunFaithful(tools, plan.compiles, d, force, Outs(plan));
    RunUpToDate(tools, plan.links, mid, force, Outs(plan));
    RunFaithful(tools, plan.links, mid, force, Outs(plan));
    forall c | c in plan.compiles ensures UpToDate(tools, c, Build(tools, plan, d, force)) {
      UpToDateAfter(tools, c, plan.links, mid, force, Outs(plan));
    }
  }

  // A forced build needs no record to be right and no hash to be free of collisions.
  lemma ForcedBuildIsUpToDate(tools: Toolchain, plan: Plan, d: Dir)
    requires Hermetic(tools) && Honest(tools, Outs(plan)) && WellFormed(tools, plan) && BuildOk(tools, plan, d, true)
    ensures AllUpToDate(tools, plan, Build(tools, plan, d, true))
  {
    hide Hermetic, Honest, Layer, RunOk, Outside, UpToDate, Run;
    var mid := Run(tools, plan.compiles, d, true);
    ForcedRunUpToDate(tools, plan.compiles, d, Outs(plan));
    ForcedRunUpToDate(tools, plan.links, mid, Outs(plan));
    forall c | c in plan.compiles ensures UpToDate(tools, c, Build(tools, plan, d, true)) {
      UpToDateAfter(tools, c, plan.links, mid, true, Outs(plan));
    }
  }

  lemma OutcomeIsFaithful(tools: Toolchain, plan: Plan, d: Dir, force: bool, outs: set<Path>)
    requires Honest(tools, outs) && Layer(tools, plan.compiles, outs) && Layer(tools, plan.links, outs)
    requires AllFaithful(tools, outs, d)
    ensures AllFaithful(tools, outs, Outcome(tools, plan, d, force))
  {
    hide Honest, Faithful, RunOk, Run, Compiled, Apart, Unrelated;
    if RunOk(tools, plan.compiles, d, force) {
      RunFaithful(tools, plan.compiles, d, force, outs);
      RunFaithful(tools, plan.links, Run(tools, plan.compiles, d, force), force, outs);
    } else {
      var n := CompiledIsPrefix(tools, plan.compiles, d, force);
      RunFaithful(tools, plan.compiles[..n], d, force, outs);
    }
  }

  // ----- a clean build -----

  // The same files apart from outputs.
  ghost predicate SameSources(d: Dir, e: Dir, outs: set<Path>) {
    forall q :: q !in outs ==> (q in d.files <==> q in e.files) && (q in d.files ==> d.files[q] == e.files[q])
  }

  lemma {:induction false} RunSame(tools: Toolchain, ts: seq<Target>, d: Dir, force: bool, u: Path)
    requires forall t :: t in ts ==> t.out != u
    ensures SameFor(d, Run(tools, ts, d, force), u)
    decreases |ts|
  {
    hide SameFor, Step;
    if ts == [] {
      SameSelf(d, u);
    } else {
      var n := |ts| - 1;
      var mid := Run(tools, ts[..n], d, force);
      RunSame(tools, ts[..n], d, force, u);
      StepSame(tools, ts[n], mid, force, u);
      SameTransitive(d, mid, Run(tools, ts, d, force), u);
    }
  }

  lemma BuildSame(tools: Toolchain, plan: Plan, d: Dir, force: bool)
    ensures SameSources(d, Build(tools, plan, d, force), Outs(plan))
  {
    hide Run;
    var mid := Run(tools, plan.compiles, d, force);
    forall q | q !in Outs(plan) ensures SameFor(d, mid, q) && SameFor(mid, Build(tools, plan, d, force), q) {
      RunSame(tools, plan.compiles, d, force, q);
      RunSame(tools, plan.links, mid, force, q);
    }
  }

  // With nothing recorded there is nothing to mistake.
  lemma CleanIsTrusted(tools: Toolchain, plan: Plan, d: Dir, force: bool)
    requires d.hashes == map[] && WellFormed(tools, plan)
    ensures AllFaithful(tools, Outs(plan), d) && Trusted(tools, plan, d, force)
  {
    hide CurrentHash, Layer, Outside, Run, Deps, SameReads;
    var mid := Run(tools, plan.compiles, d, force);
    forall l | l in plan.links ensures Distinguished(tools, l, mid, mid.files) {
      RunSame(tools, plan.compiles, d, force, l.out);
    }
  }

  // Two directories with the same sources and everything up to date have the same outputs.
  lemma SameOutputs(tools: Toolchain, plan: Plan, d: Dir, e: Dir)
    requires Hermetic(tools) && Honest(tools, Outs(plan)) && WellFormed(tools, plan)
    requires AllUpToDate(tools, plan, d) && AllUpToDate(tools, plan, e) && SameSources(d, e, Outs(plan))
    ensures forall o :: o in Outs(plan) ==> o in d.files && o in e.files && d.files[o] == e.files[o]
  {
    hide Hermetic, Honest, Layer, Outside, UpToDate, Outs;
    forall c | c in plan.compiles ensures SameOutput(d, e, c.out) {
      SameTarget(tools, c, d, e, Outs(plan));
    }
    assert forall o :: o in OutsOf(plan.compiles) ==> SameOutput(d, e, o);
    forall l | l in plan.links ensures SameOutput(d, e, l.out) {
      SameTarget(tools, l, d, e, Outs(plan));
    }
    OutsAre(plan);
  }

  lemma OutsAre(plan: Plan)
    ensures Outs(plan) == OutsOf(plan.compiles) + OutsOf(plan.links)
  {
  }

  predicate SameOutput(d: Dir, e: Dir, o: Path) { o in d.files && o in e.files && d.files[o] == e.files[o] }

  lemma SameTarget(tools: Toolchain, t: Target, d: Dir, e: Dir, outs: set<Path>)
    requires Hermetic(tools) && Honest(tools, outs) && SameSources(d, e, outs)
    requires UpToDate(tools, t, d) && UpToDate(tools, t, e)
    requires tools.objects(t.cmd).Some? ==> forall o :: o in tools.objects(t.cmd).value ==> SameOutput(d, e, o)
    ensures SameOutput(d, e, t.out)
  {
    assert HonestRun(tools, t.cmd, d.files, outs);
    assert SameReads(tools.run(t.cmd, d.files).value.inputs, d.files, e.files);
  }

  // ----- what succeeds -----

  // A command does the same where all it may read is the same: the files that are no outputs, and its objects.
  predicate MayRead(tools: Toolchain, cmd: seq<string>, outs: set<Path>, q: Path) {
    q !in outs || (tools.objects(cmd).Some? && q in tools.objects(cmd).value)
  }

  ghost predicate SameToRead(tools: Toolchain, cmd: seq<string>, outs: set<Path>, f: Files, g: Files) {
    forall q :: MayRead(tools, cmd, outs, q) ==> (q in f <==> q in g) && (q in f ==> f[q] == g[q])
  }

  lemma SameRun(tools: Toolchain, cmd: seq<string>, f: Files, g: Files, outs: set<Path>)
    requires Hermetic(tools) && Honest(tools, outs) && SameToRead(tools, cmd, outs, f, g)
    ensures tools.run(cmd, f).Some? <==> tools.run(cmd, g).Some?
  {
    OneWayRun(tools, cmd, f, g, outs);
    OneWayRun(tools, cmd, g, f, outs);
  }

  lemma OneWayRun(tools: Toolchain, cmd: seq<string>, f: Files, g: Files, outs: set<Path>)
    requires Hermetic(tools) && Honest(tools, outs) && SameToRead(tools, cmd, outs, f, g)
    ensures tools.run(cmd, f).Some? ==> tools.run(cmd, g) == tools.run(cmd, f)
  {
    if tools.run(cmd, f).Some? {
      assert HonestRun(tools, cmd, f, outs);
      forall q | q in tools.run(cmd, f).value.inputs ensures q in f && q in g && f[q] == g[q] {
        assert MayRead(tools, cmd, outs, q);
      }
      assert SameReads(tools.run(cmd, f).value.inputs, f, g);
    }
  }

  // A step succeeds exactly when the compiler would, whether or not it is called.
  lemma StepOkIsRunnable(tools: Toolchain, t: Target, d: Dir, force: bool, outs: set<Path>)
    requires Hermetic(tools) && Honest(tools, outs) && Faithful(tools, t.out, d) && Distinguished(tools, t, d, d.files)
    ensures StepOk(tools, t, d, force) <==> tools.run(t.cmd, d.files).Some?
  {
    hide HashDiffers, OutputGood, Distinguished, Hermetic, Honest, Faithful;
    if !NeedsBuild(tools, t, d, force) {
      KeptIsUpToDate(tools, t, d, outs);
    }
  }

  // And all steps succeed exactly when every command would on the files there were at first.
  lemma RunOkIsRunnable(tools: Toolchain, ts: seq<Target>, d: Dir, force: bool, outs: set<Path>)
    requires Hermetic(tools) && Honest(tools, outs) && Layer(tools, ts, outs) && AllFaithful(tools, outs, d)
    requires forall i :: 0 <= i < |ts| ==> Distinguished(tools, ts[i], d, d.files)
    ensures RunOk(tools, ts, d, force) <==> forall i :: 0 <= i < |ts| ==> tools.run(ts[i].cmd, d.files).Some?
  {
    hide Hermetic, Honest, Distinguished, Faithful, Run, StepOk;
    forall i | 0 <= i < |ts|
      ensures StepOk(tools, ts[i], Run(tools, ts[..i], d, force), force) <==> tools.run(ts[i].cmd, d.files).Some?
    {
      StepRunnable(tools, ts, i, d, force, outs);
    }
  }

  lemma StepRunnable(tools: Toolchain, ts: seq<Target>, i: nat, d: Dir, force: bool, outs: set<Path>)
    requires Hermetic(tools) && Honest(tools, outs) && Layer(tools, ts, outs) && AllFaithful(tools, outs, d)
    requires i < |ts| && Distinguished(tools, ts[i], d, d.files)
    ensures StepOk(tools, ts[i], Run(tools, ts[..i], d, force), force) <==> tools.run(ts[i].cmd, d.files).Some?
  {
    hide Hermetic, Honest, Distinguished, Faithful, Run, StepOk, SameToRead;
    var mid := Run(tools, ts[..i], d, force);
    LayerPrefix(tools, ts, i, outs);
    DistinguishedAfter(tools, ts[i], ts[..i], d, force, outs);
    RunFaithful(tools, ts[..i], d, force, outs);
    StepOkIsRunnable(tools, ts[i], mid, force, outs);
    SameBefore(tools, ts[i], ts[..i], d, force, outs);
    SameRun(tools, ts[i].cmd, d.files, mid.files, outs);
  }

  lemma LayerPrefix(tools: Toolchain, ts: seq<Target>, i: nat, outs: set<Path>)
    requires Layer(tools, ts, outs) && i < |ts|
    ensures Layer(tools, ts[..i], outs) && Outside(tools, ts[i], ts[..i]) && ts[i].out in outs
  {
  }

  // What a target reads is not changed by steps of targets it does not read.
  lemma SameBefore(tools: Toolchain, u: Target, ts: seq<Target>, d: Dir, force: bool, outs: set<Path>)
    requires Layer(tools, ts, outs) && Outside(tools, u, ts)
    ensures SameToRead(tools, u.cmd, outs, d.files, Run(tools, ts, d, force).files)
  {
    hide Run;
    forall q | MayRead(tools, u.cmd, outs, q) ensures SameFor(d, Run(tools, ts, d, force), q) {
      forall t | t in ts ensures t.out != q {
        var i :| 0 <= i < |ts| && ts[i] == t;
        assert Apart(tools, ts[i], outs) && Unrelated(tools, u, ts[i]);
      }
      RunSame(tools, ts, d, force, q);
    }
  }

  lemma SameSourcesToRead(tools: Toolchain, cmd: seq<string>, outs: set<Path>, d: Dir, e: Dir)
    requires SameSources(d, e, outs)
    requires tools.objects(cmd).Some? ==> forall o :: o in tools.objects(cmd).value ==> SameOutput(d, e, o)
    ensures SameToRead(tools, cmd, outs, d.files, e.files)
  {
  }

  lemma RunSources(tools: Toolchain, ts: seq<Target>, d: Dir, force: bool, outs: set<Path>)
    requires Layer(tools, ts, outs)
    ensures SameSources(d, Run(tools, ts, d, force), outs)
  {
    hide Run;
    forall q | q !in outs ensures SameFor(d, Run(tools, ts, d, force), q) {
      forall t | t in ts ensures t.out != q {
        var i :| 0 <= i < |ts| && ts[i] == t;
        assert Apart(tools, ts[i], outs);
      }
      RunSame(tools, ts, d, force, q);
    }
  }

  // The same commands succeed from two directories where all they may read is the same.
  lemma SameRunOk(tools: Toolchain, ts: seq<Target>, d: Dir, e: Dir, force: bool, force': bool, outs: set<Path>)
    requires Hermetic(tools) && Honest(tools, outs) && Layer(tools, ts, outs)
    requires AllFaithful(tools, outs, d) && (forall t :: t in ts ==> Distinguished(tools, t, d, d.files))
    requires AllFaithful(tools, outs, e) && (forall t :: t in ts ==> Distinguished(tools, t, e, e.files))
    requires forall t :: t in ts ==> SameToRead(tools, t.cmd, outs, d.files, e.files)
    ensures RunOk(tools, ts, d, force) <==> RunOk(tools, ts, e, force')
  {
    hide Hermetic, Honest, Layer, Faithful, Distinguished, SameToRead, RunOk;
    RunOkIsRunnable(tools, ts, d, force, outs);
    RunOkIsRunnable(tools, ts, e, force', outs);
    forall i | 0 <= i < |ts| ensures tools.run(ts[i].cmd, d.files).Some? <==> tools.run(ts[i].cmd, e.files).Some? {
      SameRun(tools, ts[i].cmd, d.files, e.files, outs);
    }
  }

  // An incremental build succeeds exactly when a clean build of the same sources does.
  lemma SameSuccess(tools: Toolchain, plan: Plan, d: Dir, clean: Dir, force: bool, force': bool)
    requires Hermetic(tools) && Honest(tools, Outs(plan)) && WellFormed(tools, plan)
    requires AllFaithful(tools, Outs(plan), d) && Trusted(tools, plan, d, force)
    requires AllFaithful(tools, Outs(plan), clean) && Trusted(tools, plan, clean, force')
    requires SameSources(d, clean, Outs(plan))
    ensures BuildOk(tools, plan, d, force) <==> BuildOk(tools, plan, clean, force')
  {
    hide Hermetic, Honest, Layer, Faithful, Distinguished, SameToRead, RunOk, Run, Outside, SameSources, Outs;
    var outs := Outs(plan);
    forall c | c in plan.compiles ensures SameToRead(tools, c.cmd, outs, d.files, clean.files) {
      SameSourcesToRead(tools, c.cmd, outs, d, clean);
    }
    SameRunOk(tools, plan.compiles, d, clean, force, force', outs);
    if RunOk(tools, plan.compiles, d, force) {
      var mid, mid' := Run(tools, plan.compiles, d, force), Run(tools, plan.compiles, clean, force');
      RunFaithful(tools, plan.compiles, d, force, outs);
      RunFaithful(tools, plan.compiles, clean, force', outs);
      SameObjects(tools, plan, d, clean, force, force');
      SameRunOk(tools, plan.links, mid, mid', force, force', outs);
    }
  }

  // After both compilations the links find the same to read.
  lemma SameObjects(tools: Toolchain, plan: Plan, d: Dir, clean: Dir, force: bool, force': bool)
    requires Hermetic(tools) && Honest(tools, Outs(plan)) && WellFormed(tools, plan)
    requires AllFaithful(tools, Outs(plan), d) && Trusted(tools, plan, d, force)
    requires AllFaithful(tools, Outs(plan), clean) && Trusted(tools, plan, clean, force')
    requires SameSources(d, clean, Outs(plan))
    requires RunOk(tools, plan.compiles, d, force) && RunOk(tools, plan.compiles, clean, force')
    ensures var mid, mid' := Run(tools, plan.compiles, d, force), Run(tools, plan.compiles, clean, force');
            forall l :: l in plan.links ==> SameToRead(tools, l.cmd, Outs(plan), mid.files, mid'.files)
  {
    hide Hermetic, Honest, Layer, Faithful, Distinguished, SameToRead, RunOk, Run, Outside, UpToDate, Outs;
    var outs := Outs(plan);
    var mid, mid' := Run(tools, plan.compiles, d, force), Run(tools, plan.compiles, clean, force');
    RunUpToDate(tools, plan.compiles, d, force, outs);
    RunUpToDate(tools, plan.compiles, clean, force', outs);
    RunSources(tools, plan.compiles, d, force, outs);
    RunSources(tools, plan.compiles, clean, force', outs);
    forall c | c in plan.compiles ensures SameOutput(mid, mid', c.out) {
      SameTarget(tools, c, mid, mid', outs);
    }
    forall l | l in plan.links ensures SameToRead(tools, l.cmd, outs, mid.files, mid'.files) {
      SameSourcesToRead(tools, l.cmd, outs, mid, mid');
    }
  }

  // An incremental build succeeds exactly when a clean build of the same sources does, and then ends
  // with the same objects and executables.
  lemma TrustedIsClean(tools: Toolchain, plan: Plan, d: Dir, clean: Dir, force: bool)
    requires Hermetic(tools) && Honest(tools, Outs(plan)) && WellFormed(tools, plan)
    requires AllFaithful(tools, Outs(plan), d) && Trusted(tools, plan, d, force)
    requires clean.hashes == map[] && SameSources(d, clean, Outs(plan))
    ensures BuildOk(tools, plan, d, force) <==> BuildOk(tools, plan, clean, false)
    ensures BuildOk(tools, plan, d, force) ==>
              var e, f := Build(tools, plan, d, force), Build(tools, plan, clean, false);
              forall o :: o in Outs(plan) ==> SameOutput(e, f, o)
  {
    hide Hermetic, Honest, WellFormed, AllFaithful, BuildOk, Trusted, Build, Outs, AllUpToDate;
    CleanIsTrusted(tools, plan, clean, false);
    SameSuccess(tools, plan, d, clean, force, false);
    if BuildOk(tools, plan, d, force) {
      BuildIsUpToDate(tools, plan, d, force);
      BuildIsUpToDate(tools, plan, clean, false);
      BuildSame(tools, plan, d, force);
      BuildSame(tools, plan, clean, false);
      SameOutputs(tools, plan, Build(tools, plan, d, force), Build(tools, plan, clean, false));
    }
  }

  // ----- between builds -----

  // Sources changed, added or removed in any way; outputs, dependency files and hashes only removed.
  ghost predicate Edited(d: Dir, e: Dir, outs: set<Path>) {
    e.records == d.records
    && forall o :: o in outs ==>
         && (o in e.files ==> o in d.files && e.files[o] == d.files[o])
         && (o in e.depfiles ==> o in d.depfiles && e.depfiles[o] == d.depfiles[o])
         && (o in e.hashes ==> o in d.hashes && e.hashes[o] == d.hashes[o])
  }

  lemma EditsKeepRecords(tools: Toolchain, d: Dir, e: Dir, outs: set<Path>)
    requires AllFaithful(tools, outs, d) && Edited(d, e, outs)
    ensures AllFaithful(tools, outs, e)
  {
    hide CurrentHash;
    forall o | o in outs ensures Faithful(tools, o, e) {
      assert Faithful(tools, o, d);
    }
  }

  // ----- the second build -----

  // A compiler that always leaves an output and a dependency file whose names are there.
  ghost predicate Complete(tools: Toolchain) {
    forall cmd, f :: tools.run(cmd, f).Some? ==> CompleteRun(tools, cmd, f)
  }

  predicate CompleteRun(tools: Toolchain, cmd: seq<string>, f: Files)
    requires tools.run(cmd, f).Some?
  {
    var p := tools.run(cmd, f).value;
    && p.output != "" && p.depfile.Some? && Depfile.Parse(p.depfile.value).Some?
    && Present(Depfile.Parse(p.depfile.value).value, f)
    && (tools.objects(cmd).Some? ==> p.executable && Present(tools.objects(cmd).value, f))
  }

  ghost predicate Clocked(d: Dir) { forall p :: TimeOf(d, p) <= d.clock }

  lemma StepClocked(tools: Toolchain, t: Target, d: Dir, force: bool)
    requires Clocked(d)
    ensures Clocked(Step(tools, t, d, force))
  {
    var e := Step(tools, t, d, force);
    hide CurrentHash, NeedsBuild;
    forall p ensures TimeOf(e, p) <= e.clock {
      assert TimeOf(d, p) <= d.clock;
    }
  }

  lemma StepDone(tools: Toolchain, t: Target, d: Dir, force: bool, outs: set<Path>)
    requires Complete(tools) && Clocked(d) && Apart(tools, t, outs) && StepOk(tools, t, d, force)
    ensures !NeedsBuild(tools, t, Step(tools, t, d, force), false)
  {
    hide State;
    if NeedsBuild(tools, t, d, force) {
      assert CompleteRun(tools, t.cmd, d.files);
      RebuiltFiles(tools, t, d);
      JustBuilt(tools, t, d);
    }
  }

  lemma JustBuilt(tools: Toolchain, t: Target, d: Dir)
    requires tools.run(t.cmd, d.files).Some? && CompleteRun(tools, t.cmd, d.files) && Clocked(d)
    requires tools.objects(t.cmd).Some? ==> t.out !in tools.objects(t.cmd).value
    ensures var e := Rebuilt(tools, t, d); !HashDiffers(tools, t, e) && OutputGood(tools, t, e)
  {
    hide State, Fold;
    var p := tools.run(t.cmd, d.files).value;
    var m := Installed(t, p, d);
    assert Readable(tools, t.cmd, Depfile.Parse(p.depfile.value), m.files);
    assert TimeOf(m, t.out) == d.clock;
    if tools.objects(t.cmd).Some? {
      var objects := tools.objects(t.cmd).value;
      forall i | 0 <= i < |objects| ensures TimeOf(m, objects[i]) <= d.clock {
        assert TimeOf(m, objects[i]) == TimeOf(d, objects[i]);
      }
    }
  }

  lemma DoneKept(tools: Toolchain, u: Target, t: Target, d: Dir, force: bool, outs: set<Path>)
    requires Faithful(tools, u.out, d) && Honest(tools, outs) && Unrelated(tools, u, t) && t.out in outs
    requires !NeedsBuild(tools, u, d, false)
    ensures !NeedsBuild(tools, u, Step(tools, t, d, force), false)
  {
    var e := Step(tools, t, d, force);
    hide Step, CurrentHash, Deps;
    forall q | q != t.out ensures SameFor(d, e, q) {
      StepSame(tools, t, d, force, q);
    }
    HashSame(tools, u, d, e, t, outs);
    hide Faithful;
    assert SameFor(d, e, u.out);
    if tools.objects(u.cmd).Some? {
      var objects := tools.objects(u.cmd).value;
      forall i | 0 <= i < |objects| ensures TimeOf(e, objects[i]) <= TimeOf(e, u.out) {
        assert SameFor(d, e, objects[i]) && TimeOf(d, objects[i]) <= TimeOf(d, u.out);
      }
    }
  }

  lemma {:induction false} DoneAfter(tools: Toolchain, u: Target, ts: seq<Target>, d: Dir, force: bool, outs: set<Path>)
    requires AllFaithful(tools, outs, d) && Honest(tools, outs) && Layer(tools, ts, outs) && u.out in outs
    requires Outside(tools, u, ts) && !NeedsBuild(tools, u, d, false)
    ensures !NeedsBuild(tools, u, Run(tools, ts, d, force), false)
    decreases |ts|
  {
    hide Step, Honest, Unrelated, NeedsBuild, Faithful;
    if ts != [] {
      var n := |ts| - 1;
      LayerFront(tools, ts, outs);
      DoneAfter(tools, u, ts[..n], d, force, outs);
      RunFaithful(tools, ts[..n], d, force, outs);
      DoneKept(tools, u, ts[n], Run(tools, ts[..n], d, force), force, outs);
    }
  }

  lemma {:induction false} RunClocked(tools: Toolchain, ts: seq<Target>, d: Dir, force: bool)
    requires Clocked(d)
    ensures Clocked(Run(tools, ts, d, force))
    decreases |ts|
  {
    hide Step, Clocked;
    if ts != [] {
      RunClocked(tools, ts[..|ts| - 1], d, force);
      StepClocked(tools, ts[|ts| - 1], Run(tools, ts[..|ts| - 1], d, force), force);
    }
  }

  lemma {:induction false} RunDone(tools: Toolchain, ts: seq<Target>, d: Dir, force: bool, outs: set<Path>)
    requires Complete(tools) && Clocked(d) && Honest(tools, outs) && Layer(tools, ts, outs) && AllFaithful(tools, outs, d)
    requires RunOk(tools, ts, d, force)
    ensures forall i :: 0 <= i < |ts| ==> !NeedsBuild(tools, ts[i], Run(tools, ts, d, force), false)
    decreases |ts|
  {
    hide Step, Honest, Unrelated, NeedsBuild, Complete, Clocked, Faithful, StepOk;
    if ts != [] {
      var n := |ts| - 1;
      var front, mid := ts[..n], Run(tools, ts[..n], d, force);
      LayerFront(tools, ts, outs);
      RunOkFront(tools, ts, d, force);
      hide RunOk;
      RunDone(tools, front, d, force, outs);
      RunFaithful(tools, front, d, force, outs);
      RunClocked(tools, front, d, force);
      StepDone(tools, ts[n], mid, force, outs);
      forall i | 0 <= i < n ensures !NeedsBuild(tools, ts[i], Run(tools, ts, d, force), false) {
        assert front[i] == ts[i];
        DoneKept(tools, ts[i], ts[n], mid, force, outs);
      }
    }
  }

  lemma {:induction false} RunNothing(tools: Toolchain, ts: seq<Target>, d: Dir)
    requires forall i :: 0 <= i < |ts| ==> !NeedsBuild(tools, ts[i], d, false)
    ensures Run(tools, ts, d, false) == d && RunOk(tools, ts, d, false)
    decreases |ts|
  {
    hide NeedsBuild;
    forall i | 0 <= i < |ts| ensures StepOk(tools, ts[i], Run(tools, ts[..i], d, false), false) {
      RunNothing(tools, ts[..i], d);
    }
    if ts != [] {
      RunNothing(tools, ts[..|ts| - 1], d);
    }
  }

  // A second build right after a successful one, forced or not, rebuilds nothing and changes nothing.
  lemma SecondBuild(tools: Toolchain, plan: Plan, d: Dir, force: bool)
    requires Complete(tools) && Honest(tools, Outs(plan)) && WellFormed(tools, plan)
    requires Clocked(d) && AllFaithful(tools, Outs(plan), d) && BuildOk(tools, plan, d, force)
    ensures var e := Build(tools, plan, d, force);
            && (forall t :: t in plan.compiles + plan.links ==> !NeedsBuild(tools, t, e, false))
            && Build(tools, plan, e, false) == e && BuildOk(tools, plan, e, false)
  {
    hide Complete, Honest, Layer, RunOk, Outside, NeedsBuild, Faithful, Clocked, Run;
    var outs, mid := Outs(plan), Run(tools, plan.compiles, d, force);
    var e := Build(tools, plan, d, force);
    RunDone(tools, plan.compiles, d, force, outs);
    RunFaithful(tools, plan.compiles, d, force, outs);
    RunClocked(tools, plan.compiles, d, force);
    RunDone(tools, plan.links, mid, force, outs);
    forall i | 0 <= i < |plan.compiles| ensures !NeedsBuild(tools, plan.compiles[i], e, false) {
      assert plan.compiles[i] in plan.compiles;
      DoneAfter(tools, plan.compiles[i], plan.links, mid, force, outs);
    }
    RunNothing(tools, plan.compiles, e);
    RunNothing(tools, plan.links, e);
  }

  // ----- what makes a recorded hash trustworthy -----

  lemma WordInjective(g: nat, h: nat)
    requires g < TWO_32 && h < TWO_32 && Word(g) == Word(h)
    ensures g == h
  {
    assert Word(g)[0] == Word(h)[0] && Word(g)[1] == Word(h)[1] && Word(g)[2] == Word(h)[2] && Word(g)[3] == Word(h)[3];
    FourBytes(g);
    FourBytes(h);
  }

  lemma FourBytes(h: nat)
    requires h < TWO_32
    ensures h == h % 256 + 0x100 * (h / 0x100 % 256) + 0x1_0000 * (h / 0x1_0000 % 256) + 0x100_0000 * (h / 0x100_0000 % 256)
  {
    var h1 := h / 0x100;
    var h2 := h1 / 0x100;
    var h3 := h2 / 0x100;
    Quotient(h, 0x1_0000, h2, h % 256 + 0x100 * (h1 % 256));
    Quotient(h, 0x100_0000, h3, h % 256 + 0x100 * (h1 % 256) + 0x1_0000 * (h2 % 256));
    Quotient(h3, 256, 0, h3);
  }

  // ----- the edits that are always seen -----

  // One character for another, or two neighbours exchanged.
  predicate IsSmallEdit(m: string, n: string) {
    && (forall i :: 0 <= i < |m| ==> m[i] as int < 256) && (forall i :: 0 <= i < |n| ==> n[i] as int < 256)
    && ((|m| == 1 && |n| == 1 && m[0] != n[0]) || (|m| == 2 && n == [m[1], m[0]] && m[0] != m[1]))
  }

  // An edit of a file that is named once changes the stream in one place.
  lemma {:induction false} StreamEdit(paths: seq<Path>, k: nat, f: Files, u: string, m: string, n: string, v: string)
      returns (a: seq<int>, b: seq<int>)
    requires k < |paths| && Present(paths, f) && f[paths[k]] == u + m + v
    requires forall i :: 0 <= i < |paths| && i != k ==> paths[i] != paths[k]
    ensures var g := f[paths[k] := u + n + v];
            && Present(paths, g) && Stream(paths, f) == a + Values(m) + b && Stream(paths, g) == a + Values(n) + b
    decreases k
  {
    hide Values;
    var p, rest, g := paths[0], paths[1..], f[paths[k] := u + n + v];
    assert forall i :: 0 <= i < |rest| ==> rest[i] == paths[i + 1];
    var head := Values(p) + [0];
    if k == 0 {
      SameStream(rest, f, g);
      a, b := head + Values(u), Values(v) + Stream(rest, f);
      ValuesOfThree(u, m, v);
      ValuesOfThree(u, n, v);
      ThreeParts(head, Values(u), Values(m), Values(v), Stream(rest, f));
      ThreeParts(head, Values(u), Values(n), Values(v), Stream(rest, f));
    } else {
      var a', b' := StreamEdit(rest, k - 1, f, u, m, n, v);
      a, b := head + Values(f[p]) + a', b';
      Shifted(head + Values(f[p]), a', Values(m), b');
      Shifted(head + Values(f[p]), a', Values(n), b');
    }
  }

  lemma ValuesOfThree(u: string, m: string, v: string)
    ensures Values(u + m + v) == Values(u) + Values(m) + Values(v)
  {
  }

  lemma ThreeParts(head: seq<int>, u: seq<int>, m: seq<int>, v: seq<int>, rest: seq<int>)
    ensures head + (u + m + v) + rest == (head + u) + m + (v + rest)
  {
  }

  lemma Shifted(head: seq<int>, a: seq<int>, m: seq<int>, b: seq<int>)
    ensures head + (a + m + b) == (head + a) + m + b
  {
  }

  // A target whose state is known is built again after such an edit of one of its sources.
  lemma SmallEditIsSeen(tools: Toolchain, t: Target, d: Dir, k: nat, u: string, m: string, n: string, v: string)
    requires var deps := Deps(d.depfiles, t.out);
             && CurrentHash(tools, t.cmd, deps, d.files).Some? && t.out in d.hashes
             && CurrentHash(tools, t.cmd, deps, d.files).value == d.hashes[t.out]
             && k < |deps.value| && (forall i :: 0 <= i < |deps.value| && i != k ==> deps.value[i] != deps.value[k])
             && (tools.objects(t.cmd).Some? ==> deps.value[k] !in tools.objects(t.cmd).value)
             && d.files[deps.value[k]] == u + m + v
    requires IsSmallEdit(m, n)
    ensures var p := Deps(d.depfiles, t.out).value[k];
            NeedsBuild(tools, t, d.(files := d.files[p := u + n + v]), false)
  {
    hide Deps, Stream, Fold, Word, Values, OutputGood, SignedValues, CmdText;
    var deps := Deps(d.depfiles, t.out).value;
    var f, g := d.files, d.files[deps[k] := u + n + v];
    var a, b := StreamEdit(deps, k, f, u, m, n, v);
    if tools.objects(t.cmd).Some? { SameStream(tools.objects(t.cmd).value, f, g); }
    var x, cmd := Extra(tools, t.cmd, f), SignedValues(CmdText(t.cmd));
    assert State(tools, t.cmd, deps, f) == cmd + (a + Values(m) + b) + x;
    assert State(tools, t.cmd, deps, g) == cmd + (a + Values(n) + b) + x;
    Around(cmd, a, Values(m), b, x);
    Around(cmd, a, Values(n), b, x);
    SmallEditHashes(cmd + a, m, n, b + x);
  }

  lemma Around(cmd: seq<int>, a: seq<int>, m: seq<int>, b: seq<int>, x: seq<int>)
    ensures cmd + (a + m + b) + x == (cmd + a) + m + (b + x)
  {
  }

  lemma SmallEditHashes(a: seq<int>, m: string, n: string, b: seq<int>)
    requires IsSmallEdit(m, n)
    ensures Fold(5381, a + Values(m) + b) != Fold(5381, a + Values(n) + b)
  {
    hide Fold;
    if |m| == 1 {
      assert Values(m) == [m[0] as int] && Values(n) == [n[0] as int];
      OneByteIsSeen(5381, a, m[0] as int, n[0] as int, b);
    } else {
      assert Values(m) == [m[0] as int, m[1] as int] && Values(n) == [m[1] as int, m[0] as int];
      ExchangeIsSeen(5381, a, m[0] as int, m[1] as int, b);
    }
  }

  // The recorded build and the present one, both hashable with these dependencies.
  predicate Comparable(tools: Toolchain, r: Record, t: Target, deps: seq<Path>, files: Files) {
    Readable(tools, r.cmd, Some(deps), r.files) && Readable(tools, t.cmd, Some(deps), files)
  }

  // The 32-bit hash tells these two byte streams apart if they differ, and those of their objects.
  predicate NoCollision(tools: Toolchain, r: Record, t: Target, deps: seq<Path>, files: Files)
    requires Comparable(tools, r, t, deps, files)
  {
    var s, s' := State(tools, r.cmd, deps, r.files), State(tools, t.cmd, deps, files);
    && (Fold(5381, s) == Fold(5381, s') ==> s == s')
    && (tools.objects(r.cmd).Some? && tools.objects(t.cmd).Some? ==>
          var o, o' := tools.objects(r.cmd).value, tools.objects(t.cmd).value;
          ObjectsHash(o, r.files) == ObjectsHash(o', files) ==> Stream(o, r.files) == Stream(o', files))
  }

  // Two equal byte streams can be read back: plain arguments and names, both commands of one kind, and no
  // zero byte in a file unless its size is the recorded one.
  predicate Legible(tools: Toolchain, r: Record, t: Target, deps: seq<Path>, files: Files)
    requires Comparable(tools, r, t, deps, files)
  {
    && Plain(tools, r, t, deps) && Framed(deps, r.files, files)
    && (tools.objects(r.cmd).Some? <==> tools.objects(t.cmd).Some?)
    && (r.cmd == t.cmd && tools.objects(t.cmd).Some? ==> Framed(tools.objects(t.cmd).value, r.files, files))
  }

  // Arguments and names without the marks that end them.
  predicate Plain(tools: Toolchain, r: Record, t: Target, deps: seq<Path>) {
    && deps != [] && (forall i :: 0 <= i < |deps| ==> IsText(deps[i]))
    && (forall i :: 0 <= i < |r.cmd| ==> IsArgument(r.cmd[i])) && (forall i :: 0 <= i < |t.cmd| ==> IsArgument(t.cmd[i]))
    && (tools.objects(t.cmd).Some? ==> forall i :: 0 <= i < |tools.objects(t.cmd).value| ==> IsText(tools.objects(t.cmd).value[i]))
  }

  // Equal hashes then mean the same command on the same contents.
  lemma SameState(tools: Toolchain, r: Record, t: Target, deps: seq<Path>, files: Files)
    requires Comparable(tools, r, t, deps, files)
    requires NoCollision(tools, r, t, deps, files) && Legible(tools, r, t, deps, files)
    requires CurrentHash(tools, r.cmd, Some(deps), r.files) == CurrentHash(tools, t.cmd, Some(deps), files)
    ensures r.cmd == t.cmd && Agree(deps, r.files, files)
    ensures tools.objects(t.cmd).Some? ==> Agree(tools.objects(t.cmd).value, r.files, files)
  {
    hide Fold, Stream, StateStream, Word, IsText, IsArgument, Framed;
    var x, y := Extra(tools, r.cmd, r.files), Extra(tools, t.cmd, files);
    StateDetermines(r.cmd, r.files, x, t.cmd, files, y, deps);
    if tools.objects(t.cmd).Some? {
      var o := tools.objects(t.cmd).value;
      FoldBound(2166136261, Stream(o, r.files));
      FoldBound(2166136261, Stream(o, files));
      WordInjective(ObjectsHash(o, r.files), ObjectsHash(o, files));
      StreamDetermines(o, r.files, files, [], []);
    }
  }

  // Different streams have different hashes, and equal streams can be read back.
  predicate ToldApart(tools: Toolchain, r: Record, t: Target, deps: seq<Path>, files: Files)
    requires Comparable(tools, r, t, deps, files)
  {
    && NoCollision(tools, r, t, deps, files)
    && (State(tools, r.cmd, deps, r.files) == State(tools, t.cmd, deps, files) ==> Legible(tools, r, t, deps, files))
  }

  lemma EqualStreams(tools: Toolchain, r: Record, t: Target, deps: seq<Path>, files: Files)
    requires Comparable(tools, r, t, deps, files) && NoCollision(tools, r, t, deps, files)
    requires CurrentHash(tools, r.cmd, Some(deps), r.files) == CurrentHash(tools, t.cmd, Some(deps), files)
    ensures State(tools, r.cmd, deps, r.files) == State(tools, t.cmd, deps, files)
  {
    hide State, Fold;
  }

  // With plain names that asks for nothing else than no collision and no wrong match: where the hashes
  // differ, or the files are the same, it holds whatever the files contain.
  lemma ToldApartExactly(tools: Toolchain, r: Record, t: Target, deps: seq<Path>, files: Files)
    requires Comparable(tools, r, t, deps, files) && Plain(tools, r, t, deps)
    ensures ToldApart(tools, r, t, deps, files) <==>
              && NoCollision(tools, r, t, deps, files)
              && (CurrentHash(tools, r.cmd, Some(deps), r.files) == CurrentHash(tools, t.cmd, Some(deps), files) ==>
                    && r.cmd == t.cmd && Agree(deps, r.files, files)
                    && (tools.objects(t.cmd).Some? ==> Agree(tools.objects(t.cmd).value, r.files, files)))
  {
    hide State, Fold, Stream, Plain;
    if NoCollision(tools, r, t, deps, files) &&
       CurrentHash(tools, r.cmd, Some(deps), r.files) == CurrentHash(tools, t.cmd, Some(deps), files) {
      EqualStreams(tools, r, t, deps, files);
      if Legible(tools, r, t, deps, files) {
        SameState(tools, r, t, deps, files);
      }
    }
  }

  // The recorded hash of a target, if it has one, tells the state it meets from the recorded one.
  predicate Tellable(tools: Toolchain, t: Target, d: Dir) {
    t.out in d.records && Deps(d.depfiles, t.out).Some? ==>
      var r, deps := d.records[t.out], Deps(d.depfiles, t.out).value;
      Comparable(tools, r, t, deps, d.files) ==> ToldApart(tools, r, t, deps, d.files)
  }

  // So a recorded hash can be trusted whenever the streams do not collide and can be read back.
  lemma NoCollisionIsEnough(tools: Toolchain, t: Target, d: Dir)
    requires Faithful(tools, t.out, d) && Tellable(tools, t, d)
    ensures Distinguished(tools, t, d, d.files)
  {
    var deps := Deps(d.depfiles, t.out);
    hide State, Legible, NoCollision;
    var files := d.files;
    if t.out in d.hashes && t.out in d.records && CurrentHash(tools, t.cmd, deps, files) == Some(d.hashes[t.out]) {
      var r := d.records[t.out];
      assert Comparable(tools, r, t, deps.value, files);
      EqualStreams(tools, r, t, deps.value, files);
      SameState(tools, r, t, deps.value, files);
      AgreeIsSame(deps.value, r.files, files);
      if tools.objects(t.cmd).Some? { AgreeIsSame(tools.objects(t.cmd).value, r.files, files); }
    }
  }

  // No target of a build meets a collision, or an equal stream that cannot be read back: the objects
  // when it starts, the executables when the objects are there.
  ghost predicate NoCollisions(tools: Toolchain, plan: Plan, d: Dir, force: bool) {
    && (forall c :: c in plan.compiles ==> Tellable(tools, c, d))
    && var mid := Run(tools, plan.compiles, d, force);
       forall l :: l in plan.links ==> Tellable(tools, l, mid)
  }

  lemma NoCollisionsIsTrusted(tools: Toolchain, plan: Plan, d: Dir, force: bool)
    requires Honest(tools, Outs(plan)) && WellFormed(tools, plan) && AllFaithful(tools, Outs(plan), d)
    requires NoCollisions(tools, plan, d, force)
    ensures Trusted(tools, plan, d, force)
  {
    hide Honest, Layer, Outside, Faithful, Distinguished, Tellable, Run;
    var mid := Run(tools, plan.compiles, d, force);
    RunFaithful(tools, plan.compiles, d, force, Outs(plan));
    forall c | c in plan.compiles ensures Distinguished(tools, c, d, d.files) {
      NoCollisionIsEnough(tools, c, d);
    }
    forall l | l in plan.links ensures Distinguished(tools, l, mid, mid.files) {
      NoCollisionIsEnough(tools, l, mid);
    }
  }

  // Without a collision of the 32-bit hash, an incremental build succeeds exactly when a clean build of
  // the same sources does, and ends with the same objects and executables.
  lemma IncrementalIsClean(tools: Toolchain, plan: Plan, d: Dir, clean: Dir, force: bool)
    requires Hermetic(tools) && Honest(tools, Outs(plan)) && WellFormed(tools, plan)
    requires AllFaithful(tools, Outs(plan), d) && NoCollisions(tools, plan, d, force)
    requires clean.hashes == map[] && SameSources(d, clean, Outs(plan))
    ensures BuildOk(tools, plan, d, force) <==> BuildOk(tools, plan, clean, false)
    ensures BuildOk(tools, plan, d, force) ==>
              var e, f := Build(tools, plan, d, force), Build(tools, plan, clean, false);
              forall o :: o in Outs(plan) ==> SameOutput(e, f, o)
  {
    hide Hermetic, Honest, WellFormed, AllFaithful, BuildOk, NoCollisions, Build, Outs, SameSources;
    NoCollisionsIsTrusted(tools, plan, d, force);
    TrustedIsClean(tools, plan, d, clean, force);
  }

  lemma AgreeIsSame(paths: seq<Path>, f: Files, g: Files)
    requires Present(paths, f) && Present(paths, g) && Agree(paths, f, g)
    ensures SameReads(paths, f, g)
  {
  }
}
