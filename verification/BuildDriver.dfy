// The build driver's main loop over a build directory it changes in place.
module BuildDriver {
  import opened Bytes
  import opened StateHash
  import opened BuildCache
  import opened IncrementalBuild
  import opened LostWrite
  import Depfile

  class BuildDir {
    var files: Files
    var times: map<Path, nat>
    var executables: set<Path>
    var depfiles: map<Path, string>
    var hashes: map<Path, nat>
    var clock: nat
    ghost var records: map<Path, Record>

    ghost function Now(): Dir
      reads this
    {
      Dir(files, times, executables, depfiles, hashes, clock, records)
    }

    constructor (files: Files, times: map<Path, nat>, clock: nat)
      ensures Now() == Dir(files, times, {}, map[], map[], clock, map[])
    {
      this.files, this.times, this.executables, this.clock := files, times, {}, clock;
      depfiles, hashes, records := map[], map[], map[];
    }

    // depfile_state_hash, with the objects' hash folded in for a link.
    method StateHash(tools: Toolchain, cmd: seq<string>, depfile: Option<string>) returns (h: Option<nat>)
      requires tools.objects(cmd).Some? ==> Present(tools.objects(cmd).value, files)
      ensures h == CurrentHash(tools, cmd, if depfile.Some? then Depfile.Parse(depfile.value) else None, files)
    {
      hide Stream, Word;
      if depfile.None? {
        return None;
      }
      var deps := Depfile.ReadDepfile(depfile.value);
      if deps.None? {
        return None;
      }
      var paths := deps.value;
      for i := 0 to |paths|
        invariant Present(paths[..i], files)
      {
        if paths[i] !in files {
          return None;
        }
      }
      assert paths[..|paths|] == paths;
      var text := SignedValues(CmdText(cmd));
      var r := HashBytes(5381, text);
      r := HashFiles(r, paths, files);
      FoldAppend(5381, text, Stream(paths, files));
      var objects := tools.objects(cmd);
      ghost var extra := Extra(tools, cmd, files);
      if objects.Some? {
        var objectsHash := HashFiles(2166136261, objects.value, files);
        r := HashBytes(r, Word(objectsHash));
        FoldAppend(5381, text + Stream(paths, files), extra);
      } else {
        assert text + Stream(paths, files) + [] == text + Stream(paths, files);
      }
      h := Some(r);
    }

    // output_file_valid, and for a link checked_needs_rebuild over its objects' times.
    method OutputIsGood(tools: Toolchain, t: Target) returns (good: bool)
      ensures good == OutputGood(tools, t, Now())
    {
      if t.out !in files || files[t.out] == "" {
        return false;
      }
      var objects := tools.objects(t.cmd);
      if objects.Some? {
        if t.out !in executables {
          return false;
        }
        var last := if t.out in times then times[t.out] else 0;
        for i := 0 to |objects.value|
          invariant forall k :: 0 <= k < i ==> TimeOf(Now(), objects.value[k]) <= TimeOf(Now(), t.out)
        {
          var o := objects.value[i];
          if last < (if o in times then times[o] else 0) {
            assert TimeOf(Now(), objects.value[i]) > TimeOf(Now(), t.out);
            return false;
          }
        }
      }
      good := true;
    }

    // record_build_state. How the hash file fares is settled by w, and ignored.
    method RecordBuildState(tools: Toolchain, t: Target, p: Product, ghost before: Files, w: Write)
      requires tools.objects(t.cmd).Some? ==> Present(tools.objects(t.cmd).value, files)
      modifies this
      ensures Now() == Attempted(tools, t, p, old(Now()), before, w)
    {
      hide CurrentHash, CutHash;
      var h := None;
      if p.depfile.Some? {
        depfiles := depfiles[t.out := p.depfile.value];
        h := StateHash(tools, t.cmd, p.depfile);
      }
      if h.Some? && w != Refused {
        var read := if w.Cut? then CutHash(h.value, w.count) else h;
        PutTwice(hashes, t.out, h.value, if read.Some? then read.value else 0);
        hashes := if read.Some? then hashes[t.out := read.value] else hashes - {t.out};
        records := records[t.out := Record(t.cmd, before)];
      } else if h.None? && w != Refused {
        hashes := hashes - {t.out};
      }
    }

    // The rebuild decision of the main loop.
    method Decide(tools: Toolchain, t: Target, force: bool) returns (rebuild: bool)
      requires tools.objects(t.cmd).Some? ==> Present(tools.objects(t.cmd).value, files)
      ensures rebuild == NeedsBuild(tools, t, Now(), force)
    {
      hide CurrentHash, OutputGood, Deps;
      DepsOf(depfiles, t.out);
      var current := StateHash(tools, t.cmd, if t.out in depfiles then Some(depfiles[t.out]) else None);
      var hashDiffers := current.None? || t.out !in hashes || hashes[t.out] != current.value;
      var good := OutputIsGood(tools, t);
      rebuild := hashDiffers || !good || force;
    }

    // One target: decide, build, install, record.
    method BuildTarget(tools: Toolchain, t: Target, force: bool) returns (ok: bool, rebuilt: bool)
      requires tools.objects(t.cmd).Some? ==> Present(tools.objects(t.cmd).value, files)
      modifies this
      ensures Now() == Step(tools, t, old(Now()), force)
      ensures rebuilt == NeedsBuild(tools, t, old(Now()), force) && ok == StepOk(tools, t, old(Now()), force)
      ensures files.Keys >= old(files.Keys)
    {
      hide NeedsBuild, Recorded;
      rebuilt := Decide(tools, t, force);
      ok := true;
      if rebuilt {
        var result := tools.run(t.cmd, files);
        if result.None? {
          return false, true;
        }
        ghost var d := Now();
        Install(tools, t, result.value);
        RebuiltFiles(tools, t, d);
      }
    }

    // The output put in its place, and the state it was built from recorded.
    method Install(tools: Toolchain, t: Target, p: Product)
      requires tools.objects(t.cmd).Some? ==> Present(tools.objects(t.cmd).value, files)
      modifies this
      ensures Now() == Recorded(tools, t, p, Installed(t, p, old(Now())), old(files))
      ensures files.Keys >= old(files.Keys)
    {
      hide Recorded;
      ghost var before, d := files, Now();
      files := files[t.out := p.output];
      times := times[t.out := clock];
      clock := clock + 1;
      executables := if p.executable then executables + {t.out} else executables - {t.out};
      assert Now() == Installed(t, p, d);
      RecordBuildState(tools, t, p, before, Whole);
      RecordedKeepsFiles(tools, t, p, Installed(t, p, d), before);
    }

    // The library compilation: the first failure ends the build.
    method CompileAll(tools: Toolchain, ts: seq<Target>, force: bool) returns (ok: bool, rebuilt: nat)
      requires forall t :: t in ts ==> tools.objects(t.cmd).None?
      modifies this
      ensures ok == RunOk(tools, ts, old(Now()), force)
      ensures ok ==> Now() == Run(tools, ts, old(Now()), force) && (rebuilt == 0 <==> Idle(tools, ts, old(Now()), force))
      ensures !ok ==> Now() == Compiled(tools, ts, old(Now()), force)
      ensures ok && force ==> rebuilt == |ts|
    {
      hide Step, StepOk, NeedsBuild, Idle, RunOk;
      ghost var start := Now();
      NothingYet(tools, start, force);
      ok, rebuilt := true, 0;
      assert ts[..0] == [];
      for i := 0 to |ts|
        invariant Now() == Run(tools, ts[..i], start, force) && RunOk(tools, ts[..i], start, force)
        invariant rebuilt == 0 <==> Idle(tools, ts[..i], start, force)
        invariant force ==> rebuilt == i
      {
        RunOkExtend(tools, ts, i, start, force);
        IdleExtend(tools, ts, i, start, force);
        ghost var there := Now();
        var one, again := BuildTarget(tools, ts[i], force);
        if force { ForcedIsNeeded(tools, ts[i], there); }
        if !one {
          FailedStep(tools, ts[i], Run(tools, ts[..i], start, force), force);
          CompiledStops(tools, ts, i, start, force);
          return false, rebuilt;
        }
        if again {
          rebuilt := rebuilt + 1;
        }
      }
      assert ts[..|ts|] == ts;
    }

    // The test links: a failed one is remembered, and the others go on.
    method LinkAll(tools: Toolchain, ts: seq<Target>, force: bool) returns (ok: bool, rebuilt: nat)
      requires forall t :: t in ts && tools.objects(t.cmd).Some? ==> Present(tools.objects(t.cmd).value, files)
      modifies this
      ensures ok == RunOk(tools, ts, old(Now()), force)
      ensures Now() == Run(tools, ts, old(Now()), force) && (rebuilt == 0 <==> Idle(tools, ts, old(Now()), force))
      ensures force ==> rebuilt == |ts|
    {
      hide Step, StepOk, NeedsBuild, Idle, RunOk;
      ghost var start := Now();
      NothingYet(tools, start, force);
      ok, rebuilt := true, 0;
      assert ts[..0] == [];
      for i := 0 to |ts|
        invariant Now() == Run(tools, ts[..i], start, force) && ok == RunOk(tools, ts[..i], start, force)
        invariant files.Keys >= old(files.Keys)
        invariant rebuilt == 0 <==> Idle(tools, ts[..i], start, force)
        invariant force ==> rebuilt == i
      {
        RunOkExtend(tools, ts, i, start, force);
        IdleExtend(tools, ts, i, start, force);
        assert ts[i] in ts;
        ghost var there := Now();
        var one, again := BuildTarget(tools, ts[i], force);
        if force { ForcedIsNeeded(tools, ts[i], there); }
        ok := ok && one;
        if again {
          rebuilt := rebuilt + 1;
        }
      }
      assert ts[..|ts|] == ts;
    }

    // The build: objects, then executables.
    method BuildAll(tools: Toolchain, plan: Plan, force: bool) returns (ok: bool, rebuilt: nat)
      requires WellFormed(tools, plan)
      modifies this
      ensures ok == BuildOk(tools, plan, old(Now()), force)
      ensures Now() == Outcome(tools, plan, old(Now()), force)
      ensures ok ==> Now() == Build(tools, plan, old(Now()), force)
      ensures Honest(tools, Outs(plan)) && AllFaithful(tools, Outs(plan), old(Now())) ==>
                AllFaithful(tools, Outs(plan), Now())
      ensures ok ==> (rebuilt == 0 <==> IdleBuild(tools, plan, old(Now()), force))
      ensures ok && force ==> rebuilt == |plan.compiles| + |plan.links|
    {
      hide Run, RunOk, Idle, Compiled, Honest, AllFaithful, Layer, Outside, Outs;
      ghost var start := Now();
      if Honest(tools, Outs(plan)) && AllFaithful(tools, Outs(plan), start) {
        OutcomeIsFaithful(tools, plan, start, force, Outs(plan));
      }
      var more;
      ok, rebuilt := CompileAll(tools, plan.compiles, force);
      if !ok {
        return;
      }
      ObjectsThere(tools, plan, start, force);
      ok, more := LinkAll(tools, plan.links, force);
      rebuilt := rebuilt + more;
    }

    // Whatever earlier builds left, a successful build that trusts its recorded hashes rightly brings
    // every output up to date, and the build after it has nothing to do.
    method BuildTwice(tools: Toolchain, plan: Plan, force: bool) returns (ok: bool, again: bool, rebuilt: nat)
      requires WellFormed(tools, plan) && Hermetic(tools) && Honest(tools, Outs(plan)) && Complete(tools)
      requires AllFaithful(tools, Outs(plan), Now()) && Clocked(Now()) && Trusted(tools, plan, Now(), force)
      modifies this
      ensures ok == BuildOk(tools, plan, old(Now()), force)
      ensures ok ==> again && rebuilt == 0 && AllUpToDate(tools, plan, Now()) && AllFaithful(tools, Outs(plan), Now())
    {
      hide IdleBuild, Hermetic, Honest, AllFaithful, Trusted, AllUpToDate, Outs, WellFormed, Complete, Clocked, Build, BuildOk, Outcome;
      ghost var start := Now();
      ok, rebuilt := BuildAll(tools, plan, force);
      again := false;
      if ok {
        BuildIsUpToDate(tools, plan, start, force);
        ghost var e := Now();
        NothingToDo(tools, plan, start, force, e);
        again, rebuilt := BuildAll(tools, plan, false);
      }
    }
  }

  lemma RecordedKeepsFiles(tools: Toolchain, t: Target, p: Product, d: Dir, before: Files)
    ensures Recorded(tools, t, p, d, before).files == d.files
  {
    hide CurrentHash;
  }

  lemma PutTwice(m: map<Path, nat>, k: Path, a: nat, b: nat)
    ensures m[k := a] - {k} == m - {k} && m[k := a][k := b] == m[k := b]
  {
  }

  lemma DepsOf(depfiles: map<Path, string>, out: Path)
    ensures Deps(depfiles, out) == if out in depfiles then Depfile.Parse(depfiles[out]) else None
  {
  }

  // No step of the run rebuilds anything.
  predicate Idle(tools: Toolchain, ts: seq<Target>, d: Dir, force: bool) {
    forall i :: 0 <= i < |ts| ==> !NeedsBuild(tools, ts[i], Run(tools, ts[..i], d, force), force)
  }

  predicate IdleBuild(tools: Toolchain, plan: Plan, d: Dir, force: bool) {
    Idle(tools, plan.compiles, d, force) && Idle(tools, plan.links, Run(tools, plan.compiles, d, force), force)
  }

  lemma NothingYet(tools: Toolchain, d: Dir, force: bool)
    ensures Idle(tools, [], d, force) && RunOk(tools, [], d, force) && Run(tools, [], d, force) == d
  {
  }

  lemma IdleExtend(tools: Toolchain, ts: seq<Target>, i: nat, d: Dir, force: bool)
    requires i < |ts|
    ensures Idle(tools, ts[..i + 1], d, force) <==>
            Idle(tools, ts[..i], d, force) && !NeedsBuild(tools, ts[i], Run(tools, ts[..i], d, force), force)
  {
    hide Step, NeedsBuild, Run;
    var front := ts[..i + 1];
    assert front[..i] == ts[..i];
    assert forall k :: 0 <= k < i ==> front[..k] == ts[..i][..k];
    assert Idle(tools, front, d, force) ==> !NeedsBuild(tools, front[i], Run(tools, front[..i], d, force), force);
  }

  lemma NothingToDo(tools: Toolchain, plan: Plan, d: Dir, force: bool, e: Dir)
    requires Complete(tools) && Honest(tools, Outs(plan)) && WellFormed(tools, plan)
    requires Clocked(d) && AllFaithful(tools, Outs(plan), d) && BuildOk(tools, plan, d, force)
    requires e == Build(tools, plan, d, force)
    ensures BuildOk(tools, plan, e, false) && Build(tools, plan, e, false) == e
    ensures IdleBuild(tools, plan, e, false)
  {
    hide Complete, Honest, WellFormed, Clocked, AllFaithful, BuildOk, Build, Idle, Outs;
    SecondBuild(tools, plan, d, force);
    NeverNeeded(tools, plan.compiles, e);
    NeverNeeded(tools, plan.links, e);
  }

  lemma NeverNeeded(tools: Toolchain, ts: seq<Target>, d: Dir)
    requires forall t :: t in ts ==> !NeedsBuild(tools, t, d, false)
    ensures Run(tools, ts, d, false) == d && Idle(tools, ts, d, false)
  {
    hide NeedsBuild;
    RunNothing(tools, ts, d);
    forall i | 0 <= i < |ts| ensures !NeedsBuild(tools, ts[i], Run(tools, ts[..i], d, false), false) {
      RunNothing(tools, ts[..i], d);
    }
  }

  lemma FailedStep(tools: Toolchain, t: Target, d: Dir, force: bool)
    requires !StepOk(tools, t, d, force)
    ensures Step(tools, t, d, force) == d
  {
  }

  lemma StepPresent(tools: Toolchain, t: Target, d: Dir, force: bool)
    requires StepOk(tools, t, d, force)
    ensures t.out in Step(tools, t, d, force).files && Step(tools, t, d, force).files.Keys >= d.files.Keys
  {
    hide HashDiffers;
    RebuiltFiles(tools, t, d);
  }

  lemma {:induction false} RunPresent(tools: Toolchain, ts: seq<Target>, d: Dir, force: bool)
    requires RunOk(tools, ts, d, force)
    ensures forall t :: t in ts ==> t.out in Run(tools, ts, d, force).files
    decreases |ts|
  {
    hide Step, StepOk, Run, RunOk;
    if ts != [] {
      var n := |ts| - 1;
      RunStep(tools, ts, d, force);
      RunOkFront(tools, ts, d, force);
      RunPresent(tools, ts[..n], d, force);
      StepPresent(tools, ts[n], Run(tools, ts[..n], d, force), force);
      forall t | t in ts ensures t.out in Run(tools, ts, d, force).files {
        if t !in ts[..n] { assert t == ts[n]; }
      }
    }
  }

  // After the compilation every object a link names is there.
  lemma ObjectsThere(tools: Toolchain, plan: Plan, d: Dir, force: bool)
    requires WellFormed(tools, plan) && RunOk(tools, plan.compiles, d, force)
    ensures forall t :: t in plan.links && tools.objects(t.cmd).Some? ==>
              Present(tools.objects(t.cmd).value, Run(tools, plan.compiles, d, force).files)
  {
    hide Layer, Outside, Run, RunOk;
    RunPresent(tools, plan.compiles, d, force);
    forall t | t in plan.links && tools.objects(t.cmd).Some?
      ensures Present(tools.objects(t.cmd).value, Run(tools, plan.compiles, d, force).files)
    {
      var o := tools.objects(t.cmd).value;
      assert forall i :: 0 <= i < |o| ==> o[i] in o;
    }
  }
}
