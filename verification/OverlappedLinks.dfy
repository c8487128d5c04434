// The links of one build overlap: each is decided and started while earlier ones still run, and the
// oldest is installed and recorded first. The directory they leave is that of one link after another.
module OverlappedLinks {
  import opened Bytes
  import opened StateHash
  import opened BuildCache
  import opened IncrementalBuild

  // A link in flight, with what the linker will have made of the files there were when it started.
  datatype Flight = Flight(t: Target, result: Option<Product>)

  // The next job, whether it has been found to need its link, the links in flight, oldest first, and
  // the directory so far.
  datatype Pass = Pass(next: nat, needed: bool, flight: seq<Flight>, d: Dir)

  // A job is decided, then started, with room made in between or not.
  datatype Move = Decide | Start | Finish

  // Waiting for a link: its output is installed and its state recorded, unless it failed.
  function Finished(tools: Toolchain, f: Flight, d: Dir): Dir {
    match f.result
    case None => d
    case Some(p) => Recorded(tools, f.t, p, Installed(f.t, p, d), d.files)
  }

  predicate Enabled(ts: seq<Target>, s: Pass, move: Move) {
    match move
    case Decide => s.next < |ts| && !s.needed
    case Start => s.next < |ts| && s.needed
    case Finish => s.flight != []
  }

  function Apply(tools: Toolchain, ts: seq<Target>, s: Pass, move: Move, force: bool): Pass
    requires Enabled(ts, s, move)
  {
    match move
    case Decide =>
      if NeedsBuild(tools, ts[s.next], s.d, force) then s.(needed := true) else s.(next := s.next + 1)
    case Start =>
      var t := ts[s.next];
      Pass(s.next + 1, false, s.flight + [Flight(t, tools.run(t.cmd, s.d.files))], s.d)
    case Finish => s.(flight := s.flight[1..], d := Finished(tools, s.flight[0], s.d))
  }

  // All links in flight finished, oldest first.
  function Drained(tools: Toolchain, flight: seq<Flight>, d: Dir): Dir {
    if flight == [] then d else Drained(tools, flight[1..], Finished(tools, flight[0], d))
  }

  lemma {:induction false} DrainedAppend(tools: Toolchain, flight: seq<Flight>, f: Flight, d: Dir)
    ensures Drained(tools, flight + [f], d) == Finished(tools, f, Drained(tools, flight, d))
    decreases |flight|
  {
    hide Finished;
    if flight == [] {
      assert [] + [f] == [f];
    } else {
      assert (flight + [f])[1..] == flight[1..] + [f];
      DrainedAppend(tools, flight[1..], f, Finished(tools, flight[0], d));
    }
  }

  lemma FinishedSame(tools: Toolchain, f: Flight, d: Dir, q: Path)
    requires q != f.t.out
    ensures SameFor(d, Finished(tools, f, d), q)
  {
    hide SameFor, Recorded, Installed;
    match f.result
    case None =>
      SameSelf(d, q);
    case Some(p) =>
      InstalledOnly(f.t, p, d, q);
      RecordedOnly(tools, f.t, p, Installed(f.t, p, d), d.files, q);
      SameTransitive(d, Installed(f.t, p, d), Finished(tools, f, d), q);
  }

  // ----- what a decision depends on -----

  lemma SameSymmetric(d: Dir, e: Dir, q: Path)
    requires SameFor(d, e, q)
    ensures SameFor(e, d, q)
  {
    hide TimeOf;
  }

  lemma FaithfulSame(tools: Toolchain, out: Path, d: Dir, e: Dir)
    requires Faithful(tools, out, d) && SameFor(d, e, out)
    ensures Faithful(tools, out, e)
  {
    hide CurrentHash, TimeOf;
  }

  // Two directories that differ only in outputs a target neither is nor reads decide it alike.
  lemma NeedsBuildSame(tools: Toolchain, u: Target, d: Dir, e: Dir, force: bool, outs: set<Path>)
    requires Honest(tools, outs) && Faithful(tools, u.out, d) && SameFor(d, e, u.out)
    requires forall q :: MayRead(tools, u.cmd, outs, q) ==> SameFor(d, e, q)
    ensures NeedsBuild(tools, u, d, force) <==> NeedsBuild(tools, u, e, force)
  {
    HashDiffersSame(tools, u, d, e, outs);
    hide Faithful, Honest, HashDiffers;
    if tools.objects(u.cmd).Some? {
      var objects := tools.objects(u.cmd).value;
      forall i | 0 <= i < |objects| ensures TimeOf(d, objects[i]) == TimeOf(e, objects[i]) {
        assert MayRead(tools, u.cmd, outs, objects[i]);
        assert SameFor(d, e, objects[i]);
      }
    }
  }

  lemma HashDiffersSame(tools: Toolchain, u: Target, d: Dir, e: Dir, outs: set<Path>)
    requires Honest(tools, outs) && Faithful(tools, u.out, d) && SameFor(d, e, u.out)
    requires forall q :: MayRead(tools, u.cmd, outs, q) ==> SameFor(d, e, q)
    ensures HashDiffers(tools, u, d) <==> HashDiffers(tools, u, e)
  {
    hide CurrentHash, TimeOf;
    var deps := Deps(d.depfiles, u.out);
    assert deps == Deps(e.depfiles, u.out);
    if u.out in d.hashes {
      DepsAreSources(tools, u.out, d, outs);
      hide Faithful, Honest, Deps;
      if deps.Some? {
        forall q | q in deps.value ensures (q in d.files <==> q in e.files) && (q in d.files ==> d.files[q] == e.files[q]) {
          assert MayRead(tools, u.cmd, outs, q);
          assert SameFor(d, e, q);
        }
      }
      if tools.objects(u.cmd).Some? {
        forall q | q in tools.objects(u.cmd).value
          ensures (q in d.files <==> q in e.files) && (q in d.files ==> d.files[q] == e.files[q]) {
          assert MayRead(tools, u.cmd, outs, q);
          assert SameFor(d, e, q);
        }
      }
      SameHash(tools, u.cmd, deps, d.files, e.files);
    }
  }

  lemma SameResult(tools: Toolchain, u: Target, d: Dir, e: Dir, outs: set<Path>)
    requires Hermetic(tools) && Honest(tools, outs)
    requires forall q :: MayRead(tools, u.cmd, outs, q) ==> SameFor(d, e, q)
    ensures tools.run(u.cmd, d.files) == tools.run(u.cmd, e.files)
  {
    hide Hermetic, Honest, MayRead, TimeOf;
    OneWayRun(tools, u.cmd, d.files, e.files, outs);
    OneWayRun(tools, u.cmd, e.files, d.files, outs);
  }

  // ----- the pass -----

  // Finishing what is in flight gives the directory of the links decided so far, one after another;
  // outputs not decided yet are as at the start.
  ghost predicate InStep(tools: Toolchain, ts: seq<Target>, start: Dir, s: Pass, force: bool) {
    && s.next <= |ts|
    && (s.needed ==> s.next < |ts| && NeedsBuild(tools, ts[s.next], Run(tools, ts[..s.next], start, force), force))
    && Drained(tools, s.flight, s.d) == Run(tools, ts[..s.next], start, force)
    && (forall f :: f in s.flight ==> f.t in ts[..s.next])
    && (forall q :: q !in OutsOf(ts[..s.next]) ==> SameFor(start, s.d, q))
  }

  lemma DecideKeeps(tools: Toolchain, ts: seq<Target>, start: Dir, s: Pass, force: bool, outs: set<Path>)
    requires Hermetic(tools) && Honest(tools, outs) && Layer(tools, ts, outs) && AllFaithful(tools, outs, start)
    requires InStep(tools, ts, start, s, force) && Enabled(ts, s, Decide)
    ensures InStep(tools, ts, start, Apply(tools, ts, s, Decide, force), force)
  {
    hide Hermetic, Honest, Layer, AllFaithful, SameFor, NeedsBuild, Run, Finished, OutsOf;
    SameDecision(tools, ts, start, s, force, outs);
    OneMoreStep(tools, ts, s.next, start, force);
    forall q | q !in OutsOf(ts[..s.next + 1]) ensures SameFor(start, s.d, q) {
      MoreOuts(ts[..s.next], ts[s.next], q);
    }
  }

  lemma StartKeeps(tools: Toolchain, ts: seq<Target>, start: Dir, s: Pass, force: bool, outs: set<Path>)
    requires Hermetic(tools) && Honest(tools, outs) && Layer(tools, ts, outs) && AllFaithful(tools, outs, start)
    requires InStep(tools, ts, start, s, force) && Enabled(ts, s, Start)
    ensures InStep(tools, ts, start, Apply(tools, ts, s, Start, force), force)
  {
    hide Hermetic, Honest, Layer, AllFaithful, SameFor, NeedsBuild, Run, Finished, OutsOf;
    var t := ts[s.next];
    SameDecision(tools, ts, start, s, force, outs);
    OneMoreStep(tools, ts, s.next, start, force);
    DrainedAppend(tools, s.flight, Flight(t, tools.run(t.cmd, s.d.files)), s.d);
    forall q | q !in OutsOf(ts[..s.next + 1]) ensures SameFor(start, s.d, q) {
      MoreOuts(ts[..s.next], t, q);
    }
  }

  lemma OneMoreStep(tools: Toolchain, ts: seq<Target>, i: nat, start: Dir, force: bool)
    requires i < |ts|
    ensures ts[..i + 1] == ts[..i] + [ts[i]]
    ensures var t, there := ts[i], Run(tools, ts[..i], start, force);
            Run(tools, ts[..i + 1], start, force) ==
            if NeedsBuild(tools, t, there, force) then Finished(tools, Flight(t, tools.run(t.cmd, there.files)), there)
            else there
  {
    hide NeedsBuild, Finished, Step, Run;
    assert ts[..i + 1][..i] == ts[..i];
    RunStep(tools, ts[..i + 1], start, force);
    StepIs(tools, ts[i], Run(tools, ts[..i], start, force), force);
  }

  lemma MoreOuts(front: seq<Target>, t: Target, q: Path)
    ensures q in OutsOf(front + [t]) <==> q in OutsOf(front) || q == t.out
  {
    assert forall u :: u in front + [t] <==> u in front || u == t;
    if q == t.out { assert t in front + [t]; }
  }

  lemma StepIs(tools: Toolchain, t: Target, d: Dir, force: bool)
    ensures Step(tools, t, d, force) ==
            if NeedsBuild(tools, t, d, force) then Finished(tools, Flight(t, tools.run(t.cmd, d.files)), d) else d
  {
    hide NeedsBuild, Recorded;
  }

  // The directory so far and the one of the links decided so far give the next job the same decision
  // and the same result.
  lemma SameDecision(tools: Toolchain, ts: seq<Target>, start: Dir, s: Pass, force: bool, outs: set<Path>)
    requires Hermetic(tools) && Honest(tools, outs) && Layer(tools, ts, outs) && AllFaithful(tools, outs, start)
    requires InStep(tools, ts, start, s, force) && s.next < |ts|
    ensures var t, there := ts[s.next], Run(tools, ts[..s.next], start, force);
            && (NeedsBuild(tools, t, s.d, force) <==> NeedsBuild(tools, t, there, force))
            && tools.run(t.cmd, s.d.files) == tools.run(t.cmd, there.files)
  {
    hide Hermetic, Honest, Faithful, SameFor, NeedsBuild, Run, Finished, Drained;
    var i := s.next;
    var t, there := ts[i], Run(tools, ts[..i], start, force);
    LayerPrefix(tools, ts, i, outs);
    forall q | q == t.out || MayRead(tools, t.cmd, outs, q) ensures SameFor(start, s.d, q) && SameFor(s.d, there, q) {
      NotDecided(tools, ts, i, outs, q);
      RunSame(tools, ts[..i], start, force, q);
      SameSymmetric(start, s.d, q);
      SameTransitive(s.d, start, there, q);
    }
    FaithfulSame(tools, t.out, start, s.d);
    NeedsBuildSame(tools, t, s.d, there, force, outs);
    SameResult(tools, t, s.d, there, outs);
  }

  // What a job is and reads is none of the outputs decided before it.
  lemma NotDecided(tools: Toolchain, ts: seq<Target>, i: nat, outs: set<Path>, q: Path)
    requires Layer(tools, ts, outs) && i < |ts| && (q == ts[i].out || MayRead(tools, ts[i].cmd, outs, q))
    ensures q !in OutsOf(ts[..i]) && forall t :: t in ts[..i] ==> t.out != q
  {
    forall t | t in ts[..i] ensures t.out != q {
      var k :| 0 <= k < i && ts[k] == t;
      assert Apart(tools, ts[k], outs) && Unrelated(tools, ts[i], ts[k]);
    }
  }

  lemma FinishKeeps(tools: Toolchain, ts: seq<Target>, start: Dir, s: Pass, force: bool)
    requires InStep(tools, ts, start, s, force) && s.flight != []
    ensures InStep(tools, ts, start, Apply(tools, ts, s, Finish, force), force)
  {
    hide SameFor, Run, Finished;
    var f, s' := s.flight[0], Apply(tools, ts, s, Finish, force);
    assert f in s.flight;
    forall g | g in s'.flight ensures g in s.flight {
    }
    forall q | q !in OutsOf(ts[..s.next]) ensures SameFor(start, s'.d, q) {
      assert f.t.out in OutsOf(ts[..s.next]);
      FinishedSame(tools, f, s.d, q);
      SameTransitive(start, s.d, s'.d, q);
    }
  }

  // Any order of decisions, starts and finishes, with each job decided once in registry order.
  ghost predicate IsPass(tools: Toolchain, ts: seq<Target>, start: Dir, passes: seq<Pass>, moves: seq<Move>, force: bool) {
    && |passes| == |moves| + 1 && passes[0] == Pass(0, false, [], start)
    && forall i :: 0 <= i < |moves| ==>
         Enabled(ts, passes[i], moves[i]) && passes[i + 1] == Apply(tools, ts, passes[i], moves[i], force)
  }

  lemma {:induction false} PassInStep(tools: Toolchain, ts: seq<Target>, start: Dir, passes: seq<Pass>, moves: seq<Move>,
                                      force: bool, outs: set<Path>, i: nat)
    requires Hermetic(tools) && Honest(tools, outs) && Layer(tools, ts, outs) && AllFaithful(tools, outs, start)
    requires IsPass(tools, ts, start, passes, moves, force) && i <= |moves|
    ensures InStep(tools, ts, start, passes[i], force)
  {
    hide Hermetic, Honest, Layer, AllFaithful, Apply;
    if i == 0 {
      PassStart(tools, ts, start, force);
    } else {
      PassInStep(tools, ts, start, passes, moves, force, outs, i - 1);
      hide InStep;
      assert Enabled(ts, passes[i - 1], moves[i - 1]);
      match moves[i - 1]
      case Decide => DecideKeeps(tools, ts, start, passes[i - 1], force, outs);
      case Start => StartKeeps(tools, ts, start, passes[i - 1], force, outs);
      case Finish => FinishKeeps(tools, ts, start, passes[i - 1], force);
    }
  }

  lemma PassStart(tools: Toolchain, ts: seq<Target>, start: Dir, force: bool)
    ensures InStep(tools, ts, start, Pass(0, false, [], start), force)
  {
    hide SameFor;
    assert ts[..0] == [];
    forall q ensures SameFor(start, start, q) {
      SameSelf(start, q);
    }
  }

  // However the links overlapped, once all are decided and finished the directory is that of one link
  // after another.
  lemma OverlapIsSequential(tools: Toolchain, ts: seq<Target>, start: Dir, passes: seq<Pass>, moves: seq<Move>,
                            force: bool, outs: set<Path>)
    requires Hermetic(tools) && Honest(tools, outs) && Layer(tools, ts, outs) && AllFaithful(tools, outs, start)
    requires IsPass(tools, ts, start, passes, moves, force)
    requires passes[|moves|].next == |ts| && passes[|moves|].flight == []
    ensures passes[|moves|].d == Run(tools, ts, start, force)
  {
    hide Hermetic, Honest, Layer, AllFaithful, Apply, Run;
    PassInStep(tools, ts, start, passes, moves, force, outs, |moves|);
    assert ts[..|ts|] == ts;
  }
}
