// The parallel link pass over a build directory: the ring of LinkPool, with the decisions, starts and
// installations of OverlappedLinks, and the directory that BuildDriver changes in place.
module LinkDriver {
  import opened Bytes
  import opened StateHash
  import opened BuildCache
  import opened IncrementalBuild
  import opened OverlappedLinks
  import opened BuildDriver
  import LinkPool

  // The links in flight, oldest first, as the ring holds their jobs.
  ghost predicate Holds(ts: seq<Target>, results: seq<Option<Product>>, ring: seq<nat>, head: nat, jobs: seq<nat>, next: nat) {
    && |results| == |ts| && next <= |ts| && LinkPool.Rings(ring, head, jobs)
    && forall k :: 0 <= k < |jobs| ==> jobs[k] < next
  }

  ghost function Flights(ts: seq<Target>, results: seq<Option<Product>>, jobs: seq<nat>): (f: seq<Flight>)
    requires |results| == |ts| && forall k :: 0 <= k < |jobs| ==> jobs[k] < |ts|
    ensures |f| == |jobs|
  {
    seq(|jobs|, k requires 0 <= k < |jobs| => Flight(ts[jobs[k]], results[jobs[k]]))
  }

  ghost predicate ObjectsPresent(tools: Toolchain, ts: seq<Target>, files: Files) {
    forall t :: t in ts && tools.objects(t.cmd).Some? ==> Present(tools.objects(t.cmd).value, files)
  }

  // What the pass has done so far is one of the overlapped passes, and ends in s.
  ghost predicate Leads(tools: Toolchain, ts: seq<Target>, start: Dir, passes: seq<Pass>, moves: seq<Move>, force: bool, s: Pass) {
    IsPass(tools, ts, start, passes, moves, force) && passes[|moves|] == s
  }

  lemma OneMove(tools: Toolchain, ts: seq<Target>, start: Dir, passes: seq<Pass>, moves: seq<Move>, force: bool, s: Pass, move: Move)
    requires Leads(tools, ts, start, passes, moves, force, s) && Enabled(ts, s, move)
    ensures var e := Apply(tools, ts, s, move, force);
            Leads(tools, ts, start, passes + [e], moves + [move], force, e)
  {
    hide Apply, Enabled;
  }

  // Success so far: no link waited for has failed, and none in flight will.
  ghost predicate Succeeds(ok: bool, flight: seq<Flight>) { ok && forall f :: f in flight ==> f.result.Some? }

  // ----- one link -----

  // The oldest link is waited for.
  method FinishOldest(dir: BuildDir, tools: Toolchain, ts: seq<Target>, results: array<Option<Product>>, ring: array<nat>,
                      head: nat, ghost jobs: seq<nat>, ghost next: nat) returns (head': nat, linked: bool)
    requires jobs != [] && Holds(ts, results[..], ring[..], head, jobs, next) && ObjectsPresent(tools, ts, dir.files)
    modifies dir
    ensures dir.Now() == Finished(tools, Flights(ts, results[..], jobs)[0], old(dir.Now()))
    ensures linked == Flights(ts, results[..], jobs)[0].result.Some?
    ensures Holds(ts, results[..], ring[..], head', jobs[1..], next)
    ensures Flights(ts, results[..], jobs[1..]) == Flights(ts, results[..], jobs)[1..]
    ensures dir.files.Keys >= old(dir.files.Keys)
  {
    hide LinkPool.Place, LinkPool.Rings, Recorded;
    LinkPool.RingPop(ring[..], head, jobs);
    RingSize(ring[..], head, jobs);
    var i := ring[head];
    assert i == jobs[0] && ts[i] in ts;
    linked := results[i].Some?;
    if linked {
      dir.Install(tools, ts[i], results[i].value);
    }
    head' := LinkPool.Place(head, 1, ring.Length);
  }

  lemma RingSize(ring: seq<nat>, head: nat, jobs: seq<nat>)
    requires LinkPool.Rings(ring, head, jobs)
    ensures |ring| > 0 && head < |ring| && |jobs| <= |ring|
  {
  }

  // A link starts: its outcome is that of the linker on the files there are.
  method StartLink(dir: BuildDir, tools: Toolchain, ts: seq<Target>, results: array<Option<Product>>, ring: array<nat>,
                   head: nat, count: nat, i: nat, ghost jobs: seq<nat>)
    requires i < |ts| && count == |jobs| < ring.Length && Holds(ts, results[..], ring[..], head, jobs, i)
    modifies results, ring
    ensures Holds(ts, results[..], ring[..], head, jobs + [i], i + 1)
    ensures Flights(ts, results[..], jobs + [i]) ==
            Flights(ts, old(results[..]), jobs) + [Flight(ts[i], tools.run(ts[i].cmd, dir.files))]
  {
    hide LinkPool.Place, LinkPool.Rings;
    ghost var before, was := ring[..], results[..];
    RingSize(before, head, jobs);
    LinkPool.RingPush(before, head, jobs, i);
    results[i] := tools.run(ts[i].cmd, dir.files);
    ring[LinkPool.Place(head, count, ring.Length)] := i;
    assert ring[..] == before[LinkPool.Place(head, count, |before|) := i];
    assert results[..] == was[i := results[i]];
  }

  // ----- the pass -----

  // Room is made when the ring is full.
  method MakeRoom(dir: BuildDir, tools: Toolchain, ts: seq<Target>, results: array<Option<Product>>, ring: array<nat>,
                  head: nat, count: nat, ok: bool, ghost jobs: seq<nat>, ghost next: nat, ghost needed: bool, ghost start: Dir,
                  force: bool, ghost passes: seq<Pass>, ghost moves: seq<Move>)
    returns (head': nat, count': nat, ok': bool, ghost jobs': seq<nat>, ghost passes': seq<Pass>, ghost moves': seq<Move>)
    requires count == |jobs| > 0 && Holds(ts, results[..], ring[..], head, jobs, next) && ObjectsPresent(tools, ts, dir.files)
    requires Leads(tools, ts, start, passes, moves, force, Pass(next, needed, Flights(ts, results[..], jobs), dir.Now()))
    modifies dir
    ensures jobs' == jobs[1..] && count' == |jobs'| && Holds(ts, results[..], ring[..], head', jobs', next)
    ensures Leads(tools, ts, start, passes', moves', force, Pass(next, needed, Flights(ts, results[..], jobs'), dir.Now()))
    ensures Succeeds(ok', Flights(ts, results[..], jobs')) == Succeeds(ok, Flights(ts, results[..], jobs))
    ensures dir.files.Keys >= old(dir.files.Keys)
  {
    hide Holds, Leads, Flights, Finished, ObjectsPresent;
    HoldsOf(ts, results[..], ring[..], head, jobs, next);
    ghost var s := Pass(next, needed, Flights(ts, results[..], jobs), dir.Now());
    OneMove(tools, ts, start, passes, moves, force, s, Finish);
    passes', moves' := passes + [Apply(tools, ts, s, Finish, force)], moves + [Finish];
    var linked;
    head', linked := FinishOldest(dir, tools, ts, results, ring, head, jobs, next);
    count', ok', jobs' := count - 1, ok && linked, jobs[1..];
    assert s.flight == [s.flight[0]] + s.flight[1..];
  }

  lemma HoldsOf(ts: seq<Target>, results: seq<Option<Product>>, ring: seq<nat>, head: nat, jobs: seq<nat>, next: nat)
    requires Holds(ts, results, ring, head, jobs, next)
    ensures |results| == |ts| && next <= |ts| && |jobs| <= |ring| && |ring| > 0
    ensures forall k :: 0 <= k < |jobs| ==> jobs[k] < |ts|
    ensures |Flights(ts, results, jobs)| == |jobs|
  {
  }

  // Whether the links so far have succeeded or will, as those of one link after another have.
  ghost predicate SameSuccessSoFar(tools: Toolchain, ts: seq<Target>, start: Dir, force: bool, outs: set<Path>, next: nat,
                                   succeeds: bool)
    requires next <= |ts|
  {
    Hermetic(tools) && Honest(tools, outs) && Layer(tools, ts, outs) && AllFaithful(tools, outs, start) ==>
      (succeeds <==> RunOk(tools, ts[..next], start, force))
  }

  // A job found not to need its link, or one whose link starts now.
  lemma SuccessNext(tools: Toolchain, ts: seq<Target>, start: Dir, passes: seq<Pass>, moves: seq<Move>, force: bool,
                    s: Pass, outs: set<Path>, succeeds: bool, next: bool)
    requires Leads(tools, ts, start, passes, moves, force, s) && s.next < |ts|
    requires SameSuccessSoFar(tools, ts, start, force, outs, s.next, succeeds)
    requires if s.needed then next == tools.run(ts[s.next].cmd, s.d.files).Some?
             else next && !NeedsBuild(tools, ts[s.next], s.d, force)
    ensures SameSuccessSoFar(tools, ts, start, force, outs, s.next + 1, succeeds && next)
  {
    hide Hermetic, Honest, Layer, AllFaithful, NeedsBuild, RunOk, Run, IsPass;
    if Hermetic(tools) && Honest(tools, outs) && Layer(tools, ts, outs) && AllFaithful(tools, outs, start) {
      PassInStep(tools, ts, start, passes, moves, force, outs, |moves|);
      SameDecision(tools, ts, start, s, force, outs);
      RunOkExtend(tools, ts, s.next, start, force);
    }
  }

  // A job that needs its link.
  method TakeJob(dir: BuildDir, tools: Toolchain, ts: seq<Target>, results: array<Option<Product>>, ring: array<nat>,
                 head: nat, count: nat, ok: bool, i: nat, ghost jobs: seq<nat>, ghost start: Dir,
                 force: bool, ghost passes: seq<Pass>, ghost moves: seq<Move>, ghost outs: set<Path>)
    returns (head': nat, count': nat, ok': bool, ghost jobs': seq<nat>, ghost passes': seq<Pass>, ghost moves': seq<Move>)
    requires count == |jobs| && i < |ts| && Holds(ts, results[..], ring[..], head, jobs, i) && ObjectsPresent(tools, ts, dir.files)
    requires Leads(tools, ts, start, passes, moves, force, Pass(i, true, Flights(ts, results[..], jobs), dir.Now()))
    requires SameSuccessSoFar(tools, ts, start, force, outs, i, Succeeds(ok, Flights(ts, results[..], jobs)))
    modifies dir, results, ring
    ensures count' == |jobs'| && Holds(ts, results[..], ring[..], head', jobs', i + 1)
    ensures Leads(tools, ts, start, passes', moves', force, Pass(i + 1, false, Flights(ts, results[..], jobs'), dir.Now()))
    ensures SameSuccessSoFar(tools, ts, start, force, outs, i + 1, Succeeds(ok', Flights(ts, results[..], jobs')))
    ensures dir.files.Keys >= old(dir.files.Keys)
  {
    hide Holds, Leads, Flights, ObjectsPresent, IsPass, SameSuccessSoFar;
    HoldsOf(ts, results[..], ring[..], head, jobs, i);
    head', count', ok', jobs', passes', moves' := head, count, ok, jobs, passes, moves;
    if count == ring.Length {
      head', count', ok', jobs', passes', moves' :=
        MakeRoom(dir, tools, ts, results, ring, head, count, ok, jobs, i, true, start, force, passes, moves);
    }
    HoldsOf(ts, results[..], ring[..], head', jobs', i);
    ghost var s := Pass(i, true, Flights(ts, results[..], jobs'), dir.Now());
    SuccessNext(tools, ts, start, passes', moves', force, s, outs, Succeeds(ok', s.flight), tools.run(ts[i].cmd, s.d.files).Some?);
    OneMove(tools, ts, start, passes', moves', force, s, Start);
    passes', moves' := passes' + [Apply(tools, ts, s, Start, force)], moves' + [Start];
    StartLink(dir, tools, ts, results, ring, head', count', i, jobs');
    jobs', count' := jobs' + [i], count' + 1;
  }

  // One job of the registry: decided, and linked if it needs it.
  method VisitJob(dir: BuildDir, tools: Toolchain, ts: seq<Target>, results: array<Option<Product>>, ring: array<nat>,
                  head: nat, count: nat, ok: bool, i: nat, ghost jobs: seq<nat>, ghost start: Dir,
                  force: bool, ghost passes: seq<Pass>, ghost moves: seq<Move>, ghost outs: set<Path>)
    returns (head': nat, count': nat, ok': bool, ghost jobs': seq<nat>, ghost passes': seq<Pass>, ghost moves': seq<Move>)
    requires count == |jobs| && i < |ts| && Holds(ts, results[..], ring[..], head, jobs, i) && ObjectsPresent(tools, ts, dir.files)
    requires Leads(tools, ts, start, passes, moves, force, Pass(i, false, Flights(ts, results[..], jobs), dir.Now()))
    requires SameSuccessSoFar(tools, ts, start, force, outs, i, Succeeds(ok, Flights(ts, results[..], jobs)))
    modifies dir, results, ring
    ensures count' == |jobs'| && Holds(ts, results[..], ring[..], head', jobs', i + 1)
    ensures Leads(tools, ts, start, passes', moves', force, Pass(i + 1, false, Flights(ts, results[..], jobs'), dir.Now()))
    ensures SameSuccessSoFar(tools, ts, start, force, outs, i + 1, Succeeds(ok', Flights(ts, results[..], jobs')))
    ensures dir.files.Keys >= old(dir.files.Keys)
  {
    hide Holds, Leads, Flights, IsPass, SameSuccessSoFar, NeedsBuild, Succeeds;
    HoldsOf(ts, results[..], ring[..], head, jobs, i);
    ghost var s := Pass(i, false, Flights(ts, results[..], jobs), dir.Now());
    head', count', ok', jobs' := head, count, ok, jobs;
    assert ts[i] in ts;
    var needed := dir.Decide(tools, ts[i], force);
    OneMove(tools, ts, start, passes, moves, force, s, Decide);
    passes', moves' := passes + [Apply(tools, ts, s, Decide, force)], moves + [Decide];
    if needed {
      head', count', ok', jobs', passes', moves' :=
        TakeJob(dir, tools, ts, results, ring, head, count, ok, i, jobs, start, force, passes', moves', outs);
    } else {
      SuccessNext(tools, ts, start, passes, moves, force, s, outs, Succeeds(ok, s.flight), true);
      HoldsMore(ts, results[..], ring[..], head, jobs, i);
    }
  }

  lemma HoldsMore(ts: seq<Target>, results: seq<Option<Product>>, ring: seq<nat>, head: nat, jobs: seq<nat>, next: nat)
    requires Holds(ts, results, ring, head, jobs, next) && next < |ts|
    ensures Holds(ts, results, ring, head, jobs, next + 1)
  {
    hide LinkPool.Rings;
  }

  // The links still running, oldest first.
  method Drain(dir: BuildDir, tools: Toolchain, ts: seq<Target>, results: array<Option<Product>>, ring: array<nat>,
               head: nat, count: nat, ok: bool, ghost jobs: seq<nat>, ghost start: Dir, force: bool,
               ghost passes: seq<Pass>, ghost moves: seq<Move>)
    returns (ok': bool, ghost passes': seq<Pass>, ghost moves': seq<Move>)
    requires count == |jobs| && Holds(ts, results[..], ring[..], head, jobs, |ts|) && ObjectsPresent(tools, ts, dir.files)
    requires Leads(tools, ts, start, passes, moves, force, Pass(|ts|, false, Flights(ts, results[..], jobs), dir.Now()))
    modifies dir
    ensures Leads(tools, ts, start, passes', moves', force, Pass(|ts|, false, [], dir.Now()))
    ensures ok' == old(Succeeds(ok, Flights(ts, results[..], jobs)))
  {
    hide Holds, Leads, Flights, IsPass;
    var at: nat, left: nat := head, count;
    ghost var rest: seq<nat> := jobs;
    ok', passes', moves' := ok, passes, moves;
    HoldsOf(ts, results[..], ring[..], at, rest, |ts|);
    ghost var succeeds := Succeeds(ok, Flights(ts, results[..], jobs));
    while left > 0
      invariant left == |rest| && Holds(ts, results[..], ring[..], at, rest, |ts|) && results.Length == |ts|
      invariant ObjectsPresent(tools, ts, dir.files) && forall k :: 0 <= k < |rest| ==> rest[k] < |ts|
      invariant Leads(tools, ts, start, passes', moves', force, Pass(|ts|, false, Flights(ts, results[..], rest), dir.Now()))
      invariant succeeds == Succeeds(ok', Flights(ts, results[..], rest))
    {
      at, left, ok', rest, passes', moves' :=
        MakeRoom(dir, tools, ts, results, ring, at, left, ok', rest, |ts|, false, start, force, passes', moves');
      HoldsOf(ts, results[..], ring[..], at, rest, |ts|);
    }
    assert |Flights(ts, results[..], rest)| == 0;
  }

  // The links of a build, at most maxLinks at once. What is done is one of the overlapped passes, so the
  // directory and the success are those of one link after another.
  method LinkOverlapped(dir: BuildDir, tools: Toolchain, ts: seq<Target>, force: bool, maxLinks: nat, ghost outs: set<Path>)
    returns (ok: bool, ghost passes: seq<Pass>, ghost moves: seq<Move>)
    requires maxLinks > 0 && ObjectsPresent(tools, ts, dir.files)
    modifies dir
    ensures Leads(tools, ts, old(dir.Now()), passes, moves, force, Pass(|ts|, false, [], dir.Now()))
    ensures Hermetic(tools) && Honest(tools, outs) && Layer(tools, ts, outs) && AllFaithful(tools, outs, old(dir.Now())) ==>
              dir.Now() == Run(tools, ts, old(dir.Now()), force) && (ok <==> RunOk(tools, ts, old(dir.Now()), force))
  {
    hide Holds, Leads, Flights, SameSuccessSoFar, Succeeds, Hermetic, Honest, Layer, AllFaithful, Run, RunOk, IsPass;
    ghost var start := dir.Now();
    var results := new Option<Product>[|ts|](_ => None);
    var ring := new nat[maxLinks](_ => 0);
    var head: nat, count: nat := 0, 0;
    ghost var jobs: seq<nat> := [];
    ok, passes, moves := true, [Pass(0, false, [], start)], [];
    PassBegins(tools, ts, results[..], ring[..], start, force, outs);
    for i := 0 to |ts|
      invariant count == |jobs| && fresh(results) && fresh(ring) && results.Length == |ts|
      invariant Holds(ts, results[..], ring[..], head, jobs, i) && forall k :: 0 <= k < |jobs| ==> jobs[k] < |ts|
      invariant Leads(tools, ts, start, passes, moves, force, Pass(i, false, Flights(ts, results[..], jobs), dir.Now()))
      invariant SameSuccessSoFar(tools, ts, start, force, outs, i, Succeeds(ok, Flights(ts, results[..], jobs)))
      invariant dir.files.Keys >= old(dir.files.Keys)
    {
      head, count, ok, jobs, passes, moves :=
        VisitJob(dir, tools, ts, results, ring, head, count, ok, i, jobs, start, force, passes, moves, outs);
      HoldsOf(ts, results[..], ring[..], head, jobs, i + 1);
    }
    ok, passes, moves := Drain(dir, tools, ts, results, ring, head, count, ok, jobs, start, force, passes, moves);
    PassEnds(tools, ts, start, passes, moves, force, outs, dir.Now(), ok);
  }

  lemma PassEnds(tools: Toolchain, ts: seq<Target>, start: Dir, passes: seq<Pass>, moves: seq<Move>, force: bool,
                 outs: set<Path>, d: Dir, ok: bool)
    requires Leads(tools, ts, start, passes, moves, force, Pass(|ts|, false, [], d))
    requires SameSuccessSoFar(tools, ts, start, force, outs, |ts|, ok)
    ensures Hermetic(tools) && Honest(tools, outs) && Layer(tools, ts, outs) && AllFaithful(tools, outs, start) ==>
              d == Run(tools, ts, start, force) && (ok <==> RunOk(tools, ts, start, force))
  {
    hide Hermetic, Honest, Layer, AllFaithful, Run, RunOk, IsPass;
    if Hermetic(tools) && Honest(tools, outs) && Layer(tools, ts, outs) && AllFaithful(tools, outs, start) {
      OverlapIsSequential(tools, ts, start, passes, moves, force, outs);
      assert ts[..|ts|] == ts;
    }
  }

  lemma PassBegins(tools: Toolchain, ts: seq<Target>, results: seq<Option<Product>>, ring: seq<nat>, start: Dir, force: bool,
                   outs: set<Path>)
    requires |results| == |ts| && |ring| > 0
    ensures Holds(ts, results, ring, 0, [], 0) && Flights(ts, results, []) == []
    ensures Leads(tools, ts, start, [Pass(0, false, [], start)], [], force, Pass(0, false, [], start))
    ensures SameSuccessSoFar(tools, ts, start, force, outs, 0, Succeeds(true, []))
  {
    assert ts[..0] == [];
  }

  // The whole build, its links overlapped: what BuildAll says of one link after another.
  method BuildOverlapped(dir: BuildDir, tools: Toolchain, plan: Plan, force: bool, maxLinks: nat) returns (ok: bool)
    requires WellFormed(tools, plan) && maxLinks > 0
    modifies dir
    ensures Hermetic(tools) && Honest(tools, Outs(plan)) && AllFaithful(tools, Outs(plan), old(dir.Now())) ==>
              && ok == BuildOk(tools, plan, old(dir.Now()), force)
              && dir.Now() == Outcome(tools, plan, old(dir.Now()), force)
  {
    hide Run, RunOk, Idle, Compiled, Hermetic, Honest, AllFaithful, Layer, Outside, Outs, Leads;
    ghost var start := dir.Now();
    var rebuilt;
    ok, rebuilt := dir.CompileAll(tools, plan.compiles, force);
    if !ok {
      return;
    }
    ObjectsThere(tools, plan, start, force);
    if Honest(tools, Outs(plan)) && AllFaithful(tools, Outs(plan), start) {
      RunFaithful(tools, plan.compiles, start, force, Outs(plan));
    }
    ghost var passes, moves;
    ok, passes, moves := LinkOverlapped(dir, tools, plan.links, force, maxLinks, Outs(plan));
  }
}
