// The parallel link pass of the build driver: as many links at once as there are CPUs, the
// oldest waited for first, through a ring of job indices.
module LinkPool {
  import opened Powers
  import opened Processes

  datatype LinkJob = LinkJob(
    shouldLink: bool, running: bool, linkFailed: bool, installFailed: bool,
    recorded: bool,      // installed, and its state recorded for the next build
    proc: Pid)

  // What the driver finds out about each job's files.
  datatype Files = Files(inspectable: nat -> bool, needed: nat -> bool, installs: nat -> bool)

  const FRESH: LinkJob := LinkJob(false, false, false, false, false, 0)

  // The first job whose inputs cannot be inspected, where the pass stops.
  function Stop(files: Files, i: nat, n: nat): (s: nat)
    requires i <= n
    ensures i <= s <= n && (s < n ==> !files.inspectable(s))
    ensures forall k :: i <= k < s ==> files.inspectable(k)
    decreases n - i
  {
    if i == n || !files.inspectable(i) then i else Stop(files, i + 1, n)
  }

  predicate Starts(files: Files, os: System, i: nat) { files.needed(i) && os.spawns(i) }

  // The jobs below n whose link is started, in registry order.
  function Links(files: Files, os: System, n: nat): seq<nat> {
    if n == 0 then []
    else Links(files, os, n - 1) + if Starts(files, os, n - 1) then [n - 1] else []
  }

  // Every link that can be started, once.
  lemma {:induction false} LinksMeaning(files: Files, os: System, n: nat)
    ensures forall i: nat :: i in Links(files, os, n) <==> i < n && Starts(files, os, i)
    ensures forall a, b :: 0 <= a < b < |Links(files, os, n)| ==> Links(files, os, n)[a] < Links(files, os, n)[b]
  {
    hide Starts;
    if n > 0 {
      LinksMeaning(files, os, n - 1);
      var front := Links(files, os, n - 1);
      assert forall a :: 0 <= a < |front| ==> front[a] in front;
    }
  }

  // The job is over, and its flags tell how each of its stages went.
  predicate Settled(j: LinkJob, files: Files, os: System, i: nat) {
    && !j.running && j.shouldLink == files.needed(i)
    && j.linkFailed == (files.needed(i) && !(os.spawns(i) && os.exits(i)))
    && j.installFailed == (Starts(files, os, i) && os.exits(i) && !files.installs(i))
    && j.recorded == (Starts(files, os, i) && os.exits(i) && files.installs(i))
  }

  // The link runs in a live process of its own.
  predicate Pending(j: LinkJob, files: Files, os: System, live: map<Pid, nat>, i: nat) {
    && j == LinkJob(true, true, false, false, false, j.proc) && Starts(files, os, i)
    && j.proc in live && live[j.proc] == i
  }

  // finish_test_link
  method FinishTestLink(jobs: array<LinkJob>, i: nat, files: Files, os: System)
    requires i < jobs.Length && os.Valid() && Pending(jobs[i], files, os, os.live, i)
    modifies jobs, os
    ensures os.Valid() && Settled(jobs[i], files, os, i)
    ensures forall k :: 0 <= k < jobs.Length && k != i ==> jobs[k] == old(jobs[k])
    ensures os.live == old(os.live) - {old(jobs[i]).proc} && |os.live| == |old(os.live)| - 1
    ensures os.waited == old(os.waited) + [i] && os.started == old(os.started)
  {
    if !jobs[i].running {
      return;
    }
    jobs[i] := jobs[i].(running := false);
    var ok := os.Wait(jobs[i].proc);
    if !ok {
      jobs[i] := jobs[i].(linkFailed := true);
      return;
    }
    if !files.installs(i) {
      jobs[i] := jobs[i].(installFailed := true);
      return;
    }
    jobs[i] := jobs[i].(recorded := true);
  }

  // The ring place k after head.
  function Place(head: nat, k: nat, m: nat): (p: nat)
    requires m > 0
    ensures p < m
  {
    (head + k) % m
  }

  lemma PlaceIs(head: nat, k: nat, m: nat)
    requires head < m && k < m
    ensures Place(head, k, m) == if head + k < m then head + k else head + k - m
  {
    if head + k >= m {
      Quotient(head + k, m, 1, head + k - m);
    } else {
      Quotient(head + k, m, 0, head + k);
    }
  }

  // The jobs in flight, oldest first, as the ring holds them.
  ghost predicate Rings(ring: seq<nat>, head: nat, flight: seq<nat>) {
    && |ring| > 0 && head < |ring| && |flight| <= |ring|
    && forall k :: 0 <= k < |flight| ==> ring[Place(head, k, |ring|)] == flight[k]
  }

  lemma RingPop(ring: seq<nat>, head: nat, flight: seq<nat>)
    requires Rings(ring, head, flight) && flight != []
    ensures ring[head] == flight[0] && Rings(ring, Place(head, 1, |ring|), flight[1..])
  {
    hide Place;
    var m := |ring|;
    PlaceIs(head, 0, m);
    assert ring[Place(head, 0, m)] == flight[0];
    NextPlace(head, m);
    var rest := flight[1..];
    forall k | 0 <= k < |rest|
      ensures ring[Place(Place(head, 1, m), k, m)] == rest[k]
    {
      PlaceIs(Place(head, 1, m), k, m);
      PlaceIs(head, k + 1, m);
      assert ring[Place(head, k + 1, m)] == flight[k + 1];
    }
  }

  lemma NextPlace(head: nat, m: nat)
    requires head < m
    ensures Place(head, 1, m) == if head + 1 == m then 0 else head + 1
  {
    if m > 1 { PlaceIs(head, 1, m); }
  }

  lemma RingPush(ring: seq<nat>, head: nat, flight: seq<nat>, i: nat)
    requires Rings(ring, head, flight) && |flight| < |ring|
    ensures Rings(ring[Place(head, |flight|, |ring|) := i], head, flight + [i])
  {
    hide Place;
    var m, n := |ring|, |flight|;
    PlaceIs(head, n, m);
    var ring', flight' := ring[Place(head, n, m) := i], flight + [i];
    forall k | 0 <= k < |flight'|
      ensures ring'[Place(head, k, m)] == flight'[k]
    {
      PlaceIs(head, k, m);
    }
  }

  // ----- the pass -----

  // What is true of the jobs below i, with these links in flight.
  ghost predicate PassedUpTo(jobs: seq<LinkJob>, files: Files, os: System, live: map<Pid, nat>, i: nat, flight: seq<nat>) {
    && i <= |jobs|
    && (forall k :: 0 <= k < |flight| ==> flight[k] < i && Pending(jobs[flight[k]], files, os, live, flight[k]))
    && (forall k, l :: 0 <= k < l < |flight| ==> flight[k] < flight[l])
    && (forall j :: 0 <= j < i && j !in flight ==> Settled(jobs[j], files, os, j))
    && (forall j :: i <= j < |jobs| ==> jobs[j] == FRESH)
  }

  lemma Finished(jobs: seq<LinkJob>, files: Files, os: System, live: map<Pid, nat>, i: nat, flight: seq<nat>, j: LinkJob)
    requires PassedUpTo(jobs, files, os, live, i, flight) && flight != [] && Settled(j, files, os, flight[0])
    ensures PassedUpTo(jobs[flight[0] := j], files, os, live - {jobs[flight[0]].proc}, i, flight[1..])
  {
    hide Settled, Starts;
    var first, rest := flight[0], flight[1..];
    var jobs', live' := jobs[first := j], live - {jobs[first].proc};
    forall k | 0 <= k < |rest|
      ensures rest[k] < i && Pending(jobs'[rest[k]], files, os, live', rest[k])
    {
      assert rest[k] == flight[k + 1] && flight[0] < flight[k + 1];
    }
    forall l | 0 <= l < i && l !in rest
      ensures Settled(jobs'[l], files, os, l)
    {
      assert flight == [first] + rest;
    }
  }

  lemma Started(jobs: seq<LinkJob>, files: Files, os: System, live: map<Pid, nat>, i: nat, flight: seq<nat>, p: Pid)
    requires PassedUpTo(jobs, files, os, live, i, flight) && i < |jobs| && Starts(files, os, i) && p !in live
    ensures PassedUpTo(jobs[i := LinkJob(true, true, false, false, false, p)], files, os, live[p := i], i + 1, flight + [i])
  {
    hide Settled, Starts;
  }

  lemma Passed(jobs: seq<LinkJob>, files: Files, os: System, live: map<Pid, nat>, i: nat, flight: seq<nat>, j: LinkJob)
    requires PassedUpTo(jobs, files, os, live, i, flight) && i < |jobs| && Settled(j, files, os, i)
    ensures PassedUpTo(jobs[i := j], files, os, live, i + 1, flight)
  {
    hide Settled, Starts;
  }

  // The whole pool, with the traces of the processes: every link started is in flight or waited for.
  ghost predicate Pool(jobs: seq<LinkJob>, ring: seq<nat>, head: nat, files: Files, os: System, live: map<Pid, nat>,
                       started: seq<nat>, waited: seq<nat>, i: nat, flight: seq<nat>) {
    && Rings(ring, head, flight) && PassedUpTo(jobs, files, os, live, i, flight)
    && started == waited + flight && started == Links(files, os, i) && |live| == |flight|
  }

  lemma PoolStart(jobs: seq<LinkJob>, ring: seq<nat>, files: Files, os: System)
    requires |ring| > 0 && forall j :: 0 <= j < |jobs| ==> jobs[j] == FRESH
    ensures Pool(jobs, ring, 0, files, os, map[], [], [], 0, [])
  {
  }

  // The oldest link in flight, and the pool after it was waited for.
  lemma PoolOldest(jobs: seq<LinkJob>, ring: seq<nat>, head: nat, files: Files, os: System, live: map<Pid, nat>,
                   started: seq<nat>, waited: seq<nat>, i: nat, flight: seq<nat>)
    requires Pool(jobs, ring, head, files, os, live, started, waited, i, flight) && flight != []
    ensures head < |ring| && ring[head] == flight[0] < |jobs| && Pending(jobs[flight[0]], files, os, live, flight[0])
  {
    RingPop(ring, head, flight);
  }

  lemma PoolPop(jobs: seq<LinkJob>, ring: seq<nat>, head: nat, files: Files, os: System, live: map<Pid, nat>,
                started: seq<nat>, waited: seq<nat>, i: nat, flight: seq<nat>, j: LinkJob)
    requires Pool(jobs, ring, head, files, os, live, started, waited, i, flight) && flight != []
    requires flight[0] < |jobs| && Settled(j, files, os, flight[0])
    requires var live' := live - {jobs[flight[0]].proc}; |live'| == |live| - 1
    ensures |ring| > 0
    ensures Pool(jobs[flight[0] := j], ring, Place(head, 1, |ring|), files, os, live - {jobs[flight[0]].proc},
                 started, waited + [flight[0]], i, flight[1..])
  {
    hide Rings, PassedUpTo, Settled, Links, Place;
    RingPop(ring, head, flight);
    RingHead(ring, head, flight);
    Finished(jobs, files, os, live, i, flight, j);
    assert flight == [flight[0]] + flight[1..];
  }

  lemma RingHead(ring: seq<nat>, head: nat, flight: seq<nat>)
    requires Rings(ring, head, flight)
    ensures |ring| > 0 && head < |ring| && |flight| <= |ring|
  {
  }

  lemma PoolPush(jobs: seq<LinkJob>, ring: seq<nat>, head: nat, files: Files, os: System, live: map<Pid, nat>,
                 started: seq<nat>, waited: seq<nat>, i: nat, flight: seq<nat>, p: Pid)
    requires Pool(jobs, ring, head, files, os, live, started, waited, i, flight) && |flight| < |ring| && i < |jobs|
    requires Starts(files, os, i) && p !in live && |live[p := i]| == |live| + 1
    ensures Pool(jobs[i := LinkJob(true, true, false, false, false, p)], ring[Place(head, |flight|, |ring|) := i], head,
                 files, os, live[p := i], started + [i], waited, i + 1, flight + [i])
  {
    hide Rings, PassedUpTo, Starts, Place;
    RingPush(ring, head, flight, i);
    Started(jobs, files, os, live, i, flight, p);
    assert waited + (flight + [i]) == (waited + flight) + [i];
  }

  // A job that starts no process: it needs no link, or none could be started.
  lemma PoolPass(jobs: seq<LinkJob>, ring: seq<nat>, head: nat, files: Files, os: System, live: map<Pid, nat>,
                 started: seq<nat>, waited: seq<nat>, i: nat, flight: seq<nat>)
    requires Pool(jobs, ring, head, files, os, live, started, waited, i, flight) && i < |jobs|
    requires !Starts(files, os, i)
    ensures jobs[i] == FRESH
    ensures var j := if files.needed(i) then FRESH.(shouldLink := true, linkFailed := true) else FRESH;
            Pool(jobs[i := j], ring, head, files, os, live, started, waited, i + 1, flight)
  {
    var j := if files.needed(i) then FRESH.(shouldLink := true, linkFailed := true) else FRESH;
    Passed(jobs, files, os, live, i, flight, j);
  }

  lemma PoolEnd(jobs: seq<LinkJob>, ring: seq<nat>, head: nat, files: Files, os: System, live: map<Pid, nat>,
                started: seq<nat>, waited: seq<nat>, i: nat)
    requires Pool(jobs, ring, head, files, os, live, started, waited, i, [])
    ensures i <= |jobs| && live == map[] && started == waited == Links(files, os, i)
    ensures forall j :: 0 <= j < i ==> Settled(jobs[j], files, os, j)
    ensures forall j :: i <= j < |jobs| ==> jobs[j] == FRESH
  {
    assert live.Keys == {};
  }

  lemma PoolSize(jobs: seq<LinkJob>, ring: seq<nat>, head: nat, files: Files, os: System, live: map<Pid, nat>,
                 started: seq<nat>, waited: seq<nat>, i: nat, flight: seq<nat>)
    requires Pool(jobs, ring, head, files, os, live, started, waited, i, flight)
    ensures |live| == |flight| <= |ring| && (i < |jobs| ==> jobs[i] == FRESH)
  {
  }

  // Waiting for the oldest link.
  method FinishOldest(jobs: array<LinkJob>, ring: array<nat>, head: nat, files: Files, os: System,
                      ghost i: nat, ghost flight: seq<nat>) returns (head': nat)
    requires os.Valid() && flight != []
    requires Pool(jobs[..], ring[..], head, files, os, os.live, os.started, os.waited, i, flight)
    modifies jobs, os
    ensures os.Valid()
    ensures Pool(jobs[..], ring[..], head', files, os, os.live, os.started, os.waited, i, flight[1..])
  {
    hide Settled, Pool, Pending, Place, Ends;
    ghost var before, live, started, waited, first := jobs[..], os.live, os.started, os.waited, flight[0];
    PoolOldest(before, ring[..], head, files, os, live, started, waited, i, flight);
    FinishTestLink(jobs, ring[head], files, os);
    assert jobs[..] == before[first := jobs[first]];
    PoolPop(before, ring[..], head, files, os, live, started, waited, i, flight, jobs[first]);
    head' := Place(head, 1, ring.Length);
  }

  // The link of job i, in a process of its own if one can be started.
  method StartLink(jobs: array<LinkJob>, ring: array<nat>, head: nat, count: nat, i: nat, files: Files, os: System,
                   ghost flight: seq<nat>) returns (started: bool)
    requires os.Valid() && |os.live| < os.limit && i < jobs.Length && files.needed(i) && count == |flight| < ring.Length
    requires Pool(jobs[..], ring[..], head, files, os, os.live, os.started, os.waited, i, flight)
    modifies jobs, ring, os
    ensures os.Valid()
    ensures Pool(jobs[..], ring[..], head, files, os, os.live, os.started, os.waited, i + 1,
                 if started then flight + [i] else flight)
  {
    hide Pool, Place, Ends;
    ghost var before, rings, live, begun, waited := jobs[..], ring[..], os.live, os.started, os.waited;
    if !Starts(files, os, i) {
      PoolPass(before, rings, head, files, os, live, begun, waited, i, flight);
    }
    PoolSize(before, rings, head, files, os, live, begun, waited, i, flight);
    jobs[i] := jobs[i].(shouldLink := true);
    var p := os.Spawn(i);
    started := p.Some?;
    if started {
      jobs[i] := jobs[i].(proc := p.value, running := true);
      ring[Place(head, count, ring.Length)] := i;
      assert jobs[..] == before[i := LinkJob(true, true, false, false, false, p.value)];
      assert ring[..] == rings[Place(head, count, |rings|) := i];
      PoolPush(before, rings, head, files, os, live, begun, waited, i, flight, p.value);
    } else {
      jobs[i] := jobs[i].(linkFailed := true);
      assert jobs[..] == before[i := FRESH.(shouldLink := true, linkFailed := true)];
    }
  }

  lemma StopStep(files: Files, i: nat, n: nat)
    requires i < n
    ensures files.inspectable(i) ==> Stop(files, i, n) == Stop(files, i + 1, n)
    ensures !files.inspectable(i) ==> Stop(files, i, n) == i
  {
  }

  lemma StopEnd(files: Files, i: nat, n: nat)
    requires i <= n && (i < n ==> !files.inspectable(i))
    ensures Stop(files, i, n) == i
  {
  }

  // One inspected job: linked if it needs it, after the oldest link when all places are taken.
  method VisitLink(jobs: array<LinkJob>, ring: array<nat>, head: nat, count: nat, i: nat, files: Files, os: System,
                   ghost flight: seq<nat>) returns (head': nat, count': nat, ghost flight': seq<nat>)
    requires os.Valid() && ring.Length == os.limit > 0 && i < jobs.Length && count == |flight|
    requires Pool(jobs[..], ring[..], head, files, os, os.live, os.started, os.waited, i, flight)
    modifies jobs, ring, os
    ensures os.Valid() && count' == |flight'|
    ensures Pool(jobs[..], ring[..], head', files, os, os.live, os.started, os.waited, i + 1, flight')
  {
    hide Pool, Place, Ends;
    head', count', flight' := head, count, flight;
    if files.needed(i) {
      PoolSize(jobs[..], ring[..], head', files, os, os.live, os.started, os.waited, i, flight');
      if count' == ring.Length {
        head' := FinishOldest(jobs, ring, head', files, os, i, flight');
        flight' := flight'[1..];
        count' := count' - 1;
      }
      PoolSize(jobs[..], ring[..], head', files, os, os.live, os.started, os.waited, i, flight');
      var started := StartLink(jobs, ring, head', count', i, files, os, flight');
      if started {
        flight' := flight' + [i];
        count' := count' + 1;
      }
    } else {
      PoolPass(jobs[..], ring[..], head', files, os, os.live, os.started, os.waited, i, flight');
      assert jobs[..][i := FRESH] == jobs[..];
    }
  }

  method LinkTests(jobs: array<LinkJob>, cpus: int, files: Files, os: System) returns (spawnFailed: bool)
    requires forall j :: 0 <= j < jobs.Length ==> jobs[j] == FRESH
    requires os.Valid() && os.live == map[] && os.started == os.waited == []
    requires os.limit == if cpus < 1 then 1 else cpus
    modifies jobs, os
    ensures var stop := Stop(files, 0, jobs.Length);
            && (spawnFailed <==> stop < jobs.Length)
            && (forall j :: 0 <= j < stop ==>
                  var link, good := files.needed(j), files.needed(j) && os.spawns(j) && os.exits(j);
                  && !jobs[j].running && jobs[j].shouldLink == link && jobs[j].linkFailed == (link && !good)
                  && jobs[j].installFailed == (good && !files.installs(j)) && jobs[j].recorded == (good && files.installs(j)))
            && (forall j :: stop <= j < jobs.Length ==> jobs[j] == FRESH)
            && os.started == os.waited == Links(files, os, stop)
    ensures os.live == map[]
  {
    hide Pool, Settled, Stop, Place, Ends;
    var maxLinks := if cpus < 1 then 1 else cpus;
    var ring := new nat[maxLinks](_ => 0);
    var head: nat, count: nat := 0, 0;
    ghost var flight: seq<nat> := [];
    spawnFailed := false;
    var i: nat := 0;
    PoolStart(jobs[..], ring[..], files, os);
    while i < jobs.Length
      invariant i <= jobs.Length && fresh(ring) && os.Valid() && count == |flight|
      invariant Pool(jobs[..], ring[..], head, files, os, os.live, os.started, os.waited, i, flight)
      invariant Stop(files, 0, jobs.Length) == Stop(files, i, jobs.Length)
    {
      StopStep(files, i, jobs.Length);
      if !files.inspectable(i) {
        spawnFailed := true;
        break;
      }
      head, count, flight := VisitLink(jobs, ring, head, count, i, files, os, flight);
      i := i + 1;
    }
    ghost var stop := i;
    StopEnd(files, stop, jobs.Length);
    DrainLinks(jobs, ring, head, count, files, os, stop, flight);
    AllSettled(jobs[..], files, os, stop);
  }

  lemma AllSettled(jobs: seq<LinkJob>, files: Files, os: System, stop: nat)
    requires stop <= |jobs| && forall j :: 0 <= j < stop ==> Settled(jobs[j], files, os, j)
    ensures forall j :: 0 <= j < stop ==>
              var link, good := files.needed(j), files.needed(j) && os.spawns(j) && os.exits(j);
              && !jobs[j].running && jobs[j].shouldLink == link && jobs[j].linkFailed == (link && !good)
              && jobs[j].installFailed == (good && !files.installs(j)) && jobs[j].recorded == (good && files.installs(j))
  {
  }

  // The links still running, oldest first.
  method DrainLinks(jobs: array<LinkJob>, ring: array<nat>, head: nat, count: nat, files: Files, os: System,
                    ghost stop: nat, ghost flight: seq<nat>)
    requires os.Valid() && count == |flight|
    requires Pool(jobs[..], ring[..], head, files, os, os.live, os.started, os.waited, stop, flight)
    modifies jobs, os
    ensures stop <= jobs.Length && os.live == map[] && os.started == os.waited == Links(files, os, stop)
    ensures forall j :: 0 <= j < stop ==> Settled(jobs[j], files, os, j)
    ensures forall j :: stop <= j < jobs.Length ==> jobs[j] == FRESH
  {
    hide Pool, Settled, Place, Ends;
    var at, left := head, count;
    ghost var rest := flight;
    while left > 0
      invariant os.Valid() && left == |rest|
      invariant Pool(jobs[..], ring[..], at, files, os, os.live, os.started, os.waited, stop, rest)
    {
      at := FinishOldest(jobs, ring, at, files, os, stop, rest);
      rest := rest[1..];
      left := left - 1;
    }
    PoolEnd(jobs[..], ring[..], at, files, os, os.live, os.started, os.waited, stop);
  }
}
