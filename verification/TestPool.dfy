// The parallel test run of the build driver: the long tests first, whichever test ends first
// making room for the next, and every result credited to its own test.
module TestPool {
  import opened Powers
  import opened Processes

  datatype TestJob = TestJob(
    linked: bool,        // its executable has a path
    long: bool,          // a build-driver test, started first
    alone: bool,         // a stress test or a benchmark, left for later
    ran: bool, runOk: bool, proc: Pid)

  // Whether a test's directory can be set up, and its executable's path formed.
  datatype Setup = Setup(prepares: nat -> bool, forms: nat -> bool)

  // ----- the order of starting -----

  predicate Eligible(j: TestJob) { j.linked && !j.alone }

  // Step k of the two passes starts a test.
  predicate Picks(jobs: seq<TestJob>, k: nat)
    requires |jobs| > 0
  {
    var j := jobs[k % |jobs|];
    (k < |jobs|) == j.long && Eligible(j)
  }

  function Order(jobs: seq<TestJob>, k: nat): seq<nat> {
    if k == 0 || |jobs| == 0 then []
    else Order(jobs, k - 1) + if Picks(jobs, k - 1) then [(k - 1) % |jobs|] else []
  }

  // The eligible tests below n of one kind, in registry order.
  function Chosen(jobs: seq<TestJob>, n: nat, long: bool): seq<nat>
    requires n <= |jobs|
  {
    if n == 0 then []
    else Chosen(jobs, n - 1, long) + if jobs[n - 1].long == long && Eligible(jobs[n - 1]) then [n - 1] else []
  }

  // c lists, ascending, exactly the eligible tests below n of one kind.
  ghost predicate IsChoice(jobs: seq<TestJob>, n: nat, long: bool, c: seq<nat>)
    requires n <= |jobs|
  {
    && (forall a :: 0 <= a < |c| ==> c[a] < n && jobs[c[a]].long == long && Eligible(jobs[c[a]]))
    && (forall i: nat :: i < n && jobs[i].long == long && Eligible(jobs[i]) ==> i in c)
    && (forall a, b :: 0 <= a < b < |c| ==> c[a] < c[b])
  }

  lemma {:induction false} ChosenMeaning(jobs: seq<TestJob>, n: nat, long: bool)
    requires n <= |jobs|
    ensures IsChoice(jobs, n, long, Chosen(jobs, n, long))
  {
    hide IsChoice, Eligible;
    if n == 0 {
      ChoiceNone(jobs, long);
    } else {
      ChosenMeaning(jobs, n - 1, long);
      ChoiceStep(jobs, n - 1, long, Chosen(jobs, n - 1, long));
    }
  }

  lemma ChoiceNone(jobs: seq<TestJob>, long: bool)
    ensures IsChoice(jobs, 0, long, [])
  {
  }

  lemma ChoiceStep(jobs: seq<TestJob>, n: nat, long: bool, c: seq<nat>)
    requires n < |jobs| && IsChoice(jobs, n, long, c)
    ensures IsChoice(jobs, n + 1, long, c + if jobs[n].long == long && Eligible(jobs[n]) then [n] else [])
  {
    hide Eligible;
    assert n in [n];
  }

  lemma {:induction false} FirstPass(jobs: seq<TestJob>, k: nat)
    requires k <= |jobs|
    ensures Order(jobs, k) == Chosen(jobs, k, true)
  {
    hide Eligible;
    if k > 0 {
      FirstPass(jobs, k - 1);
      Quotient(k - 1, |jobs|, 0, k - 1);
    }
  }

  lemma {:induction false} SecondPass(jobs: seq<TestJob>, k: nat)
    requires k <= |jobs|
    ensures Order(jobs, |jobs| + k) == Chosen(jobs, |jobs|, true) + Chosen(jobs, k, false)
  {
    hide Eligible;
    if k == 0 {
      FirstPass(jobs, |jobs|);
    } else {
      SecondPass(jobs, k - 1);
      WrapsOnce(k - 1, |jobs|);
      assert |jobs| + k - 1 == |jobs| + (k - 1);
    }
  }

  lemma WrapsOnce(k: nat, m: nat)
    requires k < m
    ensures (m + k) % m == k
  {
  }

  // The two passes visit every eligible test exactly once, the long ones first, each kind in registry order.
  lemma OrderIsLongFirst(jobs: seq<TestJob>)
    ensures var order := Order(jobs, 2 * |jobs|);
            && order == Chosen(jobs, |jobs|, true) + Chosen(jobs, |jobs|, false)
            && (forall a :: 0 <= a < |order| ==> order[a] < |jobs| && jobs[order[a]].linked && !jobs[order[a]].alone)
            && (forall i: nat :: i < |jobs| && jobs[i].linked && !jobs[i].alone ==> i in order)
            && (forall a, b :: 0 <= a < b < |order| ==>
                  order[a] != order[b] && (jobs[order[b]].long ==> jobs[order[a]].long)
                  && (jobs[order[a]].long == jobs[order[b]].long ==> order[a] < order[b]))
  {
    hide Order, Chosen;
    OrderIsChosen(jobs);
  }

  lemma StartedAll(jobs: seq<TestJob>)
    ensures forall i: nat :: i in Order(jobs, 2 * |jobs|) <==> i < |jobs| && jobs[i].linked && !jobs[i].alone
  {
    hide Order;
    OrderIsLongFirst(jobs);
  }

  lemma OrderIsChosen(jobs: seq<TestJob>)
    ensures var order := Order(jobs, 2 * |jobs|);
            && order == Chosen(jobs, |jobs|, true) + Chosen(jobs, |jobs|, false)
            && (forall a :: 0 <= a < |order| ==> order[a] < |jobs| && Eligible(jobs[order[a]]))
            && (forall i: nat :: i < |jobs| && Eligible(jobs[i]) ==> i in order)
            && (forall a, b :: 0 <= a < b < |order| ==>
                  order[a] != order[b] && (jobs[order[b]].long ==> jobs[order[a]].long)
                  && (jobs[order[a]].long == jobs[order[b]].long ==> order[a] < order[b]))
  {
    hide Eligible, Order, Chosen;
    SecondPass(jobs, |jobs|);
    ChosenMeaning(jobs, |jobs|, true);
    ChosenMeaning(jobs, |jobs|, false);
    TwoChoices(jobs, Chosen(jobs, |jobs|, true), Chosen(jobs, |jobs|, false));
  }

  lemma TwoChoices(jobs: seq<TestJob>, longs: seq<nat>, others: seq<nat>)
    requires IsChoice(jobs, |jobs|, true, longs) && IsChoice(jobs, |jobs|, false, others)
    ensures var order := longs + others;
            && (forall a :: 0 <= a < |order| ==> order[a] < |jobs| && Eligible(jobs[order[a]]))
            && (forall i: nat :: i < |jobs| && Eligible(jobs[i]) ==> i in order)
            && (forall a, b :: 0 <= a < b < |order| ==>
                  order[a] != order[b] && (jobs[order[b]].long ==> jobs[order[a]].long)
                  && (jobs[order[a]].long == jobs[order[b]].long ==> order[a] < order[b]))
  {
    hide Eligible;
    var order := longs + others;
    assert forall a :: 0 <= a < |order| ==> order[a] == if a < |longs| then longs[a] else others[a - |longs|];
    forall i: nat | i < |jobs| && Eligible(jobs[i]) ensures i in order {
      assert if jobs[i].long then i in longs else i in others;
    }
  }

  // A test about to be started has not been started.
  lemma OrderIsFresh(jobs: seq<TestJob>, k: nat)
    requires |jobs| > 0 && k < 2 * |jobs| && Picks(jobs, k)
    ensures k % |jobs| !in Order(jobs, k)
  {
    hide Eligible, Order, Chosen;
    var m := |jobs|;
    if k < m {
      Quotient(k, m, 0, k);
      FirstPass(jobs, k);
      ChosenMeaning(jobs, k, true);
    } else {
      SecondPass(jobs, k - m);
      WrapsOnce(k - m, m);
      ChosenMeaning(jobs, m, true);
      ChosenMeaning(jobs, k - m, false);
      assert m + (k - m) == k;
    }
  }

  // ----- the tests that run -----

  // A slot list without entry s, the last one moved into its place.
  function Without(slots: seq<nat>, s: nat): seq<nat>
    requires s < |slots|
  {
    slots[s := slots[|slots| - 1]][..|slots| - 1]
  }

  lemma WithoutMeaning(slots: seq<nat>, s: nat)
    requires s < |slots|
    requires forall a, b :: 0 <= a < b < |slots| ==> slots[a] != slots[b]
    ensures var r := Without(slots, s);
            && multiset(slots) == multiset(r) + multiset{slots[s]}
            && (forall a, b :: 0 <= a < b < |r| ==> r[a] != r[b])
            && (forall i :: i in r <==> i in slots && i != slots[s])
  {
    WithoutMultiset(slots, s);
    var n, r := |slots|, Without(slots, s);
    assert forall a :: 0 <= a < n - 1 ==> r[a] == if a == s then slots[n - 1] else slots[a];
    forall i | i in slots && i != slots[s] ensures i in r {
      var a :| 0 <= a < n && slots[a] == i;
      assert r[if a == n - 1 then s else a] == i;
    }
    forall i | i in r ensures i in slots && i != slots[s] {
    }
  }

  lemma PutMultiset(a: seq<nat>, s: nat, x: nat)
    requires s < |a|
    ensures multiset(a) + multiset{x} == multiset(a[s := x]) + multiset{a[s]}
  {
    assert a == a[..s] + [a[s]] + a[s + 1..];
    assert a[s := x] == a[..s] + [x] + a[s + 1..];
  }

  lemma WithoutMultiset(slots: seq<nat>, s: nat)
    requires s < |slots|
    ensures multiset(slots) == multiset(Without(slots, s)) + multiset{slots[s]}
  {
    var last, r := slots[|slots| - 1], Without(slots, s);
    var front := slots[..|slots| - 1];
    assert slots == front + [last];
    if s < |front| {
      assert r == front[s := last];
      PutMultiset(front, s, last);
    } else {
      assert r == front;
    }
  }

  // A test whose process is live, and one whose result is in.
  predicate InFlight(j: TestJob, first: TestJob, live: map<Pid, nat>, i: nat) {
    j == first.(ran := true, proc := j.proc) && j.proc in live && live[j.proc] == i
  }

  predicate Credited(j: TestJob, first: TestJob, os: System, i: nat) {
    j == first.(ran := true, runOk := os.exits(i), proc := j.proc)
  }

  ghost predicate Distinct(slots: seq<nat>) { forall a, b :: 0 <= a < b < |slots| ==> slots[a] != slots[b] }

  // first: the jobs before the run. slots: the running tests.
  ghost predicate Pool(first: seq<TestJob>, jobs: seq<TestJob>, slots: seq<nat>, os: System, live: map<Pid, nat>,
                       started: seq<nat>, waited: seq<nat>) {
    && |jobs| == |first| && |live| == |slots| && Distinct(slots)
    && multiset(started) == multiset(waited) + multiset(slots)
    && (forall i :: i in slots ==> i < |jobs| && InFlight(jobs[i], first[i], live, i))
    && (forall i :: 0 <= i < |jobs| && i !in slots ==>
          if i in started then Credited(jobs[i], first[i], os, i) else jobs[i] == first[i])
  }

  lemma PoolStart(first: seq<TestJob>, os: System)
    ensures Pool(first, first, [], os, map[], [], [])
  {
  }

  lemma PoolPush(first: seq<TestJob>, jobs: seq<TestJob>, slots: seq<nat>, os: System, live: map<Pid, nat>,
                 started: seq<nat>, waited: seq<nat>, i: nat, p: Pid)
    requires Pool(first, jobs, slots, os, live, started, waited)
    requires i < |jobs| && i !in started && p !in live && |live[p := i]| == |live| + 1
    ensures jobs[i] == first[i]
    ensures Pool(first, jobs[i := first[i].(ran := true, proc := p)], slots + [i], os, live[p := i], started + [i], waited)
  {
    assert i !in multiset(started);
    assert i !in multiset(slots);
  }

  lemma PoolPop(first: seq<TestJob>, jobs: seq<TestJob>, slots: seq<nat>, os: System, live: map<Pid, nat>,
                started: seq<nat>, waited: seq<nat>, s: nat, j: TestJob)
    requires Pool(first, jobs, slots, os, live, started, waited) && s < |slots|
    requires slots[s] < |jobs| && Credited(j, first[slots[s]], os, slots[s])
    requires var live' := live - {jobs[slots[s]].proc}; |live'| == |live| - 1
    ensures Pool(first, jobs[slots[s] := j], Without(slots, s), os, live - {jobs[slots[s]].proc},
                 started, waited + [slots[s]])
  {
    var i := slots[s];
    WithoutMeaning(slots, s);
    hide Without, Credited;
    var r, live', jobs' := Without(slots, s), live - {jobs[i].proc}, jobs[i := j];
    assert i in slots;
    forall l | l in r ensures l < |jobs'| && InFlight(jobs'[l], first[l], live', l) {
      assert l in slots && l != i;
    }
    assert i in multiset(started);
  }

  lemma PoolEntry(first: seq<TestJob>, jobs: seq<TestJob>, slots: seq<nat>, os: System, live: map<Pid, nat>,
                  started: seq<nat>, waited: seq<nat>, s: nat)
    requires Pool(first, jobs, slots, os, live, started, waited) && s < |slots|
    ensures slots[s] < |jobs| == |first| && InFlight(jobs[slots[s]], first[slots[s]], live, slots[s])
  {
    assert slots[s] in slots;
  }

  // One poll of the test in slot s, which frees the slot if the test has ended.
  method PollSlot(jobs: array<TestJob>, slot: array<nat>, s: nat, running: nat, os: System, ghost first: seq<TestJob>)
      returns (ended: bool)
    requires os.Valid() && s < running <= slot.Length
    requires Pool(first, jobs[..], slot[..running], os, os.live, os.started, os.waited)
    modifies jobs, slot, os
    ensures os.Valid() && os.started == old(os.started)
    ensures Pool(first, jobs[..], slot[..if ended then running - 1 else running], os, os.live, os.started, os.waited)
    ensures !ended ==> os.horizon == old(os.horizon) && old(os.clock) < os.clock <= os.horizon
  {
    hide Pool, Without, Credited;
    ghost var before, slots, live, waited := jobs[..], slot[..running], os.live, os.waited;
    PoolEntry(first, before, slots, os, live, os.started, waited, s);
    var i := slot[s];
    var st := os.Poll(jobs[i].proc);
    ended := st != 0;
    if ended {
      jobs[i] := jobs[i].(runOk := st > 0);
      assert jobs[..] == before[i := jobs[i]];
      IsCredited(before[i], first[i], os, live, i);
      PoolPop(first, before, slots, os, live, os.started, waited, s, jobs[i]);
      MoveLast(slot, s, running);
    }
  }

  // One round over the running tests: room for one more, or time gone by.
  method Sweep(jobs: array<TestJob>, slot: array<nat>, running: nat, os: System, ghost first: seq<TestJob>)
      returns (still: nat)
    requires os.Valid() && 0 < running <= slot.Length
    requires Pool(first, jobs[..], slot[..running], os, os.live, os.started, os.waited)
    modifies jobs, slot, os
    ensures os.Valid() && still <= running && os.started == old(os.started)
    ensures Pool(first, jobs[..], slot[..still], os, os.live, os.started, os.waited)
    ensures still == running - 1 || (still == running && os.horizon == old(os.horizon) && old(os.clock) < os.clock <= os.horizon)
  {
    hide Pool, Ends;
    for s := 0 to running
      invariant os.Valid() && os.started == old(os.started) && os.horizon == old(os.horizon)
      invariant Pool(first, jobs[..], slot[..running], os, os.live, os.started, os.waited)
      invariant old(os.clock) + s <= os.clock && (s > 0 ==> os.clock <= os.horizon)
    {
      var ended := PollSlot(jobs, slot, s, running, os, first);
      if ended {
        return running - 1;
      }
    }
    still := running;
  }

  // The blocking wait for the test in the last slot.
  method WaitLast(jobs: array<TestJob>, slot: array<nat>, running: nat, os: System, ghost first: seq<TestJob>)
    requires os.Valid() && 0 < running <= slot.Length
    requires Pool(first, jobs[..], slot[..running], os, os.live, os.started, os.waited)
    modifies jobs, os
    ensures os.Valid() && os.started == old(os.started)
    ensures Pool(first, jobs[..], slot[..running - 1], os, os.live, os.started, os.waited)
  {
    hide Pool, Credited, Ends;
    ghost var before, slots, live, waited := jobs[..], slot[..running], os.live, os.waited;
    PoolEntry(first, before, slots, os, live, os.started, waited, running - 1);
    var i := slot[running - 1];
    var ok := os.Wait(jobs[i].proc);
    jobs[i] := jobs[i].(runOk := ok);
    assert jobs[..] == before[i := jobs[i]];
    IsCredited(before[i], first[i], os, live, i);
    PoolPop(first, before, slots, os, live, os.started, waited, running - 1, jobs[i]);
    assert Without(slots, running - 1) == slot[..running - 1];
  }

  lemma IsCredited(j: TestJob, first: TestJob, os: System, live: map<Pid, nat>, i: nat)
    requires InFlight(j, first, live, i)
    ensures Credited(j.(runOk := os.exits(i)), first, os, i)
  {
  }

  // slot[s] = slot[--running]
  method MoveLast(slot: array<nat>, s: nat, running: nat)
    requires s < running <= slot.Length
    modifies slot
    ensures slot[..running - 1] == Without(old(slot[..running]), s)
  {
    slot[s] := slot[running - 1];
  }

  // ----- the run -----

  predicate Blocked(setup: Setup, os: System, i: nat) { !(setup.prepares(i) && setup.forms(i) && os.spawns(i)) }

  // Nothing blocks before that step, and there the job to be started cannot be.
  lemma {:induction false} HaltMeaning(first: seq<TestJob>, setup: Setup, os: System, k: nat)
    requires k <= 2 * |first|
    ensures var h := Halt(first, setup, os, k);
            && (h < 2 * |first| ==>
                  (first[h % |first|].linked && !first[h % |first|].alone
                   && !(setup.prepares(h % |first|) && setup.forms(h % |first|) && os.spawns(h % |first|))))
            && forall j :: k <= j < h && Picks(first, j) ==>
                 (setup.prepares(j % |first|) && setup.forms(j % |first|) && os.spawns(j % |first|))
    decreases 2 * |first| - k
  {
    if k < 2 * |first| && !(Picks(first, k) && Blocked(setup, os, k % |first|)) {
      HaltMeaning(first, setup, os, k + 1);
    }
  }

  // The step of the two passes where the run breaks off, or their end.
  function Halt(first: seq<TestJob>, setup: Setup, os: System, k: nat): (h: nat)
    requires k <= 2 * |first|
    ensures k <= h <= 2 * |first|
    decreases 2 * |first| - k
  {
    if k == 2 * |first| || (Picks(first, k) && Blocked(setup, os, k % |first|)) then k
    else Halt(first, setup, os, k + 1)
  }

  // Starting the test of step k in a free slot.
  method StartTest(jobs: array<TestJob>, slot: array<nat>, i: nat, running: nat, os: System, ghost first: seq<TestJob>)
      returns (spawned: bool)
    requires os.Valid() && running < slot.Length && running < os.limit && i < jobs.Length && i !in os.started
    requires Pool(first, jobs[..], slot[..running], os, os.live, os.started, os.waited)
    modifies jobs, slot, os
    ensures os.Valid() && spawned == os.spawns(i)
    ensures os.started == old(os.started) + (if spawned then [i] else [])
    ensures Pool(first, jobs[..], slot[..if spawned then running + 1 else running], os, os.live, os.started, os.waited)
  {
    ghost var before, slots, live, started := jobs[..], slot[..running], os.live, os.started;
    PoolSize(first, before, slots, os, live, started, os.waited);
    hide Pool, Ends;
    var p := os.Spawn(i);
    spawned := p.Some?;
    if spawned {
      PoolPush(first, before, slots, os, live, started, os.waited, i, p.value);
      jobs[i] := jobs[i].(ran := true, proc := p.value);
      assert jobs[..] == before[i := jobs[i]];
      slot[running] := i;
      assert slot[..running + 1] == slots + [i];
    }
  }

  lemma PoolSize(first: seq<TestJob>, jobs: seq<TestJob>, slots: seq<nat>, os: System, live: map<Pid, nat>,
                 started: seq<nat>, waited: seq<nat>)
    requires Pool(first, jobs, slots, os, live, started, waited)
    ensures |jobs| == |first| && |live| == |slots|
  {
  }

  // What step k looks at in the jobs is as it was before the run.
  lemma SameKind(first: seq<TestJob>, jobs: seq<TestJob>, slots: seq<nat>, os: System, live: map<Pid, nat>,
                 started: seq<nat>, waited: seq<nat>, i: nat)
    requires Pool(first, jobs, slots, os, live, started, waited) && i < |jobs|
    ensures i < |first| && jobs[i].long == first[i].long && Eligible(jobs[i]) == Eligible(first[i])
  {
    if i in slots { assert InFlight(jobs[i], first[i], live, i); }
  }

  // Polling until a place is free: some process ends before time runs past the horizon.
  method AwaitPlace(jobs: array<TestJob>, slot: array<nat>, running: nat, os: System, ghost first: seq<TestJob>)
      returns (still: nat)
    requires os.Valid() && running <= slot.Length && slot.Length > 0
    requires Pool(first, jobs[..], slot[..running], os, os.live, os.started, os.waited)
    modifies jobs, slot, os
    ensures os.Valid() && still < slot.Length && os.started == old(os.started)
    ensures Pool(first, jobs[..], slot[..still], os, os.live, os.started, os.waited)
  {
    hide Pool, Ends;
    still := running;
    while still == slot.Length
      invariant os.Valid() && still <= slot.Length && os.started == old(os.started)
      invariant Pool(first, jobs[..], slot[..still], os, os.live, os.started, os.waited)
      decreases if still == slot.Length then 1 else 0, os.horizon - os.clock
    {
      still := Sweep(jobs, slot, still, os, first);
    }
  }

  // The body of a step that picks a test: set it up, make room, start it.
  method RunTest(jobs: array<TestJob>, slot: array<nat>, i: nat, running: nat, setup: Setup, os: System,
                 ghost first: seq<TestJob>) returns (ok: bool, still: nat)
    requires os.Valid() && running <= slot.Length == os.limit && slot.Length > 0 && i < jobs.Length && i !in os.started
    requires Pool(first, jobs[..], slot[..running], os, os.live, os.started, os.waited)
    modifies jobs, slot, os
    ensures os.Valid() && still <= slot.Length && ok == !Blocked(setup, os, i)
    ensures os.started == old(os.started) + (if ok then [i] else [])
    ensures Pool(first, jobs[..], slot[..still], os, os.live, os.started, os.waited)
  {
    hide Pool, Ends;
    still := running;
    if !setup.prepares(i) {
      return false, still;
    }
    still := AwaitPlace(jobs, slot, running, os, first);
    if !setup.forms(i) {
      return false, still;
    }
    ok := StartTest(jobs, slot, i, still, os, first);
    if ok {
      still := still + 1;
    }
  }

  // One job of a pass: long tests in the first pass, the others in the second.
  method VisitTest(jobs: array<TestJob>, slot: array<nat>, k: nat, running: nat, setup: Setup, os: System,
                   ghost first: seq<TestJob>) returns (ok: bool, still: nat)
    requires os.Valid() && running <= slot.Length == os.limit && slot.Length > 0
    requires |first| == jobs.Length && k < 2 * jobs.Length && os.started == Order(first, k)
    requires Pool(first, jobs[..], slot[..running], os, os.live, os.started, os.waited)
    modifies jobs, slot, os
    ensures os.Valid() && still <= slot.Length
    ensures Pool(first, jobs[..], slot[..still], os, os.live, os.started, os.waited)
    ensures os.started == Order(first, if ok then k + 1 else k)
    ensures Halt(first, setup, os, k) == if ok then Halt(first, setup, os, k + 1) else k
  {
    hide Pool, Order, Halt, Blocked, Eligible, Ends;
    var i := k % jobs.Length;
    SameKind(first, jobs[..], slot[..running], os, os.live, os.started, os.waited, i);
    Visited(first, setup, os, k);
    ok, still := true, running;
    if (k < jobs.Length) == jobs[i].long && Eligible(jobs[i]) {
      OrderIsFresh(first, k);
      ok, still := RunTest(jobs, slot, i, running, setup, os, first);
    }
  }

  lemma Visited(first: seq<TestJob>, setup: Setup, os: System, k: nat)
    requires |first| > 0 && k < 2 * |first|
    ensures Order(first, k + 1) == Order(first, k) + if Picks(first, k) then [k % |first|] else []
    ensures Halt(first, setup, os, k) ==
            if Picks(first, k) && Blocked(setup, os, k % |first|) then k else Halt(first, setup, os, k + 1)
    ensures Halt(first, setup, os, 2 * |first|) == 2 * |first|
  {
  }

  lemma NoneVisited(first: seq<TestJob>, setup: Setup, os: System)
    ensures Order(first, 0) == [] && (first == [] ==> Halt(first, setup, os, 0) == 0)
  {
  }

  lemma PoolEnd(first: seq<TestJob>, jobs: seq<TestJob>, os: System, live: map<Pid, nat>, started: seq<nat>, waited: seq<nat>)
    requires Pool(first, jobs, [], os, live, started, waited)
    ensures live == map[] && |jobs| == |first| && multiset(waited) == multiset(started)
    ensures forall i :: 0 <= i < |jobs| ==>
              jobs[i] == if i in started then first[i].(ran := true, runOk := os.exits(i), proc := jobs[i].proc) else first[i]
  {
    assert live.Keys == {};
    assert multiset(started) == multiset(waited) + multiset{};
  }

  // The processes still running at the end, last slot first.
  method WaitAll(jobs: array<TestJob>, slot: array<nat>, count: nat, os: System, ghost first: seq<TestJob>)
    requires os.Valid() && count <= slot.Length
    requires Pool(first, jobs[..], slot[..count], os, os.live, os.started, os.waited)
    modifies jobs, os
    ensures os.Valid() && os.started == old(os.started)
    ensures Pool(first, jobs[..], [], os, os.live, os.started, os.waited)
  {
    hide Pool, Ends;
    var running: nat := count;
    while running > 0
      invariant running <= slot.Length && os.Valid() && os.started == old(os.started)
      invariant Pool(first, jobs[..], slot[..running], os, os.live, os.started, os.waited)
    {
      WaitLast(jobs, slot, running, os, first);
      running := running - 1;
    }
    assert slot[..0] == [];
  }

  method RunTests(jobs: array<TestJob>, maxRunning: nat, setup: Setup, os: System) returns (ok: bool)
    requires maxRunning > 0 && os.limit == maxRunning
    requires os.Valid() && os.live == map[] && os.started == os.waited == []
    modifies jobs, os
    ensures var first, halt := old(jobs[..]), Halt(old(jobs[..]), setup, os, 0);
            && (ok <==> halt == 2 * |first|)
            && os.started == Order(first, halt) && multiset(os.waited) == multiset(os.started)
            && (forall i :: 0 <= i < jobs.Length ==>
                  jobs[i] == if i in os.started then first[i].(ran := true, runOk := os.exits(i), proc := jobs[i].proc)
                             else first[i])
            && (ok ==> forall i: nat :: i in os.started <==> i < |first| && first[i].linked && !first[i].alone)
    ensures os.live == map[]
  {
    hide Pool, Order, Credited, Halt, Blocked, Picks, Eligible, Ends;
    ghost var first := jobs[..];
    var slot := new nat[maxRunning](_ => 0);
    var running: nat := 0;
    ok := true;
    PoolStart(first, os);
    NoneVisited(first, setup, os);
    assert slot[..0] == [];
    var k: nat := 0;
    while k < 2 * jobs.Length && ok
      invariant k <= 2 * jobs.Length && running <= maxRunning && fresh(slot) && slot.Length == maxRunning && os.Valid()
      invariant Pool(first, jobs[..], slot[..running], os, os.live, os.started, os.waited)
      invariant os.started == Order(first, k)
      invariant Halt(first, setup, os, 0) == Halt(first, setup, os, k)
      invariant !ok ==> k < 2 * jobs.Length && Halt(first, setup, os, k) == k
      decreases ok, 2 * jobs.Length - k
    {
      ok, running := VisitTest(jobs, slot, k, running, setup, os, first);
      if ok {
        k := k + 1;
      }
    }
    Visited0(first, setup, os, k, ok);
    WaitAll(jobs, slot, running, os, first);
    if ok { StartedAll(first); }
    PoolEnd(first, jobs[..], os, os.live, os.started, os.waited);
  }

  lemma Visited0(first: seq<TestJob>, setup: Setup, os: System, k: nat, ok: bool)
    requires k <= 2 * |first| && (ok ==> k == 2 * |first|)
    requires !ok ==> k < 2 * |first| && Halt(first, setup, os, k) == k
    ensures Halt(first, setup, os, k) == k && (ok <==> k == 2 * |first|)
  {
  }

  // The report, in registry order: exactly the tests that ran and failed.
  method Report(jobs: array<TestJob>) returns (failed: seq<nat>)
    ensures forall i: nat :: i in failed <==> i < jobs.Length && jobs[i].ran && !jobs[i].runOk
    ensures forall a, b :: 0 <= a < b < |failed| ==> failed[a] < failed[b]
  {
    failed := [];
    for i := 0 to jobs.Length
      invariant forall l: nat :: l in failed <==> l < i && jobs[l].ran && !jobs[l].runOk
      invariant forall a, b :: 0 <= a < b < |failed| ==> failed[a] < failed[b]
    {
      if jobs[i].ran && !jobs[i].runOk {
        assert forall a :: 0 <= a < |failed| ==> failed[a] in failed;
        failed := failed + [i];
      }
    }
  }
}
