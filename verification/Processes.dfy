// Child processes as the build driver sees them: started for a job, and waited for once.
module Processes {
  import opened Bytes

  type Pid = nat

  lemma OneMore(live: map<Pid, nat>, p: Pid, job: nat)
    requires p !in live
    ensures |live[p := job]| == |live| + 1
  {
    PutKeys(live, p, job);
  }

  lemma PutKeys(m: map<Pid, nat>, p: Pid, v: nat)
    ensures m[p := v].Keys == m.Keys + {p}
  {
  }

  lemma OneLess(live: map<Pid, nat>, p: Pid)
    requires p in live
    ensures |live - {p}| == |live| - 1
  {
    assert (live - {p}).Keys == live.Keys - {p};
  }

  // When each process ends; none later than the horizon, and all numbers from next on are free.
  ghost predicate Ends(live: map<Pid, nat>, ends: map<Pid, nat>, next: Pid, horizon: nat) {
    && ends.Keys == live.Keys
    && forall p :: p in live ==> p < next && ends[p] <= horizon
  }

  lemma EndsPut(live: map<Pid, nat>, ends: map<Pid, nat>, next: Pid, horizon: nat, job: nat, end: nat, horizon': nat)
    requires Ends(live, ends, next, horizon) && horizon <= horizon' && end <= horizon'
    ensures next !in live && Ends(live[next := job], ends[next := end], next + 1, horizon')
  {
    PutKeys(live, next, job);
    PutKeys(ends, next, end);
  }

  // The system below the driver. How each job's process turns out is settled beforehand; a process
  // that is polled too early is still running, and each poll takes time.
  class System {
    const limit: nat
    const spawns: nat -> bool     // whether a process for the job can be started
    const exits: nat -> bool      // whether it succeeds
    const lasts: nat -> nat       // how many polls it runs for
    var live: map<Pid, nat>       // the processes not yet waited for, with their jobs
    var ends: map<Pid, nat>
    var next: Pid
    var clock: nat
    var horizon: nat
    var started: seq<nat>         // the jobs in the order their processes were started, and waited for
    var waited: seq<nat>

    ghost predicate Valid()
      reads this
    {
      |live| <= limit && Ends(live, ends, next, horizon)
    }

    constructor (limit: nat, spawns: nat -> bool, exits: nat -> bool, lasts: nat -> nat)
      ensures Valid() && live == map[] && started == waited == []
      ensures this.limit == limit && this.spawns == spawns && this.exits == exits && this.lasts == lasts
    {
      this.limit, this.spawns, this.exits, this.lasts := limit, spawns, exits, lasts;
      live, ends, next, clock, horizon, started, waited := map[], map[], 0, 0, 0, [], [];
    }

    method Spawn(job: nat) returns (p: Option<Pid>)
      requires Valid() && |live| < limit
      modifies this
      ensures Valid() && (p.Some? <==> spawns(job)) && waited == old(waited)
      ensures p.None? ==> live == old(live) && started == old(started)
      ensures p.Some? ==> p.value !in old(live) && live == old(live)[p.value := job] &&
                          |live| == |old(live)| + 1 && started == old(started) + [job]
    {
      hide Ends;
      if spawns(job) {
        p := Some(next);
        var end := clock + lasts(job);
        var last := if horizon < end then end else horizon;
        EndsPut(live, ends, next, horizon, job, end, last);
        OneMore(live, next, job);
        live, ends, horizon, next := live[next := job], ends[next := end], last, next + 1;
        started := started + [job];
      } else {
        p := None;
      }
    }

    // Block until the process ends. A process can be waited for once only.
    method Wait(p: Pid) returns (ok: bool)
      requires Valid() && p in live
      modifies this
      ensures Valid() && ok == exits(old(live)[p])
      ensures live == old(live) - {p} && |live| == |old(live)| - 1
      ensures waited == old(waited) + [old(live)[p]] && started == old(started)
    {
      ok := exits(live[p]);
      waited := waited + [live[p]];
      OneLess(live, p);
      live, ends := live - {p}, ends - {p};
    }

    // 0 while the process runs; otherwise it has been waited for, and 1 or -1 tells how it ended.
    method Poll(p: Pid) returns (st: int)
      requires Valid() && p in live
      modifies this
      ensures Valid() && started == old(started)
      ensures st == 0 ==> live == old(live) && waited == old(waited) &&
                          horizon == old(horizon) && old(clock) < clock <= horizon
      ensures st != 0 ==> live == old(live) - {p} && |live| == |old(live)| - 1 &&
                          waited == old(waited) + [old(live)[p]] && (st > 0 <==> exits(old(live)[p]))
    {
      if clock < ends[p] {
        clock := clock + 1;
        st := 0;
      } else {
        var ok := Wait(p);
        st := if ok then 1 else -1;
      }
    }
  }
}
