// The POSIX counting semaphore of platform/proven_sys_thread.c: permits guarded by a
// mutex and a condition variable, as a state machine over the steps of any set of threads.
module Semaphore {
  import opened Bytes
  import opened Powers

  type Thread = nat

  const SIZE_MAX: nat := TWO_64 - 1

  // Where a thread stands in wait or post.
  datatype Phase =
    | Idle
    | WaitEntry                             // before the lock of wait
    | Testing                               // at the loop test, mutex held
    | Sleeping                              // blocked on the condition, mutex released
    | Woken                                 // out of the condition, not yet holding the mutex
    | WaitDone(taken: bool)                 // before the unlock of wait
    | PostEntry                             // before the lock of post
    | Adding                                // before the test against SIZE_MAX, mutex held
    | Signalling                            // permit added, not yet signalled
    | PostDone(added: bool, ok: bool)       // before the unlock of post

  predicate Holds(p: Phase) {
    p.Testing? || p.WaitDone? || p.Adding? || p.Signalling? || p.PostDone?
  }

  // posts and waits count permits added and taken; the last two count calls that have unlocked after doing so.
  datatype State = State(
    phases: map<Thread, Phase>, owner: Option<Thread>, permits: nat,
    posts: nat, waits: nat, returnedPosts: nat, returnedWaits: nat)

  datatype Step =
    | CallWait(t: Thread)
    | CallPost(t: Thread)
    | Lock(t: Thread)
    | LockFails(t: Thread)
    | Take(t: Thread)                             // permits > 0: leave the loop
    | Sleep(t: Thread)                            // permits == 0: pthread_cond_wait blocks
    | CondWaitFails(t: Thread)                    // permits == 0: pthread_cond_wait refuses
    | Spurious(t: Thread)                         // a sleeper comes out by itself
    | Refuse(t: Thread)                           // permits == SIZE_MAX
    | Add(t: Thread)
    | Signal(t: Thread, awoken: set<Thread>)      // at least one sleeper, if there is one
    | SignalFails(t: Thread)
    | Unlock(t: Thread)

  function Sleepers(phases: map<Thread, Phase>): set<Thread> {
    set t | t in phases && phases[t].Sleeping?
  }

  // The threads that will test the permits or wake someone who does.
  function Awake(phases: map<Thread, Phase>): set<Thread> {
    set t | t in phases && (phases[t].Woken? || phases[t].Testing? || phases[t].Signalling?)
  }

  predicate At(s: State, t: Thread, p: Phase) { t in s.phases && s.phases[t] == p }

  predicate Enabled(s: State, step: Step) {
    match step
    case CallWait(t) => At(s, t, Idle)
    case CallPost(t) => At(s, t, Idle)
    case Lock(t) => s.owner.None? && (At(s, t, WaitEntry) || At(s, t, PostEntry) || At(s, t, Woken))
    case LockFails(t) => At(s, t, WaitEntry) || At(s, t, PostEntry)
    case Take(t) => At(s, t, Testing) && s.permits > 0
    case Sleep(t) => At(s, t, Testing) && s.permits == 0
    case CondWaitFails(t) => At(s, t, Testing) && s.permits == 0
    case Spurious(t) => At(s, t, Sleeping)
    case Refuse(t) => At(s, t, Adding) && s.permits == SIZE_MAX
    case Add(t) => At(s, t, Adding) && s.permits != SIZE_MAX
    case Signal(t, awoken) =>
      && At(s, t, Signalling) && awoken <= Sleepers(s.phases)
      && (Sleepers(s.phases) != {} ==> awoken != {})
    case SignalFails(t) => At(s, t, Signalling)
    case Unlock(t) => t in s.phases && (s.phases[t].WaitDone? || s.phases[t].PostDone?)
  }

  function Wake(phases: map<Thread, Phase>, awoken: set<Thread>): map<Thread, Phase> {
    map t | t in phases :: if t in awoken then Woken else phases[t]
  }

  function Apply(s: State, step: Step): State
    requires Enabled(s, step)
  {
    match step
    case CallWait(t) => s.(phases := s.phases[t := WaitEntry])
    case CallPost(t) => s.(phases := s.phases[t := PostEntry])
    case Lock(t) =>
      s.(phases := s.phases[t := if s.phases[t].PostEntry? then Adding else Testing], owner := Some(t))
    case LockFails(t) => s.(phases := s.phases[t := Idle])
    case Take(t) => s.(phases := s.phases[t := WaitDone(true)], permits := s.permits - 1, waits := s.waits + 1)
    case Sleep(t) => s.(phases := s.phases[t := Sleeping], owner := None)
    case CondWaitFails(t) => s.(phases := s.phases[t := WaitDone(false)])
    case Spurious(t) => s.(phases := s.phases[t := Woken])
    case Refuse(t) => s.(phases := s.phases[t := PostDone(false, false)])
    case Add(t) => s.(phases := s.phases[t := Signalling], permits := s.permits + 1, posts := s.posts + 1)
    case Signal(t, awoken) => s.(phases := Wake(s.phases, awoken)[t := PostDone(true, true)])
    case SignalFails(t) => s.(phases := s.phases[t := PostDone(true, false)])
    case Unlock(t) =>
      var p := s.phases[t];
      s.(phases := s.phases[t := Idle], owner := None,
         returnedWaits := s.returnedWaits + (if p.WaitDone? && p.taken then 1 else 0),
         returnedPosts := s.returnedPosts + (if p.PostDone? && p.added then 1 else 0))
  }

  // proven_sys_semaphore_init, with any number of threads.
  predicate Initial(s: State) {
    && (forall t :: t in s.phases ==> s.phases[t] == Idle)
    && s.owner == None && s.permits == s.posts == s.waits == s.returnedPosts == s.returnedWaits == 0
  }

  // ----- what every step keeps -----

  // What the holder of the mutex has done that it has not yet returned from.
  function UnreturnedWaits(s: State): nat {
    if s.owner.Some? && At(s, s.owner.value, WaitDone(true)) then 1 else 0
  }

  function UnreturnedPosts(s: State): nat {
    if s.owner.Some? && s.owner.value in s.phases
       && (s.phases[s.owner.value].Signalling? ||
           (s.phases[s.owner.value].PostDone? && s.phases[s.owner.value].added)) then 1 else 0
  }

  predicate MutualExclusion(s: State) {
    && (forall t :: t in s.phases ==> (Holds(s.phases[t]) <==> s.owner == Some(t)))
    && (s.owner.Some? ==> s.owner.value in s.phases)
  }

  predicate Accounted(s: State) {
    && s.permits <= SIZE_MAX
    && s.permits + s.waits == s.posts
    && s.waits == s.returnedWaits + UnreturnedWaits(s)
    && s.posts == s.returnedPosts + UnreturnedPosts(s)
  }

  // A permit that a sleeper could take has an awake thread to take it or to wake someone for it.
  predicate NoLostWake(s: State) {
    Sleepers(s.phases) != {} ==> |Awake(s.phases)| >= s.permits
  }

  lemma MutualExclusionKept(s: State, step: Step)
    requires Enabled(s, step) && MutualExclusion(s)
    ensures MutualExclusion(Apply(s, step))
  {
    match step
    case Signal(t, awoken) =>
      forall u | u in awoken ensures u != t && u in s.phases && s.phases[u].Sleeping? {
        assert u in Sleepers(s.phases);
      }
    case _ =>
  }

  lemma AccountedKept(s: State, step: Step)
    requires Enabled(s, step) && MutualExclusion(s) && Accounted(s)
    ensures Accounted(Apply(s, step))
  {
    MutualExclusionKept(s, step);
  }

  predicate IsAwake(p: Phase) { p.Woken? || p.Testing? || p.Signalling? }

  // One thread moves.
  lemma Moved(phases: map<Thread, Phase>, t: Thread, p: Phase)
    requires t in phases
    ensures |Awake(phases[t := p])| ==
            |Awake(phases)| + (if IsAwake(p) then 1 else 0) - (if IsAwake(phases[t]) then 1 else 0)
    ensures Sleepers(phases[t := p]) ==
            if p.Sleeping? then Sleepers(phases) + {t} else Sleepers(phases) - {t}
    ensures t in Sleepers(phases) <==> phases[t].Sleeping?
  {
    hide Awake, Sleepers;
    AwakeMoved(phases, t, p);
    SleepersMoved(phases, t, p);
  }

  lemma SleepersMoved(phases: map<Thread, Phase>, t: Thread, p: Phase)
    requires t in phases
    ensures Sleepers(phases[t := p]) ==
            if p.Sleeping? then Sleepers(phases) + {t} else Sleepers(phases) - {t}
    ensures t in Sleepers(phases) <==> phases[t].Sleeping?
  {
  }

  lemma AwakeMoved(phases: map<Thread, Phase>, t: Thread, p: Phase)
    requires t in phases
    ensures Awake(phases[t := p]) == if IsAwake(p) then Awake(phases) + {t} else Awake(phases) - {t}
    ensures t in Awake(phases) <==> IsAwake(phases[t])
  {
  }

  lemma NoLostWakeKept(s: State, step: Step)
    requires Enabled(s, step) && NoLostWake(s) && !step.SignalFails?
    ensures NoLostWake(Apply(s, step))
  {
    hide Awake, Sleepers;
    var s' := Apply(s, step);
    if step.Signal? {
      SignalKeeps(s, step.t, step.awoken);
    } else {
      assert s'.phases == s.phases[step.t := s'.phases[step.t]];
      Moved(s.phases, step.t, s'.phases[step.t]);
    }
  }

  lemma Subset(a: set<Thread>, b: set<Thread>)
    requires a <= b
    ensures |a| <= |b|
  {
    assert b == a + (b - a);
  }

  lemma SignalKeeps(s: State, t: Thread, awoken: set<Thread>)
    requires Enabled(s, Signal(t, awoken)) && NoLostWake(s)
    ensures NoLostWake(Apply(s, Signal(t, awoken)))
  {
    var s' := Apply(s, Signal(t, awoken));
    var a := Awake(s.phases);
    assert forall u :: u in awoken ==> u in Sleepers(s.phases);
    assert Awake(s'.phases) == a - {t} + awoken;
    assert Sleepers(s'.phases) <= Sleepers(s.phases);
    if Sleepers(s.phases) != {} {
      var u :| u in awoken;
      Subset(a - {t} + {u}, a - {t} + awoken);
    }
  }

  // A failed signal that strands nobody: nobody sleeps, or an awake thread is to spare.
  predicate Harmless(s: State) {
    Sleepers(s.phases) == {} || |Awake(s.phases)| > s.permits
  }

  // A failed signal keeps the property exactly when nobody sleeps or there is an awake thread to spare.
  lemma FailedSignal(s: State, t: Thread)
    requires Enabled(s, SignalFails(t))
    ensures NoLostWake(Apply(s, SignalFails(t))) <==> Harmless(s)
  {
    var s' := Apply(s, SignalFails(t));
    assert Sleepers(s'.phases) == Sleepers(s.phases);
    assert t in Awake(s.phases) && Awake(s'.phases) == Awake(s.phases) - {t};
  }

  // ----- runs -----

  // A run takes steps from an initial state, one thread at a time in any order.
  ghost predicate IsRun(states: seq<State>, steps: seq<Step>) {
    && |states| == |steps| + 1 && Initial(states[0])
    && forall i :: 0 <= i < |steps| ==> Enabled(states[i], steps[i]) && states[i + 1] == Apply(states[i], steps[i])
  }

  lemma InitialState(s: State)
    requires Initial(s)
    ensures MutualExclusion(s) && Accounted(s) && NoLostWake(s)
  {
    assert Sleepers(s.phases) == {};
  }

  lemma {:induction false} RunIsSafe(states: seq<State>, steps: seq<Step>, i: nat)
    requires IsRun(states, steps) && i <= |steps|
    ensures MutualExclusion(states[i]) && Accounted(states[i])
  {
    if i == 0 {
      InitialState(states[0]);
    } else {
      RunIsSafe(states, steps, i - 1);
      MutualExclusionKept(states[i - 1], steps[i - 1]);
      AccountedKept(states[i - 1], steps[i - 1]);
    }
  }

  // Permits are posts minus waits, and no wait comes back with a permit before a post brought it back.
  lemma WaitsNeverExceedPosts(states: seq<State>, steps: seq<Step>, i: nat)
    requires IsRun(states, steps) && i <= |steps|
    ensures var s := states[i];
            s.permits == s.posts - s.waits && s.returnedWaits <= s.waits <= s.returnedPosts <= s.posts
  {
    RunIsSafe(states, steps, i);
    WaitsBehindPosts(states, steps, i);
  }

  // In a run a post is refused exactly where one more permit would not fit 64 bits.
  lemma RefusedExactlyWhenFull(states: seq<State>, steps: seq<Step>, i: nat, t: Thread)
    requires IsRun(states, steps) && i <= |steps| && At(states[i], t, Adding)
    ensures Enabled(states[i], Refuse(t)) <==> states[i].permits + 1 >= 0x1_0000_0000_0000_0000
    ensures Enabled(states[i], Add(t)) <==> states[i].permits + 1 < 0x1_0000_0000_0000_0000
  {
    RunIsSafe(states, steps, i);
  }

  // ----- what a call has done when it returns -----

  // How often a thread took and added a permit, was refused by the condition, refused a post, and signalled.
  datatype Tally = Tally(takes: nat, conditions: nat, adds: nat, refusals: nat, signals: nat)

  function Counted(tally: Tally, step: Step, t: Thread): Tally {
    match step
    case Take(u) => if u == t then tally.(takes := tally.takes + 1) else tally
    case CondWaitFails(u) => if u == t then tally.(conditions := tally.conditions + 1) else tally
    case Add(u) => if u == t then tally.(adds := tally.adds + 1) else tally
    case Refuse(u) => if u == t then tally.(refusals := tally.refusals + 1) else tally
    case Signal(u, _) => if u == t then tally.(signals := tally.signals + 1) else tally
    case _ => tally
  }

  function TallyOf(steps: seq<Step>, t: Thread): Tally {
    if steps == [] then Tally(0, 0, 0, 0, 0) else Counted(TallyOf(steps[..|steps| - 1], t), steps[|steps| - 1], t)
  }

  predicate WaitSoFar(p: Phase, tally: Tally) {
    match p
    case WaitDone(taken) => tally == if taken then Tally(1, 0, 0, 0, 0) else Tally(0, 1, 0, 0, 0)
    case WaitEntry | Testing | Sleeping | Woken => tally == Tally(0, 0, 0, 0, 0)
    case _ => false
  }

  predicate PostSoFar(p: Phase, tally: Tally) {
    match p
    case Signalling => tally == Tally(0, 0, 1, 0, 0)
    case PostDone(added, ok) =>
      (ok ==> added) && tally == if !added then Tally(0, 0, 0, 1, 0) else Tally(0, 0, 1, 0, if ok then 1 else 0)
    case PostEntry | Adding => tally == Tally(0, 0, 0, 0, 0)
    case _ => false
  }

  // The call a thread makes at step i is still under way before step j.
  predicate InCall(steps: seq<Step>, i: nat, j: nat, t: Thread)
    requires i < j <= |steps|
  {
    forall k :: i < k < j ==> steps[k] != Unlock(t) && steps[k] != LockFails(t)
  }

  lemma {:induction false} CallSoFar(states: seq<State>, steps: seq<Step>, i: nat, j: nat, t: Thread)
    requires IsRun(states, steps) && i < j <= |steps| && InCall(steps, i, j, t)
    requires steps[i] == CallWait(t) || steps[i] == CallPost(t)
    ensures steps[i] == CallWait(t) ==> t in states[j].phases && WaitSoFar(states[j].phases[t], TallyOf(steps[i..j], t))
    ensures steps[i] == CallPost(t) ==> t in states[j].phases && PostSoFar(states[j].phases[t], TallyOf(steps[i..j], t))
  {
    hide WaitSoFar, PostSoFar, Enabled, Apply;
    if j == i + 1 {
      assert steps[i..j] == [steps[i]] && steps[i..j][..0] == [];
      CallBegins(states[i], steps[i], t);
    } else {
      CallSoFar(states, steps, i, j - 1, t);
      assert steps[i..j][..|steps[i..j]| - 1] == steps[i..j - 1] && steps[i..j][|steps[i..j]| - 1] == steps[j - 1];
      CallGoesOn(states[j - 1], steps[j - 1], t, TallyOf(steps[i..j - 1], t));
    }
  }

  lemma CallBegins(s: State, step: Step, t: Thread)
    requires Enabled(s, step)
    ensures var p, tally := Apply(s, step).phases, Counted(Tally(0, 0, 0, 0, 0), step, t);
            && (step == CallWait(t) ==> t in p && WaitSoFar(p[t], tally))
            && (step == CallPost(t) ==> t in p && PostSoFar(p[t], tally))
  {
  }

  lemma CallGoesOn(s: State, step: Step, t: Thread, tally: Tally)
    requires Enabled(s, step) && t in s.phases && step != Unlock(t) && step != LockFails(t)
    ensures t in Apply(s, step).phases
    ensures WaitSoFar(s.phases[t], tally) ==> WaitSoFar(Apply(s, step).phases[t], Counted(tally, step, t))
    ensures PostSoFar(s.phases[t], tally) ==> PostSoFar(Apply(s, step).phases[t], Counted(tally, step, t))
  {
  }

  // A wait that gives the mutex back has taken one permit if it returns true, and otherwise none and
  // the condition has refused it once. It has added none.
  lemma WaitOutcome(states: seq<State>, steps: seq<Step>, i: nat, j: nat, t: Thread)
    requires IsRun(states, steps) && i < j < |steps| && InCall(steps, i, j, t)
    requires steps[i] == CallWait(t) && steps[j] == Unlock(t)
    ensures At(states[j], t, WaitDone(true)) || At(states[j], t, WaitDone(false))
    ensures TallyOf(steps[i..j], t) ==
            if At(states[j], t, WaitDone(true)) then Tally(1, 0, 0, 0, 0) else Tally(0, 1, 0, 0, 0)
  {
    CallSoFar(states, steps, i, j, t);
  }

  // A post that gives the mutex back has added one permit unless it was refused, and returns true
  // exactly if it has also signalled.
  lemma PostOutcome(states: seq<State>, steps: seq<Step>, i: nat, j: nat, t: Thread)
    requires IsRun(states, steps) && i < j < |steps| && InCall(steps, i, j, t)
    requires steps[i] == CallPost(t) && steps[j] == Unlock(t)
    ensures t in states[j].phases && states[j].phases[t].PostDone?
    ensures var p, tally := states[j].phases[t], TallyOf(steps[i..j], t);
            && tally.takes == tally.conditions == 0 && tally.adds + tally.refusals == 1 && tally.signals <= tally.adds
            && (p.added <==> tally.adds == 1) && (p.ok <==> tally.signals == 1)
  {
    CallSoFar(states, steps, i, j, t);
  }

  lemma WaitsBehindPostsKept(s: State, step: Step)
    requires Enabled(s, step) && MutualExclusion(s) && Accounted(s) && s.waits <= s.returnedPosts
    ensures Apply(s, step).waits <= Apply(s, step).returnedPosts
  {
    if step.Take? {
      assert Holds(s.phases[step.t]);
    }
  }

  lemma {:induction false} WaitsBehindPosts(states: seq<State>, steps: seq<Step>, i: nat)
    requires IsRun(states, steps) && i <= |steps|
    ensures states[i].waits <= states[i].returnedPosts
  {
    hide MutualExclusion, Accounted, Enabled, Apply;
    if i > 0 {
      WaitsBehindPosts(states, steps, i - 1);
      RunIsSafe(states, steps, i - 1);
      WaitsBehindPostsKept(states[i - 1], steps[i - 1]);
    }
  }

  lemma HarmlessExactly(states: seq<State>, steps: seq<Step>, i: nat)
    requires IsRun(states, steps) && i < |steps| && steps[i].SignalFails?
    ensures NoLostWake(states[i + 1]) <==> Harmless(states[i])
  {
    hide Harmless, NoLostWake;
    FailedSignal(states[i], steps[i].t);
  }

  // In every run, no wake is ever lost if and only if every failed signal was harmless when it failed.
  lemma {:induction false} NoWakeIsLostUpTo(states: seq<State>, steps: seq<Step>, i: nat)
    requires IsRun(states, steps) && i <= |steps|
    requires forall j :: 0 <= j < i && steps[j].SignalFails? ==> Harmless(states[j])
    ensures NoLostWake(states[i])
  {
    hide NoLostWake, Harmless, Enabled, Apply;
    if i == 0 {
      InitialState(states[0]);
    } else {
      NoWakeIsLostUpTo(states, steps, i - 1);
      if steps[i - 1].SignalFails? {
        HarmlessExactly(states, steps, i - 1);
      } else {
        NoLostWakeKept(states[i - 1], steps[i - 1]);
      }
    }
  }

  lemma NoWakeIsLostExactly(states: seq<State>, steps: seq<Step>)
    requires IsRun(states, steps)
    ensures (forall i :: 0 <= i <= |steps| ==> NoLostWake(states[i])) <==>
            (forall j :: 0 <= j < |steps| && steps[j].SignalFails? ==> Harmless(states[j]))
  {
    hide NoLostWake, Harmless, Enabled, Apply;
    if forall j :: 0 <= j < |steps| && steps[j].SignalFails? ==> Harmless(states[j]) {
      forall i | 0 <= i <= |steps| ensures NoLostWake(states[i]) {
        NoWakeIsLostUpTo(states, steps, i);
      }
    }
    if forall i :: 0 <= i <= |steps| ==> NoLostWake(states[i]) {
      forall j | 0 <= j < |steps| && steps[j].SignalFails? ensures Harmless(states[j]) {
        HarmlessExactly(states, steps, j);
        assert NoLostWake(states[j + 1]);
      }
    }
  }

  // So between critical sections, the threads woken but not yet running number at least the permits;
  // and while there is a permit one of them can always take the mutex.
  lemma SleepersAreCovered(states: seq<State>, steps: seq<Step>, i: nat)
    requires IsRun(states, steps) && i <= |steps|
    requires forall j :: 0 <= j < i && steps[j].SignalFails? ==> Harmless(states[j])
    requires states[i].owner == None && Sleepers(states[i].phases) != {}
    ensures var woken := set t | t in states[i].phases && states[i].phases[t] == Woken;
            |woken| >= states[i].permits &&
            (states[i].permits > 0 ==> exists t :: t in woken && Enabled(states[i], Lock(t)))
  {
    var s := states[i];
    NoWakeIsLostUpTo(states, steps, i);
    RunIsSafe(states, steps, i);
    var woken := set t | t in s.phases && s.phases[t] == Woken;
    assert woken == Awake(s.phases);
    if s.permits > 0 {
      var t :| t in woken;
      assert Enabled(s, Lock(t));
    }
  }

  predicate Leads(s: State, step: Step, next: State) { Enabled(s, step) && Apply(s, step) == next }

  ghost predicate RunTo(states: seq<State>, steps: seq<Step>, last: State) {
    IsRun(states, steps) && states[|steps|] == last
  }

  lemma Extend(states: seq<State>, steps: seq<Step>, s: State, step: Step, next: State)
      returns (states': seq<State>, steps': seq<Step>)
    requires RunTo(states, steps, s) && Leads(s, step, next)
    ensures RunTo(states', steps', next)
  {
    hide Enabled, Apply, Initial;
    states', steps' := states + [next], steps + [step];
  }

  function Pair(p0: Phase, p1: Phase, owner: Option<Thread>, permits: nat, returnedPosts: nat): State {
    State(map[0 := p0, 1 := p1], owner, permits, permits, 0, returnedPosts, 0)
  }

  // Thread 0 waits with no permit and falls asleep.
  lemma ThenSleeps()
    ensures Leads(Pair(Idle, Idle, None, 0, 0), CallWait(0), Pair(WaitEntry, Idle, None, 0, 0))
    ensures Leads(Pair(WaitEntry, Idle, None, 0, 0), Lock(0), Pair(Testing, Idle, Some(0), 0, 0))
    ensures Leads(Pair(Testing, Idle, Some(0), 0, 0), Sleep(0), Pair(Sleeping, Idle, None, 0, 0))
  {
  }

  // Thread 1 adds a permit.
  lemma ThenPosts()
    ensures Leads(Pair(Sleeping, Idle, None, 0, 0), CallPost(1), Pair(Sleeping, PostEntry, None, 0, 0))
    ensures Leads(Pair(Sleeping, PostEntry, None, 0, 0), Lock(1), Pair(Sleeping, Adding, Some(1), 0, 0))
    ensures Leads(Pair(Sleeping, Adding, Some(1), 0, 0), Add(1), Pair(Sleeping, Signalling, Some(1), 1, 0))
  {
  }

  // Its signal fails.
  lemma ThenFails()
    ensures Leads(Pair(Sleeping, Signalling, Some(1), 1, 0), SignalFails(1), Pair(Sleeping, PostDone(true, false), Some(1), 1, 0))
    ensures Leads(Pair(Sleeping, PostDone(true, false), Some(1), 1, 0), Unlock(1), Pair(Sleeping, Idle, None, 1, 1))
  {
  }

  lemma Begin(s: State)
    requires Initial(s)
    ensures RunTo([s], [], s)
  {
  }

  // One failed signal is enough to leave a thread asleep beside a permit with nobody on the way.
  lemma FailedSignalLosesAWake() returns (states: seq<State>, steps: seq<Step>)
    ensures IsRun(states, steps)
    ensures var s := states[|steps|];
            s.permits == 1 && Sleepers(s.phases) != {} && Awake(s.phases) == {} && s.owner == None
  {
    var s0 := Pair(Idle, Idle, None, 0, 0);
    Begin(s0);
    hide IsRun, Leads, Pair;
    ThenSleeps();
    ThenPosts();
    ThenFails();
    var s1, s2 := Pair(WaitEntry, Idle, None, 0, 0), Pair(Testing, Idle, Some(0), 0, 0);
    var s3, s4 := Pair(Sleeping, Idle, None, 0, 0), Pair(Sleeping, PostEntry, None, 0, 0);
    var s5, s6 := Pair(Sleeping, Adding, Some(1), 0, 0), Pair(Sleeping, Signalling, Some(1), 1, 0);
    var s7, s8 := Pair(Sleeping, PostDone(true, false), Some(1), 1, 0), Pair(Sleeping, Idle, None, 1, 1);
    states, steps := Extend([s0], [], s0, CallWait(0), s1);
    states, steps := Extend(states, steps, s1, Lock(0), s2);
    states, steps := Extend(states, steps, s2, Sleep(0), s3);
    states, steps := Extend(states, steps, s3, CallPost(1), s4);
    states, steps := Extend(states, steps, s4, Lock(1), s5);
    states, steps := Extend(states, steps, s5, Add(1), s6);
    states, steps := Extend(states, steps, s6, SignalFails(1), s7);
    states, steps := Extend(states, steps, s7, Unlock(1), s8);
    Stranded(s8);
  }

  lemma Stranded(s: State)
    requires s == Pair(Sleeping, Idle, None, 1, 1)
    ensures s.permits == 1 && s.owner == None && Sleepers(s.phases) != {} && Awake(s.phases) == {}
  {
    assert 0 in Sleepers(s.phases);
  }
}
