// Builds and edits in any order: what every build of a directory's history can rely on.
module BuildHistory {
  import opened StateHash
  import opened BuildCache
  import opened IncrementalBuild
  import opened LostWrite

  // Between two states of a directory: somebody edits it, or a build runs, to its end or to a failure.
  // Flags and lists of targets may change from build to build.
  datatype Event = Edit | Attempt(plan: Plan, force: bool)

  // outs: every output of any of the builds.
  ghost predicate WithinOuts(tools: Toolchain, plan: Plan, outs: set<Path>) {
    WellFormed(tools, plan) && Outs(plan) <= outs
  }

  ghost predicate Follows(tools: Toolchain, outs: set<Path>, d: Dir, event: Event, e: Dir) {
    match event
    case Edit => Edited(d, e, outs)
    case Attempt(plan, force) => WithinOuts(tools, plan, outs) && e == Outcome(tools, plan, d, force)
  }

  // From a directory without records, any number of events.
  ghost predicate IsHistory(tools: Toolchain, outs: set<Path>, dirs: seq<Dir>, events: seq<Event>) {
    && |dirs| == |events| + 1 && dirs[0].hashes == map[]
    && forall i :: 0 <= i < |events| ==> Follows(tools, outs, dirs[i], events[i], dirs[i + 1])
  }

  lemma LayerGrows(tools: Toolchain, ts: seq<Target>, some: set<Path>, outs: set<Path>)
    requires Layer(tools, ts, some) && some <= outs
    ensures Layer(tools, ts, outs)
  {
  }

  // Every hash comes from a build, even where its dependency file was deleted.
  lemma {:induction false} HistoryIsSourced(tools: Toolchain, outs: set<Path>, dirs: seq<Dir>, events: seq<Event>, i: nat, out: Path)
    requires Honest(tools, outs) && IsHistory(tools, outs, dirs, events) && i <= |events| && out in outs
    ensures Sourced(tools, out, dirs[i])
  {
    hide Honest, Edited, Layer, Outside, Outs, Outcome;
    if i == 0 {
      hide IsHistory;
      NoHashSourced(tools, out, dirs, outs, events);
    } else {
      HistoryIsSourced(tools, outs, dirs, events, i - 1, out);
      hide Sourced;
      assert Follows(tools, outs, dirs[i - 1], events[i - 1], dirs[i]);
      match events[i - 1]
      case Edit =>
        EditSourced(tools, out, dirs[i - 1], dirs[i], outs);
      case Attempt(plan, force) =>
        LayerGrows(tools, plan.compiles, Outs(plan), outs);
        LayerGrows(tools, plan.links, Outs(plan), outs);
        OutcomeSourced(tools, plan, dirs[i - 1], force, out, outs);
    }
  }

  lemma NoHashSourced(tools: Toolchain, out: Path, dirs: seq<Dir>, outs: set<Path>, events: seq<Event>)
    requires IsHistory(tools, outs, dirs, events)
    ensures Sourced(tools, out, dirs[0])
  {
  }

  // Through successes, failures and edits, every recorded hash stays that of the build its output came from.
  lemma HistoryIsFaithful(tools: Toolchain, outs: set<Path>, dirs: seq<Dir>, events: seq<Event>, i: nat)
    requires Honest(tools, outs) && IsHistory(tools, outs, dirs, events) && i <= |events|
    ensures AllFaithful(tools, outs, dirs[i])
  {
    hide Honest, IsHistory, Faithful, Sourced;
    assert |dirs| == |events| + 1 by { HistoryLength(tools, outs, dirs, events); }
    forall out | out in outs
      ensures Faithful(tools, out, dirs[i])
    {
      HistoryIsSourced(tools, outs, dirs, events, i, out);
      SourcedIsFaithful(tools, out, dirs[i]);
    }
  }

  lemma HistoryLength(tools: Toolchain, outs: set<Path>, dirs: seq<Dir>, events: seq<Event>)
    requires IsHistory(tools, outs, dirs, events)
    ensures |dirs| == |events| + 1
  {
  }

  lemma FewerOuts(tools: Toolchain, some: set<Path>, outs: set<Path>, d: Dir)
    requires some <= outs && Honest(tools, outs) && AllFaithful(tools, outs, d)
    ensures Honest(tools, some) && AllFaithful(tools, some, d)
  {
    hide Faithful;
    forall cmd, f | tools.run(cmd, f).Some? ensures HonestRun(tools, cmd, f, some) {
      assert HonestRun(tools, cmd, f, outs);
    }
  }

  // After any history, a build without collisions succeeds exactly when a clean build of the sources
  // there are does, and then leaves the same objects and executables.
  lemma EveryBuildIsClean(tools: Toolchain, outs: set<Path>, dirs: seq<Dir>, events: seq<Event>, i: nat, clean: Dir)
    requires Hermetic(tools) && Honest(tools, outs) && IsHistory(tools, outs, dirs, events)
    requires i < |events| && events[i].Attempt?
    requires NoCollisions(tools, events[i].plan, dirs[i], events[i].force)
    requires clean.hashes == map[] && SameSources(dirs[i], clean, Outs(events[i].plan))
    ensures var plan, force := events[i].plan, events[i].force;
            && (BuildOk(tools, plan, dirs[i], force) <==> BuildOk(tools, plan, clean, false))
            && (BuildOk(tools, plan, dirs[i], force) ==>
                  forall o :: o in Outs(plan) ==> SameOutput(dirs[i + 1], Build(tools, plan, clean, false), o))
  {
    hide Hermetic, Honest, WellFormed, AllFaithful, NoCollisions, Build, SameSources, Outs, Run, RunOk, SameOutput;
    var plan, force := events[i].plan, events[i].force;
    assert Follows(tools, outs, dirs[i], events[i], dirs[i + 1]);
    HistoryIsFaithful(tools, outs, dirs, events, i);
    FewerOuts(tools, Outs(plan), outs, dirs[i]);
    IncrementalIsClean(tools, plan, dirs[i], clean, force);
  }
}
