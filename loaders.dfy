/**
  merci/loaders.py: the loader runs every configuration reader in turn,
  counting each attempt and each failure. An IOError or an
  InstantiationException from a reader is counted and the loop goes on; any
  other exception is counted and leaves the loop.
 */
module Loaders {
  import opened Wrappers
  import opened Errors
  import Metrics
  import opened Fetchers
  import opened Readers

  /** What `execute_readers` catches and goes on after: IOError (with its subclasses) and InstantiationException. */
  predicate Isolated(e: Error) {
    IsIoError(e) || e == Instantiation
  }

  /** A reader outcome the loop goes on after: no exception, or an isolated one. */
  predicate Continues(outcome: Option<Error>) {
    outcome.None? || Isolated(outcome.value)
  }

  /**
    The state of the loop over the readers: the requests and failures it
    counted, and the exception that left it.
   */
  datatype LoaderRun = LoaderRun(requests: nat, failures: nat, raised: Option<Error>)

  /** One pass of the loop, given what the reader's `execute` raised; after an exception nothing changes. */
  function LoadStep(run: LoaderRun, outcome: Option<Error>): LoaderRun {
    if run.raised.Some? then run
    else
      var counted := run.(requests := run.requests + 1);
      match outcome
      case None => counted
      case Some(e) =>
        if Isolated(e) then counted.(failures := run.failures + 1)
        else counted.(failures := run.failures + 1, raised := Some(e))
  }

  /** The loop over the outcomes of the readers, in list order, as a fold over a prefix of them. */
  function LoadAll(outcomes: seq<Option<Error>>): LoaderRun {
    if outcomes == [] then LoaderRun(0, 0, None)
    else LoadStep(LoadAll(outcomes[..|outcomes| - 1]), outcomes[|outcomes| - 1])
  }

  lemma LoadAllAppend(outcomes: seq<Option<Error>>, outcome: Option<Error>)
    ensures LoadAll(outcomes + [outcome]) == LoadStep(LoadAll(outcomes), outcome)
  {
    assert (outcomes + [outcome])[..|outcomes|] == outcomes;
  }

  /** The number of readers that raised. */
  function Raised(outcomes: seq<Option<Error>>): (n: nat)
    ensures n <= |outcomes|
  {
    if outcomes == [] then 0
    else Raised(outcomes[..|outcomes| - 1]) + (if outcomes[|outcomes| - 1].Some? then 1 else 0)
  }

  /**
    Requests count the readers attempted and failures those that raised, so
    there are never more failures than requests. When no exception leaves the
    loop, every reader was attempted.
   */
  lemma {:induction false} LoadAllCounts(outcomes: seq<Option<Error>>)
    ensures LoadAll(outcomes).requests <= |outcomes|
    ensures LoadAll(outcomes).failures <= LoadAll(outcomes).requests
    ensures LoadAll(outcomes).raised.None? ==>
      LoadAll(outcomes).requests == |outcomes| && LoadAll(outcomes).failures == Raised(outcomes)
  {
    if outcomes != [] {
      LoadAllCounts(outcomes[..|outcomes| - 1]);
    }
  }

  /** No exception leaves the loop exactly when every reader either succeeds or raises an isolated exception. */
  lemma {:induction false} LoadAllContinues(outcomes: seq<Option<Error>>)
    ensures LoadAll(outcomes).raised.None? <==> forall i :: 0 <= i < |outcomes| ==> Continues(outcomes[i])
  {
    if outcomes != [] {
      var front := outcomes[..|outcomes| - 1];
      LoadAllContinues(front);
      assert forall i :: 0 <= i < |front| ==> front[i] == outcomes[i];
    }
  }

  /**
    The exception that leaves the loop is the one of the first reader whose
    exception is not isolated; that reader is the last one attempted.
   */
  lemma {:induction false} LoadAllFirstRaised(outcomes: seq<Option<Error>>)
    requires LoadAll(outcomes).raised.Some?
    ensures exists i ::
      && 0 <= i < |outcomes|
      && outcomes[i] == LoadAll(outcomes).raised
      && !Isolated(outcomes[i].value)
      && LoadAll(outcomes).requests == i + 1
      && (forall j :: 0 <= j < i ==> Continues(outcomes[j]))
  {
    var front := outcomes[..|outcomes| - 1];
    var i := |outcomes| - 1;
    if LoadAll(front).raised.Some? {
      LoadAllFirstRaised(front);
      var k :| 0 <= k < |front| && front[k] == LoadAll(front).raised && !Isolated(front[k].value)
        && LoadAll(front).requests == k + 1 && (forall j :: 0 <= j < k ==> Continues(front[j]));
      assert outcomes[k] == front[k];
      assert forall j :: 0 <= j < k ==> outcomes[j] == front[j];
    } else {
      LoadAllContinues(front);
      LoadAllCounts(front);
      assert forall j :: 0 <= j < i ==> outcomes[j] == front[j];
    }
  }

  /** Once an exception has left the loop, the outcomes of later readers change nothing. */
  lemma {:induction false} LoadAllRaisedStays(outcomes: seq<Option<Error>>, more: seq<Option<Error>>)
    requires LoadAll(outcomes).raised.Some?
    ensures LoadAll(outcomes + more) == LoadAll(outcomes)
    decreases |more|
  {
    if more != [] {
      var front := more[..|more| - 1];
      LoadAllRaisedStays(outcomes, front);
      var all := outcomes + more;
      assert all[..|all| - 1] == outcomes + front;
      assert LoadAll(all) == LoadStep(LoadAll(outcomes + front), all[|all| - 1]);
    } else {
      assert outcomes + more == outcomes;
    }
  }

  /**
    When every reader succeeds, each one is one request and none is a
    failure: two readers that both load give two requests and no failures.
   */
  lemma {:induction false} LoadAllClean(outcomes: seq<Option<Error>>)
    requires forall i :: 0 <= i < |outcomes| ==> outcomes[i].None?
    ensures LoadAll(outcomes) == LoaderRun(|outcomes|, 0, None)
  {
    if outcomes != [] {
      LoadAllClean(outcomes[..|outcomes| - 1]);
    }
  }

  /**
    What a reader's `execute` does, given its configuration, its state before
    the run and the filesystem: its new state and what it raises.
   */
  type ReaderRun = (ReaderConfig, ReaderState, FileSystem) -> Executed

  ghost function RunOf(): (run: ReaderRun)
    ensures RunsAs(run)
  {
    (c: ReaderConfig, s: ReaderState, fs: FileSystem) => ExecuteSpec(c, s, fs)
  }

  /**
    `run` gives what `execute` does. The quantifier is instantiated only
    where a run of a reader is in view, which keeps the specification of a
    whole run out of the loop over the readers.
   */
  ghost predicate RunsAs(run: ReaderRun) {
    forall c, s, fs {:trigger ExecuteSpec(c, s, fs)} :: run(c, s, fs) == ExecuteSpec(c, s, fs)
  }

  /** `ConfigurationLoader`, without its scheduler: `scheduled` records whether `start` got as far as scheduling. */
  class ConfigurationLoader {
    const readers: seq<ConfigurationReader>
    const metrics: Metrics.LoaderMetrics
    var scheduled: bool
    /** What each reader's `execute` does. */
    ghost const run: ReaderRun

    /** The objects the readers may change. */
    ghost const objects: set<object>

    /** Every reader's footprint lies inside `objects`, and the loader and its own metrics lie outside. */
    ghost predicate Inside() {
      && this !in objects && metrics !in objects
      && forall j :: 0 <= j < |readers| ==> readers[j].Footprint() <= objects
    }

    /** The state of every reader, in list order. */
    ghost function States(): (ss: seq<ReaderState>)
      requires Inside()
      reads objects
      ensures |ss| == |readers|
    {
      seq(|readers|, j requires 0 <= j < |readers| reads objects => readers[j].State())
    }

    /** No two readers share an object that `execute` changes. */
    ghost predicate Separate() {
      forall i, j :: 0 <= i < |readers| && 0 <= j < |readers| && i != j ==>
        readers[i].Footprint() !! readers[j].Footprint()
    }

    ghost predicate Valid()
      reads readers
    {
      RunsAs(run) && Inside() && forall r :: r in readers ==> r.Valid()
    }

    constructor (readers: seq<ConfigurationReader>, metrics: Metrics.LoaderMetrics)
      ensures this.readers == readers && this.metrics == metrics && !scheduled
      ensures this.run == RunOf()
      ensures Inside()
    {
      run := RunOf();
      objects := set r, o | r in readers && o in r.Footprint() :: o;
      this.readers := readers;
      this.metrics := metrics;
      scheduled := false;
    }

    /**
      `execute_readers`: runs the readers in list order. `outcomes` records
      what each attempted reader raised, `befores` its state just before it
      ran and `afters` the state the run left it in. When no two readers share
      an object, the attempted readers end in `afters` and the others are
      untouched.
     */
    method ExecuteReaders(fs: FileSystem)
      returns (err: Option<Error>, ghost outcomes: seq<Option<Error>>, ghost befores: seq<ReaderState>, ghost afters: seq<ReaderState>)
      requires Valid()
      modifies metrics, objects
      ensures Valid()
      ensures |outcomes| == |befores| == |afters| <= |readers|
      ensures forall j {:trigger befores[j]} :: 0 <= j < |outcomes| ==>
        && outcomes[j] == run(readers[j].Config(), befores[j], fs).error
        && afters[j] == run(readers[j].Config(), befores[j], fs).state
      ensures err == LoadAll(outcomes).raised
      ensures LoadAll(outcomes).requests == |outcomes|
      ensures err.None? ==> |outcomes| == |readers|
      ensures metrics.Counts() == Metrics.LoaderCounts(
        old(metrics.configurationRequests) + LoadAll(outcomes).requests,
        old(metrics.configurationFailures) + LoadAll(outcomes).failures)
      ensures Separate() ==> befores == old(States())[..|outcomes|]
      ensures Separate() ==> States() == afters + old(States())[|outcomes|..]
    {
      outcomes, befores, afters := [], [], [];
      err := None;
      ghost var counted := LoadAll(outcomes);
      ghost var initial := States();
      var i := 0;
      while i < |readers|
        invariant 0 <= i <= |readers|
        invariant Valid()
        invariant |outcomes| == |befores| == |afters| == i
        invariant forall j {:trigger befores[j]} :: 0 <= j < i ==>
          && outcomes[j] == run(readers[j].Config(), befores[j], fs).error
          && afters[j] == run(readers[j].Config(), befores[j], fs).state
        invariant counted == LoadAll(outcomes) && counted.requests == i && counted.raised.None?
        invariant metrics.Counts() == Metrics.LoaderCounts(
          old(metrics.configurationRequests) + i, old(metrics.configurationFailures) + counted.failures)
        invariant Separate() ==> befores == initial[..i] && States() == afters + initial[i..]
      {
        ghost var current := States();
        var outcome, before, after := Attempt(i, fs);
        if Separate() {
          StepStates(initial, befores, afters, current, before, after, States());
        }
        LoadAllAppend(outcomes, outcome);
        RunsAppend(fs, outcomes, befores, afters, outcome, before, after);
        outcomes, befores, afters := outcomes + [outcome], befores + [before], afters + [after];
        counted := LoadStep(counted, outcome);
        if outcome.Some? && !Isolated(outcome.value) {
          return outcome, outcomes, befores, afters;
        }
        i := i + 1;
      }
    }

    /** The record of the attempted readers' runs, extended by the next reader's. */
    lemma RunsAppend(fs: FileSystem, outcomes: seq<Option<Error>>, befores: seq<ReaderState>, afters: seq<ReaderState>,
                     outcome: Option<Error>, before: ReaderState, after: ReaderState)
      requires |outcomes| == |befores| == |afters| < |readers|
      requires forall j {:trigger befores[j]} :: 0 <= j < |outcomes| ==>
        && outcomes[j] == run(readers[j].Config(), befores[j], fs).error
        && afters[j] == run(readers[j].Config(), befores[j], fs).state
      requires outcome == run(readers[|outcomes|].Config(), before, fs).error
      requires after == run(readers[|outcomes|].Config(), before, fs).state
      ensures var os, bs, ss := outcomes + [outcome], befores + [before], afters + [after];
        forall j {:trigger bs[j]} :: 0 <= j < |os| ==>
          && os[j] == run(readers[j].Config(), bs[j], fs).error
          && ss[j] == run(readers[j].Config(), bs[j], fs).state
    {
    }

    /** One more reader run keeps the states split into the attempted readers' and the untouched rest. */
    static lemma StepStates<T>(initial: seq<T>, befores: seq<T>, afters: seq<T>, current: seq<T>, before: T, after: T, next: seq<T>)
      requires |befores| == |afters| < |initial|
      requires befores == initial[..|befores|] && current == afters + initial[|befores|..]
      requires before == current[|befores|] && next == current[|befores| := after]
      ensures befores + [before] == initial[..|befores| + 1]
      ensures next == (afters + [after]) + initial[|befores| + 1..]
    {
    }

    /**
      One pass of the loop: counts the request, runs the `i`-th reader and
      counts a failure when it raises.
     */
    method Attempt(i: nat, fs: FileSystem) returns (outcome: Option<Error>, ghost before: ReaderState, ghost after: ReaderState)
      requires i < |readers| && Valid()
      modifies metrics, objects
      ensures Valid()
      ensures before == old(States())[i]
      ensures outcome == run(readers[i].Config(), before, fs).error
      ensures after == run(readers[i].Config(), before, fs).state
      ensures Separate() ==> States() == old(States())[i := after]
      ensures metrics.Counts() == Metrics.LoaderCounts(
        old(metrics.configurationRequests) + 1,
        old(metrics.configurationFailures) + if outcome.Some? then 1 else 0)
    {
      ghost var initial := States();
      metrics.IncrementConfigurationRequests();
      assert States() == initial;
      outcome, before, after := ExecuteReader(i, fs);
      ghost var executed := States();
      if outcome.Some? {
        metrics.IncrementConfigurationFailures();
        assert States() == executed;
      }
    }

    /** `reader.execute()` on the `i`-th reader. */
    method ExecuteReader(i: nat, fs: FileSystem) returns (outcome: Option<Error>, ghost before: ReaderState, ghost after: ReaderState)
      requires i < |readers| && Valid()
      modifies objects
      ensures Valid()
      ensures before == old(States())[i]
      ensures outcome == run(readers[i].Config(), before, fs).error
      ensures after == run(readers[i].Config(), before, fs).state
      ensures Separate() ==> States() == old(States())[i := after]
    {
      var reader := readers[i];
      assert reader.Footprint() <= objects;
      before := reader.State();
      var executed := reader.Execute(fs);
      outcome := executed;
      after := reader.State();
      if Separate() {
        forall j | 0 <= j < |readers| && j != i ensures readers[j].State() == old(readers[j].State()) {
          assert readers[i].Footprint() !! readers[j].Footprint();
        }
      }
    }

    /**
      `start`: runs the readers once, then schedules the periodic runs. An
      exception from the first run leaves `start` before anything is scheduled.
     */
    method Start(fs: FileSystem) returns (err: Option<Error>, ghost outcomes: seq<Option<Error>>)
      requires Valid()
      modifies this, metrics, objects
      ensures Valid()
      ensures err == LoadAll(outcomes).raised
      ensures err.None? ==> |outcomes| == |readers|
      ensures metrics.Counts() == Metrics.LoaderCounts(
        old(metrics.configurationRequests) + LoadAll(outcomes).requests,
        old(metrics.configurationFailures) + LoadAll(outcomes).failures)
      ensures err.None? ==>
        && metrics.configurationRequests == old(metrics.configurationRequests) + |readers|
        && metrics.configurationFailures <= old(metrics.configurationFailures) + |readers|
      ensures err.Some? ==>
        && outcomes != [] && outcomes[|outcomes| - 1] == err && !Isolated(err.value)
        && forall j :: 0 <= j < |outcomes| - 1 ==> Continues(outcomes[j])
      ensures scheduled == (old(scheduled) || err.None?)
    {
      ghost var befores, afters;
      err, outcomes, befores, afters := ExecuteReaders(fs);
      LoadAllCounts(outcomes);
      if err.Some? {
        LoadAllFirstRaised(outcomes);
      }
      if err.Some? {
        return;
      }
      scheduled := true;
    }
  }
}
