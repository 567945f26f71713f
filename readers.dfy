/**
  merci/readers.py: a reader fetches the configuration files of one
  application, fingerprints them, and — unless the fingerprint is unchanged
  and the skip budget allows a skip — parses every document and publishes the
  merged configurations to the store in one assignment.
 */
module Readers {
  import opened Wrappers
  import opened Errors
  import opened Dicts
  import opened Structure
  import opened Ordering
  import opened Deserialization
  import opened Fetchers
  import Metrics
  import Managers

  /** A SHA-256 digest. */
  type Digest = seq<bv8>

  // ---------------------------------------------------------------------------
  // The fingerprint of the fetched files
  // ---------------------------------------------------------------------------

  /** The byte stream fed to the digest: each file name followed by its content. */
  function HashInput(items: Dict<string>): string
  {
    if items == [] then ""
    else HashInput(items[..|items| - 1]) + items[|items| - 1].0 + items[|items| - 1].1
  }

  /** The digest of the fetched files, taken in order of file name. */
  function Fingerprint(hash: string -> Digest, contents: Dict<string>): Digest {
    hash(HashInput(SortByKey(contents)))
  }

  /**
    The fingerprint sees the set of (file name, content) pairs and not the order
    in which the fetcher returned them.
   */
  lemma {:induction false} FingerprintIgnoresOrder(hash: string -> Digest, d1: Dict<string>, d2: Dict<string>)
    requires DistinctKeys(d1) && DistinctKeys(d2)
    requires multiset(d1) == multiset(d2)
    ensures Fingerprint(hash, d1) == Fingerprint(hash, d2)
  {
    SortByKeyIgnoresOrder(d1, d2);
  }

  // ---------------------------------------------------------------------------
  // Parsing every document: the loop of `__update_configuration_store`
  // ---------------------------------------------------------------------------

  /** How the loop reads one document: the mapper's `read_value`. */
  type DocumentReader = string -> MapperOutcome

  function ReadOf(c: MapperConfig): (read: DocumentReader)
    ensures ReadsAs(read, c)
  {
    (content: string) => ReadValueSpec(c, content)
  }

  /**
    `read` gives what `read_value` gives under the mapper configuration `c`.
    The quantifier is instantiated only where a call of `read_value` is in
    view, so that reasoning about the reader never unfolds the mapper.
   */
  ghost predicate ReadsAs(read: DocumentReader, c: MapperConfig) {
    forall content {:trigger ReadValueSpec(c, content)} :: read(content) == ReadValueSpec(c, content)
  }

  /** What `read` gives for one document. */
  lemma ReadsAsAt(read: DocumentReader, c: MapperConfig, content: string)
    requires ReadsAs(read, c)
    ensures read(content) == ReadValueSpec(c, content)
  {
  }

  /** The exceptions the loop absorbs as content failures: JSONDecodeError and IOError. */
  predicate IsContentFailure(e: Error) {
    e == JsonDecodeError || IsIoError(e)
  }

  /** A document outcome the loop goes on after. */
  predicate Tolerated(r: Result<map<string, Node>, Error>) {
    r.Success? || IsContentFailure(r.error)
  }

  /**
    The state of the loop: the merged configurations, the number of entries
    read, the documents that failed, the entries the mapper skipped, and the
    exception that left the loop.
   */
  datatype UpdateRun = UpdateRun(cache: map<string, Node>, total: nat, failures: nat, skips: nat, raised: Option<Error>)

  function UpdateStep(read: DocumentReader, run: UpdateRun, content: string): UpdateRun {
    if run.raised.Some? then run
    else
      var out := read(content);
      var run' := run.(skips := run.skips + out.skips);
      match out.result
      case Success(configurations) =>
        run'.(cache := run.cache + configurations, total := run.total + |configurations|)
      case Failure(e) =>
        if IsContentFailure(e) then run'.(failures := run.failures + 1) else run'.(raised := Some(e))
  }

  /** The loop over the documents, as a fold over a prefix of them. */
  function UpdateDocs(read: DocumentReader, contents: seq<string>): UpdateRun {
    if contents == [] then UpdateRun(map[], 0, 0, 0, None)
    else UpdateStep(read, UpdateDocs(read, contents[..|contents| - 1]), contents[|contents| - 1])
  }

  /** The documents that fail with a content failure, in order. */
  function FailedDocuments(read: DocumentReader, contents: seq<string>): (failed: seq<string>)
    ensures forall c :: c in failed ==> c in contents && read(c).result.Failure? && IsContentFailure(read(c).result.error)
  {
    if contents == [] then []
    else
      var last := contents[|contents| - 1];
      var r := read(last).result;
      FailedDocuments(read, contents[..|contents| - 1]) + (if r.Failure? && IsContentFailure(r.error) then [last] else [])
  }

  /** A merged map has at most as many keys as the maps merged into it. */
  lemma {:induction false} MergeSize(a: map<string, Node>, b: map<string, Node>)
    ensures |a + b| <= |a| + |b|
  {
    assert (a + b).Keys == a.Keys + b.Keys;
    assert |a.Keys + b.Keys| + |a.Keys * b.Keys| == |a.Keys| + |b.Keys|;
  }

  /**
    The loop gets through exactly when every document parses or fails with a
    content failure.
   */
  lemma {:induction false} UpdateDocsTolerated(read: DocumentReader, contents: seq<string>)
    ensures UpdateDocs(read, contents).raised.None? <==>
      forall i :: 0 <= i < |contents| ==> Tolerated(read(contents[i]).result)
  {
    if contents != [] {
      var prefix := contents[..|contents| - 1];
      UpdateDocsTolerated(read, prefix);
      if UpdateDocs(read, prefix).raised.Some? {
        var i :| 0 <= i < |prefix| && !Tolerated(read(prefix[i]).result);
        assert contents[i] == prefix[i];
      } else {
        assert forall i :: 0 <= i < |prefix| ==> prefix[i] == contents[i];
      }
    }
  }

  /** The exception that leaves the loop is the first one it does not absorb. */
  lemma {:induction false} UpdateDocsFirstRaised(read: DocumentReader, contents: seq<string>)
    requires UpdateDocs(read, contents).raised.Some?
    ensures !IsContentFailure(UpdateDocs(read, contents).raised.value)
    ensures exists i ::
      && 0 <= i < |contents|
      && read(contents[i]).result == Failure(UpdateDocs(read, contents).raised.value)
      && (forall j :: 0 <= j < i ==> Tolerated(read(contents[j]).result))
  {
    var prefix := contents[..|contents| - 1];
    if UpdateDocs(read, prefix).raised.Some? {
      UpdateDocsFirstRaised(read, prefix);
      var i :| 0 <= i < |prefix| &&
        (read(prefix[i]).result == Failure(UpdateDocs(read, prefix).raised.value) &&
         forall j :: 0 <= j < i ==> Tolerated(read(prefix[j]).result));
      assert contents[i] == prefix[i];
      assert forall j :: 0 <= j < i ==> prefix[j] == contents[j];
    } else {
      UpdateDocsTolerated(read, prefix);
      assert forall j :: 0 <= j < |prefix| ==> prefix[j] == contents[j];
    }
  }

  /** When the loop gets through, it has counted one failure per failed document. */
  lemma {:induction false} UpdateDocsFailures(read: DocumentReader, contents: seq<string>)
    requires UpdateDocs(read, contents).raised.None?
    ensures UpdateDocs(read, contents).failures == |FailedDocuments(read, contents)|
  {
    if contents != [] {
      UpdateDocsFailures(read, contents[..|contents| - 1]);
    }
  }

  /** The merged map has no more keys than the entries read. */
  lemma {:induction false} UpdateDocsCacheBound(read: DocumentReader, contents: seq<string>)
    ensures |UpdateDocs(read, contents).cache| <= UpdateDocs(read, contents).total
  {
    if contents != [] {
      var before := UpdateDocs(read, contents[..|contents| - 1]);
      UpdateDocsCacheBound(read, contents[..|contents| - 1]);
      var r := read(contents[|contents| - 1]).result;
      if before.raised.None? && r.Success? {
        MergeSize(before.cache, r.value);
      }
    }
  }

  /**
    When the loop gets through, every key a document defines is in the merged
    map with the value of the last document that defines it.
   */
  lemma {:induction false} UpdateDocsLastWins(read: DocumentReader, contents: seq<string>, i: nat, k: string)
    requires i < |contents|
    requires UpdateDocs(read, contents).raised.None?
    requires read(contents[i]).result.Success? && k in read(contents[i]).result.value
    requires forall j :: i < j < |contents| && read(contents[j]).result.Success? ==> k !in read(contents[j]).result.value
    ensures k in UpdateDocs(read, contents).cache
    ensures UpdateDocs(read, contents).cache[k] == read(contents[i]).result.value[k]
  {
    var prefix, last := contents[..|contents| - 1], contents[|contents| - 1];
    var before := UpdateDocs(read, prefix);
    assert UpdateDocs(read, contents) == UpdateStep(read, before, last);
    assert before.raised.None?;
    UpdateStepCases(read, before, last, read(last));
    if i < |contents| - 1 {
      forall j | i < j < |prefix| && read(prefix[j]).result.Success?
        ensures k !in read(prefix[j]).result.value
      {
        assert prefix[j] == contents[j];
      }
      assert prefix[i] == contents[i];
      UpdateDocsLastWins(read, prefix, i, k);
      assert read(last).result.Success? ==> k !in read(last).result.value;
    }
  }

  /** Every key of the merged map comes from some document. */
  lemma {:induction false} UpdateDocsKeys(read: DocumentReader, contents: seq<string>, k: string)
    requires k in UpdateDocs(read, contents).cache
    ensures exists i :: 0 <= i < |contents| && read(contents[i]).result.Success? && k in read(contents[i]).result.value
  {
    var prefix := contents[..|contents| - 1];
    var last := contents[|contents| - 1];
    var r := read(last).result;
    if !(r.Success? && k in r.value && UpdateDocs(read, prefix).raised.None?) {
      UpdateDocsKeys(read, prefix, k);
      var i :| 0 <= i < |prefix| && read(prefix[i]).result.Success? && k in read(prefix[i]).result.value;
      assert contents[i] == prefix[i];
    } else {
      assert contents[|contents| - 1] == last;
    }
  }

  lemma {:induction false} UpdateDocsNext(read: DocumentReader, contents: seq<string>, i: nat)
    requires i < |contents|
    ensures UpdateDocs(read, contents[..i + 1]) == UpdateStep(read, UpdateDocs(read, contents[..i]), contents[i])
  {
    assert contents[..i + 1][..i] == contents[..i];
  }

  /** The three outcomes of one pass of the loop. */
  lemma UpdateStepCases(read: DocumentReader, run: UpdateRun, content: string, out: MapperOutcome)
    requires run.raised.None? && read(content) == out
    ensures out.result.Success? ==>
      UpdateStep(read, run, content) ==
        run.(skips := run.skips + out.skips, cache := run.cache + out.result.value, total := run.total + |out.result.value|)
    ensures out.result.Failure? && IsContentFailure(out.result.error) ==>
      UpdateStep(read, run, content) == run.(skips := run.skips + out.skips, failures := run.failures + 1)
    ensures out.result.Failure? && !IsContentFailure(out.result.error) ==>
      UpdateStep(read, run, content) == run.(skips := run.skips + out.skips, raised := Some(out.result.error))
  {
  }

  /** After an exception the remaining documents are not read. */
  lemma {:induction false} UpdateDocsRaisedStays(read: DocumentReader, contents: seq<string>, k: nat)
    requires k <= |contents| && UpdateDocs(read, contents[..k]).raised.Some?
    ensures UpdateDocs(read, contents) == UpdateDocs(read, contents[..k])
    decreases |contents| - k
  {
    if k < |contents| {
      assert contents[..k + 1][..k] == contents[..k];
      UpdateDocsRaisedStays(read, contents, k + 1);
    } else {
      assert contents[..k] == contents;
    }
  }

  /** The exception `__update_configuration_store` raises, if any. */
  function UpdateError(run: UpdateRun): Option<Error> {
    if run.raised.Some? then run.raised
    else if run.failures > 0 then Some(IoError)
    else None
  }

  /**
    How `__update_configuration_store` moves the manager's counters: the
    mapper's skips as they happen; content failures once the loop is through,
    even when there are none; duplicates and updates only when it publishes.
   */
  function UpdateCounts(before: Metrics.ManagerCounts, run: UpdateRun): Metrics.ManagerCounts {
    var skipped := before.(nonInstantiableSkips := before.nonInstantiableSkips + run.skips);
    if run.raised.Some? then skipped
    else
      var failed := skipped.(contentFailures := skipped.contentFailures + run.failures);
      if run.failures > 0 then failed
      else failed.(nameDuplicates := failed.nameDuplicates + run.total - |run.cache|, updates := failed.updates + |run.cache|)
  }

  /** Parsing leaves the count of new-content updates alone. */
  lemma UpdateCountsKeepNewContent(before: Metrics.ManagerCounts, run: UpdateRun)
    ensures UpdateCounts(before, run).newContentUpdates == before.newContentUpdates
    ensures forall n :: UpdateCounts(before.(newContentUpdates := n), run) == UpdateCounts(before, run).(newContentUpdates := n)
  {
  }

  /** The three ways `__update_configuration_store` ends. */
  lemma UpdateOutcomeCases(before: Metrics.ManagerCounts, run: UpdateRun)
    ensures run.raised.Some? ==>
      && UpdateError(run) == run.raised
      && UpdateCounts(before, run) == before.(nonInstantiableSkips := before.nonInstantiableSkips + run.skips)
    ensures run.raised.None? && run.failures > 0 ==>
      && UpdateError(run) == Some(IoError)
      && UpdateCounts(before, run) == before.(nonInstantiableSkips := before.nonInstantiableSkips + run.skips,
                                              contentFailures := before.contentFailures + run.failures)
    ensures run.raised.None? && run.failures == 0 ==>
      && UpdateError(run) == None
      && UpdateCounts(before, run) == before.(nonInstantiableSkips := before.nonInstantiableSkips + run.skips,
                                              nameDuplicates := before.nameDuplicates + run.total - |run.cache|,
                                              updates := before.updates + |run.cache|)
  {
  }

  // ---------------------------------------------------------------------------
  // `execute` as a transition of the reader's state
  // ---------------------------------------------------------------------------

  /** What a reader is built from; `read` is its mapper's `read_value`. */
  datatype ReaderConfig = ReaderConfig(
    application: string,
    fileNames: seq<string>,
    basePath: string,
    skipMissingFiles: bool,
    read: DocumentReader,
    maximumSkips: int,
    hash: string -> Digest)

  /**
    Everything `execute` can change: the store, the reader's two fields, and
    the counters of the manager metrics and of the fetcher metrics.
   */
  datatype ReaderState = ReaderState(
    store: map<string, Node>,
    previousHash: Option<Digest>,
    skipsLeft: int,
    counts: Metrics.ManagerCounts,
    fetcherCounts: Metrics.FetcherCounts)

  datatype Executed = Executed(state: ReaderState, error: Option<Error>)

  /** `0 <= skips_left <= maximum_skips`, or, for a negative maximum, `skips_left == maximum_skips`. */
  predicate SkipBudget(skipsLeft: int, maximumSkips: int) {
    skipsLeft == maximumSkips || 0 <= skipsLeft < maximumSkips
  }

  /** A reader that has not executed yet. */
  predicate Fresh(c: ReaderConfig, s: ReaderState) {
    s.previousHash.None? && s.skipsLeft == c.maximumSkips
  }

  function Fetched(c: ReaderConfig, fs: FileSystem): FetchRun {
    FetchAll(FetchOf(fs, c.basePath, c.application), c.skipMissingFiles, c.fileNames)
  }

  function Updated(c: ReaderConfig, contents: Dict<string>): UpdateRun {
    UpdateDocs(c.read, Values(contents))
  }

  /** Whether `execute` skips parsing: the budget allows it and the fingerprint is unchanged. */
  predicate SkipsParsing(c: ReaderConfig, s: ReaderState, contents: Dict<string>) {
    s.skipsLeft > 0 && s.previousHash == Some(Fingerprint(c.hash, contents))
  }

  /**
    Parsing and publishing, once `execute` has decided not to skip: on an
    exception the store, the digest and the skip budget stay as they were;
    otherwise the store is replaced and `digest` becomes the previous digest.
   */
  function PublishSpec(c: ReaderConfig, s: ReaderState, contents: Dict<string>, digest: Digest): Executed {
    var run := Updated(c, contents);
    var s1 := s.(counts := UpdateCounts(s.counts, run).(newContentUpdates := s.counts.newContentUpdates + 1));
    if UpdateError(run).Some? then Executed(s1, UpdateError(run))
    else Executed(s1.(store := run.cache, previousHash := Some(digest), skipsLeft := c.maximumSkips), None)
  }

  /** The two ways parsing and publishing ends. */
  lemma PublishCases(c: ReaderConfig, s: ReaderState, contents: Dict<string>, digest: Digest, run: UpdateRun)
    requires run == Updated(c, contents)
    ensures var counts := UpdateCounts(s.counts, run).(newContentUpdates := s.counts.newContentUpdates + 1);
      && (UpdateError(run).Some? ==> PublishSpec(c, s, contents, digest) == Executed(s.(counts := counts), UpdateError(run)))
      && (UpdateError(run).None? ==>
            PublishSpec(c, s, contents, digest) ==
              Executed(s.(counts := counts, store := run.cache, previousHash := Some(digest), skipsLeft := c.maximumSkips), None))
  {
  }

  /** What `execute` does once the files are fetched: skip, or parse and publish. */
  function UpdateIfChangedSpec(c: ReaderConfig, s: ReaderState, contents: Dict<string>): Executed {
    if SkipsParsing(c, s, contents) then
      Executed(s.(skipsLeft := s.skipsLeft - 1, counts := s.counts.(sameContentSkips := s.counts.sameContentSkips + 1)), None)
    else PublishSpec(c, s, contents, Fingerprint(c.hash, contents))
  }

  function ExecuteSpec(c: ReaderConfig, s: ReaderState, fs: FileSystem): Executed {
    var fetched := Fetched(c, fs);
    var s1 := s.(fetcherCounts := FetchCounts(s.fetcherCounts, fetched));
    if fetched.error.Some? then Executed(s1, fetched.error)
    else UpdateIfChangedSpec(c, s1, fetched.contents)
  }

  /** The two ways `execute` goes once the files are fetched. */
  lemma UpdateIfChangedCases(c: ReaderConfig, s: ReaderState, contents: Dict<string>)
    ensures SkipsParsing(c, s, contents) ==>
      UpdateIfChangedSpec(c, s, contents) ==
        Executed(s.(skipsLeft := s.skipsLeft - 1, counts := s.counts.(sameContentSkips := s.counts.sameContentSkips + 1)), None)
    ensures !SkipsParsing(c, s, contents) ==> UpdateIfChangedSpec(c, s, contents) == PublishSpec(c, s, contents, Fingerprint(c.hash, contents))
  {
  }

  /** `execute` keeps the skip budget. */
  lemma {:induction false} ExecuteKeepsSkipBudget(c: ReaderConfig, s: ReaderState, fs: FileSystem)
    requires SkipBudget(s.skipsLeft, c.maximumSkips)
    ensures SkipBudget(ExecuteSpec(c, s, fs).state.skipsLeft, c.maximumSkips)
    ensures c.maximumSkips >= 0 ==> 0 <= ExecuteSpec(c, s, fs).state.skipsLeft <= c.maximumSkips
  {
  }

  /** The first `execute` never skips: there is no previous digest to match. */
  lemma {:induction false} FirstExecuteParses(c: ReaderConfig, s: ReaderState, fs: FileSystem)
    requires Fresh(c, s)
    requires Fetched(c, fs).error.None?
    ensures ExecuteSpec(c, s, fs).state.counts.newContentUpdates == s.counts.newContentUpdates + 1
    ensures ExecuteSpec(c, s, fs).state.counts.sameContentSkips == s.counts.sameContentSkips
    ensures ExecuteSpec(c, s, fs).error.None? ==>
      ExecuteSpec(c, s, fs).state.previousHash == Some(Fingerprint(c.hash, Fetched(c, fs).contents))
  {
  }

  /**
    A skip changes the skip budget and one counter, besides the fetcher's
    counters, and nothing else.
   */
  lemma {:induction false} ExecuteSkip(c: ReaderConfig, s: ReaderState, fs: FileSystem)
    requires Fetched(c, fs).error.None? && SkipsParsing(c, s, Fetched(c, fs).contents)
    ensures var t := ExecuteSpec(c, s, fs);
      && t.error.None?
      && t.state.store == s.store && t.state.previousHash == s.previousHash
      && t.state.skipsLeft == s.skipsLeft - 1
      && t.state.counts == s.counts.(sameContentSkips := s.counts.sameContentSkips + 1)
  {
  }

  /**
    A fetch error leaves `execute` before anything but the fetcher's counters
    has changed.
   */
  lemma {:induction false} ExecuteFetchFailure(c: ReaderConfig, s: ReaderState, fs: FileSystem)
    requires Fetched(c, fs).error.Some?
    ensures var t := ExecuteSpec(c, s, fs);
      && t.error == Fetched(c, fs).error
      && t.state == s.(fetcherCounts := t.state.fetcherCounts)
  {
  }

  /** The documents `execute` parses when it does not skip: the fetched contents in fetch order. */
  function Documents(c: ReaderConfig, fs: FileSystem): seq<string> {
    Values(Fetched(c, fs).contents)
  }

  /**
    When a document fails to parse as JSON or with an IOError, and no other
    exception comes first, `execute` raises IOError; it counts every failed
    document and the attempt to update, but keeps the store, the digest and
    the skip budget.
   */
  lemma {:induction false} ExecuteContentFailure(c: ReaderConfig, s: ReaderState, fs: FileSystem)
    requires Fetched(c, fs).error.None? && !SkipsParsing(c, s, Fetched(c, fs).contents)
    requires forall i :: 0 <= i < |Documents(c, fs)| ==> Tolerated(c.read(Documents(c, fs)[i]).result)
    requires exists i :: 0 <= i < |Documents(c, fs)| && c.read(Documents(c, fs)[i]).result.Failure?
    ensures var t := ExecuteSpec(c, s, fs);
      && t.error == Some(IoError)
      && t.state.store == s.store && t.state.previousHash == s.previousHash && t.state.skipsLeft == s.skipsLeft
      && t.state.counts.contentFailures == s.counts.contentFailures + |FailedDocuments(c.read, Documents(c, fs))|
      && t.state.counts.newContentUpdates == s.counts.newContentUpdates + 1
      && t.state.counts.updates == s.counts.updates
  {
    var documents := Documents(c, fs);
    var read := c.read;
    UpdateDocsTolerated(read, documents);
    UpdateDocsFailures(read, documents);
    var i :| 0 <= i < |documents| && read(documents[i]).result.Failure?;
    FailedDocumentsHas(read, documents, i);
  }

  lemma {:induction false} FailedDocumentsHas(read: DocumentReader, contents: seq<string>, i: nat)
    requires i < |contents| && read(contents[i]).result.Failure? && IsContentFailure(read(contents[i]).result.error)
    ensures |FailedDocuments(read, contents)| > 0
  {
    if i < |contents| - 1 {
      assert contents[..|contents| - 1][i] == contents[i];
      FailedDocumentsHas(read, contents[..|contents| - 1], i);
    }
  }

  /**
    Any other exception, such as an InstantiationException from the mapper,
    leaves `execute` with the store, the digest, the skip budget and the
    content failure count as they were.
   */
  lemma {:induction false} ExecuteOtherFailure(c: ReaderConfig, s: ReaderState, fs: FileSystem)
    requires Fetched(c, fs).error.None? && !SkipsParsing(c, s, Fetched(c, fs).contents)
    requires exists i :: 0 <= i < |Documents(c, fs)| && !Tolerated(c.read(Documents(c, fs)[i]).result)
    ensures var t := ExecuteSpec(c, s, fs);
      && t.error.Some? && !IsContentFailure(t.error.value)
      && t.state.store == s.store && t.state.previousHash == s.previousHash && t.state.skipsLeft == s.skipsLeft
      && t.state.counts.contentFailures == s.counts.contentFailures
      && t.state.counts.updates == s.counts.updates
  {
    var documents := Documents(c, fs);
    var read := c.read;
    UpdateDocsTolerated(read, documents);
    var i :| 0 <= i < |documents| && !Tolerated(read(documents[i]).result);
    assert !Tolerated(read(documents[i]).result);
    UpdateDocsFirstRaised(read, documents);
  }

  /**
    A publication sets the store to the merged configurations, counts the
    entries that a later document overrode as duplicates and the merged ones
    as updates, and resets the digest and the skip budget.
   */
  lemma {:induction false} ExecutePublish(c: ReaderConfig, s: ReaderState, fs: FileSystem)
    requires Fetched(c, fs).error.None? && !SkipsParsing(c, s, Fetched(c, fs).contents)
    requires UpdateError(Updated(c, Fetched(c, fs).contents)).None?
    ensures var t := ExecuteSpec(c, s, fs);
      var run := Updated(c, Fetched(c, fs).contents);
      && t.error.None?
      && t.state.store == run.cache
      && t.state.previousHash == Some(Fingerprint(c.hash, Fetched(c, fs).contents))
      && t.state.skipsLeft == c.maximumSkips
      && t.state.counts.updates == s.counts.updates + |run.cache|
      && t.state.counts.nameDuplicates == s.counts.nameDuplicates + (run.total - |run.cache|)
      && run.total - |run.cache| >= 0
      && t.state.counts.contentFailures == s.counts.contentFailures
      && t.state.counts.newContentUpdates == s.counts.newContentUpdates + 1
  {
    UpdateDocsCacheBound(c.read, Documents(c, fs));
  }

  /** No counter goes down in `execute`. */
  lemma {:induction false} ExecuteCountsGrow(c: ReaderConfig, s: ReaderState, fs: FileSystem)
    ensures Metrics.ManagerCountsGrew(s.counts, ExecuteSpec(c, s, fs).state.counts)
    ensures Metrics.FetcherCountsGrew(s.fetcherCounts, ExecuteSpec(c, s, fs).state.fetcherCounts)
  {
    var fetched := Fetched(c, fs);
    if fetched.error.None? {
      var s1 := s.(fetcherCounts := FetchCounts(s.fetcherCounts, fetched));
      UpdateIfChangedCases(c, s1, fetched.contents);
      if !SkipsParsing(c, s1, fetched.contents) {
        PublishCountsGrow(c, s1, fetched.contents, Fingerprint(c.hash, fetched.contents));
      }
    }
  }

  lemma {:induction false} PublishCountsGrow(c: ReaderConfig, s: ReaderState, contents: Dict<string>, digest: Digest)
    ensures Metrics.ManagerCountsGrew(s.counts, PublishSpec(c, s, contents, digest).state.counts)
    ensures PublishSpec(c, s, contents, digest).state.fetcherCounts == s.fetcherCounts
  {
    var run := Updated(c, contents);
    UpdateDocsCacheBound(c.read, Values(contents));
    UpdateOutcomeCases(s.counts, run);
  }

  // ---------------------------------------------------------------------------
  // Repeated executions over unchanged files
  // ---------------------------------------------------------------------------

  /** The state after `n` calls of `execute` on the same files. */
  function ExecuteTimes(c: ReaderConfig, s: ReaderState, fs: FileSystem, n: nat): ReaderState {
    if n == 0 then s else ExecuteSpec(c, ExecuteTimes(c, s, fs, n - 1), fs).state
  }

  /** The files fetch, and their documents parse and merge, without an exception. */
  predicate Publishable(c: ReaderConfig, fs: FileSystem) {
    Fetched(c, fs).error.None? && UpdateError(Updated(c, Fetched(c, fs).contents)).None?
  }

  /**
    Right after a publication, with the files unchanged, the next `k` calls
    (for `k` up to the budget) are skips: only the budget, the skip counter
    and the request counter move.
   */
  lemma {:induction false} SkipsAfterPublish(c: ReaderConfig, s: ReaderState, fs: FileSystem, k: nat)
    requires Publishable(c, fs)
    requires s.previousHash == Some(Fingerprint(c.hash, Fetched(c, fs).contents))
    requires k <= s.skipsLeft
    ensures var t := ExecuteTimes(c, s, fs, k);
      && t.store == s.store && t.previousHash == s.previousHash
      && t.skipsLeft == s.skipsLeft - k
      && t.counts == s.counts.(sameContentSkips := s.counts.sameContentSkips + k)
      && t.fetcherCounts.requests == s.fetcherCounts.requests + k
  {
    if k > 0 {
      SkipsAfterPublish(c, s, fs, k - 1);
    }
  }

  /** With the files unchanged and no budget left, `execute` publishes again. */
  lemma {:induction false} RepublishWhenBudgetSpent(c: ReaderConfig, s: ReaderState, fs: FileSystem)
    requires Publishable(c, fs)
    requires s.skipsLeft <= 0 || s.previousHash.None?
    ensures var t := ExecuteSpec(c, s, fs);
      var run := Updated(c, Fetched(c, fs).contents);
      && t.error.None?
      && t.state.store == run.cache
      && t.state.previousHash == Some(Fingerprint(c.hash, Fetched(c, fs).contents))
      && t.state.skipsLeft == c.maximumSkips
      && t.state.counts.newContentUpdates == s.counts.newContentUpdates + 1
      && t.state.counts.sameContentSkips == s.counts.sameContentSkips
      && t.state.fetcherCounts.requests == s.fetcherCounts.requests + 1
  {
  }

  /** `m + n` calls are `m` calls followed by `n` more. */
  lemma {:induction false} ExecuteTimesSplit(c: ReaderConfig, s: ReaderState, fs: FileSystem, m: nat, n: nat)
    ensures ExecuteTimes(c, s, fs, m + n) == ExecuteTimes(c, ExecuteTimes(c, s, fs, m), fs, n)
  {
    if n > 0 {
      ExecuteTimesSplit(c, s, fs, m, n - 1);
      var mid := ExecuteTimes(c, s, fs, m + (n - 1));
      assert ExecuteTimes(c, s, fs, m + n) == ExecuteSpec(c, mid, fs).state;
    }
  }

  /**
    The reader tests with `maximum_skips = 2` and one unchanged file: two calls
    make one skip; four calls make two skips, the fourth call publishing again.
   */
  lemma {:induction false} MaximumSkipsTwo(c: ReaderConfig, s: ReaderState, fs: FileSystem)
    requires c.maximumSkips == 2 && Fresh(c, s)
    requires Publishable(c, fs)
    ensures ExecuteTimes(c, s, fs, 2).counts.sameContentSkips == s.counts.sameContentSkips + 1
    ensures ExecuteTimes(c, s, fs, 4).counts.sameContentSkips == s.counts.sameContentSkips + 2
    ensures ExecuteTimes(c, s, fs, 4).counts.newContentUpdates == s.counts.newContentUpdates + 2
    ensures ExecuteTimes(c, s, fs, 4).skipsLeft == 2
    ensures ExecuteTimes(c, s, fs, 4).store == Updated(c, Fetched(c, fs).contents).cache
    ensures ExecuteTimes(c, s, fs, 4).fetcherCounts.requests == s.fetcherCounts.requests + 4
  {
    assert ExecuteTimes(c, s, fs, 0) == s;
    RepublishWhenBudgetSpent(c, s, fs);
    var s1 := ExecuteTimes(c, s, fs, 1);
    SkipsAfterPublish(c, s1, fs, 1);
    SkipsAfterPublish(c, s1, fs, 2);
    ExecuteTimesSplit(c, s, fs, 1, 1);
    ExecuteTimesSplit(c, s, fs, 1, 2);
    var s3 := ExecuteTimes(c, s, fs, 3);
    RepublishWhenBudgetSpent(c, s3, fs);
    assert ExecuteTimes(c, s, fs, 4) == ExecuteSpec(c, s3, fs).state;
  }

  // ---------------------------------------------------------------------------
  // The reader
  // ---------------------------------------------------------------------------

  /** `ConfigurationReader`. */
  class ConfigurationReader {
    const application: string
    const fileNames: seq<string>
    const fetcher: FilesystemConfigurationFetcher
    const mapper: ConfigurationMapper
    const configurationStore: Managers.ConfigurationManager
    const metrics: Metrics.ManagerMetrics
    const maximumSkips: int
    /** SHA-256 of a stream of UTF-8 encoded text. */
    const hash: string -> Digest
    /** What `mapper.read_value` gives for each document. */
    ghost const read: DocumentReader
    /** The digest of the last published files; None until the first publication. */
    var previousHash: Option<Digest>
    var skipsLeft: int

    /**
      The mapper counts its skips in the same metrics object the reader counts
      in, as the builder wires them, and `read` is the mapper's `read_value`.
     */
    ghost predicate Wired() {
      mapper.metrics == metrics && ReadsAs(read, mapper.Config())
    }

    /** The reader is wired and the skip budget holds. */
    ghost predicate Valid()
      reads this
    {
      Wired() && SkipBudget(skipsLeft, maximumSkips)
    }

    constructor (application: string, fileNames: seq<string>, fetcher: FilesystemConfigurationFetcher,
                 mapper: ConfigurationMapper, configurationStore: Managers.ConfigurationManager,
                 metrics: Metrics.ManagerMetrics, maximumSkips: int, hash: string -> Digest)
      requires mapper.metrics == metrics
      ensures Valid()
      ensures Config() == ReaderConfig(application, fileNames, fetcher.basePath, fetcher.skipMissingFiles,
        ReadOf(mapper.Config()), maximumSkips, hash)
      ensures this.fetcher == fetcher && this.mapper == mapper
      ensures this.configurationStore == configurationStore && this.metrics == metrics
      ensures previousHash.None? && skipsLeft == maximumSkips
    {
      this.application := application;
      this.fileNames := fileNames;
      this.fetcher := fetcher;
      this.mapper := mapper;
      this.configurationStore := configurationStore;
      this.metrics := metrics;
      this.maximumSkips := maximumSkips;
      this.hash := hash;
      this.read := ReadOf(mapper.Config());
      previousHash := None;
      skipsLeft := maximumSkips;
    }

    ghost function Config(): ReaderConfig {
      ReaderConfig(application, fileNames, fetcher.basePath, fetcher.skipMissingFiles, read, maximumSkips, hash)
    }

    /** The objects `execute` may change; they are also the ones `State` reads. */
    ghost function Footprint(): set<object> {
      {this, metrics, fetcher.metrics, configurationStore}
    }

    function State(): ReaderState
      reads this, metrics, fetcher.metrics, configurationStore
    {
      ReaderState(configurationStore.configurationStore, previousHash, skipsLeft, metrics.Counts(), fetcher.metrics.Counts())
    }

    /**
      `execute`: fetch, fingerprint, then skip or parse and publish. The
      result is the exception `execute` raises, if any.
     */
    method Execute(fs: FileSystem) returns (err: Option<Error>)
      requires Valid()
      modifies this, metrics, fetcher.metrics, configurationStore
      ensures Valid()
      ensures Executed(State(), err) == ExecuteSpec(Config(), old(State()), fs)
    {
      var fetched := fetcher.FetchFiles(fs, application, fileNames);
      if fetched.Failure? {
        return Some(fetched.error);
      }
      err := UpdateIfChanged(fetched.value);
    }

    /** The rest of `execute`: fingerprint the files, then skip or parse and publish. */
    method UpdateIfChanged(contentMap: Dict<string>) returns (err: Option<Error>)
      requires Valid()
      modifies this, metrics, configurationStore
      ensures Valid()
      ensures Executed(State(), err) == UpdateIfChangedSpec(Config(), old(State()), contentMap)
    {
      UpdateIfChangedCases(Config(), State(), contentMap);
      var latestHash := Digest(contentMap);
      if skipsLeft > 0 && previousHash == Some(latestHash) {
        skipsLeft := skipsLeft - 1;
        metrics.IncrementSameContentSkips();
        return None;
      }
      err := Publish(contentMap, latestHash);
    }

    /** The else-branch of `execute`: parse, publish, and remember the digest. */
    method Publish(contentMap: Dict<string>, latestHash: Digest) returns (err: Option<Error>)
      requires Valid()
      modifies this, metrics, configurationStore
      ensures Valid()
      ensures Executed(State(), err) == PublishSpec(Config(), old(State()), contentMap, latestHash)
    {
      ghost var s0 := State();
      ghost var run := Updated(Config(), contentMap);
      PublishCases(Config(), s0, contentMap, latestHash, run);
      metrics.IncrementNewContentUpdates();
      ghost var bumped := metrics.Counts();
      assert bumped == s0.counts.(newContentUpdates := s0.counts.newContentUpdates + 1);
      err := UpdateConfigurationStore(contentMap);
      assert metrics.Counts() == UpdateCounts(bumped, run);
      UpdateCountsKeepNewContent(s0.counts, run);
      assert metrics.Counts() == UpdateCounts(s0.counts, run).(newContentUpdates := s0.counts.newContentUpdates + 1);
      if err.Some? {
        return;
      }
      previousHash := Some(latestHash);
      skipsLeft := maximumSkips;
    }

    /** The digest of the fetched files, fed name and content in order of file name. */
    method Digest(contentMap: Dict<string>) returns (d: Digest)
      ensures d == Fingerprint(hash, contentMap)
    {
      var ordered := SortByKey(contentMap);
      var stream := "";
      for i := 0 to |ordered|
        invariant stream == HashInput(ordered[..i])
      {
        assert ordered[..i + 1][..i] == ordered[..i];
        stream := stream + ordered[i].0 + ordered[i].1;
      }
      assert ordered[..|ordered|] == ordered;
      d := hash(stream);
    }

    /**
      `__update_configuration_store`: parses every document, then either raises
      IOError for the documents that failed or publishes the merged map. The
      result is the exception raised, if any.
     */
    method UpdateConfigurationStore(contentMap: Dict<string>) returns (err: Option<Error>)
      requires Wired()
      modifies metrics, configurationStore
      ensures var run := UpdateDocs(read, Values(contentMap));
        && err == UpdateError(run)
        && metrics.Counts() == UpdateCounts(old(metrics.Counts()), run)
        && configurationStore.configurationStore ==
             (if err.None? then run.cache else old(configurationStore.configurationStore))
    {
      UpdateOutcomeCases(metrics.Counts(), UpdateDocs(read, Values(contentMap)));
      var run := ParseDocuments(Values(contentMap));
      if run.raised.Some? {
        return run.raised;
      }
      metrics.IncrementContentFailures(run.failures);
      if run.failures > 0 {
        return Some(IoError);
      }
      UpdateDocsCacheBound(read, Values(contentMap));
      metrics.IncrementNameDuplicates(run.total - |run.cache|);
      metrics.IncrementUpdates(|run.cache|);
      configurationStore.SetConfigurationStore(run.cache);
      return None;
    }

    /**
      The loop of `__update_configuration_store`: reads every document with the
      mapper, merging the configurations and counting the failed documents,
      until an exception other than a content failure.
     */
    method ParseDocuments(contents: seq<string>) returns (run: UpdateRun)
      requires Wired()
      modifies metrics
      ensures run == UpdateDocs(read, contents)
      ensures metrics.Counts() == old(metrics.Counts()).(nonInstantiableSkips := old(metrics.nonInstantiableSkips) + run.skips)
    {
      run := UpdateRun(map[], 0, 0, 0, None);
      for i := 0 to |contents|
        invariant UpdateDocs(read, contents[..i]) == run && run.raised.None?
        invariant metrics.Counts() == old(metrics.Counts()).(nonInstantiableSkips := old(metrics.nonInstantiableSkips) + run.skips)
      {
        UpdateDocsNext(read, contents, i);
        run := ParseDocument(run, contents[i]);
        if run.raised.Some? {
          UpdateDocsRaisedStays(read, contents, i + 1);
          return;
        }
      }
      assert contents[..|contents|] == contents;
    }

    /**
      One pass of the loop: `read_value` on one document, merging its
      configurations or counting it as failed; any other exception is raised.
     */
    method ParseDocument(run: UpdateRun, content: string) returns (next: UpdateRun)
      requires Wired() && run.raised.None?
      modifies metrics
      ensures next == UpdateStep(read, run, content)
      ensures metrics.Counts() == old(metrics.Counts()).(
        nonInstantiableSkips := old(metrics.nonInstantiableSkips) + read(content).skips)
    {
      var skipsBefore := metrics.nonInstantiableSkips;
      var r := mapper.ReadValue(content);
      ReadsAsAt(read, mapper.Config(), content);
      UpdateStepCases(read, run, content, read(content));
      var skipped := metrics.nonInstantiableSkips - skipsBefore;
      assert skipped == read(content).skips && r == read(content).result;
      next := run.(skips := run.skips + skipped);
      if r.Success? {
        next := next.(cache := run.cache + r.value, total := run.total + |r.value|);
      } else if IsContentFailure(r.error) {
        next := next.(failures := run.failures + 1);
      } else {
        next := next.(raised := Some(r.error));
      }
    }
  }
}
