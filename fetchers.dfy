/**
  merci/fetchers.py: reading the configuration files of one application from a
  local directory. The file system is an input: a map from path to what reading
  that path gives.
 */
module Fetchers {
  import opened Wrappers
  import opened Errors
  import opened Dicts
  import Metrics

  /** What opening and reading one path gives. */
  datatype FileRead =
    | Text(content: string)  // the file's UTF-8 text
    | Unreadable             // an IOError other than a missing file, such as a permission error
    | NotUtf8                // the bytes do not decode as UTF-8

  /** The files that exist, by path. */
  type FileSystem = map<string, FileRead>

  /**
    `os.path.join` of two parts: an absolute second part replaces the first;
    otherwise a slash separates them unless the first is empty or already ends
    with one.
   */
  function Join(base: string, part: string): (path: string)
    ensures |part| > 0 && part[0] == '/' ==> path == part
    ensures !(|part| > 0 && part[0] == '/') ==>
      && (if base == [] || base[|base| - 1] == '/' then |path| == |base| + |part|
          else |path| == |base| + 1 + |part| && path[|base|] == '/')
      && path[..|base|] == base
      && path[|path| - |part|..] == part
  {
    if |part| > 0 && part[0] == '/' then part
    else if base == [] || base[|base| - 1] == '/' then base + part
    else base + "/" + part
  }

  /** `fetch_file`: the text of `application + file_name` under the base path. */
  function FetchFile(fs: FileSystem, basePath: string, application: string, fileName: string): (r: Result<string, Error>)
    ensures var path := Join(basePath, application + fileName);
      && (path !in fs ==> r == Failure(FileNotFound))
      && (path in fs && fs[path].Text? ==> r == Success(fs[path].content))
      && (path in fs && fs[path].Unreadable? ==> r == Failure(IoError))
      && (path in fs && fs[path].NotUtf8? ==> r == Failure(UnicodeDecode))
  {
    var path := Join(basePath, application + fileName);
    if path !in fs then Failure(FileNotFound)
    else match fs[path]
      case Text(content) => Success(content)
      case Unreadable => Failure(IoError)
      case NotUtf8 => Failure(UnicodeDecode)
  }

  /** How the loop body reads one file, given its name. */
  type FileFetch = string -> Result<string, Error>

  /** The file fetch of a fetcher: `FetchFile` under its base path, for one application. */
  function FetchOf(fs: FileSystem, basePath: string, application: string): (fetch: FileFetch)
    ensures forall fileName :: fetch(fileName) == FetchFile(fs, basePath, application, fileName)
  {
    (fileName: string) => FetchFile(fs, basePath, application, fileName)
  }

  /** The state of the loop over the file names: contents read so far, missing files, the exception raised. */
  datatype FetchRun = FetchRun(contents: Dict<string>, missing: nat, error: Option<Error>)

  /** One pass of the loop body; after an exception nothing changes. */
  function FetchStep(fetch: FileFetch, skipMissing: bool, run: FetchRun, fileName: string): FetchRun
  {
    if run.error.Some? then run
    else match fetch(fileName)
      case Success(content) => run.(contents := Put(run.contents, fileName, content))
      case Failure(e) =>
        if e == FileNotFound then
          run.(missing := run.missing + 1, error := if skipMissing then None else Some(FileNotFound))
        else run.(error := Some(e))
  }

  /** The loop of `fetch_files` over `fileNames`, first to last. */
  function FetchAll(fetch: FileFetch, skipMissing: bool, fileNames: seq<string>): FetchRun
  {
    if fileNames == [] then FetchRun([], 0, None)
    else FetchStep(fetch, skipMissing, FetchAll(fetch, skipMissing, fileNames[..|fileNames| - 1]), fileNames[|fileNames| - 1])
  }

  /** How many of `fileNames` have no file. */
  function MissingCount(fetch: FileFetch, fileNames: seq<string>): nat
  {
    if fileNames == [] then 0
    else
      var last := if fetch(fileNames[|fileNames| - 1]) == Failure(FileNotFound) then 1 else 0;
      MissingCount(fetch, fileNames[..|fileNames| - 1]) + last
  }

  /** The contents hold file names only, once each, with the text of their file. */
  lemma {:induction false} FetchAllSound(fetch: FileFetch, skipMissing: bool, fileNames: seq<string>)
    ensures var run := FetchAll(fetch, skipMissing, fileNames);
      && DistinctKeys(run.contents)
      && forall i :: 0 <= i < |run.contents| ==>
           run.contents[i].0 in fileNames && fetch(run.contents[i].0) == Success(run.contents[i].1)
  {
    if fileNames != [] {
      var front, last := fileNames[..|fileNames| - 1], fileNames[|fileNames| - 1];
      FetchAllSound(fetch, skipMissing, front);
      var run := FetchAll(fetch, skipMissing, front);
      if run.error.None? && fetch(last).Success? {
        PutDistinct(run.contents, last, fetch(last).value);
        PutItems(run.contents, last, fetch(last).value);
      }
    }
  }

  /** Unless the loop raised, the missing count is the number of names without a file. */
  lemma {:induction false} FetchAllCountsMissing(fetch: FileFetch, skipMissing: bool, fileNames: seq<string>)
    ensures var run := FetchAll(fetch, skipMissing, fileNames);
      run.error.None? ==> run.missing == MissingCount(fetch, fileNames)
  {
    if fileNames != [] {
      FetchAllCountsMissing(fetch, skipMissing, fileNames[..|fileNames| - 1]);
    }
  }

  /** Unless the loop raised, every file name is either read or missing. */
  lemma {:induction false} FetchAllComplete(fetch: FileFetch, skipMissing: bool, fileNames: seq<string>)
    ensures var run := FetchAll(fetch, skipMissing, fileNames);
      run.error.None? ==>
        forall i :: 0 <= i < |fileNames| ==>
          fetch(fileNames[i]) == Failure(FileNotFound) || fileNames[i] in Keys(run.contents)
  {
    if fileNames != [] {
      var front, last := fileNames[..|fileNames| - 1], fileNames[|fileNames| - 1];
      FetchAllComplete(fetch, skipMissing, front);
      var run := FetchAll(fetch, skipMissing, front);
      var after := FetchAll(fetch, skipMissing, fileNames);
      assert after == FetchStep(fetch, skipMissing, run, last);
      if after.error.None? {
        if fetch(last).Success? {
          PutKeys(run.contents, last, fetch(last).value);
        }
        forall k | k in Keys(run.contents) ensures k in Keys(after.contents) { }
        forall i | 0 <= i < |fileNames|
          ensures fetch(fileNames[i]) == Failure(FileNotFound) || fileNames[i] in Keys(after.contents)
        {
          if i < |front| {
            assert fileNames[i] == front[i];
          }
        }
      }
    }
  }

  /** `Put` keeps every key and adds the new one. */
  lemma {:induction false} PutKeys<V>(d: Dict<V>, k: string, v: V)
    ensures forall k' :: k' in Keys(Put(d, k, v)) <==> k' in Keys(d) || k' == k
  {
    if d != [] && d[0].0 != k {
      PutKeys(d[1..], k, v);
      assert Keys(Put(d, k, v)) == [d[0].0] + Keys(Put(d[1..], k, v));
      assert Keys(d) == [d[0].0] + Keys(d[1..]);
    } else if d != [] {
      assert Keys(Put(d, k, v)) == [k] + Keys(d[1..]);
      assert Keys(d) == [d[0].0] + Keys(d[1..]);
    }
  }

  /**
    Which exception the loop raises: with skipping on, never FileNotFoundError;
    with it off, FileNotFoundError exactly when a file is missing before any
    other failure. Either way the loop raises exactly when some file fails for
    a reason the policy does not excuse.
   */
  lemma {:induction false} FetchAllRaises(fetch: FileFetch, skipMissing: bool, fileNames: seq<string>)
    ensures var run := FetchAll(fetch, skipMissing, fileNames);
      && (skipMissing ==> run.error != Some(FileNotFound))
      && (!skipMissing ==> run.missing <= 1 && (run.missing == 1 <==> run.error == Some(FileNotFound)))
      && (run.error.None? <==> forall i :: 0 <= i < |fileNames| ==> Excused(fetch, skipMissing, fileNames[i]))
  {
    if fileNames != [] {
      var front, last := fileNames[..|fileNames| - 1], fileNames[|fileNames| - 1];
      FetchAllRaises(fetch, skipMissing, front);
      var run := FetchAll(fetch, skipMissing, front);
      var after := FetchAll(fetch, skipMissing, fileNames);
      assert after == FetchStep(fetch, skipMissing, run, last);
      if after.error.None? {
        forall i | 0 <= i < |fileNames| ensures Excused(fetch, skipMissing, fileNames[i]) {
          if i < |front| {
            assert fileNames[i] == front[i];
          }
        }
      } else if run.error.None? {
        assert !Excused(fetch, skipMissing, fileNames[|front|]);
      } else {
        var i :| 0 <= i < |front| && !Excused(fetch, skipMissing, front[i]);
        assert fileNames[i] == front[i];
      }
    }
  }

  /** A file that does not stop the loop: it is read, or it is missing and missing files are skipped. */
  predicate Excused(fetch: FileFetch, skipMissing: bool, fileName: string) {
    fetch(fileName).Success? || (skipMissing && fetch(fileName) == Failure(FileNotFound))
  }

  /** Once the loop has raised, later names change nothing. */
  lemma {:induction false} FetchAllRaisedStays(fetch: FileFetch, skipMissing: bool, fileNames: seq<string>, k: nat)
    requires k <= |fileNames| && FetchAll(fetch, skipMissing, fileNames[..k]).error.Some?
    ensures FetchAll(fetch, skipMissing, fileNames) == FetchAll(fetch, skipMissing, fileNames[..k])
  {
    if k < |fileNames| {
      var front := fileNames[..|fileNames| - 1];
      assert front[..k] == fileNames[..k];
      FetchAllRaisedStays(fetch, skipMissing, front, k);
    } else {
      assert fileNames[..k] == fileNames;
    }
  }

  /** The outcome of `fetch_files`: the contents by file name, or the exception raised. */
  function FetchResult(run: FetchRun): Result<Dict<string>, Error> {
    if run.error.Some? then Failure(run.error.value) else Success(run.contents)
  }

  /** How one `fetch_files` call moves the fetcher's counters. */
  function FetchCounts(before: Metrics.FetcherCounts, run: FetchRun): Metrics.FetcherCounts {
    Metrics.FetcherCounts(
      before.requests + 1,
      before.failures + (if run.error.Some? && IsIoError(run.error.value) then 1 else 0),
      before.missingFiles + run.missing)
  }

  /** `FilesystemConfigurationFetcher`. */
  class FilesystemConfigurationFetcher {
    const basePath: string
    const skipMissingFiles: bool
    const metrics: Metrics.FetcherMetrics

    constructor (basePath: string, skipMissingFiles: bool, metrics: Metrics.FetcherMetrics)
      ensures this.basePath == basePath && this.skipMissingFiles == skipMissingFiles && this.metrics == metrics
    {
      this.basePath := basePath;
      this.skipMissingFiles := skipMissingFiles;
      this.metrics := metrics;
    }

    /** The loop of `fetch_files` as this fetcher runs it on `fs`. */
    function Run(fs: FileSystem, application: string, fileNames: seq<string>): FetchRun {
      FetchAll(FetchOf(fs, basePath, application), skipMissingFiles, fileNames)
    }

    /**
      `fetch_files`: the contents by file name, or the exception raised. Every
      call is one request; every missing file is counted; an IOError, including
      a missing file that is not skipped, is counted as one failure.
     */
    method FetchFiles(fs: FileSystem, application: string, fileNames: seq<string>) returns (r: Result<Dict<string>, Error>)
      modifies metrics
      ensures r == FetchResult(Run(fs, application, fileNames))
      ensures metrics.Counts() == FetchCounts(old(metrics.Counts()), Run(fs, application, fileNames))
    {
      metrics.IncrementRequests();
      var run := FetchEach(FetchOf(fs, basePath, application), fileNames);
      if run.error.Some? {
        if IsIoError(run.error.value) {
          metrics.IncrementFailures();
        }
        return Failure(run.error.value);
      }
      return Success(run.contents);
    }

    /** The loop of `fetch_files`: reads the files in order and counts the missing ones. */
    method FetchEach(fetch: FileFetch, fileNames: seq<string>) returns (run: FetchRun)
      modifies metrics
      ensures run == FetchAll(fetch, skipMissingFiles, fileNames)
      ensures metrics.Counts() == old(metrics.Counts()).(missingFiles := old(metrics.missingFiles) + run.missing)
    {
      var contents: Dict<string> := [];
      var missing: nat := 0;
      var i := 0;
      while i < |fileNames|
        invariant 0 <= i <= |fileNames|
        invariant FetchAll(fetch, skipMissingFiles, fileNames[..i]) == FetchRun(contents, missing, None)
        invariant metrics.Counts() == old(metrics.Counts()).(missingFiles := old(metrics.missingFiles) + missing)
      {
        assert fileNames[..i + 1][..i] == fileNames[..i];
        var fetched := fetch(fileNames[i]);
        if fetched.Success? {
          contents := Put(contents, fileNames[i], fetched.value);
        } else if fetched.error == FileNotFound {
          metrics.IncrementMissingFiles();
          missing := missing + 1;
          if !skipMissingFiles {
            FetchAllRaisedStays(fetch, skipMissingFiles, fileNames, i + 1);
            return FetchRun(contents, missing, Some(FileNotFound));
          }
        } else {
          FetchAllRaisedStays(fetch, skipMissingFiles, fileNames, i + 1);
          return FetchRun(contents, missing, Some(fetched.error));
        }
        i := i + 1;
      }
      assert fileNames[..i] == fileNames;
      return FetchRun(contents, missing, None);
    }
  }
}
