/**
  The counter classes of merci/metrics.py. Each `Increment...` method adds its
  `count` (1 by default) to exactly one field; `Counts()` gives the fields as
  one value so that other components can state how a call moves them.
 */
module Metrics {

  datatype ManagerCounts = ManagerCounts(
    updates: int,
    contentFailures: int,
    sameContentSkips: int,
    newContentUpdates: int,
    nameDuplicates: int,
    nonInstantiableSkips: int)

  datatype FetcherCounts = FetcherCounts(requests: int, failures: int, missingFiles: int)

  datatype LoaderCounts = LoaderCounts(configurationRequests: int, configurationFailures: int)

  /** No counter of `after` is below the same counter of `before`. */
  predicate ManagerCountsGrew(before: ManagerCounts, after: ManagerCounts) {
    && before.updates <= after.updates
    && before.contentFailures <= after.contentFailures
    && before.sameContentSkips <= after.sameContentSkips
    && before.newContentUpdates <= after.newContentUpdates
    && before.nameDuplicates <= after.nameDuplicates
    && before.nonInstantiableSkips <= after.nonInstantiableSkips
  }

  predicate FetcherCountsGrew(before: FetcherCounts, after: FetcherCounts) {
    && before.requests <= after.requests
    && before.failures <= after.failures
    && before.missingFiles <= after.missingFiles
  }

  /** ConfigurationManagerMetrics: the mapper's and the reader's counters. */
  class ManagerMetrics {
    var updates: int
    var contentFailures: int
    var sameContentSkips: int
    var newContentUpdates: int
    var nameDuplicates: int
    var nonInstantiableSkips: int

    function Counts(): ManagerCounts
      reads this
    {
      ManagerCounts(updates, contentFailures, sameContentSkips, newContentUpdates, nameDuplicates, nonInstantiableSkips)
    }

    constructor ()
      ensures Counts() == ManagerCounts(0, 0, 0, 0, 0, 0)
    {
      updates, contentFailures, sameContentSkips := 0, 0, 0;
      newContentUpdates, nameDuplicates, nonInstantiableSkips := 0, 0, 0;
    }

    method IncrementUpdates(count: int := 1)
      modifies this
      ensures Counts() == old(Counts()).(updates := old(updates) + count)
    {
      updates := updates + count;
    }

    method IncrementContentFailures(count: int := 1)
      modifies this
      ensures Counts() == old(Counts()).(contentFailures := old(contentFailures) + count)
    {
      contentFailures := contentFailures + count;
    }

    method IncrementSameContentSkips(count: int := 1)
      modifies this
      ensures Counts() == old(Counts()).(sameContentSkips := old(sameContentSkips) + count)
    {
      sameContentSkips := sameContentSkips + count;
    }

    method IncrementNewContentUpdates(count: int := 1)
      modifies this
      ensures Counts() == old(Counts()).(newContentUpdates := old(newContentUpdates) + count)
    {
      newContentUpdates := newContentUpdates + count;
    }

    method IncrementNameDuplicates(count: int := 1)
      modifies this
      ensures Counts() == old(Counts()).(nameDuplicates := old(nameDuplicates) + count)
    {
      nameDuplicates := nameDuplicates + count;
    }

    method IncrementNonInstantiableSkips(count: int := 1)
      modifies this
      ensures Counts() == old(Counts()).(nonInstantiableSkips := old(nonInstantiableSkips) + count)
    {
      nonInstantiableSkips := nonInstantiableSkips + count;
    }
  }

  /** ConfigurationFetcherMetrics. */
  class FetcherMetrics {
    var requests: int
    var failures: int
    var missingFiles: int

    function Counts(): FetcherCounts
      reads this
    {
      FetcherCounts(requests, failures, missingFiles)
    }

    constructor ()
      ensures Counts() == FetcherCounts(0, 0, 0)
    {
      requests, failures, missingFiles := 0, 0, 0;
    }

    method IncrementRequests(count: int := 1)
      modifies this
      ensures Counts() == old(Counts()).(requests := old(requests) + count)
    {
      requests := requests + count;
    }

    method IncrementFailures(count: int := 1)
      modifies this
      ensures Counts() == old(Counts()).(failures := old(failures) + count)
    {
      failures := failures + count;
    }

    method IncrementMissingFiles(count: int := 1)
      modifies this
      ensures Counts() == old(Counts()).(missingFiles := old(missingFiles) + count)
    {
      missingFiles := missingFiles + count;
    }
  }

  /** ConfigurationLoaderMetrics. */
  class LoaderMetrics {
    var configurationRequests: int
    var configurationFailures: int

    function Counts(): LoaderCounts
      reads this
    {
      LoaderCounts(configurationRequests, configurationFailures)
    }

    constructor ()
      ensures Counts() == LoaderCounts(0, 0)
    {
      configurationRequests, configurationFailures := 0, 0;
    }

    method IncrementConfigurationRequests(count: int := 1)
      modifies this
      ensures Counts() == old(Counts()).(configurationRequests := old(configurationRequests) + count)
    {
      configurationRequests := configurationRequests + count;
    }

    method IncrementConfigurationFailures(count: int := 1)
      modifies this
      ensures Counts() == old(Counts()).(configurationFailures := old(configurationFailures) + count)
    {
      configurationFailures := configurationFailures + count;
    }
  }
}
