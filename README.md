# merci: feature flags and runtime configs, modelled in Dafny

merci evaluates feature flags and config objects against a runtime context,
such as the environment, the cluster or the user. It also keeps its
configuration store current by periodically re-reading JSON files.

This project models the core of that system:

- **Structure** (`structure.dfy`): the override-resolution tree. A `Context`
  holds a default value and optional modifiers. A `Modifiers` node dispatches
  on one key of the runtime context. Evaluation is proved equal to an
  independent account: the most specific selected value that is not None wins.
- **Deserialization** (`deserialization.dfy`):
  - the value decoders and their factories;
  - class lookup in an explicit registry, which stands in for Python reflection;
  - the object hook, which turns decoded JSON objects into tree nodes;
  - `ConfigurationMapper.read_value`, with its skip-or-raise policy for
    entries that fail.

  JSON arrives as an already parsed datatype, and the JSON parser is a
  parameter of the mapper.
- **Managers** (`managers.dfy`):
  - the store, which is replaced wholesale on every publication;
  - the feature-flag and config front ends;
  - `full_class_name`.
- **Fetchers** (`fetchers.dfy`): the loop that reads the files of one
  application, skipping or raising on missing files. The file system is a map
  from path to what reading the path gives.
- **Readers** (`readers.dfy`): the reader's state machine:
  - fingerprinting the files sorted by name;
  - the skip budget;
  - parsing every document and merging last-write-wins;
  - publishing only when every document parsed.

  The `execute` method is proved against `ExecuteSpec`, a function from the
  reader's state before the call to its state after. Lemmas state what that
  function implies: skips, failures, publications, and the behaviour of the
  reader tests with `maximum_skips = 2`.
- **Loaders** (`loaders.dfy`): the loop over the readers. It counts every
  attempt and every failure, goes on after an IOError or an
  InstantiationException, and stops at any other exception.
- **Metrics** (`metrics.dfy`): the counter classes that the other components
  update.
- **Supporting modules:**
  - `dicts.dfy`: Python dicts as insertion-ordered item sequences;
  - `ordering.dfy`: Python string ordering and `sorted`;
  - `errors.dfy`: the exceptions that cross component boundaries;
  - `wrappers.dfy`: `Option` and `Result`.

Code that updates fields in place is modelled as classes, and each method is
proved against a pure specification function:

| class | specification function |
|---|---|
| `ConfigurationMapper` | `ReadValueSpec` |
| `FilesystemConfigurationFetcher` | `FetchAll` |
| `ConfigurationReader` | `ExecuteSpec` |
| `ConfigurationLoader` | `LoadAll` |

The properties are proved as lemmas about those functions.

Python behaviour the model keeps, which readers may not expect:

- A JSON `null` value and "no match" are the same Python `None`. A context
  whose value is `null` therefore defers to its parent, as
  `merci/structure.py:67` does.
- `new_content_updates` is incremented before parsing. It therefore also
  counts updates whose parse fails.
- An entry is parsed, written back with `json.dumps` and parsed again with
  the hook. The first parse keeps only the last value of a member name that
  an object repeats, so the hook never sees the earlier one
  (`Reserialize`, `RepeatedMemberLastWins`).

## Model

| member | source | states |
|---|---|---|
| Structure.GetValue | merci/structure.py:64-106 | a Context whose own value is not None never evaluates to None |
| Structure.ConfigurationValue | merci/structure.py:128-129 | a configuration evaluates through its root context, so a root value that is not None gives a value that is not None |
| Structure.GetValueIsMostSpecificOverride | merci/structure.py:64-106 | evaluation is the last non-None value among the Context nodes the runtime context selects, from the root to the leaf. A missing key or an unmatched value selects nothing below, and a child is evaluated under the same runtime context |
| Structure.ContextWithoutModifiersIsConstant | merci/structure.py:64-69 | a Context without modifiers gives its own value for every runtime context |
| Structure.GetValueDependsOnlyOnDimensions | merci/structure.py:99-106 | two runtime contexts that agree on the dimensions a tree dispatches on give the same value |
| Structure.MessageTreeExpectations | merci/tests/test_structure.py:84-88 | the message tree gives the root message for the empty context and the qa message in qa |
| Structure.MessageTreeProdExpectations | merci/tests/test_structure.py:89-90 | in prod the prod message wins |
| Structure.MessageTreeQaExpectations | merci/tests/test_structure.py:91-92 | on cem341 in qa without a user, the cluster-level message wins |
| Structure.MessageTreeCem1001Expectations | merci/tests/test_structure.py:93-96 | on cem1001 in prod, with or without a user, the prod message wins |
| Structure.MessageTreeJackExpectation | merci/tests/test_structure.py:97-98 | jack on cem341 in qa has no override and gets the cluster-level message |
| Structure.MessageTreeJoeExpectation | merci/tests/test_structure.py:99-100 | joe on cem341 in qa gets the user-level message |
| Structure.OnlyJoeInQaExpectations | merci/tests/test_structure.py:74-82 | the flag is false for the empty context, qa, prod, cem341, cem1001, joe in prod and jack in qa, and true only for joe on cem341 in qa, also through a named Configuration |
| Deserialization.CreateValueDecoder | merci/deserialization.py:84-113 | the object factory makes a decoder for exactly the given class name, and the single-value factory ignores the name |
| Deserialization.FindClass | merci/deserialization.py:68-81 | a class is found exactly when its name has a dot and the registry has it; otherwise InstantiationException |
| Deserialization.Construct | merci/deserialization.py:56-66 | the initializer succeeds exactly when every keyword is a parameter and every required parameter is given; arguments and defaults fill the fields; otherwise TypeError |
| Deserialization.DecodeValue | merci/deserialization.py:52-54 | the single-value decoder returns its argument unchanged; the object decoder fails with InstantiationException for an unknown class and with TypeError for a non-dict, and otherwise constructs the instance |
| Deserialization.Hook | merci/deserialization.py:123-135 | `contexts` is checked before `modifiers`, which is checked before `value`. With `contexts`, a missing `type` is a KeyError, and otherwise the result is the Modifiers node of `type` and `contexts`. With `modifiers` or `value`, a missing `value` is a KeyError and a failure of `decode_value` propagates. Otherwise the result is the Context of the decoded value and the `modifiers` member, or of no modifiers when that member is absent. An object with none of the three keys is returned unchanged |
| Deserialization.ModifiersOf | merci/deserialization.py:124-127 | builds a Modifiers node exactly for a string type and a dict of child nodes |
| Deserialization.ContextOf | merci/deserialization.py:128-131 | builds a Context node exactly when the modifiers are absent or a node |
| Deserialization.Convert | merci/deserialization.py:161 | JSON null, booleans, integers and strings decode to themselves, whatever the hook |
| Deserialization.ConvertShape | merci/deserialization.py:161 | a decoded array has one item per JSON item, and only an object can decode to a tree node |
| Deserialization.ConvertItems | merci/deserialization.py:161 | the decoded items of an array from a given position on are one per remaining JSON item |
| Deserialization.ConvertMembers | merci/deserialization.py:161 | the decoded members of an object from a given position on are one per remaining JSON member, each under the name of the member at the same position |
| Deserialization.ConvertItemsEach | merci/deserialization.py:161 | when every item decodes, the array decodes to exactly those values, in order |
| Deserialization.ConvertMembersEach | merci/deserialization.py:161 | when every member's value decodes, the object's members decode to exactly those values, in document order and under their own names, duplicates included |
| Deserialization.ConvertItemsFailsAt | merci/deserialization.py:161 | one item that fails to decode makes the whole array fail |
| Deserialization.ConvertMembersFailsAt | merci/deserialization.py:161 | one member whose value fails to decode makes the whole object fail |
| Deserialization.ConvertItemsFirstFailure | merci/deserialization.py:161 | a failing array fails with the error of its first failing item, and every item before it decodes |
| Deserialization.ConvertMembersFirstFailure | merci/deserialization.py:161 | a failing object fails with the error of its first failing member, and every member before it decodes |
| Deserialization.Reserialize | merci/deserialization.py:155-159 | parsing an entry and writing it back keeps scalars unchanged, arrays as arrays of the same length and objects as objects |
| Deserialization.ReserializeIsNormal | merci/deserialization.py:155-159 | after the round trip no object has a repeated member name, and each object maps every name to the value of its last occurrence |
| Deserialization.ReserializeNormal | merci/deserialization.py:155-159 | JSON without repeated member names is written back unchanged |
| Dicts.FromPairsItems | merci/deserialization.py:155 | every item of a dict built from members is one of those members |
| Deserialization.RepeatedMemberLastWins | merci/deserialization.py:155-161 | an entry that gives `value` twice decodes with the last one only |
| Deserialization.DecodeEntry | merci/deserialization.py:159-162 | an entry, written back with `json.dumps`, succeeds exactly when its decoding with the entry's own decoder is a tree node; a decoding failure is the entry's error |
| Deserialization.DecodeEntryOfEncodedTree | merci/deserialization.py:159-162 | with the single-value decoder factory, every encodable tree written in the configuration-file layout is what its entry decodes to; encodable means its values are plain data and no dimension value is named `contexts`, `modifiers` or `value` |
| Deserialization.ConvertEncodeData | merci/deserialization.py:135 | plain data without hook keys decodes back to itself |
| Deserialization.DecodeEncodedTree | merci/deserialization.py:123-135 | with the single-value decoder, every encodable tree written in the configuration-file layout decodes back to the same tree; encodable means its values are plain data and no dimension value is named `contexts`, `modifiers` or `value` |
| Deserialization.DecodeContextObject | merci/deserialization.py:128-134 | a `value` object, with or without `modifiers`, decodes to the corresponding Context node |
| Deserialization.DecodeValueObject | merci/deserialization.py:132-134 | with any decoder, an object with only `value` decodes to a Context, without modifiers, of what `decode_value` makes of the value |
| Deserialization.DecodeValueModifiersObject | merci/deserialization.py:128-131 | with any decoder, an object with `value` and `modifiers` decodes to a Context, with those modifiers, of what `decode_value` makes of the value |
| Deserialization.DecodeModifiersObject | merci/deserialization.py:124-127 | a `type` and `contexts` object decodes to the Modifiers node of its children |
| Deserialization.DecodeContextsObject | merci/deserialization.py:124-127 | the `contexts` dict decodes to a dict whose children are exactly the Modifiers' children |
| Deserialization.ConvertContextsMembers | merci/deserialization.py:161 | the members of a `contexts` object convert in order to their children, keeping their distinct names |
| Deserialization.DimensionNamedValueIsNotDecoded | merci/deserialization.py:123-135 | the hook also rewrites the `contexts` dict into a Context when a child is named `value`; the model reports that entry as Malformed |
| Deserialization.Section | merci/deserialization.py:155-157 | text that is not JSON fails with JSONDecodeError, a non-object with TypeError, and a missing or non-object root otherwise; on success the entries are the root object's members |
| Deserialization.ReadEntriesSound | merci/deserialization.py:157-162 | every stored configuration is an entry of the section, decoded under its own name |
| Deserialization.ReadEntriesStored | merci/deserialization.py:157-162 | every stored configuration is what some entry of that name decodes to |
| Deserialization.ReadEntriesComplete | merci/deserialization.py:157-162 | unless the loop raised, every entry that decodes is stored |
| Deserialization.ReadEntriesSkipping | merci/deserialization.py:163-165 | with skipping on, the loop never raises, and every entry is either stored or counted once as a skip |
| Deserialization.ReadEntriesStrict | merci/deserialization.py:166-167 | with skipping off, nothing is skipped, and the loop raises exactly when some entry fails, raising the first failure's error |
| Deserialization.ReadEntriesPoliciesAgree | merci/deserialization.py:163-167 | when no entry fails, both policies give the same result and no skip |
| Deserialization.ReadEntriesRaisedStays | merci/deserialization.py:166-167 | after the first raise, later entries change nothing |
| Deserialization.ReadValueSkipping | merci/deserialization.py:154-168 | with skipping on, `read_value` fails only when the document or its root is unusable, then skipping nothing; otherwise stored plus skipped is the number of entries |
| Deserialization.ReadValueSound | merci/deserialization.py:154-168 | every returned configuration is the decoding of the entry with that name under the root key |
| Deserialization.ConfigurationMapper.constructor | merci/deserialization.py:140-146 | the mapper keeps its root, factory, skip policy and metrics |
| Deserialization.ConfigurationMapper.ReadValue | merci/deserialization.py:148-168 | the result is `ReadValueSpec`'s, and the skip counter rises by its skips and nothing else changes |
| Deserialization.ConfigurationMapper.ReadConfigurations | merci/deserialization.py:157-167 | with the entry decoding `read_value` passes in (`DecodeEntry` with the mapper's factory), the loop computes `ReadEntries` and counts every skip in the metrics |
| Managers.ConfigurationManager.constructor | merci/managers.py:54-55 | a new manager has an empty store |
| Managers.ConfigurationManager.SetConfigurationStore | merci/managers.py:57-59 | the new store replaces the old one entirely |
| Managers.ConfigurationManager.GetObject | merci/managers.py:61-68 | the default exactly when the name is absent; otherwise the most specific non-None override, which may be None |
| Managers.FeatureFlagManager.IsActive | merci/managers.py:76-87 | `is_active` is `get_object` with the boolean default, and the default when the flag is unknown |
| Managers.FullClassName | merci/managers.py:126-135 | the qualified name alone for a missing or `builtins` module; otherwise module, dot and qualified name |
| Managers.UndottedClassIsNeverFound | merci/managers.py:132-134 | a builtins class with an undotted name can never be found by the object decoder |
| Managers.ModuleClassNameIsDotted | merci/managers.py:135 | a class from a module always has a dotted full name |
| Managers.InstantiateWithDefaults | merci/managers.py:114-123 | succeeds exactly when every parameter has a default, giving the defaults; otherwise TypeError |
| Managers.ConfigManager.GetConfig | merci/managers.py:95-108 | the stored value when it is not None; otherwise a default instance. It never returns None |
| Managers.WelcomeFlagScenario | merci/tests/test_configuration_manager.py:53-64 | a feature flag manager made before the store is set sees the store: the welcome flag is on for joe in qa and off in prod. The unknown `enable-farewell` flag giving the default is an addition, from merci/managers.py:61-68 |
| Fetchers.Join | merci/fetchers.py:77 | `os.path.join`: an absolute part replaces the base; otherwise the base, a single separator and the part |
| Fetchers.FetchFile | merci/fetchers.py:70-79 | the text at `base_path` joined with `application + file_name`; FileNotFoundError for a missing path; IOError or UnicodeDecodeError for unreadable files |
| Fetchers.FetchAllSound | merci/fetchers.py:57-60 | the contents hold requested names only, once each, with their file's text |
| Fetchers.FetchAllCountsMissing | merci/fetchers.py:61-62 | unless the loop raised, the missing count is the number of names without a file |
| Fetchers.FetchAllComplete | merci/fetchers.py:57-65 | unless the loop raised, every name is either read or missing |
| Fetchers.FetchAllRaises | merci/fetchers.py:61-64 | skipping never raises FileNotFoundError. Without skipping, at most one file is counted missing, and exactly then FileNotFoundError is raised. The loop raises exactly when some file fails in a way the policy does not excuse |
| Fetchers.FetchAllRaisedStays | merci/fetchers.py:63-68 | after a raise, later files are not read |
| Fetchers.FilesystemConfigurationFetcher.constructor | merci/fetchers.py:40-44 | the fetcher keeps its base path, skip policy and metrics |
| Fetchers.FilesystemConfigurationFetcher.FetchFiles | merci/fetchers.py:46-68 | the result is the loop's; one request per call; every missing file counted; an IOError, including an unskipped missing file, counted as one failure |
| Fetchers.FilesystemConfigurationFetcher.FetchEach | merci/fetchers.py:57-64 | the loop computes `FetchAll` and counts every missing file |
| Readers.FingerprintIgnoresOrder | merci/readers.py:58-66 | the digest depends on the set of (name, content) pairs, not on their fetch order |
| Readers.FailedDocuments | merci/readers.py:86-87 | the documents counted as failed are those whose parse fails with JSONDecodeError or IOError |
| Readers.UpdateDocsTolerated | merci/readers.py:81-87 | the loop gets through exactly when every document parses or fails with a content failure |
| Readers.UpdateDocsFirstRaised | merci/readers.py:81-87 | the exception that leaves the loop is the first one that is not a content failure |
| Readers.UpdateDocsFailures | merci/readers.py:86-88 | when the loop gets through, it counts one failure per failed document |
| Readers.UpdateDocsCacheBound | merci/readers.py:84-85 | the merged map has no more keys than the entries read, so the duplicate count is never negative |
| Readers.UpdateDocsLastWins | merci/readers.py:85 | a key takes the value of the last document that defines it |
| Readers.UpdateDocsKeys | merci/readers.py:85 | every merged key comes from some document |
| Readers.UpdateDocsRaisedStays | merci/readers.py:81-87 | after an exception, the remaining documents are not read |
| Readers.ExecuteKeepsSkipBudget | merci/readers.py:54 | `0 <= skips_left <= maximum_skips` is kept by every `execute` when `maximum_skips >= 0` |
| Readers.FirstExecuteParses | merci/readers.py:50 | the first `execute` never skips, because there is no previous digest |
| Readers.ExecuteSkip | merci/readers.py:67-69 | a skip moves the budget down by one and one skip counter up; store, digest and other manager counters stay |
| Readers.ExecuteFetchFailure | merci/readers.py:59-60 | a fetch error leaves everything but the fetcher's counters unchanged |
| Readers.ExecuteContentFailure | merci/readers.py:81-90 | failed documents raise IOError and are each counted; store, digest and budget stay; the update attempt still counts |
| Readers.ExecuteOtherFailure | merci/readers.py:83 | any other exception propagates with store, digest, budget and content failures unchanged |
| Readers.ExecutePublish | merci/readers.py:84-94 | a publication stores the merged map. It counts overridden entries as duplicates and merged ones as updates, remembers the digest and resets the budget |
| Readers.ExecuteCountsGrow | merci/readers.py:56-94 | no counter goes down in `execute` |
| Readers.PublishCountsGrow | merci/readers.py:71-94 | parsing and publishing never lowers a counter and leaves the fetcher's counters alone |
| Readers.SkipsAfterPublish | merci/readers.py:67-69 | with unchanged files, the calls after a publication are skips for as long as the budget lasts |
| Readers.RepublishWhenBudgetSpent | merci/readers.py:70-74 | with unchanged files and no budget, `execute` publishes again |
| Readers.MaximumSkipsTwo | merci/integration_tests/test_configurationReader.py:60-104 | with a budget of 2, two calls make one skip; four calls make two skips, and the fourth republishes |
| Readers.ConfigurationReader.constructor | merci/readers.py:37-54 | a new reader has no previous digest and a full skip budget |
| Readers.ConfigurationReader.Execute | merci/readers.py:56-74 | the new state and the exception are `ExecuteSpec`'s |
| Readers.ConfigurationReader.UpdateIfChanged | merci/readers.py:66-74 | the skip test and both branches, as `UpdateIfChangedSpec` |
| Readers.ConfigurationReader.Publish | merci/readers.py:71-74 | the else-branch, as `PublishSpec` |
| Readers.ConfigurationReader.Digest | merci/readers.py:58-66 | the digest of the files fed in order of name |
| Readers.ConfigurationReader.UpdateConfigurationStore | merci/readers.py:76-94 | the exception, the counters and the store are those of `UpdateDocs` |
| Readers.ConfigurationReader.ParseDocuments | merci/readers.py:81-87 | the loop computes `UpdateDocs` |
| Readers.ConfigurationReader.ParseDocument | merci/readers.py:82-87 | one pass of the loop, as `UpdateStep` |
| Loaders.LoadAllCounts | merci/loaders.py:60-68 | at most one request per reader and never more failures than requests. Without an escaping exception, every reader is one request, and failures are the readers that raised |
| Loaders.LoadAllContinues | merci/loaders.py:64-68 | no exception escapes exactly when every reader succeeds or raises IOError or InstantiationException |
| Loaders.LoadAllFirstRaised | merci/loaders.py:66-68 | the escaping exception is the first reader's whose exception is neither of those, and that reader is the last attempted |
| Loaders.LoadAllRaisedStays | merci/loaders.py:66-68 | after the exception escapes, later readers change nothing |
| Loaders.LoadAllClean | merci/integration_tests/test_configurationLoader.py:90-91 | readers that all succeed give one request each and no failure |
| Loaders.ConfigurationLoader.constructor | merci/loaders.py:32-47 | the loader keeps its readers and metrics and starts unscheduled |
| Loaders.ConfigurationLoader.ExecuteReaders | merci/loaders.py:58-68 | readers run in list order, each outcome and new state being that reader's `execute` from the state it started in. Requests and failures rise as `LoadAll`, and only an escaping exception stops before the last reader. When no two readers share an object, each attempted reader started from its state before the loop and ends in its new state, and the readers not attempted are untouched |
| Loaders.ConfigurationLoader.Attempt | merci/loaders.py:61-67 | one pass counts the request, runs the reader from its current state, and counts a failure when it raises; with no shared objects, only that reader's state changes |
| Loaders.ConfigurationLoader.ExecuteReader | merci/loaders.py:63 | the outcome and the new state are the reader's `execute` from its current state; with no shared objects, the other readers' states stay |
| Loaders.ConfigurationLoader.Start | merci/loaders.py:49-56 | runs the readers once before scheduling. Without an exception, requests rise by the number of readers and failures by at most that; an exception leaves before scheduling |
| Metrics.ManagerMetrics.constructor | merci/metrics.py:54-60 | all counters start at 0 |
| Metrics.ManagerMetrics.IncrementUpdates | merci/metrics.py:62-64 | adds `count` to its own counter only |
| Metrics.ManagerMetrics.IncrementContentFailures | merci/metrics.py:66-68 | adds `count` to its own counter only |
| Metrics.ManagerMetrics.IncrementSameContentSkips | merci/metrics.py:70-72 | adds `count` to its own counter only |
| Metrics.ManagerMetrics.IncrementNewContentUpdates | merci/metrics.py:74-76 | adds `count` to its own counter only |
| Metrics.ManagerMetrics.IncrementNameDuplicates | merci/metrics.py:78-80 | adds `count` to its own counter only |
| Metrics.ManagerMetrics.IncrementNonInstantiableSkips | merci/metrics.py:82-84 | adds `count` to its own counter only |
| Metrics.FetcherMetrics.constructor | merci/metrics.py:89-92 | all counters start at 0 |
| Metrics.FetcherMetrics.IncrementRequests | merci/metrics.py:94-96 | adds `count` to its own counter only |
| Metrics.FetcherMetrics.IncrementFailures | merci/metrics.py:98-100 | adds `count` to its own counter only |
| Metrics.FetcherMetrics.IncrementMissingFiles | merci/metrics.py:102-104 | adds `count` to its own counter only |
| Metrics.LoaderMetrics.constructor | merci/metrics.py:109-111 | both counters start at 0 |
| Metrics.LoaderMetrics.IncrementConfigurationRequests | merci/metrics.py:113-115 | adds `count` to its own counter only |
| Metrics.LoaderMetrics.IncrementConfigurationFailures | merci/metrics.py:117-119 | adds `count` to its own counter only |
| Dicts.PutShape | merci/fetchers.py:60 | assigning to an existing key keeps its position; a new key is appended |
| Dicts.PutDistinct | merci/fetchers.py:60 | assignment keeps keys distinct and updates the mapping at that key |
| Dicts.FromPairs | merci/deserialization.py:155-157 | building a dict from members keeps distinct keys and the last value for a repeated key |
| Ordering.SortByKeySorted | merci/readers.py:61-62 | `sorted(items)` of a dict gives strictly increasing file names |
| Ordering.SortByKeyIgnoresOrder | merci/readers.py:61-62 | sorting forgets the order in which the items came |
| Ordering.SortedUnique | merci/readers.py:61-62 | only one strictly sorted arrangement of the same items exists |

## Left out

- The scheduler: `add_job`, the scheduler's own `start`, and `shutdown` (merci/loaders.py:52-56, 70-72) are timer and thread plumbing. `ConfigurationLoader.Start` records only whether it got as far as scheduling.
- The real filesystem: reading a path is a lookup in a map from path to text, unreadable file or invalid UTF-8.
- SHA-256: the digest is an uninterpreted function `hash` of the byte stream, a constant of each reader. Only digest equality matters to the skip logic.
- JSON lexing: the mapper's parser is a parameter, and documents arrive as a parsed `Json` value. Of the `json.dumps`/`json.loads` round trip of an entry, only the loss of repeated member names is modelled (`Reserialize`); key order and number formatting are not.
- Python reflection (`__import__`, `getattr`, `**kwargs` calls): a registry maps full class names to the parameters of their initializer.
- Errors at evaluation time. The model's tree is typed, so an entry that decodes to something other than an evaluator is reported as `Malformed` when the entry is decoded. Python builds and stores such entries and behaves as follows:
  - a `type` that is not a string never fails when it is hashable; it matches no runtime-context key, so the Modifiers node gives None;
  - an unhashable `type`, such as a list, raises TypeError at lookup;
  - `contexts` that is not a dict, a child that is neither a node nor `null`, and `modifiers` that is not a node raise AttributeError at lookup, and only when evaluation reaches them;
  - an entry that is not a node, such as `"x": 5`, is stored and published, and raises AttributeError at lookup; an entry that is `null` is stored and gives the default at lookup.
- Malformed entries, as a consequence of the line above. With skipping on, a Malformed entry is counted as a non-instantiable skip and left out of the store, where Python stores it. With skipping off, it leaves `read_value` as an exception. It is not a content failure, so nothing is published, `execute` raises it, and the loader stops its loop because Malformed is neither IOError nor InstantiationException. Python publishes such a document and fails, if at all, at lookup.
- Deserialization.DimensionNamedValueIsNotDecoded: a dimension value spelled `value` inside `contexts` makes the hook rewrite that dict into a Context. Python still builds the enclosing Modifiers node and raises AttributeError when the dimension is looked up. With the object decoder, `decode_value` of that Context raises TypeError while decoding. The model reports Malformed at decoding for both decoders.
- Integers in JSON only: floats are not modelled.
- Concurrency: publication is a single field assignment, and the scheduler's thread is not modelled.
- The builder and entry points in merci/merci.py are not part of this model.
- Readers.ConfigurationReader.Valid: a reader and its mapper share one metrics object, as the builder wires them. The reader's `read` is the mapper's `read_value`. Both facts are part of `Valid` rather than checked at run time.
- Loaders.ConfigurationLoader.ExecuteReaders: readers that share an object are possible, because the builder lets several readers use one fetcher. For such readers the model ties each outcome and new state to the state the reader started in (`befores`, `afters`), but does not state what those starting states are or what the loop leaves in the readers' states.
- Metrics: counts are unbounded integers, as Python's are. Negative `count` arguments are allowed as in the source; every caller in the model passes a non-negative one.
