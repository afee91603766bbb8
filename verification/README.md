# BubLogger configuration core, in Dafny

`BubLogger` (bub_logger/bub_logger.py) combines several parsed `logging`
configurations into one:

- Every logger is routed to a single `QueueHandler`.
- The "actual" handlers (stream, file, rotating file) are served by a
  `QueueListener`.
- The object keeps a list of the loaded configurations.
- Loading, removing and first use (`get_logger`) each re-apply the whole list.

This project models that bookkeeping as pure functions over immutable values,
and proves what each operation does:

| file | module | models |
|---|---|---|
| `wrappers.dfy` | `Wrappers` | `Option` and `Result` |
| `errors.dfy` | `Errors` | the exceptions the code raises, one constructor each |
| `values.dfy` | `Values` | values found in a configuration; Python `==` on them; `logging.getLevelName` and the level check of `setLevel` |
| `dicts.dfy` | `Dicts` | insertion-ordered Python dicts as `seq<(string, V)>`: lookup, item assignment (in place or appended), `update`, key filtering |
| `configs.dfy` | `Configs` | a parsed configuration; well-formedness (distinct keys); Python `==` on configurations, which ignores key order |
| `merge.dfy` | `Merge` | `merge_configs_and_get_handlers`, loop by loop, including the in-place writes it makes into the stored configurations |
| `merge_props.dfy` | `MergeProps`, `MergeLoop` | a reference description of the stored list while the merge runs, and the loop invariant |
| `merge_theorems.dfy` | `MergeTheorems` | what the merge returns and leaves behind |
| `load.dfy` | `Load` | the overrides `load_config` applies to a parsed configuration |
| `reload.dfy` | `ConfigList` | remove-first-equal-then-append on the stored list |
| `dispatch.dfy` | `Dispatch` | the per-handler decisions of `apply_configs` |
| `coordinator.dfy` | `Coordinator` | the object state and `apply_configs`, `load_config`, `load_configs`, `remove_config`, `get_logger` |
| `example.dfy` | `Example` | the configuration of tests/example_config_data.py, loaded with the arguments tests/test_bub_logger.py:27 passes (`log_file_path='test.log'`, `log_level='CRITICAL'`) and given as the parsed file contents |

How the model represents the program:

- **Dicts.** Python dicts keep insertion order, and the order of the actual
  handlers (and so of the listener's handlers) depends on it. A dict is
  therefore an association list.
- **Sections.** A configuration is its top-level keys plus optional
  `formatters`, `handlers` and `loggers` sections. A section that is missing
  and one that is empty compare differently under `==`.
- **Aliasing.** The merge does not copy.
  - The combined formatter map holds the stored formatter dicts themselves.
    So `update` at line 153 writes into an earlier stored configuration.
  - Lines 170-181 rewrite the last stored configuration's logger dicts.

  The model returns the stored list as the merge leaves it, whether the merge
  succeeds or fails. Every later step (`remove`'s equality test, the next merge)
  works on that list.
- **Re-loading appends.** `load_config` removes an earlier entry only when it
  equals the newly read configuration (lines 124-126). But the merge has
  rewritten the stored copy: its loggers now name only `queue`
  (lines 170-178). So loading the same file a second time usually finds no
  equal entry and appends a second copy (`Coordinator.LoadedCopyDiffers`,
  `Example.ExampleLoadTwice`). The `ConfigList` lemmas describe
  remove-first-equal-then-append on values; they say nothing about the values
  the merge leaves behind.
- **Listener.** A `QueueListener` is a token: the number of listeners started
  so far, plus the handlers it serves.
- **Loggers.** A logger returned by `logging.getLogger(name)` is a handle
  carrying the name.
- **Inputs.** File lookup and parsing are not modelled:
  - `load_config` takes the parse result as an `Option` (none: the file was not
    found);
  - `remove_config` takes a predicate saying which file names exist.

Where the code and its apparent intent disagree, the model follows the code:

- **Formatters are not merged field by field.** The field-wise merge of line
  153 is followed by the whole-map `update` of line 156. So each formatter name
  in the result maps to the definition in the last configuration that defines
  it (`MergeTheorems.MergeFormatters`). The field-wise merge survives only as a
  write into the earlier stored configuration (`MergeTheorems.MergeStored`).
- **Loggers come from the last configuration only.** The loop over loggers
  (line 168) sits after the loop over configurations (line 144) and reads the
  variable `config` the earlier loop left behind. As a result:
  - only the last configuration's loggers are merged;
  - the merging branch at lines 171-177 cannot run, since a dict's keys are
    distinct;
  - an empty list of configurations fails, because `config` is unbound
    (`MergeTheorems.EmptyOutcome`).
- **A handler without `class` raises.** Line 162 reads `handler_config["class"]`,
  so such a handler stops the merge. The in-place formatter writes made so far
  remain (`MergeTheorems.ClasslessOutcome`).
- **`dictConfig` still receives the combined configuration when building a
  handler later fails.** Only the listener swap and the `configured` flag come
  after every failure point (`Coordinator.ApplySucceeds`,
  `Coordinator.ApplyFailureKeeps`).

## Model

| member | source | states |
|---|---|---|
| Values.CheckGetLevelName | bub_logger/bub_logger.py:120-122 | the level `getLevelName` writes is accepted by `setLevel` exactly when the name was a known level name, and is then that level |
| Configs.ConfigEqIsEquivalence | bub_logger/bub_logger.py:125-126 | Python `==` on configurations (used by `in` and `list.remove`) is reflexive, symmetric and transitive |
| Configs.ConfigEqFilename | bub_logger/bub_logger.py:266-279 | equal configurations have equal `handlers.<key>.filename` values |
| Dicts.Get | bub_logger/bub_logger.py:113-122 | dict lookup finds a value exactly when the key is present |
| Dicts.UpdateGet | bub_logger/bub_logger.py:153-156 | after `d.update(e)` a key maps to its value in `e` if it has one there, else to its value in `d` |
| Dicts.SetDistinct | bub_logger/bub_logger.py:115 | item assignment keeps the keys of a dict distinct |
| MergeProps.LastDefiner | bub_logger/bub_logger.py:146-156 | the last configuration defining a formatter name: it defines the name and no later one does |
| MergeLoop.HandlerPassSpec | bub_logger/bub_logger.py:159-165 | over one configuration's handlers: a classless handler stops with its name; otherwise QueueHandler-class handlers go to the combined map by name, and the others are appended to the actual handlers in declaration order |
| MergeLoop.FormatterPassInv | bub_logger/bub_logger.py:146-155 | the formatter loop over one configuration keeps the description of the stored list and of the combined map's references |
| MergeLoop.ConfigStep | bub_logger/bub_logger.py:144-165 | one iteration over a configuration keeps the loop invariant, or stops at its first classless handler with the stored list as rewritten so far |
| MergeLoop.ConfigsPassStop | bub_logger/bub_logger.py:144-165 | the loop over configurations stops at the first classless handler of any configuration |
| MergeLoop.ConfigsPassDone | bub_logger/bub_logger.py:144-165 | without a classless handler the loop runs to the end with the invariant holding |
| MergeTheorems.RebindSpec | bub_logger/bub_logger.py:168-181 | loggers up to and including the first bad one get handlers `["queue"]` (line 178 rebinds before the `min` at line 179 raises) and keep every other key; later loggers are untouched; the first logger without a comparable level is the error |
| MergeTheorems.EmptyOutcome | bub_logger/bub_logger.py:144-168 | merging no configurations fails |
| MergeTheorems.ClasslessOutcome | bub_logger/bub_logger.py:159-162 | a handler without `class` fails the merge with that handler's name, leaving the formatter writes made up to its configuration |
| MergeTheorems.LoggersOutcome | bub_logger/bub_logger.py:168-181 | once every handler has a class, the merge succeeds exactly when every logger of the last configuration has a comparable level, and otherwise reports the first one that does not |
| MergeTheorems.MergeOutcome | bub_logger/bub_logger.py:131-189 | the merge succeeds exactly when there is a configuration, every handler has a class, and every logger of the last configuration has a comparable level |
| MergeTheorems.MergeKeeps | bub_logger/bub_logger.py:131-189 | whatever the outcome, every stored configuration stays in place with its top-level keys and handlers unchanged |
| MergeTheorems.MergeFormatters | bub_logger/bub_logger.py:146-156 | combined formatter names are the union over all configurations, each mapped to the definition of the last configuration defining it |
| MergeTheorems.MergeHandlers | bub_logger/bub_logger.py:159-165 | the actual handlers are the non-QueueHandler handlers in configuration order, then declaration order; the combined handler map holds every QueueHandler-class handler and `queue`, each defined name mapped to the fields of its last QueueHandler-class definition, and `queue` to the synthetic handler when no configuration defines it |
| MergeTheorems.MergeLoggers | bub_logger/bub_logger.py:168-181 | the combined loggers are the last configuration's, in order, each with handlers `["queue"]` and every other key (the level included) unchanged |
| MergeTheorems.RebindValid | bub_logger/bub_logger.py:168-181 | rebinding the loggers keeps their names in order and keeps the section well formed |
| MergeTheorems.MergeValid | bub_logger/bub_logger.py:131-189 | whatever its outcome, the merge leaves every stored configuration well formed |
| MergeTheorems.MergeStored | bub_logger/bub_logger.py:150-178 | after the merge every earlier formatter definition has been updated with the next definer's fields, the last configuration holds the rebound loggers, and nothing else changed |
| Load.OverrideHandler | bub_logger/bub_logger.py:112-122 | one handler gets the level `getLevelName(log_level)`, and its `filename`, when present, becomes a given non-empty path; no other key changes |
| Load.OverrideLogger | bub_logger/bub_logger.py:119-120 | one logger gets the level 10 (DEBUG); no other key changes |
| Load.OverridesShape | bub_logger/bub_logger.py:111-122 | the overrides leave the top-level keys and formatters alone and keep each section's entry names in order |
| Load.OverridesHandlers | bub_logger/bub_logger.py:111-122 | every handler gets the level `getLevelName(log_level)` and, when a path is given, a handler with a `filename` gets the path; no other field changes |
| Load.OverridesLoggers | bub_logger/bub_logger.py:119-120 | every logger gets the level 10 and nothing else changes |
| Load.OverridesValid | bub_logger/bub_logger.py:111-122 | the overrides keep a configuration well formed |
| Load.OverridesIdempotent | bub_logger/bub_logger.py:111-122 | applying the overrides a second time with the same arguments changes nothing |
| ConfigList.IndexOfEq | bub_logger/bub_logger.py:125-126 | the position `list.remove` removes: an equal entry with no equal entry before it, or none at all |
| ConfigList.ReloadSpec | bub_logger/bub_logger.py:124-128 | the new configuration ends the list; before it come the old entries in order, less the first one equal to it |
| ConfigList.ReloadNoEqDup | bub_logger/bub_logger.py:124-128 | on values: remove-first-equal-then-append keeps a list free of two equal configurations (the merge that follows may rewrite the stored entries, see Coordinator.LoadedCopyDiffers) |
| ConfigList.ReloadLast | bub_logger/bub_logger.py:124-128 | on values, in a list with no two equal entries: remove-first-equal-then-append of a configuration equal to the last entry replaces that entry, and leaves the list unchanged when the two are identical (without the no-duplicates hypothesis an earlier equal entry is the one removed; two `load_config` calls of one file can leave such a list, see Example.ExampleLoadTwice) |
| ConfigList.ReloadTwice | bub_logger/bub_logger.py:124-128 | on values, in a list with no two equal entries: remove-first-equal-then-append of the same value twice in a row equals doing it once; two `load_config` calls of one file do not satisfy this, because the merge rewrites the stored copy in between (Example.ExampleLoadTwice) |
| ConfigList.ReloadValid | bub_logger/bub_logger.py:124-128 | reloading keeps every stored configuration well formed |
| Dispatch.LastSegment | bub_logger/bub_logger.py:202 | `split(".")[-1]`: the dot-free suffix that is the whole string or follows a dot |
| Dispatch.LastSegmentUnique | bub_logger/bub_logger.py:202 | exactly one suffix has that property |
| Dispatch.ConstructorArgsSpec | bub_logger/bub_logger.py:213-219 | the constructor arguments are the handler's fields other than `class`, `formatter` and `level` |
| Dispatch.InstantiateSucceeds | bub_logger/bub_logger.py:201-230 | a handler is built exactly when its class is a string whose last segment is StreamHandler, RotatingFileHandler or FileHandler, the formatter it names (if any) exists with a `format`, and its level (if any) is accepted |
| Dispatch.FormatOfSpec | bub_logger/bub_logger.py:222-226 | a handler gets a format exactly when it names a formatter, and then it is that formatter's `format` |
| Dispatch.InstantiateResult | bub_logger/bub_logger.py:202-232 | a built handler carries its name, the kind its class names, the filtered fields, its formatter's `format` and its level |
| Dispatch.InstantiateErrors | bub_logger/bub_logger.py:202-226 | an unknown class is reported before anything about the formatter, and a missing formatter before the level |
| Dispatch.DispatchAllSpec | bub_logger/bub_logger.py:201-232 | handlers are built one per actual handler, in order, when all can be; otherwise the error is that of the first that cannot |
| Dispatch.DispatchAllSuccess | bub_logger/bub_logger.py:201-232 | building succeeds exactly when every actual handler can be built, giving one handler per actual handler in order |
| Dispatch.DispatchAllFailure | bub_logger/bub_logger.py:201-232 | a failure carries the error of the first actual handler that cannot be built |
| Coordinator.ApplyFailureKeeps | bub_logger/bub_logger.py:193-242 | every failure of `apply_configs` leaves the listener, the `configured` flag and the registry as they were |
| Coordinator.ApplySucceeds | bub_logger/bub_logger.py:191-242 | `apply_configs` succeeds exactly when the merge does and every actual handler can be built; it always stores the merge's rewritten list; `dictConfig` receives the combined configuration whenever the merge succeeds |
| Coordinator.ApplyValid | bub_logger/bub_logger.py:191-242 | `apply_configs` keeps every stored configuration well formed, whatever its outcome |
| Coordinator.ApplySuccess | bub_logger/bub_logger.py:200-242 | on success `configured` is set and one new listener starts, serving one handler per actual handler in actual-handler order |
| Coordinator.LoadNotFound | bub_logger/bub_logger.py:108-109 | a configuration that cannot be found raises and changes nothing |
| Coordinator.LoadStores | bub_logger/bub_logger.py:124-129 | a loaded configuration is stored with its overrides at the end of the list, and stays stored even when applying fails |
| Coordinator.LoadValid | bub_logger/bub_logger.py:74-129 | loading a well-formed configuration keeps every stored configuration well formed, whatever the outcome |
| Coordinator.StoredLoggersRebound | bub_logger/bub_logger.py:168-178 | after a successful merge every logger of the last stored configuration is bound to `queue` alone |
| Coordinator.ReboundDiffers | bub_logger/bub_logger.py:124-126 | a configuration whose logger is bound to `queue` alone is not `==` to one whose same logger is bound otherwise |
| Coordinator.LoadedCopyDiffers | bub_logger/bub_logger.py:124-129 | after a successful load the stored copy is no longer `==` to the configuration read, once one of its loggers was bound to other handlers than `queue` alone, so reading the same file again does not replace it |
| Coordinator.LoadConfigsValid | bub_logger/bub_logger.py:59-72 | loading a list of well-formed configurations keeps every stored configuration well formed |
| Coordinator.LoadConfigsAppend | bub_logger/bub_logger.py:71-72 | loading a list of requests is loading the first part, then, unless that raised, the rest |
| Coordinator.FirstExisting | bub_logger/bub_logger.py:255-258 | the first extension whose file exists, or none when no file exists |
| Coordinator.KeyForExtensions | bub_logger/bub_logger.py:265-274 | a `.json` file is matched through handler `file`, a `.yaml` or `.yml` file through handler `yaml` |
| Coordinator.MatchIndex | bub_logger/bub_logger.py:263-280 | the first stored configuration whose handler's `filename` equals the chosen file |
| Coordinator.RemoveMatched | bub_logger/bub_logger.py:282-283 | `list.remove` removes the matched configuration itself, since no earlier entry can be equal to it |
| Coordinator.RemoveSpec | bub_logger/bub_logger.py:254-288 | `remove_config` raises, changing nothing, when no file exists or no stored configuration matches; otherwise it removes the first match and re-applies the rest |
| Coordinator.GetLoggerSpec | bub_logger/bub_logger.py:290-299 | `get_logger` first loads `logging_console` at level DEBUG with no path unless already configured, and apart from the registry leaves the state that load leaves; it raises exactly when that load raises, with its error; on success the logger is configured, the name is bound to the handle returned (the one already bound, if any), and no other name changes |
| Coordinator.RemoveValid | bub_logger/bub_logger.py:244-288 | `remove_config` keeps every stored configuration well formed, whatever its outcome |
| Coordinator.GetLoggerValid | bub_logger/bub_logger.py:290-299 | `get_logger` keeps every stored configuration well formed when the console configuration is |
| Coordinator.GetLoggerTwice | bub_logger/bub_logger.py:296-299 | asking again for the same name returns the same handle and changes nothing |
| Example.ExampleValid | tests/example_config_data.py:4-27 | the example configuration is well formed |
| Example.ExampleEntries | bub_logger/bub_logger.py:111-122 | after loading with path `test.log` and level CRITICAL, both example handlers have level 50, the file handler writes to `test.log` (the example already names that file; Example.ExampleOtherPath shows the override with a different path), and the root logger has level 10 |
| Example.ExampleOtherPath | bub_logger/bub_logger.py:112-115 | loading the example with a path other than the one it names points the file handler at the given path, and loading without a path keeps `test.log` |
| Example.ExampleMerge | bub_logger/bub_logger.py:131-189 | merging the loaded example alone succeeds with actual handlers console then file, the synthetic `queue` handler, and the example's formatter |
| Example.ExampleLoadTwice | bub_logger/bub_logger.py:124-128 | loading the example a second time leaves two stored entries: the first merge bound the stored root logger to `queue`, so the stored copy is no longer `==` to the one read again |
| Example.ExampleLoad | tests/test_bub_logger.py:27-31 | loading the example into a fresh logger stores one configuration, sets `configured`, and starts the first listener over a stream handler and a file handler, both at level 50 |

## Left out

- Finding and reading configuration files (lines 50, 89-107, 256): file-system I/O. `load_config` takes the parse result as an `Option`; `remove_config` takes a file-existence predicate.
- JSON and YAML parsing (lines 101-103): library code. A parse error is not modelled; the model starts from the parsed tree.
- `logging.config.dictConfig` (line 197): library code. It is assumed to succeed and not to alter the configuration it is given. The state records what it received.
- Building the stream, file and rotating-file handler objects and the `logging.Formatter` (lines 213-226): library constructors. The model keeps the decisions: the kind, the constructor arguments, the format string and the level.
- `Queue`, `QueueListener` start and stop, `atexit` and `_stop` (lines 31, 37, 234-240, 320-323): threading. The listener is a token.
- The `sys.excepthook` handler (lines 40, 301-318): process control and traceback formatting.
- `_find_config_files`, `update_docstring` and `_update_docstring` (lines 16-23, 34, 47-57, 325-342): `_find_config_files` is called at line 34 and its result is used only by `_update_docstring`, whose only call (line 43) is commented out; none of them touches the configurations.
- `get_instance` and the module-level instance (lines 344-359): object construction around `load_config`.
- The `formatter` argument of `load_config` (line 74): the code never uses it.
- Floating-point values, and dicts nested inside a handler, formatter or logger entry or as a top-level value (`root`, `filters`): a configuration value is null, a bool, an integer, a string, a list of strings or the record queue. The merge never reads such top-level keys, but Python `==` in `load_config` and `remove_config` compares them, so two configurations differing only there are not represented.
- Dispatch.InstantiateSucceeds: assumes the handler constructors (line 213) and `logging.Formatter` (line 225) do not raise; an exception from them (a file that cannot be opened, a bad format string) is not modelled.
- Coordinator.ApplySucceeds: assumes the same of the handler constructors (line 213) and `logging.Formatter` (line 225), so success depends only on the merge and on the decisions `Dispatch` models.
- `logging.getLevelName` on an integer or `None` `log_level` (line 122): `load_config` takes the level as a name; an integer level (mapped back to its name by `getLevelName`) is not admitted.
- Coordinator.LoadValid, Coordinator.LoadConfigsValid, Coordinator.GetLoggerValid: assume the parsed configuration is well formed, as a parsed JSON or YAML mapping is.
- Example.ExampleLoad: states the listener's kinds and levels, not the full constructor arguments of each handler.
- Example: tests/test_bub_logger.py:19 patches `importlib.resources.open_text`, which `load_config` never calls (it opens the file through `pkg_resources.files(...).joinpath(...).open`, bub_logger/bub_logger.py:95-98), so that test reads the packaged `logging_file` configuration; the model instead takes tests/example_config_data.py as the parsed contents and keeps only the test's arguments.
