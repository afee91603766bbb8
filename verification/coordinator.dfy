/** The `BubLogger` object's bookkeeping (bub_logger/bub_logger.py:27-299): the
    stored configurations, the `configured` flag, the queue listener and the
    logger registry, and the operations that change them. The listener is a
    token (an epoch and the handlers it serves); file lookup and parsing are
    inputs. */
module Coordinator {
  import opened Wrappers
  import opened Values
  import opened Dicts
  import opened Configs
  import opened Errors
  import opened Merge
  import opened MergeLoop
  import opened MergeTheorems
  import opened Load
  import opened ConfigList
  import opened Dispatch

  /** A started `QueueListener`: the `epoch`-th one started, serving these
      handlers in this order. */
  datatype Listener = Listener(epoch: nat, handlers: seq<Instance>)

  /** `logging.getLogger(name)`: the process-wide logger of that name. */
  datatype Handle = LoggerHandle(name: string)

  /** The fields of a `BubLogger`: `configs`, `configured`, `queue_listener`
      and `loggers`, plus the number of listeners started so far and the
      configuration last handed to `dictConfig`. */
  datatype State = State(
    configs: seq<Config>,
    configured: bool,
    listener: Option<Listener>,
    started: nat,
    installed: Option<Merged>,
    registry: Dict<Handle>)

  /** The state after an operation, and the exception it raised, if any.
      Mutations made before the exception remain. */
  datatype Outcome = Outcome(state: State, error: Option<Error>)

  /** The state `__init__` sets up (lines 28-32). */
  function Initial(): State
  {
    State([], false, None, 0, None, [])
  }

  /** `apply_configs` (lines 191-242). The merge rewrites the stored
      configurations in place whatever its outcome; `dictConfig` is reached
      only after a successful merge; the old listener is replaced and
      `configured` set only when every handler has been built. */
  function ApplyConfigs(st: State): Outcome
  {
    var m := MergeConfigs(st.configs);
    var st1 := st.(configs := m.stored);
    match m.outcome
    case Failure(e) => Outcome(st1, Some(e))
    case Success(out) =>
      var st2 := st1.(installed := Some(out.config));
      match DispatchAll(out.actual, out.config.formatters)
      case Failure(e) => Outcome(st2, Some(e))
      case Success(insts) =>
        Outcome(st2.(listener := Some(Listener(st.started + 1, insts)), started := st.started + 1, configured := true), None)
  }

  /** `load_config` (lines 74-129). `parsed` is the configuration read from the
      first of `<name>.json`, `<name>.yaml`, `<name>.yml` that exists, if any.
      The `formatter` argument is never used and is not modelled. */
  function LoadConfig(st: State, parsed: Option<Config>, name: string, path: Option<string>, level: string): Outcome
  {
    match parsed
    case None => Outcome(st, Some(ConfigNotFound(name)))
    case Some(c) => ApplyConfigs(st.(configs := Reload(st.configs, Overrides(c, path, level))))
  }

  /** One element of the list `load_configs` takes, with its parse result. */
  datatype LoadRequest = LoadRequest(parsed: Option<Config>, name: string, path: Option<string>, level: string)

  /** `load_configs` (lines 59-72): `load_config` for each request in order,
      stopping at the first that raises. */
  function LoadConfigs(st: State, reqs: seq<LoadRequest>): Outcome
    decreases |reqs|
  {
    if |reqs| == 0 then Outcome(st, None)
    else
      var o := LoadConfig(st, reqs[0].parsed, reqs[0].name, reqs[0].path, reqs[0].level);
      if o.error.Some? then o else LoadConfigs(o.state, reqs[1..])
  }

  /** The extensions `remove_config` tries, in order (line 255). */
  const Extensions: seq<string> := [".json", ".yaml", ".yml"]

  /** The position in `exts` of the first extension whose file exists. */
  function FirstExisting(name: string, exts: seq<string>, onDisk: string -> bool): (r: Option<nat>)
    ensures r.Some? ==> r.value < |exts| && onDisk(name + exts[r.value])
    ensures r.Some? ==> forall m :: 0 <= m < r.value ==> !onDisk(name + exts[m])
    ensures r.None? ==> forall m :: 0 <= m < |exts| ==> !onDisk(name + exts[m])
    decreases |exts|
  {
    if |exts| == 0 then None
    else if onDisk(name + exts[0]) then Some(0)
    else match FirstExisting(name, exts[1..], onDisk)
      case None => None
      case Some(k) => Some(k + 1)
  }

  predicate EndsWith(s: string, suffix: string)
  {
    |suffix| <= |s| && s[|s| - |suffix|..] == suffix
  }

  /** The handler whose `filename` identifies a configuration file (lines
      264-280): `file` for a `.json` file, `yaml` for a `.yaml` or `.yml` one. */
  function KeyFor(file: string): Option<string>
  {
    if EndsWith(file, ".json") then Some("file")
    else if EndsWith(file, ".yaml") || EndsWith(file, ".yml") then Some("yaml")
    else None
  }

  /** `config.get("handlers", {}).get(key, {}).get("filename") == file` */
  predicate Matches(c: Config, key: string, file: string)
  {
    HandlerFilename(c, key) == Some(VStr(file))
  }

  /** The position of the first stored configuration that comes from `file`. */
  function MatchIndex(cs: seq<Config>, file: string): (r: Option<nat>)
    ensures r.Some? ==> r.value < |cs| && KeyFor(file).Some? && Matches(cs[r.value], KeyFor(file).value, file)
    ensures r.Some? ==> forall m :: 0 <= m < r.value ==> !Matches(cs[m], KeyFor(file).value, file)
    ensures r.None? ==> KeyFor(file).None? || forall m :: 0 <= m < |cs| ==> !Matches(cs[m], KeyFor(file).value, file)
    decreases |cs|
  {
    if |cs| == 0 || KeyFor(file).None? then None
    else if Matches(cs[0], KeyFor(file).value, file) then Some(0)
    else match MatchIndex(cs[1..], file)
      case None => None
      case Some(j) => Some(j + 1)
  }

  /** `remove_config` (lines 244-288). `onDisk` says which files exist. The
      matching configuration is removed with `list.remove`, that is, the first
      entry equal to it, and the rest are applied again. */
  function RemoveConfig(st: State, name: string, onDisk: string -> bool): Outcome
  {
    match FirstExisting(name, Extensions, onDisk)
    case None => Outcome(st, Some(ConfigNotFound(name)))
    case Some(k) =>
      var file := name + Extensions[k];
      match MatchIndex(st.configs, file)
      case None => Outcome(st, Some(NotInLoadedConfigs(name)))
      case Some(j) => ApplyConfigs(st.(configs := RemoveFirst(st.configs, st.configs[j])))
  }

  /** The state after `get_logger` and the logger it returned, or the exception. */
  datatype Got = Got(state: State, result: Result<Handle, Error>)

  /** `get_logger` (lines 290-299). `console` is the parsed `logging_console`
      configuration, if that file exists. */
  function GetLogger(st: State, name: string, console: Option<Config>): Got
  {
    var boot := if st.configured then Outcome(st, None) else LoadConfig(st, console, "logging_console", None, "DEBUG");
    if boot.error.Some? then Got(boot.state, Failure(boot.error.value))
    else
      var s := boot.state;
      match Get(s.registry, name)
      case Some(h) => Got(s, Success(h))
      case None => Got(s.(registry := Set(s.registry, name, LoggerHandle(name))), Success(LoggerHandle(name)))
  }

  // ---------------------------------------------------------------------------
  // apply_configs

  /** Every failure of `apply_configs` happens before the listener swap: the
      listener, the `configured` flag and the registry are as they were. */
  lemma ApplyFailureKeeps(st: State)
    ensures ApplyConfigs(st).error.Some? ==>
              var s := ApplyConfigs(st).state;
              && s.listener == st.listener && s.configured == st.configured
              && s.started == st.started && s.registry == st.registry
  {
  }

  /** `apply_configs` succeeds exactly when the merge succeeds and every actual
      handler can be built. It always leaves the merge's rewritten list stored;
      `dictConfig` receives the merged configuration whenever the merge
      succeeds, even if building a handler fails afterwards. */
  lemma ApplySucceeds(st: State)
    ensures ApplyConfigs(st).state.configs == MergeConfigs(st.configs).stored
    ensures ApplyConfigs(st).error.None? <==>
              && MergeConfigs(st.configs).outcome.Success?
              && DispatchAll(MergeConfigs(st.configs).outcome.value.actual,
                             MergeConfigs(st.configs).outcome.value.config.formatters).Success?
    ensures ApplyConfigs(st).state.installed ==
              if MergeConfigs(st.configs).outcome.Success? then Some(MergeConfigs(st.configs).outcome.value.config)
              else st.installed
    ensures MergeConfigs(st.configs).outcome.Failure? ==>
              ApplyConfigs(st).error == Some(MergeConfigs(st.configs).outcome.error)
  {
  }

  /** On success `configured` becomes true and exactly one new listener is
      started, over one handler per actual handler, in actual-handler order:
      the non-QueueHandler handlers of the stored configurations, in
      configuration order, then declaration order. */
  lemma ApplySuccess(st: State)
    requires AllValid(st.configs)
    requires ApplyConfigs(st).error.None?
    ensures var s := ApplyConfigs(st).state;
            && s.configured
            && s.started == st.started + 1
            && s.listener.Some? && s.listener.value.epoch == st.started + 1
            && |s.listener.value.handlers| == |ActualHandlers(st.configs)|
            && (forall i :: 0 <= i < |ActualHandlers(st.configs)| ==>
                  s.listener.value.handlers[i].name == ActualHandlers(st.configs)[i].0 &&
                  s.listener.value.handlers[i].args == ConstructorArgs(ActualHandlers(st.configs)[i].1))
            && s.registry == st.registry
  {
    ApplySucceeds(st);
    MergeHandlers(st.configs);
    var out := MergeConfigs(st.configs).outcome.value;
    DispatchAllSpec(out.actual, out.config.formatters);
    var insts := DispatchAll(out.actual, out.config.formatters).value;
    forall i | 0 <= i < |out.actual|
      ensures insts[i].name == out.actual[i].0 && insts[i].args == ConstructorArgs(out.actual[i].1)
    {
      InstantiateResult(out.actual[i].0, out.actual[i].1, out.config.formatters);
    }
  }

  /** `apply_configs` keeps every stored configuration well formed, whatever
      its outcome. */
  lemma ApplyValid(st: State)
    requires AllValid(st.configs)
    ensures AllValid(ApplyConfigs(st).state.configs)
  {
    MergeValid(st.configs);
  }

  // ---------------------------------------------------------------------------
  // load_config

  /** A configuration that cannot be found raises before anything changes. */
  lemma LoadNotFound(st: State, name: string, path: Option<string>, level: string)
    ensures LoadConfig(st, None, name, path, level) == Outcome(st, Some(ConfigNotFound(name)))
  {
  }

  /** A loaded configuration is stored with its overrides, at the end of the
      list, in place of the first equal entry, and stays stored even when
      applying the configurations then fails. */
  lemma LoadStores(st: State, c: Config, name: string, path: Option<string>, level: string)
    requires AllValid(st.configs) && Valid(c)
    ensures var c' := Overrides(c, path, level);
            var s := LoadConfig(st, Some(c), name, path, level).state;
            && |s.configs| == |Reload(st.configs, c')|
            && s.configs[|s.configs| - 1].top == c'.top
            && s.configs[|s.configs| - 1].handlers == c'.handlers
            && s.configs == MergeConfigs(Reload(st.configs, c')).stored
  {
    var c' := Overrides(c, path, level);
    var cs := Reload(st.configs, c');
    OverridesValid(c, path, level);
    ReloadValid(st.configs, c');
    ReloadSpec(st.configs, c');
    assert LoadConfig(st, Some(c), name, path, level) == ApplyConfigs(st.(configs := cs));
    ApplySucceeds(st.(configs := cs));
    MergeKeeps(cs);
    assert cs[|cs| - 1] == c';
  }

  /** A parse result is either absent or a well-formed configuration. */
  predicate ParsedValid(parsed: Option<Config>)
  {
    parsed.Some? ==> Valid(parsed.value)
  }

  /** Loading a well-formed configuration keeps every stored configuration
      well formed, whatever the outcome. */
  lemma LoadValid(st: State, parsed: Option<Config>, name: string, path: Option<string>, level: string)
    requires AllValid(st.configs) && ParsedValid(parsed)
    ensures AllValid(LoadConfig(st, parsed, name, path, level).state.configs)
  {
    if parsed.Some? {
      var c' := Overrides(parsed.value, path, level);
      OverridesValid(parsed.value, path, level);
      ReloadValid(st.configs, c');
      ApplyValid(st.(configs := Reload(st.configs, c')));
    }
  }

  /** A stored configuration whose logger `n` is bound to `queue` alone does
      not equal, under Python `==`, one whose logger `n` is bound otherwise, so
      `list.remove` passes it by. */
  lemma ReboundDiffers(stored: Config, read: Config, n: string)
    requires Has(LoggersOf(stored), n) && Get(Get(LoggersOf(stored), n).value, "handlers") == Some(VList([QueueName]))
    requires Has(LoggersOf(read), n) && Get(Get(LoggersOf(read), n).value, "handlers") != Some(VList([QueueName]))
    ensures !ConfigEq(stored, read)
  {
  }

  /** After a successful merge, every logger of the last stored configuration
      is bound to `queue` alone. */
  lemma StoredLoggersRebound(cs: seq<Config>, n: string)
    requires AllValid(cs) && MergeConfigs(cs).outcome.Success?
    requires Has(LoggersOf(cs[|cs| - 1]), n)
    ensures |MergeConfigs(cs).stored| == |cs|
    ensures var stored := MergeConfigs(cs).stored[|cs| - 1];
            Has(LoggersOf(stored), n) && Get(Get(LoggersOf(stored), n).value, "handlers") == Some(VList([QueueName]))
  {
    SuccessShape(cs);
    MergeStored(cs);
    LoggersOutcome(cs);
    var L := LoggersOf(cs[|cs| - 1]);
    var R := RebindLoggers(L).0;
    RebindSpec(L);
    RebindValid(L);
    var idx :| 0 <= idx < |L| && KeysOf(L)[idx] == n;
    KeysOfIndex(L, idx);
    KeysOfIndex(R, idx);
    assert GoodBefore(L, idx) by {
      assert GoodBefore(L, |L|);
    }
    GetEntry(R, idx);
  }

  /** The merge rewrites the copy it stores: after a successful load of `c`,
      the stored copy no longer equals `c` with its overrides as soon as one
      of `c`'s loggers is bound to handlers other than `queue` alone. Loading
      the same file again therefore does not replace that copy. */
  lemma LoadedCopyDiffers(st: State, c: Config, name: string, path: Option<string>, level: string, n: string)
    requires AllValid(st.configs) && Valid(c)
    requires LoadConfig(st, Some(c), name, path, level).error.None?
    requires Has(LoggersOf(c), n) && Get(Get(LoggersOf(c), n).value, "handlers") != Some(VList([QueueName]))
    ensures var s := LoadConfig(st, Some(c), name, path, level).state;
            |s.configs| > 0 && !ConfigEq(s.configs[|s.configs| - 1], Overrides(c, path, level))
  {
    var c' := Overrides(c, path, level);
    var cs := Reload(st.configs, c');
    OverridesValid(c, path, level);
    ReloadValid(st.configs, c');
    ReloadSpec(st.configs, c');
    ApplySucceeds(st.(configs := cs));
    OverridesLoggers(c, path, level, n);
    assert "handlers" != "level";
    StoredLoggersRebound(cs, n);
    ReboundDiffers(MergeConfigs(cs).stored[|cs| - 1], c', n);
  }

  /** Loading a list of configurations is loading the first part, then, unless
      that raised, the rest. */
  lemma {:induction false} LoadConfigsAppend(st: State, a: seq<LoadRequest>, b: seq<LoadRequest>)
    ensures LoadConfigs(st, a + b) ==
              if LoadConfigs(st, a).error.Some? then LoadConfigs(st, a) else LoadConfigs(LoadConfigs(st, a).state, b)
    decreases |a|
  {
    if |a| == 0 {
      assert a + b == b;
    } else {
      assert (a + b)[0] == a[0];
      assert (a + b)[1..] == a[1..] + b;
      var o := LoadConfig(st, a[0].parsed, a[0].name, a[0].path, a[0].level);
      if o.error.None? {
        LoadConfigsAppend(o.state, a[1..], b);
      }
    }
  }

  /** Loading a list of well-formed configurations keeps every stored
      configuration well formed. */
  lemma {:induction false} LoadConfigsValid(st: State, reqs: seq<LoadRequest>)
    requires AllValid(st.configs)
    requires forall k :: 0 <= k < |reqs| ==> ParsedValid(reqs[k].parsed)
    ensures AllValid(LoadConfigs(st, reqs).state.configs)
    decreases |reqs|
  {
    if |reqs| > 0 {
      LoadValid(st, reqs[0].parsed, reqs[0].name, reqs[0].path, reqs[0].level);
      var o := LoadConfig(st, reqs[0].parsed, reqs[0].name, reqs[0].path, reqs[0].level);
      if o.error.None? {
        assert forall k :: 0 <= k < |reqs[1..]| ==> reqs[1..][k] == reqs[k + 1];
        LoadConfigsValid(o.state, reqs[1..]);
      }
    }
  }

  // ---------------------------------------------------------------------------
  // remove_config

  /** The file name chosen is the first of `.json`, `.yaml`, `.yml` that
      exists, and its extension decides which handler names the file. */
  lemma KeyForExtensions(name: string)
    ensures KeyFor(name + ".json") == Some("file")
    ensures KeyFor(name + ".yaml") == Some("yaml")
    ensures KeyFor(name + ".yml") == Some("yaml")
  {
    var j := name + ".json";
    var y := name + ".yaml";
    var m := name + ".yml";
    assert j[|j| - 5..] == ".json";
    assert y[|y| - 5..] == ".yaml";
    assert y[|y| - 1] == 'l';
    assert m[|m| - 4..] == ".yml";
    assert m[|m| - 1] == 'l';
    assert |m| < 5 || m[|m| - 5..] != ".yaml" by {
      if |m| >= 5 {
        assert m[|m| - 4] == '.';
      }
    }
  }

  /** Every file name `remove_config` tries has a handler that names it. */
  lemma ExtensionKey(name: string, k: nat)
    requires k < |Extensions|
    ensures KeyFor(name + Extensions[k]).Some?
  {
    KeyForExtensions(name);
    assert Extensions[k] == if k == 0 then ".json" else if k == 1 then ".yaml" else ".yml";
  }

  /** Two equal configurations come from the same file or neither does. */
  lemma EqualConfigsMatchAlike(a: Config, b: Config, key: string, file: string)
    ensures ConfigEq(a, b) ==> (Matches(a, key, file) <==> Matches(b, key, file))
  {
    if ConfigEq(a, b) {
      ConfigEqFilename(a, b, key);
      if HandlerFilename(a, key).Some? {
        ValueEqString(HandlerFilename(a, key).value, file);
        ValueEqString(HandlerFilename(b, key).value, file);
        ValueEqIsEquivalence(HandlerFilename(a, key).value, HandlerFilename(b, key).value, VStr(file));
        ValueEqIsEquivalence(HandlerFilename(b, key).value, HandlerFilename(a, key).value, VStr(file));
      }
    }
  }

  /** `list.remove` removes the matched configuration itself: no entry before
      it can be equal to it, since that entry would have matched first. */
  lemma RemoveMatched(cs: seq<Config>, file: string)
    requires MatchIndex(cs, file).Some?
    ensures var j := MatchIndex(cs, file).value;
            RemoveFirst(cs, cs[j]) == cs[..j] + cs[j + 1..]
  {
    var j := MatchIndex(cs, file).value;
    var key := KeyFor(file).value;
    forall m | 0 <= m < j
      ensures !ConfigEq(cs[m], cs[j])
    {
      EqualConfigsMatchAlike(cs[m], cs[j], key, file);
    }
    ConfigEqIsEquivalence(cs[j], cs[j], cs[j]);
    IndexOfEqAt(cs, cs[j], j);
  }

  /** `remove_config` raises before anything changes when no file of that name
      exists, or when no stored configuration comes from the file chosen;
      otherwise it removes the first configuration from that file and applies
      the rest. */
  lemma RemoveSpec(st: State, name: string, onDisk: string -> bool)
    ensures FirstExisting(name, Extensions, onDisk).None? ==>
              RemoveConfig(st, name, onDisk) == Outcome(st, Some(ConfigNotFound(name)))
    ensures FirstExisting(name, Extensions, onDisk).Some? ==>
              var file := name + Extensions[FirstExisting(name, Extensions, onDisk).value];
              && KeyFor(file).Some?
              && (MatchIndex(st.configs, file).None? ==>
                    RemoveConfig(st, name, onDisk) == Outcome(st, Some(NotInLoadedConfigs(name))))
              && (MatchIndex(st.configs, file).Some? ==>
                    var j := MatchIndex(st.configs, file).value;
                    RemoveConfig(st, name, onDisk) == ApplyConfigs(st.(configs := st.configs[..j] + st.configs[j + 1..])))
  {
    if FirstExisting(name, Extensions, onDisk).Some? {
      var k := FirstExisting(name, Extensions, onDisk).value;
      ExtensionKey(name, k);
      var file := name + Extensions[k];
      if MatchIndex(st.configs, file).Some? {
        RemoveMatched(st.configs, file);
      }
    }
  }

  /** `remove_config` keeps every stored configuration well formed, whatever
      its outcome. */
  lemma RemoveValid(st: State, name: string, onDisk: string -> bool)
    requires AllValid(st.configs)
    ensures AllValid(RemoveConfig(st, name, onDisk).state.configs)
  {
    RemoveSpec(st, name, onDisk);
    if FirstExisting(name, Extensions, onDisk).Some? {
      var file := name + Extensions[FirstExisting(name, Extensions, onDisk).value];
      if MatchIndex(st.configs, file).Some? {
        var j := MatchIndex(st.configs, file).value;
        RemoveAtValid(st.configs, j);
        ApplyValid(st.(configs := st.configs[..j] + st.configs[j + 1..]));
      }
    }
  }

  // ---------------------------------------------------------------------------
  // get_logger

  /** `get_logger` raises only when the bootstrap load raises, and then leaves
      the registry as it was. An unconfigured logger first loads
      `logging_console` at level `DEBUG` with no path; apart from the registry,
      the state afterwards is the one that load leaves, or the state as it was
      when already configured. On success the logger is configured, the name is
      bound to the handle returned (the one already bound, if any), and no
      other name changes. */
  lemma GetLoggerSpec(st: State, name: string, console: Option<Config>)
    ensures var g := GetLogger(st, name, console);
            g.result.Failure? ==> !st.configured && g.state.registry == st.registry
    ensures var g := GetLogger(st, name, console);
            g.result.Success? ==>
              && g.state.configured
              && Get(g.state.registry, name) == Some(g.result.value)
              && (Has(st.registry, name) ==> g.result.value == Get(st.registry, name).value)
              && (forall n :: n != name ==> Get(g.state.registry, n) == Get(st.registry, n))
    ensures st.configured ==> GetLogger(st, name, console).result.Success?
    ensures var g := GetLogger(st, name, console);
            var boot := LoadConfig(st, console, "logging_console", None, "DEBUG");
            && (st.configured ==> g.state.(registry := st.registry) == st)
            && (!st.configured ==> g.state.(registry := st.registry) == boot.state
                                   && (g.result.Failure? <==> boot.error.Some?)
                                   && (g.result.Failure? ==> Some(g.result.error) == boot.error))
  {
    if !st.configured && console.Some? {
      var st1 := st.(configs := Reload(st.configs, Overrides(console.value, None, "DEBUG")));
      ApplyFailureKeeps(st1);
    }
  }

  /** The handle is created once: asking again for the same name returns the
      same handle and changes nothing. */
  lemma GetLoggerTwice(st: State, name: string, console: Option<Config>, console': Option<Config>)
    requires GetLogger(st, name, console).result.Success?
    requires GetLogger(st, name, console).state.configured
    ensures var g := GetLogger(st, name, console);
            GetLogger(g.state, name, console') == g
  {
    GetLoggerSpec(st, name, console);
  }

  /** `get_logger` keeps every stored configuration well formed. */
  lemma GetLoggerValid(st: State, name: string, console: Option<Config>)
    requires AllValid(st.configs) && ParsedValid(console)
    ensures AllValid(GetLogger(st, name, console).state.configs)
  {
    if !st.configured {
      LoadValid(st, console, "logging_console", None, "DEBUG");
    }
  }
}
