/** The example configuration of tests/example_config_data.py:4-27 (a console
    `StreamHandler` and a `FileHandler`, one formatter, the root logger `""`)
    loaded with the arguments tests/test_bub_logger.py:27 passes, the
    configuration standing for the parsed file contents. */
module Example {
  import opened Wrappers
  import opened Values
  import opened Dicts
  import opened Configs
  import opened Merge
  import opened MergeLoop
  import opened MergeProps
  import opened MergeTheorems
  import opened Load
  import opened ConfigList
  import opened Dispatch
  import opened Coordinator

  const Standard: Fields := [("format", StandardFormatString)]

  const Console: Fields := [
    ("class", VStr("logging.StreamHandler")),
    ("level", VStr("DEBUG")),
    ("formatter", VStr("standard")),
    ("stream", VStr("ext://sys.stdout"))]

  const File: Fields := [
    ("class", VStr("logging.FileHandler")),
    ("level", VStr("DEBUG")),
    ("formatter", VStr("standard")),
    ("filename", VStr("test.log"))]

  const Root: Fields := [
    ("handlers", VList(["console", "file"])),
    ("level", VStr("DEBUG")),
    ("propagate", VBool(true))]

  const ExampleConfig: Config := Config(
    [("version", VInt(1)), ("disable_existing_loggers", VBool(false))],
    Some([("standard", Standard)]),
    Some([("console", Console), ("file", File)]),
    Some([("", Root)]))

  /** The example after `load_config('logging_file', log_file_path='test.log',
      log_level='CRITICAL')`. */
  const Loaded: Config := Overrides(ExampleConfig, Path, "CRITICAL")

  /** A dict with one, two, three or four entries has distinct keys when its
      keys differ pairwise. */
  lemma Distinct1<V>(d: Dict<V>)
    requires |d| == 1
    ensures Distinct(d)
  {
    assert d[1..] == [];
  }

  lemma Distinct2<V>(d: Dict<V>)
    requires |d| == 2 && d[0].0 != d[1].0
    ensures Distinct(d)
  {
    Distinct1(d[1..]);
    assert KeysOf(d[1..]) == [d[1].0] by {
      assert d[1..][1..] == [];
    }
  }

  lemma Distinct3<V>(d: Dict<V>)
    requires |d| == 3 && d[0].0 != d[1].0 && d[0].0 != d[2].0 && d[1].0 != d[2].0
    ensures Distinct(d)
  {
    Distinct2(d[1..]);
    assert KeysOf(d[1..]) == [d[1].0, d[2].0] by {
      assert d[1..][1..][1..] == [];
    }
  }

  lemma Distinct4<V>(d: Dict<V>)
    requires |d| == 4 && d[0].0 != d[1].0 && d[0].0 != d[2].0 && d[0].0 != d[3].0
    requires d[1].0 != d[2].0 && d[1].0 != d[3].0 && d[2].0 != d[3].0
    ensures Distinct(d)
  {
    Distinct3(d[1..]);
    assert KeysOf(d[1..]) == [d[1].0, d[2].0, d[3].0] by {
      assert d[1..][1..][1..][1..] == [];
    }
  }

  lemma ExampleValid()
    ensures Valid(ExampleConfig)
  {
    Distinct2(ExampleConfig.top);
    assert KeysOf(ExampleConfig.top) == ["version", "disable_existing_loggers"] by {
      assert ExampleConfig.top[1..][1..] == [];
    }
    Distinct1(Standard);
    Distinct1([("standard", Standard)]);
    Distinct2(HandlersOf(ExampleConfig));
    assert "class" != "level";
    Distinct4(Console);
    Distinct4(File);
    Distinct3(Root);
    Distinct1(LoggersOf(ExampleConfig));
  }

  const Path: Option<string> := Some("test.log")

  lemma LevelNames()
    ensures GetLevelName("CRITICAL") == VInt(50)
    ensures GetLevelName("DEBUG") == VInt(10)
  {
  }

  /** The example's handlers after the overrides. */
  const Console': Fields := OverrideHandler(Console, Path, "CRITICAL")
  const File': Fields := OverrideHandler(File, Path, "CRITICAL")
  const Root': Fields := OverrideLogger(Root)

  /** The console handler keeps its class and formatter and gets level 50. */
  lemma ConsoleEntries()
    ensures Get(Console', "class") == Some(VStr("logging.StreamHandler"))
    ensures Get(Console', "formatter") == Some(VStr("standard"))
    ensures Get(Console', "level") == Some(VInt(50))
  {
    Distinct4(Console);
    GetEntry(Console, 0);
    GetEntry(Console, 2);
  }

  /** The file handler keeps its class and formatter, gets level 50 and is
      pointed at the path given. */
  lemma FileEntries()
    ensures Get(File', "class") == Some(VStr("logging.FileHandler"))
    ensures Get(File', "formatter") == Some(VStr("standard"))
    ensures Get(File', "level") == Some(VInt(50))
    ensures Get(File', "filename") == Some(VStr("test.log"))
  {
    Distinct4(File);
    GetEntry(File, 0);
    GetEntry(File, 2);
    GetEntry(File, 3);
    assert PathGiven(Path);
  }

  /** The path override is visible with a path other than the one the example
      names: the file handler is pointed at it; without a path it keeps its own. */
  lemma ExampleOtherPath()
    ensures Get(OverrideHandler(File, Some("other.log"), "CRITICAL"), "filename") == Some(VStr("other.log"))
    ensures Get(OverrideHandler(File, None, "CRITICAL"), "filename") == Some(VStr("test.log"))
  {
    Distinct4(File);
    GetEntry(File, 3);
    assert PathGiven(Some("other.log"));
  }

  /** What the overrides make of the example's handler and logger entries. */
  lemma ExampleEntries()
    ensures Get(Console', "class") == Some(VStr("logging.StreamHandler"))
    ensures Get(Console', "formatter") == Some(VStr("standard"))
    ensures Get(Console', "level") == Some(VInt(50))
    ensures Get(File', "class") == Some(VStr("logging.FileHandler"))
    ensures Get(File', "formatter") == Some(VStr("standard"))
    ensures Get(File', "level") == Some(VInt(50))
    ensures Get(File', "filename") == Some(VStr("test.log"))
    ensures Get(Root', "level") == Some(VInt(10))
  {
    LevelNames();
    ConsoleEntries();
    FileEntries();
  }

  /** The overrides point the file handler at the new path and set both
      handlers to CRITICAL (50) and the root logger to DEBUG (10). */
  lemma ExampleOverrides()
    ensures HandlersOf(Loaded) == [("console", Console'), ("file", File')]
    ensures LoggersOf(Loaded) == [("", Root')]
    ensures FormattersOf(Loaded) == [("standard", Standard)]
  {
  }

  lemma LoadedValid()
    ensures Valid(Loaded)
  {
    ExampleValid();
    OverridesValid(ExampleConfig, Path, "CRITICAL");
  }

  /** Two handlers that both name a class other than QueueHandler are both
      actual handlers, and neither is a queue handler. */
  lemma TwoPlainHandlers(a: string, ha: Fields, b: string, hb: Fields, q: string)
    requires Has(ha, "class") && Has(hb, "class") && !IsQueueClass(ha) && !IsQueueClass(hb)
    ensures FirstClassless([(a, ha), (b, hb)]).None?
    ensures ActualOf([(a, ha), (b, hb)]) == [(a, ha), (b, hb)]
    ensures !QueueIn([(a, ha), (b, hb)], q)
  {
    var hs := [(a, ha), (b, hb)];
    assert hs[1..] == [(b, hb)];
    assert hs[1..][1..] == [];
    assert ActualOf(hs[1..][1..]) == [];
    assert ActualOf(hs[1..]) == [(b, hb)];
  }

  /** Both handlers of the loaded example name a class that is not
      QueueHandler. */
  lemma LoadedHandlers()
    ensures FirstClassless(HandlersOf(Loaded)).None?
    ensures ActualOf(HandlersOf(Loaded)) == [("console", Console'), ("file", File')]
    ensures !QueueIn(HandlersOf(Loaded), QueueName)
  {
    ExampleEntries();
    ExampleOverrides();
    TwoPlainHandlers("console", Console', "file", File', QueueName);
  }

  // ---------------------------------------------------------------------------
  // Merging and loading one configuration

  lemma SingleValid(c: Config)
    requires Valid(c)
    ensures AllValid([c])
  {
  }

  /** A single well-formed configuration whose handlers all name a class and
      whose one logger has an orderable level merges successfully. */
  lemma SingleSucceeds(c: Config, n: string, l: Fields)
    requires Valid(c) && FirstClassless(HandlersOf(c)).None?
    requires LoggersOf(c) == [(n, l)] && LevelError(n, l).None?
    ensures MergeConfigs([c]).outcome.Success?
  {
    var cs := [c];
    assert ClasslessFrom(cs, 1).None?;
    assert ClasslessFrom(cs, 0).None?;
    assert GoodBefore(LoggersOf(c), 1);
    MergeOutcome(cs);
  }

  /** Merged alone, a configuration without a queue handler of its own
      contributes its non-queue handlers and gets the synthetic one. */
  lemma SingleHandlers(c: Config)
    requires Valid(c) && MergeConfigs([c]).outcome.Success? && !QueueIn(HandlersOf(c), QueueName)
    ensures MergeConfigs([c]).outcome.value.actual == ActualOf(HandlersOf(c))
    ensures Get(MergeConfigs([c]).outcome.value.config.handlers, QueueName) == Some(SyntheticQueueHandler)
  {
    var cs := [c];
    MergeHandlers(cs);
    assert cs[..0] == [];
    assert ActualHandlers(cs) == ActualOf(HandlersOf(c));
    assert !QueueDefinedIn(cs, QueueName);
  }

  /** Merged alone, a configuration keeps each formatter it defines. */
  lemma SingleFormatters(c: Config, n: string)
    requires Valid(c) && MergeConfigs([c]).outcome.Success? && Defines(c, n)
    ensures Get(MergeConfigs([c]).outcome.value.config.formatters, n) == Some(FormatterOf(c, n))
  {
    var cs := [c];
    MergeFormatters(cs);
    assert LastDefiner(cs, n) == Some(0);
  }

  /** The first configuration loaded into a fresh logger is stored alone and
      applied. */
  lemma FirstLoad(c: Config, name: string, path: Option<string>, level: string)
    ensures LoadConfig(Initial(), Some(c), name, path, level) == ApplyConfigs(Initial().(configs := [Overrides(c, path, level)]))
  {
    assert Reload([], Overrides(c, path, level)) == [Overrides(c, path, level)];
  }

  /** Applying a single configuration whose handlers can all be built starts
      the first listener over exactly those handlers. */
  lemma SingleApply(c: Config)
    requires MergeConfigs([c]).outcome.Success?
    requires var out := MergeConfigs([c]).outcome.value; DispatchAll(out.actual, out.config.formatters).Success?
    ensures var o := ApplyConfigs(Initial().(configs := [c]));
            var out := MergeConfigs([c]).outcome.value;
            && o.error.None? && o.state.configured
            && o.state.listener == Some(Listener(1, DispatchAll(out.actual, out.config.formatters).value))
            && o.state.configs == MergeConfigs([c]).stored
  {
    var st := Initial().(configs := [c]);
    assert st.started == 0;
    var out := MergeConfigs(st.configs).outcome.value;
    var insts := DispatchAll(out.actual, out.config.formatters).value;
    assert ApplyConfigs(st).state.listener == Some(Listener(1, insts));
  }

  // ---------------------------------------------------------------------------
  // The example

  lemma RootLevel()
    ensures LevelError("", Root').None?
  {
    ExampleEntries();
  }

  lemma LoadedLoggers()
    ensures LoggersOf(Loaded) == [("", Root')]
    ensures Defines(Loaded, "standard") && FormatterOf(Loaded, "standard") == Standard
  {
    ExampleOverrides();
  }

  /** Merging the loaded example alone succeeds. */
  lemma ExampleSucceeds()
    ensures MergeConfigs([Loaded]).outcome.Success?
  {
    LoadedValid();
    LoadedHandlers();
    RootLevel();
    LoadedLoggers();
    SingleSucceeds(Loaded, "", Root');
  }

  /** Merged alone, the loaded example's two handlers are actual handlers, in
      declaration order; the combined handler map holds the synthetic `queue`
      handler; the formatter `standard` is the example's. */
  lemma ExampleMerge()
    ensures MergeConfigs([Loaded]).outcome.Success?
    ensures MergeConfigs([Loaded]).outcome.value.actual == [("console", Console'), ("file", File')]
    ensures Get(MergeConfigs([Loaded]).outcome.value.config.handlers, QueueName) == Some(SyntheticQueueHandler)
    ensures Get(MergeConfigs([Loaded]).outcome.value.config.formatters, "standard") == Some(Standard)
  {
    ExampleSucceeds();
    LoadedValid();
    LoadedHandlers();
    SingleHandlers(Loaded);
    LoadedLoggers();
    SingleFormatters(Loaded, "standard");
  }

  lemma ExampleKinds()
    ensures LastSegment("logging.StreamHandler") == "StreamHandler"
    ensures LastSegment("logging.FileHandler") == "FileHandler"
  {
    var s := "logging.StreamHandler";
    LastSegmentUnique(s, "StreamHandler");
    var f := "logging.FileHandler";
    LastSegmentUnique(f, "FileHandler");
  }

  /** A first handler that can be built, followed by handlers that can all be
      built, are built in order. */
  lemma DispatchCons(hs: seq<(string, Fields)>, F: Section)
    requires |hs| > 0 && Instantiate(hs[0].0, hs[0].1, F).Success? && DispatchAll(hs[1..], F).Success?
    ensures DispatchAll(hs, F) == Success([Instantiate(hs[0].0, hs[0].1, F).value] + DispatchAll(hs[1..], F).value)
  {
  }

  /** Two handlers that can both be built are built in order. */
  lemma DispatchTwo(hs: seq<(string, Fields)>, F: Section)
    requires |hs| == 2 && Instantiate(hs[0].0, hs[0].1, F).Success? && Instantiate(hs[1].0, hs[1].1, F).Success?
    ensures DispatchAll(hs, F).Success? && |DispatchAll(hs, F).value| == 2
    ensures DispatchAll(hs, F).value[0] == Instantiate(hs[0].0, hs[0].1, F).value
    ensures DispatchAll(hs, F).value[1] == Instantiate(hs[1].0, hs[1].1, F).value
  {
    var t := hs[1..];
    assert t[0] == hs[1] && t[1..] == [];
    DispatchCons(t, F);
    DispatchCons(hs, F);
  }

  /** A handler naming a formatter that has a `format` gets that format. */
  lemma FormatFound(name: string, h: Fields, F: Section, fname: string, fmt: Value)
    requires Get(h, "formatter") == Some(VStr(fname)) && Get(F, fname).Some? && Get(Get(F, fname).value, "format") == Some(fmt)
    ensures FormatOf(name, h, F) == Success(Some(fmt))
  {
  }

  /** A handler with an integer level is set to that level. */
  lemma LevelSet(name: string, h: Fields, lv: int)
    requires Get(h, "level") == Some(VInt(lv))
    ensures LevelOf(name, h) == Success(Some(lv))
  {
  }

  /** A handler naming a known class, with a format and a level, is built with
      that kind, format and level. */
  lemma Builds(name: string, h: Fields, F: Section, cls: string, kind: HandlerKind, fmt: Value, lv: int)
    requires Get(h, "class") == Some(VStr(cls)) && KindOf(LastSegment(cls)) == Some(kind)
    requires FormatOf(name, h, F) == Success(Some(fmt)) && LevelOf(name, h) == Success(Some(lv))
    ensures Instantiate(name, h, F) == Success(Instance(name, kind, ConstructorArgs(h), Some(fmt), Some(lv)))
  {
  }

  /** The format string of the example's formatter. */
  const StandardFormatString: Value := VStr("%(asctime)s - %(name)s - %(levelname)s - %(message)s")

  lemma StandardFormat(F: Section)
    requires Get(F, "standard") == Some(Standard)
    ensures Get(F, "standard").Some? && Get(Get(F, "standard").value, "format") == Some(StandardFormatString)
  {
  }

  /** Against a formatter map holding the example's formatter, the console
      handler is built as a stream handler at level 50. */
  lemma ConsoleBuilt(F: Section)
    requires Get(F, "standard") == Some(Standard)
    ensures Instantiate("console", Console', F).Success?
    ensures Instantiate("console", Console', F).value.kind == StreamKind
    ensures Instantiate("console", Console', F).value.level == Some(50)
  {
    ExampleEntries();
    ExampleKinds();
    StandardFormat(F);
    FormatFound("console", Console', F, "standard", StandardFormatString);
    LevelSet("console", Console', 50);
    Builds("console", Console', F, "logging.StreamHandler", StreamKind, StandardFormatString, 50);
  }

  /** Against a formatter map holding the example's formatter, the file
      handler is built as a file handler at level 50. */
  lemma FileBuilt(F: Section)
    requires Get(F, "standard") == Some(Standard)
    ensures Instantiate("file", File', F).Success?
    ensures Instantiate("file", File', F).value.kind == FileKind
    ensures Instantiate("file", File', F).value.level == Some(50)
  {
    ExampleEntries();
    ExampleKinds();
    StandardFormat(F);
    FormatFound("file", File', F, "standard", StandardFormatString);
    LevelSet("file", File', 50);
    Builds("file", File', F, "logging.FileHandler", FileKind, StandardFormatString, 50);
  }

  /** Loading the example into a fresh logger stores it, configures the logger
      and starts one listener over a stream handler and a file handler, both at
      level 50, in declaration order. */
  lemma ExampleLoad()
    ensures var o := LoadConfig(Initial(), Some(ExampleConfig), "logging_file", Path, "CRITICAL");
            && o.error.None?
            && |o.state.configs| == 1
            && o.state.configured
            && o.state.listener.Some?
            && o.state.listener.value.epoch == 1
            && |o.state.listener.value.handlers| == 2
            && o.state.listener.value.handlers[0].kind == StreamKind
            && o.state.listener.value.handlers[1].kind == FileKind
            && o.state.listener.value.handlers[0].level == Some(50)
            && o.state.listener.value.handlers[1].level == Some(50)
  {
    FirstLoad(ExampleConfig, "logging_file", Path, "CRITICAL");
    ExampleMerge();
    var F := MergeConfigs([Loaded]).outcome.value.config.formatters;
    ConsoleBuilt(F);
    FileBuilt(F);
    DispatchTwo([("console", Console'), ("file", File')], F);
    SingleApply(Loaded);
    LoadedValid();
    SingleValid(Loaded);
    MergeKeeps([Loaded]);
  }

  /** The example's root logger is bound to `console` and `file`. */
  lemma RootHandlers()
    ensures Has(LoggersOf(ExampleConfig), "")
    ensures Get(Get(LoggersOf(ExampleConfig), "").value, "handlers") == Some(VList(["console", "file"]))
  {
    GetEntry(Root, 0);
  }

  /** Loading the example a second time does not replace the stored copy: the
      first merge bound the stored root logger to `queue`, so that copy no
      longer equals the one read again, and the list grows to two entries. */
  lemma ExampleLoadTwice()
    ensures var s := LoadConfig(Initial(), Some(ExampleConfig), "logging_file", Path, "CRITICAL").state;
            && |s.configs| == 1
            && !ConfigEq(s.configs[0], Loaded)
            && |Reload(s.configs, Loaded)| == 2
            && |LoadConfig(s, Some(ExampleConfig), "logging_file", Path, "CRITICAL").state.configs| == 2
  {
    ExampleLoad();
    ExampleValid();
    RootHandlers();
    assert VList(["console", "file"]) != VList([QueueName]);
    LoadedCopyDiffers(Initial(), ExampleConfig, "logging_file", Path, "CRITICAL", "");
    var s := LoadConfig(Initial(), Some(ExampleConfig), "logging_file", Path, "CRITICAL").state;
    ReloadSpec(s.configs, Loaded);
    LoadValid(Initial(), Some(ExampleConfig), "logging_file", Path, "CRITICAL");
    LoadStores(s, ExampleConfig, "logging_file", Path, "CRITICAL");
  }
}
