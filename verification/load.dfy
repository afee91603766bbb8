/** The rewrite `load_config` applies to a freshly parsed configuration before
    storing it (bub_logger/bub_logger.py:111-122): the log file path, the
    logger levels and the handler levels. */
module Load {
  import opened Wrappers
  import opened Values
  import opened Dicts
  import opened Configs

  /** `if log_file_path:` — a path given and not the empty string. */
  predicate PathGiven(path: Option<string>)
  {
    path.Some? && path.value != ""
  }

  /** One handler after lines 111-115 and 121-122: its `filename`, if it has
      one, becomes the path given, and its `level` becomes
      `getLevelName(log_level)`. */
  function OverrideHandler(h: Fields, path: Option<string>, level: string): (r: Fields)
    ensures Get(r, "level") == Some(GetLevelName(level))
    ensures Get(r, "filename") ==
              if PathGiven(path) && Has(h, "filename") then Some(VStr(path.value)) else Get(h, "filename")
    ensures forall k :: k != "level" && k != "filename" ==> Get(r, k) == Get(h, k)
  {
    var h1 := if PathGiven(path) && Has(h, "filename") then Set(h, "filename", VStr(path.value)) else h;
    Set(h1, "level", GetLevelName(level))
  }

  /** One logger after lines 119-120: its level becomes `getLevelName("DEBUG")`,
      which is 10. */
  function OverrideLogger(l: Fields): (r: Fields)
    ensures Get(r, "level") == Some(VInt(DEBUG))
    ensures forall k :: k != "level" ==> Get(r, k) == Get(l, k)
  {
    Set(l, "level", GetLevelName("DEBUG"))
  }

  /** Applies `f` to the fields of every entry of a section, keeping the names
      and their order (the `for ... in section.values()` loops). */
  function MapFields(s: Section, f: Fields -> Fields): (r: Section)
    ensures |r| == |s|
    ensures forall i :: 0 <= i < |s| ==> r[i] == (s[i].0, f(s[i].1))
    decreases |s|
  {
    if |s| == 0 then [] else [(s[0].0, f(s[0].1))] + MapFields(s[1..], f)
  }

  /** Lines 111-122 on a whole configuration. A missing section stays missing:
      `config.get(..., {})` iterates over an empty dict. */
  function Overrides(c: Config, path: Option<string>, level: string): Config
  {
    var hs := if c.handlers.Some? then Some(MapFields(c.handlers.value, h => OverrideHandler(h, path, level))) else None;
    var ls := if c.loggers.Some? then Some(MapFields(c.loggers.value, OverrideLogger)) else None;
    c.(handlers := hs, loggers := ls)
  }

  // ---------------------------------------------------------------------------
  // Properties

  lemma {:induction false} MapFieldsKeys(s: Section, f: Fields -> Fields)
    ensures KeysOf(MapFields(s, f)) == KeysOf(s)
    decreases |s|
  {
    if |s| > 0 {
      MapFieldsKeys(s[1..], f);
    }
  }

  /** The distinctness of a dict depends on its keys alone. */
  lemma {:induction false} DistinctByKeys<V, W>(a: Dict<V>, b: Dict<W>)
    requires KeysOf(a) == KeysOf(b)
    ensures Distinct(a) <==> Distinct(b)
    decreases |a|
  {
    if |a| > 0 {
      assert KeysOf(a[1..]) == KeysOf(a)[1..];
      assert KeysOf(b[1..]) == KeysOf(b)[1..];
      DistinctByKeys(a[1..], b[1..]);
    }
  }

  /** Looking up an entry of a mapped section finds the mapped entry. */
  lemma {:induction false} MapFieldsGet(s: Section, f: Fields -> Fields, n: string)
    ensures Get(MapFields(s, f), n) == if Has(s, n) then Some(f(Get(s, n).value)) else None
    decreases |s|
  {
    if |s| > 0 && s[0].0 != n {
      MapFieldsGet(s[1..], f, n);
    }
  }

  /** Lines 111-122 change only handler and logger entries: the formatters and
      the other top-level keys are untouched, and every section keeps its entry
      names in their order. */
  lemma OverridesShape(c: Config, path: Option<string>, level: string)
    ensures var r := Overrides(c, path, level);
            && r.top == c.top && r.formatters == c.formatters
            && r.handlers.Some? == c.handlers.Some? && r.loggers.Some? == c.loggers.Some?
            && KeysOf(HandlersOf(r)) == KeysOf(HandlersOf(c))
            && KeysOf(LoggersOf(r)) == KeysOf(LoggersOf(c))
  {
    MapFieldsKeys(HandlersOf(c), h => OverrideHandler(h, path, level));
    MapFieldsKeys(LoggersOf(c), OverrideLogger);
  }

  /** Every handler gets the level `getLevelName(log_level)`; a handler with a
      `filename` gets the path given, when one is given; no other field
      changes. */
  lemma OverridesHandlers(c: Config, path: Option<string>, level: string, n: string)
    ensures Has(HandlersOf(Overrides(c, path, level)), n) <==> Has(HandlersOf(c), n)
    ensures Has(HandlersOf(c), n) ==>
              var h := Get(HandlersOf(c), n).value;
              var h' := Get(HandlersOf(Overrides(c, path, level)), n).value;
              && Get(h', "level") == Some(GetLevelName(level))
              && Get(h', "filename") ==
                   (if PathGiven(path) && Has(h, "filename") then Some(VStr(path.value)) else Get(h, "filename"))
              && (forall k :: k != "level" && k != "filename" ==> Get(h', k) == Get(h, k))
  {
    MapFieldsGet(HandlersOf(c), h => OverrideHandler(h, path, level), n);
  }

  /** Every logger gets the level 10 (DEBUG); no other field changes. */
  lemma OverridesLoggers(c: Config, path: Option<string>, level: string, n: string)
    ensures Has(LoggersOf(Overrides(c, path, level)), n) <==> Has(LoggersOf(c), n)
    ensures Has(LoggersOf(c), n) ==>
              var l := Get(LoggersOf(c), n).value;
              var l' := Get(LoggersOf(Overrides(c, path, level)), n).value;
              && Get(l', "level") == Some(VInt(DEBUG))
              && (forall k :: k != "level" ==> Get(l', k) == Get(l, k))
  {
    MapFieldsGet(LoggersOf(c), OverrideLogger, n);
  }

  lemma {:induction false} MapFieldsValid(s: Section, f: Fields -> Fields)
    requires SectionValid(s)
    requires forall h :: Distinct(h) ==> Distinct(f(h))
    ensures SectionValid(MapFields(s, f))
  {
    MapFieldsKeys(s, f);
    DistinctByKeys(s, MapFields(s, f));
  }

  /** The per-entry rewrites keep field names distinct. */
  lemma OverrideDistinct(h: Fields, path: Option<string>, level: string)
    requires Distinct(h)
    ensures Distinct(OverrideHandler(h, path, level))
    ensures Distinct(OverrideLogger(h))
  {
    SetDistinct(h, "filename", VStr(path.GetOr([])));
    var h1 := if PathGiven(path) && Has(h, "filename") then Set(h, "filename", VStr(path.value)) else h;
    SetDistinct(h1, "level", GetLevelName(level));
    SetDistinct(h, "level", GetLevelName("DEBUG"));
  }

  /** The rewrite keeps a configuration well formed. */
  lemma OverridesValid(c: Config, path: Option<string>, level: string)
    requires Valid(c)
    ensures Valid(Overrides(c, path, level))
  {
    forall h: Fields | Distinct(h)
      ensures Distinct(OverrideHandler(h, path, level)) && Distinct(OverrideLogger(h))
    {
      OverrideDistinct(h, path, level);
    }
    if c.handlers.Some? {
      MapFieldsValid(c.handlers.value, h => OverrideHandler(h, path, level));
    }
    if c.loggers.Some? {
      MapFieldsValid(c.loggers.value, OverrideLogger);
    }
  }

  lemma MapFieldsIdempotent(s: Section, f: Fields -> Fields)
    requires forall i :: 0 <= i < |s| ==> f(f(s[i].1)) == f(s[i].1)
    ensures MapFields(MapFields(s, f), f) == MapFields(s, f)
  {
  }

  /** Rewriting a configuration a second time with the same arguments changes
      nothing more. */
  lemma OverridesIdempotent(c: Config, path: Option<string>, level: string)
    requires Valid(c)
    ensures Overrides(Overrides(c, path, level), path, level) == Overrides(c, path, level)
  {
    forall h: Fields | Distinct(h)
      ensures OverrideHandler(OverrideHandler(h, path, level), path, level) == OverrideHandler(h, path, level)
      ensures OverrideLogger(OverrideLogger(h)) == OverrideLogger(h)
    {
      OverrideDistinct(h, path, level);
      var once := OverrideHandler(h, path, level);
      if PathGiven(path) && Has(h, "filename") {
        SetPresent(once, "filename", VStr(path.value));
      }
      SetPresent(once, "level", GetLevelName(level));
      SetPresent(OverrideLogger(h), "level", GetLevelName("DEBUG"));
    }
    if c.handlers.Some? {
      MapFieldsIdempotent(c.handlers.value, h => OverrideHandler(h, path, level));
    }
    if c.loggers.Some? {
      MapFieldsIdempotent(c.loggers.value, OverrideLogger);
    }
  }
}
