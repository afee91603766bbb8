/** The decisions `apply_configs` takes for each actual handler
    (bub_logger/bub_logger.py:201-232): which handler class to build, which
    fields become constructor arguments, which formatter and level to set.
    Building the handler objects themselves is left to the library. */
module Dispatch {
  import opened Wrappers
  import opened Values
  import opened Dicts
  import opened Configs
  import opened Errors

  datatype HandlerKind = StreamKind | RotatingFileKind | FileKind

  /** `s.split(".")[-1]`: what follows the last dot, or all of `s` when it has
      none. */
  function LastSegment(s: string): (r: string)
    ensures |r| <= |s| && r == s[|s| - |r|..]
    ensures forall i :: |s| - |r| <= i < |s| ==> s[i] != '.'
    ensures |r| < |s| ==> s[|s| - |r| - 1] == '.'
    decreases |s|
  {
    if |s| == 0 then ""
    else if s[|s| - 1] == '.' then ""
    else LastSegment(s[..|s| - 1]) + [s[|s| - 1]]
  }

  /** Lines 202-211: the handler classes the code knows by name. */
  function KindOf(segment: string): Option<HandlerKind>
  {
    if segment == "StreamHandler" then Some(StreamKind)
    else if segment == "RotatingFileHandler" then Some(RotatingFileKind)
    else if segment == "FileHandler" then Some(FileKind)
    else None
  }

  /** The fields that are not constructor arguments (line 217). */
  const NotArguments: seq<string> := ["class", "formatter", "level"]

  /** Lines 213-219: the keyword arguments the handler class is called with. */
  function ConstructorArgs(h: Fields): Fields
  {
    Without(h, NotArguments)
  }

  /** What the code builds for one actual handler: the class, the constructor
      arguments, the format string of its formatter (if it names one) and the
      level it is set to (if it has one). */
  datatype Instance = Instance(name: string, kind: HandlerKind, args: Fields, format: Option<Value>, level: Option<int>)

  /** Lines 222-226: the format string of the formatter handler `name` names. A
      name that is missing from the merged formatters, or is not a string, makes
      the lookup raise. */
  function FormatOf(name: string, h: Fields, formatters: Section): Result<Option<Value>, Error>
  {
    match Get(h, "formatter")
    case None => Success(None)
    case Some(v) =>
      if !v.VStr? then Failure(MissingFormatter(name))
      else
        match Get(formatters, v.s)
        case None => Failure(MissingFormatter(name))
        case Some(f) =>
          match Get(f, "format")
          case None => Failure(FormatterWithoutFormat(v.s))
          case Some(fmt) => Success(Some(fmt))
  }

  /** Lines 229-230: the level `setLevel` is given, when the handler has one. */
  function LevelOf(name: string, h: Fields): Result<Option<int>, Error>
  {
    match Get(h, "level")
    case None => Success(None)
    case Some(v) =>
      match CheckLevel(v)
      case None => Failure(InvalidLevel(name))
      case Some(l) => Success(Some(l))
  }

  /** Lines 202-230 for one actual handler, in the code's order: class, kind,
      formatter, level. */
  function Instantiate(name: string, h: Fields, formatters: Section): Result<Instance, Error>
  {
    match Get(h, "class")
    case None => Failure(HandlerWithoutClass(name))
    case Some(cls) =>
      if !cls.VStr? then Failure(ClassNotString(name))
      else
        match KindOf(LastSegment(cls.s))
        case None => Failure(UnknownHandlerClass(LastSegment(cls.s)))
        case Some(kind) =>
          match FormatOf(name, h, formatters)
          case Failure(e) => Failure(e)
          case Success(fmt) =>
            match LevelOf(name, h)
            case Failure(e) => Failure(e)
            case Success(level) => Success(Instance(name, kind, ConstructorArgs(h), fmt, level))
  }

  /** Lines 201-232: every actual handler in order, stopping at the first that
      raises. */
  function DispatchAll(actual: seq<(string, Fields)>, formatters: Section): Result<seq<Instance>, Error>
    decreases |actual|
  {
    if |actual| == 0 then Success([])
    else
      match Instantiate(actual[0].0, actual[0].1, formatters)
      case Failure(e) => Failure(e)
      case Success(inst) =>
        match DispatchAll(actual[1..], formatters)
        case Failure(e) => Failure(e)
        case Success(rest) => Success([inst] + rest)
  }

  // ---------------------------------------------------------------------------
  // Properties

  /** The last segment is the only dot-free suffix that is either the whole
      string or preceded by a dot. */
  lemma LastSegmentUnique(s: string, r: string)
    requires |r| <= |s| && r == s[|s| - |r|..]
    requires forall i :: |s| - |r| <= i < |s| ==> s[i] != '.'
    requires |r| < |s| ==> s[|s| - |r| - 1] == '.'
    ensures r == LastSegment(s)
  {
  }

  /** The constructor arguments are the handler's fields other than `class`,
      `formatter` and `level`, in their order. */
  lemma ConstructorArgsSpec(h: Fields, k: string)
    ensures Get(ConstructorArgs(h), k) == if k in NotArguments then None else Get(h, k)
  {
  }

  /** A handler is built exactly when its class is a string naming a known
      handler class, the formatter it names (if any) is among the merged ones
      and has a `format`, and its level (if any) is accepted by `setLevel`. */
  lemma InstantiateSucceeds(name: string, h: Fields, formatters: Section)
    ensures Instantiate(name, h, formatters).Success? <==>
              && Get(h, "class").Some? && Get(h, "class").value.VStr?
              && KindOf(LastSegment(Get(h, "class").value.s)).Some?
              && FormatOf(name, h, formatters).Success?
              && LevelOf(name, h).Success?
  {
  }

  /** The format a handler's formatter supplies. */
  lemma FormatOfSpec(name: string, h: Fields, formatters: Section)
    requires FormatOf(name, h, formatters).Success?
    ensures FormatOf(name, h, formatters).value.Some? == Has(h, "formatter")
    ensures FormatOf(name, h, formatters).value.Some? ==>
              var fname := Get(h, "formatter").value.s;
              Has(formatters, fname) && Get(Get(formatters, fname).value, "format") == FormatOf(name, h, formatters).value
  {
  }

  /** A built handler carries the handler's name, the kind its class names, the
      filtered fields, the `format` of the formatter it names and the level
      `setLevel` accepts. */
  lemma InstantiateResult(name: string, h: Fields, formatters: Section)
    requires Instantiate(name, h, formatters).Success?
    ensures var inst := Instantiate(name, h, formatters).value;
            && inst.name == name
            && inst.kind == KindOf(LastSegment(Get(h, "class").value.s)).value
            && inst.args == ConstructorArgs(h)
            && inst.format.Some? == Has(h, "formatter")
            && (inst.format.Some? ==>
                  var fname := Get(h, "formatter").value.s;
                  Has(formatters, fname) && Get(Get(formatters, fname).value, "format") == inst.format)
            && inst.level.Some? == Has(h, "level")
            && (inst.level.Some? ==> inst.level == CheckLevel(Get(h, "level").value))
  {
    InstantiateValue(name, h, formatters);
    FormatOfSpec(name, h, formatters);
    LevelOfSpec(name, h);
  }

  /** A built handler is assembled from the three decisions, each a success. */
  lemma InstantiateValue(name: string, h: Fields, formatters: Section)
    requires Instantiate(name, h, formatters).Success?
    ensures FormatOf(name, h, formatters).Success? && LevelOf(name, h).Success?
    ensures Instantiate(name, h, formatters).value ==
              Instance(name, KindOf(LastSegment(Get(h, "class").value.s)).value, ConstructorArgs(h),
                       FormatOf(name, h, formatters).value, LevelOf(name, h).value)
  {
  }

  /** The level `setLevel` is given: the handler's own, checked, when it has one. */
  lemma LevelOfSpec(name: string, h: Fields)
    requires LevelOf(name, h).Success?
    ensures LevelOf(name, h).value.Some? == Has(h, "level")
    ensures LevelOf(name, h).value.Some? ==> LevelOf(name, h).value == CheckLevel(Get(h, "level").value)
  {
  }

  /** The errors come in the code's order: an unknown class is reported before
      anything about the formatter, a missing formatter before the level. */
  lemma InstantiateErrors(name: string, h: Fields, formatters: Section)
    requires Get(h, "class").Some? && Get(h, "class").value.VStr?
    ensures KindOf(LastSegment(Get(h, "class").value.s)).None? ==>
              Instantiate(name, h, formatters) == Failure(UnknownHandlerClass(LastSegment(Get(h, "class").value.s)))
    ensures KindOf(LastSegment(Get(h, "class").value.s)).Some? && Get(h, "formatter").Some? &&
            (!Get(h, "formatter").value.VStr? || !Has(formatters, Get(h, "formatter").value.s)) ==>
              Instantiate(name, h, formatters) == Failure(MissingFormatter(name))
  {
  }

  /** The handlers are built one for each actual handler, in order, exactly
      when every one of them can be built. */
  lemma {:induction false} DispatchAllSuccess(actual: seq<(string, Fields)>, formatters: Section)
    ensures DispatchAll(actual, formatters).Success? <==>
              forall i :: 0 <= i < |actual| ==> Instantiate(actual[i].0, actual[i].1, formatters).Success?
    ensures DispatchAll(actual, formatters).Success? ==>
              var insts := DispatchAll(actual, formatters).value;
              && |insts| == |actual|
              && forall i :: 0 <= i < |actual| ==> insts[i] == Instantiate(actual[i].0, actual[i].1, formatters).value
    decreases |actual|
  {
    if |actual| > 0 {
      DispatchAllSuccess(actual[1..], formatters);
      var tail := actual[1..];
      forall i | 1 <= i < |actual|
        ensures actual[i] == tail[i - 1]
      {
      }
    }
  }

  /** When some handler cannot be built, the error is that of the first one
      that cannot. */
  lemma {:induction false} DispatchAllFailure(actual: seq<(string, Fields)>, formatters: Section)
    ensures DispatchAll(actual, formatters).Failure? ==>
              exists i :: 0 <= i < |actual| &&
                (forall m :: 0 <= m < i ==> Instantiate(actual[m].0, actual[m].1, formatters).Success?) &&
                Instantiate(actual[i].0, actual[i].1, formatters) == Failure(DispatchAll(actual, formatters).error)
    decreases |actual|
  {
    if |actual| > 0 {
      var tail := actual[1..];
      var first := Instantiate(actual[0].0, actual[0].1, formatters);
      if first.Failure? {
        assert DispatchAll(actual, formatters) == Failure(first.error);
      } else if DispatchAll(tail, formatters).Failure? {
        assert DispatchAll(actual, formatters) == DispatchAll(tail, formatters);
        DispatchAllFailure(tail, formatters);
        var i :| 0 <= i < |tail| &&
                 (forall m :: 0 <= m < i ==> Instantiate(tail[m].0, tail[m].1, formatters).Success?) &&
                 Instantiate(tail[i].0, tail[i].1, formatters) == Failure(DispatchAll(tail, formatters).error);
        assert actual[i + 1] == tail[i];
        forall m | 0 <= m < i + 1
          ensures Instantiate(actual[m].0, actual[m].1, formatters).Success?
        {
          if m > 0 {
            assert actual[m] == tail[m - 1];
          }
        }
      }
    }
  }

  /** The handlers are built one for each actual handler, in order, when every
      one of them can be built; otherwise the error is that of the first one
      that cannot. */
  lemma DispatchAllSpec(actual: seq<(string, Fields)>, formatters: Section)
    ensures DispatchAll(actual, formatters).Success? <==>
              forall i :: 0 <= i < |actual| ==> Instantiate(actual[i].0, actual[i].1, formatters).Success?
    ensures DispatchAll(actual, formatters).Success? ==>
              var insts := DispatchAll(actual, formatters).value;
              && |insts| == |actual|
              && forall i :: 0 <= i < |actual| ==> insts[i] == Instantiate(actual[i].0, actual[i].1, formatters).value
    ensures DispatchAll(actual, formatters).Failure? ==>
              exists i :: 0 <= i < |actual| &&
                (forall m :: 0 <= m < i ==> Instantiate(actual[m].0, actual[m].1, formatters).Success?) &&
                Instantiate(actual[i].0, actual[i].1, formatters) == Failure(DispatchAll(actual, formatters).error)
  {
    DispatchAllSuccess(actual, formatters);
    DispatchAllFailure(actual, formatters);
  }
}
