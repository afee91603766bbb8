/** Scalar values of a parsed configuration entry and the `logging` level table
    the configuration code consults. */
module Values {
  import opened Wrappers

  /** A leaf of a parsed JSON/YAML configuration. `VList` is a list of names (a
      logger's `handlers`); `VQueue` is the process-wide record queue object that
      the merge places in the synthetic queue handler. */
  datatype Value =
    | VNull
    | VBool(b: bool)
    | VInt(i: int)
    | VStr(s: string)
    | VList(items: seq<string>)
    | VQueue

  predicate Numeric(v: Value)
  {
    v.VBool? || v.VInt?
  }

  function AsInt(v: Value): int
    requires Numeric(v)
  {
    if v.VBool? then (if v.b then 1 else 0) else v.i
  }

  /** Python `==` on values: `True == 1` and `False == 0`, otherwise structural. */
  predicate ValueEq(a: Value, b: Value)
  {
    a == b || (Numeric(a) && Numeric(b) && AsInt(a) == AsInt(b))
  }

  lemma ValueEqIsEquivalence(a: Value, b: Value, c: Value)
    ensures ValueEq(a, a)
    ensures ValueEq(a, b) ==> ValueEq(b, a)
    ensures ValueEq(a, b) && ValueEq(b, c) ==> ValueEq(a, c)
  {
  }

  /** A value equals a string only when it is that very string. */
  lemma ValueEqString(v: Value, s: string)
    ensures ValueEq(v, VStr(s)) <==> v == VStr(s)
  {
  }

  /** Whether `min(v, v)` can compare `v` with itself: `None` and the queue object
      define no ordering. */
  predicate Orderable(v: Value)
  {
    !v.VNull? && !v.VQueue?
  }

  /** The level of a level name, as `logging`'s name table has it. */
  function LevelOfName(name: string): (r: Option<int>)
    ensures r.Some? ==> 0 <= r.value <= 50 && r.value % 10 == 0
  {
    match name
    case "CRITICAL" => Some(50)
    case "FATAL" => Some(50)
    case "ERROR" => Some(40)
    case "WARN" => Some(30)
    case "WARNING" => Some(30)
    case "INFO" => Some(20)
    case "DEBUG" => Some(10)
    case "NOTSET" => Some(0)
    case _ => None
  }

  const DEBUG: int := 10

  /** `logging.getLevelName` applied to a string: the numeric level of a known
      name, otherwise the string "Level <name>". */
  function GetLevelName(name: string): Value
  {
    match LevelOfName(name)
    case Some(level) => VInt(level)
    case None => VStr("Level " + name)
  }

  /** The level `Handler.setLevel` accepts for a value, or None where it raises:
      integers (booleans included) as they are, known level names by the table,
      anything else rejected. */
  function CheckLevel(v: Value): Option<int>
  {
    match v
    case VInt(i) => Some(i)
    case VBool(b) => Some(if b then 1 else 0)
    case VStr(s) => LevelOfName(s)
    case _ => None
  }

  /** The level written by `getLevelName` is accepted by `setLevel` exactly when
      the name given was a known level name, and then it is that level. */
  lemma CheckGetLevelName(name: string)
    ensures CheckLevel(GetLevelName(name)) == LevelOfName(name)
  {
    if LevelOfName(name).None? {
      var s := "Level " + name;
      assert s[0] == 'L';
      assert LevelOfName(s).None?;
    }
  }
}
