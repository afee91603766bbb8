/** A parsed logging configuration (the tree `dictConfig` accepts) and Python's
    equality on it. */
module Configs {
  import opened Wrappers
  import opened Values
  import opened Dicts

  /** One formatter, handler or logger definition: field name to value. */
  type Fields = Dict<Value>

  /** A top-level section: definition name to its fields. */
  type Section = Dict<Fields>

  /** A parsed configuration. The `formatters`, `handlers` and `loggers` keys are
      kept apart from the remaining top-level keys (`version`,
      `disable_existing_loggers`, ...) in `top`; a missing section key is `None`,
      which Python's `==` tells apart from an empty section. */
  datatype Config = Config(
    top: Fields,
    formatters: Option<Section>,
    handlers: Option<Section>,
    loggers: Option<Section>)

  /** `config.get("formatters", {})` */
  function FormattersOf(c: Config): Section
  {
    c.formatters.GetOr([])
  }

  /** `config.get("handlers", {})` */
  function HandlersOf(c: Config): Section
  {
    c.handlers.GetOr([])
  }

  /** `config.get("loggers", {})` */
  function LoggersOf(c: Config): Section
  {
    c.loggers.GetOr([])
  }

  /** Every entry of a section has distinct field names, and entry names are distinct. */
  predicate SectionValid(s: Section)
  {
    Distinct(s) && forall i :: 0 <= i < |s| ==> Distinct(s[i].1)
  }

  predicate OptionValid(s: Option<Section>)
  {
    s.Some? ==> SectionValid(s.value)
  }

  /** The configuration is a well-formed Python dict tree: keys are distinct at
      every level and the section keys live only in their own fields. */
  predicate Valid(c: Config)
  {
    && Distinct(c.top)
    && !Has(c.top, "formatters") && !Has(c.top, "handlers") && !Has(c.top, "loggers")
    && OptionValid(c.formatters) && OptionValid(c.handlers) && OptionValid(c.loggers)
  }

  predicate AllValid(cs: seq<Config>)
  {
    forall j :: 0 <= j < |cs| ==> Valid(cs[j])
  }

  /** Python `==` on two field dicts: the same keys with equal values, whatever
      the insertion order. */
  predicate FieldsEq(a: Fields, b: Fields)
  {
    && (forall k | k in KeysOf(a) :: Has(b, k))
    && (forall k | k in KeysOf(b) :: Has(a, k))
    && (forall k | k in KeysOf(a) :: ValueEq(Get(a, k).value, Get(b, k).value))
  }

  /** Python `==` on two sections. */
  predicate SectionEq(a: Section, b: Section)
  {
    && (forall k | k in KeysOf(a) :: Has(b, k))
    && (forall k | k in KeysOf(b) :: Has(a, k))
    && (forall k | k in KeysOf(a) :: FieldsEq(Get(a, k).value, Get(b, k).value))
  }

  predicate OptionEq(a: Option<Section>, b: Option<Section>)
  {
    (a.None? && b.None?) || (a.Some? && b.Some? && SectionEq(a.value, b.value))
  }

  /** Python `==` on two parsed configurations, the comparison behind
      `config in self.configs` and `self.configs.remove(config)`. */
  predicate ConfigEq(a: Config, b: Config)
  {
    && FieldsEq(a.top, b.top)
    && OptionEq(a.formatters, b.formatters)
    && OptionEq(a.handlers, b.handlers)
    && OptionEq(a.loggers, b.loggers)
  }

  lemma FieldsEqIsEquivalence(a: Fields, b: Fields, c: Fields)
    ensures FieldsEq(a, a)
    ensures FieldsEq(a, b) ==> FieldsEq(b, a)
    ensures FieldsEq(a, b) && FieldsEq(b, c) ==> FieldsEq(a, c)
  {
    forall k | Has(a, k) {
      ValueEqIsEquivalence(Get(a, k).value, Get(a, k).value, Get(a, k).value);
    }
    if FieldsEq(a, b) {
      forall k | Has(b, k) {
        ValueEqIsEquivalence(Get(a, k).value, Get(b, k).value, Get(b, k).value);
      }
      if FieldsEq(b, c) {
        forall k | Has(a, k) {
          ValueEqIsEquivalence(Get(a, k).value, Get(b, k).value, Get(c, k).value);
        }
      }
    }
  }

  lemma SectionEqIsEquivalence(a: Section, b: Section, c: Section)
    ensures SectionEq(a, a)
    ensures SectionEq(a, b) ==> SectionEq(b, a)
    ensures SectionEq(a, b) && SectionEq(b, c) ==> SectionEq(a, c)
  {
    forall k | Has(a, k) {
      FieldsEqIsEquivalence(Get(a, k).value, Get(a, k).value, Get(a, k).value);
    }
    if SectionEq(a, b) {
      forall k | Has(b, k) {
        FieldsEqIsEquivalence(Get(a, k).value, Get(b, k).value, Get(b, k).value);
      }
      if SectionEq(b, c) {
        forall k | Has(a, k) {
          FieldsEqIsEquivalence(Get(a, k).value, Get(b, k).value, Get(c, k).value);
        }
      }
    }
  }

  lemma OptionEqIsEquivalence(a: Option<Section>, b: Option<Section>, c: Option<Section>)
    ensures OptionEq(a, a)
    ensures OptionEq(a, b) ==> OptionEq(b, a)
    ensures OptionEq(a, b) && OptionEq(b, c) ==> OptionEq(a, c)
  {
    if a.Some? {
      SectionEqIsEquivalence(a.value, a.value, a.value);
      if b.Some? {
        SectionEqIsEquivalence(a.value, b.value, b.value);
        if c.Some? {
          SectionEqIsEquivalence(a.value, b.value, c.value);
        }
      }
    }
  }

  /** Configuration equality is an equivalence relation, so "the first stored
      entry equal to c" is well behaved. */
  lemma ConfigEqIsEquivalence(a: Config, b: Config, c: Config)
    ensures ConfigEq(a, a)
    ensures ConfigEq(a, b) ==> ConfigEq(b, a)
    ensures ConfigEq(a, b) && ConfigEq(b, c) ==> ConfigEq(a, c)
  {
    FieldsEqIsEquivalence(a.top, b.top, c.top);
    OptionEqIsEquivalence(a.formatters, b.formatters, c.formatters);
    OptionEqIsEquivalence(a.handlers, b.handlers, c.handlers);
    OptionEqIsEquivalence(a.loggers, b.loggers, c.loggers);
  }

  /** `config.get("handlers", {}).get(handler, {}).get("filename")` */
  function HandlerFilename(c: Config, handler: string): Option<Value>
  {
    match Get(HandlersOf(c), handler)
    case None => None
    case Some(h) => Get(h, "filename")
  }

  /** Equal configurations agree on every handler's file name. */
  lemma ConfigEqFilename(a: Config, b: Config, handler: string)
    requires ConfigEq(a, b)
    ensures HandlerFilename(a, handler).None? <==> HandlerFilename(b, handler).None?
    ensures HandlerFilename(a, handler).Some? ==>
              ValueEq(HandlerFilename(a, handler).value, HandlerFilename(b, handler).value)
  {
  }
}
