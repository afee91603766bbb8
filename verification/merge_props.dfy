/** What the merge computes, stated without its loops, and the proofs that the
    loop model of `Merge` computes it. */
module MergeProps {
  import opened Wrappers
  import opened Values
  import opened Dicts
  import opened Configs
  import opened Errors
  import opened Merge

  // ---------------------------------------------------------------------------
  // Formatter definitions across the stored list

  predicate Defines(c: Config, n: string)
  {
    Has(FormattersOf(c), n)
  }

  function FormatterOf(c: Config, n: string): Fields
    requires Defines(c, n)
  {
    Get(FormattersOf(c), n).value
  }

  /** The last configuration that defines formatter `n`. */
  function LastDefiner(cs: seq<Config>, n: string): (r: Option<nat>)
    ensures r.Some? ==> r.value < |cs| && Defines(cs[r.value], n)
    ensures r.Some? ==> forall m :: r.value < m < |cs| ==> !Defines(cs[m], n)
    ensures r.None? ==> forall m :: 0 <= m < |cs| ==> !Defines(cs[m], n)
  {
    if |cs| == 0 then None
    else if Defines(cs[|cs| - 1], n) then Some(|cs| - 1)
    else LastDefiner(cs[..|cs| - 1], n)
  }

  /** The first configuration from index `k` on that defines formatter `n`. */
  function NextFrom(cs: seq<Config>, k: nat, n: string): (r: Option<nat>)
    ensures r.Some? ==> k <= r.value < |cs| && Defines(cs[r.value], n)
    ensures r.Some? ==> forall m :: k <= m < r.value ==> !Defines(cs[m], n)
    ensures r.None? ==> forall m :: k <= m < |cs| ==> !Defines(cs[m], n)
    decreases |cs| - k
  {
    if k >= |cs| then None
    else if Defines(cs[k], n) then Some(k)
    else NextFrom(cs, k + 1, n)
  }

  /** The next configuration after `j` that defines formatter `n`. */
  function NextDefiner(cs: seq<Config>, j: nat, n: string): Option<nat>
  {
    NextFrom(cs, j + 1, n)
  }

  lemma LastDefinerSnoc(cs: seq<Config>, i: nat, n: string)
    requires i < |cs|
    ensures LastDefiner(cs[..i + 1], n) == if Defines(cs[i], n) then Some(i) else LastDefiner(cs[..i], n)
  {
    assert cs[..i + 1][..i] == cs[..i];
  }

  /** The configuration after the last definer before `i` to define `n` is `i`. */
  lemma NextOfLast(cs: seq<Config>, i: nat, n: string)
    requires i < |cs| && Defines(cs[i], n)
    requires LastDefiner(cs[..i], n).Some?
    ensures NextDefiner(cs, LastDefiner(cs[..i], n).value, n) == Some(i)
  {
  }

  /** A definer whose next definer is `i` is the last definer before `i`. */
  lemma LastOfNext(cs: seq<Config>, j: nat, i: nat, n: string)
    requires j < |cs| && Defines(cs[j], n)
    requires NextDefiner(cs, j, n) == Some(i)
    ensures LastDefiner(cs[..i], n) == Some(j)
  {
    assert cs[..i][j] == cs[j];
  }

  // ---------------------------------------------------------------------------
  // The in-place formatter updates, as a function of the input list

  /** Whether the definition of `n` by configuration `k` has been processed once
      the loop has finished configurations before `i` and, of configuration `i`,
      the formatter names `done`. */
  predicate Processed(k: nat, n: string, i: nat, done: set<string>)
  {
    k < i || (k == i && n in done)
  }

  /** Configuration `j`'s formatter `n` (originally `f`) at that point of the
      loop: once the next configuration defining `n` has been processed, `f` has
      been updated with that configuration's fields (line 153). */
  function RewriteEntry(cs: seq<Config>, j: nat, i: nat, done: set<string>, n: string, f: Fields): Fields
  {
    match NextDefiner(cs, j, n)
    case Some(k) => if Processed(k, n, i, done) then Update(f, FormatterOf(cs[k], n)) else f
    case None => f
  }

  function RewriteSection(cs: seq<Config>, j: nat, i: nat, done: set<string>, sec: Section): Section
    decreases |sec|
  {
    if |sec| == 0 then []
    else [(sec[0].0, RewriteEntry(cs, j, i, done, sec[0].0, sec[0].1))] + RewriteSection(cs, j, i, done, sec[1..])
  }

  /** Stored configuration `j` at that point of the loop. */
  function Rewritten(cs: seq<Config>, j: nat, i: nat, done: set<string>): Config
    requires j < |cs|
  {
    match cs[j].formatters
    case None => cs[j]
    case Some(sec) => cs[j].(formatters := Some(RewriteSection(cs, j, i, done, sec)))
  }

  /** The stored list once the loop has finished the configurations before `upto`. */
  function RewrittenAll(cs: seq<Config>, upto: nat): (r: seq<Config>)
    ensures |r| == |cs|
  {
    seq(|cs|, j requires 0 <= j < |cs| => Rewritten(cs, j, upto, {}))
  }

  lemma {:induction false} RewriteKeys(cs: seq<Config>, j: nat, i: nat, done: set<string>, sec: Section)
    ensures KeysOf(RewriteSection(cs, j, i, done, sec)) == KeysOf(sec)
    decreases |sec|
  {
    if |sec| > 0 {
      RewriteKeys(cs, j, i, done, sec[1..]);
    }
  }

  lemma {:induction false} RewriteGet(cs: seq<Config>, j: nat, i: nat, done: set<string>, sec: Section, n: string)
    ensures Get(RewriteSection(cs, j, i, done, sec), n) ==
              match Get(sec, n)
              case None => None
              case Some(f) => Some(RewriteEntry(cs, j, i, done, n, f))
    decreases |sec|
  {
    RewriteKeys(cs, j, i, done, sec);
    if |sec| > 0 && sec[0].0 != n {
      RewriteGet(cs, j, i, done, sec[1..], n);
    }
  }

  lemma {:induction false} RewriteDistinct(cs: seq<Config>, j: nat, i: nat, done: set<string>, sec: Section)
    requires Distinct(sec)
    ensures Distinct(RewriteSection(cs, j, i, done, sec))
    decreases |sec|
  {
    if |sec| > 0 {
      RewriteKeys(cs, j, i, done, sec[1..]);
      RewriteDistinct(cs, j, i, done, sec[1..]);
    }
  }

  /** Two points of the loop that agree on every entry agree on the section. */
  lemma {:induction false} RewritePointwise(cs: seq<Config>, j: nat, i1: nat, d1: set<string>, i2: nat, d2: set<string>, sec: Section)
    requires forall idx :: 0 <= idx < |sec| ==>
               RewriteEntry(cs, j, i1, d1, sec[idx].0, sec[idx].1) == RewriteEntry(cs, j, i2, d2, sec[idx].0, sec[idx].1)
    ensures RewriteSection(cs, j, i1, d1, sec) == RewriteSection(cs, j, i2, d2, sec)
    decreases |sec|
  {
    if |sec| > 0 {
      assert RewriteEntry(cs, j, i1, d1, sec[0].0, sec[0].1) == RewriteEntry(cs, j, i2, d2, sec[0].0, sec[0].1);
      forall idx | 0 <= idx < |sec[1..]|
        ensures RewriteEntry(cs, j, i1, d1, sec[1..][idx].0, sec[1..][idx].1)
             == RewriteEntry(cs, j, i2, d2, sec[1..][idx].0, sec[1..][idx].1)
      {
        assert sec[1..][idx] == sec[idx + 1];
      }
      RewritePointwise(cs, j, i1, d1, i2, d2, sec[1..]);
    }
  }

  /** Where no entry has been processed, the section is unchanged. */
  lemma {:induction false} RewriteIdentity(cs: seq<Config>, j: nat, i: nat, done: set<string>, sec: Section)
    requires forall idx :: 0 <= idx < |sec| ==> RewriteEntry(cs, j, i, done, sec[idx].0, sec[idx].1) == sec[idx].1
    ensures RewriteSection(cs, j, i, done, sec) == sec
    decreases |sec|
  {
    if |sec| > 0 {
      assert RewriteEntry(cs, j, i, done, sec[0].0, sec[0].1) == sec[0].1;
      forall idx | 0 <= idx < |sec[1..]|
        ensures RewriteEntry(cs, j, i, done, sec[1..][idx].0, sec[1..][idx].1) == sec[1..][idx].1
      {
        assert sec[1..][idx] == sec[idx + 1];
      }
      RewriteIdentity(cs, j, i, done, sec[1..]);
    }
  }

  /** Processing `n` in configuration `i` rewrites, in the configuration `o` whose
      next definer of `n` is `i`, exactly the entry `n`. */
  lemma {:induction false} RewriteStep(cs: seq<Config>, o: nat, i: nat, done: set<string>, n: string, sec: Section)
    requires i < |cs| && NextDefiner(cs, o, n) == Some(i) && n !in done
    requires Distinct(sec)
    ensures Has(sec, n) ==>
              RewriteSection(cs, o, i, done + {n}, sec)
              == Set(RewriteSection(cs, o, i, done, sec), n, Update(Get(sec, n).value, FormatterOf(cs[i], n)))
    ensures !Has(sec, n) ==> RewriteSection(cs, o, i, done + {n}, sec) == RewriteSection(cs, o, i, done, sec)
    decreases |sec|
  {
    if |sec| > 0 {
      RewriteStep(cs, o, i, done, n, sec[1..]);
      var m := sec[0].0;
      if m != n {
        assert RewriteEntry(cs, o, i, done + {n}, m, sec[0].1) == RewriteEntry(cs, o, i, done, m, sec[0].1);
      }
    }
  }

  /** Processing `n` in configuration `i` leaves a configuration alone unless its
      next definer of `n` is `i`. */
  lemma RewriteUnaffected(cs: seq<Config>, j: nat, i: nat, done: set<string>, n: string, sec: Section)
    requires Has(sec, n) ==> NextDefiner(cs, j, n) != Some(i)
    ensures RewriteSection(cs, j, i, done + {n}, sec) == RewriteSection(cs, j, i, done, sec)
  {
    forall idx | 0 <= idx < |sec|
      ensures RewriteEntry(cs, j, i, done + {n}, sec[idx].0, sec[idx].1) == RewriteEntry(cs, j, i, done, sec[idx].0, sec[idx].1)
    {
      KeysOfIndex(sec, idx);
    }
    RewritePointwise(cs, j, i, done + {n}, i, done, sec);
  }
}

module MergeLoop {
  import opened Wrappers
  import opened Values
  import opened Dicts
  import opened Configs
  import opened Errors
  import opened Merge
  import opened MergeProps

  function KeySet<V>(d: Dict<V>): set<string>
  {
    set n | n in KeysOf(d)
  }

  // ---------------------------------------------------------------------------
  // Invariants of the loop over configurations

  ghost predicate StoredAt(cs: seq<Config>, i: nat, done: set<string>, stored: seq<Config>)
  {
    |stored| == |cs| && forall j :: 0 <= j < |cs| ==> stored[j] == Rewritten(cs, j, i, done)
  }

  /** Within configuration `i`: names not yet met refer to their last definer
      before `i`; names met are in the map. */
  ghost predicate RefsWithin(cs: seq<Config>, i: nat, done: set<string>, refs: Dict<nat>)
  {
    && i <= |cs|
    && Distinct(refs)
    && (forall n :: n !in done ==> Get(refs, n) == LastDefiner(cs[..i], n))
    && (forall n :: n in done ==> Has(refs, n))
  }

  /** Line 150: a formatter name not yet in the combined map. */
  lemma FormatterNew(cs: seq<Config>, i: nat, done: set<string>, n: string, p: Pass)
    requires i < |cs| && n !in done
    requires StoredAt(cs, i, done, p.stored) && RefsWithin(cs, i, done, p.refs)
    requires Get(p.refs, n).None?
    ensures StoredAt(cs, i, done + {n}, p.stored)
    ensures RefsWithin(cs, i, done + {n}, Set(p.refs, n, i))
  {
    forall j | 0 <= j < |cs|
      ensures p.stored[j] == Rewritten(cs, j, i, done + {n})
    {
      if cs[j].formatters.Some? {
        var sec := cs[j].formatters.value;
        if Has(sec, n) && NextDefiner(cs, j, n) == Some(i) {
          LastOfNext(cs, j, i, n);
        }
        RewriteUnaffected(cs, j, i, done, n, sec);
      }
    }
    SetDistinct(p.refs, n, i);
    forall m | m in done + {n}
      ensures Has(Set(p.refs, n, i), m)
    {
      if m != n {
        assert Get(p.refs, m).Some?;
      }
    }
  }

  /** Line 153: a formatter name already in the combined map, whose reference
      `o` is its last definer before `i`; the update lands in configuration `o`. */
  lemma FormatterKnown(cs: seq<Config>, i: nat, done: set<string>, n: string, f: Fields, p: Pass)
    requires AllValid(cs) && i < |cs| && n !in done
    requires Defines(cs[i], n) && f == FormatterOf(cs[i], n)
    requires StoredAt(cs, i, done, p.stored) && RefsWithin(cs, i, done, p.refs)
    requires Get(p.refs, n).Some?
    ensures StoredAt(cs, i, done + {n}, UpdateReferenced(p.stored, Get(p.refs, n).value, n, f))
    ensures RefsWithin(cs, i, done + {n}, p.refs)
  {
    var o := Get(p.refs, n).value;
    assert LastDefiner(cs[..i], n) == Some(o);
    assert cs[..i][o] == cs[o];
    NextOfLast(cs, i, n);
    var sec := cs[o].formatters.value;
    assert Valid(cs[o]);
    RewriteKeys(cs, o, i, done, sec);
    RewriteGet(cs, o, i, done, sec, n);
    RewriteStep(cs, o, i, done, n, sec);
    var stored' := UpdateReferenced(p.stored, o, n, f);
    forall j | 0 <= j < |cs|
      ensures stored'[j] == Rewritten(cs, j, i, done + {n})
    {
      if j != o && cs[j].formatters.Some? {
        var secj := cs[j].formatters.value;
        if Has(secj, n) && NextDefiner(cs, j, n) == Some(i) {
          LastOfNext(cs, j, i, n);
        }
        RewriteUnaffected(cs, j, i, done, n, secj);
      }
    }
  }

  /** Appending an entry adds its key to the key set. */
  lemma KeySetSnoc<V>(d: Dict<V>, e: (string, V))
    ensures KeySet(d + [e]) == KeySet(d) + {e.0}
  {
    KeysOfAppend(d, [e]);
    assert KeysOf([e]) == [e.0];
  }

  /** Extending a prefix by one entry adds that entry's key. */
  lemma KeySetPrefix<V>(d: Dict<V>, k: nat)
    requires k < |d|
    ensures KeySet(d[..k + 1]) == KeySet(d[..k]) + {d[k].0}
  {
    var pre := d[..k];
    assert d[..k + 1] == pre + [d[k]];
    KeySetSnoc(pre, d[k]);
  }

  /** In a dict with distinct keys, the `k`-th key is not among those before it. */
  lemma KeyNotBefore<V>(d: Dict<V>, k: nat)
    requires Distinct(d) && k < |d|
    ensures d[k].0 !in KeySet(d[..k])
  {
    if d[k].0 in KeySet(d[..k]) {
      var idx :| 0 <= idx < |KeysOf(d[..k])| && KeysOf(d[..k])[idx] == d[k].0;
      KeysOfIndex(d[..k], idx);
      assert d[..k][idx] == d[idx];
      DistinctIndex(d, idx, k);
    }
  }

  /** The `k`-th formatter of configuration `i` is new to the names before it. */
  lemma FormatterFresh(F: Section, k: nat)
    requires Distinct(F) && k < |F|
    ensures KeySet(F[..k + 1]) == KeySet(F[..k]) + {F[k].0}
    ensures F[k].0 !in KeySet(F[..k])
  {
    KeySetPrefix(F, k);
    KeyNotBefore(F, k);
  }

  lemma {:induction false} FormatterPassInv(cs: seq<Config>, i: nat, k: nat, p: Pass)
    requires AllValid(cs) && i < |cs|
    requires k <= |FormattersOf(cs[i])|
    requires StoredAt(cs, i, KeySet(FormattersOf(cs[i])[..k]), p.stored)
    requires RefsWithin(cs, i, KeySet(FormattersOf(cs[i])[..k]), p.refs)
    ensures StoredAt(cs, i, KeySet(FormattersOf(cs[i])), FormatterPass(p, i, FormattersOf(cs[i])[k..]).stored)
    ensures RefsWithin(cs, i, KeySet(FormattersOf(cs[i])), FormatterPass(p, i, FormattersOf(cs[i])[k..]).refs)
    decreases |FormattersOf(cs[i])| - k
  {
    var F := FormattersOf(cs[i]);
    if k == |F| {
      assert F[..k] == F;
      assert F[k..] == [];
    } else {
      var p' := FormatterStep(cs, i, k, p);
      FormatterPassInv(cs, i, k + 1, p');
    }
  }

  /** One iteration of the formatter loop extends the invariant by one name. */
  lemma FormatterStep(cs: seq<Config>, i: nat, k: nat, p: Pass) returns (p': Pass)
    requires AllValid(cs) && i < |cs|
    requires k < |FormattersOf(cs[i])|
    requires StoredAt(cs, i, KeySet(FormattersOf(cs[i])[..k]), p.stored)
    requires RefsWithin(cs, i, KeySet(FormattersOf(cs[i])[..k]), p.refs)
    ensures StoredAt(cs, i, KeySet(FormattersOf(cs[i])[..k + 1]), p'.stored)
    ensures RefsWithin(cs, i, KeySet(FormattersOf(cs[i])[..k + 1]), p'.refs)
    ensures FormatterPass(p, i, FormattersOf(cs[i])[k..]) == FormatterPass(p', i, FormattersOf(cs[i])[k + 1..])
  {
    var F := FormattersOf(cs[i]);
    assert Distinct(F) by {
      assert Valid(cs[i]);
    }
    var n := F[k].0;
    var f := F[k].1;
    var done := KeySet(F[..k]);
    assert F[k..][0] == F[k];
    assert F[k..][1..] == F[k + 1..];
    FormatterFresh(F, k);
    KeysOfIndex(F, k);
    GetEntry(F, k);
    p' := match Get(p.refs, n)
      case None => p.(refs := Set(p.refs, n, i))
      case Some(index) => p.(stored := UpdateReferenced(p.stored, index, n, f));
    assert FormatterPass(p, i, F[k..]) == FormatterPass(p', i, F[k + 1..]);
    if Get(p.refs, n).None? {
      FormatterNew(cs, i, done, n, p);
    } else {
      FormatterKnown(cs, i, done, n, f, p);
    }
  }

  lemma {:induction false} RetargetGet(refs: Dict<nat>, i: nat, fs: Section, n: string)
    ensures Get(Retarget(refs, i, fs), n) == if Has(fs, n) then Some(i) else Get(refs, n)
    decreases |fs|
  {
    if |fs| > 0 {
      RetargetGet(Set(refs, fs[0].0, i), i, fs[1..], n);
    }
  }

  lemma {:induction false} RetargetDistinct(refs: Dict<nat>, i: nat, fs: Section)
    requires Distinct(refs)
    ensures Distinct(Retarget(refs, i, fs))
    decreases |fs|
  {
    if |fs| > 0 {
      SetDistinct(refs, fs[0].0, i);
      RetargetDistinct(Set(refs, fs[0].0, i), i, fs[1..]);
    }
  }

  // ---------------------------------------------------------------------------
  // Handlers

  /** The handlers of one configuration that are not of the QueueHandler class,
      in declaration order. */
  function ActualOf(hs: Section): seq<(string, Fields)>
    decreases |hs|
  {
    if |hs| == 0 then []
    else (if IsQueueClass(hs[0].1) then [] else [hs[0]]) + ActualOf(hs[1..])
  }

  /** The non-QueueHandler handlers of all configurations: configuration order,
      then declaration order. */
  function ActualHandlers(cs: seq<Config>): seq<(string, Fields)>
  {
    if |cs| == 0 then [] else ActualHandlers(cs[..|cs| - 1]) + ActualOf(HandlersOf(cs[|cs| - 1]))
  }

  /** `hs` declares a QueueHandler-class handler named `n`. */
  ghost predicate QueueIn(hs: Section, n: string)
  {
    exists idx :: 0 <= idx < |hs| && hs[idx].0 == n && IsQueueClass(hs[idx].1)
  }

  ghost predicate QueueDefinedIn(cs: seq<Config>, n: string)
  {
    exists j :: 0 <= j < |cs| && QueueIn(HandlersOf(cs[j]), n)
  }

  /** The fields of the last QueueHandler-class handler named `n` in `hs`: the
      one the combined map keeps, since each such handler is written over the
      previous one (line 163). */
  function QueueOf(hs: Section, n: string): Option<Fields>
    decreases |hs|
  {
    if |hs| == 0 then None
    else match QueueOf(hs[1..], n)
      case Some(f) => Some(f)
      case None => if hs[0].0 == n && IsQueueClass(hs[0].1) then Some(hs[0].1) else None
  }

  /** The last QueueHandler-class definition of `n` across the configurations
      `cs`, in configuration order. */
  function LastQueueDefinition(cs: seq<Config>, n: string): Option<Fields>
  {
    if |cs| == 0 then None
    else match QueueOf(HandlersOf(cs[|cs| - 1]), n)
      case Some(f) => Some(f)
      case None => LastQueueDefinition(cs[..|cs| - 1], n)
  }

  /** Every handler in the section is of the QueueHandler class. */
  ghost predicate AllQueueClass(q: Section)
  {
    forall n :: Has(q, n) ==> IsQueueClass(Get(q, n).value)
  }

  /** The first handler without a `class` entry. */
  function FirstClassless(hs: Section): (r: Option<string>)
    ensures r.None? ==> forall idx :: 0 <= idx < |hs| ==> Has(hs[idx].1, "class")
    ensures r.Some? ==> exists idx :: 0 <= idx < |hs| && hs[idx].0 == r.value && !Has(hs[idx].1, "class")
    decreases |hs|
  {
    if |hs| == 0 then None
    else if !Has(hs[0].1, "class") then Some(hs[0].0)
    else FirstClassless(hs[1..])
  }

  /** The first handler without a `class` entry in configurations `i..`, with
      the index of its configuration. */
  function ClasslessFrom(cs: seq<Config>, i: nat): (r: Option<(nat, string)>)
    ensures r.Some? ==> i <= r.value.0 < |cs|
    decreases |cs| - i
  {
    if i >= |cs| then None
    else match FirstClassless(HandlersOf(cs[i]))
      case Some(n) => Some((i, n))
      case None => ClasslessFrom(cs, i + 1)
  }

  lemma QueueInCons(hs: Section, n: string)
    requires |hs| > 0
    ensures QueueIn(hs, n) <==> (hs[0].0 == n && IsQueueClass(hs[0].1)) || QueueIn(hs[1..], n)
  {
    if QueueIn(hs[1..], n) {
      var idx :| 0 <= idx < |hs[1..]| && hs[1..][idx].0 == n && IsQueueClass(hs[1..][idx].1);
      assert hs[idx + 1] == hs[1..][idx];
    }
    if QueueIn(hs, n) && !(hs[0].0 == n && IsQueueClass(hs[0].1)) {
      var idx :| 0 <= idx < |hs| && hs[idx].0 == n && IsQueueClass(hs[idx].1);
      assert hs[1..][idx - 1] == hs[idx];
    }
  }

  /** Over one configuration's handlers: a classless handler stops the pass
      with its name; otherwise the pass runs through. */
  lemma {:induction false} HandlerPassStop(p: Pass, hs: Section)
    ensures FirstClassless(hs).Some? ==>
              HandlerPass(p, hs) == Stop(p.stored, HandlerWithoutClass(FirstClassless(hs).value))
    ensures FirstClassless(hs).None? ==> HandlerPass(p, hs).Continue?
    decreases |hs|
  {
    if |hs| > 0 && Has(hs[0].1, "class") {
      var cls := Get(hs[0].1, "class").value;
      var p' := if cls != VStr(QueueHandlerClass) then p.(actual := p.actual + [hs[0]])
                else p.(queue := Set(p.queue, hs[0].0, hs[0].1));
      assert HandlerPass(p, hs) == HandlerPass(p', hs[1..]);
      assert FirstClassless(hs) == FirstClassless(hs[1..]);
      HandlerPassStop(p', hs[1..]);
    }
  }

  /** A completed pass appends the handlers of a class other than
      QueueHandler to the actual handlers, in order. */
  lemma {:induction false} HandlerPassActual(p: Pass, hs: Section)
    requires FirstClassless(hs).None?
    ensures HandlerPass(p, hs).Continue?
    ensures HandlerPass(p, hs).pass.actual == p.actual + ActualOf(hs)
    decreases |hs|
  {
    HandlerPassStop(p, hs);
    if |hs| > 0 {
      var cls := Get(hs[0].1, "class").value;
      var p' := if cls != VStr(QueueHandlerClass) then p.(actual := p.actual + [hs[0]])
                else p.(queue := Set(p.queue, hs[0].0, hs[0].1));
      assert HandlerPass(p, hs) == HandlerPass(p', hs[1..]);
      HandlerPassActual(p', hs[1..]);
      if cls != VStr(QueueHandlerClass) {
        assert ActualOf(hs) == [hs[0]] + ActualOf(hs[1..]);
        assert p.actual + [hs[0]] + ActualOf(hs[1..]) == p.actual + ActualOf(hs);
      } else {
        assert ActualOf(hs) == ActualOf(hs[1..]);
      }
    }
  }

  /** A completed pass maps each name to its last QueueHandler-class handler in
      `hs`, or else leaves it as it was. */
  lemma {:induction false} HandlerPassQueue(p: Pass, hs: Section)
    requires FirstClassless(hs).None?
    ensures HandlerPass(p, hs).Continue?
    ensures forall n :: Get(HandlerPass(p, hs).pass.queue, n) ==
                          if QueueOf(hs, n).Some? then QueueOf(hs, n) else Get(p.queue, n)
    ensures Distinct(p.queue) ==> Distinct(HandlerPass(p, hs).pass.queue)
    decreases |hs|
  {
    HandlerPassStop(p, hs);
    if |hs| > 0 {
      var name := hs[0].0;
      var cls := Get(hs[0].1, "class").value;
      var p' := if cls != VStr(QueueHandlerClass) then p.(actual := p.actual + [hs[0]])
                else p.(queue := Set(p.queue, name, hs[0].1));
      assert HandlerPass(p, hs) == HandlerPass(p', hs[1..]);
      HandlerPassQueue(p', hs[1..]);
      if cls == VStr(QueueHandlerClass) && Distinct(p.queue) {
        SetDistinct(p.queue, name, hs[0].1);
      }
    }
  }

  /** A completed pass has put into the map exactly the names of the
      QueueHandler-class handlers of `hs`, and only such handlers. */
  lemma {:induction false} HandlerPassQueueKeys(p: Pass, hs: Section)
    requires FirstClassless(hs).None?
    ensures HandlerPass(p, hs).Continue?
    ensures forall n :: Has(HandlerPass(p, hs).pass.queue, n) <==> Has(p.queue, n) || QueueIn(hs, n)
    ensures AllQueueClass(p.queue) ==> AllQueueClass(HandlerPass(p, hs).pass.queue)
    decreases |hs|
  {
    HandlerPassStop(p, hs);
    if |hs| > 0 {
      var name := hs[0].0;
      var cls := Get(hs[0].1, "class").value;
      var p' := if cls != VStr(QueueHandlerClass) then p.(actual := p.actual + [hs[0]])
                else p.(queue := Set(p.queue, name, hs[0].1));
      assert HandlerPass(p, hs) == HandlerPass(p', hs[1..]);
      HandlerPassQueueKeys(p', hs[1..]);
      var r := HandlerPass(p, hs).pass;
      forall n
        ensures Has(r.queue, n) <==> Has(p.queue, n) || QueueIn(hs, n)
      {
        QueueInCons(hs, n);
        if cls == VStr(QueueHandlerClass) {
          if n == name {
            assert Get(p'.queue, n).Some?;
          } else {
            assert Get(p'.queue, n) == Get(p.queue, n);
          }
        }
      }
      if cls == VStr(QueueHandlerClass) && AllQueueClass(p.queue) {
        assert AllQueueClass(p'.queue);
      }
    }
  }

  /** The pass over one configuration's handlers, all in one. */
  lemma HandlerPassSpec(p: Pass, hs: Section)
    ensures FirstClassless(hs).Some? ==>
              HandlerPass(p, hs) == Stop(p.stored, HandlerWithoutClass(FirstClassless(hs).value))
    ensures FirstClassless(hs).None? ==> HandlerPass(p, hs).Continue?
    ensures FirstClassless(hs).None? ==> HandlerPass(p, hs).pass.actual == p.actual + ActualOf(hs)
    ensures FirstClassless(hs).None? ==>
              forall n :: Has(HandlerPass(p, hs).pass.queue, n) <==> Has(p.queue, n) || QueueIn(hs, n)
    ensures FirstClassless(hs).None? ==>
              forall n :: Get(HandlerPass(p, hs).pass.queue, n) ==
                            if QueueOf(hs, n).Some? then QueueOf(hs, n) else Get(p.queue, n)
    ensures FirstClassless(hs).None? && AllQueueClass(p.queue) ==> AllQueueClass(HandlerPass(p, hs).pass.queue)
    ensures FirstClassless(hs).None? && Distinct(p.queue) ==> Distinct(HandlerPass(p, hs).pass.queue)
  {
    HandlerPassStop(p, hs);
    if FirstClassless(hs).None? {
      HandlerPassActual(p, hs);
      HandlerPassQueue(p, hs);
      HandlerPassQueueKeys(p, hs);
    }
  }

  // ---------------------------------------------------------------------------
  // The loop over configurations

  ghost predicate RefsAt(cs: seq<Config>, i: nat, refs: Dict<nat>)
  {
    i <= |cs| && Distinct(refs) && forall n :: Get(refs, n) == LastDefiner(cs[..i], n)
  }

  ghost predicate QueueAt(cs: seq<Config>, q: Section)
  {
    && Distinct(q)
    && AllQueueClass(q)
    && (forall n :: Has(q, n) <==> QueueDefinedIn(cs, n))
    && (forall n :: Get(q, n) == LastQueueDefinition(cs, n))
  }

  /** The loop state after configurations `..i`. */
  ghost predicate Inv(cs: seq<Config>, i: nat, p: Pass)
  {
    && i <= |cs|
    && StoredAt(cs, i, {}, p.stored)
    && RefsAt(cs, i, p.refs)
    && p.actual == ActualHandlers(cs[..i])
    && QueueAt(cs[..i], p.queue)
  }

  lemma ConfigFormatters(cs: seq<Config>, i: nat, p: Pass)
    requires AllValid(cs) && i < |cs| && Inv(cs, i, p)
    ensures StoredAt(cs, i + 1, {}, FormatterPass(p, i, FormattersOf(cs[i])).stored)
    ensures RefsAt(cs, i + 1, Retarget(FormatterPass(p, i, FormattersOf(cs[i])).refs, i, FormattersOf(cs[i])))
  {
    var F := FormattersOf(cs[i]);
    assert F[..0] == [];
    assert KeySet(F[..0]) == {};
    assert F[0..] == F;
    FormatterPassInv(cs, i, 0, p);
    var p1 := FormatterPass(p, i, F);
    forall j | 0 <= j < |cs|
      ensures p1.stored[j] == Rewritten(cs, j, i + 1, {})
    {
      if cs[j].formatters.Some? {
        var sec := cs[j].formatters.value;
        forall idx | 0 <= idx < |sec|
          ensures RewriteEntry(cs, j, i, KeySet(F), sec[idx].0, sec[idx].1)
               == RewriteEntry(cs, j, i + 1, {}, sec[idx].0, sec[idx].1)
        {
        }
        RewritePointwise(cs, j, i, KeySet(F), i + 1, {}, sec);
      }
    }
    forall n
      ensures Get(Retarget(p1.refs, i, F), n) == LastDefiner(cs[..i + 1], n)
    {
      RetargetGet(p1.refs, i, F, n);
      LastDefinerSnoc(cs, i, n);
    }
    RetargetDistinct(p1.refs, i, F);
  }

  lemma QueueDefinedSnoc(cs: seq<Config>, i: nat, n: string)
    requires i < |cs|
    ensures QueueDefinedIn(cs[..i + 1], n) <==> QueueDefinedIn(cs[..i], n) || QueueIn(HandlersOf(cs[i]), n)
  {
    if QueueDefinedIn(cs[..i], n) {
      var j :| 0 <= j < i && QueueIn(HandlersOf(cs[..i][j]), n);
      assert cs[..i + 1][j] == cs[..i][j];
    }
    if QueueIn(HandlersOf(cs[i]), n) {
      assert cs[..i + 1][i] == cs[i];
    }
    if QueueDefinedIn(cs[..i + 1], n) && !QueueIn(HandlersOf(cs[i]), n) {
      var j :| 0 <= j < i + 1 && QueueIn(HandlersOf(cs[..i + 1][j]), n);
      assert cs[..i][j] == cs[..i + 1][j];
    }
  }

  /** One iteration of the loop over configurations keeps the invariant, or
      stops at the first classless handler of configuration `i`. */
  lemma ConfigStep(cs: seq<Config>, i: nat, p: Pass)
    requires AllValid(cs) && i < |cs| && Inv(cs, i, p)
    ensures FirstClassless(HandlersOf(cs[i])).Some? ==>
              ConfigPass(cs, i, p) == Stop(RewrittenAll(cs, i + 1), HandlerWithoutClass(FirstClassless(HandlersOf(cs[i])).value))
    ensures FirstClassless(HandlersOf(cs[i])).None? ==>
              ConfigPass(cs, i, p).Continue? && Inv(cs, i + 1, ConfigPass(cs, i, p).pass)
  {
    var F := FormattersOf(cs[i]);
    var p1 := FormatterPass(p, i, F);
    var p2 := p1.(refs := Retarget(p1.refs, i, F));
    ConfigFormatters(cs, i, p);
    var hs := HandlersOf(cs[i]);
    HandlerPassSpec(p2, hs);
    if FirstClassless(hs).Some? {
      assert p2.stored == RewrittenAll(cs, i + 1);
    } else {
      var p3 := HandlerPass(p2, hs).pass;
      assert cs[..i + 1][..i] == cs[..i];
      assert p3.actual == ActualHandlers(cs[..i + 1]);
      forall n
        ensures Has(p3.queue, n) <==> QueueDefinedIn(cs[..i + 1], n)
        ensures Get(p3.queue, n) == LastQueueDefinition(cs[..i + 1], n)
      {
        QueueDefinedSnoc(cs, i, n);
        assert cs[..i + 1][i] == cs[i];
      }
    }
  }

  /** The loop stops at the first classless handler from configuration `i` on. */
  lemma {:induction false} ConfigsPassStop(cs: seq<Config>, i: nat, p: Pass)
    requires AllValid(cs) && Inv(cs, i, p) && ClasslessFrom(cs, i).Some?
    ensures ConfigsPass(cs, i, p) == Stop(RewrittenAll(cs, ClasslessFrom(cs, i).value.0 + 1),
                                          HandlerWithoutClass(ClasslessFrom(cs, i).value.1))
    decreases |cs| - i
  {
    ConfigStep(cs, i, p);
    if FirstClassless(HandlersOf(cs[i])).None? {
      var p' := ConfigPass(cs, i, p).pass;
      assert ClasslessFrom(cs, i) == ClasslessFrom(cs, i + 1);
      assert ConfigsPass(cs, i, p) == ConfigsPass(cs, i + 1, p');
      ConfigsPassStop(cs, i + 1, p');
    } else {
      assert ClasslessFrom(cs, i) == Some((i, FirstClassless(HandlersOf(cs[i])).value));
    }
  }

  /** Without a classless handler the loop runs to the end, keeping the
      invariant. */
  lemma {:induction false} ConfigsPassDone(cs: seq<Config>, i: nat, p: Pass)
    requires AllValid(cs) && Inv(cs, i, p) && ClasslessFrom(cs, i).None?
    ensures ConfigsPass(cs, i, p).Continue? && Inv(cs, |cs|, ConfigsPass(cs, i, p).pass)
    decreases |cs| - i
  {
    if i < |cs| {
      ConfigStep(cs, i, p);
      ConfigsPassDone(cs, i + 1, ConfigPass(cs, i, p).pass);
    } else {
      assert cs[..i] == cs;
    }
  }

  lemma InitialInv(cs: seq<Config>)
    ensures Inv(cs, 0, Pass(cs, [], [], []))
  {
    forall j | 0 <= j < |cs|
      ensures cs[j] == Rewritten(cs, j, 0, {})
    {
      if cs[j].formatters.Some? {
        RewriteIdentity(cs, j, 0, {}, cs[j].formatters.value);
      }
    }
    assert cs[..0] == [];
  }
}
