/** The list operation at the end of `load_config`
    (bub_logger/bub_logger.py:124-127): the first stored configuration equal to
    the new one, if any, is removed and the new one is appended. Equality is
    Python's `==` on dict trees, `ConfigEq`. */
module ConfigList {
  import opened Wrappers
  import opened Configs

  /** The position of the first entry of `cs` equal to `c` (what `list.remove`
      looks for). */
  function IndexOfEq(cs: seq<Config>, c: Config): (r: Option<nat>)
    ensures r.Some? ==> r.value < |cs| && ConfigEq(cs[r.value], c)
    ensures r.Some? ==> forall m :: 0 <= m < r.value ==> !ConfigEq(cs[m], c)
    ensures r.None? ==> forall m :: 0 <= m < |cs| ==> !ConfigEq(cs[m], c)
    decreases |cs|
  {
    if |cs| == 0 then None
    else if ConfigEq(cs[0], c) then Some(0)
    else match IndexOfEq(cs[1..], c)
      case None => None
      case Some(j) => Some(j + 1)
  }

  /** `if config in self.configs: self.configs.remove(config)` */
  function RemoveFirst(cs: seq<Config>, c: Config): seq<Config>
  {
    match IndexOfEq(cs, c)
    case None => cs
    case Some(j) => cs[..j] + cs[j + 1..]
  }

  /** Lines 124-127: remove the first equal entry, then append. */
  function Reload(cs: seq<Config>, c: Config): seq<Config>
  {
    RemoveFirst(cs, c) + [c]
  }

  /** No two stored configurations are equal. */
  ghost predicate NoEqDup(cs: seq<Config>)
  {
    forall i, j :: 0 <= i < j < |cs| ==> !ConfigEq(cs[i], cs[j])
  }

  // ---------------------------------------------------------------------------
  // Properties

  /** Removing the entry at `j` shifts the later entries down by one. */
  lemma RemoveAt(cs: seq<Config>, j: nat)
    requires j < |cs|
    ensures |cs[..j] + cs[j + 1..]| == |cs| - 1
    ensures forall m :: 0 <= m < j ==> (cs[..j] + cs[j + 1..])[m] == cs[m]
    ensures forall m :: j < m < |cs| ==> (cs[..j] + cs[j + 1..])[m - 1] == cs[m]
  {
  }

  /** The new configuration ends the list; before it come the old entries in
      their order, less the first one equal to it when there is one. */
  lemma ReloadSpec(cs: seq<Config>, c: Config)
    ensures |Reload(cs, c)| == if IndexOfEq(cs, c).Some? then |cs| else |cs| + 1
    ensures Reload(cs, c)[|Reload(cs, c)| - 1] == c
    ensures IndexOfEq(cs, c).None? ==> Reload(cs, c) == cs + [c]
    ensures IndexOfEq(cs, c).Some? ==>
              var j := IndexOfEq(cs, c).value;
              && (forall m :: 0 <= m < j ==> Reload(cs, c)[m] == cs[m])
              && (forall m :: j < m < |cs| ==> Reload(cs, c)[m - 1] == cs[m])
  {
    var r := RemoveFirst(cs, c);
    if IndexOfEq(cs, c).Some? {
      RemoveAt(cs, IndexOfEq(cs, c).value);
    }
    assert forall m :: 0 <= m < |r| ==> (r + [c])[m] == r[m];
  }

  /** Two configurations equal to a third are equal to each other. */
  lemma EqToSame(a: Config, b: Config, c: Config)
    ensures ConfigEq(a, c) && ConfigEq(b, c) ==> ConfigEq(a, b) && ConfigEq(b, a)
  {
    ConfigEqIsEquivalence(b, c, c);
    ConfigEqIsEquivalence(a, c, b);
    ConfigEqIsEquivalence(b, c, a);
  }

  /** In a list without two equal entries, no entry but the first equal to `c`
      is equal to `c`. */
  lemma OnlyFirstEq(cs: seq<Config>, c: Config, m: nat)
    requires NoEqDup(cs) && IndexOfEq(cs, c).Some? && m < |cs| && m != IndexOfEq(cs, c).value
    ensures !ConfigEq(cs[m], c)
  {
    var j := IndexOfEq(cs, c).value;
    EqToSame(cs[m], cs[j], c);
    if m < j {
      assert !ConfigEq(cs[m], cs[j]);
    } else {
      assert !ConfigEq(cs[j], cs[m]);
    }
  }

  /** Removing the first entry equal to `c` from a list without two equal
      entries leaves none equal to `c`. */
  lemma RemoveFirstNoEq(cs: seq<Config>, c: Config)
    requires NoEqDup(cs)
    ensures forall m :: 0 <= m < |RemoveFirst(cs, c)| ==> !ConfigEq(RemoveFirst(cs, c)[m], c)
  {
    var r := RemoveFirst(cs, c);
    if IndexOfEq(cs, c).Some? {
      var j := IndexOfEq(cs, c).value;
      forall m | 0 <= m < |r|
        ensures !ConfigEq(r[m], c)
      {
        var src := if m < j then m else m + 1;
        assert r[m] == cs[src];
        OnlyFirstEq(cs, c, src);
      }
    }
  }

  lemma RemoveFirstNoEqDup(cs: seq<Config>, c: Config)
    requires NoEqDup(cs)
    ensures NoEqDup(RemoveFirst(cs, c))
  {
    var r := RemoveFirst(cs, c);
    if IndexOfEq(cs, c).Some? {
      var j := IndexOfEq(cs, c).value;
      forall a, b | 0 <= a < b < |r|
        ensures !ConfigEq(r[a], r[b])
      {
        var sa := if a < j then a else a + 1;
        var sb := if b < j then b else b + 1;
        assert sa < sb;
        assert r[a] == cs[sa] && r[b] == cs[sb];
        assert !ConfigEq(cs[sa], cs[sb]);
      }
    }
  }

  /** A list without two equal configurations stays that way. */
  lemma ReloadNoEqDup(cs: seq<Config>, c: Config)
    requires NoEqDup(cs)
    ensures NoEqDup(Reload(cs, c))
  {
    var r := RemoveFirst(cs, c);
    RemoveFirstNoEq(cs, c);
    RemoveFirstNoEqDup(cs, c);
    forall a, b | 0 <= a < b < |r| + 1
      ensures !ConfigEq((r + [c])[a], (r + [c])[b])
    {
      if b == |r| {
        assert (r + [c])[a] == r[a];
      } else {
        assert (r + [c])[a] == r[a] && (r + [c])[b] == r[b];
      }
    }
  }

  /** The first equal entry is the one at `k` when `k` is equal and no entry
      before it is. */
  lemma IndexOfEqAt(cs: seq<Config>, c: Config, k: nat)
    requires k < |cs| && ConfigEq(cs[k], c)
    requires forall m :: 0 <= m < k ==> !ConfigEq(cs[m], c)
    ensures IndexOfEq(cs, c) == Some(k)
  {
    var r := IndexOfEq(cs, c);
    assert r.Some?;
    assert !(r.value < k);
    assert !(k < r.value);
  }

  /** Loading a configuration equal to the last stored one, in a list without
      two equal entries, replaces that entry by the new one in place: the list
      is unchanged when the new one is identical to it. */
  lemma ReloadLast(cs: seq<Config>, c: Config)
    requires NoEqDup(cs) && |cs| > 0 && ConfigEq(cs[|cs| - 1], c)
    ensures Reload(cs, c) == cs[..|cs| - 1] + [c]
    ensures cs[|cs| - 1] == c ==> Reload(cs, c) == cs
  {
    var last := |cs| - 1;
    forall m | 0 <= m < last
      ensures !ConfigEq(cs[m], c)
    {
      EqToSame(cs[m], cs[last], c);
      assert !ConfigEq(cs[m], cs[last]);
    }
    IndexOfEqAt(cs, c, last);
    assert cs[last + 1..] == [];
  }

  /** Loading the same configuration twice in a row is the same as loading it
      once. */
  lemma ReloadTwice(cs: seq<Config>, c: Config)
    requires NoEqDup(cs)
    ensures Reload(Reload(cs, c), c) == Reload(cs, c)
  {
    var r := Reload(cs, c);
    ReloadNoEqDup(cs, c);
    ReloadSpec(cs, c);
    ConfigEqIsEquivalence(c, c, c);
    ReloadLast(r, c);
    assert r[..|r| - 1] + [c] == r;
  }

  /** Removing and appending keep every stored configuration well formed. */
  lemma ReloadValid(cs: seq<Config>, c: Config)
    requires AllValid(cs) && Valid(c)
    ensures AllValid(Reload(cs, c))
  {
    ReloadSpec(cs, c);
    var r := Reload(cs, c);
    forall m | 0 <= m < |r|
      ensures Valid(r[m])
    {
      if m < |r| - 1 && IndexOfEq(cs, c).Some? && m >= IndexOfEq(cs, c).value {
        assert r[m] == cs[m + 1];
      }
    }
  }

  /** Removing the entry at `j` keeps the others well formed. */
  lemma RemoveAtValid(cs: seq<Config>, j: nat)
    requires AllValid(cs) && j < |cs|
    ensures AllValid(cs[..j] + cs[j + 1..])
  {
    RemoveAt(cs, j);
  }
}
