/** What `merge_configs_and_get_handlers` (bub_logger/bub_logger.py:131-189)
    returns and what it leaves in the stored list, for every input. */
module MergeTheorems {
  import opened Wrappers
  import opened Values
  import opened Dicts
  import opened Configs
  import opened Errors
  import opened Merge
  import opened MergeProps
  import opened MergeLoop

  // ---------------------------------------------------------------------------
  // The loggers loop (lines 168-181)

  /** The error the loggers loop raises on one logger entry, if any: a missing
      `level` key, or a level that `min` cannot compare. */
  function LevelError(name: string, f: Fields): Option<Error>
  {
    match Get(f, "level")
    case None => Some(LoggerWithoutLevel(name))
    case Some(l) => if Orderable(l) then None else Some(UnorderableLevel(name))
  }

  /** No logger before position `idx` makes the loop raise. */
  ghost predicate GoodBefore(ls: Section, idx: int)
    requires idx <= |ls|
  {
    forall m :: 0 <= m < idx ==> LevelError(ls[m].0, ls[m].1).None?
  }

  lemma GoodBeforeCons(ls: Section, idx: nat)
    requires |ls| > 0 && idx < |ls| && LevelError(ls[0].0, ls[0].1).None?
    ensures GoodBefore(ls, idx + 1) <==> GoodBefore(ls[1..], idx)
  {
    if GoodBefore(ls[1..], idx) {
      forall m | 0 <= m < idx + 1
        ensures LevelError(ls[m].0, ls[m].1).None?
      {
        if m > 0 {
          assert ls[m] == ls[1..][m - 1];
        }
      }
    }
    if GoodBefore(ls, idx + 1) {
      forall m | 0 <= m < idx
        ensures LevelError(ls[1..][m].0, ls[1..][m].1).None?
      {
        assert ls[1..][m] == ls[m + 1];
      }
    }
  }

  /** Rebinding one logger's fields changes `handlers` only. */
  lemma RebindEntry(f: Fields, k: string)
    requires k != "handlers"
    ensures var rebound := Set(f, "handlers", VList([QueueName]));
            && Get(rebound, k) == Get(f, k)
            && (Has(rebound, "level") ==> Get(Set(rebound, "level", Get(rebound, "level").value), k) == Get(f, k))
  {
  }

  /** The loggers loop keeps every logger's name, in order, and every key
      other than `handlers`. */
  lemma {:induction false} RebindShape(ls: Section)
    ensures |RebindLoggers(ls).0| == |ls|
    ensures forall idx :: 0 <= idx < |ls| ==> RebindLoggers(ls).0[idx].0 == ls[idx].0
    ensures forall idx, k :: 0 <= idx < |ls| && k != "handlers" ==>
              Get(RebindLoggers(ls).0[idx].1, k) == Get(ls[idx].1, k)
    decreases |ls|
  {
    if |ls| > 0 {
      var r := RebindLoggers(ls).0;
      var rebound := Set(ls[0].1, "handlers", VList([QueueName]));
      var tail := if LevelError(ls[0].0, ls[0].1).Some? then ls[1..] else RebindLoggers(ls[1..]).0;
      var head := if LevelError(ls[0].0, ls[0].1).Some? then rebound
                  else Set(rebound, "level", Get(rebound, "level").value);
      assert r == [(ls[0].0, head)] + tail;
      RebindShape(ls[1..]);
      forall idx, k | 0 <= idx < |ls| && k != "handlers"
        ensures r[idx].0 == ls[idx].0 && Get(r[idx].1, k) == Get(ls[idx].1, k)
      {
        if idx == 0 {
          RebindEntry(ls[0].1, k);
        } else {
          assert r[idx] == tail[idx - 1];
          assert ls[idx] == ls[1..][idx - 1];
        }
      }
      forall idx | 0 <= idx < |ls|
        ensures r[idx].0 == ls[idx].0
      {
        if idx > 0 {
          assert r[idx] == tail[idx - 1];
          assert ls[idx] == ls[1..][idx - 1];
        }
      }
    }
  }

  /** The loggers loop rebinds every logger up to the first bad one to the
      `queue` handler, keeps every other key (the level being `min(level,
      level)`), leaves the loggers after the bad one untouched, and raises the
      first bad logger's error. */
  lemma RebindSpec(ls: Section)
    ensures |RebindLoggers(ls).0| == |ls|
    ensures forall idx :: 0 <= idx < |ls| ==> RebindLoggers(ls).0[idx].0 == ls[idx].0
    ensures forall idx, k :: 0 <= idx < |ls| && k != "handlers" ==>
              Get(RebindLoggers(ls).0[idx].1, k) == Get(ls[idx].1, k)
    ensures forall idx :: 0 <= idx < |ls| && GoodBefore(ls, idx) ==>
              Get(RebindLoggers(ls).0[idx].1, "handlers") == Some(VList([QueueName]))
    ensures forall idx :: 0 <= idx < |ls| && !GoodBefore(ls, idx) ==> RebindLoggers(ls).0[idx] == ls[idx]
    ensures RebindLoggers(ls).1.None? <==> GoodBefore(ls, |ls|)
    ensures RebindLoggers(ls).1.Some? ==>
              exists idx :: 0 <= idx < |ls| && GoodBefore(ls, idx) && RebindLoggers(ls).1 == LevelError(ls[idx].0, ls[idx].1)
  {
    RebindShape(ls);
    RebindPrefix(ls);
    RebindError(ls);
  }

  /** Loggers up to the first bad one are bound to `queue`; later ones are untouched. */
  lemma RebindPrefix(ls: Section)
    ensures forall idx :: 0 <= idx < |ls| && GoodBefore(ls, idx) ==>
              Get(RebindLoggers(ls).0[idx].1, "handlers") == Some(VList([QueueName]))
    ensures forall idx :: 0 <= idx < |ls| && !GoodBefore(ls, idx) ==> RebindLoggers(ls).0[idx] == ls[idx]
  {
    forall idx | 0 <= idx < |ls| && GoodBefore(ls, idx)
      ensures Get(RebindLoggers(ls).0[idx].1, "handlers") == Some(VList([QueueName]))
    {
      RebindBound(ls, idx);
    }
    forall idx | 0 <= idx < |ls| && !GoodBefore(ls, idx)
      ensures RebindLoggers(ls).0[idx] == ls[idx]
    {
      RebindUntouched(ls, idx);
    }
  }

  /** One step of the loggers loop: the first logger is bound to `queue`. */
  lemma RebindHead(ls: Section)
    requires |ls| > 0
    ensures Get(RebindLoggers(ls).0[0].1, "handlers") == Some(VList([QueueName]))
  {
    var r := RebindLoggers(ls).0;
    var rebound := Set(ls[0].1, "handlers", VList([QueueName]));
    var tail := if LevelError(ls[0].0, ls[0].1).Some? then ls[1..] else RebindLoggers(ls[1..]).0;
    var head := if LevelError(ls[0].0, ls[0].1).Some? then rebound
                else Set(rebound, "level", Get(rebound, "level").value);
    assert r == [(ls[0].0, head)] + tail;
    assert Get(head, "handlers") == Get(rebound, "handlers");
  }

  /** One step of the loggers loop: after a bad first logger the rest are
      untouched, and otherwise they are rebound in turn. */
  lemma RebindRest(ls: Section)
    requires |ls| > 0
    ensures LevelError(ls[0].0, ls[0].1).Some? ==> RebindLoggers(ls).0[1..] == ls[1..]
    ensures LevelError(ls[0].0, ls[0].1).None? ==> RebindLoggers(ls).0[1..] == RebindLoggers(ls[1..]).0
  {
    var r := RebindLoggers(ls).0;
    var rebound := Set(ls[0].1, "handlers", VList([QueueName]));
    var tail := if LevelError(ls[0].0, ls[0].1).Some? then ls[1..] else RebindLoggers(ls[1..]).0;
    var head := if LevelError(ls[0].0, ls[0].1).Some? then rebound
                else Set(rebound, "level", Get(rebound, "level").value);
    assert r == [(ls[0].0, head)] + tail;
    assert r[1..] == tail;
  }

  lemma {:induction false} RebindBound(ls: Section, idx: nat)
    requires idx < |ls| && GoodBefore(ls, idx)
    ensures Get(RebindLoggers(ls).0[idx].1, "handlers") == Some(VList([QueueName]))
    decreases |ls|
  {
    RebindHead(ls);
    if idx > 0 {
      RebindRest(ls);
      var r := RebindLoggers(ls).0;
      assert LevelError(ls[0].0, ls[0].1).None?;
      GoodBeforeCons(ls, idx - 1);
      RebindBound(ls[1..], idx - 1);
      assert r[idx] == r[1..][idx - 1];
    }
  }

  lemma {:induction false} RebindUntouched(ls: Section, idx: nat)
    requires idx < |ls| && !GoodBefore(ls, idx)
    ensures RebindLoggers(ls).0[idx] == ls[idx]
    decreases |ls|
  {
    RebindRest(ls);
    var r := RebindLoggers(ls).0;
    assert idx > 0 by {
      assert GoodBefore(ls, 0);
    }
    assert r[idx] == r[1..][idx - 1];
    assert ls[idx] == ls[1..][idx - 1];
    if LevelError(ls[0].0, ls[0].1).None? {
      GoodBeforeCons(ls, idx - 1);
      RebindUntouched(ls[1..], idx - 1);
    }
  }

  /** The rebinding reports an error exactly when some logger is bad, and then
      it is the first bad one's. */
  lemma {:induction false} RebindError(ls: Section)
    ensures RebindLoggers(ls).1.None? <==> GoodBefore(ls, |ls|)
    ensures RebindLoggers(ls).1.Some? ==>
              exists idx :: 0 <= idx < |ls| && GoodBefore(ls, idx) && RebindLoggers(ls).1 == LevelError(ls[idx].0, ls[idx].1)
    decreases |ls|
  {
    if |ls| > 0 {
      var r := RebindLoggers(ls);
      var name := ls[0].0;
      var rebound := Set(ls[0].1, "handlers", VList([QueueName]));
      assert Get(rebound, "level") == Get(ls[0].1, "level");
      assert GoodBefore(ls, 0);
      if LevelError(name, ls[0].1).Some? {
        assert r.1 == LevelError(name, ls[0].1);
      } else {
        var level := Get(rebound, "level").value;
        var rest := RebindLoggers(ls[1..]);
        assert r.1 == rest.1;
        RebindError(ls[1..]);
        GoodBeforeCons(ls, |ls| - 1);
        if r.1.Some? {
          var idx :| 0 <= idx < |ls[1..]| && GoodBefore(ls[1..], idx) && rest.1 == LevelError(ls[1..][idx].0, ls[1..][idx].1);
          GoodBeforeCons(ls, idx);
          assert ls[idx + 1] == ls[1..][idx];
        }
      }
    }
  }

  // ---------------------------------------------------------------------------
  // Reading the combined formatter map

  lemma {:induction false} DerefAllKeys(stored: seq<Config>, refs: Dict<nat>)
    ensures KeysOf(DerefAll(stored, refs)) == KeysOf(refs)
    decreases |refs|
  {
    if |refs| > 0 {
      DerefAllKeys(stored, refs[1..]);
    }
  }

  lemma {:induction false} DerefAllDistinct(stored: seq<Config>, refs: Dict<nat>)
    requires Distinct(refs)
    ensures Distinct(DerefAll(stored, refs))
    decreases |refs|
  {
    if |refs| > 0 {
      DerefAllKeys(stored, refs[1..]);
      DerefAllDistinct(stored, refs[1..]);
    }
  }

  lemma {:induction false} DerefAllGet(stored: seq<Config>, refs: Dict<nat>, n: string)
    ensures Get(DerefAll(stored, refs), n) ==
              match Get(refs, n)
              case None => None
              case Some(k) => Some(Deref(stored, k, n).GetOr([]))
    decreases |refs|
  {
    DerefAllKeys(stored, refs);
    if |refs| > 0 && refs[0].0 != n {
      DerefAllGet(stored, refs[1..], n);
    }
  }

  // ---------------------------------------------------------------------------
  // The stored list after the loop over configurations

  /** Formatter `n` of stored configuration `j` once the merge has run: updated
      with the fields of the next configuration that defines `n`, if any. */
  function FormatterAfterMerge(cs: seq<Config>, j: nat, n: string): Fields
    requires j < |cs| && Defines(cs[j], n)
  {
    match NextDefiner(cs, j, n)
    case None => FormatterOf(cs[j], n)
    case Some(k) => Update(FormatterOf(cs[j], n), FormatterOf(cs[k], n))
  }

  lemma StoredFormatter(cs: seq<Config>, stored: seq<Config>, j: nat, n: string)
    requires StoredAt(cs, |cs|, {}, stored)
    requires j < |cs| && Defines(cs[j], n)
    ensures Get(FormattersOf(stored[j]), n) == Some(FormatterAfterMerge(cs, j, n))
  {
    var sec := cs[j].formatters.value;
    RewriteGet(cs, j, |cs|, {}, sec, n);
  }

  /** The pass over all configurations, when no handler lacks a class. */
  lemma PassDone(cs: seq<Config>)
    requires AllValid(cs) && ClasslessFrom(cs, 0).None?
    ensures ConfigsPass(cs, 0, Pass(cs, [], [], [])).Continue?
    ensures Inv(cs, |cs|, ConfigsPass(cs, 0, Pass(cs, [], [], [])).pass)
  {
    InitialInv(cs);
    ConfigsPassDone(cs, 0, Pass(cs, [], [], []));
  }

  /** What lines 168-189 make of a loop state: only the last stored entry's
      loggers change, and the outcome is decided by the loggers loop. */
  lemma FinishSpec(p: Pass, last: nat)
    requires last < |p.stored|
    ensures forall j :: 0 <= j < |p.stored| ==>
              && Finish(p, last).stored[j].formatters == p.stored[j].formatters
              && Finish(p, last).stored[j].top == p.stored[j].top
              && Finish(p, last).stored[j].handlers == p.stored[j].handlers
    ensures forall j :: 0 <= j < |p.stored| && j != last ==> Finish(p, last).stored[j].loggers == p.stored[j].loggers
    ensures Finish(p, last).stored[last].loggers ==
              if p.stored[last].loggers.Some? then Some(RebindLoggers(LoggersOf(p.stored[last])).0) else None
    ensures Finish(p, last).outcome.Success? <==> RebindLoggers(LoggersOf(p.stored[last])).1.None?
    ensures Finish(p, last).outcome.Failure? ==>
              Some(Finish(p, last).outcome.error) == RebindLoggers(LoggersOf(p.stored[last])).1
    ensures Finish(p, last).outcome.Success? ==>
              && Finish(p, last).outcome.value.actual == p.actual
              && Finish(p, last).outcome.value.config.formatters == DerefAll(Finish(p, last).stored, p.refs)
              && Finish(p, last).outcome.value.config.loggers == RebindLoggers(LoggersOf(p.stored[last])).0
              && Finish(p, last).outcome.value.config.handlers ==
                   if Has(p.queue, QueueName) then p.queue else Set(p.queue, QueueName, SyntheticQueueHandler)
  {
  }

  /** The merge once the loop over configurations has completed, in terms of
      the loop's final state `p`. */
  lemma AfterLoop(cs: seq<Config>) returns (p: Pass)
    requires AllValid(cs) && |cs| > 0 && ClasslessFrom(cs, 0).None?
    ensures Inv(cs, |cs|, p)
    ensures MergeConfigs(cs) == Finish(p, |cs| - 1)
    ensures |MergeConfigs(cs).stored| == |cs|
    ensures forall j :: 0 <= j < |cs| ==>
              && MergeConfigs(cs).stored[j].formatters == p.stored[j].formatters
              && MergeConfigs(cs).stored[j].top == cs[j].top
              && MergeConfigs(cs).stored[j].handlers == cs[j].handlers
    ensures forall j :: 0 <= j < |cs| - 1 ==> MergeConfigs(cs).stored[j].loggers == cs[j].loggers
    ensures MergeConfigs(cs).stored[|cs| - 1].loggers ==
              if cs[|cs| - 1].loggers.Some? then Some(RebindLoggers(LoggersOf(cs[|cs| - 1])).0) else None
    ensures MergeConfigs(cs).outcome.Success? <==> RebindLoggers(LoggersOf(cs[|cs| - 1])).1.None?
    ensures MergeConfigs(cs).outcome.Failure? ==>
              Some(MergeConfigs(cs).outcome.error) == RebindLoggers(LoggersOf(cs[|cs| - 1])).1
    ensures MergeConfigs(cs).outcome.Success? ==>
              && MergeConfigs(cs).outcome.value.actual == p.actual
              && MergeConfigs(cs).outcome.value.config.formatters == DerefAll(MergeConfigs(cs).stored, p.refs)
              && MergeConfigs(cs).outcome.value.config.loggers == RebindLoggers(LoggersOf(cs[|cs| - 1])).0
              && MergeConfigs(cs).outcome.value.config.handlers ==
                   if Has(p.queue, QueueName) then p.queue else Set(p.queue, QueueName, SyntheticQueueHandler)
  {
    PassDone(cs);
    p := ConfigsPass(cs, 0, Pass(cs, [], [], [])).pass;
    FinishSpec(p, |cs| - 1);
    forall j | 0 <= j < |cs|
      ensures p.stored[j].top == cs[j].top && p.stored[j].handlers == cs[j].handlers
      ensures p.stored[j].loggers == cs[j].loggers
    {
      assert p.stored[j] == Rewritten(cs, j, |cs|, {});
    }
  }

  // ---------------------------------------------------------------------------
  // Outcome

  /** A handler without a class stops the merge at the first such handler,
      with the stored formatters rewritten up to and including its
      configuration. */
  lemma ClasslessOutcome(cs: seq<Config>)
    requires AllValid(cs) && ClasslessFrom(cs, 0).Some?
    ensures MergeConfigs(cs) == MergeResult(RewrittenAll(cs, ClasslessFrom(cs, 0).value.0 + 1),
                                            Failure(HandlerWithoutClass(ClasslessFrom(cs, 0).value.1)))
  {
    InitialInv(cs);
    ConfigsPassStop(cs, 0, Pass(cs, [], [], []));
  }

  /** With no configurations the loggers loop reads an unbound `config`. */
  lemma EmptyOutcome(cs: seq<Config>)
    requires |cs| == 0
    ensures MergeConfigs(cs).outcome == Failure(NoConfigs)
  {
  }

  /** Once every handler has a class, the merge succeeds exactly when every
      logger of the last configuration has a comparable level, and otherwise
      reports the first logger that does not. */
  lemma LoggersOutcome(cs: seq<Config>)
    requires AllValid(cs) && |cs| > 0 && ClasslessFrom(cs, 0).None?
    ensures MergeConfigs(cs).outcome.Success? <==>
              GoodBefore(LoggersOf(cs[|cs| - 1]), |LoggersOf(cs[|cs| - 1])|)
    ensures MergeConfigs(cs).outcome.Failure? ==>
              var L := LoggersOf(cs[|cs| - 1]);
              exists idx :: 0 <= idx < |L| && GoodBefore(L, idx) &&
                Some(MergeConfigs(cs).outcome.error) == LevelError(L[idx].0, L[idx].1)
  {
    var p := AfterLoop(cs);
    RebindSpec(LoggersOf(cs[|cs| - 1]));
  }

  /** The merge succeeds exactly when there is a configuration, every handler
      has a class and every logger of the last configuration has a comparable
      level. */
  lemma MergeOutcome(cs: seq<Config>)
    requires AllValid(cs)
    ensures MergeConfigs(cs).outcome.Success? <==>
              |cs| > 0 && ClasslessFrom(cs, 0).None? &&
              GoodBefore(LoggersOf(cs[|cs| - 1]), |LoggersOf(cs[|cs| - 1])|)
  {
    if ClasslessFrom(cs, 0).Some? {
      ClasslessOutcome(cs);
    } else if |cs| == 0 {
      EmptyOutcome(cs);
    } else {
      LoggersOutcome(cs);
    }
  }

  /** A successful merge had configurations, none with a classless handler. */
  lemma SuccessShape(cs: seq<Config>)
    requires AllValid(cs) && MergeConfigs(cs).outcome.Success?
    ensures |cs| > 0 && ClasslessFrom(cs, 0).None?
  {
    MergeOutcome(cs);
  }

  /** Whatever the outcome, the merge leaves every stored configuration in its
      place with its top-level keys and handlers as they were. */
  lemma MergeKeeps(cs: seq<Config>)
    requires AllValid(cs)
    ensures |MergeConfigs(cs).stored| == |cs|
    ensures forall j :: 0 <= j < |cs| ==>
              MergeConfigs(cs).stored[j].top == cs[j].top && MergeConfigs(cs).stored[j].handlers == cs[j].handlers
  {
    if ClasslessFrom(cs, 0).Some? {
      ClasslessOutcome(cs);
      var k := ClasslessFrom(cs, 0).value.0 + 1;
      assert forall j :: 0 <= j < |cs| ==> RewrittenAll(cs, k)[j] == Rewritten(cs, j, k, {});
    } else if |cs| > 0 {
      var p := AfterLoop(cs);
    }
  }

  // ---------------------------------------------------------------------------
  // The successful result

  /** Reading the combined formatter map through a stored list whose formatter
      sections are those of the final loop state. */
  lemma DerefFinal(cs: seq<Config>, p: Pass, stored: seq<Config>, n: string)
    requires Inv(cs, |cs|, p) && |stored| == |cs|
    requires forall j :: 0 <= j < |cs| ==> stored[j].formatters == p.stored[j].formatters
    ensures Get(DerefAll(stored, p.refs), n) ==
              match LastDefiner(cs, n)
              case None => None
              case Some(k) => Some(FormatterOf(cs[k], n))
  {
    assert cs[..|cs|] == cs;
    DerefAllGet(stored, p.refs, n);
    if LastDefiner(cs, n).Some? {
      var k := LastDefiner(cs, n).value;
      StoredFormatter(cs, p.stored, k, n);
      assert NextDefiner(cs, k, n).None?;
      assert FormattersOf(stored[k]) == FormattersOf(p.stored[k]);
    }
  }

  /** A formatter map holding, for every name some configuration defines, the
      last such configuration's definition, and nothing else. */
  ghost predicate LastWins(cs: seq<Config>, F: Dict<Fields>)
  {
    && Distinct(F)
    && (forall n :: Has(F, n) <==> exists j :: 0 <= j < |cs| && Defines(cs[j], n))
    && (forall n :: Get(F, n) ==
          match LastDefiner(cs, n)
          case None => None
          case Some(k) => Some(FormatterOf(cs[k], n)))
  }

  lemma FinalFormatters(cs: seq<Config>, p: Pass, stored: seq<Config>)
    requires Inv(cs, |cs|, p) && |stored| == |cs|
    requires forall j :: 0 <= j < |cs| ==> stored[j].formatters == p.stored[j].formatters
    ensures LastWins(cs, DerefAll(stored, p.refs))
  {
    var F := DerefAll(stored, p.refs);
    DerefAllDistinct(stored, p.refs);
    forall n
      ensures Get(F, n) == match LastDefiner(cs, n)
                           case None => None
                           case Some(k) => Some(FormatterOf(cs[k], n))
      ensures Has(F, n) <==> exists j :: 0 <= j < |cs| && Defines(cs[j], n)
    {
      DerefFinal(cs, p, stored, n);
    }
  }

  /** Formatter names in the result are the union over all configurations, and
      each maps to the definition of the last configuration that defines it: the
      whole-map update at line 156 supersedes the field-wise merge at line 153. */
  lemma MergeFormatters(cs: seq<Config>)
    requires AllValid(cs) && MergeConfigs(cs).outcome.Success?
    ensures LastWins(cs, MergeConfigs(cs).outcome.value.config.formatters)
  {
    SuccessShape(cs);
    var p := AfterLoop(cs);
    FinalFormatters(cs, p, MergeConfigs(cs).stored);
  }

  /** `hs` declares handler `n` with fields `h`, of a class other than
      QueueHandler. */
  ghost predicate ActualIn(hs: Section, n: string, h: Fields)
  {
    exists idx :: 0 <= idx < |hs| && hs[idx] == (n, h) && !IsQueueClass(h)
  }

  /** The handlers kept by one configuration's pass are exactly its handlers of
      a class other than QueueHandler. */
  lemma {:induction false} ActualOfMember(hs: Section, n: string, h: Fields)
    ensures (n, h) in ActualOf(hs) <==> ActualIn(hs, n, h)
    decreases |hs|
  {
    if |hs| > 0 {
      ActualOfMember(hs[1..], n, h);
      if ActualIn(hs[1..], n, h) {
        var idx :| 0 <= idx < |hs[1..]| && hs[1..][idx] == (n, h) && !IsQueueClass(h);
        assert hs[idx + 1] == hs[1..][idx];
      }
      if ActualIn(hs, n, h) {
        var idx :| 0 <= idx < |hs| && hs[idx] == (n, h) && !IsQueueClass(h);
        if idx > 0 {
          assert hs[1..][idx - 1] == hs[idx];
        }
      }
    }
  }

  /** Every handler of every configuration whose class is not QueueHandler is
      among the actual handlers, and nothing else is. */
  lemma {:induction false} ActualHandlersMember(cs: seq<Config>, n: string, h: Fields)
    ensures (n, h) in ActualHandlers(cs) <==> exists j :: 0 <= j < |cs| && ActualIn(HandlersOf(cs[j]), n, h)
    decreases |cs|
  {
    if |cs| > 0 {
      var last := |cs| - 1;
      var init := cs[..last];
      ActualHandlersMember(init, n, h);
      ActualOfMember(HandlersOf(cs[last]), n, h);
      var A := ActualHandlers(init);
      var B := ActualOf(HandlersOf(cs[last]));
      assert ActualHandlers(cs) == A + B;
      assert (n, h) in A + B <==> (n, h) in A || (n, h) in B;
      if exists j :: 0 <= j < |init| && ActualIn(HandlersOf(init[j]), n, h) {
        var j :| 0 <= j < |init| && ActualIn(HandlersOf(init[j]), n, h);
        assert init[j] == cs[j];
      }
      if exists j :: 0 <= j < |cs| && ActualIn(HandlersOf(cs[j]), n, h) {
        var j :| 0 <= j < |cs| && ActualIn(HandlersOf(cs[j]), n, h);
        if j < last {
          assert init[j] == cs[j];
        }
      }
    }
  }

  /** The actual handlers are the non-QueueHandler handlers in configuration
      order, then declaration order. The combined handler map holds exactly the
      QueueHandler-class handlers plus `queue`, which is synthesised only when
      no configuration defines it; each defined name holds the fields of its
      last QueueHandler-class definition. */
  lemma MergeHandlers(cs: seq<Config>)
    requires AllValid(cs) && MergeConfigs(cs).outcome.Success?
    ensures MergeConfigs(cs).outcome.value.actual == ActualHandlers(cs)
    ensures Distinct(MergeConfigs(cs).outcome.value.config.handlers)
    ensures AllQueueClass(MergeConfigs(cs).outcome.value.config.handlers)
    ensures Has(MergeConfigs(cs).outcome.value.config.handlers, QueueName)
    ensures forall n :: Has(MergeConfigs(cs).outcome.value.config.handlers, n) <==> n == QueueName || QueueDefinedIn(cs, n)
    ensures !QueueDefinedIn(cs, QueueName) ==>
              Get(MergeConfigs(cs).outcome.value.config.handlers, QueueName) == Some(SyntheticQueueHandler)
    ensures forall n :: QueueDefinedIn(cs, n) ==>
              && LastQueueDefinition(cs, n).Some?
              && Get(MergeConfigs(cs).outcome.value.config.handlers, n) == LastQueueDefinition(cs, n)
  {
    SuccessShape(cs);
    var p := AfterLoop(cs);
    assert cs[..|cs|] == cs;
    var H := MergeConfigs(cs).outcome.value.config.handlers;
    if !Has(p.queue, QueueName) {
      SetDistinct(p.queue, QueueName, SyntheticQueueHandler);
      forall n
        ensures Has(H, n) <==> n == QueueName || Has(p.queue, n)
        ensures Has(H, n) ==> IsQueueClass(Get(H, n).value)
      {
        if n != QueueName {
          assert Get(H, n) == Get(p.queue, n);
        }
      }
    }
  }

  /** When no logger makes the loggers loop raise, every logger is bound to
      `queue` alone, keeps its name and every other key, and has a comparable
      level. */
  lemma RebindGood(L: Section)
    requires GoodBefore(L, |L|)
    ensures var R := RebindLoggers(L).0;
            && |R| == |L|
            && KeysOf(R) == KeysOf(L)
            && (forall idx :: 0 <= idx < |L| ==> Get(R[idx].1, "handlers") == Some(VList([QueueName])))
            && (forall idx, k :: 0 <= idx < |L| && k != "handlers" ==> Get(R[idx].1, k) == Get(L[idx].1, k))
            && (forall idx :: 0 <= idx < |L| ==> Has(R[idx].1, "level") && Orderable(Get(R[idx].1, "level").value))
  {
    RebindSpec(L);
    var R := RebindLoggers(L).0;
    forall idx | 0 <= idx < |L|
      ensures KeysOf(R)[idx] == KeysOf(L)[idx]
      ensures GoodBefore(L, idx)
      ensures Has(R[idx].1, "level") && Orderable(Get(R[idx].1, "level").value)
    {
      KeysOfIndex(R, idx);
      KeysOfIndex(L, idx);
      assert LevelError(L[idx].0, L[idx].1).None?;
    }
  }

  /** The merged loggers are exactly the last configuration's loggers, each bound
      to the `queue` handler only and otherwise unchanged; its level is
      `min(level, level)`, so a level that is present and comparable. */
  lemma MergeLoggers(cs: seq<Config>)
    requires AllValid(cs) && MergeConfigs(cs).outcome.Success?
    ensures |cs| > 0
    ensures var L := LoggersOf(cs[|cs| - 1]);
            var ML := MergeConfigs(cs).outcome.value.config.loggers;
            && |ML| == |L|
            && KeysOf(ML) == KeysOf(L)
            && (forall idx :: 0 <= idx < |L| ==> Get(ML[idx].1, "handlers") == Some(VList([QueueName])))
            && (forall idx, k :: 0 <= idx < |L| && k != "handlers" ==> Get(ML[idx].1, k) == Get(L[idx].1, k))
            && (forall idx :: 0 <= idx < |L| ==> Has(ML[idx].1, "level") && Orderable(Get(ML[idx].1, "level").value))
  {
    SuccessShape(cs);
    LoggersOutcome(cs);
    var p := AfterLoop(cs);
    RebindGood(LoggersOf(cs[|cs| - 1]));
  }

  /** What the merge leaves in the stored list when the loop over configurations
      completes: every earlier formatter definition has been updated in place
      with the fields of the next configuration defining the same name, and the
      last configuration's loggers are the rebound ones. */
  lemma MergeStored(cs: seq<Config>)
    requires AllValid(cs) && |cs| > 0 && ClasslessFrom(cs, 0).None?
    ensures |MergeConfigs(cs).stored| == |cs|
    ensures forall j, n :: 0 <= j < |cs| && Defines(cs[j], n) ==>
              Get(FormattersOf(MergeConfigs(cs).stored[j]), n) == Some(FormatterAfterMerge(cs, j, n))
    ensures forall j :: 0 <= j < |cs| ==>
              && KeysOf(FormattersOf(MergeConfigs(cs).stored[j])) == KeysOf(FormattersOf(cs[j]))
              && MergeConfigs(cs).stored[j].formatters.Some? == cs[j].formatters.Some?
              && MergeConfigs(cs).stored[j].top == cs[j].top
              && MergeConfigs(cs).stored[j].handlers == cs[j].handlers
    ensures forall j :: 0 <= j < |cs| - 1 ==> MergeConfigs(cs).stored[j].loggers == cs[j].loggers
    ensures var last := |cs| - 1;
            MergeConfigs(cs).stored[last].loggers ==
              if cs[last].loggers.Some? then Some(RebindLoggers(LoggersOf(cs[last])).0) else None
  {
    var p := AfterLoop(cs);
    forall j, n | 0 <= j < |cs| && Defines(cs[j], n)
      ensures Get(FormattersOf(MergeConfigs(cs).stored[j]), n) == Some(FormatterAfterMerge(cs, j, n))
    {
      StoredFormatter(cs, p.stored, j, n);
    }
    forall j | 0 <= j < |cs|
      ensures KeysOf(FormattersOf(MergeConfigs(cs).stored[j])) == KeysOf(FormattersOf(cs[j]))
    {
      if cs[j].formatters.Some? {
        RewriteKeys(cs, j, |cs|, {}, cs[j].formatters.value);
      }
    }
  }

  // ---------------------------------------------------------------------------
  // Well-formedness

  /** The tail of a well-formed section is well formed. */
  lemma SectionValidTail(sec: Section)
    requires |sec| > 0 && SectionValid(sec)
    ensures SectionValid(sec[1..])
  {
    forall idx | 0 <= idx < |sec[1..]|
      ensures Distinct(sec[1..][idx].1)
    {
      assert sec[1..][idx] == sec[idx + 1];
    }
  }

  /** Updating formatter dicts in place keeps a section well formed. */
  lemma {:induction false} RewriteValid(cs: seq<Config>, j: nat, i: nat, done: set<string>, sec: Section)
    requires SectionValid(sec)
    ensures SectionValid(RewriteSection(cs, j, i, done, sec))
    decreases |sec|
  {
    RewriteDistinct(cs, j, i, done, sec);
    if |sec| > 0 {
      SectionValidTail(sec);
      RewriteValid(cs, j, i, done, sec[1..]);
      var rest := RewriteSection(cs, j, i, done, sec[1..]);
      var r := RewriteSection(cs, j, i, done, sec);
      match NextDefiner(cs, j, sec[0].0)
      case Some(k) => UpdateDistinct(sec[0].1, FormatterOf(cs[k], sec[0].0));
      case None =>
      forall idx | 0 <= idx < |r|
        ensures Distinct(r[idx].1)
      {
        if idx > 0 {
          assert r[idx] == rest[idx - 1];
        }
      }
    }
  }

  /** Rebinding the loggers keeps their names, in order, and keeps the section
      well formed. */
  lemma {:induction false} RebindValid(ls: Section)
    requires SectionValid(ls)
    ensures KeysOf(RebindLoggers(ls).0) == KeysOf(ls)
    ensures SectionValid(RebindLoggers(ls).0)
    decreases |ls|
  {
    if |ls| > 0 {
      SectionValidTail(ls);
      var r := RebindLoggers(ls).0;
      var rebound := Set(ls[0].1, "handlers", VList([QueueName]));
      SetDistinct(ls[0].1, "handlers", VList([QueueName]));
      if LevelError(ls[0].0, ls[0].1).Some? {
        assert r == [(ls[0].0, rebound)] + ls[1..];
        assert r[1..] == ls[1..];
        forall idx | 0 < idx < |r|
          ensures Distinct(r[idx].1)
        {
          assert r[idx] == ls[idx];
        }
      } else {
        var level := Get(rebound, "level").value;
        var rest := RebindLoggers(ls[1..]).0;
        SetDistinct(rebound, "level", level);
        assert r == [(ls[0].0, Set(rebound, "level", level))] + rest;
        assert r[1..] == rest;
        RebindValid(ls[1..]);
        forall idx | 0 < idx < |r|
          ensures Distinct(r[idx].1)
        {
          assert r[idx] == rest[idx - 1];
        }
      }
    }
  }

  /** Every stored configuration the loop has rewritten is still well formed. */
  lemma RewrittenValid(cs: seq<Config>, j: nat, i: nat)
    requires AllValid(cs) && j < |cs|
    ensures Valid(Rewritten(cs, j, i, {}))
    ensures Rewritten(cs, j, i, {}).top == cs[j].top
    ensures Rewritten(cs, j, i, {}).handlers == cs[j].handlers
    ensures Rewritten(cs, j, i, {}).loggers == cs[j].loggers
  {
    if cs[j].formatters.Some? {
      RewriteValid(cs, j, i, {}, cs[j].formatters.value);
    }
  }

  /** A merge stopped by a classless handler leaves every stored configuration
      well formed. */
  lemma MergeValidStopped(cs: seq<Config>)
    requires AllValid(cs) && ClasslessFrom(cs, 0).Some?
    ensures AllValid(MergeConfigs(cs).stored)
  {
    ClasslessOutcome(cs);
    var k := ClasslessFrom(cs, 0).value.0 + 1;
    var stored := RewrittenAll(cs, k);
    forall j | 0 <= j < |stored|
      ensures Valid(stored[j])
    {
      RewrittenValid(cs, j, k);
    }
  }

  /** A merge whose loop over configurations completed leaves every stored
      configuration well formed. */
  lemma MergeValidCompleted(cs: seq<Config>)
    requires AllValid(cs) && |cs| > 0 && ClasslessFrom(cs, 0).None?
    ensures AllValid(MergeConfigs(cs).stored)
  {
    var p := AfterLoop(cs);
    var stored := MergeConfigs(cs).stored;
    var last := |cs| - 1;
    forall j | 0 <= j < |stored|
      ensures Valid(stored[j])
    {
      assert p.stored[j] == Rewritten(cs, j, |cs|, {});
      RewrittenValid(cs, j, |cs|);
      if j == last && cs[last].loggers.Some? {
        RebindValid(LoggersOf(cs[last]));
      }
    }
  }

  /** Whatever its outcome, the merge leaves every stored configuration well
      formed. */
  lemma MergeValid(cs: seq<Config>)
    requires AllValid(cs)
    ensures AllValid(MergeConfigs(cs).stored)
  {
    if ClasslessFrom(cs, 0).Some? {
      MergeValidStopped(cs);
    } else if |cs| > 0 {
      MergeValidCompleted(cs);
    }
  }
}
