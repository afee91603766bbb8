/** `merge_configs_and_get_handlers` (bub_logger/bub_logger.py:131-189), loop by
    loop. The function works on the stored configuration objects themselves:
    the combined formatter map holds the stored formatter dicts (not copies), so
    `update` on it writes into an earlier stored configuration, and the last
    configuration's logger dicts are rewritten in place. The model therefore
    returns the stored list as the merge leaves it, next to its result. */
module Merge {
  import opened Wrappers
  import opened Values
  import opened Dicts
  import opened Configs
  import opened Errors

  const QueueHandlerClass: string := "logging.handlers.QueueHandler"
  const QueueName: string := "queue"

  /** The handler the merge adds when no configuration defines `queue`; its
      `queue` field is the logger's record queue. */
  const SyntheticQueueHandler: Fields := [("class", VStr(QueueHandlerClass)), ("queue", VQueue)]

  /** The combined configuration handed to `dictConfig`; its constant `version`
      and `disable_existing_loggers` keys are left implicit. */
  datatype Merged = Merged(formatters: Section, handlers: Section, loggers: Section)

  /** What a successful merge returns: the combined configuration and the
      "actual" handlers, in the order they were met. */
  datatype MergeOutput = MergeOutput(config: Merged, actual: seq<(string, Fields)>)

  /** The stored list as the merge leaves it, and the merge's outcome. */
  datatype MergeResult = MergeResult(stored: seq<Config>, outcome: Result<MergeOutput, Error>)

  /** State of the loop over configurations. `stored` is the stored list with the
      in-place updates made so far. `refs` is the combined formatter map, each
      name referring to the index of the stored configuration whose formatter
      dict it holds. `queue` holds the QueueHandler-class handlers, `actual` the
      others. */
  datatype Pass = Pass(stored: seq<Config>, refs: Dict<nat>, queue: Section, actual: seq<(string, Fields)>)

  datatype Step = Continue(pass: Pass) | Stop(stored: seq<Config>, error: Error)

  /** The stored formatter dict that the reference `(index, name)` denotes. */
  function Deref(stored: seq<Config>, index: nat, name: string): Option<Fields>
  {
    if index < |stored| then Get(FormattersOf(stored[index]), name) else None
  }

  /** `combined_config["formatters"][name].update(f)` (line 153): the update lands
      in the stored formatter dict the combined map refers to. */
  function UpdateReferenced(stored: seq<Config>, index: nat, name: string, f: Fields): (r: seq<Config>)
    ensures |r| == |stored|
  {
    if index < |stored| && stored[index].formatters.Some? && Has(stored[index].formatters.value, name) then
      var sec := stored[index].formatters.value;
      stored[index := stored[index].(formatters := Some(Set(sec, name, Update(Get(sec, name).value, f))))]
    else
      stored
  }

  /** Lines 146-155 over the formatters `fs` of configuration `i`: a new name now
      refers to configuration `i`'s dict, a known name has its referenced dict
      updated with `i`'s fields. */
  function FormatterPass(p: Pass, i: nat, fs: Section): (r: Pass)
    ensures |r.stored| == |p.stored|
    ensures r.queue == p.queue && r.actual == p.actual
    decreases |fs|
  {
    if |fs| == 0 then p
    else
      var name := fs[0].0;
      var p' := match Get(p.refs, name)
        case None => p.(refs := Set(p.refs, name, i))
        case Some(index) => p.(stored := UpdateReferenced(p.stored, index, name, fs[0].1));
      FormatterPass(p', i, fs[1..])
  }

  /** Line 156: after the loop every formatter name of configuration `i` refers
      to configuration `i`'s own dict. */
  function Retarget(refs: Dict<nat>, i: nat, fs: Section): Dict<nat>
    decreases |fs|
  {
    if |fs| == 0 then refs else Retarget(Set(refs, fs[0].0, i), i, fs[1..])
  }

  /** Whether a handler's class is exactly the QueueHandler class name. */
  predicate IsQueueClass(h: Fields)
  {
    Get(h, "class") == Some(VStr(QueueHandlerClass))
  }

  /** Lines 159-165 over the handlers `hs` of one configuration: a handler without
      `class` raises; a QueueHandler-class handler is put into the combined map
      under its name, any other is appended to the actual handlers. */
  function HandlerPass(p: Pass, hs: Section): (r: Step)
    ensures r.Continue? ==> r.pass.stored == p.stored && r.pass.refs == p.refs
    ensures r.Stop? ==> r.stored == p.stored
    decreases |hs|
  {
    if |hs| == 0 then Continue(p)
    else
      var name := hs[0].0;
      match Get(hs[0].1, "class")
      case None => Stop(p.stored, HandlerWithoutClass(name))
      case Some(cls) =>
        var p' := if cls != VStr(QueueHandlerClass) then p.(actual := p.actual + [hs[0]])
                  else p.(queue := Set(p.queue, name, hs[0].1));
        HandlerPass(p', hs[1..])
  }

  /** Lines 146-165: one iteration of the loop over configurations, for
      configuration `i`. */
  function ConfigPass(cs: seq<Config>, i: nat, p: Pass): (r: Step)
    requires i < |cs|
    ensures r.Continue? ==> |r.pass.stored| == |p.stored|
  {
    var fs := FormattersOf(cs[i]);
    var p1 := FormatterPass(p, i, fs);
    var p2 := p1.(refs := Retarget(p1.refs, i, fs));
    HandlerPass(p2, HandlersOf(cs[i]))
  }

  /** Lines 144-165: the loop over configurations `i..`. Each configuration is
      read from the snapshot `cs`; the in-place updates made by the loop only
      ever touch configurations before the one being read. */
  function ConfigsPass(cs: seq<Config>, i: nat, p: Pass): (r: Step)
    ensures r.Continue? ==> |r.pass.stored| == |p.stored|
    decreases |cs| - i
  {
    if i >= |cs| then Continue(p)
    else
      match ConfigPass(cs, i, p)
      case Stop(stored, e) => Stop(stored, e)
      case Continue(p3) => ConfigsPass(cs, i + 1, p3)
  }

  /** Lines 168-181 over the loggers of the last configuration. Logger names are
      distinct, so each one is new to the combined map (line 170 binds the stored
      dict itself; the merging branch at lines 171-177 cannot run). Its handlers
      become `["queue"]` and its level `min(level, level)`, which is the level.
      Returns the loggers as rewritten and the error that stopped the loop. */
  function RebindLoggers(ls: Section): (r: (Section, Option<Error>))
    ensures |r.0| == |ls|
    decreases |ls|
  {
    if |ls| == 0 then ([], None)
    else
      var name := ls[0].0;
      var rebound := Set(ls[0].1, "handlers", VList([QueueName]));
      match Get(rebound, "level")
      case None => ([(name, rebound)] + ls[1..], Some(LoggerWithoutLevel(name)))
      case Some(level) =>
        if !Orderable(level) then ([(name, rebound)] + ls[1..], Some(UnorderableLevel(name)))
        else
          var rest := RebindLoggers(ls[1..]);
          ([(name, Set(rebound, "level", level))] + rest.0, rest.1)
  }

  /** The combined formatter map with each reference replaced by the dict it
      denotes. */
  function DerefAll(stored: seq<Config>, refs: Dict<nat>): Section
    decreases |refs|
  {
    if |refs| == 0 then []
    else [(refs[0].0, Deref(stored, refs[0].1, refs[0].0).GetOr([]))] + DerefAll(stored, refs[1..])
  }

  /** Lines 168-189, once the loop over configurations has left `p`: the
      loggers of the last stored configuration (`config` still names it) are
      rebound in place, `queue` is synthesised when absent, and the combined
      formatter references are read through the stored list. */
  function Finish(p: Pass, last: nat): (r: MergeResult)
    requires last < |p.stored|
    ensures |r.stored| == |p.stored|
  {
    var config := p.stored[last];
    var rebound := RebindLoggers(LoggersOf(config));
    var stored := if config.loggers.Some? then p.stored[last := config.(loggers := Some(rebound.0))]
                  else p.stored;
    match rebound.1
    case Some(e) => MergeResult(stored, Failure(e))
    case None =>
      var handlers := if Has(p.queue, QueueName) then p.queue
                      else Set(p.queue, QueueName, SyntheticQueueHandler);
      MergeResult(stored, Success(MergeOutput(Merged(DerefAll(stored, p.refs), handlers, rebound.0), p.actual)))
  }

  /** `merge_configs_and_get_handlers(*cs)`. */
  function MergeConfigs(cs: seq<Config>): MergeResult
  {
    match ConfigsPass(cs, 0, Pass(cs, [], [], []))
    case Stop(stored, e) => MergeResult(stored, Failure(e))
    case Continue(p) =>
      if |cs| == 0 then MergeResult(p.stored, Failure(NoConfigs))
      else Finish(p, |cs| - 1)
  }
}
