/**
 * `load_workflow` and `workflow_runs`: a workflow file is read, and its filters decide whether a
 * change schedules it.
 */
module Workflows {
  import opened Options
  import opened PathGlobs
  import Y = YamlReader

  // -------------------------------------------------------------------------
  // Would the workflow run
  // -------------------------------------------------------------------------

  function Get(entries: seq<(string, Y.Value)>, key: string): Option<Y.Value> {
    if entries == [] then None
    else if entries[0].0 == key then Some(entries[0].1)
    else Get(entries[1..], key)
  }

  /** A filter as a list of patterns, if there is one. `show` writes a node that is no list. */
  function AsList(value: Option<Y.Value>, show: Y.Value -> string): Option<seq<string>> {
    if value.None? || value.value.Null? then None
    else
      match value.value
      case List(items) => Some(items)
      case Text(text) => Some([text])
      case other => Some([show(other)])
  }

  function Triggers(document: seq<(string, Y.Value)>): Option<Y.Value> {
    if Get(document, "on").Some? then Get(document, "on")
    else if Get(document, "true").Some? then Get(document, "true")
    else Get(document, "True")
  }

  /** The base branch passes the branch filters. */
  predicate BranchPasses(config: seq<(string, Y.Value)>, base: string, show: Y.Value -> string) {
    var branches := AsList(Get(config, "branches"), show);
    var ignored := AsList(Get(config, "branches-ignore"), show);
    (branches.Some? ==> PathMatches(base, branches.value)) && (ignored.Some? ==> !PathMatches(base, ignored.value))
  }

  predicate WorkflowRuns(document: seq<(string, Y.Value)>, changed: seq<string>, base: string,
                         show: Y.Value -> string)
  {
    var triggers := Triggers(document);
    if triggers.None? || !triggers.value.Dict? || Get(triggers.value.entries, "pull_request").None? then false
    else if changed == [] then false
    else
      var config := Get(triggers.value.entries, "pull_request").value;
      if !config.Dict? then true
      else if !BranchPasses(config.entries, base, show) then false
      else
        var paths := AsList(Get(config.entries, "paths"), show);
        var ignored := AsList(Get(config.entries, "paths-ignore"), show);
        if paths.Some? then exists p | p in changed :: PathMatches(p, paths.value)
        else if ignored.Some? then exists p | p in changed :: !PathMatches(p, ignored.value)
        else true
  }

  /** A change schedules a workflow exactly when one of its paths alone would: so a larger change
      schedules at least as much, and the order and number of paths do not matter. */
  lemma RunsForSomePath(document: seq<(string, Y.Value)>, changed: seq<string>, base: string,
                        show: Y.Value -> string)
    ensures WorkflowRuns(document, changed, base, show) <==>
            exists p | p in changed :: WorkflowRuns(document, [p], base, show)
  {
    if WorkflowRuns(document, changed, base, show) {
      var config := Get(Triggers(document).value.entries, "pull_request").value;
      var paths := if config.Dict? then AsList(Get(config.entries, "paths"), show) else None;
      var ignored := if config.Dict? then AsList(Get(config.entries, "paths-ignore"), show) else None;
      var p := if paths.Some? then (var p :| p in changed && PathMatches(p, paths.value); p)
               else if ignored.Some? then (var p :| p in changed && !PathMatches(p, ignored.value); p)
               else changed[0];
      assert p in [p];
      assert WorkflowRuns(document, [p], base, show);
    }
    if p :| p in changed && WorkflowRuns(document, [p], base, show) {
      assert forall q | q in [p] :: q == p;
    }
  }

  lemma RunsIsMonotone(document: seq<(string, Y.Value)>, changed: seq<string>, more: seq<string>, base: string,
                       show: Y.Value -> string)
    requires forall p | p in changed :: p in more
    requires WorkflowRuns(document, changed, base, show)
    ensures WorkflowRuns(document, more, base, show)
  {
    RunsForSomePath(document, changed, base, show);
    RunsForSomePath(document, more, base, show);
  }

  // -------------------------------------------------------------------------
  // When a change schedules a workflow
  // -------------------------------------------------------------------------

  predicate Entry(entries: seq<(string, Y.Value)>, key: string, value: Y.Value) { (key, value) in entries }

  /** What triggers a workflow: its `on`, or what a reader of the older standard makes of that word. */
  ghost predicate TriggeredBy(document: seq<(string, Y.Value)>, triggers: Y.Value) {
    Entry(document, "on", triggers) ||
    ((forall v :: !Entry(document, "on", v)) && Entry(document, "true", triggers)) ||
    ((forall v :: !Entry(document, "on", v) && !Entry(document, "true", v)) && Entry(document, "True", triggers))
  }

  /** A value that is a list of patterns: a list, one text, or something shown as text; nothing is none. */
  predicate ListsAs(value: Y.Value, patterns: seq<string>, show: Y.Value -> string) {
    value == Y.List(patterns) || (value.Text? && patterns == [value.text]) || (value.Dict? && patterns == [show(value)])
  }

  ghost predicate Filters(config: seq<(string, Y.Value)>, key: string, patterns: seq<string>, show: Y.Value -> string) {
    exists value :: Entry(config, key, value) && ListsAs(value, patterns, show)
  }

  ghost predicate NoFilter(config: seq<(string, Y.Value)>, key: string, show: Y.Value -> string) {
    forall patterns :: !Filters(config, key, patterns, show)
  }

  /** Some changed path is let in by the list. */
  ghost predicate SomeIn(changed: seq<string>, patterns: seq<string>) {
    exists p :: p in changed && LastHitIsPositive(p, patterns)
  }

  /** Some changed path is not let in by the list. */
  ghost predicate SomeOut(changed: seq<string>, patterns: seq<string>) {
    exists p :: p in changed && !LastHitIsPositive(p, patterns)
  }

  /** The base branch is let in by `branches` and not by `branches-ignore`; and some changed path is let
      in by `paths`, or if there is no such filter, some changed path is not by `paths-ignore`. */
  ghost predicate Passes(config: seq<(string, Y.Value)>, changed: seq<string>, base: string, show: Y.Value -> string) {
    (forall ps | Filters(config, "branches", ps, show) :: LastHitIsPositive(base, ps)) &&
    (forall ps | Filters(config, "branches-ignore", ps, show) :: !LastHitIsPositive(base, ps)) &&
    (forall ps | Filters(config, "paths", ps, show) :: SomeIn(changed, ps)) &&
    (NoFilter(config, "paths", show) ==>
       forall ps | Filters(config, "paths-ignore", ps, show) :: SomeOut(changed, ps))
  }

  /** A change to something schedules a workflow that pull requests trigger, if its filters pass it. */
  ghost predicate ShouldRun(document: seq<(string, Y.Value)>, changed: seq<string>, base: string,
                            show: Y.Value -> string)
  {
    changed != [] &&
    exists triggers, config :: TriggeredBy(document, Y.Dict(triggers)) && Entry(triggers, "pull_request", config) &&
      (config.Dict? ==> Passes(config.entries, changed, base, show))
  }

  lemma {:induction false} GetIsEntry(entries: seq<(string, Y.Value)>, key: string)
    requires Y.KeysOnce(entries)
    ensures forall v :: Get(entries, key) == Some(v) <==> Entry(entries, key, v)
  {
    if entries != [] {
      GetIsEntry(entries[1..], key);
      assert entries == [entries[0]] + entries[1..];
      forall v ensures Get(entries, key) == Some(v) <==> Entry(entries, key, v) {
        if Entry(entries, key, v) && entries[0].0 == key {
          var i :| 0 <= i < |entries| && entries[i] == (key, v);
          assert i == 0;
        }
      }
    }
  }

  lemma {:induction false} AsListIsFilter(config: seq<(string, Y.Value)>, key: string, show: Y.Value -> string)
    requires Y.KeysOnce(config)
    ensures forall ps :: AsList(Get(config, key), show) == Some(ps) <==> Filters(config, key, ps, show)
  {
    GetIsEntry(config, key);
    forall ps ensures AsList(Get(config, key), show) == Some(ps) <==> Filters(config, key, ps, show) {
      if AsList(Get(config, key), show) == Some(ps) {
        assert Entry(config, key, Get(config, key).value) && ListsAs(Get(config, key).value, ps, show);
      }
    }
  }

  lemma {:induction false} FiltersDecide(config: seq<(string, Y.Value)>, changed: seq<string>, base: string,
                                         show: Y.Value -> string)
    requires Y.KeysOnce(config)
    ensures var paths := AsList(Get(config, "paths"), show); var ignored := AsList(Get(config, "paths-ignore"), show);
      Passes(config, changed, base, show) <==>
      BranchPasses(config, base, show) &&
      (if paths.Some? then SomeIn(changed, paths.value) else ignored.Some? ==> SomeOut(changed, ignored.value))
  {
    AsListIsFilter(config, "branches", show);
    AsListIsFilter(config, "branches-ignore", show);
    AsListIsFilter(config, "paths", show);
    AsListIsFilter(config, "paths-ignore", show);
    forall ps ensures PathMatches(base, ps) <==> LastHitIsPositive(base, ps) { LastHitDecides(base, ps); }
  }

  lemma {:induction false} SomeMatch(changed: seq<string>, patterns: seq<string>)
    ensures SomeIn(changed, patterns) <==> exists p | p in changed :: PathMatches(p, patterns)
    ensures SomeOut(changed, patterns) <==> exists p | p in changed :: !PathMatches(p, patterns)
  {
    forall p: string ensures PathMatches(p, patterns) <==> LastHitIsPositive(p, patterns) {
      LastHitDecides(p, patterns);
    }
  }

  lemma {:induction false} TriggersAreThose(document: seq<(string, Y.Value)>)
    requires Y.KeysOnce(document)
    ensures forall v :: Triggers(document) == Some(v) <==> TriggeredBy(document, v)
  {
    GetIsEntry(document, "on");
    GetIsEntry(document, "true");
    GetIsEntry(document, "True");
  }

  /** What is done about a configuration. */
  lemma {:induction false} ConfigDecides(config: Y.Value, document: seq<(string, Y.Value)>, changed: seq<string>,
                                         base: string, show: Y.Value -> string)
    requires changed != [] && Triggers(document).Some? && Triggers(document).value.Dict?
    requires Get(Triggers(document).value.entries, "pull_request") == Some(config)
    requires config.Dict? ==> Y.KeysOnce(config.entries)
    ensures WorkflowRuns(document, changed, base, show) <==>
            (config.Dict? ==> Passes(config.entries, changed, base, show))
  {
    if config.Dict? {
      FiltersDecide(config.entries, changed, base, show);
      var paths := AsList(Get(config.entries, "paths"), show);
      var ignored := AsList(Get(config.entries, "paths-ignore"), show);
      if paths.Some? {
        SomeMatch(changed, paths.value);
      } else if ignored.Some? {
        SomeMatch(changed, ignored.value);
      }
    }
  }

  /** A workflow runs exactly when what its file says lets the change in. */
  lemma {:induction false} RunsWhenItShould(document: seq<(string, Y.Value)>, changed: seq<string>, base: string,
                                            show: Y.Value -> string)
    requires Y.Proper(Y.Dict(document))
    ensures WorkflowRuns(document, changed, base, show) <==> ShouldRun(document, changed, base, show)
  {
    TriggersAreThose(document);
    if changed != [] && Triggers(document).Some? && Triggers(document).value.Dict? {
      var triggers := Triggers(document).value.entries;
      assert TriggeredBy(document, Y.Dict(triggers));
      assert Y.Proper(Y.Dict(triggers));
      GetIsEntry(triggers, "pull_request");
      if Get(triggers, "pull_request").Some? {
        var config := Get(triggers, "pull_request").value;
        assert Entry(triggers, "pull_request", config);
        ConfigDecides(config, document, changed, base, show);
      }
    }
  }

  // -------------------------------------------------------------------------
  // From the file
  // -------------------------------------------------------------------------

  const WANTED: set<string> := {"name", "on", "true", "True"}

  /** What a workflow file comes to: it cannot be read, or it is scheduled or not. */
  function Scheduled(lines: seq<Y.Line>, changed: seq<string>, base: string, show: Y.Value -> string): Y.Result<bool> {
    var r := Y.DocumentOf(lines, map[], WANTED, []);
    if r.Failed? then Y.Err(r.error)
    else
      Y.DocumentsAreProper(lines, map[], WANTED, []);
      Y.Ok(WorkflowRuns(r.value.entries, changed, base, show))
  }

  method Schedule(lines: seq<Y.Line>, changed: seq<string>, base: string, show: Y.Value -> string)
    returns (r: Y.Result<bool>)
    ensures r == Scheduled(lines, changed, base, show)
    ensures var d := Y.DocumentOf(lines, map[], {"name", "on", "true", "True"}, []);
      match r
      case Ok(runs) => d.Read? && d.value.Dict? && (runs <==> ShouldRun(d.value.entries, changed, base, show))
      case Err(e) => d == Y.Failed(e)
  {
    var reader := new Y.Reader(lines);
    var document := reader.Document(WANTED);
    match document
    case Err(e) => r := Y.Err(e);
    case Ok(value) =>
      Y.DocumentsAreProper(lines, map[], WANTED, []);
      RunsWhenItShould(value.entries, changed, base, show);
      r := Y.Ok(WorkflowRuns(value.entries, changed, base, show));
  }

  /** Anchors and aliases are a way of writing: a file and the same file with every aliased value
      written out are scheduled by the same changes, whatever stands under the keys stepped over. */
  lemma AliasesScheduleAsWrittenOut(xs: seq<Y.Section>, asPair: string -> Option<Y.Pair>, changed: seq<string>,
                                    base: string, show: Y.Value -> string)
    requires forall x | x in xs :: Y.SectionOk(x, WANTED)
    ensures var r := Scheduled(Y.PrintDocument(xs, asPair), changed, base, show);
      var y := Y.ExpandSections(xs, map[]);
      if y.Unknown? then r == Y.Err(Y.UnknownAlias(y.name))
      else Y.AllGround(Y.KeptEntries(y.tree)) && r.Ok? &&
           r == Scheduled(Y.PrintDocument(y.tree, asPair), changed, base, show)
  {
    Y.DocumentsReadAsWrittenOut(xs, WANTED, asPair);
  }

  /** What stands under the keys stepped over does not matter at all. */
  lemma JobsDoNotMatter(xs: seq<Y.Section>, ys: seq<Y.Section>, asPair: string -> Option<Y.Pair>,
                        changed: seq<string>, base: string, show: Y.Value -> string)
    requires forall x | x in xs :: Y.SectionOk(x, WANTED)
    requires forall y | y in ys :: Y.SectionOk(y, WANTED)
    requires Y.KeptEntries(xs) == Y.KeptEntries(ys)
    ensures Scheduled(Y.PrintDocument(xs, asPair), changed, base, show) ==
            Scheduled(Y.PrintDocument(ys, asPair), changed, base, show)
  {
    Y.DocumentRoundTrip(xs, WANTED, map[], [], asPair);
    Y.DocumentRoundTrip(ys, WANTED, map[], [], asPair);
  }

  /** From the file itself: a printed file, with keys that differ at every level, is scheduled exactly
      when what is written under its `on` lets the change in; or an alias in it has no anchor. */
  lemma {:induction false} ScheduledAsWritten(xs: seq<Y.Section>, asPair: string -> Option<Y.Pair>,
                                              changed: seq<string>, base: string, show: Y.Value -> string)
    requires forall x | x in xs :: Y.SectionOk(x, {"name", "on", "true", "True"})
    requires Y.AllKeysDiffer(Y.KeptEntries(xs))
    ensures var m := Y.WrittenAll(Y.KeptEntries(xs), map[]);
      match Scheduled(Y.PrintDocument(xs, asPair), changed, base, show)
      case Ok(runs) => m.Means? && (runs <==> ShouldRun(m.value.entries, changed, base, show))
      case Err(e) => m.Undefined? && e == Y.UnknownAlias(m.name)
  {
    Y.DocumentRoundTrip(xs, WANTED, map[], [], asPair);
    Y.EntriesAreKept(Y.KeptEntries(xs), map[], []);
    Y.DocumentsAreProper(Y.PrintDocument(xs, asPair), map[], WANTED, []);
    var m := Y.WrittenAll(Y.KeptEntries(xs), map[]);
    if m.Means? {
      assert [] + m.value.entries == m.value.entries;
      RunsWhenItShould(m.value.entries, changed, base, show);
    }
  }
}
