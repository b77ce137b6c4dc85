/** The service log that carries an application's invocation logs.

    Names are unique in a log group, and so is the source of a service log.  A call looks
    through every page of the group, then creates the log, updates it, or gives up. */
module LogGroups {
  import opened Invocations
  import opened Strings
  import opened CloudAnswers
  import Applications

  datatype Source = Source(service: string, resource: string, category: string)

  /** A service log has a source; another kind of log has none. */
  datatype Log = ServiceLog(source: Source, displayName: string, enabled: bool, lifecycle: Lifecycle)
               | OtherLog(displayName: string, enabled: bool, lifecycle: Lifecycle)

  type Logs = map<string, Log>

  datatype LogSummary = LogSummary(id: string, group: string, log: Log)

  /** What the call looks for and wants. */
  datatype LogSpec = LogSpec(group: string, source: Source, displayName: string, enabled: bool)

  const DEFAULT_SERVICE := "functions"
  const DEFAULT_CATEGORY := "invoke"

  function Effective(value: string, default: string): string { if TrimSpace(value) != "" then TrimSpace(value) else default }

  function EffectiveDisplayName(applicationDisplayName: string, logs: Applications.InvocationLogs): string {
    if TrimSpace(logs.logDisplayName) != "" then TrimSpace(logs.logDisplayName)
    else if TrimSpace(applicationDisplayName) == "" then "function-application-invocation"
    else TrimSpace(applicationDisplayName) + "-invocation"
  }

  function SpecOf(applicationDisplayName: string, logs: Applications.InvocationLogs, applicationId: string): LogSpec {
    LogSpec(TrimSpace(logs.logGroupId),
            Source(Effective(logs.service, DEFAULT_SERVICE), applicationId, Effective(logs.category, DEFAULT_CATEGORY)),
            EffectiveDisplayName(applicationDisplayName, logs), logs.enabled)
  }

  datatype Weather = Weather(pages: seq<seq<LogSummary>>, listFailsAt: nat, create: CreateOutcome, update: WriteOutcome)

  datatype LogWrite = WriteCreate | WriteUpdate(id: string)

  datatype Outcome = LogReady | LogPending | LogError

  datatype Effect = Effect(logs: Logs, outcome: Outcome, writes: seq<LogWrite>)

  predicate Matches(item: LogSummary, spec: LogSpec) {
    item.group == spec.group && item.log.ServiceLog? && item.log.source == spec.source
  }

  function Matching(items: seq<LogSummary>, spec: LogSpec): seq<LogSummary> {
    if items == [] then []
    else
      var n := |items| - 1;
      Matching(items[..n], spec) + (if Matches(items[n], spec) then [items[n]] else [])
  }

  /** Another log of the group has the name. */
  predicate NameTaken(items: seq<LogSummary>, spec: LogSpec, allowedLogId: string) {
    exists i :: 0 <= i < |items| && items[i].group == spec.group && items[i].log.displayName == spec.displayName && items[i].id != allowedLogId
  }

  predicate Manageable(lifecycle: Lifecycle) { lifecycle == Unset || lifecycle == Active || lifecycle == Inactive }

  predicate Pending(lifecycle: Lifecycle) { lifecycle == Creating || lifecycle == Updating || lifecycle == Deleting }

  function AfterCreate(logs: Logs, spec: LogSpec, outcome: CreateOutcome): Logs {
    if outcome.CreateRejected? then logs
    else logs[outcome.id := ServiceLog(spec.source, spec.displayName, spec.enabled, outcome.lifecycle)]
  }

  /** An update carries only the fields that differ; the others keep the value they have. */
  function AfterUpdate(logs: Logs, id: string, displayName: Option<string>, enabled: Option<bool>, outcome: WriteOutcome): Logs {
    if outcome.WriteRejected? || id !in logs then logs
    else
      logs[id := logs[id].(
        displayName := if displayName.Some? then displayName.value else logs[id].displayName,
        enabled := if enabled.Some? then enabled.value else logs[id].enabled)]
  }

  /** The one log found: name and flag are brought to what is wanted. */
  function EnsureFound(logs: Logs, items: seq<LogSummary>, found: LogSummary, spec: LogSpec, update: WriteOutcome): Effect {
    var log := found.log;
    if !Manageable(log.lifecycle) then Effect(logs, if Pending(log.lifecycle) then LogPending else LogError, [])
    else if log.displayName != spec.displayName && NameTaken(items, spec, found.id) then Effect(logs, LogError, [])
    else if log.displayName == spec.displayName && log.enabled == spec.enabled then Effect(logs, LogReady, [])
    else
      Effect(AfterUpdate(logs, found.id, if log.displayName != spec.displayName then Some(spec.displayName) else None,
                         if log.enabled != spec.enabled then Some(spec.enabled) else None, update),
             if update.WriteAnswered? then LogReady else LogError, [WriteUpdate(found.id)])
  }

  /** ensureApplicationInvocationLog. */
  function EnsureLog(logs: Logs, spec: LogSpec, weather: Weather): Effect {
    if weather.listFailsAt < PageCount(weather.pages) then Effect(logs, LogError, [])
    else
      var items := Flatten(weather.pages);
      var matching := Matching(items, spec);
      if |matching| > 1 then Effect(logs, LogError, [])
      else if |matching| == 1 then EnsureFound(logs, items, matching[0], spec, weather.update)
      else if NameTaken(items, spec, "") then Effect(logs, LogError, [])
      else
        Effect(AfterCreate(logs, spec, weather.create), if weather.create.CreateAnswered? then LogReady else LogError, [WriteCreate])
  }

  // ---------------------------------------------------------------- the manager

  lemma {:induction false} MatchingAppend(a: seq<LogSummary>, b: seq<LogSummary>, spec: LogSpec)
    ensures Matching(a + b, spec) == Matching(a, spec) + Matching(b, spec)
  {
    hide Matches;
    if b == [] {
      assert a + b == a;
    } else {
      var n := |b| - 1;
      assert (a + b)[..|a + b| - 1] == a + b[..n];
      MatchingAppend(a, b[..n], spec);
    }
  }

  lemma {:induction false} FlattenNext(pages: seq<seq<LogSummary>>, k: nat)
    requires k < |pages|
    ensures Flatten(pages[..k + 1]) == Flatten(pages[..k]) + pages[k]
  {
    assert pages[..k + 1][..k] == pages[..k];
  }

  class LogManager {
    var logs: Logs
    var writes: seq<LogWrite>

    constructor (logs: Logs)
      ensures this.logs == logs && writes == []
    {
      this.logs := logs;
      writes := [];
    }

    /** invocationLogDisplayNameConflict. */
    method DisplayNameConflict(items: seq<LogSummary>, spec: LogSpec, allowedLogId: string) returns (conflict: bool)
      ensures conflict <==> NameTaken(items, spec, allowedLogId)
    {
      for i := 0 to |items|
        invariant !NameTaken(items[..i], spec, allowedLogId)
      {
        assert items[..i + 1] == items[..i] + [items[i]];
        if items[i].group == spec.group && items[i].log.displayName == spec.displayName && items[i].id != allowedLogId {
          return true;
        }
      }
      assert items[..|items|] == items;
      return false;
    }

    /** The page loop: every log, and those with the wanted source; None when a page fails. */
    method ListLogs(spec: LogSpec, weather: Weather) returns (all: seq<LogSummary>, matching: seq<LogSummary>, failed: bool)
      ensures failed <==> weather.listFailsAt < PageCount(weather.pages)
      ensures !failed ==> all == Flatten(weather.pages) && matching == Matching(all, spec)
    {
      hide Matches, Matching, Flatten;
      all, matching, failed := [], [], false;
      NothingListed(weather.pages, spec);
      var k, more := 0, true;
      while more
        invariant k <= PageCount(weather.pages) && k <= weather.listFailsAt && (more <==> k < PageCount(weather.pages))
        invariant matching == Matching(all, spec)
        invariant k <= |weather.pages| ==> all == Flatten(weather.pages[..k])
        invariant k > |weather.pages| ==> all == []
        decreases PageCount(weather.pages) - k
      {
        if k == weather.listFailsAt {
          return all, matching, true;
        }
        var items := Page(weather.pages, k);
        ghost var before := all;
        for i := 0 to |items|
          invariant all == before + items[..i] && matching == Matching(all, spec)
        {
          MatchingAppend(all, [items[i]], spec);
          MatchingOne(items[i], spec);
          all := all + [items[i]];
          if Matches(items[i], spec) {
            matching := matching + [items[i]];
          }
          assert items[..i + 1] == items[..i] + [items[i]];
        }
        assert items[..|items|] == items;
        if k < |weather.pages| {
          FlattenNext(weather.pages, k);
        }
        k := k + 1;
        more := k < |weather.pages|;
      }
      assert weather.pages[..|weather.pages|] == weather.pages;
    }

    method EnsureApplicationInvocationLog(applicationDisplayName: string, invocationLogs: Applications.InvocationLogs, applicationId: string, weather: Weather)
      returns (outcome: Outcome)
      modifies this
      ensures var effect := EnsureLog(old(logs), SpecOf(applicationDisplayName, invocationLogs, applicationId), weather);
              logs == effect.logs && outcome == effect.outcome && writes == old(writes) + effect.writes
    {
      hide NameTaken, Matching, Flatten, TrimSpace;
      var spec := SpecOf(applicationDisplayName, invocationLogs, applicationId);
      var all, matching, failed := ListLogs(spec, weather);
      if failed || |matching| > 1 {
        return LogError;
      }
      if |matching| == 0 {
        var conflict := DisplayNameConflict(all, spec, "");
        if conflict {
          return LogError;
        }
        writes := writes + [WriteCreate];
        if !weather.create.CreateRejected? {
          logs := logs[weather.create.id := ServiceLog(spec.source, spec.displayName, spec.enabled, weather.create.lifecycle)];
        }
        return if weather.create.CreateAnswered? then LogReady else LogError;
      }
      var found := matching[0];
      if !Manageable(found.log.lifecycle) {
        return if Pending(found.log.lifecycle) then LogPending else LogError;
      }
      var displayName, enabled, needsUpdate := None, None, false;
      if found.log.displayName != spec.displayName {
        var conflict := DisplayNameConflict(all, spec, found.id);
        if conflict {
          return LogError;
        }
        displayName, needsUpdate := Some(spec.displayName), true;
      }
      if found.log.enabled != spec.enabled {
        enabled, needsUpdate := Some(spec.enabled), true;
      }
      if !needsUpdate {
        return LogReady;
      }
      writes := writes + [WriteUpdate(found.id)];
      logs := AfterUpdate(logs, found.id, displayName, enabled, weather.update);
      return if weather.update.WriteAnswered? then LogReady else LogError;
    }
  }

  lemma {:induction false} NothingListed(pages: seq<seq<LogSummary>>, spec: LogSpec)
    ensures Matching([], spec) == [] && Flatten(pages[..0]) == []
  {
  }

  lemma {:induction false} MatchingOne(item: LogSummary, spec: LogSpec)
    ensures Matching([item], spec) == if Matches(item, spec) then [item] else []
  {
    assert [item][..0] == [];
  }

  /** A log is always asked for by name, service and category: blank fields have defaults.  So
      the two checks for a blank service or category (internal/lifecycle/oci.go:914-917) cannot
      fail. */
  lemma {:induction false} NothingAskedForIsBlank(applicationDisplayName: string, logs: Applications.InvocationLogs, applicationId: string)
    ensures var spec := SpecOf(applicationDisplayName, logs, applicationId);
            TrimSpace(spec.source.service) != "" && TrimSpace(spec.source.category) != "" && spec.displayName != ""
  {
    TrimTwice(logs.service);
    TrimTwice(logs.category);
    assert TrimSpace(DEFAULT_SERVICE) == DEFAULT_SERVICE && TrimSpace(DEFAULT_CATEGORY) == DEFAULT_CATEGORY;
    hide TrimSpace;
    var suffixed := TrimSpace(applicationDisplayName) + "-invocation";
    assert |suffixed| > 0;
  }

  // ---------------------------------------------------------------- the log group

  /** Names are unique, and so are the sources of service logs. */
  predicate Orderly(logs: Logs) {
    && (forall a, b :: a in logs && b in logs && logs[a].displayName == logs[b].displayName ==> a == b)
    && (forall a, b :: a in logs && b in logs && logs[a].ServiceLog? && logs[b].ServiceLog? && logs[a].source == logs[b].source ==> a == b)
  }

  ghost predicate CompleteListing(logs: Logs, group: string, items: seq<LogSummary>) {
    && (forall id :: id in logs ==> id != "" && exists i :: 0 <= i < |items| && items[i] == LogSummary(id, group, logs[id]))
    && (forall i :: 0 <= i < |items| && items[i].group == group ==> items[i].id in logs && logs[items[i].id] == items[i].log)
    && (forall i, j :: 0 <= i < j < |items| ==> items[i].id != items[j].id)
  }

  ghost predicate Honest(logs: Logs, spec: LogSpec, weather: Weather) {
    && CompleteListing(logs, spec.group, Flatten(weather.pages))
    && (!weather.create.CreateRejected? ==> weather.create.id !in logs && weather.create.id != "")
  }

  /** A log serves the application. */
  predicate Serves(logs: Logs, spec: LogSpec, id: string) {
    id in logs && logs[id].ServiceLog? && logs[id].source == spec.source
  }

  lemma {:induction false} MatchingIsExact(items: seq<LogSummary>, spec: LogSpec)
    ensures forall k :: 0 <= k < |Matching(items, spec)| ==> Matching(items, spec)[k] in items && Matches(Matching(items, spec)[k], spec)
    ensures forall i :: 0 <= i < |items| && Matches(items[i], spec) ==> items[i] in Matching(items, spec)
  {
    hide Matches;
    if items != [] {
      MatchingIsExact(items[..|items| - 1], spec);
    }
  }

  /** What the listing says about the group: nothing with the source, or exactly one log. */
  lemma {:induction false} MatchingIsTheLog(logs: Logs, items: seq<LogSummary>, spec: LogSpec)
    requires CompleteListing(logs, spec.group, items)
    ensures forall k :: 0 <= k < |Matching(items, spec)| ==>
              var item := Matching(items, spec)[k];
              item.id != "" && Serves(logs, spec, item.id) && logs[item.id] == item.log
    ensures forall id :: Serves(logs, spec, id) ==> exists k :: 0 <= k < |Matching(items, spec)| && Matching(items, spec)[k].id == id
  {
    hide Matching;
    MatchingIsExact(items, spec);
    forall id | Serves(logs, spec, id)
      ensures exists k :: 0 <= k < |Matching(items, spec)| && Matching(items, spec)[k].id == id
    {
      var i :| 0 <= i < |items| && items[i] == LogSummary(id, spec.group, logs[id]);
      var k :| 0 <= k < |Matching(items, spec)| && Matching(items, spec)[k] == items[i];
      assert Matching(items, spec)[k].id == id;
    }
  }

  lemma {:induction false} NameTakenIsTaken(logs: Logs, items: seq<LogSummary>, spec: LogSpec, allowed: string)
    requires CompleteListing(logs, spec.group, items)
    ensures NameTaken(items, spec, allowed) <==> exists id :: id in logs && logs[id].displayName == spec.displayName && id != allowed
  {
    if id :| id in logs && logs[id].displayName == spec.displayName && id != allowed {
      var i :| 0 <= i < |items| && items[i] == LogSummary(id, spec.group, logs[id]);
      assert items[i].id == id;
    }
    if NameTaken(items, spec, allowed) {
      var i :| 0 <= i < |items| && items[i].group == spec.group && items[i].log.displayName == spec.displayName && items[i].id != allowed;
      assert items[i].id in logs && logs[items[i].id].displayName == spec.displayName;
    }
  }

  /** The group stays orderly whatever becomes of the call's one write. */
  lemma {:induction false} StaysOrderly(logs: Logs, spec: LogSpec, weather: Weather)
    requires Orderly(logs) && Honest(logs, spec, weather)
    ensures Orderly(EnsureLog(logs, spec, weather).logs)
  {
    hide Matching, NameTaken, Flatten;
    var items := Flatten(weather.pages);
    var matching := Matching(items, spec);
    MatchingIsTheLog(logs, items, spec);
    NameTakenIsTaken(logs, items, spec, "");
    hide Orderly;
    if |matching| == 0 && !NameTaken(items, spec, "") && !weather.create.CreateRejected? {
      assert forall id :: id in logs ==> id != "" && !Serves(logs, spec, id);
      AddKeepsOrderly(logs, weather.create.id, ServiceLog(spec.source, spec.displayName, spec.enabled, weather.create.lifecycle));
    } else if |matching| == 1 {
      NameTakenIsTaken(logs, items, spec, matching[0].id);
      hide CompleteListing;
      var id, effect := matching[0].id, EnsureLog(logs, spec, weather);
      if effect.logs != logs {
        ChangeKeepsOrderly(logs, id, effect.logs[id]);
      }
    }
  }

  lemma {:induction false} AddKeepsOrderly(logs: Logs, id: string, log: Log)
    requires Orderly(logs) && id !in logs && log.ServiceLog?
    requires forall a :: a in logs ==> logs[a].displayName != log.displayName && !(logs[a].ServiceLog? && logs[a].source == log.source)
    ensures Orderly(logs[id := log])
  {
  }

  lemma {:induction false} ChangeKeepsOrderly(logs: Logs, id: string, log: Log)
    requires Orderly(logs) && id in logs && log == logs[id].(displayName := log.displayName, enabled := log.enabled)
    requires log.displayName == logs[id].displayName || forall a :: a in logs && a != id ==> logs[a].displayName != log.displayName
    ensures Orderly(logs[id := log])
  {
    assert log.ServiceLog? <==> logs[id].ServiceLog?;
  }

  /** When the call reports success, exactly one log serves the application, with the wanted
      name and flag. */
  lemma {:induction false} SuccessMeansServed(logs: Logs, spec: LogSpec, weather: Weather)
    requires Orderly(logs) && Honest(logs, spec, weather) && EnsureLog(logs, spec, weather).outcome == LogReady
    ensures var after := EnsureLog(logs, spec, weather).logs;
            exists id :: Serves(after, spec, id) && after[id].displayName == spec.displayName && after[id].enabled == spec.enabled
                         && forall other :: Serves(after, spec, other) ==> other == id
  {
    hide Matching, NameTaken, Flatten, Orderly;
    var items := Flatten(weather.pages);
    var after := EnsureLog(logs, spec, weather).logs;
    MatchingIsTheLog(logs, items, spec);
    StaysOrderly(logs, spec, weather);
    var id := if |Matching(items, spec)| == 1 then Matching(items, spec)[0].id else weather.create.id;
    assert Serves(after, spec, id) && after[id].displayName == spec.displayName && after[id].enabled == spec.enabled;
    OneServes(after, spec);
  }

  lemma {:induction false} OneServes(logs: Logs, spec: LogSpec)
    requires Orderly(logs)
    ensures forall a, b :: Serves(logs, spec, a) && Serves(logs, spec, b) ==> a == b
  {
  }

  /** At most one write, and an error leaves the group alone unless that write itself went
      wrong.  No other log ever changes. */
  lemma {:induction false} ErrorsWriteNothing(logs: Logs, spec: LogSpec, weather: Weather)
    requires Honest(logs, spec, weather)
    ensures var effect := EnsureLog(logs, spec, weather);
            && |effect.writes| <= 1
            && (effect.writes == [] ==> effect.logs == logs)
            && (effect.outcome != LogReady && effect.writes != [] ==>
                  if effect.writes == [WriteCreate] then !weather.create.CreateAnswered? else !weather.update.WriteAnswered?)
            && forall id :: id in logs && !Serves(logs, spec, id) ==> id in effect.logs && effect.logs[id] == logs[id]
  {
    hide Matching, NameTaken, Flatten, CompleteListing;
    MatchingIsTheLog(logs, Flatten(weather.pages), spec);
  }

  /** When the call creates: exactly if the listing arrives, nothing serves the application
      and the name is free. */
  lemma {:induction false} CreatesExactlyWhenFree(logs: Logs, spec: LogSpec, weather: Weather)
    requires Orderly(logs) && Honest(logs, spec, weather)
    ensures EnsureLog(logs, spec, weather).writes == [WriteCreate] <==>
              && weather.listFailsAt >= PageCount(weather.pages)
              && (forall id :: !Serves(logs, spec, id))
              && forall id :: id in logs ==> logs[id].displayName != spec.displayName
  {
    hide Matching, NameTaken, Flatten;
    var items := Flatten(weather.pages);
    MatchingIsTheLog(logs, items, spec);
    NameTakenIsTaken(logs, items, spec, "");
    hide CompleteListing;
    if |Matching(items, spec)| > 0 {
      assert Serves(logs, spec, Matching(items, spec)[0].id);
    }
  }

  /** After a success the next call writes nothing; it succeeds as soon as the log's life
      cycle has settled. */
  lemma {:induction false} SecondCallWritesNothing(logs: Logs, spec: LogSpec, first: Weather, second: Weather)
    requires Orderly(logs) && Honest(logs, spec, first) && EnsureLog(logs, spec, first).outcome == LogReady
    requires Honest(EnsureLog(logs, spec, first).logs, spec, second)
    ensures var one := EnsureLog(logs, spec, first);
            var two := EnsureLog(one.logs, spec, second);
            && two.writes == [] && two.logs == one.logs
            && (two.outcome == LogReady <==>
                  second.listFailsAt >= PageCount(second.pages) && forall id :: Serves(one.logs, spec, id) ==> Manageable(one.logs[id].lifecycle))
  {
    hide Matching, NameTaken, Flatten, Orderly, Honest, EnsureLog, Pending, Manageable;
    SuccessMeansServed(logs, spec, first);
    StaysOrderly(logs, spec, first);
    var one := EnsureLog(logs, spec, first).logs;
    var id :| Serves(one, spec, id) && one[id].displayName == spec.displayName && one[id].enabled == spec.enabled
              && forall other :: Serves(one, spec, other) ==> other == id;
    SettledCall(one, spec, second, id);
  }

  lemma {:induction false} SettledCall(logs: Logs, spec: LogSpec, weather: Weather, id: string)
    requires Orderly(logs) && Honest(logs, spec, weather)
    requires Serves(logs, spec, id) && logs[id].displayName == spec.displayName && logs[id].enabled == spec.enabled
    ensures var effect := EnsureLog(logs, spec, weather);
            && effect.writes == [] && effect.logs == logs
            && (effect.outcome == LogReady <==> weather.listFailsAt >= PageCount(weather.pages) && Manageable(logs[id].lifecycle))
  {
    hide Matching, NameTaken, Flatten;
    var items := Flatten(weather.pages);
    MatchingIsTheLog(logs, items, spec);
    OneServes(logs, spec);
    MatchingIsShort(items, spec);
    if |Matching(items, spec)| > 1 {
      AnotherId(Matching(items, spec), id);
    }
    hide Orderly, CompleteListing, Serves;
  }

  lemma {:induction false} AnotherId(items: seq<LogSummary>, id: string)
    requires |items| > 1 && forall i, j :: 0 <= i < j < |items| ==> items[i].id != items[j].id
    ensures exists k :: 0 <= k < |items| && items[k].id != id
  {
    assert items[0].id != items[1].id;
  }

  /** Equal ids cannot occur twice among the matching items of a listing without repetitions. */
  lemma {:induction false} MatchingIsShort(items: seq<LogSummary>, spec: LogSpec)
    requires forall i, j :: 0 <= i < j < |items| ==> items[i].id != items[j].id
    ensures forall i, j :: 0 <= i < j < |Matching(items, spec)| ==> Matching(items, spec)[i].id != Matching(items, spec)[j].id
  {
    hide Matches;
    if items != [] {
      var front := items[..|items| - 1];
      MatchingIsShort(front, spec);
      MatchingIsExact(front, spec);
    }
  }

  // ---------------------------------------------------------------- in the application's fields

  /** What the log of an application must be, in the fields of what is asked for: it carries the
      application, and blank fields have defaults. */
  predicate LogOf(log: Log, applicationDisplayName: string, asked: Applications.InvocationLogs, applicationId: string) {
    && log.ServiceLog? && log.source.resource == applicationId && log.enabled == asked.enabled
    && log.source.service == (if TrimSpace(asked.service) == "" then "functions" else TrimSpace(asked.service))
    && log.source.category == (if TrimSpace(asked.category) == "" then "invoke" else TrimSpace(asked.category))
    && log.displayName == (if TrimSpace(asked.logDisplayName) != "" then TrimSpace(asked.logDisplayName)
                           else if TrimSpace(applicationDisplayName) != "" then TrimSpace(applicationDisplayName) + "-invocation"
                           else "function-application-invocation")
  }

  /** An application gets its log.  After a success exactly one log of the group asked for has the
      application's source, and it is as asked for. */
  lemma {:induction false} ApplicationHasLog(
      logs: Logs, applicationDisplayName: string, asked: Applications.InvocationLogs, applicationId: string, weather: Weather)
    requires var spec := SpecOf(applicationDisplayName, asked, applicationId);
             Orderly(logs) && Honest(logs, spec, weather) && EnsureLog(logs, spec, weather).outcome == LogReady
    ensures SpecOf(applicationDisplayName, asked, applicationId).group == TrimSpace(asked.logGroupId)
    ensures var after := EnsureLog(logs, SpecOf(applicationDisplayName, asked, applicationId), weather).logs;
            exists id :: id in after && LogOf(after[id], applicationDisplayName, asked, applicationId)
                         && forall other :: other in after && after[other].ServiceLog? && after[other].source == after[id].source ==> other == id
  {
    var spec := SpecOf(applicationDisplayName, asked, applicationId);
    hide TrimSpace, EnsureLog, Orderly, Honest;
    SuccessMeansServed(logs, spec, weather);
    var after := EnsureLog(logs, spec, weather).logs;
    var id :| Serves(after, spec, id) && after[id].displayName == spec.displayName && after[id].enabled == spec.enabled
              && forall other :: Serves(after, spec, other) ==> other == id;
    assert LogOf(after[id], applicationDisplayName, asked, applicationId);
    assert forall other :: other in after && after[other].ServiceLog? && after[other].source == after[id].source ==> Serves(after, spec, other);
  }

  /** When a call succeeds.  With nothing serving the application yet: exactly if the group can be
      listed, the name is free and the creation is answered. */
  lemma {:induction false} FirstCallSucceeds(logs: Logs, spec: LogSpec, weather: Weather)
    requires Orderly(logs) && Honest(logs, spec, weather) && forall id :: !Serves(logs, spec, id)
    ensures EnsureLog(logs, spec, weather).outcome == LogReady <==>
              && weather.listFailsAt >= PageCount(weather.pages) && weather.create.CreateAnswered?
              && forall id :: id in logs ==> logs[id].displayName != spec.displayName
  {
    hide Matching, NameTaken, Flatten;
    var items := Flatten(weather.pages);
    MatchingIsTheLog(logs, items, spec);
    NameTakenIsTaken(logs, items, spec, "");
    hide CompleteListing;
    assert |Matching(items, spec)| > 0 ==> Serves(logs, spec, Matching(items, spec)[0].id);
  }

  /** With a log that serves it: exactly if the group can be listed, the log's life cycle has
      settled, no other log has the name, and the update, if one is needed, is answered.  It is
      pending exactly while the log is being created, updated or deleted. */
  lemma {:induction false} LaterCallSucceeds(logs: Logs, spec: LogSpec, weather: Weather, id: string)
    requires Orderly(logs) && Honest(logs, spec, weather) && Serves(logs, spec, id)
    ensures var outcome := EnsureLog(logs, spec, weather).outcome;
            && (outcome == LogReady <==>
                  && weather.listFailsAt >= PageCount(weather.pages) && logs[id].lifecycle in {Lifecycle.Unset, Active, Inactive}
                  && (forall other :: other in logs && other != id ==> logs[other].displayName != spec.displayName)
                  && ((logs[id].displayName == spec.displayName && logs[id].enabled == spec.enabled) || weather.update.WriteAnswered?))
            && (outcome == LogPending <==>
                  weather.listFailsAt >= PageCount(weather.pages) && logs[id].lifecycle in {Creating, Updating, Deleting})
  {
    hide Matching, NameTaken, Flatten;
    var items := Flatten(weather.pages);
    MatchingIsTheLog(logs, items, spec);
    OneServes(logs, spec);
    MatchingIsShort(items, spec);
    if |Matching(items, spec)| > 1 {
      AnotherId(Matching(items, spec), id);
    }
    NameTakenIsTaken(logs, items, spec, id);
    hide CompleteListing, Serves;
  }
}
