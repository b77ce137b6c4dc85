/** Rendering a trigger's condition as an OCI Events rule condition, on JSON trees.

    The documented meaning of a condition (docs/event-triggers.md:70) is any-of for arrays.
    The rewriter that renders single values as scalars is proved to keep that meaning. */
module Conditions {
  import opened Invocations
  import Strings

  datatype Json =
    | Null
    | Bool(b: bool)
    | Number(n: real)
    | Text(s: string)
    | Array(items: seq<Json>)
    | Object(fields: map<string, Json>)

  predicate IsScalar(value: Json) { !value.Array? && !value.Object? }

  // ---------------------------------------------------------------- the rewriter

  /** normalizeConditionData: None where the source returns an error. */
  function Normalize(value: Json, collapse: bool): Option<Json>
    decreases value
  {
    match value
    case Null => None
    case Bool(_) => Some(value)
    case Number(_) => Some(value)
    case Text(_) => Some(value)
    case Object(fields) =>
      if forall k :: k in fields ==> Normalize(fields[k], collapse).Some?
      then Some(Object(map k | k in fields :: Normalize(fields[k], collapse).value))
      else None
    case Array(items) =>
      if items == [] then None
      else if forall i :: 0 <= i < |items| ==> Normalize(items[i], false).Some? then
        var normalized := seq(|items|, i requires 0 <= i < |items| => Normalize(items[i], false).value);
        if collapse && |items| == 1 then Some(normalized[0]) else Some(Array(normalized))
      else None
  }

  // ---------------------------------------------------------------- its domain

  /** No null and no empty array at any depth. */
  predicate Clean(value: Json)
    decreases value
  {
    match value
    case Null => false
    case Object(fields) => forall k :: k in fields ==> Clean(fields[k])
    case Array(items) => items != [] && forall i :: 0 <= i < |items| ==> Clean(items[i])
    case _ => true
  }

  /** The rewriter accepts exactly the clean trees; without collapsing it changes nothing. */
  lemma {:induction false} NormalizeDomain(value: Json, collapse: bool)
    ensures Normalize(value, collapse).Some? <==> Clean(value)
    ensures Clean(value) && !collapse ==> Normalize(value, collapse) == Some(value)
    decreases value
  {
    match value
    case Object(fields) =>
      forall k | k in fields {
        NormalizeDomain(fields[k], collapse);
      }
      if Clean(value) && !collapse {
        assert Normalize(value, false).value.fields == fields;
      }
    case Array(items) =>
      forall i | 0 <= i < |items| ensures Normalize(items[i], false) == if Clean(items[i]) then Some(items[i]) else None {
        NormalizeDomain(items[i], false);
      }
      if Clean(value) && !collapse {
        assert Normalize(value, false).value.items == items;
      }
    case _ =>
  }

  // ---------------------------------------------------------------- its meaning

  /** How OCI Events compares two scalar values is not fixed here: any relation will do. */
  type ScalarMatch = (Json, Json) -> bool

  /** A condition value matches an event value: an array if any of its items does, an object
      if the event has every field of it with a matching value, a scalar as the relation says. */
  predicate Matches(scalar: ScalarMatch, condition: Json, event: Json)
    decreases condition
  {
    match condition
    case Array(items) => exists i :: 0 <= i < |items| && Matches(scalar, items[i], event)
    case Object(fields) => event.Object? && forall k :: k in fields ==> k in event.fields && Matches(scalar, fields[k], event.fields[k])
    case _ => scalar(condition, event)
  }

  /** The rewritten value matches exactly the events the original matches, with nested arrays
      and objects inside arrays, collapsed or not. */
  lemma {:induction false} NormalizePreservesMatching(scalar: ScalarMatch, value: Json, collapse: bool, event: Json)
    requires Clean(value)
    ensures Normalize(value, collapse).Some?
    ensures Matches(scalar, Normalize(value, collapse).value, event) <==> Matches(scalar, value, event)
    decreases value
  {
    NormalizeDomain(value, collapse);
    match value
    case Object(fields) =>
      var after := Normalize(value, collapse).value.fields;
      if event.Object? {
        forall k | k in fields && k in event.fields
          ensures Matches(scalar, after[k], event.fields[k]) <==> Matches(scalar, fields[k], event.fields[k])
        {
          NormalizePreservesMatching(scalar, fields[k], collapse, event.fields[k]);
        }
      }
    case Array(items) =>
      NormalizeDomain(value, false);
      if collapse && |items| == 1 {
        NormalizeDomain(items[0], false);
      }
    case _ =>
  }

  // ---------------------------------------------------------------- what it does to the tree

  /** The nodes collapsing applies to are those reached through objects alone.  A tree is
      flat there if none of them is an array of one item. */
  predicate Flat(value: Json)
    decreases value
  {
    match value
    case Object(fields) => forall k :: k in fields ==> Flat(fields[k])
    case Array(items) => |items| != 1
    case _ => true
  }

  /** Collapsing changes nothing exactly on flat trees. */
  lemma {:induction false} CollapseFixpoint(value: Json)
    requires Clean(value)
    ensures Normalize(value, true) == Some(value) <==> Flat(value)
    decreases value
  {
    NormalizeDomain(value, true);
    match value
    case Object(fields) =>
      forall k | k in fields
        ensures Normalize(fields[k], true).Some? && (Normalize(fields[k], true).value == fields[k] <==> Flat(fields[k]))
      {
        CollapseFixpoint(fields[k]);
        NormalizeDomain(fields[k], true);
      }
      var after := Normalize(value, true).value.fields;
      if Flat(value) {
        assert after == fields;
      } else {
        var k :| k in fields && !Flat(fields[k]);
        assert after[k] != fields[k];
      }
    case Array(items) =>
      NormalizeDomain(value, false);
      forall i | 0 <= i < |items| {
        NormalizeDomain(items[i], false);
      }
      if |items| == 1 {
        assert items[0] < value;
      }
    case _ =>
  }

  /** One pass of collapsing leaves a flat tree unless it collapses onto an array or object
      that is not flat itself. */
  predicate CollapsesFlat(value: Json)
    decreases value
  {
    match value
    case Object(fields) => forall k :: k in fields ==> CollapsesFlat(fields[k])
    case Array(items) => |items| == 1 ==> Flat(items[0])
    case _ => true
  }

  lemma {:induction false} CollapseFlattens(value: Json)
    requires Clean(value)
    ensures Normalize(value, true).Some?
    ensures Flat(Normalize(value, true).value) <==> CollapsesFlat(value)
    decreases value
  {
    NormalizeDomain(value, true);
    match value
    case Object(fields) =>
      forall k | k in fields {
        CollapseFlattens(fields[k]);
      }
      var after := Normalize(value, true).value.fields;
      if !CollapsesFlat(value) {
        var k :| k in fields && !CollapsesFlat(fields[k]);
        assert !Flat(after[k]);
      }
    case Array(items) =>
      if |items| == 1 {
        NormalizeDomain(items[0], false);
      }
    case _ =>
  }

  lemma {:induction false} NormalizeStaysClean(value: Json, collapse: bool)
    requires Clean(value)
    ensures Normalize(value, collapse).Some? && Clean(Normalize(value, collapse).value)
    decreases value
  {
    NormalizeDomain(value, collapse);
    match value
    case Object(fields) =>
      forall k | k in fields {
        NormalizeStaysClean(fields[k], collapse);
      }
    case Array(items) =>
      NormalizeDomain(value, false);
      if |items| == 1 {
        NormalizeDomain(items[0], false);
      }
    case _ =>
  }

  /** Exactly when the rewriter is idempotent. */
  lemma {:induction false} IdempotentExactly(value: Json)
    requires Clean(value)
    ensures Normalize(value, true).Some?
    ensures Normalize(Normalize(value, true).value, true) == Normalize(value, true) <==> CollapsesFlat(value)
  {
    NormalizeStaysClean(value, true);
    CollapseFlattens(value);
    CollapseFixpoint(Normalize(value, true).value);
  }

  /** In particular on every tree whose arrays hold only scalars. */
  predicate ScalarArrays(value: Json)
    decreases value
  {
    match value
    case Object(fields) => forall k :: k in fields ==> ScalarArrays(fields[k])
    case Array(items) => forall i :: 0 <= i < |items| ==> IsScalar(items[i])
    case _ => true
  }

  lemma {:induction false} ScalarArraysCollapseFlat(value: Json)
    requires ScalarArrays(value)
    ensures CollapsesFlat(value)
    decreases value
  {
    match value
    case Object(fields) =>
      forall k | k in fields {
        ScalarArraysCollapseFlat(fields[k]);
      }
    case _ =>
  }

  /** It is not idempotent in general: [[y]] becomes [y], and [y] becomes y. */
  lemma {:induction false} NestedSingletons(y: string)
    ensures Normalize(Array([Array([Text(y)])]), true) == Some(Array([Text(y)]))
    ensures Normalize(Array([Text(y)]), true) == Some(Text(y))
  {
    var inner, outer := Array([Text(y)]), Array([Array([Text(y)])]);
    assert inner.items == [Text(y)] && outer.items == [inner];
    assert Clean(inner) && Clean(outer) by {
      assert Clean(Text(y));
    }
    NormalizeDomain(inner, false);
    NormalizeDomain(outer, true);
    NormalizeDomain(inner, true);
    NormalizeDomain(Text(y), false);
  }

  /** Along object paths the keys stay as they are. */
  predicate SameKeys(before: Json, after: Json)
    decreases before
  {
    before.Object? ==>
      && after.Object? && after.fields.Keys == before.fields.Keys
      && forall k :: k in before.fields ==> SameKeys(before.fields[k], after.fields[k])
  }

  lemma {:induction false} NormalizeKeepsKeys(value: Json, collapse: bool)
    requires Clean(value)
    ensures Normalize(value, collapse).Some? && SameKeys(value, Normalize(value, collapse).value)
    decreases value
  {
    NormalizeDomain(value, collapse);
    if value.Object? {
      forall k | k in value.fields {
        NormalizeKeepsKeys(value.fields[k], collapse);
      }
    }
  }

  // ---------------------------------------------------------------- event types

  /** renderConditionEventType: trimmed, none blank, a single one as a scalar. */
  function RenderEventTypes(eventTypes: seq<string>): Option<Json> {
    if eventTypes == [] || exists i :: 0 <= i < |eventTypes| && Strings.TrimSpace(eventTypes[i]) == "" then None
    else if |eventTypes| == 1 then Some(Text(Strings.TrimSpace(eventTypes[0])))
    else Some(Array(seq(|eventTypes|, i requires 0 <= i < |eventTypes| => Text(Strings.TrimSpace(eventTypes[i])))))
  }

  /** The rendered event types match an event exactly if one of them, trimmed, does. */
  lemma {:induction false} EventTypesMatch(scalar: ScalarMatch, eventTypes: seq<string>, event: Json)
    requires RenderEventTypes(eventTypes).Some?
    ensures Matches(scalar, RenderEventTypes(eventTypes).value, event)
            <==> exists i :: 0 <= i < |eventTypes| && scalar(Text(Strings.TrimSpace(eventTypes[i])), event)
  {
    if |eventTypes| > 1 {
      var items := RenderEventTypes(eventTypes).value.items;
      forall i | 0 <= i < |items|
        ensures Matches(scalar, items[i], event) <==> scalar(Text(Strings.TrimSpace(eventTypes[i])), event)
      {
      }
      if i :| 0 <= i < |eventTypes| && scalar(Text(Strings.TrimSpace(eventTypes[i])), event) {
        assert Matches(scalar, items[i], event);
      }
    }
  }

  method RenderConditionEventType(eventTypes: seq<string>) returns (rendered: Option<Json>)
    ensures rendered == RenderEventTypes(eventTypes)
  {
    if |eventTypes| == 0 {
      return None;
    }
    var normalized: seq<Json> := [];
    for i := 0 to |eventTypes|
      invariant |normalized| == i
      invariant forall k :: 0 <= k < i ==> Strings.TrimSpace(eventTypes[k]) != "" && normalized[k] == Text(Strings.TrimSpace(eventTypes[k]))
    {
      var eventType := Strings.TrimSpace(eventTypes[i]);
      if eventType == "" {
        return None;
      }
      normalized := normalized + [Text(eventType)];
    }
    if |normalized| == 1 {
      return Some(normalized[0]);
    }
    assert normalized == RenderEventTypes(eventTypes).value.items;
    return Some(Array(normalized));
  }

  // ---------------------------------------------------------------- documents

  /** A field of JSON text as the API server stored it: not set, not JSON, or a tree. */
  datatype RawField = Absent | Invalid | Tree(value: Json)

  datatype Condition = Condition(rawJson: RawField, eventTypes: seq<string>, data: RawField)

  /** conditionJSONFromSpec up to the encoder: the document that is encoded, if any. */
  function Document(condition: Condition): Option<Json> {
    if !condition.rawJson.Absent? then
      if condition.rawJson.Tree? && RawAccepted(condition.rawJson.value) then Some(condition.rawJson.value) else None
    else
      var eventType := if condition.eventTypes == [] then None else RenderEventTypes(condition.eventTypes);
      var data := if condition.data.Tree? then Normalize(condition.data.value, true) else None;
      if condition.eventTypes != [] && eventType.None? then None
      else if condition.data.Invalid? then None
      else if condition.data.Tree? && (data.None? || !data.value.Object?) then None
      else if eventType.None? && data.None? then None
      else
        Some(Object((if eventType.Some? then map["eventType" := eventType.value] else map[])
                    + (if data.Some? then map["data" := data.value] else map[])))
  }

  /** validateOCIEventsConditionDocument, on a non-empty object. */
  predicate RawAccepted(document: Json) {
    && document.Object? && document.fields != map[]
    && ("eventType" in document.fields ==> EventTypeAccepted(document.fields["eventType"]))
    && ("data" in document.fields ==>
          Normalize(document.fields["data"], false).Some? && Normalize(document.fields["data"], false).value.Object?)
    && forall k :: k in document.fields && k != "eventType" && k != "data" ==> Normalize(document.fields[k], false).Some?
  }

  predicate EventTypeAccepted(value: Json) {
    match value
    case Text(s) => Strings.TrimSpace(s) != ""
    case Array(items) => items != [] && forall i :: 0 <= i < |items| ==> items[i].Text? && Strings.TrimSpace(items[i].s) != ""
    case _ => false
  }

  /** Exactly which raw documents are accepted; an accepted one is sent as it is. */
  lemma {:induction false} RawDomain(document: Json)
    ensures RawAccepted(document) <==>
              && document.Object? && document.fields != map[]
              && (forall k :: k in document.fields && k != "eventType" ==> Clean(document.fields[k]))
              && ("data" in document.fields ==> document.fields["data"].Object?)
              && ("eventType" in document.fields ==>
                    match document.fields["eventType"]
                    case Text(s) => Strings.TrimSpace(s) != ""
                    case Array(items) => |items| > 0 && forall i :: 0 <= i < |items| ==> items[i].Text? && Strings.TrimSpace(items[i].s) != ""
                    case _ => false)
  {
    if document.Object? {
      forall k | k in document.fields {
        NormalizeDomain(document.fields[k], false);
      }
    }
  }

  /** What a structured condition asks of an event, in the words of the documentation: the
      event type is one of the listed ones, and the data matches with any-of arrays. */
  predicate Asks(scalar: ScalarMatch, condition: Condition, event: Json) {
    && event.Object?
    && (condition.eventTypes != [] ==>
          && "eventType" in event.fields
          && exists i :: 0 <= i < |condition.eventTypes| && scalar(Text(Strings.TrimSpace(condition.eventTypes[i])), event.fields["eventType"]))
    && (condition.data.Tree? ==> "data" in event.fields && Matches(scalar, condition.data.value, event.fields["data"]))
  }

  /** The document sent to OCI Events matches exactly the events the spec asks for. */
  lemma {:induction false} DocumentMeansSpec(scalar: ScalarMatch, condition: Condition, event: Json)
    requires Document(condition).Some?
    ensures Matches(scalar, Document(condition).value, event) <==>
            if condition.rawJson.Tree? then Matches(scalar, condition.rawJson.value, event) else Asks(scalar, condition, event)
  {
    hide Normalize, Clean, Strings.TrimSpace;
    if condition.rawJson.Absent? && event.Object? {
      if condition.eventTypes != [] && "eventType" in event.fields {
        EventTypesMatch(scalar, condition.eventTypes, event.fields["eventType"]);
      }
      if condition.data.Tree? {
        NormalizeDomain(condition.data.value, true);
        if "data" in event.fields {
          NormalizePreservesMatching(scalar, condition.data.value, true, event.fields["data"]);
        }
      }
    }
  }

  /** Exactly which structured conditions are accepted. */
  lemma {:induction false} DocumentDomain(condition: Condition)
    requires condition.rawJson.Absent?
    ensures Document(condition).Some? <==>
              && (condition.eventTypes != [] || condition.data.Tree?)
              && (forall i :: 0 <= i < |condition.eventTypes| ==> Strings.TrimSpace(condition.eventTypes[i]) != "")
              && !condition.data.Invalid?
              && (condition.data.Tree? ==> Clean(condition.data.value) && CollapsesToObject(condition.data.value))
  {
    if condition.data.Tree? {
      NormalizeDomain(condition.data.value, true);
      if condition.data.value.Array? && |condition.data.value.items| == 1 {
        NormalizeDomain(condition.data.value.items[0], false);
      }
    }
  }

  /** An object, or an array whose only item is one: the data of a structured condition is
      checked to be an object after rewriting, not before. */
  predicate CollapsesToObject(value: Json) {
    value.Object? || (value.Array? && |value.items| == 1 && value.items[0].Object?)
  }
}
