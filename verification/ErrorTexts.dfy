/** The error-text normaliser: what it removes, that it stops, and that its output does not
    depend on the volatile parts of a message. */
module ErrorTexts {
  import opened Strings

  // ---------------------------------------------------------------- removing a field

  /** substringAfterCaseInsensitive. */
  function SubstringAfter(value: string, marker: string): string {
    var index := Index(ToLower(value), ToLower(marker));
    if index < 0 then "" else value[index + |marker|..]
  }

  const DELIMITERS: seq<string> := [". ", "; ", ", "]

  /** How much of the text after a marker belongs to its field: up to and including the first
      occurrence of the first delimiter, in this order, that occurs at all. */
  function FieldLength(remaining: string, delimiters: seq<string>): (n: nat)
    ensures n <= |remaining|
  {
    if delimiters == [] then |remaining|
    else
      var index := Index(remaining, delimiters[0]);
      if index >= 0 then index + |delimiters[0]| else FieldLength(remaining, delimiters[1..])
  }

  /** The marker and what follows it are the end of the value. */
  lemma {:induction false} SubstringAfterLength(value: string, marker: string)
    ensures SubstringAfter(value, marker) != "" ==> |value| - |SubstringAfter(value, marker)| - |marker| >= 0
  {
  }

  /** The text without its part from position p up to position e. */
  function Without(s: string, p: nat, e: nat): string
    requires p <= e <= |s|
  {
    s[..p] + s[e..]
  }

  /** One round of the loop: cut out the first marker and its field, and trim. */
  function Cut(value: string, marker: string): (r: string)
    requires marker != "" && SubstringAfter(value, marker) != ""
    ensures |r| < |value|
  {
    var remaining := SubstringAfter(value, marker);
    var start := |value| - |remaining| - |marker|;
    TrimSpace(Without(value, start, start + |marker| + FieldLength(remaining, DELIMITERS)))
  }

  /** removeInlineOCIErrorField. */
  function RemoveField(value: string, marker: string): string
    requires marker != ""
    decreases |value|
  {
    if SubstringAfter(value, marker) == "" then value else RemoveField(Cut(value, marker), marker)
  }

  /** The delimiters are tried in order; the first one that occurs ends the field. */
  method FieldEnd(remaining: string, delimiters: seq<string>) returns (n: nat)
    ensures n == FieldLength(remaining, delimiters)
  {
    assert delimiters[0..] == delimiters;
    for i := 0 to |delimiters|
      invariant FieldLength(remaining, delimiters) == FieldLength(remaining, delimiters[i..])
    {
      assert delimiters[i..][1..] == delimiters[i + 1..];
      var index := Index(remaining, delimiters[i]);
      if index >= 0 {
        return index + |delimiters[i]|;
      }
    }
    return |remaining|;
  }

  method RemoveInlineOCIErrorField(input: string, marker: string) returns (value: string)
    requires marker != ""
    ensures value == RemoveField(input, marker)
    ensures SubstringAfter(value, marker) == ""
  {
    hide DELIMITERS, SubstringAfter, TrimSpace, FieldLength;
    value := input;
    var remaining := SubstringAfter(value, marker);
    while remaining != ""
      invariant remaining == SubstringAfter(value, marker)
      invariant RemoveField(value, marker) == RemoveField(input, marker)
      decreases |value|
    {
      SubstringAfterLength(value, marker);
      var start := |value| - |remaining| - |marker|;
      var length := FieldEnd(remaining, DELIMITERS);
      var end := start + |marker| + length;
      ghost var cut := Cut(value, marker);
      value := TrimSpace(value[..start] + value[end..]);
      assert value == cut;
      remaining := SubstringAfter(value, marker);
    }
  }

  // ---------------------------------------------------------------- occurrences

  /** The marker stands at position p, whatever the case of its letters. */
  predicate MarkerAt(value: string, p: int, marker: string) {
    0 <= p && p + |marker| <= |value| && forall t :: 0 <= t < |marker| ==> LowerChar(value[p + t]) == LowerChar(marker[t])
  }

  lemma {:induction false} OccursIsMarkerAt(value: string, p: int, marker: string)
    ensures Occurs(ToLower(value), p, ToLower(marker)) <==> MarkerAt(value, p, marker)
  {
    var v, m := ToLower(value), ToLower(marker);
    if MarkerAt(value, p, marker) {
      assert v[p..p + |m|] == m;
    }
    if Occurs(v, p, m) {
      forall t | 0 <= t < |marker| ensures LowerChar(value[p + t]) == LowerChar(marker[t]) {
        assert v[p..p + |m|][t] == m[t];
      }
    }
  }

  /** The first position of a marker, or -1. */
  function FirstMarker(value: string, marker: string): int { Index(ToLower(value), ToLower(marker)) }

  lemma {:induction false} FirstMarkerIsFirst(value: string, marker: string)
    ensures FirstMarker(value, marker) >= 0 ==> MarkerAt(value, FirstMarker(value, marker), marker)
    ensures forall q :: MarkerAt(value, q, marker) ==> 0 <= FirstMarker(value, marker) <= q
  {
    forall q ensures Occurs(ToLower(value), q, ToLower(marker)) <==> MarkerAt(value, q, marker) {
      OccursIsMarkerAt(value, q, marker);
    }
  }

  lemma {:induction false} AfterFirstMarker(value: string, marker: string)
    ensures FirstMarker(value, marker) >= 0 ==> FirstMarker(value, marker) + |marker| <= |value|
    ensures SubstringAfter(value, marker) ==
              if FirstMarker(value, marker) < 0 then "" else value[FirstMarker(value, marker) + |marker|..]
  {
  }

  /** What is left has no text after a marker: an occurrence, if any, ends the text. */
  lemma {:induction false} NothingAfterMarker(value: string, marker: string, q: int)
    requires marker != "" && MarkerAt(RemoveField(value, marker), q, marker)
    ensures q + |marker| == |RemoveField(value, marker)|
    decreases |value|
  {
    if SubstringAfter(value, marker) == "" {
      FirstMarkerIsFirst(value, marker);
      AfterFirstMarker(value, marker);
    } else {
      NothingAfterMarker(Cut(value, marker), marker, q);
    }
  }

  // ---------------------------------------------------------------- the pipeline

  const MARKERS: seq<string> := [
    "Opc request id:", "Opc-Request-Id:", "opc-request-id:", "opc-request-id=", "request id:", "ociRequestId="]

  function RemoveFields(line: string, markers: seq<string>): string
    requires forall i :: 0 <= i < |markers| ==> markers[i] != ""
    decreases |markers|
  {
    if markers == [] then line else RemoveFields(RemoveField(line, markers[0]), markers[1..])
  }

  const VOLATILE_PREFIXES: seq<string> := [
    "operation name:", "timestamp:", "client version:", "request endpoint:",
    "troubleshooting tips:", "to get more info", "if you are unable"]

  predicate IsVolatile(line: string) {
    exists i :: 0 <= i < |VOLATILE_PREFIXES| && HasPrefix(ToLower(line), VOLATILE_PREFIXES[i])
  }

  /** Lines the normaliser drops. */
  predicate Dropped(line: string) { TrimSpace(line) == "" || IsVolatile(TrimSpace(line)) }

  function SanitizeLine(line: string): string { TrimSpace(RemoveFields(TrimSpace(line), MARKERS)) }

  function KeptLines(lines: seq<string>): seq<string> {
    if lines == [] then []
    else
      var n := |lines| - 1;
      KeptLines(lines[..n]) + (if Dropped(lines[n]) || SanitizeLine(lines[n]) == "" then [] else [SanitizeLine(lines[n])])
  }

  function Lines(value: string): seq<string> { Split(ReplaceCRLF(value), '\n') }

  /** sanitizeOCIErrorText. */
  function Sanitize(value: string): string {
    JoinWithSpace(Fields(JoinWithSpace(KeptLines(Lines(value)))))
  }

  method IsVolatileOCIErrorLine(line: string) returns (volatile: bool)
    ensures volatile == IsVolatile(line)
  {
    var lower := ToLower(line);
    for i := 0 to |VOLATILE_PREFIXES|
      invariant forall k :: 0 <= k < i ==> !HasPrefix(lower, VOLATILE_PREFIXES[k])
    {
      if HasPrefix(lower, VOLATILE_PREFIXES[i]) {
        return true;
      }
    }
    return false;
  }

  method RemoveInlineFields(input: string, markers: seq<string>) returns (line: string)
    requires forall i :: 0 <= i < |markers| ==> markers[i] != ""
    ensures line == RemoveFields(input, markers)
  {
    line := input;
    assert markers[0..] == markers;
    for i := 0 to |markers|
      invariant RemoveFields(input, markers) == RemoveFields(line, markers[i..])
    {
      assert markers[i..][1..] == markers[i + 1..];
      line := RemoveInlineOCIErrorField(line, markers[i]);
    }
  }

  method SanitizeOCIErrorText(value: string) returns (text: string)
    ensures text == Sanitize(value)
  {
    hide IsVolatile, RemoveFields;
    var lines := Lines(value);
    var kept: seq<string> := [];
    for i := 0 to |lines|
      invariant kept == KeptLines(lines[..i])
    {
      assert lines[..i + 1][..i] == lines[..i];
      var line := TrimSpace(lines[i]);
      var volatile := IsVolatileOCIErrorLine(line);
      if line != "" && !volatile {
        line := RemoveInlineFields(line, MARKERS);
        line := TrimSpace(line);
        if line != "" {
          kept := kept + [line];
        }
      }
    }
    assert lines[..|lines|] == lines;
    text := JoinWithSpace(Fields(JoinWithSpace(kept)));
  }
}
