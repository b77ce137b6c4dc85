/** The normalised error text does not depend on request ids or on volatile lines.

    Two lines are related if they differ in one id only and the id belongs to a field: a
    marker stands before it, with no delimiter between.  Cutting any field out of related
    lines leaves equal or related lines; once the field's own marker has been removed they
    are equal.

    What an id must not do is take part in a marker or in a delimiter.  One that stands inside
    the id or reaches into it from the left is excluded as it stands.  To the right the id ends
    where the text does, or at a character that is neither a letter nor a dash, so that no
    marker starts there; and neither a marker nor a delimiter may run from the id over that
    character, since a cut further right could complete it.

    The marker that is removed last needs no such care.  A field that another marker opens has
    gone when its turn comes, and in a field of its own it is first met where the field opens. */
module RequestIds {
  import opened Strings
  import opened ErrorTexts

  predicate IsPunct(c: char) { c == '.' || c == ';' || c == ',' }

  predicate NoPunct(s: string) { forall i :: 0 <= i < |s| ==> !IsPunct(s[i]) }

  /** No delimiter occurs in the text. */
  predicate NoDelimiter(s: string) { forall i :: 0 < i < |s| ==> !(IsPunct(s[i - 1]) && s[i] == ' ') }

  /** An id has no white space, hence no delimiter. */
  predicate SafeId(id: string) { id != "" && forall i :: 0 <= i < |id| ==> !IsSpace(id[i]) }

  /** The markers but the last. */
  const EARLY: seq<string> := ["Opc request id:", "Opc-Request-Id:", "opc-request-id:", "opc-request-id=", "request id:"]

  /** No occurrence of the marker ends inside the id. */
  ghost predicate Outside(head: string, id: string, marker: string) {
    forall p :: |head| < p + |marker| <= |head| + |id| ==> !MarkerAt(head + id, p, marker)
  }

  ghost predicate NoneInside(head: string, id: string) { forall marker :: marker in EARLY ==> Outside(head, id, marker) }

  /** The text ends in a word, whatever the case of its letters. */
  predicate EndsIn(text: string, word: string) { MarkerAt(text, |text| - |word|, word) }

  predicate IsWordChar(c: char) { c == '-' || 'A' <= c <= 'Z' || 'a' <= c <= 'z' }

  /** An id ends where the text does, or at a character that is neither a letter nor a dash. */
  predicate EndsId(tail: string) { tail != "" ==> !IsWordChar(tail[0]) }

  /** The text ends in the beginning of the marker, and the character is the next one. */
  ghost predicate RunsOn(text: string, c: char, marker: string) {
    exists t :: 0 < t < |marker| && EndsIn(text, marker[..t]) && LowerChar(c) == LowerChar(marker[t])
  }

  /** What may follow a text: nothing, or something that starts with a character over which
      neither a marker nor a delimiter runs. */
  ghost predicate SafeTail(text: string, tail: string) {
    EndsId(tail) &&
    (tail != "" ==>
       && text != "" && !(IsPunct(text[|text| - 1]) && tail[0] == ' ')
       && forall marker :: marker in EARLY ==> !RunsOn(text, tail[0], marker))
  }

  /** The id takes part in no marker and in no delimiter. */
  ghost predicate Fits(head: string, id: string, tail: string) {
    SafeId(id) && NoneInside(head, id) && SafeTail(head + id, tail)
  }

  /** What all markers have in common: how they begin, and where ':' and '=' stand. */
  predicate GoodMarker(marker: string) {
    && marker != "" && IsMark(marker[|marker| - 1])
    && (forall t :: 0 <= t < |marker| - 1 ==> !IsMark(marker[t]))
    && IsWordChar(marker[0]) && NoPunct(marker)
  }

  predicate IsMark(c: char) { c == ':' || c == '=' }

  /** head ends in a field opened by the marker at position j and not closed. */
  predicate OpensField(head: string, j: int, marker: string) {
    MarkerAt(head, j, marker) && NoDelimiter(head[j..])
  }

  ghost predicate Related(x: string, y: string, marker: string) {
    exists head, j, id, id', tail ::
      && x == head + id + tail && y == head + id' + tail
      && OpensField(head, j, marker) && Fits(head, id, tail) && Fits(head, id', tail)
  }

  // ---------------------------------------------------------------- where things can occur

  lemma {:induction false} MarkerInSlice(a: string, p: int, b: string, q: int, marker: string)
    requires 0 <= p && p + |marker| <= |a| && 0 <= q && q + |marker| <= |b|
    requires a[p..p + |marker|] == b[q..q + |marker|]
    ensures MarkerAt(a, p, marker) <==> MarkerAt(b, q, marker)
  {
    forall t | 0 <= t < |marker|
      ensures LowerChar(a[p + t]) == LowerChar(marker[t]) <==> LowerChar(b[q + t]) == LowerChar(marker[t])
    {
      assert a[p..p + |marker|][t] == b[q..q + |marker|][t];
    }
  }

  /** A marker starts with a letter, and ends with ':' or '='. */
  lemma {:induction false} StartsAsWord(x: string, p: int, word: string)
    requires MarkerAt(x, p, word) && word != "" && IsWordChar(word[0])
    ensures IsWordChar(x[p]) && !IsSpace(x[p])
  {
    assert LowerChar(x[p + 0]) == LowerChar(word[0]);
  }

  lemma {:induction false} EndsInMark(x: string, p: int, marker: string)
    requires MarkerAt(x, p, marker) && GoodMarker(marker)
    ensures IsMark(x[p + |marker| - 1])
  {
    assert LowerChar(x[p + (|marker| - 1)]) == LowerChar(marker[|marker| - 1]);
  }

  /** No beginning of a marker runs over a ':' or a '='. */
  lemma {:induction false} NotOverMark(x: string, k: int, marker: string, t: nat, p: int)
    requires GoodMarker(marker) && t <= |marker| && p <= k < p + t - 1 && 0 <= k < |x| && IsMark(x[k])
    ensures !MarkerAt(x, p, marker[..t])
  {
    if 0 <= p && p + t <= |x| {
      assert !IsMark(marker[k - p]) && IsMark(x[p + (k - p)]);
      assert LowerChar(x[p + (k - p)]) != LowerChar(marker[..t][k - p]);
    }
  }

  /** A marker that runs over the end of a text. */
  lemma {:induction false} RunsOver(text: string, tail: string, marker: string, p: int)
    requires MarkerAt(text + tail, p, marker) && p < |text| < p + |marker|
    ensures RunsOn(text, tail[0], marker)
  {
    var x, t := text + tail, |text| - p;
    assert LowerChar(x[p + t]) == LowerChar(marker[t]);
    forall s | 0 <= s < t ensures LowerChar(text[p + s]) == LowerChar(marker[..t][s]) {
      assert LowerChar(x[p + s]) == LowerChar(marker[s]);
    }
    assert EndsIn(text, marker[..t]);
  }

  /** No marker overlaps the id. */
  lemma {:induction false} NoMarkerAcross(head: string, id: string, tail: string, marker: string, p: int)
    requires SafeId(id) && Outside(head, id, marker) && SafeTail(head + id, tail) && marker in EARLY
    requires p < |head| + |id| && |head| < p + |marker|
    ensures !MarkerAt(head + id + tail, p, marker)
  {
    var x, n, end := head + id + tail, |marker|, |head| + |id|;
    if MarkerAt(x, p, marker) {
      if p + n <= end {
        assert x[p..p + n] == (head + id)[p..p + n];
        MarkerInSlice(x, p, head + id, p, marker);
      } else {
        RunsOver(head + id, tail, marker, p);
      }
      assert false;
    }
  }

  /** Occurrences of a marker lie before the id or after it. */
  lemma {:induction false} MarkerPlaces(head: string, id: string, tail: string, marker: string, p: int)
    requires SafeId(id) && Outside(head, id, marker) && SafeTail(head + id, tail) && marker in EARLY
    ensures MarkerAt(head + id + tail, p, marker) <==>
              MarkerAt(head, p, marker) || MarkerAt(tail, p - |head| - |id|, marker)
  {
    var x, n := head + id + tail, |marker|;
    if 0 <= p && p + n <= |x| {
      if p + n <= |head| {
        assert x[p..p + n] == head[p..p + n];
        MarkerInSlice(x, p, head, p, marker);
      } else if p < |head| + |id| {
        NoMarkerAcross(head, id, tail, marker, p);
      } else {
        assert x[p..p + n] == tail[p - |head| - |id|..p - |head| - |id| + n];
        MarkerInSlice(x, p, tail, p - |head| - |id|, marker);
      }
    }
  }

  /** A marker in the head is met first, whatever follows. */
  lemma {:induction false} FirstMarkerInHead(head: string, rest: string, marker: string)
    requires FirstMarker(head, marker) >= 0
    ensures FirstMarker(head + rest, marker) == FirstMarker(head, marker)
  {
    hide FirstMarker;
    var x, n := head + rest, |marker|;
    FirstMarkerIsFirst(head, marker);
    FirstMarkerIsFirst(x, marker);
    var inHead, inX := FirstMarker(head, marker), FirstMarker(x, marker);
    assert x[inHead..inHead + n] == head[inHead..inHead + n];
    MarkerInSlice(x, inHead, head, inHead, marker);
    assert x[inX..inX + n] == head[inX..inX + n];
    MarkerInSlice(x, inX, head, inX, marker);
  }

  lemma {:induction false} FirstMarkerInTail(head: string, id: string, tail: string, marker: string)
    requires SafeId(id) && Outside(head, id, marker) && SafeTail(head + id, tail) && marker in EARLY && FirstMarker(head, marker) < 0
    ensures var inTail := FirstMarker(tail, marker);
            if inTail >= 0 then FirstMarker(head + id + tail, marker) == |head| + |id| + inTail
            else FirstMarker(head + id + tail, marker) < 0
  {
    hide MarkerAt, FirstMarker, SafeId, Outside, SafeTail, EARLY;
    var x := head + id + tail;
    FirstMarkerIsFirst(head, marker);
    FirstMarkerIsFirst(tail, marker);
    FirstMarkerIsFirst(x, marker);
    var inTail, inX := FirstMarker(tail, marker), FirstMarker(x, marker);
    MarkerPlaces(head, id, tail, marker, inX);
    MarkerPlaces(head, id, tail, marker, |head| + |id| + inTail);
    MarkerBounds(tail, marker);
    MarkerBounds(x, marker);
  }

  lemma {:induction false} MarkerBounds(value: string, marker: string)
    ensures forall q :: MarkerAt(value, q, marker) ==> 0 <= q && q + |marker| <= |value|
  {
  }

  predicate IsDelimiter(delimiter: string) { |delimiter| == 2 && IsPunct(delimiter[0]) && delimiter[1] == ' ' }

  /** No delimiter runs from the id into what follows it. */
  predicate NoDelimiterAcross(id: string, tail: string) {
    id != "" && (tail == "" || tail[0] != ' ' || !IsPunct(id[|id| - 1]))
  }

  lemma {:induction false} SafeTailNoDelimiter(head: string, id: string, tail: string)
    requires SafeId(id) && SafeTail(head + id, tail)
    ensures NoDelimiterAcross(id, tail)
  {
  }

  lemma {:induction false} DelimiterPlaces(head: string, id: string, tail: string, delimiter: string, p: int)
    requires SafeId(id) && NoDelimiterAcross(id, tail) && IsDelimiter(delimiter)
    ensures Occurs(head + id + tail, p, delimiter) <==>
              Occurs(head, p, delimiter) || Occurs(tail, p - |head| - |id|, delimiter)
  {
    var x := head + id + tail;
    forall s: string, q | 0 <= q && q + 2 <= |s|
      ensures Occurs(s, q, delimiter) <==> s[q] == delimiter[0] && s[q + 1] == ' '
    {
      assert s[q..q + 2] == [s[q], s[q + 1]];
    }
    assert IsSpace(' ');
  }

  lemma {:induction false} DelimiterIndexSplit(head: string, id: string, tail: string, delimiter: string)
    requires SafeId(id) && NoDelimiterAcross(id, tail) && IsDelimiter(delimiter)
    ensures var inHead, inTail := Index(head, delimiter), Index(tail, delimiter);
            Index(head + id + tail, delimiter) ==
              if inHead >= 0 then inHead else if inTail >= 0 then |head| + |id| + inTail else -1
  {
    hide Index;
    var x := head + id + tail;
    var inHead, inTail, inX := Index(head, delimiter), Index(tail, delimiter), Index(x, delimiter);
    DelimiterPlaces(head, id, tail, delimiter, inX);
    DelimiterPlaces(head, id, tail, delimiter, inHead);
    DelimiterPlaces(head, id, tail, delimiter, |head| + |id| + inTail);
  }

  /** Where the field that runs through an id ends: before the id, after it, or nowhere. */
  datatype Spot = InHead(n: nat) | InTail(n: nat) | Nowhere

  function FieldSpot(head: string, tail: string, delimiters: seq<string>): Spot {
    if delimiters == [] then Nowhere
    else
      var inHead, inTail := Index(head, delimiters[0]), Index(tail, delimiters[0]);
      if inHead >= 0 then InHead(inHead + |delimiters[0]|)
      else if inTail >= 0 then InTail(inTail + |delimiters[0]|)
      else FieldSpot(head, tail, delimiters[1..])
  }

  lemma {:induction false} FieldLengthSplit(head: string, id: string, tail: string, delimiters: seq<string>)
    requires SafeId(id) && NoDelimiterAcross(id, tail) && forall i :: 0 <= i < |delimiters| ==> IsDelimiter(delimiters[i])
    ensures FieldLength(head + id + tail, delimiters) ==
              match FieldSpot(head, tail, delimiters)
              case InHead(n) => n
              case InTail(n) => |head| + |id| + n
              case Nowhere => |head + id + tail|
    ensures match FieldSpot(head, tail, delimiters)
            case InHead(n) => 2 <= n <= |head| && IsPunct(head[n - 2]) && head[n - 1] == ' '
            case InTail(n) => n <= |tail|
            case Nowhere => true
  {
    if delimiters != [] {
      DelimiterIndexSplit(head, id, tail, delimiters[0]);
      var inHead := Index(head, delimiters[0]);
      if inHead >= 0 {
        assert head[inHead..inHead + 2] == delimiters[0];
        assert head[inHead..inHead + 2][0] == head[inHead] && head[inHead..inHead + 2][1] == head[inHead + 1];
      }
      FieldLengthSplit(head, id, tail, delimiters[1..]);
    }
  }

  // ---------------------------------------------------------------- trimming around an id

  lemma {:induction false} TrimLeftStops(head: string, rest: string)
    requires rest != "" && !IsSpace(rest[0])
    ensures TrimLeft(head + rest) == TrimLeft(head) + rest
  {
    if head == "" {
      assert head + rest == rest;
    } else {
      assert (head + rest)[1..] == head[1..] + rest;
      if IsSpace(head[0]) {
        TrimLeftStops(head[1..], rest);
      }
    }
  }

  lemma {:induction false} TrimRightStops(front: string, tail: string)
    requires front != "" && !IsSpace(front[|front| - 1])
    ensures TrimRight(front + tail) == front + TrimRight(tail)
  {
    if tail == "" {
      assert front + tail == front;
    } else {
      assert (front + tail)[..|front + tail| - 1] == front + tail[..|tail| - 1];
      if IsSpace(tail[|tail| - 1]) {
        TrimRightStops(front, tail[..|tail| - 1]);
      }
    }
  }

  lemma {:induction false} TrimAroundId(head: string, id: string, tail: string)
    requires SafeId(id)
    ensures TrimSpace(head + id + tail) == TrimLeft(head) + id + TrimRight(tail)
  {
    assert head + id + tail == head + (id + tail);
    TrimLeftStops(head, id + tail);
    assert TrimLeft(head) + (id + tail) == (TrimLeft(head) + id) + tail;
    TrimRightStops(TrimLeft(head) + id, tail);
  }

  lemma {:induction false} TrimRightSafe(text: string, tail: string)
    requires SafeTail(text, tail)
    ensures SafeTail(text, TrimRight(tail))
  {
    hide EARLY, RunsOn;
  }

  // ---------------------------------------------------------------- shortening the head

  /** The marker that opens the id's field stays where a cut ends before it. */
  lemma {:induction false} FieldSurvives(head: string, j: int, marker: string, p: nat, e: nat)
    requires OpensField(head, j, marker) && p <= e <= j
    ensures OpensField(Without(head, p, e), p + (j - e), marker)
  {
    var cut, j' := Without(head, p, e), p + (j - e);
    assert cut[j'..] == head[j..];
    assert cut[j'..j' + |marker|] == head[j..j + |marker|];
    MarkerInSlice(cut, j', head, j, marker);
  }

  /** Nothing of a marker reaches back from the id over a cut: it would run over the last
      character of the opening marker. */
  lemma {:induction false} StemSurvives(
      head: string, j: int, opening: string, p: nat, e: nat, id: string, marker: string, t: nat, q: int)
    requires OpensField(head, j, opening) && GoodMarker(opening) && p <= e <= j
    requires GoodMarker(marker) && t <= |marker| && |head| - (e - p) < q + t <= |head| - (e - p) + |id|
    requires MarkerAt(Without(head, p, e) + id, q, marker[..t])
    ensures MarkerAt(head + id, q + (e - p), marker[..t])
  {
    var cut, last := Without(head, p, e), p + (j - e) + |opening| - 1;
    if q >= p {
      assert (cut + id)[q..q + t] == (head + id)[q + (e - p)..q + (e - p) + t];
      MarkerInSlice(cut + id, q, head + id, q + (e - p), marker[..t]);
    } else {
      EndsInMark(head, j, opening);
      assert (cut + id)[last] == head[j + (|opening| - 1)];
      NotOverMark(cut + id, last, marker, t, q);
    }
  }

  /** A shortened head lets no marker into the id. */
  lemma {:induction false} OutsideSurvives(head: string, j: int, opening: string, p: nat, e: nat, id: string, marker: string)
    requires OpensField(head, j, opening) && GoodMarker(opening) && p <= e <= j
    requires Outside(head, id, marker) && GoodMarker(marker)
    ensures Outside(Without(head, p, e), id, marker)
  {
    var cut := Without(head, p, e);
    hide OpensField, GoodMarker;
    assert |cut| == |head| - (e - p) && marker[..|marker|] == marker;
    forall q | |cut| < q + |marker| <= |cut| + |id| ensures !MarkerAt(cut + id, q, marker) {
      if MarkerAt(cut + id, q, marker) {
        StemSurvives(head, j, opening, p, e, id, marker, |marker|, q);
        assert false;
      }
    }
  }

  /** Nor does it start one that runs on. */
  lemma {:induction false} RunsOnSurvives(head: string, j: int, opening: string, p: nat, e: nat, id: string, c: char, marker: string)
    requires OpensField(head, j, opening) && GoodMarker(opening) && p <= e <= j && id != "" && GoodMarker(marker)
    requires RunsOn(Without(head, p, e) + id, c, marker)
    ensures RunsOn(head + id, c, marker)
  {
    var cut := Without(head, p, e);
    var t :| 0 < t < |marker| && EndsIn(cut + id, marker[..t]) && LowerChar(c) == LowerChar(marker[t]);
    hide OpensField, GoodMarker;
    StemSurvives(head, j, opening, p, e, id, marker, t, |cut + id| - t);
    assert EndsIn(head + id, marker[..t]);
  }

  lemma {:induction false} SafeTailSurvives(head: string, j: int, opening: string, p: nat, e: nat, id: string, tail: string)
    requires OpensField(head, j, opening) && GoodMarker(opening) && p <= e <= j && id != "" && SafeTail(head + id, tail)
    ensures SafeTail(Without(head, p, e) + id, tail)
  {
    var cut := Without(head, p, e);
    hide OpensField, GoodMarker, RunsOn, EARLY;
    MarkersAreGood();
    if tail != "" {
      assert (cut + id)[|cut + id| - 1] == id[|id| - 1] == (head + id)[|head + id| - 1];
      forall marker | marker in EARLY ensures !RunsOn(cut + id, tail[0], marker) {
        if RunsOn(cut + id, tail[0], marker) {
          RunsOnSurvives(head, j, opening, p, e, id, tail[0], marker);
        }
      }
    }
  }

  lemma {:induction false} FitsSurvives(head: string, j: int, opening: string, p: nat, e: nat, id: string, tail: string)
    requires OpensField(head, j, opening) && GoodMarker(opening) && p <= e <= j && Fits(head, id, tail)
    ensures Fits(Without(head, p, e), id, tail)
  {
    var cut := Without(head, p, e);
    hide SafeTail, Outside, GoodMarker, EARLY, OpensField;
    forall marker | marker in EARLY ensures Outside(cut, id, marker) {
      MarkersAreGood();
      OutsideSurvives(head, j, opening, p, e, id, marker);
    }
    SafeTailSurvives(head, j, opening, p, e, id, tail);
  }

  /** Trimming is a cut that ends before the opening marker. */
  lemma {:induction false} TrimLeftIsCut(head: string, j: int, marker: string)
    requires OpensField(head, j, marker) && GoodMarker(marker)
    ensures |head| - |TrimLeft(head)| <= j
    ensures TrimLeft(head) == Without(head, 0, |head| - |TrimLeft(head)|)
  {
    StartsAsWord(head, j, marker);
    hide GoodMarker, IsSpace;
    TrimLeftStopsAt(head, j);
  }

  lemma {:induction false} TrimLeftStopsAt(s: string, i: nat)
    requires i < |s| && !IsSpace(s[i])
    ensures |s| - |TrimLeft(s)| <= i && TrimLeft(s) == s[|s| - |TrimLeft(s)|..]
  {
    if IsSpace(s[0]) {
      TrimLeftStopsAt(s[1..], i - 1);
    }
  }

  /** Related lines stay related when they are put together from a head, an id and a tail and trimmed. */
  lemma {:induction false} TrimmedRelated(head: string, j: int, id: string, id': string, tail: string, marker: string)
    requires OpensField(head, j, marker) && GoodMarker(marker) && Fits(head, id, tail) && Fits(head, id', tail)
    ensures Related(TrimSpace(head + id + tail), TrimSpace(head + id' + tail), marker)
  {
    hide NoneInside, SafeTail, GoodMarker, OpensField, Without, TrimLeft, TrimRight, TrimSpace, SafeId;
    TrimAroundId(head, id, tail);
    TrimAroundId(head, id', tail);
    TrimLeftIsCut(head, j, marker);
    var k := |head| - |TrimLeft(head)|;
    FieldSurvives(head, j, marker, 0, k);
    FitsSurvives(head, j, marker, 0, k, id, tail);
    FitsSurvives(head, j, marker, 0, k, id', tail);
    TrimRightSafe(TrimLeft(head) + id, tail);
    TrimRightSafe(TrimLeft(head) + id', tail);
  }

  // ---------------------------------------------------------------- one cut

  /** The text after the marker is what follows position p + |cut| of the head. */
  predicate AfterIs(head: string, id: string, tail: string, cut: string, p: int) {
    0 <= p && p + |cut| <= |head| && SubstringAfter(head + id + tail, cut) == head[p + |cut|..] + id + tail
  }

  /** The text after a marker whose first occurrence lies before the id. */
  lemma {:induction false} AfterInHead(head: string, id: string, tail: string, cut: string)
    requires FirstMarker(head, cut) >= 0
    ensures AfterIs(head, id, tail, cut, FirstMarker(head, cut))
  {
    hide FirstMarker, SubstringAfter;
    assert head + id + tail == head + (id + tail);
    FirstMarkerInHead(head, id + tail, cut);
    AfterFirstMarker(head + id + tail, cut);
    FirstMarkerIsFirst(head, cut);
    SuffixOfHead(head, id, tail, FirstMarker(head, cut) + |cut|);
  }

  lemma {:induction false} SuffixOfHead(head: string, id: string, tail: string, i: nat)
    requires i <= |head|
    ensures (head + id + tail)[i..] == head[i..] + id + tail
  {
  }

  /** What a cut makes of a line whose first marker lies before the id. */
  function CutHead(head: string, id: string, tail: string, p: nat, after: nat): string
    requires p <= after <= |head|
  {
    match FieldSpot(head[after..], tail, DELIMITERS)
    case InHead(n) => if after + n <= |head| then TrimSpace(Without(head, p, after + n) + id + tail) else ""
    case InTail(n) => if n <= |tail| then TrimSpace(head[..p] + tail[n..]) else ""
    case Nowhere => TrimSpace(head[..p])
  }

  /** The cut of a line whose first marker stands at position p, before the id. */
  predicate CutIsHead(head: string, id: string, tail: string, cut: string, p: int) {
    && 0 <= p && p + |cut| <= |head| && cut != "" && SubstringAfter(head + id + tail, cut) != ""
    && Cut(head + id + tail, cut) == CutHead(head, id, tail, p, p + |cut|)
  }

  lemma {:induction false} CutInHead(head: string, id: string, tail: string, cut: string, p: int)
    requires SafeId(id) && NoDelimiterAcross(id, tail) && cut != "" && AfterIs(head, id, tail, cut, p)
    ensures CutIsHead(head, id, tail, cut, p)
  {
    var rest := SubstringAfter(head + id + tail, cut);
    assert rest != "" && p == |head + id + tail| - |rest| - |cut|;
    assert rest == head[p + |cut|..] + id + tail;
    hide *;
    var n := FieldLength(rest, DELIMITERS);
    CutIs(head + id + tail, cut, rest, p, n);
    CutHeadIs(head, id, tail, p, p + |cut|, n);
    CutIsHeadIf(head, id, tail, cut, p);
  }

  lemma {:induction false} CutIsHeadIf(head: string, id: string, tail: string, cut: string, p: int)
    requires 0 <= p && p + |cut| <= |head| && cut != "" && SubstringAfter(head + id + tail, cut) != ""
    requires Cut(head + id + tail, cut) == CutHead(head, id, tail, p, p + |cut|)
    ensures CutIsHead(head, id, tail, cut, p)
  {
    hide Cut, CutHead, SubstringAfter;
  }

  lemma {:induction false} CutHeadIs(head: string, id: string, tail: string, p: nat, after: nat, n: nat)
    requires SafeId(id) && NoDelimiterAcross(id, tail) && p <= after <= |head| && n == FieldLength(head[after..] + id + tail, DELIMITERS)
    ensures after + n <= |head + id + tail|
    ensures CutHead(head, id, tail, p, after) == TrimSpace(Without(head + id + tail, p, after + n))
  {
    hide FieldLength, FieldSpot, TrimSpace, DELIMITERS, SafeId, NoDelimiterAcross, IsDelimiter, Without;
    DelimitersAreDelimiters();
    FieldLengthSplit(head[after..], id, tail, DELIMITERS);
    match FieldSpot(head[after..], tail, DELIMITERS)
    case InHead(m) => SpliceNear(head, id, tail, p, after + n);
    case InTail(m) => SpliceFar(head, id, tail, p, after + n, m);
    case Nowhere => SpliceAll(head, id, tail, p, after + n);
  }

  /** The cut, given the place of the marker, the text after it and the length of its field. */
  lemma {:induction false} CutIs(value: string, cut: string, rest: string, p: int, n: int)
    requires cut != "" && rest == SubstringAfter(value, cut) != "" && n == FieldLength(rest, DELIMITERS)
    requires p == |value| - |rest| - |cut|
    ensures p >= 0 && 0 <= n <= |rest| && Cut(value, cut) == TrimSpace(Without(value, p, p + |cut| + n))
  {
    hide SubstringAfter, FieldLength, DELIMITERS, TrimSpace, Index;
    SubstringAfterLength(value, cut);
  }

  lemma {:induction false} SpliceNear(head: string, id: string, tail: string, p: nat, end: nat)
    requires p <= end <= |head|
    ensures Without(head + id + tail, p, end) == Without(head, p, end) + id + tail
  {
  }

  lemma {:induction false} SpliceFar(head: string, id: string, tail: string, p: nat, end: nat, k: nat)
    requires p <= |head| && k <= |tail| && end == |head| + |id| + k
    ensures Without(head + id + tail, p, end) == head[..p] + tail[k..]
  {
  }

  lemma {:induction false} SpliceAll(head: string, id: string, tail: string, p: nat, end: nat)
    requires p <= |head| && end == |head + id + tail|
    ensures Without(head + id + tail, p, end) == head[..p]
  {
  }

  /** The text after a marker that does not occur before the id. */
  lemma {:induction false} AfterInTail(head: string, id: string, tail: string, cut: string)
    requires SafeId(id) && Outside(head, id, cut) && SafeTail(head + id, tail) && cut in EARLY && FirstMarker(head, cut) < 0
    ensures var rest := SubstringAfter(tail, cut);
            SubstringAfter(head + id + tail, cut) == rest && (rest != "" ==> |tail| - |rest| - |cut| > 0)
  {
    assert EndsId(tail);
    hide *;
    FirstMarkerInTail(head, id, tail, cut);
    AfterFirstMarker(head + id + tail, cut);
    AfterFirstMarker(tail, cut);
    MarkersAreGood();
    MarkerInTailIsLate(tail, cut);
    if FirstMarker(tail, cut) >= 0 {
      SuffixOfTail(head, id, tail, FirstMarker(tail, cut) + |cut|);
    }
  }

  /** The tail without the first marker in it and the marker's field. */
  function CutTail(tail: string, cut: string): string
    requires SubstringAfter(tail, cut) != ""
  {
    var rest := SubstringAfter(tail, cut);
    var q := |tail| - |rest| - |cut|;
    Without(tail, q, q + |cut| + FieldLength(rest, DELIMITERS))
  }

  /** What a cut makes of a line whose first marker lies after the id. */
  lemma {:induction false} CutInTail(head: string, id: string, tail: string, cut: string)
    requires SafeId(id) && Outside(head, id, cut) && SafeTail(head + id, tail) && cut in EARLY && FirstMarker(head, cut) < 0
    ensures SubstringAfter(head + id + tail, cut) == SubstringAfter(tail, cut)
    ensures SubstringAfter(tail, cut) != "" ==> Cut(head + id + tail, cut) == TrimSpace(head + id + CutTail(tail, cut))
  {
    assert cut != "";
    hide *;
    AfterInTail(head, id, tail, cut);
    if SubstringAfter(tail, cut) != "" {
      CutOfTail(head, id, tail, cut, SubstringAfter(tail, cut));
    }
  }

  lemma {:induction false} CutOfTail(head: string, id: string, tail: string, cut: string, rest: string)
    requires cut != "" && rest == SubstringAfter(tail, cut) == SubstringAfter(head + id + tail, cut) != ""
    requires |tail| - |rest| - |cut| >= 0
    ensures Cut(head + id + tail, cut) == TrimSpace(head + id + CutTail(tail, cut))
  {
    hide SubstringAfter, Cut, Without, FieldLength, TrimSpace, DELIMITERS;
    var n, q := FieldLength(rest, DELIMITERS), |tail| - |rest| - |cut|;
    CutIs(head + id + tail, cut, rest, |head| + |id| + q, n);
    SpliceTail(head, id, tail, q, q + |cut| + n);
  }

  lemma {:induction false} CutTailIsSafe(text: string, tail: string, cut: string)
    requires SafeTail(text, tail) && GoodMarker(cut) && SubstringAfter(tail, cut) != ""
    ensures SafeTail(text, CutTail(tail, cut))
  {
    hide RunsOn, EARLY;
    AfterFirstMarker(tail, cut);
    MarkerInTailIsLate(tail, cut);
  }

  lemma {:induction false} MarkerInTailIsLate(tail: string, marker: string)
    requires EndsId(tail) && GoodMarker(marker)
    ensures FirstMarker(tail, marker) >= 0 ==> FirstMarker(tail, marker) > 0
  {
    FirstMarkerIsFirst(tail, marker);
    if MarkerAt(tail, 0, marker) {
      StartsAsWord(tail, 0, marker);
      assert false;
    }
  }

  lemma {:induction false} SuffixOfTail(head: string, id: string, tail: string, i: nat)
    requires i <= |tail|
    ensures (head + id + tail)[|head| + |id| + i..] == tail[i..]
  {
  }

  lemma {:induction false} SpliceTail(head: string, id: string, tail: string, q: int, end: int)
    requires 0 <= q <= end <= |tail|
    ensures Without(head + id + tail, |head| + |id| + q, |head| + |id| + end) == head + id + Without(tail, q, end)
  {
  }

  /** A cut that ends at a delimiter ends before the field that is still open. */
  lemma {:induction false} CutEndsBeforeField(head: string, j: int, marker: string, e: nat)
    requires OpensField(head, j, marker) && GoodMarker(marker)
    requires 2 <= e <= |head| && IsPunct(head[e - 2]) && head[e - 1] == ' '
    ensures e <= j
  {
    forall i | j < i < |head| ensures !(IsPunct(head[i - 1]) && head[i] == ' ') {
      assert head[j..][i - j - 1] == head[i - 1] && head[j..][i - j] == head[i];
    }
    StartsAsWord(head, j, marker);
    assert head[j] != ' ';
  }

  lemma {:induction false} FirstCutIsHead(head: string, id: string, tail: string, cut: string)
    requires Fits(head, id, tail) && cut != "" && FirstMarker(head, cut) >= 0
    ensures CutIsHead(head, id, tail, cut, FirstMarker(head, cut))
  {
    assert SafeId(id) && SafeTail(head + id, tail);
    hide *;
    SafeTailNoDelimiter(head, id, tail);
    AfterInHead(head, id, tail, cut);
    CutInHead(head, id, tail, cut, FirstMarker(head, cut));
  }

  lemma {:induction false} HeadCutsRelated(head: string, j: int, id: string, id': string, tail: string, marker: string, p: nat, after: nat)
    requires OpensField(head, j, marker) && Fits(head, id, tail) && Fits(head, id', tail) && GoodMarker(marker) && p <= after <= |head|
    ensures var one, two := CutHead(head, id, tail, p, after), CutHead(head, id', tail, p, after);
            one == two || Related(one, two, marker)
  {
    hide FieldSpot, TrimSpace, Related, Fits, GoodMarker, OpensField, DELIMITERS, Without;
    if FieldSpot(head[after..], tail, DELIMITERS).InHead? {
      var n := FieldSpot(head[after..], tail, DELIMITERS).n;
      FieldEndsInHead(head, j, id, tail, marker, after, n);
      ShorterHeadRelated(head, j, id, id', tail, marker, p, after + n);
    }
  }

  lemma {:induction false} FieldEndsInHead(head: string, j: int, id: string, tail: string, marker: string, after: nat, n: nat)
    requires OpensField(head, j, marker) && Fits(head, id, tail) && GoodMarker(marker) && after <= |head|
    requires FieldSpot(head[after..], tail, DELIMITERS) == InHead(n)
    ensures after + n <= j && after + n <= |head|
  {
    assert SafeId(id) && SafeTail(head + id, tail);
    hide FieldSpot, FieldLength, Fits, SafeTail, GoodMarker, OpensField, IsDelimiter, DELIMITERS, NoDelimiterAcross;
    DelimitersAreDelimiters();
    SafeTailNoDelimiter(head, id, tail);
    FieldLengthSplit(head[after..], id, tail, DELIMITERS);
    var e := after + n;
    assert head[after..][n - 2] == head[e - 2] && head[after..][n - 1] == head[e - 1];
    CutEndsBeforeField(head, j, marker, e);
  }

  /** A cut in front of the id. */
  lemma {:induction false} CutRelatedInHead(head: string, j: int, id: string, id': string, tail: string, marker: string, cut: string)
    requires OpensField(head, j, marker) && Fits(head, id, tail) && Fits(head, id', tail)
    requires cut != "" && GoodMarker(marker) && FirstMarker(head, cut) >= 0
    ensures SubstringAfter(head + id + tail, cut) != "" && SubstringAfter(head + id' + tail, cut) != ""
    ensures var one, two := Cut(head + id + tail, cut), Cut(head + id' + tail, cut);
            one == two || Related(one, two, marker)
  {
    hide Fits, OpensField, GoodMarker, FirstMarker, SubstringAfter, Cut, CutHead, Related;
    FirstCutIsHead(head, id, tail, cut);
    FirstCutIsHead(head, id', tail, cut);
    HeadCutsRelated(head, j, id, id', tail, marker, FirstMarker(head, cut), FirstMarker(head, cut) + |cut|);
  }

  lemma {:induction false} ShorterHeadRelated(
      head: string, j: int, id: string, id': string, tail: string, marker: string, p: nat, e: nat)
    requires OpensField(head, j, marker) && GoodMarker(marker) && Fits(head, id, tail) && Fits(head, id', tail) && p <= e <= j
    ensures Related(TrimSpace(Without(head, p, e) + id + tail), TrimSpace(Without(head, p, e) + id' + tail), marker)
  {
    assert j <= |head|;
    hide Fits, GoodMarker, OpensField, Without, TrimSpace, Related;
    FieldSurvives(head, j, marker, p, e);
    FitsSurvives(head, j, marker, p, e, id, tail);
    FitsSurvives(head, j, marker, p, e, id', tail);
    TrimmedRelated(Without(head, p, e), p + (j - e), id, id', tail, marker);
  }

  /** A cut behind the id. */
  lemma {:induction false} CutRelatedInTail(head: string, j: int, id: string, id': string, tail: string, marker: string, cut: string)
    requires OpensField(head, j, marker) && Fits(head, id, tail) && Fits(head, id', tail)
    requires cut in EARLY && GoodMarker(marker) && GoodMarker(cut) && FirstMarker(head, cut) < 0
    ensures var x, y := head + id + tail, head + id' + tail;
            && SubstringAfter(x, cut) == SubstringAfter(y, cut)
            && (SubstringAfter(x, cut) != "" ==> Related(Cut(x, cut), Cut(y, cut), marker))
  {
    assert Outside(head, id, cut) && Outside(head, id', cut);
    hide FirstMarker, SubstringAfter, Cut, CutTail, TrimSpace, Related, SafeId, SafeTail, GoodMarker, OpensField, NoneInside, EARLY, Outside;
    CutInTail(head, id, tail, cut);
    CutInTail(head, id', tail, cut);
    if SubstringAfter(tail, cut) != "" {
      CutTailIsSafe(head + id, tail, cut);
      CutTailIsSafe(head + id', tail, cut);
      TrimmedRelated(head, j, id, id', CutTail(tail, cut), marker);
    }
  }

  lemma {:induction false} CutRelated(x: string, y: string, marker: string, cut: string)
    requires Related(x, y, marker) && GoodMarker(marker) && (cut == marker || cut in EARLY)
    ensures SubstringAfter(x, cut) == "" <==> SubstringAfter(y, cut) == ""
    ensures SubstringAfter(x, cut) != "" ==> Cut(x, cut) == Cut(y, cut) || Related(Cut(x, cut), Cut(y, cut), marker)
  {
    hide FirstMarker, SubstringAfter, Cut;
    var head, j, id, id', tail :|
      && x == head + id + tail && y == head + id' + tail
      && OpensField(head, j, marker) && Fits(head, id, tail) && Fits(head, id', tail);
    assert OpensField(head, j, marker) ==> MarkerAt(head, j, marker);
    assert GoodMarker(marker) ==> marker != "";
    hide *;
    FirstMarkerIsFirst(head, marker);
    MarkersAreGood();
    GoodIsSome(cut);
    if FirstMarker(head, cut) >= 0 {
      CutRelatedInHead(head, j, id, id', tail, marker, cut);
    } else {
      CutRelatedInTail(head, j, id, id', tail, marker, cut);
    }
  }

  lemma {:induction false} GoodIsSome(marker: string)
    ensures GoodMarker(marker) ==> marker != ""
  {
  }

  lemma {:induction false} DelimitersAreDelimiters()
    ensures forall i :: 0 <= i < |DELIMITERS| ==> IsDelimiter(DELIMITERS[i])
  {
  }

  // ---------------------------------------------------------------- fields, lines, texts

  lemma {:induction false} RemoveRelated(x: string, y: string, marker: string, cut: string)
    requires Related(x, y, marker) && GoodMarker(marker) && cut != "" && (cut == marker || cut in EARLY)
    ensures RemoveField(x, cut) == RemoveField(y, cut) || Related(RemoveField(x, cut), RemoveField(y, cut), marker)
    decreases |x|
  {
    hide Related, Cut, SubstringAfter;
    CutRelated(x, y, marker, cut);
    if SubstringAfter(x, cut) != "" {
      if Cut(x, cut) != Cut(y, cut) {
        CutShortens(x, cut);
        RemoveRelated(Cut(x, cut), Cut(y, cut), marker, cut);
      }
    }
  }

  lemma {:induction false} CutShortens(value: string, marker: string)
    requires marker != "" && SubstringAfter(value, marker) != ""
    ensures |Cut(value, marker)| < |value|
  {
  }

  /** Removing the marker's own field leaves nothing to differ in. */
  lemma {:induction false} OwnMarkerRemoved(x: string, y: string, marker: string)
    requires Related(x, y, marker) && GoodMarker(marker)
    ensures RemoveField(x, marker) == RemoveField(y, marker)
  {
    assert marker != "";
    hide RemoveField, SubstringAfter, GoodMarker, EARLY, OpensField, Fits;
    RemoveRelated(x, y, marker, marker);
    var x', y' := RemoveField(x, marker), RemoveField(y, marker);
    if Related(x', y', marker) {
      var head, j, id, id', tail :|
        && x' == head + id + tail && y' == head + id' + tail
        && OpensField(head, j, marker) && Fits(head, id, tail) && Fits(head, id', tail);
      FieldLeft(head, j, id, tail, marker);
      NothingAfterMarker(x, marker, j);
      assert false;
    }
  }

  lemma {:induction false} FieldLeft(head: string, j: int, id: string, tail: string, marker: string)
    requires OpensField(head, j, marker) && Fits(head, id, tail)
    ensures MarkerAt(head + id + tail, j, marker) && j + |marker| < |head + id + tail|
  {
    var x := head + id + tail;
    assert x[j..j + |marker|] == head[j..j + |marker|];
    MarkerInSlice(x, j, head, j, marker);
  }

  /** Up to the marker of the field the lines stay equal or related, then they are equal. */
  lemma {:induction false} RemoveAllRelated(x: string, y: string, marker: string, markers: seq<string>)
    requires Related(x, y, marker) && GoodMarker(marker) && marker in markers
    requires forall i :: 0 <= i < |markers| ==> markers[i] != ""
    requires forall i :: 0 <= i < |markers| - 1 ==> markers[i] in EARLY
    ensures RemoveFields(x, markers) == RemoveFields(y, markers)
    decreases |markers|
  {
    hide Related, RemoveField, GoodMarker, EARLY;
    if marker == markers[0] {
      OwnMarkerRemoved(x, y, marker);
    } else {
      assert markers[0] in EARLY;
      RemoveRelated(x, y, marker, markers[0]);
      if RemoveField(x, markers[0]) != RemoveField(y, markers[0]) {
        RemoveAllRelated(RemoveField(x, markers[0]), RemoveField(y, markers[0]), marker, markers[1..]);
      }
    }
  }

  lemma {:induction false} EarlyAndLast()
    ensures MARKERS == EARLY + ["ociRequestId="] && "ociRequestId=" !in EARLY
  {
  }

  lemma {:induction false} MarkersAreGood()
    ensures forall marker :: marker in MARKERS ==> GoodMarker(marker)
    ensures forall marker :: marker in EARLY ==> GoodMarker(marker)
  {
    hide GoodMarker;
    SpacedMarkersAreGood();
    PlainMarkersAreGood();
    EarlyAndLast();
  }

  lemma {:induction false} SpacedMarkersAreGood()
    ensures GoodMarker("Opc request id:") && GoodMarker("request id:")
  {
  }

  lemma {:induction false} PlainMarkersAreGood()
    ensures GoodMarker("Opc-Request-Id:") && GoodMarker("opc-request-id:") && GoodMarker("opc-request-id=") && GoodMarker("ociRequestId=")
  {
  }

  /** A line is sanitized to the same text whatever the id in one of its fields is. */
  lemma {:induction false} IdsAreIgnored(x: string, y: string, marker: string)
    requires Related(x, y, marker) && marker in MARKERS
    ensures SanitizeLine(x) == SanitizeLine(y)
  {
    assert forall i :: 0 <= i < |MARKERS| ==> MARKERS[i] != "";
    hide RemoveFields, TrimSpace, MARKERS, EARLY;
    MarkersAreGood();
    EarlyAndLast();
    var head, j, id, id', tail :|
      && x == head + id + tail && y == head + id' + tail
      && OpensField(head, j, marker) && Fits(head, id, tail) && Fits(head, id', tail);
    TrimmedRelated(head, j, id, id', tail, marker);
    RemoveAllRelated(TrimSpace(x), TrimSpace(y), marker, MARKERS);
  }

  /** Two messages that differ only in dropped lines, anywhere, and in ids. */
  ghost predicate SameMessage(x: seq<string>, y: seq<string>)
    decreases |x| + |y|
  {
    if x != [] && Dropped(x[0]) then SameMessage(x[1..], y)
    else if y != [] && Dropped(y[0]) then SameMessage(x, y[1..])
    else if x == [] || y == [] then x == y
    else
      && (x[0] == y[0] || exists marker :: marker in MARKERS && Related(x[0], y[0], marker))
      && SameMessage(x[1..], y[1..])
  }

  lemma {:induction false} KeptLinesCons(lines: seq<string>)
    requires lines != []
    ensures KeptLines(lines) ==
              (if Dropped(lines[0]) || SanitizeLine(lines[0]) == "" then [] else [SanitizeLine(lines[0])]) + KeptLines(lines[1..])
  {
    hide Dropped, SanitizeLine;
    var n := |lines| - 1;
    if n > 0 {
      KeptLinesCons(lines[..n]);
      assert lines[..n][1..] == lines[1..][..n - 1];
      assert lines[1..][n - 1] == lines[n];
    }
  }

  lemma {:induction false} SameMessageKept(x: seq<string>, y: seq<string>)
    requires SameMessage(x, y)
    ensures KeptLines(x) == KeptLines(y)
    decreases |x| + |y|
  {
    hide Dropped, SanitizeLine, Related, KeptLines, MARKERS;
    if x != [] {
      KeptLinesCons(x);
    }
    if y != [] {
      KeptLinesCons(y);
    }
    if x != [] && Dropped(x[0]) {
      SameMessageKept(x[1..], y);
    } else if y != [] && Dropped(y[0]) {
      SameMessageKept(x, y[1..]);
    } else if x != [] && y != [] {
      SameMessageKept(x[1..], y[1..]);
      if x[0] != y[0] {
        var marker :| marker in MARKERS && Related(x[0], y[0], marker);
        IdsAreIgnored(x[0], y[0], marker);
      }
    }
  }

  /** The normalised text ignores request ids and volatile lines. */
  lemma {:induction false} VolatilePartsAreIgnored(one: string, two: string)
    requires SameMessage(Lines(one), Lines(two))
    ensures Sanitize(one) == Sanitize(two)
  {
    SameMessageKept(Lines(one), Lines(two));
  }

  // ---------------------------------------------------------------- ids on their own

  /** The id contains no marker, the last one apart. */
  ghost predicate MarkerFree(id: string) { forall marker, p :: marker in EARLY ==> !MarkerAt(id, p, marker) }

  predicate Blank(s: string) { forall i :: 0 <= i < |s| ==> IsSpace(s[i]) }

  /** Nothing of a marker reaches back from the id into a fresh field: it would start in the
      white space or run over the last character of the opening marker. */
  lemma {:induction false} FreshStem(before: string, opening: string, gap: string, id: string, marker: string, t: nat, p: int)
    requires GoodMarker(opening) && GoodMarker(marker) && Blank(gap) && 0 < t <= |marker|
    requires var head := before + opening + gap;
             |head| < p + t <= |head| + |id| && MarkerAt(head + id, p, marker[..t])
    ensures var head := before + opening + gap;
            MarkerAt(id, p - |head|, marker[..t])
  {
    var head := before + opening + gap;
    var x, last := head + id, |before| + |opening| - 1;
    if p >= |head| {
      assert x[p..p + t] == id[p - |head|..p - |head| + t];
      MarkerInSlice(x, p, id, p - |head|, marker[..t]);
    } else if p > last {
      assert x[p] == gap[p - last - 1];
      StartsAsWord(x, p, marker[..t]);
      assert false;
    } else {
      assert x[last] == opening[|opening| - 1];
      NotOverMark(x, last, marker, t, p);
    }
  }

  lemma {:induction false} FreshFieldOutside(before: string, opening: string, gap: string, id: string, marker: string)
    requires GoodMarker(opening) && GoodMarker(marker) && Blank(gap) && forall p :: !MarkerAt(id, p, marker)
    ensures Outside(before + opening + gap, id, marker)
  {
    var head := before + opening + gap;
    assert marker != "" && marker[..|marker|] == marker;
    hide GoodMarker, Blank, MarkerAt;
    forall p | |head| < p + |marker| <= |head| + |id| ensures !MarkerAt(head + id, p, marker) {
      if MarkerAt(head + id, p, marker) {
        FreshStem(before, opening, gap, id, marker, |marker|, p);
        assert false;
      }
    }
  }

  lemma {:induction false} FreshRunsOn(before: string, opening: string, gap: string, id: string, c: char, marker: string)
    requires GoodMarker(opening) && GoodMarker(marker) && Blank(gap) && id != ""
    requires RunsOn(before + opening + gap + id, c, marker)
    ensures RunsOn(id, c, marker)
  {
    var x := before + opening + gap + id;
    var t :| 0 < t < |marker| && EndsIn(x, marker[..t]) && LowerChar(c) == LowerChar(marker[t]);
    hide GoodMarker, Blank;
    FreshStem(before, opening, gap, id, marker, t, |x| - t);
    assert EndsIn(id, marker[..t]);
  }

  lemma {:induction false} FreshFieldFits(before: string, opening: string, gap: string, id: string, tail: string)
    requires GoodMarker(opening) && Blank(gap) && SafeId(id) && MarkerFree(id) && SafeTail(id, tail)
    ensures Fits(before + opening + gap, id, tail)
  {
    var head := before + opening + gap;
    MarkersAreGood();
    hide GoodMarker, MarkerAt, Outside, EARLY, Blank, RunsOn;
    assert (head + id)[|head + id| - 1] == id[|id| - 1];
    forall marker | marker in EARLY ensures Outside(head, id, marker) {
      FreshFieldOutside(before, opening, gap, id, marker);
    }
    if tail != "" {
      forall marker | marker in EARLY ensures !RunsOn(head + id, tail[0], marker) {
        if RunsOn(head + id, tail[0], marker) {
          FreshRunsOn(before, opening, gap, id, tail[0], marker);
        }
      }
    }
  }

  /** A fresh field is open. */
  lemma {:induction false} FreshFieldOpens(before: string, marker: string, gap: string)
    requires GoodMarker(marker) && Blank(gap)
    ensures OpensField(before + marker + gap, |before|, marker)
  {
    var head := before + marker + gap;
    var field := marker + gap;
    assert head[|before|..] == field;
    forall i | 0 < i < |field| ensures !(IsPunct(field[i - 1]) && field[i] == ' ') {
      if i - 1 < |marker| {
        assert field[i - 1] == marker[i - 1];
      } else {
        assert field[i - 1] == gap[i - 1 - |marker|];
      }
    }
    assert head[|before|..|before| + |marker|] == marker[0..0 + |marker|];
    MarkerInSlice(head, |before|, marker, 0, marker);
  }

  /** The common case, spelled out: any text, a marker, white space or none, an id, and any text
      that may follow it. */
  lemma {:induction false} RequestIdIgnored(before: string, marker: string, gap: string, id: string, id': string, tail: string)
    requires marker in MARKERS && Blank(gap) && SafeId(id) && MarkerFree(id) && SafeId(id') && MarkerFree(id')
    requires SafeTail(id, tail) && SafeTail(id', tail)
    ensures SanitizeLine(before + marker + gap + id + tail) == SanitizeLine(before + marker + gap + id' + tail)
  {
    MarkersAreGood();
    var head := before + marker + gap;
    hide SanitizeLine, MARKERS, GoodMarker, MarkerFree, SafeTail, Fits, OpensField;
    FreshFieldOpens(before, marker, gap);
    FreshFieldFits(before, marker, gap, id, tail);
    FreshFieldFits(before, marker, gap, id', tail);
    IdsAreIgnored(head + id + tail, head + id' + tail, marker);
  }
}
