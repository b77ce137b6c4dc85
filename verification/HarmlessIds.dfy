/** Exactly which ids the normaliser ignores, in every line.

    An id without white space is ignored, wherever it stands in a field and whatever follows
    it, if and only if it is harmless: it contains no marker other than the last, and it ends
    neither in punctuation, nor in "opc", "request" or "opc-request-id".  Otherwise one of four
    lines tells it apart from the ids that are ignored. */
module HarmlessIds {
  import opened Strings
  import opened ErrorTexts
  import opened RequestIds
  import opened OpenFields

  /** In every field, before every text that ends the id, the two ids give the same line. */
  ghost predicate Interchangeable(id: string, id': string) {
    forall before, marker, gap, tail :: marker in MARKERS && Blank(gap) && EndsId(tail) ==>
      SanitizeLine(before + marker + gap + id + tail) == SanitizeLine(before + marker + gap + id' + tail)
  }

  /** The id ends neither in a delimiter's first character nor in the part of a marker that
      stands before a blank, a ':' or a '='. */
  predicate Closed(id: string) {
    id != "" && !IsPunct(id[|id| - 1]) && !EndsIn(id, "opc") && !EndsIn(id, "request") && !EndsIn(id, "opc-request-id")
  }

  ghost predicate Harmless(id: string) { MarkerFree(id) && Closed(id) }

  // ---------------------------------------------------------------- harmless ids are ignored

  lemma {:induction false} EndsInSuffix(text: string, stem: string, word: string)
    requires EndsIn(text, stem) && EndsIn(stem, word)
    ensures EndsIn(text, word)
  {
    forall t | 0 <= t < |word| ensures LowerChar(text[|text| - |word| + t]) == LowerChar(word[t]) {
      assert LowerChar(text[|text| - |stem| + (|stem| - |word| + t)]) == LowerChar(stem[|stem| - |word| + t]);
    }
  }

  /** What stands in a marker before a character that ends an id. */
  predicate IsStem(stem: string, c: char) {
    if c == ' ' then EndsIn(stem, "opc") || EndsIn(stem, "request")
    else IsMark(c) && (EndsIn(stem, "opc-request-id") || EndsIn(stem, "request id"))
  }

  lemma {:induction false} Stems(marker: string, t: nat)
    requires marker in EARLY && 0 < t < |marker| && !IsWordChar(marker[t])
    ensures IsStem(marker[..t], marker[t])
  {
    if marker == "Opc request id:" {
      LongStems(t);
    } else if marker == "request id:" {
      ShortStems(t);
    } else {
      assert t == 14;
      hide IsWordChar;
      assert marker[..t] == "Opc-Request-Id" || marker[..t] == "opc-request-id";
    }
  }

  lemma {:induction false} LongStems(t: nat)
    requires 0 < t < 15 && !IsWordChar("Opc request id:"[t])
    ensures IsStem("Opc request id:"[..t], "Opc request id:"[t])
  {
    assert t == 3 || t == 11 || t == 14;
    hide IsWordChar;
    var stem := "Opc request id:"[..t];
    if t == 3 {
      assert stem == "Opc";
    } else if t == 11 {
      assert stem == "Opc request";
    } else {
      assert stem == "Opc request id";
    }
  }

  lemma {:induction false} ShortStems(t: nat)
    requires 0 < t < 11 && !IsWordChar("request id:"[t])
    ensures IsStem("request id:"[..t], "request id:"[t])
  {
    assert t == 7 || t == 10;
    hide IsWordChar;
    var stem := "request id:"[..t];
    if t == 7 {
      assert stem == "request";
    } else {
      assert stem == "request id";
    }
  }

  lemma {:induction false} NotSpaced(id: string)
    requires SafeId(id)
    ensures !EndsIn(id, "request id")
  {
    var p := |id| - 10;
    if p >= 0 {
      assert LowerChar(id[p + 7]) != LowerChar("request id"[7]);
    }
  }

  /** Where a marker runs on from an id over a character that ends it. */
  lemma {:induction false} RunsOnFrom(id: string, c: char, marker: string)
    requires SafeId(id) && marker in EARLY && !IsWordChar(c) && RunsOn(id, c, marker)
    ensures if c == ' ' then EndsIn(id, "opc") || EndsIn(id, "request") else IsMark(c) && EndsIn(id, "opc-request-id")
  {
    hide EARLY, SafeId;
    NotSpaced(id);
    var t :| 0 < t < |marker| && EndsIn(id, marker[..t]) && LowerChar(c) == LowerChar(marker[t]);
    assert marker[t] == c && !IsWordChar(marker[t]);
    hide EndsIn;
    Stems(marker, t);
    var stem := marker[..t];
    if EndsIn(stem, "opc") {
      EndsInSuffix(id, stem, "opc");
    }
    if EndsIn(stem, "request") {
      EndsInSuffix(id, stem, "request");
    }
    if EndsIn(stem, "opc-request-id") {
      EndsInSuffix(id, stem, "opc-request-id");
    }
    if EndsIn(stem, "request id") {
      EndsInSuffix(id, stem, "request id");
      assert false;
    }
  }

  lemma {:induction false} ClosedIsSafe(id: string, tail: string)
    requires SafeId(id) && Closed(id) && EndsId(tail)
    ensures SafeTail(id, tail)
  {
    hide EARLY, RunsOn, EndsIn;
    if tail != "" {
      forall marker | marker in EARLY ensures !RunsOn(id, tail[0], marker) {
        if RunsOn(id, tail[0], marker) {
          RunsOnFrom(id, tail[0], marker);
          assert false;
        }
      }
    }
  }

  lemma {:induction false} HarmlessIsIgnored(id: string, id': string)
    requires SafeId(id) && Harmless(id) && SafeId(id') && Harmless(id')
    ensures Interchangeable(id, id')
  {
    hide Closed, MarkerFree, SafeId, SanitizeLine, MARKERS, EndsId, SafeTail, Blank;
    forall before, marker, gap, tail | marker in MARKERS && Blank(gap) && EndsId(tail)
      ensures SanitizeLine(before + marker + gap + id + tail) == SanitizeLine(before + marker + gap + id' + tail)
    {
      ClosedIsSafe(id, tail);
      ClosedIsSafe(id', tail);
      RequestIdIgnored(before, marker, gap, id, id', tail);
    }
  }

  // ---------------------------------------------------------------- lines that open with a field

  const LAST := "ociRequestId="
  const FOURTH := "opc-request-id="
  const FIRSTS: seq<string> := ["Opc request id:", "Opc-Request-Id:", "opc-request-id:"]
  const REST: seq<string> := ["request id:", "ociRequestId="]

  /** Inside a marker another one can only stand at the end. */
  lemma {:induction false} OnlyAtEnd(own: string, marker: string, p: int)
    requires GoodMarker(own) && GoodMarker(marker) && MarkerAt(own, p, marker)
    ensures p == |own| - |marker| && LowerChar(own[|own| - 1]) == LowerChar(marker[|marker| - 1])
  {
    EndsInMark(own, p, marker);
    assert LowerChar(own[p + (|marker| - 1)]) == LowerChar(marker[|marker| - 1]);
  }

  lemma {:induction false} NotInside(own: string, marker: string)
    requires GoodMarker(own) && GoodMarker(marker) && LowerChar(own[|own| - 1]) != LowerChar(marker[|marker| - 1])
    ensures forall p :: !MarkerAt(own, p, marker)
  {
    forall p ensures !MarkerAt(own, p, marker) {
      if MarkerAt(own, p, marker) {
        OnlyAtEnd(own, marker, p);
        assert false;
      }
    }
  }

  lemma {:induction false} LastOpens()
    ensures Opening(EARLY, LAST, []) && |LAST| == 13
  {
    MarkersAreGood();
    EarlyAndLast();
    assert LAST in MARKERS && MARKERS == EARLY + [LAST] + [];
    forall i | 0 <= i < |EARLY| ensures GoodMarker(EARLY[i]) && |EARLY[i]| > 6 && forall p :: !MarkerAt(LAST, p, EARLY[i]) {
      assert EARLY[i] in EARLY;
      if |EARLY[i]| <= 13 {
        hide GoodMarker;
        NotInside(LAST, EARLY[i]);
      }
    }
  }

  lemma {:induction false} FourthOpens()
    ensures Opening(FIRSTS, FOURTH, REST) && |FOURTH| == 15
  {
    PlainMarkersAreGood();
    SpacedMarkersAreGood();
    assert MARKERS == FIRSTS + [FOURTH] + REST;
    hide GoodMarker;
    forall i | 0 <= i < |FIRSTS| ensures GoodMarker(FIRSTS[i]) && |FIRSTS[i]| > 6 && forall p :: !MarkerAt(FOURTH, p, FIRSTS[i]) {
      NotInside(FOURTH, FIRSTS[i]);
    }
    NotInside(FOURTH, REST[0]);
    forall p ensures !MarkerAt(FOURTH, p, REST[1]) {
      if p == 2 {
        assert LowerChar(FOURTH[p + 0]) != LowerChar(REST[1][0]);
      } else if MarkerAt(FOURTH, p, REST[1]) {
        OnlyAtEnd(FOURTH, REST[1], p);
        assert false;
      }
    }
  }

  /** A text that ends an id, with one delimiter, before its last word. */
  ghost predicate GoodTail(id: string, tail: string, k: nat) {
    && id != "" && EndsId(tail) && |tail| == k + 6 && tail[k + 2..] == "more" && OneDelimiter(tail, k)
    && (tail[0] != ' ' || !IsPunct(id[|id| - 1]))
  }

  lemma {:induction false} FieldAndId(own: string, id: string)
    requires GoodMarker(own) && SafeId(id)
    ensures NoDelimiter(own + id)
  {
    var x := own + id;
    forall i | 0 < i < |x| ensures !(IsPunct(x[i - 1]) && x[i] == ' ') {
      if i < |own| {
        assert x[i - 1] == own[i - 1];
      } else {
        assert x[i] == id[i - |own|];
      }
    }
  }

  lemma {:induction false} DelimiterShift(front: string, tail: string, k: nat)
    requires front != "" && NoDelimiter(front) && OneDelimiter(tail, k)
    requires tail != "" ==> tail[0] != ' ' || !IsPunct(front[|front| - 1])
    ensures OneDelimiter(front + tail, |front| + k)
  {
    var rest, n := front + tail, |front|;
    assert DelimiterBefore(tail, k + 1);
    forall i ensures DelimiterBefore(rest, i) <==> i == n + k + 1 {
      if n < i < |rest| {
        assert rest[i - 1] == tail[i - n - 1] && rest[i] == tail[i - n];
        assert DelimiterBefore(tail, i - n) <==> i - n == k + 1;
      } else if 0 < i < n {
        assert rest[i - 1] == front[i - 1] && rest[i] == front[i];
      } else if i == n < |rest| {
        assert rest[i - 1] == front[n - 1];
      }
    }
  }

  lemma {:induction false} TailLine(own: string, id: string, tail: string, k: nat)
    requires GoodMarker(own) && SafeId(id) && GoodTail(id, tail, k)
    ensures OpenLine(own, own + id + tail, |own| + |id| + k)
  {
    FieldAndId(own, id);
    assert own != "" && tail != "" && (own + id)[|own + id| - 1] == id[|id| - 1];
    var line := own + id + tail;
    assert line[..|own|] == own && line[|own| + |id| + k + 2..] == tail[k + 2..];
    hide NoDelimiter, OneDelimiter, GoodMarker, SafeId, IsPunct;
    DelimiterShift(own + id, tail, k);
  }

  /** Behind a harmless id the last word stays, if no marker stands in the tail either. */
  lemma {:induction false} HarmlessTells(pre: seq<string>, own: string, post: seq<string>, id: string, tail: string, k: nat)
    requires Opening(pre, own, post) && |own| > 6 && SafeId(id) && Harmless(id) && GoodTail(id, tail, k)
    requires forall i :: 0 <= i < |pre| ==> pre[i] in EARLY && forall p :: !MarkerAt(tail, p, pre[i])
    ensures SanitizeLine(own + id + tail) == "more"
  {
    var line := own + id + tail;
    ClosedIsSafe(id, tail);
    assert "" + own + "" == own;
    assert MarkerFree(id) && GoodMarker(own) && GoodTail(id, tail, k) && Blank("");
    assert forall i :: 0 <= i < |pre| ==> forall p :: !MarkerAt(own, p, pre[i]);
    hide *;
    FreshFieldFits("", own, "", id, tail);
    HarmlessMeetsNone(pre, own, id, tail);
    TailLine(own, id, tail, k);
    LineTells(pre, own, post, line, |own| + |id| + k);
  }

  lemma {:induction false} HarmlessMeetsNone(pre: seq<string>, own: string, id: string, tail: string)
    requires Fits(own, id, tail)
    requires forall i :: 0 <= i < |pre| ==> pre[i] in EARLY
    requires forall i :: 0 <= i < |pre| ==> forall p :: !MarkerAt(own, p, pre[i])
    requires forall i :: 0 <= i < |pre| ==> forall p :: !MarkerAt(tail, p, pre[i])
    ensures !Meets(own + id + tail, pre)
  {
    hide EARLY, MarkerAt, SafeId, Outside, SafeTail;
    if Meets(own + id + tail, pre) {
      var i, p :| 0 <= i < |pre| && MarkerAt(own + id + tail, p, pre[i]);
      MarkerPlaces(own, id, tail, pre[i], p);
      assert false;
    }
  }

  /** A marker that meets the id takes the last word with it. */
  lemma {:induction false} MeetingTells(pre: seq<string>, own: string, post: seq<string>, id: string, tail: string, k: nat, i: nat, p: int)
    requires Opening(pre, own, post) && |own| > 6 && SafeId(id) && GoodTail(id, tail, k)
    requires i < |pre| && MarkerAt(own + id + tail, p, pre[i])
    ensures SanitizeLine(own + id + tail) in {"", own}
  {
    assert Meets(own + id + tail, pre);
    hide OpenLine, Meets, GoodTail, SafeId, SanitizeLine;
    TailLine(own, id, tail, k);
    LineTells(pre, own, post, own + id + tail, |own| + |id| + k);
  }

  // ---------------------------------------------------------------- four lines

  const COLON_TAIL := ": 5. more"
  const ID_TAIL := " id" + [':'] + " 5. more"
  const REQUEST_TAIL := " request id" + [':'] + " 5. more"

  /** Text without punctuation, a punctuation mark, a blank, and a word. */
  lemma {:induction false} PlainField(a: string, c: char, b: string)
    requires NoPunct(a) && IsPunct(c) && ' ' !in b
    ensures OneDelimiter(a + [c] + " " + b, |a|)
  {
    var rest := a + [c] + " " + b;
    forall i ensures DelimiterBefore(rest, i) <==> i == |a| + 1 {
      if 0 < i <= |a| {
        assert rest[i - 1] == a[i - 1];
      } else if |a| + 2 < i < |rest| {
        assert rest[i] == b[i - |a| - 2] && b[i - |a| - 2] in b;
      } else if i == |a| + 2 {
        assert rest[i - 1] == ' ';
      }
    }
  }

  /** Some words, a full stop, and the last word. */
  lemma {:induction false} PlainTail(id: string, a: string, tail: string)
    requires id != "" && NoPunct(a) && a != "" && !IsWordChar(a[0]) && (a[0] != ' ' || !IsPunct(id[|id| - 1]))
    requires tail == a + ['.'] + " " + "more"
    ensures GoodTail(id, tail, |a|)
  {
    assert tail[0] == a[0];
    PlainField(a, '.', "more");
  }

  lemma {:induction false} ColonTail(id: string)
    requires id != ""
    ensures GoodTail(id, COLON_TAIL, 3)
  {
    assert ": 5" + ['.'] + " " + "more" == COLON_TAIL;
    PlainTail(id, ": 5", COLON_TAIL);
  }

  lemma {:induction false} IdTail(id: string)
    requires id != "" && !IsPunct(id[|id| - 1])
    ensures GoodTail(id, ID_TAIL, 6)
  {
    assert " id" + [':'] + " 5" + ['.'] + " " + "more" == ID_TAIL;
    PlainTail(id, " id" + [':'] + " 5", ID_TAIL);
  }

  lemma {:induction false} RequestTail(id: string)
    requires id != "" && !IsPunct(id[|id| - 1])
    ensures GoodTail(id, REQUEST_TAIL, 14)
  {
    assert " request id" + [':'] + " 5" + ['.'] + " " + "more" == REQUEST_TAIL;
    PlainTail(id, " request id" + [':'] + " 5", REQUEST_TAIL);
  }

  /** A marker that ends in a tail ends at one of its marks. */
  lemma {:induction false} NotInTail(tail: string, at: nat, marker: string)
    requires GoodMarker(marker) && |marker| > at + 1 && forall i :: 0 <= i < |tail| && IsMark(tail[i]) ==> i == at
    ensures forall p :: !MarkerAt(tail, p, marker)
  {
    forall p ensures !MarkerAt(tail, p, marker) {
      if MarkerAt(tail, p, marker) {
        EndsInMark(tail, p, marker);
        assert false;
      }
    }
  }

  lemma {:induction false} ShortTailsAreFree()
    ensures forall i :: 0 <= i < |EARLY| ==> EARLY[i] in EARLY
    ensures forall i :: 0 <= i < |EARLY| ==> forall p :: !MarkerAt(COLON_TAIL, p, EARLY[i])
    ensures forall i :: 0 <= i < |EARLY| ==> forall p :: !MarkerAt(ID_TAIL, p, EARLY[i])
  {
    MarkersAreGood();
    assert forall i :: 0 <= i < |EARLY| ==> |EARLY[i]| > 10;
    assert forall i :: 0 <= i < |COLON_TAIL| && IsMark(COLON_TAIL[i]) ==> i == 0;
    assert forall i :: 0 <= i < |ID_TAIL| && IsMark(ID_TAIL[i]) ==> i == 3;
    forall i | 0 <= i < |EARLY|
      ensures (forall p :: !MarkerAt(COLON_TAIL, p, EARLY[i])) && forall p :: !MarkerAt(ID_TAIL, p, EARLY[i])
    {
      assert EARLY[i] in EARLY;
      hide GoodMarker, MarkerAt, IsMark, EARLY;
      NotInTail(COLON_TAIL, 0, EARLY[i]);
      NotInTail(ID_TAIL, 3, EARLY[i]);
    }
  }

  lemma {:induction false} RequestTailIsFree()
    ensures forall i :: 0 <= i < |FIRSTS| ==> FIRSTS[i] in EARLY && forall p :: !MarkerAt(REQUEST_TAIL, p, FIRSTS[i])
  {
    MarkersAreGood();
    assert forall i :: 0 <= i < |REQUEST_TAIL| && IsMark(REQUEST_TAIL[i]) ==> i == 11;
    forall i | 0 <= i < |FIRSTS| ensures FIRSTS[i] in EARLY && forall p :: !MarkerAt(REQUEST_TAIL, p, FIRSTS[i]) {
      hide GoodMarker, MarkerAt, IsMark;
      assert FIRSTS[i] == EARLY[i];
      NotInTail(REQUEST_TAIL, 11, FIRSTS[i]);
    }
  }

  /** What a harmless id leaves of the lines. */
  lemma {:induction false} HarmlessLeaves(id: string)
    requires SafeId(id) && Harmless(id)
    ensures SanitizeLine(LAST + id + COLON_TAIL) == "more" && SanitizeLine(LAST + id + ID_TAIL) == "more"
    ensures SanitizeLine(FOURTH + id + REQUEST_TAIL) == "more"
  {
    assert id != "" && !IsPunct(id[|id| - 1]);
    hide *;
    ColonTail(id);
    IdTail(id);
    RequestTail(id);
    HarmlessAfterLast(id, COLON_TAIL, 3);
    HarmlessAfterLast(id, ID_TAIL, 6);
    HarmlessAfterFourth(id);
  }

  lemma {:induction false} HarmlessAfterLast(id: string, tail: string, k: nat)
    requires SafeId(id) && Harmless(id) && GoodTail(id, tail, k) && tail in {COLON_TAIL, ID_TAIL}
    ensures SanitizeLine(LAST + id + tail) == "more"
  {
    hide *;
    LastOpens();
    ShortTailsAreFree();
    HarmlessTells(EARLY, LAST, [], id, tail, k);
  }

  lemma {:induction false} HarmlessAfterFourth(id: string)
    requires SafeId(id) && Harmless(id) && GoodTail(id, REQUEST_TAIL, 14)
    ensures SanitizeLine(FOURTH + id + REQUEST_TAIL) == "more"
  {
    hide *;
    FourthOpens();
    RequestTailIsFree();
    HarmlessTells(FIRSTS, FOURTH, REST, id, REQUEST_TAIL, 14);
  }

  /** A marker that is put together from the end of the id and the beginning of the tail. */
  lemma {:induction false} MarkerAcross(own: string, id: string, tail: string, word: string, marker: string)
    requires EndsIn(id, word) && |marker| <= |word| + |tail| && |word| <= |marker| && marker[..|word|] == word
    requires tail[..|marker| - |word|] == marker[|word|..]
    ensures MarkerAt(own + id + tail, |own| + |id| - |word|, marker)
  {
    var x, p := own + id + tail, |own| + |id| - |word|;
    forall t | 0 <= t < |marker| ensures LowerChar(x[p + t]) == LowerChar(marker[t]) {
      if t < |word| {
        assert x[p + t] == id[|id| - |word| + t] && marker[t] == marker[..|word|][t];
      } else {
        assert x[p + t] == tail[..|marker| - |word|][t - |word|] && marker[t] == marker[|word|..][t - |word|];
      }
    }
  }

  lemma {:induction false} MarkerWithin(own: string, id: string, tail: string, marker: string, p: int)
    requires MarkerAt(id, p, marker)
    ensures MarkerAt(own + id + tail, |own| + p, marker)
  {
    var x := own + id + tail;
    assert x[|own| + p..|own| + p + |marker|] == id[p..p + |marker|];
    MarkerInSlice(x, |own| + p, id, p, marker);
  }

  /** An id that contains a marker. */
  lemma {:induction false} ContainedMarkerMatters(id: string)
    requires SafeId(id) && !MarkerFree(id)
    ensures SanitizeLine(LAST + id + COLON_TAIL) in {"", LAST}
  {
    hide MarkerAt, SanitizeLine, EARLY;
    var marker, p :| marker in EARLY && MarkerAt(id, p, marker);
    var i :| 0 <= i < |EARLY| && EARLY[i] == marker;
    assert id != "";
    hide *;
    LastOpens();
    ColonTail(id);
    MarkerWithin(LAST, id, COLON_TAIL, marker, p);
    MeetingTells(EARLY, LAST, [], id, COLON_TAIL, 3, i, |LAST| + p);
  }

  /** "opc-request-id" and ":" make a marker. */
  lemma {:induction false} DashedMatters(id: string)
    requires SafeId(id) && EndsIn(id, "opc-request-id")
    ensures SanitizeLine(LAST + id + COLON_TAIL) in {"", LAST}
  {
    assert id != "" && EARLY[2] == "opc-request-id:" && "opc-request-id:"[..14] == "opc-request-id";
    assert COLON_TAIL[..1] == ":" == "opc-request-id:"[14..];
    hide *;
    LastOpens();
    ColonTail(id);
    MarkerAcross(LAST, id, COLON_TAIL, "opc-request-id", "opc-request-id:");
    MeetingTells(EARLY, LAST, [], id, COLON_TAIL, 3, 2, |LAST| + |id| - 14);
  }

  lemma {:induction false} WordIsNoPunct(id: string, word: string)
    requires word != "" && EndsIn(id, word) && !IsPunct(LowerChar(word[|word| - 1]))
    ensures id != "" && !IsPunct(id[|id| - 1])
  {
    assert LowerChar(id[|id| - |word| + (|word| - 1)]) == LowerChar(word[|word| - 1]);
  }

  /** "request" and " id:" make a marker. */
  lemma {:induction false} RequestMatters(id: string)
    requires SafeId(id) && EndsIn(id, "request")
    ensures SanitizeLine(LAST + id + ID_TAIL) in {"", LAST}
  {
    WordIsNoPunct(id, "request");
    assert EARLY[4] == "request id:" && "request id:"[..7] == "request";
    assert ID_TAIL[..4] == "request id:"[7..];
    hide *;
    LastOpens();
    IdTail(id);
    MarkerAcross(LAST, id, ID_TAIL, "request", "request id:");
    MeetingTells(EARLY, LAST, [], id, ID_TAIL, 6, 4, |LAST| + |id| - 7);
  }

  /** "opc" and " request id:" make the first marker. */
  lemma {:induction false} OpcMatters(id: string)
    requires SafeId(id) && EndsIn(id, "opc")
    ensures SanitizeLine(FOURTH + id + REQUEST_TAIL) in {"", FOURTH}
  {
    WordIsNoPunct(id, "opc");
    OpcIsCaseless(id);
    assert FIRSTS[0] == "Opc request id:" && "Opc request id:"[..3] == "Opc";
    assert REQUEST_TAIL[..12] == "Opc request id:"[3..];
    hide *;
    FourthOpens();
    RequestTail(id);
    MarkerAcross(FOURTH, id, REQUEST_TAIL, "Opc", "Opc request id:");
    MeetingTells(FIRSTS, FOURTH, REST, id, REQUEST_TAIL, 14, 0, |FOURTH| + |id| - 3);
  }

  lemma {:induction false} OpcIsCaseless(id: string)
    requires EndsIn(id, "opc")
    ensures EndsIn(id, "Opc")
  {
    assert LowerChar("Opc"[0]) == LowerChar("opc"[0]) && LowerChar("Opc"[1]) == LowerChar("opc"[1]) && LowerChar("Opc"[2]) == LowerChar("opc"[2]);
  }

  // ---------------------------------------------------------------- ids that end in punctuation

  const BLANK_TAIL := " more"

  lemma {:induction false} PunctuationLine(id: string)
    requires SafeId(id) && IsPunct(id[|id| - 1])
    ensures OpenLine(LAST, LAST + id + BLANK_TAIL, 12 + |id|)
  {
    var line := LAST + id + BLANK_TAIL;
    LastOpens();
    FieldAndId(LAST, id);
    var front := LAST + id;
    assert front[|front| - 1] == id[|id| - 1];
    forall i ensures DelimiterBefore(line, i) <==> i == 13 + |id| {
      if 0 < i < |front| {
        assert line[i - 1] == front[i - 1] && line[i] == front[i];
      } else if |front| <= i < |line| {
        assert line[i] == BLANK_TAIL[i - |front|];
      }
    }
    assert line[|front| + 1..] == BLANK_TAIL[1..] == "more";
  }

  /** No marker ends in a tail without marks. */
  lemma {:induction false} MeetsNone(id: string)
    requires SafeId(id) && MarkerFree(id)
    ensures !Meets(LAST + id + BLANK_TAIL, EARLY)
  {
    LastOpens();
    MarkersAreGood();
    assert "" + LAST + "" == LAST && Blank("");
    var line := LAST + id + BLANK_TAIL;
    forall i, p | 0 <= i < |EARLY| ensures !MarkerAt(line, p, EARLY[i]) {
      var marker := EARLY[i];
      assert marker in EARLY;
      hide EARLY, GoodMarker, MarkerAt;
      FreshFieldOutside("", LAST, "", id, marker);
      MarkerEndsBefore(LAST, id, marker, p);
    }
  }

  lemma {:induction false} MarkerEndsBefore(own: string, id: string, marker: string, p: int)
    requires GoodMarker(own) && GoodMarker(marker) && Outside(own, id, marker) && forall q :: !MarkerAt(own, q, marker)
    ensures !MarkerAt(own + id + BLANK_TAIL, p, marker)
  {
    var line := own + id + BLANK_TAIL;
    assert forall i :: |own| + |id| <= i < |line| ==> line[i] == BLANK_TAIL[i - |own| - |id|] && !IsMark(line[i]);
    if MarkerAt(line, p, marker) {
      EndsInMark(line, p, marker);
      var end := p + |marker|;
      if end <= |own| {
        InOwn(own, line, marker, p);
      } else {
        assert line[p..end] == (own + id)[p..end];
        MarkerInSlice(line, p, own + id, p, marker);
      }
      assert false;
    }
  }

  /** A blank behind such an id makes a delimiter, and the rest of the line stays. */
  lemma {:induction false} PunctuationMatters(id: string)
    requires SafeId(id) && MarkerFree(id) && IsPunct(id[|id| - 1])
    ensures SanitizeLine(LAST + id + BLANK_TAIL) == "more"
  {
    hide *;
    LastOpens();
    PunctuationLine(id);
    MeetsNone(id);
    LineTells(EARLY, LAST, [], LAST + id + BLANK_TAIL, 12 + |id|);
  }

  /** Behind any other the field goes on. */
  lemma {:induction false} NoPunctuation(id: string)
    requires SafeId(id) && !IsPunct(id[|id| - 1])
    ensures SanitizeLine(LAST + id + BLANK_TAIL) in {"", LAST}
  {
    LastOpens();
    var line := LAST + id + BLANK_TAIL;
    assert Joined(LAST, line) by {
      FieldAndId(LAST, id);
      var front := LAST + id;
      assert front[|front| - 1] == id[|id| - 1] && line[..13] == LAST;
      forall i | 0 < i < |line| ensures !(IsPunct(line[i - 1]) && line[i] == ' ') {
        if i < |front| {
          assert line[i - 1] == front[i - 1] && line[i] == front[i];
        } else {
          assert line[i] == BLANK_TAIL[i - |front|];
        }
      }
    }
    AlreadyTrimmed(line);
    assert forall i :: 0 <= i < |EARLY| ==> EARLY[i] != "";
    hide Joined, SanitizeLine, RemoveFields, TrimSpace, MarkerAt, GoodMarker;
    JoinedFields(LAST, line, EARLY);
    JoinedTells(EARLY, LAST, [], line);
  }

  // ---------------------------------------------------------------- exactly the harmless ids

  /** Interchangeable ids give the same line in a field that opens the line. */
  lemma {:induction false} SameLine(id: string, id': string, own: string, tail: string)
    requires Interchangeable(id, id') && own in MARKERS && EndsId(tail)
    ensures SanitizeLine(own + id + tail) == SanitizeLine(own + id' + tail)
  {
    hide SanitizeLine, MARKERS;
    assert Blank("") && "" + own + "" == own;
  }

  lemma {:induction false} FourLines()
    ensures LAST in MARKERS && FOURTH in MARKERS
    ensures EndsId(COLON_TAIL) && EndsId(ID_TAIL) && EndsId(REQUEST_TAIL) && EndsId(BLANK_TAIL)
    ensures LAST != "more" && FOURTH != "more"
  {
    assert MARKERS[5] in MARKERS && MARKERS[3] in MARKERS;
    assert |LAST| == 13 && |FOURTH| == 15;
  }

  /** One of the four lines tells the ids apart. */
  lemma {:induction false} Differs(id: string, harmless: string)
    requires SafeId(id) && !Harmless(id) && SafeId(harmless) && Harmless(harmless)
    ensures !Interchangeable(id, harmless)
  {
    FourLines();
    assert !IsPunct(harmless[|harmless| - 1]);
    assert MarkerFree(id) ==>
      IsPunct(id[|id| - 1]) || EndsIn(id, "request") || EndsIn(id, "opc") || EndsIn(id, "opc-request-id");
    assert id != "";
    hide *;
    HarmlessLeaves(harmless);
    if Interchangeable(id, harmless) {
      SameLine(id, harmless, LAST, COLON_TAIL);
      SameLine(id, harmless, LAST, ID_TAIL);
      SameLine(id, harmless, FOURTH, REQUEST_TAIL);
      SameLine(id, harmless, LAST, BLANK_TAIL);
      if !MarkerFree(id) {
        ContainedMarkerMatters(id);
      } else if IsPunct(id[|id| - 1]) {
        PunctuationMatters(id);
        NoPunctuation(harmless);
      } else if EndsIn(id, "request") {
        RequestMatters(id);
      } else if EndsIn(id, "opc") {
        OpcMatters(id);
      } else {
        DashedMatters(id);
      }
      assert false;
    }
  }

  /** Which ids are ignored.  Take any harmless id for comparison.  An id without white space
      gives the same cleaned line as that one, in every field and before every text that ends
      it, if and only if it is harmless itself. */
  lemma {:induction false} IgnoredExactly(id: string, harmless: string)
    requires SafeId(id) && SafeId(harmless) && Harmless(harmless)
    ensures Interchangeable(id, harmless) <==> Harmless(id)
  {
    hide *;
    if Harmless(id) {
      HarmlessIsIgnored(id, harmless);
    } else {
      Differs(id, harmless);
    }
  }
}
