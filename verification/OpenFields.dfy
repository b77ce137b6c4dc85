/** What the normaliser makes of a line that opens with a field.

    If the line has one delimiter, before its last word, then that word is left, unless a
    marker that is removed before the field's own occurs in it: then its removal takes the
    delimiter along, the field has no end, and the last word goes with it. */
module OpenFields {
  import opened Strings
  import opened ErrorTexts
  import opened RequestIds

  // ---------------------------------------------------------------- evaluating a removal

  lemma {:induction false} AbsentMarker(value: string, marker: string)
    requires marker != "" && forall p :: !MarkerAt(value, p, marker)
    ensures RemoveField(value, marker) == value
  {
    FirstMarkerIsFirst(value, marker);
    AfterFirstMarker(value, marker);
  }

  lemma {:induction false} TooShort(value: string, marker: string)
    requires |value| < |marker|
    ensures RemoveField(value, marker) == value
  {
    AbsentMarker(value, marker);
  }

  /** Without a delimiter the field is the rest of the text. */
  lemma {:induction false} EndlessField(rest: string, delimiters: seq<string>)
    requires NoDelimiter(rest) && forall i :: 0 <= i < |delimiters| ==> IsDelimiter(delimiters[i])
    ensures FieldLength(rest, delimiters) == |rest|
  {
    if delimiters != [] {
      forall q | 0 <= q && q + 2 <= |rest| ensures !Occurs(rest, q, delimiters[0]) {
        assert rest[q..q + 2][0] == rest[q] && rest[q..q + 2][1] == rest[q + 1];
      }
      EndlessField(rest, delimiters[1..]);
    }
  }

  /** The only delimiter of the text stands at position k. */
  ghost predicate OneDelimiter(rest: string, k: int) { forall i :: DelimiterBefore(rest, i) <==> i == k + 1 }

  /** A delimiter ends at position i. */
  predicate DelimiterBefore(s: string, i: int) { 0 < i < |s| && IsPunct(s[i - 1]) && s[i] == ' ' }

  lemma {:induction false} DelimitedBy(rest: string, k: nat, delimiters: seq<string>)
    requires OneDelimiter(rest, k) && DelimiterBefore(rest, k + 1) && forall i :: 0 <= i < |delimiters| ==> IsDelimiter(delimiters[i])
    requires exists i :: 0 <= i < |delimiters| && IsDelimiter(delimiters[i]) && delimiters[i][0] == rest[k]
    ensures FieldLength(rest, delimiters) == k + 2
  {
    var d := delimiters[0];
    forall q | 0 <= q && q + 2 <= |rest| ensures Occurs(rest, q, d) <==> q == k && d[0] == rest[k] {
      assert rest[q..q + 2] == [rest[q], rest[q + 1]];
      assert DelimiterBefore(rest, q + 1) <==> q + 1 == k + 1;
    }
    if d[0] == rest[k] {
      assert Occurs(rest, k, d);
    } else {
      var i :| 0 <= i < |delimiters| && IsDelimiter(delimiters[i]) && delimiters[i][0] == rest[k];
      assert delimiters[1..][i - 1] == delimiters[i];
      DelimitedBy(rest, k, delimiters[1..]);
    }
  }

  lemma {:induction false} DelimitedField(rest: string, k: nat)
    requires OneDelimiter(rest, k)
    ensures k + 2 <= |rest| && FieldLength(rest, DELIMITERS) == k + 2
  {
    assert DelimiterBefore(rest, k + 1);
    assert DELIMITERS[0][0] == '.' && DELIMITERS[1][0] == ';' && DELIMITERS[2][0] == ',';
    DelimitersAreDelimiters();
    DelimitedBy(rest, k, DELIMITERS);
  }

  lemma {:induction false} AlreadyTrimmed(value: string)
    requires value == "" || (!IsSpace(value[0]) && !IsSpace(value[|value| - 1]))
    ensures TrimSpace(value) == value
  {
  }

  lemma {:induction false} FieldsAbsent(value: string, markers: seq<string>)
    requires forall i :: 0 <= i < |markers| ==> markers[i] != "" && forall p :: !MarkerAt(value, p, markers[i])
    ensures RemoveFields(value, markers) == value
  {
    hide RemoveField, MarkerAt;
    if markers != [] {
      AbsentMarker(value, markers[0]);
      FieldsAbsent(value, markers[1..]);
    }
  }

  lemma {:induction false} FieldsInTurn(value: string, a: seq<string>, b: seq<string>)
    requires forall i :: 0 <= i < |a| ==> a[i] != ""
    requires forall i :: 0 <= i < |b| ==> b[i] != ""
    requires forall i :: 0 <= i < |a + b| ==> (a + b)[i] != ""
    ensures RemoveFields(value, a + b) == RemoveFields(RemoveFields(value, a), b)
    decreases |a|
  {
    hide RemoveField;
    if a == [] {
      assert a + b == b;
    } else {
      assert (a + b)[1..] == a[1..] + b;
      FieldsInTurn(RemoveField(value, a[0]), a[1..], b);
    }
  }

  /** One round, given where the first marker and its field end. */
  lemma {:induction false} CutAt(value: string, marker: string, p: nat, after: nat, end: nat)
    requires marker != "" && p == FirstMarker(value, marker) && after == p + |marker| && after < |value|
    requires after <= end <= |value| && FieldLength(value[after..], DELIMITERS) == end - after
    ensures SubstringAfter(value, marker) != "" && Cut(value, marker) == TrimSpace(Without(value, p, end))
    ensures RemoveField(value, marker) == RemoveField(Cut(value, marker), marker)
  {
    hide FirstMarker, FieldLength, DELIMITERS, TrimSpace, SubstringAfter, Cut, Without;
    AfterFirstMarker(value, marker);
    CutIs(value, marker, value[after..], p, end - after);
  }

  lemma {:induction false} NoDelimiterBehind(value: string, i: nat)
    requires NoDelimiter(value) && i <= |value|
    ensures FieldLength(value[i..], DELIMITERS) == |value| - i
  {
    var rest := value[i..];
    assert forall k :: 0 <= k < |rest| ==> rest[k] == value[i + k];
    DelimitersAreDelimiters();
    assert NoDelimiter(rest);
    hide NoDelimiter, DELIMITERS, IsDelimiter;
    EndlessField(rest, DELIMITERS);
  }

  // ---------------------------------------------------------------- a line with one delimiter

  /** The marker of a field that opens the line, between the markers removed before and after. */
  ghost predicate Opening(pre: seq<string>, own: string, post: seq<string>) {
    && MARKERS == pre + [own] + post && GoodMarker(own)
    && (forall i :: 0 <= i < |pre| ==> GoodMarker(pre[i]) && |pre[i]| > 6 && forall p :: !MarkerAt(own, p, pre[i]))
    && (forall i :: 0 <= i < |post| ==> |post[i]| > 6 && forall p :: !MarkerAt(own, p, post[i]))
  }

  /** An open field without a delimiter. */
  ghost predicate Joined(own: string, value: string) {
    0 < |own| <= |value| && value[..|own|] == own && NoDelimiter(value) && !IsSpace(value[|value| - 1])
  }

  lemma {:induction false} InOwn(own: string, value: string, marker: string, p: int)
    requires |own| <= |value| && value[..|own|] == own && p + |marker| <= |own| && MarkerAt(value, p, marker)
    ensures MarkerAt(own, p, marker)
  {
    forall t | 0 <= t < |marker| ensures LowerChar(own[p + t]) == LowerChar(marker[t]) {
      assert own[p + t] == value[p + t];
    }
  }

  /** No marker but its own begins where the field opens. */
  lemma {:induction false} MarkerIsBehind(own: string, value: string, marker: string, p: int)
    requires GoodMarker(own) && GoodMarker(marker) && |own| <= |value| && value[..|own|] == own
    requires MarkerAt(value, p, marker) && forall q :: !MarkerAt(own, q, marker)
    ensures p >= |own|
  {
    assert marker[..|marker|] == marker && value[|own| - 1] == own[|own| - 1];
    if p + |marker| <= |own| {
      InOwn(own, value, marker, p);
      assert false;
    } else if p < |own| {
      NotOverMark(value, |own| - 1, marker, |marker|, p);
      assert false;
    }
  }

  /** A cut in such a field goes to its end. */
  lemma {:induction false} JoinedCut(own: string, value: string, marker: string)
    requires GoodMarker(own) && Joined(own, value) && GoodMarker(marker) && SubstringAfter(value, marker) != ""
    requires forall q :: !MarkerAt(own, q, marker)
    ensures Joined(own, Cut(value, marker)) && |Cut(value, marker)| < |value|
  {
    assert marker != "";
    hide SubstringAfter, FirstMarker, MarkerAt, GoodMarker, FieldLength, TrimSpace, Cut;
    var p := FirstMarker(value, marker);
    FirstMarkerIsFirst(value, marker);
    AfterFirstMarker(value, marker);
    MarkerIsBehind(own, value, marker, p);
    NoDelimiterBehind(value, p + |marker|);
    WithoutEnd(value, p);
    CutAt(value, marker, p, p + |marker|, |value|);
    TrimmedFront(own, value, p);
  }

  lemma {:induction false} TrimmedFront(own: string, value: string, p: nat)
    requires Joined(own, value) && |own| <= p <= |value| && GoodMarker(own)
    ensures Joined(own, TrimSpace(value[..p])) && |TrimSpace(value[..p])| <= p
  {
    var front := value[..p];
    assert front[0] == own[0] && TrimLeft(front) == front;
    assert front[|own| - 1] == own[|own| - 1] && !IsSpace(own[|own| - 1]);
    TrimRightStopsAt(front, |own| - 1);
    var r := TrimRight(front);
    assert r == value[..|r|];
  }

  lemma {:induction false} TrimRightStopsAt(s: string, i: nat)
    requires i < |s| && !IsSpace(s[i])
    ensures i < |TrimRight(s)|
  {
    if IsSpace(s[|s| - 1]) {
      TrimRightStopsAt(s[..|s| - 1], i);
    }
  }

  lemma {:induction false} JoinedField(own: string, value: string, marker: string)
    requires GoodMarker(own) && Joined(own, value) && GoodMarker(marker) && forall q :: !MarkerAt(own, q, marker)
    ensures Joined(own, RemoveField(value, marker))
    decreases |value|
  {
    assert marker != "";
    hide Joined, GoodMarker, MarkerAt, SubstringAfter, Cut;
    if SubstringAfter(value, marker) != "" {
      JoinedCut(own, value, marker);
      JoinedField(own, Cut(value, marker), marker);
    }
  }

  lemma {:induction false} JoinedFields(own: string, value: string, markers: seq<string>)
    requires GoodMarker(own) && Joined(own, value)
    requires forall i :: 0 <= i < |markers| ==> markers[i] != "" && GoodMarker(markers[i]) && forall q :: !MarkerAt(own, q, markers[i])
    ensures Joined(own, RemoveFields(value, markers))
    decreases |markers|
  {
    hide Joined, GoodMarker, MarkerAt, RemoveField;
    if markers != [] {
      JoinedField(own, value, markers[0]);
      JoinedFields(own, RemoveField(value, markers[0]), markers[1..]);
    }
  }

  /** Of the field itself the marker is left, if it stands alone, or nothing. */
  lemma {:induction false} OwnOfJoined(own: string, value: string)
    requires GoodMarker(own) && Joined(own, value)
    ensures RemoveField(value, own) == if value == own then own else ""
  {
    assert own != "" && value == own + value[|own|..];
    assert value != own ==> |own| < |value|;
    OpensAt(value, own);
    assert NoDelimiter(value);
    hide *;
    FirstMarkerIsFirst(value, own);
    if value == own {
      AfterFirstMarker(value, own);
      NothingToRemove(value, own);
    } else {
      NoDelimiterBehind(value, |own|);
      AlreadyTrimmed("");
      WithoutEnd(value, 0);
      CutAt(value, own, 0, |own|, |value|);
      TooShort("", own);
    }
  }

  lemma {:induction false} WithoutEnd(value: string, p: nat)
    requires p <= |value|
    ensures Without(value, p, |value|) == value[..p] && (p == 0 ==> Without(value, p, |value|) == "")
  {
  }

  lemma {:induction false} NothingToRemove(value: string, marker: string)
    requires marker != "" && SubstringAfter(value, marker) == ""
    ensures RemoveField(value, marker) == value
  {
    hide SubstringAfter, Cut;
  }

  lemma {:induction false} OpensAt(value: string, marker: string)
    requires |marker| <= |value| && value[..|marker|] == marker
    ensures MarkerAt(value, 0, marker)
  {
    assert value[0..0 + |marker|] == marker[0..0 + |marker|];
    MarkerInSlice(value, 0, marker, 0, marker);
  }

  /** A line that opens with a field and has one delimiter, at position d, before its last word. */
  ghost predicate OpenLine(own: string, line: string, d: nat) {
    && |own| <= d && |line| == d + 6 && line[..|own|] == own && line[d + 2..] == "more" && OneDelimiter(line, d)
  }

  /** Some marker of the list occurs in the line. */
  ghost predicate Meets(line: string, markers: seq<string>) {
    exists i, p :: 0 <= i < |markers| && MarkerAt(line, p, markers[i])
  }

  lemma {:induction false} DelimiterIsThere(own: string, line: string, d: nat)
    requires OpenLine(own, line, d)
    ensures IsPunct(line[d]) && line[d + 1] == ' '
  {
    assert DelimiterBefore(line, d + 1);
  }

  /** A marker stands before the delimiter or not at all. */
  lemma {:induction false} MarkerBeforeDelimiter(own: string, line: string, d: nat, marker: string, p: int)
    requires OpenLine(own, line, d) && GoodMarker(marker) && |marker| > 6 && MarkerAt(line, p, marker)
    ensures p + |marker| <= d
  {
    DelimiterIsThere(own, line, d);
    hide OneDelimiter;
    if p + |marker| > d {
      NotOverPunct(line, d, marker, p);
    }
  }

  lemma {:induction false} NotOverPunct(line: string, d: nat, marker: string, p: int)
    requires GoodMarker(marker) && d < |line| && IsPunct(line[d]) && p <= d < p + |marker|
    ensures !MarkerAt(line, p, marker)
  {
    if 0 <= p && p + |marker| <= |line| {
      assert line[p + (d - p)] == line[d] && !IsPunct(marker[d - p]);
      assert LowerChar(line[p + (d - p)]) != LowerChar(marker[d - p]);
    }
  }

  /** Behind any marker the field ends at the delimiter. */
  lemma {:induction false} FieldToDelimiter(own: string, line: string, d: nat, after: nat)
    requires OpenLine(own, line, d) && after <= d
    ensures FieldLength(line[after..], DELIMITERS) == d + 2 - after
  {
    var rest := line[after..];
    forall i ensures DelimiterBefore(rest, i) <==> i == (d - after) + 1 {
      if 0 < i < |rest| {
        assert rest[i] == line[after + i] && rest[i - 1] == line[after + i - 1];
        assert DelimiterBefore(rest, i) <==> DelimiterBefore(line, after + i);
      }
    }
    hide DelimiterBefore;
    DelimitedField(rest, d - after);
  }

  /** Cutting a field inside the open one joins what stands before it with the last word. */
  lemma {:induction false} FirstCutJoins(own: string, line: string, d: nat, marker: string)
    requires GoodMarker(own) && OpenLine(own, line, d) && GoodMarker(marker) && |marker| > 6
    requires (forall q :: !MarkerAt(own, q, marker)) && exists p :: MarkerAt(line, p, marker)
    ensures Joined(own, RemoveField(line, marker))
  {
    var p := FirstMarker(line, marker);
    FirstMarkerIsFirst(line, marker);
    hide *;
    FirstCutPlace(own, line, d, marker, p);
    FirstCutIs(own, line, d, marker, p);
    JoinedField(own, Cut(line, marker), marker);
  }

  lemma {:induction false} FirstCutPlace(own: string, line: string, d: nat, marker: string, p: int)
    requires GoodMarker(own) && OpenLine(own, line, d) && GoodMarker(marker) && |marker| > 6 && MarkerAt(line, p, marker)
    requires forall q :: !MarkerAt(own, q, marker)
    ensures |own| <= p && p + |marker| <= d
  {
    assert |own| <= |line| && line[..|own|] == own;
    hide MarkerAt, GoodMarker, OpenLine;
    MarkerIsBehind(own, line, marker, p);
    MarkerBeforeDelimiter(own, line, d, marker, p);
  }

  lemma {:induction false} OpenLineLength(own: string, line: string, d: nat)
    requires OpenLine(own, line, d)
    ensures |line| == d + 6 && |own| <= d
  {
    hide OneDelimiter;
  }

  /** The beginning of a line and its last word. */
  function Join(line: string, p: nat): string
    requires p <= |line|
  {
    line[..p] + "more"
  }

  lemma {:induction false} FirstCutIs(own: string, line: string, d: nat, marker: string, p: nat)
    requires GoodMarker(own) && OpenLine(own, line, d) && marker != "" && p == FirstMarker(line, marker) && |own| <= p && p + |marker| <= d
    ensures SubstringAfter(line, marker) != "" && Joined(own, Cut(line, marker))
    ensures RemoveField(line, marker) == RemoveField(Cut(line, marker), marker)
  {
    hide *;
    OpenLineLength(own, line, d);
    LineWithout(own, line, d, p);
    FieldToDelimiter(own, line, d, p + |marker|);
    CutAt(line, marker, p, p + |marker|, d + 2);
    JoinIsJoined(own, line, d, p);
  }

  lemma {:induction false} LineWithout(own: string, line: string, d: nat, p: nat)
    requires OpenLine(own, line, d) && p <= d && d + 2 <= |line|
    ensures Without(line, p, d + 2) == Join(line, p) && (p == 0 ==> Without(line, p, d + 2) == "more")
  {
  }

  lemma {:induction false} JoinIsJoined(own: string, line: string, d: nat, p: nat)
    requires GoodMarker(own) && OpenLine(own, line, d) && |own| <= p <= d && p <= |line|
    ensures Joined(own, Join(line, p)) && TrimSpace(Join(line, p)) == Join(line, p)
  {
    var joined := line[..p] + "more";
    forall i | 0 < i < |joined| ensures !(IsPunct(joined[i - 1]) && joined[i] == ' ') {
      if i < p {
        assert !DelimiterBefore(line, i);
      }
    }
    assert joined[0] == own[0] && joined[|joined| - 1] == 'e';
    AlreadyTrimmed(joined);
  }

  /** The markers before the own one leave the line alone, or the field without its end. */
  lemma {:induction false} FieldsBefore(own: string, line: string, d: nat, markers: seq<string>)
    requires GoodMarker(own) && OpenLine(own, line, d)
    requires forall i :: 0 <= i < |markers| ==>
               markers[i] != "" && GoodMarker(markers[i]) && |markers[i]| > 6 && forall q :: !MarkerAt(own, q, markers[i])
    ensures if Meets(line, markers) then Joined(own, RemoveFields(line, markers)) else RemoveFields(line, markers) == line
    decreases |markers|
  {
    hide Joined, GoodMarker, MarkerAt, RemoveField, OpenLine;
    if markers != [] {
      if exists p :: MarkerAt(line, p, markers[0]) {
        FirstCutJoins(own, line, d, markers[0]);
        JoinedFields(own, RemoveField(line, markers[0]), markers[1..]);
      } else {
        AbsentMarker(line, markers[0]);
        FieldsBefore(own, line, d, markers[1..]);
        assert Meets(line, markers) <==> Meets(line, markers[1..]) by {
          MeetsTail(line, markers);
        }
      }
    }
  }

  lemma {:induction false} MeetsTail(line: string, markers: seq<string>)
    requires markers != [] && forall p :: !MarkerAt(line, p, markers[0])
    ensures Meets(line, markers) <==> Meets(line, markers[1..])
  {
    hide MarkerAt;
    if Meets(line, markers) {
      var i, p :| 0 <= i < |markers| && MarkerAt(line, p, markers[i]);
      assert markers[1..][i - 1] == markers[i];
    }
    if Meets(line, markers[1..]) {
      var i, p :| 0 <= i < |markers| - 1 && MarkerAt(line, p, markers[1..][i]);
      assert markers[i + 1] == markers[1..][i];
    }
  }

  /** Without them the field goes up to the delimiter. */
  lemma {:induction false} OwnOfLine(own: string, line: string, d: nat)
    requires GoodMarker(own) && |own| > 6 && OpenLine(own, line, d)
    ensures RemoveField(line, own) == "more"
  {
    OpensAt(line, own);
    FirstMarkerIsFirst(line, own);
    assert own != "" && |line| == d + 6 && |own| <= d;
    hide *;
    OwnCutIs(own, line, d);
    TooShort("more", own);
  }

  lemma {:induction false} OwnCutIs(own: string, line: string, d: nat)
    requires own != "" && OpenLine(own, line, d) && FirstMarker(line, own) == 0
    ensures SubstringAfter(line, own) != "" && RemoveField(line, own) == RemoveField("more", own)
  {
    assert |line| == d + 6 && |own| <= d;
    AlreadyTrimmed("more");
    hide *;
    LineWithout(own, line, d, 0);
    FieldToDelimiter(own, line, d, |own|);
    CutAt(line, own, 0, |own|, d + 2);
  }

  /** The line after the markers before the own one decides what is left. */
  lemma {:induction false} InThreeSteps(pre: seq<string>, own: string, post: seq<string>, line: string, left: string)
    requires Opening(pre, own, post) && TrimSpace(line) == line && TrimSpace(left) == left
    requires RemoveField(RemoveFields(line, pre), own) == left && RemoveFields(left, post) == left
    ensures SanitizeLine(line) == left
  {
    hide RemoveField, MarkerAt, TrimSpace;
    assert pre + ([own] + post) == MARKERS;
    assert [own][1..] == [] && ([own] + post)[0] == own && ([own] + post)[1..] == post;
    FieldsInTurn(line, pre, [own] + post);
  }

  /** Of a line that is an open field without a delimiter, at most the marker is left. */
  lemma {:induction false} JoinedTells(pre: seq<string>, own: string, post: seq<string>, line: string)
    requires Opening(pre, own, post) && TrimSpace(line) == line && Joined(own, RemoveFields(line, pre))
    ensures SanitizeLine(line) in {"", own}
  {
    AlreadyTrimmed("");
    assert own != "" && IsMark(own[|own| - 1]);
    AlreadyTrimmed(own);
    hide TrimSpace, RemoveField, Joined, MarkerAt;
    OwnOfJoined(own, RemoveFields(line, pre));
    FieldsAbsent(own, post);
    ShortIsAbsent("", post);
    InThreeSteps(pre, own, post, line, RemoveField(RemoveFields(line, pre), own));
  }

  lemma {:induction false} LineIsTrimmed(own: string, line: string, d: nat)
    requires GoodMarker(own) && OpenLine(own, line, d)
    ensures TrimSpace(line) == line
  {
    assert line[0] == own[0] && line[|line| - 1] == line[d + 2..][3];
    AlreadyTrimmed(line);
  }

  /** Whether a line that opens with a field keeps its last word shows whether a marker that is
      removed before the field's own occurs in it. */
  lemma {:induction false} LineTells(pre: seq<string>, own: string, post: seq<string>, line: string, d: nat)
    requires Opening(pre, own, post) && |own| > 6 && OpenLine(own, line, d)
    ensures if Meets(line, pre) then SanitizeLine(line) in {"", own} else SanitizeLine(line) == "more"
  {
    AlreadyTrimmed("more");
    hide TrimSpace, RemoveField, Joined, MarkerAt, OpenLine, SanitizeLine, Meets;
    LineIsTrimmed(own, line, d);
    FieldsBefore(own, line, d, pre);
    if Meets(line, pre) {
      JoinedTells(pre, own, post, line);
    } else {
      OwnOfLine(own, line, d);
      ShortIsAbsent("more", post);
      InThreeSteps(pre, own, post, line, "more");
    }
  }

  lemma {:induction false} ShortIsAbsent(value: string, markers: seq<string>)
    requires |value| <= 6 && forall i :: 0 <= i < |markers| ==> markers[i] != "" && |markers[i]| > 6
    ensures RemoveFields(value, markers) == value
  {
    FieldsAbsent(value, markers);
  }
}
