/** The texts that the OCI invoker writes, and lines in which an id matters. */
module InvokerTexts {
  import opened Strings
  import opened ErrorTexts
  import opened RequestIds
  import opened OpenFields
  import opened HarmlessIds

  // ---------------------------------------------------------------- the texts of the OCI invoker

  /** When nothing else is known of the call, the invoker writes "ociRequestId=", the id, ": " and
      a message. */
  ghost predicate SameForInvoker(id: string, id': string) {
    forall before, message :: SanitizeLine(before + LAST + id + (": " + message)) == SanitizeLine(before + LAST + id' + (": " + message))
  }

  ghost predicate HarmlessForInvoker(id: string) { MarkerFree(id) && !EndsIn(id, "opc-request-id") }

  lemma {:induction false} SafeBeforeColon(id: string, message: string)
    requires SafeId(id) && HarmlessForInvoker(id)
    ensures SafeTail(id, ": " + message)
  {
    hide EARLY, RunsOn, EndsIn, MarkerFree;
    var tail := ": " + message;
    assert tail[0] == ':';
    forall marker | marker in EARLY ensures !RunsOn(id, tail[0], marker) {
      if RunsOn(id, tail[0], marker) {
        RunsOnFrom(id, tail[0], marker);
        assert false;
      }
    }
  }

  /** In these texts the ids that are ignored are exactly those that contain no marker and do
      not end in "opc-request-id". */
  lemma {:induction false} InvokerTextsExactly(id: string, harmless: string)
    requires SafeId(id) && SafeId(harmless) && Harmless(harmless)
    ensures SameForInvoker(id, harmless) <==> HarmlessForInvoker(id)
  {
    FourLines();
    assert MarkerFree(harmless) && !EndsIn(harmless, "opc-request-id") && Blank("");
    hide *;
    if HarmlessForInvoker(id) {
      forall before, message
        ensures SanitizeLine(before + LAST + id + (": " + message)) == SanitizeLine(before + LAST + harmless + (": " + message))
      {
        InvokerTexts(before, id, harmless, message);
      }
      SameIfAll(id, harmless);
    } else {
      HarmlessLeaves(harmless);
      DiffersForInvoker(id, harmless);
    }
  }

  lemma {:induction false} SameIfAll(id: string, id': string)
    requires forall before, message :: SanitizeLine(before + LAST + id + (": " + message)) == SanitizeLine(before + LAST + id' + (": " + message))
    ensures SameForInvoker(id, id')
  {
    hide SanitizeLine;
  }

  lemma {:induction false} InvokerTexts(before: string, id: string, id': string, message: string)
    requires SafeId(id) && HarmlessForInvoker(id) && SafeId(id') && MarkerFree(id') && !EndsIn(id', "opc-request-id")
    ensures SanitizeLine(before + LAST + id + (": " + message)) == SanitizeLine(before + LAST + id' + (": " + message))
  {
    FourLines();
    assert MarkerFree(id) && HarmlessForInvoker(id') && Blank("");
    assert before + LAST + "" == before + LAST;
    hide *;
    SafeBeforeColon(id, message);
    SafeBeforeColon(id', message);
    RequestIdIgnored(before, LAST, "", id, id', ": " + message);
  }

  lemma {:induction false} DiffersForInvoker(id: string, id': string)
    requires SafeId(id) && !HarmlessForInvoker(id) && SanitizeLine(LAST + id' + COLON_TAIL) == "more"
    ensures !SameForInvoker(id, id')
  {
    hide *;
    if SameForInvoker(id, id') {
      InvokerLine(id, id');
      if !MarkerFree(id) {
        ContainedMarkerMatters(id);
      } else {
        HarmfulForInvoker(id);
        DashedMatters(id);
      }
      FourLines();
      assert false;
    }
  }

  lemma {:induction false} HarmfulForInvoker(id: string)
    requires !HarmlessForInvoker(id) && MarkerFree(id)
    ensures EndsIn(id, "opc-request-id")
  {
  }

  lemma {:induction false} InvokerLine(id: string, id': string)
    requires SameForInvoker(id, id')
    ensures SanitizeLine(LAST + id + COLON_TAIL) == SanitizeLine(LAST + id' + COLON_TAIL)
  {
    hide SanitizeLine;
    var before, message := "", "5. more";
    assert ": " + message == COLON_TAIL && before + LAST == LAST;
    assert SanitizeLine(before + LAST + id + (": " + message)) == SanitizeLine(before + LAST + id' + (": " + message));
  }

  // ---------------------------------------------------------------- two pairs of lines

  /** The only occurrence of the only marker that occurs, with a field of n characters. */
  lemma {:induction false} OneField(line: string, a: seq<string>, marker: string, b: seq<string>, p: nat, after: nat, end: nat, left: string)
    requires forall i :: 0 <= i < |a| ==> a[i] != "" && forall q :: !MarkerAt(line, q, a[i])
    requires forall i :: 0 <= i < |b| ==> b[i] != "" && forall q :: !MarkerAt(left, q, b[i])
    requires marker != "" && MarkerAt(line, p, marker) && (forall q :: MarkerAt(line, q, marker) ==> q == p) && after == p + |marker| < |line|
    requires after <= end <= |line| && FieldLength(line[after..], DELIMITERS) == end - after
    requires left == TrimSpace(Without(line, p, end)) && forall q :: !MarkerAt(left, q, marker)
    ensures forall i :: 0 <= i < |a + [marker] + b| ==> (a + [marker] + b)[i] != ""
    ensures RemoveFields(line, a + [marker] + b) == left
  {
    hide MarkerAt, TrimSpace, FieldLength, Without, RemoveField, Cut, SubstringAfter, FirstMarker;
    FirstMarkerIsFirst(line, marker);
    CutAt(line, marker, p, after, end);
    AbsentMarker(left, marker);
    FieldsAbsent(line, a);
    FieldsAbsent(left, b);
    assert a + [marker] + b == a + ([marker] + b) && ([marker] + b)[1..] == b;
    FieldsInTurn(line, a, [marker] + b);
  }

  /** A marker that ends in ':' ends where the line has one. */
  lemma {:induction false} ColonAt(line: string, at: nat, marker: string)
    requires GoodMarker(marker) && marker[|marker| - 1] == ':' && forall i :: 0 <= i < |line| && line[i] == ':' ==> i == at
    ensures forall p :: MarkerAt(line, p, marker) ==> p == at + 1 - |marker|
  {
    forall p | MarkerAt(line, p, marker) ensures p == at + 1 - |marker| {
      assert LowerChar(line[p + (|marker| - 1)]) == LowerChar(marker[|marker| - 1]);
    }
  }

  /** No dashed marker with '=' stands in a line that has its only '=' at position 12. */
  lemma {:induction false} EqualAbsent(line: string)
    requires forall i :: 0 <= i < |line| && line[i] == '=' ==> i == 12
    ensures forall p :: !MarkerAt(line, p, "opc-request-id=")
  {
    forall p ensures !MarkerAt(line, p, "opc-request-id=") {
      if 0 <= p && p + 15 <= |line| {
        assert LowerChar(line[p + 14]) != LowerChar("opc-request-id="[14]);
      }
    }
  }

  const SPACED := "ociRequestId=request id" + [':'] + " 5. more"
  const DASHED := "ociRequestId=opc-request-id" + [':'] + " x"
  const PLAIN := "ociRequestId=a" + [':'] + " x"

  lemma {:induction false} SpacedText()
    ensures |SPACED| == 32 && SPACED[24..] == " 5. more" && Without(SPACED, 13, 28) == LAST + "more"
    ensures forall i :: 0 <= i < |SPACED| && SPACED[i] == ':' ==> i == 23
    ensures forall i :: 0 <= i < |SPACED| && SPACED[i] == '=' ==> i == 12
    ensures SPACED[9] == 't' && SPACED[13..24] == "request id:"
  {
    assert SPACED[..13] == LAST && SPACED[28..] == "more";
  }

  lemma {:induction false} SpacedMarkers()
    ensures forall i :: 0 <= i < 4 ==> forall p :: !MarkerAt(SPACED, p, EARLY[i])
    ensures forall p :: MarkerAt(SPACED, p, "request id:") <==> p == 13
  {
    SpacedText();
    SpacedMarkersAreGood();
    PlainMarkersAreGood();
    hide GoodMarker;
    EqualAbsent(SPACED);
    ColonAt(SPACED, 23, "Opc request id:");
    ColonAt(SPACED, 23, "Opc-Request-Id:");
    ColonAt(SPACED, 23, "opc-request-id:");
    ColonAt(SPACED, 23, "request id:");
    assert LowerChar(SPACED[9 + 0]) != LowerChar("Opc request id:"[0]);
    assert "request id:"[0..0 + 11] == "request id:" && SPACED[13..13 + 11] == "request id:";
    MarkerInSlice(SPACED, 13, "request id:", 0, "request id:");
    MarkerAtItself("request id:");
  }

  lemma {:induction false} MarkerAtItself(marker: string)
    ensures MarkerAt(marker, 0, marker)
  {
  }

  /** A field without a delimiter that nothing but its own marker opens. */
  lemma {:induction false} JoinedIsFree()
    ensures var left := LAST + "more";
            && |left| == 17 && left != LAST && Joined(LAST, left) && TrimSpace(left) == left && forall p :: !MarkerAt(left, p, "request id:")
  {
    var left := LAST + "more";
    assert left[..13] == LAST && left[0] == 'o' && left[16] == 'e';
    assert forall i :: 0 <= i < |left| ==> left[i] != ':' && left[i] != ' ';
    AlreadyTrimmed(left);
    SpacedMarkersAreGood();
    hide GoodMarker;
    ColonAt(left, 17, "request id:");
  }

  lemma {:induction false} ShortField()
    ensures FieldLength(" 5. more", DELIMITERS) == 4
  {
    PlainField(" 5", '.', "more");
    assert " 5" + ['.'] + " " + "more" == " 5. more";
    hide FieldLength;
    DelimitedField(" 5. more", 2);
  }

  lemma {:induction false} SpacedLine()
    ensures RemoveFields(SPACED, EARLY) == LAST + "more"
  {
    var a := EARLY[..4];
    assert EARLY == a + ["request id:"] + [] && forall i :: 0 <= i < |a| ==> a[i] == EARLY[i] != "";
    assert "request id:" != "" && |"request id:"| == 11;
    hide *;
    SpacedText();
    SpacedMarkers();
    JoinedIsFree();
    ShortField();
    OneField(SPACED, a, "request id:", [], 13, 24, 28, LAST + "more");
  }

  lemma {:induction false} DashedText()
    ensures |DASHED| == 30 && DASHED[28..] == " x" && Without(DASHED, 13, 30) == LAST
    ensures forall i :: 0 <= i < |DASHED| && DASHED[i] == ':' ==> i == 27
    ensures DASHED[16] == '-' && DASHED[13..28] == "opc-request-id:"
  {
    assert DASHED[..13] == LAST && DASHED[30..] == "";
  }

  lemma {:induction false} DashedMarkers()
    ensures forall p :: !MarkerAt(DASHED, p, "Opc request id:")
    ensures forall p :: MarkerAt(DASHED, p, "Opc-Request-Id:") <==> p == 13
  {
    DashedText();
    SpacedMarkersAreGood();
    PlainMarkersAreGood();
    hide GoodMarker;
    ColonAt(DASHED, 27, "Opc request id:");
    ColonAt(DASHED, 27, "Opc-Request-Id:");
    assert LowerChar(DASHED[13 + 3]) != LowerChar("Opc request id:"[3]);
    forall t | 0 <= t < 15 ensures LowerChar(DASHED[13 + t]) == LowerChar("Opc-Request-Id:"[t]) {
      assert DASHED[13 + t] == "opc-request-id:"[t];
    }
  }

  lemma {:induction false} DashedLine()
    ensures RemoveFields(DASHED, EARLY) == LAST
  {
    var b := EARLY[2..];
    assert EARLY == ["Opc request id:"] + ["Opc-Request-Id:"] + b;
    assert |"Opc-Request-Id:"| == 15;
    hide *;
    ShortRest();
    DashedText();
    DashedMarkers();
    LastIsFree();
    OneField(DASHED, ["Opc request id:"], "Opc-Request-Id:", b, 13, 28, 30, LAST);
  }

  lemma {:induction false} ShortRest()
    ensures FieldLength(" x", DELIMITERS) == 2
  {
    assert NoDelimiter(" x") && " x"[0..] == " x";
    hide FieldLength;
    NoDelimiterBehind(" x", 0);
  }

  /** Nothing is removed from the last marker on its own. */
  lemma {:induction false} LastIsFree()
    ensures TrimSpace(LAST) == LAST && forall p :: !MarkerAt(LAST, p, "Opc-Request-Id:")
    ensures forall i :: 0 <= i < |EARLY[2..]| ==> EARLY[2..][i] != "" && forall q :: !MarkerAt(LAST, q, EARLY[2..][i])
  {
    AlreadyTrimmed(LAST);
    LastOpens();
    assert EARLY[1] == "Opc-Request-Id:" && forall i :: 0 <= i < |EARLY[2..]| ==> EARLY[2..][i] == EARLY[i + 2] != "";
    hide MarkerAt, TrimSpace, GoodMarker;
  }

  lemma {:induction false} PlainText()
    ensures |PLAIN| == 17 && PLAIN[..13] == LAST && NoDelimiter(PLAIN) && TrimSpace(PLAIN) == PLAIN
    ensures forall i :: 0 <= i < |PLAIN| && PLAIN[i] == ':' ==> i == 14
    ensures forall i :: 0 <= i < |PLAIN| && PLAIN[i] == '=' ==> i == 12
    ensures PLAIN[1] == 'c' && PLAIN[4] == 'e' && PLAIN[16] == 'x'
  {
    AlreadyTrimmed(PLAIN);
  }

  lemma {:induction false} PlainLine()
    ensures RemoveFields(PLAIN, EARLY) == PLAIN
  {
    PlainText();
    SpacedMarkersAreGood();
    PlainMarkersAreGood();
    hide GoodMarker, RemoveFields;
    EqualAbsent(PLAIN);
    ColonAt(PLAIN, 14, "Opc request id:");
    ColonAt(PLAIN, 14, "Opc-Request-Id:");
    ColonAt(PLAIN, 14, "opc-request-id:");
    ColonAt(PLAIN, 14, "request id:");
    assert LowerChar(PLAIN[0 + 1]) != LowerChar("Opc request id:"[1]) && LowerChar(PLAIN[0 + 1]) != LowerChar("Opc-Request-Id:"[1]);
    assert LowerChar(PLAIN[0 + 1]) != LowerChar("opc-request-id:"[1]) && LowerChar(PLAIN[4 + 0]) != LowerChar("request id:"[0]);
    FieldsAbsent(PLAIN, EARLY);
  }

  lemma {:induction false} PlainIsHarmless()
    ensures SafeId("a") && Harmless("a")
  {
    MarkersAreGood();
  }

  /** Pairs of lines that differ in an id only and are cleaned to different texts.  The second
      pair has the form of the invoker's texts. */
  lemma {:induction false} IdsCanMatter()
    ensures SanitizeLine("ociRequestId=request id: 5. more") == "" && SanitizeLine("ociRequestId=a id: 5. more") == "more"
    ensures SanitizeLine("ociRequestId=opc-request-id: x") == "ociRequestId=" && SanitizeLine("ociRequestId=a: x") == ""
  {
    assert "ociRequestId=request id: 5. more" == SPACED && "ociRequestId=opc-request-id: x" == DASHED && "ociRequestId=a: x" == PLAIN;
    assert LAST + "a" + ID_TAIL == "ociRequestId=a id: 5. more";
    assert RemoveFields("", []) == "" && RemoveFields(LAST, []) == LAST && LAST == "ociRequestId=";
    AlreadyTrimmed("");
    AlreadyTrimmed(LAST);
    AlreadyTrimmed(SPACED);
    AlreadyTrimmed(DASHED);
    hide *;
    PlainIsHarmless();
    HarmlessLeaves("a");
    LastOpens();
    JoinedIsFree();
    SpacedLine();
    DashedLine();
    PlainLine();
    PlainText();
    OwnLeaves();
    InThreeSteps(EARLY, LAST, [], SPACED, "");
    InThreeSteps(EARLY, LAST, [], DASHED, LAST);
    InThreeSteps(EARLY, LAST, [], PLAIN, "");
  }

  lemma {:induction false} OwnLeaves()
    ensures RemoveField(LAST + "more", LAST) == "" && RemoveField(LAST, LAST) == LAST && RemoveField(PLAIN, LAST) == ""
  {
    PlainText();
    JoinedIsFree();
    PlainMarkersAreGood();
    assert LAST[..|LAST|] == LAST;
    assert Joined(LAST, LAST) && Joined(LAST, PLAIN);
    hide GoodMarker, Joined, RemoveField;
    OwnOfJoined(LAST, LAST + "more");
    OwnOfJoined(LAST, LAST);
    OwnOfJoined(LAST, PLAIN);
  }
}
