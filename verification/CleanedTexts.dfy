/** What the normalised error text keeps: every word that is left of every line that is not
    dropped, in order, with single blanks between them; and of a line, everything but the
    fields of its markers. */
module CleanedTexts {
  import opened Strings
  import opened ErrorTexts
  import opened RequestIds

  // ---------------------------------------------------------------- words

  predicate IsWord(w: string) { w != "" && forall i :: 0 <= i < |w| ==> !IsSpace(w[i]) }

  function NoSpaces(s: string): string {
    if s == [] then [] else (if IsSpace(s[0]) then [] else [s[0]]) + NoSpaces(s[1..])
  }

  function Concat(words: seq<string>): string { if words == [] then [] else words[0] + Concat(words[1..]) }

  /** The fields of a text are words, and together they are the text without its white space. */
  lemma {:induction false} FieldsAreWords(s: string)
    ensures forall k :: 0 <= k < |Fields(s)| ==> IsWord(Fields(s)[k])
    ensures Concat(Fields(s)) == NoSpaces(s)
  {
    hide IsSpace;
    if s != [] {
      FieldsAreWords(s[1..]);
      if !IsSpace(s[0]) {
        var rest := Fields(s[1..]);
        if |s| == 1 || IsSpace(s[1]) || rest == [] {
          assert Fields(s)[1..] == rest;
        } else {
          assert Fields(s)[1..] == rest[1..];
          assert rest[0] + Concat(rest[1..]) == Concat(rest);
          assert ([s[0]] + rest[0]) + Concat(rest[1..]) == [s[0]] + (rest[0] + Concat(rest[1..]));
        }
      }
    }
  }

  lemma {:induction false} FieldsOfWord(w: string)
    requires IsWord(w)
    ensures Fields(w) == [w]
  {
    hide IsSpace;
    if |w| == 1 {
      assert w[1..] == [] && w == [w[0]];
    } else {
      FieldsOfWord(w[1..]);
      assert [w[0]] + w[1..] == w;
    }
  }

  /** A character before other fields: a word of its own, or the beginning of the first one. */
  function Attach(c: char, alone: bool, rest: seq<string>): seq<string> {
    if alone || rest == [] then [[c]] + rest else [[c] + rest[0]] + rest[1..]
  }

  lemma {:induction false} FieldsStep(s: string)
    requires s != []
    ensures Fields(s) == if IsSpace(s[0]) then Fields(s[1..]) else Attach(s[0], |s| == 1 || IsSpace(s[1]), Fields(s[1..]))
    ensures !IsSpace(s[0]) ==> Fields(s) != []
  {
    hide IsSpace;
  }

  lemma {:induction false} AttachAcross(c: char, alone: bool, rest: seq<string>, more: seq<string>)
    requires alone || rest != []
    ensures Attach(c, alone, rest + more) == Attach(c, alone, rest) + more
  {
    if !alone {
      assert (rest + more)[0] == rest[0] && (rest + more)[1..] == rest[1..] + more;
      assert [[c] + rest[0]] + (rest[1..] + more) == ([[c] + rest[0]] + rest[1..]) + more;
    } else {
      assert [[c]] + (rest + more) == ([[c]] + rest) + more;
    }
  }

  /** White space separates: the fields to its left, then those to its right. */
  lemma {:induction false} FieldsAcross(a: string, c: char, b: string)
    requires IsSpace(c)
    ensures Fields(a + [c] + b) == Fields(a) + Fields(b)
  {
    var s := a + [c] + b;
    hide Fields, IsSpace, Attach;
    FieldsStep(s);
    FieldsOfNothing();
    if a == [] {
      assert s[1..] == b && s[0] == c;
    } else {
      assert s[1..] == a[1..] + [c] + b && s[0] == a[0];
      assert |a| == 1 ==> s[1] == c && a[1..] == [];
      assert |a| > 1 ==> s[1] == a[1];
      FieldsAcross(a[1..], c, b);
      FieldsStep(a);
      if |a| > 1 {
        FieldsStep(a[1..]);
      }
      if !IsSpace(a[0]) {
        AttachAcross(a[0], |a| == 1 || IsSpace(a[1]), Fields(a[1..]), Fields(b));
      }
    }
  }

  function AllFields(parts: seq<string>): seq<string> { if parts == [] then [] else Fields(parts[0]) + AllFields(parts[1..]) }

  lemma {:induction false} FieldsOfJoin(parts: seq<string>)
    ensures Fields(JoinWithSpace(parts)) == AllFields(parts)
  {
    hide Fields;
    FieldsOfNothing();
    if |parts| == 1 {
      assert parts[1..] == [] && AllFields(parts) == Fields(parts[0]) + [];
    } else if parts != [] {
      FieldsOfJoin(parts[1..]);
      assert IsSpace(' ') && parts[0] + " " + JoinWithSpace(parts[1..]) == parts[0] + [' '] + JoinWithSpace(parts[1..]);
      FieldsAcross(parts[0], ' ', JoinWithSpace(parts[1..]));
    }
  }

  lemma {:induction false} FieldsOfNothing()
    ensures Fields("") == []
  {
  }

  lemma {:induction false} FieldsOfWords(words: seq<string>)
    requires forall k :: 0 <= k < |words| ==> IsWord(words[k])
    ensures AllFields(words) == words
  {
    hide Fields, IsWord;
    if words != [] {
      FieldsOfWord(words[0]);
      FieldsOfWords(words[1..]);
      assert words == [words[0]] + words[1..];
    }
  }

  /** No white space at the ends, and between the words single blanks only. */
  predicate SingleSpaced(text: string) {
    forall i :: 0 <= i < |text| && IsSpace(text[i]) ==> text[i] == ' ' && 0 < i < |text| - 1 && !IsSpace(text[i + 1])
  }

  lemma {:induction false} JoinedWordsAreSpaced(words: seq<string>)
    requires forall k :: 0 <= k < |words| ==> IsWord(words[k])
    ensures SingleSpaced(JoinWithSpace(words))
    ensures words != [] ==> JoinWithSpace(words) != "" && !IsSpace(JoinWithSpace(words)[0])
  {
    hide IsSpace;
    if |words| > 1 {
      JoinedWordsAreSpaced(words[1..]);
      var head, rest := words[0], JoinWithSpace(words[1..]);
      var text := head + " " + rest;
      assert forall i :: 0 <= i < |head| ==> text[i] == head[i] && !IsSpace(text[i]);
      forall i | 0 <= i < |text| && IsSpace(text[i]) ensures text[i] == ' ' && 0 < i < |text| - 1 && !IsSpace(text[i + 1]) {
        if i > |head| {
          assert text[i] == rest[i - |head| - 1];
          assert i < |text| - 1 ==> text[i + 1] == rest[i - |head|];
        } else if i == |head| {
          assert text[i + 1] == rest[0];
        }
      }
    }
  }

  // ---------------------------------------------------------------- the text

  /** What is left of the lines, as words in order. */
  function CleanWords(lines: seq<string>): seq<string> {
    if lines == [] then []
    else (if Dropped(lines[0]) then [] else Fields(SanitizeLine(lines[0]))) + CleanWords(lines[1..])
  }

  lemma {:induction false} KeptWords(lines: seq<string>)
    ensures AllFields(KeptLines(lines)) == CleanWords(lines)
  {
    hide Dropped, SanitizeLine, Fields, KeptLines;
    if lines == [] {
      NothingKept();
    } else {
      KeptLinesCons(lines);
      KeptWords(lines[1..]);
      FieldsOfNothing();
      var rest := KeptLines(lines[1..]);
      if !Dropped(lines[0]) && SanitizeLine(lines[0]) != "" {
        assert ([SanitizeLine(lines[0])] + rest)[1..] == rest;
      } else {
        assert [] + rest == rest;
      }
    }
  }

  lemma {:induction false} NothingKept()
    ensures KeptLines([]) == []
  {
  }

  /** What the normaliser keeps.  The words of the cleaned text are exactly the words that are
      left of the lines that are not dropped, in their order, and there is no other white space
      in it than single blanks between them. */
  lemma {:induction false} WordsKept(value: string)
    ensures Fields(Sanitize(value)) == CleanWords(Lines(value))
    ensures SingleSpaced(Sanitize(value))
  {
    hide Dropped, SanitizeLine, Fields, KeptLines, Lines, IsWord, SingleSpaced, JoinWithSpace;
    var text := JoinWithSpace(KeptLines(Lines(value)));
    FieldsOfJoin(KeptLines(Lines(value)));
    KeptWords(Lines(value));
    FieldsAreWords(text);
    FieldsOfJoin(Fields(text));
    FieldsOfWords(Fields(text));
    JoinedWordsAreSpaced(Fields(text));
  }

  // ---------------------------------------------------------------- lines

  function JoinBy(parts: seq<string>, separator: char): string
    requires parts != []
  {
    if |parts| == 1 then parts[0] else parts[0] + [separator] + JoinBy(parts[1..], separator)
  }

  /** Splitting loses nothing, and leaves no separator. */
  lemma {:induction false} SplitJoins(s: string, separator: char)
    ensures JoinBy(Split(s, separator), separator) == s
    ensures forall k :: 0 <= k < |Split(s, separator)| ==> separator !in Split(s, separator)[k]
  {
    if s != [] {
      var rest := Split(s[1..], separator);
      SplitJoins(s[1..], separator);
      if s[0] == separator {
        assert ([[]] + rest)[1..] == rest && [] + [separator] + JoinBy(rest, separator) == [separator] + s[1..];
      } else {
        var parts := [[s[0]] + rest[0]] + rest[1..];
        assert parts[1..] == rest[1..];
        if |rest| == 1 {
          assert [s[0]] + s[1..] == s;
        } else {
          assert ([s[0]] + rest[0]) + [separator] + JoinBy(rest[1..], separator) == [s[0]] + (rest[0] + [separator] + JoinBy(rest[1..], separator));
        }
      }
    }
  }

  lemma {:induction false} ReplaceStep(s: string)
    requires s != [] && !(|s| >= 2 && s[0] == '\r' && s[1] == '\n')
    ensures ReplaceCRLF(s) == [s[0]] + ReplaceCRLF(s[1..])
  {
  }

  lemma {:induction false} ReplacePair(s: string)
    requires |s| >= 2 && s[0] == '\r' && s[1] == '\n'
    ensures ReplaceCRLF(s) == "\n" + ReplaceCRLF(s[2..])
  {
  }

  /** Each "\r\n" becomes "\n", and nothing else changes. */
  lemma {:induction false} ReplaceAcross(a: string, b: string)
    ensures ReplaceCRLF(a + "\r\n" + b) == ReplaceCRLF(a) + "\n" + ReplaceCRLF(b)
    decreases |a|
  {
    var s := a + "\r\n" + b;
    hide ReplaceCRLF;
    if a == [] {
      assert s[2..] == b && ReplaceCRLF(a) == [] by { ReplaceNothing(a); }
      ReplacePair(s);
    } else if |a| >= 2 && a[0] == '\r' && a[1] == '\n' {
      assert s[2..] == a[2..] + "\r\n" + b;
      ReplaceAcross(a[2..], b);
      ReplacePair(s);
      ReplacePair(a);
    } else {
      assert s[1..] == a[1..] + "\r\n" + b && s[0] == a[0] && (|a| == 1 ==> s[1] == '\r') && (|a| > 1 ==> s[1] == a[1]);
      ReplaceAcross(a[1..], b);
      ReplaceStep(s);
      ReplaceStep(a);
    }
  }

  lemma {:induction false} ReplaceNothing(s: string)
    requires forall i :: 0 <= i < |s| - 1 ==> !(s[i] == '\r' && s[i + 1] == '\n')
    ensures ReplaceCRLF(s) == s
  {
    if s != [] {
      ReplaceNothing(s[1..]);
      assert [s[0]] + s[1..] == s;
    }
  }

  // ---------------------------------------------------------------- one line

  /** The text starts, whatever the case of its letters, with the prefix. */
  predicate Starts(text: string, prefix: string) { MarkerAt(text, 0, prefix) }

  /** Exactly which lines are dropped. */
  lemma {:induction false} DroppedExactly(line: string)
    ensures var text := TrimSpace(line);
            Dropped(line) <==>
              || text == "" || Starts(text, "operation name:") || Starts(text, "timestamp:") || Starts(text, "client version:")
              || Starts(text, "request endpoint:") || Starts(text, "troubleshooting tips:") || Starts(text, "to get more info")
              || Starts(text, "if you are unable")
  {
    var text := TrimSpace(line);
    hide TrimSpace, Starts, HasPrefix, ToLower;
    VolatilePrefixes(text);
    FirstPrefixesAreLower();
    LastPrefixesAreLower();
    SameStart(text, "operation name:");
    SameStart(text, "timestamp:");
    SameStart(text, "client version:");
    SameStart(text, "request endpoint:");
    SameStart(text, "troubleshooting tips:");
    SameStart(text, "to get more info");
    SameStart(text, "if you are unable");
  }

  lemma {:induction false} VolatilePrefixes(text: string)
    ensures IsVolatile(text) <==>
              var lower := ToLower(text);
              || HasPrefix(lower, "operation name:") || HasPrefix(lower, "timestamp:") || HasPrefix(lower, "client version:")
              || HasPrefix(lower, "request endpoint:") || HasPrefix(lower, "troubleshooting tips:") || HasPrefix(lower, "to get more info")
              || HasPrefix(lower, "if you are unable")
  {
    hide HasPrefix, ToLower;
    var p := VOLATILE_PREFIXES;
    assert p[0] == "operation name:" && p[1] == "timestamp:" && p[2] == "client version:" && p[3] == "request endpoint:";
    assert p[4] == "troubleshooting tips:" && p[5] == "to get more info" && p[6] == "if you are unable" && |p| == 7;
  }

  predicate Lower(s: string) { forall t :: 0 <= t < |s| ==> !('A' <= s[t] <= 'Z') }

  lemma {:induction false} FirstPrefixesAreLower()
    ensures Lower("operation name:") && Lower("timestamp:") && Lower("client version:")
  {
  }

  lemma {:induction false} LastPrefixesAreLower()
    ensures Lower("request endpoint:") && Lower("troubleshooting tips:") && Lower("to get more info") && Lower("if you are unable")
  {
  }

  lemma {:induction false} SameStart(text: string, prefix: string)
    requires Lower(prefix)
    ensures HasPrefix(ToLower(text), prefix) <==> Starts(text, prefix)
  {
    var v := ToLower(text);
    if HasPrefix(v, prefix) {
      assert forall t :: 0 <= t < |prefix| ==> v[0 + t] == prefix[t];
    }
    if Starts(text, prefix) {
      assert forall t :: 0 <= t < |prefix| ==> LowerChar(text[0 + t]) == LowerChar(prefix[t]);
      assert v[..|prefix|] == prefix;
    }
  }

  /** A line without a marker is only trimmed. */
  lemma {:induction false} LineKept(line: string)
    requires forall marker, p :: marker in MARKERS ==> !MarkerAt(TrimSpace(line), p, marker)
    ensures SanitizeLine(line) == TrimSpace(line)
  {
    assert forall i :: 0 <= i < |MARKERS| ==> MARKERS[i] in MARKERS && MARKERS[i] != "";
    hide TrimSpace, MARKERS, MarkerAt, RemoveFields;
    NothingRemoved(TrimSpace(line), MARKERS);
    TrimTwice(line);
  }

  lemma {:induction false} NothingRemoved(line: string, markers: seq<string>)
    requires forall i :: 0 <= i < |markers| ==> markers[i] != "" && forall p :: !MarkerAt(line, p, markers[i])
    ensures RemoveFields(line, markers) == line
    decreases |markers|
  {
    hide MarkerAt, RemoveField;
    if markers != [] {
      NoField(line, markers[0]);
      NothingRemoved(line, markers[1..]);
    }
  }

  lemma {:induction false} NoField(line: string, marker: string)
    requires marker != "" && forall p :: !MarkerAt(line, p, marker)
    ensures RemoveField(line, marker) == line
  {
    hide MarkerAt;
    FirstMarkerIsFirst(line, marker);
    AfterFirstMarker(line, marker);
  }

  /** The delimiter that ends a field: the first ". " if there is one behind the marker, else the
      first "; ", else the first ", ". */
  predicate EndsField(rest: string, at: nat, delimiter: string) {
    && Occurs(rest, at, delimiter) && (forall q :: 0 <= q < at ==> !Occurs(rest, q, delimiter))
    && (delimiter == ". "
        || (delimiter == "; " && forall q :: 0 <= q <= |rest| ==> !Occurs(rest, q, ". "))
        || (delimiter == ", " && forall q :: 0 <= q <= |rest| ==> !Occurs(rest, q, ". ") && !Occurs(rest, q, "; ")))
  }

  lemma {:induction false} FoundFirst(head: string, found: string, rest: string, marker: string)
    requires |found| == |marker| && MarkerAt(head + found + rest, |head|, marker)
    requires forall p :: 0 <= p < |head| ==> !MarkerAt(head + found + rest, p, marker)
    ensures SubstringAfter(head + found + rest, marker) == rest
  {
    var value := head + found + rest;
    hide MarkerAt, SubstringAfter, FirstMarker;
    FirstMarkerIsFirst(value, marker);
    AfterFirstMarker(value, marker);
    assert value[|head| + |marker|..] == rest;
  }

  /** One round of a removal: the marker found first, in any case of letters, and what follows it
      up to and including the delimiter are cut out; the rest is kept and trimmed. */
  lemma {:induction false} CutIsTheField(head: string, found: string, rest: string, marker: string, at: nat, delimiter: string)
    requires marker != "" && |found| == |marker| && MarkerAt(head + found + rest, |head|, marker)
    requires forall p :: 0 <= p < |head| ==> !MarkerAt(head + found + rest, p, marker)
    requires EndsField(rest, at, delimiter)
    ensures SubstringAfter(head + found + rest, marker) != ""
    ensures Cut(head + found + rest, marker) == TrimSpace(head + rest[at + 2..])
  {
    var value := head + found + rest;
    FoundFirst(head, found, rest, marker);
    FieldEndsThere(rest, at, delimiter);
    hide MarkerAt, FirstMarker, SubstringAfter, FieldLength, DELIMITERS, TrimSpace, EndsField;
    CutIs(value, marker, rest, |head|, at + 2);
    WithoutMiddle(head, found, rest, at + 2);
  }

  lemma {:induction false} WithoutMiddle(head: string, found: string, rest: string, n: nat)
    requires n <= |rest|
    ensures Without(head + found + rest, |head|, |head| + |found| + n) == head + rest[n..]
  {
  }

  lemma {:induction false} ThreeDelimiters(rest: string)
    ensures FieldLength(rest, DELIMITERS) ==
              if Index(rest, ". ") >= 0 then Index(rest, ". ") + 2
              else if Index(rest, "; ") >= 0 then Index(rest, "; ") + 2
              else if Index(rest, ", ") >= 0 then Index(rest, ", ") + 2
              else |rest|
  {
    hide Index;
    var two, one: seq<string> := ["; ", ", "], [", "];
    assert DELIMITERS[1..] == two && two[1..] == one && one[1..] == [];
    assert FieldLength(rest, one) == if Index(rest, ", ") >= 0 then Index(rest, ", ") + 2 else |rest|;
    assert FieldLength(rest, two) == if Index(rest, "; ") >= 0 then Index(rest, "; ") + 2 else FieldLength(rest, one);
  }

  lemma {:induction false} FieldEndsThere(rest: string, at: nat, delimiter: string)
    requires EndsField(rest, at, delimiter)
    ensures at + 2 <= |rest| && FieldLength(rest, DELIMITERS) == at + 2
  {
    ThreeDelimiters(rest);
    assert |delimiter| == 2;
    hide Occurs, FieldLength;
    OccursFits(rest, at, delimiter);
    FirstIs(rest, at, delimiter);
    if delimiter != ". " {
      AbsentIs(rest, ". ");
    }
    if delimiter == ", " {
      AbsentIs(rest, "; ");
    }
  }

  lemma {:induction false} OccursFits(rest: string, at: nat, delimiter: string)
    requires Occurs(rest, at, delimiter)
    ensures at + |delimiter| <= |rest|
  {
  }

  lemma {:induction false} FirstIs(rest: string, at: nat, delimiter: string)
    requires Occurs(rest, at, delimiter) && forall q :: 0 <= q < at ==> !Occurs(rest, q, delimiter)
    ensures Index(rest, delimiter) == at
  {
    OccursFits(rest, at, delimiter);
    hide Occurs;
  }

  lemma {:induction false} AbsentIs(rest: string, delimiter: string)
    requires forall q :: 0 <= q <= |rest| ==> !Occurs(rest, q, delimiter)
    ensures Index(rest, delimiter) == -1
  {
    assert Index(rest, delimiter) >= 0 ==> Occurs(rest, Index(rest, delimiter), delimiter);
  }

  /** Without a delimiter the field goes to the end. */
  lemma {:induction false} CutToTheEnd(head: string, found: string, rest: string, marker: string)
    requires marker != "" && rest != "" && |found| == |marker| && MarkerAt(head + found + rest, |head|, marker)
    requires forall p :: 0 <= p < |head| ==> !MarkerAt(head + found + rest, p, marker)
    requires forall q :: 0 <= q <= |rest| ==> !Occurs(rest, q, ". ") && !Occurs(rest, q, "; ") && !Occurs(rest, q, ", ")
    ensures SubstringAfter(head + found + rest, marker) != ""
    ensures Cut(head + found + rest, marker) == TrimSpace(head)
  {
    var value := head + found + rest;
    FoundFirst(head, found, rest, marker);
    NoFieldEnd(rest);
    hide MarkerAt, FirstMarker, SubstringAfter, FieldLength, DELIMITERS, TrimSpace;
    CutIs(value, marker, rest, |head|, |rest|);
    WithoutMiddle(head, found, rest, |rest|);
    assert head + rest[|rest|..] == head;
  }

  lemma {:induction false} NoFieldEnd(rest: string)
    requires forall q :: 0 <= q <= |rest| ==> !Occurs(rest, q, ". ") && !Occurs(rest, q, "; ") && !Occurs(rest, q, ", ")
    ensures FieldLength(rest, DELIMITERS) == |rest|
  {
    ThreeDelimiters(rest);
    hide Occurs, FieldLength;
    AbsentIs(rest, ". ");
    AbsentIs(rest, "; ");
    AbsentIs(rest, ", ");
  }
}
