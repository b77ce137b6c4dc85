/** The few string functions of the Go standard library the reconcilers rely on. */
module Strings {

  /** unicode.IsSpace. */
  predicate IsSpace(c: char) {
    || c == ' ' || c == '\t' || c == '\n' || c == '\r' || c == '\U{0B}' || c == '\U{0C}'
    || c == '\U{85}' || c == '\U{A0}' || c == '\U{1680}' || '\U{2000}' <= c <= '\U{200A}'
    || c == '\U{2028}' || c == '\U{2029}' || c == '\U{202F}' || c == '\U{205F}' || c == '\U{3000}'
  }

  function TrimLeft(s: string): (r: string)
    ensures |r| <= |s|
    ensures r != [] ==> !IsSpace(r[0])
  {
    if s != [] && IsSpace(s[0]) then TrimLeft(s[1..]) else s
  }

  function TrimRight(s: string): (r: string)
    ensures |r| <= |s| && r == s[..|r|]
    ensures r != [] ==> !IsSpace(r[|r| - 1])
  {
    if s != [] && IsSpace(s[|s| - 1]) then TrimRight(s[..|s| - 1]) else s
  }

  /** strings.TrimSpace. */
  function TrimSpace(s: string): (r: string)
    ensures |r| <= |s|
  {
    TrimRight(TrimLeft(s))
  }

  lemma {:induction false} TrimTwice(s: string)
    ensures TrimSpace(TrimSpace(s)) == TrimSpace(s)
  {
  }

  /** strings.HasPrefix. */
  predicate HasPrefix(s: string, prefix: string) { prefix <= s }

  /** The order of Go strings: lexicographic. */
  predicate Less(a: string, b: string) {
    if b == [] then false
    else if a == [] then true
    else a[0] < b[0] || (a[0] == b[0] && Less(a[1..], b[1..]))
  }

  lemma {:induction false} LessIrreflexive(a: string)
    ensures !Less(a, a)
  {
    if a != [] {
      LessIrreflexive(a[1..]);
    }
  }

  lemma {:induction false} LessTransitive(a: string, b: string, c: string)
    requires Less(a, b) && Less(b, c)
    ensures Less(a, c)
  {
    if a != [] && a[0] == b[0] && b[0] == c[0] {
      LessTransitive(a[1..], b[1..], c[1..]);
    }
  }

  lemma {:induction false} LessTotal(a: string, b: string)
    ensures Less(a, b) || Less(b, a) || a == b
  {
    if a != [] && b != [] && a[0] == b[0] {
      LessTotal(a[1..], b[1..]);
    }
  }

  /** The texts first differ at position i, where a is smaller. */
  predicate SmallerAt(a: string, b: string, i: nat) { i < |a| && i < |b| && a[..i] == b[..i] && a[i] < b[i] }

  lemma {:induction false} SmallerLater(a: string, b: string, i: nat)
    requires a != [] && b != [] && a[0] == b[0]
    ensures SmallerAt(a, b, i + 1) <==> SmallerAt(a[1..], b[1..], i)
  {
    if i + 1 < |a| && i + 1 < |b| {
      assert a[..i + 1] == [a[0]] + a[1..][..i] && b[..i + 1] == [b[0]] + b[1..][..i];
      assert a[1..][..i] == a[..i + 1][1..] && b[1..][..i] == b[..i + 1][1..];
    }
  }

  /** One text comes before another exactly if it is a proper beginning of it, or smaller at the
      first position where they differ. */
  lemma {:induction false} LessIsLexicographic(a: string, b: string)
    ensures Less(a, b) <==> a < b || exists i :: SmallerAt(a, b, i)
  {
    if a != [] && b != [] && a[0] == b[0] {
      LessIsLexicographic(a[1..], b[1..]);
      assert a < b <==> a[1..] < b[1..];
      assert !SmallerAt(a, b, 0);
      hide SmallerAt;
      forall i: nat ensures SmallerAt(a, b, i + 1) <==> SmallerAt(a[1..], b[1..], i) {
        SmallerLater(a, b, i);
      }
      if i: nat :| SmallerAt(a, b, i) {
        assert i > 0 && SmallerAt(a, b, (i - 1) + 1);
        assert SmallerAt(a[1..], b[1..], i - 1);
      }
      if j: nat :| SmallerAt(a[1..], b[1..], j) {
        assert SmallerAt(a, b, j + 1);
      }
    } else if a != [] && b != [] {
      assert a[..0] == b[..0] && (a[0] < b[0] ==> SmallerAt(a, b, 0));
    }
  }

  // ---------------------------------------------------------------- searching

  predicate Occurs(s: string, i: int, sub: string) { 0 <= i && i + |sub| <= |s| && s[i..i + |sub|] == sub }

  lemma {:induction false} OccursShift(s: string, i: int, sub: string)
    requires s != []
    ensures i > 0 ==> (Occurs(s, i, sub) <==> Occurs(s[1..], i - 1, sub))
    ensures Occurs(s, 0, sub) <==> sub <= s
  {
    if 0 < i && i + |sub| <= |s| {
      assert s[1..][i - 1..i - 1 + |sub|] == s[i..i + |sub|];
    }
  }

  lemma {:induction false} OccursLater(s: string, sub: string)
    requires s != []
    ensures forall i :: 0 < i ==> (Occurs(s, i, sub) <==> Occurs(s[1..], i - 1, sub))
    ensures Occurs(s, 0, sub) <==> sub <= s
  {
    hide Occurs;
    OccursShift(s, 0, sub);
    forall i | 0 < i ensures Occurs(s, i, sub) <==> Occurs(s[1..], i - 1, sub) {
      OccursShift(s, i, sub);
    }
  }

  lemma {:induction false} OccursInNothing(sub: string)
    ensures forall i :: Occurs([], i, sub) <==> i == 0 && sub == []
  {
  }

  /** strings.Index: the first occurrence, or -1. */
  function Index(s: string, sub: string): (r: int)
    ensures r >= 0 ==> Occurs(s, r, sub)
    ensures forall i :: 0 <= i < (if r >= 0 then r else |s| + 1) ==> !Occurs(s, i, sub)
    ensures r >= -1
  {
    hide Occurs;
    if s == [] then
      OccursInNothing(sub);
      if sub == [] then 0 else -1
    else
      OccursLater(s, sub);
      if sub <= s then 0
      else
        var rest := Index(s[1..], sub);
        if rest < 0 then -1 else rest + 1
  }

  function LowerChar(c: char): char { if 'A' <= c <= 'Z' then (c as int + 32) as char else c }

  /** strings.ToLower on ASCII text. */
  function ToLower(s: string): string { seq(|s|, i requires 0 <= i < |s| => LowerChar(s[i])) }

  // ---------------------------------------------------------------- splitting and joining

  /** strings.ReplaceAll(s, "\r\n", "\n"). */
  function ReplaceCRLF(s: string): string {
    if s == [] then []
    else if |s| >= 2 && s[0] == '\r' && s[1] == '\n' then ['\n'] + ReplaceCRLF(s[2..])
    else [s[0]] + ReplaceCRLF(s[1..])
  }

  /** strings.Split by one character. */
  function Split(s: string, separator: char): (parts: seq<string>)
    ensures parts != []
  {
    if s == [] then [[]]
    else
      var rest := Split(s[1..], separator);
      if s[0] == separator then [[]] + rest else [[s[0]] + rest[0]] + rest[1..]
  }

  /** strings.Fields: the maximal runs of non-space characters. */
  function Fields(s: string): seq<string> {
    if s == [] then []
    else if IsSpace(s[0]) then Fields(s[1..])
    else
      var rest := Fields(s[1..]);
      if |s| == 1 || IsSpace(s[1]) || rest == [] then [[s[0]]] + rest else [[s[0]] + rest[0]] + rest[1..]
  }

  /** strings.Join(parts, " "). */
  function JoinWithSpace(parts: seq<string>): string {
    if parts == [] then [] else if |parts| == 1 then parts[0] else parts[0] + " " + JoinWithSpace(parts[1..])
  }
}
