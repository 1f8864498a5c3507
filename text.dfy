/** Python string primitives the chat layer relies on: str.isspace, str.strip,
    str.lower, the `in` operator, str.startswith, str.replace(pat, ''),
    str.split(sep), sep.join and str() of an integer. */
module Text {

  /** str.isspace() of one character: what str.strip() removes and what the
      regular-expression class \s matches in a str pattern. */
  predicate IsSpace(c: char)
  {
    ('\t' <= c <= '\r') || ('\U{1c}' <= c <= '\U{1f}') || c == ' ' || c == '\U{85}'
    || c == '\U{a0}' || c == '\U{1680}' || ('\U{2000}' <= c <= '\U{200a}')
    || c == '\U{2028}' || c == '\U{2029}' || c == '\U{202f}' || c == '\U{205f}'
    || c == '\U{3000}'
  }

  /** The regular-expression class \d, restricted to ASCII digits. */
  predicate IsDigit(c: char)
  {
    '0' <= c <= '9'
  }

  /** The regular-expression class \w, restricted to ASCII. */
  predicate IsWordChar(c: char)
  {
    ('a' <= c <= 'z') || ('A' <= c <= 'Z') || IsDigit(c) || c == '_'
  }

  predicate AllSpace(s: string)
  {
    forall i :: 0 <= i < |s| ==> IsSpace(s[i])
  }

  predicate AllDigits(s: string)
  {
    forall i :: 0 <= i < |s| ==> IsDigit(s[i])
  }

  /** Neither the first nor the last character is whitespace. */
  predicate NoEdgeSpace(s: string)
  {
    s == [] || (!IsSpace(s[0]) && !IsSpace(s[|s| - 1]))
  }

  function LowerChar(c: char): char
  {
    if 'A' <= c <= 'Z' then (c as int + 32) as char else c
  }

  /** str.lower(), restricted to ASCII letters. */
  function Lower(s: string): string
  {
    seq(|s|, i requires 0 <= i < |s| => LowerChar(s[i]))
  }

  predicate StartsWith(s: string, p: string)
  {
    |p| <= |s| && s[..|p|] == p
  }

  /** Python's `p in s` for strings. */
  predicate Contains(s: string, p: string)
  {
    exists i :: 0 <= i <= |s| && StartsWith(s[i..], p)
  }

  /** The first index at or after k that does not hold whitespace. */
  function SkipSpace(s: string, k: nat): (e: nat)
    requires k <= |s|
    ensures k <= e <= |s|
    ensures forall j :: k <= j < e ==> IsSpace(s[j])
    ensures e == |s| || !IsSpace(s[e])
    decreases |s| - k
  {
    if k < |s| && IsSpace(s[k]) then SkipSpace(s, k + 1) else k
  }

  /** Where the trailing run of whitespace of s begins. */
  function TrailingSpaceStart(s: string): (e: nat)
    ensures e <= |s|
    ensures forall j :: e <= j < |s| ==> IsSpace(s[j])
    ensures e == 0 || !IsSpace(s[e - 1])
  {
    if s != [] && IsSpace(s[|s| - 1]) then TrailingSpaceStart(s[..|s| - 1]) else |s|
  }

  /** s[..i] and s[j..] are whitespace: s[i..j] is s less some edge whitespace. */
  predicate TrimBounds(s: string, i: int, j: int)
  {
    0 <= i <= j <= |s| && AllSpace(s[..i]) && AllSpace(s[j..])
  }

  /** str.strip(): s without its leading and trailing whitespace. */
  function Strip(s: string): (r: string)
    ensures NoEdgeSpace(r)
    ensures exists i, j :: TrimBounds(s, i, j) && r == s[i..j]
  {
    var i := SkipSpace(s, 0);
    var t := s[i..];
    var e := TrailingSpaceStart(t);
    assert s[i..i + e] == t[..e];
    assert TrimBounds(s, i, i + e) by {
    assert AllSpace(s[..i]) by {
      forall k | 0 <= k < i ensures IsSpace(s[..i][k]) { assert s[..i][k] == s[k]; }
    }
    assert AllSpace(s[i + e..]) by {
      var u := s[i + e..];
      forall k | 0 <= k < |u| ensures IsSpace(u[k]) { assert u[k] == t[e + k]; }
    }
    }
    t[..e]
  }

  /** str.replace(pat, ''): every occurrence of pat, found left to right
      without overlap in the original string, is deleted. */
  function RemoveAll(s: string, pat: string): (r: string)
    requires pat != []
    ensures |r| <= |s|
    decreases |s|
  {
    if |s| < |pat| then s
    else if s[..|pat|] == pat then RemoveAll(s[|pat|..], pat)
    else [s[0]] + RemoveAll(s[1..], pat)
  }

  /** str.split(c) for a one-character separator. */
  function Split(s: string, c: char): (parts: seq<string>)
    ensures |parts| >= 1
  {
    if s == [] then [[]]
    else
      var rest := Split(s[1..], c);
      if s[0] == c then [[]] + rest else [[s[0]] + rest[0]] + rest[1..]
  }

  /** sep.join(parts). */
  function Join(parts: seq<string>, sep: string): string
  {
    if parts == [] then []
    else if |parts| == 1 then parts[0]
    else parts[0] + sep + Join(parts[1..], sep)
  }

  function DigitChar(d: nat): (c: char)
    requires d < 10
    ensures IsDigit(c)
  {
    ('0' as int + d) as char
  }

  /** str(n) for a non-negative integer: its decimal digits. */
  function NatToString(n: nat): (r: string)
    ensures r != [] && AllDigits(r)
  {
    if n < 10 then [DigitChar(n)] else NatToString(n / 10) + [DigitChar(n % 10)]
  }

  /** str(v) for an integer. */
  function IntToString(v: int): string
  {
    if v < 0 then "-" + NatToString(-v) else NatToString(v)
  }

  /** The value of a string of decimal digits: the inverse of NatToString. */
  function DigitsValue(r: string): nat
    requires AllDigits(r)
  {
    if r == [] then 0 else DigitsValue(r[..|r| - 1]) * 10 + (r[|r| - 1] as int - '0' as int)
  }

  // ----- lemmas -----

  /** Reading back the digits str(n) writes gives n. */
  lemma {:induction false} NatToStringRoundTrip(n: nat)
    ensures DigitsValue(NatToString(n)) == n
  {
    if n >= 10 {
      NatToStringRoundTrip(n / 10);
      var r := NatToString(n);
      assert r[..|r| - 1] == NatToString(n / 10);
    }
  }

  /** A string without edge whitespace is its own strip. */
  lemma StripNoEdge(s: string)
    requires NoEdgeSpace(s)
    ensures Strip(s) == s
  {
    if s != [] {
      assert SkipSpace(s, 0) == 0;
    }
  }

  /** Stripping twice is stripping once. */
  lemma StripIdempotent(s: string)
    ensures Strip(Strip(s)) == Strip(s)
  {
    StripNoEdge(Strip(s));
  }

  /** A string strips to the empty string exactly when it is all whitespace. */
  lemma StripEmptyIffBlank(s: string)
    ensures Strip(s) == [] <==> AllSpace(s)
  {
    var i := SkipSpace(s, 0);
    if !AllSpace(s) {
      var k :| 0 <= k < |s| && !IsSpace(s[k]);
      assert i <= k;
      var t := s[i..];
      assert !IsSpace(t[0]);
      assert TrailingSpaceStart(t) > 0;
    }
  }

  /** Whitespace in front of a string does not survive a strip. */
  lemma StripLeadingSpace(c: char, s: string)
    requires IsSpace(c)
    ensures Strip([c] + s) == Strip(s)
  {
    var t := [c] + s;
    var i := SkipSpace(s, 0);
    var i' := SkipSpace(t, 0);
    forall j | 1 <= j < i + 1 ensures IsSpace(t[j]) { assert t[j] == s[j - 1]; }
    assert i + 1 == |t| || !IsSpace(t[i + 1]);
    assert i' == i + 1;
    assert t[i'..] == s[i..];
  }

  /** An occurrence of pat at index i of s[1..] is one at index i+1 of s. */
  lemma ContainsTail(s: string, pat: string)
    requires s != [] && Contains(s[1..], pat)
    ensures Contains(s, pat)
  {
    var i :| 0 <= i <= |s[1..]| && StartsWith(s[1..][i..], pat);
    assert s[1..][i..] == s[i + 1..];
  }

  /** Deleting a pattern that does not occur changes nothing. */
  lemma {:induction false} RemoveAllAbsent(s: string, pat: string)
    requires pat != [] && !Contains(s, pat)
    ensures RemoveAll(s, pat) == s
  {
    if |s| >= |pat| {
      assert !StartsWith(s[0..], pat);
      assert s[0..] == s;
      if Contains(s[1..], pat) { ContainsTail(s, pat); }
      RemoveAllAbsent(s[1..], pat);
    }
  }

  /** A pattern cannot occur in a string that lacks its first character. */
  lemma AbsentHead(s: string, pat: string)
    requires pat != [] && pat[0] !in s
    ensures !Contains(s, pat)
  {
    forall i | 0 <= i <= |s| ensures !StartsWith(s[i..], pat) {
      if i < |s| { assert s[i..][0] == s[i]; }
    }
  }

  /** Text in front that lacks the pattern's first character passes through the deletion untouched. */
  lemma {:induction false} RemoveAllNoHead(p: string, s: string, pat: string)
    requires pat != [] && pat[0] !in p
    ensures RemoveAll(p + s, pat) == p + RemoveAll(s, pat)
  {
    if p != [] {
      var t := p + s;
      var r := RemoveAll(s, pat);
      assert t[0] == p[0] && t[1..] == p[1..] + s;
      assert pat[0] !in p[1..];
      RemoveAllNoHead(p[1..], s, pat);
      RemoveAllKeepsHead(t, pat);
      assert [p[0]] + (p[1..] + r) == p + r by { assert p == [p[0]] + p[1..]; }
    } else {
      assert p + s == s;
    }
  }

  /** Where the pattern does not start, the first character is kept. */
  lemma RemoveAllMismatch(t: string, pat: string)
    requires pat != [] && |t| >= |pat| && t[..|pat|] != pat
    ensures RemoveAll(t, pat) == [t[0]] + RemoveAll(t[1..], pat)
  {
  }

  /** A first character that does not start the pattern is kept. */
  lemma RemoveAllKeepsHead(t: string, pat: string)
    requires pat != [] && t != [] && t[0] != pat[0]
    ensures RemoveAll(t, pat) == [t[0]] + RemoveAll(t[1..], pat)
  {
    if |t| >= |pat| {
      assert t[..|pat|][0] == t[0];
    } else {
      assert RemoveAll(t[1..], pat) == t[1..];
      assert t == [t[0]] + t[1..];
    }
  }

  /** An occurrence at the very front is deleted and the scan resumes after it. */
  lemma RemoveAllAtFront(s: string, pat: string)
    requires pat != []
    ensures RemoveAll(pat + s, pat) == RemoveAll(s, pat)
  {
    assert (pat + s)[..|pat|] == pat;
    assert (pat + s)[|pat|..] == s;
  }

  /** Joining the pieces of a split with the separator gives back the string. */
  lemma {:induction false} JoinSplit(s: string, c: char)
    ensures Join(Split(s, c), [c]) == s
  {
    if s != [] {
      var rest := Split(s[1..], c);
      JoinSplit(s[1..], c);
      if s[0] == c {
        assert Split(s, c) == [[]] + rest;
        assert ([[]] + rest)[1..] == rest;
      } else {
        var parts := [[s[0]] + rest[0]] + rest[1..];
        assert Split(s, c) == parts;
        if |rest| == 1 {
          assert Join(parts, [c]) == [s[0]] + rest[0];
        } else {
          assert parts[1..] == rest[1..];
          assert Join(parts, [c]) == [s[0]] + rest[0] + [c] + Join(rest[1..], [c]);
        }
      }
    }
  }

  /** Splitting text whose front part a lacks the separator keeps a at the start of the first piece. */
  lemma {:induction false} SplitNoSep(a: string, b: string, c: char)
    requires c !in a
    ensures Split(a + b, c) == [a + Split(b, c)[0]] + Split(b, c)[1..]
  {
    if a == [] {
      var x := Split(b, c);
      assert a + b == b;
      assert a + x[0] == x[0];
      assert [x[0]] + x[1..] == x;
    } else {
      var x := Split(b, c);
      SplitNoSep(a[1..], b, c);
      var rest := Split(a[1..] + b, c);
      assert rest[0] == a[1..] + x[0];
      assert rest[1..] == x[1..];
      assert (a + b)[1..] == a[1..] + b;
      assert (a + b)[0] == a[0];
      assert Split(a + b, c) == [[a[0]] + rest[0]] + rest[1..];
      assert [a[0]] + (a[1..] + x[0]) == a + x[0];
    }
  }

  /** Splitting on a separator that no piece contains gives back the pieces. */
  lemma {:induction false} SplitJoin(parts: seq<string>, c: char)
    requires parts != []
    requires forall k :: 0 <= k < |parts| ==> c !in parts[k]
    ensures Split(Join(parts, [c]), c) == parts
  {
    if |parts| == 1 {
      SplitNoSep(parts[0], [], c);
      assert parts[0] + [] == parts[0];
    } else {
      var rest := Join(parts[1..], [c]);
      SplitJoin(parts[1..], c);
      SplitNoSep(parts[0], [c] + rest, c);
      assert parts[0] + [c] + rest == parts[0] + ([c] + rest);
      assert ([c] + rest)[1..] == rest;
      assert ([c] + rest)[0] == c;
      var y := Split([c] + rest, c);
      assert y == [[]] + Split(rest, c);
      assert y[0] == [] && y[1..] == parts[1..];
      assert Join(parts, [c]) == parts[0] + ([c] + rest);
      assert parts[0] + y[0] == parts[0];
      assert [parts[0]] + parts[1..] == parts;
    }
  }

  /** Deletion never brings in a character the text did not have. */
  lemma {:induction false} RemoveAllChars(s: string, pat: string)
    requires pat != []
    ensures forall c :: c in RemoveAll(s, pat) ==> c in s
    decreases |s|
  {
    if |s| >= |pat| {
      if s[..|pat|] == pat {
        RemoveAllChars(s[|pat|..], pat);
      } else {
        RemoveAllChars(s[1..], pat);
      }
    }
  }

  /** When the pattern does not start the text, its first character is kept. */
  lemma RemoveAllSkip(s: string, pat: string)
    requires pat != [] && s != [] && !StartsWith(s, pat)
    ensures RemoveAll(s, pat) == [s[0]] + RemoveAll(s[1..], pat)
  {
    if |s| < |pat| {
      assert RemoveAll(s[1..], pat) == s[1..];
      assert s == [s[0]] + s[1..];
    }
  }

  /** Text in front that lacks the pattern's first character, before text without
      the pattern: the deletion changes nothing. */
  lemma RemoveAllNothingToDo(p: string, s: string, pat: string)
    requires pat != [] && pat[0] !in p && !Contains(s, pat)
    ensures RemoveAll(p + s, pat) == p + s
  {
    RemoveAllNoHead(p, s, pat);
    RemoveAllAbsent(s, pat);
  }

  /** Every character of Strip(w) is a character of w. */
  lemma StripInside(w: string)
    ensures forall c :: c in Strip(w) ==> c in w
  {
    var r := Strip(w);
    var i, j :| TrimBounds(w, i, j) && r == w[i..j];
    forall c | c in r ensures c in w {
      var t :| 0 <= t < |w[i..j]| && w[i..j][t] == c;
      assert w[i + t] == c;
    }
  }

  /** No piece of a split holds the separator. */
  lemma {:induction false} SplitPiecesNoSep(s: string, c: char)
    ensures forall k :: 0 <= k < |Split(s, c)| ==> c !in Split(s, c)[k]
  {
    if s != [] {
      SplitPiecesNoSep(s[1..], c);
      var rest := Split(s[1..], c);
      if s[0] != c {
        var parts := Split(s, c);
        assert parts == [[s[0]] + rest[0]] + rest[1..];
        forall k | 0 <= k < |parts| ensures c !in parts[k] {
          if k > 0 { assert parts[k] == rest[k]; }
        }
      }
    }
  }

  /** A character in neither the pieces nor the separator is not in their join. */
  lemma {:induction false} JoinNoChar(parts: seq<string>, sep: string, c: char)
    requires c !in sep && forall k :: 0 <= k < |parts| ==> c !in parts[k]
    ensures c !in Join(parts, sep)
  {
    if |parts| > 1 {
      JoinNoChar(parts[1..], sep, c);
    }
  }

  /** Joining one more piece at the end. */
  lemma {:induction false} JoinSnoc(parts: seq<string>, x: string, sep: string)
    requires parts != []
    ensures Join(parts + [x], sep) == Join(parts, sep) + sep + x
  {
    if |parts| == 1 {
      assert (parts + [x])[1..] == [x];
    } else {
      assert (parts + [x])[1..] == parts[1..] + [x];
      JoinSnoc(parts[1..], x, sep);
    }
  }
}
