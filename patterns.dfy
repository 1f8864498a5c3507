/** The small regular expressions the chat layer runs, each written as a scanner and
    proved against a declarative description of the strings it matches. Text is
    scanned as the lower-cased str the source passes; \s is str.isspace, \d and \w
    are taken over ASCII. */
module Patterns {
  import opened Wrappers
  import opened Text

  // ===== re.search(r"[-+]?\d+(?:\.\d+)?", text) (main.py:432) =====

  predicate IsSign(c: char)
  {
    c == '+' || c == '-'
  }

  /** \d+(?:\.\d+)? : digits, or digits, a point and digits. */
  predicate IsUnsignedNumeral(w: string)
  {
    (w != [] && AllDigits(w))
    || exists k :: 0 < k < |w| - 1 && w[k] == '.' && AllDigits(w[..k]) && AllDigits(w[k + 1..])
  }

  /** The strings the numeral pattern matches as a whole. */
  predicate IsNumeral(w: string)
  {
    IsUnsignedNumeral(w) || (w != [] && IsSign(w[0]) && IsUnsignedNumeral(w[1..]))
  }

  /** The first index at or after k that does not hold a digit. */
  function DigitRunEnd(s: string, k: nat): (e: nat)
    requires k <= |s|
    ensures k <= e <= |s|
    ensures forall j :: k <= j < e ==> IsDigit(s[j])
    ensures e == |s| || !IsDigit(s[e])
    decreases |s| - k
  {
    if k < |s| && IsDigit(s[k]) then DigitRunEnd(s, k + 1) else k
  }

  lemma DigitsToEnd(s: string, d: nat)
    requires d <= |s| && forall j :: d <= j < |s| ==> IsDigit(s[j])
    ensures DigitRunEnd(s, d) == |s|
  {
  }

  /** Some match of the pattern begins at i. */
  predicate NumeralStartsAt(s: string, i: nat)
  {
    i < |s| && (IsDigit(s[i]) || (IsSign(s[i]) && i + 1 < |s| && IsDigit(s[i + 1])))
  }

  /** Where the greedy match of \d+(?:\.\d+)? from the digit at d ends: the fraction
      is taken only when the point is followed by a digit. */
  function UnsignedEnd(s: string, d: nat): (e: nat)
    requires d < |s| && IsDigit(s[d])
    ensures d < e <= |s|
  {
    var r := DigitRunEnd(s, d);
    if r + 1 < |s| && s[r] == '.' && IsDigit(s[r + 1]) then DigitRunEnd(s, r + 1) else r
  }

  /** Where the greedy match beginning at i ends. */
  function NumeralEnd(s: string, i: nat): (e: nat)
    requires NumeralStartsAt(s, i)
    ensures i < e <= |s|
  {
    if IsDigit(s[i]) then UnsignedEnd(s, i) else UnsignedEnd(s, i + 1)
  }

  /** A string not beginning with a digit is not a match of \d+(?:\.\d+)?. */
  lemma NotUnsigned(w: string)
    requires w == [] || !IsDigit(w[0])
    ensures !IsUnsignedNumeral(w)
  {
    if w != [] {
      forall k | 0 < k < |w| - 1 ensures !AllDigits(w[..k]) {
        assert w[..k][0] == w[0];
      }
    }
  }

  /** Every match begins with a digit or with a sign and a digit. */
  lemma NotNumeral(w: string)
    requires !NumeralStartsAt(w, 0)
    ensures !IsNumeral(w)
  {
    NotUnsigned(w);
    if w != [] && IsSign(w[0]) {
      assert w[1..] != [] ==> w[1..][0] == w[1];
      NotUnsigned(w[1..]);
    }
  }

  /** The greedy match from a digit is a match, and no longer one begins there. */
  lemma UnsignedEndLongest(s: string, d: nat)
    requires d < |s| && IsDigit(s[d])
    ensures IsUnsignedNumeral(s[d..UnsignedEnd(s, d)])
    ensures forall e :: UnsignedEnd(s, d) < e <= |s| ==> !IsUnsignedNumeral(s[d..e])
  {
    var r := DigitRunEnd(s, d);
    var e := UnsignedEnd(s, d);
    var w := s[d..e];
    if e == r {
      assert AllDigits(w) by {
        forall j | 0 <= j < |w| ensures IsDigit(w[j]) { assert w[j] == s[d + j]; }
      }
    } else {
      var k := r - d;
      assert w[..k] == s[d..r];
      assert w[k + 1..] == s[r + 1..e];
      assert AllDigits(w[..k]) by {
        forall j | 0 <= j < k ensures IsDigit(w[..k][j]) { assert w[..k][j] == s[d + j]; }
      }
      assert AllDigits(w[k + 1..]) by {
        var u := w[k + 1..];
        forall j | 0 <= j < |u| ensures IsDigit(u[j]) { assert u[j] == s[r + 1 + j]; }
      }
      assert w[k] == '.';
    }
    forall e' | e < e' <= |s| ensures !IsUnsignedNumeral(s[d..e']) {
      NotLonger(s, d, e');
    }
  }

  lemma NotLonger(s: string, d: nat, e': nat)
    requires d < |s| && IsDigit(s[d])
    requires UnsignedEnd(s, d) < e' <= |s|
    ensures !IsUnsignedNumeral(s[d..e'])
  {
    var r := DigitRunEnd(s, d);
    var v := s[d..e'];
    assert !IsDigit(v[r - d]);
    forall k | 0 < k < |v| - 1
      ensures !(v[k] == '.' && AllDigits(v[..k]) && AllDigits(v[k + 1..]))
    {
      assert v[k] == s[d + k];
      if d + k < r {
        assert IsDigit(v[k]);
      } else if d + k > r {
        assert !IsDigit(v[..k][r - d]);
      } else if s[r] == '.' && IsDigit(s[r + 1]) {
        var f := DigitRunEnd(s, r + 1);
        assert UnsignedEnd(s, d) == f;
        assert !IsDigit(v[k + 1..][f - d - k - 1]);
      } else {
        assert v[k + 1..][0] == s[r + 1];
      }
    }
  }

  /** The greedy match beginning at i is a match, and no longer one begins there. */
  lemma NumeralEndLongest(s: string, i: nat)
    requires NumeralStartsAt(s, i)
    ensures IsNumeral(s[i..NumeralEnd(s, i)])
    ensures forall e :: NumeralEnd(s, i) < e <= |s| ==> !IsNumeral(s[i..e])
  {
    var e := NumeralEnd(s, i);
    if IsDigit(s[i]) {
      UnsignedEndLongest(s, i);
      forall e' | e < e' <= |s| ensures !IsNumeral(s[i..e']) {
        assert s[i..e'][0] == s[i];
      }
    } else {
      UnsignedEndLongest(s, i + 1);
      assert s[i..e][1..] == s[i + 1..e];
      forall e' | e < e' <= |s| ensures !IsNumeral(s[i..e']) {
        var v := s[i..e'];
        assert v[0] == s[i];
        assert v[1..] == s[i + 1..e'];
        NotUnsigned(v);
      }
    }
  }

  /** No match begins where neither a digit nor a sign and a digit stands. */
  lemma NoNumeralAt(s: string, k: nat)
    requires k <= |s| && !NumeralStartsAt(s, k)
    ensures forall e :: k <= e <= |s| ==> !IsNumeral(s[k..e])
  {
    forall e | k <= e <= |s| ensures !IsNumeral(s[k..e]) {
      var w := s[k..e];
      assert w != [] ==> w[0] == s[k];
      assert |w| > 1 ==> w[1] == s[k + 1];
      NotNumeral(w);
    }
  }

  /** A half-open range [start, end) of the searched text. */
  datatype Span = Span(start: nat, end: nat)

  /** re.search from index k: the leftmost position where a match begins, and the
      longest match there. */
  function SearchNumeral(s: string, k: nat): (m: Option<Span>)
    requires k <= |s|
    ensures m.Some? ==> k <= m.value.start < m.value.end <= |s| && IsNumeral(s[m.value.start..m.value.end])
    ensures m.Some? ==> NumeralStartsAt(s, m.value.start)
    ensures m.Some? ==> forall e :: m.value.end < e <= |s| ==> !IsNumeral(s[m.value.start..e])
    ensures m.Some? ==> forall j, e :: k <= j < m.value.start && j <= e <= |s| ==> !IsNumeral(s[j..e])
    ensures m.None? ==> forall j, e :: k <= j <= e <= |s| ==> !IsNumeral(s[j..e])
    decreases |s| - k
  {
    if k == |s| then
      NoNumeralAt(s, k);
      None
    else if NumeralStartsAt(s, k) then
      NumeralEndLongest(s, k);
      Some(Span(k, NumeralEnd(s, k)))
    else
      NoNumeralAt(s, k);
      SearchNumeral(s, k + 1)
  }

  /** `num_match.group(0)`, or None when nothing matches; there is no match exactly
      when the text holds no digit. */
  function FindNumeral(s: string): (r: Option<string>)
    ensures r.Some? ==> IsNumeral(r.value)
    ensures r.None? <==> forall i :: 0 <= i < |s| ==> !IsDigit(s[i])
  {
    assert (forall i :: 0 <= i < |s| ==> !IsDigit(s[i])) ==> forall k :: 0 <= k <= |s| ==> !NumeralStartsAt(s, k);
    assert forall i :: 0 <= i < |s| && IsDigit(s[i]) ==> AllDigits(s[i..i + 1]);
    match SearchNumeral(s, 0)
    case Some(m) => Some(s[m.start..m.end])
    case None => None
  }

  // ===== re.match(r'^(is|are|do you)\s+(there\s+)?an?\s+(outlet|location)', msg) (main.py:414) =====

  // The regular expression's meaning, inside out: each predicate says that the rest of
  // the pattern matches from index i, for some length of each \s+ run.

  predicate ObjectAt(s: string, i: int)
  {
    0 <= i <= |s| && (StartsWith(s[i..], "outlet") || StartsWith(s[i..], "location"))
  }

  predicate ObjectAfterSpaces(s: string, i: int)
  {
    exists j :: 0 <= i < j <= |s| && AllSpace(s[i..j]) && ObjectAt(s, j)
  }

  predicate ArticleAt(s: string, i: int)
  {
    0 <= i <= |s|
    && ((StartsWith(s[i..], "an") && ObjectAfterSpaces(s, i + 2))
        || (StartsWith(s[i..], "a") && ObjectAfterSpaces(s, i + 1)))
  }

  predicate ArticleAfterSpaces(s: string, i: int)
  {
    exists j :: 0 <= i < j <= |s| && AllSpace(s[i..j]) && ArticleAt(s, j)
  }

  predicate ThereAt(s: string, i: int)
  {
    0 <= i <= |s|
    && ((StartsWith(s[i..], "there") && ArticleAfterSpaces(s, i + 5)) || ArticleAt(s, i))
  }

  predicate ThereAfterSpaces(s: string, i: int)
  {
    exists j :: 0 <= i < j <= |s| && AllSpace(s[i..j]) && ThereAt(s, j)
  }

  /** The strings the yes/no pattern matches at their start. */
  predicate MatchesYesNo(s: string)
  {
    (StartsWith(s, "is") && ThereAfterSpaces(s, 2))
    || (StartsWith(s, "are") && ThereAfterSpaces(s, 3))
    || (StartsWith(s, "do you") && ThereAfterSpaces(s, 6))
  }

  // The scanner: every \s+ takes the whole run of whitespace.

  function SpacedObject(s: string, i: nat): bool
    requires i <= |s|
  {
    var e := SkipSpace(s, i);
    e > i && ObjectAt(s, e)
  }

  function ArticleScan(s: string, i: nat): bool
    requires i <= |s|
  {
    (StartsWith(s[i..], "an") && SpacedObject(s, i + 2))
    || (StartsWith(s[i..], "a") && SpacedObject(s, i + 1))
  }

  function SpacedArticle(s: string, i: nat): bool
    requires i <= |s|
  {
    var e := SkipSpace(s, i);
    e > i && ArticleScan(s, e)
  }

  function ThereScan(s: string, i: nat): bool
    requires i <= |s|
  {
    (StartsWith(s[i..], "there") && SpacedArticle(s, i + 5)) || ArticleScan(s, i)
  }

  function SpacedThere(s: string, i: nat): bool
    requires i <= |s|
  {
    var e := SkipSpace(s, i);
    e > i && ThereScan(s, e)
  }

  /** `re.match(...)` of the yes/no pattern, is it not None. */
  function IsYesNoOutletQuestion(s: string): bool
  {
    (StartsWith(s, "is") && SpacedThere(s, 2))
    || (StartsWith(s, "are") && SpacedThere(s, 3))
    || (StartsWith(s, "do you") && SpacedThere(s, 6))
  }

  /** A whitespace run from i that is followed by a non-space is the whole run. */
  lemma WholeRun(s: string, i: nat, j: nat)
    requires i <= j < |s| && AllSpace(s[i..j]) && !IsSpace(s[j])
    ensures SkipSpace(s, i) == j
  {
    assert forall t :: i <= t < j ==> IsSpace(s[t]) by {
      forall t | i <= t < j ensures IsSpace(s[t]) { assert s[i..j][t - i] == s[t]; }
    }
  }

  /** SkipSpace's run is whitespace. */
  lemma SkippedRun(s: string, i: nat)
    requires i <= |s|
    ensures AllSpace(s[i..SkipSpace(s, i)])
  {
    var e := SkipSpace(s, i);
    forall t | 0 <= t < e - i ensures IsSpace(s[i..e][t]) { assert s[i..e][t] == s[i + t]; }
  }

  lemma StartsWithHead(s: string, i: nat, p: string)
    requires i <= |s| && p != [] && StartsWith(s[i..], p)
    ensures i < |s| && s[i] == p[0]
  {
    assert s[i..][..|p|][0] == s[i];
  }

  lemma SpacedObjectMeaning(s: string, i: nat)
    requires i <= |s|
    ensures SpacedObject(s, i) <==> ObjectAfterSpaces(s, i)
  {
    var e := SkipSpace(s, i);
    SkippedRun(s, i);
    if ObjectAfterSpaces(s, i) {
      var j :| 0 <= i < j <= |s| && AllSpace(s[i..j]) && ObjectAt(s, j);
      if StartsWith(s[j..], "outlet") { StartsWithHead(s, j, "outlet"); } else { StartsWithHead(s, j, "location"); }
      WholeRun(s, i, j);
    }
  }

  lemma ArticleScanMeaning(s: string, i: nat)
    requires i <= |s|
    ensures ArticleScan(s, i) <==> ArticleAt(s, i)
  {
    if i + 2 <= |s| { SpacedObjectMeaning(s, i + 2); }
    if i + 1 <= |s| { SpacedObjectMeaning(s, i + 1); }
  }

  lemma SpacedArticleMeaning(s: string, i: nat)
    requires i <= |s|
    ensures SpacedArticle(s, i) <==> ArticleAfterSpaces(s, i)
  {
    var e := SkipSpace(s, i);
    SkippedRun(s, i);
    ArticleScanMeaning(s, e);
    if ArticleAfterSpaces(s, i) {
      var j :| 0 <= i < j <= |s| && AllSpace(s[i..j]) && ArticleAt(s, j);
      StartsWithHead(s, j, "a");
      WholeRun(s, i, j);
    }
  }

  lemma ThereScanMeaning(s: string, i: nat)
    requires i <= |s|
    ensures ThereScan(s, i) <==> ThereAt(s, i)
  {
    ArticleScanMeaning(s, i);
    if i + 5 <= |s| { SpacedArticleMeaning(s, i + 5); }
  }

  lemma ThereHead(s: string, j: nat)
    requires ThereAt(s, j)
    ensures j < |s| && !IsSpace(s[j])
  {
    if StartsWith(s[j..], "there") && ArticleAfterSpaces(s, j + 5) {
      StartsWithHead(s, j, "there");
    } else {
      StartsWithHead(s, j, "a");
    }
  }

  lemma SpacedThereMeaning(s: string, i: nat)
    requires i <= |s|
    ensures SpacedThere(s, i) <==> ThereAfterSpaces(s, i)
  {
    var e := SkipSpace(s, i);
    SkippedRun(s, i);
    ThereScanMeaning(s, e);
    if ThereAfterSpaces(s, i) {
      var j :| 0 <= i < j <= |s| && AllSpace(s[i..j]) && ThereAt(s, j);
      ThereHead(s, j);
      WholeRun(s, i, j);
    }
  }

  /** The scanner accepts exactly the strings the regular expression matches at
      their start. */
  lemma YesNoScanMeaning(s: string)
    ensures IsYesNoOutletQuestion(s) <==> MatchesYesNo(s)
  {
    if |s| >= 2 { SpacedThereMeaning(s, 2); }
    if |s| >= 3 { SpacedThereMeaning(s, 3); }
    if |s| >= 6 { SpacedThereMeaning(s, 6); }
  }

  // ===== \b : the word boundary of a str pattern =====

  /** \b at index i: exactly one of s[i - 1] and s[i] is a word character, a
      position outside the string counting as a non-word character. */
  predicate Boundary(s: string, i: int)
  {
    (0 < i <= |s| && IsWordChar(s[i - 1])) != (0 <= i < |s| && IsWordChar(s[i]))
  }

  // ===== re.search(r'\bin\s+([^?]+)', msg) (main.py:453-455) =====

  predicate NoQuestion(w: string)
  {
    forall t :: 0 <= t < |w| ==> w[t] != '?'
  }

  /** The pattern matches s[i..k] with its \s+ run ending at j and its group s[j..k]. */
  predicate InMatch(s: string, i: int, j: int, k: int)
  {
    0 <= i && i + 2 < j < k <= |s| && Boundary(s, i) && StartsWith(s[i..], "in")
    && AllSpace(s[i + 2..j]) && NoQuestion(s[j..k])
  }

  ghost predicate InMatchesAt(s: string, i: int)
  {
    exists j, k :: InMatch(s, i, j, k)
  }

  /** The first index at or after k that holds '?', or |s|. */
  function FirstQuestion(s: string, k: nat): (q: nat)
    requires k <= |s|
    ensures k <= q <= |s|
    ensures forall t :: k <= t < q ==> s[t] != '?'
    ensures q == |s| || s[q] == '?'
    decreases |s| - k
  {
    if k < |s| && s[k] != '?' then FirstQuestion(s, k + 1) else k
  }

  /** Whether a match begins at i, read off the characters there: "in" after a word
      boundary, at least one whitespace, then one more character that is not '?'. */
  predicate InStartAt(s: string, i: nat)
  {
    i + 3 < |s| && Boundary(s, i) && StartsWith(s[i..], "in") && IsSpace(s[i + 2]) && s[i + 3] != '?'
  }

  /** Group 1 of the match at i as the engine picks it: \s+ takes the whole run of
      whitespace unless that leaves [^?]+ nothing to match, in which case it gives
      back one whitespace; [^?]+ then runs up to the first '?'. */
  function InGroup(s: string, i: nat): Span
    requires InStartAt(s, i)
  {
    var e := SkipSpace(s, i + 2);
    var j := if e < |s| && s[e] != '?' then e else e - 1;
    Span(j, FirstQuestion(s, j))
  }

  lemma InStartMeaning(s: string, i: nat)
    ensures InStartAt(s, i) <==> InMatchesAt(s, i)
  {
    if InStartAt(s, i) {
      assert s[i + 2..i + 3][0] == s[i + 2];
      assert s[i + 3..i + 4][0] == s[i + 3];
      assert InMatch(s, i, i + 3, i + 4);
    }
    if InMatchesAt(s, i) {
      var j, k :| InMatch(s, i, j, k);
      assert s[i + 2..j][0] == s[i + 2];
      if j == i + 3 {
        assert s[j..k][0] == s[j];
      } else {
        assert s[i + 2..j][1] == s[i + 3];
      }
    }
  }

  /** The group InGroup picks is a match, and it is the one a backtracking engine
      tries first: the longest whitespace run, then the longest group. */
  lemma InGroupPreferred(s: string, i: nat)
    requires InStartAt(s, i)
    ensures InMatch(s, i, InGroup(s, i).start, InGroup(s, i).end)
    ensures forall j, k :: InMatch(s, i, j, k) ==>
      j < InGroup(s, i).start || (j == InGroup(s, i).start && k <= InGroup(s, i).end)
  {
    var e := SkipSpace(s, i + 2);
    var g := InGroup(s, i);
    SkippedRun(s, i + 2);
    assert g.start == e ==> s[i + 2..g.start] == s[i + 2..e];
    assert g.start == e - 1 ==> IsSpace(s[e - 1]);
    assert AllSpace(s[i + 2..g.start]) by {
      var u := s[i + 2..g.start];
      forall t | 0 <= t < |u| ensures IsSpace(u[t]) {
        assert u[t] == s[i + 2..e][t];
      }
    }
    assert NoQuestion(s[g.start..g.end]) by {
      forall t | 0 <= t < g.end - g.start ensures s[g.start..g.end][t] != '?' {
        assert s[g.start..g.end][t] == s[g.start + t];
      }
    }
    forall j, k | InMatch(s, i, j, k)
      ensures j < g.start || (j == g.start && k <= g.end)
    {
      forall t | i + 2 <= t < j ensures IsSpace(s[t]) { assert s[i + 2..j][t - (i + 2)] == s[t]; }
      forall t | j <= t < k ensures s[t] != '?' { assert s[j..k][t - j] == s[t]; }
    }
  }

  /** re.search: the leftmost index from k where a match begins. */
  function SearchIn(s: string, k: nat): (r: Option<nat>)
    requires k <= |s|
    ensures r.Some? ==> k <= r.value < |s| && InStartAt(s, r.value)
    ensures r.Some? ==> forall t :: k <= t < r.value ==> !InMatchesAt(s, t)
    ensures r.None? ==> forall t :: k <= t <= |s| ==> !InMatchesAt(s, t)
    decreases |s| - k
  {
    InStartMeaning(s, k);
    if k == |s| then None
    else if InStartAt(s, k) then Some(k)
    else SearchIn(s, k + 1)
  }

  /** `in_match.group(1).strip()` when the pattern matches. */
  function ExtractLocation(msg: string): (r: Option<string>)
    ensures r.None? <==> forall t :: 0 <= t <= |msg| ==> !InMatchesAt(msg, t)
    ensures r.Some? ==> NoEdgeSpace(r.value) && '?' !in r.value
  {
    match SearchIn(msg, 0)
    case None => None
    case Some(i) =>
      InStartMeaning(msg, i);
      GroupHasNoQuestion(msg, i);
      Some(Strip(msg[InGroup(msg, i).start..InGroup(msg, i).end]))
  }

  lemma GroupHasNoQuestion(msg: string, i: nat)
    requires InStartAt(msg, i)
    ensures '?' !in Strip(msg[InGroup(msg, i).start..InGroup(msg, i).end])
  {
    var g := InGroup(msg, i);
    InGroupPreferred(msg, i);
    var w := msg[g.start..g.end];
    StripInside(w);
    assert '?' !in w by {
      forall t | 0 <= t < |w| ensures w[t] != '?' { }
    }
  }

  // ===== re.search(r"\b\d{2,}\b", text) (main.py:541) =====

  /** s[i..j] is a match: two or more digits with a word boundary on either side. */
  predicate StandaloneNumberAt(s: string, i: int, j: int)
  {
    0 <= i && i + 2 <= j <= |s| && AllDigits(s[i..j]) && Boundary(s, i) && Boundary(s, j)
  }

  /** The pattern matches somewhere in s. */
  ghost predicate HasStandaloneNumber(s: string)
  {
    exists i, j :: StandaloneNumberAt(s, i, j)
  }

  /** The first index at or after k that does not hold a word character. */
  function WordRunEnd(s: string, k: nat): (e: nat)
    requires k <= |s|
    ensures k <= e <= |s|
    ensures forall j :: k <= j < e ==> IsWordChar(s[j])
    ensures e == |s| || !IsWordChar(s[e])
    decreases |s| - k
  {
    if k < |s| && IsWordChar(s[k]) then WordRunEnd(s, k + 1) else k
  }

  /** Scan the words (maximal runs of word characters) from k for one made of two
      or more digits. */
  function NumberWordFrom(s: string, k: nat): bool
    requires k <= |s|
    requires k == 0 || !IsWordChar(s[k - 1])
    decreases |s| - k
  {
    if k == |s| then false
    else if !IsWordChar(s[k]) then NumberWordFrom(s, k + 1)
    else
      var e := WordRunEnd(s, k);
      (e - k >= 2 && AllDigits(s[k..e])) || (e < |s| && NumberWordFrom(s, e + 1))
  }

  /** The scan finds a word of digits exactly when the pattern matches from k on. */
  lemma {:induction false} NumberWordMeaning(s: string, k: nat)
    requires k <= |s|
    requires k == 0 || !IsWordChar(s[k - 1])
    ensures NumberWordFrom(s, k) <==> exists i, j :: k <= i && StandaloneNumberAt(s, i, j)
    decreases |s| - k
  {
    if k == |s| {
    } else if !IsWordChar(s[k]) {
      NumberWordMeaning(s, k + 1);
      forall i, j | k <= i && StandaloneNumberAt(s, i, j) ensures k + 1 <= i {
        NumberStartsWord(s, i, j);
      }
    } else {
      var e := WordRunEnd(s, k);
      if e < |s| {
        NumberWordMeaning(s, e + 1);
      }
      if e - k >= 2 && AllDigits(s[k..e]) {
        assert StandaloneNumberAt(s, k, e);
      }
      forall i, j | k <= i && StandaloneNumberAt(s, i, j)
        ensures (i == k && j == e) || (e < |s| && e + 1 <= i)
      {
        NumberInWord(s, k, e, i, j);
      }
    }
  }

  /** A match starts on a word character. */
  lemma NumberStartsWord(s: string, i: int, j: int)
    requires StandaloneNumberAt(s, i, j)
    ensures IsWordChar(s[i])
  {
    assert s[i..j][0] == s[i];
  }

  /** A match that starts in the word s[k..e] is that whole word. */
  lemma NumberInWord(s: string, k: nat, e: nat, i: int, j: int)
    requires k < e <= |s| && (k == 0 || !IsWordChar(s[k - 1]))
    requires forall t :: k <= t < e ==> IsWordChar(s[t])
    requires e == |s| || !IsWordChar(s[e])
    requires k <= i && StandaloneNumberAt(s, i, j)
    ensures (i == k && j == e) || (e < |s| && e + 1 <= i)
  {
    var w := s[i..j];
    assert w[0] == s[i];
    forall t | i <= t < j ensures IsWordChar(s[t]) { assert w[t - i] == s[t]; }
  }

  /** `re.search(r"\b\d{2,}\b", text)` is not None. */
  function FindsStandaloneNumber(s: string): (b: bool)
    ensures b <==> HasStandaloneNumber(s)
  {
    NumberWordMeaning(s, 0);
    NumberWordFrom(s, 0)
  }
}
