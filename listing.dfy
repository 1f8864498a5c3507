/** The outlet listing (main.py:476-534): four ordered strategies that cut the
    sanitised SQL answer into outlet items, and the display of at most five of them
    one per line, with a footer when there are more. */
module Listing {
  import opened Wrappers
  import opened Text
  import opened Patterns

  // ===== re.findall for the three marker strategies =====

  /** `$` without MULTILINE: the end of the text, or just before a final newline. */
  predicate AtEnd(s: string, k: int)
  {
    k == |s| || (0 <= k == |s| - 1 && s[k] == '\n')
  }

  predicate MarkerAt(s: string, k: int, marker: string)
  {
    0 <= k <= |s| && StartsWith(s[k..], marker)
  }

  /** The lookahead (?=marker|$) at k. */
  predicate Lookahead(s: string, k: int, marker: string)
  {
    MarkerAt(s, k, marker) || AtEnd(s, k)
  }

  /** A pattern of the form marker\s*([^F]*?)(?=marker|$), or, with keepMarker,
      (marker[^F]*?)(?=marker|$) without the \s*. */
  datatype Strategy = Strategy(marker: string, forbidden: char, skipSpace: bool, keepMarker: bool)

  /** r'Outlet Name:\s*([^L]*?)(?=Outlet Name:|$)' */
  const ByOutletName: Strategy := Strategy("Outlet Name:", 'L', true, false)
  /** r'Name:\s*([^N]*?)(?=Name:|$)' */
  const ByName: Strategy := Strategy("Name:", 'N', true, false)
  /** r'(ZUS Coffee[^Z]*?)(?=ZUS Coffee|$)' */
  const ByZus: Strategy := Strategy(ZusMarker, 'Z', false, true)

  /** The lazy [^F]*? from g: the first index where the lookahead holds, reached
      without crossing the forbidden character. */
  function LazyEnd(s: string, g: nat, marker: string, forbidden: char): (k: Option<nat>)
    requires g <= |s|
    ensures k.Some? ==> g <= k.value <= |s| && Lookahead(s, k.value, marker)
    ensures k.Some? ==> forall j :: g <= j < k.value ==> s[j] != forbidden && !Lookahead(s, j, marker)
    ensures k.None? ==>
      exists j :: g <= j < |s| && s[j] == forbidden && forall i :: g <= i <= j ==> !Lookahead(s, i, marker)
    decreases |s| - g
  {
    if Lookahead(s, g, marker) then Some(g)
    else if s[g] == forbidden then None
    else LazyEnd(s, g + 1, marker, forbidden)
  }

  /** One match: its group and the index where the search resumes. */
  datatype Found = Found(group: string, end: nat)

  /** The match of the strategy's pattern at p, if any: \s* takes the whole run of
      whitespace (ShorterRunFails shows that giving some back never helps). */
  function MatchAt(s: string, p: nat, st: Strategy): (m: Option<Found>)
    requires p <= |s| && st.marker != []
    ensures m.Some? ==> p < m.value.end <= |s|
  {
    if !MarkerAt(s, p, st.marker) then None
    else
      var b := p + |st.marker|;
      var g := if st.skipSpace then SkipSpace(s, b) else b;
      match LazyEnd(s, g, st.marker, st.forbidden)
      case None => None
      case Some(k) => Some(Found(if st.keepMarker then s[p..k] else s[g..k], k))
  }

  /** re.findall from index pos: the groups of the successive non-overlapping matches. */
  function FindAll(s: string, pos: nat, st: Strategy): seq<string>
    requires pos <= |s| && st.marker != []
    decreases |s| - pos
  {
    if pos == |s| then []
    else
      match MatchAt(s, pos, st)
      case Some(f) => [f.group] + FindAll(s, f.end, st)
      case None => FindAll(s, pos + 1, st)
  }

  /** `[m.strip() for m in ms if m.strip()]` */
  function StripNonEmpty(ms: seq<string>): (r: seq<string>)
    ensures |r| <= |ms|
    ensures forall k :: 0 <= k < |r| ==> r[k] != [] && NoEdgeSpace(r[k])
  {
    if ms == [] then []
    else
      var rest := StripNonEmpty(ms[1..]);
      if Strip(ms[0]) != [] then [Strip(ms[0])] + rest else rest
  }

  /** The items one marker strategy yields, guarded by its `in` test. */
  function Items(s: string, st: Strategy): seq<string>
    requires st.marker != []
  {
    if Contains(s, st.marker) then StripNonEmpty(FindAll(s, 0, st)) else []
  }

  // ===== re.split(r'\n\s*\d+\.\s+', s) for the numbered strategy =====

  /** The end of a separator match at p: a newline, whitespace, digits, a point and
      at least one whitespace, each run taken whole. */
  function NumberedSeparatorAt(s: string, p: nat): (t: Option<nat>)
    requires p <= |s|
    ensures t.Some? ==> p < t.value <= |s|
  {
    if p < |s| && s[p] == '\n' then
      var q := SkipSpace(s, p + 1);
      var r := DigitRunEnd(s, q);
      if q < r < |s| && s[r] == '.' then
        var t := SkipSpace(s, r + 1);
        if t > r + 1 then Some(t) else None
      else None
    else None
  }

  /** The pieces of s from `start`, with the search for the next separator at p. */
  function SplitFrom(s: string, start: nat, p: nat): (parts: seq<string>)
    requires start <= p <= |s|
    ensures |parts| >= 1
    decreases |s| - p
  {
    if p == |s| then [s[start..]]
    else
      match NumberedSeparatorAt(s, p)
      case Some(t) => [s[start..p]] + SplitFrom(s, t, t)
      case None => SplitFrom(s, start, p + 1)
  }

  function SplitNumbered(s: string): (parts: seq<string>)
    ensures |parts| >= 1
  {
    SplitFrom(s, 0, 0)
  }

  /** Strategy 4: the stripped non-empty pieces after the first, when s splits. */
  function NumberedItems(s: string): seq<string>
  {
    var parts := SplitNumbered(s);
    if |parts| > 1 then StripNonEmpty(parts[1..]) else []
  }

  /** The outlet items: the strategies in order, each tried only while the earlier
      ones gave none. */
  function ParsedOutlets(s: string): seq<string>
  {
    var o1 := Items(s, ByOutletName);
    var o2 := if |o1| == 0 then Items(s, ByName) else o1;
    var o3 := if |o2| == 0 then Items(s, ByZus) else o2;
    if |o3| == 0 then NumberedItems(s) else o3
  }

  /** The strategy cascade. */
  method ParseOutlets(s: string) returns (outlets: seq<string>)
    ensures outlets == ParsedOutlets(s)
  {
    outlets := Items(s, ByOutletName);
    if |outlets| == 0 {
      outlets := Items(s, ByName);
    }
    if |outlets| == 0 {
      outlets := Items(s, ByZus);
    }
    if |outlets| == 0 {
      outlets := SplitNumberedOutlets(s);
    }
  }

  /** Strategy 4's loop over the pieces after the first. */
  method SplitNumberedOutlets(s: string) returns (outlets: seq<string>)
    ensures outlets == NumberedItems(s)
  {
    outlets := [];
    var numbered := SplitNumbered(s);
    if |numbered| > 1 {
      var items := numbered[1..];
      for i := 0 to |items|
        invariant outlets == StripNonEmpty(items[..i])
      {
        StripNonEmptyAppend(items[..i], items[i]);
        assert items[..i + 1] == items[..i] + [items[i]];
        var text := Strip(items[i]);
        if text != [] {
          outlets := outlets + [text];
        }
      }
      assert items[..|items|] == items;
    }
  }

  // ===== the display =====

  /** `clean_lines`: the stripped non-empty lines of an item. */
  function CleanLines(o: string): seq<string>
  {
    StripNonEmpty(Split(o, '\n'))
  }

  /** The first one or two clean lines of an item, joined by a space. */
  function DisplayLine(o: string): Option<string>
  {
    FirstTwoJoined(CleanLines(o))
  }

  function FirstTwoJoined(clean: seq<string>): Option<string>
  {
    if |clean| > 0 then Some(Join(clean[..if |clean| < 2 then |clean| else 2], " ")) else None
  }

  /** The display line of an item, if it has one, as a list of zero or one lines. */
  function LineOf(o: string): seq<string>
  {
    match DisplayLine(o)
    case Some(l) => [l]
    case None => []
  }

  /** `formatted_outlets` for the items shown: the lines of all but the last item,
      then the last item's line. */
  function DisplayLines(shown: seq<string>): seq<string>
  {
    if shown == [] then []
    else
      DisplayLines(shown[..|shown| - 1]) + LineOf(shown[|shown| - 1])
  }

  const MaxShow: nat := 5

  function FooterLine(n: nat): string
  {
    "(Showing first 5 results of " + NatToString(n) + ".)"
  }

  function Footer(n: nat): string
  {
    "\n\n" + FooterLine(n)
  }

  /** The listing answer: up to five display lines and the footer when there were
      more items, or the sanitised text when no strategy found an item. */
  function ListingAnswer(t: string): string
  {
    var outlets := ParsedOutlets(t);
    if |outlets| > 0 then
      var shown := outlets[..ShownCount(|outlets|)];
      Join(DisplayLines(shown), "\n") + (if |outlets| > MaxShow then Footer(|outlets|) else "")
    else t
  }

  /** How many items the listing shows. */
  function ShownCount(n: nat): (k: nat)
    ensures k <= n && k <= MaxShow && (k == n || k == MaxShow)
  {
    if n < MaxShow then n else MaxShow
  }

  /** The footer after the display loop. */
  method FormatListing(outlets: seq<string>) returns (formatted: string)
    ensures formatted == Join(DisplayLines(outlets[..ShownCount(|outlets|)]), "\n")
      + (if |outlets| > MaxShow then Footer(|outlets|) else "")
  {
    var lines := FormatShown(outlets[..ShownCount(|outlets|)]);
    formatted := Join(lines, "\n");
    if |outlets| > MaxShow {
      formatted := formatted + Footer(|outlets|);
    }
  }

  /** The display loop over the items shown: `formatted_outlets`. */
  method FormatShown(shown: seq<string>) returns (lines: seq<string>)
    ensures lines == DisplayLines(shown)
  {
    lines := [];
    for i := 0 to |shown|
      invariant lines == DisplayLines(shown[..i])
    {
      var summary := Summary(shown[i]);
      DisplayStep(shown, i);
      if summary.Some? {
        lines := lines + [summary.value];
      } else {
        assert lines + [] == lines;
      }
    }
    assert shown[..|shown|] == shown;
  }

  /** One turn of the display loop adds the item's line. */
  lemma DisplayStep(shown: seq<string>, i: nat)
    requires i < |shown|
    ensures DisplayLines(shown[..i + 1]) == DisplayLines(shown[..i]) + LineOf(shown[i])
  {
    var q := shown[..i + 1];
    assert q[..i] == shown[..i] && q[i] == shown[i];
  }

  /** `outlet_summary` of one item, when it has a clean line. */
  method Summary(o: string) returns (summary: Option<string>)
    ensures LineOf(o) == if summary.Some? then [summary.value] else []
  {
    var clean := CleanLines(o);
    LineOfClean(o);
    summary := None;
    if |clean| > 0 {
      summary := Some(Join(clean[..if |clean| < 2 then |clean| else 2], " "));
    }
  }

  lemma LineOfClean(o: string)
    ensures var clean := CleanLines(o);
      LineOf(o) == if |clean| > 0 then [Join(clean[..if |clean| < 2 then |clean| else 2], " ")] else []
  {
  }

  // ----- the display line read off the item's lines -----

  /** An item whose lines are all blank has no display line, and only such an item.
      The lines are `parts`, the pieces of the item split at '\n'. */
  lemma LineOfBlank(o: string, parts: seq<string>)
    requires parts == Split(o, '\n')
    ensures LineOf(o) == [] <==> forall k :: 0 <= k < |parts| ==> AllSpace(parts[k])
  {
    LineOfClean(o);
    BlankIffNoneKept(parts);
  }

  /** With exactly one non-blank line, the display line is that line stripped. */
  lemma LineOfOneLine(o: string, parts: seq<string>, i: nat)
    requires parts == Split(o, '\n')
    requires i < |parts| && !AllSpace(parts[i])
    requires forall k :: 0 <= k < |parts| && k != i ==> AllSpace(parts[k])
    ensures LineOf(o) == [Strip(parts[i])]
  {
    var later := parts[i + 1..];
    StripNonEmptySkipsBlank(parts, i);
    StripNonEmptyAtKept(parts, i);
    forall k | 0 <= k < |later| ensures AllSpace(later[k]) {
      assert later[k] == parts[i + 1 + k];
    }
    AllBlankGone(later);
    var clean := CleanLines(o);
    assert clean == [Strip(parts[i])];
    assert clean[..1] == clean;
    LineOfClean(o);
  }

  /** Otherwise the display line is the first two non-blank lines, each stripped, with
      a space between them. */
  lemma LineOfTwoLines(o: string, parts: seq<string>, i: nat, j: nat)
    requires parts == Split(o, '\n')
    requires i < j < |parts| && !AllSpace(parts[i]) && !AllSpace(parts[j])
    requires forall k :: 0 <= k < j && k != i ==> AllSpace(parts[k])
    ensures LineOf(o) == [Strip(parts[i]) + " " + Strip(parts[j])]
  {
    var a, b := Strip(parts[i]), Strip(parts[j]);
    var clean := CleanLines(o);
    assert clean == StripNonEmpty(parts);
    FirstTwoKept(parts, i, j);
    assert clean[..2] == [a, b];
    JoinPair(a, b, " ");
    assert FirstTwoJoined(clean) == Some(a + " " + b);
  }

  lemma JoinPair(a: string, b: string, sep: string)
    ensures Join([a, b], sep) == a + sep + b
  {
    assert [a, b][1..] == [b];
  }

  lemma FirstTwoKept(parts: seq<string>, i: nat, j: nat)
    requires i < j < |parts| && !AllSpace(parts[i]) && !AllSpace(parts[j])
    requires forall k :: 0 <= k < j && k != i ==> AllSpace(parts[k])
    ensures var clean := StripNonEmpty(parts);
      |clean| >= 2 && clean[0] == Strip(parts[i]) && clean[1] == Strip(parts[j])
  {
    var later := parts[i + 1..];
    StripNonEmptySkipsBlank(parts, i);
    StripNonEmptyAtKept(parts, i);
    forall k | 0 <= k < j - i - 1 ensures AllSpace(later[k]) {
      assert later[k] == parts[i + 1 + k];
    }
    StripNonEmptySkipsBlank(later, j - i - 1);
    assert later[j - i - 1..] == parts[j..];
    StripNonEmptyAtKept(parts, j);
  }

  /** Blank texts in front are dropped. */
  lemma {:induction false} StripNonEmptySkipsBlank(ms: seq<string>, i: nat)
    requires i <= |ms| && forall k :: 0 <= k < i ==> AllSpace(ms[k])
    ensures StripNonEmpty(ms) == StripNonEmpty(ms[i..])
    decreases i
  {
    if i > 0 {
      StripEmptyIffBlank(ms[0]);
      forall k | 0 <= k < i - 1 ensures AllSpace(ms[1..][k]) {
        assert ms[1..][k] == ms[k + 1];
      }
      StripNonEmptySkipsBlank(ms[1..], i - 1);
      assert ms[1..][i - 1..] == ms[i..];
    }
  }

  /** A text that is not blank is kept, stripped. */
  lemma StripNonEmptyAtKept(ms: seq<string>, i: nat)
    requires i < |ms| && !AllSpace(ms[i])
    ensures StripNonEmpty(ms[i..]) == [Strip(ms[i])] + StripNonEmpty(ms[i + 1..])
  {
    StripEmptyIffBlank(ms[i]);
    assert ms[i..][0] == ms[i];
    assert ms[i..][1..] == ms[i + 1..];
  }

  lemma BlankIffNoneKept(ms: seq<string>)
    ensures StripNonEmpty(ms) == [] <==> forall k :: 0 <= k < |ms| ==> AllSpace(ms[k])
  {
    if forall k :: 0 <= k < |ms| ==> AllSpace(ms[k]) {
      AllBlankGone(ms);
    }
    if StripNonEmpty(ms) == [] {
      EmptyMeansAllBlank(ms);
    }
  }

  lemma AllBlankGone(ms: seq<string>)
    requires forall k :: 0 <= k < |ms| ==> AllSpace(ms[k])
    ensures StripNonEmpty(ms) == []
  {
    StripNonEmptySkipsBlank(ms, |ms|);
    assert ms[|ms|..] == [];
  }

  lemma {:induction false} EmptyMeansAllBlank(ms: seq<string>)
    requires StripNonEmpty(ms) == []
    ensures forall k :: 0 <= k < |ms| ==> AllSpace(ms[k])
  {
    if ms != [] {
      StripEmptyIffBlank(ms[0]);
      EmptyMeansAllBlank(ms[1..]);
      forall k | 0 < k < |ms| ensures AllSpace(ms[k]) {
        assert ms[k] == ms[1..][k - 1];
      }
    }
  }

  // ----- one more element at the end -----

  lemma {:induction false} StripNonEmptyAppend(ms: seq<string>, m: string)
    ensures StripNonEmpty(ms + [m]) == StripNonEmpty(ms) + (if Strip(m) != [] then [Strip(m)] else [])
  {
    if ms == [] {
      assert [] + [m] == [m];
      assert [m][1..] == [];
    } else {
      assert (ms + [m])[1..] == ms[1..] + [m];
      StripNonEmptyAppend(ms[1..], m);
    }
  }

  // ----- the numbered split read declaratively -----

  /** s[p..t] matches \n\s*\d+\.\s+, with the digits at [q, r) and the point at r. */
  predicate SeparatorShape(s: string, p: nat, q: nat, r: nat, t: nat)
  {
    p + 1 <= q < r && r + 1 < t <= |s| && s[p] == '\n'
    && (forall j :: p + 1 <= j < q ==> IsSpace(s[j]))
    && (forall j :: q <= j < r ==> IsDigit(s[j]))
    && s[r] == '.'
    && (forall j :: r + 1 <= j < t ==> IsSpace(s[j]))
  }

  /** The separator pattern matches s[p..t]. */
  ghost predicate SeparatorMatch(s: string, p: nat, t: nat)
  {
    exists q: nat, r: nat :: SeparatorShape(s, p, q, r, t)
  }

  /** The match at p that the greedy \s+ takes: the longest one. */
  ghost predicate LongestSeparator(s: string, p: nat, t: nat)
  {
    SeparatorMatch(s, p, t) && forall u: nat :: SeparatorMatch(s, p, u) ==> u <= t
  }

  /** No separator match begins in [a, e). */
  ghost predicate NoSeparatorIn(s: string, a: nat, e: nat)
  {
    forall i: nat, t: nat :: a <= i < e ==> !SeparatorMatch(s, i, t)
  }

  lemma SkipSpaceExact(s: string, k: nat, e: nat)
    requires k <= e <= |s| && forall j :: k <= j < e ==> IsSpace(s[j])
    requires e == |s| || !IsSpace(s[e])
    ensures SkipSpace(s, k) == e
  {
  }

  lemma DigitRunExact(s: string, k: nat, e: nat)
    requires k <= e <= |s| && forall j :: k <= j < e ==> IsDigit(s[j])
    requires e == |s| || !IsDigit(s[e])
    ensures DigitRunEnd(s, k) == e
  {
  }

  /** Every match at p has the runs the scanner takes, and ends no later than it. */
  lemma SeparatorRuns(s: string, p: nat, q: nat, r: nat, t: nat)
    requires SeparatorShape(s, p, q, r, t)
    ensures q == SkipSpace(s, p + 1) && r == DigitRunEnd(s, q) && t <= SkipSpace(s, r + 1)
  {
    assert IsDigit(s[q]);
    SkipSpaceExact(s, p + 1, q);
    DigitRunExact(s, q, r);
  }

  /** The separator scanner finds a match at p exactly when the pattern matches
      there, and then it ends where the longest match ends. */
  lemma NumberedSeparatorMeaning(s: string, p: nat)
    requires p <= |s|
    ensures NumberedSeparatorAt(s, p).None? ==> forall t :: !SeparatorMatch(s, p, t)
    ensures NumberedSeparatorAt(s, p).Some? ==> LongestSeparator(s, p, NumberedSeparatorAt(s, p).value)
  {
    forall t: nat | SeparatorMatch(s, p, t)
      ensures NumberedSeparatorAt(s, p).Some? && t <= NumberedSeparatorAt(s, p).value
    {
      var q: nat, r: nat :| SeparatorShape(s, p, q, r, t);
      SeparatorRuns(s, p, q, r, t);
    }
    if NumberedSeparatorAt(s, p).Some? {
      var q := SkipSpace(s, p + 1);
      var r := DigitRunEnd(s, q);
      assert SeparatorShape(s, p, q, r, NumberedSeparatorAt(s, p).value);
    }
  }

  /** re.split's reading of `parts` as the split of s[start..] at the separator spans
      `cuts`: each piece runs up to the leftmost match after it begins, the match is
      taken longest, the next piece begins where it ends, and no match begins inside
      the last piece. */
  ghost predicate SplitsAs(s: string, start: nat, parts: seq<string>, cuts: seq<(nat, nat)>)
    decreases |cuts|
  {
    start <= |s| && |parts| == |cuts| + 1
    && if cuts == [] then parts[0] == s[start..] && NoSeparatorIn(s, start, |s|)
       else
         var p, t := cuts[0].0, cuts[0].1;
         start <= p < t <= |s| && LongestSeparator(s, p, t) && parts[0] == s[start..p]
         && NoSeparatorIn(s, start, p) && SplitsAs(s, t, parts[1..], cuts[1..])
  }

  /** The pieces SplitFrom cuts from start, searching from p, are re.split's. */
  lemma {:induction false} SplitFromMeaning(s: string, start: nat, p: nat) returns (cuts: seq<(nat, nat)>)
    requires start <= p <= |s| && NoSeparatorIn(s, start, p)
    ensures SplitsAs(s, start, SplitFrom(s, start, p), cuts)
    decreases |s| - p
  {
    if p == |s| {
      cuts := [];
    } else {
      NumberedSeparatorMeaning(s, p);
      match NumberedSeparatorAt(s, p)
      case Some(t) =>
        var rest := SplitFromMeaning(s, t, t);
        cuts := [(p, t)] + rest;
        assert cuts[1..] == rest;
        assert SplitFrom(s, start, p)[1..] == SplitFrom(s, t, t);
      case None =>
        cuts := SplitFromMeaning(s, start, p + 1);
    }
  }

  /** `re.split(r'\n\s*\d+\.\s+', s)` as the scanner computes it is the split of the
      whole text at its leftmost-longest separator matches. */
  lemma SplitNumberedMeaning(s: string)
    ensures exists cuts :: SplitsAs(s, 0, SplitNumbered(s), cuts)
  {
    var cuts := SplitFromMeaning(s, 0, 0);
    assert SplitsAs(s, 0, SplitNumbered(s), cuts);
  }

  /** That reading leaves no choice: it fixes the pieces and the separator spans. */
  lemma {:induction false} SplitsAsUnique(s: string, start: nat, parts1: seq<string>, cuts1: seq<(nat, nat)>,
                                          parts2: seq<string>, cuts2: seq<(nat, nat)>)
    requires SplitsAs(s, start, parts1, cuts1) && SplitsAs(s, start, parts2, cuts2)
    ensures parts1 == parts2 && cuts1 == cuts2
    decreases |cuts1|
  {
    if cuts1 != [] && cuts2 != [] {
      assert cuts1[0] == cuts2[0];
      SplitsAsUnique(s, cuts1[0].1, parts1[1..], cuts1[1..], parts2[1..], cuts2[1..]);
      assert parts1 == [parts1[0]] + parts1[1..] && parts2 == [parts2[0]] + parts2[1..];
      assert cuts1 == [cuts1[0]] + cuts1[1..] && cuts2 == [cuts2[0]] + cuts2[1..];
    } else if cuts1 == [] && cuts2 == [] {
      assert parts1 == [parts1[0]] && parts2 == [parts2[0]];
    }
  }

  /** The pieces with the separators put back between them, sep.join-style. */
  function Rejoin(parts: seq<string>, seps: seq<string>): string
    requires |parts| == |seps| + 1
    decreases |seps|
  {
    if seps == [] then parts[0] else parts[0] + seps[0] + Rejoin(parts[1..], seps[1..])
  }

  /** The separator spans lie inside s. */
  predicate CutsWithin(s: string, cuts: seq<(nat, nat)>)
    decreases |cuts|
  {
    cuts == [] || (cuts[0].0 <= cuts[0].1 <= |s| && CutsWithin(s, cuts[1..]))
  }

  /** The texts of the separator spans. */
  function SeparatorTexts(s: string, cuts: seq<(nat, nat)>): (seps: seq<string>)
    requires CutsWithin(s, cuts)
    ensures |seps| == |cuts|
    decreases |cuts|
  {
    if cuts == [] then [] else [s[cuts[0].0..cuts[0].1]] + SeparatorTexts(s, cuts[1..])
  }

  /** Putting the matched separator texts back between the pieces gives the text. */
  lemma {:induction false} SplitsAsRejoin(s: string, start: nat, parts: seq<string>, cuts: seq<(nat, nat)>)
    requires SplitsAs(s, start, parts, cuts)
    ensures CutsWithin(s, cuts) && Rejoin(parts, SeparatorTexts(s, cuts)) == s[start..]
    decreases |cuts|
  {
    if cuts != [] {
      var p, t := cuts[0].0, cuts[0].1;
      SplitsAsRejoin(s, t, parts[1..], cuts[1..]);
      var seps := SeparatorTexts(s, cuts);
      assert seps[0] == s[p..t] && seps[1..] == SeparatorTexts(s, cuts[1..]);
      assert s[start..] == s[start..p] + s[p..t] + s[t..];
    }
  }

  // ----- the \s* of the Name strategies -----

  /** Giving back whitespace to \s* never lets [^F]*? reach the lookahead when the
      whole run did not: the positions given back are whitespace, which is neither
      the marker's first character nor the forbidden one, and the lookahead can
      hold there only when it already holds at the end of the run. */
  lemma {:induction false} ShorterRunFails(s: string, b: nat, h: nat, st: Strategy)
    requires st.marker != [] && !IsSpace(st.marker[0]) && !IsSpace(st.forbidden)
    requires b <= |s| && b <= h <= SkipSpace(s, b)
    requires LazyEnd(s, SkipSpace(s, b), st.marker, st.forbidden).None?
    ensures LazyEnd(s, h, st.marker, st.forbidden).None?
    decreases SkipSpace(s, b) - h
  {
    var g := SkipSpace(s, b);
    if h < g {
      assert IsSpace(s[h]);
      if |st.marker| <= |s| - h {
        assert s[h..][..|st.marker|][0] == s[h];
      }
      assert g < |s|;
      ShorterRunFails(s, b, h + 1, st);
    }
  }

  lemma NameStrategiesShape()
    ensures ByOutletName.marker != [] && !IsSpace(ByOutletName.marker[0]) && !IsSpace(ByOutletName.forbidden)
    ensures ByName.marker != [] && !IsSpace(ByName.marker[0]) && !IsSpace(ByName.forbidden)
  {
  }

  /** For the two strategies with a \s*, MatchAt's whole-run choice loses no match:
      when the lazy group fails after the whole run, it fails after every shorter one. */
  lemma NameRunsGreedy(s: string, b: nat, h: nat, st: Strategy)
    requires st == ByOutletName || st == ByName
    requires b <= |s| && b <= h <= SkipSpace(s, b)
    requires LazyEnd(s, SkipSpace(s, b), st.marker, st.forbidden).None?
    ensures LazyEnd(s, h, st.marker, st.forbidden).None?
  {
    NameStrategiesShape();
    ShorterRunFails(s, b, h, st);
  }

  // ----- an "Outlet Name:" block that shows "Location:" -----

  /** The lazy group fails when a forbidden character comes before any lookahead. */
  lemma {:induction false} LazyEndBlocked(s: string, g: nat, j: nat, marker: string, forbidden: char)
    requires g <= j < |s| && s[j] == forbidden
    requires forall i :: g <= i <= j ==> !Lookahead(s, i, marker)
    ensures LazyEnd(s, g, marker, forbidden) == None
    decreases j - g
  {
    if s[g] != forbidden {
      LazyEndBlocked(s, g + 1, j, marker, forbidden);
    }
  }

  /** `Outlet Name:\s*([^L]*?)` cannot cross an 'L': an "Outlet Name:" at p followed by
      an 'L' at j, with no further "Outlet Name:" up to j, is not matched at p. */
  lemma LocationBlockUnmatched(s: string, p: nat, j: nat)
    requires MarkerAt(s, p, ByOutletName.marker)
    requires p + |ByOutletName.marker| <= j < |s| && s[j] == 'L'
    requires forall i :: p + |ByOutletName.marker| <= i <= j ==> !MarkerAt(s, i, ByOutletName.marker)
    ensures MatchAt(s, p, ByOutletName) == None
  {
    var b := p + |ByOutletName.marker|;
    var g := SkipSpace(s, b);
    assert !IsSpace(s[j]);
    assert g <= j;
    forall i | g <= i <= j ensures !Lookahead(s, i, ByOutletName.marker) {
      assert !AtEnd(s, i);
    }
    LazyEndBlocked(s, g, j, ByOutletName.marker, 'L');
  }

  // ----- the ZUS Coffee strategy on a listing it could have come from -----

  const ZusMarker: string := "ZUS Coffee"

  /** Outlet descriptions written one after another, each after the marker. */
  function ZusListing(xs: seq<string>): string
  {
    if xs == [] then [] else ZusMarker + xs[0] + ZusListing(xs[1..])
  }

  /** A description the ZUS strategy can cut out again: it holds no 'Z'. */
  predicate ZusDescription(x: string)
  {
    'Z' !in x
  }

  /** A newline at the very end of the text would be left out by the `$` lookahead,
      so only the last description must not end in one. */
  predicate EndsInNewline(x: string)
  {
    x != [] && x[|x| - 1] == '\n'
  }

  function Marked(xs: seq<string>): (ms: seq<string>)
    ensures |ms| == |xs| && forall k :: 0 <= k < |xs| ==> ms[k] == ZusMarker + xs[k]
  {
    if xs == [] then [] else [ZusMarker + xs[0]] + Marked(xs[1..])
  }

  /** One step: the match at the start of a listed item is that item with its marker. */
  lemma ZusMatchAtItem(s: string, pos: nat, xs: seq<string>)
    requires pos <= |s| && s[pos..] == ZusListing(xs) && xs != [] && ZusDescription(xs[0])
    requires |xs| == 1 ==> !EndsInNewline(xs[0])
    ensures MatchAt(s, pos, ByZus) == Some(Found(ZusMarker + xs[0], pos + |ZusMarker| + |xs[0]|))
    ensures s[pos + |ZusMarker| + |xs[0]|..] == ZusListing(xs[1..])
  {
    var g := pos + |ZusMarker|;
    var k := g + |xs[0]|;
    ZusItemLayout(s, pos, xs);
    ZusItemEnd(s, k, xs[1..]);
    if |xs| > 1 {
      ZusListingNotEmpty(s, k, xs[1..]);
    }
    ZusItemInside(s, g, xs[0]);
    LazyEndFirst(s, g, k, ZusMarker, 'Z');
    MatchAtKept(s, pos, k, ByZus);
  }

  /** A match of a strategy that keeps its marker and skips no space. */
  lemma MatchAtKept(s: string, p: nat, k: nat, st: Strategy)
    requires p <= k <= |s| && st.marker != [] && !st.skipSpace && st.keepMarker
    requires MarkerAt(s, p, st.marker)
    requires p + |st.marker| <= |s|
    requires LazyEnd(s, p + |st.marker|, st.marker, st.forbidden) == Some(k)
    ensures MatchAt(s, p, st) == Some(Found(s[p..k], k))
  {
  }

  /** Where the parts of the first listed item lie in the text. */
  lemma ZusItemLayout(s: string, pos: nat, xs: seq<string>)
    requires pos <= |s| && s[pos..] == ZusListing(xs) && xs != []
    ensures var g := pos + |ZusMarker|; var k := g + |xs[0]|;
      k <= |s| && MarkerAt(s, pos, ZusMarker) && s[k..] == ZusListing(xs[1..])
      && s[pos..k] == ZusMarker + xs[0] && s[g..k] == xs[0]
  {
    var x := xs[0];
    var g := pos + |ZusMarker|;
    var k := g + |x|;
    var t := s[pos..];
    assert t == ZusMarker + x + ZusListing(xs[1..]);
    assert t[..|ZusMarker|] == ZusMarker;
    assert s[k..] == t[|ZusMarker| + |x|..];
    assert s[pos..k] == t[..|ZusMarker| + |x|];
    assert s[g..k] == t[|ZusMarker|..|ZusMarker| + |x|];
  }

  /** The lookahead holds where the rest of a listing begins. */
  lemma ZusItemEnd(s: string, k: nat, rest: seq<string>)
    requires k <= |s| && s[k..] == ZusListing(rest)
    ensures Lookahead(s, k, ZusMarker)
  {
    if rest != [] {
      assert s[k..] == ZusMarker + rest[0] + ZusListing(rest[1..]);
      assert s[k..][..|ZusMarker|] == ZusMarker;
    }
  }

  /** A listing with items is not empty. */
  lemma ZusListingNotEmpty(s: string, k: nat, rest: seq<string>)
    requires k <= |s| && s[k..] == ZusListing(rest) && rest != []
    ensures k < |s|
  {
    assert |ZusListing(rest)| >= |ZusMarker|;
  }

  /** Inside a description the lazy group neither stops nor meets a 'Z'. */
  lemma ZusItemInside(s: string, g: nat, x: string)
    requires g + |x| <= |s| && s[g..g + |x|] == x && ZusDescription(x)
    requires g + |x| == |s| ==> !EndsInNewline(x)
    ensures forall j :: g <= j < g + |x| ==> s[j] != 'Z' && !Lookahead(s, j, ZusMarker)
  {
    forall j | g <= j < g + |x| ensures s[j] != 'Z' && !Lookahead(s, j, ZusMarker) {
      assert s[j] == x[j - g];
      assert x[j - g] in x;
      if |ZusMarker| <= |s| - j {
        assert s[j..][..|ZusMarker|][0] == s[j];
      }
      if j == |s| - 1 && g + |x| == |s| {
        assert j - g == |x| - 1;
      }
    }
  }

  /** The lazy group ends at the first lookahead reached without the forbidden character. */
  lemma LazyEndFirst(s: string, g: nat, k: nat, marker: string, forbidden: char)
    requires g <= k <= |s| && Lookahead(s, k, marker)
    requires forall j :: g <= j < k ==> s[j] != forbidden && !Lookahead(s, j, marker)
    ensures LazyEnd(s, g, marker, forbidden) == Some(k)
  {
  }

  /** The ZUS strategy cuts a listing back into its items, each with its marker. */
  lemma {:induction false} ZusRoundTrip(s: string, pos: nat, xs: seq<string>)
    requires pos <= |s| && s[pos..] == ZusListing(xs)
    requires forall k :: 0 <= k < |xs| ==> ZusDescription(xs[k])
    requires xs != [] ==> !EndsInNewline(xs[|xs| - 1])
    ensures FindAll(s, pos, ByZus) == Marked(xs)
    decreases |xs|
  {
    if xs == [] {
      assert pos == |s|;
    } else {
      ZusMatchAtItem(s, pos, xs);
      assert |s[pos..]| > 0;
      assert xs[1..] != [] ==> xs[1..][|xs[1..]| - 1] == xs[|xs| - 1];
      ZusRoundTrip(s, pos + |ZusMarker| + |xs[0]|, xs[1..]);
      assert Marked(xs) == [ZusMarker + xs[0]] + Marked(xs[1..]);
    }
  }

  // ----- the display -----

  /** An item that is non-empty and stripped has a display line. */
  lemma ItemHasLine(o: string)
    requires o != [] && NoEdgeSpace(o)
    ensures |LineOf(o)| == 1
  {
    var parts := Split(o, '\n');
    var rest := Split(o[1..], '\n');
    assert !IsSpace(o[0]);
    assert parts[0] == [o[0]] + rest[0];
    assert !AllSpace(parts[0]) by { assert parts[0][0] == o[0]; }
    StripEmptyIffBlank(parts[0]);
    assert StripNonEmpty(parts) == [Strip(parts[0])] + StripNonEmpty(parts[1..]);
  }

  /** Every shown item that is non-empty and stripped gives exactly one line. */
  lemma {:induction false} LinesPerItem(shown: seq<string>)
    requires forall k :: 0 <= k < |shown| ==> shown[k] != [] && NoEdgeSpace(shown[k])
    ensures |DisplayLines(shown)| == |shown|
  {
    if shown != [] {
      ItemHasLine(shown[|shown| - 1]);
      LinesPerItem(shown[..|shown| - 1]);
    }
  }

  /** A display line is a single line. */
  lemma LineHasNoNewline(o: string)
    ensures forall k :: 0 <= k < |LineOf(o)| ==> '\n' !in LineOf(o)[k]
  {
    var parts := Split(o, '\n');
    SplitPiecesNoSep(o, '\n');
    var clean := StripNonEmpty(parts);
    CleanLinesNoNewline(parts);
    if |clean| > 0 {
      var first := clean[..if |clean| < 2 then |clean| else 2];
      JoinNoChar(first, " ", '\n');
    }
  }

  lemma {:induction false} CleanLinesNoNewline(parts: seq<string>)
    requires forall k :: 0 <= k < |parts| ==> '\n' !in parts[k]
    ensures forall k :: 0 <= k < |StripNonEmpty(parts)| ==> '\n' !in StripNonEmpty(parts)[k]
  {
    if parts != [] {
      CleanLinesNoNewline(parts[1..]);
      StripInside(parts[0]);
    }
  }

  lemma {:induction false} LinesHaveNoNewline(shown: seq<string>)
    ensures forall k :: 0 <= k < |DisplayLines(shown)| ==> '\n' !in DisplayLines(shown)[k]
  {
    if shown != [] {
      LineHasNoNewline(shown[|shown| - 1]);
      LinesHaveNoNewline(shown[..|shown| - 1]);
    }
  }

  lemma FooterLineChars(n: nat)
    ensures '\n' !in FooterLine(n)
  {
    var d := NatToString(n);
    assert forall c :: c in d ==> IsDigit(c);
    assert FooterLine(n) == "(Showing first 5 " + "results of " + d + ".)";
  }

  /** Lines joined by newlines, then an empty line and a last line, split back. */
  lemma BlankThenLastSplit(lines: seq<string>, f: string)
    requires lines != [] && forall k :: 0 <= k < |lines| ==> '\n' !in lines[k]
    requires '\n' !in f
    ensures Split(Join(lines, "\n") + ("\n\n" + f), '\n') == lines + ["", f]
  {
    var all := lines + ["", f];
    var j := Join(lines, "\n");
    JoinSnoc(lines, "", "\n");
    JoinSnoc(lines + [""], f, "\n");
    assert lines + [""] + [f] == all;
    NewlinesThenLast(j, f);
    forall k | 0 <= k < |all| ensures '\n' !in all[k] {
      if k < |lines| { assert all[k] == lines[k]; }
    }
    SplitJoin(all, '\n');
  }

  /** (j + "\n" + "") + "\n" + f, regrouped. */
  lemma NewlinesThenLast(j: string, f: string)
    ensures j + "\n" + "" + "\n" + f == j + ("\n\n" + f)
  {
    var nl := "\n";
    assert nl + nl == "\n\n";
    assert j + nl + "" == j + nl;
    assert j + nl + nl + f == j + (nl + nl + f);
  }

  lemma FooterSplit(lines: seq<string>, n: nat)
    requires lines != [] && forall k :: 0 <= k < |lines| ==> '\n' !in lines[k]
    ensures Split(Join(lines, "\n") + Footer(n), '\n') == lines + ["", FooterLine(n)]
  {
    FooterLineChars(n);
    BlankThenLastSplit(lines, FooterLine(n));
  }

  /** The listing answer, read line by line: one line per shown item, at most five,
      then an empty line and the footer exactly when there were more than five; with
      no item, the sanitised text itself. */
  lemma ListingLines(t: string)
    ensures var n := |ParsedOutlets(t)|;
      n > 0 ==>
        var lines := DisplayLines(ParsedOutlets(t)[..ShownCount(n)]);
        |lines| == ShownCount(n)
        && Split(ListingAnswer(t), '\n') == lines + (if n > MaxShow then ["", FooterLine(n)] else [])
    ensures ParsedOutlets(t) == [] ==> ListingAnswer(t) == t
  {
    var outlets := ParsedOutlets(t);
    var n := |outlets|;
    if n > 0 {
      var shown := outlets[..ShownCount(n)];
      var lines := DisplayLines(shown);
      LinesPerItem(shown);
      LinesHaveNoNewline(shown);
      if n > MaxShow {
        FooterSplit(lines, n);
      } else {
        assert Join(lines, "\n") + "" == Join(lines, "\n");
        SplitJoin(lines, '\n');
      }
    }
  }
}
