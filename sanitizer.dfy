/** `_sanitize_tool_output` (main.py:380-404): delete the wrapper markers and labels,
    drop polite prefixes in one ordered pass, trim. */
module Sanitizer {
  import opened Wrappers
  import opened Text

  const ProductMarker: string := "[PRODUCT INFORMATION RETRIEVED]"
  const ProductLabel: string := "Product Information:"
  const OutletMarker: string := "[OUTLET DATABASE QUERY EXECUTED]"
  const OutletLabel: string := "Outlet Query Result:"
  const CalculationLabel: string := "Calculation result:"

  /** The five strings deleted everywhere, in the order they are deleted. */
  const Markers: seq<string> := [ProductMarker, ProductLabel, OutletMarker, OutletLabel, CalculationLabel]

  /** The prefixes tried, each once and in this order, against the current text. */
  const Prefixes: seq<string> := [
    "I apologize for the inconvenience. ",
    "I apologize for the inconvenience.",
    "I am sorry, ",
    "I am very sorry, ",
    "I apologize for the inconvenience. Let me calculate that for you. ",
    "I apologize for the inconvenience. Let me calculate that for you.",
    "Apologies — ",
    "Sorry, ",
    "\n"
  ]

  /** The five str.replace(marker, '') calls, in order. */
  function RemoveMarkers(s: string): string
  {
    var s1 := RemoveAll(s, ProductMarker);
    var s2 := RemoveAll(s1, ProductLabel);
    var s3 := RemoveAll(s2, OutletMarker);
    var s4 := RemoveAll(s3, OutletLabel);
    RemoveAll(s4, CalculationLabel)
  }

  function DropPrefix(s: string, p: string): string
  {
    if StartsWith(s, p) then s[|p|..] else s
  }

  /** One pass over the prefixes, each checked against the text left by the previous ones. */
  function DropPrefixes(s: string, ps: seq<string>): string
  {
    if ps == [] then s else DropPrefixes(DropPrefix(s, ps[0]), ps[1..])
  }

  /** What `_sanitize_tool_output(raw)` returns. */
  function Sanitized(raw: Option<string>): string
  {
    match raw
    case None => ""
    case Some(s) => Strip(DropPrefixes(RemoveMarkers(s), Prefixes))
  }

  /** `_sanitize_tool_output`, with its prefix loop. */
  method SanitizeToolOutput(raw: Option<string>) returns (r: string)
    ensures r == Sanitized(raw)
    ensures raw.None? ==> r == ""
    ensures NoEdgeSpace(r)
  {
    if raw.None? {
      return "";
    }
    var s := raw.value;
    s := RemoveAll(s, ProductMarker);
    s := RemoveAll(s, ProductLabel);
    s := RemoveAll(s, OutletMarker);
    s := RemoveAll(s, OutletLabel);
    s := RemoveAll(s, CalculationLabel);
    ghost var cleaned := s;
    var i := 0;
    while i < |Prefixes|
      invariant 0 <= i <= |Prefixes|
      invariant DropPrefixes(s, Prefixes[i..]) == DropPrefixes(cleaned, Prefixes)
    {
      assert Prefixes[i..][1..] == Prefixes[i + 1..];
      if StartsWith(s, Prefixes[i]) {
        s := s[|Prefixes[i]|..];
      }
      i := i + 1;
    }
    r := Strip(s);
  }

  // ----- lemmas -----

  /** Every prefix but the last begins with 'I', 'A' or 'S'; the last is a newline. */
  lemma PrefixHeads()
    ensures forall k :: 0 <= k < 8 ==> Prefixes[k] != [] && Prefixes[k][0] in "IAS"
    ensures Prefixes[8] == "\n"
  {
    forall k | 0 <= k < 8 ensures Prefixes[k] != [] && Prefixes[k][0] in "IAS" {
      if k == 0 { assert Prefixes[0][0] == 'I'; }
      else if k == 1 { assert Prefixes[1][0] == 'I'; }
      else if k == 2 { assert Prefixes[2][0] == 'I'; }
      else if k == 3 { assert Prefixes[3][0] == 'I'; }
      else if k == 4 { assert Prefixes[4][0] == 'I'; }
      else if k == 5 { assert Prefixes[5][0] == 'I'; }
      else if k == 6 { assert Prefixes[6][0] == 'A'; }
      else { assert Prefixes[7][0] == 'S'; }
    }
  }

  /** No prefix can start a text whose first character is not 'I', 'A', 'S' or a newline. */
  lemma NoPrefixApplies(s: string)
    requires s != [] && s[0] !in "IAS\n"
    ensures forall k :: 0 <= k < |Prefixes| ==> !StartsWith(s, Prefixes[k])
  {
    PrefixHeads();
    forall k | 0 <= k < |Prefixes| ensures !StartsWith(s, Prefixes[k]) {
      if |Prefixes[k]| <= |s| {
        assert s[..|Prefixes[k]|][0] == s[0];
      }
    }
  }

  /** A pass over prefixes none of which can start the text changes nothing. */
  lemma {:induction false} DropPrefixesNoneApply(s: string, ps: seq<string>)
    requires forall k :: 0 <= k < |ps| ==> !StartsWith(s, ps[k])
    ensures DropPrefixes(s, ps) == s
  {
    if ps != [] {
      DropPrefixesNoneApply(s, ps[1..]);
    }
  }

  /** Text that holds no marker and starts with no listed prefix comes back only trimmed. */
  lemma SanitizeCleanText(s: string)
    requires forall k :: 0 <= k < |Markers| ==> !Contains(s, Markers[k])
    requires forall k :: 0 <= k < |Prefixes| ==> !StartsWith(s, Prefixes[k])
    ensures Sanitized(Some(s)) == Strip(s)
  {
    assert !Contains(s, Markers[0]) && !Contains(s, Markers[1]) && !Contains(s, Markers[2]);
    assert !Contains(s, Markers[3]) && !Contains(s, Markers[4]);
    RemoveAllAbsent(s, ProductMarker);
    RemoveAllAbsent(s, ProductLabel);
    RemoveAllAbsent(s, OutletMarker);
    RemoveAllAbsent(s, OutletLabel);
    RemoveAllAbsent(s, CalculationLabel);
    DropPrefixesNoneApply(s, Prefixes);
  }

  /** Text that starts with "\n " followed by marker-free text: the nine prefixes
      take away only the newline. */
  lemma NewlineSpaceFront(s: string)
    ensures DropPrefixes("\n " + s, Prefixes) == " " + s
  {
    var t := "\n " + s;
    PrefixHeads();
    forall k | 0 <= k < 8 ensures !StartsWith(t, Prefixes[k]) {
      assert t[0] == '\n';
      if |Prefixes[k]| <= |t| {
        assert t[..|Prefixes[k]|][0] == t[0];
      }
    }
    assert Prefixes == Prefixes[..8] + ["\n"];
    DropPrefixesSplit(t, Prefixes[..8], ["\n"]);
    DropPrefixesNoneApply(t, Prefixes[..8]);
    assert StartsWith(t, "\n");
    assert t[1..] == " " + s;
  }

  lemma {:induction false} DropPrefixesSplit(s: string, ps: seq<string>, qs: seq<string>)
    ensures DropPrefixes(s, ps + qs) == DropPrefixes(DropPrefixes(s, ps), qs)
  {
    if ps != [] {
      assert (ps + qs)[1..] == ps[1..] + qs;
      DropPrefixesSplit(DropPrefix(s, ps[0]), ps[1..], qs);
    } else {
      assert ps + qs == qs;
    }
  }

  lemma DropOwnPrefix(p: string, t: string)
    ensures DropPrefix(p + t, p) == t
  {
    assert (p + t)[..|p|] == p;
    assert (p + t)[|p|..] == t;
  }

  /** The fifth prefix is the first one followed by "Let me calculate that for you. ". */
  lemma LongApologyShape()
    ensures Prefixes[4] == Prefixes[0] + "Let me calculate that for you. "
  {
  }

  lemma StartsWithL(rest: string)
    ensures ("Let me calculate that for you. " + rest)[0] == 'L'
  {
  }

  /** Text starting with 'L' passes every prefix but the first untouched. */
  lemma NoLaterPrefixBeforeL(tail: string)
    requires tail != [] && tail[0] == 'L'
    ensures DropPrefixes(tail, Prefixes[1..]) == tail
  {
    NoPrefixApplies(tail);
    DropPrefixesNoneApply(tail, Prefixes[1..]);
  }

  /** The longer "Let me calculate" apologies come after the shorter apology that is
      their own prefix, so they never apply as a whole: the shorter one has already
      taken away its part. */
  lemma LongApologyOnlyPartlyRemoved(rest: string)
    ensures DropPrefixes(Prefixes[4] + rest, Prefixes) == "Let me calculate that for you. " + rest
  {
    var tail := "Let me calculate that for you. " + rest;
    LongApologyShape();
    assert Prefixes[4] + rest == Prefixes[0] + tail;
    DropOwnPrefix(Prefixes[0], tail);
    StartsWithL(rest);
    NoLaterPrefixBeforeL(tail);
  }

  /** Only the calculation label can be deleted from text without '[', 'P' and 'O'. */
  lemma OnlyCalculationLabelApplies(s: string)
    requires '[' !in s && 'P' !in s && 'O' !in s
    ensures RemoveMarkers(s) == RemoveAll(s, CalculationLabel)
  {
    AbsentHead(s, ProductMarker);
    AbsentHead(s, ProductLabel);
    AbsentHead(s, OutletMarker);
    AbsentHead(s, OutletLabel);
    RemoveAllAbsent(s, ProductMarker);
    RemoveAllAbsent(s, ProductLabel);
    RemoveAllAbsent(s, OutletMarker);
    RemoveAllAbsent(s, OutletLabel);
  }

  /** Deleting the label from text where it sits between the two halves of a further
      copy of itself leaves that copy. In this lemma and the ones below, the halves
      "alculati" and "on result:" are parameters that the requires fixes. The proofs then
      work on short named pieces instead of one long literal. */
  lemma NestedLabelRemoval(left: string, right: string)
    requires left == "alculati" && right == "on result:"
    ensures RemoveAll("C" + left + CalculationLabel + right, CalculationLabel) == "C" + left + right
  {
    var lbl := CalculationLabel;
    var tail := left + (lbl + right);
    var s := "C" + tail;
    assert "C" + left + lbl + right == s;
    assert s[..|lbl|] != lbl by {
      assert s[9] == 'C' && lbl[9] == 'o';
    }
    assert s[0] == 'C' && s[1..] == tail;
    RemoveAllMismatch(s, lbl);
    RemoveAllNoHead(left, lbl + right, lbl);
    RemoveAllAtFront(right, lbl);
    AbsentHead(right, lbl);
    RemoveAllAbsent(right, lbl);
    assert "C" + (left + right) == "C" + left + right;
  }

  /** The label alone sanitises to the empty string. */
  lemma LabelAloneVanishes()
    ensures Sanitized(Some(CalculationLabel)) == ""
  {
    var empty: string := [];
    assert CalculationLabel + empty == CalculationLabel;
    RemoveAllAtFront(empty, CalculationLabel);
    OnlyCalculationLabelApplies(CalculationLabel);
    DropPrefixesNoneApply(empty, Prefixes);
  }

  /** The label passes the prefix pass and the trim unchanged. */
  lemma LabelKeptByPrefixesAndStrip()
    ensures Strip(DropPrefixes(CalculationLabel, Prefixes)) == CalculationLabel
  {
    assert CalculationLabel[0] == 'C';
    NoPrefixApplies(CalculationLabel);
    DropPrefixesNoneApply(CalculationLabel, Prefixes);
    StripNoEdge(CalculationLabel);
  }

  lemma NestedHasNoOtherMarkerHead(left: string, right: string)
    requires left == "alculati" && right == "on result:"
    ensures var s := "C" + left + CalculationLabel + right; '[' !in s && 'P' !in s && 'O' !in s
  {
  }

  /** Text whose markers reduce to the calculation label sanitises to that label. */
  lemma ReducesToLabel(s: string)
    requires RemoveMarkers(s) == CalculationLabel
    ensures Sanitized(Some(s)) == CalculationLabel
  {
    LabelKeptByPrefixesAndStrip();
  }

  /** Deleting a marker can join its two sides into a new copy of that marker, so a
      sanitised text can still hold one. */
  lemma MarkerCanSurvive(left: string, right: string)
    requires left == "alculati" && right == "on result:"
    ensures Sanitized(Some("C" + left + CalculationLabel + right)) == CalculationLabel
  {
    var s := "C" + left + CalculationLabel + right;
    NestedHasNoOtherMarkerHead(left, right);
    OnlyCalculationLabelApplies(s);
    NestedLabelRemoval(left, right);
    HalvesMakeLabel(left, right);
    ReducesToLabel(s);
  }

  lemma HalvesMakeLabel(left: string, right: string)
    requires left == "alculati" && right == "on result:"
    ensures "C" + left + right == CalculationLabel
  {
  }

  /** Sanitising twice can differ from sanitising once. */
  lemma SanitizeNotIdempotent(left: string, right: string)
    requires left == "alculati" && right == "on result:"
    ensures var once := Sanitized(Some("C" + left + CalculationLabel + right));
      Sanitized(Some(once)) == "" != once
  {
    MarkerCanSurvive(left, right);
    LabelAloneVanishes();
  }

  lemma {:induction false} DropPrefixesChars(s: string, ps: seq<string>)
    ensures forall c :: c in DropPrefixes(s, ps) ==> c in s
  {
    if ps != [] {
      var t := DropPrefix(s, ps[0]);
      DropPrefixesChars(t, ps[1..]);
      forall c | c in t ensures c in s {
        var k :| 0 <= k < |t| && t[k] == c;
        assert StartsWith(s, ps[0]) ==> t[k] == s[|ps[0]| + k];
      }
    }
  }

  /** Sanitising never brings in a character the raw text did not have. */
  lemma SanitizedChars(s: string)
    ensures forall c :: c in Sanitized(Some(s)) ==> c in s
  {
    var s1 := RemoveAll(s, ProductMarker);
    var s2 := RemoveAll(s1, ProductLabel);
    var s3 := RemoveAll(s2, OutletMarker);
    var s4 := RemoveAll(s3, OutletLabel);
    var s5 := RemoveAll(s4, CalculationLabel);
    RemoveAllChars(s, ProductMarker);
    RemoveAllChars(s1, ProductLabel);
    RemoveAllChars(s2, OutletMarker);
    RemoveAllChars(s3, OutletLabel);
    RemoveAllChars(s4, CalculationLabel);
    DropPrefixesChars(s5, Prefixes);
    StripInside(DropPrefixes(s5, Prefixes));
  }
}
