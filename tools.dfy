/** The strings the three agent tools return (main.py:136-144, 187-191, 207-211),
    and what the sanitiser makes of them. */
module Tools {
  import opened Wrappers
  import opened Text
  import opened Sanitizer
  import opened Patterns

  /** What safe_eval evaluated an expression to: an integer, or some other value
      given by its str() text. */
  datatype Value = IntValue(v: int) | OtherValue(repr: string)

  function ValueText(x: Value): string
  {
    match x
    case IntValue(v) => IntToString(v)
    case OtherValue(repr) => repr
  }

  /** The refusal `calculate` returns on a ValueError. It is written as short pieces
      so that proofs about its characters can look at one piece at a time. */
  const Refusal: string :=
    "Sorry, the expressi" + "on contains unsafe " + "or invalid operatio" + "ns. Please provide "
    + "a simple math expression."

  /** The default of Python's limit on the digits `str()` writes for an int
      (`sys.int_info.default_max_str_digits`, CPython 3.11 on, and 3.10.7 on). Past it the
      f-string of `calculate` raises ValueError inside its `try`. */
  const MaxStrDigits: nat := 4300

  /** str() can write v: it has at most MaxStrDigits digits, the sign not counted. */
  predicate WithinStrLimit(v: int)
  {
    |NatToString(if v < 0 then -v else v)| <= MaxStrDigits
  }

  /** A value whose str() text the f-string can write. */
  predicate Printable(x: Value)
  {
    x.IntValue? ==> WithinStrLimit(x.v)
  }

  /** `calculate`: the outcome of safe_eval, None standing for its ValueError. An
      integer too long for str() ends in the same handler as that ValueError. */
  function CalculateOutput(outcome: Option<Value>): (r: string)
    ensures outcome.Some? && Printable(outcome.value) ==> r == CalculationLabel + " " + ValueText(outcome.value)
    ensures outcome.None? || !Printable(outcome.value) ==> r == Refusal
  {
    match outcome
    case Some(x) => if Printable(x) then "Calculation result: " + ValueText(x) else Refusal
    case None => Refusal
  }

  function Pow10(d: nat): (p: nat)
    ensures p >= 1
  {
    if d == 0 then 1 else 10 * Pow10(d - 1)
  }

  /** str() of n has at most d digits exactly when n < 10^d, for d >= 1. */
  lemma {:induction false} NatToStringLength(n: nat, d: nat)
    requires d >= 1
    ensures |NatToString(n)| <= d <==> n < Pow10(d)
    decreases n
  {
    if n >= 10 {
      assert |NatToString(n)| == |NatToString(n / 10)| + 1;
      if d == 1 {
        assert Pow10(1) == 10;
      } else {
        NatToStringLength(n / 10, d - 1);
        DivTenBelow(n, Pow10(d - 1));
      }
    } else {
      assert Pow10(d) == 10 * Pow10(d - 1);
    }
  }

  lemma DivTenBelow(n: nat, p: nat)
    ensures n / 10 < p <==> n < 10 * p
  {
  }

  /** The integers `calculate` can print are exactly those strictly between -10^4300
      and 10^4300. */
  lemma StrLimitMeaning(v: int)
    ensures var p: int := Pow10(MaxStrDigits); WithinStrLimit(v) <==> -p < v < p
  {
    var n: nat := if v < 0 then -v else v;
    var p := Pow10(MaxStrDigits);
    NatToStringLength(n, MaxStrDigits);
    assert WithinStrLimit(v) <==> n < p;
  }

  /** `query_products_kb` around the summary it retrieved. */
  function ProductsOutput(summary: string): (r: string)
    ensures r == ProductMarker + "\n" + ProductLabel + " " + summary
  {
    "[PRODUCT INFORMATION RETRIEVED]\nProduct Information: " + summary
  }

  /** `query_outlets_db` around the answer of the SQL agent. */
  function OutletsOutput(result: string): (r: string)
    ensures r == OutletMarker + "\n" + OutletLabel + " " + result
  {
    "[OUTLET DATABASE QUERY EXECUTED]\nOutlet Query Result: " + result
  }

  /** None of the five deleted strings occurs. */
  predicate MarkerFreeText(s: string)
  {
    forall k :: 0 <= k < |Markers| ==> !Contains(s, Markers[k])
  }

  // ----- round trips through the sanitiser -----

  lemma MarkerHeads()
    ensures ProductMarker[0] == '[' && ProductLabel[0] == 'P' && OutletMarker[0] == '['
    ensures OutletLabel[0] == 'O' && CalculationLabel[0] == 'C'
  {
  }

  /** After both wrapper strings of a tool are gone, "\n " + s remains, and the
      remaining markers find nothing to delete. */
  lemma TailMarkersAbsent(s: string)
    requires MarkerFreeText(s)
    ensures RemoveAll("\n " + s, OutletMarker) == "\n " + s
    ensures RemoveAll("\n " + s, OutletLabel) == "\n " + s
    ensures RemoveAll("\n " + s, ProductMarker) == "\n " + s
    ensures RemoveAll("\n " + s, ProductLabel) == "\n " + s
    ensures RemoveAll("\n " + s, CalculationLabel) == "\n " + s
  {
    assert !Contains(s, Markers[0]) && !Contains(s, Markers[1]) && !Contains(s, Markers[2]);
    assert !Contains(s, Markers[3]) && !Contains(s, Markers[4]);
    MarkerHeads();
    RemoveAllNothingToDo("\n ", s, OutletMarker);
    RemoveAllNothingToDo("\n ", s, OutletLabel);
    RemoveAllNothingToDo("\n ", s, ProductMarker);
    RemoveAllNothingToDo("\n ", s, ProductLabel);
    RemoveAllNothingToDo("\n ", s, CalculationLabel);
  }

  /** "\n " + s sanitises to s with its edges trimmed. */
  lemma NewlineSpaceSanitized(s: string)
    ensures Strip(DropPrefixes("\n " + s, Prefixes)) == Strip(s)
  {
    NewlineSpaceFront(s);
    StripLeadingSpace(' ', s);
  }

  /** Removing the product label from "\n" + label + " " + s leaves "\n " + s. */
  lemma ProductLabelGone(s: string)
    requires !Contains(s, ProductLabel)
    ensures RemoveAll("\n" + ProductLabel + " " + s, ProductLabel) == "\n " + s
  {
    MarkerHeads();
    assert "\n" + ProductLabel + " " + s == "\n" + (ProductLabel + (" " + s));
    RemoveAllNoHead("\n", ProductLabel + (" " + s), ProductLabel);
    RemoveAllAtFront(" " + s, ProductLabel);
    RemoveAllNothingToDo(" ", s, ProductLabel);
  }

  lemma OutletLabelGone(s: string)
    requires !Contains(s, OutletLabel)
    ensures RemoveAll("\n" + OutletLabel + " " + s, OutletLabel) == "\n " + s
  {
    MarkerHeads();
    assert "\n" + OutletLabel + " " + s == "\n" + (OutletLabel + (" " + s));
    RemoveAllNoHead("\n", OutletLabel + (" " + s), OutletLabel);
    RemoveAllAtFront(" " + s, OutletLabel);
    RemoveAllNothingToDo(" ", s, OutletLabel);
  }

  lemma ProductWrapperHeads()
    ensures '[' !in "\n" + ProductLabel + " "
  {
  }

  /** The sanitiser takes back exactly what `query_products_kb` wraps around a
      summary that holds none of the five strings it deletes: the summary comes
      back trimmed. */
  lemma ProductsRoundTrip(summary: string)
    requires MarkerFreeText(summary)
    ensures Sanitized(Some(ProductsOutput(summary))) == Strip(summary)
  {
    var s := summary;
    var mid := "\n" + ProductLabel + " ";
    assert !Contains(s, Markers[0]) && !Contains(s, Markers[1]);
    MarkerHeads();
    ProductWrapperHeads();
    assert ProductsOutput(s) == ProductMarker + (mid + s);
    RemoveAllAtFront(mid + s, ProductMarker);
    RemoveAllNothingToDo(mid, s, ProductMarker);
    assert mid + s == "\n" + ProductLabel + " " + s;
    ProductLabelGone(s);
    TailMarkersAbsent(s);
    NewlineSpaceSanitized(s);
  }

  /** The outlet marker has no '[' after its first character and no 'P', read off
      three pieces of it. */
  lemma OutletMarkerChars(a: string, b: string, c: string)
    requires a == "OUTLET DATA" && b == "BASE QUERY" && c == " EXECUTED]"
    ensures '[' !in OutletMarker[1..] && 'P' !in OutletMarker
  {
    OutletMarkerPieces(a, b, c);
    assert OutletMarker[1..] == a + b + c;
    assert '[' !in a && '[' !in b && '[' !in c;
    assert 'P' !in a && 'P' !in b && 'P' !in c;
  }

  lemma OutletMarkerPieces(a: string, b: string, c: string)
    requires a == "OUTLET DATA" && b == "BASE QUERY" && c == " EXECUTED]"
    ensures OutletMarker == "[" + a + b + c
  {
  }

  lemma OutletLabelChars()
    ensures '[' !in OutletLabel && 'P' !in OutletLabel
  {
  }

  /** The product marker does not start the outlet marker. */
  lemma OutletNotProductMarker(rest: string)
    ensures !StartsWith(OutletMarker + rest, ProductMarker)
  {
    var w := OutletMarker + rest;
    assert |ProductMarker| <= |w| ==> w[..|ProductMarker|][1] == 'O';
  }

  /** The same for `query_outlets_db` and the answer of the SQL agent. */
  lemma OutletsRoundTrip(result: string)
    requires MarkerFreeText(result)
    ensures Sanitized(Some(OutletsOutput(result))) == Strip(result)
  {
    var s := result;
    var mid := "\n" + OutletLabel + " ";
    var whole := OutletMarker + (mid + s);
    assert !Contains(s, Markers[0]) && !Contains(s, Markers[1]) && !Contains(s, Markers[2]);
    assert !Contains(s, Markers[3]);
    MarkerHeads();
    OutletMarkerChars("OUTLET DATA", "BASE QUERY", " EXECUTED]");
    OutletLabelChars();
    assert OutletsOutput(s) == whole;
    // the product marker: only the leading '[' could start it, and it does not
    OutletNotProductMarker(mid + s);
    RemoveAllSkip(whole, ProductMarker);
    assert whole[1..] == (OutletMarker[1..] + mid) + s;
    RemoveAllNothingToDo(OutletMarker[1..] + mid, s, ProductMarker);
    assert [whole[0]] + whole[1..] == whole;
    // the product label: no 'P' before s
    assert whole == (OutletMarker + mid) + s;
    RemoveAllNothingToDo(OutletMarker + mid, s, ProductLabel);
    // the outlet marker, then the outlet label
    RemoveAllAtFront(mid + s, OutletMarker);
    assert mid + s == ("\n" + OutletLabel + " ") + s;
    RemoveAllNothingToDo("\n" + OutletLabel + " ", s, OutletMarker);
    assert mid + s == "\n" + OutletLabel + " " + s;
    OutletLabelGone(s);
    TailMarkersAbsent(s);
    NewlineSpaceSanitized(s);
  }

  // ----- the calculator's output -----

  /** str() of an integer: an optional minus sign, then digits. */
  lemma IntToStringShape(v: int)
    ensures var x := IntToString(v);
      x != [] && IsDigit(x[|x| - 1]) && (IsDigit(x[0]) || (x[0] == '-' && |x| > 1 && IsDigit(x[1])))
      && forall j :: 0 < j < |x| ==> IsDigit(x[j])
  {
    if v < 0 {
      var n := NatToString(-v);
      assert IntToString(v) == "-" + n;
      assert forall j :: 0 < j < |"-" + n| ==> ("-" + n)[j] == n[j - 1];
    }
  }

  lemma CalculationLabelChars()
    ensures '[' !in CalculationLabel && 'P' !in CalculationLabel && 'O' !in CalculationLabel
  {
  }

  /** Only the label itself goes in the marker deletion of an integer result. */
  lemma IntegerResultMarkers(v: int)
    requires WithinStrLimit(v)
    ensures RemoveMarkers(CalculateOutput(Some(IntValue(v)))) == " " + IntToString(v)
  {
    var x := IntToString(v);
    IntToStringShape(v);
    var s := CalculationLabel + (" " + x);
    assert CalculateOutput(Some(IntValue(v))) == s;
    CalculationLabelChars();
    assert forall c :: c in x ==> c == '-' || IsDigit(c);
    OnlyCalculationLabelApplies(s);
    RemoveAllAtFront(" " + x, CalculationLabel);
    MarkerHeads();
    AbsentHead(x, CalculationLabel);
    RemoveAllNothingToDo(" ", x, CalculationLabel);
  }

  /** " " + str(v) passes the prefixes and strips to str(v). */
  lemma IntegerTextTrimmed(v: int)
    ensures Strip(DropPrefixes(" " + IntToString(v), Prefixes)) == IntToString(v)
  {
    var x := IntToString(v);
    IntToStringShape(v);
    SpaceLedPassesPrefixes(" " + x);
    NumberCharNotSpace(x[0]);
    NumberCharNotSpace(x[|x| - 1]);
    StripSpaceLed(x);
  }

  lemma NumberCharNotSpace(c: char)
    requires IsDigit(c) || c == '-'
    ensures !IsSpace(c)
  {
  }

  /** One space in front of a text without edge whitespace is stripped away. */
  lemma StripSpaceLed(x: string)
    requires NoEdgeSpace(x)
    ensures Strip(" " + x) == x
  {
    assert " " + x == [' '] + x;
    StripLeadingSpace(' ', x);
    StripNoEdge(x);
  }

  /** A text led by a space starts with none of the polite prefixes. */
  lemma SpaceLedPassesPrefixes(s: string)
    requires s != [] && s[0] == ' '
    ensures DropPrefixes(s, Prefixes) == s
  {
    NoPrefixApplies(s);
    DropPrefixesNoneApply(s, Prefixes);
  }

  /** An integer result sanitises to its own str() text. */
  lemma IntegerResultSanitized(v: int)
    requires WithinStrLimit(v)
    ensures Sanitized(Some(CalculateOutput(Some(IntValue(v))))) == IntToString(v)
  {
    IntegerResultMarkers(v);
    IntegerTextTrimmed(v);
  }

  /** The numeral search finds the whole of str() of an integer. */
  lemma IntegerTextIsNumeral(v: int)
    ensures FindNumeral(IntToString(v)) == Some(IntToString(v))
  {
    var x := IntToString(v);
    IntToStringShape(v);
    assert NumeralStartsAt(x, 0);
    var d := if IsDigit(x[0]) then 0 else 1;
    DigitsToEnd(x, d);
    assert NumeralEnd(x, 0) == |x|;
    assert x[0..|x|] == x;
  }

  /** What the calculator rewriting reads back from an integer result: the very
      number str() wrote. */
  lemma IntegerResultRoundTrip(v: int)
    requires WithinStrLimit(v)
    ensures FindNumeral(Sanitized(Some(CalculateOutput(Some(IntValue(v)))))) == Some(IntToString(v))
  {
    IntegerResultSanitized(v);
    IntegerTextIsNumeral(v);
  }

  lemma RefusalHasNoDigit()
    ensures forall c :: c in Refusal ==> !IsDigit(c)
  {
    assert forall ch :: ch in "Sorry, the expressi" ==> !IsDigit(ch);
    assert forall ch :: ch in "on contains unsafe " ==> !IsDigit(ch);
    assert forall ch :: ch in "or invalid operatio" ==> !IsDigit(ch);
    assert forall ch :: ch in "ns. Please provide " ==> !IsDigit(ch);
    assert forall ch :: ch in "a simple math expression." ==> !IsDigit(ch);
  }

  /** The refusal holds no numeral, so the calculator rewriting passes it on as
      text. */
  lemma RefusalHasNoNumeral()
    ensures FindNumeral(Sanitized(Some(CalculateOutput(None)))) == None
  {
    RefusalHasNoDigit();
    SanitizedChars(Refusal);
  }
}
