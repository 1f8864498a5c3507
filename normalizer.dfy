/** The rewriting of the answer once the tool output is sanitised (main.py:406-536),
    the fallback attribution from the answer text (main.py:538-546) and the response
    that is sent back (main.py:548-552). */
module Normalizer {
  import opened Wrappers
  import opened Text
  import opened Messages
  import opened Sanitizer
  import opened Patterns
  import opened Listing
  import opened Tools

  // ----- the calculator -----

  /** The calculator's answer: the first numeral of the sanitised output, after the
      stripped user message when there is one; the output itself when it has no
      numeral. */
  function CalculatorAnswer(t: string, lastHuman: Option<string>): string
  {
    match FindNumeral(t)
    case None => t
    case Some(num) =>
      if lastHuman.Some? && lastHuman.value != "" then Strip(lastHuman.value) + " is " + num else num
  }

  // ----- the outlet capability -----

  const YesAnswer: string := "Yes! Which outlet are you referring to?"
  const NoLocationAnswer: string := "No, we don't have outlets at that location."

  function NoOutletsIn(location: string): string
  {
    "No, we currently don't have outlets in " + location + "."
  }

  /** `has_outlets`: the sanitised output mentions outlets, is longer than twenty
      characters and carries none of the three negative phrases. */
  predicate HasOutlets(t: string)
  {
    var lower := Lower(t);
    Contains(lower, "outlet") && |t| > 20 && !Contains(lower, "no matching")
    && !Contains(lower, "no outlets") && !Contains(lower, "error")
  }

  /** The yes/no test of the user message. */
  predicate AsksYesNo(message: string)
  {
    message != "" && IsYesNoOutletQuestion(Lower(message))
  }

  /** The answer to a yes/no question about outlets. */
  function YesNoAnswer(t: string, message: string): string
  {
    var location := ExtractLocation(Lower(message));
    if HasOutlets(t) then YesAnswer
    else if location.Some? && location.value != "" then NoOutletsIn(location.value)
    else NoLocationAnswer
  }

  function OutletAnswer(t: string, message: string): string
  {
    if AsksYesNo(message) then YesNoAnswer(t, message) else ListingAnswer(t)
  }

  /** The answer given for the attributed capability from its sanitised output. */
  function Rewrite(tool: Tool, t: string, message: string, lastHuman: Option<string>): string
  {
    match tool
    case Calculator => CalculatorAnswer(t, lastHuman)
    case ProductRag => t
    case OutletText2Sql => OutletAnswer(t, message)
  }

  /** Rewrite, with the outlet listing computed by its loops. */
  method RewriteAnswer(tool: Tool, t: string, message: string, lastHuman: Option<string>)
    returns (answer: string)
    ensures answer == Rewrite(tool, t, message, lastHuman)
  {
    if tool == Calculator {
      answer := CalculatorAnswer(t, lastHuman);
    } else if tool == OutletText2Sql {
      if AsksYesNo(message) {
        answer := YesNoAnswer(t, message);
      } else {
        var outlets := ParseOutlets(t);
        if |outlets| > 0 {
          answer := FormatListing(outlets);
        } else {
          answer := t;
        }
      }
    } else {
      answer := t;
    }
  }

  // ----- the fallback heuristic -----

  /** The capability guessed from the answer text when no tool message classified. */
  function FallbackTool(answer: string): Option<Tool>
  {
    var lower := if answer != "" then Lower(answer) else "";
    if Contains(lower, "calculation result") || FindsStandaloneNumber(lower) then Some(Calculator)
    else if Contains(lower, "product information") || Contains(lower, "product") then Some(ProductRag)
    else if Contains(lower, "outlet query result") || Contains(lower, "outlet") || Contains(lower, "outlets")
    then Some(OutletText2Sql)
    else None
  }

  // ----- the response -----

  datatype ChatResponse = ChatResponse(answer: string, toolUsed: Option<Tool>, steps: seq<string>)

  /** `intermediate_steps`. */
  function Steps(tool: Option<Tool>): seq<string>
  {
    match tool
    case Some(t) => ["Planner used: " + t.Label()]
    case None => ["Planner responded directly."]
  }

  /** The response for user message `message`, given the agent's answer, the messages
      it returned and the last user message of the session. */
  function Respond(message: string, answer: string, final: seq<Message>, lastHuman: Option<string>)
    : (r: ChatResponse)
    ensures r.steps == Steps(r.toolUsed)
    ensures Attributed(final).None? ==> r.answer == answer && r.toolUsed == FallbackTool(answer)
    ensures Attributed(final).Some? ==> r.toolUsed == Some(Attributed(final).value.tool)
    ensures Attributed(final).Some? && Attributed(final).value.output == "" ==> r.answer == answer
  {
    match Attributed(final)
    case Some(a) =>
      var ans := if a.output != "" then Rewrite(a.tool, Sanitized(Some(a.output)), message, lastHuman) else answer;
      ChatResponse(ans, Some(a.tool), Steps(Some(a.tool)))
    case None =>
      ChatResponse(answer, FallbackTool(answer), Steps(FallbackTool(answer)))
  }

  // ===== properties =====

  // ----- the calculator -----

  /** The calculator rewriting of an integer result: the user message, stripped,
      " is " and the number as str() wrote it; just the number without a message.
      An integer too long for str() is refused, and the refusal is passed on. */
  lemma CalculatorInteger(v: int, message: string, lastHuman: Option<string>)
    ensures var t := Sanitized(Some(CalculateOutput(Some(IntValue(v)))));
      Rewrite(Calculator, t, message, lastHuman)
      == if !WithinStrLimit(v) then t
         else if lastHuman.Some? && lastHuman.value != "" then Strip(lastHuman.value) + " is " + IntToString(v)
         else IntToString(v)
  {
    if WithinStrLimit(v) {
      IntegerResultRoundTrip(v);
    } else {
      RefusalHasNoNumeral();
    }
  }

  /** The refusal of an unsafe expression holds no numeral and is passed on as its
      sanitised text. */
  lemma CalculatorRefusal(message: string, lastHuman: Option<string>)
    ensures var t := Sanitized(Some(CalculateOutput(None)));
      Rewrite(Calculator, t, message, lastHuman) == t
  {
    RefusalHasNoNumeral();
  }

  lemma NatToString1800()
    ensures IntToString(1800) == "1800"
  {
    assert NatToString(1) == "1";
    assert NatToString(18) == "1" + "8";
    assert NatToString(180) == "18" + "0";
  }

  /** 150 times 12, asked as "What is 150 times 12?". The value and the question are
      parameters that the requires fixes, so the proof handles them by name rather
      than as literals. */
  lemma CalculatorExample(v: int, h: string)
    requires v == 1800 && h == "What is 150 times 12?"
    ensures Rewrite(Calculator, Sanitized(Some(CalculateOutput(Some(IntValue(v))))), h, Some(h))
      == h + " is " + "1800"
  {
    assert h[0] == 'W' && h[|h| - 1] == '?';
    StripNoEdge(h);
    NatToString1800();
    assert WithinStrLimit(v);
    CalculatorInteger(v, h, Some(h));
  }

  // ----- the product capability -----

  /** The product answer is the retrieved summary, trimmed, whenever the summary
      holds none of the strings the sanitiser deletes. */
  lemma ProductAnswer(summary: string, message: string, lastHuman: Option<string>)
    requires MarkerFreeText(summary)
    ensures Rewrite(ProductRag, Sanitized(Some(ProductsOutput(summary))), message, lastHuman) == Strip(summary)
  {
    ProductsRoundTrip(summary);
  }

  // ----- the outlet yes/no answer -----

  /** For a yes/no question the answer is the Yes sentence exactly when the sanitised
      output has outlets. */
  lemma YesIffHasOutlets(t: string, message: string)
    requires AsksYesNo(message)
    ensures OutletAnswer(t, message) == YesAnswer <==> HasOutlets(t)
  {
    var location := ExtractLocation(Lower(message));
    assert YesAnswer[0] == 'Y' && NoLocationAnswer[0] == 'N';
    if location.Some? && location.value != "" {
      assert NoOutletsIn(location.value)[0] == 'N';
    }
  }

  /** re.search finds the first match at m when no match begins before it. */
  lemma FirstInMatch(s: string, m: nat)
    requires InStartAt(s, m) && forall t :: 0 <= t < m ==> !InStartAt(s, t)
    ensures SearchIn(s, 0) == Some(m)
  {
    InStartMeaning(s, m);
  }

  /** The location is the text between "in " and the closing '?', when no match of
      the pattern begins inside p and p does not end in a word character. */
  lemma LocationAfterIn(p: string, location: string)
    requires p == [] || !IsWordChar(p[|p| - 1])
    requires forall t :: 0 <= t < |p| ==> !InStartAt(p + "in " + location + "?", t)
    requires location != [] && NoEdgeSpace(location) && '?' !in location
    ensures ExtractLocation(p + "in " + location + "?") == Some(location)
  {
    var s := p + "in " + location + "?";
    var m := |p|;
    var q := m + 3 + |location|;
    assert s[m] == 'i' && s[m + 1] == 'n' && s[m + 2] == ' ' && s[m + 3] == location[0];
    assert m > 0 ==> s[m - 1] == p[m - 1];
    assert s[m..][..2] == "in";
    assert InStartAt(s, m);
    FirstInMatch(s, m);
    assert SkipSpace(s, m + 2) == m + 3;
    assert forall t :: m + 3 <= t < q ==> s[t] == location[t - (m + 3)];
    assert s[q] == '?';
    var g := InGroup(s, m);
    assert g.start == m + 3;
    assert g.end == q;
    assert s[g.start..g.end] == location;
    StripNoEdge(location);
  }

  /** No match begins inside a text that ends in a space and has no "in" in it. */
  lemma NoInStartBefore(p: string, rest: string)
    requires p != [] && p[|p| - 1] == ' '
    requires forall t :: 0 <= t < |p| - 1 ==> !(p[t] == 'i' && p[t + 1] == 'n')
    ensures forall t :: 0 <= t < |p| ==> !InStartAt(p + rest, t)
  {
    var s := p + rest;
    forall t | 0 <= t < |p|
      ensures !InStartAt(s, t)
    {
      if t + 1 < |p| {
        assert !(s[t] == 'i' && s[t + 1] == 'n');
      } else {
        assert s[t] == ' ';
      }
      if t + 1 < |s| {
        assert s[t..][0] == s[t] && s[t..][1] == s[t + 1];
      }
    }
  }

  lemma SingleSpace(s: string, k: nat)
    requires k + 1 < |s| && IsSpace(s[k]) && !IsSpace(s[k + 1])
    ensures SkipSpace(s, k) == k + 1
  {
  }

  const ThereIsQuestion: string := "is there an outlet "

  lemma ThereIsQuestionShape()
    ensures |ThereIsQuestion| == 19 && ThereIsQuestion[18] == ' '
    ensures forall t :: 0 <= t < 18 ==> !(ThereIsQuestion[t] == 'i' && ThereIsQuestion[t + 1] == 'n')
  {
  }

  /** A message beginning "is there an outlet " matches the yes/no pattern. */
  lemma ThereIsQuestionMatches(s: string, rest: string)
    requires s == ThereIsQuestion + rest
    ensures IsYesNoOutletQuestion(s)
  {
    assert forall k :: 0 <= k < 19 ==> s[k] == ThereIsQuestion[k];
    SingleSpace(s, 2);
    SingleSpace(s, 8);
    SingleSpace(s, 11);
    assert s[..2] == "is";
    assert s[3..][..5] == "there";
    assert s[9..][..2] == "an";
    assert s[12..][..6] == "outlet";
  }

  /** "is there an outlet in LOCATION?", in any letter case, is a yes/no question;
      when the output has no outlets the answer names the lower-cased location. */
  lemma YesNoInLocation(t: string, message: string, location: string)
    requires Lower(message) == ThereIsQuestion + "in " + location + "?"
    requires location != [] && NoEdgeSpace(location) && '?' !in location
    ensures AsksYesNo(message)
    ensures OutletAnswer(t, message) == if HasOutlets(t) then YesAnswer else NoOutletsIn(location)
  {
    ThereIsQuestionShape();
    ThereIsQuestionMatches(Lower(message), "in " + location + "?");
    NoInStartBefore(ThereIsQuestion, "in " + location + "?");
    assert ThereIsQuestion + ("in " + location + "?") == ThereIsQuestion + "in " + location + "?";
    LocationAfterIn(ThereIsQuestion, location);
  }

  /** Lower of a concatenation. */
  lemma LowerAppend(a: string, b: string)
    ensures Lower(a + b) == Lower(a) + Lower(b)
  {
  }

  /** Lower of a string, checked character by character. */
  lemma LowerPiece(a: string, b: string)
    requires |a| == |b| && forall i :: 0 <= i < |a| ==> LowerChar(a[i]) == b[i]
    ensures Lower(a) == b
  {
  }

  lemma ShahAlamLowered(message: string)
    requires message == "Is there " + "an outlet " + "in Shah Alam?"
    ensures Lower(message) == ThereIsQuestion + "in " + "shah alam" + "?"
  {
    var a, b, c := "Is there ", "an outlet ", "in Shah Alam?";
    LowerAppend(a, b);
    LowerAppend(a + b, c);
    LowerPiece(a, "is there ");
    LowerPiece(b, "an outlet ");
    LowerPiece(c, "in shah alam?");
    assert "is there " + "an outlet " == ThereIsQuestion;
    assert "in shah alam?" == "in " + "shah alam" + "?";
  }

  /** "Is there an outlet in Shah Alam?" answered from an output without outlets. */
  lemma ShahAlamExample(t: string, message: string)
    requires message == "Is there " + "an outlet " + "in Shah Alam?"
    requires !HasOutlets(t)
    ensures OutletAnswer(t, message) == "No, we currently don't have outlets in " + "shah alam" + "."
  {
    ShahAlamLowered(message);
    assert NoEdgeSpace("shah alam") && '?' !in "shah alam";
    YesNoInLocation(t, message, "shah alam");
  }

  // ----- the fallback heuristic -----

  lemma ContainsLonger(s: string, p: string, q: string)
    requires Contains(s, p + q)
    ensures Contains(s, p)
  {
    var i :| 0 <= i <= |s| && StartsWith(s[i..], p + q);
    assert s[i..][..|p|] == (p + q)[..|p|];
  }

  lemma PhrasesContainWords(s: string)
    ensures Contains(s, "product information") ==> Contains(s, "product")
    ensures Contains(s, "outlet query result") ==> Contains(s, "outlet")
    ensures Contains(s, "outlets") ==> Contains(s, "outlet")
  {
    assert "product" + " information" == "product information";
    assert "outlet" + " query result" == "outlet query result";
    assert "outlet" + "s" == "outlets";
    if Contains(s, "product information") { ContainsLonger(s, "product", " information"); }
    if Contains(s, "outlet query result") { ContainsLonger(s, "outlet", " query result"); }
    if Contains(s, "outlets") { ContainsLonger(s, "outlet", "s"); }
  }

  /** The fallback in its simplest terms: the longer phrases it looks for contain the
      shorter ones, so only "calculation result", a standalone number, "product" and
      "outlet" decide. */
  lemma FallbackMeaning(answer: string)
    ensures var lower := Lower(answer);
      FallbackTool(answer)
      == if Contains(lower, "calculation result") || HasStandaloneNumber(lower) then Some(Calculator)
         else if Contains(lower, "product") then Some(ProductRag)
         else if Contains(lower, "outlet") then Some(OutletText2Sql)
         else None
  {
    var lower := Lower(answer);
    assert answer == "" ==> lower == "";
    var b := FindsStandaloneNumber(lower);
    PhrasesContainWords(lower);
  }
}
