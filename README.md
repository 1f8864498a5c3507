# The Digital Barista: chat-response post-processing

This project models the layer of the ZUS Coffee chat assistant's `/chat` endpoint
(main.py) that sits between the language-model agent and the reply. The model covers:

- the session store;
- taking the answer from the agent's messages;
- attributing the turn to one of the three tools (Calculator, Product RAG,
  Outlet Text2SQL) from the tool messages' names;
- sanitising the tool output: removing the five wrapper strings, one pass of
  nine polite prefixes, then `strip()`;
- rewriting the answer per tool:
  - Calculator: the first numeral, after the user's question;
  - Product RAG: the cleaned text;
  - Outlet Text2SQL: a yes/no answer for "is there an outlet in …?" questions,
    or a listing of at most five outlets with a footer;
- the fallback guess of the tool from the answer text;
- the exact output strings of the three tools `calculate`, `query_products_kb`
  and `query_outlets_db`, so that round trips through the sanitiser can be stated.

The Python regular expressions are written out as scanners over the text. Each comes with
a declarative reading of the pattern, as a predicate or in the scanner's own contract, and
lemmas tying the scanner to it:

| Pattern | Scanner | Declarative reading |
|---|---|---|
| `[-+]?\d+(?:\.\d+)?` | `SearchNumeral` | leftmost-longest match |
| `^(is\|are\|do you)\s+(there\s+)?an?\s+(outlet\|location)` | `IsYesNoOutletQuestion` | `MatchesYesNo` |
| `\bin\s+([^?]+)` | `SearchIn`, `InGroup` | `InMatch` with backtracking preference |
| `\b\d{2,}\b` | `FindsStandaloneNumber` | `HasStandaloneNumber` |
| the three `findall` strategies | `FindAll`, `MatchAt`, `LazyEnd` | `LazyEnd`'s contract, `NameRunsGreedy` for `\s*`, `ZusRoundTrip` |
| numbered-list `re.split` | `NumberedSeparatorAt`, `SplitFrom` | `SeparatorMatch`, `SplitsAs` |

Modules, one per concern:

- `Wrappers`: `Option`.
- `Text`: Python's `strip`, `lower`, `replace` with '', `split`, `join` and `str(int)`.
- `Messages`: the answer and the tool attribution.
- `Sanitizer`: `_sanitize_tool_output`.
- `Patterns`: the regular expressions outside the listing.
- `Tools`: the tool output formats and round trips.
- `Listing`: the outlet listing.
- `Normalizer`: the per-tool rewrite, the fallback and the response.
- `Chat`: the session store and one turn of the endpoint.

The agent is a parameter of a turn: a function from the session history to the messages
it returns. `safe_eval` is the `Option<Value>` given to `CalculateOutput`, with `None`
standing for its `ValueError`. An integer whose `str()` would have more than 4300 digits
(CPython's default limit) also ends in the `ValueError` handler.

Properties shown about the code as written:

- The prefixes are tried in list order, so the short apology is removed before the long
  one is tried. A long apology therefore loses only its first sentence
  (`LongApologyOnlyPartlyRemoved`).
- `replace` is a single left-to-right pass. Removing a label can join its neighbours into
  a second label. So a marker string can survive sanitising, and sanitising twice can
  differ from sanitising once (`MarkerCanSurvive`, `SanitizeNotIdempotent`).
- Strategy 1's `[^L]*?` cannot cross an `L`. So an "Outlet Name:" block that also shows
  "Location:" is not matched by strategy 1 (`LocationBlockUnmatched`). Strategy 2 (`Name:`)
  runs only when strategy 1 yields no item at all (`ParseOutlets`). When another block of the
  same answer does match strategy 1, the "Location:" block is simply missing from the listing.
- The history stores the agent's raw answer, not the rewritten reply (`Chat.SessionStore.Turn`).

## Model

| member | source | states |
|---|---|---|
| Text.Strip | main.py:404 | the result has no leading or trailing whitespace (Python's `isspace` set) and is a slice of the input with only whitespace cut from either end |
| Text.StripIdempotent | main.py:404 | stripping twice is stripping once |
| Text.StripEmptyIffBlank | main.py:404 | the stripped text is empty exactly when the text is all whitespace |
| Text.RemoveAllAbsent | main.py:385-389 | `replace(pat, '')` leaves text without an occurrence of `pat` unchanged |
| Text.SplitJoin | main.py:528 | splitting on a character the pieces do not hold undoes joining with it |
| Text.JoinSplit | main.py:518 | joining the pieces of `split(c)` with `c` gives back the text |
| Text.NatToStringRoundTrip | main.py:140 | the decimal digits `str()` writes for a natural number read back as that number |
| Messages.LastOfKind | main.py:346-351 | the index found holds a message of the class and no later message does; None only when no message does |
| Messages.FindLastContent | main.py:346-351 | the reversed scan with `break` returns the content of the last message of the class |
| Messages.LastClassified | main.py:364-377 | the index found has a name that classifies and no later name classifies; None only when no name classifies |
| Messages.AttributeTool | main.py:361-377 | the loop leaves `tool_used`/`tool_output` as the class and content of the last message whose name classifies (calculate before product before outlet), and both unset when none does |
| Sanitizer.SanitizeToolOutput | main.py:380-404 | the loop over the prefixes computes `Sanitized`; None gives ""; the result has no edge whitespace |
| Sanitizer.SanitizeCleanText | main.py:380-404 | text holding no marker string and starting with no prefix comes back only stripped |
| Sanitizer.DropPrefixesNoneApply | main.py:391-403 | when no prefix starts the text the prefix pass changes nothing |
| Sanitizer.LongApologyOnlyPartlyRemoved | main.py:391-403 | a text starting with the long apology keeps "Let me calculate that for you. " because the short apology is removed first |
| Sanitizer.MarkerCanSurvive | main.py:384-389 | a text whose label removal forms a new label sanitises to "Calculation result:" |
| Sanitizer.SanitizeNotIdempotent | main.py:380-404 | sanitising that output again gives "", which differs from sanitising once |
| Sanitizer.SanitizedChars | main.py:380-404 | every character of the sanitised text occurs in the raw text |
| Patterns.SearchNumeral | main.py:432 | the match found is a numeral, begins at the leftmost index where one begins, and cannot be extended; None only when no numeral occurs |
| Patterns.FindNumeral | main.py:432-434 | the text returned is a numeral; None exactly when the text holds no ASCII digit |
| Patterns.NumeralEndLongest | main.py:432 | the greedy numeral end gives a numeral and no longer slice from the same start is one |
| Patterns.YesNoScanMeaning | main.py:414 | the whole-run scanner accepts exactly the texts the yes/no pattern matches at their start, for some length of each `\s+` |
| Patterns.SpacedThereMeaning | main.py:414 | the scan of `\s+(there\s+)?an?\s+(outlet\|location)` agrees with its declarative reading |
| Patterns.InStartMeaning | main.py:453 | `\bin\s+([^?]+)` matches at an index exactly when "in" follows a word boundary there, then a whitespace, then a character other than '?' |
| Patterns.InGroupPreferred | main.py:453-455 | the chosen group is a match and is the one a backtracking engine prefers: longest whitespace run, then longest group |
| Patterns.SearchIn | main.py:453 | the index found is the leftmost where the location pattern matches; None when it matches nowhere |
| Patterns.ExtractLocation | main.py:453-455 | None exactly when the pattern matches nowhere; a location has no edge whitespace and no '?' |
| Patterns.NumberWordMeaning | main.py:541 | the word-by-word scan finds a number exactly when some run of two or more digits has a word boundary on both sides |
| Patterns.FindsStandaloneNumber | main.py:541 | true exactly when `\b\d{2,}\b` matches somewhere |
| Tools.CalculateOutput | main.py:136-142 | a value str() can write gives "Calculation result: " and its text; a ValueError, and an integer of more than 4300 digits whose f-string raises ValueError, give the fixed refusal |
| Tools.NatToStringLength | main.py:140 | str() of a natural number n has at most d digits (d >= 1) exactly when n < 10^d |
| Tools.StrLimitMeaning | main.py:140-142 | the integers `calculate` prints are exactly those strictly between -10^4300 and 10^4300 |
| Tools.ProductsRoundTrip | main.py:191 | sanitising `query_products_kb`'s output for a summary holding no marker string gives the summary stripped |
| Tools.OutletsRoundTrip | main.py:211 | sanitising `query_outlets_db`'s output for a result holding no marker string gives the result stripped |
| Tools.IntegerResultSanitized | main.py:140 | sanitising the calculator output of an integer of at most 4300 digits gives exactly `str()` of the integer |
| Tools.IntegerResultRoundTrip | main.py:140 | for an integer of at most 4300 digits, the numeral found in that sanitised output is the integer's text |
| Tools.RefusalHasNoNumeral | main.py:142 | the sanitised refusal holds no numeral |
| Listing.LazyEnd | main.py:484 | the lazy group ends at the first index where the lookahead holds, crossing no forbidden character; None when a forbidden character comes first |
| Listing.ShorterRunFails | main.py:484 | when the group fails after the whole `\s*` run, it fails after every shorter run too |
| Listing.NameRunsGreedy | main.py:484-491 | for both `Outlet Name:` and `Name:` patterns, taking the whole `\s*` run loses no match: when the group fails after the whole run it fails after every shorter run |
| Listing.LocationBlockUnmatched | main.py:484-485 | an "Outlet Name:" followed by an 'L' before the next "Outlet Name:" gives no strategy-1 match at that marker |
| Listing.ZusRoundTrip | main.py:496-497 | for a listing of "ZUS Coffee" items whose descriptions hold no 'Z' and whose last description does not end in a newline (the `$` lookahead would stop before it), the `findall` gives back exactly those items, each with its marker |
| Listing.StripNonEmpty | main.py:486 | every kept item is non-empty and has no edge whitespace |
| Listing.NumberedSeparatorMeaning | main.py:502 | the separator scanner finds a match at an index exactly when `\n\s*\d+\.\s+` matches there, and it ends where the longest match ends |
| Listing.SplitNumberedMeaning | main.py:502 | the pieces of the `re.split` are the text between successive separator matches: each match is the leftmost one after the previous piece begins, it is taken longest, and no match begins inside the last piece |
| Listing.SplitsAsUnique | main.py:502 | that reading fixes the pieces and the separator spans: two splits of the same text that both satisfy it are equal |
| Listing.SplitsAsRejoin | main.py:502 | putting the matched separator texts back between the pieces gives back the text |
| Listing.ParseOutlets | main.py:479-507 | the cascade runs each strategy only when the earlier ones gave no item, as `ParsedOutlets` states |
| Listing.SplitNumberedOutlets | main.py:500-507 | the loop over the pieces after the first keeps their non-empty stripped texts in order |
| Listing.ShownCount | main.py:511-512 | at most five items are shown, and all of them when there are at most five |
| Listing.FormatListing | main.py:509-532 | the listing is the display lines of the shown items joined by newlines, with the footer exactly when there are more than five items |
| Listing.FormatShown | main.py:514-526 | the display loop appends, in order, the line of each shown item that has one, so it builds the display lines of all shown items |
| Listing.LinesPerItem | main.py:514-526 | every parsed item yields exactly one display line |
| Listing.LineOfBlank | main.py:518-526 | an item has no display line exactly when every piece of its text split at '\n' is all whitespace |
| Listing.LineOfOneLine | main.py:518-526 | when exactly one piece of the item's text split at '\n' is not all whitespace, the display line is that piece stripped |
| Listing.LineOfTwoLines | main.py:518-526 | when pieces i < j are the first two that are not all whitespace, the display line is piece i stripped, a space, and piece j stripped |
| Listing.ListingLines | main.py:509-534 | with n items, the answer's lines are exactly min(n, 5) display lines, then "" and the footer line iff n > 5; no items gives the text back |
| Normalizer.RewriteAnswer | main.py:418-536 | the per-tool rewrite, with the listing loops, computes `Rewrite` |
| Normalizer.CalculatorInteger | main.py:432-440 | for an integer result the answer is the stripped user message, " is " and the integer; just the integer without a message; an integer past the 4300-digit limit is answered with the sanitised refusal |
| Normalizer.CalculatorRefusal | main.py:441-442 | the refusal, having no numeral, is answered as its sanitised text |
| Normalizer.CalculatorExample | main.py:436-438 | 1800 asked as "What is 150 times 12?" gives "What is 150 times 12? is 1800" |
| Normalizer.ProductAnswer | main.py:535-536 | a product answer is the retrieved summary, stripped |
| Normalizer.YesIffHasOutlets | main.py:457-467 | for a yes/no question the answer is the Yes sentence exactly when `has_outlets` holds |
| Normalizer.LocationAfterIn | main.py:453-455 | the location of p + "in LOCATION?" is LOCATION when p does not end in a word character and no match of `\bin\s+([^?]+)` begins inside p (LOCATION stripped, without '?') |
| Normalizer.YesNoInLocation | main.py:410-472 | "is there an outlet in LOCATION?" in any case is a yes/no question, answered Yes or "No, we currently don't have outlets in LOCATION." |
| Normalizer.ShahAlamExample | main.py:450-470 | "Is there an outlet in Shah Alam?" without outlets is answered with "shah alam" |
| Normalizer.FallbackMeaning | main.py:539-546 | the fallback is decided by "calculation result" or a standalone number, then "product", then "outlet" |
| Normalizer.Respond | main.py:406-552 | the steps name the tool; unattributed turns keep the answer and take the fallback tool; attributed turns keep their tool, and their answer when the output is empty |
| Chat.LastHumanIsMessage | main.py:421-428 | after a turn the last user message in the history is the turn's message |
| Chat.Postprocess | main.py:359-552 | attribution, sanitising, rewriting and fallback compute `Respond` |
| Chat.SessionStore.Open | main.py:327-328 | an unseen session gets an empty history; a known one is unchanged |
| Chat.SessionStore.Append | main.py:331 | the message is appended to that session only |
| Chat.SessionStore.Turn | main.py:322-357 | without the agent the endpoint is unavailable and nothing changes; otherwise the session gains the user message and the raw answer, no other session changes, and the response is `Respond` of the turn |

## Left out

- The language model, the FAISS retriever and the SQL agent are left out. The agent is a
  function parameter, and the retrieved summary and SQL result are inputs of the output formats.
- `safe_eval` calls Python's `eval`, so it is an input (`Option<Value>`). Non-integer
  results are given by their `str()` text (`OtherValue`); float formatting is not modelled.
- Tools.CalculateOutput: the digit limit is CPython's default of 4300. A limit changed with
  `sys.set_int_max_str_digits` or `PYTHONINTMAXSTRDIGITS`, a Python without the limit, and
  long integers inside a non-integer value (`OtherValue`) are not modelled.
- The `except Exception` branch of `calculate` (main.py:143-144) is left out. `safe_eval`
  turns every exception into `ValueError`, so that branch needs a failure outside the model.
- The outer `except` that answers with "Error Handler" (main.py:554-560) is left out. In the
  model the agent and the tools cannot raise.
- The HTTP layer is not modelled: FastAPI, Pydantic validation, the `/products` and `/outlets`
  endpoints, and the health check. Only the 503 of an uninitialised agent is modelled, as
  `Unavailable`.
- Text.Lower: only ASCII letters are lower-cased. Python's `lower()` also maps non-ASCII
  letters.
- Patterns.FindNumeral: `\d` and `\w` are ASCII here. Python's `str` patterns also accept
  other Unicode digits and letters.
- Tool and message contents are strings. A non-string content, which `getattr(tool_output,
  'content', …)` allows for, is not modelled.
- Concurrent requests sharing `session_store` are not modelled.
- The frontend, the scrapers, the ingestion and database setup scripts, and the test scripts
  are not part of this model.
