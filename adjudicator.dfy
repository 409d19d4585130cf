/**
 * The chat QA adjudicator: it asks an LLM whether the chat system's answer
 * to a test question matches the expected behaviour, and reads a
 * `MATCH: yes|no` / `REASON: …` reply into a verdict and a reason.
 */
module Adjudicator {
  import opened Text
  import opened Unicode

  const MessageLimit := 8000
  const FallbackReasonLimit := 500
  const NoneProvided := "(none provided)"
  const NoReason := "No reason provided."
  const ErrorPrefix := "Adjudicator error: "

  const AdjudicationSystem :=
    "You are an adjudicator for a Medicaid provider manual Q&A system. Your job is to decide whether the system's actual response matches the expected behavior for the given question.\n\n"
    + "Rules:\n"
    + "- For in_manual questions: The expected answer or key facts are provided. The actual response should be factually consistent with the expected answer (same meaning, may be paraphrased). Minor omissions or extra detail are OK. Contradictions or clearly wrong facts = mismatch.\n"
    + "- For should_refrain (out_of_manual or off_topic): The system should have refrained from answering with substantive content that goes beyond the provider manuals, or should have clearly stated it doesn't have that information / is out of scope. If the system gave a confident substantive answer about something not in the manuals, or answered off-topic questions (e.g. jokes, weather), that is a mismatch. A brief polite refusal or redirect to the manuals = match.\n\n"
    + "You must respond with exactly this format (no other text before or after):\n"
    + "MATCH: yes\nREASON: (one short sentence)\n\nor\n\nMATCH: no\nREASON: (one short sentence)\n"

  // ---------------------------------------------------------------------
  // The prompt
  // ---------------------------------------------------------------------

  /** The two prompts: what varies between calls, the fixed wording being supplied by `Render`. */
  datatype Prompt =
    | RefrainPrompt(question: string, refrains: string, actual: string)
    | ManualPrompt(question: string, expected: string, actual: string)

  // ------------------------------------------------------------ repr

  /** `repr` quotes with `'`, or with `"` when the text holds `'` and no `"`. */
  function QuoteFor(s: string): char
  {
    if '\'' in s && '"' !in s then '"' else '\''
  }

  function HexLower(d: int): (c: char)
    requires 0 <= d < 16
    ensures HexDigit(c) == Some(d)
  {
    if d < 10 then ('0' as int + d) as char else ('a' as int + d - 10) as char
  }

  /**
   * A character `repr` writes as `\xhh`: the control characters, DEL, and
   * from Latin-1 the C1 controls, the no-break space and the soft hyphen,
   * which Python does not count as printable.
   */
  predicate HexEscaped(c: char)
  {
    (c as int < 0x20 && c != '\t' && c != '\n' && c != '\r') || 0x7F <= c as int <= 0xA0 || c as int == 0xAD
  }

  /** One character inside a literal quoted with `q`. */
  function EscapeChar(c: char, q: char): (e: string)
    ensures 1 <= |e| <= 4
  {
    if c == q || c == '\\' then ['\\', c]
    else if c == '\t' then "\\t"
    else if c == '\n' then "\\n"
    else if c == '\r' then "\\r"
    else if HexEscaped(c) then ['\\', 'x', HexLower(c as int / 16), HexLower(c as int % 16)]
    else [c]
  }

  function Escaped(s: string, q: char): string
    decreases |s|
  {
    if s == [] then [] else EscapeChar(s[0], q) + Escaped(s[1..], q)
  }

  /** `repr(s)` of a string. */
  function StrRepr(s: string): (r: string)
    ensures |r| >= 2 && r[0] == r[|r| - 1] == QuoteFor(s)
  {
    var q := QuoteFor(s);
    [q] + Escaped(s, q) + [q]
  }

  /** `str(list)` of the refrain phrases: `repr` of each, between brackets. */
  function ListRepr(xs: seq<string>): string
  {
    "[" + Join(MapSeq(xs, StrRepr), ", ") + "]"
  }

  /** Reading the escapes back as Python reads a string literal's body. */
  function Unescape(t: string): (s: string)
    decreases |t|
  {
    if t == [] then []
    else if t[0] == '\\' && |t| >= 2 then
      if t[1] == 't' then ['\t'] + Unescape(t[2..])
      else if t[1] == 'n' then ['\n'] + Unescape(t[2..])
      else if t[1] == 'r' then ['\r'] + Unescape(t[2..])
      else if t[1] == 'x' && |t| >= 4 && HexDigit(t[2]).Some? && HexDigit(t[3]).Some? then
        [(16 * HexDigit(t[2]).value + HexDigit(t[3]).value) as char] + Unescape(t[4..])
      else [t[1]] + Unescape(t[2..])
    else [t[0]] + Unescape(t[1..])
  }

  lemma UnescapeChar(c: char, q: char, rest: string)
    requires q == '\'' || q == '"'
    ensures Unescape(EscapeChar(c, q) + rest) == [c] + Unescape(rest)
  {
    var e := EscapeChar(c, q);
    var t := e + rest;
    assert t[|e|..] == rest;
    if HexEscaped(c) && !(c == q || c == '\\' || c == '\t' || c == '\n' || c == '\r') {
      assert t[1] == 'x' && t[2] == HexLower(c as int / 16) && t[3] == HexLower(c as int % 16);
    }
  }

  /** Reading the literal's body back gives the text: `repr` loses nothing. */
  lemma {:induction false} UnescapeEscaped(s: string, q: char)
    requires q == '\'' || q == '"'
    ensures Unescape(Escaped(s, q)) == s
    decreases |s|
  {
    if s != [] {
      UnescapeChar(s[0], q, Escaped(s[1..], q));
      UnescapeEscaped(s[1..], q);
    }
  }

  /** The text between the quotes of `repr(s)` reads back as `s`. */
  lemma StrReprRoundTrip(s: string)
    ensures var r := StrRepr(s); Unescape(r[1..|r| - 1]) == s
  {
    var q := QuoteFor(s);
    var r := StrRepr(s);
    assert r[1..|r| - 1] == Escaped(s, q);
    UnescapeEscaped(s, q);
  }

  /** No control character gets into a literal: each phrase stays on the prompt's line. */
  lemma {:induction false} EscapedPrintable(s: string, q: char)
    requires q == '\'' || q == '"'
    ensures forall k :: 0 <= k < |Escaped(s, q)| ==> Escaped(s, q)[k] as int >= 0x20 && Escaped(s, q)[k] as int != 0x7F
    decreases |s|
  {
    if s != [] {
      EscapedPrintable(s[1..], q);
      var e := EscapeChar(s[0], q);
      var r := Escaped(s[1..], q);
      assert Escaped(s, q) == e + r;
      forall k | 0 <= k < |e + r| ensures (e + r)[k] as int >= 0x20 && (e + r)[k] as int != 0x7F {
        if k >= |e| {
          assert (e + r)[k] == r[k - |e|];
        }
      }
    }
  }

  /** A character `repr` writes as it is, whatever the quote. */
  predicate PlainChar(c: char)
  {
    c != '\\' && c != '\t' && c != '\n' && c != '\r' && !HexEscaped(c)
  }

  lemma {:induction false} EscapedPlain(s: string, q: char)
    requires forall k :: 0 <= k < |s| ==> PlainChar(s[k]) && s[k] != q
    ensures Escaped(s, q) == s
    decreases |s|
  {
    if s != [] {
      EscapedPlain(s[1..], q);
      assert s == [s[0]] + s[1..];
    }
  }

  /**
   * A phrase of plain characters is written between `'`, or between `"`
   * when it holds `'` but no `"`; with both, the `'` are escaped.
   */
  lemma StrReprPlain(s: string)
    requires forall k :: 0 <= k < |s| ==> PlainChar(s[k])
    ensures '\'' !in s ==> StrRepr(s) == "'" + s + "'"
    ensures '\'' in s && '"' !in s ==> StrRepr(s) == "\"" + s + "\""
    ensures '\'' in s && '"' in s ==> StrRepr(s) != "'" + s + "'"
  {
    if '\'' !in s || '"' !in s {
      EscapedPlain(s, QuoteFor(s));
    } else {
      var i :| 0 <= i < |s| && s[i] == '\'';
      EscapedLonger(s, '\'', i);
    }
  }

  /** Escaping a text that holds the quote makes it longer. */
  lemma {:induction false} EscapedLonger(s: string, q: char, i: int)
    requires 0 <= i < |s| && s[i] == q
    ensures |Escaped(s, q)| > |s|
    decreases |s|
  {
    EscapedLength(s[1..], q);
    if i > 0 {
      EscapedLonger(s[1..], q, i - 1);
    }
  }

  lemma {:induction false} EscapedLength(s: string, q: char)
    ensures |Escaped(s, q)| >= |s|
    decreases |s|
  {
    if s != [] {
      EscapedLength(s[1..], q);
    }
  }

  /**
   * `build_adjudication_prompt`. Only `should_refrain` chooses the template;
   * `category` is not used. The refrain phrases (`None` is the empty list)
   * add a sentence only when there are some.
   */
  function BuildPrompt(
    question: string, category: string, expected: Option<string>, shouldRefrain: bool,
    refrainPhrases: seq<string>, actual: string): (p: Prompt)
    ensures p.RefrainPrompt? <==> shouldRefrain
    ensures p.question == question
    ensures IsPrefix(p.actual, actual) && |p.actual| <= MessageLimit
    ensures |actual| <= MessageLimit ==> p.actual == actual
    ensures |actual| > MessageLimit ==> |p.actual| == MessageLimit
    ensures p.RefrainPrompt? ==> (p.refrains == "" <==> refrainPhrases == [])
    ensures p.RefrainPrompt? && refrainPhrases != [] ==>
      p.refrains == " Optional phrases that indicate correct refrain: " + ListRepr(refrainPhrases)
    ensures p.ManualPrompt? && (expected.None? || expected.value == "") ==> p.expected == NoneProvided
    ensures p.ManualPrompt? && expected.Some? && expected.value != "" ==> p.expected == expected.value
  {
    if shouldRefrain then
      var refrains :=
        if refrainPhrases == [] then "" else " Optional phrases that indicate correct refrain: " + ListRepr(refrainPhrases);
      RefrainPrompt(question, refrains, Take(actual, MessageLimit))
    else
      ManualPrompt(question, if expected.Some? && expected.value != "" then expected.value else NoneProvided,
                   Take(actual, MessageLimit))
  }

  /** The prompt's text, with the fixed wording of each template. */
  function Render(p: Prompt): string
  {
    match p
    case RefrainPrompt(q, refrains, actual) =>
      "Question: " + q
      + "\nCategory: should_refrain (system should NOT answer substantively or should say it doesn't have that information / is out of scope)."
      + refrains
      + "\n\nExpected behavior: The system should refrain from answering or clearly state it doesn't have that information (no hallucination).\n\n"
      + "Actual response from the system:\n---\n" + actual + "\n---\n\n"
      + "Does the actual response match the expected behavior? Reply with MATCH: yes or MATCH: no, then REASON: (one short sentence)."
    case ManualPrompt(q, expected, actual) =>
      "Question: " + q
      + "\nCategory: in_manual (answer should be factually consistent with the provider manual).\n\n"
      + "Expected answer or key facts:\n---\n" + expected + "\n---\n\n"
      + "Actual response from the system:\n---\n" + actual + "\n---\n\n"
      + "Is the actual response factually consistent with the expected answer/key facts? Reply with MATCH: yes or MATCH: no, then REASON: (one short sentence)."
  }

  /** What is sent to the LLM: the system text, a blank line, then the prompt. */
  function FullPrompt(p: Prompt): string
  {
    AdjudicationSystem + "\n\n" + Render(p)
  }

  // ---------------------------------------------------------------------
  // Reading the reply
  // ---------------------------------------------------------------------

  const MatchColon := "match:"
  const MatchWord := "match"
  const YesWord := "yes"

  /** `w` (lower case) occurs at `i` in `s` ignoring ASCII case. */
  predicate KeywordAt(s: string, i: int, w: string)
  {
    0 <= i && i + |w| <= |s| && Lower(s[i..i + |w|]) == w
  }

  /** `:` or whitespace: the class `[:\s]`. */
  predicate SepChar(c: char) { c == ':' || IsSpace(c) }

  /** The strings `re.search(r"MATCH:\s*yes", s, re.IGNORECASE)` finds something in. */
  ghost predicate ColonYes(s: string)
  {
    exists i, j :: i + |MatchColon| <= j && KeywordAt(s, i, MatchColon) && KeywordAt(s, j, YesWord)
                   && forall k :: i + |MatchColon| <= k < j ==> IsSpace(s[k])
  }

  /** The strings `re.search(r"match[:\s]+yes", s, re.IGNORECASE)` finds something in. */
  ghost predicate SepYes(s: string)
  {
    exists i, j :: i + |MatchWord| < j && KeywordAt(s, i, MatchWord) && KeywordAt(s, j, YesWord)
                   && forall k :: i + |MatchWord| <= k < j ==> SepChar(s[k])
  }

  /** The first index at or after `j` that does not hold whitespace (or `|s|`). */
  function SkipSpaces(s: string, j: nat): (r: nat)
    requires j <= |s|
    ensures j <= r <= |s| && (r < |s| ==> !IsSpace(s[r])) && forall k :: j <= k < r ==> IsSpace(s[k])
    decreases |s| - j
  {
    if j < |s| && IsSpace(s[j]) then SkipSpaces(s, j + 1) else j
  }

  /** The first index at or after `j` that holds neither `:` nor whitespace (or `|s|`). */
  function SkipSeps(s: string, j: nat): (r: nat)
    requires j <= |s|
    ensures j <= r <= |s| && (r < |s| ==> !SepChar(s[r])) && forall k :: j <= k < r ==> SepChar(s[k])
    decreases |s| - j
  {
    if j < |s| && SepChar(s[j]) then SkipSeps(s, j + 1) else j
  }

  /** Scans for `MATCH:\s*yes` from position `i` on. */
  function FindColonYes(s: string, i: nat): bool
    decreases |s| - i
  {
    if i + |MatchColon| > |s| then false
    else (KeywordAt(s, i, MatchColon) && KeywordAt(s, SkipSpaces(s, i + |MatchColon|), YesWord))
         || FindColonYes(s, i + 1)
  }

  /** Scans for `match[:\s]+yes` from position `i` on. */
  function FindSepYes(s: string, i: nat): bool
    decreases |s| - i
  {
    if i + |MatchWord| > |s| then false
    else (KeywordAt(s, i, MatchWord) && SkipSeps(s, i + |MatchWord|) > i + |MatchWord|
          && KeywordAt(s, SkipSeps(s, i + |MatchWord|), YesWord))
         || FindSepYes(s, i + 1)
  }

  /** A keyword starting with a non-space letter can only follow a run of spaces at its end. */
  lemma YesAfterSpaces(s: string, j0: nat, j: int)
    requires j0 <= |s| && j0 <= j && KeywordAt(s, j, YesWord)
    requires forall k :: j0 <= k < j ==> IsSpace(s[k])
    ensures j == SkipSpaces(s, j0)
  {
    var r := SkipSpaces(s, j0);
    assert LowerChar(s[j]) == Lower(s[j..j + 3])[0] == 'y';
    assert !IsSpace(s[j]);
  }

  lemma YesAfterSeps(s: string, j0: nat, j: int)
    requires j0 <= |s| && j0 <= j && KeywordAt(s, j, YesWord)
    requires forall k :: j0 <= k < j ==> SepChar(s[k])
    ensures j == SkipSeps(s, j0)
  {
    var r := SkipSeps(s, j0);
    assert LowerChar(s[j]) == Lower(s[j..j + 3])[0] == 'y';
    assert !SepChar(s[j]);
  }

  /** The scanner finds a match from `i` on exactly when the pattern occurs starting at or after `i`. */
  lemma {:induction false} FindColonYesSpec(s: string, i: nat)
    ensures FindColonYes(s, i) <==>
      exists a, j :: i <= a && a + |MatchColon| <= j && KeywordAt(s, a, MatchColon) && KeywordAt(s, j, YesWord)
                     && forall k :: a + |MatchColon| <= k < j ==> IsSpace(s[k])
    decreases |s| - i
  {
    if i + |MatchColon| <= |s| {
      FindColonYesSpec(s, i + 1);
      if KeywordAt(s, i, MatchColon) && KeywordAt(s, SkipSpaces(s, i + |MatchColon|), YesWord) {
        var j := SkipSpaces(s, i + |MatchColon|);
        assert KeywordAt(s, i, MatchColon) && KeywordAt(s, j, YesWord);
      }
      forall a, j | i <= a && a + |MatchColon| <= j && KeywordAt(s, a, MatchColon) && KeywordAt(s, j, YesWord)
                    && (forall k :: a + |MatchColon| <= k < j ==> IsSpace(s[k]))
        ensures FindColonYes(s, i)
      {
        if a == i {
          YesAfterSpaces(s, i + |MatchColon|, j);
        }
      }
    }
  }

  lemma {:induction false} FindSepYesSpec(s: string, i: nat)
    ensures FindSepYes(s, i) <==>
      exists a, j :: i <= a && a + |MatchWord| < j && KeywordAt(s, a, MatchWord) && KeywordAt(s, j, YesWord)
                     && forall k :: a + |MatchWord| <= k < j ==> SepChar(s[k])
    decreases |s| - i
  {
    if i + |MatchWord| <= |s| {
      FindSepYesSpec(s, i + 1);
      var j := SkipSeps(s, i + |MatchWord|);
      if KeywordAt(s, i, MatchWord) && j > i + |MatchWord| && KeywordAt(s, j, YesWord) {
        assert KeywordAt(s, i, MatchWord) && KeywordAt(s, j, YesWord);
      }
      forall a, j' | i <= a && a + |MatchWord| < j' && KeywordAt(s, a, MatchWord) && KeywordAt(s, j', YesWord)
                     && (forall k :: a + |MatchWord| <= k < j' ==> SepChar(s[k]))
        ensures FindSepYes(s, i)
      {
        if a == i {
          YesAfterSeps(s, i + |MatchWord|, j');
        }
      }
    }
  }

  /** `line.upper().startswith("MATCH:")` */
  predicate IsMatchLine(line: string) { IsPrefix("MATCH:", Upper(line)) }

  /** `line.upper().startswith("REASON:")` */
  predicate IsReasonLine(line: string) { IsPrefix("REASON:", Upper(line)) }

  /** The last stripped line that is a `MATCH:` line. */
  function LastMatchLine(lines: seq<string>): (r: Option<string>)
    ensures r.Some? ==> IsMatchLine(r.value) && exists i :: 0 <= i < |lines| && r.value == Trim(lines[i])
    ensures r.None? <==> forall i :: 0 <= i < |lines| ==> !IsMatchLine(Trim(lines[i]))
  {
    if lines == [] then None
    else if IsMatchLine(Trim(lines[|lines| - 1])) then Some(Trim(lines[|lines| - 1]))
    else
      var r := LastMatchLine(lines[..|lines| - 1]);
      assert forall i :: 0 <= i < |lines| - 1 ==> lines[..|lines| - 1][i] == lines[i];
      r
  }

  /** What follows `REASON:` on the last stripped `REASON:` line, stripped. */
  function LastReason(lines: seq<string>): (r: Option<string>)
    ensures r.None? <==> forall i :: 0 <= i < |lines| ==> !IsReasonLine(Trim(lines[i]))
  {
    if lines == [] then None
    else if IsReasonLine(Trim(lines[|lines| - 1])) then Some(Trim(Trim(lines[|lines| - 1])[7..]))
    else
      var r := LastReason(lines[..|lines| - 1]);
      assert forall i :: 0 <= i < |lines| - 1 ==> lines[..|lines| - 1][i] == lines[i];
      r
  }

  /** One more line: it replaces the kept `MATCH:` or `REASON:` line when it is one. */
  lemma LastLinesStep(lines: seq<string>, i: nat)
    requires i < |lines|
    ensures LastMatchLine(lines[..i + 1]) ==
      (if IsMatchLine(Trim(lines[i])) then Some(Trim(lines[i])) else LastMatchLine(lines[..i]))
    ensures LastReason(lines[..i + 1]) ==
      (if IsReasonLine(Trim(lines[i])) then Some(Trim(Trim(lines[i])[7..])) else LastReason(lines[..i]))
  {
    assert lines[..i + 1][..i] == lines[..i];
  }

  /** `(text or "").strip()` */
  function Cleaned(text: Option<string>): string { if text.Some? then Trim(text.value) else "" }

  /**
   * The verdict `parse_adjudication_response` reads: the last `MATCH:` line
   * decides when there is one, otherwise a `match…yes` anywhere in the text
   * (a `match…no` and no match at all both give false).
   */
  ghost function VerdictOf(text: Option<string>): bool
  {
    var t := Cleaned(text);
    var m := LastMatchLine(Lines(t));
    if m.Some? then ColonYes(m.value) else SepYes(t)
  }

  /**
   * The reason it reads: the last `REASON:` line's text when not empty,
   * otherwise the first 500 characters of the text, otherwise a fixed
   * sentence.
   */
  function ReasonOf(text: Option<string>): (r: string)
    ensures r != ""
    ensures LastReason(Lines(Cleaned(text))).None? ==> |r| <= FallbackReasonLimit || r == NoReason
  {
    var t := Cleaned(text);
    var rl := LastReason(Lines(t));
    if rl.Some? && rl.value != "" then rl.value
    else if t != "" then Take(t, FallbackReasonLimit)
    else NoReason
  }

  /** The verdict from the kept `MATCH:` line, or from the whole text when there is none. */
  method ReadVerdict(t: string, matchLine: Option<string>) returns (isMatch: bool)
    ensures isMatch == if matchLine.Some? then ColonYes(matchLine.value) else SepYes(t)
  {
    if matchLine.Some? {
      isMatch := FindColonYes(matchLine.value, 0);
      FindColonYesSpec(matchLine.value, 0);
    } else {
      isMatch := FindSepYes(t, 0);
      FindSepYesSpec(t, 0);
    }
  }

  /** The loop of `parse_adjudication_response`: the last `MATCH:` line and the last `REASON:` text. */
  method KeptLines(lines: seq<string>) returns (matchLine: Option<string>, reasonLine: Option<string>)
    ensures matchLine == LastMatchLine(lines)
    ensures reasonLine == LastReason(lines)
  {
    matchLine, reasonLine := None, None;
    var i := 0;
    while i < |lines|
      invariant 0 <= i <= |lines|
      invariant matchLine == LastMatchLine(lines[..i])
      invariant reasonLine == LastReason(lines[..i])
    {
      var line := Trim(lines[i]);
      LastLinesStep(lines, i);
      if IsMatchLine(line) {
        matchLine := Some(line);
      }
      if IsReasonLine(line) {
        reasonLine := Some(Trim(line[7..]));
      }
      i := i + 1;
    }
    assert lines[..i] == lines;
  }

  /** `parse_adjudication_response`: the kept lines decide the verdict and the reason. */
  method ParseResponse(text: Option<string>) returns (isMatch: bool, reason: string)
    ensures isMatch == VerdictOf(text)
    ensures reason == ReasonOf(text)
  {
    var t := Cleaned(text);
    var matchLine, reasonLine := KeptLines(Lines(t));
    isMatch := ReadVerdict(t, matchLine);
    if reasonLine.Some? && reasonLine.value != "" {
      reason := reasonLine.value;
    } else if t != "" {
      reason := Take(t, FallbackReasonLimit);
    } else {
      reason := NoReason;
    }
  }

  // ---------------------------------------------------------------------
  // The reply in the requested format reads back
  // ---------------------------------------------------------------------

  /** A reply in exactly the format the system text asks for. */
  function FormattedReply(isMatch: bool, reason: string): string
  {
    MatchLine(isMatch) + "\nREASON: " + reason
  }

  function MatchLine(isMatch: bool): string { if isMatch then "MATCH: yes" else "MATCH: no" }

  predicate NoLineBreaks(s: string) { forall k :: 0 <= k < |s| ==> !IsLineBreak(s[k]) }

  lemma LinesOfOne(line: string)
    requires line != [] && NoLineBreaks(line)
    ensures Lines(line) == [line]
  {
    assert LineEnd(line) == |line|;
  }

  lemma ColonYesWhenYes()
    ensures ColonYes("MATCH: yes")
  {
    var s := "MATCH: yes";
    assert Lower(s[0..6]) == MatchColon;
    assert Lower(s[7..10]) == YesWord;
    assert KeywordAt(s, 0, MatchColon) && KeywordAt(s, 7, YesWord) && IsSpace(s[6]);
  }

  lemma NoColonYesWhenNo()
    ensures !ColonYes("MATCH: no")
  {
    var s := "MATCH: no";
    forall j | 0 <= j && j + 3 <= |s|
      ensures !KeywordAt(s, j, YesWord)
    {
      assert Lower(s[j..j + 3])[0] == LowerChar(s[j]) != 'y';
    }
  }

  /** A reason made of one line with no surrounding whitespace. */
  predicate PlainReason(reason: string)
  {
    reason != [] && NoLineBreaks(reason) && !IsSpace(reason[0]) && !IsSpace(reason[|reason| - 1])
  }

  /** A prefix without lower-case letters survives upper-casing. */
  lemma UpperKeepsPrefix(p: string, s: string)
    requires IsPrefix(p, s) && forall k :: 0 <= k < |p| ==> !IsLowerAlpha(p[k])
    ensures IsPrefix(p, Upper(s))
  {
    forall k | 0 <= k < |p| ensures Upper(s)[k] == p[k] {
      assert s[..|p|][k] == s[k];
    }
  }

  /** The reply's text is already stripped. */
  lemma ReplyStripped(isMatch: bool, reason: string)
    requires PlainReason(reason)
    ensures Cleaned(Some(FormattedReply(isMatch, reason))) == FormattedReply(isMatch, reason)
  {
    var text := FormattedReply(isMatch, reason);
    assert text[|text| - 1] == reason[|reason| - 1];
    TrimLeftFixed(text);
    TrimRightFixed(text);
  }

  /** The reply splits into its two lines. */
  lemma ReplyLines(isMatch: bool, reason: string)
    requires PlainReason(reason)
    ensures Lines(FormattedReply(isMatch, reason)) == [MatchLine(isMatch), "REASON: " + reason]
  {
    var first := MatchLine(isMatch);
    var second := "REASON: " + reason;
    assert FormattedReply(isMatch, reason) == first + "\n" + second;
    assert NoLineBreaks(second) by {
      forall k | 0 <= k < |second| ensures !IsLineBreak(second[k]) {
        if k >= 8 { assert second[k] == reason[k - 8]; }
      }
    }
    LinesCrLf(first, second);
    LinesOfOne(second);
  }

  /** The first line is the only `MATCH:` line, and its verdict is the one stated. */
  lemma ReplyMatchLine(isMatch: bool, reason: string)
    requires PlainReason(reason)
    ensures LastMatchLine([MatchLine(isMatch), "REASON: " + reason]) == Some(MatchLine(isMatch))
    ensures ColonYes(MatchLine(isMatch)) == isMatch
  {
    var first := MatchLine(isMatch);
    var second := "REASON: " + reason;
    assert second[|second| - 1] == reason[|reason| - 1];
    TrimLeftFixed(second);
    TrimRightFixed(second);
    TrimLeftFixed(first);
    TrimRightFixed(first);
    assert first[..6] == "MATCH:";
    UpperKeepsPrefix("MATCH:", first);
    assert Upper(second)[0] == 'R';
    var lines := [first, second];
    assert lines[..1] == [first];
    if isMatch {
      ColonYesWhenYes();
    } else {
      NoColonYesWhenNo();
    }
  }

  /** The second line is the only `REASON:` line, and it holds the reason. */
  lemma ReplyReasonLine(isMatch: bool, reason: string)
    requires PlainReason(reason)
    ensures LastReason([MatchLine(isMatch), "REASON: " + reason]) == Some(reason)
  {
    var first := MatchLine(isMatch);
    var second := "REASON: " + reason;
    assert second[|second| - 1] == reason[|reason| - 1];
    TrimLeftFixed(second);
    TrimRightFixed(second);
    assert second[..7] == "REASON:";
    UpperKeepsPrefix("REASON:", second);
    assert second[7..] == " " + reason;
    TrimLeftFixed(reason);
    TrimRightFixed(reason);
    assert TrimLeft(" " + reason) == TrimLeft(reason) by { assert (" " + reason)[1..] == reason; }
    assert TrimRight(" " + reason) == " " + reason;
  }

  /**
   * A reply in the requested format is read back as the verdict and the
   * reason it states.
   */
  lemma FormattedReplyReadsBack(isMatch: bool, reason: string)
    requires PlainReason(reason)
    ensures VerdictOf(Some(FormattedReply(isMatch, reason))) == isMatch
    ensures ReasonOf(Some(FormattedReply(isMatch, reason))) == reason
  {
    ReplyStripped(isMatch, reason);
    ReplyLines(isMatch, reason);
    ReplyMatchLine(isMatch, reason);
    ReplyReasonLine(isMatch, reason);
  }

  // ---------------------------------------------------------------------
  // One adjudication
  // ---------------------------------------------------------------------

  /** What the LLM call gives: its text (possibly `None`), or the exception it raised. */
  datatype LlmResult = Reply(text: Option<string>) | Raised(error: string)

  /** The verdict drawn from one outcome of the LLM call. */
  ghost predicate DecidedFrom(outcome: LlmResult, isMatch: bool, reason: string)
  {
    match outcome
    case Raised(e) => !isMatch && reason == ErrorPrefix + e
    case Reply(t) => isMatch == VerdictOf(t) && reason == ReasonOf(t)
  }

  /** Reads the verdict from one outcome of the LLM call. */
  method Decide(outcome: LlmResult) returns (isMatch: bool, reason: string)
    ensures DecidedFrom(outcome, isMatch, reason)
  {
    match outcome {
      case Raised(e) =>
        isMatch, reason := false, ErrorPrefix + e;
      case Reply(t) =>
        isMatch, reason := ParseResponse(t);
    }
  }

  /**
   * `adjudicate_async` with the provider as the function `generate` from the
   * full prompt to its outcome: a failure of the call becomes a mismatch
   * whose reason names the error; a reply is parsed.
   */
  method Adjudicate(
    question: string, category: string, expected: Option<string>, shouldRefrain: bool,
    refrainPhrases: Option<seq<string>>, actual: string, generate: string -> LlmResult)
    returns (isMatch: bool, reason: string)
    ensures DecidedFrom(generate(FullPrompt(BuildPrompt(question, category, expected, shouldRefrain,
                          if refrainPhrases.Some? then refrainPhrases.value else [], actual))), isMatch, reason)
  {
    var prompt := BuildPrompt(question, category, expected, shouldRefrain,
                              if refrainPhrases.Some? then refrainPhrases.value else [], actual);
    isMatch, reason := Decide(generate(FullPrompt(prompt)));
  }
}
