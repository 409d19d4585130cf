/**
 * Tokenizer and sentence splitter of the retrieval evaluation
 * (`_tokenize` / `_split_sentences`; the studio service, the BM25 CLI,
 * the auto-labeller and the question generator carry identical copies).
 *
 * The two regular expressions of the splitter are modelled as direct
 * character rules:
 *   - sentence boundary `(?<=[.!?])\s+(?=[A-Z0-9])`
 *   - clause separator  `\s*;\s*|\s+•\s+|\s+\-\s+`
 */
module Segment {
  import opened Text

  /** Units longer than this are re-split on clause separators. */
  const MaxUnit: nat := 420
  const Bullet: char := '\U{2022}'

  // ------------------------------------------------------------ tokenize

  predicate IsWordChar(c: char) { IsLowerAlpha(c) || IsDigit(c) }
  predicate AllWord(s: string) { forall i :: 0 <= i < |s| ==> IsWordChar(s[i]) }

  /** Length of the leading run of `[a-z0-9]` characters. */
  function WordRun(s: string): (n: nat)
    ensures n <= |s| && AllWord(s[..n])
    ensures n == |s| || !IsWordChar(s[n])
  {
    if s != [] && IsWordChar(s[0]) then
      var m := WordRun(s[1..]);
      assert s[..m + 1] == [s[0]] + s[1..][..m];
      1 + m
    else 0
  }

  /** `re.findall(r"[a-z0-9]+", s)`: the maximal word runs, left to right. */
  function WordRuns(s: string): (r: seq<string>)
    ensures forall i :: 0 <= i < |r| ==> r[i] != [] && AllWord(r[i])
    decreases |s|
  {
    if s == [] then []
    else if !IsWordChar(s[0]) then WordRuns(s[1..])
    else
      var n := WordRun(s);
      [s[..n]] + WordRuns(s[n..])
  }

  /** `_tokenize(text)`: lowercase, then keep the alphanumeric runs (digits included). */
  function Tokenize(text: string): (r: seq<string>)
    ensures forall i :: 0 <= i < |r| ==> r[i] != [] && AllWord(r[i])
  {
    WordRuns(Lower(text))
  }

  /** Reference definition: the word characters of `s`, in order. */
  function WordChars(s: string): string
  {
    if s == [] then [] else (if IsWordChar(s[0]) then [s[0]] else []) + WordChars(s[1..])
  }

  function Flatten(ss: seq<string>): string
  {
    if ss == [] then [] else ss[0] + Flatten(ss[1..])
  }

  lemma {:induction false} WordCharsAppend(a: string, b: string)
    ensures WordChars(a + b) == WordChars(a) + WordChars(b)
  {
    if a != [] {
      assert (a + b)[1..] == a[1..] + b;
      WordCharsAppend(a[1..], b);
    } else {
      assert a + b == b;
    }
  }

  lemma {:induction false} WordCharsOfWord(s: string)
    requires AllWord(s)
    ensures WordChars(s) == s
  {
    if s != [] { WordCharsOfWord(s[1..]); }
  }

  /**
   * Tokens lose nothing but separators: concatenated, they are exactly the
   * word characters of the input.
   */
  lemma {:induction false} WordRunsFlatten(s: string)
    ensures Flatten(WordRuns(s)) == WordChars(s)
    decreases |s|
  {
    if s != [] {
      if !IsWordChar(s[0]) {
        WordRunsFlatten(s[1..]);
      } else {
        var n := WordRun(s);
        WordRunsFlatten(s[n..]);
        assert s == s[..n] + s[n..];
        WordCharsAppend(s[..n], s[n..]);
        WordCharsOfWord(s[..n]);
      }
    }
  }

  /** `_tokenize` keeps exactly the lowercased alphanumeric characters, and every token is lowercase. */
  lemma TokenizeContent(text: string)
    ensures Flatten(Tokenize(text)) == WordChars(Lower(text))
    ensures forall i :: 0 <= i < |Tokenize(text)| ==> NoUpper(Tokenize(text)[i])
  {
    WordRunsFlatten(Lower(text));
  }

  // --------------------------------------------------------- splitting

  predicate IsTerminal(c: char) { c == '.' || c == '!' || c == '?' }
  predicate IsSentenceStart(c: char) { IsUpperAlpha(c) || IsDigit(c) }

  /** Length of the whitespace run starting at `k` (0 past the end). */
  function SpaceRun(t: string, k: nat): (n: nat)
    ensures k + n <= |t| || n == 0
    ensures forall j :: k <= j < k + n ==> IsSpace(t[j])
    ensures k + n < |t| ==> !IsSpace(t[k + n])
    decreases |t| - k
  {
    if k < |t| && IsSpace(t[k]) then 1 + SpaceRun(t, k + 1) else 0
  }

  datatype SplitRule = SentenceBoundary | ClauseSeparator

  /**
   * Length of the match of `rule` starting at `k`, or 0 when it does not
   * match there. Neither pattern can match the empty string.
   */
  function MatchLen(rule: SplitRule, t: string, k: nat): (n: nat)
    ensures n == 0 || k + n <= |t|
  {
    var a := SpaceRun(t, k);
    match rule
    case SentenceBoundary =>
      // `\s+` is greedy and the look-ahead needs a non-space, so the whole run is taken
      if 0 < k <= |t| && IsTerminal(t[k - 1]) && a > 0 && k + a < |t| && IsSentenceStart(t[k + a])
      then a else 0
    case ClauseSeparator =>
      if k + a < |t| && t[k + a] == ';' then a + 1 + SpaceRun(t, k + a + 1)
      else if a > 0 && k + a < |t| && (t[k + a] == Bullet || t[k + a] == '-') && SpaceRun(t, k + a + 1) > 0
      then a + 1 + SpaceRun(t, k + a + 1)
      else 0
  }

  /** Leftmost position at or after `k` where `rule` matches. */
  function FirstMatch(rule: SplitRule, t: string, k: nat): (r: Option<nat>)
    ensures r.Some? ==> k <= r.value < |t| && MatchLen(rule, t, r.value) > 0
    ensures r.Some? ==> forall j :: k <= j < r.value ==> MatchLen(rule, t, j) == 0
    ensures r.None? ==> forall j :: k <= j < |t| ==> MatchLen(rule, t, j) == 0
    decreases |t| - k
  {
    if k >= |t| then None
    else if MatchLen(rule, t, k) > 0 then Some(k)
    else FirstMatch(rule, t, k + 1)
  }

  /**
   * `re.split(pattern, t)`. After a match the scan continues on the rest of
   * the string; for the sentence boundary this agrees with Python's
   * look-behind because the rest starts right after a whitespace run.
   */
  function RegexSplit(rule: SplitRule, t: string): (r: seq<string>)
    ensures |r| >= 1
    decreases |t|
  {
    match FirstMatch(rule, t, 0)
    case None => [t]
    case Some(k) => [t[..k]] + RegexSplit(rule, t[k + MatchLen(rule, t, k)..])
  }

  /** A unit as `_split_sentences` emits it: non-empty and already stripped. */
  predicate Clean(s: string) { s != [] && Trim(s) == s }
  predicate AllClean(r: seq<string>) { forall i :: 0 <= i < |r| ==> Clean(r[i]) }

  lemma AllCleanAppend(a: seq<string>, b: seq<string>)
    requires AllClean(a) && AllClean(b)
    ensures AllClean(a + b)
  {
    forall i | 0 <= i < |a + b| ensures Clean((a + b)[i]) {
      if i < |a| { assert (a + b)[i] == a[i]; } else { assert (a + b)[i] == b[i - |a|]; }
    }
  }

  /** `[s.strip() for s in pieces if s.strip()]` */
  function KeepStripped(pieces: seq<string>): (r: seq<string>)
    ensures AllClean(r)
  {
    if pieces == [] then []
    else
      var p := Trim(pieces[0]);
      TrimIdempotent(pieces[0]);
      var here := if p != [] then [p] else [];
      var rest := KeepStripped(pieces[1..]);
      AllCleanAppend(here, rest);
      here + rest
  }

  /** What one sentence part contributes: nothing if blank, its clauses if longer than 420, else itself. */
  function UnitsOf(part: string): (r: seq<string>)
    ensures AllClean(r)
  {
    var p := Trim(part);
    TrimIdempotent(part);
    if p == [] then []
    else if |p| > MaxUnit then KeepStripped(RegexSplit(ClauseSeparator, p))
    else [p]
  }

  /** The loop of `_split_sentences` over the sentence parts. */
  function EmitUnits(parts: seq<string>): (r: seq<string>)
    ensures AllClean(r)
  {
    if parts == [] then []
    else
      var here := UnitsOf(parts[0]);
      var rest := EmitUnits(parts[1..]);
      AllCleanAppend(here, rest);
      here + rest
  }

  /** `_split_sentences(text)` */
  function SplitSentences(text: string): (r: seq<string>)
    ensures IsBlank(text) ==> r == []
    ensures AllClean(r)
  {
    if IsBlank(text) then [] else EmitUnits(RegexSplit(SentenceBoundary, CollapseWs(text)))
  }

  // ------------------------------------------- round trip of short units

  predicate NoEdgeSpace(s: string) { s != [] && !IsSpace(s[0]) && !IsSpace(s[|s| - 1]) }

  lemma CollapsedSuffix(t: string, j: nat)
    requires Collapsed(t) && j < |t| && !IsSpace(t[j])
    ensures Collapsed(t[j..])
  {
    var u := t[j..];
    forall i | 0 <= i < |u| ensures IsSpace(u[i]) ==> u[i] == ' ' {
      assert u[i] == t[j + i];
    }
    forall i | 0 <= i < |u| - 1 ensures !SpacePairAt(u, i) {
      assert u[i] == t[j + i] && u[i + 1] == t[j + i + 1] && !SpacePairAt(t, j + i);
    }
  }

  /** In collapsed text every sentence boundary is exactly one space. */
  lemma BoundaryIsOneSpace(t: string, k: nat)
    requires Collapsed(t) && MatchLen(SentenceBoundary, t, k) > 0
    ensures MatchLen(SentenceBoundary, t, k) == 1 && t[k] == ' '
  {
    assert IsSpace(t[k]);
    assert k + 1 < |t| ==> !SpacePairAt(t, k) && !IsSpace(t[k + 1]);
  }

  predicate AllNoEdgeSpace(parts: seq<string>) { forall i :: 0 <= i < |parts| ==> NoEdgeSpace(parts[i]) }

  /** Splitting collapsed text at sentence boundaries gives non-empty parts without surrounding whitespace. */
  lemma {:induction false} SentencePartsClean(t: string)
    requires Collapsed(t) && t != []
    ensures AllNoEdgeSpace(RegexSplit(SentenceBoundary, t))
    decreases |t|
  {
    var parts := RegexSplit(SentenceBoundary, t);
    match FirstMatch(SentenceBoundary, t, 0)
    case None =>
      assert parts == [t];
    case Some(k) =>
      SplitFirst(t);
      var rest := t[k + 1..];
      SentencePartsClean(rest);
      var tail := RegexSplit(SentenceBoundary, rest);
      forall i | 0 <= i < |parts| ensures NoEdgeSpace(parts[i]) {
        if i > 0 { assert parts[i] == tail[i - 1]; }
      }
  }

  /** Splitting collapsed text at sentence boundaries loses nothing: joining the parts with one space gives the text back. */
  lemma {:induction false} SentencePartsJoin(t: string)
    requires Collapsed(t) && t != []
    ensures Join(RegexSplit(SentenceBoundary, t), " ") == t
    decreases |t|
  {
    var parts := RegexSplit(SentenceBoundary, t);
    match FirstMatch(SentenceBoundary, t, 0)
    case None =>
      assert parts == [t];
    case Some(k) =>
      SplitFirst(t);
      var rest := t[k + 1..];
      SentencePartsJoin(rest);
      var tail := RegexSplit(SentenceBoundary, rest);
      assert Join(parts, " ") == t[..k] + " " + Join(tail, " ");
      SplitAround(t, k);
  }

  lemma SplitAround(t: string, k: nat)
    requires k < |t|
    ensures t == t[..k] + [t[k]] + t[k + 1..]
  {
    assert t[..k] + [t[k]] == t[..k + 1];
  }

  /** The first sentence boundary of collapsed text splits off a first part without surrounding spaces. */
  lemma SplitFirst(t: string)
    requires Collapsed(t) && t != [] && FirstMatch(SentenceBoundary, t, 0).Some?
    ensures var k := FirstMatch(SentenceBoundary, t, 0).value;
      k + 1 < |t| && t[k] == ' ' && NoEdgeSpace(t[..k]) && Collapsed(t[k + 1..]) &&
      RegexSplit(SentenceBoundary, t) == [t[..k]] + RegexSplit(SentenceBoundary, t[k + 1..])
  {
    var k := FirstMatch(SentenceBoundary, t, 0).value;
    BoundaryIsOneSpace(t, k);
    RegexSplitFirst(SentenceBoundary, t);
    assert IsSentenceStart(t[k + 1]);
    CollapsedSuffix(t, k + 1);
    assert NoEdgeSpace(t[..k]) by { assert IsTerminal(t[k - 1]); }
  }

  lemma RegexSplitFirst(rule: SplitRule, t: string)
    requires FirstMatch(rule, t, 0).Some?
    ensures var k := FirstMatch(rule, t, 0).value;
      RegexSplit(rule, t) == [t[..k]] + RegexSplit(rule, t[k + MatchLen(rule, t, k)..])
  {
  }

  /** Every part is at most `MaxUnit` long. */
  predicate AllShort(parts: seq<string>) { forall i :: 0 <= i < |parts| ==> |parts[i]| <= MaxUnit }

  lemma {:induction false} EmitShortUnits(parts: seq<string>)
    requires AllNoEdgeSpace(parts)
    requires AllShort(parts)
    ensures EmitUnits(parts) == parts
  {
    if parts != [] {
      var p := parts[0];
      assert NoEdgeSpace(p) && |p| <= MaxUnit;
      TrimLeftFixed(p);
      TrimRightFixed(p);
      assert UnitsOf(p) == [p];
      var rest := parts[1..];
      forall i | 0 <= i < |rest| ensures NoEdgeSpace(rest[i]) && |rest[i]| <= MaxUnit {
        assert rest[i] == parts[i + 1];
      }
      EmitShortUnits(rest);
      assert parts == [p] + rest;
    }
  }

  /**
   * When no sentence exceeds 420 characters, `_split_sentences` is the
   * inverse of joining with single spaces: the units, joined by " ",
   * reproduce the whitespace-collapsed text.
   */
  lemma SplitSentencesJoin(text: string)
    requires !IsBlank(text)
    requires AllShort(RegexSplit(SentenceBoundary, CollapseWs(text)))
    ensures Join(SplitSentences(text), " ") == CollapseWs(text)
  {
    var t := CollapseWs(text);
    BlankIffAllSpace(text);
    var i :| 0 <= i < |text| && !IsSpace(text[i]);
    NotAllSpaceTrimLeft(text, i);
    TrimLeftSpec(text);
    TrimRightKeepsNonSpace(TrimLeft(text));
    SentencePartsClean(t);
    SentencePartsJoin(t);
    EmitShortUnits(RegexSplit(SentenceBoundary, t));
  }
}
