/**
 * `generate_questions_from_manual.py`: build a labelled question set
 * straight from the manual's paragraphs -- canonical questions anchored to a
 * paragraph (crux sentences), factual questions anchored to one sentence
 * with a concrete answer (a phone number, URL, e-mail address or day count,
 * else a regex over its first words), and fixed out-of-manual probes.
 *
 * The regular expressions that find answers are the auto-labeller's
 * (`AutoLabel.Finds`, a parameter); splitting and tokenising are
 * `Segment.SplitSentences` and `Segment.Tokenize`. The database query and
 * the YAML output are parameters or left out.
 */
module ManualQuestions {
  import opened Text
  import opened Segment
  import Corpus
  import Ranking
  import Sorting
  import AutoLabel

  // ------------------------------------------------------------ answers

  /** The answer kinds of `_extract_answer`. */
  datatype Kind = Phone | Url | Email | Days | Other

  /** `(kind, answer_contains, answer_regex)` */
  datatype Answer = Answer(kind: Kind, contains: Option<seq<string>>, regex: Option<string>)

  /**
   * `_extract_answer(sentence)` over the matches `f` of its regular
   * expressions. The day-count loop keeps the first match, collapsed, and
   * leaves at once (its `len(uniq) >= 1` test holds after one turn).
   */
  function ExtractAnswer(s: string, f: AutoLabel.Finds): Answer
  {
    if f.phones != [] then Answer(Phone, Some([f.phones[0]]), None)
    else if f.urls != [] then Answer(Url, Some([AutoLabel.StripUrlTrail(f.urls[0])]), None)
    else if f.emails != [] then Answer(Email, Some([f.emails[0]]), None)
    else if f.days != [] then Answer(Days, Some([CollapseWs(f.days[0])]), None)
    else if |Tokenize(s)| >= AutoLabel.PhraseMinTokens then
      Answer(Other, None, Some(AutoLabel.CaseInsensitive + AutoLabel.Escape(AutoLabel.Phrase(Tokenize(s)))))
    else Answer(Other, None, None)
  }

  /** A case-insensitive pattern that reads back as the first ten tokens. */
  predicate RegexFor(pattern: string, toks: seq<string>)
  {
    |pattern| >= |AutoLabel.CaseInsensitive| && pattern[..|AutoLabel.CaseInsensitive|] == AutoLabel.CaseInsensitive
    && AutoLabel.Unescape(pattern[|AutoLabel.CaseInsensitive|..]) == Join(Ranking.SliceTo(toks, AutoLabel.PhraseTokens), " ")
  }

  /**
   * Precedence phone > URL > e-mail > day count > regex: a concrete kind
   * carries exactly one `answer_contains` value and no regex, the regex
   * appears exactly for a sentence without finds and with at least eight
   * tokens, and it reads back as its first ten tokens.
   */
  lemma ExtractAnswerSpec(s: string, f: AutoLabel.Finds)
    ensures ExtractAnswer(s, f).kind == Phone <==> f.phones != []
    ensures ExtractAnswer(s, f).kind == Url <==> f.phones == [] && f.urls != []
    ensures ExtractAnswer(s, f).kind == Email <==> f.phones == [] && f.urls == [] && f.emails != []
    ensures ExtractAnswer(s, f).kind == Days <==> f.phones == [] && f.urls == [] && f.emails == [] && f.days != []
    ensures ExtractAnswer(s, f).contains.Some? <==> ExtractAnswer(s, f).kind != Other
    ensures ExtractAnswer(s, f).contains.Some? ==> |ExtractAnswer(s, f).contains.value| == 1
    ensures ExtractAnswer(s, f).regex.Some? <==>
      ExtractAnswer(s, f).kind == Other && |Tokenize(s)| >= AutoLabel.PhraseMinTokens
    ensures ExtractAnswer(s, f).regex.Some? ==>
      RegexFor(ExtractAnswer(s, f).regex.value, Tokenize(s))
  {
    if ExtractAnswer(s, f).regex.Some? {
      var p := AutoLabel.Phrase(Tokenize(s));
      AutoLabel.EscapeRoundTrip(p);
      assert (AutoLabel.CaseInsensitive + AutoLabel.Escape(p))[|AutoLabel.CaseInsensitive|..] == AutoLabel.Escape(p);
    }
  }

  /**
   * The generator's answer agrees with the auto-labeller's hints for the
   * same sentence, except that it keeps only the first of the day counts.
   */
  lemma ExtractAgreesWithHints(s: string, f: AutoLabel.Finds)
    requires s != []
    ensures ExtractAnswer(s, f).contains.Some? <==> AutoLabel.AnswerHints(s, f).AnswerContains?
    ensures ExtractAnswer(s, f).contains.Some? ==>
      ExtractAnswer(s, f).contains.value == AutoLabel.AnswerHints(s, f).items[..1]
    ensures ExtractAnswer(s, f).regex.Some? <==> AutoLabel.AnswerHints(s, f).AnswerRegex?
    ensures ExtractAnswer(s, f).regex.Some? ==> ExtractAnswer(s, f).regex.value == AutoLabel.AnswerHints(s, f).pattern
  {
    if f.phones == [] && f.urls == [] && f.emails == [] && f.days != [] {
      AutoLabel.KeepDaysSpec(f.days);
    }
  }

  // ------------------------------------------------------ question text

  const CtxMax: nat := 160
  const LeadMax: nat := 140
  const Ellipsis: char := '\U{2026}'
  const Close: string := "\"?"
  const DefaultLead: string := "According to the Sunshine provider manual, what does it state about: \""

  /** The opening of the context-rich template for a concrete answer kind. */
  function Template(k: Kind): string
  {
    match k
    case Phone => "What phone number does the Sunshine provider manual list for: \""
    case Url => "What website/URL does the Sunshine provider manual list for: \""
    case Email => "What email address does the Sunshine provider manual list for: \""
    case Days => "How many days does the Sunshine provider manual specify for: \""
    case Other => DefaultLead
  }

  /** `s.replace("", rep)`: `rep` before every character and at the end. */
  function InsertAround(s: string, rep: string): (r: string)
    ensures |r| == |s| * (|rep| + 1) + |rep|
  {
    if s == [] then rep else rep + [s[0]] + InsertAround(s[1..], rep)
  }

  /** Python's `s.replace(pat, rep)`, the empty pattern included. */
  function PyReplace(s: string, pat: string, rep: string): string
  {
    if pat == [] then InsertAround(s, rep) else Replace(s, pat, rep)
  }

  /** Length of the leading run of dots. */
  function DotRun(s: string): (n: nat)
    ensures n <= |s| && (forall k :: 0 <= k < n ==> s[k] == '.')
    ensures n == |s| || s[n] != '.'
  {
    if s != [] && s[0] == '.' then 1 + DotRun(s[1..]) else 0
  }

  /** Three dots in a row at `i`. */
  predicate DotsAt(s: string, i: int) { 0 <= i < |s| - 2 && s[i] == '.' && s[i + 1] == '.' && s[i + 2] == '.' }

  /** No three dots in a row. */
  predicate NoDotLeader(s: string)
  {
    forall i :: 0 <= i < |s| - 2 ==> !DotsAt(s, i)
  }

  /** `re.sub(r"\.{3,}", " ", s)`: every maximal run of three or more dots becomes one space. */
  function DropDotLeaders(s: string): (r: string)
    decreases |s|
  {
    if s == [] then []
    else if s[0] != '.' then [s[0]] + DropDotLeaders(s[1..])
    else
      var n := DotRun(s);
      (if n >= 3 then " " else s[..n]) + DropDotLeaders(s[n..])
  }

  /** The result has no dot leader left, and keeps a leading non-dot character. */
  lemma {:induction false} DropDotLeadersSpec(s: string)
    ensures NoDotLeader(DropDotLeaders(s))
    ensures s != [] && s[0] != '.' ==> DropDotLeaders(s) != [] && DropDotLeaders(s)[0] == s[0]
    decreases |s|
  {
    if s != [] {
      var r := DropDotLeaders(s);
      if s[0] != '.' {
        DropDotLeadersSpec(s[1..]);
        var rest := DropDotLeaders(s[1..]);
        assert r == [s[0]] + rest;
        forall i | 0 <= i < |r| - 2 ensures !DotsAt(r, i) {
          if i > 0 { assert r[i] == rest[i - 1] && r[i + 1] == rest[i] && r[i + 2] == rest[i + 1] && !DotsAt(rest, i - 1); }
        }
      } else {
        var n := DotRun(s);
        DropDotLeadersSpec(s[n..]);
        var head := if n >= 3 then " " else s[..n];
        var rest := DropDotLeaders(s[n..]);
        assert r == head + rest;
        assert |head| <= 2;
        assert rest != [] ==> rest[0] != '.';
        forall i | 0 <= i < |r| - 2 ensures !DotsAt(r, i) {
          if i >= |head| {
            assert r[i] == rest[i - |head|] && r[i + 1] == rest[i - |head| + 1] && r[i + 2] == rest[i - |head| + 2];
            assert !DotsAt(rest, i - |head|);
          } else if n >= 3 {
            assert r[0] == ' ';
            assert i == 0;
          } else {
            assert r[|head|] == rest[0];
          }
        }
      }
    }
  }

  /** The characters `strip(" -–—:;,.")` removes. */
  predicate EdgeChar(c: char)
  {
    c == ' ' || c == '-' || c == '\U{2013}' || c == '\U{2014}' || c == ':' || c == ';' || c == ',' || c == '.'
  }

  function StripEdgeLeft(s: string): (r: string)
    ensures |r| <= |s| && r == s[|s| - |r|..]
    ensures r == [] || !EdgeChar(r[0])
    ensures forall k :: 0 <= k < |s| - |r| ==> EdgeChar(s[k])
  {
    if s != [] && EdgeChar(s[0]) then StripEdgeLeft(s[1..]) else s
  }

  function StripEdgeRight(s: string): (r: string)
    ensures |r| <= |s| && r == s[..|r|]
    ensures r == [] || !EdgeChar(r[|r| - 1])
    ensures forall k :: |r| <= k < |s| ==> EdgeChar(s[k])
  {
    if s != [] && EdgeChar(s[|s| - 1]) then StripEdgeRight(s[..|s| - 1]) else s
  }

  /** `s.strip(" -–—:;,.")` */
  function StripEdges(s: string): string { StripEdgeRight(StripEdgeLeft(s)) }

  /** `t.rsplit(" ", 1)[0]`: the text before the last space, or all of `t` when it has none. */
  function RsplitHead(t: string): (r: string)
    ensures |r| <= |t| && r == t[..|r|]
    ensures |r| < |t| ==> t[|r|] == ' ' && forall k :: |r| < k < |t| ==> t[k] != ' '
    ensures |r| == |t| ==> forall k :: 0 <= k < |t| ==> t[k] != ' '
    decreases |t|
  {
    if t == [] then []
    else if t[|t| - 1] == ' ' then t[..|t| - 1]
    else
      var h := RsplitHead(t[..|t| - 1]);
      if |h| == |t| - 1 then t else h
  }

  /** `t[:max].rsplit(" ", 1)[0] + "…"` when `t` is longer than `max`, else `t`. */
  function Clip(t: string, max: nat): (r: string)
    ensures |r| <= max + 1
  {
    if |t| > max then RsplitHead(t[..max]) + [Ellipsis] else t
  }

  /**
   * A short text is kept whole; a long one is cut at its last space within
   * the first `max` characters (or at `max` when there is none) and marked
   * with an ellipsis.
   */
  lemma ClipSpec(t: string, max: nat)
    ensures |t| <= max ==> Clip(t, max) == t
    ensures |t| > max ==>
      |Clip(t, max)| >= 1 && Clip(t, max)[|Clip(t, max)| - 1] == Ellipsis &&
      IsPrefix(Clip(t, max)[..|Clip(t, max)| - 1], t) &&
      (|Clip(t, max)| - 1 < max ==> t[|Clip(t, max)| - 1] == ' ') &&
      (forall k :: |Clip(t, max)| - 1 < k < max ==> t[k] != ' ')
  {
    if |t| > max {
      var h := RsplitHead(t[..max]);
      assert Clip(t, max)[..|Clip(t, max)| - 1] == h;
    }
  }

  lemma NoDotLeaderPrefix(s: string, n: nat)
    requires NoDotLeader(s) && n <= |s|
    ensures NoDotLeader(s[..n])
  {
    forall i | 0 <= i < n - 2 ensures !DotsAt(s[..n], i) {
      assert s[..n][i] == s[i] && s[..n][i + 1] == s[i + 1] && s[..n][i + 2] == s[i + 2] && !DotsAt(s, i);
    }
  }

  lemma NoDotLeaderSuffix(s: string, n: nat)
    requires NoDotLeader(s) && n <= |s|
    ensures NoDotLeader(s[n..])
  {
    forall i | 0 <= i < |s| - n - 2 ensures !DotsAt(s[n..], i) {
      assert s[n..][i] == s[n + i] && s[n..][i + 1] == s[n + i + 1] && s[n..][i + 2] == s[n + i + 2] && !DotsAt(s, n + i);
    }
  }

  lemma NoDotLeaderClip(t: string, max: nat)
    requires NoDotLeader(t)
    ensures NoDotLeader(Clip(t, max))
  {
    if |t| > max {
      NoDotLeaderPrefix(t, max);
      var h := RsplitHead(t[..max]);
      NoDotLeaderPrefix(t[..max], |h|);
      var r := h + [Ellipsis];
      forall i | 0 <= i < |r| - 2 ensures !DotsAt(r, i) {
        if i + 2 < |h| {
          assert r[i] == h[i] && r[i + 1] == h[i + 1] && r[i + 2] == h[i + 2] && !DotsAt(h, i);
        } else {
          assert r[|h|] == Ellipsis;
        }
      }
    }
  }

  /** `_context_without(ans)` for the collapsed sentence `s`. */
  function ContextWithout(s: string, ans: string): string
  {
    ClippedContext(DropDotLeaders(CollapseWs(PyReplace(s, ans, " "))))
  }

  /** The strip and the clip that end `_context_without`. */
  function ClippedContext(d: string): string { Clip(StripEdges(d), CtxMax) }

  /** The context has no dot leader, fits in 160 characters plus the ellipsis, and does not start with a stripped character. */
  lemma ContextWithoutSpec(s: string, ans: string)
    ensures |ContextWithout(s, ans)| <= CtxMax + 1
    ensures NoDotLeader(ContextWithout(s, ans))
    ensures ContextWithout(s, ans) == [] || !EdgeChar(ContextWithout(s, ans)[0])
  {
    DropDotLeadersSpec(CollapseWs(PyReplace(s, ans, " ")));
    ClippedContextSpec(DropDotLeaders(CollapseWs(PyReplace(s, ans, " "))));
  }

  /** Stripping and clipping text without dot leaders keeps it so, bounds it, and leaves no stripped character in front. */
  lemma ClippedContextSpec(d: string)
    requires NoDotLeader(d)
    ensures |ClippedContext(d)| <= CtxMax + 1
    ensures NoDotLeader(ClippedContext(d))
    ensures ClippedContext(d) == [] || !EdgeChar(ClippedContext(d)[0])
  {
    StripEdgesSpec(d);
    NoDotLeaderClip(StripEdges(d), CtxMax);
    ClipFront(StripEdges(d), CtxMax);
  }

  /** Stripping keeps text free of dot leaders and leaves no stripped character in front. */
  lemma StripEdgesSpec(d: string)
    requires NoDotLeader(d)
    ensures NoDotLeader(StripEdges(d))
    ensures StripEdges(d) == [] || !EdgeChar(StripEdges(d)[0])
  {
    var l := StripEdgeLeft(d);
    NoDotLeaderSuffix(d, |d| - |l|);
    var e := StripEdgeRight(l);
    NoDotLeaderPrefix(l, |e|);
    if e != [] {
      assert e[0] == l[0];
    }
  }

  /** Clipping keeps the first character. */
  lemma ClipFront(e: string, max: nat)
    requires e == [] || !EdgeChar(e[0])
    ensures Clip(e, max) == [] || !EdgeChar(Clip(e, max)[0])
  {
    if |e| > max {
      var h := RsplitHead(e[..max]);
      if h != [] { assert h[0] == e[0]; }
    }
  }

  /** `_make_question_from_sentence(kind, sentence, answer)` */
  function MakeQuestion(k: Kind, sentence: string, answer: Option<seq<string>>): Option<string>
  {
    var s := CollapseWs(sentence);
    if s == [] then None
    else if k != Other && answer.Some? && answer.value != [] then
      Some(Template(k) + ContextWithout(s, answer.value[0]) + Close)
    else Some(DefaultLead + Clip(s, LeadMax) + Close)
  }

  /** The parts of `open + body + close` are found back by slicing. */
  lemma Wrapped(open: string, body: string, close: string)
    ensures IsPrefix(open, open + body + close) && IsSuffix(close, open + body + close)
    ensures (open + body + close)[|open|..|open + body + close| - |close|] == body
  {
    var q := open + body + close;
    assert q[..|open|] == open;
    assert q[|q| - |close|..] == close;
    assert q[|open|..|q| - |close|] == body;
  }

  /** A blank sentence gives no question; any other gives one. */
  lemma MakeQuestionBlank(k: Kind, sentence: string, answer: Option<seq<string>>)
    ensures MakeQuestion(k, sentence, answer).None? <==> CollapseWs(sentence) == []
  {
  }

  /**
   * With a concrete answer the question is the kind's template around a
   * context of at most 161 characters with no dot leader.
   */
  lemma MakeQuestionTemplated(k: Kind, sentence: string, answer: Option<seq<string>>)
    requires CollapseWs(sentence) != [] && k != Other && answer.Some? && answer.value != []
    ensures |MakeQuestion(k, sentence, answer).value| >= |Template(k)| + |Close|
    ensures IsPrefix(Template(k), MakeQuestion(k, sentence, answer).value)
    ensures IsSuffix(Close, MakeQuestion(k, sentence, answer).value)
    ensures |MakeQuestion(k, sentence, answer).value| <= |Template(k)| + CtxMax + 1 + |Close|
    ensures NoDotLeader(MakeQuestion(k, sentence, answer).value[|Template(k)|..|MakeQuestion(k, sentence, answer).value| - |Close|])
  {
    var s := CollapseWs(sentence);
    var c := ContextWithout(s, answer.value[0]);
    ContextWithoutSpec(s, answer.value[0]);
    Wrapped(Template(k), c, Close);
  }

  /**
   * Otherwise it is the default template around the collapsed sentence,
   * kept whole up to 140 characters and cut at a word boundary beyond.
   */
  lemma MakeQuestionDefault(k: Kind, sentence: string, answer: Option<seq<string>>)
    requires CollapseWs(sentence) != [] && !(k != Other && answer.Some? && answer.value != [])
    ensures |MakeQuestion(k, sentence, answer).value| >= |DefaultLead| + |Close|
    ensures IsPrefix(DefaultLead, MakeQuestion(k, sentence, answer).value)
    ensures IsSuffix(Close, MakeQuestion(k, sentence, answer).value)
    ensures |MakeQuestion(k, sentence, answer).value| <= |DefaultLead| + LeadMax + 1 + |Close|
    ensures |CollapseWs(sentence)| <= LeadMax ==>
      MakeQuestion(k, sentence, answer).value == DefaultLead + CollapseWs(sentence) + Close
  {
    var s := CollapseWs(sentence);
    var c := Clip(s, LeadMax);
    ClipSpec(s, LeadMax);
    Wrapped(DefaultLead, c, Close);
  }

  // ------------------------------------------------------- question set

  /** The gold block of a generated question; absent fields are `None`. */
  datatype GGold = GGold(
    expectInManual: bool,
    parentIds: Option<seq<string>>,
    answerContains: Option<seq<string>>,
    answerRegex: Option<string>,
    crux: Option<seq<string>>)

  /** A generated question; `id` is `None` until the final numbering. */
  datatype GQuestion = GQuestion(id: Option<string>, intent: string, bucket: string, question: string, gold: GGold)

  /** A fetched paragraph with its stripped text and that text's sentence units. */
  datatype PView = PView(para: Corpus.Paragraph, text: string, units: seq<string>)

  function ViewOf(p: Corpus.Paragraph): PView
  {
    PView(p, Corpus.ParagraphText(p), SplitSentences(Corpus.ParagraphText(p)))
  }

  function ViewsOf(paras: seq<Corpus.Paragraph>): (vs: seq<PView>)
    ensures |vs| == |paras|
  {
    seq(|paras|, k requires 0 <= k < |paras| => ViewOf(paras[k]))
  }

  // ---------------------------------------------------------- canonical

  const CanonMinText: nat := 600
  const CruxHead: nat := 4
  const CruxMinLen: nat := 35
  const CruxMax: nat := 3
  const SummaryOpen: string := "Summarize the key guidance in the provider manual section: \""
  const SummaryClose: string := "\"."

  /** A field that is present and not empty (truthy). */
  predicate Filled(o: Option<string>) { o.Some? && o.value != [] }

  /** `[s for s in sents[:4] if len(s) >= 35][:3]` */
  function CruxOf(units: seq<string>): seq<string>
  {
    Ranking.SliceTo(Filter(Ranking.SliceTo(units, CruxHead), (u: string) => |u| >= CruxMinLen), CruxMax)
  }

  /** The canonical question one paragraph gives, if it qualifies. */
  function CanonicalOf(v: PView): Option<GQuestion>
  {
    if Corpus.IsTocText(v.text) || |v.text| < CanonMinText || !(Filled(v.para.section) || Filled(v.para.chapter)) then None
    else
      var crux := CruxOf(v.units);
      if crux == [] then None
      else
        var title := if Filled(v.para.section) then v.para.section.value else v.para.chapter.value;
        Some(GQuestion(None, "canonical", "in_manual", SummaryOpen + title + SummaryClose,
                       GGold(true, Some([Corpus.CliPid(v.para)]), None, None, Some(crux))))
  }

  /**
   * A canonical question comes only from a paragraph that is not a table of
   * contents, has at least 600 characters and a section or chapter; it is
   * anchored to that paragraph, and its crux is one to three of the first
   * four units, each of at least 35 characters.
   */
  lemma CanonicalOfSpec(v: PView)
    ensures CanonicalOf(v).Some? ==>
      !Corpus.IsTocText(v.text) && |v.text| >= CanonMinText && (Filled(v.para.section) || Filled(v.para.chapter))
    ensures CanonicalOf(v).Some? ==>
      CanonicalOf(v).value.intent == "canonical" && CanonicalOf(v).value.bucket == "in_manual"
      && CanonicalOf(v).value.gold.expectInManual && CanonicalOf(v).value.gold.parentIds == Some([Corpus.CliPid(v.para)])
      && CanonicalOf(v).value.gold.answerContains.None? && CanonicalOf(v).value.gold.answerRegex.None?
    ensures CanonicalOf(v).Some? ==>
      CanonicalOf(v).value.gold.crux.Some? && 1 <= |CanonicalOf(v).value.gold.crux.value| <= CruxMax
      && forall c :: c in CanonicalOf(v).value.gold.crux.value ==>
        |c| >= CruxMinLen && c in v.units[..if |v.units| < CruxHead then |v.units| else CruxHead]
    ensures (!Corpus.IsTocText(v.text) && |v.text| >= CanonMinText && (Filled(v.para.section) || Filled(v.para.chapter))
      && CruxOf(v.units) != []) ==> CanonicalOf(v).Some?
  {
    var head := Ranking.SliceTo(v.units, CruxHead);
    var f := Filter(head, (u: string) => |u| >= CruxMinLen);
    assert forall c :: c in Ranking.SliceTo(f, CruxMax) ==> c in f;
  }

  /** The qualifying paragraphs' questions, in paragraph order (defined from the last paragraph). */
  function Eligible(vs: seq<PView>): seq<GQuestion>
  {
    if vs == [] then []
    else Eligible(vs[..|vs| - 1]) + (match CanonicalOf(vs[|vs| - 1]) case Some(q) => [q] case None => [])
  }

  /** The loop stops once its list is as long as `n_canonical` -- a test made after appending, so at least one. */
  function CanonBound(cap: int): nat { if cap >= 1 then cap else 1 }

  /** The canonical loop's result: the first qualifying paragraphs' questions, up to the bound. */
  function Canonical(vs: seq<PView>, cap: int): (r: seq<GQuestion>)
    ensures |r| <= CanonBound(cap)
  {
    Ranking.SliceTo(Eligible(vs), CanonBound(cap))
  }

  /** The questions of a prefix of the paragraphs start the whole list. */
  lemma {:induction false} EligiblePrefix(vs: seq<PView>, j: nat)
    requires j <= |vs|
    ensures |Eligible(vs[..j])| <= |Eligible(vs)| && Eligible(vs[..j]) == Eligible(vs)[..|Eligible(vs[..j])|]
    decreases |vs|
  {
    if j < |vs| {
      var init := vs[..|vs| - 1];
      assert init[..j] == vs[..j];
      EligiblePrefix(init, j);
    } else {
      assert vs[..j] == vs;
    }
  }

  /** Exactly the qualifying paragraphs give questions. */
  lemma {:induction false} EligibleMembers(vs: seq<PView>, q: GQuestion)
    ensures q in Eligible(vs) <==> exists k :: 0 <= k < |vs| && CanonicalOf(vs[k]) == Some(q)
    decreases |vs|
  {
    if vs != [] {
      var init := vs[..|vs| - 1];
      EligibleMembers(init, q);
      if exists k :: 0 <= k < |vs| && CanonicalOf(vs[k]) == Some(q) {
        var k :| 0 <= k < |vs| && CanonicalOf(vs[k]) == Some(q);
        if k < |vs| - 1 { assert init[k] == vs[k]; }
      }
      if exists k :: 0 <= k < |init| && CanonicalOf(init[k]) == Some(q) {
        var k :| 0 <= k < |init| && CanonicalOf(init[k]) == Some(q);
        assert vs[k] == init[k];
      }
    }
  }

  /** The canonical loop of `main`, leaving once the list reaches `n_canonical`. */
  method SelectCanonical(vs: seq<PView>, cap: int) returns (out: seq<GQuestion>)
    ensures out == Canonical(vs, cap)
  {
    out := [];
    var i := 0;
    while i < |vs|
      invariant i <= |vs|
      invariant out == Eligible(vs[..i])
      invariant |out| < CanonBound(cap)
    {
      assert vs[..i + 1][..i] == vs[..i];
      var c := CanonicalOf(vs[i]);
      if c.Some? {
        out := out + [c.value];
        if |out| >= cap {
          EligiblePrefix(vs, i + 1);
          return;
        }
      }
      i := i + 1;
    }
    assert vs[..i] == vs;
  }

  // ----------------------------------------------------------- factual

  const FactMinLen: nat := 40

  /** A harvested factual candidate. */
  datatype Cand = Cand(parentId: string, sentence: string, contains: Option<seq<string>>, regex: Option<string>, kind: Kind)

  /** Sentences of 40 to 420 characters are harvested. */
  predicate FactLength(s: string) { FactMinLen <= |s| <= MaxUnit }

  /** A sentence with a concrete answer, or else a regex anchor, becomes a candidate. */
  function CandOf(pid: string, s: string, a: Answer): Option<Cand>
  {
    if a.kind != Other && a.contains.Some? && a.contains.value != [] then Some(Cand(pid, s, a.contains, None, a.kind))
    else if a.regex.Some? && a.regex.value != [] then Some(Cand(pid, s, None, a.regex, a.kind))
    else None
  }

  /** The candidate of one unit, if any. */
  function UnitCand(pid: string, u: string, find: string -> AutoLabel.Finds): Option<Cand>
  {
    if FactLength(u) then CandOf(pid, u, ExtractAnswer(u, find(u))) else None
  }

  /** The candidates of one paragraph's units, in order (defined from the last unit). */
  function UnitCands(pid: string, units: seq<string>, find: string -> AutoLabel.Finds): seq<Cand>
  {
    if units == [] then []
    else
      var tail := match UnitCand(pid, units[|units| - 1], find) case Some(c) => [c] case None => [];
      UnitCands(pid, units[..|units| - 1], find) + tail
  }

  /** The candidates of all paragraphs, in order; an empty paragraph gives none. */
  function Harvest(vs: seq<PView>, find: string -> AutoLabel.Finds): seq<Cand>
  {
    if vs == [] then []
    else
      var v := vs[|vs| - 1];
      Harvest(vs[..|vs| - 1], find) + (if v.text == [] then [] else UnitCands(Corpus.CliPid(v.para), v.units, find))
  }

  /** A candidate holds either one concrete answer of a concrete kind, or a regex of kind "other". */
  predicate CandShape(c: Cand)
  {
    (c.contains.Some? <==> c.kind != Other) && (c.regex.Some? <==> c.contains.None?)
    && (c.contains.Some? ==> |c.contains.value| == 1) && (c.regex.Some? ==> c.regex.value != [])
  }

  /** Exactly the units of 40 to 420 characters with an answer give candidates, shaped as above. */
  lemma {:induction false} UnitCandsMembers(pid: string, units: seq<string>, find: string -> AutoLabel.Finds, c: Cand)
    ensures c in UnitCands(pid, units, find) <==> exists j :: 0 <= j < |units| && UnitCand(pid, units[j], find) == Some(c)
    ensures c in UnitCands(pid, units, find) ==> c.parentId == pid && c.sentence in units && FactLength(c.sentence) && CandShape(c)
    decreases |units|
  {
    if units != [] {
      var init := units[..|units| - 1];
      UnitCandsMembers(pid, init, find, c);
      if exists j :: 0 <= j < |units| && UnitCand(pid, units[j], find) == Some(c) {
        var j :| 0 <= j < |units| && UnitCand(pid, units[j], find) == Some(c);
        if j < |units| - 1 { assert init[j] == units[j]; }
      }
      if exists j :: 0 <= j < |init| && UnitCand(pid, init[j], find) == Some(c) {
        var j :| 0 <= j < |init| && UnitCand(pid, init[j], find) == Some(c);
        assert units[j] == init[j];
      }
      var u := units[|units| - 1];
      if UnitCand(pid, u, find) == Some(c) {
        ExtractAnswerSpec(u, find(u));
      }
    }
  }

  /** Every candidate comes from a unit of some non-empty paragraph and carries that paragraph's id. */
  lemma {:induction false} HarvestSound(vs: seq<PView>, find: string -> AutoLabel.Finds, c: Cand)
    requires c in Harvest(vs, find)
    ensures FactLength(c.sentence) && CandShape(c)
    ensures exists k :: 0 <= k < |vs| && vs[k].text != [] && c.parentId == Corpus.CliPid(vs[k].para) && c.sentence in vs[k].units
    decreases |vs|
  {
    var init := vs[..|vs| - 1];
    var v := vs[|vs| - 1];
    if c in Harvest(init, find) {
      HarvestSound(init, find, c);
      var k :| 0 <= k < |init| && init[k].text != [] && c.parentId == Corpus.CliPid(init[k].para) && c.sentence in init[k].units;
      assert vs[k] == init[k];
    } else {
      UnitCandsMembers(Corpus.CliPid(v.para), v.units, find, c);
    }
  }

  /** The harvest loop over one paragraph's units. */
  method HarvestUnits(pid: string, units: seq<string>, find: string -> AutoLabel.Finds) returns (cs: seq<Cand>)
    ensures cs == UnitCands(pid, units, find)
  {
    cs := [];
    var j := 0;
    while j < |units|
      invariant j <= |units|
      invariant cs == UnitCands(pid, units[..j], find)
    {
      assert units[..j + 1][..j] == units[..j];
      var u := units[j];
      if FactLength(u) {
        var a := ExtractAnswer(u, find(u));
        var c := CandOf(pid, u, a);
        if c.Some? {
          cs := cs + [c.value];
        }
      }
      j := j + 1;
    }
    assert units[..j] == units;
  }

  /** The harvest loop over all paragraphs. */
  method HarvestCands(vs: seq<PView>, find: string -> AutoLabel.Finds) returns (cands: seq<Cand>)
    ensures cands == Harvest(vs, find)
  {
    cands := [];
    var i := 0;
    while i < |vs|
      invariant i <= |vs|
      invariant cands == Harvest(vs[..i], find)
    {
      assert vs[..i + 1][..i] == vs[..i];
      if vs[i].text != [] {
        var cs := HarvestUnits(Corpus.CliPid(vs[i].para), vs[i].units, find);
        cands := cands + cs;
      }
      i := i + 1;
    }
    assert vs[..i] == vs;
  }

  // ------------------------------------------------------------ ordering

  /** `kind_rank`: concrete kinds first. */
  function KindRank(k: Kind): nat
  {
    match k
    case Phone => 0
    case Url => 1
    case Email => 2
    case Days => 3
    case Other => 9
  }

  /** The sort key `(kind_rank, len(sentence))`, compared as a tuple. */
  predicate CandLe(a: Cand, b: Cand)
  {
    KindRank(a.kind) < KindRank(b.kind) || (KindRank(a.kind) == KindRank(b.kind) && |a.sentence| <= |b.sentence|)
  }

  function CandLeFn(): (Cand, Cand) -> bool { (a: Cand, b: Cand) => CandLe(a, b) }

  lemma CandLeTotal()
    ensures Sorting.TotalPreorder(CandLeFn())
  {
  }

  /** `cands.sort(key=...)`: stable, so equal keys keep harvest order. */
  function SortCands(cs: seq<Cand>): seq<Cand> { Sorting.SortBy(cs, CandLeFn()) }

  /** The sorted candidates are the harvested ones, ordered by kind and then by sentence length. */
  lemma SortCandsSpec(cs: seq<Cand>)
    ensures multiset(SortCands(cs)) == multiset(cs)
    ensures forall i, j :: 0 <= i < j < |SortCands(cs)| ==> CandLe(SortCands(cs)[i], SortCands(cs)[j])
  {
    CandLeTotal();
    Sorting.SortBySpec(cs, CandLeFn());
  }

  // ----------------------------------------------------------- dedupe

  /** `("contains", answer.lower())` or `("regex", pattern)` */
  datatype AnswerKey = ContainsKey(text: string) | RegexKey(pattern: string)

  /** The dedupe key of a candidate. */
  function KeyOf(c: Cand): Option<AnswerKey>
  {
    if c.contains.Some? && c.contains.value != [] then Some(ContainsKey(Lower(c.contains.value[0])))
    else if c.regex.Some? && c.regex.value != [] then Some(RegexKey(c.regex.value))
    else None
  }

  /** The factual question for a candidate and its question text. */
  function FactualOf(c: Cand, text: string): GQuestion
  {
    GQuestion(None, "factual", "in_manual", text,
      GGold(true, Some([c.parentId]),
            if c.contains.Some? && c.contains.value != [] then c.contains else None,
            if c.regex.Some? && c.regex.value != [] then c.regex else None,
            None))
  }

  /** The dedupe key read back from a question's gold. */
  function QuestionKey(q: GQuestion): Option<AnswerKey>
  {
    if q.gold.answerContains.Some? && q.gold.answerContains.value != [] then Some(ContainsKey(Lower(q.gold.answerContains.value[0])))
    else if q.gold.answerRegex.Some? && q.gold.answerRegex.value != [] then Some(RegexKey(q.gold.answerRegex.value))
    else None
  }

  /** No two questions share an answer key. */
  predicate DistinctKeys(qs: seq<GQuestion>)
  {
    forall i, j :: 0 <= i < j < |qs| && QuestionKey(qs[i]).Some? ==> QuestionKey(qs[i]) != QuestionKey(qs[j])
  }

  /**
   * The pick loop from candidate `cs[0]` on, with the questions and keys so
   * far: a seen key is skipped, as is a sentence that yields no question;
   * the loop leaves once `budget` questions are picked, a test made after
   * appending.
   */
  function PickLoop(cs: seq<Cand>, budget: int, picked: seq<GQuestion>, seen: set<AnswerKey>): seq<GQuestion>
    decreases |cs|
  {
    if cs == [] then picked
    else
      var c := cs[0];
      var key := KeyOf(c);
      if key.Some? && key.value in seen then PickLoop(cs[1..], budget, picked, seen)
      else match MakeQuestion(c.kind, c.sentence, c.contains)
        case None => PickLoop(cs[1..], budget, picked, seen)
        case Some(text) =>
          var more := picked + [FactualOf(c, text)];
          if |more| >= budget then more
          else PickLoop(cs[1..], budget, more, if key.Some? then seen + {key.value} else seen)
  }

  /** The factual questions picked from the sorted candidates. */
  function Pick(cs: seq<Cand>, budget: int): seq<GQuestion> { PickLoop(cs, budget, [], {}) }

  /** A question's key is its candidate's key. */
  lemma FactualKey(c: Cand, text: string)
    ensures QuestionKey(FactualOf(c, text)) == KeyOf(c)
  {
  }

  /** The loop never picks a second question with an answer key it has already used. */
  lemma {:induction false} PickLoopDistinct(cs: seq<Cand>, budget: int, picked: seq<GQuestion>, seen: set<AnswerKey>)
    requires DistinctKeys(picked)
    requires forall q :: q in picked && QuestionKey(q).Some? ==> QuestionKey(q).value in seen
    ensures DistinctKeys(PickLoop(cs, budget, picked, seen))
    decreases |cs|
  {
    if cs != [] {
      var c := cs[0];
      var key := KeyOf(c);
      if !(key.Some? && key.value in seen) {
        match MakeQuestion(c.kind, c.sentence, c.contains)
        case None =>
          PickLoopDistinct(cs[1..], budget, picked, seen);
        case Some(text) =>
          var q := FactualOf(c, text);
          var more := picked + [q];
          FactualKey(c, text);
          forall i, j | 0 <= i < j < |more| && QuestionKey(more[i]).Some?
            ensures QuestionKey(more[i]) != QuestionKey(more[j])
          {
            if j == |picked| {
              assert more[i] in picked;
            } else {
              assert more[i] == picked[i] && more[j] == picked[j];
            }
          }
          var seen' := if key.Some? then seen + {key.value} else seen;
          forall r | r in more && QuestionKey(r).Some? ensures QuestionKey(r).value in seen' {
            if r != q { assert r in picked; }
          }
          if |more| < budget {
            PickLoopDistinct(cs[1..], budget, more, seen');
          }
      } else {
        PickLoopDistinct(cs[1..], budget, picked, seen);
      }
    }
  }

  /** At most the budget (and at least one turn's worth) is picked, and the questions picked so far stay first. */
  lemma {:induction false} PickLoopBound(cs: seq<Cand>, budget: int, picked: seq<GQuestion>, seen: set<AnswerKey>)
    requires |picked| < CanonBound(budget)
    ensures |picked| <= |PickLoop(cs, budget, picked, seen)| <= CanonBound(budget)
    ensures PickLoop(cs, budget, picked, seen)[..|picked|] == picked
    decreases |cs|
  {
    if cs != [] {
      var c := cs[0];
      var key := KeyOf(c);
      if !(key.Some? && key.value in seen) {
        match MakeQuestion(c.kind, c.sentence, c.contains)
        case None =>
          PickLoopBound(cs[1..], budget, picked, seen);
        case Some(text) =>
          var more := picked + [FactualOf(c, text)];
          if |more| < budget {
            PickLoopBound(cs[1..], budget, more, if key.Some? then seen + {key.value} else seen);
            assert more[..|picked|] == picked;
          } else {
            assert more[..|picked|] == picked;
          }
      } else {
        PickLoopBound(cs[1..], budget, picked, seen);
      }
    }
  }

  /** Every picked question is the factual question of one of the candidates. */
  lemma {:induction false} PickLoopFrom(cs: seq<Cand>, budget: int, picked: seq<GQuestion>, seen: set<AnswerKey>, q: GQuestion)
    requires q in PickLoop(cs, budget, picked, seen) && q !in picked
    ensures exists c ::
      c in cs && MakeQuestion(c.kind, c.sentence, c.contains).Some? &&
      q == FactualOf(c, MakeQuestion(c.kind, c.sentence, c.contains).value)
    decreases |cs|
  {
    var c := cs[0];
    var key := KeyOf(c);
    if key.Some? && key.value in seen {
      PickLoopFrom(cs[1..], budget, picked, seen, q);
      var d :| d in cs[1..] && MakeQuestion(d.kind, d.sentence, d.contains).Some?
        && q == FactualOf(d, MakeQuestion(d.kind, d.sentence, d.contains).value);
      assert d in cs;
    } else {
      match MakeQuestion(c.kind, c.sentence, c.contains)
      case None =>
        PickLoopFrom(cs[1..], budget, picked, seen, q);
        var d :| d in cs[1..] && MakeQuestion(d.kind, d.sentence, d.contains).Some?
          && q == FactualOf(d, MakeQuestion(d.kind, d.sentence, d.contains).value);
        assert d in cs;
      case Some(text) =>
        var more := picked + [FactualOf(c, text)];
        if q != FactualOf(c, text) {
          assert q !in more;
          PickLoopFrom(cs[1..], budget, more, if key.Some? then seen + {key.value} else seen, q);
          var d :| d in cs[1..] && MakeQuestion(d.kind, d.sentence, d.contains).Some?
            && q == FactualOf(d, MakeQuestion(d.kind, d.sentence, d.contains).value);
          assert d in cs;
        }
    }
  }

  /**
   * The picked factual questions: no two share an answer key, there are at
   * most `budget` of them (one when the budget is below one), and each is
   * the question of a candidate, anchored to its paragraph.
   */
  lemma PickSpec(cs: seq<Cand>, budget: int)
    ensures DistinctKeys(Pick(cs, budget))
    ensures |Pick(cs, budget)| <= CanonBound(budget)
    ensures forall q :: q in Pick(cs, budget) ==>
      exists c :: c in cs && MakeQuestion(c.kind, c.sentence, c.contains).Some?
        && q == FactualOf(c, MakeQuestion(c.kind, c.sentence, c.contains).value)
  {
    PickLoopDistinct(cs, budget, [], {});
    PickLoopBound(cs, budget, [], {});
    forall q | q in Pick(cs, budget)
      ensures exists c ::
        c in cs && MakeQuestion(c.kind, c.sentence, c.contains).Some? &&
        q == FactualOf(c, MakeQuestion(c.kind, c.sentence, c.contains).value)
    {
      PickLoopFrom(cs, budget, [], {}, q);
    }
  }

  /** The pick loop of `main` over the sorted candidates. */
  method PickFactual(cs: seq<Cand>, budget: int) returns (picked: seq<GQuestion>)
    ensures picked == Pick(cs, budget)
  {
    picked := [];
    var seen: set<AnswerKey> := {};
    var i := 0;
    while i < |cs|
      invariant i <= |cs|
      invariant PickLoop(cs[i..], budget, picked, seen) == Pick(cs, budget)
    {
      var c := cs[i];
      assert cs[i..][0] == c && cs[i..][1..] == cs[i + 1..];
      var key := KeyOf(c);
      if key.Some? && key.value in seen {
        i := i + 1;
        continue;
      }
      var text := MakeQuestion(c.kind, c.sentence, c.contains);
      if text.None? {
        i := i + 1;
        continue;
      }
      picked := picked + [FactualOf(c, text.value)];
      if key.Some? {
        seen := seen + {key.value};
      }
      if |picked| >= budget {
        return;
      }
      i := i + 1;
    }
  }

  // ------------------------------------------------- out-of-manual probes

  /** An out-of-manual probe: its intent and its question. */
  datatype Probe = Probe(intent: string, question: string)

  const Probes: seq<Probe> := [
    Probe("factual", "What is the Medicare Part B prior authorization process in California?"),
    Probe("factual", "What are the Tricare behavioral health eligibility requirements in Texas?"),
    Probe("factual", "What is the Aetna commercial IOP authorization process in New York?"),
    Probe("factual", "What is the UnitedHealthcare Medicare Advantage policy for TMS in Ohio?"),
    Probe("factual", "What are BCBS of Florida credentialing timelines for group practices?"),
    Probe("canonical", "Write a summary of the latest changes to federal parity law in 2025."),
    Probe("canonical", "Explain how to implement a secure OAuth2 flow for a mobile app.")
  ]

  function ProbeQuestion(p: Probe): GQuestion
  {
    GQuestion(None, p.intent, "out_of_manual", p.question, GGold(false, None, None, None, None))
  }

  /** The first `n_out_of_manual` probes (Python slicing) as questions. */
  function ProbeQuestions(nOom: int): (r: seq<GQuestion>)
    ensures |r| == |Ranking.SliceTo(Probes, nOom)|
  {
    var ps := Ranking.SliceTo(Probes, nOom);
    seq(|ps|, k requires 0 <= k < |ps| => ProbeQuestion(ps[k]))
  }

  /** A probe expects abstention: `expect_in_manual` false and no parent ids or answer hints; at most seven. */
  lemma ProbeQuestionsSpec(nOom: int)
    ensures |ProbeQuestions(nOom)| <= |Probes|
    ensures nOom >= 0 ==> |ProbeQuestions(nOom)| == if nOom <= |Probes| then nOom else |Probes|
    ensures forall q :: q in ProbeQuestions(nOom) ==>
      q.bucket == "out_of_manual" && !q.gold.expectInManual && q.gold.parentIds.None?
      && q.gold.answerContains.None? && q.gold.answerRegex.None? && q.gold.crux.None?
  {
  }

  // ------------------------------------------------------------ numbering

  /** `f"G{i:03d}"` */
  function GenId(i: nat): string { "G" + Pad3(i) }

  /** Different positions get different ids. */
  lemma GenIdInjective(a: nat, b: nat)
    requires GenId(a) == GenId(b)
    ensures a == b
  {
    assert Pad3(a) == GenId(a)[1..] == GenId(b)[1..] == Pad3(b);
  }

  /** The questions numbered G001, G002, ... in order. */
  function WithIds(qs: seq<GQuestion>): (r: seq<GQuestion>)
    ensures |r| == |qs|
  {
    seq(|qs|, i requires 0 <= i < |qs| => qs[i].(id := Some(GenId(i + 1))))
  }

  /** The numbering changes nothing but the ids, and the ids are distinct. */
  lemma WithIdsSpec(qs: seq<GQuestion>)
    ensures forall i :: 0 <= i < |qs| ==> WithIds(qs)[i].(id := None) == qs[i].(id := None)
    ensures forall i, j :: 0 <= i < j < |qs| ==> WithIds(qs)[i].id != WithIds(qs)[j].id
  {
    forall i, j | 0 <= i < j < |qs| ensures WithIds(qs)[i].id != WithIds(qs)[j].id {
      if GenId(i + 1) == GenId(j + 1) { GenIdInjective(i + 1, j + 1); }
    }
  }

  /** `for i, q in enumerate(all_qs, start=1): q["id"] = ...` */
  method AssignIds(qs: seq<GQuestion>) returns (out: seq<GQuestion>)
    ensures out == WithIds(qs)
  {
    out := qs;
    var i := 0;
    while i < |qs|
      invariant i <= |qs| && |out| == |qs|
      invariant forall k :: 0 <= k < i ==> out[k] == qs[k].(id := Some(GenId(k + 1)))
      invariant forall k :: i <= k < |qs| ==> out[k] == qs[k]
    {
      out := out[i := out[i].(id := Some(GenId(i + 1)))];
      i := i + 1;
    }
  }

  // ----------------------------------------------------------------- main

  /** `(canonical + picked + out_qs)[:n]` */
  function Assemble(canon: seq<GQuestion>, picked: seq<GQuestion>, nOom: int, n: int): seq<GQuestion>
  {
    Ranking.SliceTo(canon + picked + ProbeQuestions(nOom), n)
  }

  /**
   * The question set of `main` from its canonical questions and its
   * harvested factual candidates: the candidates sorted and picked with the
   * budget left after the probes and the canonical questions, the three
   * lists joined and cut to `n`, then numbered.
   */
  function QuestionSet(canon: seq<GQuestion>, cands: seq<Cand>, n: int, nOom: int): seq<GQuestion>
  {
    WithIds(Assemble(canon, Pick(SortCands(cands), n - nOom - |canon|), nOom, n))
  }

  /** The body of `main` after the guards: the canonical and harvest loops, then the rest. */
  method BuildQuestionSet(vs: seq<PView>, find: string -> AutoLabel.Finds, n: int, nOom: int, nCanon: int)
    returns (qs: seq<GQuestion>)
    ensures qs == QuestionSet(Canonical(vs, nCanon), Harvest(vs, find), n, nOom)
  {
    var canon := SelectCanonical(vs, nCanon);
    var cands := HarvestCands(vs, find);
    qs := FinishSet(canon, cands, n, nOom);
  }

  /** The sort, the dedupe loop, the slice and the numbering loop. */
  method FinishSet(canon: seq<GQuestion>, cands: seq<Cand>, n: int, nOom: int) returns (qs: seq<GQuestion>)
    ensures qs == QuestionSet(canon, cands, n, nOom)
  {
    var sorted := SortCands(cands);
    var picked := PickFactual(sorted, n - nOom - |canon|);
    var all := Assemble(canon, picked, nOom, n);
    assert all == Assemble(canon, Pick(SortCands(cands), n - nOom - |canon|), nOom, n);
    qs := AssignIds(all);
  }

  /**
   * What the numbered set promises: at most `n` questions (Python slicing
   * for a negative `n`), numbered G001, G002, ... in order with distinct
   * ids, the leading ones the `canon` questions.
   */
  predicate NumberedSet(qs: seq<GQuestion>, canon: seq<GQuestion>, n: int)
  {
    (n >= 0 ==> |qs| <= n)
    && (forall i :: 0 <= i < |qs| ==> qs[i].id == Some(GenId(i + 1)))
    && (forall i, j :: 0 <= i < j < |qs| ==> qs[i].id != qs[j].id)
    && (forall i :: 0 <= i < |qs| && i < |canon| ==> qs[i] == canon[i].(id := Some(GenId(i + 1))))
  }

  /** Numbering the slice `(canon + picked + probes)[:n]` keeps that promise. */
  lemma NumberedAssembleSpec(canon: seq<GQuestion>, picked: seq<GQuestion>, nOom: int, n: int)
    ensures NumberedSet(WithIds(Assemble(canon, picked, nOom, n)), canon, n)
  {
    var all := Assemble(canon, picked, nOom, n);
    WithIdsSpec(all);
    assert all == (canon + picked + ProbeQuestions(nOom))[..|all|];
  }

  /** The set `main` writes keeps that promise, whatever the candidates. */
  lemma QuestionSetSpec(canon: seq<GQuestion>, cands: seq<Cand>, n: int, nOom: int)
    ensures NumberedSet(QuestionSet(canon, cands, n, nOom), canon, n)
  {
    NumberedAssembleSpec(canon, Pick(SortCands(cands), n - nOom - |canon|), nOom, n);
  }

  /** How `main` ends: a `SystemExit` message, or the question set it writes. */
  datatype GenOutcome = GenFailed(message: string) | Generated(questions: seq<GQuestion>)

  const AuthorityMissing := "config.filters.document_authority_level must be set"
  const DbUrlMissing := "Set CHAT_DATABASE_URL (or CHAT_RAG_DATABASE_URL)."
  const NoParagraphs := "No paragraphs found for authority_level"

  /** `main`. `fetch(url, authority)` stands for the database query of the authority's hierarchical paragraphs. */
  function GenerateRun(authority: Option<string>, ragUrl: Option<string>, chatUrl: Option<string>,
                       fetch: (string, string) -> seq<Corpus.Paragraph>, find: string -> AutoLabel.Finds,
                       n: int, nOom: int, nCanon: int): GenOutcome
  {
    if AutoLabel.OrEmpty(authority) == [] then GenFailed(AuthorityMissing)
    else if AutoLabel.DbUrl(ragUrl, chatUrl).None? then GenFailed(DbUrlMissing)
    else
      var paras := fetch(AutoLabel.DbUrl(ragUrl, chatUrl).value, AutoLabel.OrEmpty(authority));
      if paras == [] then GenFailed(NoParagraphs)
      else Generated(QuestionSet(Canonical(ViewsOf(paras), nCanon), Harvest(ViewsOf(paras), find), n, nOom))
  }

  /** The guards of `main` in their order; past them, the set is built from the fetched paragraphs. */
  lemma GenerateRunSpec(authority: Option<string>, ragUrl: Option<string>, chatUrl: Option<string>,
                        fetch: (string, string) -> seq<Corpus.Paragraph>, find: string -> AutoLabel.Finds,
                        n: int, nOom: int, nCanon: int)
    ensures AutoLabel.OrEmpty(authority) == [] ==>
      GenerateRun(authority, ragUrl, chatUrl, fetch, find, n, nOom, nCanon) == GenFailed(AuthorityMissing)
    ensures AutoLabel.OrEmpty(authority) != [] && AutoLabel.OrEmpty(ragUrl) == [] && AutoLabel.OrEmpty(chatUrl) == [] ==>
      GenerateRun(authority, ragUrl, chatUrl, fetch, find, n, nOom, nCanon) == GenFailed(DbUrlMissing)
    ensures GenerateRun(authority, ragUrl, chatUrl, fetch, find, n, nOom, nCanon).Generated? ==>
      AutoLabel.OrEmpty(authority) != [] && AutoLabel.DbUrl(ragUrl, chatUrl).Some?
      && fetch(AutoLabel.DbUrl(ragUrl, chatUrl).value, AutoLabel.OrEmpty(authority)) != []
      && (n >= 0 ==> |GenerateRun(authority, ragUrl, chatUrl, fetch, find, n, nOom, nCanon).questions| <= n)
  {
    if AutoLabel.OrEmpty(authority) != [] && AutoLabel.DbUrl(ragUrl, chatUrl).Some? {
      var paras := fetch(AutoLabel.DbUrl(ragUrl, chatUrl).value, AutoLabel.OrEmpty(authority));
      if paras != [] {
        QuestionSetSpec(Canonical(ViewsOf(paras), nCanon), Harvest(ViewsOf(paras), find), n, nOom);
      }
    }
  }
}
