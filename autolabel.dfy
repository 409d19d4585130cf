/**
 * `auto_label_questions.py`: bootstrap "weak gold" labels for an existing
 * question set from the manual's own text. The sentences of the authority's
 * hierarchical paragraphs are ranked by BM25 for each question; the
 * paragraph whose top-ranked sentences add up to the highest score becomes
 * the gold parent, and in-manual questions also get answer hints (factual
 * intent) or crux sentences (any other intent).
 *
 * Sentence splitting and tokenising are `Segment.SplitSentences` and
 * `Segment.Tokenize`: the script's `_split_sentences` and `_tokenize` are the
 * same rules as the BM25 command line's. The BM25 library, the regular
 * expressions of `_extract_answer_hints`, the database query and the YAML
 * files are parameters.
 */
module AutoLabel {
  import opened Text
  import opened Segment
  import Corpus
  import Ranking

  // ------------------------------------------------------------ corpus

  /** Units shorter than this stay out of the sentence corpus. */
  const MinSentLen := 30

  /** A corpus sentence: its paragraph, its text and its position among the paragraph's units. */
  datatype Sent = Sent(parentId: string, text: string, sentIdx: nat)

  /** The units of one paragraph that enter the corpus (defined from the last unit). */
  function KeptUnits(pid: string, units: seq<string>): seq<Sent>
    decreases |units|
  {
    if units == [] then []
    else
      var n := |units|;
      KeptUnits(pid, units[..n - 1])
      + (if |units[n - 1]| < MinSentLen then [] else [Sent(pid, units[n - 1], n - 1)])
  }

  /** A fetched paragraph as the corpus loop sees it: `str(p.get("id"))`, its stripped text and that text's units. */
  datatype ParaView = ParaView(pid: string, text: string, units: seq<string>)

  function View(p: Corpus.Paragraph): ParaView
  {
    var txt := Corpus.ParagraphText(p);
    ParaView(Corpus.CliPid(p), txt, SplitSentences(txt))
  }

  function Views(paras: seq<Corpus.Paragraph>): (vs: seq<ParaView>)
    ensures |vs| == |paras|
  {
    seq(|paras|, k requires 0 <= k < |paras| => View(paras[k]))
  }

  /** The sentences one paragraph contributes. */
  function ParaSents(v: ParaView): seq<Sent> { KeptUnits(v.pid, v.units) }

  /** The sentence corpus, paragraph by paragraph in fetch order. */
  function SentCorpus(vs: seq<ParaView>): seq<Sent>
    decreases |vs|
  {
    if vs == [] then [] else SentCorpus(vs[..|vs| - 1]) + ParaSents(vs[|vs| - 1])
  }

  /** `para_text_by_id`: a later paragraph with the same id replaces an earlier one. */
  function ParaTexts(vs: seq<ParaView>): map<string, string>
    decreases |vs|
  {
    if vs == [] then map[] else ParaTexts(vs[..|vs| - 1])[vs[|vs| - 1].pid := vs[|vs| - 1].text]
  }

  method KeepUnits(pid: string, units: seq<string>) returns (out: seq<Sent>)
    ensures out == KeptUnits(pid, units)
  {
    out := [];
    var si := 0;
    while si < |units|
      invariant 0 <= si <= |units|
      invariant out == KeptUnits(pid, units[..si])
    {
      assert units[..si + 1][..si] == units[..si];
      var st := units[si];
      if |st| >= MinSentLen {
        out := out + [Sent(pid, st, si)];
      }
      si := si + 1;
    }
    assert units[..si] == units;
  }

  /** One paragraph more: its sentences are appended and its text is recorded under its id. */
  lemma CorpusStep(vs: seq<ParaView>, i: nat)
    requires i < |vs|
    ensures SentCorpus(vs[..i + 1]) == SentCorpus(vs[..i]) + ParaSents(vs[i])
    ensures ParaTexts(vs[..i + 1]) == ParaTexts(vs[..i])[vs[i].pid := vs[i].text]
  {
    assert vs[..i + 1][..i] == vs[..i];
  }

  /** The corpus loop of `main`: the sentences and the paragraph texts by id. */
  method BuildCorpus(paras: seq<Corpus.Paragraph>) returns (sents: seq<Sent>, textById: map<string, string>)
    ensures sents == SentCorpus(Views(paras))
    ensures textById == ParaTexts(Views(paras))
  {
    ghost var vs := Views(paras);
    sents := [];
    textById := map[];
    var i := 0;
    while i < |paras|
      invariant 0 <= i <= |paras|
      invariant sents == SentCorpus(vs[..i])
      invariant textById == ParaTexts(vs[..i])
    {
      var v := View(paras[i]);
      CorpusStep(vs, i);
      textById := textById[v.pid := v.text];
      var kept := KeepUnits(v.pid, v.units);
      sents := sents + kept;
      i := i + 1;
    }
    assert vs[..i] == vs;
  }

  /** Every kept sentence is a long enough unit of its paragraph, at its own position; every such unit is kept. */
  lemma {:induction false} KeptUnitsSpec(pid: string, units: seq<string>)
    ensures forall s :: s in KeptUnits(pid, units) ==>
      s.parentId == pid && s.sentIdx < |units| && units[s.sentIdx] == s.text && |s.text| >= MinSentLen
    ensures forall j :: 0 <= j < |units| && |units[j]| >= MinSentLen ==> Sent(pid, units[j], j) in KeptUnits(pid, units)
    decreases |units|
  {
    if units != [] {
      var n := |units|;
      var init := units[..n - 1];
      KeptUnitsSpec(pid, init);
      assert forall j :: 0 <= j < n - 1 ==> init[j] == units[j];
    }
  }

  lemma {:induction false} SentCorpusMembers(vs: seq<ParaView>, s: Sent)
    ensures s in SentCorpus(vs) <==> exists k :: 0 <= k < |vs| && s in ParaSents(vs[k])
    decreases |vs|
  {
    if vs != [] {
      var init := vs[..|vs| - 1];
      SentCorpusMembers(init, s);
      assert forall k :: 0 <= k < |init| ==> init[k] == vs[k];
    }
  }

  /** `s` is unit `s.sentIdx` of paragraph `k`, which carries the sentence's parent id. */
  predicate UnitOf(vs: seq<ParaView>, k: int, s: Sent)
  {
    && 0 <= k < |vs|
    && vs[k].pid == s.parentId
    && s.sentIdx < |vs[k].units|
    && vs[k].units[s.sentIdx] == s.text
  }

  /** Each corpus sentence is a unit of at least `MinSentLen` characters of some paragraph, at its own position. */
  lemma SentCorpusSound(vs: seq<ParaView>, s: Sent)
    requires s in SentCorpus(vs)
    ensures |s.text| >= MinSentLen
    ensures exists k :: UnitOf(vs, k, s)
  {
    SentCorpusMembers(vs, s);
    var k :| 0 <= k < |vs| && s in ParaSents(vs[k]);
    KeptUnitsSpec(vs[k].pid, vs[k].units);
    assert UnitOf(vs, k, s);
  }

  /** Every unit of at least `MinSentLen` characters of every paragraph is in the corpus. */
  lemma SentCorpusComplete(vs: seq<ParaView>, k: nat, j: nat)
    requires k < |vs| && j < |vs[k].units| && |vs[k].units[j]| >= MinSentLen
    ensures Sent(vs[k].pid, vs[k].units[j], j) in SentCorpus(vs)
  {
    KeptUnitsSpec(vs[k].pid, vs[k].units);
    SentCorpusMembers(vs, Sent(vs[k].pid, vs[k].units[j], j));
  }

  /** The paragraph ids are exactly the keys of `para_text_by_id`. */
  lemma {:induction false} ParaTextsKeys(vs: seq<ParaView>, id: string)
    ensures id in ParaTexts(vs) <==> exists k :: 0 <= k < |vs| && vs[k].pid == id
    decreases |vs|
  {
    if vs != [] {
      var n := |vs|;
      var init := vs[..n - 1];
      ParaTextsKeys(init, id);
      assert forall k :: 0 <= k < n - 1 ==> init[k] == vs[k];
    }
  }

  /** An id maps to the stripped text of the last paragraph carrying it. */
  lemma {:induction false} ParaTextsLastWins(vs: seq<ParaView>, k: nat)
    requires k < |vs|
    requires forall l :: k < l < |vs| ==> vs[l].pid != vs[k].pid
    ensures vs[k].pid in ParaTexts(vs)
    ensures ParaTexts(vs)[vs[k].pid] == vs[k].text
    decreases |vs|
  {
    var n := |vs|;
    var init := vs[..n - 1];
    if k < n - 1 {
      assert init[k] == vs[k];
      forall l | k < l < |init| ensures init[l].pid != init[k].pid {
        assert init[l] == vs[l];
      }
      ParaTextsLastWins(init, k);
    }
  }

  // ------------------------------------------------------ answer hints

  /** What the script's regular expressions find in a sentence, each list in order of appearance. */
  datatype Finds = Finds(phones: seq<string>, urls: seq<string>, emails: seq<string>, days: seq<string>)

  /** The gold fields one call of `_extract_answer_hints` contributes: none, `answer_contains` or `answer_regex`. */
  datatype Hints = NoHints | AnswerContains(items: seq<string>) | AnswerRegex(pattern: string)

  predicate UrlTrail(c: char) { c == ')' || c == '.' || c == ',' || c == ';' }

  /** `s.rstrip(").,;")` */
  function StripUrlTrail(s: string): (r: string)
    ensures |r| <= |s| && r == s[..|r|]
    ensures r == [] || !UrlTrail(r[|r| - 1])
    ensures forall i :: |r| <= i < |s| ==> UrlTrail(s[i])
    decreases |s|
  {
    if s != [] && UrlTrail(s[|s| - 1]) then StripUrlTrail(s[..|s| - 1]) else s
  }

  /** At most this many day counts are kept. */
  const MaxDays := 2

  function Folded(uniq: seq<string>): set<string> { set u | u in uniq :: Lower(u) }

  /** One turn of the dedupe loop: keep the collapsed day unless its lower-case form is already there. */
  function DayStep(uniq: seq<string>, d: string): seq<string>
  {
    var dd := CollapseWs(d);
    if Lower(dd) in Folded(uniq) then uniq else uniq + [dd]
  }

  /** The dedupe loop over the day matches, stopping once two are kept (defined from the last match). */
  function KeepDays(days: seq<string>): seq<string>
    decreases |days|
  {
    if days == [] then []
    else
      var u := KeepDays(days[..|days| - 1]);
      if |u| >= MaxDays then u else DayStep(u, days[|days| - 1])
  }

  /** Once two days are kept, later matches change nothing: the loop may stop. */
  lemma {:induction false} KeepDaysSaturated(days: seq<string>, i: nat)
    requires i <= |days| && |KeepDays(days[..i])| >= MaxDays
    ensures KeepDays(days) == KeepDays(days[..i])
    decreases |days|
  {
    if i < |days| {
      var init := days[..|days| - 1];
      assert init[..i] == days[..i];
      KeepDaysSaturated(init, i);
    } else {
      assert days[..i] == days;
    }
  }

  /**
   * At most two days are kept, the first match always among them, no two
   * equal up to case, and each is a match with its whitespace collapsed.
   */
  lemma {:induction false} KeepDaysSpec(days: seq<string>)
    ensures |KeepDays(days)| <= MaxDays
    ensures days != [] ==> KeepDays(days) != [] && KeepDays(days)[0] == CollapseWs(days[0])
    ensures forall i, j :: 0 <= i < j < |KeepDays(days)| ==> Lower(KeepDays(days)[i]) != Lower(KeepDays(days)[j])
    ensures forall x :: x in KeepDays(days) ==> exists k :: 0 <= k < |days| && x == CollapseWs(days[k])
    decreases |days|
  {
    if days != [] {
      var init := days[..|days| - 1];
      var d := days[|days| - 1];
      KeepDaysSpec(init);
      var u := KeepDays(init);
      assert forall k :: 0 <= k < |init| ==> init[k] == days[k];
      if |u| < MaxDays && Lower(CollapseWs(d)) !in Folded(u) {
        forall i | 0 <= i < |u| ensures Lower(u[i]) != Lower(CollapseWs(d)) {
          assert u[i] in u;
        }
      }
    }
  }

  /** The dedupe loop of `_extract_answer_hints`, with its early `break`. */
  method DedupDays(days: seq<string>) returns (uniq: seq<string>)
    ensures uniq == KeepDays(days)
  {
    uniq := [];
    var i := 0;
    while i < |days|
      invariant 0 <= i <= |days|
      invariant uniq == KeepDays(days[..i])
      invariant |uniq| < MaxDays
    {
      assert days[..i + 1][..i] == days[..i];
      var dd := CollapseWs(days[i]);
      if Lower(dd) !in Folded(uniq) {
        uniq := uniq + [dd];
      }
      i := i + 1;
      if |uniq| >= MaxDays {
        KeepDaysSaturated(days, i);
        return;
      }
    }
    assert days[..i] == days;
  }

  /** The characters `re.escape` puts a backslash in front of. */
  predicate RegexSpecial(c: char)
  {
    c in "()[]{}?*+-|^$\\.&~# \t\n\r" || c == '\U{0B}' || c == '\U{0C}'
  }

  /** `re.escape(s)` */
  function Escape(s: string): string
    decreases |s|
  {
    if s == [] then []
    else (if RegexSpecial(s[0]) then ['\\', s[0]] else [s[0]]) + Escape(s[1..])
  }

  /** What a regex engine reads back from an escaped literal: a backslash stands for the next character. */
  function Unescape(s: string): string
    decreases |s|
  {
    if s == [] then []
    else if s[0] == '\\' && |s| >= 2 then [s[1]] + Unescape(s[2..])
    else [s[0]] + Unescape(s[1..])
  }

  /** The escaped phrase stands for the phrase itself. */
  lemma {:induction false} EscapeRoundTrip(s: string)
    ensures Unescape(Escape(s)) == s
    decreases |s|
  {
    if s != [] {
      EscapeRoundTrip(s[1..]);
      var head := if RegexSpecial(s[0]) then ['\\', s[0]] else [s[0]];
      var e := head + Escape(s[1..]);
      if RegexSpecial(s[0]) {
        assert e[0] == '\\' && e[1] == s[0] && e[2..] == Escape(s[1..]);
      } else {
        assert e[0] != '\\' && e[1..] == Escape(s[1..]);
      }
      assert s == [s[0]] + s[1..];
    }
  }

  const PhraseMinTokens := 8
  const PhraseTokens := 10
  const CaseInsensitive := "(?i)"

  /** `" ".join(toks[:10])` */
  function Phrase(toks: seq<string>): string { Join(Ranking.SliceTo(toks, PhraseTokens), " ") }

  /** `_extract_answer_hints(text)` over the matches `f` of its regular expressions in `text`. */
  function AnswerHints(text: string, f: Finds): Hints
  {
    if text == [] then NoHints
    else if f.phones != [] then AnswerContains([f.phones[0]])
    else if f.urls != [] then AnswerContains([StripUrlTrail(f.urls[0])])
    else if f.emails != [] then AnswerContains([f.emails[0]])
    else if f.days != [] then AnswerContains(KeepDays(f.days))
    else if |Tokenize(text)| >= PhraseMinTokens then AnswerRegex(CaseInsensitive + Escape(Phrase(Tokenize(text))))
    else NoHints
  }

  /** `_extract_answer_hints`, with its early returns. */
  method ExtractAnswerHints(text: string, f: Finds) returns (r: Hints)
    ensures r == AnswerHints(text, f)
  {
    if text == [] {
      return NoHints;
    }
    if f.phones != [] {
      return AnswerContains([f.phones[0]]);
    }
    if f.urls != [] {
      return AnswerContains([StripUrlTrail(f.urls[0])]);
    }
    if f.emails != [] {
      return AnswerContains([f.emails[0]]);
    }
    if f.days != [] {
      var uniq := DedupDays(f.days);
      return AnswerContains(uniq);
    }
    var toks := Tokenize(text);
    r := NoHints;
    if |toks| >= PhraseMinTokens {
      r := AnswerRegex(CaseInsensitive + Escape(Phrase(toks)));
    }
  }

  /**
   * Precedence of the hints: a phone number wins outright, then a URL (its
   * trailing `).,;` cut off, nothing else changed), then an e-mail address,
   * then up to two day counts distinct up to case; only a sentence with none
   * of these and at least eight tokens gets a regex, case-insensitive and
   * standing for its first ten tokens.
   */
  lemma AnswerHintsSpec(text: string, f: Finds)
    ensures text == [] ==> AnswerHints(text, f) == NoHints
    ensures text != [] && f.phones != [] ==> AnswerHints(text, f) == AnswerContains([f.phones[0]])
    ensures text != [] && f.phones == [] && f.urls != [] ==>
      && AnswerHints(text, f).AnswerContains?
      && |AnswerHints(text, f).items| == 1
      && f.urls[0] == AnswerHints(text, f).items[0] + f.urls[0][|AnswerHints(text, f).items[0]|..]
      && forall i :: |AnswerHints(text, f).items[0]| <= i < |f.urls[0]| ==> UrlTrail(f.urls[0][i])
    ensures text != [] && f.phones == [] && f.urls == [] && f.emails != [] ==> AnswerHints(text, f) == AnswerContains([f.emails[0]])
    ensures text != [] && f.phones == [] && f.urls == [] && f.emails == [] && f.days != [] ==>
      && AnswerHints(text, f).AnswerContains?
      && 1 <= |AnswerHints(text, f).items| <= MaxDays
      && AnswerHints(text, f).items[0] == CollapseWs(f.days[0])
      && forall i, j :: 0 <= i < j < |AnswerHints(text, f).items| ==>
        Lower(AnswerHints(text, f).items[i]) != Lower(AnswerHints(text, f).items[j])
    ensures AnswerHints(text, f).AnswerRegex? <==>
      text != [] && f.phones == [] && f.urls == [] && f.emails == [] && f.days == [] && |Tokenize(text)| >= PhraseMinTokens
    ensures AnswerHints(text, f).AnswerRegex? ==>
      && |AnswerHints(text, f).pattern| >= 4
      && AnswerHints(text, f).pattern[..4] == CaseInsensitive
      && Unescape(AnswerHints(text, f).pattern[4..])
         == Join(Tokenize(text)[..if |Tokenize(text)| < PhraseTokens then |Tokenize(text)| else PhraseTokens], " ")
  {
    var r := AnswerHints(text, f);
    if text != [] && f.phones == [] && f.urls == [] && f.emails == [] && f.days != [] {
      KeepDaysSpec(f.days);
    }
    if text != [] && f.phones == [] && f.urls != [] {
      var u := f.urls[0];
      var s := StripUrlTrail(u);
      assert u == s + u[|s|..];
    }
    if r.AnswerRegex? {
      var e := Escape(Phrase(Tokenize(text)));
      assert r.pattern == CaseInsensitive + e;
      assert r.pattern[4..] == e;
      EscapeRoundTrip(Phrase(Tokenize(text)));
    }
  }

  // ---------------------------------------------------- best paragraph

  /** The parent ids of the top-ranked sentences, in rank order. */
  function Parents(sents: seq<Sent>, idxs: seq<nat>): (ps: seq<string>)
    requires forall k :: 0 <= k < |idxs| ==> idxs[k] < |sents|
    ensures |ps| == |idxs|
  {
    seq(|idxs|, k requires 0 <= k < |idxs| => sents[idxs[k]].parentId)
  }

  /** The scores of the top-ranked sentences, in rank order. */
  function Scores(raw: seq<real>, idxs: seq<nat>): (sc: seq<real>)
    requires Ranking.InRange(raw, idxs)
    ensures |sc| == |idxs|
  {
    seq(|idxs|, k requires 0 <= k < |idxs| => raw[idxs[k]])
  }

  /** `agg[p] += v` on a `defaultdict(float)`. */
  function AddTo(m: map<string, real>, p: string, v: real): map<string, real>
  {
    m[p := (if p in m then m[p] else 0.0) + v]
  }

  /** The `agg` dictionary after `agg[parent] += score` for each top sentence (defined from the last one). */
  function AggOf(ps: seq<string>, sc: seq<real>): (m: map<string, real>)
    requires |ps| == |sc|
    ensures forall p :: p in m <==> p in ps
    decreases |ps|
  {
    if ps == [] then map[]
    else
      var n := |ps|;
      var m := AggOf(ps[..n - 1], sc[..n - 1]);
      assert ps == ps[..n - 1] + [ps[n - 1]];
      AddTo(m, ps[n - 1], sc[n - 1])
  }

  /** Reference definition: the total score of the top sentences whose parent is `p`. */
  function SumFor(ps: seq<string>, sc: seq<real>, p: string): real
    requires |ps| == |sc|
    decreases |ps|
  {
    if ps == [] then 0.0
    else
      var n := |ps|;
      SumFor(ps[..n - 1], sc[..n - 1], p) + (if ps[n - 1] == p then sc[n - 1] else 0.0)
  }

  lemma {:induction false} SumForAbsent(ps: seq<string>, sc: seq<real>, p: string)
    requires |ps| == |sc| && p !in ps
    ensures SumFor(ps, sc, p) == 0.0
    decreases |ps|
  {
    if ps != [] {
      assert ps == ps[..|ps| - 1] + [ps[|ps| - 1]];
      SumForAbsent(ps[..|ps| - 1], sc[..|ps| - 1], p);
    }
  }

  /** The accumulated dictionary holds, for each parent, the sum of its sentences' scores. */
  lemma {:induction false} AggIsSum(ps: seq<string>, sc: seq<real>, p: string)
    requires |ps| == |sc| && p in ps
    ensures AggOf(ps, sc)[p] == SumFor(ps, sc, p)
    decreases |ps|
  {
    var n := |ps|;
    var init := ps[..n - 1];
    assert ps == init + [ps[n - 1]];
    if p in init {
      AggIsSum(init, sc[..n - 1], p);
    } else {
      SumForAbsent(init, sc[..n - 1], p);
    }
  }

  /** `max(keys, key=m)`: a strictly larger value replaces the best so far, so the first maximum wins. */
  function ArgMaxFirst(keys: seq<string>, m: map<string, real>): (r: string)
    requires keys != [] && forall k :: k in keys ==> k in m
    ensures r in keys
    decreases |keys|
  {
    if |keys| == 1 then keys[0]
    else
      var b := ArgMaxFirst(keys[..|keys| - 1], m);
      if m[keys[|keys| - 1]] > m[b] then keys[|keys| - 1] else b
  }

  /** The result is a maximum, and every key before it is strictly smaller. */
  lemma {:induction false} ArgMaxFirstSpec(keys: seq<string>, m: map<string, real>)
    requires keys != [] && forall k :: k in keys ==> k in m
    ensures forall k :: k in keys ==> m[k] <= m[ArgMaxFirst(keys, m)]
    ensures forall i :: 0 <= i < IndexOf(keys, ArgMaxFirst(keys, m)) ==> m[keys[i]] < m[ArgMaxFirst(keys, m)]
    decreases |keys|
  {
    if |keys| > 1 {
      var n := |keys|;
      var init := keys[..n - 1];
      var y := keys[n - 1];
      assert keys == init + [y];
      ArgMaxFirstSpec(init, m);
      var b := ArgMaxFirst(init, m);
      if !(m[y] > m[b]) {
        IndexOfPrefix(init, [y], b);
        forall i | 0 <= i < IndexOf(keys, b) ensures m[keys[i]] < m[b] {
          assert keys[i] == init[i];
        }
      } else {
        forall i | 0 <= i < IndexOf(keys, y) ensures m[keys[i]] < m[y] {
          assert keys[i] in init;
        }
      }
    }
  }

  /**
   * `best_parent`: the arg-max of `agg` in its insertion order, which is the
   * order parents are first seen in the ranking. With no top sentence `agg`
   * is empty and so is the fallback `best_sent`, giving `None`.
   */
  function BestParent(ps: seq<string>, sc: seq<real>): Option<string>
    requires |ps| == |sc|
  {
    if ps == [] then None else Some(ArgMaxFirst(Dedup(ps), AggOf(ps, sc)))
  }

  /** No paragraph's summed score exceeds the best one's. */
  lemma BestParentIsMax(ps: seq<string>, sc: seq<real>, q: string)
    requires |ps| == |sc| && q in ps
    ensures BestParent(ps, sc).Some? && BestParent(ps, sc).value in ps
    ensures SumFor(ps, sc, q) <= SumFor(ps, sc, BestParent(ps, sc).value)
  {
    var r := ArgMaxFirst(Dedup(ps), AggOf(ps, sc));
    ArgMaxFirstSpec(Dedup(ps), AggOf(ps, sc));
    AggIsSum(ps, sc, r);
    AggIsSum(ps, sc, q);
  }

  /** A paragraph first seen earlier in the ranking than the best one scores strictly less. */
  lemma BestParentFirstSeen(ps: seq<string>, sc: seq<real>, q: string)
    requires |ps| == |sc| && q in ps
    requires BestParent(ps, sc).Some? && BestParent(ps, sc).value in ps
    requires IndexOf(ps, q) < IndexOf(ps, BestParent(ps, sc).value)
    ensures SumFor(ps, sc, q) < SumFor(ps, sc, BestParent(ps, sc).value)
  {
    var d := Dedup(ps);
    var m := AggOf(ps, sc);
    var r := ArgMaxFirst(d, m);
    DedupOrder(ps, q, r);
    ArgMaxFirstSpec(d, m);
    assert d[IndexOf(d, q)] == q;
    AggIsSum(ps, sc, r);
    AggIsSum(ps, sc, q);
  }

  /**
   * The best paragraph has the highest summed score over the top sentences,
   * and any paragraph first seen earlier in the ranking scores strictly
   * less: ties go to the paragraph seen first. There is one exactly when
   * some sentence made the top.
   */
  lemma BestParentSpec(ps: seq<string>, sc: seq<real>)
    requires |ps| == |sc|
    ensures BestParent(ps, sc).None? <==> ps == []
    ensures BestParent(ps, sc).Some? ==> BestParent(ps, sc).value in ps
    ensures BestParent(ps, sc).Some? ==> forall q :: q in ps ==> SumFor(ps, sc, q) <= SumFor(ps, sc, BestParent(ps, sc).value)
    ensures BestParent(ps, sc).Some? ==>
      forall q :: q in ps && IndexOf(ps, q) < IndexOf(ps, BestParent(ps, sc).value) ==>
        SumFor(ps, sc, q) < SumFor(ps, sc, BestParent(ps, sc).value)
  {
    if ps != [] {
      BestParentIsMax(ps, sc, ps[0]);
      forall q | q in ps ensures SumFor(ps, sc, q) <= SumFor(ps, sc, BestParent(ps, sc).value) {
        BestParentIsMax(ps, sc, q);
      }
      forall q | q in ps && IndexOf(ps, q) < IndexOf(ps, BestParent(ps, sc).value)
        ensures SumFor(ps, sc, q) < SumFor(ps, sc, BestParent(ps, sc).value)
      {
        BestParentFirstSeen(ps, sc, q);
      }
    }
  }

  /** What the aggregation loop leaves behind: the top sentence and the best paragraph. */
  datatype Pick = Pick(bestSent: Option<Sent>, bestParent: Option<string>)

  function PickOf(sents: seq<Sent>, raw: seq<real>, idxs: seq<nat>): Pick
    requires |raw| == |sents| && Ranking.InRange(raw, idxs)
  {
    Pick(if idxs == [] then None else Some(sents[idxs[0]]), BestParent(Parents(sents, idxs), Scores(raw, idxs)))
  }

  /** One turn of the `agg` loop on the prefix of length `i`. */
  lemma AggStep(ps: seq<string>, sc: seq<real>, i: nat)
    requires |ps| == |sc| && i < |ps|
    ensures AggOf(ps[..i + 1], sc[..i + 1]) == AddTo(AggOf(ps[..i], sc[..i]), ps[i], sc[i])
    ensures Dedup(ps[..i + 1]) == if ps[i] in AggOf(ps[..i], sc[..i]) then Dedup(ps[..i]) else Dedup(ps[..i]) + [ps[i]]
  {
    assert ps[..i + 1][..i] == ps[..i] && sc[..i + 1][..i] == sc[..i];
    assert ps[..i + 1][i] == ps[i] && sc[..i + 1][i] == sc[i];
  }

  /**
   * The `agg` loop of `main`, over the parent ids and scores of the top
   * sentences in rank order: running totals per parent, and the parents in
   * the dictionary's insertion order.
   */
  method Aggregate(ps: seq<string>, sc: seq<real>) returns (agg: map<string, real>, order: seq<string>)
    requires |ps| == |sc|
    ensures agg == AggOf(ps, sc)
    ensures order == Dedup(ps)
  {
    agg := map[];
    order := [];
    var i := 0;
    while i < |ps|
      invariant 0 <= i <= |ps|
      invariant agg == AggOf(ps[..i], sc[..i])
      invariant order == Dedup(ps[..i])
    {
      AggStep(ps, sc, i);
      if ps[i] !in agg {
        order := order + [ps[i]];
      }
      agg := AddTo(agg, ps[i], sc[i]);
      i := i + 1;
    }
    assert ps[..i] == ps && sc[..i] == sc;
  }

  /** `max(agg.items(), key=lambda kv: kv[1])[0]` */
  method MaxKey(order: seq<string>, agg: map<string, real>) returns (b: string)
    requires order != [] && forall k :: k in order ==> k in agg
    ensures b == ArgMaxFirst(order, agg)
  {
    b := order[0];
    var k := 1;
    while k < |order|
      invariant 1 <= k <= |order|
      invariant b == ArgMaxFirst(order[..k], agg)
    {
      assert order[..k + 1][..k] == order[..k];
      if agg[order[k]] > agg[b] {
        b := order[k];
      }
      k := k + 1;
    }
    assert order[..k] == order;
  }

  /** The best-paragraph step of `main` for one question. */
  method PickBest(sents: seq<Sent>, raw: seq<real>, idxs: seq<nat>) returns (pick: Pick)
    requires |raw| == |sents| && Ranking.InRange(raw, idxs)
    ensures pick == PickOf(sents, raw, idxs)
  {
    var bestSent: Option<Sent> := None;
    if idxs != [] {
      bestSent := Some(sents[idxs[0]]);
    }
    var agg, order := Aggregate(Parents(sents, idxs), Scores(raw, idxs));
    var bestParent: Option<string> := None;
    if order != [] {
      var b := MaxKey(order, agg);
      bestParent := Some(b);
    }
    pick := Pick(bestSent, bestParent);
  }

  // -------------------------------------------------------------- crux

  /** Crux sentences come from the paragraph's first units, */
  const CruxWindow := 8
  /** at most this many of them, */
  const CruxMax := 3
  /** each at least this long. */
  const CruxMinLen := 25

  function TokenSet(s: string): set<string> { set t | t in Tokenize(s) }

  /** `len(qset & set(_tokenize(st)))` */
  function Overlap(question: string, st: string): nat { |TokenSet(question) * TokenSet(st)| }

  /** `_split_sentences(para_txt)[:8]` */
  function CruxCands(paraTxt: string): seq<string> { Ranking.SliceTo(SplitSentences(paraTxt), CruxWindow) }

  /** The overlap of each candidate with the question, as the sort key. */
  function Overlaps(question: string, cands: seq<string>): (ov: seq<real>)
    ensures |ov| == |cands|
  {
    seq(|cands|, i requires 0 <= i < |cands| => Overlap(question, cands[i]) as real)
  }

  /**
   * `scored.sort(key=overlap, reverse=True)` then `[:3]`, as candidate
   * positions: Python's sort is stable, so the order is higher overlap
   * first and equal overlaps in candidate order.
   */
  function CruxTop(question: string, cands: seq<string>): (top: seq<nat>)
    ensures forall k :: 0 <= k < |top| ==> top[k] < |cands|
  {
    Ranking.TopIndices(Overlaps(question, cands), CruxMax)
  }

  predicate LongEnough(s: string) { s != [] && |s| >= CruxMinLen }

  /** `[s for _, s in scored[:3] if s and len(s) >= 25]` */
  function CruxOf(question: string, cands: seq<string>): seq<string>
  {
    var top := CruxTop(question, cands);
    Filter(seq(|top|, k requires 0 <= k < |top| => cands[top[k]]), (s: string) => LongEnough(s))
  }

  /**
   * The top three candidates by overlap: as many as there are candidates up
   * to three, distinct, and each ahead of every candidate left out, by a
   * higher overlap or by coming first on a tie.
   */
  lemma CruxTopSpec(question: string, cands: seq<string>)
    ensures |CruxTop(question, cands)| == if |cands| < CruxMax then |cands| else CruxMax
    ensures forall a, b :: 0 <= a < b < |CruxTop(question, cands)| ==> CruxTop(question, cands)[a] != CruxTop(question, cands)[b]
    ensures forall t, j :: t in CruxTop(question, cands) && 0 <= j < |cands| && j !in CruxTop(question, cands) ==>
      t < |cands|
      && (Overlap(question, cands[t]) > Overlap(question, cands[j])
        || (Overlap(question, cands[t]) == Overlap(question, cands[j]) && t < j))
  {
    var ov := Overlaps(question, cands);
    Ranking.TopIndicesSpec(ov, CruxMax);
    var top := CruxTop(question, cands);
    forall a, b | 0 <= a < b < |top| ensures top[a] != top[b] {
      assert Ranking.Before(ov, top[a], top[b]);
    }
    forall t, j | t in top && 0 <= j < |cands| && j !in top
      ensures Overlap(question, cands[t]) > Overlap(question, cands[j])
        || (Overlap(question, cands[t]) == Overlap(question, cands[j]) && t < j)
    {
      assert Ranking.Before(ov, t, j);
    }
  }

  /**
   * The crux: at most three sentences, each a candidate of the top three
   * by overlap that is at least `CruxMinLen` long, and every such top
   * candidate included.
   */
  lemma CruxOfSpec(question: string, cands: seq<string>)
    ensures |CruxOf(question, cands)| <= CruxMax
    ensures forall s :: s in CruxOf(question, cands) <==>
      (LongEnough(s) && exists k :: 0 <= k < |CruxTop(question, cands)| && cands[CruxTop(question, cands)[k]] == s)
  {
    var top := CruxTop(question, cands);
    var picked := seq(|top|, k requires 0 <= k < |top| => cands[top[k]]);
    assert |top| <= CruxMax;
    forall s ensures s in picked <==> exists k :: 0 <= k < |top| && cands[top[k]] == s {
      if s in picked {
        var k :| 0 <= k < |picked| && picked[k] == s;
        assert cands[top[k]] == s;
      }
      if exists k :: 0 <= k < |top| && cands[top[k]] == s {
        var k :| 0 <= k < |top| && cands[top[k]] == s;
        assert picked[k] == s;
      }
    }
  }

  /** The `scored` loop and the crux comprehension of `main`, over the candidates `_split_sentences(para_txt)[:8]`. */
  method SelectCrux(question: string, cands: seq<string>) returns (crux: seq<string>)
    ensures crux == CruxOf(question, cands)
  {
    var scored: seq<real> := [];
    var i := 0;
    while i < |cands|
      invariant 0 <= i <= |cands|
      invariant |scored| == i
      invariant forall k :: 0 <= k < i ==> scored[k] == Overlap(question, cands[k]) as real
    {
      scored := scored + [Overlap(question, cands[i]) as real];
      i := i + 1;
    }
    assert scored == Overlaps(question, cands);
    var top := Ranking.TopIndices(scored, CruxMax);
    crux := Filter(seq(|top|, k requires 0 <= k < |top| => cands[top[k]]), (s: string) => LongEnough(s));
  }

  // -------------------------------------------------------------- gold

  /** A YAML value in a gold mapping, as far as labelling looks at it. */
  datatype YVal = YBool(b: bool) | YStrs(items: seq<string>) | YStr(s: string) | YOther

  /** `q.get("gold")`: missing, a mapping, or any other value. */
  datatype GoldIn = GoldAbsent | GoldDict(fields: map<string, YVal>) | GoldNotDict

  /** The fields of a question entry that labelling reads, and its gold. */
  datatype LQuestion = LQuestion(bucket: Option<string>, intent: Option<string>, question: Option<string>, gold: GoldIn)

  /** An item of the `questions` list: a mapping, or anything else (on which `q.get` fails). */
  datatype LEntry = LNotMapping | LMapping(q: LQuestion)

  const ExpectKey := "expect_in_manual"
  const ParentsKey := "parent_metadata_ids"
  const ContainsKey := "answer_contains"
  const RegexKey := "answer_regex"
  const CruxKey := "crux_contains"
  const OutOfManual := "out_of_manual"
  const Factual := "factual"

  function OrEmpty(o: Option<string>): string { if o.Some? then o.value else "" }

  /** `(q.get("bucket") or "").strip().lower()` */
  function BucketOf(q: LQuestion): string { Lower(Trim(OrEmpty(q.bucket))) }

  /** `(q.get("intent") or "").strip().lower()` */
  function IntentOf(q: LQuestion): string { Lower(Trim(OrEmpty(q.intent))) }

  /** `q.get("question") or ""` */
  function QuestionText(q: LQuestion): string { OrEmpty(q.question) }

  /** `expect_in_manual`, from the bucket alone. */
  predicate InManual(q: LQuestion) { BucketOf(q) != OutOfManual }

  /** `dict(q.get("gold") or {}) if isinstance(q.get("gold"), dict) else {}` */
  function BaseGold(g: GoldIn): map<string, YVal> { if g.GoldDict? then g.fields else map[] }

  /** `gold.update(hints)` */
  function ApplyHints(g: map<string, YVal>, h: Hints): map<string, YVal>
  {
    match h
    case NoHints => g
    case AnswerContains(items) => g[ContainsKey := YStrs(items)]
    case AnswerRegex(pattern) => g[RegexKey := YStr(pattern)]
  }

  /** `if best_parent:` */
  predicate HasParent(pick: Pick) { pick.bestParent.Some? && pick.bestParent.value != [] }

  /** `para_text_by_id.get(str(best_parent), "") if best_parent else ""` */
  function ParaTextOf(texts: map<string, string>, pick: Pick): string
  {
    if HasParent(pick) && pick.bestParent.value in texts then texts[pick.bestParent.value] else ""
  }

  /**
   * The gold mapping `main` writes back for one question. `crux[:3]` is
   * left out: the crux never has more than three sentences.
   */
  function LabelGold(q: LQuestion, pick: Pick, texts: map<string, string>, find: string -> Finds): map<string, YVal>
  {
    var g0 := BaseGold(q.gold)[ExpectKey := YBool(InManual(q))];
    var g1 := if HasParent(pick) then g0[ParentsKey := YStrs([pick.bestParent.value])] else g0;
    if !InManual(q) then g1
    else if IntentOf(q) == Factual then
      (if pick.bestSent.Some? then ApplyHints(g1, AnswerHints(pick.bestSent.value.text, find(pick.bestSent.value.text)))
       else g1)
    else
      var crux := CruxOf(QuestionText(q), CruxCands(ParaTextOf(texts, pick)));
      if crux != [] then g1[CruxKey := YStrs(crux)] else g1
  }

  /** `bm25.get_scores(_tokenize(question))`, the library's scores over the `n` corpus sentences. */
  function RawScores(score: Ranking.Scorer, question: string, n: nat): (raw: seq<real>)
    ensures |raw| == n
  {
    seq(n, j requires 0 <= j < n => score(Tokenize(question), j))
  }

  /** `idxs`, then the best sentence and paragraph for one question. */
  function PickFor(q: LQuestion, sents: seq<Sent>, score: Ranking.Scorer, topN: int): Pick
  {
    var raw := RawScores(score, QuestionText(q), |sents|);
    PickOf(sents, raw, Ranking.TopIndices(raw, topN))
  }

  /** `q["gold"] = gold` */
  function LabelQuestion(q: LQuestion, sents: seq<Sent>, texts: map<string, string>, score: Ranking.Scorer,
                         find: string -> Finds, topN: int): LQuestion
  {
    q.(gold := GoldDict(LabelGold(q, PickFor(q, sents, score, topN), texts, find)))
  }

  /** The body of the question loop of `main`. */
  method LabelOne(q: LQuestion, sents: seq<Sent>, texts: map<string, string>, score: Ranking.Scorer,
                  find: string -> Finds, topN: int) returns (r: LQuestion)
    ensures r == LabelQuestion(q, sents, texts, score, find, topN)
  {
    var raw := RawScores(score, QuestionText(q), |sents|);
    var idxs := Ranking.TopIndices(raw, topN);
    var pick := PickBest(sents, raw, idxs);
    var gold := BaseGold(q.gold);
    gold := gold[ExpectKey := YBool(InManual(q))];
    if HasParent(pick) {
      gold := gold[ParentsKey := YStrs([pick.bestParent.value])];
    }
    if InManual(q) {
      if IntentOf(q) == Factual {
        if pick.bestSent.Some? {
          var text := pick.bestSent.value.text;
          var hints := ExtractAnswerHints(text, find(text));
          gold := ApplyHints(gold, hints);
        }
      } else {
        var crux := SelectCrux(QuestionText(q), CruxCands(ParaTextOf(texts, pick)));
        if crux != [] {
          gold := gold[CruxKey := YStrs(crux)];
        }
      }
    }
    r := q.(gold := GoldDict(gold));
  }

  /** Key `k` is present in `a` and `b` alike, with the same value. */
  predicate Unchanged(a: map<string, YVal>, b: map<string, YVal>, k: string)
  {
    (k in a <==> k in b) && (k in a ==> a[k] == b[k])
  }

  /** `expect_in_manual` is recomputed from the bucket and overwrites whatever the gold held. */
  lemma ExpectationFromBucket(q: LQuestion, pick: Pick, texts: map<string, string>, find: string -> Finds)
    ensures ExpectKey in LabelGold(q, pick, texts, find)
    ensures LabelGold(q, pick, texts, find)[ExpectKey] == YBool(BucketOf(q) != OutOfManual)
  {
    var g0 := BaseGold(q.gold)[ExpectKey := YBool(InManual(q))];
    var g1 := if HasParent(pick) then g0[ParentsKey := YStrs([pick.bestParent.value])] else g0;
    assert ExpectKey in g1 && g1[ExpectKey] == YBool(InManual(q));
  }

  /** The best paragraph is written as the only parent id, for in- and out-of-manual questions alike. */
  lemma ParentAlwaysWritten(q: LQuestion, pick: Pick, texts: map<string, string>, find: string -> Finds)
    ensures HasParent(pick) ==> LabelGold(q, pick, texts, find)[ParentsKey] == YStrs([pick.bestParent.value])
    ensures !HasParent(pick) ==> Unchanged(BaseGold(q.gold), LabelGold(q, pick, texts, find), ParentsKey)
  {
  }

  /** Out-of-manual questions get no answer or crux hints: those keys stay as they were. */
  lemma OutOfManualAbstains(q: LQuestion, pick: Pick, texts: map<string, string>, find: string -> Finds)
    requires !InManual(q)
    ensures Unchanged(BaseGold(q.gold), LabelGold(q, pick, texts, find), ContainsKey)
    ensures Unchanged(BaseGold(q.gold), LabelGold(q, pick, texts, find), RegexKey)
    ensures Unchanged(BaseGold(q.gold), LabelGold(q, pick, texts, find), CruxKey)
  {
  }

  /**
   * A factual in-manual question gets the hints of its top sentence: at most
   * one of `answer_contains` / `answer_regex` is written, and the crux is
   * left alone.
   */
  lemma FactualGetsOneHint(q: LQuestion, pick: Pick, texts: map<string, string>, find: string -> Finds)
    requires InManual(q) && IntentOf(q) == Factual
    ensures Unchanged(BaseGold(q.gold), LabelGold(q, pick, texts, find), CruxKey)
    ensures Unchanged(BaseGold(q.gold), LabelGold(q, pick, texts, find), ContainsKey)
      || Unchanged(BaseGold(q.gold), LabelGold(q, pick, texts, find), RegexKey)
    ensures pick.bestSent.Some? && !Unchanged(BaseGold(q.gold), LabelGold(q, pick, texts, find), ContainsKey) ==>
      LabelGold(q, pick, texts, find)[ContainsKey]
        == YStrs(AnswerHints(pick.bestSent.value.text, find(pick.bestSent.value.text)).items)
  {
  }

  /** Any other in-manual question gets crux sentences when there are some, and no answer hints. */
  lemma CanonicalGetsCrux(q: LQuestion, pick: Pick, texts: map<string, string>, find: string -> Finds)
    requires InManual(q) && IntentOf(q) != Factual
    ensures Unchanged(BaseGold(q.gold), LabelGold(q, pick, texts, find), ContainsKey)
    ensures Unchanged(BaseGold(q.gold), LabelGold(q, pick, texts, find), RegexKey)
    ensures CruxOf(QuestionText(q), CruxCands(ParaTextOf(texts, pick))) != [] ==>
      LabelGold(q, pick, texts, find)[CruxKey] == YStrs(CruxOf(QuestionText(q), CruxCands(ParaTextOf(texts, pick))))
    ensures CruxOf(QuestionText(q), CruxCands(ParaTextOf(texts, pick))) == [] ==>
      Unchanged(BaseGold(q.gold), LabelGold(q, pick, texts, find), CruxKey)
  {
  }

  /** Keys labelling does not own are carried over untouched. */
  lemma OtherKeysKept(q: LQuestion, pick: Pick, texts: map<string, string>, find: string -> Finds, k: string)
    requires k != ExpectKey && k != ParentsKey && k != ContainsKey && k != RegexKey && k != CruxKey
    ensures Unchanged(BaseGold(q.gold), LabelGold(q, pick, texts, find), k)
  {
  }

  /**
   * The best sentence is the top BM25 hit; there is none exactly when the
   * `[:topN]` slice of the ranking is empty (Python slicing, so a negative
   * `topN` drops that many from the end).
   */
  lemma PickForSpec(q: LQuestion, sents: seq<Sent>, score: Ranking.Scorer, topN: int)
    ensures PickFor(q, sents, score, topN).bestSent.None? <==>
      (if topN >= 0 then topN == 0 || sents == [] else |sents| <= -topN)
    ensures PickFor(q, sents, score, topN).bestSent.Some? ==>
      var raw := RawScores(score, QuestionText(q), |sents|);
      var top := Ranking.TopIndices(raw, topN);
      |top| > 0 && PickFor(q, sents, score, topN).bestSent.value == sents[top[0]] &&
      forall j :: 0 <= j < |sents| ==> raw[j] <= raw[top[0]]
  {
    var raw := RawScores(score, QuestionText(q), |sents|);
    var top := Ranking.TopIndices(raw, topN);
    Ranking.TopIndicesSpec(raw, topN);
    if top != [] {
      Ranking.TopIsMax(raw, topN);
    }
  }

  /** There is a best paragraph exactly when there is a best sentence, and it is the best sentence's paragraph or one scoring at least as much. */
  lemma PickForParent(q: LQuestion, sents: seq<Sent>, score: Ranking.Scorer, topN: int)
    ensures PickFor(q, sents, score, topN).bestParent.Some? <==> PickFor(q, sents, score, topN).bestSent.Some?
    ensures PickFor(q, sents, score, topN).bestParent.Some? ==>
      var raw := RawScores(score, QuestionText(q), |sents|);
      var top := Ranking.TopIndices(raw, topN);
      var p := PickFor(q, sents, score, topN).bestParent.value;
      p in Parents(sents, top) &&
      forall k :: 0 <= k < |top| ==>
        SumFor(Parents(sents, top), Scores(raw, top), sents[top[k]].parentId) <= SumFor(Parents(sents, top), Scores(raw, top), p)
  {
    var raw := RawScores(score, QuestionText(q), |sents|);
    var top := Ranking.TopIndices(raw, topN);
    var ps := Parents(sents, top);
    var sc := Scores(raw, top);
    if ps != [] {
      BestParentIsMax(ps, sc, ps[0]);
      var p := BestParent(ps, sc).value;
      forall k | 0 <= k < |top|
        ensures SumFor(ps, sc, sents[top[k]].parentId) <= SumFor(ps, sc, p)
      {
        assert ps[k] == sents[top[k]].parentId;
        BestParentIsMax(ps, sc, ps[k]);
      }
    }
  }

  /** The loop body of `main` for one item of `questions`: a non-mapping item fails `q.get`. */
  function LabelEntry(sents: seq<Sent>, texts: map<string, string>, score: Ranking.Scorer,
                      find: string -> Finds, topN: int): LEntry -> Option<LQuestion>
  {
    (e: LEntry) => if e.LMapping? then Some(LabelQuestion(e.q, sents, texts, score, find, topN)) else None
  }

  /** The whole question list labelled, or `None` when an item is not a mapping. */
  function LabelEntries(entries: seq<LEntry>, sents: seq<Sent>, texts: map<string, string>, score: Ranking.Scorer,
                        find: string -> Finds, topN: int): Option<seq<LQuestion>>
  {
    AllSome(entries, LabelEntry(sents, texts, score, find, topN))
  }

  /** One item of `questions`: `q.get` fails on a non-mapping, otherwise the question is labelled. */
  method LabelItem(e: LEntry, sents: seq<Sent>, texts: map<string, string>, score: Ranking.Scorer,
                   find: string -> Finds, topN: int) returns (r: Option<LQuestion>)
    ensures r == LabelEntry(sents, texts, score, find, topN)(e)
  {
    if e.LNotMapping? {
      return None;
    }
    var q := LabelOne(e.q, sents, texts, score, find, topN);
    r := Some(q);
  }

  /** One pass of `for q in qs:` over a prefix that has been labelled so far. */
  method LabelStep(entries: seq<LEntry>, i: nat, done: seq<LQuestion>, sents: seq<Sent>, texts: map<string, string>,
                   score: Ranking.Scorer, find: string -> Finds, topN: int) returns (r: Option<LQuestion>)
    requires i < |entries| && AllSome(entries[..i], LabelEntry(sents, texts, score, find, topN)) == Some(done)
    ensures r.None? ==> LabelEntries(entries, sents, texts, score, find, topN).None?
    ensures r.Some? ==> AllSome(entries[..i + 1], LabelEntry(sents, texts, score, find, topN)) == Some(done + [r.value])
  {
    var f := LabelEntry(sents, texts, score, find, topN);
    r := LabelItem(entries[i], sents, texts, score, find, topN);
    if r.None? {
      AllSomeFails(entries, f, i);
    } else {
      AllSomeStep(entries, f, i, done);
    }
  }

  /** `for q in qs:` */
  method LabelAll(entries: seq<LEntry>, sents: seq<Sent>, texts: map<string, string>, score: Ranking.Scorer,
                  find: string -> Finds, topN: int) returns (out: Option<seq<LQuestion>>)
    ensures out == LabelEntries(entries, sents, texts, score, find, topN)
  {
    var done: seq<LQuestion> := [];
    var i := 0;
    while i < |entries|
      invariant i <= |entries|
      invariant AllSome(entries[..i], LabelEntry(sents, texts, score, find, topN)) == Some(done)
    {
      var r := LabelStep(entries, i, done, sents, texts, score, find, topN);
      if r.None? {
        return None;
      }
      done := done + [r.value];
      i := i + 1;
    }
    assert entries[..i] == entries;
    out := Some(done);
  }

  /** Labelling keeps every question's own fields and replaces its gold with a mapping. */
  lemma LabelEntriesSpec(entries: seq<LEntry>, sents: seq<Sent>, texts: map<string, string>, score: Ranking.Scorer,
                         find: string -> Finds, topN: int)
    ensures LabelEntries(entries, sents, texts, score, find, topN).None? <==>
      exists i :: 0 <= i < |entries| && entries[i].LNotMapping?
    ensures LabelEntries(entries, sents, texts, score, find, topN).Some? ==>
      var out := LabelEntries(entries, sents, texts, score, find, topN).value;
      |out| == |entries| &&
      forall i :: 0 <= i < |entries| ==>
        entries[i].LMapping? &&
        out[i] == entries[i].q.(gold := GoldDict(LabelGold(entries[i].q, PickFor(entries[i].q, sents, score, topN), texts, find)))
  {
    var f := LabelEntry(sents, texts, score, find, topN);
    AllSomeSpec(entries, f);
    assert forall i :: 0 <= i < |entries| ==> (f(entries[i]).None? <==> entries[i].LNotMapping?);
  }

  // -------------------------------------------------------------- main

  /** `data.get("questions") or []`: falsy, some other value, or a non-empty list. */
  datatype QuestionsField = QsFalsy | QsNotList | QsList(entries: seq<LEntry>)

  /** How `main` ends: a `SystemExit` or exception message, or the labelled question list it writes. */
  datatype LabelOutcome = LabelFailed(message: string) | Labeled(questions: seq<LQuestion>)

  const AuthorityMissing := "config.filters.document_authority_level must be set"
  const DbUrlMissing := "Set CHAT_DATABASE_URL (or CHAT_RAG_DATABASE_URL) to read published_rag_metadata."
  const QuestionsMissing := "questions.yaml missing `questions: [...]`"
  const NoParagraphs := "No paragraphs found for authority_level; did you sync to dev Chat Postgres?"
  const NotMapping := "AttributeError"
  const EmptyCorpus := "ZeroDivisionError"

  /** `os.getenv("CHAT_RAG_DATABASE_URL") or os.getenv("CHAT_DATABASE_URL")`, `None` when both are unset or empty. */
  function DbUrl(ragUrl: Option<string>, chatUrl: Option<string>): (r: Option<string>)
    ensures r.Some? ==> r.value != []
    ensures r.None? <==> OrEmpty(ragUrl) == [] && OrEmpty(chatUrl) == []
    ensures OrEmpty(ragUrl) != [] ==> r == ragUrl
  {
    if OrEmpty(ragUrl) != [] then ragUrl
    else if OrEmpty(chatUrl) != [] then chatUrl
    else None
  }

  /**
   * `main`. `fetch(url, authority)` stands for the database query of the
   * authority's hierarchical paragraphs; `score` for BM25 over the kept
   * sentences, which raises `ZeroDivisionError` on an empty corpus.
   */
  function LabelRun(authority: Option<string>, ragUrl: Option<string>, chatUrl: Option<string>, qs: QuestionsField,
                    fetch: (string, string) -> seq<Corpus.Paragraph>, score: Ranking.Scorer,
                    find: string -> Finds, topN: int): LabelOutcome
  {
    if OrEmpty(authority) == [] then LabelFailed(AuthorityMissing)
    else if DbUrl(ragUrl, chatUrl).None? then LabelFailed(DbUrlMissing)
    else if !qs.QsList? || qs.entries == [] then LabelFailed(QuestionsMissing)
    else
      var paras := fetch(DbUrl(ragUrl, chatUrl).value, OrEmpty(authority));
      if paras == [] then LabelFailed(NoParagraphs)
      else
        var vs := Views(paras);
        var sents := SentCorpus(vs);
        if sents == [] then LabelFailed(EmptyCorpus)
        else match LabelEntries(qs.entries, sents, ParaTexts(vs), score, find, topN)
          case None => LabelFailed(NotMapping)
          case Some(out) => Labeled(out)
  }

  /** The guards of `main` in their order; a success labels every question. */
  lemma LabelRunSpec(authority: Option<string>, ragUrl: Option<string>, chatUrl: Option<string>, qs: QuestionsField,
                     fetch: (string, string) -> seq<Corpus.Paragraph>, score: Ranking.Scorer,
                     find: string -> Finds, topN: int)
    ensures OrEmpty(authority) == [] ==> LabelRun(authority, ragUrl, chatUrl, qs, fetch, score, find, topN) == LabelFailed(AuthorityMissing)
    ensures OrEmpty(authority) != [] && OrEmpty(ragUrl) == [] && OrEmpty(chatUrl) == [] ==>
      LabelRun(authority, ragUrl, chatUrl, qs, fetch, score, find, topN) == LabelFailed(DbUrlMissing)
    ensures OrEmpty(authority) != [] && DbUrl(ragUrl, chatUrl).Some? && (!qs.QsList? || qs.entries == []) ==>
      LabelRun(authority, ragUrl, chatUrl, qs, fetch, score, find, topN) == LabelFailed(QuestionsMissing)
    ensures LabelRun(authority, ragUrl, chatUrl, qs, fetch, score, find, topN).Labeled? ==>
      OrEmpty(authority) != [] && DbUrl(ragUrl, chatUrl).Some? && qs.QsList? &&
      |LabelRun(authority, ragUrl, chatUrl, qs, fetch, score, find, topN).questions| == |qs.entries| > 0 &&
      fetch(DbUrl(ragUrl, chatUrl).value, OrEmpty(authority)) != [] &&
      forall i :: 0 <= i < |qs.entries| ==>
        qs.entries[i].LMapping? &&
        LabelRun(authority, ragUrl, chatUrl, qs, fetch, score, find, topN).questions[i].question == qs.entries[i].q.question &&
        LabelRun(authority, ragUrl, chatUrl, qs, fetch, score, find, topN).questions[i].bucket == qs.entries[i].q.bucket &&
        LabelRun(authority, ragUrl, chatUrl, qs, fetch, score, find, topN).questions[i].intent == qs.entries[i].q.intent &&
        LabelRun(authority, ragUrl, chatUrl, qs, fetch, score, find, topN).questions[i].gold.GoldDict?
  {
    if OrEmpty(authority) != [] && DbUrl(ragUrl, chatUrl).Some? && qs.QsList? && qs.entries != [] {
      var paras := fetch(DbUrl(ragUrl, chatUrl).value, OrEmpty(authority));
      if paras != [] {
        var vs := Views(paras);
        LabelEntriesSpec(qs.entries, SentCorpus(vs), ParaTexts(vs), score, find, topN);
      }
    }
  }
}
