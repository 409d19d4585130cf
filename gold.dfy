/**
 * Gold labels of an evaluation question and the rule that decides whether
 * a retrieved sentence matches them (`_gold_expect_in_manual`,
 * `_gold_match_candidate`; the studio service and the BM25 CLI carry
 * identical copies).
 *
 * Gold is loose JSON. A field is modelled by the shapes the matcher tells
 * apart; a list element is modelled by its truthiness and its `str()`.
 * The regular-expression engine is a parameter that may report the
 * pattern invalid.
 */
module Gold {
  import opened Text
  import opened Corpus

  /** A JSON list element: whether it is truthy, and `str(x)`. */
  datatype Elem = Elem(truthy: bool, text: string)

  /** One gold field: absent or null, a string, a list, or another value. */
  datatype Field = Missing | Str(s: string) | List(items: seq<Elem>) | Other

  datatype GoldFields = GoldFields(
    expectInManual: Option<bool>,   // present key, with the truthiness of its value
    parentIds: Field,
    answerContains: Field,
    cruxContains: Field,
    answerRegex: Field)

  /** `q.get("gold") or {}`: a falsy gold is an empty dict; a truthy non-dict is `NotDict`. */
  datatype GoldValue = NotDict | Dict(fields: GoldFields)

  datatype Question = Question(
    id: Option<string>,
    question: Option<string>,
    intent: Option<string>,
    bucket: Option<string>,
    gold: GoldValue)

  /** What the regular-expression engine reports for `re.search(rx, text, IGNORECASE)`. */
  datatype RegexOutcome = RxFound | RxNotFound | RxInvalid

  type RegexSearch = (string, string) -> RegexOutcome

  datatype Why = ByParent | ByContains(needle: string) | ByRegex

  const OutOfManual: string := "out_of_manual"
  const WhyNeedleLen: nat := 48

  /** `(s or "").strip().lower()` */
  function NormField(s: Option<string>): (r: string)
    ensures NoUpper(r)
  {
    match s
    case None => []
    case Some(v) => Lower(Trim(v))
  }

  function Bucket(q: Question): string { NormField(q.bucket) }

  /** An explicit `expect_in_manual` wins; otherwise only the out-of-manual bucket expects no answer. */
  function ExpectInManual(q: Question): (r: bool)
    ensures q.gold.Dict? && q.gold.fields.expectInManual.Some? ==> r == q.gold.fields.expectInManual.value
    ensures !(q.gold.Dict? && q.gold.fields.expectInManual.Some?) ==> (r <==> Bucket(q) != OutOfManual)
  {
    if q.gold.Dict? && q.gold.fields.expectInManual.Some? then q.gold.fields.expectInManual.value
    else Bucket(q) != OutOfManual
  }

  /** `{str(x) for x in parent_ids if x}` after a lone string became a one-element list. */
  function ParentSet(f: Field): (r: set<string>)
    ensures f.Str? ==> (r == if f.s == [] then {} else {f.s})
    ensures f.List? ==> forall p :: p in r <==> exists x :: x in f.items && x.truthy && x.text == p
    ensures f.Missing? || f.Other? ==> r == {}
  {
    match f
    case Str(s) => if s == [] then {} else {s}
    case List(items) => set x | x in items && x.truthy :: x.text
    case _ => {}
  }

  /** A lone string counts as the one-element list holding it (truthy exactly when non-empty). */
  lemma ParentSetLoneString(s: string)
    ensures ParentSet(Str(s)) == ParentSet(List([Elem(s != [], s)]))
  {
    var l := ParentSet(List([Elem(s != [], s)]));
    assert s != [] ==> s in l;
  }

  /**
   * The ids of a list are those of its parts taken together: order and
   * repetition do not matter, and falsy elements contribute nothing.
   */
  lemma ParentSetAppend(a: seq<Elem>, b: seq<Elem>)
    ensures ParentSet(List(a + b)) == ParentSet(List(a)) + ParentSet(List(b))
    ensures ParentSet(List(a + b)) == ParentSet(List(b + a))
  {
    assert forall x :: x in a + b <==> x in a || x in b;
    assert forall x :: x in b + a <==> x in a || x in b;
  }

  lemma ParentSetFalsy(a: seq<Elem>, x: Elem)
    requires !x.truthy
    ensures ParentSet(List(a + [x])) == ParentSet(List(a))
  {
    ParentSetAppend(a, [x]);
  }

  /** The stripped, non-blank substrings one field contributes, in list order. */
  function FieldNeedles(f: Field): (r: seq<string>)
    ensures forall i :: 0 <= i < |r| ==> r[i] != []
    ensures f.Missing? || f.Other? ==> r == []
  {
    match f
    case Str(s) => if Trim(s) != [] then [Trim(s)] else []
    case List(items) => ListNeedles(items)
    case _ => []
  }

  function ListNeedles(items: seq<Elem>): (r: seq<string>)
    ensures |r| <= |items|
    ensures forall i :: 0 <= i < |r| ==> r[i] != []
    decreases |items|
  {
    if items == [] then []
    else
      var t := Trim(items[0].text);
      var rest := ListNeedles(items[1..]);
      if t != [] then [t] + rest else rest
  }

  /** A list contributes exactly the non-blank stripped `str()` of its elements. */
  lemma ListNeedlesMembers(items: seq<Elem>, n: string)
    ensures n in ListNeedles(items) <==> exists x :: x in items && n == Trim(x.text) && n != []
  {
    if n in ListNeedles(items) {
      ListNeedlesSound(items, n);
    }
    if exists x :: x in items && n == Trim(x.text) && n != [] {
      var x :| x in items && n == Trim(x.text) && n != [];
      ListNeedlesComplete(items, x);
    }
  }

  lemma {:induction false} ListNeedlesSound(items: seq<Elem>, n: string)
    requires n in ListNeedles(items)
    ensures exists x :: x in items && n == Trim(x.text) && n != []
    decreases |items|
  {
    var t := Trim(items[0].text);
    if n == t && t != [] {
      assert items[0] in items;
    } else {
      assert n in ListNeedles(items[1..]);
      ListNeedlesSound(items[1..], n);
      var x :| x in items[1..] && n == Trim(x.text) && n != [];
      assert x in items;
    }
  }

  lemma {:induction false} ListNeedlesComplete(items: seq<Elem>, x: Elem)
    requires x in items && Trim(x.text) != []
    ensures Trim(x.text) in ListNeedles(items)
    decreases |items|
  {
    if x != items[0] {
      assert x in items[1..];
      ListNeedlesComplete(items[1..], x);
    }
  }

  /** `answer_contains` needles come before `crux_contains` needles. */
  function Needles(g: GoldFields): seq<string>
  {
    FieldNeedles(g.answerContains) + FieldNeedles(g.cruxContains)
  }

  predicate NeedleHits(needle: string, text: string) { Contains(Lower(text), Lower(needle)) }

  /** The first needle that occurs case-insensitively in the text. */
  function FirstNeedle(needles: seq<string>, text: string): Option<string>
    decreases |needles|
  {
    if needles == [] then None
    else if NeedleHits(needles[0], text) then Some(needles[0])
    else FirstNeedle(needles[1..], text)
  }

  /**
   * The reported needle hits and every earlier needle misses; nothing is
   * reported exactly when no needle hits.
   */
  lemma {:induction false} FirstNeedleSpec(needles: seq<string>, text: string)
    ensures var r := FirstNeedle(needles, text);
      (r.Some? ==> exists i :: (0 <= i < |needles| && needles[i] == r.value && NeedleHits(needles[i], text)
                   && forall j :: 0 <= j < i ==> !NeedleHits(needles[j], text)))
      && (r.None? <==> forall i :: 0 <= i < |needles| ==> !NeedleHits(needles[i], text))
    decreases |needles|
  {
    if needles != [] && !NeedleHits(needles[0], text) {
      var tail := needles[1..];
      FirstNeedleSpec(tail, text);
      assert forall i :: 1 <= i < |needles| ==> needles[i] == tail[i - 1];
      var r := FirstNeedle(tail, text);
      if r.Some? {
        var i :| 0 <= i < |tail| && tail[i] == r.value && NeedleHits(tail[i], text)
                 && forall j :: 0 <= j < i ==> !NeedleHits(tail[j], text);
        assert needles[i + 1] == r.value;
        assert forall j :: 0 <= j < i + 1 ==> !NeedleHits(needles[j], text);
      }
    }
  }

  /** The regex rule fires only on a non-blank pattern that the engine accepts and finds. */
  predicate RegexFires(f: Field, text: string, search: RegexSearch)
  {
    f.Str? && Trim(f.s) != [] && search(f.s, text) == RxFound
  }

  /** The specification of `_gold_match_candidate`: the first rule to fire wins. */
  function GoldMatch(q: Question, cand: SentenceDoc, search: RegexSearch): Option<Why>
  {
    match q.gold
    case NotDict => None
    case Dict(g) =>
      if cand.parent in ParentSet(g.parentIds) then Some(ByParent)
      else match FirstNeedle(Needles(g), cand.text)
        case Some(n) => Some(ByContains(n))
        case None => if RegexFires(g.answerRegex, cand.text, search) then Some(ByRegex) else None
  }

  /**
   * Precedence of the three rules: a parent id match is reported iff the
   * candidate's paragraph is a gold parent; a substring match iff no parent
   * matched and some needle occurs; a regex match iff neither of those did
   * and the pattern is accepted and found; otherwise no match.
   */
  lemma GoldMatchPrecedence(q: Question, cand: SentenceDoc, search: RegexSearch)
    ensures q.gold.NotDict? ==> GoldMatch(q, cand, search).None?
    ensures q.gold.Dict? ==>
      var g := q.gold.fields;
      var r := GoldMatch(q, cand, search);
      (r == Some(ByParent) <==> cand.parent in ParentSet(g.parentIds))
      && (r.Some? && r.value.ByContains? <==>
            cand.parent !in ParentSet(g.parentIds)
            && exists i :: 0 <= i < |Needles(g)| && NeedleHits(Needles(g)[i], cand.text))
      && (r == Some(ByRegex) <==>
            cand.parent !in ParentSet(g.parentIds)
            && (forall i :: 0 <= i < |Needles(g)| ==> !NeedleHits(Needles(g)[i], cand.text))
            && RegexFires(g.answerRegex, cand.text, search))
      && (r.None? <==>
            cand.parent !in ParentSet(g.parentIds)
            && (forall i :: 0 <= i < |Needles(g)| ==> !NeedleHits(Needles(g)[i], cand.text))
            && !RegexFires(g.answerRegex, cand.text, search))
  {
    if q.gold.Dict? {
      FirstNeedleSpec(Needles(q.gold.fields), cand.text);
    }
  }

  /** A substring match reports the earliest needle, in answer-then-crux list order, that occurs in the text. */
  lemma ContainsReportsFirstNeedle(q: Question, cand: SentenceDoc, search: RegexSearch)
    requires q.gold.Dict?
    requires GoldMatch(q, cand, search).Some? && GoldMatch(q, cand, search).value.ByContains?
    ensures var ns := Needles(q.gold.fields);
      exists i :: (0 <= i < |ns| && ns[i] == GoldMatch(q, cand, search).value.needle
        && NeedleHits(ns[i], cand.text) && forall j :: 0 <= j < i ==> !NeedleHits(ns[j], cand.text))
  {
    FirstNeedleSpec(Needles(q.gold.fields), cand.text);
  }

  /** The `why` string reported for a match: contains-reasons carry the first 48 characters of the needle. */
  function WhyText(w: Why): (r: string)
    ensures w.ByContains? ==> |r| <= |"contains:"| + WhyNeedleLen && IsPrefix("contains:", r)
  {
    match w
    case ByParent => "parent_metadata_id"
    case ByContains(n) => "contains:" + Take(n, WhyNeedleLen)
    case ByRegex => "answer_regex"
  }

  /** The needle loop of `_gold_match_candidate`: scan in order and stop at the first hit. */
  method FindNeedle(needles: seq<string>, text: string) returns (r: Option<string>)
    ensures r == FirstNeedle(needles, text)
  {
    var i := 0;
    while i < |needles|
      invariant 0 <= i <= |needles|
      invariant forall j :: 0 <= j < i ==> !NeedleHits(needles[j], text)
    {
      if NeedleHits(needles[i], text) {
        FirstNeedleAt(needles, text, i);
        return Some(needles[i]);
      }
      i := i + 1;
    }
    FirstNeedleSpec(needles, text);
    return None;
  }

  /** `_gold_match_candidate`: parent ids, then the needle scan, then the regex. */
  method MatchCandidate(q: Question, cand: SentenceDoc, search: RegexSearch) returns (r: Option<Why>)
    ensures r == GoldMatch(q, cand, search)
  {
    if q.gold.NotDict? {
      return None;
    }
    var g := q.gold.fields;
    if cand.parent in ParentSet(g.parentIds) {
      return Some(ByParent);
    }
    var hit := FindNeedle(Needles(g), cand.text);
    if hit.Some? {
      return Some(ByContains(hit.value));
    }
    if RegexFires(g.answerRegex, cand.text, search) {
      return Some(ByRegex);
    }
    return None;
  }

  /** The needle at the first hitting position is the one `FirstNeedle` picks. */
  lemma {:induction false} FirstNeedleAt(needles: seq<string>, text: string, i: nat)
    requires i < |needles| && NeedleHits(needles[i], text)
    requires forall j :: 0 <= j < i ==> !NeedleHits(needles[j], text)
    ensures FirstNeedle(needles, text) == Some(needles[i])
    decreases i
  {
    if i > 0 {
      var tail := needles[1..];
      forall j | 0 <= j < i - 1 ensures !NeedleHits(tail[j], text) {
        assert tail[j] == needles[j + 1];
      }
      FirstNeedleAt(tail, text, i - 1);
    }
  }

  /** An invalid pattern never matches and never fails: the outcome is as if the regex were absent. */
  lemma InvalidRegexIsNoMatch(q: Question, cand: SentenceDoc, search: RegexSearch)
    requires q.gold.Dict? && q.gold.fields.answerRegex.Str?
    requires search(q.gold.fields.answerRegex.s, cand.text) == RxInvalid
    ensures GoldMatch(q, cand, search)
         == GoldMatch(q.(gold := Dict(q.gold.fields.(answerRegex := Missing))), cand, search)
  {
  }

  /** A gold parent id wins whatever the text and the other evidence say. */
  lemma ParentIdWins(q: Question, cand: SentenceDoc, search: RegexSearch)
    requires q.gold.Dict? && cand.parent in ParentSet(q.gold.fields.parentIds)
    ensures GoldMatch(q, cand, search) == Some(ByParent)
  {
  }

  /**
   * Substring matching ignores case on both sides: needles and texts that
   * agree up to case get the same verdict; in particular the lower-cased
   * needle hits exactly where the needle does.
   */
  lemma {:induction false} NeedleCaseInsensitive(n1: string, n2: string, t1: string, t2: string)
    requires Lower(n1) == Lower(n2) && Lower(t1) == Lower(t2)
    ensures NeedleHits(n1, t1) <==> NeedleHits(n2, t2)
    ensures NeedleHits(n1, t1) <==> NeedleHits(Lower(n1), t1)
  {
    LowerIdempotent(n1);
  }
}
