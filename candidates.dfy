/**
 * The candidate operations of the lexicon service. Phrases proposed for the
 * policy lexicon wait in the candidate table until a reviewer rejects,
 * approves or flags them; every decision is also remembered in the catalog,
 * which has one row per (type, phrase, proposed tag). Review, bulk apply and
 * the health fixes all go through these operations.
 */
module CandidateOps {
  import opened Text
  import opened Sorting
  import LexSpec
  import LexTable

  /** A row of `policy_lexicon_candidates`; `None` stands for SQL NULL. */
  datatype Candidate = Candidate(
    normalized: string, state: string, candidateType: Option<string>,
    proposedTag: Option<string>, llmVerdict: Option<string>,
    reviewer: Option<string>, reviewerNotes: Option<string>, occurrences: Option<int>)

  /** Candidate rows keyed by `id::text`, the table's primary key. */
  type Candidates = map<string, Candidate>

  /** A row of `policy_lexicon_candidate_catalog`. */
  datatype CatalogEntry = CatalogEntry(
    normalized: string, proposedTag: Option<string>, state: string, reviewer: string, reviewerNotes: string)

  /** The catalog's unique key: (candidate_type, normalized_key, proposed_tag_key). */
  type CatalogKey = (string, string, string)
  type Catalog = map<CatalogKey, CatalogEntry>

  const Types: set<string> := {"p", "d", "j"}
  const CatalogStates: set<string> := {"rejected", "approved", "flagged", "proposed"}
  const DefaultReviewer := "lexicon-ui"
  const DefaultRejectNotes := "LLM-recommended reject"
  const NotesMax := 500
  const FuzzyLimit := 50

  /** `_normalize_phrase` on a string. */
  function PhraseKey(s: string): string { LexSpec.NormalizePhrase(Some(s)) }

  /**
   * The key the queries compute from a row's phrase,
   * `trim(lower(regexp_replace(normalized, '\s+', ' ', 'g')))`: the same
   * whitespace collapsing, trimming and lower-casing as `_normalize_phrase`.
   */
  function RowKey(c: Candidate): string { PhraseKey(c.normalized) }

  /** `COALESCE(NULLIF(trim(lower(candidate_type)), ''), 'd')`, then anything outside p/d/j read as `d`. */
  function TypeCode(ct: Option<string>): (r: string)
    ensures r in Types
    ensures ct.Some? && Lower(Trim(ct.value)) in Types ==> r == Lower(Trim(ct.value))
    ensures ct.None? ==> r == "d"
  {
    var t := if ct.None? then "" else Lower(Trim(ct.value));
    if t in Types then t else "d"
  }

  /** `[str(x).strip() for x in ids if str(x).strip()]`, as the set `= ANY(...)` tests against. */
  function CleanIds(ids: seq<string>): set<string>
  {
    set x | x in ids && Trim(x) != "" :: Trim(x)
  }

  /** The ids of the rows an update by `ids` reaches. */
  function ByIds(rows: Candidates, ids: seq<string>): set<string>
  {
    set i | i in rows && i in CleanIds(ids)
  }

  /** A cleaned id is the stripped form of a non-blank given id. */
  lemma CleanIdsSpec(ids: seq<string>, i: string)
    ensures i in CleanIds(ids) <==> i != "" && exists x :: x in ids && Trim(x) == i
    ensures ids == [] ==> CleanIds(ids) == {}
  {
  }

  // ------------------------------------------------------------ reading

  /**
   * `fetch_candidate_types_by_ids`: the type of every row whose id is one of
   * the cleaned ids, read as p, d or j.
   */
  function TypesByIds(rows: Candidates, ids: seq<string>): (r: map<string, string>)
    ensures ids == [] ==> r == map[]
    ensures forall i :: i in r <==> i in rows && i != "" && exists x :: x in ids && Trim(x) == i
    ensures forall i :: i in r ==> r[i] in Types && r[i] == TypeCode(rows[i].candidateType)
  {
    if ids == [] then map[]
    else
      var clean := CleanIds(ids);
      map i | i in rows && i in clean :: TypeCode(rows[i].candidateType)
  }

  /** `COALESCE(occurrences, 1)`; an id with no row counts as 1. */
  function OccOf(rows: Candidates, i: string): int
  {
    if i in rows && rows[i].occurrences.Some? then rows[i].occurrences.value else 1
  }

  /** `ORDER BY COALESCE(occurrences, 1) DESC` */
  function OccDesc(rows: Candidates): (string, string) -> bool
  {
    (a: string, b: string) => OccOf(rows, a) >= OccOf(rows, b)
  }

  lemma OccDescOrders(rows: Candidates)
    ensures TotalPreorder(OccDesc(rows))
  {
  }

  /** The rows with phrase key `nk` and state `sf` that have an id. */
  function ExactIds(rows: Candidates, nk: string, sf: string): set<string>
  {
    set i | i in rows && i != "" && RowKey(rows[i]) == nk && rows[i].state == sf
  }

  // ------------------------------------------------------------ LIKE

  /**
   * SQL `t LIKE p` as PostgreSQL reads it: `%` matches any run of
   * characters, `_` any one character, and `\` makes the next character
   * literal.
   */
  predicate Like(p: string, t: string)
    decreases |p| + |t|
  {
    if p == [] then t == []
    else if p[0] == '%' then Like(p[1..], t) || (t != [] && Like(p, t[1..]))
    else if p[0] == '_' then t != [] && Like(p[1..], t[1..])
    else if p[0] == '\\' && |p| >= 2 then t != [] && t[0] == p[1] && Like(p[2..], t[1..])
    else t != [] && t[0] == p[0] && Like(p[1..], t[1..])
  }

  /** The fallback pattern `f"%{nk}%"`. */
  function ContainsPattern(nk: string): string { "%" + nk + "%" }

  /** A key in which LIKE sees no wildcard and no escape. */
  predicate NoWildcards(nk: string) { '%' !in nk && '_' !in nk && '\\' !in nk }

  lemma {:induction false} LikeAnything(u: string)
    ensures Like("%", u)
    decreases |u|
  {
    if u != [] {
      LikeAnything(u[1..]);
    }
  }

  /** Without wildcards, `nk%` matches exactly the texts that start with `nk`. */
  lemma {:induction false} LikePrefix(nk: string, u: string)
    requires NoWildcards(nk)
    ensures Like(nk + "%", u) <==> IsPrefix(nk, u)
    decreases |nk|
  {
    if nk == [] {
      assert nk + "%" == "%";
      LikeAnything(u);
    } else {
      assert (nk + "%")[1..] == nk[1..] + "%";
      LikePrefix(nk[1..], if u == [] then u else u[1..]);
      if u != [] && u[0] == nk[0] {
        assert IsPrefix(nk, u) <==> IsPrefix(nk[1..], u[1..]);
      }
    }
  }

  /**
   * Without wildcards in the key, the fallback pattern matches exactly the
   * texts that contain the key: the LIKE query is the contains match it is
   * meant to be.
   */
  lemma {:induction false} LikeContains(nk: string, t: string)
    requires NoWildcards(nk)
    ensures Like(ContainsPattern(nk), t) <==> Contains(t, nk)
    decreases |t|
  {
    var p := ContainsPattern(nk);
    assert p[1..] == nk + "%";
    LikePrefix(nk, t);
    if t != [] {
      LikeContains(nk, t[1..]);
    }
  }

  /**
   * A key with `_` matches more than the texts containing it: `_` stands
   * for any character, so `a_c` finds `abc`.
   */
  lemma LikeUnderscore()
    ensures Like(ContainsPattern("a_c"), "abc") && !Contains("abc", "a_c")
  {
    var p := ContainsPattern("a_c");
    assert p == "%a_c%";
    assert p[1..] == "a_c%";
    assert Like(p[1..][3..], "");
    assert Like(p[1..], "abc");
    assert !IsPrefix("a_c", "abc") by { assert "abc"[..3][1] != "a_c"[1]; }
    assert "abc"[1..] == "bc";
    assert !Contains("bc", "a_c");
  }

  /** The rows with state `sf` whose key, or whose trimmed lower-cased phrase, is LIKE `%nk%`. */
  function FuzzyIds(rows: Candidates, nk: string, sf: string): set<string>
  {
    set i | i in rows && rows[i].state == sf
      && (Like(ContainsPattern(nk), RowKey(rows[i])) || Like(ContainsPattern(nk), Lower(Trim(rows[i].normalized))))
  }

  /** For a key without wildcards the fallback rows are those whose key or phrase contains it. */
  lemma FuzzyIdsContain(rows: Candidates, nk: string, sf: string)
    requires NoWildcards(nk)
    ensures forall i :: i in FuzzyIds(rows, nk, sf) <==>
      i in rows && rows[i].state == sf
      && (Contains(RowKey(rows[i]), nk) || Contains(Lower(Trim(rows[i].normalized)), nk))
  {
    forall i | i in rows
      ensures Like(ContainsPattern(nk), RowKey(rows[i])) <==> Contains(RowKey(rows[i]), nk)
      ensures Like(ContainsPattern(nk), Lower(Trim(rows[i].normalized))) <==> Contains(Lower(Trim(rows[i].normalized)), nk)
    {
      LikeContains(nk, RowKey(rows[i]));
      LikeContains(nk, Lower(Trim(rows[i].normalized)));
    }
  }

  /**
   * What the fallback query may return: at most 50 of the matching rows that
   * have an id, most frequent first; all of them when there are at most 50,
   * and otherwise none left out is more frequent than one returned.
   */
  predicate FuzzyPick(rows: Candidates, m: set<string>, ids: seq<string>)
  {
    && |ids| <= FuzzyLimit
    && (forall i :: i in ids ==> i in m && i != "")
    && SortedBy(ids, OccDesc(rows))
    && (|m| <= FuzzyLimit ==> forall i :: i in m && i != "" ==> i in ids)
    && (forall i, j :: i in m && i != "" && i !in ids && j in ids ==> OccOf(rows, i) <= OccOf(rows, j))
  }

  /** The rows with key `k`. */
  function RowsWithKey(rows: Candidates, k: string): set<string>
  {
    set i | i in rows && RowKey(rows[i]) == k
  }

  /** `t` is the type of a row of `group` that no other row of the group outnumbers. */
  predicate MostFrequentIn(rows: Candidates, group: set<string>, t: string)
  {
    exists i :: i in group && i in rows && t == TypeCode(rows[i].candidateType)
      && forall j :: j in group ==> OccOf(rows, j) <= OccOf(rows, i)
  }

  /** `t` is the type of a row with key `k` that no other row with that key outnumbers. */
  predicate MostFrequentType(rows: Candidates, k: string, t: string)
  {
    MostFrequentIn(rows, RowsWithKey(rows, k), t)
  }

  /** `{_normalize_phrase(k) for k in norm_keys if _normalize_phrase(k)}` */
  function KeySet(keys: seq<string>): set<string>
  {
    set k | k in keys && PhraseKey(k) != "" :: PhraseKey(k)
  }

  /** The keys among the given ones that some row has. */
  function KnownKeys(rows: Candidates, keys: seq<string>): set<string>
  {
    set k | k in KeySet(keys) && RowsWithKey(rows, k) != {}
  }

  /** One of the most frequent rows of a group, whose type is then a most frequent type. */
  method PickMostFrequent(rows: Candidates, group: set<string>) returns (i: string)
    requires group != {} && group <= rows.Keys
    ensures i in group && i in rows
    ensures MostFrequentIn(rows, group, TypeCode(rows[i].candidateType))
  {
    MostFrequentExists(rows, group);
    i :| i in group && forall j :: j in group ==> OccOf(rows, j) <= OccOf(rows, i);
  }

  /** Adding a most frequent type for one more key keeps every type most frequent. */
  /** The types chosen so far: one most frequent type for every group not left in `rest`. */
  ghost predicate ChosenSoFar(rows: Candidates, groups: map<string, set<string>>, out: map<string, string>,
                              rest: set<string>)
  {
    && rest <= groups.Keys
    && out.Keys == groups.Keys - rest
    && forall k :: k in out ==> out[k] in Types && MostFrequentIn(rows, groups[k], out[k])
  }

  lemma ChosenStep(rows: Candidates, groups: map<string, set<string>>, out: map<string, string>,
                   rest: set<string>, k0: string, t: string)
    requires ChosenSoFar(rows, groups, out, rest) && k0 in rest
    requires t in Types && MostFrequentIn(rows, groups[k0], t)
    ensures ChosenSoFar(rows, groups, out[k0 := t], rest - {k0})
  {
    var o := out[k0 := t];
    forall k | k in o ensures o[k] in Types && MostFrequentIn(rows, groups[k], o[k]) {
      if k != k0 {
        assert o[k] == out[k] && k in out;
      }
    }
  }

  /** A most frequent type for every group of rows, each group non-empty. */
  method MostFrequentTypes(rows: Candidates, groups: map<string, set<string>>) returns (out: map<string, string>)
    requires forall k :: k in groups ==> groups[k] != {} && groups[k] <= rows.Keys
    ensures out.Keys == groups.Keys
    ensures forall k :: k in out ==> out[k] in Types && MostFrequentIn(rows, groups[k], out[k])
  {
    out := map[];
    var rest := groups.Keys;
    while rest != {}
      invariant ChosenSoFar(rows, groups, out, rest)
      decreases |rest|
    {
      var k :| k in rest;
      var i := PickMostFrequent(rows, groups[k]);
      ChosenStep(rows, groups, out, rest, k, TypeCode(rows[i].candidateType));
      out := out[k := TypeCode(rows[i].candidateType)];
      rest := rest - {k};
    }
  }

  /** A row whose occurrence count no other row in `s` exceeds. */
  lemma {:induction false} MostFrequentExists(rows: Candidates, s: set<string>)
    requires s != {}
    ensures exists i :: i in s && forall j :: j in s ==> OccOf(rows, j) <= OccOf(rows, i)
    decreases |s|
  {
    var x :| x in s;
    if s != {x} {
      MostFrequentExists(rows, s - {x});
      var y :| y in s - {x} && forall j :: j in s - {x} ==> OccOf(rows, j) <= OccOf(rows, y);
      if OccOf(rows, x) > OccOf(rows, y) {
        assert forall j :: j in s ==> OccOf(rows, j) <= OccOf(rows, x);
      } else {
        assert forall j :: j in s ==> OccOf(rows, j) <= OccOf(rows, y);
      }
    } else {
      assert forall j :: j in s ==> j == x;
    }
  }

  // ------------------------------------------------------------ updates

  /** The values an update writes once `update_candidate_state_*` has cleaned its arguments. */
  datatype Review = Review(
    state: string, rejecting: bool, ctVal: Option<string>, ptVal: Option<string>, reviewer: string, notes: string)

  /**
   * The arguments of `update_candidate_state_*` cleaned: the reviewer
   * defaults to `lexicon-ui`, notes are cut to 500 characters, a type
   * override counts only when it is p, d or j, a tag override only when it
   * is not blank, and the state is stored as given.
   */
  function ReviewOf(newState: string, reviewer: Option<string>, notes: Option<string>,
                    candidateType: Option<string>, proposedTag: Option<string>): Review
  {
    Review(newState, Lower(Trim(newState)) == "rejected",
           if candidateType.Some? && candidateType.value in Types then candidateType else None,
           if proposedTag.Some? && Trim(proposedTag.value) != "" then Some(Trim(proposedTag.value)) else None,
           OrElse(reviewer, DefaultReviewer), Take(OrElse(notes, ""), NotesMax))
  }

  /**
   * One row after the UPDATE: rejecting sets the verdict to `reject` and
   * clears the proposed tag; `COALESCE` keeps the old type, and outside a
   * rejection the old tag, when no override is given.
   */
  function Reviewed(c: Candidate, v: Review): Candidate
  {
    c.(state := v.state,
       llmVerdict := if v.rejecting then Some("reject") else c.llmVerdict,
       proposedTag := if v.rejecting then None else if v.ptVal.Some? then v.ptVal else c.proposedTag,
       candidateType := if v.ctVal.Some? then v.ctVal else c.candidateType,
       reviewer := Some(v.reviewer),
       reviewerNotes := Some(v.notes))
  }

  /** The rows whose id is in `chosen` reviewed, the others as they were. */
  function ReviewRows(rows: Candidates, chosen: set<string>, v: Review): (r: Candidates)
    ensures r.Keys == rows.Keys
  {
    map i | i in rows :: if i in chosen then Reviewed(rows[i], v) else rows[i]
  }

  /**
   * What a reviewed row holds: the given state, a non-empty reviewer
   * (`lexicon-ui` when none is given), notes of at most 500 characters taken
   * from the start of the given ones; a rejection (whatever its case and
   * surrounding blanks) records the `reject` verdict and drops the proposed
   * tag, any other state keeps the tag unless a non-blank one is given; the
   * type changes only to a given p, d or j; the phrase and count stay.
   */
  lemma ReviewedSpec(c: Candidate, newState: string, reviewer: Option<string>, notes: Option<string>,
                     candidateType: Option<string>, proposedTag: Option<string>)
    ensures var r := Reviewed(c, ReviewOf(newState, reviewer, notes, candidateType, proposedTag));
      && r.state == newState
      && r.reviewer.Some? && r.reviewer.value != ""
      && (reviewer.None? || reviewer.value == "" ==> r.reviewer == Some(DefaultReviewer))
      && r.reviewerNotes.Some? && |r.reviewerNotes.value| <= NotesMax
      && IsPrefix(r.reviewerNotes.value, OrElse(notes, ""))
      && (Lower(Trim(newState)) == "rejected" ==> r.llmVerdict == Some("reject") && r.proposedTag.None?)
      && (Lower(Trim(newState)) != "rejected" ==> r.llmVerdict == c.llmVerdict)
      && (Lower(Trim(newState)) != "rejected" && (proposedTag.None? || Trim(proposedTag.value) == "") ==>
            r.proposedTag == c.proposedTag)
      && (Lower(Trim(newState)) != "rejected" && proposedTag.Some? && Trim(proposedTag.value) != "" ==>
            r.proposedTag == Some(Trim(proposedTag.value)))
      && (candidateType.Some? && candidateType.value in Types ==> r.candidateType == candidateType)
      && (candidateType.None? || candidateType.value !in Types ==> r.candidateType == c.candidateType)
      && r.normalized == c.normalized && r.occurrences == c.occurrences
  {
  }

  /** Only the chosen rows change, and each of them is reviewed. */
  lemma ReviewRowsSpec(rows: Candidates, chosen: set<string>, v: Review)
    ensures forall i :: i in rows && i !in chosen ==> ReviewRows(rows, chosen, v)[i] == rows[i]
    ensures forall i :: i in rows && i in chosen ==> ReviewRows(rows, chosen, v)[i] == Reviewed(rows[i], v)
    ensures chosen * rows.Keys == {} ==> ReviewRows(rows, chosen, v) == rows
  {
    if chosen * rows.Keys == {} {
      var r := ReviewRows(rows, chosen, v);
      forall i | i in rows ensures i !in chosen {
        assert i in chosen ==> i in chosen * rows.Keys;
      }
      assert forall i :: i in r ==> r[i] == rows[i];
    }
  }

  /** The rows an update of phrase `nk` reaches: still proposed, with that key. */
  function ProposedWithKey(rows: Candidates, nk: string): set<string>
  {
    set i | i in rows && RowKey(rows[i]) == nk && rows[i].state == "proposed"
  }

  /**
   * After an update by phrase to any state but `proposed`, no row with that
   * key is left proposed; every row reached holds the new state, and rows
   * with another key or another state are untouched.
   */
  lemma UpdateByPhraseSpec(rows: Candidates, nk: string, v: Review)
    requires v.state != "proposed"
    ensures var r := ReviewRows(rows, ProposedWithKey(rows, nk), v);
      && (forall i :: i in r && RowKey(r[i]) == nk ==> r[i].state != "proposed")
      && (forall i :: i in ProposedWithKey(rows, nk) ==> r[i].state == v.state && RowKey(r[i]) == nk)
      && (forall i :: i in rows && (RowKey(rows[i]) != nk || rows[i].state != "proposed") ==> r[i] == rows[i])
  {
  }

  // ------------------------------------------------------------ catalog

  /** `candidate_type.strip().lower()[:1] if candidate_type else "d"`, then anything outside p/d/j read as `d`. */
  function CatalogType(ct: string): string
  {
    var t := if ct != "" then Take(Lower(Trim(ct)), 1) else "d";
    if t in Types then t else "d"
  }

  /** `(state or "rejected").strip().lower()`, then anything outside the four states read as `rejected`. */
  function CatalogState(state: string): string
  {
    var st := Lower(Trim(if state != "" then state else "rejected"));
    if st in CatalogStates then st else "rejected"
  }

  /** The catalog key `upsert_catalog` writes. */
  function CatalogKeyOf(candidateType: string, normalizedKey: string, proposedTagKey: string): CatalogKey
  {
    (CatalogType(candidateType), Take(normalizedKey, 300), Take(proposedTagKey, 300))
  }

  /**
   * `INSERT ... ON CONFLICT (candidate_type, normalized_key, proposed_tag_key) DO UPDATE`:
   * a new key gets a full row; an existing one takes the new state,
   * reviewer and notes and keeps its phrase and proposed tag.
   */
  function CatalogUpsert(cat: Catalog, candidateType: string, normalizedKey: string, proposedTagKey: string,
                         proposedTag: Option<string>, state: string, reviewer: Option<string>,
                         notes: Option<string>): Catalog
  {
    var key := CatalogKeyOf(candidateType, normalizedKey, proposedTagKey);
    var pt := Take(OrElse(proposedTag, ""), 500);
    var st := CatalogState(state);
    var rev := Take(OrElse(reviewer, DefaultReviewer), 255);
    var nt := Take(OrElse(notes, ""), NotesMax);
    if key in cat then cat[key := cat[key].(state := st, reviewer := rev, reviewerNotes := nt)]
    else cat[key := CatalogEntry(Take(normalizedKey, 500), if pt == "" then None else Some(pt), st, rev, nt)]
  }

  /** A word without blanks at its ends or capitals is its own stripped lower-cased form. */
  lemma PlainWord(w: string)
    requires w != [] && !IsSpace(w[0]) && !IsSpace(w[|w| - 1]) && NoUpper(w)
    ensures Lower(Trim(w)) == w
  {
    TrimLeftFixed(w);
    TrimRightFixed(w);
    LowerFixed(w);
  }

  /**
   * The recorded state is the given one, stripped and lower-cased, when it
   * is one of the four, and `rejected` otherwise (an empty one included).
   */
  lemma CatalogStateSpec(state: string)
    ensures CatalogState(state) in CatalogStates
    ensures Lower(Trim(state)) in CatalogStates ==> CatalogState(state) == Lower(Trim(state))
    ensures Lower(Trim(state)) !in CatalogStates ==> CatalogState(state) == "rejected"
  {
    if state == "" {
      PlainWord("rejected");
      assert Lower(Trim(state)) == "";
    }
  }

  /**
   * After an upsert the key is present, with a type among p/d/j, phrase
   * and tag keys of at most 300 characters, the state `CatalogState` makes
   * of the given one, a non-empty reviewer; an existing row keeps its
   * phrase and tag. The catalog grows by at most that one row and no other
   * row changes.
   */
  lemma CatalogUpsertSpec(cat: Catalog, candidateType: string, normalizedKey: string, proposedTagKey: string,
                          proposedTag: Option<string>, state: string, reviewer: Option<string>, notes: Option<string>)
    ensures var key := CatalogKeyOf(candidateType, normalizedKey, proposedTagKey);
      var r := CatalogUpsert(cat, candidateType, normalizedKey, proposedTagKey, proposedTag, state, reviewer, notes);
      && key in r && key.0 in Types && |key.1| <= 300 && |key.2| <= 300
      && r[key].state == CatalogState(state)
      && r[key].reviewer != "" && |r[key].reviewerNotes| <= NotesMax
      && (key in cat ==> r[key].normalized == cat[key].normalized && r[key].proposedTag == cat[key].proposedTag)
      && r.Keys == cat.Keys + {key}
      && (forall k :: k in cat && k != key ==> r[k] == cat[k])
  {
    assert Take(OrElse(reviewer, DefaultReviewer), 255) != "";
  }

  /** Upserting the same key again leaves one row for it, holding the latest decision. */
  lemma CatalogUpsertTwice(cat: Catalog, ct: string, nk: string, ptk: string, pt1: Option<string>, pt2: Option<string>,
                           st1: string, st2: string, rev1: Option<string>, rev2: Option<string>,
                           n1: Option<string>, n2: Option<string>)
    ensures var once := CatalogUpsert(cat, ct, nk, ptk, pt1, st1, rev1, n1);
      var twice := CatalogUpsert(once, ct, nk, ptk, pt2, st2, rev2, n2);
      var key := CatalogKeyOf(ct, nk, ptk);
      && |twice.Keys| == |once.Keys|
      && twice[key] == once[key].(state := CatalogState(st2), reviewer := Take(OrElse(rev2, DefaultReviewer), 255),
                                  reviewerNotes := Take(OrElse(n2, ""), NotesMax))
  {
    CatalogUpsertSpec(cat, ct, nk, ptk, pt1, st1, rev1, n1);
    var once := CatalogUpsert(cat, ct, nk, ptk, pt1, st1, rev1, n1);
    assert CatalogUpsert(once, ct, nk, ptk, pt2, st2, rev2, n2).Keys == once.Keys;
  }

  /**
   * The type a rejection records: the given one, or when none is given and
   * a lookup table is, the table's entry for the first id (`d` when it has
   * none); anything outside p/d/j becomes `d`.
   */
  function RejectType(candidateType: Option<string>, lookup: Option<map<string, string>>, first: string): (r: string)
    ensures r in Types
    ensures candidateType.Some? && candidateType.value in Types ==> r == candidateType.value
  {
    var ct :=
      if OrElse(candidateType, "") == "" && lookup.Some? && lookup.value != map[] then
        Some(if first in lookup.value && lookup.value[first] != "" then lookup.value[first] else "d")
      else candidateType;
    if ct.None? || ct.value !in Types then "d" else ct.value
  }

  /** The notes a rejection records. */
  function RejectNotes(notes: Option<string>): string
  {
    Take(OrElse(notes, DefaultRejectNotes), NotesMax)
  }

  lemma RejectedWord()
    ensures Lower(Trim("rejected")) == "rejected"
  {
    PlainWord("rejected");
  }

  /** The review a rejection applies: never a type or tag override. */
  lemma RejectReviewSpec(st: string, rev: string, nt: string)
    requires Lower(Trim(st)) == "rejected" && rev != "" && nt != "" && |nt| <= NotesMax
    ensures ReviewOf(st, Some(rev), Some(nt), None, None) == Review(st, true, None, None, rev, nt)
  {
  }

  // ------------------------------------------------------------ the tables

  /** The candidate table and the catalog, as the RAG database holds them. */
  class Store {
    var candidates: Candidates
    var catalog: Catalog

    constructor (rows: Candidates, cat: Catalog)
      ensures candidates == rows && catalog == cat
    {
      candidates := rows;
      catalog := cat;
    }

    /**
     * `fetch_candidate_types`: for every non-empty phrase key among the given
     * ones that some row has, the type of one of its most frequent rows.
     */
    method TypesByKeys(keys: seq<string>) returns (out: map<string, string>)
      ensures out.Keys == KnownKeys(candidates, keys)
      ensures forall k :: k in out ==> out[k] in Types && MostFrequentType(candidates, k, out[k])
    {
      out := map[];
      if keys == [] {
        return;
      }
      var groups := map k | k in KnownKeys(candidates, keys) :: RowsWithKey(candidates, k);
      out := MostFrequentTypes(candidates, groups);
    }

    /**
     * `resolve_normalized_to_ids`: the rows with the phrase's key in the
     * given state; only when there is none, the fallback match on a
     * contained phrase, at most 50 rows, most frequent first.
     */
    method ResolveIds(normalized: string, stateFilter: string) returns (ids: seq<string>)
      ensures var nk := PhraseKey(normalized);
        && (nk == "" ==> ids == [])
        && NoRepeats(ids)
        && (nk != "" && ExactIds(candidates, nk, stateFilter) != {} ==>
              forall i :: i in ids <==> i in ExactIds(candidates, nk, stateFilter))
        && (nk != "" && ExactIds(candidates, nk, stateFilter) == {} ==>
              FuzzyPick(candidates, FuzzyIds(candidates, nk, stateFilter), ids))
    {
      var nk := PhraseKey(normalized);
      if nk == "" {
        return [];
      }
      var exact := ExactIds(candidates, nk, stateFilter);
      if exact != {} {
        ids := LexTable.ListOfSet(exact);
        return;
      }
      var m := FuzzyIds(candidates, nk, stateFilter);
      var listed := LexTable.ListOfSet(m);
      ids := TopFrequent(candidates, m, listed);
    }

    /**
     * `update_candidate_state_by_ids`: review every row whose id is one of
     * the cleaned ids; nothing happens for an empty or all-blank list. The
     * result is the number of rows updated.
     */
    method UpdateByIds(ids: seq<string>, newState: string, reviewer: Option<string>, notes: Option<string>,
                       candidateType: Option<string>, proposedTag: Option<string>) returns (count: nat)
      modifies this
      ensures candidates == ReviewRows(old(candidates), CleanIds(ids),
                                       ReviewOf(newState, reviewer, notes, candidateType, proposedTag))
      ensures count == |ByIds(old(candidates), ids)|
      ensures CleanIds(ids) == {} ==> candidates == old(candidates) && count == 0
      ensures catalog == old(catalog)
    {
      var v := ReviewOf(newState, reviewer, notes, candidateType, proposedTag);
      if ids == [] || CleanIds(ids) == {} {
        ReviewRowsSpec(candidates, CleanIds(ids), v);
        assert ByIds(candidates, ids) == {};
        return 0;
      }
      var clean := CleanIds(ids);
      count := |ByIds(candidates, ids)|;
      candidates := ReviewRows(candidates, clean, v);
    }

    /**
     * `update_candidate_state_in_rag`: review the rows still `proposed`
     * whose phrase key is the given phrase's key; the result is the number
     * of rows updated.
     */
    method UpdateByPhrase(normalized: string, newState: string, reviewer: Option<string>, notes: Option<string>,
                          candidateType: Option<string>, proposedTag: Option<string>) returns (count: nat)
      modifies this
      ensures candidates == ReviewRows(old(candidates), ProposedWithKey(old(candidates), PhraseKey(normalized)),
                                       ReviewOf(newState, reviewer, notes, candidateType, proposedTag))
      ensures count == |ProposedWithKey(old(candidates), PhraseKey(normalized))|
      ensures catalog == old(catalog)
    {
      var hit := ProposedWithKey(candidates, PhraseKey(normalized));
      count := |hit|;
      candidates := ReviewRows(candidates, hit, ReviewOf(newState, reviewer, notes, candidateType, proposedTag));
    }

    /**
     * `upsert_catalog`. The write is best effort: when the database refuses
     * it (`fails`), the error is swallowed and the catalog stays as it was.
     */
    method UpsertCatalog(candidateType: string, normalizedKey: string, proposedTagKey: string,
                         proposedTag: Option<string>, state: string, reviewer: Option<string>,
                         notes: Option<string>, fails: bool)
      modifies this
      ensures catalog == if fails then old(catalog)
        else CatalogUpsert(old(catalog), candidateType, normalizedKey, proposedTagKey, proposedTag, state, reviewer, notes)
      ensures candidates == old(candidates)
    {
      if !fails {
        catalog := CatalogUpsert(catalog, candidateType, normalizedKey, proposedTagKey, proposedTag, state, reviewer, notes);
      }
    }

    /**
     * `reject_candidate_by_ids`: reject the rows by id, and only when some
     * row changed record the rejection of the phrase in the catalog, with an
     * empty tag key. `catalogFails` is the outcome of that best-effort write.
     */
    method RejectByIds(ids: seq<string>, normalizedForCatalog: string, reviewer: Option<string>,
                       notes: Option<string>, candidateType: Option<string>,
                       lookup: Option<map<string, string>>, catalogFails: bool)
      returns (rows: nat, err: Option<string>)
      modifies this
      ensures ids == [] ==>
        (rows == 0 && err == Some("no_ids") && candidates == old(candidates) && catalog == old(catalog))
      ensures ids != [] ==> candidates == ReviewRows(old(candidates), CleanIds(ids),
        Review("rejected", true, None, None, OrElse(reviewer, DefaultReviewer), RejectNotes(notes)))
      ensures ids != [] ==> rows == |ByIds(old(candidates), ids)|
      ensures ids != [] && rows == 0 ==> err == Some("no_rows_updated") && catalog == old(catalog)
      ensures ids != [] && rows > 0 ==> err.None? && catalog == if catalogFails then old(catalog)
        else CatalogUpsert(old(catalog), RejectType(candidateType, lookup, ids[0]), PhraseKey(normalizedForCatalog),
                           "", None, "rejected", Some(OrElse(reviewer, DefaultReviewer)), Some(RejectNotes(notes)))
    {
      if ids == [] {
        return 0, Some("no_ids");
      }
      var nk := PhraseKey(normalizedForCatalog);
      var rev := OrElse(reviewer, DefaultReviewer);
      var nt := RejectNotes(notes);
      var ct := RejectType(candidateType, lookup, ids[0]);
      RejectedWord();
      RejectReviewSpec("rejected", rev, nt);
      rows := UpdateByIds(ids, "rejected", Some(rev), Some(nt), None, None);
      if rows == 0 {
        return 0, Some("no_rows_updated");
      }
      UpsertCatalog(ct, nk, "", None, "rejected", Some(rev), Some(nt), catalogFails);
      err := None;
    }

    /**
     * `reject_candidate_in_rag`: reject the proposed rows of a phrase, and
     * only when some row changed record the rejection in the catalog under
     * the phrase stripped and lower-cased.
     */
    method RejectByPhrase(normalized: string, reviewer: Option<string>, notes: Option<string>,
                          candidateType: Option<string>, lookup: Option<map<string, string>>, catalogFails: bool)
      returns (rows: nat, err: Option<string>)
      modifies this
      ensures candidates == ReviewRows(old(candidates), ProposedWithKey(old(candidates), PhraseKey(normalized)),
        Review("rejected", true, None, None, OrElse(reviewer, DefaultReviewer), RejectNotes(notes)))
      ensures rows == |ProposedWithKey(old(candidates), PhraseKey(normalized))|
      ensures rows == 0 ==> err == Some("no_rows_updated") && catalog == old(catalog)
      ensures rows > 0 ==> err.None? && catalog == if catalogFails then old(catalog)
        else CatalogUpsert(old(catalog), RejectType(candidateType, lookup, Lower(Trim(normalized))),
                           Lower(Trim(normalized)), "", None, "rejected",
                           Some(OrElse(reviewer, DefaultReviewer)), Some(RejectNotes(notes)))
    {
      var nk := Lower(Trim(normalized));
      var rev := OrElse(reviewer, DefaultReviewer);
      var nt := RejectNotes(notes);
      var ct := RejectType(candidateType, lookup, nk);
      RejectedWord();
      RejectReviewSpec("rejected", rev, nt);
      rows := UpdateByPhrase(normalized, "rejected", Some(rev), Some(nt), None, None);
      if rows == 0 {
        return 0, Some("no_rows_updated");
      }
      UpsertCatalog(ct, nk, "", None, "rejected", Some(rev), Some(nt), catalogFails);
      err := None;
    }
  }

  /**
   * A rejected phrase leaves the proposed rows: after the rejection no row
   * with its key is still proposed, and when some row changed, one with its
   * key is rejected.
   */
  lemma RejectedLeavesProposed(rows: Candidates, normalized: string, reviewer: Option<string>, notes: Option<string>)
    ensures var nk := PhraseKey(normalized);
      var r := ReviewRows(rows, ProposedWithKey(rows, nk),
                          Review("rejected", true, None, None, OrElse(reviewer, DefaultReviewer), RejectNotes(notes)));
      && (forall i :: i in r && RowKey(r[i]) == nk ==> r[i].state != "proposed")
      && (ProposedWithKey(rows, nk) != {} ==> exists i :: i in r && RowKey(r[i]) == nk && r[i].state == "rejected")
  {
    var nk := PhraseKey(normalized);
    var v := Review("rejected", true, None, None, OrElse(reviewer, DefaultReviewer), RejectNotes(notes));
    UpdateByPhraseSpec(rows, nk, v);
    if ProposedWithKey(rows, nk) != {} {
      var i :| i in ProposedWithKey(rows, nk);
      assert i in ReviewRows(rows, ProposedWithKey(rows, nk), v);
    }
  }

  // ------------------------------------------------------------ the fallback order

  /**
   * `ORDER BY COALESCE(occurrences, 1) DESC LIMIT 50`, then the rows
   * without an id dropped. `listed` is the matching ids in the order the
   * database reads them.
   */
  method TopFrequent(rows: Candidates, m: set<string>, listed: seq<string>) returns (ids: seq<string>)
    requires NoRepeats(listed) && forall i :: i in listed <==> i in m
    requires |listed| == |m|
    ensures NoRepeats(ids) && FuzzyPick(rows, m, ids)
  {
    OccDescOrders(rows);
    var sorted := SortBy(listed, OccDesc(rows));
    SortBySpec(listed, OccDesc(rows));
    PermutationNoRepeats(listed, sorted);
    var top := if |sorted| <= FuzzyLimit then sorted else sorted[..FuzzyLimit];
    ids := Filter(top, (i: string) => i != "");
    FilterKeepsOrder(top, (i: string) => i != "", OccDesc(rows));
    TopFrequentPick(rows, m, sorted, top, ids);
  }

  /** The facts of `FuzzyPick` about a sorted list, its first 50 and those with an id. */
  lemma TopFrequentPick(rows: Candidates, m: set<string>, sorted: seq<string>, top: seq<string>, ids: seq<string>)
    requires SortedBy(sorted, OccDesc(rows)) && NoRepeats(sorted)
    requires forall i :: i in sorted <==> i in m
    requires |sorted| == |m|
    requires top == if |sorted| <= FuzzyLimit then sorted else sorted[..FuzzyLimit]
    requires forall i :: i in ids <==> i in top && i != ""
    requires SortedBy(ids, OccDesc(rows)) && |ids| <= |top|
    ensures FuzzyPick(rows, m, ids)
  {
    forall i, j | i in m && i != "" && i !in ids && j in ids
      ensures OccOf(rows, i) <= OccOf(rows, j)
    {
      var p :| 0 <= p < |sorted| && sorted[p] == i;
      var q :| 0 <= q < |top| && top[q] == j;
      assert sorted[q] == j;
      PrefixMember(sorted, top, p);
    }
  }

  lemma PrefixMember<T>(s: seq<T>, top: seq<T>, p: nat)
    requires |top| <= |s| && top == s[..|top|] && p < |s|
    ensures p < |top| ==> s[p] in top
  {
    if p < |top| {
      assert top[p] == s[p];
    }
  }

  /** A rearrangement of a list without repeats has none. */
  lemma PermutationNoRepeats<T>(a: seq<T>, b: seq<T>)
    requires NoRepeats(a) && multiset(a) == multiset(b)
    ensures NoRepeats(b)
    ensures forall x :: x in a <==> x in b
  {
    forall x ensures multiset(a)[x] <= 1 {
      NoRepeatsCount(a, x);
    }
    forall i, j | 0 <= i < j < |b| ensures b[i] != b[j] {
      TwoCopies(b, i, j);
    }
    forall x ensures x in a <==> x in b {
      assert x in a <==> x in multiset(a);
      assert x in b <==> x in multiset(b);
    }
  }

  /** Equal elements at two positions are two copies. */
  lemma TwoCopies<T>(b: seq<T>, i: nat, j: nat)
    requires i < j < |b|
    ensures b[i] == b[j] ==> multiset(b)[b[i]] >= 2
  {
    assert b == b[..j] + b[j..];
    assert b[i] in multiset(b[..j]) && b[j] in multiset(b[j..]);
  }

  /** An element occurs at most once in a list without repeats. */
  lemma {:induction false} NoRepeatsCount<T>(a: seq<T>, x: T)
    requires NoRepeats(a)
    ensures multiset(a)[x] <= 1
    decreases |a|
  {
    if a != [] {
      NoRepeatsCount(a[1..], x);
      assert a == [a[0]] + a[1..];
      if a[0] == x {
        assert x !in a[1..];
        assert multiset(a[1..])[x] == 0;
      }
    }
  }

  /** Dropping elements keeps the order of those left and adds no repeats. */
  lemma {:induction false} FilterKeepsOrder<T(!new)>(xs: seq<T>, p: T -> bool, le: (T, T) -> bool)
    requires SortedBy(xs, le)
    ensures SortedBy(Filter(xs, p), le)
    ensures NoRepeats(xs) ==> NoRepeats(Filter(xs, p))
    decreases |xs|
  {
    if xs != [] {
      var init := xs[..|xs| - 1];
      var last := xs[|xs| - 1];
      FilterKeepsOrder(init, p, le);
      var f := Filter(init, p);
      forall y | y in f ensures le(y, last) && (NoRepeats(xs) ==> y != last) {
        var k :| 0 <= k < |init| && init[k] == y;
        assert xs[k] == y;
      }
    }
  }
}
