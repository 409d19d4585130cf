/**
 * The one-time lexicon reload script. `_entry` builds the clean two-level
 * taxonomy (a kind j/d/p, a root domain code or a `domain.tag` code), and
 * `main` validates all entries, reports the counts, and — unless it is a dry
 * run — replaces the QA lexicon table, bumps the lexicon revision and clears
 * the RAG candidate tables.
 */
module ReloadLexicon {
  import opened Text

  const Kinds: set<string> := {"j", "d", "p"}

  /** One character of a code segment: `[a-z0-9_]`. */
  predicate SegmentChar(c: char) { IsLowerAlpha(c) || IsDigit(c) || c == '_' }

  /** One lowercase_snake segment, `[a-z][a-z0-9_]*`. */
  predicate Segment(s: string)
  {
    |s| > 0 && IsLowerAlpha(s[0]) && forall i :: 1 <= i < |s| ==> SegmentChar(s[i])
  }

  /** The body of `TAG_CODE_RE`: one segment, or two joined by a single dot. */
  predicate Grammar(s: string)
  {
    Segment(s) || exists i :: 0 < i < |s| && s[i] == '.' && Segment(s[..i]) && Segment(s[i + 1..])
  }

  /**
   * `TAG_CODE_RE.match(code)`. The pattern ends in `$`, which in Python also
   * matches just before a final newline, so one trailing `\n` is accepted.
   */
  predicate CodeMatches(code: string)
  {
    Grammar(code) || (|code| > 0 && code[|code| - 1] == '\n' && Grammar(code[..|code| - 1]))
  }

  lemma SegmentHasNoDot(s: string)
    requires Segment(s)
    ensures '.' !in s
  {
    if '.' in s {
      var i :| 0 <= i < |s| && s[i] == '.';
      assert SegmentChar(s[i]);
    }
  }

  /** A code in the grammar holds at most one dot, and holds one exactly when it is `domain.tag`. */
  lemma GrammarOneDot(s: string)
    requires Grammar(s)
    ensures forall i, j :: 0 <= i < |s| && 0 <= j < |s| && s[i] == '.' && s[j] == '.' ==> i == j
    ensures '.' in s <==> !Segment(s)
  {
    if Segment(s) {
      SegmentHasNoDot(s);
    } else {
      var k :| 0 < k < |s| && s[k] == '.' && Segment(s[..k]) && Segment(s[k + 1..]);
      SegmentHasNoDot(s[..k]);
      SegmentHasNoDot(s[k + 1..]);
      assert forall i :: 0 <= i < k ==> s[i] == s[..k][i];
      assert forall i :: k < i < |s| ==> s[i] == s[k + 1..][i - k - 1];
    }
  }

  /** Every domain and every `domain.tag` code of segments is in the grammar; three segments are not. */
  lemma GrammarOfSegments(a: string, b: string, c: string)
    requires Segment(a) && Segment(b) && Segment(c)
    ensures Grammar(a) && Grammar(a + "." + b)
    ensures !Grammar(a + "." + b + "." + c)
  {
    var s := a + "." + b;
    assert s[|a|] == '.' && s[..|a|] == a && s[|a| + 1..] == b;
    var t := s + "." + c;
    assert t[|a|] == '.' && t[|s|] == '.';
    GrammarOneDotContra(t, |a|, |s|);
  }

  lemma GrammarOneDotContra(t: string, i: nat, j: nat)
    requires i < j < |t| && t[i] == '.' && t[j] == '.'
    ensures !Grammar(t)
  {
    if Grammar(t) {
      GrammarOneDot(t);
    }
  }

  /** `re.match` with `$` lets a code with one trailing newline through, a code outside the grammar. */
  lemma TrailingNewlineMatches()
    ensures CodeMatches("state\n") && !Grammar("state\n")
  {
    var s := "state\n";
    assert s[..|s| - 1] == "state";
    assert Segment("state");
    assert !Segment(s) by { assert !SegmentChar(s[5]); }
    assert forall i :: 0 <= i < |s| ==> s[i] != '.';
  }

  /** `spec["weak_keywords"]`. */
  datatype WeakKeywords = WeakKeywords(anyOf: seq<string>, minHits: nat)

  /**
   * The JSON `spec` of an entry; `None` is a key the dictionary does not
   * hold. Score values are kept as integers.
   */
  datatype Spec = Spec(
    description: string, strongPhrases: Option<seq<string>>, weakKeywords: Option<WeakKeywords>,
    aliases: Option<seq<string>>, refutedWords: Option<seq<string>>, scores: Option<map<string, int>>)

  /** A row of `policy_lexicon_entries` as `_entry` builds it. */
  datatype Entry = Entry(id: string, kind: string, code: string, parentCode: Option<string>, spec: Spec, active: bool)

  /** The `AssertionError` an entry can raise, and the aborts of `main`. */
  datatype Problem =
    | InvalidKind(kind: string)
    | InvalidCode(code: string)
    | ChildWithoutParent(code: string)
    | RootWithParent(code: string)
    | ContainerMetadata(kind: string, code: string, field: string)
    | UnknownKind(kind: string)
    | Duplicate(kind: string, code: string)
    | ParentNotDefined(kind: string, code: string, parent: string)
    | MissingQaUrl

  datatype Result<T> = Ok(value: T) | Failed(problem: Problem)

  /** The optional list fields of the spec: only kept when non-empty, as `if strong_phrases:` does. */
  function Present(xs: seq<string>): Option<seq<string>> { if xs == [] then None else Some(xs) }

  /** A root (domain) code holds no dot; a tag code does. */
  predicate IsTagCode(code: string) { '.' in code }

  /** What every entry `_entry` returns satisfies. */
  predicate Built(e: Entry)
  {
    && e.kind in Kinds
    && CodeMatches(e.code)
    && (IsTagCode(e.code) ==> e.parentCode.Some?)
    && (!IsTagCode(e.code) ==>
          e.parentCode.None? && e.spec.strongPhrases.None? && e.spec.aliases.None? && e.spec.refutedWords.None?)
    && (e.spec.strongPhrases.Some? ==> e.spec.strongPhrases.value != [])
    && (e.spec.aliases.Some? ==> e.spec.aliases.value != [])
    && (e.spec.refutedWords.Some? ==> e.spec.refutedWords.value != [])
    && (e.spec.weakKeywords.Some? ==> e.spec.weakKeywords.value.anyOf != [] && e.spec.weakKeywords.value.minHits == 1)
    && (e.spec.scores.Some? ==> e.spec.scores.value != map[])
    && e.active
  }

  /**
   * `_entry`: the asserts in their order, then the spec dictionary. A list
   * argument left at `None` is the empty list here; the two behave the same.
   * The fresh `uuid4` is the parameter `id`.
   */
  function MakeEntry(
    id: string, kind: string, code: string, description: string,
    strong: seq<string>, weak: seq<string>, aliases: seq<string>, refuted: seq<string>,
    scores: map<string, int>, parent: Option<string>): (r: Result<Entry>)
    ensures r.Ok? <==>
      && kind in Kinds && CodeMatches(code)
      && (IsTagCode(code) ==> parent.Some?)
      && (!IsTagCode(code) ==> parent.None? && strong == [] && aliases == [] && refuted == [])
    ensures kind !in Kinds ==> r == Failed(InvalidKind(kind))
    ensures kind in Kinds && !CodeMatches(code) ==> r == Failed(InvalidCode(code))
    ensures r.Ok? ==> Built(r.value)
    ensures r.Ok? ==>
      && r.value.id == id && r.value.kind == kind && r.value.code == code && r.value.parentCode == parent
      && r.value.spec.description == description
      && r.value.spec.strongPhrases == Present(strong)
      && r.value.spec.aliases == Present(aliases)
      && r.value.spec.refutedWords == Present(refuted)
      && (r.value.spec.weakKeywords.Some? <==> weak != [])
      && (weak != [] ==> r.value.spec.weakKeywords.value.anyOf == weak)
      && (r.value.spec.scores.Some? <==> scores != map[])
  {
    if kind !in Kinds then Failed(InvalidKind(kind))
    else if !CodeMatches(code) then Failed(InvalidCode(code))
    else if IsTagCode(code) && parent.None? then Failed(ChildWithoutParent(code))
    else if !IsTagCode(code) && parent.Some? then Failed(RootWithParent(code))
    else if !IsTagCode(code) && strong != [] then Failed(ContainerMetadata(kind, code, "strong_phrases"))
    else if !IsTagCode(code) && aliases != [] then Failed(ContainerMetadata(kind, code, "aliases"))
    else if !IsTagCode(code) && refuted != [] then Failed(ContainerMetadata(kind, code, "refuted_words"))
    else
      var spec := Spec(
        description, Present(strong),
        if weak == [] then None else Some(WeakKeywords(weak, 1)),
        Present(aliases), Present(refuted),
        if scores == map[] then None else Some(scores));
      Ok(Entry(id, kind, code, parent, spec, true))
  }

  // ---------------------------------------------------------------------
  // Validation in `main`
  // ---------------------------------------------------------------------

  /** `e["parent_code"]` is truthy: present and not empty. */
  predicate HasParent(e: Entry) { e.parentCode.Some? && e.parentCode.value != "" }

  /** `codes_by_kind[k]` after the entries `es`. */
  ghost function CodesOf(es: seq<Entry>, k: string): set<string>
  {
    set j | 0 <= j < |es| && es[j].kind == k :: es[j].code
  }

  ghost predicate KnownKinds(es: seq<Entry>) { forall i :: 0 <= i < |es| ==> es[i].kind in Kinds }

  ghost predicate NoDuplicates(es: seq<Entry>)
  {
    forall i, j :: 0 <= i < j < |es| ==> !(es[i].kind == es[j].kind && es[i].code == es[j].code)
  }

  /** Each parent named is the code of an entry of the same kind at or before the child. */
  ghost predicate ParentsUpTo(es: seq<Entry>)
  {
    forall i :: 0 <= i < |es| && HasParent(es[i]) ==> es[i].parentCode.value in CodesOf(es[..i + 1], es[i].kind)
  }

  /** Each parent named is the code of an entry of the same kind strictly before the child. */
  ghost predicate ParentsBefore(es: seq<Entry>)
  {
    forall i :: 0 <= i < |es| && HasParent(es[i]) ==> es[i].parentCode.value in CodesOf(es[..i], es[i].kind)
  }

  /** What the validation loop of `main`, as written, lets through. */
  ghost predicate PassesAsWritten(es: seq<Entry>) { KnownKinds(es) && NoDuplicates(es) && ParentsUpTo(es) }

  /** What the validation loop is meant to let through: parents defined before their children. */
  ghost predicate PassesValidation(es: seq<Entry>) { KnownKinds(es) && NoDuplicates(es) && ParentsBefore(es) }

  lemma CodesOfStep(es: seq<Entry>, i: nat, k: string)
    requires i < |es|
    ensures CodesOf(es[..i + 1], k) == CodesOf(es[..i], k) + (if es[i].kind == k then {es[i].code} else {})
  {
    var a, b := es[..i + 1], es[..i];
    forall c | c in CodesOf(a, k) ensures c in CodesOf(b, k) + (if es[i].kind == k then {es[i].code} else {})
    {
      var j :| 0 <= j < |a| && a[j].kind == k && a[j].code == c;
      if j < i { assert b[j] == a[j]; }
    }
    forall c | c in CodesOf(b, k) ensures c in CodesOf(a, k)
    {
      var j :| 0 <= j < |b| && b[j].kind == k && b[j].code == c;
      assert a[j] == b[j];
    }
    if es[i].kind == k { assert a[i] == es[i]; }
  }

  /** An entry whose (kind, code) is already among the earlier ones makes the whole list a duplicate. */
  lemma DuplicateBreaks(es: seq<Entry>, i: nat)
    requires i < |es| && es[i].code in CodesOf(es[..i], es[i].kind)
    ensures !NoDuplicates(es)
  {
    var j :| 0 <= j < i && es[..i][j].kind == es[i].kind && es[..i][j].code == es[i].code;
    assert es[j] == es[..i][j];
  }

  /** The prefix of a passing list still satisfies the three rules. */
  lemma PrefixStep(es: seq<Entry>, i: nat, strict: bool)
    requires i < |es|
    requires KnownKinds(es[..i]) && NoDuplicates(es[..i])
    requires if strict then ParentsBefore(es[..i]) else ParentsUpTo(es[..i])
    requires es[i].kind in Kinds && es[i].code !in CodesOf(es[..i], es[i].kind)
    requires HasParent(es[i]) ==>
      es[i].parentCode.value in (if strict then CodesOf(es[..i], es[i].kind) else CodesOf(es[..i + 1], es[i].kind))
    ensures KnownKinds(es[..i + 1]) && NoDuplicates(es[..i + 1])
    ensures if strict then ParentsBefore(es[..i + 1]) else ParentsUpTo(es[..i + 1])
  {
    var a, b := es[..i + 1], es[..i];
    assert forall j :: 0 <= j < i ==> a[j] == b[j];
    assert a[i] == es[i];
    forall j | 0 <= j < i && a[j].kind == a[i].kind
      ensures a[j].code != a[i].code
    {
      assert a[j].code in CodesOf(b, es[i].kind);
    }
    forall j | 0 <= j <= i && HasParent(a[j])
      ensures a[j].parentCode.value in (if strict then CodesOf(a[..j], a[j].kind) else CodesOf(a[..j + 1], a[j].kind))
    {
      if j < i {
        assert a[..j] == b[..j] && a[..j + 1] == b[..j + 1];
      } else {
        assert a[..j] == b && a[..j + 1] == a && b == es[..i] && a == es[..i + 1];
      }
    }
  }

  /** A parent missing from the codes seen breaks the rule for the whole list. */
  lemma ParentBreaks(es: seq<Entry>, i: nat, strict: bool)
    requires i < |es| && HasParent(es[i])
    requires es[i].parentCode.value !in (if strict then CodesOf(es[..i], es[i].kind) else CodesOf(es[..i + 1], es[i].kind))
    ensures if strict then !ParentsBefore(es) else !ParentsUpTo(es)
  {
  }

  /**
   * The first validation loop of `main` as written: it records the code in
   * `codes_by_kind` BEFORE it checks the parent, so an entry naming itself as
   * its parent passes. A kind outside j/d/p is the `KeyError` of
   * `codes_by_kind[k]`.
   */
  method ValidateAsWritten(es: seq<Entry>) returns (p: Option<Problem>)
    ensures p.None? <==> PassesAsWritten(es)
    ensures p.Some? ==> exists i :: (0 <= i < |es| && p.value in
      {UnknownKind(es[i].kind), Duplicate(es[i].kind, es[i].code),
       ParentNotDefined(es[i].kind, es[i].code, OrEmpty(es[i].parentCode))})
  {
    p := Validate(es, false);
  }

  /** The parent's name, `""` for none. */
  function OrEmpty(x: Option<string>): string { if x.Some? then x.value else "" }

  /**
   * The first validation loop of `main`, corrected: the parent is looked up
   * among the codes defined before the entry, then the code is recorded.
   */
  method ValidateEntries(es: seq<Entry>) returns (p: Option<Problem>)
    ensures p.None? <==> PassesValidation(es)
    ensures p.Some? ==> exists i :: (0 <= i < |es| && p.value in
      {UnknownKind(es[i].kind), Duplicate(es[i].kind, es[i].code),
       ParentNotDefined(es[i].kind, es[i].code, OrEmpty(es[i].parentCode))})
  {
    p := Validate(es, true);
  }

  /** The loop shared by both: `strict` chooses whether the parent is checked before the code is recorded. */
  method Validate(es: seq<Entry>, strict: bool) returns (p: Option<Problem>)
    ensures p.None? <==> KnownKinds(es) && NoDuplicates(es) && (if strict then ParentsBefore(es) else ParentsUpTo(es))
    ensures p.Some? ==> exists i :: (0 <= i < |es| && p.value in
      {UnknownKind(es[i].kind), Duplicate(es[i].kind, es[i].code),
       ParentNotDefined(es[i].kind, es[i].code, OrEmpty(es[i].parentCode))})
  {
    var codes: map<string, set<string>> := map["j" := {}, "d" := {}, "p" := {}];
    var i := 0;
    while i < |es|
      invariant 0 <= i <= |es|
      invariant codes.Keys == Kinds
      invariant forall k :: k in Kinds ==> codes[k] == CodesOf(es[..i], k)
      invariant KnownKinds(es[..i]) && NoDuplicates(es[..i])
      invariant if strict then ParentsBefore(es[..i]) else ParentsUpTo(es[..i])
    {
      var e := es[i];
      if e.kind !in codes {
        assert !KnownKinds(es);
        return Some(UnknownKind(e.kind));
      }
      if e.code in codes[e.kind] {
        DuplicateBreaks(es, i);
        return Some(Duplicate(e.kind, e.code));
      }
      CodesOfStep(es, i, e.kind);
      if strict && HasParent(e) && e.parentCode.value !in codes[e.kind] {
        ParentBreaks(es, i, true);
        return Some(ParentNotDefined(e.kind, e.code, OrEmpty(e.parentCode)));
      }
      codes := codes[e.kind := codes[e.kind] + {e.code}];
      if !strict && HasParent(e) && e.parentCode.value !in codes[e.kind] {
        ParentBreaks(es, i, false);
        return Some(ParentNotDefined(e.kind, e.code, OrEmpty(e.parentCode)));
      }
      forall k | k in Kinds ensures codes[k] == CodesOf(es[..i + 1], k)
      {
        CodesOfStep(es, i, k);
      }
      PrefixStep(es, i, strict);
      i := i + 1;
    }
    assert es[..i] == es;
    p := None;
  }

  /**
   * The as-written loop accepts an entry that names itself as its parent, an
   * entry `_entry` builds without complaint; the corrected one refuses it.
   */
  lemma SelfParentAccepted()
    ensures var r := MakeEntry("id", "d", "a.b", "A", [], [], [], [], map[], Some("a.b"));
      && r.Ok?
      && PassesAsWritten([r.value])
      && !PassesValidation([r.value])
  {
    var r := MakeEntry("id", "d", "a.b", "A", [], [], [], [], map[], Some("a.b"));
    var s := "a.b";
    assert s[1] == '.' && s[..1] == "a" && s[2..] == "b";
    assert Segment("a") && Segment("b");
    assert Grammar(s);
    assert IsTagCode(s) by { assert s[1] == '.'; }
    var es := [r.value];
    assert es[..1] == es;
    assert es[0].kind == "d" && es[0].code == "a.b";
    assert "a.b" in CodesOf(es[..1], "d");
    assert CodesOf(es[..0], "d") == {};
  }

  /** The corrected rule is stricter than the one written: whatever it passes, the loop as written passes too. */
  lemma CorrectedIsStricter(es: seq<Entry>)
    requires PassesValidation(es)
    ensures PassesAsWritten(es)
  {
    forall i | 0 <= i < |es| && HasParent(es[i])
      ensures es[i].parentCode.value in CodesOf(es[..i + 1], es[i].kind)
    {
      CodesOfStep(es, i, es[i].kind);
    }
  }

  /** The second loop of `main` finds no domain container holding matching metadata. */
  ghost predicate ContainersClean(es: seq<Entry>)
  {
    forall i :: 0 <= i < |es| && !IsTagCode(es[i].code) ==> ContainerField(es[i].spec) == ""
  }

  /** The first of strong_phrases, aliases, refuted_words a container's spec holds non-empty, `""` for none. */
  function ContainerField(s: Spec): (f: string)
    ensures f == "" <==>
      (s.strongPhrases.None? || s.strongPhrases.value == []) && (s.aliases.None? || s.aliases.value == [])
      && (s.refutedWords.None? || s.refutedWords.value == [])
  {
    if s.strongPhrases.Some? && s.strongPhrases.value != [] then "strong_phrases"
    else if s.aliases.Some? && s.aliases.value != [] then "aliases"
    else if s.refutedWords.Some? && s.refutedWords.value != [] then "refuted_words"
    else ""
  }

  /** The second validation loop of `main`: domain containers are checked again for matching metadata. */
  method RecheckContainers(es: seq<Entry>) returns (p: Option<Problem>)
    ensures p.None? <==> ContainersClean(es)
    ensures p.Some? ==> exists i :: (0 <= i < |es| && !IsTagCode(es[i].code) &&
      p.value == ContainerMetadata(es[i].kind, es[i].code, ContainerField(es[i].spec)))
  {
    var i := 0;
    while i < |es|
      invariant 0 <= i <= |es|
      invariant forall j :: 0 <= j < i && !IsTagCode(es[j].code) ==> ContainerField(es[j].spec) == ""
    {
      if !IsTagCode(es[i].code) && ContainerField(es[i].spec) != "" {
        return Some(ContainerMetadata(es[i].kind, es[i].code, ContainerField(es[i].spec)));
      }
      i := i + 1;
    }
    return None;
  }

  /** Entries `_entry` built never trip the second loop: it only repeats the builder's asserts. */
  lemma BuiltEntriesAreClean(es: seq<Entry>)
    requires forall i :: 0 <= i < |es| ==> Built(es[i])
    ensures ContainersClean(es)
    ensures KnownKinds(es)
  {
  }

  // ---------------------------------------------------------------------
  // Counts, revision, and the reload itself
  // ---------------------------------------------------------------------

  /** The figures `main` reports. */
  datatype Counts = Counts(total: nat, j: nat, d: nat, p: nat, domains: nat, tags: nat)

  function CountsOf(es: seq<Entry>): (c: Counts)
    ensures c.total == |es|
  {
    Counts(
      |es|,
      CountIf(es, (e: Entry) => e.kind == "j"), CountIf(es, (e: Entry) => e.kind == "d"),
      CountIf(es, (e: Entry) => e.kind == "p"),
      CountIf(es, (e: Entry) => !IsTagCode(e.code)), CountIf(es, (e: Entry) => IsTagCode(e.code)))
  }

  /** J + D + P is the total when every kind is j, d or p; domains + tags always is. */
  lemma {:induction false} CountsAddUp(es: seq<Entry>)
    ensures CountsOf(es).domains + CountsOf(es).tags == CountsOf(es).total
    ensures KnownKinds(es) ==> CountsOf(es).j + CountsOf(es).d + CountsOf(es).p == CountsOf(es).total
    decreases |es|
  {
    CountIfSplit(es, (e: Entry) => !IsTagCode(e.code), (e: Entry) => IsTagCode(e.code));
    if es != [] {
      var n := |es|;
      assert forall i :: 0 <= i < n - 1 ==> es[..n - 1][i] == es[i];
      CountsAddUp(es[..n - 1]);
    }
  }

  /** A row of `policy_lexicon_meta`; `COALESCE(revision, 0)` already applied. */
  datatype MetaRow = MetaRow(id: string, revision: int)

  /** The row `ORDER BY updated_at DESC LIMIT 1` finds; the table is kept in update order. */
  function Latest(meta: seq<MetaRow>): (r: Option<MetaRow>)
    ensures r.Some? <==> meta != []
    ensures r.Some? ==> r.value == meta[|meta| - 1]
  {
    if meta == [] then None else Some(meta[|meta| - 1])
  }

  /** The new revision: one more than the latest row's when it has an id, otherwise 1. */
  function NextRevision(latest: Option<MetaRow>): (r: int)
    ensures latest.Some? && latest.value.id != "" ==> r > latest.value.revision
    ensures latest.Some? && latest.value.id != "" && latest.value.revision >= 0 ==> r >= 1
    ensures !(latest.Some? && latest.value.id != "") ==> r == 1
  {
    if latest.Some? && latest.value.id != "" then latest.value.revision + 1 else 1
  }

  /** `main`'s outcome: an exit with status 1, a dry run, or a completed reload. */
  datatype Outcome = Exit(problem: Problem) | DryRun(counts: Counts) | Reloaded(counts: Counts, revision: int)

  /** An environment variable that is set and not empty. */
  predicate Truthy(v: Option<string>) { v.Some? && v.value != "" }

  /** The QA and RAG databases the script writes. */
  class Databases {
    /** `policy_lexicon_entries` in mobius_qa. */
    var entries: seq<Entry>
    /** `policy_lexicon_meta`, oldest update first. */
    var meta: seq<MetaRow>
    /** `policy_lexicon_candidates` and `policy_lexicon_candidate_catalog` in mobius_rag, by row id. */
    var candidates: seq<string>
    var catalog: seq<string>

    constructor(entries: seq<Entry>, meta: seq<MetaRow>, candidates: seq<string>, catalog: seq<string>)
      ensures this.entries == entries && this.meta == meta
      ensures this.candidates == candidates && this.catalog == catalog
    {
      this.entries := entries;
      this.meta := meta;
      this.candidates := candidates;
      this.catalog := catalog;
    }

    /**
     * `main`. Without `QA_DATABASE_URL` — even for a dry run — and on any
     * validation problem it exits and writes nothing; a dry run reports the
     * counts and writes nothing; otherwise the entries table is replaced,
     * the revision bumped (updating the latest meta row, or inserting one
     * with the fresh id `newMetaId` when there is none) and, with
     * `RAG_DATABASE_URL` set, both candidate tables emptied.
     */
    method Reload(es: seq<Entry>, dryRun: bool, qaUrl: Option<string>, ragUrl: Option<string>, newMetaId: string)
      returns (o: Outcome)
      requires newMetaId != ""
      modifies this
      ensures !Truthy(qaUrl) ==> o == Exit(MissingQaUrl)
      ensures o.Exit? || o.DryRun? ==>
        entries == old(entries) && meta == old(meta) && candidates == old(candidates) && catalog == old(catalog)
      ensures Truthy(qaUrl) && !(PassesValidation(es) && ContainersClean(es)) ==> o.Exit?
      ensures Truthy(qaUrl) && PassesValidation(es) && ContainersClean(es) ==>
        if dryRun then o == DryRun(CountsOf(es)) else o.Reloaded? && o.counts == CountsOf(es)
      ensures o.Reloaded? ==>
        && entries == es
        && o.revision == NextRevision(Latest(old(meta)))
        && Latest(meta).Some? && Latest(meta).value.revision == o.revision && Latest(meta).value.id != ""
        && |old(meta)| <= |meta| <= |old(meta)| + 1
        && (forall i :: 0 <= i < |meta| - 1 ==> i < |old(meta)| && meta[i] == old(meta)[i])
        && (Truthy(ragUrl) ==> candidates == [] && catalog == [])
        && (!Truthy(ragUrl) ==> candidates == old(candidates) && catalog == old(catalog))
    {
      if !Truthy(qaUrl) {
        return Exit(MissingQaUrl);
      }
      var p := ValidateEntries(es);
      if p.Some? {
        return Exit(p.value);
      }
      p := RecheckContainers(es);
      if p.Some? {
        return Exit(p.value);
      }
      var counts := CountsOf(es);
      if dryRun {
        return DryRun(counts);
      }
      entries := es;
      var latest := Latest(meta);
      var rev := NextRevision(latest);
      if latest.Some? && latest.value.id != "" {
        meta := meta[|meta| - 1 := MetaRow(latest.value.id, rev)];
      } else {
        meta := meta + [MetaRow(newMetaId, rev)];
      }
      if Truthy(ragUrl) {
        candidates := [];
        catalog := [];
      }
      return Reloaded(counts, rev);
    }
  }
}
