/**
 * The policy lexicon table (`policy_lexicon_entries`) and the lexicon
 * revision counter, with the service's tag edits (create or update, merge)
 * and the cleanup script's edits (merge into, rename, orphan parents,
 * spec normalisation).
 *
 * Rows are keyed by their id. Nothing in the schema makes (kind, code)
 * unique, so a lookup `... WHERE kind = k AND code = c LIMIT 1` may return
 * any matching row, and updates and deletes by (kind, code) touch them all.
 */
module LexTable {
  import opened Text
  import opened LexSpec
  import opened LexCleanup

  datatype Entry = Entry(kind: string, code: string, parent: Option<string>, spec: Spec, active: bool)

  type Rows = map<nat, Entry>

  predicate Is(e: Entry, k: string, c: string) { e.kind == k && e.code == c }

  /** Some row has this kind and code. */
  predicate HasEntry(es: Rows, k: string, c: string)
  {
    exists id :: id in es && Is(es[id], k, c)
  }

  predicate ChildOf(e: Entry, k: string, p: string) { e.kind == k && e.parent == Some(p) }

  /** `UPDATE ... SET parent_code = to WHERE kind = k AND parent_code = from` */
  function Reparented(es: Rows, k: string, from: string, to: string): Rows
  {
    map id | id in es :: if ChildOf(es[id], k, from) then es[id].(parent := Some(to)) else es[id]
  }

  /** `DELETE ... WHERE kind = k AND code = c` */
  function Deleted(es: Rows, k: string, c: string): Rows
  {
    map id | id in es && !Is(es[id], k, c) :: es[id]
  }

  /** `UPDATE ... SET spec = spec WHERE kind = k AND code = c` */
  function SpecSet(es: Rows, k: string, c: string, spec: Spec): Rows
  {
    map id | id in es :: if Is(es[id], k, c) then es[id].(spec := spec) else es[id]
  }

  /** The row count of the re-parenting update. */
  function ChildCount(es: Rows, k: string, p: string): nat
  {
    |set id | id in es && ChildOf(es[id], k, p)|
  }

  // ---------------------------------------------------------- merge

  /** `{str(p).strip() for p in xs}` */
  function TrimSet(xs: seq<Item>): set<string> { set x | x in xs :: Trim(Str(x)) }

  /**
   * The merge endpoint's source phrase set: the stripped strong and legacy
   * phrases of the source, and the source code with underscores read as
   * spaces.
   */
  function SourcePhrases(srcSpec: Spec, src: string): Option<set<string>>
  {
    var a := PhraseList(srcSpec, StrongKey);
    var b := PhraseList(srcSpec, PhrasesKey);
    if a.None? || b.None? then None
    else Some(TrimSet(a.value + b.value) + {Trim(ReplaceChar(src, '_', " "))})
  }

  /** The source phrases, non-empty and not already a stripped strong phrase of the target. */
  function NewPhraseSet(srcSpec: Spec, src: string, tgtSpec: Spec): Option<set<string>>
  {
    var s := SourcePhrases(srcSpec, src);
    var t := PhraseList(tgtSpec, StrongKey);
    if s.None? || t.None? then None
    else Some(set p | p in s.value && p != [] && p !in TrimSet(t.value))
  }

  /** The target spec with the new phrases appended to its strong list. */
  function MergedTarget(tgtSpec: Spec, added: seq<string>): Spec
    requires PhraseList(tgtSpec, StrongKey).Some?
  {
    tgtSpec[StrongKey := JList(PhraseList(tgtSpec, StrongKey).value + Strs(added))]
  }

  /**
   * The target's strong list keeps its old entries in front, and its
   * stripped phrases are now the old ones together with every non-empty
   * source phrase, each new one added once.
   */
  lemma MergedTargetSpec(srcSpec: Spec, src: string, tgtSpec: Spec, added: seq<string>)
    requires NewPhraseSet(srcSpec, src, tgtSpec).Some?
    requires NoRepeats(added) && forall p :: p in added <==> p in NewPhraseSet(srcSpec, src, tgtSpec).value
    ensures var r := MergedTarget(tgtSpec, added);
      var old_ := PhraseList(tgtSpec, StrongKey).value;
      PhraseList(r, StrongKey).Some?
      && old_ <= PhraseList(r, StrongKey).value
      && TrimSet(PhraseList(r, StrongKey).value) == TrimSet(old_) + (SourcePhrases(srcSpec, src).value - {""})
      && forall k :: k in tgtSpec && k != StrongKey ==> k in r && r[k] == tgtSpec[k]
  {
    MergedTargetShape(tgtSpec, added);
    MergedTargetPhrases(srcSpec, src, tgtSpec, added);
  }

  /** The strong list is the old one with the added phrases behind it; every other key is untouched. */
  lemma MergedTargetShape(tgtSpec: Spec, added: seq<string>)
    requires PhraseList(tgtSpec, StrongKey).Some?
    ensures PhraseList(MergedTarget(tgtSpec, added), StrongKey) == Some(PhraseList(tgtSpec, StrongKey).value + Strs(added))
    ensures forall k :: k in tgtSpec && k != StrongKey ==> k in MergedTarget(tgtSpec, added) && MergedTarget(tgtSpec, added)[k] == tgtSpec[k]
  {
    var l := PhraseList(tgtSpec, StrongKey).value + Strs(added);
    if l == [] {
      assert PhraseList(MergedTarget(tgtSpec, added), StrongKey) == Some([]);
    }
  }

  /** The stripped phrases after the merge: the target's old ones and every non-empty source phrase. */
  lemma MergedTargetPhrases(srcSpec: Spec, src: string, tgtSpec: Spec, added: seq<string>)
    requires NewPhraseSet(srcSpec, src, tgtSpec).Some?
    requires forall p :: p in added <==> p in NewPhraseSet(srcSpec, src, tgtSpec).value
    ensures TrimSet(PhraseList(tgtSpec, StrongKey).value + Strs(added))
      == TrimSet(PhraseList(tgtSpec, StrongKey).value) + (SourcePhrases(srcSpec, src).value - {""})
  {
    var old_ := PhraseList(tgtSpec, StrongKey).value;
    var S := SourcePhrases(srcSpec, src).value;
    TrimSetAppend(old_, Strs(added));
    SourcePhrasesTrimmed(srcSpec, src);
    TrimSetOfStrs(added);
    NewPhrasesUnion(TrimSet(old_), S, set p | p in added);
  }

  /** Adding the members of `s` not yet in `t` is adding all of `s` but the empty string. */
  lemma NewPhrasesUnion(t: set<string>, s: set<string>, a: set<string>)
    requires forall p :: p in a <==> p in s && p != [] && p !in t
    ensures t + a == t + (s - {""})
  {
  }

  lemma TrimSetAppend(xs: seq<Item>, ys: seq<Item>)
    ensures TrimSet(xs + ys) == TrimSet(xs) + TrimSet(ys)
  {
  }

  /** Every source phrase is already stripped. */
  lemma SourcePhrasesTrimmed(srcSpec: Spec, src: string)
    requires SourcePhrases(srcSpec, src).Some?
    ensures forall p :: p in SourcePhrases(srcSpec, src).value ==> Trim(p) == p
  {
    forall p | p in SourcePhrases(srcSpec, src).value ensures Trim(p) == p {
      if p != Trim(ReplaceChar(src, '_', " ")) {
        var x :| x in PhraseList(srcSpec, StrongKey).value + PhraseList(srcSpec, PhrasesKey).value && Trim(Str(x)) == p;
        TrimIdempotent(Str(x));
      } else {
        TrimIdempotent(ReplaceChar(src, '_', " "));
      }
    }
  }

  /** Stripping already-stripped strings changes nothing. */
  lemma TrimSetOfStrs(ss: seq<string>)
    requires forall p :: p in ss ==> Trim(p) == p
    ensures TrimSet(Strs(ss)) == set p | p in ss
  {
    forall p | p in TrimSet(Strs(ss)) ensures p in ss {
      var x :| x in Strs(ss) && Trim(Str(x)) == p;
      var i :| 0 <= i < |ss| && Strs(ss)[i] == x;
      assert ss[i] in ss;
    }
    forall p | p in ss ensures p in TrimSet(Strs(ss)) {
      var i :| 0 <= i < |ss| && ss[i] == p;
      assert Strs(ss)[i] in Strs(ss);
    }
  }


  /** Every item of a set, each once, in an order the set does not fix. */
  method ListOfSet<T>(s: set<T>) returns (ps: seq<T>)
    ensures NoRepeats(ps) && |ps| == |s|
    ensures forall p :: p in ps <==> p in s
  {
    var rest := s;
    ps := [];
    while rest != {}
      invariant rest <= s
      invariant forall p :: p in ps <==> p in s && p !in rest
      invariant NoRepeats(ps) && |ps| + |rest| == |s|
      decreases |rest|
    {
      var p :| p in rest;
      ps := ps + [p];
      rest := rest - {p};
    }
  }

  /**
   * What a merge of `src` into `tgt` (kind `k`) does to the rows: every
   * `tgt` row takes the merged spec, the source's children move to the
   * target, and the source rows go.
   */
  function MergeRows(es: Rows, k: string, src: string, tgt: string, tgtSpec: Spec): Rows
  {
    Deleted(Reparented(SpecSet(es, k, tgt, tgtSpec), k, src, tgt), k, src)
  }

  /**
   * After a merge no row carries the source code, no row of the kind points
   * at it, and the source's children point at the target.
   */
  lemma MergeRowsSource(es: Rows, k: string, src: string, tgt: string, spec: Spec)
    requires src != tgt
    ensures var r := MergeRows(es, k, src, tgt, spec);
      !HasEntry(r, k, src)
      && (forall id :: id in r <==> id in es && !Is(es[id], k, src))
      && (forall id :: id in r ==> !ChildOf(r[id], k, src))
      && (forall id :: id in r && ChildOf(es[id], k, src) ==> ChildOf(r[id], k, tgt))
  {
    var r := MergeRows(es, k, src, tgt, spec);
    forall id | id in es
      ensures id in r <==> !Is(es[id], k, src)
      ensures id in r ==> r[id] == MergedRow(es[id], k, src, tgt, spec)
    {
      MergeRowsAt(es, k, src, tgt, spec, id);
    }
  }

  /**
   * Every remaining target row holds the merged spec; all other rows keep
   * their spec; no row changes kind, code or flag; rows of other kinds are
   * untouched.
   */
  lemma MergeRowsKept(es: Rows, k: string, src: string, tgt: string, spec: Spec)
    ensures var r := MergeRows(es, k, src, tgt, spec);
      (forall id :: id in r ==> id in es)
      && (forall id :: id in r && Is(es[id], k, tgt) ==> r[id].spec == spec)
      && (forall id :: id in r && !Is(es[id], k, tgt) ==> r[id].spec == es[id].spec)
      && (forall id :: id in r ==> r[id].kind == es[id].kind && r[id].code == es[id].code && r[id].active == es[id].active)
      && (forall id :: id in r && es[id].kind != k ==> r[id] == es[id])
  {
    var r := MergeRows(es, k, src, tgt, spec);
    forall id | id in es
      ensures id in r ==> r[id] == MergedRow(es[id], k, src, tgt, spec)
    {
      MergeRowsAt(es, k, src, tgt, spec, id);
    }
  }

  /** One row after the merge, if it stays. */
  function MergedRow(e: Entry, k: string, src: string, tgt: string, spec: Spec): Entry
  {
    var e1 := if Is(e, k, tgt) then e.(spec := spec) else e;
    if ChildOf(e1, k, src) then e1.(parent := Some(tgt)) else e1
  }

  lemma MergeRowsAt(es: Rows, k: string, src: string, tgt: string, spec: Spec, id: nat)
    requires id in es
    ensures id in MergeRows(es, k, src, tgt, spec) <==> !Is(es[id], k, src)
    ensures id in MergeRows(es, k, src, tgt, spec) ==> MergeRows(es, k, src, tgt, spec)[id] == MergedRow(es[id], k, src, tgt, spec)
  {
  }

  /** The handler's answer: a refusal with its HTTP status, an internal failure (500), or the merge report. */
  datatype MergeOutcome =
    | MergeRefused(status: nat, detail: string)
    | MergeFailed
    | Merged(kind: string, source: string, target: string, phrasesMerged: nat, reparented: nat, revision: nat)

  /** A successful merge's effect on the rows, for some source and target row the lookups chose. */
  ghost predicate MergedBy(before: Rows, after: Rows, k: string, src: string, tgt: string, out: MergeOutcome)
  {
    out.Merged? && out.kind == k && out.source == src && out.target == tgt
    && exists s, t :: MergedVia(before, after, k, src, tgt, out, s, t)
  }

  ghost predicate MergedVia(before: Rows, after: Rows, k: string, src: string, tgt: string, out: MergeOutcome, s: nat, t: nat)
    requires out.Merged?
  {
    s in before && t in before && Is(before[s], k, src) && Is(before[t], k, tgt)
    && NewPhraseSet(before[s].spec, src, before[t].spec).Some?
    && exists added: seq<string> :: MergedWith(before, after, k, src, tgt, out, before[s].spec, before[t].spec, added)
  }

  ghost predicate MergedWith(before: Rows, after: Rows, k: string, src: string, tgt: string, out: MergeOutcome,
                             srcSpec: Spec, tgtSpec: Spec, added: seq<string>)
    requires out.Merged? && NewPhraseSet(srcSpec, src, tgtSpec).Some?
  {
    NoRepeats(added) && (forall p :: p in added <==> p in NewPhraseSet(srcSpec, src, tgtSpec).value)
    && out.phrasesMerged == |added|
    && out.reparented == ChildCount(SpecSet(before, k, tgt, MergedTarget(tgtSpec, added)), k, src)
    && after == MergeRows(before, k, src, tgt, MergedTarget(tgtSpec, added))
  }

  /**
   * Some source row and target row of these codes have phrase lists the
   * merge cannot read (a spec field that is neither absent nor a list).
   */
  ghost predicate PhrasesUnreadable(es: Rows, k: string, src: string, tgt: string)
  {
    exists s, t :: s in es && t in es && Is(es[s], k, src) && Is(es[t], k, tgt)
      && NewPhraseSet(es[s].spec, src, es[t].spec).None?
  }

  /** The refusals and failure of a merge whose arguments are valid. */
  function MergeFound(es: Rows, k: string, src: string, tgt: string, out: MergeOutcome): MergeOutcome
  {
    if !HasEntry(es, k, src) then MergeRefused(404, "source not found")
    else if !HasEntry(es, k, tgt) then MergeRefused(404, "target not found")
    else if out.Merged? then out
    else MergeFailed
  }

  // ------------------------------------------------------ the table

  class Lexicon {
    var entries: Rows
    var revision: nat

    constructor()
      ensures entries == map[] && revision == 0
    {
      entries := map[];
      revision := 0;
    }

    /** `... WHERE kind = k AND code = c LIMIT 1`: some matching row, or none when there is none. */
    method GetEntry(k: string, c: string) returns (id: Option<nat>)
      ensures id.Some? ==> id.value in entries && Is(entries[id.value], k, c)
      ensures id.None? <==> !HasEntry(entries, k, c)
    {
      if HasEntry(entries, k, c) {
        var i :| i in entries && Is(entries[i], k, c);
        id := Some(i);
      } else {
        id := None;
      }
    }

    /** `_bump_lexicon_revision`: one more than before (a missing meta row counts as 0). */
    method BumpRevision() returns (rev: nat)
      modifies this
      ensures revision == old(revision) + 1 && rev == revision
      ensures entries == old(entries)
    {
      revision := revision + 1;
      rev := revision;
    }

    /**
     * `POST /policy/lexicon/tags/merge`: copy the source's phrases (and its
     * code as a phrase) into the target's strong phrases, move the source's
     * children to the target, delete the source and bump the revision.
     */
    method MergeTags(kindIn: string, srcIn: string, tgtIn: string) returns (out: MergeOutcome)
      modifies this
      ensures var k := Lower(Trim(kindIn));
        var src := Trim(srcIn);
        var tgt := Trim(tgtIn);
        (k !in Kinds || src == [] || tgt == [] ==> out == MergeRefused(400, "kind/source_code/target_code are required"))
        && (k in Kinds && src != [] && tgt != [] && src == tgt ==> out == MergeRefused(400, "source and target must differ"))
        && (k in Kinds && src != [] && tgt != [] && src != tgt ==> out == MergeFound(old(entries), k, src, tgt, out))
        && (out.MergeFailed? ==> PhrasesUnreadable(old(entries), k, src, tgt))
        && ((k in Kinds && src != [] && tgt != [] && src != tgt && HasEntry(old(entries), k, src)
             && HasEntry(old(entries), k, tgt) && !PhrasesUnreadable(old(entries), k, src, tgt)) ==> out.Merged?)
        && (out.Merged? ==>
              MergedBy(old(entries), entries, k, src, tgt, out) && revision == old(revision) + 1 && out.revision == revision)
      ensures !out.Merged? ==> entries == old(entries) && revision == old(revision)
    {
      var k := Lower(Trim(kindIn));
      var src := Trim(srcIn);
      var tgt := Trim(tgtIn);
      if k !in Kinds || src == [] || tgt == [] {
        return MergeRefused(400, "kind/source_code/target_code are required");
      }
      if src == tgt {
        return MergeRefused(400, "source and target must differ");
      }
      out := MergeExisting(k, src, tgt);
    }

    /** The merge once the arguments are checked: both rows must exist. */
    method MergeExisting(k: string, src: string, tgt: string) returns (out: MergeOutcome)
      modifies this
      ensures out == MergeFound(old(entries), k, src, tgt, out)
      ensures out.MergeFailed? ==> PhrasesUnreadable(old(entries), k, src, tgt)
      ensures (HasEntry(old(entries), k, src) && HasEntry(old(entries), k, tgt)
               && !PhrasesUnreadable(old(entries), k, src, tgt)) ==> out.Merged?
      ensures out.Merged? ==>
        MergedBy(old(entries), entries, k, src, tgt, out) && revision == old(revision) + 1 && out.revision == revision
      ensures !out.Merged? ==> entries == old(entries) && revision == old(revision)
    {
      var s := GetEntry(k, src);
      if s.None? {
        return MergeRefused(404, "source not found");
      }
      var t := GetEntry(k, tgt);
      if t.None? {
        return MergeRefused(404, "target not found");
      }
      var fresh_ := NewPhraseSet(entries[s.value].spec, src, entries[t.value].spec);
      if fresh_.None? {
        return MergeFailed;
      }
      var added := ListOfSet(fresh_.value);
      out := ApplyMerge(k, src, tgt, s.value, t.value, added);
    }

    /** The three updates and the revision bump of a merge whose new phrases are `added`. */
    method ApplyMerge(k: string, src: string, tgt: string, s: nat, t: nat, added: seq<string>) returns (out: MergeOutcome)
      requires s in entries && t in entries && Is(entries[s], k, src) && Is(entries[t], k, tgt)
      requires NewPhraseSet(entries[s].spec, src, entries[t].spec).Some?
      requires NoRepeats(added) && forall p :: p in added <==> p in NewPhraseSet(entries[s].spec, src, entries[t].spec).value
      modifies this
      ensures out.Merged? && MergedBy(old(entries), entries, k, src, tgt, out)
      ensures revision == old(revision) + 1 && out.revision == revision
    {
      var before := entries;
      var merged := MergedTarget(entries[t].spec, added);
      entries := SpecSet(entries, k, tgt, merged);
      var moved := ChildCount(entries, k, src);
      entries := MergeRows(before, k, src, tgt, merged);
      var rev := BumpRevision();
      out := Merged(k, src, tgt, |added|, moved, rev);
      assert MergedWith(before, entries, k, src, tgt, out, before[s].spec, before[t].spec, added);
      assert MergedVia(before, entries, k, src, tgt, out, s, t);
    }

    // -------------------------------------------- create or update a tag

    /**
     * `PATCH /policy/lexicon/tags/{kind}/{code}`: update the row of an
     * existing tag (spec-only edits are not re-validated), or validate and
     * insert a new one; then bump the revision. `specIn` is the body's spec
     * when it is an object and `activeIn` its `active` flag when present.
     */
    method UpsertTag(kindIn: string, codeIn: string, specIn: Option<Spec>, activeIn: Option<bool>) returns (out: PatchOutcome)
      modifies this
      ensures var k := Lower(Trim(kindIn));
        var c := Trim(codeIn);
        var spec := if specIn.Some? then specIn.value else map[];
        var active := if activeIn.Some? then activeIn.value else true;
        var parent := DefaultParent(spec, c);
        (k !in Kinds || c == [] ==> out == PatchRefused(400, "kind must be p|d|j and code is required"))
        && (k in Kinds && c != [] && !HasEntry(old(entries), k, c) ==>
              var check := ValidateTag(c, parent, spec, ParentLookup(old(entries), k, parent));
              (check != TagOk ==> out == PatchInvalid(HandlerStatus(Http(400)), check))
              && (check == TagOk ==> out.PatchOk? && exists id: nat :: (id !in old(entries)
                    && entries == old(entries)[id := Entry(k, c, parent, spec, active)])))
        && (k in Kinds && c != [] && HasEntry(old(entries), k, c) ==>
              out.PatchOk? && exists id :: (id in old(entries) && Is(old(entries)[id], k, c)
                && entries == old(entries)[id := Updated(old(entries)[id], spec, active, parent)]))
        && (out.PatchOk? ==> out == PatchOk(k, c, active, revision) && revision == old(revision) + 1)
      ensures !out.PatchOk? ==> entries == old(entries) && revision == old(revision)
    {
      var k := Lower(Trim(kindIn));
      var c := Trim(codeIn);
      if k !in Kinds || c == [] {
        return PatchRefused(400, "kind must be p|d|j and code is required");
      }
      var spec := if specIn.Some? then specIn.value else map[];
      var active := if activeIn.Some? then activeIn.value else true;
      var parent := DefaultParent(spec, c);
      var row := GetEntry(k, c);
      if row.None? {
        var check := ValidateTag(c, parent, spec, ParentLookup(entries, k, parent));
        if check != TagOk {
          return PatchInvalid(HandlerStatus(Http(400)), check);
        }
        var id := FreshId();
        entries := entries[id := Entry(k, c, parent, spec, active)];
      } else {
        entries := entries[row.value := Updated(entries[row.value], spec, active, parent)];
      }
      var rev := BumpRevision();
      out := PatchOk(k, c, active, rev);
    }

    /** An id no row has (the service draws a random UUID). */
    method FreshId() returns (id: nat)
      ensures id !in entries
    {
      var rest := entries.Keys;
      id := 0;
      while rest != {}
        invariant rest <= entries.Keys
        invariant forall i :: i in entries && i !in rest ==> i < id
        decreases |rest|
      {
        var i :| i in rest;
        if i >= id { id := i + 1; }
        rest := rest - {i};
      }
    }

    // -------------------------------------------------- cleanup script

    /**
     * `_merge_into`: copy the source's phrases into the target row, move the
     * source's children to the target and delete the source row; skipped
     * when either tag is missing.
     */
    method MergeInto(k: string, src: string, tgt: string) returns (out: StepOutcome)
      modifies this
      ensures revision == old(revision)
      ensures !HasEntry(old(entries), k, src) || !HasEntry(old(entries), k, tgt) <==> out == Skipped
      ensures (HasEntry(old(entries), k, src) && HasEntry(old(entries), k, tgt)
               && !SpecsUnmergeable(old(entries), k, src, tgt)) ==> out == Done
      ensures out != Done ==> entries == old(entries)
      ensures out == Done ==> exists s, t :: (s in old(entries) && t in old(entries)
        && Is(old(entries)[s], k, src) && Is(old(entries)[t], k, tgt)
        && MergeSpecs(old(entries)[t].spec, old(entries)[s].spec).Some?
        && entries == MergedInto(old(entries), k, src, tgt, s, t, MergeSpecs(old(entries)[t].spec, old(entries)[s].spec).value))
      ensures out == Crashed ==> exists s, t :: (s in old(entries) && t in old(entries)
        && Is(old(entries)[s], k, src) && Is(old(entries)[t], k, tgt)
        && MergeSpecs(old(entries)[t].spec, old(entries)[s].spec).None?)
    {
      var s := GetEntry(k, src);
      var t := GetEntry(k, tgt);
      if s.None? || t.None? {
        return Skipped;
      }
      var merged := MergeSpecs(entries[t.value].spec, entries[s.value].spec);
      if merged.None? {
        return Crashed;
      }
      entries := MergedInto(entries, k, src, tgt, s.value, t.value, merged.value);
      out := Done;
    }

    /** `_rename`: every row of the old code takes the new code (and parent, if given); its children follow. */
    method Rename(k: string, oldCode: string, newCode: string, newParent: Option<string>)
      modifies this
      ensures entries == Reparented(Renamed(old(entries), k, oldCode, newCode, newParent), k, oldCode, newCode)
      ensures revision == old(revision)
    {
      entries := Renamed(entries, k, oldCode, newCode, newParent);
      entries := Reparented(entries, k, oldCode, newCode);
    }

    /** `_set_parent`: every row of this kind and code gets the parent. */
    method SetParent(k: string, c: string, p: string)
      modifies this
      ensures entries == ParentSet(old(entries), k, c, p)
      ensures revision == old(revision)
    {
      entries := ParentSet(entries, k, c, p);
    }

    /**
     * The orphan fix: every dotted code without a parent gets the text
     * before its last dot as parent, when a tag of that code exists in the
     * same kind.
     */
    method FixOrphans()
      modifies this
      ensures entries == OrphansFixed(old(entries))
      ensures revision == old(revision)
    {
      var base := entries;
      var ids := ListOfSet(entries.Keys);
      ghost var fixed: set<(string, string)> := {};
      for i := 0 to |ids|
        invariant entries == WithParents(base, fixed)
        invariant fixed == FixablePairs(base, OrphanPairs(base, ids[..i]))
        invariant revision == old(revision)
      {
        var id := ids[i];
        OrphanPairsStep(base, ids, i);
        if Orphan(base[id]) {
          var kc := (base[id].kind, base[id].code);
          var p := ParentOf(kc.1);
          WithParentsKeepsEntries(base, fixed, kc.0, p);
          FixablePairsStep(base, OrphanPairs(base, ids[..i]), kc);
          var parentRow := GetEntry(kc.0, p);
          if parentRow.Some? {
            WithParentsStep(base, fixed, kc);
            SetParent(kc.0, kc.1, p);
            fixed := fixed + {kc};
          }
        }
      }
      OrphanPairsAll(base, ids);
    }

    /**
     * Phase 6: normalise every row's spec, rewriting only the rows whose spec
     * changes, and count them. A spec that cannot be normalised raises
     * (`ok` false); the rows rewritten before it keep their new spec.
     */
    method NormalisePhase() returns (count: nat, ok: bool)
      modifies this
      ensures revision == old(revision)
      ensures ok <==> Normalisable(old(entries), NormaliseSpec)
      ensures ok ==> entries == NormalisedBy(old(entries), NormaliseSpec) && count == |Changed(old(entries), NormaliseSpec)|
      ensures PartlyNormalised(old(entries), entries, NormaliseSpec)
    {
      var ids := ListOfSet(entries.Keys);
      var es;
      es, count, ok := NormaliseRows(entries, ids, NormaliseSpec);
      CountChangedIsChanged(entries, ids, NormaliseSpec);
      entries := es;
    }

    /**
     * The generic phases of the cleanup run: the orphan fix, spec
     * normalisation and the revision bump. A real run writes each statement
     * through at once (autocommit), so a spec that cannot be normalised stops
     * the run after the orphan fix and the rows already normalised, before
     * the revision bump. A dry run works in one transaction that is rolled
     * back, whether it finishes or raises.
     */
    method RunCleanup(dryRun: bool) returns (normalised: nat, ok: bool)
      modifies this
      ensures ok <==> Normalisable(OrphansFixed(old(entries)), NormaliseSpec)
      ensures dryRun ==> entries == old(entries) && revision == old(revision)
      ensures !dryRun && ok ==>
        entries == NormalisedBy(OrphansFixed(old(entries)), NormaliseSpec) && revision == old(revision) + 1
      ensures !dryRun && !ok ==>
        PartlyNormalised(OrphansFixed(old(entries)), entries, NormaliseSpec) && revision == old(revision)
    {
      var snapshot := entries;
      var rev0 := revision;
      FixOrphans();
      normalised, ok := NormalisePhase();
      if ok {
        revision := revision + 1;
      }
      if dryRun {
        entries := snapshot;
        revision := rev0;
      }
    }
  }
  // ------------------------------------------- create or update a tag

  datatype PatchOutcome =
    | PatchRefused(status: nat, detail: string)
    | PatchInvalid(status: nat, check: TagCheck)
    | PatchOk(kind: string, code: string, active: bool, revision: nat)

  /** `spec.get("parent_code")` when it is a string. */
  function SpecParent(spec: Spec): Option<string>
  {
    if "parent_code" in spec && spec["parent_code"].JStr? then Some(spec["parent_code"].s) else None
  }

  /** A dotted code without a (non-empty) parent in its spec takes the text before its last dot. */
  function DefaultParent(spec: Spec, c: string): Option<string>
  {
    var pc := SpecParent(spec);
    if OrEmpty(pc) == [] && '.' in c then Some(ParentOf(c)) else pc
  }

  /** What the parent query answers for the table. */
  function ParentLookup(es: Rows, k: string, parent: Option<string>): Lookup
  {
    if parent.Some? && HasEntry(es, k, parent.value) then Found else NotFound
  }

  /** An existing row after the update: a missing parent keeps the stored one (`COALESCE`). */
  function Updated(e: Entry, spec: Spec, active: bool, parent: Option<string>): Entry
  {
    e.(spec := spec, active := active, parent := if parent.Some? then parent else e.parent)
  }

  /**
   * A new child tag `a.b` sent without a parent is created under `a` exactly
   * when a tag `a` of its kind exists.
   */
  lemma DefaultParentChild(es: Rows, k: string, a: string, b: string, spec: Spec)
    requires Segment(a) && Segment(b) && OrEmpty(SpecParent(spec)) == []
    ensures DefaultParent(spec, a + "." + b) == Some(a)
    ensures ValidateTag(a + "." + b, Some(a), spec, ParentLookup(es, k, Some(a))) == TagOk <==> HasEntry(es, k, a)
  {
    CodeJoin(a, b);
    assert (a + "." + b)[|a|] == '.';
    ValidateTagSpec(a + "." + b, Some(a), spec, ParentLookup(es, k, Some(a)));
  }

  /** An error raised inside a request handler's `try`: an `HTTPException` with its status, or anything else. */
  datatype HandlerError = Http(status: nat) | Internal

  /**
   * The PATCH handler's `except Exception` clause as written: it also
   * catches the validation's `HTTPException`, so every error leaves as 500.
   */
  function HandlerStatusAsWritten(e: HandlerError): (status: nat)
    ensures status == 500
  {
    500
  }

  /**
   * With `except HTTPException: raise` ahead of it, as in the merge and move
   * handlers, an `HTTPException` keeps its status and only other errors
   * become 500.
   */
  function HandlerStatus(e: HandlerError): (status: nat)
    ensures e.Http? ==> status == e.status
    ensures e.Internal? ==> status == 500
  {
    if e.Http? then e.status else 500
  }

  /** A new tag with an invalid code is answered with 500, not the validation's 400. */
  lemma PatchValidationMasked(es: Rows)
    ensures ValidateTag("Claims", None, map[], ParentLookup(es, "d", None)) == BadCode
    ensures HandlerStatusAsWritten(Http(400)) == 500 && HandlerStatus(Http(400)) == 400
  {
    assert !SegmentStart("Claims"[0]);
    assert '.' !in "Claims" by {
      assert forall i :: 0 <= i < |"Claims"| ==> "Claims"[i] != '.';
    }
    assert "Claims"[|"Claims"| - 1] != '\n';
  }

  // ------------------------------------------------------------ cleanup

  datatype StepOutcome = Skipped | Done | Crashed

  /** Some source row and target row of these codes have specs `_merge_into` cannot combine. */
  ghost predicate SpecsUnmergeable(es: Rows, k: string, src: string, tgt: string)
  {
    exists s, t :: s in es && t in es && Is(es[s], k, src) && Is(es[t], k, tgt)
      && MergeSpecs(es[t].spec, es[s].spec).None?
  }

  /** `_merge_into`'s writes: the target row (by id) takes the merged spec, children move, the source row (by id) goes. */
  function MergedInto(es: Rows, k: string, src: string, tgt: string, s: nat, t: nat, spec: Spec): Rows
    requires t in es
  {
    var withSpec := es[t := es[t].(spec := spec)];
    map id | id in withSpec && id != s :: if ChildOf(withSpec[id], k, src) then withSpec[id].(parent := Some(tgt)) else withSpec[id]
  }

  /** The rename's first update. */
  function Renamed(es: Rows, k: string, oldCode: string, newCode: string, newParent: Option<string>): Rows
  {
    map id | id in es ::
      if Is(es[id], k, oldCode) then es[id].(code := newCode, parent := if newParent.Some? then newParent else es[id].parent)
      else es[id]
  }

  function ParentSet(es: Rows, k: string, c: string, p: string): Rows
  {
    map id | id in es :: if Is(es[id], k, c) then es[id].(parent := Some(p)) else es[id]
  }

  /** `code LIKE '%.%' AND (parent_code IS NULL OR parent_code = '')` */
  predicate Orphan(e: Entry) { '.' in e.code && OrEmpty(e.parent) == [] }

  function OrphanKeys(es: Rows): set<(string, string)>
  {
    set id | id in es && Orphan(es[id]) :: (es[id].kind, es[id].code)
  }

  /** The derived parent of a pair's code exists in its kind. */
  predicate Fixable(base: Rows, kc: (string, string)) { HasEntry(base, kc.0, ParentOf(kc.1)) }

  /** The rows whose (kind, code) pair is in `fix` given the parent derived from their code. */
  function WithParents(base: Rows, fix: set<(string, string)>): Rows
  {
    map id | id in base ::
      if (base[id].kind, base[id].code) in fix then base[id].(parent := Some(ParentOf(base[id].code))) else base[id]
  }

  /** The pairs among `pairs` whose derived parent exists. */
  function FixablePairs(base: Rows, pairs: set<(string, string)>): set<(string, string)>
  {
    set kc | kc in pairs && Fixable(base, kc)
  }

  /** The table after the orphan fix. */
  function OrphansFixed(es: Rows): Rows { WithParents(es, FixablePairs(es, OrphanKeys(es))) }

  /** The (kind, code) pairs of the orphan rows among `ids`. */
  function OrphanPairs(base: Rows, ids: seq<nat>): set<(string, string)>
  {
    set j | j in ids && j in base && Orphan(base[j]) :: (base[j].kind, base[j].code)
  }

  lemma OrphanPairsStep(base: Rows, ids: seq<nat>, i: nat)
    requires i < |ids| && ids[i] in base
    ensures OrphanPairs(base, ids[..i + 1]) ==
      OrphanPairs(base, ids[..i]) + (if Orphan(base[ids[i]]) then {(base[ids[i]].kind, base[ids[i]].code)} else {})
  {
    assert ids[..i + 1] == ids[..i] + [ids[i]];
  }

  lemma OrphanPairsAll(base: Rows, ids: seq<nat>)
    requires forall j :: j in ids <==> j in base
    ensures OrphanPairs(base, ids[..|ids|]) == OrphanKeys(base)
  {
    assert ids[..|ids|] == ids;
  }

  lemma FixablePairsStep(base: Rows, pairs: set<(string, string)>, kc: (string, string))
    ensures FixablePairs(base, pairs + {kc}) == FixablePairs(base, pairs) + (if Fixable(base, kc) then {kc} else {})
  {
  }

  /** Setting parents changes no kind or code, so the same tags exist before and after. */
  lemma WithParentsKeepsEntries(base: Rows, fix: set<(string, string)>, k: string, c: string)
    ensures HasEntry(WithParents(base, fix), k, c) <==> HasEntry(base, k, c)
  {
    if HasEntry(base, k, c) {
      var id :| id in base && Is(base[id], k, c);
      assert Is(WithParents(base, fix)[id], k, c);
    }
  }

  lemma WithParentsStep(base: Rows, fix: set<(string, string)>, kc: (string, string))
    ensures WithParents(base, fix + {kc}) == ParentSet(WithParents(base, fix), kc.0, kc.1, ParentOf(kc.1))
  {
  }

  /**
   * After the fix, every row keeps its id, kind, code, spec and flag; an
   * orphan row whose derived parent exists has it as parent; a row still
   * without a parent has a dotted code only when its derived parent does
   * not exist (or is the empty code); and rows sharing no pair with an
   * orphan are untouched.
   */
  lemma OrphansFixedSpec(es: Rows)
    ensures var r := OrphansFixed(es);
      r.Keys == es.Keys
      && (forall id :: id in r ==>
            r[id].kind == es[id].kind && r[id].code == es[id].code && r[id].spec == es[id].spec && r[id].active == es[id].active)
      && (forall id :: id in r && Orphan(es[id]) && HasEntry(es, es[id].kind, ParentOf(es[id].code)) ==>
            r[id].parent == Some(ParentOf(es[id].code)))
      && (forall id :: id in r && Orphan(r[id]) ==> !HasEntry(es, r[id].kind, ParentOf(r[id].code)) || ParentOf(r[id].code) == [])
      && (forall id :: id in r && (es[id].kind, es[id].code) !in OrphanKeys(es) ==> r[id] == es[id])
  {
    var r := OrphansFixed(es);
    forall id | id in r && Orphan(es[id]) && HasEntry(es, es[id].kind, ParentOf(es[id].code))
      ensures r[id].parent == Some(ParentOf(es[id].code))
    {
      assert (es[id].kind, es[id].code) in OrphanKeys(es);
    }
    forall id | id in r && Orphan(r[id])
      ensures !HasEntry(es, r[id].kind, ParentOf(r[id].code)) || ParentOf(r[id].code) == []
    {
      assert (es[id].kind, es[id].code) in OrphanKeys(es);
    }
  }

  /** A row with its spec normalised (unchanged when that fails). */
  function NormaliseEntry(e: Entry, norm: Spec -> Option<Spec>): Entry
  {
    if norm(e.spec).Some? then e.(spec := norm(e.spec).value) else e
  }

  /** The table with the rows in `ids` normalised. */
  function NormalisedFor(base: Rows, ids: set<nat>, norm: Spec -> Option<Spec>): Rows
  {
    map j | j in base :: if j in ids then NormaliseEntry(base[j], norm) else base[j]
  }

  function NormalisedBy(es: Rows, norm: Spec -> Option<Spec>): Rows { NormalisedFor(es, es.Keys, norm) }

  /** Each row of `es` is its `base` row, either untouched or normalised. */
  predicate PartlyNormalised(base: Rows, es: Rows, norm: Spec -> Option<Spec>)
  {
    es.Keys == base.Keys && forall j :: j in es ==> es[j] == base[j] || es[j] == NormaliseEntry(base[j], norm)
  }

  /** Every spec in the table can be normalised. */
  predicate Normalisable(es: Rows, norm: Spec -> Option<Spec>) { forall id :: id in es ==> norm(es[id].spec).Some? }

  /** Normalising this row's spec changes it. */
  predicate ChangedRow(e: Entry, norm: Spec -> Option<Spec>) { norm(e.spec).Some? && norm(e.spec).value != e.spec }

  /** The rows whose spec normalising changes. */
  function Changed(es: Rows, norm: Spec -> Option<Spec>): set<nat> { set id | id in es && ChangedRow(es[id], norm) }

  /**
   * The phase's loop over the rows `SELECT id, spec` returned: each row whose
   * spec normalising changes is rewritten and counted.
   */
  method NormaliseRows(base: Rows, ids: seq<nat>, norm: Spec -> Option<Spec>) returns (es: Rows, count: nat, ok: bool)
    requires NoRepeats(ids) && forall j :: j in ids <==> j in base
    ensures ok <==> Normalisable(base, norm)
    ensures ok ==> es == NormalisedBy(base, norm) && count == CountChanged(base, ids, norm)
    ensures PartlyNormalised(base, es, norm)
  {
    es := base;
    count := 0;
    for i := 0 to |ids|
      invariant VisitedUpTo(base, es, ids, i, norm)
      invariant count == CountChanged(base, ids[..i], norm)
    {
      var id := ids[i];
      assert es[id] == base[id];
      var updated := norm(es[id].spec);
      if updated.None? {
        assert !Normalisable(base, norm);
        PartlyAt(base, es, ids, i, norm);
        return es, count, false;
      }
      CountChangedStep(base, ids, i, norm);
      NormaliseStep(base, es, ids, i, norm);
      assert ChangedRow(base[id], norm) <==> updated.value != es[id].spec;
      if updated.value != es[id].spec {
        es := es[id := es[id].(spec := updated.value)];
        count := count + 1;
      }
    }
    assert ids[..|ids|] == ids;
    NormaliseRowsDone(base, es, ids, norm);
    PartlyAt(base, es, ids, |ids|, norm);
    ok := true;
  }

  /** After `i` turns of the loop: the first `i` rows are normalised, which succeeded, and the rest untouched. */
  ghost predicate VisitedUpTo(base: Rows, es: Rows, ids: seq<nat>, i: nat, norm: Spec -> Option<Spec>)
  {
    i <= |ids| && es.Keys == base.Keys && (forall j :: j in ids ==> j in base)
    && (forall k :: 0 <= k < i ==> es[ids[k]] == NormaliseEntry(base[ids[k]], norm) && norm(base[ids[k]].spec).Some?)
    && (forall k :: i <= k < |ids| ==> es[ids[k]] == base[ids[k]])
  }

  /** One turn of the loop: the visited row is normalised, written back only when it changed. */
  lemma NormaliseStep(base: Rows, es: Rows, ids: seq<nat>, i: nat, norm: Spec -> Option<Spec>)
    requires NoRepeats(ids) && i < |ids| && VisitedUpTo(base, es, ids, i, norm)
    requires norm(base[ids[i]].spec).Some?
    ensures var e := base[ids[i]];
      VisitedUpTo(base, if norm(e.spec).value != e.spec then es[ids[i] := e.(spec := norm(e.spec).value)] else es, ids, i + 1, norm)
  {
    var e := base[ids[i]];
    var es2 := if norm(e.spec).value != e.spec then es[ids[i] := e.(spec := norm(e.spec).value)] else es;
    forall k | 0 <= k < |ids| && k != i ensures es2[ids[k]] == es[ids[k]] {
      assert ids[k] != ids[i];
    }
    assert es2[ids[i]] == NormaliseEntry(e, norm);
  }

  /** Rows visited so far are normalised and the others untouched. */
  lemma PartlyAt(base: Rows, es: Rows, ids: seq<nat>, i: nat, norm: Spec -> Option<Spec>)
    requires VisitedUpTo(base, es, ids, i, norm) && forall j :: j in base ==> j in ids
    ensures PartlyNormalised(base, es, norm)
  {
    forall j | j in es ensures es[j] == base[j] || es[j] == NormaliseEntry(base[j], norm) {
      var k :| 0 <= k < |ids| && ids[k] == j;
    }
  }

  /** Once every row has been visited the table is the normalised one, and every spec could be normalised. */
  lemma NormaliseRowsDone(base: Rows, es: Rows, ids: seq<nat>, norm: Spec -> Option<Spec>)
    requires VisitedUpTo(base, es, ids, |ids|, norm) && forall j :: j in base ==> j in ids
    ensures es == NormalisedBy(base, norm)
    ensures Normalisable(base, norm)
  {
    forall j | j in es ensures es[j] == NormaliseEntry(base[j], norm) && norm(base[j].spec).Some? {
      var k :| 0 <= k < |ids| && ids[k] == j;
    }
  }

  /** How many of the rows `ids` normalising changes. */
  function CountChanged(base: Rows, ids: seq<nat>, norm: Spec -> Option<Spec>): nat
    requires forall j :: j in ids ==> j in base
  {
    if ids == [] then 0
    else
      var last := ids[|ids| - 1];
      CountChanged(base, ids[..|ids| - 1], norm) + (if ChangedRow(base[last], norm) then 1 else 0)
  }

  lemma CountChangedStep(base: Rows, ids: seq<nat>, i: nat, norm: Spec -> Option<Spec>)
    requires i < |ids| && forall j :: j in ids ==> j in base
    ensures CountChanged(base, ids[..i + 1], norm) ==
      CountChanged(base, ids[..i], norm) + (if ChangedRow(base[ids[i]], norm) then 1 else 0)
  {
    assert ids[..i + 1][..i] == ids[..i];
  }

  /** Counting over a list of every row, each once, counts the changed rows. */
  lemma {:induction false} CountChangedAll(base: Rows, ids: seq<nat>, norm: Spec -> Option<Spec>)
    requires NoRepeats(ids) && forall j :: j in ids ==> j in base
    ensures CountChanged(base, ids, norm) == |ChangedAmong(base, ids, norm)|
  {
    if ids != [] {
      var init := ids[..|ids| - 1];
      var last := ids[|ids| - 1];
      assert ids == init + [last];
      assert NoRepeats(init) by {
        forall a, b | 0 <= a < b < |init| ensures init[a] != init[b] { assert init[a] == ids[a] && init[b] == ids[b]; }
      }
      CountChangedAll(base, init, norm);
      assert last !in init by {
        forall a | 0 <= a < |init| ensures init[a] != last { assert init[a] == ids[a]; }
      }
      ChangedAmongStep(base, init, last, norm);
    }
  }

  /** One more row adds itself to the changed rows exactly when normalising changes it. */
  lemma ChangedAmongStep(base: Rows, init: seq<nat>, last: nat, norm: Spec -> Option<Spec>)
    requires last in base
    ensures ChangedAmong(base, init + [last], norm)
      == ChangedAmong(base, init, norm) + (if ChangedRow(base[last], norm) then {last} else {})
  {
    forall j ensures j in init + [last] <==> j in init || j == last {
    }
  }

  /** The rows among `ids` whose spec normalising changes. */
  function ChangedAmong(base: Rows, ids: seq<nat>, norm: Spec -> Option<Spec>): set<nat>
  {
    set j | j in ids && j in base && ChangedRow(base[j], norm)
  }

  /** The count the phase reports is the number of rows whose spec changes. */
  lemma CountChangedIsChanged(base: Rows, ids: seq<nat>, norm: Spec -> Option<Spec>)
    requires NoRepeats(ids) && forall j :: j in ids <==> j in base
    ensures CountChanged(base, ids, norm) == |Changed(base, norm)|
  {
    CountChangedAll(base, ids, norm);
    assert ChangedAmong(base, ids, norm) == Changed(base, norm);
  }

  /** A second normalisation pass rewrites nothing: the phase is idempotent. */
  lemma NormalisedRowsIdempotent(es: Rows)
    requires Normalisable(es, NormaliseSpec)
    ensures Normalisable(NormalisedBy(es, NormaliseSpec), NormaliseSpec)
    ensures NormalisedBy(NormalisedBy(es, NormaliseSpec), NormaliseSpec) == NormalisedBy(es, NormaliseSpec)
    ensures Changed(NormalisedBy(es, NormaliseSpec), NormaliseSpec) == {}
  {
    var r := NormalisedBy(es, NormaliseSpec);
    forall id | id in r ensures NormaliseSpec(r[id].spec) == Some(r[id].spec) {
      NormaliseSpecIdempotent(es[id].spec);
    }
  }
}
