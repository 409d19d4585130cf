/**
 * `POST /policy/candidates/aggregate/review-bulk`: set the review state of
 * candidate phrases by id, approving them into the QA lexicon when the
 * state is `approved`.
 *
 * The request's ids come from `id_list`, or from the legacy
 * `normalized_list` through the candidate query `resolve`. The candidate
 * rows found for the ids, the candidate types, the QA lexicon's tags and
 * revision, and the number of rows the state update changed are inputs;
 * the reply carries the lexicon after the approval and the catalog rows
 * the handler upserts.
 */
module BulkReview {
  import opened Text
  import opened LexSpec
  import opened Requests

  const States: set<string> := {"proposed", "rejected", "flagged", "approved"}

  const NoIds := "id_list is required (or normalized_list for backward compat)"
  const BadState := "state must be proposed|rejected|flagged|approved"
  const NoOverride := "candidate_type_override is required for state=approved (p|d|j)"
  const NoCodeMap := "tag_code_map is required for state=approved"

  // ------------------------------------------------------ the request

  /** `[re.sub(r"\s+", " ", n.strip().lower()) for n in norms]` */
  function NormKeys(norms: seq<string>): seq<string>
  {
    seq(|norms|, i requires 0 <= i < |norms| => NormKey(norms[i]))
  }

  /**
   * The ids to review: the cleaned `id_list`, else the ids the cleaned
   * `normalized_list` resolves to (a failing query resolves to none).
   */
  function RequestedIds(body: Fields, resolve: seq<string> -> seq<string>): seq<string>
  {
    var ids := ListField(body, "id_list");
    if ids != [] then ids
    else
      var norms := ListField(body, "normalized_list");
      if norms == [] then [] else resolve(NormKeys(norms))
  }

  /** The field is missing, not a list, or a list of blank texts. */
  predicate NoTexts(body: Fields, key: string)
  {
    key in body && body[key].VList? ==> forall i :: 0 <= i < |body[key].items| ==> IsBlank(body[key].items[i])
  }

  /**
   * There is nothing to review exactly when `id_list` has no non-blank
   * element and `normalized_list` has none either or resolves to no id;
   * a usable `id_list` is taken as it is and the legacy list is not asked.
   */
  lemma RequestedIdsSpec(body: Fields, resolve: seq<string> -> seq<string>)
    ensures RequestedIds(body, resolve) == [] <==>
      NoTexts(body, "id_list")
      && (NoTexts(body, "normalized_list") || resolve(NormKeys(ListField(body, "normalized_list"))) == [])
    ensures !NoTexts(body, "id_list") ==> RequestedIds(body, resolve) == CleanList(body["id_list"].items)
  {
    if "id_list" in body && body["id_list"].VList? { CleanListSpec(body["id_list"].items); }
    if "normalized_list" in body && body["normalized_list"].VList? { CleanListSpec(body["normalized_list"].items); }
  }

  function StateOf(body: Fields): string { Lower(Trim(GetOr(body, "state"))) }
  function OverrideOf(body: Fields): string { Lower(Trim(GetOr(body, "candidate_type_override"))) }

  /** A request that passed the checks. */
  datatype Review = Review(ids: seq<string>, state: string, reviewer: Option<string>, typeOverride: Option<string>, codeMap: Spec)

  datatype Checked = Refused(detail: string) | Accepted(review: Review)

  /** The handler's checks before any write, each refusing with 400. */
  function CheckReview(body: Fields, resolve: seq<string> -> seq<string>): Checked
  {
    var ids := RequestedIds(body, resolve);
    var state := StateOf(body);
    var reviewer := Trim(GetOr(body, "reviewer"));
    var ct := OverrideOf(body);
    var codeMap := DictField(body, "tag_code_map");
    if ids == [] then Refused(NoIds)
    else if state !in States then Refused(BadState)
    else if state == "approved" && ct !in Kinds then Refused(NoOverride)
    else if state == "approved" && codeMap == map[] then Refused(NoCodeMap)
    else Accepted(Review(ids, state, if reviewer == [] then None else Some(reviewer), if ct == [] then None else Some(ct), codeMap))
  }

  /**
   * Each refusal happens exactly in its case, in the handler's order; an
   * accepted request carries the requested ids, one of the four states,
   * and for an approval a kind override and a non-empty code map.
   */
  lemma CheckReviewSpec(body: Fields, resolve: seq<string> -> seq<string>)
    ensures var c := CheckReview(body, resolve);
      var ids := RequestedIds(body, resolve);
      var st := StateOf(body);
      (c == Refused(NoIds) <==> ids == [])
      && (c == Refused(BadState) <==> ids != [] && st !in States)
      && (c == Refused(NoOverride) <==> ids != [] && st == "approved" && OverrideOf(body) !in Kinds)
      && (c == Refused(NoCodeMap) <==>
            ids != [] && st == "approved" && OverrideOf(body) in Kinds && DictField(body, "tag_code_map") == map[])
      && (c.Accepted? <==>
            ids != [] && st in States
            && (st == "approved" ==> OverrideOf(body) in Kinds && DictField(body, "tag_code_map") != map[]))
      && (c.Accepted? ==>
            c.review.ids == ids && c.review.state == st
            && (st == "approved" ==> c.review.typeOverride == Some(OverrideOf(body)) && c.review.codeMap != map[]))
  {
    assert NoIds != BadState && NoIds != NoOverride && NoIds != NoCodeMap;
    assert BadState != NoOverride && BadState != NoCodeMap && NoOverride != NoCodeMap;
  }

  // ------------------------------------------- ids, phrases and groups

  /** `id_to_norm`: each non-empty id with its stripped phrase; a repeated id keeps its place and takes the last phrase. */
  function IdToNorm(rows: seq<(string, string)>): Dict<string> { PutRows(rows, Trim) }

  method IdToNormLoop(rows: seq<(string, string)>) returns (d: Dict<string>)
    ensures d == IdToNorm(rows)
  {
    d := [];
    var i := 0;
    while i < |rows|
      invariant 0 <= i <= |rows| && d == PutRows(rows[..i], Trim)
    {
      assert rows[..i + 1][..i] == rows[..i];
      if rows[i].0 != [] {
        d := Put(d, rows[i].0, Trim(rows[i].1));
      }
      i := i + 1;
    }
    assert rows[..|rows|] == rows;
  }

  /** The key an id is grouped under: `_normalize_phrase` of its phrase. */
  function GroupKey(phrase: string): string { NormalizePhrase(Some(phrase)) }

  /** `by_norm`: the ids grouped under their phrase key, keys in first-seen order. */
  function Groups(d: Dict<string>): Dict<seq<string>> { GroupBy(d, GroupKey) }

  method GroupLoop(d: Dict<string>) returns (g: Dict<seq<string>>)
    ensures g == Groups(d)
  {
    g := [];
    var i := 0;
    while i < |d|
      invariant 0 <= i <= |d| && g == GroupBy(d[..i], GroupKey)
    {
      assert d[..i + 1][..i] == d[..i];
      g := Append(g, GroupKey(d[i].1), d[i].0);
      i := i + 1;
    }
    assert d[..|d|] == d;
  }

  // --------------------------------------------- the approval write-back

  /** A tag of the QA lexicon. */
  datatype Tag = Tag(parent: Option<string>, spec: Spec, active: bool)

  /** The QA lexicon's tags by kind and code. */
  type Tags = map<(string, string), Tag>

  /** The non-blank strong phrases of a spec. */
  function Strong(spec: Spec): seq<string> { EnsureList(spec, StrongKey) }

  /** `m.get(k)` as text when truthy; a list or object value counts as absent. */
  function MapText(m: Spec, k: string): Option<string>
  {
    if k in m && Truthy(m[k]) && m[k].JStr? then Some(m[k].s)
    else if k in m && Truthy(m[k]) && m[k].JAtom? then Some(m[k].text)
    else None
  }

  /** `m.get(nk) or m.get(nk.strip()) or m.get(nk.lower()) or None` */
  function Mapped(m: Spec, nk: string): Option<string>
  {
    if MapText(m, nk).Some? then MapText(m, nk)
    else if MapText(m, Trim(nk)).Some? then MapText(m, Trim(nk))
    else MapText(m, Lower(nk))
  }

  /** The tag a phrase is approved into: its mapped `kind:code` when the kind is known and the code non-empty. */
  function MappedTag(m: Spec, nk: string, ct: string): Option<(string, string)>
  {
    var mapped := Mapped(m, nk);
    if mapped.None? then None
    else
      var kc := ParseKindCode(mapped, Some(ct));
      if kc.0 in Kinds && kc.1 != [] then Some(kc) else None
  }

  /** A new child code's parent: `tc.rsplit(".", 1)[0] if "." in tc else None`. */
  function NewParent(tc: string): Option<string> { if '.' in tc then Some(ParentOf(tc)) else None }

  /** The spec a new tag is created with. */
  function NewSpec(tk: string, nk: string): Spec
  {
    map["kind" := JStr(tk), "description" := JStr(""), StrongKey := JList([IStr(nk)])]
  }

  /** An existing tag after `spec.setdefault("kind", tk)`, the strong alias, and activation. */
  function Aliased(t: Tag, kind: string, nk: string): Tag
  {
    var spec := if "kind" in t.spec then t.spec else t.spec["kind" := JStr(kind)];
    Tag(t.parent, AddAlias(spec, nk, Some("strong")), true)
  }

  /** A strong alias leaves the strong phrases as the old ones followed by the phrase unless present. */
  lemma StrongAliasIs(spec: Spec, nk: string)
    requires nk != [] && Trim(nk) == nk
    ensures Strong(AddAlias(spec, nk, Some("strong"))) == WithStrong(spec, nk)
    ensures nk in WithStrong(spec, nk) && Strong(spec) == WithStrong(spec, nk)[..|Strong(spec)|]
  {
    TrimSpec(nk);
    assert !IsBlank(nk);
    StrongIsNotWeak();
    AddAliasSpec(spec, nk, Some("strong"));
    var w := WithStrong(spec, nk);
    TextsOfStrs(w);
    var r := AddAlias(spec, nk, Some("strong"));
    assert StrongKey in r && r[StrongKey] == JList(Strs(w));
  }

  lemma StrongIsNotWeak()
    ensures !IsWeak(Some("strong"))
  {
    assert Trim("strong") == "strong";
  }

  /** The aliased tag is active and keeps its strong phrases, with the phrase among them. */
  lemma AliasedSpec(t: Tag, kind: string, nk: string)
    requires nk != [] && Trim(nk) == nk
    ensures Aliased(t, kind, nk).active && nk in Strong(Aliased(t, kind, nk).spec)
    ensures forall p :: p in Strong(t.spec) ==> p in Strong(Aliased(t, kind, nk).spec)
  {
    var spec := if "kind" in t.spec then t.spec else t.spec["kind" := JStr(kind)];
    assert Strong(spec) == Strong(t.spec);
    StrongAliasIs(spec, nk);
    var w := WithStrong(spec, nk);
    forall p | p in Strong(spec) ensures p in w {
      var j :| 0 <= j < |Strong(spec)| && Strong(spec)[j] == p;
      assert w[j] == p;
    }
  }

  /** A new tag's only strong phrase is the approved one. */
  lemma NewSpecStrong(kind: string, nk: string)
    requires nk != [] && Trim(nk) == nk
    ensures Strong(NewSpec(kind, nk)) == [nk]
  {
    var sp := NewSpec(kind, nk);
    assert sp[StrongKey] == JList([IStr(nk)]);
    assert !IsBlank(nk);
    assert [IStr(nk)][1..] == [];
    assert Texts([IStr(nk)][1..]) == [];
    assert Texts([IStr(nk)]) == [nk];
  }

  /**
   * The outcome of the approve loop. A block keeps the lexicon as the
   * phrases before it left it: the QA connection commits every statement
   * on its own, so nothing is rolled back.
   */
  datatype Approval = Approved(tags: Tags) | Blocked(check: TagCheck, tags: Tags)

  /**
   * One phrase of the approve loop: skipped without a usable mapping; an
   * existing tag gets the phrase as a strong alias (its `kind` defaulted)
   * and is activated; a missing tag is created if it passes the structure
   * rules, and otherwise the whole request fails with their verdict.
   */
  function ApproveOne(tags: Tags, nk: string, m: Spec, ct: string): Approval
  {
    var mt := MappedTag(m, nk, ct);
    if mt.None? then Approved(tags)
    else if mt.value in tags then Approved(tags[mt.value := Aliased(tags[mt.value], mt.value.0, nk)])
    else
      var parent := NewParent(mt.value.1);
      var lookup := if parent.Some? && (mt.value.0, parent.value) in tags then Found else NotFound;
      var check := ValidateTag(mt.value.1, parent, NewSpec(mt.value.0, nk), lookup);
      if check != TagOk then Blocked(check, tags)
      else Approved(tags[mt.value := Tag(parent, NewSpec(mt.value.0, nk), true)])
  }

  /** The approve loop over the distinct phrases, stopping at the first blocked one. */
  function Approvals(tags: Tags, ns: seq<string>, m: Spec, ct: string): Approval
    decreases |ns|
  {
    if ns == [] then Approved(tags)
    else
      match ApproveOne(tags, ns[0], m, ct)
      case Blocked(c, t) => Blocked(c, t)
      case Approved(t) => Approvals(t, ns[1..], m, ct)
  }

  method ApproveLoop(tags0: Tags, ns: seq<string>, m: Spec, ct: string) returns (a: Approval)
    ensures a == Approvals(tags0, ns, m, ct)
  {
    var tags := tags0;
    var i := 0;
    while i < |ns|
      invariant 0 <= i <= |ns|
      invariant Approvals(tags, ns[i..], m, ct) == Approvals(tags0, ns, m, ct)
    {
      assert ns[i..][1..] == ns[i + 1..];
      var step := ApproveOne(tags, ns[i], m, ct);
      if step.Blocked? {
        return step;
      }
      tags := step.tags;
      i := i + 1;
    }
    a := Approved(tags);
  }

  /** Approval only adds tags, keeps every strong phrase, and keeps active tags active. */
  predicate Extends(t0: Tags, t1: Tags)
  {
    t0.Keys <= t1.Keys
    && (forall key, p :: key in t0 && p in Strong(t0[key].spec) ==> p in Strong(t1[key].spec))
    && (forall key :: key in t0 && t0[key].active ==> t1[key].active)
  }

  /** Tag `key` exists, is active and lists `nk` among its strong phrases. */
  predicate Holds(t: Tags, key: (string, string), nk: string)
  {
    key in t && t[key].active && nk in Strong(t[key].spec)
  }

  lemma ExtendsTrans(t0: Tags, t1: Tags, t2: Tags)
    requires Extends(t0, t1) && Extends(t1, t2)
    ensures Extends(t0, t2)
  {
  }

  lemma ExtendsHolds(t0: Tags, t1: Tags, key: (string, string), nk: string)
    requires Extends(t0, t1) && Holds(t0, key, nk)
    ensures Holds(t1, key, nk)
  {
  }

  /**
   * One approved phrase: the lexicon is extended, and a phrase with a
   * usable mapping ends up as an active strong phrase of its tag, which is
   * the only tag touched. A block only happens for a new tag.
   */
  lemma ApproveOneSpec(tags: Tags, nk: string, m: Spec, ct: string)
    requires nk != [] && Trim(nk) == nk
    ensures ApproveOne(tags, nk, m, ct).Approved? ==>
      var t := ApproveOne(tags, nk, m, ct).tags;
      Extends(tags, t)
      && (MappedTag(m, nk, ct).None? ==> t == tags)
      && (MappedTag(m, nk, ct).Some? ==>
            Holds(t, MappedTag(m, nk, ct).value, nk)
            && forall k :: k in tags && k != MappedTag(m, nk, ct).value ==> t[k] == tags[k])
    ensures ApproveOne(tags, nk, m, ct).Blocked? ==>
      MappedTag(m, nk, ct).Some? && MappedTag(m, nk, ct).value !in tags
  {
    var mt := MappedTag(m, nk, ct);
    if mt.Some? {
      if mt.value in tags {
        AliasExtends(tags, mt.value, nk);
      } else {
        NewTagExtends(tags, mt.value, NewParent(mt.value.1), nk);
      }
    }
  }

  /** Aliasing an existing tag extends the lexicon and touches that tag only. */
  lemma AliasExtends(tags: Tags, key: (string, string), nk: string)
    requires key in tags && nk != [] && Trim(nk) == nk
    ensures var t := tags[key := Aliased(tags[key], key.0, nk)];
      Extends(tags, t) && Holds(t, key, nk)
  {
    AliasedSpec(tags[key], key.0, nk);
  }

  /** Adding a new tag extends the lexicon. */
  lemma NewTagExtends(tags: Tags, key: (string, string), parent: Option<string>, nk: string)
    requires key !in tags && nk != [] && Trim(nk) == nk
    ensures var t := tags[key := Tag(parent, NewSpec(key.0, nk), true)];
      Extends(tags, t) && Holds(t, key, nk)
  {
    NewSpecStrong(key.0, nk);
  }

  /**
   * A blocked loop stopped at some phrase `k`: the lexicon it reports is the
   * one the loop over the phrases before `k` left committed, and phrase `k`
   * is the one refused.
   */
  predicate StoppedAt(tags: Tags, ns: seq<string>, m: Spec, ct: string, r: Approval)
  {
    exists k :: 0 <= k < |ns| && Approvals(tags, ns[..k], m, ct) == Approved(r.tags)
      && ApproveOne(r.tags, ns[k], m, ct) == r
  }

  lemma {:induction false} ApprovalsBlockedAt(tags: Tags, ns: seq<string>, m: Spec, ct: string)
    ensures var r := Approvals(tags, ns, m, ct);
      r.Blocked? ==> StoppedAt(tags, ns, m, ct, r)
    decreases |ns|
  {
    var r := Approvals(tags, ns, m, ct);
    if ns != [] && r.Blocked? {
      var a := ApproveOne(tags, ns[0], m, ct);
      if a.Blocked? {
        assert ns[..0] == [];
        assert Approvals(tags, ns[..0], m, ct) == Approved(tags);
      } else {
        var rest := ns[1..];
        ApprovalsBlockedAt(a.tags, rest, m, ct);
        assert r == Approvals(a.tags, rest, m, ct);
        var k :| 0 <= k < |rest| && Approvals(a.tags, rest[..k], m, ct) == Approved(r.tags)
                 && ApproveOne(r.tags, rest[k], m, ct) == r;
        var pre := ns[..k + 1];
        assert pre[0] == ns[0] && pre[1..] == rest[..k];
        assert Approvals(tags, pre, m, ct) == Approved(r.tags);
        assert rest[k] == ns[k + 1];
      }
    }
  }

  /**
   * A block keeps what the phrases before it wrote: the reported lexicon
   * extends the one before the request, and every phrase before the
   * refused one that had a usable mapping is an active strong phrase of
   * its tag.
   */
  lemma ApprovalsBlocked(tags: Tags, ns: seq<string>, m: Spec, ct: string)
    requires forall i :: 0 <= i < |ns| ==> ns[i] != [] && Trim(ns[i]) == ns[i]
    ensures var r := Approvals(tags, ns, m, ct);
      r.Blocked? ==>
        Extends(tags, r.tags)
        && exists k :: 0 <= k < |ns| && ApproveOne(r.tags, ns[k], m, ct) == r
             && forall i :: 0 <= i < k && MappedTag(m, ns[i], ct).Some? ==> Holds(r.tags, MappedTag(m, ns[i], ct).value, ns[i])
  {
    var r := Approvals(tags, ns, m, ct);
    if r.Blocked? {
      ApprovalsBlockedAt(tags, ns, m, ct);
      var k :| 0 <= k < |ns| && Approvals(tags, ns[..k], m, ct) == Approved(r.tags)
               && ApproveOne(r.tags, ns[k], m, ct) == r;
      var pre := ns[..k];
      assert forall i :: 0 <= i < |pre| ==> pre[i] == ns[i];
      ApprovalsSpec(tags, pre, m, ct);
    }
  }

  /**
   * After the whole loop, unless blocked, the lexicon is extended and every
   * phrase with a usable mapping is an active strong phrase of its tag.
   */
  lemma {:induction false} ApprovalsSpec(tags: Tags, ns: seq<string>, m: Spec, ct: string)
    requires forall i :: 0 <= i < |ns| ==> ns[i] != [] && Trim(ns[i]) == ns[i]
    ensures Approvals(tags, ns, m, ct).Approved? ==>
      Extends(tags, Approvals(tags, ns, m, ct).tags)
      && forall i :: 0 <= i < |ns| && MappedTag(m, ns[i], ct).Some? ==>
           Holds(Approvals(tags, ns, m, ct).tags, MappedTag(m, ns[i], ct).value, ns[i])
    decreases |ns|
  {
    if ns != [] {
      ApproveOneSpec(tags, ns[0], m, ct);
      var a := ApproveOne(tags, ns[0], m, ct);
      if a.Approved? {
        var rest := ns[1..];
        assert forall i :: 0 <= i < |rest| ==> rest[i] == ns[i + 1];
        ApprovalsSpec(a.tags, rest, m, ct);
        var r := Approvals(tags, ns, m, ct);
        assert r == Approvals(a.tags, rest, m, ct);
        if r.Approved? {
          ExtendsTrans(tags, a.tags, r.tags);
          forall i | 0 <= i < |ns| && MappedTag(m, ns[i], ct).Some?
            ensures Holds(r.tags, MappedTag(m, ns[i], ct).value, ns[i])
          {
            if i == 0 {
              ExtendsHolds(a.tags, r.tags, MappedTag(m, ns[0], ct).value, ns[0]);
            } else {
              assert rest[i - 1] == ns[i];
            }
          }
        }
      }
    }
  }

  // ---------------------------------------------------------- the reply

  /** A row upserted into the candidate catalog for one group. */
  datatype CatalogRow = CatalogRow(candidateType: string, key: string, propKey: string, propTag: Option<string>, state: string)

  /** One group of updated ids with its phrase key and the new state. */
  datatype Update = Update(ids: seq<string>, normalized: string, state: string)

  /** One id the state update did not reach, with its phrase (or ""). */
  datatype IdError = IdError(id: string, normalized: string)

  datatype ReviewReply =
    | ReviewRefused(detail: string)
    | ReviewBlocked(check: TagCheck, tags: Tags)
    | Reviewed(updated: seq<Update>, errors: seq<IdError>, revision: Option<nat>,
               tags: Tags, proposedTag: Option<string>, catalog: seq<CatalogRow>)

  /** The proposed tag and its key, from the first phrase's mapping. */
  function Proposal(rv: Review, normals: seq<string>): (Option<string>, string)
  {
    var ct := OrEmpty(rv.typeOverride);
    if rv.state == "approved" && rv.codeMap != map[] && normals != [] && Mapped(rv.codeMap, normals[0]).Some? then
      var kc := ParseKindCode(Mapped(rv.codeMap, normals[0]), Some(if ct == [] then "d" else ct));
      (Some(kc.1), Take(Lower(kc.0 + ":" + kc.1), 300))
    else (None, "")
  }

  /** `ct_by_id.get(sub_ids[0])` when it is a known kind, else "d". */
  function GroupType(types: map<string, string>, ids: seq<string>): string
  {
    if ids != [] && ids[0] in types && types[ids[0]] in Kinds then types[ids[0]] else "d"
  }

  function CatalogFor(rv: Review, g: Dict<seq<string>>, types: map<string, string>, prop: (Option<string>, string)): seq<CatalogRow>
  {
    seq(|g|, j requires 0 <= j < |g| => CatalogRow(GroupType(types, g[j].1), Take(g[j].0, 500), prop.1, prop.0, rv.state))
  }

  function UpdatesFor(rv: Review, g: Dict<seq<string>>): seq<Update>
  {
    seq(|g|, j requires 0 <= j < |g| => Update(g[j].1, g[j].0, rv.state))
  }

  function ErrorsFor(rv: Review, d: Dict<string>): seq<IdError>
  {
    seq(|rv.ids|, j requires 0 <= j < |rv.ids| => IdError(rv.ids[j], if DictGet(d, rv.ids[j]).Some? then DictGet(d, rv.ids[j]).value else ""))
  }

  /**
   * The handler. `rows` answers the id query, `tags` and `revision` are the
   * QA lexicon before the request, `types` the candidates' types and
   * `changed` the row count of the state update.
   */
  function ReviewBulk(body: Fields, resolve: seq<string> -> seq<string>, rows: seq<(string, string)>,
                      tags: Tags, revision: nat, types: map<string, string>, changed: nat): ReviewReply
  {
    match CheckReview(body, resolve)
    case Refused(detail) => ReviewRefused(detail)
    case Accepted(rv) =>
      var d := IdToNorm(rows);
      var normals := Dedup(Values(d));
      var approval := if rv.state == "approved" then Approvals(tags, normals, rv.codeMap, OrEmpty(rv.typeOverride)) else Approved(tags);
      if approval.Blocked? then ReviewBlocked(approval.check, approval.tags)
      else
        var g := Groups(d);
        var prop := Proposal(rv, normals);
        Reviewed(
          if changed == 0 then [] else UpdatesFor(rv, g),
          if changed == 0 then ErrorsFor(rv, d) else [],
          if rv.state == "approved" then Some(revision + 1) else None,
          approval.tags,
          if rv.state == "approved" then prop.0 else None,
          if changed == 0 then [] else CatalogFor(rv, g, types, prop))
  }

  /** `list(d.values())` */
  function Values(d: Dict<string>): seq<string>
  {
    seq(|d|, i requires 0 <= i < |d| => d[i].1)
  }

  method ErrorsLoop(rv: Review, d: Dict<string>) returns (errors: seq<IdError>)
    ensures errors == ErrorsFor(rv, d)
  {
    errors := [];
    var j := 0;
    while j < |rv.ids|
      invariant 0 <= j <= |rv.ids| && errors == ErrorsFor(rv, d)[..j]
    {
      var n := if DictGet(d, rv.ids[j]).Some? then DictGet(d, rv.ids[j]).value else "";
      errors := errors + [IdError(rv.ids[j], n)];
      j := j + 1;
    }
  }

  method UpdatesLoop(rv: Review, g: Dict<seq<string>>, types: map<string, string>, prop: (Option<string>, string))
    returns (updated: seq<Update>, catalog: seq<CatalogRow>)
    ensures updated == UpdatesFor(rv, g) && catalog == CatalogFor(rv, g, types, prop)
  {
    updated, catalog := [], [];
    var j := 0;
    while j < |g|
      invariant 0 <= j <= |g|
      invariant updated == UpdatesFor(rv, g)[..j] && catalog == CatalogFor(rv, g, types, prop)[..j]
    {
      updated := updated + [Update(g[j].1, g[j].0, rv.state)];
      catalog := catalog + [CatalogRow(GroupType(types, g[j].1), Take(g[j].0, 500), prop.1, prop.0, rv.state)];
      j := j + 1;
    }
  }

  method ReviewBulkRun(body: Fields, resolve: seq<string> -> seq<string>, rows: seq<(string, string)>,
                       tags: Tags, revision: nat, types: map<string, string>, changed: nat) returns (reply: ReviewReply)
    ensures reply == ReviewBulk(body, resolve, rows, tags, revision, types, changed)
  {
    var c := CheckReview(body, resolve);
    if c.Refused? {
      return ReviewRefused(c.detail);
    }
    var rv := c.review;
    var d := IdToNormLoop(rows);
    var normals := Dedup(Values(d));
    var approval := Approved(tags);
    if rv.state == "approved" {
      approval := ApproveLoop(tags, normals, rv.codeMap, OrEmpty(rv.typeOverride));
    }
    if approval.Blocked? {
      return ReviewBlocked(approval.check, approval.tags);
    }
    var g := GroupLoop(d);
    var prop := Proposal(rv, normals);
    var updated: seq<Update> := [];
    var errors: seq<IdError> := [];
    var catalog: seq<CatalogRow> := [];
    if changed == 0 {
      errors := ErrorsLoop(rv, d);
    } else {
      updated, catalog := UpdatesLoop(rv, g, types, prop);
    }
    reply := Reviewed(updated, errors, if rv.state == "approved" then Some(revision + 1) else None,
                      approval.tags, if rv.state == "approved" then prop.0 else None, catalog);
  }

  /**
   * A refused request changes nothing; an accepted one reports a lexicon
   * revision exactly when approving and leaves the lexicon alone
   * otherwise; with no row changed, every requested id is reported as an
   * error and nothing is updated.
   */
  lemma ReviewBulkOutcome(body: Fields, resolve: seq<string> -> seq<string>, rows: seq<(string, string)>,
                          tags: Tags, revision: nat, types: map<string, string>, changed: nat)
    ensures var r := ReviewBulk(body, resolve, rows, tags, revision, types, changed);
      var c := CheckReview(body, resolve);
      (r.ReviewRefused? <==> c.Refused?)
      && (r.ReviewRefused? ==> r.detail == c.detail)
      && (r.ReviewBlocked? ==> c.Accepted? && c.review.state == "approved")
      && (r.Reviewed? ==>
            c.Accepted?
            && (r.revision.Some? <==> c.review.state == "approved")
            && (r.revision.Some? ==> r.revision.value == revision + 1)
            && (c.review.state != "approved" ==> r.tags == tags && r.proposedTag.None?)
            && (changed == 0 ==>
                  r.updated == [] && r.catalog == [] && |r.errors| == |c.review.ids|
                  && forall j :: 0 <= j < |r.errors| ==> r.errors[j].id == c.review.ids[j])
            && (changed != 0 ==> r.errors == [] && |r.updated| == |r.catalog|))
  {
  }

  /**
   * A blocked request reports the QA lexicon as the approve loop left it
   * at the refused phrase: the loop over the phrases before it, all of
   * them committed, and nothing of the rest.
   */
  lemma {:induction false} ReviewBulkBlocked(body: Fields, resolve: seq<string> -> seq<string>, rows: seq<(string, string)>,
                          tags: Tags, revision: nat, types: map<string, string>, changed: nat)
    ensures var r := ReviewBulk(body, resolve, rows, tags, revision, types, changed);
      var c := CheckReview(body, resolve);
      r.ReviewBlocked? ==>
        c.Accepted?
        && StoppedAt(tags, Dedup(Values(IdToNorm(rows))), c.review.codeMap, OrEmpty(c.review.typeOverride), Blocked(r.check, r.tags))
  {
    var r := ReviewBulk(body, resolve, rows, tags, revision, types, changed);
    var c := CheckReview(body, resolve);
    if r.ReviewBlocked? && c.Accepted? {
      var normals := Dedup(Values(IdToNorm(rows)));
      var m, ct := c.review.codeMap, OrEmpty(c.review.typeOverride);
      var approval := if c.review.state == "approved" then Approvals(tags, normals, m, ct) else Approved(tags);
      assert approval.Blocked? && r == ReviewBlocked(approval.check, approval.tags);
      ApprovalsBlockedAt(tags, normals, m, ct);
    }
  }

  /**
   * With rows changed, the updates partition the found ids: one update and
   * one catalog row per phrase key, keys distinct, no update empty or
   * listing an id twice, an id in an update exactly when its phrase key is
   * the update's, and every found id in some update.
   */
  lemma ReviewBulkGroups(body: Fields, resolve: seq<string> -> seq<string>, rows: seq<(string, string)>,
                         tags: Tags, revision: nat, types: map<string, string>, changed: nat)
    requires changed != 0
    ensures var r := ReviewBulk(body, resolve, rows, tags, revision, types, changed);
      var d := IdToNorm(rows);
      r.Reviewed? ==>
        (forall j :: 0 <= j < |r.updated| ==>
           r.updated[j].ids != [] && NoRepeats(r.updated[j].ids)
           && r.catalog[j].key == Take(r.updated[j].normalized, 500))
        && (forall j1, j2 :: 0 <= j1 < j2 < |r.updated| ==> r.updated[j1].normalized != r.updated[j2].normalized)
        && (forall j, x :: 0 <= j < |r.updated| ==>
              (x in r.updated[j].ids <==> InGroup(d, x, r.updated[j].normalized, GroupKey)))
        && (forall i :: 0 <= i < |d| ==> exists j :: 0 <= j < |r.updated| && r.updated[j].normalized == GroupKey(d[i].1))
  {
    var r := ReviewBulk(body, resolve, rows, tags, revision, types, changed);
    if r.Reviewed? {
      var d := IdToNorm(rows);
      var rv := CheckReview(body, resolve).review;
      var prop := Proposal(rv, Dedup(Values(d)));
      PutRowsKeys(rows, Trim);
      UpdatesPartition(rv, d, types, prop);
      assert r.updated == UpdatesFor(rv, Groups(d)) && r.catalog == CatalogFor(rv, Groups(d), types, prop);
    }
  }

  /** The per-group updates and catalog rows built from the grouping of distinct ids. */
  lemma UpdatesPartition(rv: Review, d: Dict<string>, types: map<string, string>, prop: (Option<string>, string))
    requires NoRepeats(Keys(d))
    ensures var u := UpdatesFor(rv, Groups(d));
      var c := CatalogFor(rv, Groups(d), types, prop);
      |u| == |c|
      && (forall j :: 0 <= j < |u| ==> u[j].ids != [] && NoRepeats(u[j].ids) && c[j].key == Take(u[j].normalized, 500))
      && (forall j1, j2 :: 0 <= j1 < j2 < |u| ==> u[j1].normalized != u[j2].normalized)
      && (forall j, x :: 0 <= j < |u| ==> (x in u[j].ids <==> InGroup(d, x, u[j].normalized, GroupKey)))
      && (forall i :: 0 <= i < |d| ==> exists j :: 0 <= j < |u| && u[j].normalized == GroupKey(d[i].1))
  {
    var g := Groups(d);
    var u := UpdatesFor(rv, g);
    GroupByKeys(d, GroupKey);
    GroupByMembers(d, GroupKey);
    GroupByDistinct(d, GroupKey);
    forall j1, j2 | 0 <= j1 < j2 < |u| ensures u[j1].normalized != u[j2].normalized {
      assert Keys(g)[j1] == g[j1].0 && Keys(g)[j2] == g[j2].0;
    }
    forall i | 0 <= i < |d| ensures exists j :: 0 <= j < |u| && u[j].normalized == GroupKey(d[i].1) {
      var j :| 0 <= j < |g| && Keys(g)[j] == GroupKey(d[i].1);
      assert u[j].normalized == g[j].0;
    }
  }
}
