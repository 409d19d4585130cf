/**
 * The lexicon-maintenance service's two batch endpoints. Apply-operations
 * carries out triage decisions on candidate phrases: reject a phrase, add
 * it as an alias to a tag, or create a tag for it. Health-fix apply
 * carries out structural fixes on the lexicon: create, update, delete,
 * merge and move tags.
 *
 * Each operation runs on its own. A failing operation is reported in the
 * results and the batch goes on. Both connections commit every statement
 * as it is issued, so the writes an operation made before a database
 * error stay in place. The databases are not tables here. What
 * an operation reads from them is a parameter, one answer per operation
 * index. What it writes is returned as a list of `Write`s, in the order the
 * handler issues the statements. Operation names, messages, result keys
 * and notes are datatypes; the functions ending in `Text` give the strings
 * the handlers send.
 */
module BatchOps {
  import opened Text
  import opened LexSpec
  import opened Requests
  import LexTable

  // ------------------------------------------------------- operations

  /** One element of the `operations` array: a JSON object, or anything else. */
  datatype Op = NotAnObject | Obj(f: Fields)

  datatype OpKind = RejectCandidate | AddAlias | CreateTag | UpdateTag | DeleteTag | MergeTags | MoveTag

  function OpKindText(k: OpKind): string
  {
    match k
    case RejectCandidate => "reject_candidate"
    case AddAlias => "add_alias"
    case CreateTag => "create_tag"
    case UpdateTag => "update_tag"
    case DeleteTag => "delete_tag"
    case MergeTags => "merge_tags"
    case MoveTag => "move_tag"
  }

  /** The operation a stripped `op` field names, if any. */
  function OpKindOf(s: string): Option<OpKind>
  {
    if s == "reject_candidate" then Some(RejectCandidate)
    else if s == "add_alias" then Some(AddAlias)
    else if s == "create_tag" then Some(CreateTag)
    else if s == "update_tag" then Some(UpdateTag)
    else if s == "delete_tag" then Some(DeleteTag)
    else if s == "merge_tags" then Some(MergeTags)
    else if s == "move_tag" then Some(MoveTag)
    else None
  }

  /** A result's `op`: a known operation, the field's text otherwise, or "unknown" for a non-object. */
  datatype OpName = Named(k: OpKind) | Other(text: string) | NotAnObjectName

  function OpNameOf(s: string): OpName
  {
    if OpKindOf(s).Some? then Named(OpKindOf(s).value) else Other(s)
  }

  function OpNameText(n: OpName): string
  {
    match n
    case Named(k) => OpKindText(k)
    case Other(t) => t
    case NotAnObjectName => "unknown"
  }

  /** Every operation is recognised by its name, and a result echoes the `op` field it was given. */
  lemma OpNames(k: OpKind, s: string)
    ensures OpKindOf(OpKindText(k)) == Some(k)
    ensures OpNameText(OpNameOf(s)) == s
    ensures OpKindOf(s).Some? <==> OpNameOf(s).Named?
  {
    if OpKindOf(s).Some? {
      match OpKindOf(s).value
      case RejectCandidate =>
      case AddAlias =>
      case CreateTag =>
      case UpdateTag =>
      case DeleteTag =>
      case MergeTags =>
      case MoveTag =>
    }
  }

  // ---------------------------------------------------------- results

  /** `"ok"` or `"error"`. */
  datatype Status = Ok | Failed

  /** The reasons an operation fails. */
  datatype Msg =
    | InvalidObject
    | MissingNormalized
    | NoProposedRows
    | NoRowsUpdated
    | UnknownOp(op: string)
    | TargetArgs
    | TargetTagMissing(kind: string, code: string)
    | KindCodeArgs
    | TagMissing(kind: string, code: string)
    | MergeArgs
    | SourceMissing(kind: string, code: string)
    | TargetMissing(kind: string, code: string)
    | MoveArgs
    | UnknownOperation(op: string)
    | Error(text: string)
    | Invalid(kind: string, code: string, parent: Option<string>, check: TagCheck)

  /** `kind.code` */
  function TagName(kind: string, code: string): string { kind + "." + code }

  /** The message text; a structure-rule verdict gives the rule's own detail. */
  function MsgText(m: Msg): string
  {
    match m
    case InvalidObject => "Invalid operation object"
    case MissingNormalized => "Missing 'normalized' field"
    case NoProposedRows => "no_matching_proposed_rows"
    case NoRowsUpdated => "no_rows_updated"
    case UnknownOp(op) => "Unknown op: " + op
    case TargetArgs => "target_kind (p/d/j) and target_code are required"
    case TargetTagMissing(k, c) => "Target tag " + TagName(k, c) + " not found"
    case KindCodeArgs => "kind (p/d/j) and code are required"
    case TagMissing(k, c) => "Tag " + TagName(k, c) + " not found"
    case MergeArgs => "kind/source_code/target_code required"
    case SourceMissing(k, c) => "Source " + TagName(k, c) + " not found"
    case TargetMissing(k, c) => "Target " + TagName(k, c) + " not found"
    case MoveArgs => "kind/from_code/to_code required"
    case UnknownOperation(op) => "Unknown operation: " + op
    case Error(t) => t
    case Invalid(k, c, p, check) => TagCheckText(k, c, p, check)
  }

  /** A result's `detail`: none, a message, or a message cut to its first 500 characters. */
  datatype Detail = NoDetail | Says(m: Msg) | Cut(m: Msg)

  function DetailText(d: Detail): Option<string>
  {
    match d
    case NoDetail => None
    case Says(m) => Some(MsgText(m))
    case Cut(m) => Some(Take(MsgText(m), 500))
  }

  datatype Note = AddedPhrase | CreatedNew | UpdatedExisting

  function NoteText(n: Note): string
  {
    match n
    case AddedPhrase => "added phrase to existing tag"
    case CreatedNew => "created new tag"
    case UpdatedExisting => "updated existing"
  }

  /** A result's other keys. */
  datatype Field =
    | FNormalized(s: string)
    | FTarget(tag: string)
    | FTag(tag: string)
    | FNote(note: Note)
    | FCode(tag: string)
    | FDeleted(n: nat)
    | FSource(tag: string)
    | FFrom(tag: string)
    | FTo(tag: string)

  function FieldText(x: Field): (string, string)
  {
    match x
    case FNormalized(s) => ("normalized", s)
    case FTarget(t) => ("target", t)
    case FTag(t) => ("tag", t)
    case FNote(n) => ("note", NoteText(n))
    case FCode(t) => ("code", t)
    case FDeleted(n) => ("deleted", IntToString(n))
    case FSource(t) => ("source", t)
    case FFrom(t) => ("from", t)
    case FTo(t) => ("to", t)
  }

  /** What one operation reports. */
  datatype Report = Report(op: OpName, fields: seq<Field>, status: Status, detail: Detail)

  /** One entry of `results`: the operation's index and its report. */
  datatype OpResult = OpResult(index: nat, report: Report)

  /** `"status": "ok"` or `"partial"`. */
  datatype Outcome = AllOk | Partial

  const NoOperations := "'operations' array is required and must not be empty"

  // ----------------------------------------------------------- writes

  /**
   * What became of a candidate phrase: rejected with the reviewer's note,
   * absorbed as an alias of a tag (also rejected), or made a new tag
   * (approved).
   */
  datatype Absorb = Dismissed(notes: string) | AliasTo(tag: string) | CreatedAs(tag: string)

  function AbsorbState(h: Absorb): string
  {
    match h
    case Dismissed(_) => "rejected"
    case AliasTo(_) => "rejected"
    case CreatedAs(_) => "approved"
  }

  function AbsorbNote(h: Absorb): string
  {
    match h
    case Dismissed(n) => n
    case AliasTo(t) => "Added as alias to " + t
    case CreatedAs(t) => "Created as " + t
  }

  /** A statement issued against the QA lexicon or the candidate tables. */
  datatype Write =
    | SetState(ids: seq<string>, how: Absorb)
    | SetSpec(kind: string, code: string, spec: Spec)
    | InsertTag(kind: string, code: string, parent: Option<string>, spec: Spec)
    | Reactivate(kind: string, code: string, parent: Option<string>, spec: Spec)
    | Catalog(ctype: string, key: string, propKey: string, how: Absorb)
    | PromoteChildren(kind: string, code: string)
    | Delete(kind: string, code: string)
    | Reparent(kind: string, from: string, to: string)
    | Rename(kind: string, from: string, to: string, parent: Option<string>)

  /** What one operation reports and what it writes. */
  type Step = (Report, seq<Write>)

  function Fail(op: OpName, fields: seq<Field>, m: Msg): Step { (Report(op, fields, Failed, Says(m)), []) }

  function FailCut(op: OpName, fields: seq<Field>, m: Msg): Step { (Report(op, fields, Failed, Cut(m)), []) }

  /**
   * An unexpected database error: the statement issued after the
   * operation's first `written` writes raised it, with this text.
   */
  datatype Raised = Raised(written: nat, error: string)

  /**
   * The writes of `w` that stay committed when the operation raised `r`:
   * those before the raising statement. That statement is one of the
   * operation's own, at the latest its last write, which then did not
   * happen.
   */
  function Committed(w: seq<Write>, r: Raised): (c: seq<Write>)
    ensures c <= w && |c| <= r.written && (w != [] ==> |c| < |w|)
    ensures r.written < |w| ==> |c| == r.written
  {
    if r.written < |w| then w[..r.written] else if w == [] then [] else w[..|w| - 1]
  }

  // ------------------------------------------------------ the batch loop

  /** The results of the first `n` operations, each at its index. */
  function Results(n: nat, step: nat -> Step): seq<OpResult>
  {
    seq(n, i requires 0 <= i < n => OpResult(i, step(i).0))
  }

  /** The writes of the first `n` operations, in order. */
  function Writes(n: nat, step: nat -> Step): seq<Write>
  {
    if n == 0 then [] else Writes(n - 1, step) + step(n - 1).1
  }

  /** `for idx, op in enumerate(operations)`: each operation's report is appended and its writes issued. */
  method Collect(n: nat, step: nat -> Step) returns (results: seq<OpResult>, writes: seq<Write>)
    ensures results == Results(n, step) && writes == Writes(n, step)
  {
    results, writes := [], [];
    var i := 0;
    while i < n
      invariant 0 <= i <= n
      invariant results == Results(i, step) && writes == Writes(i, step)
    {
      var s := step(i);
      results := results + [OpResult(i, s.0)];
      writes := writes + s.1;
      i := i + 1;
    }
  }

  function FailedCount(rs: seq<OpResult>): nat { CountIf(rs, (r: OpResult) => r.report.status == Failed) }

  /** No element passes exactly when the count is zero. */
  lemma {:induction false} CountIfZero<T>(xs: seq<T>, p: T -> bool)
    ensures CountIf(xs, p) == 0 <==> forall i :: 0 <= i < |xs| ==> !p(xs[i])
    decreases |xs|
  {
    if xs != [] {
      var n := |xs| - 1;
      CountIfZero(xs[..n], p);
      assert forall i :: 0 <= i < n ==> xs[..n][i] == xs[i];
    }
  }

  /** The failed count is at most the batch, and zero exactly when every result is "ok". */
  lemma ResultCounts(rs: seq<OpResult>)
    ensures FailedCount(rs) <= |rs|
    ensures FailedCount(rs) == 0 <==> forall i :: 0 <= i < |rs| ==> rs[i].report.status == Ok
  {
    CountIfZero(rs, (r: OpResult) => r.report.status == Failed);
  }

  // ------------------------------------------------------ phrase lists

  /** `list(v)` for a list value; anything else reads as no phrases. */
  function ListOf(v: Json): seq<Item> { if v.JList? then v.items else [] }

  /** `spec.get(k1) or spec.get(k2) or ... or []` */
  function FirstTruthy(spec: Spec, keys: seq<string>): seq<Item>
  {
    if keys == [] then []
    else if HasTruthy(spec, keys[0]) then ListOf(spec[keys[0]])
    else FirstTruthy(spec, keys[1..])
  }

  /** `s.lower() in [str(p).lower() for p in ps]` */
  predicate HasFolded(ps: seq<Item>, s: string)
  {
    exists i :: 0 <= i < |ps| && Lower(Str(ps[i])) == Lower(s)
  }

  /** The phrase is appended unless some phrase equals it up to case. */
  function WithPhrase(ps: seq<Item>, s: string): seq<Item>
  {
    if HasFolded(ps, s) then ps else ps + [IStr(s)]
  }

  /**
   * The list keeps its old phrases in front, then holds the phrase up to
   * case, grows by at most that phrase, and a second append changes
   * nothing.
   */
  lemma WithPhraseSpec(ps: seq<Item>, s: string)
    ensures var r := WithPhrase(ps, s);
      ps <= r && HasFolded(r, s) && |r| <= |ps| + 1
      && (HasFolded(ps, s) <==> r == ps)
      && WithPhrase(r, s) == r
  {
    var r := WithPhrase(ps, s);
    if !HasFolded(ps, s) {
      assert Str(r[|ps|]) == s;
      assert r != ps by { assert |r| == |ps| + 1; }
    }
  }

  // ------------------------------------------------- apply-operations

  /** What the databases tell one triage operation. */
  datatype ApplyAnswer = ApplyAnswer(
    proposed: seq<string>,           // ids of the proposed candidate rows with the phrase
    types: map<string, string>,      // candidate type by id
    rows: nat,                       // rows the candidate update changed
    rejectError: string,             // the reject helper's error text, "" for none
    target: Option<(string, Spec)>,  // add_alias: the tag found, by its code and its spec
    existing: Option<Spec>,          // create_tag: the spec of the tag with that kind and code
    failure: Option<Raised>)         // a database error, with `str(ex)`

  /** The ids in the operation when it lists any, else the proposed rows with its phrase. */
  function IdsOf(f: Fields, a: ApplyAnswer): seq<string>
  {
    if ListField(f, "ids") != [] then ListField(f, "ids") else a.proposed
  }

  /** The first id's candidate type when it is a kind, else `dflt`. */
  function TypeOr(types: map<string, string>, id: string, dflt: string): string
  {
    if id in types && types[id] in Kinds then types[id] else dflt
  }

  /** A catalog proposal key: lower-cased, at most 300 characters. */
  function PropKey(s: string): string { Take(Lower(s), 300) }

  /** The legacy phrase lists an alias falls back on. */
  const AliasKeys: seq<string> := [StrongKey, "phrases", "aliases"]

  /** The tag spec after an alias: strong, else legacy, else alias phrases, with the phrase appended, as the strong list. */
  function AliasSpec(spec: Spec, nz: string): Spec
  {
    spec[StrongKey := JList(WithPhrase(FirstTruthy(spec, AliasKeys), nz))]
  }

  /** An existing tag's spec after create_tag: the phrase appended, the description filled in when missing. */
  function ExistingSpec(spec: Spec, nz: string, desc: string): Spec
  {
    var s := spec[StrongKey := JList(WithPhrase(FirstTruthy(spec, [StrongKey]), nz))];
    if desc != [] && !HasTruthy(spec, "description") then s["description" := JStr(desc)] else s
  }

  /** A new tag's spec: the phrase as its only strong phrase, and the description when given. */
  function NewTagSpec(nz: string, desc: string): Spec
  {
    var s := map[StrongKey := JList([IStr(nz)])];
    if desc != [] then s["description" := JStr(desc)] else s
  }

  /**
   * An alias keeps the old phrase list in front as the strong list and
   * holds the phrase up to case; every other key is kept; aliasing the
   * same phrase twice changes nothing more.
   */
  lemma AliasSpecSpec(spec: Spec, nz: string)
    ensures var r := AliasSpec(spec, nz);
      StrongKey in r && r[StrongKey].JList?
      && FirstTruthy(spec, AliasKeys) <= r[StrongKey].items
      && HasFolded(r[StrongKey].items, nz)
      && (forall k :: k in spec && k != StrongKey ==> k in r && r[k] == spec[k])
      && AliasSpec(r, nz) == r
  {
    var ps := FirstTruthy(spec, AliasKeys);
    WithPhraseSpec(ps, nz);
    var r := AliasSpec(spec, nz);
    var l := WithPhrase(ps, nz);
    assert l != [];
    assert HasTruthy(r, StrongKey);
    assert FirstTruthy(r, AliasKeys) == l;
  }

  /**
   * Creating an existing tag appends the phrase to its strong list, keeps a
   * description it has and otherwise fills in the given one; every other
   * key is kept.
   */
  lemma ExistingSpecSpec(spec: Spec, nz: string, desc: string)
    ensures var r := ExistingSpec(spec, nz, desc);
      StrongKey in r && r[StrongKey].JList?
      && FirstTruthy(spec, [StrongKey]) <= r[StrongKey].items
      && HasFolded(r[StrongKey].items, nz)
      && (HasTruthy(spec, "description") ==> "description" in r && r["description"] == spec["description"])
      && (desc != [] && !HasTruthy(spec, "description") ==> "description" in r && r["description"] == JStr(desc))
      && (forall k :: k in spec && k != StrongKey && k != "description" ==> k in r && r[k] == spec[k])
  {
    WithPhraseSpec(FirstTruthy(spec, [StrongKey]), nz);
  }

  /** A new tag's only strong phrase is the candidate phrase, and it has a description exactly when one was given. */
  lemma NewTagSpecSpec(nz: string, desc: string)
    ensures var r := NewTagSpec(nz, desc);
      StrongKey in r && r[StrongKey] == JList([IStr(nz)])
      && ("description" in r <==> desc != [])
  {
  }

  /** The reviewer note of a rejection: the operation's reason, by default the LLM's. */
  function ReasonOf(f: Fields): string { Take(Get(f, "reason", "LLM-recommended reject"), 500) }

  /**
   * A triage operation as it ends: as planned, or, when a statement raised,
   * failed with the error's text (at most 500 characters) and with the
   * writes before it committed.
   */
  function ApplySettle(op: OpName, nz: string, plan: Step, failure: Option<Raised>): Step
  {
    if failure.Some? then (Report(op, [FNormalized(nz)], Failed, Cut(Error(failure.value.error))), Committed(plan.1, failure.value))
    else plan
  }

  /**
   * The reject helper: the ids are marked rejected with the reason and, when
   * a row changed, the catalog records the rejection under the first id's
   * type (default "d") with no proposed tag.
   */
  function RejectStep(reason: string, nz: string, ids: seq<string>, a: ApplyAnswer): Step
    requires ids != []
  {
    var op := Named(RejectCandidate);
    var nzf := [FNormalized(nz)];
    var w := [SetState(ids, Dismissed(reason))];
    var plan :=
      if a.rows == 0 then (Report(op, nzf, Failed, Says(if a.rejectError != [] then Error(a.rejectError) else NoRowsUpdated)), w)
      else (Report(op, nzf, Ok, NoDetail), w + [Catalog(TypeOr(a.types, ids[0], "d"), NormalizePhrase(Some(nz)), "", Dismissed(reason))]);
    ApplySettle(op, nz, plan, a.failure)
  }

  /** `target_kind` (default "d", lower-cased) and `target_code`, stripped. */
  function AliasArgs(f: Fields): (string, string)
  {
    (Lower(Trim(Get(f, "target_kind", "d"))), Trim(Get(f, "target_code", "")))
  }

  function AliasStep(tk: string, tc: string, nz: string, ids: seq<string>, a: ApplyAnswer): Step
    requires ids != []
  {
    var op := Named(AddAlias);
    var nzf := [FNormalized(nz)];
    if tk !in Kinds || tc == [] then FailCut(op, nzf, TargetArgs)
    else
      var plan :=
        if a.target.None? then FailCut(op, nzf, TargetTagMissing(tk, tc))
        else
          var rc := a.target.value.0;
          var how := AliasTo(TagName(tk, rc));
          var w := [SetSpec(tk, rc, AliasSpec(a.target.value.1, nz)), SetState(ids, how)];
          if a.rows == 0 then (Report(op, nzf, Failed, Says(NoRowsUpdated)), w)
          else
            (Report(op, nzf + [FTarget(TagName(tk, rc))], Ok, NoDetail),
             w + [Catalog(TypeOr(a.types, ids[0], tk), NormalizePhrase(Some(nz)), PropKey(tk + ":" + rc), how)]);
      ApplySettle(op, nz, plan, a.failure)
  }

  datatype CreateArgs = CreateArgs(kind: string, code: string, parent: Option<string>, desc: string)

  /** `kind` (default "d", lower-cased), `code`, `parent_code` (blank is none) and `description` (500 characters). */
  function CreateArgsOf(f: Fields): CreateArgs
  {
    var p := Trim(Get(f, "parent_code", ""));
    CreateArgs(Lower(Trim(Get(f, "kind", "d"))), Trim(Get(f, "code", "")), if p == [] then None else Some(p),
               Take(Get(f, "description", ""), 500))
  }

  function CreateStep(c: CreateArgs, nz: string, ids: seq<string>, a: ApplyAnswer): Step
    requires ids != []
  {
    var op := Named(CreateTag);
    var nzf := [FNormalized(nz)];
    if c.kind !in Kinds || c.code == [] then FailCut(op, nzf, KindCodeArgs)
    else
      var tag := TagName(c.kind, c.code);
      var qa := if a.existing.Some? then SetSpec(c.kind, c.code, ExistingSpec(a.existing.value, nz, c.desc))
                else InsertTag(c.kind, c.code, c.parent, NewTagSpec(nz, c.desc));
      var w := [qa, SetState(ids, CreatedAs(tag))];
      var plan :=
        if a.rows == 0 then (Report(op, nzf, Failed, Says(NoRowsUpdated)), w)
        else
          (Report(op, nzf + [FTag(tag), FNote(if a.existing.Some? then AddedPhrase else CreatedNew)], Ok, NoDetail),
           w + [Catalog(TypeOr(a.types, ids[0], c.kind), NormalizePhrase(Some(nz)), PropKey(tag), CreatedAs(tag))]);
      ApplySettle(op, nz, plan, a.failure)
  }

  /** One triage operation. */
  function ApplyStep(op: Op, a: ApplyAnswer): Step
  {
    match op
    case NotAnObject => Fail(NotAnObjectName, [], InvalidObject)
    case Obj(f) =>
      var opType := Trim(Get(f, "op", ""));
      var nz := Trim(Get(f, "normalized", ""));
      var ids := IdsOf(f, a);
      if nz == [] then Fail(OpNameOf(opType), [], MissingNormalized)
      else if ids == [] then Fail(OpNameOf(opType), [FNormalized(nz)], NoProposedRows)
      else
        match OpKindOf(opType)
        case Some(RejectCandidate) => RejectStep(ReasonOf(f), nz, ids, a)
        case Some(AddAlias) => AliasStep(AliasArgs(f).0, AliasArgs(f).1, nz, ids, a)
        case Some(CreateTag) => CreateStep(CreateArgsOf(f), nz, ids, a)
        case _ => Fail(OpNameOf(opType), [FNormalized(nz)], UnknownOp(opType))
  }

  /** The step of operation `i` of the batch. */
  function ApplySteps(ops: seq<Op>, ans: nat -> ApplyAnswer): nat -> Step
  {
    (i: nat) => if i < |ops| then ApplyStep(ops[i], ans(i)) else Fail(NotAnObjectName, [], InvalidObject)
  }

  /** A result that changed the QA lexicon. */
  predicate ChangesLexicon(r: OpResult)
  {
    r.report.status == Ok && (r.report.op == Named(AddAlias) || r.report.op == Named(CreateTag))
  }

  predicate AnyLexicon(rs: seq<OpResult>) { exists i :: 0 <= i < |rs| && ChangesLexicon(rs[i]) }

  datatype ApplyReply =
    | ApplyRefused(detail: string)
    | ApplyDone(outcome: Outcome, results: seq<OpResult>, failedCount: nat, appliedCount: nat,
                revision: nat, writes: seq<Write>)

  /**
   * The endpoint. `ops` is `body["operations"]` when it is a list; `bumped`
   * is the revision the meta update returns (0 without a row).
   */
  function ApplyOperations(ops: Option<seq<Op>>, ans: nat -> ApplyAnswer, bumped: nat): ApplyReply
  {
    if ops.None? || ops.value == [] then ApplyRefused(NoOperations)
    else
      var rs := Results(|ops.value|, ApplySteps(ops.value, ans));
      var failed := FailedCount(rs);
      ApplyDone(if failed == 0 then AllOk else Partial, rs, failed, |rs| - failed,
                if AnyLexicon(rs) then bumped else 0, Writes(|ops.value|, ApplySteps(ops.value, ans)))
  }

  method ApplyOperationsRun(ops: Option<seq<Op>>, ans: nat -> ApplyAnswer, bumped: nat) returns (reply: ApplyReply)
    ensures reply == ApplyOperations(ops, ans, bumped)
  {
    if ops.None? || ops.value == [] {
      return ApplyRefused(NoOperations);
    }
    var results, writes := Collect(|ops.value|, ApplySteps(ops.value, ans));
    var failed := FailedCount(results);
    reply := ApplyDone(if failed == 0 then AllOk else Partial, results, failed, |results| - failed,
                       if AnyLexicon(results) then bumped else 0, writes);
  }

  /**
   * An empty or missing batch is refused with 400. Otherwise there is one
   * result per operation, at its index and reporting that operation;
   * failed and applied add up to the batch; the status is "ok" exactly when
   * nothing failed; and the lexicon revision is the bumped one exactly when
   * some alias or tag creation succeeded, else 0.
   */
  lemma ApplyOperationsSpec(ops: Option<seq<Op>>, ans: nat -> ApplyAnswer, bumped: nat)
    ensures var r := ApplyOperations(ops, ans, bumped);
      (r.ApplyRefused? <==> ops.None? || ops.value == [])
      && (r.ApplyRefused? ==> r.detail == NoOperations)
      && (r.ApplyDone? ==>
            |r.results| == |ops.value|
            && (forall i :: 0 <= i < |r.results| ==> r.results[i] == OpResult(i, ApplyStep(ops.value[i], ans(i)).0))
            && r.failedCount + r.appliedCount == |ops.value|
            && (r.outcome == AllOk <==> forall i :: 0 <= i < |r.results| ==> r.results[i].report.status == Ok)
            && (r.revision == if exists i :: 0 <= i < |r.results| && ChangesLexicon(r.results[i]) then bumped else 0))
  {
    if ops.Some? && ops.value != [] {
      var rs := Results(|ops.value|, ApplySteps(ops.value, ans));
      ResultCounts(rs);
    }
  }

  /** The triage operations. */
  predicate IsTriage(k: Option<OpKind>) { k == Some(RejectCandidate) || k == Some(AddAlias) || k == Some(CreateTag) }

  /**
   * A triage operation succeeds only for an object with a phrase and ids
   * naming one of the three triage operations, with no database error and
   * a changed candidate row. One refused before the database writes
   * nothing; one that raised has failed, having written no more than the
   * statements before the error.
   */
  lemma ApplyStepOk(op: Op, a: ApplyAnswer)
    ensures var s := ApplyStep(op, a);
      (s.0.status == Ok ==>
         op.Obj? && Trim(Get(op.f, "normalized", "")) != [] && IdsOf(op.f, a) != []
         && IsTriage(OpKindOf(Trim(Get(op.f, "op", ""))))
         && s.0.op == Named(OpKindOf(Trim(Get(op.f, "op", ""))).value)
         && a.failure.None? && a.rows != 0)
      && (op.NotAnObject? || Trim(Get(op.f, "normalized", "")) == [] || IdsOf(op.f, a) == []
          || !IsTriage(OpKindOf(Trim(Get(op.f, "op", ""))))
          ==> s.0.status == Failed && s.1 == [])
      && (a.failure.Some? ==>
            s.0.status == Failed && |s.1| <= a.failure.value.written
            && s.1 == Committed(ApplyStep(op, a.(failure := None)).1, a.failure.value))
  {
    match op
    case NotAnObject =>
    case Obj(f) =>
      var nz := Trim(Get(f, "normalized", ""));
      var ids := IdsOf(f, a);
      if nz != [] && ids != [] {
        match OpKindOf(Trim(Get(f, "op", "")))
        case Some(RejectCandidate) => RejectStepOk(ReasonOf(f), nz, ids, a);
        case Some(AddAlias) => AliasStepOk(AliasArgs(f).0, AliasArgs(f).1, nz, ids, a);
        case Some(CreateTag) => CreateStepOk(CreateArgsOf(f), nz, ids, a);
        case _ =>
      }
  }

  /**
   * A rejection succeeds exactly when no error was raised and a row
   * changed. It marks the ids rejected with the reason, and only when a
   * row changed records the rejection in the catalog, with no proposed
   * tag. An error keeps the writes issued before it.
   */
  lemma RejectStepOk(reason: string, nz: string, ids: seq<string>, a: ApplyAnswer)
    requires ids != []
    ensures var s := RejectStep(reason, nz, ids, a);
      s.0.op == Named(RejectCandidate) && s.0.fields == [FNormalized(nz)]
      && (s.0.status == Ok <==> a.failure.None? && a.rows != 0)
      && (a.failure.None? ==>
            1 <= |s.1| <= 2 && s.1[0] == SetState(ids, Dismissed(reason))
            && (|s.1| == 2 <==> a.rows != 0)
            && (|s.1| == 2 ==> s.1[1].Catalog? && s.1[1].propKey == "" && s.1[1].how == Dismissed(reason)
                               && s.1[1].key == NormalizePhrase(Some(nz))))
      && (a.failure.None? && a.rows == 0 ==>
            s.0.detail == Says(if a.rejectError != [] then Error(a.rejectError) else NoRowsUpdated))
      && (a.failure.Some? ==>
            s.0.detail == Cut(Error(a.failure.value.error))
            && s.1 == Committed(RejectStep(reason, nz, ids, a.(failure := None)).1, a.failure.value))
  {
  }

  /**
   * An alias succeeds exactly when the target is well formed, the tag is
   * found and a candidate row changed. Once the tag is found it is
   * rewritten and the ids are marked as absorbed, even if no row then
   * changes; on success the catalog records the absorption and the result
   * names the tag. An error keeps the writes issued before it.
   */
  lemma AliasStepOk(tk: string, tc: string, nz: string, ids: seq<string>, a: ApplyAnswer)
    requires ids != []
    ensures var s := AliasStep(tk, tc, nz, ids, a);
      s.0.op == Named(AddAlias)
      && (s.0.status == Ok <==> tk in Kinds && tc != [] && a.failure.None? && a.target.Some? && a.rows != 0)
      && (!(tk in Kinds && tc != []) ==> s.0.detail == Cut(TargetArgs) && s.1 == [])
      && (tk in Kinds && tc != [] && a.failure.None? && a.target.None? ==> s.0.detail == Cut(TargetTagMissing(tk, tc)))
      && (tk in Kinds && tc != [] && a.failure.Some? ==>
            s.0.detail == Cut(Error(a.failure.value.error))
            && s.1 == Committed(AliasStep(tk, tc, nz, ids, a.(failure := None)).1, a.failure.value))
      && (a.failure.None? ==> (s.1 != [] <==> tk in Kinds && tc != [] && a.target.Some?))
      && (a.failure.None? && s.1 != [] ==>
            |s.1| >= 2
            && s.1[0] == SetSpec(tk, a.target.value.0, AliasSpec(a.target.value.1, nz))
            && s.1[1] == SetState(ids, AliasTo(TagName(tk, a.target.value.0))))
      && (s.0.status == Ok ==>
            |s.1| == 3 && s.1[2].Catalog? && s.1[2].how == AliasTo(TagName(tk, a.target.value.0))
            && s.0.fields == [FNormalized(nz), FTarget(TagName(tk, a.target.value.0))])
  {
  }

  /**
   * A creation succeeds exactly when kind and code are well formed and a
   * candidate row changed. The tag is updated when it exists and inserted
   * otherwise, and the ids are marked approved, even if no row then
   * changes; the note says which. An error keeps the writes issued before
   * it.
   */
  lemma CreateStepOk(c: CreateArgs, nz: string, ids: seq<string>, a: ApplyAnswer)
    requires ids != []
    ensures var s := CreateStep(c, nz, ids, a);
      s.0.op == Named(CreateTag)
      && (s.0.status == Ok <==> c.kind in Kinds && c.code != [] && a.failure.None? && a.rows != 0)
      && (!(c.kind in Kinds && c.code != []) ==> s.0.detail == Cut(KindCodeArgs) && s.1 == [])
      && (c.kind in Kinds && c.code != [] && a.failure.Some? ==>
            s.0.detail == Cut(Error(a.failure.value.error))
            && s.1 == Committed(CreateStep(c, nz, ids, a.(failure := None)).1, a.failure.value))
      && (a.failure.None? ==> (s.1 != [] <==> c.kind in Kinds && c.code != []))
      && (a.failure.None? && s.1 != [] ==>
            |s.1| >= 2
            && (a.existing.Some? ==> s.1[0] == SetSpec(c.kind, c.code, ExistingSpec(a.existing.value, nz, c.desc)))
            && (a.existing.None? ==> s.1[0] == InsertTag(c.kind, c.code, c.parent, NewTagSpec(nz, c.desc)))
            && s.1[1] == SetState(ids, CreatedAs(TagName(c.kind, c.code))))
      && (s.0.status == Ok ==>
            |s.1| == 3 && s.1[2].Catalog? && s.1[2].how == CreatedAs(TagName(c.kind, c.code))
            && s.0.fields == [FNormalized(nz), FTag(TagName(c.kind, c.code)), FNote(if a.existing.Some? then AddedPhrase else CreatedNew)])
  {
  }

  /**
   * An alias whose candidate update raised leaves the tag rewritten with
   * the phrase, yet reports failure, so the batch does not count it
   * towards the lexicon revision.
   */
  lemma AliasRaisedAfterRewrite(tk: string, tc: string, nz: string, ids: seq<string>, a: ApplyAnswer, i: nat)
    requires ids != [] && tk in Kinds && tc != [] && a.target.Some? && a.failure.Some? && a.failure.value.written == 1
    ensures var s := AliasStep(tk, tc, nz, ids, a);
      s.1 == [SetSpec(tk, a.target.value.0, AliasSpec(a.target.value.1, nz))]
      && !ChangesLexicon(OpResult(i, s.0))
  {
  }

  // ------------------------------------------------- health-fix apply

  /** What the QA database tells one fix operation. */
  datatype FixAnswer = FixAnswer(
    lookup: Lookup,                        // the structure rule's parent query
    row: Option<(Spec, Option<string>)>,   // the tag with the operation's kind and code: spec, parent
    source: Option<Spec>,                  // merge_tags: the source tag's spec
    target: Option<Spec>,                  // merge_tags: the target tag's spec
    order: seq<string>,                    // the order in which the merged phrase set is walked
    rows: nat,                             // rows the delete or the rename touched
    failure: Option<Raised>)               // an unexpected error, with `"Type: message"`

  /** The `code` field of a failed fix. */
  function CodeOf(kind: string, code: string): seq<Field>
  {
    [FCode(if code != [] then TagName(kind, code) else "")]
  }

  /** `{str(p).strip() for p in (spec.get("strong_phrases") or [])}` */
  function StrongSet(spec: Spec): set<string> { LexTable.TrimSet(FirstTruthy(spec, [StrongKey])) }

  /** The source's stripped strong phrases and its code with underscores read as spaces. */
  function SourceSet(srcSpec: Spec, src: string): set<string>
  {
    StrongSet(srcSpec) + {Trim(ReplaceChar(src, '_', " "))}
  }

  /** `[p for p in src_phrases if p and p not in existing_phrases]`, walking the set in `order`. */
  function AddedPhrases(order: seq<string>, tgtSpec: Spec): seq<string>
  {
    Filter(order, (p: string) => p != [] && p !in StrongSet(tgtSpec))
  }

  /** The target's spec with the added phrases behind its strong list. */
  function MergedSpec(tgtSpec: Spec, added: seq<string>): Spec
  {
    tgtSpec[StrongKey := JList(FirstTruthy(tgtSpec, [StrongKey]) + Strs(added))]
  }

  /**
   * A fix as it ends: as planned, or, when a statement raised, failed with
   * the error's text and with the writes before it committed.
   */
  function FixSettle(op: OpName, kind: string, code: string, plan: Step, failure: Option<Raised>): Step
  {
    if failure.Some? then (Report(op, CodeOf(kind, code), Failed, Says(Error(failure.value.error))), Committed(plan.1, failure.value))
    else plan
  }

  function FixCreate(kind: string, code: string, parent: Option<string>, spec: Spec, a: FixAnswer): Step
  {
    var op := Named(CreateTag);
    if kind !in Kinds || code == [] then Fail(op, CodeOf(kind, code), KindCodeArgs)
    else
      var check := ValidateTag(code, parent, spec, a.lookup);
      if check != TagOk then Fail(op, CodeOf(kind, code), Invalid(kind, code, parent, check))
      else
        var plan :=
          if a.row.Some? then
            (Report(op, [FCode(TagName(kind, code)), FNote(UpdatedExisting)], Ok, NoDetail), [Reactivate(kind, code, parent, spec)])
          else (Report(op, [FCode(TagName(kind, code))], Ok, NoDetail), [InsertTag(kind, code, parent, spec)]);
        FixSettle(op, kind, code, plan, a.failure)
  }

  function FixUpdate(kind: string, code: string, delta: Spec, a: FixAnswer): Step
  {
    var op := Named(UpdateTag);
    if kind !in Kinds || code == [] then Fail(op, CodeOf(kind, code), KindCodeArgs)
    else
      var plan :=
        if a.row.None? then Fail(op, CodeOf(kind, code), TagMissing(kind, code))
        else
          var merged := a.row.value.0 + delta;
          var check := ValidateTag(code, a.row.value.1, merged, a.lookup);
          if check != TagOk then Fail(op, CodeOf(kind, code), Invalid(kind, code, a.row.value.1, check))
          else (Report(op, [FCode(TagName(kind, code))], Ok, NoDetail), [SetSpec(kind, code, merged)]);
      FixSettle(op, kind, code, plan, a.failure)
  }

  function FixDelete(kind: string, code: string, a: FixAnswer): Step
  {
    var op := Named(DeleteTag);
    if kind !in Kinds || code == [] then Fail(op, CodeOf(kind, code), KindCodeArgs)
    else
      FixSettle(op, kind, code,
                (Report(op, [FCode(TagName(kind, code)), FDeleted(a.rows)], Ok, NoDetail),
                 [PromoteChildren(kind, code), Delete(kind, code)]),
                a.failure)
  }

  function FixMerge(kind: string, code: string, src: string, tgt: string, a: FixAnswer): Step
  {
    var op := Named(MergeTags);
    if kind !in Kinds || src == [] || tgt == [] then Fail(op, CodeOf(kind, code), MergeArgs)
    else
      var plan :=
        if a.source.None? then Fail(op, CodeOf(kind, code), SourceMissing(kind, src))
        else if a.target.None? then Fail(op, CodeOf(kind, code), TargetMissing(kind, tgt))
        else
          (Report(op, [FSource(TagName(kind, src)), FTarget(TagName(kind, tgt))], Ok, NoDetail),
           [SetSpec(kind, tgt, MergedSpec(a.target.value, AddedPhrases(a.order, a.target.value))),
            Reparent(kind, src, tgt), Delete(kind, src)]);
      FixSettle(op, kind, code, plan, a.failure)
  }

  function FixMove(kind: string, code: string, from: string, to: string, parent: Option<string>, a: FixAnswer): Step
  {
    var op := Named(MoveTag);
    if kind !in Kinds || from == [] || to == [] then Fail(op, CodeOf(kind, code), MoveArgs)
    else
      var plan :=
        if a.rows == 0 then
          (Report(op, CodeOf(kind, code), Failed, Says(TagMissing(kind, from))), [Rename(kind, from, to, parent)])
        else
          (Report(op, [FFrom(TagName(kind, from)), FTo(TagName(kind, to))], Ok, NoDetail),
           [Rename(kind, from, to, parent), Reparent(kind, from, to)]);
      FixSettle(op, kind, code, plan, a.failure)
  }

  /** The fix operations. */
  predicate IsFix(k: Option<OpKind>) { k.Some? && k.value != RejectCandidate && k.value != AddAlias }

  /** One fix operation. */
  function FixStep(op: Op, a: FixAnswer): Step
  {
    match op
    case NotAnObject => Fail(NotAnObjectName, [], InvalidObject)
    case Obj(f) =>
      var opType := Trim(Get(f, "op", ""));
      var kind := Lower(Trim(Get(f, "kind", "")));
      var code := Trim(Get(f, "code", ""));
      match OpKindOf(opType)
      case Some(CreateTag) => FixCreate(kind, code, StrField(f, "parent_code"), DictField(f, "spec"), a)
      case Some(UpdateTag) => FixUpdate(kind, code, DictField(f, "spec"), a)
      case Some(DeleteTag) => FixDelete(kind, code, a)
      case Some(MergeTags) => FixMerge(kind, code, Trim(Get(f, "source_code", "")), Trim(Get(f, "target_code", "")), a)
      case Some(MoveTag) =>
        FixMove(kind, code, Trim(Get(f, "from_code", "")), Trim(Get(f, "to_code", "")), StrField(f, "parent_code"), a)
      case _ => Fail(OpNameOf(opType), [], UnknownOperation(opType))
  }

  /** The step of operation `i` of the batch. */
  function FixSteps(ops: seq<Op>, ans: nat -> FixAnswer): nat -> Step
  {
    (i: nat) => if i < |ops| then FixStep(ops[i], ans(i)) else Fail(NotAnObjectName, [], InvalidObject)
  }

  datatype FixReply =
    | FixRefused(detail: string)
    | FixDone(outcome: Outcome, results: seq<OpResult>, failedCount: nat, revision: nat, writes: seq<Write>)

  /** The endpoint; `bumped` is the revision the bump returns, asked after every batch. */
  function HealthFixApply(ops: Option<seq<Op>>, ans: nat -> FixAnswer, bumped: nat): FixReply
  {
    if ops.None? || ops.value == [] then FixRefused(NoOperations)
    else
      var rs := Results(|ops.value|, FixSteps(ops.value, ans));
      var failed := FailedCount(rs);
      FixDone(if failed == 0 then AllOk else Partial, rs, failed, bumped, Writes(|ops.value|, FixSteps(ops.value, ans)))
  }

  method HealthFixApplyRun(ops: Option<seq<Op>>, ans: nat -> FixAnswer, bumped: nat) returns (reply: FixReply)
    ensures reply == HealthFixApply(ops, ans, bumped)
  {
    if ops.None? || ops.value == [] {
      return FixRefused(NoOperations);
    }
    var results, writes := Collect(|ops.value|, FixSteps(ops.value, ans));
    var failed := FailedCount(results);
    reply := FixDone(if failed == 0 then AllOk else Partial, results, failed, bumped, writes);
  }

  /**
   * An empty or missing batch is refused with 400. Otherwise there is one
   * result per operation, at its index and reporting that operation; the
   * status is "ok" exactly when nothing failed; and the revision is bumped
   * whatever happened.
   */
  lemma HealthFixApplySpec(ops: Option<seq<Op>>, ans: nat -> FixAnswer, bumped: nat)
    ensures var r := HealthFixApply(ops, ans, bumped);
      (r.FixRefused? <==> ops.None? || ops.value == [])
      && (r.FixRefused? ==> r.detail == NoOperations)
      && (r.FixDone? ==>
            |r.results| == |ops.value| && r.revision == bumped && r.failedCount <= |ops.value|
            && (forall i :: 0 <= i < |r.results| ==> r.results[i] == OpResult(i, FixStep(ops.value[i], ans(i)).0))
            && (r.outcome == AllOk <==> forall i :: 0 <= i < |r.results| ==> r.results[i].report.status == Ok))
  {
    if ops.Some? && ops.value != [] {
      var rs := Results(|ops.value|, FixSteps(ops.value, ans));
      ResultCounts(rs);
    }
  }

  /**
   * A fix succeeds only for an object naming one of the five fix
   * operations, with a known kind and no database error; any other name is
   * reported as unknown, without a code. A failed fix writes nothing,
   * except a rename that matched no row and the statements before an
   * error, which never include the fix's last.
   */
  lemma FixStepOk(op: Op, a: FixAnswer)
    ensures var s := FixStep(op, a);
      (s.0.status == Ok ==>
         op.Obj? && IsFix(OpKindOf(Trim(Get(op.f, "op", ""))))
         && s.0.op == Named(OpKindOf(Trim(Get(op.f, "op", ""))).value)
         && Lower(Trim(Get(op.f, "kind", ""))) in Kinds && a.failure.None?)
      && (s.0.status == Failed && s.1 != [] ==> (s.0.op == Named(MoveTag) && a.rows == 0) || a.failure.Some?)
      && (a.failure.Some? ==>
            s.0.status == Failed && |s.1| <= a.failure.value.written
            && s.1 == Committed(FixStep(op, a.(failure := None)).1, a.failure.value))
      && (op.Obj? && !IsFix(OpKindOf(Trim(Get(op.f, "op", "")))) ==>
            s.0.status == Failed && s.0.fields == [] && s.0.detail == Says(UnknownOperation(Trim(Get(op.f, "op", "")))))
  {
    match op
    case NotAnObject =>
    case Obj(f) =>
      var kind := Lower(Trim(Get(f, "kind", "")));
      var code := Trim(Get(f, "code", ""));
      match OpKindOf(Trim(Get(f, "op", "")))
      case Some(CreateTag) => FixCreateOk(kind, code, StrField(f, "parent_code"), DictField(f, "spec"), a);
      case Some(UpdateTag) => FixUpdateOk(kind, code, DictField(f, "spec"), a);
      case Some(DeleteTag) => FixDeleteOk(kind, code, a);
      case Some(MergeTags) => FixMergeOk(kind, code, Trim(Get(f, "source_code", "")), Trim(Get(f, "target_code", "")), a);
      case Some(MoveTag) =>
        FixMoveOk(kind, code, Trim(Get(f, "from_code", "")), Trim(Get(f, "to_code", "")), StrField(f, "parent_code"), a);
      case _ =>
  }

  /**
   * A creation is refused by the structure rules exactly when they fail,
   * with their verdict; a success reactivates an existing tag, or inserts
   * a new one, with the request's spec and parent.
   */
  lemma FixCreateOk(kind: string, code: string, parent: Option<string>, spec: Spec, a: FixAnswer)
    ensures var s := FixCreate(kind, code, parent, spec, a);
      var check := ValidateTag(code, parent, spec, a.lookup);
      s.0.op == Named(CreateTag)
      && (s.0.status == Ok <==> kind in Kinds && code != [] && check == TagOk && a.failure.None?)
      && (kind in Kinds && code != [] && check != TagOk ==> s.0.detail == Says(Invalid(kind, code, parent, check)))
      && (s.0.status == Failed ==> s.1 == [])
      && (s.0.status == Ok ==>
            s.1 == [if a.row.Some? then Reactivate(kind, code, parent, spec) else InsertTag(kind, code, parent, spec)])
  {
  }

  /**
   * A successful update writes the stored spec overlaid with the request's:
   * a key of the request wins, every other stored key is kept, and the
   * result passed the structure rules under the stored parent.
   */
  lemma FixUpdateOk(kind: string, code: string, delta: Spec, a: FixAnswer)
    ensures var s := FixUpdate(kind, code, delta, a);
      s.0.op == Named(UpdateTag)
      && (s.0.status == Failed ==> s.1 == [])
      && (kind in Kinds && code != [] && a.failure.None? && a.row.None? ==> s.0.detail == Says(TagMissing(kind, code)))
      && (s.0.status == Ok ==>
            a.row.Some? && |s.1| == 1 && s.1[0].SetSpec? && s.1[0].kind == kind && s.1[0].code == code
            && var m := s.1[0].spec;
               (forall k :: k in m <==> k in a.row.value.0 || k in delta)
               && (forall k :: k in delta ==> m[k] == delta[k])
               && (forall k :: k in a.row.value.0 && k !in delta ==> m[k] == a.row.value.0[k])
               && ValidateTag(code, a.row.value.1, m, a.lookup) == TagOk)
  {
  }

  /**
   * A deletion promotes the tag's children before deleting it, and reports
   * how many rows went. An error after the promotion leaves the children
   * promoted and the tag in place.
   */
  lemma FixDeleteOk(kind: string, code: string, a: FixAnswer)
    ensures var s := FixDelete(kind, code, a);
      s.0.op == Named(DeleteTag)
      && (s.0.status == Ok <==> kind in Kinds && code != [] && a.failure.None?)
      && (s.0.status == Ok ==>
            s.1 == [PromoteChildren(kind, code), Delete(kind, code)]
            && s.0.fields == [FCode(TagName(kind, code)), FDeleted(a.rows)])
      && (s.0.status == Failed ==>
            s.1 == [] || (a.failure.Some? && a.failure.value.written >= 1 && s.1 == [PromoteChildren(kind, code)]))
  {
  }

  /** Filtering a list without repeats leaves a list without repeats. */
  lemma {:induction false} FilterNoRepeats<T(!new)>(xs: seq<T>, p: T -> bool)
    requires NoRepeats(xs)
    ensures NoRepeats(Filter(xs, p))
    decreases |xs|
  {
    if xs != [] {
      var n := |xs| - 1;
      assert NoRepeats(xs[..n]);
      FilterNoRepeats(xs[..n], p);
      assert xs[n] !in xs[..n];
    }
  }

  /**
   * A merge succeeds exactly when both tags are found. A failed one writes
   * nothing, unless an error came after the target's rewrite: then the
   * target is rewritten, the children may have moved, and the source is
   * not deleted.
   */
  lemma FixMergeOk(kind: string, code: string, src: string, tgt: string, a: FixAnswer)
    ensures var s := FixMerge(kind, code, src, tgt, a);
      s.0.op == Named(MergeTags)
      && (s.0.status == Ok <==> kind in Kinds && src != [] && tgt != [] && a.failure.None? && a.source.Some? && a.target.Some?)
      && (s.0.status == Failed && s.1 != [] ==>
            a.failure.Some? && a.source.Some? && a.target.Some? && 1 <= |s.1| <= 2
            && s.1[0] == SetSpec(kind, tgt, MergedSpec(a.target.value, AddedPhrases(a.order, a.target.value)))
            && (|s.1| == 2 ==> s.1[1] == Reparent(kind, src, tgt)))
  {
  }

  /**
   * When the set is walked once per member, the merged target keeps its
   * strong list in front and gains each non-empty source phrase it lacked,
   * once; every other key is kept; the source's children move to the
   * target and the source goes.
   */
  lemma FixMergeSpec(kind: string, code: string, src: string, tgt: string, a: FixAnswer)
    requires a.source.Some? ==> NoRepeats(a.order) && forall p :: p in a.order <==> p in SourceSet(a.source.value, src)
    ensures var s := FixMerge(kind, code, src, tgt, a);
      s.0.status == Ok ==>
        |s.1| == 3 && s.1[0].SetSpec? && s.1[0].kind == kind && s.1[0].code == tgt
        && s.1[1] == Reparent(kind, src, tgt) && s.1[2] == Delete(kind, src)
        && var added := AddedPhrases(a.order, a.target.value);
           var m := s.1[0].spec;
           StrongKey in m && m[StrongKey] == JList(FirstTruthy(a.target.value, [StrongKey]) + Strs(added))
           && NoRepeats(added)
           && (forall p :: p in added <==> p in SourceSet(a.source.value, src) && p != [] && p !in StrongSet(a.target.value))
           && (forall k :: k in a.target.value && k != StrongKey ==> k in m && m[k] == a.target.value[k])
  {
    var s := FixMerge(kind, code, src, tgt, a);
    if s.0.status == Ok {
      FilterNoRepeats(a.order, (p: string) => p != [] && p !in StrongSet(a.target.value));
    }
  }

  /** Nothing stops a tag from being merged into itself: the fix reports success and its last statement deletes the tag. */
  lemma FixMergeIntoItself(kind: string, code: string, src: string, a: FixAnswer)
    requires kind in Kinds && src != [] && a.failure.None? && a.source.Some? && a.target.Some?
    ensures var s := FixMerge(kind, code, src, src, a);
      s.0.status == Ok && s.1[0].code == src && s.1[|s.1| - 1] == Delete(kind, src)
  {
  }

  /**
   * A rename that matched no row is reported as a missing tag; otherwise
   * the children follow the tag. An error after a rename that matched
   * leaves the tag renamed and its children under the old code.
   */
  lemma FixMoveOk(kind: string, code: string, from: string, to: string, parent: Option<string>, a: FixAnswer)
    ensures var s := FixMove(kind, code, from, to, parent, a);
      s.0.op == Named(MoveTag)
      && (s.0.status == Ok <==> kind in Kinds && from != [] && to != [] && a.failure.None? && a.rows != 0)
      && (kind in Kinds && from != [] && to != [] && a.failure.None? ==>
            (a.rows == 0 ==> s.0.detail == Says(TagMissing(kind, from)) && s.1 == [Rename(kind, from, to, parent)])
            && (a.rows != 0 ==> s.1 == [Rename(kind, from, to, parent), Reparent(kind, from, to)]))
      && (!(kind in Kinds && from != [] && to != []) ==> s.1 == [])
      && (a.failure.Some? && s.1 != [] ==> a.rows != 0 && a.failure.value.written >= 1 && s.1 == [Rename(kind, from, to, parent)])
  {
  }
}
