// The evaluation studio's question bank: importing a YAML question set into
// a suite (`import_questions_yaml`) and generating one with an LLM first
// (`auto_generate_questions`). Questions are keyed by suite and question id;
// an import inserts new keys and overwrites existing ones.

module QuestionImport {
  import opened Text
  import opened Gold
  import opened Ranking
  import opened RunStore
  import opened QuestionGen

  // ------------------------------------------------------------ entries

  /**
   * One element of the YAML `questions` list. A mapping's fields are read
   * through their truthiness and `str()` (a missing key is `None`); `gold`
   * is `None` when it is not a mapping.
   */
  datatype Entry = NotMapping
                 | Mapping(id: Elem, question: Elem, intent: Elem, bucket: Elem, gold: Option<GoldFields>)

  /** What `yaml.safe_load` gives: an error, or the `questions` list when the document is a mapping holding one. */
  datatype YamlDoc = YamlInvalid(error: string) | YamlLoaded(questions: Option<seq<Entry>>)

  type YamlParser = string -> YamlDoc

  /** A stored question row of `retrieval_eval_questions`. */
  datatype StoredQuestion = StoredQuestion(intent: Option<string>, bucket: Option<string>, question: string, gold: GoldFields)

  datatype QKey = QKey(suite: string, qid: string)

  const NoGold: GoldFields := GoldFields(None, Missing, Missing, Missing, Missing)
  const MissingElem: Elem := Elem(false, "None")

  /** `str(v or d)` */
  function OrText(v: Elem, d: string): string { if v.truthy then v.text else d }

  /** `str(v or "").strip().lower() or None` */
  function Label(v: Elem): (r: Option<string>)
    ensures r.Some? ==> r.value != [] && NoUpper(r.value)
  {
    var s := Lower(Trim(OrText(v, "")));
    LowerNoUpper(Trim(OrText(v, "")));
    if s == [] then None else Some(s)
  }

  /** The default id of the i-th entry (1-based): `f"Q{i:03d}"`. */
  function DefaultQid(i: nat): string { "Q" + Pad3(i) }

  /**
   * The row an entry becomes, with its question id; `None` for a skipped
   * entry (not a mapping, or a blank question).
   */
  function Normalize(i: nat, e: Entry): (r: Option<(string, StoredQuestion)>)
  {
    match e
    case NotMapping => None
    case Mapping(id, question, intent, bucket, gold) =>
      var q := Trim(OrText(question, ""));
      if q == [] then None
      else Some((Trim(OrText(id, DefaultQid(i))), StoredQuestion(Label(intent), Label(bucket), q,
                                                              if gold.Some? then gold.value else NoGold)))
  }

  /** A kept entry has a non-blank question, and an entry without an id gets its position as id. */
  lemma NormalizeSpec(i: nat, e: Entry)
    ensures Normalize(i, e).Some? <==> e.Mapping? && !IsBlank(OrText(e.question, ""))
    ensures Normalize(i, e).Some? ==> Normalize(i, e).value.1.question == Trim(e.question.text)
    ensures Normalize(i, e).Some? && !e.id.truthy ==> Normalize(i, e).value.0 == DefaultQid(i)
    ensures Normalize(i, e).Some? && e.gold.None? ==> Normalize(i, e).value.1.gold == NoGold
  {
    if Normalize(i, e).Some? && !e.id.truthy {
      var d := DefaultQid(i);
      TrimSpec(d);
      TrimChars(d);
      assert !IsSpace(d[0]) && !IsSpace(d[|d| - 1]) by {
        assert IsDigit(d[|d| - 1]);
      }
      TrimLeftFixed(d);
      TrimRightFixed(d);
    }
  }

  /** The kept entries with their ids, numbering entries from 1 over the whole list. */
  function Accepted(entries: seq<Entry>): (r: seq<(string, StoredQuestion)>)
    ensures |r| <= |entries|
  {
    if entries == [] then []
    else
      var n := |entries|;
      var e := Normalize(n, entries[n - 1]);
      Accepted(entries[..n - 1]) + (if e.Some? then [e.value] else [])
  }

  /** Reading one more entry keeps the earlier rows and adds this entry's, if kept. */
  lemma AcceptedStep(entries: seq<Entry>, i: nat)
    requires i < |entries|
    ensures Accepted(entries[..i + 1]) == Accepted(entries[..i])
      + (if Normalize(i + 1, entries[i]).Some? then [Normalize(i + 1, entries[i]).value] else [])
  {
    assert entries[..i + 1][..i] == entries[..i];
  }

  // ------------------------------------------------------------- upsert

  /** The table after upserting the rows in order: a later row of the same id wins. */
  function Upserted(m: map<QKey, StoredQuestion>, sid: string, items: seq<(string, StoredQuestion)>)
    : map<QKey, StoredQuestion>
  {
    if items == [] then m
    else
      var n := |items|;
      Upserted(m, sid, items[..n - 1])[QKey(sid, items[n - 1].0) := items[n - 1].1]
  }

  /** How many rows found their key absent when they were written. */
  function CountNew(m: map<QKey, StoredQuestion>, sid: string, items: seq<(string, StoredQuestion)>): nat
  {
    if items == [] then 0
    else
      var n := |items|;
      CountNew(m, sid, items[..n - 1]) + (if QKey(sid, items[n - 1].0) in Upserted(m, sid, items[..n - 1]) then 0 else 1)
  }

  /** The question ids a suite holds. */
  function SuiteIds(m: map<QKey, StoredQuestion>, sid: string): set<string>
  {
    set k | k in m && k.suite == sid :: k.qid
  }

  function IdsOf(items: seq<(string, StoredQuestion)>): set<string>
  {
    set i | 0 <= i < |items| :: items[i].0
  }

  /** Upserting one more row writes its key last. */
  lemma UpsertStep(m: map<QKey, StoredQuestion>, sid: string, items: seq<(string, StoredQuestion)>,
                   e: (string, StoredQuestion))
    ensures Upserted(m, sid, items + [e]) == Upserted(m, sid, items)[QKey(sid, e.0) := e.1]
    ensures CountNew(m, sid, items + [e]) ==
      CountNew(m, sid, items) + (if QKey(sid, e.0) in Upserted(m, sid, items) then 0 else 1)
  {
    assert (items + [e])[..|items|] == items;
  }

  lemma IdsOfStep(items: seq<(string, StoredQuestion)>)
    requires items != []
    ensures IdsOf(items) == IdsOf(items[..|items| - 1]) + {items[|items| - 1].0}
  {
    var n := |items|;
    var front := items[..n - 1];
    forall q | q in IdsOf(items) ensures q in IdsOf(front) + {items[n - 1].0} {
      var i :| 0 <= i < n && items[i].0 == q;
      if i < n - 1 { assert front[i] == items[i]; }
    }
    forall q | q in IdsOf(front) ensures q in IdsOf(items) {
      var i :| 0 <= i < n - 1 && front[i].0 == q;
      assert items[i] == front[i];
    }
  }

  /** After an upsert the suite holds its old ids and the new ones. */
  lemma {:induction false} UpsertedKeys(m: map<QKey, StoredQuestion>, sid: string, items: seq<(string, StoredQuestion)>)
    ensures Upserted(m, sid, items).Keys == m.Keys + set q | q in IdsOf(items) :: QKey(sid, q)
  {
    if items != [] {
      UpsertedKeys(m, sid, items[..|items| - 1]);
      IdsOfStep(items);
    }
  }

  /** Keys of other suites, and ids the rows do not mention, keep their rows. */
  lemma {:induction false} UpsertedKeeps(m: map<QKey, StoredQuestion>, sid: string, items: seq<(string, StoredQuestion)>)
    ensures forall k :: k in m && (k.suite != sid || k.qid !in IdsOf(items)) ==>
      k in Upserted(m, sid, items) && Upserted(m, sid, items)[k] == m[k]
  {
    if items != [] {
      UpsertedKeys(m, sid, items[..|items| - 1]);
      UpsertedKeeps(m, sid, items[..|items| - 1]);
      IdsOfStep(items);
    }
  }

  /** Each id carries the last row written for it. */
  lemma {:induction false} UpsertedLastWins(m: map<QKey, StoredQuestion>, sid: string,
                                            items: seq<(string, StoredQuestion)>, j: nat)
    requires j < |items| && forall l :: j < l < |items| ==> items[l].0 != items[j].0
    ensures QKey(sid, items[j].0) in Upserted(m, sid, items) && Upserted(m, sid, items)[QKey(sid, items[j].0)] == items[j].1
  {
    var n := |items|;
    if j < n - 1 {
      var front := items[..n - 1];
      UpsertedKeys(m, sid, front);
      assert front[j] == items[j];
      forall l | j < l < n - 1 ensures front[l].0 != front[j].0 {
        assert front[l] == items[l];
      }
      UpsertedLastWins(m, sid, front, j);
    }
  }

  /** The number of rows inserted is exactly how much the suite grew. */
  lemma {:induction false} CountNewIsGrowth(m: map<QKey, StoredQuestion>, sid: string, items: seq<(string, StoredQuestion)>)
    ensures |SuiteIds(Upserted(m, sid, items), sid)| == |SuiteIds(m, sid)| + CountNew(m, sid, items)
    ensures CountNew(m, sid, items) <= |items|
  {
    if items != [] {
      var n := |items|;
      var front := items[..n - 1];
      CountNewIsGrowth(m, sid, front);
      var m0 := Upserted(m, sid, front);
      var k := QKey(sid, items[n - 1].0);
      assert Upserted(m, sid, items) == m0[k := items[n - 1].1];
      assert CountNew(m, sid, items) == CountNew(m, sid, front) + (if k in m0 then 0 else 1);
      SuiteIdsPut(m0, k, items[n - 1].1);
    }
  }

  /** Writing a key of the suite adds its id, which was there exactly when the key was. */
  lemma SuiteIdsPut(m: map<QKey, StoredQuestion>, k: QKey, v: StoredQuestion)
    ensures SuiteIds(m[k := v], k.suite) == SuiteIds(m, k.suite) + {k.qid}
    ensures |SuiteIds(m[k := v], k.suite)| == |SuiteIds(m, k.suite)| + (if k in m then 0 else 1)
  {
    var sid := k.suite;
    assert SuiteIds(m[k := v], sid) == SuiteIds(m, sid) + {k.qid};
    if k in m {
      assert k.qid in SuiteIds(m, sid);
      assert SuiteIds(m, sid) + {k.qid} == SuiteIds(m, sid);
    } else {
      assert k.qid !in SuiteIds(m, sid);
    }
  }

  /** Importing the same rows again inserts nothing and leaves the table as it was. */
  lemma ReimportChangesNothing(m: map<QKey, StoredQuestion>, sid: string, items: seq<(string, StoredQuestion)>)
    ensures Upserted(Upserted(m, sid, items), sid, items) == Upserted(m, sid, items)
    ensures CountNew(Upserted(m, sid, items), sid, items) == 0
  {
    var once := Upserted(m, sid, items);
    var twice := Upserted(once, sid, items);
    UpsertedKeys(m, sid, items);
    UpsertedKeys(once, sid, items);
    UpsertedKeeps(once, sid, items);
    assert twice.Keys == once.Keys;
    forall k | k in once ensures twice[k] == once[k] {
      if k.suite == sid && k.qid in IdsOf(items) {
        var j := LastIndex(items, k.qid);
        UpsertedLastWins(m, sid, items, j);
        UpsertedLastWins(once, sid, items, j);
      }
    }
    NoNewAfterImport(m, sid, items, items);
  }

  /** The position of the last row with id `q`. */
  lemma LastIndex(items: seq<(string, StoredQuestion)>, q: string) returns (j: nat)
    requires q in IdsOf(items)
    ensures j < |items| && items[j].0 == q && forall l :: j < l < |items| ==> items[l].0 != q
  {
    var i :| 0 <= i < |items| && items[i].0 == q;
    j := i;
    while j + 1 < |items| && exists l :: j < l < |items| && items[l].0 == q
      invariant j < |items| && items[j].0 == q
      decreases |items| - j
    {
      var l :| j < l < |items| && items[l].0 == q;
      j := l;
    }
  }

  /** Rows whose ids the table already holds for the suite are never counted as new. */
  lemma {:induction false} NoNewAfterImport(m: map<QKey, StoredQuestion>, sid: string,
                                            items: seq<(string, StoredQuestion)>, prefix: seq<(string, StoredQuestion)>)
    requires IdsOf(prefix) <= IdsOf(items)
    ensures CountNew(Upserted(m, sid, items), sid, prefix) == 0
  {
    if prefix != [] {
      var n := |prefix|;
      var front := prefix[..n - 1];
      assert IdsOf(front) <= IdsOf(prefix) by {
        forall q | q in IdsOf(front) ensures q in IdsOf(prefix) {
          var i :| 0 <= i < n - 1 && front[i].0 == q;
          assert prefix[i] == front[i];
        }
      }
      NoNewAfterImport(m, sid, items, front);
      var once := Upserted(m, sid, items);
      UpsertedKeys(m, sid, items);
      UpsertedKeys(once, sid, front);
      assert prefix[n - 1].0 in IdsOf(prefix);
    }
  }

  // --------------------------------------------------------- the request

  /** The reply of the import endpoint: an HTTP error, or the counts. */
  datatype ImportReply = ImportFailed(code: int, detail: string)
                       | Imported(inserted: nat, updated: nat, total: nat)

  const InvalidSuite := "invalid suite_id"
  const YamlRequired := "yaml is required"
  const NeedQuestions := "yaml must contain top-level 'questions: [...]'"

  /** The request checks, in order: the suite id, the `yaml` text, the parse, and a non-empty `questions` list. */
  function ImportEntries(suiteId: Option<string>, yamlField: Elem, parse: YamlParser): (r: Outcome<seq<Entry>>)
    ensures r.Done? ==> suiteId.Some? && r.value != []
  {
    var y := Trim(OrText(yamlField, ""));
    if suiteId.None? then Failed(InvalidSuite)
    else if y == [] then Failed(YamlRequired)
    else match parse(y)
      case YamlInvalid(e) => Failed("invalid yaml: " + e)
      case YamlLoaded(qs) =>
        if qs.None? || qs.value == [] then Failed(NeedQuestions) else Done(qs.value)
  }

  // ---------------------------------------------------- generation counts

  datatype Counts = Counts(total: int, canonical: int, outOfManual: int, factual: int)

  /** HTTP error or value. */
  datatype Reply<T> = Fail(code: int, detail: string) | Ok(value: T)

  const DefaultTotal: int := 20
  const MaxTotal: int := 80
  const TotalRange := "n_total must be 1..80"
  const BadBuckets := "invalid bucket counts"

  function Max(a: int, b: int): int { if a >= b then a else b }

  /**
   * The bucket counts as `auto_generate_questions` computes them: each
   * missing or falsy count takes its default (`max(2, n_total // 4)`
   * canonical, `max(2, n_total // 6)` out of manual), and factual is what
   * is left, never negative. A value `int()` cannot read is an unhandled
   * error (500).
   */
  function BucketCounts(body: Spec, env: Env): (r: Reply<Counts>)
  {
    match IntOf(Or(Get(body, "n_total"), JInt(DefaultTotal)), env)
    case Failed(e) => Fail(500, e)
    case Done(total) =>
      match IntOf(Or(Get(body, "n_canonical"), JInt(Max(2, total / 4))), env)
      case Failed(e) => Fail(500, e)
      case Done(canonical) =>
        match IntOf(Or(Get(body, "n_out_of_manual"), JInt(Max(2, total / 6))), env)
        case Failed(e) => Fail(500, e)
        case Done(out) =>
          var factual := Max(0, total - canonical - out);
          if total <= 0 || total > MaxTotal then Fail(400, TotalRange)
          else if canonical < 0 || out < 0 || factual < 0 then Fail(400, BadBuckets)
          else Ok(Counts(total, canonical, out, factual))
  }

  /**
   * Accepted counts lie in range, but they only add up to `n_total` when
   * canonical and out-of-manual leave room: the `factual < 0` test can
   * never fire.
   */
  lemma BucketCountsAccepted(body: Spec, env: Env)
    ensures BucketCounts(body, env).Ok? ==>
      var c := BucketCounts(body, env).value;
      1 <= c.total <= MaxTotal && c.canonical >= 0 && c.outOfManual >= 0 && c.factual >= 0
      && (c.canonical + c.outOfManual + c.factual == c.total <==> c.canonical + c.outOfManual <= c.total)
  {
  }

  /** With `n_total: 1` and the other counts defaulted, 2 + 2 + 0 questions are requested out of 1. */
  lemma BucketCountsOverAllocate(env: Env)
    ensures BucketCounts(map["n_total" := JInt(1)], env) == Ok(Counts(1, 2, 2, 0))
  {
  }

  /** The bucket test as evidently intended: the counts must fit into `n_total`. */
  function BucketCountsChecked(body: Spec, env: Env): (r: Reply<Counts>)
  {
    match IntOf(Or(Get(body, "n_total"), JInt(DefaultTotal)), env)
    case Failed(e) => Fail(500, e)
    case Done(total) =>
      match IntOf(Or(Get(body, "n_canonical"), JInt(Max(2, total / 4))), env)
      case Failed(e) => Fail(500, e)
      case Done(canonical) =>
        match IntOf(Or(Get(body, "n_out_of_manual"), JInt(Max(2, total / 6))), env)
        case Failed(e) => Fail(500, e)
        case Done(out) =>
          var factual := total - canonical - out;
          if total <= 0 || total > MaxTotal then Fail(400, TotalRange)
          else if canonical < 0 || out < 0 || factual < 0 then Fail(400, BadBuckets)
          else Ok(Counts(total, canonical, out, factual))
  }

  /** Accepted counts are non-negative and add up to `n_total`; it agrees with the code whenever they fit. */
  lemma BucketCountsCheckedSum(body: Spec, env: Env)
    ensures BucketCountsChecked(body, env).Ok? ==>
      var c := BucketCountsChecked(body, env).value;
      1 <= c.total <= MaxTotal && c.canonical >= 0 && c.outOfManual >= 0 && c.factual >= 0
      && c.canonical + c.outOfManual + c.factual == c.total
    ensures BucketCountsChecked(body, env).Ok? ==> BucketCountsChecked(body, env) == BucketCounts(body, env)
    ensures BucketCounts(body, env).Ok? && BucketCounts(body, env).value.canonical + BucketCounts(body, env).value.outOfManual
              <= BucketCounts(body, env).value.total ==>
      BucketCountsChecked(body, env) == BucketCounts(body, env)
  {
  }

  /** With every count defaulted the buckets fit exactly when at least 4 questions are asked for. */
  lemma DefaultsFit(total: int, env: Env)
    requires 1 <= total <= MaxTotal
    ensures BucketCountsChecked(map["n_total" := JInt(total)], env).Ok? <==> total >= 4
  {
  }

  // ------------------------------------------------------- generation

  /** What generation reads from outside the studio. */
  datatype GenIO = GenIO(
    authorityDocs: string -> seq<string>,           // up to 50 document ids of an authority level
    evidenceRows: seq<string> -> seq<EvidenceRow>,   // the hierarchical paragraphs of those documents
    llm: (Counts, seq<EvidenceRow>) -> string,       // the model's reply to the prompt
    parse: YamlParser)

  datatype Generated = Generated(yaml: string, evidenceCount: nat)

  const ScopeRequired := "Suite spec must include document_ids (recommended) or document_authority_level"
  const ChatUrlRequired := "CHAT_RAG_DATABASE_URL (or CHAT_DATABASE_URL) must be set"
  const NoEvidence := "No hierarchical evidence found for selected documents (check publish/sync)"
  const NoYaml := "LLM did not return valid YAML with `questions:`"
  const DefaultMaxPerDoc: int := 35
  const DefaultMaxTotal: int := 160

  /** The checked request: counts, the documents to draw evidence from, and the two evidence caps. */
  datatype GenPlan = GenPlan(counts: Counts, docs: seq<string>, perDoc: int, maxTotal: int)

  /**
   * The checks of `auto_generate_questions` before the evidence query: the
   * suite id, the counts, the suite, its scope and the chat database. A
   * suite scoped only by authority draws its documents from that level.
   */
  function PlanOf(suiteId: Option<string>, body: Spec, suiteSpec: Option<Spec>, env: Env, io: GenIO)
    : (r: Reply<GenPlan>)
  {
    if suiteId.None? then Fail(400, InvalidSuite)
    else match BucketCountsChecked(body, env)
      case Fail(c, d) => Fail(c, d)
      case Ok(counts) =>
        if suiteSpec.None? then Fail(404, "suite not found")
        else
          var ids := DocumentIdsOf(suiteSpec.value, env);
          var authority := AuthorityOf(suiteSpec.value, env);
          if ids == [] && authority.None? then Fail(400, ScopeRequired)
          else if env.chatDbUrl == [] then Fail(400, ChatUrlRequired)
          else
            var docs := if ids == [] then NonEmpty(io.authorityDocs(authority.value)) else ids;
            match IntOf(Or(Get(body, "max_paragraphs_per_doc"), JInt(DefaultMaxPerDoc)), env)
            case Failed(e) => Fail(500, e)
            case Done(perDoc) =>
              match IntOf(Or(Get(body, "max_paragraphs_total"), JInt(DefaultMaxTotal)), env)
              case Failed(e) => Fail(500, e)
              case Done(maxTotal) => Ok(GenPlan(counts, docs, perDoc, maxTotal))
  }

  /**
   * `auto_generate_questions` up to the import: the evidence must not be
   * empty, and the reply must hold YAML with a `questions` list.
   */
  function Generate(suiteId: Option<string>, body: Spec, suiteSpec: Option<Spec>, env: Env, io: GenIO)
    : (r: Reply<Generated>)
    ensures r.Ok? ==> PlanOf(suiteId, body, suiteSpec, env, io).Ok? && r.value.evidenceCount > 0
                      && Contains(r.value.yaml, QuestionsKey)
    ensures PlanOf(suiteId, body, suiteSpec, env, io).Fail? ==> r.Fail? && r.code == PlanOf(suiteId, body, suiteSpec, env, io).code
  {
    match PlanOf(suiteId, body, suiteSpec, env, io)
    case Fail(c, d) => Fail(c, d)
    case Ok(p) =>
      var evidence := EvidenceCandidates(p.docs, io.evidenceRows(CleanDocIds(p.docs)), p.perDoc, p.maxTotal);
      if evidence == [] then Fail(400, NoEvidence)
      else
        var y := ExtractYamlBlock(io.llm(p.counts, evidence));
        if y == [] || !Contains(y, QuestionsKey) then Fail(500, NoYaml)
        else match io.parse(y)
          case YamlInvalid(e) => Fail(500, "LLM YAML parse failed: " + e)
          case YamlLoaded(qs) =>
            if qs.None? then Fail(500, "LLM YAML parse failed: ValueError: bad schema")
            else Ok(Generated(y, |evidence|))
  }

  /** `[r[0] for r in rows if r and r[0]]` */
  function NonEmpty(ids: seq<string>): (r: seq<string>)
    ensures forall i :: 0 <= i < |r| ==> r[i] != []
  {
    if ids == [] then []
    else NonEmpty(ids[..|ids| - 1]) + (if ids[|ids| - 1] != [] then [ids[|ids| - 1]] else [])
  }

  /**
   * A plan exists only for a valid id, a known suite with a scope, counts
   * that fit and a chat database; its documents are never blank.
   */
  lemma PlanSpec(suiteId: Option<string>, body: Spec, suiteSpec: Option<Spec>, env: Env, io: GenIO)
    ensures PlanOf(suiteId, body, suiteSpec, env, io).Ok? ==>
      suiteId.Some? && suiteSpec.Some? && BucketCountsChecked(body, env).Ok?
      && PlanOf(suiteId, body, suiteSpec, env, io).value.counts == BucketCountsChecked(body, env).value
      && (DocumentIdsOf(suiteSpec.value, env) != [] || AuthorityOf(suiteSpec.value, env).Some?)
      && env.chatDbUrl != []
      && forall i :: 0 <= i < |PlanOf(suiteId, body, suiteSpec, env, io).value.docs| ==>
        PlanOf(suiteId, body, suiteSpec, env, io).value.docs[i] != []
    ensures suiteId.Some? && BucketCountsChecked(body, env).Ok? && suiteSpec.None? ==>
      PlanOf(suiteId, body, suiteSpec, env, io) == Fail(404, "suite not found")
  {
  }

  // -------------------------------------------------------- the bank

  class QuestionBank {
    var rows: map<QKey, StoredQuestion>

    constructor()
      ensures rows == map[]
    {
      rows := map[];
    }

    /**
     * The upsert loop of `import_questions_yaml`: every kept entry is
     * written under (suite, id), counted as inserted when the key was new
     * and as updated otherwise.
     */
    method Upsert(sid: string, entries: seq<Entry>) returns (inserted: nat, updated: nat)
      modifies this
      ensures rows == Upserted(old(rows), sid, Accepted(entries))
      ensures inserted == CountNew(old(rows), sid, Accepted(entries))
      ensures inserted + updated == |Accepted(entries)|
    {
      inserted, updated := 0, 0;
      var i := 0;
      while i < |entries|
        invariant 0 <= i <= |entries|
        invariant rows == Upserted(old(rows), sid, Accepted(entries[..i]))
        invariant inserted == CountNew(old(rows), sid, Accepted(entries[..i]))
        invariant inserted + updated == |Accepted(entries[..i])|
      {
        AcceptedStep(entries, i);
        var e := Normalize(i + 1, entries[i]);
        if e.Some? {
          var key := QKey(sid, e.value.0);
          UpsertStep(old(rows), sid, Accepted(entries[..i]), e.value);
          if key in rows {
            updated := updated + 1;
          } else {
            inserted := inserted + 1;
          }
          rows := rows[key := e.value.1];
        } else {
          assert Accepted(entries[..i + 1]) == Accepted(entries[..i]);
        }
        i := i + 1;
      }
      assert entries[..i] == entries;
    }

    /**
     * `import_questions_yaml`: the request checks, then the upsert, then the
     * number of questions the suite now holds. A refused request changes
     * nothing.
     */
    method ImportYaml(suiteId: Option<string>, yamlField: Elem, parse: YamlParser) returns (reply: ImportReply)
      modifies this
      ensures ImportEntries(suiteId, yamlField, parse).Failed? ==>
        reply == ImportFailed(400, ImportEntries(suiteId, yamlField, parse).error) && rows == old(rows)
      ensures ImportEntries(suiteId, yamlField, parse).Done? ==>
        var sid := suiteId.value;
        var items := Accepted(ImportEntries(suiteId, yamlField, parse).value);
        rows == Upserted(old(rows), sid, items)
        && reply.Imported?
        && reply.inserted == CountNew(old(rows), sid, items)
        && reply.inserted + reply.updated == |items|
        && reply.total == |SuiteIds(rows, sid)| == |SuiteIds(old(rows), sid)| + reply.inserted
    {
      var entries := ImportEntries(suiteId, yamlField, parse);
      if entries.Failed? {
        return ImportFailed(400, entries.error);
      }
      var sid := suiteId.value;
      var inserted, updated := Upsert(sid, entries.value);
      CountNewIsGrowth(old(rows), sid, Accepted(entries.value));
      reply := Imported(inserted, updated, |SuiteIds(rows, sid)|);
    }

    /**
     * `auto_generate_questions`: generate, then import the YAML exactly as
     * the import endpoint would. The bank changes only through that import.
     */
    method AutoGenerate(suiteId: Option<string>, body: Spec, suiteSpec: Option<Spec>, env: Env, io: GenIO)
      returns (reply: Reply<(Generated, ImportReply)>)
      modifies this
      ensures Generate(suiteId, body, suiteSpec, env, io).Fail? ==>
        reply == Fail(Generate(suiteId, body, suiteSpec, env, io).code, Generate(suiteId, body, suiteSpec, env, io).detail)
        && rows == old(rows)
      ensures Generate(suiteId, body, suiteSpec, env, io).Ok? ==>
        var g := Generate(suiteId, body, suiteSpec, env, io).value;
        var entries := ImportEntries(suiteId, Elem(true, g.yaml), io.parse);
        (entries.Failed? ==> reply == Fail(400, entries.error) && rows == old(rows))
        && (entries.Done? ==>
              (reply.Ok? && reply.value.0 == g && rows == Upserted(old(rows), suiteId.value, Accepted(entries.value))))
    {
      var gen := Generate(suiteId, body, suiteSpec, env, io);
      if gen.Fail? {
        return Fail(gen.code, gen.detail);
      }
      var imported := ImportYaml(suiteId, Elem(true, gen.value.yaml), io.parse);
      if imported.ImportFailed? {
        return Fail(imported.code, imported.detail);
      }
      reply := Ok((gen.value, imported));
    }
  }
}
