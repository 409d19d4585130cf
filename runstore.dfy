// The evaluation studio's run store: suites with their stored spec and
// questions, runs that go queued -> running -> completed | failed, and the
// metric and retrieval rows each run replaces. The database tables are
// fields of one object; every operation says which of them it changes.

module RunStore {
  import opened Text
  import opened Gold
  import opened Corpus
  import opened Ranking
  import opened Hier
  import opened RunSummary

  // ------------------------------------------------------- suite specs

  /** A JSON value of a suite spec; a dict is only told apart by being empty or not. */
  datatype Json = JNull | JBool(b: bool) | JInt(i: int) | JReal(r: real) | JStr(s: string)
                | JList(items: seq<Json>) | JDict(nonEmpty: bool)

  type Spec = map<string, Json>

  /** `spec.get(key)`: a missing key reads as null. */
  function Get(spec: Spec, key: string): Json { if key in spec then spec[key] else JNull }

  predicate Truthy(v: Json)
  {
    match v
    case JNull => false
    case JBool(b) => b
    case JInt(i) => i != 0
    case JReal(r) => r != 0.0
    case JStr(s) => s != []
    case JList(xs) => xs != []
    case JDict(n) => n
  }

  /** `v or d` */
  function Or(v: Json, d: Json): (r: Json)
    ensures Truthy(v) ==> r == v
    ensures !Truthy(v) ==> r == d
  {
    if Truthy(v) then v else d
  }

  /**
   * What the evaluation reads from outside: the chat database URL and what
   * it returns for the suite's scope, whether the Vertex settings are
   * present, the BM25 scorer, the sigmoid, the regex engine, the paragraph
   * metadata and neighbour search of the vector index, and Python's
   * `int`/`float` on strings and `str` on floats, lists and dicts.
   */
  datatype Env = Env(
    chatDbUrl: string,
    vertexReady: bool,
    paras: seq<Paragraph>,
    score: Scorer,
    sigmoid: Sigmoid,
    search: RegexSearch,
    meta: map<string, MetaRow>,
    neighbors: Question -> seq<Neighbor>,
    parseInt: string -> Option<int>,
    parseReal: string -> Option<real>,
    render: Json -> string)

  /** `str(v)` */
  function StrOf(v: Json, env: Env): string
  {
    match v
    case JStr(s) => s
    case JNull => "None"
    case JBool(b) => if b then "True" else "False"
    case JInt(i) => IntToString(i)
    case _ => env.render(v)
  }

  /** Python's `int(r)` on a float truncates toward zero. */
  function TruncReal(r: real): (n: int)
    ensures r >= 0.0 ==> n as real <= r < n as real + 1.0
    ensures r < 0.0 ==> n as real - 1.0 < r <= n as real
  {
    if r >= 0.0 then r.Floor else -((-r).Floor)
  }

  /** `int(v)`; the error names the Python exception. */
  function IntOf(v: Json, env: Env): Outcome<int>
  {
    match v
    case JInt(i) => Done(i)
    case JBool(b) => Done(if b then 1 else 0)
    case JReal(r) => Done(TruncReal(r))
    case JStr(s) =>
      var p := env.parseInt(s);
      if p.Some? then Done(p.value) else Failed("ValueError: invalid literal for int() with base 10: '" + s + "'")
    case _ => Failed("TypeError: int() argument must be a string, a bytes-like object or a real number")
  }

  /** `float(v)` */
  function RealOf(v: Json, env: Env): Outcome<real>
  {
    match v
    case JInt(i) => Done(i as real)
    case JBool(b) => Done(if b then 1.0 else 0.0)
    case JReal(r) => Done(r)
    case JStr(s) =>
      var p := env.parseReal(s);
      if p.Some? then Done(p.value) else Failed("ValueError: could not convert string to float: '" + s + "'")
    case _ => Failed("TypeError: float() argument must be a string or a real number")
  }

  /** `[d for d in (str(x).strip() for x in raw) if d]` */
  function CleanIds(raw: seq<Json>, env: Env): (ids: seq<string>)
    ensures |ids| <= |raw|
    ensures forall i :: 0 <= i < |ids| ==> ids[i] != []
    decreases |raw|
  {
    if raw == [] then []
    else
      var n := |raw|;
      var d := Trim(StrOf(raw[n - 1], env));
      CleanIds(raw[..n - 1], env) + (if d == [] then [] else [d])
  }

  const DefaultTopK: int := 10
  const DefaultBm25Threshold: real := 0.65
  const DefaultHierThreshold: real := 0.88

  datatype Settings = Settings(authority: Option<string>, documentIds: seq<string>, topK: int, bm25Threshold: real,
                               hierThreshold: real, limit: Option<int>)

  const ScopeMissing := "RuntimeError: suite_spec requires either document_authority_level or document_ids"

  function AuthorityOf(spec: Spec, env: Env): Option<string>
  {
    var a := Trim(StrOf(Or(Get(spec, "document_authority_level"), JStr("")), env));
    if a == [] then None else Some(a)
  }

  function DocumentIdsOf(spec: Spec, env: Env): seq<string>
  {
    var raw := Or(Or(Get(spec, "document_ids"), Get(spec, "document_id_list")), JList([]));
    if raw.JList? then CleanIds(raw.items, env) else []
  }

  /**
   * The settings `_run_eval_background` reads, in its order: the scope,
   * `top_k`, both thresholds (each falling back to its default when
   * missing or falsy) and `limit_questions` (only when not null).
   */
  function ParseSettings(spec: Spec, env: Env): (r: Outcome<Settings>)
    ensures r.Done? ==> r.value.authority == AuthorityOf(spec, env) && r.value.documentIds == DocumentIdsOf(spec, env)
  {
    var authority := AuthorityOf(spec, env);
    var ids := DocumentIdsOf(spec, env);
    if authority.None? && ids == [] then Failed(ScopeMissing)
    else
      var topK := IntOf(Or(Get(spec, "top_k"), JInt(DefaultTopK)), env);
      if topK.Failed? then Failed(topK.error)
      else
        var bm := RealOf(Or(Get(spec, "bm25_answer_threshold"), JReal(DefaultBm25Threshold)), env);
        if bm.Failed? then Failed(bm.error)
        else
          var hi := RealOf(Or(Get(spec, "hier_answer_threshold"), JReal(DefaultHierThreshold)), env);
          if hi.Failed? then Failed(hi.error)
          else
            var lim := Get(spec, "limit_questions");
            if lim.JNull? then Done(Settings(authority, ids, topK.value, bm.value, hi.value, None))
            else
              var l := IntOf(lim, env);
              if l.Failed? then Failed(l.error)
              else Done(Settings(authority, ids, topK.value, bm.value, hi.value, Some(l.value)))
  }

  /**
   * Missing or falsy settings take the defaults 10 / 0.65 / 0.88, so an
   * explicit 0 also becomes the default.
   */
  lemma SettingsDefaults(spec: Spec, env: Env)
    ensures ParseSettings(spec, env).Done? && !Truthy(Get(spec, "top_k")) ==>
      ParseSettings(spec, env).value.topK == DefaultTopK
    ensures ParseSettings(spec, env).Done? && !Truthy(Get(spec, "bm25_answer_threshold")) ==>
      ParseSettings(spec, env).value.bm25Threshold == DefaultBm25Threshold
    ensures ParseSettings(spec, env).Done? && !Truthy(Get(spec, "hier_answer_threshold")) ==>
      ParseSettings(spec, env).value.hierThreshold == DefaultHierThreshold
  {
    var r := ParseSettings(spec, env);
    if r.Done? {
      SettingsFields(spec, env);
      if !Truthy(Get(spec, "top_k")) {
        assert Or(Get(spec, "top_k"), JInt(DefaultTopK)) == JInt(DefaultTopK);
      }
      if !Truthy(Get(spec, "bm25_answer_threshold")) {
        assert Or(Get(spec, "bm25_answer_threshold"), JReal(DefaultBm25Threshold)) == JReal(DefaultBm25Threshold);
      }
      if !Truthy(Get(spec, "hier_answer_threshold")) {
        assert Or(Get(spec, "hier_answer_threshold"), JReal(DefaultHierThreshold)) == JReal(DefaultHierThreshold);
      }
    }
  }

  /** Parsed settings hold the converted values of their fields, defaults in place of falsy ones. */
  lemma SettingsFields(spec: Spec, env: Env)
    requires ParseSettings(spec, env).Done?
    ensures ParseSettings(spec, env).value.topK == IntOf(Or(Get(spec, "top_k"), JInt(DefaultTopK)), env).value
    ensures ParseSettings(spec, env).value.bm25Threshold ==
      RealOf(Or(Get(spec, "bm25_answer_threshold"), JReal(DefaultBm25Threshold)), env).value
    ensures ParseSettings(spec, env).value.hierThreshold ==
      RealOf(Or(Get(spec, "hier_answer_threshold"), JReal(DefaultHierThreshold)), env).value
  {
    var topK := IntOf(Or(Get(spec, "top_k"), JInt(DefaultTopK)), env);
    var bm := RealOf(Or(Get(spec, "bm25_answer_threshold"), JReal(DefaultBm25Threshold)), env);
    var hi := RealOf(Or(Get(spec, "hier_answer_threshold"), JReal(DefaultHierThreshold)), env);
    assert topK.Done? && bm.Done? && hi.Done?;
  }

  /** Settings that parse always name a scope; a spec without one fails with the scope error. */
  lemma SettingsNeedScope(spec: Spec, env: Env)
    ensures ParseSettings(spec, env).Done? ==>
      ParseSettings(spec, env).value.authority.Some? || ParseSettings(spec, env).value.documentIds != []
    ensures AuthorityOf(spec, env).None? && DocumentIdsOf(spec, env) == [] ==> ParseSettings(spec, env) == Failed(ScopeMissing)
  {
  }

  /** `qs[:max(0, int(limit))]` when a limit is set. */
  function Limited(stored: seq<Question>, limit: Option<int>): (qs: seq<Question>)
    ensures limit.None? ==> qs == stored
    ensures limit.Some? ==> |qs| == (if limit.value <= 0 then 0 else if limit.value < |stored| then limit.value else |stored|)
    ensures qs == stored[..|qs|]
  {
    if limit.None? then stored
    else if limit.value <= 0 then []
    else if limit.value < |stored| then stored[..limit.value]
    else stored
  }

  // ------------------------------------------------------ evaluation

  function ProbeOf(env: Env): Question -> Probe { (q: Question) => Probe(q, env.neighbors(q)) }

  datatype Suite = Suite(name: Option<string>, spec: Spec)

  datatype Evaluated = Evaluated(questions: seq<Question>, bm25: StudioBm25Out, hier: HierOut)

  /**
   * The specification of the work `_run_eval_background` does after
   * marking the run as running: read the settings, load the suite's
   * questions, run both evaluations. Every exception becomes the run's
   * error text `"<ExceptionType>: <message>"`.
   */
  function Evaluate(suite: Option<Suite>, stored: seq<Question>, spec: Spec, env: Env): Outcome<Evaluated>
  {
    var st := ParseSettings(spec, env);
    if st.Failed? then Failed(st.error)
    else if suite.None? then Failed("RuntimeError: suite not found")
    else
      var s := st.value;
      var qs := Limited(stored, s.limit);
      if qs == [] then Failed("RuntimeError: suite has no questions")
      else
        var bm := StudioBm25Eval(Scope(env.chatDbUrl, s.authority, s.documentIds), env.paras, qs, env.score,
                                 env.sigmoid, s.topK, s.bm25Threshold, env.search);
        if bm.Failed? then Failed("RuntimeError: " + bm.error)
        else
          var hi := HierEval(env.chatDbUrl, env.vertexReady, MapSeq(qs, ProbeOf(env)), env.meta,
                             if s.documentIds == [] then None else Some(s.documentIds), s.topK, s.hierThreshold);
          if hi.Failed? then Failed("RuntimeError: " + hi.error)
          else Done(Evaluated(qs, bm.value, hi.value))
  }

  /** A run without a scope, or with no questions left after the limit, fails before any evaluation. */
  lemma EvaluateFailsEarly(suite: Option<Suite>, stored: seq<Question>, spec: Spec, env: Env)
    ensures AuthorityOf(spec, env).None? && DocumentIdsOf(spec, env) == [] ==> Evaluate(suite, stored, spec, env) == Failed(ScopeMissing)
    ensures var st := ParseSettings(spec, env);
      st.Done? && suite.Some? && Limited(stored, st.value.limit) == [] ==>
        Evaluate(suite, stored, spec, env) == Failed("RuntimeError: suite has no questions")
    ensures stored == [] && ParseSettings(spec, env).Done? && suite.Some? ==>
      Evaluate(suite, stored, spec, env) == Failed("RuntimeError: suite has no questions")
  {
  }

  // ------------------------------------------------------------- runs

  const Queued := "queued"
  const Running := "running"
  const Completed := "completed"
  const FailedStatus := "failed"

  /** What a completed run stores as its summary. */
  datatype Report = Report(summary: Summary, suiteId: string, suiteName: Option<string>, suiteSpec: Spec)

  datatype Run = Run(
    suiteId: string,
    status: string,
    spec: Spec,
    summary: Option<Report>,
    error: Option<string>,
    startedAt: Option<int>,
    completedAt: Option<int>,
    updatedAt: int)

  /** `_set_run_status` on one run: the first start time is kept, summary and error only when given. */
  function WithStatus(r: Run, status: string, summary: Option<Report>, error: Option<string>, now: int): Run
  {
    r.(status := status,
       updatedAt := now,
       startedAt := if status == Running && r.startedAt.None? then Some(now) else r.startedAt,
       completedAt := if status == Completed || status == FailedStatus then Some(now) else r.completedAt,
       summary := if summary.Some? then summary else r.summary,
       error := if error.Some? then error else r.error)
  }

  /** Marking a run as running twice keeps the first start time; finishing always stamps the end. */
  lemma WithStatusSpec(r: Run, t1: int, t2: int, s: string, summary: Option<Report>, error: Option<string>)
    ensures var r1 := WithStatus(r, Running, None, None, t1);
      r1.startedAt.Some? && WithStatus(r1, Running, None, None, t2).startedAt == r1.startedAt
      && r1.summary == r.summary && r1.error == r.error
    ensures s == Completed || s == FailedStatus ==> WithStatus(r, s, summary, error, t2).completedAt == Some(t2)
    ensures WithStatus(r, s, summary, error, t2).status == s
  {
  }

  /** What a finished evaluation leaves in the run: its report, or the error text. */
  function ReportOf(rid: string, sid: string, suite: Option<Suite>, spec: Spec, ev: Outcome<Evaluated>)
    : (r: Outcome<Report>)
    ensures r.Done? <==> ev.Done?
    ensures ev.Failed? ==> r.error == ev.error
  {
    if ev.Failed? then Failed(ev.error)
    else
      var e := ev.value;
      Done(Report(SummaryOf(rid, e.questions, e.bm25.perQuestion, e.hier.perQuestion), sid,
                  if suite.Some? then suite.value.name else None, spec))
  }

  /** Where a run ends: running first, then completed with its report or failed with the error text. */
  function Finished(r: Run, out: Outcome<Report>, now: int): Run
  {
    var r1 := WithStatus(r, Running, None, None, now);
    if out.Failed? then WithStatus(r1, FailedStatus, None, Some(out.error), now)
    else WithStatus(r1, Completed, Some(out.value), None, now)
  }

  /**
   * A queued run always ends completed or failed: completed exactly when
   * the evaluation succeeded, then with its report; failed otherwise, then
   * with the error; either way with start and end times.
   */
  lemma FinishedSpec(r: Run, out: Outcome<Report>, now: int)
    requires r.status == Queued && r.error.None?
    ensures var f := Finished(r, out, now);
      (f.status == Completed <==> out.Done?) && (f.status == FailedStatus <==> out.Failed?)
      && (f.status == Completed ==> f.summary == Some(out.value) && f.error.None?)
      && (f.status == FailedStatus ==> f.error == Some(out.error) && f.summary == r.summary)
      && f.startedAt.Some? && f.completedAt == Some(now) && f.suiteId == r.suiteId && f.spec == r.spec
  {
  }

  function SuiteOf(suites: map<string, Suite>, sid: string): Option<Suite>
  {
    if sid in suites then Some(suites[sid]) else None
  }

  function StoredOf(qs: map<string, seq<Question>>, sid: string): seq<Question>
  {
    if sid in qs then qs[sid] else []
  }

  // --------------------------------------------- rows scoped by run id

  function MetricRun(): MetricRow -> string { (m: MetricRow) => m.runId }
  function StoredRun(): StoredRow -> string { (m: StoredRow) => m.runId }

  /** The rows whose run id is (`keep`) or is not (`!keep`) `rid`, in order. */
  function RowsWhere<T>(rows: seq<T>, runOf: T -> string, rid: string, keep: bool): (r: seq<T>)
    ensures |r| <= |rows|
    decreases |rows|
  {
    if rows == [] then []
    else
      var n := |rows|;
      RowsWhere(rows[..n - 1], runOf, rid, keep) + (if (runOf(rows[n - 1]) == rid) == keep then [rows[n - 1]] else [])
  }

  lemma {:induction false} RowsWhereAppend<T>(a: seq<T>, b: seq<T>, runOf: T -> string, rid: string, keep: bool)
    ensures RowsWhere(a + b, runOf, rid, keep) == RowsWhere(a, runOf, rid, keep) + RowsWhere(b, runOf, rid, keep)
    decreases |b|
  {
    if b == [] {
      assert a + b == a;
    } else {
      var n := |b|;
      assert (a + b)[..|a + b| - 1] == a + b[..n - 1];
      assert (a + b)[|a + b| - 1] == b[n - 1];
      RowsWhereAppend(a, b[..n - 1], runOf, rid, keep);
    }
  }

  lemma {:induction false} RowsWhereAll<T>(rows: seq<T>, runOf: T -> string, rid: string, keep: bool)
    requires forall i :: 0 <= i < |rows| ==> (runOf(rows[i]) == rid) == keep
    ensures RowsWhere(rows, runOf, rid, keep) == rows
    decreases |rows|
  {
    if rows != [] {
      var n := |rows|;
      assert forall i :: 0 <= i < n - 1 ==> rows[..n - 1][i] == rows[i];
      RowsWhereAll(rows[..n - 1], runOf, rid, keep);
      assert rows[..n - 1] + [rows[n - 1]] == rows;
    }
  }

  lemma {:induction false} RowsWhereNone<T>(rows: seq<T>, runOf: T -> string, rid: string, keep: bool)
    requires forall i :: 0 <= i < |rows| ==> (runOf(rows[i]) == rid) != keep
    ensures RowsWhere(rows, runOf, rid, keep) == []
    decreases |rows|
  {
    if rows != [] {
      var n := |rows|;
      assert forall i :: 0 <= i < n - 1 ==> rows[..n - 1][i] == rows[i];
      RowsWhereNone(rows[..n - 1], runOf, rid, keep);
      assert (runOf(rows[n - 1]) == rid) != keep;
    }
  }

  /** The rows of the other runs are exactly the rows without this run id. */
  lemma {:induction false} RowsWhereOther<T>(rows: seq<T>, runOf: T -> string, rid: string, other: string)
    requires other != rid
    ensures RowsWhere(RowsWhere(rows, runOf, rid, false), runOf, other, true) == RowsWhere(rows, runOf, other, true)
    decreases |rows|
  {
    if rows != [] {
      var n := |rows|;
      RowsWhereOther(rows[..n - 1], runOf, rid, other);
      var last := rows[n - 1];
      var kept := if runOf(last) != rid then [last] else [];
      RowsWhereAppend(RowsWhere(rows[..n - 1], runOf, rid, false), kept, runOf, other, true);
      if runOf(last) != rid {
        assert RowsWhere(kept, runOf, other, true) == RowsWhere([last], runOf, other, true);
        assert [last][..0] == [];
      } else {
        assert RowsWhere(kept, runOf, other, true) == [];
      }
    }
  }

  /**
   * Replacing a run's rows: afterwards that run has exactly the new rows,
   * and every other run has exactly the rows it had before.
   */
  lemma Replacement<T>(old_rows: seq<T>, new_rows: seq<T>, runOf: T -> string, rid: string, other: string)
    requires forall i :: 0 <= i < |new_rows| ==> runOf(new_rows[i]) == rid
    ensures RowsWhere(RowsWhere(old_rows, runOf, rid, false) + new_rows, runOf, rid, true) == new_rows
    ensures other != rid ==>
      RowsWhere(RowsWhere(old_rows, runOf, rid, false) + new_rows, runOf, other, true) == RowsWhere(old_rows, runOf, other, true)
  {
    var kept := RowsWhere(old_rows, runOf, rid, false);
    RowsWhereAppend(kept, new_rows, runOf, rid, true);
    RowsWhereAll(new_rows, runOf, rid, true);
    KeptHasNoRid(old_rows, runOf, rid);
    RowsWhereNone(kept, runOf, rid, true);
    if other != rid {
      RowsWhereAppend(kept, new_rows, runOf, other, true);
      RowsWhereNone(new_rows, runOf, other, true);
      RowsWhereOther(old_rows, runOf, rid, other);
    }
  }

  lemma {:induction false} KeptHasNoRid<T>(rows: seq<T>, runOf: T -> string, rid: string)
    ensures forall i :: 0 <= i < |RowsWhere(rows, runOf, rid, false)| ==> runOf(RowsWhere(rows, runOf, rid, false)[i]) != rid
    decreases |rows|
  {
    if rows != [] {
      var n := |rows|;
      KeptHasNoRid(rows[..n - 1], runOf, rid);
      var k0 := RowsWhere(rows[..n - 1], runOf, rid, false);
      var tail := if runOf(rows[n - 1]) != rid then [rows[n - 1]] else [];
      assert RowsWhere(rows, runOf, rid, false) == k0 + tail;
      forall i | 0 <= i < |k0 + tail|
        ensures runOf((k0 + tail)[i]) != rid
      {
        if i >= |k0| {
          assert (k0 + tail)[i] == tail[i - |k0|];
        }
      }
    }
  }

  /** The insert loop of `_insert_run_outputs`: one metric row per question id, in table order. */
  method BuildMetricRows(rid: string, sid: string, table: seq<Question>, bmPerQ: seq<Bm25Verdict>,
                         hiPerQ: seq<HierVerdict>) returns (rows: seq<MetricRow>)
    ensures rows == MetricRows(rid, sid, table, bmPerQ, hiPerQ)
  {
    rows := [];
    var i := 0;
    while i < |table|
      invariant 0 <= i <= |table| && |rows| == i
      invariant forall j :: 0 <= j < i ==> rows[j] == MetricRowOf(rid, sid, table[j], bmPerQ, hiPerQ)
    {
      rows := rows + [MetricRowOf(rid, sid, table[i], bmPerQ, hiPerQ)];
      i := i + 1;
    }
  }

  // ------------------------------------------------------------ store

  lemma OverwriteTwice<K, V>(m: map<K, V>, k: K, a: V, b: V)
    ensures m[k := a][k := b] == m[k := b]
  {
  }

  class Store {
    var runs: map<string, Run>
    var suites: map<string, Suite>
    var suiteQuestions: map<string, seq<Question>>
    var metricRows: seq<MetricRow>
    var storedRows: seq<StoredRow>

    constructor()
      ensures runs == map[] && suites == map[] && suiteQuestions == map[]
      ensures metricRows == [] && storedRows == []
    {
      runs := map[];
      suites := map[];
      suiteQuestions := map[];
      metricRows := [];
      storedRows := [];
    }

    /** `_set_run_status`: an update of an unknown run changes nothing. */
    method SetRunStatus(rid: string, status: string, summary: Option<Report>, error: Option<string>, now: int)
      modifies this
      ensures rid in old(runs) ==> runs == old(runs)[rid := WithStatus(old(runs)[rid], status, summary, error, now)]
      ensures rid !in old(runs) ==> runs == old(runs)
      ensures suites == old(suites) && suiteQuestions == old(suiteQuestions)
      ensures metricRows == old(metricRows) && storedRows == old(storedRows)
    {
      if rid in runs {
        runs := runs[rid := WithStatus(runs[rid], status, summary, error, now)];
      }
    }

    /**
     * `_insert_run_outputs`: delete the run's metric and retrieval rows,
     * insert one metric row per question id and every retrieval row, and
     * return the summary.
     */
    method InsertRunOutputs(rid: string, sid: string, questions: seq<Question>, bmPerQ: seq<Bm25Verdict>,
                            bmRows: seq<Bm25Row>, hiPerQ: seq<HierVerdict>, hiRows: seq<HierRow>)
      returns (s: Summary)
      modifies this
      ensures metricRows == RowsWhere(old(metricRows), MetricRun(), rid, false)
                            + MetricRows(rid, sid, QTable(questions), bmPerQ, hiPerQ)
      ensures storedRows == RowsWhere(old(storedRows), StoredRun(), rid, false) + StoredRows(rid, sid, bmRows, hiRows)
      ensures s == SummaryOf(rid, questions, bmPerQ, hiPerQ)
      ensures runs == old(runs) && suites == old(suites) && suiteQuestions == old(suiteQuestions)
    {
      var table := QTable(questions);
      var added := BuildMetricRows(rid, sid, table, bmPerQ, hiPerQ);
      storedRows := RowsWhere(storedRows, StoredRun(), rid, false) + StoredRows(rid, sid, bmRows, hiRows);
      metricRows := RowsWhere(metricRows, MetricRun(), rid, false) + added;
      s := Summarize(rid, questions, bmPerQ, hiPerQ);
    }

    /**
     * `_run_eval_background`: mark the run as running, evaluate, then store
     * the rows and complete the run with its report, or fail it with the
     * error text and leave every row as it was. The evaluation outcome is
     * returned so that the new state can be stated in its terms.
     */
    method RunEvalBackground(rid: string, sid: string, spec: Spec, env: Env, now: int) returns (ev: Outcome<Evaluated>)
      modifies this
      ensures ev == Evaluate(SuiteOf(old(suites), sid), StoredOf(old(suiteQuestions), sid), spec, env)
      ensures ev.Failed? ==> metricRows == old(metricRows) && storedRows == old(storedRows)
      ensures ev.Done? ==>
        storedRows == RowsWhere(old(storedRows), StoredRun(), rid, false)
                      + StoredRows(rid, sid, ev.value.bm25.rows, ev.value.hier.rows)
        && metricRows == RowsWhere(old(metricRows), MetricRun(), rid, false)
                         + MetricRows(rid, sid, QTable(ev.value.questions), ev.value.bm25.perQuestion,
                                      ev.value.hier.perQuestion)
      ensures rid in old(runs) ==>
        runs == old(runs)[rid := Finished(old(runs)[rid], ReportOf(rid, sid, SuiteOf(old(suites), sid), spec, ev), now)]
      ensures rid !in old(runs) ==> runs == old(runs)
      ensures suites == old(suites) && suiteQuestions == old(suiteQuestions)
    {
      var suite := SuiteOf(suites, sid);
      ev := Evaluate(suite, StoredOf(suiteQuestions, sid), spec, env);
      ghost var out := ReportOf(rid, sid, suite, spec, ev);
      SetRunStatus(rid, Running, None, None, now);
      if ev.Failed? {
        ghost var mid := runs;
        SetRunStatus(rid, FailedStatus, None, Some(ev.error), now);
        if rid in old(runs) {
          OverwriteTwice(old(runs), rid, mid[rid], runs[rid]);
        }
        return;
      }
      var e := ev.value;
      var s := InsertRunOutputs(rid, sid, e.questions, e.bm25.perQuestion, e.bm25.rows, e.hier.perQuestion, e.hier.rows);
      var report := Report(s, sid, if suite.Some? then suite.value.name else None, spec);
      assert out == Done(report);
      ghost var mid := runs;
      SetRunStatus(rid, Completed, Some(report), None, now);
      if rid in old(runs) {
        OverwriteTwice(old(runs), rid, mid[rid], runs[rid]);
      }
    }

    /**
     * `start_run`: 400 for a suite id that is not a UUID, 404 for an unknown
     * suite; otherwise the spec override is merged over the stored spec, a
     * queued run is inserted and the suite keeps the merged spec. A run id
     * that is already taken is refused by the table (500).
     */
    method StartRun(sid: Option<string>, override: Option<Spec>, rid: string, now: int) returns (code: int)
      modifies this
      ensures sid.None? ==> code == 400
      ensures sid.Some? && sid.value !in old(suites) ==> code == 404
      ensures sid.Some? && sid.value in old(suites) && rid in old(runs) ==> code == 500
      ensures code != 200 ==> runs == old(runs) && suites == old(suites)
      ensures code == 200 <==> sid.Some? && sid.value in old(suites) && rid !in old(runs)
      ensures code == 200 ==>
        var merged := old(suites)[sid.value].spec + (if override.Some? then override.value else map[]);
        runs == old(runs)[rid := Run(sid.value, Queued, merged, None, None, None, None, now)]
        && suites == old(suites)[sid.value := old(suites)[sid.value].(spec := merged)]
      ensures suiteQuestions == old(suiteQuestions) && metricRows == old(metricRows) && storedRows == old(storedRows)
    {
      if sid.None? {
        return 400;
      }
      if sid.value !in suites {
        return 404;
      }
      if rid in runs {
        return 500;
      }
      var merged := suites[sid.value].spec + (if override.Some? then override.value else map[]);
      runs := runs[rid := Run(sid.value, Queued, merged, None, None, None, None, now)];
      suites := suites[sid.value := suites[sid.value].(spec := merged)];
      return 200;
    }
  }

  /** An override key wins over the stored spec; other stored keys are kept. */
  lemma MergeOverride(spec: Spec, override: Spec, key: string)
    ensures key in override ==> Get(spec + override, key) == override[key]
    ensures key !in override ==> Get(spec + override, key) == Get(spec, key)
  {
  }
}
