// The command-line vector retrieval evaluation of
// mobius-qa/retrieval-eval/retrieval_eval.py: loading the question set and
// the configuration, the search filters of each mode, and the result rows
// of a run. The embedding service, the neighbour search and the metadata
// lookup are external and enter as functions.

module RetrievalEval {
  import opened Text
  import opened Gold
  import opened Ranking
  import Hier
  import QuestionImport

  // ---------------------------------------------------------- questions

  /** An element of the `questions` list: not a mapping, or its id, question, intent and bucket values. */
  datatype RawQuestion = RawNotMapping | RawMapping(id: Elem, question: Elem, intent: Elem, bucket: Elem)

  /** The questions file: not a mapping, a falsy or non-list `questions`, or the list. */
  datatype QuestionsFile = QFileNotMapping | QFileFalsy | QFileNotList | QFileList(entries: seq<RawQuestion>)

  datatype EvalQuestion = EvalQuestion(id: string, intent: string, bucket: string, question: string)

  datatype Loaded<T> = LoadFailed(error: string) | LoadOk(value: T)

  const NotAList := "questions.yaml must contain top-level key 'questions' as a list"
  const UnknownIntent := "unknown"

  /** The question an entry at 0-based position `i` becomes, or `None` when it is skipped. */
  function QuestionOf(i: nat, e: RawQuestion): Option<EvalQuestion>
  {
    match e
    case RawNotMapping => None
    case RawMapping(id, question, intent, bucket) =>
      var q := Trim(QuestionImport.OrText(question, ""));
      if q == [] then None
      else Some(EvalQuestion(Trim(QuestionImport.OrText(id, QuestionImport.DefaultQid(i + 1))),
                             Lower(Trim(QuestionImport.OrText(intent, UnknownIntent))),
                             Lower(Trim(QuestionImport.OrText(bucket, ""))), q))
  }

  /** The kept questions of the first `n` entries, in order. */
  function KeptQuestions(entries: seq<RawQuestion>): (r: seq<EvalQuestion>)
    ensures |r| <= |entries|
  {
    if entries == [] then []
    else
      var n := |entries|;
      var q := QuestionOf(n - 1, entries[n - 1]);
      KeptQuestions(entries[..n - 1]) + (if q.Some? then [q.value] else [])
  }

  /** `load_questions` */
  function LoadQuestionsOf(f: QuestionsFile): Loaded<seq<EvalQuestion>>
  {
    match f
    case QFileNotMapping => LoadFailed(AttributeError)
    case QFileFalsy => LoadOk([])
    case QFileNotList => LoadFailed(NotAList)
    case QFileList(es) => LoadOk(KeptQuestions(es))
  }

  const AttributeError := "AttributeError"

  /** An entry is kept exactly when it is a mapping with a non-blank question, which comes back stripped. */
  lemma QuestionKept(i: nat, e: RawQuestion)
    ensures QuestionOf(i, e).Some? <==> e.RawMapping? && !IsBlank(QuestionImport.OrText(e.question, ""))
    ensures QuestionOf(i, e).Some? ==>
      QuestionOf(i, e).value.question == Trim(e.question.text) && QuestionOf(i, e).value.question != []
  {
  }

  /** Both labels of a kept question are lower-case. */
  lemma QuestionLabelsLower(i: nat, e: RawQuestion)
    requires QuestionOf(i, e).Some?
    ensures NoUpper(QuestionOf(i, e).value.intent) && NoUpper(QuestionOf(i, e).value.bucket)
  {
    LowerNoUpper(Trim(QuestionImport.OrText(e.intent, UnknownIntent)));
    LowerNoUpper(Trim(QuestionImport.OrText(e.bucket, "")));
  }

  lemma UnknownFixed()
    ensures Lower(Trim(UnknownIntent)) == UnknownIntent
  {
    TrimLeftFixed(UnknownIntent);
    TrimRightFixed(UnknownIntent);
    LowerFixed(UnknownIntent);
  }

  /**
   * The intent defaults to "unknown", and an entry without an id is named
   * after its position in the whole list, skipped entries included.
   */
  lemma QuestionDefaults(i: nat, e: RawQuestion)
    requires QuestionOf(i, e).Some?
    ensures !e.intent.truthy ==> QuestionOf(i, e).value.intent == UnknownIntent
    ensures !e.id.truthy ==> QuestionOf(i, e).value.id == QuestionImport.DefaultQid(i + 1)
  {
    if !e.id.truthy {
      QuestionImport.NormalizeSpec(i + 1, QuestionImport.Mapping(e.id, e.question, e.intent, e.bucket, None));
    }
    if !e.intent.truthy {
      UnknownFixed();
    }
  }

  /** Exactly the kept entries survive, in list order. */
  lemma KeptQuestionsSpec(entries: seq<RawQuestion>)
    ensures |KeptQuestions(entries)| == CountIf(Indexed(entries), KeptPred())
    ensures forall k :: 0 <= k < |KeptQuestions(entries)| ==>
      exists i :: 0 <= i < |entries| && QuestionOf(i, entries[i]) == Some(KeptQuestions(entries)[k])
  {
    KeptQuestionsCount(entries);
    KeptQuestionsFrom(entries);
    forall k | 0 <= k < |KeptQuestions(entries)|
      ensures exists i :: 0 <= i < |entries| && QuestionOf(i, entries[i]) == Some(KeptQuestions(entries)[k])
    {
      assert KeptFrom(entries, KeptQuestions(entries)[k]);
    }
  }

  /** One more entry counts one more kept question exactly when it is kept. */
  lemma KeptCountStep(entries: seq<RawQuestion>)
    requires entries != []
    ensures CountIf(Indexed(entries), KeptPred())
      == CountIf(Indexed(entries[..|entries| - 1]), KeptPred()) + (if QuestionOf(|entries| - 1, entries[|entries| - 1]).Some? then 1 else 0)
  {
    var n := |entries|;
    assert Indexed(entries)[..n - 1] == Indexed(entries[..n - 1]);
    assert Indexed(entries)[n - 1] == (n - 1, entries[n - 1]);
  }

  lemma {:induction false} KeptQuestionsCount(entries: seq<RawQuestion>)
    ensures |KeptQuestions(entries)| == CountIf(Indexed(entries), KeptPred())
    decreases |entries|
  {
    if entries != [] {
      KeptQuestionsCount(entries[..|entries| - 1]);
      KeptCountStep(entries);
    }
  }

  /** `x` is what some entry of the list became. */
  ghost predicate KeptFrom(entries: seq<RawQuestion>, x: EvalQuestion)
  {
    exists i :: 0 <= i < |entries| && QuestionOf(i, entries[i]) == Some(x)
  }

  lemma {:induction false} KeptQuestionsFrom(entries: seq<RawQuestion>)
    ensures forall k :: 0 <= k < |KeptQuestions(entries)| ==> KeptFrom(entries, KeptQuestions(entries)[k])
    decreases |entries|
  {
    if entries != [] {
      var n := |entries|;
      var init := entries[..n - 1];
      KeptQuestionsFrom(init);
      var r := KeptQuestions(entries);
      var ri := KeptQuestions(init);
      var q := QuestionOf(n - 1, entries[n - 1]);
      assert r == ri + (if q.Some? then [q.value] else []);
      forall k | 0 <= k < |r| ensures KeptFrom(entries, r[k]) {
        if k < |ri| {
          assert KeptFrom(init, ri[k]);
          var i :| 0 <= i < |init| && QuestionOf(i, init[i]) == Some(ri[k]);
          assert init[i] == entries[i];
        } else {
          assert r[k] == q.value;
        }
      }
    } else {
      assert KeptQuestions(entries) == [];
    }
  }

  /** Each entry paired with its 0-based position. */
  function Indexed(entries: seq<RawQuestion>): (r: seq<(nat, RawQuestion)>)
    ensures |r| == |entries| && forall i :: 0 <= i < |r| ==> r[i] == (i, entries[i])
  {
    seq(|entries|, i requires 0 <= i < |entries| => (i, entries[i]))
  }

  function KeptPred(): ((nat, RawQuestion)) -> bool { (p: (nat, RawQuestion)) => QuestionOf(p.0, p.1).Some? }

  /** The loop of `load_questions`: one question appended per kept entry. */
  method LoadQuestions(f: QuestionsFile) returns (r: Loaded<seq<EvalQuestion>>)
    ensures r == LoadQuestionsOf(f)
  {
    match f {
      case QFileNotMapping => return LoadFailed(AttributeError);
      case QFileFalsy => return LoadOk([]);
      case QFileNotList => return LoadFailed(NotAList);
      case QFileList(es) =>
        var out: seq<EvalQuestion> := [];
        var i := 0;
        while i < |es|
          invariant 0 <= i <= |es|
          invariant out == KeptQuestions(es[..i])
        {
          assert es[..i + 1][..i] == es[..i];
          var q := QuestionOf(i, es[i]);
          if q.Some? {
            out := out + [q.value];
          }
          i := i + 1;
        }
        assert es[..i] == es;
        return LoadOk(out);
    }
  }

  // ---------------------------------------------------------- settings

  /** `_require`: the stripped value, or the error naming the missing setting. */
  function Require(v: Option<string>, name: string): (r: Loaded<string>)
  {
    var t := Trim(OrElse(v, ""));
    if t == [] then LoadFailed("Missing required config/env: " + name) else LoadOk(t)
  }

  /** The value is accepted exactly when it is not blank, and then comes back stripped. */
  lemma RequireSpec(v: Option<string>, name: string)
    ensures Require(v, name).LoadOk? <==> v.Some? && !IsBlank(v.value)
    ensures Require(v, name).LoadOk? ==>
      Require(v, name).value == Trim(v.value) && Require(v, name).value != []
      && Trim(Require(v, name).value) == Require(v, name).value
    ensures Require(v, name).LoadFailed? ==> Require(v, name).error == "Missing required config/env: " + name
  {
    TrimIdempotent(OrElse(v, ""));
    if v.Some? && v.value == [] {
      assert Trim(v.value) == [];
    }
  }

  /**
   * The `run` section as read: an environment value that is set wins even
   * when it is 0; a configured 0 counts as unset. Values are already integers.
   */
  datatype RunSource = RunSource(envTopK: Option<int>, cfgTopK: Option<int>,
                                 envLimit: Option<int>, cfgLimit: Option<int>,
                                 envReportDir: Option<string>, cfgReportDir: Option<string>)

  datatype RunSettings = RunSettings(topK: int, limitQuestions: int, reportDir: string)

  const DefaultTopK := 10
  const DefaultLimit := 50
  const DefaultReportDir := "reports"

  /** `env or cfg or default` for integers: an unset environment value and a configured 0 fall through. */
  function PickInt(env: Option<int>, cfg: Option<int>, d: int): int
  {
    if env.Some? then env.value else if cfg.Some? && cfg.value != 0 then cfg.value else d
  }

  function Clamp(x: int, lo: int, hi: int): int
    requires lo <= hi
  {
    if x < lo then lo else if x > hi then hi else x
  }

  /** `_get_cfg_run` */
  function RunSettingsOf(s: RunSource): RunSettings
  {
    RunSettings(Clamp(PickInt(s.envTopK, s.cfgTopK, DefaultTopK), 1, 100),
                Max1(PickInt(s.envLimit, s.cfgLimit, DefaultLimit)),
                Trim(OrElse(s.envReportDir, OrElse(s.cfgReportDir, DefaultReportDir))))
  }

  function Max1(x: int): int { if x < 1 then 1 else x }

  /**
   * `top_k` always lies in [1, 100] and `limit_questions` is at least 1;
   * a chosen value already in range is kept, and with nothing set the
   * defaults 10 and 50 apply.
   */
  lemma RunSettingsSpec(s: RunSource)
    ensures 1 <= RunSettingsOf(s).topK <= 100
    ensures RunSettingsOf(s).limitQuestions >= 1
    ensures 1 <= PickInt(s.envTopK, s.cfgTopK, DefaultTopK) <= 100 ==>
      RunSettingsOf(s).topK == PickInt(s.envTopK, s.cfgTopK, DefaultTopK)
    ensures PickInt(s.envLimit, s.cfgLimit, DefaultLimit) >= 1 ==>
      RunSettingsOf(s).limitQuestions == PickInt(s.envLimit, s.cfgLimit, DefaultLimit)
    ensures s.envTopK.None? && s.cfgTopK.None? && s.envLimit.None? && s.cfgLimit.None? ==>
      RunSettingsOf(s).topK == DefaultTopK && RunSettingsOf(s).limitQuestions == DefaultLimit
    ensures s.envTopK.Some? ==> RunSettingsOf(s).topK == Clamp(s.envTopK.value, 1, 100)
  {
  }

  // ------------------------------------------------------------- modes

  /** `source_type_allow` as configured: null or absent, a list (each item's `str()`), or another value. */
  datatype AllowRaw = AllowNone | AllowList(items: seq<string>) | AllowOther

  datatype RawMode = ModeNotMapping | ModeMapping(name: Option<string>, allow: AllowRaw)

  /** The `modes` key: falsy, not a list, or a list. */
  datatype ModesField = ModesFalsy | ModesNotList | ModesList(entries: seq<RawMode>)

  /** A retrieval mode: its name and the source types it admits (`None`: no filter). */
  datatype Mode = Mode(name: string, sourceTypeAllow: Option<seq<string>>)

  const ModesNotAList := "config.yaml key 'modes' must be a list"
  const DefaultModes := [Mode("hier_only", Some(["hierarchical"])), Mode("atomic_plus_hier", None)]

  /** The stripped, non-blank items of an allow list. */
  function AllowItems(items: seq<string>): (r: seq<string>)
    ensures |r| <= |items|
    ensures forall i :: 0 <= i < |r| ==> r[i] != [] && Trim(r[i]) == r[i]
  {
    if items == [] then []
    else
      var n := |items|;
      var t := Trim(items[n - 1]);
      TrimIdempotent(items[n - 1]);
      AllowItems(items[..n - 1]) + (if t != [] then [t] else [])
  }

  function AllowOf(a: AllowRaw): (r: Option<seq<string>>)
  {
    match a
    case AllowList(items) => if AllowItems(items) == [] then None else Some(AllowItems(items))
    case _ => None
  }

  function ModeOf(m: RawMode): Option<Mode>
  {
    match m
    case ModeNotMapping => None
    case ModeMapping(name, allow) =>
      var n := Trim(OrElse(name, ""));
      if n == [] then None else Some(Mode(n, AllowOf(allow)))
  }

  function NamedModes(ms: seq<RawMode>): (r: seq<Mode>)
    ensures |r| <= |ms|
  {
    if ms == [] then []
    else
      var n := |ms|;
      var m := ModeOf(ms[n - 1]);
      NamedModes(ms[..n - 1]) + (if m.Some? then [m.value] else [])
  }

  /** `_get_cfg_modes` */
  function ModesOf(f: ModesField): Loaded<seq<Mode>>
  {
    match f
    case ModesNotList => LoadFailed(ModesNotAList)
    case ModesFalsy => LoadOk(DefaultModes)
    case ModesList(ms) => LoadOk(if NamedModes(ms) == [] then DefaultModes else NamedModes(ms))
  }

  predicate WellFormedMode(m: Mode)
  {
    m.name != [] && Trim(m.name) == m.name
    && (m.sourceTypeAllow.Some? ==>
          m.sourceTypeAllow.value != [] && forall i :: 0 <= i < |m.sourceTypeAllow.value| ==> m.sourceTypeAllow.value[i] != [])
  }

  /** Every named mode is well formed: a stripped name, and an allow list that is absent or non-empty. */
  lemma {:induction false} NamedModesSpec(ms: seq<RawMode>)
    ensures forall i :: 0 <= i < |NamedModes(ms)| ==> WellFormedMode(NamedModes(ms)[i])
    ensures |NamedModes(ms)| == CountIf(ms, (m: RawMode) => ModeOf(m).Some?)
    decreases |ms|
  {
    if ms != [] {
      var n := |ms|;
      NamedModesSpec(ms[..n - 1]);
      if ModeOf(ms[n - 1]).Some? {
        var name := ms[n - 1].name;
        TrimIdempotent(OrElse(name, ""));
      }
    }
  }

  /**
   * The modes are never empty and each is well formed; without a named
   * entry the two default modes apply; a non-list `modes` is an error.
   */
  lemma ModesSpec(f: ModesField)
    ensures f.ModesNotList? <==> ModesOf(f).LoadFailed?
    ensures ModesOf(f).LoadOk? ==>
      ModesOf(f).value != [] && forall i :: 0 <= i < |ModesOf(f).value| ==> WellFormedMode(ModesOf(f).value[i])
    ensures f.ModesList? && NamedModes(f.entries) != [] ==> ModesOf(f) == LoadOk(NamedModes(f.entries))
    ensures f.ModesFalsy? || (f.ModesList? && forall i :: 0 <= i < |f.entries| ==> ModeOf(f.entries[i]).None?) ==>
      ModesOf(f) == LoadOk(DefaultModes)
  {
    if f.ModesList? {
      NamedModesSpec(f.entries);
      if forall i :: 0 <= i < |f.entries| ==> ModeOf(f.entries[i]).None? {
        CountIfNone(f.entries);
      }
    }
    assert WellFormedMode(DefaultModes[0]) by {
      TrimLeftFixed("hier_only");
      TrimRightFixed("hier_only");
    }
    assert WellFormedMode(DefaultModes[1]) by {
      TrimLeftFixed("atomic_plus_hier");
      TrimRightFixed("atomic_plus_hier");
    }
  }

  lemma {:induction false} CountIfNone(ms: seq<RawMode>)
    requires forall i :: 0 <= i < |ms| ==> ModeOf(ms[i]).None?
    ensures NamedModes(ms) == []
    decreases |ms|
  {
    if ms != [] {
      assert forall i :: 0 <= i < |ms| - 1 ==> ms[..|ms| - 1][i] == ms[i];
      CountIfNone(ms[..|ms| - 1]);
    }
  }

  /** The loop of `_get_cfg_modes`. */
  method LoadModes(f: ModesField) returns (r: Loaded<seq<Mode>>)
    ensures r == ModesOf(f)
  {
    match f {
      case ModesNotList => return LoadFailed(ModesNotAList);
      case ModesFalsy => return LoadOk(DefaultModes);
      case ModesList(ms) =>
        var out: seq<Mode> := [];
        var i := 0;
        while i < |ms|
          invariant 0 <= i <= |ms|
          invariant out == NamedModes(ms[..i])
        {
          assert ms[..i + 1][..i] == ms[..i];
          var m := ModeOf(ms[i]);
          if m.Some? {
            out := out + [m.value];
          }
          i := i + 1;
        }
        assert ms[..i] == ms;
        if out == [] {
          out := DefaultModes;
        }
        return LoadOk(out);
    }
  }

  // ----------------------------------------------------------- filters

  /** The document filters, each `(env or config or "").strip()`. */
  datatype Filters = Filters(authority: string, payer: string, state: string, program: string)

  datatype FilterSource = FilterSource(
    envAuthority: Option<string>, cfgAuthority: Option<string>,
    envPayer: Option<string>, cfgPayer: Option<string>,
    envState: Option<string>, cfgState: Option<string>,
    envProgram: Option<string>, cfgProgram: Option<string>)

  function FilterField(env: Option<string>, cfg: Option<string>): string { Trim(OrElse(env, OrElse(cfg, ""))) }

  /** `_get_cfg_filters` */
  function FiltersOf(s: FilterSource): Filters
  {
    Filters(FilterField(s.envAuthority, s.cfgAuthority), FilterField(s.envPayer, s.cfgPayer),
            FilterField(s.envState, s.cfgState), FilterField(s.envProgram, s.cfgProgram))
  }

  /** The metadata fields a search can be restricted on. */
  datatype NsField = DocumentPayer | DocumentState | DocumentProgram | DocumentAuthorityLevel | SourceType

  function FieldName(f: NsField): string
  {
    match f
    case DocumentPayer => "document_payer"
    case DocumentState => "document_state"
    case DocumentProgram => "document_program"
    case DocumentAuthorityLevel => "document_authority_level"
    case SourceType => "source_type"
  }

  /** A search restriction: a field and the tokens it admits. */
  datatype Namespace = Namespace(field: NsField, allowTokens: seq<string>)

  function IfSet(field: NsField, v: string): seq<Namespace> { if v != [] then [Namespace(field, [v])] else [] }

  /** `_vertex_namespaces`: payer, state, program, authority, then source type, each only when set. */
  function Namespaces(f: Filters, allow: Option<seq<string>>): (ns: seq<Namespace>)
  {
    IfSet(DocumentPayer, f.payer) + IfSet(DocumentState, f.state) + IfSet(DocumentProgram, f.program)
    + IfSet(DocumentAuthorityLevel, f.authority)
    + (if allow.Some? && allow.value != [] then [Namespace(SourceType, allow.value)] else [])
  }

  function Flag(b: bool): nat { if b then 1 else 0 }

  /** The position of a field in the fixed order. */
  function OrderOf(f: NsField): nat
  {
    match f
    case DocumentPayer => 0
    case DocumentState => 1
    case DocumentProgram => 2
    case DocumentAuthorityLevel => 3
    case SourceType => 4
  }

  /** One namespace per set filter, and one for a non-empty allow list. */
  lemma NamespacesCount(f: Filters, allow: Option<seq<string>>)
    ensures |Namespaces(f, allow)| ==
      Flag(f.payer != []) + Flag(f.state != []) + Flag(f.program != []) + Flag(f.authority != [])
      + Flag(allow.Some? && allow.value != [])
  {
  }

  predicate NsSorted(ns: seq<Namespace>)
  {
    forall i, j :: 0 <= i < j < |ns| ==> OrderOf(ns[i].field) < OrderOf(ns[j].field)
  }

  predicate KeysBelow(ns: seq<Namespace>, v: nat) { forall i :: 0 <= i < |ns| ==> OrderOf(ns[i].field) < v }

  predicate HasTokens(ns: seq<Namespace>) { forall i :: 0 <= i < |ns| ==> ns[i].allowTokens != [] }

  lemma AppendPart(pre: seq<Namespace>, part: seq<Namespace>, v: nat)
    requires NsSorted(pre) && KeysBelow(pre, v) && HasTokens(pre)
    requires |part| <= 1 && forall i :: 0 <= i < |part| ==> OrderOf(part[i].field) == v && part[i].allowTokens != []
    ensures NsSorted(pre + part) && KeysBelow(pre + part, v + 1) && HasTokens(pre + part)
  {
  }

  /** The namespaces follow the fixed order, each admitting a non-empty token list. */
  lemma NamespacesOrdered(f: Filters, allow: Option<seq<string>>)
    ensures NsSorted(Namespaces(f, allow))
    ensures HasTokens(Namespaces(f, allow))
  {
    var a := IfSet(DocumentPayer, f.payer);
    var b := IfSet(DocumentState, f.state);
    var c := IfSet(DocumentProgram, f.program);
    var d := IfSet(DocumentAuthorityLevel, f.authority);
    var e := if allow.Some? && allow.value != [] then [Namespace(SourceType, allow.value)] else [];
    AppendPart([], a, 0);
    assert [] + a == a;
    AppendPart(a, b, 1);
    AppendPart(a + b, c, 2);
    AppendPart(a + b + c, d, 3);
    AppendPart(a + b + c + d, e, 4);
  }

  /** The authority namespace is present exactly when the authority filter is set. */
  lemma NamespacesAuthority(f: Filters, allow: Option<seq<string>>)
    ensures (exists i :: 0 <= i < |Namespaces(f, allow)| && Namespaces(f, allow)[i] == Namespace(DocumentAuthorityLevel, [f.authority]))
      <==> f.authority != []
  {
    var ns := Namespaces(f, allow);
    if f.authority != [] {
      var i := Flag(f.payer != []) + Flag(f.state != []) + Flag(f.program != []);
      assert ns[i] == Namespace(DocumentAuthorityLevel, [f.authority]);
    } else {
    }
  }

  // --------------------------------------------------------------- runs

  /** A neighbour returned by the search, its id never empty. */
  datatype Neighbor = Neighbor(id: string, distance: Option<real>)

  /** A `published_rag_metadata` row. */
  datatype Meta = Meta(displayName: Option<string>, filename: Option<string>, page: Option<int>,
                       sectionPath: Option<string>, chapterPath: Option<string>, sourceType: Option<string>,
                       text: Option<string>)

  datatype Embedding = EmbedFailed(error: string) | Embedded(vector: seq<real>)
  datatype Search = SearchFailed(error: string) | Found(neighbors: seq<Neighbor>)

  /** The external services: embedding a question, searching one mode, and the metadata of some ids. */
  datatype Services = Services(
    embed: string -> Embedding,
    search: (seq<real>, seq<Namespace>, int) -> Search,
    metadata: seq<string> -> map<string, Meta>)

  /** One line of results.csv: a neighbour, or an error with no neighbour. */
  datatype ResultRow = ResultRow(
    qid: string, intent: string, bucket: string, question: string, mode: string,
    rank: Option<nat>, neighborId: Option<string>, distance: Option<real>, similarity: Option<real>,
    documentName: Option<string>, page: Option<int>, sectionPath: Option<string>, chapterPath: Option<string>,
    sourceType: Option<string>, textSnippet: Option<string>, error: Option<string>)

  const EmbedErrorMode := "__embed_error__"
  const SnippetLen: nat := 240
  const Ellipsis: char := '…'

  function ErrorRow(q: EvalQuestion, mode: string, error: string): ResultRow
  {
    ResultRow(q.id, OrElse(Some(q.intent), UnknownIntent), q.bucket, q.question, mode,
              None, None, None, None, None, None, None, None, None, None, Some(error))
  }

  /** `(txt[:240] + "…") if len(txt) > 240 else (txt or None)`, on the stripped text. */
  function Snippet(text: Option<string>): (r: Option<string>)
    ensures r.Some? ==> r.value != [] && |r.value| <= SnippetLen + 1
    ensures r.Some? && |r.value| == SnippetLen + 1 ==> r.value[SnippetLen] == Ellipsis
    ensures r.None? <==> IsBlank(OrElse(text, ""))
  {
    var t := Trim(OrElse(text, ""));
    if |t| > SnippetLen then Some(t[..SnippetLen] + [Ellipsis]) else if t == [] then None else Some(t)
  }

  /** The row of the neighbour at 1-based `rank`. */
  function NeighborRow(q: EvalQuestion, mode: string, meta: map<string, Meta>, rank: nat, n: Neighbor): ResultRow
  {
    var m := if n.id in meta then Some(meta[n.id]) else None;
    ResultRow(q.id, OrElse(Some(q.intent), UnknownIntent), q.bucket, q.question, mode,
              Some(rank), Some(n.id), n.distance, Hier.Similarity(n.distance),
              if m.Some? then (if m.value.displayName.Some? && m.value.displayName.value != [] then m.value.displayName else m.value.filename) else None,
              if m.Some? then m.value.page else None,
              if m.Some? then m.value.sectionPath else None,
              if m.Some? then m.value.chapterPath else None,
              if m.Some? then m.value.sourceType else None,
              if m.Some? then Snippet(m.value.text) else None,
              None)
  }

  function NeighborRows(q: EvalQuestion, mode: string, meta: map<string, Meta>, ns: seq<Neighbor>): (r: seq<ResultRow>)
    ensures |r| == |ns|
  {
    if ns == [] then []
    else NeighborRows(q, mode, meta, ns[..|ns| - 1]) + [NeighborRow(q, mode, meta, |ns|, ns[|ns| - 1])]
  }

  function NeighborIds(ns: seq<Neighbor>): seq<string> { MapSeq(ns, (n: Neighbor) => n.id) }

  /** The rows of one mode, searched with its namespaces: the search error, or one row per neighbour. */
  function ModeRows(q: EvalQuestion, emb: seq<real>, m: Mode, f: Filters, topK: int, io: Services): seq<ResultRow>
  {
    match io.search(emb, Namespaces(f, m.sourceTypeAllow), topK)
    case SearchFailed(e) => [ErrorRow(q, m.name, "vertex_error: " + e)]
    case Found(ns) => NeighborRows(q, m.name, io.metadata(NeighborIds(ns)), ns)
  }

  function ModesRows(q: EvalQuestion, emb: seq<real>, modes: seq<Mode>, f: Filters, topK: int, io: Services): seq<ResultRow>
  {
    if modes == [] then []
    else ModesRows(q, emb, modes[..|modes| - 1], f, topK, io) + ModeRows(q, emb, modes[|modes| - 1], f, topK, io)
  }

  /** The rows of one question: a single embedding error row, or every mode's rows in mode order. */
  function QuestionRows(q: EvalQuestion, modes: seq<Mode>, f: Filters, topK: int, io: Services): seq<ResultRow>
  {
    match io.embed(q.question)
    case EmbedFailed(e) => [ErrorRow(q, EmbedErrorMode, "embed_error: " + e)]
    case Embedded(v) => ModesRows(q, v, modes, f, topK, io)
  }

  function AllRows(qs: seq<EvalQuestion>, modes: seq<Mode>, f: Filters, topK: int, io: Services): seq<ResultRow>
  {
    if qs == [] then []
    else AllRows(qs[..|qs| - 1], modes, f, topK, io) + QuestionRows(qs[|qs| - 1], modes, f, topK, io)
  }

  /** One more question appends its own rows. */
  lemma AllRowsStep(qs: seq<EvalQuestion>, i: nat, modes: seq<Mode>, f: Filters, topK: int, io: Services)
    requires i < |qs|
    ensures AllRows(qs[..i + 1], modes, f, topK, io) == AllRows(qs[..i], modes, f, topK, io) + QuestionRows(qs[i], modes, f, topK, io)
  {
    assert qs[..i + 1][..i] == qs[..i];
  }

  /** The command-line overrides `--limit` and `--top-k`. */
  datatype Overrides = Overrides(limit: Option<int>, topK: Option<int>)

  /** The settings `main` runs with, already loaded. */
  datatype Setup = Setup(questions: seq<EvalQuestion>, run: RunSettings, modes: seq<Mode>, filters: Filters)

  const AuthorityMissing := "filters.document_authority_level must be set (or env RAG_FILTER_AUTHORITY_LEVEL) so this eval isolates the Sunshine manual."

  /** The questions `main` asks: the first `--limit` (or configured limit) of them, a negative limit counting from the end. */
  function RunQuestions(s: Setup, o: Overrides): seq<EvalQuestion>
  {
    SliceTo(s.questions, if o.limit.Some? then o.limit.value else s.run.limitQuestions)
  }

  /** `main`: the result rows, or the error raised before any query when no authority filter is set. */
  function RunRows(s: Setup, o: Overrides, io: Services): Loaded<seq<ResultRow>>
  {
    if s.filters.authority == [] then LoadFailed(AuthorityMissing)
    else LoadOk(AllRows(RunQuestions(s, o), s.modes, s.filters, if o.topK.Some? then o.topK.value else s.run.topK, io))
  }

  /** Without an authority filter the run fails whatever the services would answer: nothing is queried. */
  lemma NoAuthorityNoQuery(s: Setup, o: Overrides, io1: Services, io2: Services)
    requires s.filters.authority == []
    ensures RunRows(s, o, io1) == RunRows(s, o, io2) == LoadFailed(AuthorityMissing)
  {
  }

  /** A question whose embedding fails contributes exactly one row, an error row, and no mode is searched. */
  lemma EmbedFailureOneRow(q: EvalQuestion, modes: seq<Mode>, f: Filters, topK: int, io: Services)
    requires io.embed(q.question).EmbedFailed?
    ensures |QuestionRows(q, modes, f, topK, io)| == 1
    ensures var r := QuestionRows(q, modes, f, topK, io)[0];
      r.mode == EmbedErrorMode && r.error.Some? && r.rank.None? && r.neighborId.None?
  {
  }

  /**
   * The neighbour rows of a search are ranked 1, 2, … in result order,
   * carry no error, a similarity in [0, 1] whenever a distance is known, and
   * a snippet of at most 241 characters.
   */
  lemma {:induction false} NeighborRowsSpec(q: EvalQuestion, mode: string, meta: map<string, Meta>, ns: seq<Neighbor>)
    ensures forall i :: 0 <= i < |ns| ==>
      var r := NeighborRows(q, mode, meta, ns)[i];
      r.rank == Some(i + 1) && r.neighborId == Some(ns[i].id) && r.error.None? && r.mode == mode
      && r.similarity == Hier.Similarity(ns[i].distance)
      && (r.similarity.Some? ==> 0.0 <= r.similarity.value <= 1.0)
      && (r.textSnippet.Some? ==> |r.textSnippet.value| <= SnippetLen + 1)
    decreases |ns|
  {
    if ns != [] {
      var init := ns[..|ns| - 1];
      NeighborRowsSpec(q, mode, meta, init);
      assert forall i :: 0 <= i < |init| ==> init[i] == ns[i];
    }
  }

  /** A search error gives one error row for that mode; otherwise one row per neighbour. */
  lemma ModeRowsSpec(q: EvalQuestion, emb: seq<real>, m: Mode, f: Filters, topK: int, io: Services)
    ensures io.search(emb, Namespaces(f, m.sourceTypeAllow), topK).SearchFailed? ==>
      |ModeRows(q, emb, m, f, topK, io)| == 1 && ModeRows(q, emb, m, f, topK, io)[0].error.Some?
      && ModeRows(q, emb, m, f, topK, io)[0].mode == m.name
    ensures io.search(emb, Namespaces(f, m.sourceTypeAllow), topK).Found? ==>
      |ModeRows(q, emb, m, f, topK, io)| == |io.search(emb, Namespaces(f, m.sourceTypeAllow), topK).neighbors|
      && forall i :: 0 <= i < |ModeRows(q, emb, m, f, topK, io)| ==> ModeRows(q, emb, m, f, topK, io)[i].error.None?
  {
    if io.search(emb, Namespaces(f, m.sourceTypeAllow), topK).Found? {
      var ns := io.search(emb, Namespaces(f, m.sourceTypeAllow), topK).neighbors;
      NeighborRowsSpec(q, m.name, io.metadata(NeighborIds(ns)), ns);
    }
  }

  /** The loop of `main` over the questions and their modes. */
  method RunAll(qs: seq<EvalQuestion>, modes: seq<Mode>, f: Filters, topK: int, io: Services) returns (rows: seq<ResultRow>)
    ensures rows == AllRows(qs, modes, f, topK, io)
  {
    rows := [];
    var i := 0;
    while i < |qs|
      invariant 0 <= i <= |qs|
      invariant rows == AllRows(qs[..i], modes, f, topK, io)
    {
      AllRowsStep(qs, i, modes, f, topK, io);
      var q := qs[i];
      match io.embed(q.question) {
        case EmbedFailed(e) =>
          rows := rows + [ErrorRow(q, EmbedErrorMode, "embed_error: " + e)];
        case Embedded(v) =>
          var qrows := RunModes(q, v, modes, f, topK, io);
          rows := rows + qrows;
      }
      i := i + 1;
    }
    assert qs[..i] == qs;
  }

  /** The inner loop of `main`: every mode of one embedded question. */
  method RunModes(q: EvalQuestion, v: seq<real>, modes: seq<Mode>, f: Filters, topK: int, io: Services)
    returns (qrows: seq<ResultRow>)
    ensures qrows == ModesRows(q, v, modes, f, topK, io)
  {
    qrows := [];
    var j := 0;
    while j < |modes|
      invariant 0 <= j <= |modes|
      invariant qrows == ModesRows(q, v, modes[..j], f, topK, io)
    {
      assert modes[..j + 1][..j] == modes[..j];
      qrows := qrows + ModeRows(q, v, modes[j], f, topK, io);
      j := j + 1;
    }
    assert modes[..j] == modes;
  }
}
