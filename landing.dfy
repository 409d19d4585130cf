/**
 * The Mobius master landing server (landing_server.py): the health probe of
 * one service, the combined RAG status, the order of the status page, the
 * PID file that starting and stopping a service share, and the JSON bodies of
 * the service endpoints.
 *
 * HTTP, subprocesses, the clock and the file system are parameters: a probe
 * is what the GET did (`Outcome`), a started process is what `Popen` gave
 * (`Spawn`), and the PID file is a field of `Host` holding its lines.
 */
module Landing {
  import opened Text
  import Sorting

  // ------------------------------------------------------------ services

  /** The processes the landing server starts and stops. */
  datatype Proc =
    | OsBackend | OsExtension | ChatApi | ChatWorker | RagBackend | RagChunkingWorker
    | RagEmbeddingWorker | RagFrontend | Dbt | ScraperApi | ScraperWorker

  /** The name a process has in the PID file and its log file. */
  function ProcName(p: Proc): string
  {
    match p
    case OsBackend => "mobius-os-backend"
    case OsExtension => "mobius-os-extension"
    case ChatApi => "mobius-chat-api"
    case ChatWorker => "mobius-chat-worker"
    case RagBackend => "mobius-rag-backend"
    case RagChunkingWorker => "mobius-rag-chunking-worker"
    case RagEmbeddingWorker => "mobius-rag-embedding-worker"
    case RagFrontend => "mobius-rag-frontend"
    case Dbt => "mobius-dbt"
    case ScraperApi => "mobius-scraper-api"
    case ScraperWorker => "mobius-scraper-worker"
  }

  /** The shell command that starts a process under the repository root. */
  function ProcCommand(p: Proc, root: string): string
  {
    match p
    case OsBackend => "cd " + root + "/mobius-os/backend && .venv/bin/python server.py"
    case OsExtension => "cd " + root + "/mobius-os/extension && npm run dev"
    case ChatApi => "cd " + root + "/mobius-chat && ./mchatc"
    case ChatWorker => "cd " + root + "/mobius-chat && ./mchatcw"
    case RagBackend => "cd " + root + "/mobius-rag && .venv/bin/python3 -m uvicorn app.main:app --host 0.0.0.0 --port 8001 --reload"
    case RagChunkingWorker => "cd " + root + "/mobius-rag && .venv/bin/python3 -m app.worker"
    case RagEmbeddingWorker => "cd " + root + "/mobius-rag && .venv/bin/python3 -m app.embedding_worker"
    case RagFrontend =>
      "cd " + root + "/mobius-rag/frontend && VITE_API_BASE=http://localhost:8001 VITE_SCRAPER_API_BASE=http://localhost:8002 npm run dev"
    case Dbt => "cd " + root + "/mobius-dbt && .venv/bin/python3 -m uvicorn app.main:app --reload --host 0.0.0.0 --port 6500"
    case ScraperApi => "cd " + root + "/mobius-skills/web-scraper && .venv/bin/python3 -m uvicorn app.main:app --host 0.0.0.0 --port 8002"
    case ScraperWorker => "cd " + root + "/mobius-skills/web-scraper && ./mscrapew"
  }

  /** A name that survives `strip()`: non-empty, no whitespace at either end. */
  predicate Word(s: string) { s != [] && !IsSpace(s[0]) && !IsSpace(s[|s| - 1]) }

  /** Every process name reads back unchanged from a PID line. */
  lemma ProcNameWord(p: Proc)
    ensures Word(ProcName(p))
  {
    var s := ProcName(p);
    assert s[0] == 'm';
    match p {
      case OsBackend => assert s[|s| - 1] == 'd';
      case OsExtension => assert s[|s| - 1] == 'n';
      case ChatApi => assert s[|s| - 1] == 'i';
      case ChatWorker => assert s[|s| - 1] == 'r';
      case RagBackend => assert s[|s| - 1] == 'd';
      case RagChunkingWorker => assert s[|s| - 1] == 'r';
      case RagEmbeddingWorker => assert s[|s| - 1] == 'r';
      case RagFrontend => assert s[|s| - 1] == 'd';
      case Dbt => assert s[|s| - 1] == 't';
      case ScraperApi => assert s[|s| - 1] == 'i';
      case ScraperWorker => assert s[|s| - 1] == 'r';
    }
  }

  function ProcNames(ps: seq<Proc>): (r: seq<string>)
    ensures |r| == |ps| && forall i :: 0 <= i < |ps| ==> r[i] == ProcName(ps[i])
  {
    seq(|ps|, i requires 0 <= i < |ps| => ProcName(ps[i]))
  }

  /** One entry of `SERVICE_STOP`: its processes (looked up in the PID file by name) and the ports it binds. */
  datatype Service = Service(procs: seq<Proc>, ports: seq<int>)
  {
    function Names(): seq<string> { ProcNames(procs) }
  }

  const ServiceIds: seq<string> :=
    ["os", "chat", "rag", "dbt", "chat-worker", "scraper", "rag-chunking", "rag-embedding"]

  /** `SERVICE_STOP.get(sid)` */
  function StopInfo(sid: string): (r: Option<Service>)
    ensures r.Some? <==> sid in ServiceIds
  {
    if sid == "os" then Some(Service([OsBackend, OsExtension], [5001]))
    else if sid == "chat" then Some(Service([ChatApi, ChatWorker], [8000]))
    else if sid == "rag" then Some(Service([RagBackend, RagChunkingWorker, RagEmbeddingWorker, RagFrontend], [8001, 5173]))
    else if sid == "dbt" then Some(Service([Dbt], [6500]))
    else if sid == "chat-worker" then Some(Service([ChatWorker], []))
    else if sid == "scraper" then Some(Service([ScraperApi, ScraperWorker], [8002]))
    else if sid == "rag-chunking" then Some(Service([RagChunkingWorker], []))
    else if sid == "rag-embedding" then Some(Service([RagEmbeddingWorker], []))
    else None
  }

  /**
   * The RAG processes: backend, chunking worker and frontend, with the
   * embedding worker inserted at position 2 when its module exists.
   */
  function RagProcs(embeddingWorker: bool): (r: seq<Proc>)
    ensures embeddingWorker ==> r == [RagBackend, RagChunkingWorker, RagEmbeddingWorker, RagFrontend]
    ensures !embeddingWorker ==> r == [RagBackend, RagChunkingWorker, RagFrontend]
    ensures RagEmbeddingWorker in r <==> embeddingWorker
  {
    var ps := [RagBackend, RagChunkingWorker, RagFrontend];
    if embeddingWorker then ps[..2] + [RagEmbeddingWorker] + ps[2..] else ps
  }

  /** The processes `_start_commands` lists for a service id. */
  function StartProcs(embeddingWorker: bool, sid: string): Option<seq<Proc>>
  {
    if sid == "os" then Some([OsBackend, OsExtension])
    else if sid == "chat" then Some([ChatApi, ChatWorker])
    else if sid == "rag" then Some(RagProcs(embeddingWorker))
    else if sid == "dbt" then Some([Dbt])
    else if sid == "chat-worker" then Some([ChatWorker])
    else if sid == "scraper" then Some([ScraperApi, ScraperWorker])
    else if sid == "rag-chunking" then Some([RagChunkingWorker])
    else if sid == "rag-embedding" then Some(if embeddingWorker then [RagEmbeddingWorker] else [])
    else None
  }

  /** A process to start: its PID-file name and its shell command. */
  datatype Command = Command(name: string, cmd: string)

  function CommandNames(cmds: seq<Command>): (r: seq<string>)
    ensures |r| == |cmds| && forall i :: 0 <= i < |cmds| ==> r[i] == cmds[i].name
  {
    seq(|cmds|, i requires 0 <= i < |cmds| => cmds[i].name)
  }

  function CommandsOf(ps: seq<Proc>, root: string): (r: seq<Command>)
    ensures |r| == |ps| && forall i :: 0 <= i < |ps| ==> r[i] == Command(ProcName(ps[i]), ProcCommand(ps[i], root))
  {
    seq(|ps|, i requires 0 <= i < |ps| => Command(ProcName(ps[i]), ProcCommand(ps[i], root)))
  }

  /** `_start_commands(root).get(sid)` */
  function StartCommands(root: string, embeddingWorker: bool, sid: string): Option<seq<Command>>
  {
    match StartProcs(embeddingWorker, sid)
    case None => None
    case Some(ps) => Some(CommandsOf(ps, root))
  }

  /**
   * The start table and the stop table cover the same services, and every
   * process a service starts is one that stopping it looks for.
   */
  lemma StartMatchesStop(embeddingWorker: bool, sid: string)
    ensures StartProcs(embeddingWorker, sid).Some? <==> StopInfo(sid).Some?
    ensures StartProcs(embeddingWorker, sid).Some? ==>
      forall p :: p in StartProcs(embeddingWorker, sid).value ==> p in StopInfo(sid).value.procs
  {
  }

  /** The names in the commands a service starts are names its stop removes from the PID file. */
  lemma StartNamesStoppable(root: string, embeddingWorker: bool, sid: string)
    requires StopInfo(sid).Some?
    ensures StartCommands(root, embeddingWorker, sid).Some?
    ensures var cmds := StartCommands(root, embeddingWorker, sid).value;
      forall i :: 0 <= i < |cmds| ==> cmds[i].name in StopInfo(sid).value.Names() && Word(cmds[i].name)
  {
    StartMatchesStop(embeddingWorker, sid);
    var ps := StartProcs(embeddingWorker, sid).value;
    var cmds := StartCommands(root, embeddingWorker, sid).value;
    var stop := StopInfo(sid).value;
    forall i | 0 <= i < |cmds| ensures cmds[i].name in stop.Names() && Word(cmds[i].name) {
      assert ps[i] in stop.procs;
      var j :| 0 <= j < |stop.procs| && stop.procs[j] == ps[i];
      assert stop.Names()[j] == cmds[i].name;
      ProcNameWord(ps[i]);
    }
  }

  // -------------------------------------------------------------- probing

  datatype Status = Up | Slow | Down | Degraded | NoEndpoint

  /** `SLOW_THRESHOLD_MS`: an answer taking this long or longer is slow. */
  const SlowThresholdMs: int := 2000

  /**
   * What one GET did: raised `URLError`, `HTTPError` or `OSError` after `ms`
   * milliseconds, or answered with status `code` after `ms` milliseconds.
   */
  datatype Outcome = Raised(ms: int) | Answered(code: int, ms: int)

  datatype Probe = Probe(status: Status, ms: int)

  predicate Live(s: Status) { s == Up || s == Slow }

  /** `_probe_one`: a 2xx answer is up, or slow from 2000 ms on; anything else is down. */
  function ProbeOne(o: Outcome): (r: Probe)
    ensures r.ms == o.ms
    ensures r.status in {Up, Slow, Down}
    ensures Live(r.status) <==> o.Answered? && 200 <= o.code < 300
    ensures Live(r.status) ==> (r.status == Slow <==> o.ms >= SlowThresholdMs)
  {
    match o
    case Raised(ms) => Probe(Down, ms)
    case Answered(code, ms) =>
      if 200 <= code < 300 then Probe(if ms < SlowThresholdMs then Up else Slow, ms) else Probe(Down, ms)
  }

  /** `s.rstrip("/")` */
  function RStripSlash(s: string): (r: string)
    ensures IsPrefix(r, s)
    ensures r == [] || r[|r| - 1] != '/'
    ensures forall i :: |r| <= i < |s| ==> s[i] == '/'
  {
    if |s| > 0 && s[|s| - 1] == '/' then RStripSlash(s[..|s| - 1]) else s
  }

  /** The URL probed: the base without trailing slashes, then the path. */
  function ProbeUrl(base: string, path: string): (r: string)
    ensures IsSuffix(path, r)
  {
    RStripSlash(base) + path
  }

  /** One row of the status page. `rag` carries the two RAG timings and the degraded reason. */
  datatype Entry = Entry(id: string, name: string, url: Option<string>, status: Status, ms: Option<int>,
                         note: Option<string>, rag: Option<RagDetail>)
  datatype RagDetail = RagDetail(backendMs: int, frontendMs: int, reason: Option<string>)

  const RagLinkUrl: string := "http://127.0.0.1:5173"

  function Max(a: int, b: int): int { if a < b then b else a }

  /** `_probe_rag` given the backend and frontend probes. */
  function RagEntry(backend: Probe, frontend: Probe): Entry
  {
    var bUp := Live(backend.status);
    var fUp := Live(frontend.status);
    var status :=
      if bUp && fUp then (if backend.status == Slow || frontend.status == Slow then Slow else Up)
      else if bUp || fUp then Degraded
      else Down;
    var ms :=
      if bUp && !fUp then backend.ms
      else if fUp && !bUp then frontend.ms
      else Max(backend.ms, frontend.ms);
    var reason :=
      if bUp && !fUp then Some("Backend up, frontend down.")
      else if fUp && !bUp then Some("Frontend up, backend down.")
      else None;
    Entry("rag", "RAG", Some(RagLinkUrl), status, Some(ms), None, Some(RagDetail(backend.ms, frontend.ms, reason)))
  }

  /**
   * The RAG decision table: up when both halves are up, slow when both are
   * live and one is slow (timed by the slower), degraded when exactly one is
   * live (timed by that one), down when neither is.
   */
  lemma RagEntrySpec(backend: Probe, frontend: Probe)
    ensures var e := RagEntry(backend, frontend);
      (e.status == Up <==> backend.status == Up && frontend.status == Up)
      && (e.status == Slow <==> Live(backend.status) && Live(frontend.status) && (backend.status == Slow || frontend.status == Slow))
      && (e.status == Degraded <==> Live(backend.status) != Live(frontend.status))
      && (e.status == Down <==> !Live(backend.status) && !Live(frontend.status))
      && (e.status == Degraded ==> e.ms == Some(if Live(backend.status) then backend.ms else frontend.ms))
      && (e.status != Degraded ==> e.ms == Some(Max(backend.ms, frontend.ms)) && e.ms.value >= backend.ms && e.ms.value >= frontend.ms)
      && e.rag == Some(RagDetail(backend.ms, frontend.ms, e.rag.value.reason))
  {
  }

  /** Swapping backend and frontend changes only the degraded reason. */
  lemma RagEntrySymmetric(backend: Probe, frontend: Probe)
    ensures RagEntry(backend, frontend).status == RagEntry(frontend, backend).status
    ensures RagEntry(backend, frontend).ms == RagEntry(frontend, backend).ms
  {
  }

  // ---------------------------------------------------------- status page

  /** An entry of `PROCESS_PROBES`: id, display name, link, probe base and probe path. */
  datatype Target = Target(id: string, name: string, link: string, base: string, path: string)

  const ProcessProbes: seq<Target> := [
    Target("os", "OS (extension + backend)", "http://127.0.0.1:5001", "http://127.0.0.1:5001", "/health"),
    Target("chat", "Chat", "http://127.0.0.1:8000", "http://127.0.0.1:8000", "/health"),
    Target("dbt", "DBT", "http://127.0.0.1:6500", "http://127.0.0.1:6500", "/config")
  ]

  /** An entry of `WORKER_PROBES`; a worker without base and path has no endpoint. */
  datatype WorkerTarget = WorkerTarget(id: string, name: string, base: Option<string>, path: Option<string>, note: Option<string>)

  const WorkerProbes: seq<WorkerTarget> := [
    WorkerTarget("chat-worker", "Chat worker", None, None, None),
    WorkerTarget("scraper", "Scraper", Some("http://127.0.0.1:8002"), Some("/health"), Some("Required for RAG Scrape from URL.")),
    WorkerTarget("rag-chunking", "RAG chunking", None, None, None),
    WorkerTarget("rag-embedding", "RAG embedding", None, None, None)
  ]

  function ProcessEntry(t: Target, probe: string -> Outcome): Entry
  {
    var p := ProbeOne(probe(ProbeUrl(t.base, t.path)));
    Entry(t.id, t.name, Some(t.link), p.status, Some(p.ms), None, None)
  }

  function RagOf(probe: string -> Outcome): Entry
  {
    RagEntry(ProbeOne(probe(ProbeUrl("http://127.0.0.1:8001", "/health"))),
             ProbeOne(probe(ProbeUrl(RagLinkUrl, "/"))))
  }

  function WorkerEntry(w: WorkerTarget, probe: string -> Outcome): Entry
  {
    if w.base.None? || w.path.None? then Entry(w.id, w.name, None, NoEndpoint, None, w.note, None)
    else
      var p := ProbeOne(probe(ProbeUrl(w.base.value, w.path.value)));
      Entry(w.id, w.name, w.base, p.status, Some(p.ms), w.note, None)
  }

  /** Processes sort by os, chat, rag, dbt, then anything else. */
  function OrderKey(id: string): int
  {
    if id == "os" then 0 else if id == "chat" then 1 else if id == "rag" then 2 else if id == "dbt" then 3 else 4
  }

  function ByOrder(): (Entry, Entry) -> bool { (a: Entry, b: Entry) => OrderKey(a.id) <= OrderKey(b.id) }

  function ProcessEntries(ts: seq<Target>, probe: string -> Outcome): (r: seq<Entry>)
    ensures |r| == |ts| && forall i :: 0 <= i < |ts| ==> r[i] == ProcessEntry(ts[i], probe)
  {
    seq(|ts|, i requires 0 <= i < |ts| => ProcessEntry(ts[i], probe))
  }

  function WorkerEntries(ws: seq<WorkerTarget>, probe: string -> Outcome): (r: seq<Entry>)
    ensures |r| == |ws| && forall i :: 0 <= i < |ws| ==> r[i] == WorkerEntry(ws[i], probe)
  {
    seq(|ws|, i requires 0 <= i < |ws| => WorkerEntry(ws[i], probe))
  }

  /** The processes of the status page: the three probes and RAG, stably sorted by `OrderKey`. */
  function Processes(probe: string -> Outcome): seq<Entry>
  {
    Sorting.SortBy(ProcessEntries(ProcessProbes, probe) + [RagOf(probe)], ByOrder())
  }

  datatype StatusPage = StatusPage(processes: seq<Entry>, workers: seq<Entry>, updatedAt: string)

  /** The process half of `_get_status`: probe each listed process, add RAG, sort. */
  method ListProcesses(probe: string -> Outcome) returns (processes: seq<Entry>)
    ensures processes == Processes(probe)
  {
    processes := [];
    for i := 0 to |ProcessProbes|
      invariant |processes| == i
      invariant forall k :: 0 <= k < i ==> processes[k] == ProcessEntry(ProcessProbes[k], probe)
    {
      processes := processes + [ProcessEntry(ProcessProbes[i], probe)];
    }
    assert processes == ProcessEntries(ProcessProbes, probe);
    processes := processes + [RagOf(probe)];
    processes := Sorting.SortBy(processes, ByOrder());
  }

  /** The worker half of `_get_status`: one entry per listed worker, in order. */
  method ListWorkers(probe: string -> Outcome) returns (workers: seq<Entry>)
    ensures workers == WorkerEntries(WorkerProbes, probe)
  {
    workers := [];
    for i := 0 to |WorkerProbes|
      invariant |workers| == i
      invariant forall k :: 0 <= k < i ==> workers[k] == WorkerEntry(WorkerProbes[k], probe)
    {
      workers := workers + [WorkerEntry(WorkerProbes[i], probe)];
    }
  }

  /** `_get_status`; `probe` answers a GET of a URL and `now` is the ISO time stamp. */
  method GetStatus(probe: string -> Outcome, now: string) returns (page: StatusPage)
    ensures page.processes == Processes(probe)
    ensures page.workers == WorkerEntries(WorkerProbes, probe)
    ensures page.updatedAt == now
  {
    var processes := ListProcesses(probe);
    var workers := ListWorkers(probe);
    page := StatusPage(processes, workers, now);
  }

  /** Sorting by `OrderKey` puts the entry keyed 2 between those keyed 1 and 3. */
  lemma SortFour(a: Entry, b: Entry, c: Entry, d: Entry)
    requires OrderKey(a.id) == 0 && OrderKey(b.id) == 1 && OrderKey(c.id) == 3 && OrderKey(d.id) == 2
    ensures Sorting.SortBy([a, b, c, d], ByOrder()) == [a, b, d, c]
  {
    var le := ByOrder();
    var listed := [a, b, c, d];
    assert listed[1..] == [b, c, d];
    assert listed[2..] == [c, d];
    assert listed[3..] == [d];
    assert Sorting.SortBy([d], le) == [d] by {
      assert [d][1..] == [];
    }
    assert Sorting.InsertBy(c, [d], le) == [d, c] by {
      assert !le(c, d);
      assert [d][1..] == [];
    }
    assert Sorting.SortBy(listed[2..], le) == [d, c];
    assert Sorting.InsertBy(b, [d, c], le) == [b, d, c];
    assert Sorting.SortBy(listed[1..], le) == [b, d, c];
    assert Sorting.InsertBy(a, [b, d, c], le) == [a, b, d, c];
  }

  /** The page lists os, chat, rag and dbt in that order, each from its own probe. */
  lemma ProcessesOrder(probe: string -> Outcome)
    ensures var ps := Processes(probe);
      |ps| == 4
      && ps[0] == ProcessEntry(ProcessProbes[0], probe) && ps[0].id == "os"
      && ps[1] == ProcessEntry(ProcessProbes[1], probe) && ps[1].id == "chat"
      && ps[2] == RagOf(probe) && ps[2].id == "rag"
      && ps[3] == ProcessEntry(ProcessProbes[2], probe) && ps[3].id == "dbt"
  {
    var os := ProcessEntry(ProcessProbes[0], probe);
    var chat := ProcessEntry(ProcessProbes[1], probe);
    var dbt := ProcessEntry(ProcessProbes[2], probe);
    var rag := RagOf(probe);
    assert os.id == "os" && chat.id == "chat" && dbt.id == "dbt" && rag.id == "rag";
    assert OrderKey("os") == 0 && OrderKey("chat") == 1 && OrderKey("dbt") == 3 && OrderKey("rag") == 2;
    SortFour(os, chat, dbt, rag);
    assert ProcessEntries(ProcessProbes, probe) + [rag] == [os, chat, dbt, rag];
  }

  /** Workers keep their listed order; only the scraper has an endpoint, probed at its health path. */
  lemma WorkersSpec(probe: string -> Outcome)
    ensures var ws := WorkerEntries(WorkerProbes, probe);
      |ws| == 4
      && ws[0].id == "chat-worker" && ws[1].id == "scraper" && ws[2].id == "rag-chunking" && ws[3].id == "rag-embedding"
      && ws[0].status == NoEndpoint && ws[2].status == NoEndpoint && ws[3].status == NoEndpoint
      && ws[1].status == ProbeOne(probe("http://127.0.0.1:8002/health")).status
      && ws[1].note == Some("Required for RAG Scrape from URL.")
  {
    var base := "http://127.0.0.1:8002";
    assert RStripSlash(base) == base by {
      assert base[|base| - 1] == '2';
    }
    assert ProbeUrl(base, "/health") == "http://127.0.0.1:8002/health";
  }

  // ------------------------------------------------------------ PID file

  /** Index of the first whitespace character, or the length when there is none. */
  function FirstSpace(s: string): (r: nat)
    ensures r <= |s|
    ensures forall i :: 0 <= i < r ==> !IsSpace(s[i])
    ensures r < |s| ==> IsSpace(s[r])
  {
    if s == [] || IsSpace(s[0]) then 0 else 1 + FirstSpace(s[1..])
  }

  /** `line.strip().split(None, 1)` when it has two parts: the first word and the rest. */
  function SplitWord(line: string): Option<(string, string)>
  {
    var t := Trim(line);
    var i := FirstSpace(t);
    if i == |t| then None else Some((t[..i], TrimLeft(t[i..])))
  }

  /**
   * The split: none when the stripped line is one word (or empty); otherwise
   * a first word without whitespace and a rest that starts and ends with a
   * non-space character, which together with the whitespace between them
   * make up the stripped line.
   */
  lemma SplitWordSpec(line: string)
    ensures var t := Trim(line);
      (SplitWord(line).None? <==> forall i :: 0 <= i < |t| ==> !IsSpace(t[i]))
      && (SplitWord(line).Some? ==>
            var w := SplitWord(line).value.0;
            var rest := SplitWord(line).value.1;
            w != [] && (forall i :: 0 <= i < |w| ==> !IsSpace(w[i]))
            && Word(rest)
            && IsPrefix(w, t) && IsSuffix(rest, t) && |w| < |t| - |rest|
            && AllSpace(t[|w|..|t| - |rest|]))
  {
    var t := Trim(line);
    TrimSpec(line);
    var i := FirstSpace(t);
    if i < |t| {
      SplitAt(t, i);
    }
  }

  /** Splitting a stripped string at its first whitespace. */
  lemma SplitAt(t: string, i: nat)
    requires i < |t| && IsSpace(t[i]) && !IsSpace(t[0]) && !IsSpace(t[|t| - 1])
    ensures var rest := TrimLeft(t[i..]);
      i > 0 && Word(rest) && IsSuffix(rest, t) && i < |t| - |rest| && AllSpace(t[i..|t| - |rest|])
  {
    var u := t[i..];
    TrimLeftSpec(u);
    var rest := TrimLeft(u);
    NotAllSpaceTrimLeft(u, |u| - 1);
    assert rest == u[|u| - |rest|..];
    assert rest[|rest| - 1] == u[|u| - 1];
    assert t[i..|t| - |rest|] == u[..|u| - |rest|];
  }

  /** The line `_start_service` appends: the PID, a space, the name and a newline. */
  function PidLine(pid: nat, name: string): string
  {
    NatToString(pid) + " " + name + "\n"
  }

  /** A PID line reads back as its PID and name. */
  lemma PidLineSplit(pid: nat, name: string)
    requires Word(name)
    ensures SplitWord(PidLine(pid, name)) == Some((NatToString(pid), name))
  {
    var d := NatToString(pid);
    var line := PidLine(pid, name);
    var core := d + " " + name;
    assert line == core + "\n";
    assert TrimLeft(line) == line by {
      assert line[0] == d[0];
      assert IsDigit(d[0]);
      TrimLeftFixed(line);
    }
    assert TrimRight(line) == TrimRight(core) by {
      assert line[..|line| - 1] == core;
    }
    assert TrimRight(core) == core by {
      assert core[|core| - 1] == name[|name| - 1];
      TrimRightFixed(core);
    }
    assert Trim(line) == core;
    assert FirstSpace(core) == |d| by {
      FirstSpaceAt(core, |d|);
    }
    assert core[..|d|] == d;
    assert core[|d|..] == " " + name;
    assert TrimLeft(" " + name) == name by {
      assert (" " + name)[1..] == name;
      TrimLeftFixed(name);
    }
  }

  lemma FirstSpaceAt(s: string, k: nat)
    requires k < |s| && IsSpace(s[k]) && forall i :: 0 <= i < k ==> !IsSpace(s[i])
    ensures FirstSpace(s) == k
  {
  }

  /** A line stays in the PID file unless it has a name and the name is one of the service's. */
  predicate Stays(line: string, names: seq<string>)
  {
    match SplitWord(line)
    case None => true
    case Some(p) => p.1 !in names
  }

  /** The lines `_stop_service` writes back, in their order. */
  function KeptLines(lines: seq<string>, names: seq<string>): (r: seq<string>)
    ensures |r| <= |lines|
  {
    if lines == [] then []
    else
      var last := lines[|lines| - 1];
      KeptLines(lines[..|lines| - 1], names) + (if Stays(last, names) then [last] else [])
  }

  /** The PIDs `_stop_service` kills, in line order. */
  function KilledPids(lines: seq<string>, names: seq<string>): seq<string>
  {
    if lines == [] then []
    else
      var last := lines[|lines| - 1];
      KilledPids(lines[..|lines| - 1], names)
        + (if Stays(last, names) then [] else [SplitWord(last).value.0])
  }

  /**
   * The stop filter keeps exactly the lines that are malformed or name a
   * process of another service, and kills one PID for each other line.
   */
  lemma {:induction false} KeptLinesSpec(lines: seq<string>, names: seq<string>)
    ensures forall l :: l in KeptLines(lines, names) <==> l in lines && Stays(l, names)
    ensures |KeptLines(lines, names)| + |KilledPids(lines, names)| == |lines|
  {
    if lines != [] {
      var init := lines[..|lines| - 1];
      KeptLinesSpec(init, names);
      assert lines == init + [lines[|lines| - 1]];
    }
  }

  /** Filtering a PID file that grew is filtering the old part, then the new. */
  lemma {:induction false} KeptLinesAppend(a: seq<string>, b: seq<string>, names: seq<string>)
    ensures KeptLines(a + b, names) == KeptLines(a, names) + KeptLines(b, names)
  {
    if b == [] {
      assert a + b == a;
    } else {
      var init := b[..|b| - 1];
      KeptLinesAppend(a, init, names);
      assert (a + b)[..|a + b| - 1] == a + init;
    }
  }

  lemma {:induction false} KeptLinesNone(lines: seq<string>, names: seq<string>)
    requires forall i :: 0 <= i < |lines| ==> !Stays(lines[i], names)
    ensures KeptLines(lines, names) == []
  {
    if lines != [] {
      KeptLinesNone(lines[..|lines| - 1], names);
    }
  }

  /** The loop of `_stop_service` over the PID file: the lines written back and the PIDs killed. */
  method FilterPidLines(lines: seq<string>, names: seq<string>) returns (kept: seq<string>, pids: seq<string>)
    ensures kept == KeptLines(lines, names)
    ensures pids == KilledPids(lines, names)
  {
    kept, pids := [], [];
    var i := 0;
    while i < |lines|
      invariant 0 <= i <= |lines|
      invariant kept == KeptLines(lines[..i], names)
      invariant pids == KilledPids(lines[..i], names)
    {
      assert lines[..i + 1][..i] == lines[..i];
      match SplitWord(lines[i]) {
        case None =>
          kept := kept + [lines[i]];
        case Some(p) =>
          if p.1 in names {
            pids := pids + [p.0];
          } else {
            kept := kept + [lines[i]];
          }
      }
      i := i + 1;
    }
    assert lines[..|lines|] == lines;
  }

  // -------------------------------------------------------------- starting

  /** What `Popen` (with its log file) gave for one command: a PID, or the error it raised. */
  datatype Spawn = Spawned(pid: nat) | SpawnFailed(error: string)

  /** The start loop: the PID lines written, the names started, and the failure message if one command failed. */
  datatype Launch = Launch(lines: seq<string>, started: seq<string>, failed: Option<string>)

  function Launched(cmds: seq<Command>, spawn: Command -> Spawn): Launch
  {
    if cmds == [] then Launch([], [], None)
    else
      match spawn(cmds[0])
      case SpawnFailed(e) => Launch([], [], Some("Failed to start " + cmds[0].name + ": " + e))
      case Spawned(pid) =>
        var rest := Launched(cmds[1..], spawn);
        Launch([PidLine(pid, cmds[0].name)] + rest.lines, [cmds[0].name] + rest.started, rest.failed)
  }

  /** A launch that first wrote `lines` and started `started`, then went on as `rest`. */
  function After(lines: seq<string>, started: seq<string>, rest: Launch): Launch
  {
    Launch(lines + rest.lines, started + rest.started, rest.failed)
  }

  lemma LaunchedStep(cmds: seq<Command>, i: nat, spawn: Command -> Spawn)
    requires i < |cmds| && spawn(cmds[i]).Spawned?
    ensures Launched(cmds[i..], spawn)
      == After([PidLine(spawn(cmds[i]).pid, cmds[i].name)], [cmds[i].name], Launched(cmds[i + 1..], spawn))
  {
    assert cmds[i..][1..] == cmds[i + 1..];
  }

  lemma AfterAfter(lines: seq<string>, started: seq<string>, lines2: seq<string>, started2: seq<string>, rest: Launch)
    ensures After(lines, started, After(lines2, started2, rest)) == After(lines + lines2, started + started2, rest)
  {
    assert lines + (lines2 + rest.lines) == (lines + lines2) + rest.lines;
    assert started + (started2 + rest.started) == (started + started2) + rest.started;
  }

  /** The start loop of `_start_service`: start each command in turn, stop at the first failure. */
  method LaunchAll(cmds: seq<Command>, spawn: Command -> Spawn) returns (l: Launch)
    ensures l == Launched(cmds, spawn)
  {
    var lines: seq<string> := [];
    var started: seq<string> := [];
    var i := 0;
    assert cmds[0..] == cmds;
    assert lines + Launched(cmds, spawn).lines == Launched(cmds, spawn).lines;
    assert started + Launched(cmds, spawn).started == Launched(cmds, spawn).started;
    while i < |cmds|
      invariant 0 <= i <= |cmds|
      invariant Launched(cmds, spawn) == After(lines, started, Launched(cmds[i..], spawn))
    {
      match spawn(cmds[i]) {
        case SpawnFailed(e) =>
          assert lines + [] == lines && started + [] == started;
          return Launch(lines, started, Some("Failed to start " + cmds[i].name + ": " + e));
        case Spawned(pid) =>
          var line := PidLine(pid, cmds[i].name);
          LaunchedStep(cmds, i, spawn);
          AfterAfter(lines, started, [line], [cmds[i].name], Launched(cmds[i + 1..], spawn));
          lines := lines + [line];
          started := started + [cmds[i].name];
      }
      i := i + 1;
    }
    assert cmds[i..] == [];
    assert lines + [] == lines && started + [] == started;
    return Launch(lines, started, None);
  }

  /**
   * The loop starts a prefix of the commands: one PID line per command
   * started, and all of them exactly when nothing failed.
   */
  lemma {:induction false} LaunchedPrefix(cmds: seq<Command>, spawn: Command -> Spawn)
    ensures var l := Launched(cmds, spawn);
      |l.lines| == |l.started| <= |cmds|
      && l.started == CommandNames(cmds[..|l.started|])
      && (l.failed.None? <==> |l.started| == |cmds|)
  {
    if cmds != [] && spawn(cmds[0]).Spawned? {
      LaunchedPrefix(cmds[1..], spawn);
      var l := Launched(cmds, spawn);
      var r := Launched(cmds[1..], spawn);
      assert cmds[..|l.started|] == [cmds[0]] + cmds[1..][..|r.started|];
    }
  }

  /** Every command started was spawned, and its PID line names it with the PID it got. */
  lemma {:induction false} LaunchedLines(cmds: seq<Command>, spawn: Command -> Spawn)
    ensures var l := Launched(cmds, spawn);
      forall k :: 0 <= k < |l.lines| ==>
        k < |cmds| && spawn(cmds[k]).Spawned? && l.lines[k] == PidLine(spawn(cmds[k]).pid, cmds[k].name)
  {
    if cmds != [] && spawn(cmds[0]).Spawned? {
      LaunchedLines(cmds[1..], spawn);
      var l := Launched(cmds, spawn);
      var r := Launched(cmds[1..], spawn);
      assert l.lines == [PidLine(spawn(cmds[0]).pid, cmds[0].name)] + r.lines;
      forall k | 0 <= k < |l.lines|
        ensures k < |cmds| && spawn(cmds[k]).Spawned? && l.lines[k] == PidLine(spawn(cmds[k]).pid, cmds[k].name)
      {
        if k > 0 {
          assert l.lines[k] == r.lines[k - 1];
          assert cmds[k] == cmds[1..][k - 1];
        }
      }
    }
  }

  /** A failed start names the first command that failed and its error; nothing after it was tried. */
  lemma {:induction false} LaunchedFailure(cmds: seq<Command>, spawn: Command -> Spawn)
    ensures var l := Launched(cmds, spawn);
      l.failed.Some? ==>
        |l.started| < |cmds|
        && spawn(cmds[|l.started|]).SpawnFailed?
        && l.failed.value == "Failed to start " + cmds[|l.started|].name + ": " + spawn(cmds[|l.started|]).error
  {
    if cmds != [] && spawn(cmds[0]).Spawned? {
      LaunchedFailure(cmds[1..], spawn);
      var l := Launched(cmds, spawn);
      var r := Launched(cmds[1..], spawn);
      assert |l.started| == 1 + |r.started|;
      if l.failed.Some? {
        assert cmds[|l.started|] == cmds[1..][|r.started|];
      }
    }
  }

  /** The PID file after stopping the processes named `names`: their lines are gone. */
  function StoppedFile(file: Option<seq<string>>, names: seq<string>): Option<seq<string>>
  {
    if file.Some? then Some(KeptLines(file.value, names)) else None
  }

  /** The PIDs stopping the processes named `names` kills: none without a PID file. */
  function StoppedPids(file: Option<seq<string>>, names: seq<string>): seq<string>
  {
    if file.Some? then KilledPids(file.value, names) else []
  }

  /** A file that gets lines appended: created by the first append. */
  function Appended(file: Option<seq<string>>, lines: seq<string>): Option<seq<string>>
  {
    if lines == [] then file else Some((if file.Some? then file.value else []) + lines)
  }

  /** Filtering out `names` removes every PID line of a launch whose commands all carry one of them. */
  lemma StopRemovesLaunched(cmds: seq<Command>, spawn: Command -> Spawn, names: seq<string>, before: seq<string>)
    requires forall i :: 0 <= i < |cmds| ==> cmds[i].name in names && Word(cmds[i].name)
    ensures KeptLines(before + Launched(cmds, spawn).lines, names) == KeptLines(before, names)
  {
    LaunchedLines(cmds, spawn);
    var l := Launched(cmds, spawn);
    forall k | 0 <= k < |l.lines| ensures !Stays(l.lines[k], names) {
      var line := l.lines[k];
      assert k < |cmds| && line == PidLine(spawn(cmds[k]).pid, cmds[k].name);
      PidLineSplit(spawn(cmds[k]).pid, cmds[k].name);
    }
    KeptLinesNone(l.lines, names);
    KeptLinesAppend(before, l.lines, names);
    assert KeptLines(before, names) + [] == KeptLines(before, names);
  }

  /**
   * Stopping a service right after starting it removes every PID line the
   * start wrote and leaves the older lines as stopping alone would.
   */
  lemma StopUndoesStart(root: string, embeddingWorker: bool, sid: string, spawn: Command -> Spawn, before: seq<string>)
    requires StopInfo(sid).Some?
    ensures StartCommands(root, embeddingWorker, sid).Some?
    ensures var l := Launched(StartCommands(root, embeddingWorker, sid).value, spawn);
      KeptLines(before + l.lines, StopInfo(sid).value.Names()) == KeptLines(before, StopInfo(sid).value.Names())
  {
    StartNamesStoppable(root, embeddingWorker, sid);
    StopRemovesLaunched(StartCommands(root, embeddingWorker, sid).value, spawn, StopInfo(sid).value.Names(), before);
  }

  // ------------------------------------------------------------ requests

  /** What `json.loads` returns. */
  datatype Json = JNull | JBool(b: bool) | JNum(x: real) | JStr(s: string) | JArr(items: seq<Json>) | JObj(fields: map<string, Json>)

  /** Python truthiness of a decoded JSON value. */
  predicate Truthy(v: Json)
  {
    match v
    case JNull => false
    case JBool(b) => b
    case JNum(x) => x != 0.0
    case JStr(s) => s != []
    case JArr(items) => items != []
    case JObj(fields) => fields != map[]
  }

  /** `_read_json_body`: `{}` when there is no body or it is not JSON; `parse` is `json.loads`. */
  function ReadJsonBody(contentLength: int, body: string, parse: string -> Option<Json>): (r: Json)
    ensures contentLength <= 0 ==> r == JObj(map[])
    ensures contentLength > 0 && parse(body).None? ==> r == JObj(map[])
    ensures contentLength > 0 && parse(body).Some? ==> r == parse(body).value
  {
    if contentLength <= 0 then JObj(map[])
    else match parse(body)
      case None => JObj(map[])
      case Some(v) => v
  }

  /** `body.get(k)` */
  function Get(fields: map<string, Json>, k: string): Json { if k in fields then fields[k] else JNull }

  /** The service id of a request: `NotAnObject` where `.get` raises, `BadId` where the endpoint answers 400. */
  datatype IdOf = NotAnObject | BadId | ServiceId(sid: string)

  /** `body.get("id") or body.get("service_id")`, checked and normalised with `strip().lower()`. */
  function RequestedId(body: Json): IdOf
  {
    match body
    case JObj(fields) =>
      var v := if Truthy(Get(fields, "id")) then Get(fields, "id") else Get(fields, "service_id");
      if !Truthy(v) || !v.JStr? then BadId else ServiceId(Lower(Trim(v.s)))
    case _ => NotAnObject
  }

  /**
   * A truthy `id` wins over `service_id` even when it is not a string; the
   * id used is a non-empty string, stripped and lower-cased, so normalising
   * it again changes nothing.
   */
  lemma RequestedIdSpec(body: Json)
    ensures RequestedId(body).NotAnObject? <==> !body.JObj?
    ensures body.JObj? && Truthy(Get(body.fields, "id")) ==>
      (Get(body.fields, "id").JStr? ==> RequestedId(body) == ServiceId(Lower(Trim(Get(body.fields, "id").s))))
      && (!Get(body.fields, "id").JStr? ==> RequestedId(body) == BadId)
    ensures body.JObj? && !Truthy(Get(body.fields, "id")) ==>
      (RequestedId(body).ServiceId? <==> Get(body.fields, "service_id").JStr? && Get(body.fields, "service_id").s != [])
    ensures RequestedId(body).ServiceId? ==> Lower(Trim(RequestedId(body).sid)) == RequestedId(body).sid
  {
    if RequestedId(body).ServiceId? {
      var v := if Truthy(Get(body.fields, "id")) then Get(body.fields, "id") else Get(body.fields, "service_id");
      var t := Trim(v.s);
      LowerTrim(t);
      TrimIdempotent(v.s);
      LowerIdempotent(t);
    }
  }

  /** A JSON reply to a POST, or none where the handler raised (a body that is not an object). */
  datatype Reply = Reply(code: int, ok: bool, message: string) | NoReply

  const BadIdMessage: string := "Missing or invalid 'id' in body"

  // ------------------------------------------------------------ the host

  /**
   * The machine the landing server runs on, as far as the server changes
   * it: the PID file (absent, or its lines with their newlines), the PIDs it
   * has sent `kill -9`, and the ports it has freed with `_kill_port`.
   */
  class Host {
    const root: string
    const embeddingWorker: bool
    var pidFile: Option<seq<string>>
    var killed: seq<string>
    var freedPorts: seq<int>

    constructor (root: string, embeddingWorker: bool, pidFile: Option<seq<string>>)
      ensures this.root == root && this.embeddingWorker == embeddingWorker
      ensures this.pidFile == pidFile && killed == [] && freedPorts == []
    {
      this.root := root;
      this.embeddingWorker := embeddingWorker;
      this.pidFile := pidFile;
      killed := [];
      freedPorts := [];
    }

    /**
     * `_stop_service`: an unknown id changes nothing; otherwise the PID file
     * loses the lines of the service's processes, whose PIDs are killed, and
     * the service's ports are freed.
     */
    method StopService(sid: string) returns (ok: bool, message: string)
      modifies this
      ensures StopInfo(sid).None? ==>
        !ok && message == "Unknown service: " + sid
        && pidFile == old(pidFile) && killed == old(killed) && freedPorts == old(freedPorts)
      ensures StopInfo(sid).Some? ==>
        var names := StopInfo(sid).value.Names();
        ok && message == "Stopped " + sid
        && pidFile == StoppedFile(old(pidFile), names)
        && killed == old(killed) + StoppedPids(old(pidFile), names)
        && freedPorts == old(freedPorts) + StopInfo(sid).value.ports
    {
      var info := StopInfo(sid);
      if info.None? {
        return false, "Unknown service: " + sid;
      }
      var names := info.value.Names();
      if pidFile.Some? {
        var kept, pids := FilterPidLines(pidFile.value, names);
        killed := killed + pids;
        pidFile := Some(kept);
      }
      freedPorts := freedPorts + info.value.ports;
      return true, "Stopped " + sid;
    }

    /**
     * `_start_service`: an unknown id, or a service with nothing to start,
     * changes nothing; otherwise the ports are freed and the commands are
     * started in order, each appending its PID line, up to the first failure.
     */
    method StartService(sid: string, spawn: Command -> Spawn) returns (ok: bool, message: string)
      modifies this
      ensures StopInfo(sid).None? ==>
        !ok && message == "Unknown service: " + sid
        && pidFile == old(pidFile) && killed == old(killed) && freedPorts == old(freedPorts)
      ensures StopInfo(sid).Some? && StartCommands(root, embeddingWorker, sid).value == [] ==>
        !ok && message == "No start commands for: " + sid + " (or component not present)"
        && pidFile == old(pidFile) && killed == old(killed) && freedPorts == old(freedPorts)
      ensures StopInfo(sid).Some? && StartCommands(root, embeddingWorker, sid).value != [] ==>
        var l := Launched(StartCommands(root, embeddingWorker, sid).value, spawn);
        freedPorts == old(freedPorts) + StopInfo(sid).value.ports
        && killed == old(killed)
        && pidFile == Appended(old(pidFile), l.lines)
        && ok == l.failed.None?
        && message == (if l.failed.Some? then l.failed.value else "Started " + sid + ": " + Join(l.started, ", "))
    {
      if StopInfo(sid).None? {
        return false, "Unknown service: " + sid;
      }
      StartMatchesStop(embeddingWorker, sid);
      var cmds := StartCommands(root, embeddingWorker, sid).value;
      if cmds == [] {
        return false, "No start commands for: " + sid + " (or component not present)";
      }
      freedPorts := freedPorts + StopInfo(sid).value.ports;
      var l := LaunchAll(cmds, spawn);
      pidFile := Appended(pidFile, l.lines);
      if l.failed.Some? {
        return false, l.failed.value;
      }
      return true, "Started " + sid + ": " + Join(l.started, ", ");
    }

    /** `_handle_service_stop` */
    method HandleServiceStop(body: Json) returns (reply: Reply)
      modifies this
      ensures RequestedId(body).NotAnObject? ==> reply == NoReply && unchanged(this)
      ensures RequestedId(body).BadId? ==> reply == Reply(400, false, BadIdMessage) && unchanged(this)
      ensures RequestedId(body).ServiceId? ==>
        var sid := RequestedId(body).sid;
        reply.Reply? && reply.code == 200
        && (reply.ok <==> StopInfo(sid).Some?)
        && (StopInfo(sid).None? ==>
              reply.message == "Unknown service: " + sid
              && pidFile == old(pidFile) && killed == old(killed) && freedPorts == old(freedPorts))
        && (StopInfo(sid).Some? ==>
              var names := StopInfo(sid).value.Names();
              reply.message == "Stopped " + sid
              && pidFile == StoppedFile(old(pidFile), names)
              && killed == old(killed) + StoppedPids(old(pidFile), names)
              && freedPorts == old(freedPorts) + StopInfo(sid).value.ports)
    {
      match RequestedId(body) {
        case NotAnObject => return NoReply;
        case BadId => return Reply(400, false, BadIdMessage);
        case ServiceId(sid) =>
          var ok, message := StopService(sid);
          return Reply(200, ok, message);
      }
    }

    /** `_handle_service_restart`: stop whatever the id names, then answer with the start's result. */
    method HandleServiceRestart(body: Json, spawn: Command -> Spawn) returns (reply: Reply)
      modifies this
      ensures RequestedId(body).NotAnObject? ==> reply == NoReply && unchanged(this)
      ensures RequestedId(body).BadId? ==> reply == Reply(400, false, BadIdMessage) && unchanged(this)
      ensures RequestedId(body).ServiceId? ==>
        var sid := RequestedId(body).sid;
        reply.Reply? && reply.code == 200
        && (reply.ok <==>
              StopInfo(sid).Some? && StartCommands(root, embeddingWorker, sid).value != []
              && Launched(StartCommands(root, embeddingWorker, sid).value, spawn).failed.None?)
        && (StopInfo(sid).None? ==>
              reply.message == "Unknown service: " + sid
              && pidFile == old(pidFile) && killed == old(killed) && freedPorts == old(freedPorts))
        && (StopInfo(sid).Some? && StartCommands(root, embeddingWorker, sid).value == [] ==>
              var names := StopInfo(sid).value.Names();
              reply.message == "No start commands for: " + sid + " (or component not present)"
              && pidFile == StoppedFile(old(pidFile), names)
              && killed == old(killed) + StoppedPids(old(pidFile), names)
              && freedPorts == old(freedPorts) + StopInfo(sid).value.ports)
        && (StopInfo(sid).Some? && StartCommands(root, embeddingWorker, sid).value != [] ==>
              var names := StopInfo(sid).value.Names();
              var l := Launched(StartCommands(root, embeddingWorker, sid).value, spawn);
              reply.message == (if l.failed.Some? then l.failed.value else "Started " + sid + ": " + Join(l.started, ", "))
              && pidFile == Appended(StoppedFile(old(pidFile), names), l.lines)
              && killed == old(killed) + StoppedPids(old(pidFile), names)
              && freedPorts == old(freedPorts) + StopInfo(sid).value.ports + StopInfo(sid).value.ports)
    {
      match RequestedId(body) {
        case NotAnObject => return NoReply;
        case BadId => return Reply(400, false, BadIdMessage);
        case ServiceId(sid) =>
          var _, _ := StopService(sid);
          var ok, message := StartService(sid, spawn);
          return Reply(200, ok, message);
      }
    }
  }

  // ------------------------------------------------------ script endpoints

  /** How `subprocess.run` ended: an exit code with both outputs, a timeout, or another exception. */
  datatype RunResult = Exited(code: int, stdout: string, stderr: string) | TimedOut | Failed(error: string)

  datatype ScriptReply = ScriptReply(code: int, ok: bool, message: string, output: string)

  /** `(stdout.strip() + "\n" + stderr.strip()).strip()` */
  function Output(stdout: string, stderr: string): string
  {
    Trim(Trim(stdout) + "\n" + Trim(stderr))
  }

  /**
   * The stop-all and start-all endpoints: 404 when the script is missing,
   * otherwise 200 with `ok` exactly when the script exited 0.
   */
  function ScriptEndpoint(present: bool, missing: string, success: string, failurePrefix: string, timedOut: string,
                          run: RunResult): (r: ScriptReply)
    ensures !present ==> r == ScriptReply(404, false, missing, "")
    ensures present ==> r.code == 200 && (r.ok <==> run.Exited? && run.code == 0)
    ensures present && run.Exited? ==>
      r.output == Output(run.stdout, run.stderr)
      && r.message == (if run.code == 0 then success else failurePrefix + IntToString(run.code))
  {
    if !present then ScriptReply(404, false, missing, "")
    else match run
      case Exited(code, out, err) =>
        ScriptReply(200, code == 0, if code == 0 then success else failurePrefix + IntToString(code), Output(out, err))
      case TimedOut => ScriptReply(200, false, timedOut, "")
      case Failed(e) => ScriptReply(200, false, e, "")
  }

  /** `_handle_stop_all` */
  function StopAll(scriptPresent: bool, run: RunResult): ScriptReply
  {
    ScriptEndpoint(scriptPresent, "scripts/stop_all_mobius.sh not found", "Stopped.",
                   "Stop script exited with code ", "Stop script timed out.", run)
  }

  /** `_handle_start_all` */
  function StartAll(mstartPresent: bool, run: RunResult): ScriptReply
  {
    ScriptEndpoint(mstartPresent, "mstart not found", "Started.", "mstart exited with code ", "Start timed out.", run)
  }

  /** The output is trimmed: it neither starts nor ends with whitespace. */
  lemma OutputTrimmed(stdout: string, stderr: string)
    ensures var o := Output(stdout, stderr); o == [] || (!IsSpace(o[0]) && !IsSpace(o[|o| - 1]))
  {
    TrimSpec(Trim(stdout) + "\n" + Trim(stderr));
  }

  datatype PostRoute = StopAllRoute | StartAllRoute | ServiceStopRoute | ServiceRestartRoute | NotFound

  /** `do_POST`: the four endpoints; any other path is a 404. */
  function PostRouteOf(path: string): PostRoute
  {
    if path == "/api/stop-all" then StopAllRoute
    else if path == "/api/start-all" then StartAllRoute
    else if path == "/api/service/stop" then ServiceStopRoute
    else if path == "/api/service/restart" then ServiceRestartRoute
    else NotFound
  }

  datatype GetRoute = StatusRoute | StaticFile(path: string)

  /** `do_GET`: the status endpoint, or a static file with `/` served as `/index.html`. */
  function GetRouteOf(path: string): (r: GetRoute)
    ensures r == StatusRoute <==> path == "/api/status"
    ensures r.StaticFile? && (path == "/" || path == "/index.html") ==> r.path == "/index.html"
    ensures r.StaticFile? && path != "/" ==> r.path == path
  {
    if path == "/api/status" then StatusRoute
    else if path == "/" || path == "/index.html" then StaticFile("/index.html")
    else StaticFile(path)
  }
}
