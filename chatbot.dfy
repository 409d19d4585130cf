/**
 * The Mobius chat test bot (mobius-chat-qa/chat_bot.py): the typing delay
 * it simulates, the framing of the server-sent-event stream it reads until
 * the answer is complete, the feedback it posts from the adjudicator's
 * verdict, and the statistics of its report.
 *
 * The HTTP calls, the clock and the JSON decoder are parameters: a stream
 * is a sequence of decoded chunks with one clock reading per chunk, and a
 * `data:` payload is handed to `parse`.
 */
module ChatBot {
  import opened Text
  import opened Sorting

  const FeedbackCommentMaxLength: nat := 500
  const SnippetLength: nat := 500
  const TypingCap: real := 30.0

  // ------------------------------------------------------------ typing_sleep

  /**
   * How long the bot pauses before sending `message`: nothing for a
   * non-positive delay, otherwise `delayMs` per character, capped at 30 s.
   */
  function TypingDelay(message: string, delayMs: int): (r: Option<real>)
    ensures r.None? <==> delayMs <= 0
    ensures r.Some? ==> 0.0 <= r.value <= TypingCap
    ensures r.Some? && ((delayMs * |message|) as real) < 1000.0 * TypingCap ==>
      r.value * 1000.0 == (delayMs * |message|) as real
    ensures r.Some? && ((delayMs * |message|) as real) >= 1000.0 * TypingCap ==> r.value == TypingCap
  {
    if delayMs <= 0 then None
    else
      var d := (delayMs * |message|) as real / 1000.0;
      Some(if d < TypingCap then d else TypingCap)
  }

  /** A longer message never waits less. */
  lemma TypingDelayMonotone(a: string, b: string, delayMs: int)
    requires delayMs > 0 && |a| <= |b|
    ensures TypingDelay(a, delayMs).value <= TypingDelay(b, delayMs).value
  {
    assert delayMs * |a| <= delayMs * |b| by {
      assert delayMs * |b| - delayMs * |a| == delayMs * (|b| - |a|);
    }
  }

  // ------------------------------------------------------ event-stream framing

  const Separator := "\n\n"
  const DataPrefix := "data: "

  /** A blank line (`"\n\n"`) starts at `k`. */
  predicate SepAt(s: string, k: int)
  {
    0 <= k && k + 1 < |s| && s[k] == '\n' && s[k + 1] == '\n'
  }

  predicate NoSep(s: string)
  {
    forall k :: 0 <= k < |s| ==> !SepAt(s, k)
  }

  /** The first blank line at or after `i`. */
  function FindSep(s: string, i: nat): (r: Option<nat>)
    ensures r.Some? ==> i <= r.value && SepAt(s, r.value)
    ensures r.Some? ==> forall k :: i <= k < r.value ==> !SepAt(s, k)
    ensures r.None? ==> forall k :: i <= k ==> !SepAt(s, k)
    decreases |s| - i
  {
    if i + 1 >= |s| then None
    else if s[i] == '\n' && s[i + 1] == '\n' then Some(i)
    else FindSep(s, i + 1)
  }

  /** Event blocks read off a buffer, and what is left waiting for its blank line. */
  datatype Framed = Framed(blocks: seq<string>, rest: string)

  /** Cut `s` at every blank line, leftmost first, as the bot's `partition` loop does. */
  function Frames(s: string): (f: Framed)
    ensures |f.rest| <= |s|
    decreases |s|
  {
    match FindSep(s, 0)
    case None => Framed([], s)
    case Some(i) =>
      var f := Frames(s[i + 2..]);
      Framed([s[..i]] + f.blocks, f.rest)
  }

  /** No block and not the remainder holds a blank line. */
  lemma {:induction false} FramesClean(s: string)
    ensures NoSep(Frames(s).rest)
    ensures forall j :: 0 <= j < |Frames(s).blocks| ==> NoSep(Frames(s).blocks[j])
    decreases |s|
  {
    match FindSep(s, 0)
    case None =>
    case Some(i) =>
      FramesClean(s[i + 2..]);
      forall k | 0 <= k < i ensures !SepAt(s[..i], k) {
        assert !SepAt(s, k);
        assert k + 1 < i ==> s[..i][k] == s[k] && s[..i][k + 1] == s[k + 1];
      }
      var f := Frames(s[i + 2..]);
      assert Frames(s).blocks == [s[..i]] + f.blocks;
      forall j | 0 <= j < |Frames(s).blocks| ensures NoSep(Frames(s).blocks[j]) {
        if j > 0 { assert Frames(s).blocks[j] == f.blocks[j - 1]; }
      }
  }

  /** The blocks and the remainder, joined back with the separators, give the buffer. */
  lemma {:induction false} FramesJoin(s: string)
    ensures Join(Frames(s).blocks + [Frames(s).rest], Separator) == s
    decreases |s|
  {
    if FindSep(s, 0).Some? {
      var i := FindSep(s, 0).value;
      var t := s[i + 2..];
      FramesJoin(t);
      FramesStep(s, i);
      var f := Frames(t);
      JoinCons(s[..i], f.blocks + [f.rest]);
      assert Frames(s).blocks + [Frames(s).rest] == [s[..i]] + (f.blocks + [f.rest]);
      SplitAtSep(s, i);
    }
  }

  lemma JoinCons(x: string, rest: seq<string>)
    requires rest != []
    ensures Join([x] + rest, Separator) == x + Separator + Join(rest, Separator)
  {
    assert ([x] + rest)[1..] == rest;
  }

  lemma SplitAtSep(s: string, i: nat)
    requires SepAt(s, i)
    ensures s == s[..i] + Separator + s[i + 2..]
  {
  }

  /** A blank line found in `s` is still the first one after more text arrives. */
  lemma FindSepAppend(s: string, c: string, j: nat)
    requires FindSep(s, j).Some?
    ensures FindSep(s + c, j) == FindSep(s, j)
  {
    var r := FindSep(s, j).value;
    assert SepAt(s + c, r);
    forall k | j <= k < r ensures !SepAt(s + c, k) {
      assert !SepAt(s, k);
    }
  }

  /**
   * Framing is incremental: after a chunk `c` arrives, the blocks are the
   * ones already cut from `s` followed by those cut from the remainder
   * plus `c`.
   */
  lemma {:induction false} FramesAppend(s: string, c: string)
    ensures var g := Frames(Frames(s).rest + c);
      Frames(s + c) == Framed(Frames(s).blocks + g.blocks, g.rest)
    decreases |s|
  {
    if FindSep(s, 0).Some? {
      var i := FindSep(s, 0).value;
      var t := s[i + 2..];
      FramesAppend(t, c);
      FramesStep(s, i);
      FramesAppendStep(s, c, i);
      var f := Frames(t);
      var g := Frames(f.rest + c);
      ConsAssoc(s[..i], f.blocks, g.blocks);
    } else {
      FramesNone(s);
      var h := Frames(s + c);
      assert [] + h.blocks == h.blocks;
    }
  }

  lemma ConsAssoc(x: string, a: seq<string>, b: seq<string>)
    ensures [x] + (a + b) == ([x] + a) + b
  {
  }

  lemma FramesNone(s: string)
    requires FindSep(s, 0).None?
    ensures Frames(s) == Framed([], s)
  {
  }

  /** One step of the framing: the first block, then the framing of what follows its blank line. */
  lemma FramesStep(s: string, i: nat)
    requires FindSep(s, 0) == Some(i)
    ensures Frames(s) == Framed([s[..i]] + Frames(s[i + 2..]).blocks, Frames(s[i + 2..]).rest)
  {
  }

  /** The first block of `s` is also the first block once `c` is appended. */
  lemma FramesAppendStep(s: string, c: string, i: nat)
    requires FindSep(s, 0) == Some(i)
    ensures Frames(s + c) == Framed([s[..i]] + Frames(s[i + 2..] + c).blocks, Frames(s[i + 2..] + c).rest)
  {
    FindSepAppend(s, c, 0);
    assert (s + c)[i + 2..] == s[i + 2..] + c;
    assert (s + c)[..i] == s[..i];
    FramesStep(s + c, i);
  }

  // -------------------------------------------------------------- data lines

  /** `s.split("\n")`: the pieces between line feeds; there is always one. */
  function SplitNl(s: string): (r: seq<string>)
    ensures |r| >= 1
    ensures forall j :: 0 <= j < |r| ==> '\n' !in r[j]
    decreases |s|
  {
    if '\n' !in s then [s]
    else
      var i := IndexOf(s, '\n');
      [s[..i]] + SplitNl(s[i + 1..])
  }

  /** Joining the pieces with line feeds gives the text back. */
  lemma {:induction false} SplitNlJoin(s: string)
    ensures Join(SplitNl(s), "\n") == s
    decreases |s|
  {
    if '\n' in s {
      var i := IndexOf(s, '\n');
      SplitNlJoin(s[i + 1..]);
      var r := SplitNl(s[i + 1..]);
      assert SplitNl(s)[1..] == r;
      assert s == s[..i] + "\n" + s[i + 1..];
    }
  }

  /** The payload of a line that, stripped, starts with `data: `; the payload is stripped too. */
  function Payload(line: string): (r: Option<string>)
    ensures r.Some? <==> IsPrefix(DataPrefix, Trim(line))
    ensures r.Some? ==> r.value == Trim(Trim(line)[|DataPrefix|..])
  {
    var l := Trim(line);
    if IsPrefix(DataPrefix, l) then Some(Trim(l[|DataPrefix|..])) else None
  }

  /** What the body of an event is. */
  datatype ResponseData = ResponseData(message: Option<string>)

  /**
   * What decoding a payload yields: text that is not JSON, JSON that is
   * not an object (its `.get` raises), or an object with its `event` and
   * `data` members (an absent or falsy `data` is `None`).
   */
  datatype Parsed = Malformed | NonObject | Object(event: Option<string>, data: Option<ResponseData>)

  /** The events of a block, one per `data:` line, in order. */
  function LineEvents(lines: seq<string>, parse: string -> Parsed): (evs: seq<Parsed>)
    ensures |evs| <= |lines|
    decreases |lines|
  {
    if lines == [] then []
    else
      var n := |lines|;
      LineEvents(lines[..n - 1], parse) + (match Payload(lines[n - 1]) case Some(p) => [parse(p)] case None => [])
  }

  lemma {:induction false} LineEventsAppend(a: seq<string>, b: seq<string>, parse: string -> Parsed)
    ensures LineEvents(a + b, parse) == LineEvents(a, parse) + LineEvents(b, parse)
    decreases |b|
  {
    if b != [] {
      var n := |b|;
      assert (a + b)[..|a + b| - 1] == a + b[..n - 1];
      assert (a + b)[|a + b| - 1] == b[n - 1];
      LineEventsAppend(a, b[..n - 1], parse);
    } else {
      assert a + b == a;
    }
  }

  function BlockEvents(block: string, parse: string -> Parsed): seq<Parsed>
  {
    LineEvents(SplitNl(block), parse)
  }

  /** The events of a sequence of blocks, block by block. */
  function Events(blocks: seq<string>, parse: string -> Parsed): seq<Parsed>
    decreases |blocks|
  {
    if blocks == [] then []
    else
      var n := |blocks|;
      Events(blocks[..n - 1], parse) + BlockEvents(blocks[n - 1], parse)
  }

  lemma {:induction false} EventsAppend(a: seq<string>, b: seq<string>, parse: string -> Parsed)
    ensures Events(a + b, parse) == Events(a, parse) + Events(b, parse)
    decreases |b|
  {
    if b != [] {
      var n := |b|;
      assert (a + b)[..|a + b| - 1] == a + b[..n - 1];
      assert (a + b)[|a + b| - 1] == b[n - 1];
      EventsAppend(a, b[..n - 1], parse);
    } else {
      assert a + b == a;
    }
  }

  // ------------------------------------------------------ reacting to events

  /** While waiting, the time of the first "thinking" event, if any; or how the wait ended. */
  datatype Status =
    | Waiting(firstAt: Option<real>)
    | Finished(data: ResponseData, tFirst: real, tTotal: real)
    | Crashed

  predicate IsThinking(ev: Parsed) { ev.Object? && ev.event == Some("thinking") }

  /** An event that ends the wait: the end of the answer, or a payload whose `.get` raises. */
  predicate Decisive(ev: Parsed)
  {
    ev.NonObject? || (ev.Object? && ev.event == Some("completed"))
  }

  predicate HasThinking(evs: seq<Parsed>) { exists j :: 0 <= j < |evs| && IsThinking(evs[j]) }

  /** `ev.get("data") or {}` */
  function DataOr(d: Option<ResponseData>): ResponseData
  {
    if d.Some? then d.value else ResponseData(None)
  }

  /** One event, received at time `now`. */
  function Feed(st: Status, ev: Parsed, now: real): Status
  {
    if !st.Waiting? then st
    else
      match ev
      case Malformed => st
      case NonObject => Crashed
      case Object(event, data) =>
        var first := if event == Some("thinking") && st.firstAt.None? then Some(now) else st.firstAt;
        if event == Some("completed") then Finished(DataOr(data), if first.Some? then first.value else now, now)
        else Waiting(first)
  }

  function FeedAll(st: Status, evs: seq<Parsed>, now: real): Status
    decreases |evs|
  {
    if evs == [] then st else FeedAll(Feed(st, evs[0], now), evs[1..], now)
  }

  /** The position of the first decisive event, or the length when there is none. */
  function FirstDecisive(evs: seq<Parsed>): (i: nat)
    ensures i <= |evs|
    ensures i < |evs| ==> Decisive(evs[i])
    ensures forall j :: 0 <= j < i ==> !Decisive(evs[j])
    decreases |evs|
  {
    if evs == [] then 0
    else if Decisive(evs[0]) then 0
    else 1 + FirstDecisive(evs[1..])
  }

  lemma {:induction false} FeedAllAppend(st: Status, a: seq<Parsed>, b: seq<Parsed>, now: real)
    ensures FeedAll(st, a + b, now) == FeedAll(FeedAll(st, a, now), b, now)
    decreases |a|
  {
    if a != [] {
      assert (a + b)[0] == a[0];
      assert (a + b)[1..] == a[1..] + b;
      FeedAllAppend(Feed(st, a[0], now), a[1..], b, now);
    } else {
      assert a + b == b;
    }
  }

  /** Once the wait has ended, later events change nothing. */
  lemma {:induction false} FeedAllStays(st: Status, evs: seq<Parsed>, now: real)
    requires !st.Waiting?
    ensures FeedAll(st, evs, now) == st
    decreases |evs|
  {
    if evs != [] {
      FeedAllStays(st, evs[1..], now);
    }
  }

  lemma FeedAllStopped(st: Status, a: seq<Parsed>, b: seq<Parsed>, now: real)
    requires !FeedAll(st, a, now).Waiting?
    ensures FeedAll(st, a + b, now) == FeedAll(st, a, now)
  {
    FeedAllAppend(st, a, b, now);
    FeedAllStays(FeedAll(st, a, now), b, now);
  }

  /**
   * What a run of events does to a waiting bot: it keeps waiting exactly
   * when no event is decisive; the first decisive event decides: a
   * non-object crashes, "completed" returns its data at `now`; the first
   * "thinking" before it fixes the first-progress time, which is never
   * overwritten, and without one the first-progress time is `now`.
   */
  lemma {:induction false} FeedAllSpec(st: Status, evs: seq<Parsed>, now: real)
    requires st.Waiting?
    ensures var r := FeedAll(st, evs, now); var i := FirstDecisive(evs);
      (r.Waiting? <==> i == |evs|)
      && (r.Crashed? <==> i < |evs| && evs[i].NonObject?)
      && (r.Finished? ==> i < |evs| && evs[i].Object? && r.data == DataOr(evs[i].data) && r.tTotal == now)
      && (r.Finished? && st.firstAt.Some? ==> r.tFirst == st.firstAt.value)
      && (r.Finished? && st.firstAt.None? ==> r.tFirst == now)
      && (r.Waiting? && st.firstAt.Some? ==> r.firstAt == st.firstAt)
      && (r.Waiting? && st.firstAt.None? ==> r.firstAt == if HasThinking(evs) then Some(now) else None)
    decreases |evs|
  {
    if evs != [] {
      var s1 := Feed(st, evs[0], now);
      if s1.Waiting? {
        FeedAllSpec(s1, evs[1..], now);
        assert forall j :: 0 <= j < |evs[1..]| ==> evs[1..][j] == evs[j + 1];
        if st.firstAt.None? && s1.firstAt.None? {
          assert !IsThinking(evs[0]);
          assert HasThinking(evs) <==> HasThinking(evs[1..]) by {
            if HasThinking(evs) {
              var j :| 0 <= j < |evs| && IsThinking(evs[j]);
              assert IsThinking(evs[1..][j - 1]);
            }
          }
        }
      } else {
        FeedAllStays(s1, evs[1..], now);
      }
    }
  }

  /** Events after a decisive one do not change which event decides. */
  lemma {:induction false} FirstDecisivePrefix(a: seq<Parsed>, b: seq<Parsed>)
    ensures FirstDecisive(a) < |a| ==> FirstDecisive(a + b) == FirstDecisive(a)
    ensures FirstDecisive(a) == |a| ==> FirstDecisive(a + b) == |a| + FirstDecisive(b)
    decreases |a|
  {
    if a != [] {
      assert (a + b)[0] == a[0];
      assert (a + b)[1..] == a[1..] + b;
      FirstDecisivePrefix(a[1..], b);
    } else {
      assert a + b == b;
    }
  }

  // ------------------------------------------------------------ helper steps

  lemma FeedOne(st: Status, ev: Parsed, now: real)
    ensures FeedAll(st, [ev], now) == Feed(st, ev, now)
  {
    assert [ev][1..] == [];
  }

  /** The events of one more line. */
  lemma LineEventsStep(lines: seq<string>, i: nat, parse: string -> Parsed)
    requires i < |lines|
    ensures LineEvents(lines[..i + 1], parse)
      == LineEvents(lines[..i], parse) + (match Payload(lines[i]) case Some(p) => [parse(p)] case None => [])
  {
    assert lines[..i + 1][..i] == lines[..i];
  }

  /** A block stopped at line `k` has the outcome of its first `k` lines. */
  lemma LinesStopped(st: Status, lines: seq<string>, k: nat, parse: string -> Parsed, now: real)
    requires k <= |lines|
    requires !FeedAll(st, LineEvents(lines[..k], parse), now).Waiting?
    ensures FeedAll(st, LineEvents(lines, parse), now) == FeedAll(st, LineEvents(lines[..k], parse), now)
  {
    LineEventsAppend(lines[..k], lines[k..], parse);
    assert lines[..k] + lines[k..] == lines;
    FeedAllStopped(st, LineEvents(lines[..k], parse), LineEvents(lines[k..], parse), now);
  }

  /** What one more line does to the outcome of a block. */
  lemma LineFed(st: Status, lines: seq<string>, i: nat, parse: string -> Parsed, now: real)
    requires i < |lines|
    ensures FeedAll(st, LineEvents(lines[..i + 1], parse), now)
      == match Payload(lines[i])
         case Some(p) => Feed(FeedAll(st, LineEvents(lines[..i], parse), now), parse(p), now)
         case None => FeedAll(st, LineEvents(lines[..i], parse), now)
  {
    LineEventsStep(lines, i, parse);
    var a := LineEvents(lines[..i], parse);
    match Payload(lines[i])
    case Some(p) =>
      FeedAllAppend(st, a, [parse(p)], now);
      FeedOne(FeedAll(st, a, now), parse(p), now);
    case None =>
      assert a + [] == a;
  }

  lemma EventsStep(done: seq<string>, block: string, parse: string -> Parsed)
    ensures Events(done + [block], parse) == Events(done, parse) + BlockEvents(block, parse)
  {
    assert (done + [block])[..|done|] == done;
  }

  lemma SeqAssoc(a: seq<string>, b: seq<string>, c: seq<string>)
    ensures a + (b + c) == (a + b) + c
  {
  }

  // ------------------------------------------------------------ the stream loop

  /**
   * One decoded payload: a decoding error is skipped, a non-object raises,
   * the first "thinking" notes the time, and "completed" ends the wait
   * with its data.
   */
  method React(first0: Option<real>, ev: Parsed, now: real) returns (st: Status)
    ensures st == Feed(Waiting(first0), ev, now)
  {
    var first := first0;
    match ev {
      case Malformed =>
      case NonObject =>
        return Crashed;
      case Object(event, data) =>
        if event == Some("thinking") && first.None? {
          first := Some(now);
        }
        if event == Some("completed") {
          var tFirst := if first.Some? then first.value else now;
          return Finished(DataOr(data), tFirst, now);
        }
    }
    st := Waiting(first);
  }

  /**
   * One event block: every `data:` line is decoded and acted on in order,
   * and the block is left as soon as an event ends the wait.
   */
  method ProcessBlock(block: string, first0: Option<real>, now: real, parse: string -> Parsed) returns (st: Status)
    ensures st == FeedAll(Waiting(first0), BlockEvents(block, parse), now)
  {
    var lines := SplitNl(block);
    var first := first0;
    var i := 0;
    while i < |lines|
      invariant 0 <= i <= |lines|
      invariant FeedAll(Waiting(first0), LineEvents(lines[..i], parse), now) == Waiting(first)
    {
      LineFed(Waiting(first0), lines, i, parse, now);
      var line := Trim(lines[i]);
      if IsPrefix(DataPrefix, line) {
        var ev := parse(Trim(line[|DataPrefix|..]));
        st := React(first, ev, now);
        if !st.Waiting? {
          LinesStopped(Waiting(first0), lines, i + 1, parse, now);
          return;
        }
        first := st.firstAt;
      }
      i := i + 1;
    }
    assert lines[..i] == lines;
    st := Waiting(first);
  }

  /**
   * Cut every complete block off the front of the buffer and process it,
   * until no blank line is left or an event ends the wait.
   */
  method Drain(buffer: string, first0: Option<real>, now: real, parse: string -> Parsed) returns (rest: string, st: Status)
    ensures st == FeedAll(Waiting(first0), Events(Frames(buffer).blocks, parse), now)
    ensures st.Waiting? ==> rest == Frames(buffer).rest
  {
    rest := buffer;
    st := Waiting(first0);
    ghost var done: seq<string> := [];
    assert Frames(buffer) == Framed(done + Frames(rest).blocks, Frames(rest).rest);
    while FindSep(rest, 0).Some?
      invariant st.Waiting?
      invariant Frames(buffer) == Framed(done + Frames(rest).blocks, Frames(rest).rest)
      invariant st == FeedAll(Waiting(first0), Events(done, parse), now)
      decreases |rest|
    {
      var i := FindSep(rest, 0).value;
      var block := rest[..i];
      FramesStep(rest, i);
      SeqAssoc(done, [block], Frames(rest[i + 2..]).blocks);
      rest := rest[i + 2..];
      EventsStep(done, block, parse);
      FeedAllAppend(Waiting(first0), Events(done, parse), BlockEvents(block, parse), now);
      st := ProcessBlock(block, st.firstAt, now, parse);
      done := done + [block];
      if !st.Waiting? {
        EventsAppend(done, Frames(rest).blocks, parse);
        FeedAllStopped(Waiting(first0), Events(done, parse), Events(Frames(rest).blocks, parse), now);
        return;
      }
    }
    FramesNone(rest);
    assert done + [] == done;
  }

  // ------------------------------------------------------------ wait_sse

  /** The text received from a list of chunks. */
  function ConcatAll(chunks: seq<string>): string
    decreases |chunks|
  {
    if chunks == [] then [] else ConcatAll(chunks[..|chunks| - 1]) + chunks[|chunks| - 1]
  }

  lemma {:induction false} ConcatAllAppend(a: seq<string>, b: seq<string>)
    ensures ConcatAll(a + b) == ConcatAll(a) + ConcatAll(b)
    decreases |b|
  {
    if b != [] {
      var n := |b|;
      assert (a + b)[..|a + b| - 1] == a + b[..n - 1];
      assert (a + b)[|a + b| - 1] == b[n - 1];
      ConcatAllAppend(a, b[..n - 1]);
    } else {
      assert a + b == a;
    }
  }

  /** How many chunks are read before the clock, checked as each chunk arrives, passes `maxWait`. */
  function Cutoff(clock: seq<real>, maxWait: real): (n: nat)
    ensures n <= |clock|
    ensures forall k :: 0 <= k < n ==> clock[k] <= maxWait
    ensures n < |clock| ==> clock[n] > maxWait
    decreases |clock|
  {
    if clock == [] || clock[0] > maxWait then 0
    else 1 + Cutoff(clock[1..], maxWait)
  }

  /** The events of the complete blocks among the first `k` chunks. */
  ghost function EventsAt(chunks: seq<string>, k: nat, parse: string -> Parsed): seq<Parsed>
    requires k <= |chunks|
  {
    Events(Frames(ConcatAll(chunks[..k])).blocks, parse)
  }

  /** What one more chunk adds: the blocks it completes, cut from the old remainder plus the chunk. */
  lemma ChunkStep(chunks: seq<string>, k: nat, parse: string -> Parsed)
    requires k < |chunks|
    ensures var f := Frames(Frames(ConcatAll(chunks[..k])).rest + chunks[k]);
      Frames(ConcatAll(chunks[..k + 1])).rest == f.rest
      && EventsAt(chunks, k + 1, parse) == EventsAt(chunks, k, parse) + Events(f.blocks, parse)
  {
    assert chunks[..k + 1][..k] == chunks[..k];
    var s := ConcatAll(chunks[..k]);
    assert ConcatAll(chunks[..k + 1]) == s + chunks[k];
    FramesAppend(s, chunks[k]);
    EventsAppend(Frames(s).blocks, Frames(Frames(s).rest + chunks[k]).blocks, parse);
  }

  /** Events of earlier chunks come first among the events of later ones. */
  lemma EventsAtPrefix(chunks: seq<string>, k: nat, n: nat, parse: string -> Parsed)
    requires k <= n <= |chunks|
    ensures |EventsAt(chunks, k, parse)| <= |EventsAt(chunks, n, parse)|
    ensures EventsAt(chunks, n, parse)[..|EventsAt(chunks, k, parse)|] == EventsAt(chunks, k, parse)
  {
    var s := ConcatAll(chunks[..k]);
    var c := ConcatAll(chunks[k..n]);
    ConcatAllAppend(chunks[..k], chunks[k..n]);
    assert chunks[..k] + chunks[k..n] == chunks[..n];
    FramesAppend(s, c);
    var g := Frames(Frames(s).rest + c);
    EventsAppend(Frames(s).blocks, g.blocks, parse);
  }

  /** Once the first `k` chunks hold a decisive event, later chunks do not change which event decides. */
  lemma DecidedEarly(chunks: seq<string>, k: nat, n: nat, parse: string -> Parsed)
    requires k <= n <= |chunks|
    requires FirstDecisive(EventsAt(chunks, k, parse)) < |EventsAt(chunks, k, parse)|
    ensures var a := EventsAt(chunks, k, parse); var b := EventsAt(chunks, n, parse); var i := FirstDecisive(a);
      FirstDecisive(b) == i && i < |b| && b[i] == a[i] && b[..i] == a[..i]
  {
    EventsAtPrefix(chunks, k, n, parse);
    var a := EventsAt(chunks, k, parse);
    var b := EventsAt(chunks, n, parse);
    assert b == a + b[|a|..];
    FirstDecisivePrefix(a, b[|a|..]);
  }

  lemma HasThinkingAppend(a: seq<Parsed>, b: seq<Parsed>)
    ensures HasThinking(a + b) <==> HasThinking(a) || HasThinking(b)
  {
    if HasThinking(a + b) {
      var j :| 0 <= j < |a + b| && IsThinking((a + b)[j]);
      if j >= |a| { assert IsThinking(b[j - |a|]); }
    }
    if HasThinking(a) {
      var j :| 0 <= j < |a| && IsThinking(a[j]);
      assert IsThinking((a + b)[j]);
    }
    if HasThinking(b) {
      var j :| 0 <= j < |b| && IsThinking(b[j]);
      assert IsThinking((a + b)[|a| + j]);
    }
  }

  /** How the wait ended, as the bot reports it. */
  datatype SseOutcome =
    | Completed(data: ResponseData, tFirst: real, tTotal: real)
    | NoCompletion(tFirst: real, tTotal: real)
    | Crash

  /**
   * `st` is how the first decisive event of `evs` ends the wait: a
   * non-object crashes; "completed" finishes with its data, at one of the
   * `times`; its first-progress time is one of the `times` too, and is
   * the completion time unless a "thinking" event came before.
   */
  ghost predicate Decides(st: Status, evs: seq<Parsed>, times: seq<real>)
  {
    var i := FirstDecisive(evs);
    !st.Waiting? && i < |evs|
    && (st.Crashed? <==> evs[i].NonObject?)
    && (st.Finished? ==>
          evs[i].Object? && evs[i].event == Some("completed") && st.data == DataOr(evs[i].data)
          && st.tTotal in times && st.tFirst in times
          && (!HasThinking(evs[..i]) ==> st.tFirst == st.tTotal))
  }

  /**
   * The outcome of reading a stream: only chunks that arrive before the
   * clock passes `maxWait` count, and the first decisive event among their
   * complete blocks decides, at the arrival time of a chunk. Without one
   * the wait ends at `clockEnd`, and the first-progress time is the
   * arrival of a chunk with a "thinking" event, or 0 when there was none.
   */
  ghost predicate SseSpec(o: SseOutcome, chunks: seq<string>, clock: seq<real>, maxWait: real, clockEnd: real,
                          parse: string -> Parsed)
    requires |clock| == |chunks|
  {
    var n := Cutoff(clock, maxWait);
    var evs := EventsAt(chunks, n, parse);
    (o.Completed? ==> Decides(Finished(o.data, o.tFirst, o.tTotal), evs, clock[..n]))
    && (o.Crash? ==> Decides(Crashed, evs, clock[..n]))
    && (o.NoCompletion? ==>
          FirstDecisive(evs) == |evs| && o.tTotal == clockEnd
          && (HasThinking(evs) ==> o.tFirst in clock[..n])
          && (!HasThinking(evs) ==> o.tFirst == 0.0))
  }

  /** The three outcomes answer to the three ways the events can go. */
  lemma SseSpecCases(o: SseOutcome, chunks: seq<string>, clock: seq<real>, maxWait: real, clockEnd: real,
                     parse: string -> Parsed)
    requires |clock| == |chunks| && SseSpec(o, chunks, clock, maxWait, clockEnd, parse)
    ensures var evs := EventsAt(chunks, Cutoff(clock, maxWait), parse); var i := FirstDecisive(evs);
      (o.Crash? <==> i < |evs| && evs[i].NonObject?)
      && (o.Completed? <==> i < |evs| && evs[i].Object?)
      && (o.NoCompletion? <==> i == |evs|)
  {
  }

  /** The bookkeeping the stream loop keeps after `k` chunks. */
  ghost predicate StillWaiting(chunks: seq<string>, clock: seq<real>, k: nat, first: Option<real>, parse: string -> Parsed)
    requires k <= |chunks| == |clock|
  {
    var evs := EventsAt(chunks, k, parse);
    FirstDecisive(evs) == |evs|
    && (first.None? <==> !HasThinking(evs))
    && (first.Some? ==> first.value in clock[..k])
  }

  /** The outcome of feeding chunk `k` to a waiting loop. */
  lemma ChunkFed(chunks: seq<string>, clock: seq<real>, k: nat, first: Option<real>, parse: string -> Parsed, st: Status)
    requires k < |chunks| == |clock|
    requires StillWaiting(chunks, clock, k, first, parse)
    requires st == FeedAll(Waiting(first),
      Events(Frames(Frames(ConcatAll(chunks[..k])).rest + chunks[k]).blocks, parse), clock[k])
    ensures st.Waiting? ==> StillWaiting(chunks, clock, k + 1, st.firstAt, parse)
    ensures !st.Waiting? ==> Decides(st, EventsAt(chunks, k + 1, parse), clock[..k + 1])
  {
    ChunkStep(chunks, k, parse);
    var a := EventsAt(chunks, k, parse);
    var b := Events(Frames(Frames(ConcatAll(chunks[..k])).rest + chunks[k]).blocks, parse);
    var times := clock[..k + 1];
    assert times[k] == clock[k];
    assert forall x :: x in clock[..k] ==> x in times;
    if st.Waiting? {
      FedWaiting(a, b, first, clock[k], times, st);
    } else {
      FedStopped(a, b, first, clock[k], times, st);
    }
  }

  /** Events that end nothing keep the loop's bookkeeping. */
  lemma FedWaiting(a: seq<Parsed>, b: seq<Parsed>, first: Option<real>, now: real, times: seq<real>, st: Status)
    requires FirstDecisive(a) == |a| && (first.None? <==> !HasThinking(a))
    requires first.Some? ==> first.value in times
    requires now in times
    requires st == FeedAll(Waiting(first), b, now) && st.Waiting?
    ensures FirstDecisive(a + b) == |a + b|
    ensures st.firstAt.None? <==> !HasThinking(a + b)
    ensures st.firstAt.Some? ==> st.firstAt.value in times
  {
    FeedAllSpec(Waiting(first), b, now);
    FirstDecisivePrefix(a, b);
    HasThinkingAppend(a, b);
  }

  /** Events that end the wait decide it as the first decisive one says. */
  lemma FedStopped(a: seq<Parsed>, b: seq<Parsed>, first: Option<real>, now: real, times: seq<real>, st: Status)
    requires FirstDecisive(a) == |a| && (first.None? <==> !HasThinking(a))
    requires first.Some? ==> first.value in times
    requires now in times
    requires st == FeedAll(Waiting(first), b, now) && !st.Waiting?
    ensures Decides(st, a + b, times)
  {
    FeedAllSpec(Waiting(first), b, now);
    FirstDecisivePrefix(a, b);
    var j := FirstDecisive(b);
    var i := |a| + j;
    assert (a + b)[i] == b[j];
    if st.Finished? && first.Some? {
      assert (a + b)[..i] == a + b[..j];
      HasThinkingAppend(a, b[..j]);
    }
  }

  /** After a decisive chunk `k`, the outcome is that of the whole stream up to the cutoff. */
  lemma StoppedAt(chunks: seq<string>, clock: seq<real>, maxWait: real, clockEnd: real, k: nat,
                  parse: string -> Parsed, st: Status, o: SseOutcome)
    requires |chunks| == |clock| && k < Cutoff(clock, maxWait)
    requires Decides(st, EventsAt(chunks, k + 1, parse), clock[..k + 1])
    requires o == if st.Finished? then Completed(st.data, st.tFirst, st.tTotal) else Crash
    ensures SseSpec(o, chunks, clock, maxWait, clockEnd, parse)
  {
    var n := Cutoff(clock, maxWait);
    DecidedEarly(chunks, k + 1, n, parse);
    assert forall x :: x in clock[..k + 1] ==> x in clock[..n];
    assert Decides(st, EventsAt(chunks, n, parse), clock[..n]);
  }

  /** A loop still waiting at the cutoff ends without completion. */
  lemma EndedAt(chunks: seq<string>, clock: seq<real>, maxWait: real, clockEnd: real, k: nat,
                parse: string -> Parsed, first: Option<real>, o: SseOutcome)
    requires |chunks| == |clock| && k == Cutoff(clock, maxWait)
    requires StillWaiting(chunks, clock, k, first, parse)
    requires o == NoCompletion(if first.Some? then first.value else 0.0, clockEnd)
    ensures SseSpec(o, chunks, clock, maxWait, clockEnd, parse)
  {
  }

  /** Before any chunk: an empty buffer, and nothing decided or seen. */
  lemma NothingYet(chunks: seq<string>, clock: seq<real>, parse: string -> Parsed)
    requires |chunks| == |clock|
    ensures Frames(ConcatAll(chunks[..0])).rest == ""
    ensures StillWaiting(chunks, clock, 0, None, parse)
  {
    assert chunks[..0] == [];
    assert FindSep("", 0).None?;
    FramesNone("");
  }

  /**
   * Read the event stream: each chunk that arrives before the deadline is
   * appended to the buffer, whose complete blocks are processed at once.
   */
  method WaitSse(chunks: seq<string>, clock: seq<real>, maxWait: real, clockEnd: real, parse: string -> Parsed)
    returns (o: SseOutcome)
    requires |clock| == |chunks|
    ensures SseSpec(o, chunks, clock, maxWait, clockEnd, parse)
  {
    var buffer := "";
    var first: Option<real> := None;
    var i := 0;
    ghost var n := Cutoff(clock, maxWait);
    NothingYet(chunks, clock, parse);
    while i < |chunks|
      invariant i <= n
      invariant buffer == Frames(ConcatAll(chunks[..i])).rest
      invariant StillWaiting(chunks, clock, i, first, parse)
    {
      if clock[i] > maxWait {
        break;
      }
      assert i < n;
      var st;
      buffer, st := Drain(buffer + chunks[i], first, clock[i], parse);
      ChunkFed(chunks, clock, i, first, parse, st);
      ChunkStep(chunks, i, parse);
      if !st.Waiting? {
        o := if st.Finished? then Completed(st.data, st.tFirst, st.tTotal) else Crash;
        StoppedAt(chunks, clock, maxWait, clockEnd, i, parse, st, o);
        return;
      }
      first := st.firstAt;
      i := i + 1;
    }
    o := NoCompletion(if first.Some? then first.value else 0.0, clockEnd);
    EndedAt(chunks, clock, maxWait, clockEnd, i, parse, first, o);
  }

  /** What `wait_sse` hands back: the completed data (if any) and the two times; `None` when it raised. */
  function WaitedOf(o: SseOutcome): (w: Option<Waited>)
    ensures w.None? <==> o.Crash?
    ensures o.Completed? ==> w == Some(Waited(Some(o.data), o.tFirst, o.tTotal))
    ensures o.NoCompletion? ==> w == Some(Waited(None, o.tFirst, o.tTotal))
  {
    match o
    case Completed(d, f, t) => Some(Waited(Some(d), f, t))
    case NoCompletion(f, t) => Some(Waited(None, f, t))
    case Crash => None
  }

  // ------------------------------------------------------------ run_one

  const FeedbackCap := FeedbackCommentMaxLength
  const AdjudicatorError := "Adjudicator error: "
  const TimeoutError := "Timeout or no completed response"

  /** `post_feedback`'s comment: a non-empty comment longer than 500 characters is cut to 500. */
  function FeedbackComment(comment: Option<string>): (r: Option<string>)
    ensures r.None? <==> comment.None?
    ensures r.Some? ==> |r.value| <= FeedbackCap && IsPrefix(r.value, comment.value)
    ensures r.Some? && |comment.value| <= FeedbackCap ==> r == comment
  {
    if comment.Some? && comment.value != "" && |comment.value| > FeedbackCap then Some(comment.value[..FeedbackCap])
    else comment
  }

  /** The answer as the report shows it: up to 500 characters, with an ellipsis when cut. */
  function Snippet(message: string): (r: string)
    ensures |message| <= SnippetLength ==> r == message
    ensures |message| > SnippetLength ==> |r| == SnippetLength + 1 && r[..SnippetLength] == message[..SnippetLength]
    ensures |message| > SnippetLength ==> r[SnippetLength] == '\U{2026}'
  {
    if |message| > SnippetLength then message[..SnippetLength] + "\U{2026}" else message
  }

  /** One entry of the questions file. */
  datatype Question = Question(question: Option<string>, category: Option<string>, expectedAnswer: Option<string>,
                               shouldRefrain: bool, refrainPhrases: Option<seq<string>>)

  function QuestionText(q: Question): string { Trim(OrElse(q.question, "")) }
  function CategoryOf(q: Question): string { Trim(OrElse(q.category, "in_manual")) }

  /** A blank expected answer counts as none. */
  function ExpectedOf(q: Question): (r: Option<string>)
    ensures r.Some? ==> r.value != [] && r.value == Trim(OrElse(q.expectedAnswer, ""))
    ensures r.None? ==> Trim(OrElse(q.expectedAnswer, "")) == []
  {
    var e := Trim(OrElse(q.expectedAnswer, ""));
    if e == [] then None else Some(e)
  }

  /** A question that should be refused and lists no phrases gets an empty list. */
  function PhrasesOf(q: Question): (r: Option<seq<string>>)
    ensures q.refrainPhrases.Some? ==> r == q.refrainPhrases
    ensures q.refrainPhrases.None? ==> (r.Some? <==> q.shouldRefrain)
    ensures r.Some? && q.refrainPhrases.None? ==> r.value == []
  {
    if q.refrainPhrases.None? && q.shouldRefrain then Some([]) else q.refrainPhrases
  }

  /** The outcome of posting the question. */
  datatype ChatPost = Posted(correlationId: string) | PostFailed(error: string)
  /** What waiting for the answer returned. */
  datatype Waited = Waited(data: Option<ResponseData>, tFirst: real, tTotal: real)
  /** What the adjudicator is asked. */
  datatype Request = Request(question: string, category: string, expectedAnswer: Option<string>, shouldRefrain: bool,
                             refrainPhrases: Option<seq<string>>, actual: string)
  /** The adjudicator's answer, or the exception it raised. */
  datatype Verdict = Judged(isMatch: bool, reason: Option<string>) | JudgeFailed(error: string)
  /** What reading the feedback back returned: the stored record's rating, a 404, or an exception. */
  datatype Stored = Stored(rating: Option<string>) | NotFound | LookupFailed(error: string)
  datatype FeedbackBody = FeedbackBody(correlationId: string, rating: string, comment: Option<string>)

  /** The `status` of a run: "pending", "error", "timeout", "feedback_error" or "completed". */
  datatype RunStatus = Pending | ChatError | TimedOut | FeedbackError | Done

  /** One row of the report. */
  datatype RunResult = RunResult(
    question: string, category: string, correlationId: string, expectedAnswer: Option<string>,
    shouldRefrain: bool, snippet: string, isMatch: bool, reason: string, rating: string,
    feedbackValidated: bool, tFirst: real, tTotal: real, error: string, status: RunStatus)

  /** The answer text that is judged. */
  function ActualOf(w: Waited): string
    requires w.data.Some?
  {
    Trim(OrElse(w.data.value.message, ""))
  }

  function RequestOf(q: Question, w: Waited): Request
    requires w.data.Some?
  {
    Request(QuestionText(q), CategoryOf(q), ExpectedOf(q), q.shouldRefrain, PhrasesOf(q), ActualOf(w))
  }

  /** The match flag and the reason stored for a verdict: the reason cut to 500, or the exception. */
  function Judgement(v: Verdict): (r: (bool, string))
    ensures v.Judged? ==> r.0 == v.isMatch && r.1 == Take(OrElse(v.reason, ""), SnippetLength)
    ensures v.JudgeFailed? ==> !r.0 && r.1 == AdjudicatorError + v.error
  {
    match v
    case Judged(m, reason) => (m, Take(OrElse(reason, ""), SnippetLength))
    case JudgeFailed(e) => (false, AdjudicatorError + e)
  }

  function RatingOf(isMatch: bool): string { if isMatch then "up" else "down" }

  /**
   * Record the verdict, post the thumbs up or down (with the reason as
   * comment on a mismatch only) and read it back: the run is validated
   * exactly when the stored rating is the one posted.
   */
  method SubmitFeedback(result0: RunResult, verdict: Verdict, post: FeedbackBody -> Option<string>,
                        lookup: string -> Stored)
    returns (result: RunResult, sent: FeedbackBody)
    requires !result0.feedbackValidated
    ensures result == result0.(isMatch := result.isMatch, reason := result.reason, rating := result.rating,
      feedbackValidated := result.feedbackValidated, error := result.error, status := result.status)
    ensures result.isMatch == Judgement(verdict).0 && result.reason == Judgement(verdict).1
    ensures result.rating == RatingOf(result.isMatch)
    ensures sent == FeedbackBody(result0.correlationId, result.rating,
      FeedbackComment(if result.isMatch then None else Some(result.reason)))
    ensures post(sent).Some? ==>
      result.status == FeedbackError && result.error == result0.error + "; post_feedback: " + post(sent).value
    ensures post(sent).None? ==> result.status == Done
    ensures post(sent).None? && lookup(result0.correlationId).LookupFailed? ==>
      result.error == result0.error + "; get_feedback: " + lookup(result0.correlationId).error
    ensures post(sent).None? && !lookup(result0.correlationId).LookupFailed? ==> result.error == result0.error
    ensures result.feedbackValidated <==>
      result.status == Done && lookup(result0.correlationId) == Stored(Some(result.rating))
  {
    result := result0;
    match verdict {
      case Judged(m, reason) =>
        result := result.(isMatch := m, reason := Take(OrElse(reason, ""), SnippetLength));
      case JudgeFailed(e) =>
        result := result.(isMatch := false, reason := AdjudicatorError + e);
    }
    var rating := RatingOf(result.isMatch);
    result := result.(rating := rating);
    var comment := if !result.isMatch then Some(result.reason) else None;
    sent := FeedbackBody(result.correlationId, rating, FeedbackComment(comment));
    var postError := post(sent);
    if postError.Some? {
      result := result.(error := result.error + "; post_feedback: " + postError.value, status := FeedbackError);
      return;
    }
    var stored := lookup(result.correlationId);
    if stored.LookupFailed? {
      result := result.(error := result.error + "; get_feedback: " + stored.error);
    } else {
      result := result.(feedbackValidated := stored.Stored? && stored.rating == Some(rating));
    }
    result := result.(status := Done);
  }

  /** The integer nearest `x`, a tie going to the even one (Python's `round`). */
  function RoundHalfEven(x: real): (n: int)
    ensures -0.5 <= n as real - x <= 0.5
    ensures n as real - x == 0.5 || n as real - x == -0.5 ==> n % 2 == 0
  {
    var f := x.Floor;
    var d := x - f as real;
    if d < 0.5 then f else if d > 0.5 then f + 1 else if f % 2 == 0 then f else f + 1
  }

  /**
   * `round(t, 2)`: `t` to the nearest hundredth, a tie going to the even
   * hundredth. Times are reals here, so a float's binary representation
   * (which decides the ties Python sees) is not modelled.
   */
  function Round2(t: real): real
  {
    RoundHalfEven(t * 100.0) as real / 100.0
  }

  /** The rounded time is a whole number of hundredths within half a hundredth of `t`. */
  lemma Round2Near(t: real)
    ensures (Round2(t) * 100.0).Floor as real == Round2(t) * 100.0
    ensures -0.005 <= Round2(t) - t <= 0.005
  {
    var n := RoundHalfEven(t * 100.0);
    assert Round2(t) * 100.0 == n as real;
  }

  /**
   * A run shorter than five thousandths of a second is stored as `0.0`
   * and so leaves the latency figures; any longer one stays positive.
   */
  lemma {:induction false} Round2Positive(t: real)
    ensures Round2(t) > 0.0 <==> t > 0.005
  {
    var n := RoundHalfEven(t * 100.0);
    if t > 0.005 {
      assert t * 100.0 > 0.5;
      assert n as real >= t * 100.0 - 0.5 > 0.0;
    } else {
      assert n as real <= t * 100.0 + 0.5 <= 1.0;
    }
  }

  /**
   * Run one question: post it, wait for the answer (by the stream or by
   * polling), judge it, post a thumbs up or down, and read the feedback
   * back. `None` is an exception the bot does not catch (from the wait).
   * `sent` is the feedback request, when one was made.
   */
  method RunOne(q: Question, useSse: bool, chat: string -> ChatPost, sse: string -> Option<Waited>,
                poll: string -> Option<Waited>, judge: Request -> Verdict, post: FeedbackBody -> Option<string>,
                lookup: string -> Stored)
    returns (r: Option<RunResult>, sent: Option<FeedbackBody>)
    ensures r.Some? ==>
      (r.value.question == QuestionText(q) && r.value.category == CategoryOf(q)
       && r.value.expectedAnswer == ExpectedOf(q) && r.value.shouldRefrain == q.shouldRefrain)
    ensures chat(QuestionText(q)).PostFailed? ==>
      r.Some? && r.value.status == ChatError && r.value.error == chat(QuestionText(q)).error && sent.None?
    ensures chat(QuestionText(q)).Posted? ==>
      var cid := chat(QuestionText(q)).correlationId;
      var w := if useSse then sse(cid) else poll(cid);
      (r.None? <==> w.None?)
      && (r.Some? ==> r.value.correlationId == cid && r.value.tFirst == Round2(w.value.tFirst)
                      && r.value.tTotal == Round2(w.value.tTotal))
      && (r.Some? && w.value.data.None? ==> r.value.status == TimedOut && r.value.error == TimeoutError && sent.None?)
      && (r.Some? && w.value.data.Some? ==>
            r.value.snippet == Snippet(ActualOf(w.value))
            && r.value.isMatch == Judgement(judge(RequestOf(q, w.value))).0
            && r.value.reason == Judgement(judge(RequestOf(q, w.value))).1
            && sent.Some? && sent.value.correlationId == cid && r.value.status in {FeedbackError, Done})
    ensures r.Some? && r.value.status in {FeedbackError, Done} ==>
      r.value.rating == RatingOf(r.value.isMatch)
      && sent == Some(FeedbackBody(r.value.correlationId, r.value.rating,
                                   FeedbackComment(if r.value.isMatch then None else Some(r.value.reason))))
      && (r.value.status == FeedbackError <==> post(sent.value).Some?)
    ensures r.Some? ==> (r.value.feedbackValidated <==>
      r.value.status == Done && lookup(r.value.correlationId) == Stored(Some(r.value.rating)))
  {
    var question := QuestionText(q);
    var category := CategoryOf(q);
    var expected := ExpectedOf(q);
    var phrases := PhrasesOf(q);
    var result := RunResult(question, category, "", expected, q.shouldRefrain, "", false, "", "", false,
                            0.0, 0.0, "", Pending);
    sent := None;
    var posted := chat(question);
    if posted.PostFailed? {
      result := result.(error := posted.error, status := ChatError);
      return Some(result), sent;
    }
    var cid := posted.correlationId;
    result := result.(correlationId := cid);
    var waited := if useSse then sse(cid) else poll(cid);
    if waited.None? {
      return None, sent;
    }
    var w := waited.value;
    result := result.(tFirst := Round2(w.tFirst), tTotal := Round2(w.tTotal));
    if w.data.None? {
      result := result.(error := TimeoutError, status := TimedOut);
      return Some(result), sent;
    }
    var actual := Trim(OrElse(w.data.value.message, ""));
    result := result.(snippet := Snippet(actual));
    var verdict := judge(Request(question, category, expected, q.shouldRefrain, phrases, actual));
    var body;
    result, body := SubmitFeedback(result, verdict, post, lookup);
    sent := Some(body);
    r := Some(result);
  }

  // ------------------------------------------------------------ write_report

  /** `r.get("category") or "unknown"` */
  function CategoryKey(r: RunResult): string
  {
    if r.category == [] then "unknown" else r.category
  }

  /** A run whose completion time enters the latency figures. */
  predicate Timed(r: RunResult) { r.status == Done && r.tTotal > 0.0 }

  function RealLe(): (real, real) -> bool { (a: real, b: real) => a <= b }

  /** The completion times of the timed runs, in run order. */
  function CompletionTimes(results: seq<RunResult>): seq<real>
  {
    MapSeq(Filter(results, Timed), (r: RunResult) => r.tTotal)
  }

  /** `latencies.sort()` */
  function Latencies(results: seq<RunResult>): seq<real>
  {
    SortBy(CompletionTimes(results), RealLe())
  }

  /** The completion times are those of the timed runs. */
  lemma CompletionTimesMembers(results: seq<RunResult>)
    ensures forall x :: x in CompletionTimes(results) <==> exists r :: r in results && Timed(r) && r.tTotal == x
  {
    var f := Filter(results, Timed);
    var c := CompletionTimes(results);
    forall x ensures x in c <==> exists r :: r in results && Timed(r) && r.tTotal == x {
      if x in c {
        var k :| 0 <= k < |c| && c[k] == x;
        MapSeqAt(f, (r: RunResult) => r.tTotal, k);
        assert f[k] in f;
      }
      if exists r :: r in results && Timed(r) && r.tTotal == x {
        var r :| r in results && Timed(r) && r.tTotal == x;
        var k :| 0 <= k < |f| && f[k] == r;
        MapSeqAt(f, (r: RunResult) => r.tTotal, k);
      }
    }
  }

  /**
   * The latencies are the completion times of the completed runs that
   * took some time, each as often as it occurs, in ascending order.
   */
  lemma LatenciesSpec(results: seq<RunResult>)
    ensures SortedBy(Latencies(results), RealLe())
    ensures multiset(Latencies(results)) == multiset(CompletionTimes(results))
    ensures forall x :: x in Latencies(results) <==> exists r :: r in results && Timed(r) && r.tTotal == x
  {
    var c := CompletionTimes(results);
    assert TotalPreorder(RealLe());
    SortBySpec(c, RealLe());
    CompletionTimesMembers(results);
    forall x ensures x in Latencies(results) <==> x in c {
      assert x in Latencies(results) <==> x in multiset(Latencies(results));
      assert x in c <==> x in multiset(c);
    }
  }

  /** Every latency is positive. */
  lemma LatenciesPositive(results: seq<RunResult>)
    ensures forall x :: x in Latencies(results) ==> x > 0.0
  {
    LatenciesSpec(results);
  }

  /** `int(n * 0.95)` */
  function P95Index(n: nat): (k: nat)
    requires n > 0
    ensures k < n
  {
    (95 * n) / 100
  }

  /** The index is the largest whose share of the list is at most 95%. */
  lemma P95IndexBounds(n: nat)
    requires n > 0
    ensures 100 * P95Index(n) <= 95 * n < 100 * (P95Index(n) + 1)
  {
  }

  function Sum(l: seq<real>): real
    decreases |l|
  {
    if l == [] then 0.0 else Sum(l[..|l| - 1]) + l[|l| - 1]
  }

  /** `min(l)` */
  function MinOf(l: seq<real>): (m: real)
    requires l != []
    ensures m in l && forall k :: 0 <= k < |l| ==> m <= l[k]
    decreases |l|
  {
    if |l| == 1 then l[0]
    else
      var m := MinOf(l[1..]);
      assert forall k :: 1 <= k < |l| ==> l[k] == l[1..][k - 1];
      if l[0] <= m then l[0] else m
  }

  /** `max(l)` */
  function MaxOf(l: seq<real>): (m: real)
    requires l != []
    ensures m in l && forall k :: 0 <= k < |l| ==> l[k] <= m
    decreases |l|
  {
    if |l| == 1 then l[0]
    else
      var m := MaxOf(l[1..]);
      assert forall k :: 1 <= k < |l| ==> l[k] == l[1..][k - 1];
      if l[0] >= m then l[0] else m
  }

  datatype LatencyStats = LatencyStats(min: real, max: real, avg: real, p95: real)

  /** The latency figures of the report; all zero for no latencies. */
  function Stats(l: seq<real>): (s: LatencyStats)
    ensures l == [] ==> s == LatencyStats(0.0, 0.0, 0.0, 0.0)
    ensures l != [] ==> s.p95 == l[P95Index(|l|)]
  {
    if l == [] then LatencyStats(0.0, 0.0, 0.0, 0.0)
    else LatencyStats(MinOf(l), MaxOf(l), Sum(l) / (|l| as real), l[P95Index(|l|)])
  }

  /** A sum of values between `lo` and `hi` lies between `n·lo` and `n·hi`. */
  lemma {:induction false} SumBounds(l: seq<real>, lo: real, hi: real)
    requires forall k :: 0 <= k < |l| ==> lo <= l[k] <= hi
    ensures (|l| as real) * lo <= Sum(l) <= (|l| as real) * hi
    decreases |l|
  {
    if l != [] {
      var n := |l|;
      assert forall k :: 0 <= k < n - 1 ==> l[..n - 1][k] == l[k];
      SumBounds(l[..n - 1], lo, hi);
    }
  }

  /** An average of values between `lo` and `hi` lies between them. */
  lemma AverageBounds(total: real, n: real, lo: real, hi: real)
    requires n > 0.0 && n * lo <= total <= n * hi
    ensures lo <= total / n <= hi
  {
    assert total / n * n == total;
  }

  /** The average of values between `lo` and `hi` lies between them. */
  lemma AverageOfBounded(l: seq<real>, lo: real, hi: real)
    requires l != []
    requires forall k :: 0 <= k < |l| ==> lo <= l[k] <= hi
    ensures lo <= Sum(l) / (|l| as real) <= hi
  {
    SumBounds(l, lo, hi);
    AverageBounds(Sum(l), |l| as real, lo, hi);
  }

  /**
   * Minimum, average, 95th percentile and maximum come in that order, and
   * the minimum and maximum bound every latency.
   */
  lemma StatsOrdered(l: seq<real>)
    requires l != []
    ensures var s := Stats(l);
      s.min <= s.p95 <= s.max && s.min <= s.avg <= s.max
      && forall k :: 0 <= k < |l| ==> s.min <= l[k] <= s.max
  {
    var i := P95Index(|l|);
    assert Stats(l) == LatencyStats(MinOf(l), MaxOf(l), Sum(l) / (|l| as real), l[i]);
    AverageBetween(l);
  }

  lemma AverageBetween(l: seq<real>)
    requires l != []
    ensures MinOf(l) <= Sum(l) / (|l| as real) <= MaxOf(l)
  {
    AverageOfBounded(l, MinOf(l), MaxOf(l));
  }

  /** On the sorted latencies the percentile is at least every latency up to its index. */
  lemma P95AboveEarlier(l: seq<real>)
    requires l != [] && SortedBy(l, RealLe())
    ensures forall k :: 0 <= k <= P95Index(|l|) ==> l[k] <= Stats(l).p95
  {
    var i := P95Index(|l|);
    forall k | 0 <= k <= i ensures l[k] <= l[i] {
      if k < i {
        assert RealLe()(l[k], l[i]);
      }
    }
  }

  /** `completed`: runs whose status is "completed". */
  function CompletedCount(results: seq<RunResult>): nat { CountIf(results, (r: RunResult) => r.status == Done) }
  /** `matches`: runs the adjudicator accepted. */
  function MatchCount(results: seq<RunResult>): nat { CountIf(results, (r: RunResult) => r.isMatch) }

  function InCategory(results: seq<RunResult>, c: string): (rs: seq<RunResult>)
    ensures forall r :: r in rs <==> r in results && CategoryKey(r) == c
  {
    Filter(results, (r: RunResult) => CategoryKey(r) == c)
  }

  /** `in_manual_match` */
  function InManualMatch(results: seq<RunResult>): nat
  {
    CountIf(InCategory(results, "in_manual"), (r: RunResult) => r.isMatch)
  }

  /** `refrain_total = len(out_manual) + len(off_topic)` */
  function RefrainTotal(results: seq<RunResult>): nat
  {
    |InCategory(results, "out_of_manual")| + |InCategory(results, "off_topic")|
  }

  /** `refrain_match`: the accepted runs among `out_manual + off_topic`. */
  function RefrainMatch(results: seq<RunResult>): nat
  {
    CountIf(InCategory(results, "out_of_manual") + InCategory(results, "off_topic"), (r: RunResult) => r.isMatch)
  }

  /** The two refusal categories are disjoint, so together they never exceed the runs, and the matches among them never exceed their total. */
  lemma RefrainBounds(results: seq<RunResult>)
    ensures RefrainMatch(results) <= RefrainTotal(results) <= |results|
    ensures InManualMatch(results) <= |InCategory(results, "in_manual")|
  {
    var out := (r: RunResult) => CategoryKey(r) == "out_of_manual";
    var off := (r: RunResult) => CategoryKey(r) == "off_topic";
    CountIfDisjoint(results, out, off);
  }

  /** `failures`: runs that did not complete or were not accepted, in run order. */
  function Failures(results: seq<RunResult>): (fs: seq<RunResult>)
    ensures forall r :: r in fs <==> r in results && (r.status != Done || !r.isMatch)
  {
    Filter(results, (r: RunResult) => r.status != Done || !r.isMatch)
  }

  /** Every run is either a failure or a completed match. */
  lemma FailuresSplit(results: seq<RunResult>)
    ensures |Failures(results)| + CountIf(results, (r: RunResult) => r.status == Done && r.isMatch) == |results|
  {
    CountIfSplit(results, (r: RunResult) => r.status != Done || !r.isMatch, (r: RunResult) => r.status == Done && r.isMatch);
  }

  /** `_cell`: a pipe becomes a dash and a line feed a space, then the text is stripped. */
  function Cell(s: string): (r: string)
    ensures forall k :: 0 <= k < |r| ==> r[k] != '|' && r[k] != '\n'
    ensures (forall k :: 0 <= k < |s| ==> s[k] != '|' && s[k] != '\n') ==> r == Trim(s)
  {
    var t1 := ReplaceChar(s, '|', "-");
    var t2 := ReplaceChar(t1, '\n', " ");
    ReplaceCharSpec(s, '|', "-");
    ReplaceCharSpec(t1, '\n', " ");
    assert forall k :: 0 <= k < |t1| ==> t1[k] != '|';
    assert forall k :: 0 <= k < |t2| ==> t2[k] != '|' by {
      CellNoPipe(t1);
    }
    TrimChars(t2);
    Trim(t2)
  }

  /** Replacing line feeds by spaces brings in no pipe. */
  lemma {:induction false} CellNoPipe(t: string)
    requires forall k :: 0 <= k < |t| ==> t[k] != '|'
    ensures forall k :: 0 <= k < |ReplaceChar(t, '\n', " ")| ==> ReplaceChar(t, '\n', " ")[k] != '|'
    decreases |t|
  {
    if t != [] {
      assert forall k :: 0 <= k < |t[1..]| ==> t[1..][k] == t[k + 1];
      CellNoPipe(t[1..]);
      var head: string := if t[0] == '\n' then " " else [t[0]];
      var r := ReplaceChar(t, '\n', " ");
      var rest := ReplaceChar(t[1..], '\n', " ");
      assert r == head + rest;
      forall k | 0 <= k < |r| ensures r[k] != '|' {
        if k >= |head| { assert r[k] == rest[k - |head|]; }
      }
    }
  }
}
