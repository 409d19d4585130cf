/**
 * The email skill: address normalisation, the percent-encoded `mailto:`
 * link for the user's own mail client, the system send that tries the
 * Gmail API before SMTP, the skill wrappers and the HTTP endpoints
 * `/email/prepare`, `/email/send` and `/email/confirm`. The Gmail API, the
 * SMTP server and the LLM crafter are parameters; the settings read from
 * the environment are one `EmailConfig` value.
 */
module Email {
  import opened Text
  import opened Unicode

  // ------------------------------------------------------------ addresses

  /** A `to` or `cc` argument: `None`, one string, or a list of such arguments. */
  datatype Addr = Null | Str(s: string) | Many(items: seq<Addr>)

  /** The separator class of `re.split(r"[\s,;]+", s)`. */
  predicate IsSep(c: char) { IsSpace(c) || c == ',' || c == ';' }

  predicate NoSepIn(w: string) { forall k :: 0 <= k < |w| ==> !IsSep(w[k]) }

  /** The end of the run of non-separators that starts at `i`. */
  function RunEnd(s: string, i: nat): (j: nat)
    requires i <= |s|
    ensures i <= j <= |s| && (j < |s| ==> IsSep(s[j]))
    ensures forall k :: i <= k < j ==> !IsSep(s[k])
    decreases |s| - i
  {
    if i == |s| || IsSep(s[i]) then i else RunEnd(s, i + 1)
  }

  /** The end of the run of separators that starts at `i`. */
  function SepEnd(s: string, i: nat): (j: nat)
    requires i <= |s|
    ensures i <= j <= |s| && (j < |s| ==> !IsSep(s[j]))
    ensures forall k :: i <= k < j ==> IsSep(s[k])
    decreases |s| - i
  {
    if i == |s| || !IsSep(s[i]) then i else SepEnd(s, i + 1)
  }

  /**
   * `re.split(r"[\s,;]+", s[i..])`: the pieces between maximal runs of
   * separators, with an empty piece before a leading run and after a
   * trailing one.
   */
  function PiecesFrom(s: string, i: nat): (ps: seq<string>)
    requires i <= |s|
    ensures |ps| >= 1
    ensures forall k :: 0 <= k < |ps| ==> NoSepIn(ps[k])
    decreases |s| - i
  {
    var j := RunEnd(s, i);
    assert NoSepIn(s[i..j]) by {
      forall k | 0 <= k < j - i ensures !IsSep(s[i..j][k]) { assert s[i..j][k] == s[i + k]; }
    }
    if j == |s| then [s[i..]]
    else [s[i..j]] + PiecesFrom(s, SepEnd(s, j))
  }

  function Pieces(s: string): seq<string> { PiecesFrom(s, 0) }

  /**
   * `EMAIL_RE.match(w)` for `^[^\s@]+@[^\s@]+\.[^\s@]+$` on a text without
   * line breaks: no whitespace, one `@` with text before it, and a domain
   * with a dot that has text on both sides.
   */
  predicate IsEmail(w: string)
  {
    (forall k :: 0 <= k < |w| ==> !IsSpace(w[k]))
    && exists a :: 0 < a < |w| && w[a] == '@' && '@' !in w[..a] && DottedDomain(w[a + 1..])
  }

  predicate DottedDomain(d: string)
  {
    '@' !in d && exists k :: 1 <= k < |d| - 1 && d[k] == '.'
  }

  /** The condition of the comprehension: `a.strip() and EMAIL_RE.match(a.strip())`. */
  predicate Keep(w: string) { w != [] && IsEmail(w) }

  /** `_normalize_addresses` on a string: the stripped pieces that are addresses, in order. */
  function NormalizedText(s: string): (out: seq<string>)
    ensures forall k :: 0 <= k < |out| ==> Keep(out[k])
  {
    var t := Trim(s);
    if t == [] then [] else Filter(MapSeq(Pieces(t), Trim), Keep)
  }

  /** `_normalize_addresses`: lists are flattened in order, `None` and blank text give nothing. */
  function Normalized(addr: Addr): (out: seq<string>)
    ensures forall k :: 0 <= k < |out| ==> Keep(out[k])
    decreases addr, 1
  {
    match addr
    case Null => []
    case Str(s) => NormalizedText(s)
    case Many(items) => NormalizedAll(items)
  }

  function NormalizedAll(items: seq<Addr>): (out: seq<string>)
    ensures forall k :: 0 <= k < |out| ==> Keep(out[k])
    decreases items, 0
  {
    if items == [] then []
    else
      var a := NormalizedAll(items[..|items| - 1]);
      var b := Normalized(items[|items| - 1]);
      assert forall k :: |a| <= k < |a + b| ==> (a + b)[k] == b[k - |a|];
      a + b
  }

  /** `_normalize_addresses` with its `extend` loop over a list argument. */
  method NormalizeAddresses(addr: Addr) returns (out: seq<string>)
    ensures out == Normalized(addr)
    decreases addr
  {
    if !addr.Many? {
      return Normalized(addr);
    }
    var items := addr.items;
    out := [];
    var i := 0;
    while i < |items|
      invariant i <= |items|
      invariant out == NormalizedAll(items[..i])
    {
      assert items[..i + 1][..i] == items[..i];
      var part := NormalizeAddresses(items[i]);
      out := out + part;
      i := i + 1;
    }
    assert items[..i] == items;
  }

  /** A piece without separators has no whitespace to strip. */
  lemma TrimSepFree(p: string)
    requires NoSepIn(p)
    ensures Trim(p) == p
  {
    if p != [] {
      assert !IsSep(p[0]) && !IsSep(p[|p| - 1]);
      TrimLeftFixed(p);
      TrimRightFixed(p);
    }
  }

  lemma TrimPieces(ps: seq<string>)
    requires forall k :: 0 <= k < |ps| ==> NoSepIn(ps[k])
    ensures MapSeq(ps, Trim) == ps
  {
    forall k | 0 <= k < |ps| ensures MapSeq(ps, Trim)[k] == ps[k] {
      MapSeqAt(ps, Trim, k);
      TrimSepFree(ps[k]);
    }
  }

  /**
   * An address comes out of a string exactly when it is one of the pieces
   * between separators of the stripped string and matches the pattern.
   */
  lemma NormalizedTextMembers(s: string, w: string)
    ensures w in NormalizedText(s) <==> Keep(w) && w in Pieces(Trim(s))
  {
    var t := Trim(s);
    TrimPieces(Pieces(t));
    if t == [] {
      assert Pieces(t) == [t];
    }
  }

  /** No address that comes out holds a separator. */
  lemma {:induction false} NormalizedClean(addr: Addr)
    ensures forall k :: 0 <= k < |Normalized(addr)| ==> NoSepIn(Normalized(addr)[k])
    decreases addr, 1
  {
    match addr
    case Null =>
    case Str(s) =>
      forall k | 0 <= k < |NormalizedText(s)| ensures NoSepIn(NormalizedText(s)[k]) {
        var w := NormalizedText(s)[k];
        NormalizedTextMembers(s, w);
        var ps := Pieces(Trim(s));
        var j :| 0 <= j < |ps| && ps[j] == w;
      }
    case Many(items) => NormalizedAllClean(items);
  }

  lemma {:induction false} NormalizedAllClean(items: seq<Addr>)
    ensures forall k :: 0 <= k < |NormalizedAll(items)| ==> NoSepIn(NormalizedAll(items)[k])
    decreases items, 0
  {
    if items != [] {
      var a := NormalizedAll(items[..|items| - 1]);
      var b := Normalized(items[|items| - 1]);
      NormalizedAllClean(items[..|items| - 1]);
      NormalizedClean(items[|items| - 1]);
      assert NormalizedAll(items) == a + b;
      assert forall k :: |a| <= k < |a + b| ==> (a + b)[k] == b[k - |a|];
    }
  }

  /** Normalising a list of arguments is normalising each in turn, in order. */
  lemma {:induction false} NormalizedAllAppend(a: seq<Addr>, b: seq<Addr>)
    ensures NormalizedAll(a + b) == NormalizedAll(a) + NormalizedAll(b)
    decreases |b|
  {
    if b == [] {
      assert a + b == a;
    } else {
      var n := |b|;
      assert (a + b)[..|a + b| - 1] == a + b[..n - 1];
      assert (a + b)[|a + b| - 1] == b[n - 1];
      NormalizedAllAppend(a, b[..n - 1]);
    }
  }

  function StrOf(w: string): Addr { Str(w) }

  /** A list of strings as a `to`/`cc` argument. */
  function Addrs(ws: seq<string>): Addr { Many(MapSeq(ws, StrOf)) }

  /** A lone valid address normalises to itself. */
  lemma NormalizedOne(w: string)
    requires Keep(w) && NoSepIn(w)
    ensures Normalized(Str(w)) == [w]
  {
    TrimSepFree(w);
    var j := RunEnd(w, 0);
    assert j == |w|;
    assert w[0..] == w;
    assert Pieces(w) == [w];
    assert MapSeq([w], Trim) == [w];
    assert Filter([w], Keep) == [w];
  }

  lemma LastSplit<T>(xs: seq<T>)
    requires xs != []
    ensures xs[..|xs| - 1] + [xs[|xs| - 1]] == xs
  {
  }

  lemma {:induction false} NormalizedAllOwn(ws: seq<string>)
    requires forall k :: 0 <= k < |ws| ==> Keep(ws[k]) && NoSepIn(ws[k])
    ensures NormalizedAll(MapSeq(ws, StrOf)) == ws
    decreases |ws|
  {
    if ws != [] {
      var n := |ws|;
      var xs := MapSeq(ws, StrOf);
      assert xs[..n - 1] == MapSeq(ws[..n - 1], StrOf);
      assert xs[n - 1] == Str(ws[n - 1]);
      NormalizedAllOwn(ws[..n - 1]);
      NormalizedOne(ws[n - 1]);
      calc {
        NormalizedAll(xs);
        NormalizedAll(xs[..n - 1]) + Normalized(xs[n - 1]);
        ws[..n - 1] + [ws[n - 1]];
        { LastSplit(ws); }
        ws;
      }
    }
  }

  /** Normalising the output again changes nothing. */
  lemma NormalizedIdempotent(addr: Addr)
    ensures Normalized(Addrs(Normalized(addr))) == Normalized(addr)
  {
    NormalizedClean(addr);
    NormalizedAllOwn(Normalized(addr));
  }

  // ------------------------------------------------------- percent-encoding

  /** The bytes `quote` leaves alone: ASCII letters and digits, `_.-~` and the default safe `/`. */
  predicate SafeByte(b: byte)
  {
    0x41 <= b <= 0x5A || 0x61 <= b <= 0x7A || 0x30 <= b <= 0x39
    || b == 0x5F || b == 0x2E || b == 0x2D || b == 0x7E || b == 0x2F
  }

  function HexUpper(d: int): (c: char)
    requires 0 <= d < 16
    ensures HexDigit(c) == Some(d)
  {
    if d < 10 then ('0' as int + d) as char else ('A' as int + d - 10) as char
  }

  /** One byte as `quote` writes it: itself when safe, else `%XX` in upper-case hex. */
  function QuoteByte(b: byte): string
  {
    if SafeByte(b) then [b as int as char] else ['%', HexUpper(b as int / 16), HexUpper(b as int % 16)]
  }

  function QuoteBytes(bs: seq<byte>): string
    decreases |bs|
  {
    if bs == [] then [] else QuoteByte(bs[0]) + QuoteBytes(bs[1..])
  }

  /** `urllib.parse.quote(s)` */
  function Quote(s: string): string { QuoteBytes(Utf8(s)) }

  /** Percent-decoding to bytes: `%XX` is the byte XX, any other character its own code. */
  function PercentDecode(s: string): seq<byte>
    decreases |s|
  {
    if s == [] then []
    else if |s| >= 3 && s[0] == '%' && HexDigit(s[1]).Some? && HexDigit(s[2]).Some? then
      [(16 * HexDigit(s[1]).value + HexDigit(s[2]).value) as byte] + PercentDecode(s[3..])
    else [(s[0] as int % 256) as byte] + PercentDecode(s[1..])
  }

  lemma QuoteByteDecode(b: byte, rest: string)
    ensures PercentDecode(QuoteByte(b) + rest) == [b] + PercentDecode(rest)
  {
    var q := QuoteByte(b);
    if SafeByte(b) {
      assert (q + rest)[1..] == rest;
    } else {
      assert (q + rest)[3..] == rest;
    }
  }

  /** Percent-decoding undoes the quoting of any bytes. */
  lemma {:induction false} QuoteBytesDecode(bs: seq<byte>)
    ensures PercentDecode(QuoteBytes(bs)) == bs
    decreases |bs|
  {
    if bs != [] {
      QuoteBytesDecode(bs[1..]);
      QuoteByteDecode(bs[0], QuoteBytes(bs[1..]));
    }
  }

  /** So a quoted text decodes to the UTF-8 bytes of the text. */
  lemma QuoteDecode(s: string)
    ensures PercentDecode(Quote(s)) == Utf8(s)
  {
    QuoteBytesDecode(Utf8(s));
  }

  /** The characters a quoted text is made of: safe characters and `%`. */
  predicate UrlChar(c: char)
  {
    c == '%' || (c as int < 256 && SafeByte(c as int as byte))
  }

  lemma {:induction false} QuoteBytesClean(bs: seq<byte>)
    ensures forall k :: 0 <= k < |QuoteBytes(bs)| ==> UrlChar(QuoteBytes(bs)[k])
    decreases |bs|
  {
    if bs != [] {
      QuoteBytesClean(bs[1..]);
      var q := QuoteByte(bs[0]);
      var r := QuoteBytes(bs[1..]);
      assert forall k :: 0 <= k < |q| ==> UrlChar(q[k]);
      assert forall k :: |q| <= k < |q + r| ==> (q + r)[k] == r[k - |q|];
    }
  }

  /** A quoted text holds none of the delimiters of a `mailto:` link. */
  lemma QuoteClean(s: string)
    ensures forall k :: 0 <= k < |Quote(s)| ==> UrlChar(Quote(s)[k])
    ensures '&' !in Quote(s) && '?' !in Quote(s) && '=' !in Quote(s)
  {
    QuoteBytesClean(Utf8(s));
  }

  // -------------------------------------------------------------- mailto

  /** `str.split(d)` for a one-character delimiter. */
  function SplitOn(s: string, d: char): (ps: seq<string>)
    ensures |ps| >= 1
    decreases |s|
  {
    if d !in s then [s]
    else
      var i := IndexOf(s, d);
      [s[..i]] + SplitOn(s[i + 1..], d)
  }

  /** Splitting at a delimiter none of the parts holds gives the parts back. */
  lemma {:induction false} SplitOnJoin(xs: seq<string>, d: char)
    requires xs != []
    requires forall k :: 0 <= k < |xs| ==> d !in xs[k]
    ensures SplitOn(Join(xs, [d]), d) == xs
    decreases |xs|
  {
    if |xs| > 1 {
      var rest := Join(xs[1..], [d]);
      assert Join(xs, [d]) == xs[0] + [d] + rest;
      SplitOnCons(xs[0], rest, d);
      SplitOnJoin(xs[1..], d);
      assert xs == [xs[0]] + xs[1..];
    }
  }

  /** The first part of a split is everything before the first delimiter. */
  lemma SplitOnCons(x: string, rest: string, d: char)
    requires d !in x
    ensures SplitOn(x + [d] + rest, d) == [x] + SplitOn(rest, d)
  {
    var s := x + [d] + rest;
    assert s[|x|] == d;
    IndexOfPrefixFree(s, x, d);
    assert s[..|x|] == x && s[|x| + 1..] == rest;
  }

  lemma IndexOfPrefixFree(s: string, x: string, d: char)
    requires |x| < |s| && s[..|x|] == x && s[|x|] == d && d !in x
    ensures d in s && IndexOf(s, d) == |x|
  {
    IndexOfUnique(s, d, |x|);
  }

  /** `if to` on a `to`/`cc` argument. */
  predicate Truthy(a: Addr)
  {
    match a
    case Null => false
    case Str(s) => s != []
    case Many(items) => items != []
  }

  /** A falsy argument normalises to nothing, so `if to` only saves the work. */
  lemma FalsyNormalizesEmpty(a: Addr)
    requires !Truthy(a)
    ensures Normalized(a) == []
  {
    if a.Str? {
      assert Trim(a.s) == [];
    }
  }

  datatype Param = Param(name: string, value: string)

  /** `f"{name}={quote(value)}"` */
  function Render(p: Param): string { p.name + "=" + Quote(p.value) }

  function ParamRank(name: string): int { if name == "cc" then 0 else if name == "subject" then 1 else 2 }

  /** The query parameters of the link: `cc`, `subject`, `body`, each only when non-empty. */
  function MailtoParams(ccList: seq<string>, subject: string, body: string): (ps: seq<Param>)
    ensures Param("cc", Join(ccList, ",")) in ps <==> ccList != []
    ensures Param("subject", subject) in ps <==> subject != []
    ensures Param("body", body) in ps <==> body != []
    ensures forall i :: 0 <= i < |ps| ==> ps[i].name == "cc" || ps[i].name == "subject" || ps[i].name == "body"
    ensures forall i, j :: 0 <= i < j < |ps| ==> ParamRank(ps[i].name) < ParamRank(ps[j].name)
  {
    (if ccList != [] then [Param("cc", Join(ccList, ","))] else [])
    + (if subject != [] then [Param("subject", subject)] else [])
    + (if body != [] then [Param("body", body)] else [])
  }

  /** `build_mailto_url` */
  function BuildMailto(to: Addr, cc: Addr, subject: string, body: string): string
  {
    MailtoOf(if Truthy(to) then Normalized(to) else [], if Truthy(cc) then Normalized(cc) else [], subject, body)
  }

  /** The link for normalised lists: quoted addresses only when there is a query. */
  function MailtoOf(toList: seq<string>, ccList: seq<string>, subject: string, body: string): string
  {
    if toList == [] then ""
    else
      var addrs := Join(toList, ",");
      var ps := MailtoParams(ccList, subject, body);
      if ps != [] then "mailto:" + Quote(addrs) + "?" + Join(MapSeq(ps, Render), "&")
      else "mailto:" + addrs
  }

  /** The link depends on the arguments only through their normalised lists. */
  lemma MailtoByLists(to: Addr, cc: Addr, subject: string, body: string)
    ensures BuildMailto(to, cc, subject, body) == MailtoOf(Normalized(to), Normalized(cc), subject, body)
  {
    if !Truthy(to) {
      FalsyNormalizesEmpty(to);
    }
    if !Truthy(cc) {
      FalsyNormalizesEmpty(cc);
    }
  }

  /** There is a link exactly when some `to` address survives normalisation. */
  lemma MailtoEmpty(to: Addr, cc: Addr, subject: string, body: string)
    ensures BuildMailto(to, cc, subject, body) == "" <==> Normalized(to) == []
  {
    MailtoByLists(to, cc, subject, body);
  }

  /** With parameters the link is `mailto:`, the quoted addresses, `?` and the rendered parameters joined by `&`. */
  lemma MailtoShape(to: Addr, cc: Addr, subject: string, body: string)
    requires Normalized(to) != []
    requires MailtoParams(Normalized(cc), subject, body) != []
    ensures BuildMailto(to, cc, subject, body)
      == "mailto:" + Quote(Join(Normalized(to), ",")) + "?"
         + Join(MapSeq(MailtoParams(Normalized(cc), subject, body), Render), "&")
  {
    MailtoByLists(to, cc, subject, body);
  }

  /**
   * A link with parameters reads back: it is `mailto:`, a text without `?`
   * that decodes to the comma-joined addresses, `?`, and a text that splits
   * at `&` into exactly the parameters, in order.
   */
  lemma MailtoParse(to: Addr, cc: Addr, subject: string, body: string)
    requires Normalized(to) != []
    requires MailtoParams(Normalized(cc), subject, body) != []
    ensures exists head, query :: (
      BuildMailto(to, cc, subject, body) == "mailto:" + head + "?" + query
      && '?' !in head && PercentDecode(head) == Utf8(Join(Normalized(to), ","))
      && SplitOn(query, '&') == MapSeq(MailtoParams(Normalized(cc), subject, body), Render))
  {
    var ps := MailtoParams(Normalized(cc), subject, body);
    var head := Quote(Join(Normalized(to), ","));
    var query := Join(MapSeq(ps, Render), "&");
    MailtoShape(to, cc, subject, body);
    QuoteClean(Join(Normalized(to), ","));
    QuoteDecode(Join(Normalized(to), ","));
    RenderedFree(ps);
    SplitOnJoin(MapSeq(ps, Render), '&');
    assert BuildMailto(to, cc, subject, body) == "mailto:" + head + "?" + query;
  }

  lemma RenderedFree(ps: seq<Param>)
    requires forall i :: 0 <= i < |ps| ==> ps[i].name == "cc" || ps[i].name == "subject" || ps[i].name == "body"
    ensures forall k :: 0 <= k < |MapSeq(ps, Render)| ==> '&' !in MapSeq(ps, Render)[k]
  {
    forall k | 0 <= k < |ps| ensures '&' !in MapSeq(ps, Render)[k] {
      MapSeqAt(ps, Render, k);
      QuoteClean(ps[k].value);
      assert '&' !in ps[k].name;
    }
  }

  /** Without parameters the addresses appear as they are, comma-joined. */
  lemma MailtoPlain(to: Addr, cc: Addr, subject: string, body: string)
    requires Normalized(to) != []
    requires MailtoParams(Normalized(cc), subject, body) == []
    ensures BuildMailto(to, cc, subject, body) == "mailto:" + Join(Normalized(to), ",")
  {
    MailtoByLists(to, cc, subject, body);
  }

  /** `quote` writes `@` as `%40`. */
  lemma QuoteAt()
    ensures Quote("@") == "%40"
  {
    assert Utf8("@") == [0x40];
  }

  // ---------------------------------------------------------------- send

  /**
   * The settings the sender reads from the environment: the system
   * address, whether the Gmail credentials file exists, the stripped app
   * password and the subject and body limits.
   */
  datatype EmailConfig = EmailConfig(sender: string, credentialsFound: bool, appPassword: string,
                                     maxSubjectLen: nat, maxBodyLen: nat)

  const DefaultMaxSubjectLen: nat := 500
  const DefaultMaxBodyLen: nat := 100000

  /** A message as it is handed to Gmail or SMTP. */
  datatype Message = Message(to: seq<string>, cc: seq<string>, subject: string, body: string, sender: string)

  /** What the SMTP server is asked to deliver: the sender, every recipient and the message. */
  datatype Envelope = Envelope(sender: string, recipients: seq<string>, message: Message)

  /** `{"sent": …, "message_id": …, "error": …}` */
  datatype SendResult = SendResult(sent: bool, messageId: Option<string>, error: Option<string>)

  datatype Route = GmailApi | Smtp

  /** A send outcome with the transports that were actually contacted, in order. */
  datatype Attempt = Attempt(result: SendResult, tried: seq<Route>)

  const NoAppPassword := "GMAIL_APP_PASSWORD not set"
  const NoValidTo := "No valid 'to' addresses"

  /**
   * `send_via_smtp`: without an app password nothing is contacted;
   * otherwise the server gets the message for `to + cc` and either delivers
   * it or raises (`Some(error)`).
   */
  function SendViaSmtp(msg: Message, cfg: EmailConfig, server: Envelope -> Option<string>): (a: Attempt)
    ensures cfg.appPassword == [] ==> a == Attempt(SendResult(false, None, Some(NoAppPassword)), [])
    ensures cfg.appPassword != [] ==> a.tried == [Smtp] && a.result.messageId == None
    ensures cfg.appPassword != [] ==> (a.result.sent <==> server(Envelope(msg.sender, msg.to + msg.cc, msg)).None?)
    ensures !a.result.sent ==> a.result.error.Some?
  {
    if cfg.appPassword == [] then Attempt(SendResult(false, None, Some(NoAppPassword)), [])
    else
      match server(Envelope(msg.sender, msg.to + msg.cc, msg))
      case None => Attempt(SendResult(true, None, None), [Smtp])
      case Some(e) => Attempt(SendResult(false, None, Some(e)), [Smtp])
  }

  /** The message of a system send: normalised lists and the subject and body cut to their limits. */
  function SystemMessage(toList: seq<string>, ccList: seq<string>, subject: string, body: string,
                         cfg: EmailConfig): (msg: Message)
    ensures |msg.subject| <= cfg.maxSubjectLen && IsPrefix(msg.subject, subject)
    ensures |msg.body| <= cfg.maxBodyLen && IsPrefix(msg.body, body)
    ensures |subject| <= cfg.maxSubjectLen ==> msg.subject == subject
    ensures |body| <= cfg.maxBodyLen ==> msg.body == body
  {
    Message(toList, ccList, Take(subject, cfg.maxSubjectLen), Take(body, cfg.maxBodyLen), cfg.sender)
  }

  /**
   * `send_via_system`: no valid `to` address means no attempt at all;
   * with credentials the Gmail API goes first and SMTP only follows a
   * Gmail failure when an app password is set; without credentials SMTP
   * is the only route.
   */
  function SendViaSystem(to: Addr, cc: Addr, subject: string, body: string, cfg: EmailConfig,
                         gmail: Message -> SendResult, server: Envelope -> Option<string>): Attempt
  {
    var toList := Normalized(to);
    var ccList := Normalized(cc);
    if toList == [] then Attempt(SendResult(false, None, Some(NoValidTo)), [])
    else
      var msg := SystemMessage(toList, ccList, subject, body, cfg);
      if cfg.credentialsFound then
        var r := gmail(msg);
        if r.sent then Attempt(r, [GmailApi])
        else if cfg.appPassword != [] then
          var a := SendViaSmtp(msg, cfg, server);
          Attempt(a.result, [GmailApi] + a.tried)
        else Attempt(r, [GmailApi])
      else SendViaSmtp(msg, cfg, server)
  }

  /** The routing rules of the system send. */
  lemma SystemRouting(to: Addr, cc: Addr, subject: string, body: string, cfg: EmailConfig,
                      gmail: Message -> SendResult, server: Envelope -> Option<string>)
    ensures var a := SendViaSystem(to, cc, subject, body, cfg, gmail, server);
      var msg := SystemMessage(Normalized(to), Normalized(cc), subject, body, cfg);
      (Normalized(to) == [] ==> a == Attempt(SendResult(false, None, Some(NoValidTo)), []))
      && (Normalized(to) != [] ==> (GmailApi in a.tried <==> cfg.credentialsFound))
      && (Normalized(to) != [] && cfg.credentialsFound ==> a.tried[0] == GmailApi)
      && (Smtp in a.tried <==> (Normalized(to) != [] && cfg.appPassword != []
                                && (!cfg.credentialsFound || !gmail(msg).sent)))
      && (Smtp in a.tried ==> a.result.sent == server(Envelope(msg.sender, msg.to + msg.cc, msg)).None?)
      && (a.tried == [GmailApi] ==> a.result == gmail(msg))
  {
    if Normalized(to) != [] {
      var msg := SystemMessage(Normalized(to), Normalized(cc), subject, body, cfg);
      if cfg.credentialsFound && !gmail(msg).sent && cfg.appPassword != [] {
        assert SendViaSmtp(msg, cfg, server).tried == [Smtp];
      }
    }
  }

  // -------------------------------------------------------------- skills

  /** `_normalize_to_list`: `None` is the empty list, anything else is normalised. */
  function NormalizeToList(addr: Addr): (r: seq<string>)
    ensures r == Normalized(addr)
  {
    if addr.Null? then [] else Normalized(addr)
  }

  /** The LLM crafter's answer: a subject and a body, or nothing when it is unconfigured or fails. */
  type Crafter = (seq<string>, seq<string>, string) -> Option<(string, string)>

  datatype Crafted = Crafted(subject: string, body: string, error: Option<string>)

  const CraftFailed := "LLM not configured or failed"

  /** `craft_email_with_llm` */
  function CraftEmail(to: Addr, cc: Addr, userText: string, crafter: Crafter): (c: Crafted)
    ensures crafter(Normalized(to), Normalized(cc), userText).None? ==> c == Crafted("", "", Some(CraftFailed))
    ensures crafter(Normalized(to), Normalized(cc), userText).Some? ==>
      c.error.None? && (c.subject, c.body) == crafter(Normalized(to), Normalized(cc), userText).value
  {
    match crafter(NormalizeToList(to), NormalizeToList(cc), userText)
    case None => Crafted("", "", Some(CraftFailed))
    case Some(sb) => Crafted(sb.0, sb.1, None)
  }

  /** `skills.send_via_system`: normalise both lists, `None` subject or body as "", then the sender. */
  function SkillSend(to: Addr, cc: Addr, subject: Option<string>, body: Option<string>, cfg: EmailConfig,
                     gmail: Message -> SendResult, server: Envelope -> Option<string>): Attempt
  {
    SendViaSystem(Addrs(NormalizeToList(to)), Addrs(NormalizeToList(cc)), OrElse(subject, ""), OrElse(body, ""),
                  cfg, gmail, server)
  }

  /** The sender normalises again, and that changes nothing: the skill sends what the sender alone would. */
  lemma SkillSendSame(to: Addr, cc: Addr, subject: Option<string>, body: Option<string>, cfg: EmailConfig,
                      gmail: Message -> SendResult, server: Envelope -> Option<string>)
    ensures SkillSend(to, cc, subject, body, cfg, gmail, server)
      == SendViaSystem(to, cc, OrElse(subject, ""), OrElse(body, ""), cfg, gmail, server)
  {
    NormalizedIdempotent(to);
    NormalizedIdempotent(cc);
  }

  /** `skills.build_mailto_url` */
  function SkillMailto(to: Addr, cc: Addr, subject: Option<string>, body: Option<string>): string
  {
    BuildMailto(Addrs(NormalizeToList(to)), Addrs(NormalizeToList(cc)), OrElse(subject, ""), OrElse(body, ""))
  }

  /** The skill's link is the sender's link for the same arguments. */
  lemma SkillMailtoSame(to: Addr, cc: Addr, subject: Option<string>, body: Option<string>)
    ensures SkillMailto(to, cc, subject, body) == BuildMailto(to, cc, OrElse(subject, ""), OrElse(body, ""))
  {
    NormalizedIdempotent(to);
    NormalizedIdempotent(cc);
    MailtoByLists(to, cc, OrElse(subject, ""), OrElse(body, ""));
    MailtoByLists(Addrs(NormalizeToList(to)), Addrs(NormalizeToList(cc)), OrElse(subject, ""), OrElse(body, ""));
  }

  datatype Draft = Draft(to: seq<string>, cc: seq<string>, subject: string, body: string)

  /** `prepare_draft`: normalised lists, subject and body cut to their limits; nothing is sent. */
  function PrepareDraft(to: Addr, cc: Addr, subject: Option<string>, body: Option<string>,
                        cfg: EmailConfig): (d: Draft)
    ensures d.to == Normalized(to) && d.cc == Normalized(cc)
    ensures |d.subject| <= cfg.maxSubjectLen && IsPrefix(d.subject, OrElse(subject, ""))
    ensures |d.body| <= cfg.maxBodyLen && IsPrefix(d.body, OrElse(body, ""))
    ensures |OrElse(subject, "")| <= cfg.maxSubjectLen ==> d.subject == OrElse(subject, "")
    ensures |OrElse(body, "")| <= cfg.maxBodyLen ==> d.body == OrElse(body, "")
  {
    Draft(NormalizeToList(to), NormalizeToList(cc), Take(OrElse(subject, ""), cfg.maxSubjectLen),
          Take(OrElse(body, ""), cfg.maxBodyLen))
  }

  /** Preparing a draft from a draft changes nothing. */
  lemma PrepareDraftIdempotent(to: Addr, cc: Addr, subject: Option<string>, body: Option<string>, cfg: EmailConfig)
    ensures var d := PrepareDraft(to, cc, subject, body, cfg);
      PrepareDraft(Addrs(d.to), Addrs(d.cc), Some(d.subject), Some(d.body), cfg) == d
  {
    NormalizedIdempotent(to);
    NormalizedIdempotent(cc);
  }

  // ----------------------------------------------------------- endpoints

  datatype Composition = Direct | Llm
  datatype SenderKind = System | UserClient

  datatype PrepareRequest = PrepareRequest(to: seq<string>, cc: seq<string>, subject: Option<string>,
                                           body: Option<string>, userText: Option<string>,
                                           composition: Composition, sender: SenderKind)

  datatype PrepareResponse = PrepareResponse(draft: Draft, mailto: Option<string>)

  /** Whether `/email/prepare` asks the LLM: `composition == "llm"` and a non-blank user text. */
  predicate UsesLlm(req: PrepareRequest)
  {
    req.composition == Llm && req.userText.Some? && Trim(req.userText.value) != []
  }

  /** The subject and body of `/email/prepare`: crafted values replace the inputs only when non-empty. */
  function PreparedText(req: PrepareRequest, crafter: Crafter): (sb: (string, string))
    ensures !UsesLlm(req) ==> sb == (OrElse(req.subject, ""), OrElse(req.body, ""))
  {
    var subject := OrElse(req.subject, "");
    var body := OrElse(req.body, "");
    if UsesLlm(req) then
      var crafted := CraftEmail(Addrs(req.to), Addrs(req.cc), Trim(req.userText.value), crafter);
      (if crafted.subject != [] then crafted.subject else subject, if crafted.body != [] then crafted.body else body)
    else (subject, body)
  }

  /** A crafter that fails leaves the request's own subject and body in place. */
  lemma CraftFailureKeepsInput(req: PrepareRequest, crafter: Crafter)
    requires UsesLlm(req)
    requires crafter(Normalized(Addrs(req.to)), Normalized(Addrs(req.cc)), Trim(req.userText.value)).None?
    ensures PreparedText(req, crafter) == (OrElse(req.subject, ""), OrElse(req.body, ""))
  {
  }

  /** The link built from a draft's addresses is the link built from the addresses it was drafted from. */
  lemma DraftMailto(to: Addr, cc: Addr, d: Draft)
    requires d.to == Normalized(to) && d.cc == Normalized(cc)
    ensures SkillMailto(Addrs(d.to), Addrs(d.cc), Some(d.subject), Some(d.body)) == BuildMailto(to, cc, d.subject, d.body)
  {
    SkillMailtoSame(Addrs(d.to), Addrs(d.cc), Some(d.subject), Some(d.body));
    NormalizedIdempotent(to);
    NormalizedIdempotent(cc);
    MailtoByLists(Addrs(d.to), Addrs(d.cc), d.subject, d.body);
    MailtoByLists(to, cc, d.subject, d.body);
  }

  /** `POST /email/prepare` */
  function EmailPrepare(req: PrepareRequest, cfg: EmailConfig, crafter: Crafter): PrepareResponse
  {
    var sb := PreparedText(req, crafter);
    var draft := PrepareDraft(Addrs(req.to), Addrs(req.cc), Some(sb.0), Some(sb.1), cfg);
    var mailto := if req.sender == UserClient
      then Some(SkillMailto(Addrs(draft.to), Addrs(draft.cc), Some(draft.subject), Some(draft.body)))
      else None;
    PrepareResponse(draft, mailto)
  }

  /**
   * `/email/prepare` returns the draft of the (possibly crafted) text, and a
   * link, for exactly the normalised addresses, only for the user's client.
   */
  lemma EmailPrepareSpec(req: PrepareRequest, cfg: EmailConfig, crafter: Crafter)
    ensures var r := EmailPrepare(req, cfg, crafter);
      var sb := PreparedText(req, crafter);
      r.draft == PrepareDraft(Addrs(req.to), Addrs(req.cc), Some(sb.0), Some(sb.1), cfg)
      && (r.mailto.Some? <==> req.sender == UserClient)
      && (r.mailto.Some? ==> r.mailto.value == BuildMailto(Addrs(req.to), Addrs(req.cc), r.draft.subject, r.draft.body))
  {
    var r := EmailPrepare(req, cfg, crafter);
    DraftMailto(Addrs(req.to), Addrs(req.cc), r.draft);
  }

  datatype SendRequest = SendRequest(to: seq<string>, cc: seq<string>, subject: string, body: string,
                                     sender: SenderKind, confirmBeforeSend: bool)

  datatype SendResponse = SendResponse(sent: bool, requiresConfirmation: bool, draft: Option<Draft>,
                                       messageId: Option<string>, mailto: Option<string>, error: Option<string>,
                                       confirmation: Option<string>)

  /** A response with the transports the request made the service contact. */
  datatype Sent = Sent(response: SendResponse, tried: seq<Route>)

  const OpenClient := "Open your mail client to send. Use the mailto URL to open a pre-filled draft."
  const SendFailed := "Send failed"

  function SentConfirmation(cfg: EmailConfig, to: seq<string>): string
  {
    "Email sent from " + cfg.sender + " to " + Join(to, ", ") + "."
  }

  /** `POST /email/send` */
  function EmailSend(req: SendRequest, cfg: EmailConfig, gmail: Message -> SendResult,
                     server: Envelope -> Option<string>): Sent
  {
    if req.confirmBeforeSend then
      var draft := PrepareDraft(Addrs(req.to), Addrs(req.cc), Some(req.subject), Some(req.body), cfg);
      var mailto := if req.sender == UserClient
        then Some(SkillMailto(Addrs(draft.to), Addrs(draft.cc), Some(draft.subject), Some(draft.body)))
        else None;
      Sent(SendResponse(false, true, Some(draft), None, mailto, None, None), [])
    else if req.sender == UserClient then
      var mailto := SkillMailto(Addrs(req.to), Addrs(req.cc), Some(req.subject), Some(req.body));
      Sent(SendResponse(false, false, None, None, Some(mailto), None, Some(OpenClient)), [])
    else
      var a := SkillSend(Addrs(req.to), Addrs(req.cc), Some(req.subject), Some(req.body), cfg, gmail, server);
      if a.result.sent then
        Sent(SendResponse(true, false, None, a.result.messageId, None, None, Some(SentConfirmation(cfg, req.to))), a.tried)
      else
        Sent(SendResponse(false, false, None, None, None, Some(OrElse(a.result.error, SendFailed)), None), a.tried)
  }

  /**
   * Nothing is sent when confirmation is asked for (a draft comes back
   * instead) or when the user's own client sends (a link comes back);
   * otherwise the response reports the system send, with "Send failed" when
   * a failure names no error.
   */
  lemma EmailSendSpec(req: SendRequest, cfg: EmailConfig, gmail: Message -> SendResult,
                      server: Envelope -> Option<string>)
    ensures var s := EmailSend(req, cfg, gmail, server);
      var a := SendViaSystem(Addrs(req.to), Addrs(req.cc), req.subject, req.body, cfg, gmail, server);
      (s.tried != [] ==> !req.confirmBeforeSend && req.sender == System)
      && (req.confirmBeforeSend ==>
            (!s.response.sent && s.response.requiresConfirmation
             && s.response.draft == Some(PrepareDraft(Addrs(req.to), Addrs(req.cc), Some(req.subject), Some(req.body), cfg))
             && (s.response.mailto.Some? <==> req.sender == UserClient)))
      && (!req.confirmBeforeSend ==> !s.response.requiresConfirmation && s.response.draft.None?)
      && (!req.confirmBeforeSend && req.sender == UserClient ==>
            !s.response.sent && s.response.confirmation == Some(OpenClient)
            && s.response.mailto == Some(BuildMailto(Addrs(req.to), Addrs(req.cc), req.subject, req.body)))
      && (!req.confirmBeforeSend && req.sender == System ==>
            s.tried == a.tried && s.response.sent == a.result.sent && s.response.mailto.None?
            && (s.response.sent ==>
                  (s.response.messageId == a.result.messageId
                   && s.response.confirmation == Some(SentConfirmation(cfg, req.to))))
            && (!s.response.sent ==> s.response.error == Some(OrElse(a.result.error, SendFailed))))
  {
    SkillSendSame(Addrs(req.to), Addrs(req.cc), Some(req.subject), Some(req.body), cfg, gmail, server);
    SkillMailtoSame(Addrs(req.to), Addrs(req.cc), Some(req.subject), Some(req.body));
  }

  /** `POST /email/confirm`: the send request with confirmation switched off. */
  function EmailConfirm(req: SendRequest, cfg: EmailConfig, gmail: Message -> SendResult,
                        server: Envelope -> Option<string>): (s: Sent)
    ensures !s.response.requiresConfirmation
    ensures req.sender == System ==> s.tried == SendViaSystem(Addrs(req.to), Addrs(req.cc), req.subject, req.body,
                                                             cfg, gmail, server).tried
  {
    EmailSendSpec(req.(confirmBeforeSend := false), cfg, gmail, server);
    EmailSend(req.(confirmBeforeSend := false), cfg, gmail, server)
  }

  // ------------------------------------------------------------ examples

  /** A character `quote` leaves as it is. */
  predicate SafeChar(c: char) { c as int < 0x80 && SafeByte(c as int as byte) }

  lemma {:induction false} QuoteBytesAppend(a: seq<byte>, b: seq<byte>)
    ensures QuoteBytes(a + b) == QuoteBytes(a) + QuoteBytes(b)
    decreases |a|
  {
    if a != [] {
      assert (a + b)[0] == a[0] && (a + b)[1..] == a[1..] + b;
      QuoteBytesAppend(a[1..], b);
      calc {
        QuoteBytes(a + b);
        QuoteByte(a[0]) + QuoteBytes(a[1..] + b);
        QuoteByte(a[0]) + (QuoteBytes(a[1..]) + QuoteBytes(b));
        (QuoteByte(a[0]) + QuoteBytes(a[1..])) + QuoteBytes(b);
      }
    } else {
      assert a + b == b;
    }
  }

  /** Quoting works character by character. */
  lemma QuoteAppend(a: string, b: string)
    ensures Quote(a + b) == Quote(a) + Quote(b)
  {
    Utf8Append(a, b);
    QuoteBytesAppend(Utf8(a), Utf8(b));
  }

  /** Letters, digits and `_.-~/` come through quoting unchanged. */
  lemma {:induction false} QuoteSafe(s: string)
    requires forall k :: 0 <= k < |s| ==> SafeChar(s[k])
    ensures Quote(s) == s
    decreases |s|
  {
    if s != [] {
      assert s == [s[0]] + s[1..];
      QuoteAppend([s[0]], s[1..]);
      QuoteSafe(s[1..]);
      assert Utf8([s[0]]) == [s[0] as int as byte];
    }
  }

  /** An address whose two halves are all safe characters, with a dotted domain, is kept whole. */
  lemma SafeAddressKept(local: string, domain: string)
    requires local != [] && DottedDomain(domain)
    requires forall k :: 0 <= k < |local| ==> SafeChar(local[k])
    requires forall k :: 0 <= k < |domain| ==> SafeChar(domain[k])
    ensures Keep(local + "@" + domain) && NoSepIn(local + "@" + domain)
  {
    var w := local + "@" + domain;
    var a := |local|;
    assert w[a] == '@' && w[..a] == local && w[a + 1..] == domain;
    assert '@' !in local;
    forall k | 0 <= k < |w| ensures !IsSep(w[k]) && !IsSpace(w[k]) {
      if k < a {
        assert w[k] == local[k] && SafeChar(local[k]);
      } else if k > a {
        assert w[k] == domain[k - a - 1] && SafeChar(domain[k - a - 1]);
      }
    }
  }

  /** Such an address is quoted by quoting its `@` alone. */
  lemma SafeAddressQuoted(local: string, domain: string)
    requires forall k :: 0 <= k < |local| ==> SafeChar(local[k])
    requires forall k :: 0 <= k < |domain| ==> SafeChar(domain[k])
    ensures Quote(local + "@" + domain) == local + "%40" + domain
  {
    QuoteAppend(local, "@");
    QuoteAppend(local + "@", domain);
    QuoteSafe(local);
    QuoteSafe(domain);
    QuoteAt();
  }

  /**
   * A draft to one such address with a subject keeps the address, and its
   * link opens with the quoted address and a query.
   */
  lemma PrepareDirect(local: string, domain: string, subject: string, body: string, cfg: EmailConfig)
    requires local != [] && DottedDomain(domain)
    requires forall k :: 0 <= k < |local| ==> SafeChar(local[k])
    requires forall k :: 0 <= k < |domain| ==> SafeChar(domain[k])
    requires subject != [] && |subject| <= cfg.maxSubjectLen
    ensures var w := local + "@" + domain;
      var d := PrepareDraft(Addrs([w]), Addrs([]), Some(subject), Some(body), cfg);
      d.to == [w] && d.cc == [] && d.subject == subject
      && IsPrefix("mailto:" + local + "%40" + domain + "?",
                  SkillMailto(Addrs(d.to), Addrs(d.cc), Some(d.subject), Some(d.body)))
  {
    var w := local + "@" + domain;
    SafeAddressKept(local, domain);
    SafeAddressQuoted(local, domain);
    NormalizedAllOwn([w]);
    assert MapSeq([w], StrOf) == [Str(w)];
    var d := PrepareDraft(Addrs([w]), Addrs([]), Some(subject), Some(body), cfg);
    assert Normalized(Addrs([])) == [];
    DraftMailto(Addrs([w]), Addrs([]), d);
    assert Param("subject", d.subject) in MailtoParams([], d.subject, d.body);
    MailtoShape(Addrs([w]), Addrs([]), d.subject, d.body);
    assert Join([w], ",") == w;
    var rest := Join(MapSeq(MailtoParams([], d.subject, d.body), Render), "&");
    LinkPrefix(SkillMailto(Addrs(d.to), Addrs(d.cc), Some(d.subject), Some(d.body)), Quote(w), local, domain, rest);
  }

  lemma LinkPrefix(m: string, q: string, local: string, domain: string, rest: string)
    requires q == local + "%40" + domain
    requires m == "mailto:" + q + "?" + rest
    ensures IsPrefix("mailto:" + local + "%40" + domain + "?", m)
  {
    var head := "mailto:" + local + "%40" + domain + "?";
    assert m == head + rest;
    assert m[..|head|] == head;
  }
}
