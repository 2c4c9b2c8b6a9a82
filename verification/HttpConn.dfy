/** The request half of an HTTP exchange over a byte stream (src/http_conn.c):
    bytes reach the rx ring in whatever pieces the transport delivers, and are
    parsed at whatever calls the scheduler makes. What comes of a request is
    proved to depend on its bytes alone. */
module HttpConn {
  import opened Wrappers
  import opened HttpHead
  import opened NetRing

  const HTTP_LINE_MAX := 256
  const HTTP_HEAD_MAX := 8192

  datatype Phase = Head | Body | Apply | Send | Done

  datatype BodyMode = Discard | Gather | Stream

  /** What the handler says to the head, the one time it is asked: an answer of
      its own, or where the body goes. A sink answers, if it does, in the call in
      which it takes a certain byte of the body, counted from 1. */
  datatype Verdict = Answer | GatherUpTo(max: nat) | StreamBody(answersAt: Option<nat>) | DiscardBody

  /** What the head has said so far. */
  datatype Request = Request(haveLine: bool, verb: string, path: string, headOnly: bool, haveLength: bool,
                             contentLength: nat, host: string, xPyro: bool, chunked: bool, expectContinue: bool)

  /** The line being gathered. */
  datatype Line = Line(text: string, long: bool)

  /** The exchange as far as the request goes. refused is the status of a
      refusal; body is what has gone to work, or to the sink, in order. */
  datatype Conn = Conn(phase: Phase, headBytes: nat, line: Line, req: Request, mode: BodyMode, bodyLeft: nat,
                       body: string, refused: Option<nat>, continued: bool)

  const NO_LINE := Line("", false)
  const NO_REQUEST := Request(false, "", "", false, false, 0, "", false, false, false)
  const START: Conn := Conn(Head, 0, NO_LINE, NO_REQUEST, Discard, 0, "", None, false)

  /** What a line makes of a request: more of it, or its refusal, or, the head
      being in, its end. */
  datatype Said = More(req: Request) | Refusal(status: nat) | EndOfHead

  function RequestLineSays(r: Request, line: Line): Said {
    if line.long then Refusal(414)
    else
      match ParsedRequestLine(line.text)
      case BadLine(status) => Refusal(status)
      case RequestLine(path, verb, headOnly) =>
        More(r.(path := path, verb := verb, headOnly := headOnly, haveLine := true))
  }

  function LengthSays(r: Request, value: string): Said {
    match ParsedLength(value)
    case TooLarge => Refusal(413)
    case Malformed => Refusal(400)
    case Length(n) =>
      if r.haveLength && n != r.contentLength then Refusal(400)
      else More(r.(contentLength := n, haveLength := true))
  }

  function HeaderSays(r: Request, text: string): Said {
    var length, coding := ValueOf(text, "content-length"), ValueOf(text, "transfer-encoding");
    var expecting, host, pyro := ValueOf(text, "expect"), ValueOf(text, "host"), ValueOf(text, "x-pyro");
    if length.Some? then LengthSays(r, length.value)
    else if coding.Some? then
      More(r.(chunked := !ContainsToken(coding.value, "identity") || ContainsToken(coding.value, "chunked")))
    else if expecting.Some? then More(r.(expectContinue := ContainsToken(expecting.value, "100-continue")))
    else if host.Some? then More(r.(host := HostAfter(r.host, host.value)))
    else if pyro.Some? then More(r.(xPyro := SaysOne(pyro.value)))
    else More(r)
  }

  /** A line longer than any header read is passed over; a bare end of line
      before the request line too, and after it ends the head. */
  function LineSays(r: Request, line: Line): Said {
    if !r.haveLine then (if line.text == "" && !line.long then More(r) else RequestLineSays(r, line))
    else if line.text == "" && !line.long then EndOfHead
    else if line.long then More(r)
    else HeaderSays(r, line.text)
  }

  function Refuse(c: Conn, status: nat): Conn {
    c.(phase := Send, refused := Some(status))
  }

  function IntoBody(c: Conn, mode: BodyMode): Conn {
    c.(phase := Body, mode := mode, bodyLeft := c.req.contentLength,
       continued := c.req.expectContinue && c.req.contentLength > 0 && mode != Discard)
  }

  /** The head is in: it is refused, or the handler's verdict is taken. */
  function HeadIn(c: Conn, v: Verdict): Conn {
    if c.req.chunked || (c.req.verb == "POST" && !c.req.haveLength) then Refuse(c, 411)
    else
      match v
      case Answer => c.(phase := Send)
      case GatherUpTo(max) =>
        if c.req.contentLength > Min(max, HTTP_WORK_SIZE - 1) then Refuse(c, 413) else IntoBody(c, Gather)
      case StreamBody(_) => IntoBody(c, Stream)
      case DiscardBody => IntoBody(c, Discard)
  }

  function Heard(c: Conn, said: Said, v: Verdict): Conn {
    match said
    case More(r) => c.(req := r)
    case Refusal(status) => Refuse(c, status)
    case EndOfHead => HeadIn(c, v)
  }

  function WithoutReturn(text: string): string {
    if text != "" && text[|text| - 1] == '\r' then text[..|text| - 1] else text
  }

  function LineEnded(c: Conn, v: Verdict): Conn {
    Heard(c.(line := NO_LINE), LineSays(c.req, c.line.(text := WithoutReturn(c.line.text))), v)
  }

  function Lengthened(line: Line, b: char): Line {
    if |line.text| < HTTP_LINE_MAX - 1 then line.(text := line.text + [b]) else line.(long := true)
  }

  function HeadByte(c: Conn, b: char, v: Verdict): Conn {
    var d := c.(headBytes := c.headBytes + 1);
    if d.headBytes > HTTP_HEAD_MAX then Refuse(d, 431)
    else if b == '\n' then LineEnded(d, v)
    else d.(line := Lengthened(d.line, b))
  }

  function BodyBytes(c: Conn, bytes: string): Conn
    requires |bytes| <= c.bodyLeft
  {
    c.(body := if c.mode == Discard then c.body else c.body + bytes, bodyLeft := c.bodyLeft - |bytes|)
  }

  /* ---- The parse as a function of the bytes ---- */

  /** Another byte is wanted. */
  predicate Wants(c: Conn) {
    c.phase == Head || (c.phase == Body && c.bodyLeft > 0)
  }

  function ByteTaken(c: Conn, b: char, v: Verdict): Conn {
    if c.phase == Head then HeadByte(c, b, v)
    else if Wants(c) then BodyBytes(c, [b])
    else c
  }

  /** The exchange after these bytes of the request. */
  function Taken(w: string, v: Verdict): Conn {
    if w == "" then START else ByteTaken(Taken(w[..|w| - 1], v), w[|w| - 1], v)
  }

  /** Each byte was wanted when it was taken. */
  predicate Wanted(w: string, v: Verdict) {
    w == "" || (Wanted(w[..|w| - 1], v) && Wants(Taken(w[..|w| - 1], v)))
  }

  /** The body being in, the exchange is the handler's; and a peer that has
      closed with more of the request wanted has asked nothing, or too little. */
  function Outcome(c: Conn, ended: bool): Conn {
    if c.phase == Body && c.bodyLeft == 0 then c.(phase := Apply)
    else if !ended || !Wants(c) then c
    else if c.phase == Head && c.headBytes == 0 then c.(phase := Done)
    else Refuse(c, 400)
  }

  /** The sink has taken the byte that it answers at. */
  predicate SinkAnswers(v: Verdict, c: Conn) {
    c.mode == Stream && v.StreamBody? && v.answersAt.Some? && 0 < v.answersAt.value <= |c.body|
  }

  /** Whether the handler has answered since the head, and from where: its sink,
      the body not yet all in perhaps, or once it was. */
  datatype Answered = NotYet | FromSink | AtTheEnd

  function AfterAnswer(c: Conn, a: Answered): Conn {
    if a == NotYet then c else c.(phase := Send)
  }

  /** How much of a request is taken, of all that ever arrives, is settled by the
      bytes: of two prefixes taken as they were wanted, each up to the end or to
      where no more is wanted, neither is the longer. */
  lemma {:induction false} PrefixIsSettled(w: string, v: Verdict, a: nat, b: nat)
    requires a <= b <= |w| && Wanted(w[..b], v)
    requires a == |w| || !Wants(Taken(w[..a], v))
    ensures a == b
  {
    if a < b {
      WantedBefore(w, v, a, b);
    }
  }

  lemma {:induction false} WantedBefore(w: string, v: Verdict, a: nat, b: nat)
    requires a < b <= |w| && Wanted(w[..b], v)
    ensures Wants(Taken(w[..a], v))
    decreases b
  {
    assert w[..b][..b - 1] == w[..b - 1];
    if a < b - 1 {
      WantedBefore(w, v, a, b - 1);
    }
  }

  /** A run of body bytes taken together is those bytes taken one by one. */
  lemma {:induction false} BodyBytesAreBytes(w: string, v: Verdict, bytes: string)
    requires Wanted(w, v) && Taken(w, v).phase == Body && |bytes| <= Taken(w, v).bodyLeft
    ensures Wanted(w + bytes, v) && Taken(w + bytes, v) == BodyBytes(Taken(w, v), bytes)
  {
    hide HeadByte;
    if bytes == "" {
      assert w + bytes == w;
      assert Taken(w, v).body + bytes == Taken(w, v).body;
    } else {
      var init, b := bytes[..|bytes| - 1], bytes[|bytes| - 1];
      BodyBytesAreBytes(w, v, init);
      assert (w + bytes)[..|w + bytes| - 1] == w + init;
      var c := Taken(w, v);
      assert c.body + bytes == (c.body + init) + [b];
    }
  }

  lemma OneByteTaken(w: string, v: Verdict, b: char)
    requires Wanted(w, v) && Wants(Taken(w, v))
    ensures Wanted(w + [b], v) && Taken(w + [b], v) == ByteTaken(Taken(w, v), b, v)
  {
    hide HeadByte;
    assert (w + [b])[..|w|] == w;
  }

  /* ---- What a byte of the head can do ---- */

  predicate BoundedRequest(r: Request) {
    |r.path| < HTTP_PATH_MAX && |r.host| < HTTP_HOST_MAX && r.contentLength <= LENGTH_MAX
  }

  lemma RequestLineBounded(r: Request, line: Line)
    requires BoundedRequest(r)
    ensures var s := RequestLineSays(r, line); s.More? ==> BoundedRequest(s.req)
  {
    hide ParsedRequestLine;
  }

  lemma HeaderBounded(r: Request, text: string)
    requires BoundedRequest(r)
    ensures var s := HeaderSays(r, text); s.More? ==> BoundedRequest(s.req)
  {
    hide ValueOf, ContainsToken, SaysOne, HostAfter, ParsedLength;
  }

  lemma LineBounded(r: Request, line: Line)
    requires BoundedRequest(r)
    ensures var s := LineSays(r, line); s.More? ==> BoundedRequest(s.req)
  {
    hide RequestLineSays, HeaderSays;
    RequestLineBounded(r, line);
    HeaderBounded(r, line.text);
  }

  /** Of an exchange still in its head, what a byte makes of it. */
  lemma HeadByteKeeps(c: Conn, b: char, v: Verdict)
    requires c.phase == Head && BoundedRequest(c.req) && |c.line.text| < HTTP_LINE_MAX
    ensures var d := HeadByte(c, b, v);
            && d.headBytes == c.headBytes + 1 && d.body == c.body
            && BoundedRequest(d.req) && |d.line.text| < HTTP_LINE_MAX
            && (d.phase == Head ==> d.headBytes <= HTTP_HEAD_MAX)
            && (d.phase == Body ==>
                  d.bodyLeft == d.req.contentLength && (d.mode == Gather ==> d.req.contentLength < HTTP_WORK_SIZE))
  {
    hide LineSays;
    var line := c.line.(text := WithoutReturn(c.line.text));
    LineBounded(c.req, line);
  }

  /** What is kept of a request is bounded, whatever arrives: a line by its
      buffer, the head by its limit, the path and the host by theirs. */
  lemma {:induction false} RequestIsBounded(w: string, v: Verdict)
    requires Wanted(w, v)
    ensures var c := Taken(w, v);
            && BoundedRequest(c.req) && |c.line.text| < HTTP_LINE_MAX && c.headBytes <= HTTP_HEAD_MAX + 1
            && (c.phase == Head ==> c.headBytes == |w| <= HTTP_HEAD_MAX)
  {
    hide HeadByte;
    if w != "" {
      var c, b := Taken(w[..|w| - 1], v), w[|w| - 1];
      RequestIsBounded(w[..|w| - 1], v);
      if c.phase == Head {
        HeadByteKeeps(c, b, v);
      }
    }
  }

  /** Gathered or streamed, the body is exactly the bytes after the head: what
      has come of it, with what is left, is the Content-Length, and work holds
      it with its NUL. */
  lemma {:induction false} BodyIsTheBytes(w: string, v: Verdict) returns (head: nat)
    requires Wanted(w, v) && Taken(w, v).phase == Body
    ensures head <= |w| && Taken(w[..head], v).phase == Body
    ensures var c := Taken(w, v);
            && |w| - head + c.bodyLeft == c.req.contentLength
            && (c.mode != Discard ==> c.body == w[head..])
            && (c.mode == Gather ==> c.req.contentLength < HTTP_WORK_SIZE)
  {
    hide HeadByte;
    var init, b := w[..|w| - 1], w[|w| - 1];
    var c := Taken(init, v);
    if c.phase == Body {
      head := BodyIsTheBytes(init, v);
      assert w[head..] == init[head..] + [b];
      assert init[..head] == w[..head];
    } else {
      head := |w|;
      HeadHasNoBody(init, v);
      RequestIsBounded(init, v);
      HeadByteKeeps(c, b, v);
      assert w[..head] == w;
    }
  }

  lemma {:induction false} HeadHasNoBody(w: string, v: Verdict)
    requires Wanted(w, v) && Taken(w, v).phase == Head
    ensures Taken(w, v).body == ""
  {
    hide HeadByte;
    if w != "" {
      var c := Taken(w[..|w| - 1], v);
      assert c.phase == Head;
      HeadHasNoBody(w[..|w| - 1], v);
      RequestIsBounded(w[..|w| - 1], v);
      HeadByteKeeps(c, w[|w| - 1], v);
    }
  }

  /** Nor does the byte that ends the head. */
  lemma HeadIsBare(w: string, v: Verdict, b: char)
    requires Wanted(w, v) && Taken(w, v).phase == Head
    ensures HeadByte(Taken(w, v), b, v).body == ""
  {
    hide HeadByte;
    HeadHasNoBody(w, v);
    RequestIsBounded(w, v);
    HeadByteKeeps(Taken(w, v), b, v);
  }

  /* ---- The exchange over its ring ---- */

  class HttpConn {
    const rx: Ring<char>
    const verdict: Verdict
    var conn: Conn
    var rxEof: bool
    var consumed: nat
    var answered: Answered
    /** Everything the ring has been given, and what of it has been taken. */
    ghost var arrived: string
    ghost var taken: string

    ghost predicate Valid()
      reads this, rx, rx.buf
    {
      && rx.Valid()
      && taken + rx.Contents() == arrived
      && consumed == |taken|
      && Wanted(taken, verdict)
      && conn == AfterAnswer(Unanswered(), answered)
      && (answered == FromSink <==> SinkAnswers(verdict, Unanswered()))
      && (answered == FromSink ==> Taken(taken, verdict).phase == Body)
      && (answered == AtTheEnd ==> Unanswered().phase == Apply)
    }

    /** The exchange as it is but for the handler's answer. */
    ghost function Unanswered(): Conn
      reads this, rx
    {
      Outcome(Taken(taken, verdict), Ended())
    }

    /** The peer has closed, all it sent has been taken, and that was found. */
    ghost predicate Ended()
      reads this, rx
    {
      rxEof && rx.len == 0 && !Wants(conn) && answered != FromSink
    }

    constructor (rx: Ring<char>, verdict: Verdict)
      requires rx.Valid() && rx.Contents() == ""
      ensures Valid() && this.rx == rx && this.verdict == verdict && arrived == "" && !rxEof
    {
      this.rx := rx;
      this.verdict := verdict;
      conn := START;
      rxEof := false;
      consumed := 0;
      answered := NotYet;
      arrived, taken := "", "";
    }

    /** Nothing more can be done with what has arrived. */
    ghost predicate Quiet()
      reads this, rx
    {
      Wants(conn) ==> rx.len == 0 && !rxEof
    }

    /** The transport hands over what the ring has room for. */
    method Deliver(data: string) returns (n: nat)
      requires Valid() && !rxEof
      modifies this, rx, rx.buf
      ensures Valid() && n <= |data| && arrived == old(arrived) + data[..n]
      ensures taken == old(taken) && conn == old(conn) && rxEof == old(rxEof) && answered == old(answered)
    {
      hide HeadByte, Taken, Wanted, Outcome;
      ghost var c := rx.Contents();
      n := rx.Write(data);
      Associate(taken, c, data[..n]);
      arrived := arrived + data[..n];
    }

    method PeerCloses()
      requires Valid()
      modifies `rxEof
      ensures Valid() && rxEof
    {
      rxEof := true;
    }

    /** The parse so far, before its outcome is looked at. */
    ghost predicate Parsing()
      reads this, rx, rx.buf
    {
      && rx.Valid() && taken + rx.Contents() == arrived && consumed == |taken|
      && Wanted(taken, verdict) && conn == Taken(taken, verdict)
      && answered == NotYet && !SinkAnswers(verdict, conn)
    }

    /** In the body, the sink having answered in this very call or not. */
    ghost predicate Taking()
      reads this, rx, rx.buf
    {
      && rx.Valid() && taken + rx.Contents() == arrived && consumed == |taken|
      && Wanted(taken, verdict) && conn == Taken(taken, verdict) && answered == NotYet && conn.phase == Body
    }

    /** k bytes off the ring are taken together. */
    lemma TakenTogether(bytes: string, rest: string)
      requires taken + (bytes + rest) == arrived
      ensures (taken + bytes) + rest == arrived
    {
    }

    method HeadBytes()
      requires Parsing()
      modifies `conn, `consumed, `taken, rx`tail, rx`len
      ensures Parsing() && (conn.phase == Head ==> rx.len == 0)
    {
      hide HeadByte, Taken, Wanted;
      while conn.phase == Head && rx.len > 0
        invariant Parsing()
        decreases rx.len
      {
        var bytes := rx.Read(1);
        assert bytes == [bytes[0]];
        OneByteTaken(taken, verdict, bytes[0]);
        HeadIsBare(taken, verdict, bytes[0]);
        consumed := consumed + 1;
        conn := HeadByte(conn, bytes[0], verdict);
        TakenTogether(bytes, rx.Contents());
        taken := taken + bytes;
      }
    }

    method ParseHead()
      requires Parsing() && conn.phase == Head
      modifies `conn, `consumed, `taken, rx`tail, rx`len
      ensures Parsing() || Valid()
      ensures conn.phase == Body ==> Parsing()
      ensures conn.phase != Body ==> Valid() && Quiet()
    {
      hide HeadByte, HeadIn;
      HeadBytes();
      if conn.phase == Head && rxEof && rx.len == 0 {
        if conn.headBytes == 0 {
          conn := conn.(phase := Done);
        } else {
          conn := Refuse(conn, 400);
        }
      }
    }

    /** The body's next bytes, as far as the ring's span, are offered. All of them
        go to work, or are dropped; a sink takes of them what it likes, and is
        offered the rest again, for the ring keeps it; and it answers in the call
        that brings it to its byte. */
    method TakeSpan() returns (offered: string, took: nat, answers: bool)
      requires Parsing() && conn.phase == Body && conn.bodyLeft > 0 && rx.len > 0
      modifies `conn, `consumed, `taken, rx`tail, rx`len
      ensures Taking() && conn.mode == old(conn.mode) && answers == SinkAnswers(verdict, conn)
      ensures offered != "" && offered <= old(rx.Contents()) && |offered| <= old(conn.bodyLeft)
      ensures took <= |offered| && (conn.mode != Stream ==> took == |offered| && !answers)
      ensures conn == BodyBytes(old(conn), offered[..took]) && rx.Contents() == old(rx.Contents())[took..]
    {
      hide HeadByte;
      var p, span := rx.ReadSpan();
      var n := if conn.bodyLeft < span then conn.bodyLeft else span;
      offered := rx.buf[p..p + n];
      assert offered == rx.buf[p..p + span][..n];
      took := n;
      if conn.mode == Stream {
        took := *;
        if took > n {
          took := n;
        }
      }
      Swallow(offered[..took]);
      answers := SinkAnswers(verdict, conn);
    }

    /** Bytes of the body off the front of the ring. */
    method Swallow(bytes: string)
      requires Parsing() && conn.phase == Body && |bytes| <= conn.bodyLeft && bytes <= rx.Contents()
      modifies `conn, `consumed, `taken, rx`tail, rx`len
      ensures Taking() && conn == BodyBytes(old(conn), bytes) && rx.Contents() == old(rx.Contents())[|bytes|..]
    {
      hide HeadByte;
      ghost var c := rx.Contents();
      assert c == bytes + c[|bytes|..];
      BodyBytesAreBytes(taken, verdict, bytes);
      conn := BodyBytes(conn, bytes);
      rx.Discard(|bytes|);
      TakenTogether(bytes, rx.Contents());
      taken := taken + bytes;
      consumed := consumed + |bytes|;
    }

    /** The body as far as the ring goes, unless its sink takes less or answers;
        the rest is then not needed. */
    method TakeBody()
      requires Parsing() && conn.phase == Body
      modifies `conn, `consumed, `taken, `answered, rx`tail, rx`len
      ensures Valid() && conn.mode == old(conn.mode)
      ensures conn.mode != Stream ==> Quiet() && answered == NotYet
      ensures answered != AtTheEnd
    {
      hide HeadByte, Taken, Wanted;
      while conn.bodyLeft > 0 && rx.len > 0
        invariant Parsing() && conn.phase == Body && conn.mode == old(conn.mode)
        decreases conn.bodyLeft
      {
        var offered, took, answers := TakeSpan();
        if answers {
          answered := FromSink;
          conn := conn.(phase := Send);
          return;
        }
        if took < |offered| {
          return;
        }
      }
      if conn.bodyLeft == 0 {
        conn := conn.(phase := Apply);
      } else if rxEof && rx.len == 0 {
        conn := Refuse(conn, 400);
      }
    }

    /** on_complete(): asked again until it answers. */
    method Complete()
      requires Valid() && conn.phase == Apply
      modifies `conn, `answered
      ensures Valid() && !Wants(conn)
      ensures if answered == NotYet then conn == old(conn)
              else answered == AtTheEnd && conn == old(conn).(phase := Send)
    {
      hide HeadByte;
      var answers: bool := *;
      if answers {
        answered := AtTheEnd;
        conn := conn.(phase := Send);
      }
    }

    /** A call of the scheduler's, up to the answer. */
    method Service()
      requires Valid()
      modifies `conn, `consumed, `taken, `answered, rx`tail, rx`len
      ensures Valid() && arrived == old(arrived) && rxEof == old(rxEof)
      ensures conn.mode != Stream ==> Quiet() && answered != FromSink
    {
      hide HeadByte, HeadIn;
      if conn.phase == Head {
        ParseHead();
      }
      if conn.phase == Body {
        TakeBody();
      }
      if conn.phase == Apply {
        Complete();
      }
    }
  }

  /** An exchange that w is being sent to, by a peer that then closes or does
      not, has all it can use of it: it wants no more, or it has the whole of w,
      all of it taken, and no close is to come. */
  ghost predicate HasItsFill(c: HttpConn, w: string, closes: bool)
    reads c, c.rx, c.rx.buf
  {
    && c.Valid() && c.arrived <= w
    && (c.rxEof ==> closes && c.arrived == w)
    && (Wants(c.conn) ==> c.arrived == w && c.rx.len == 0 && !closes)
  }

  /** Past the head, what a prefix makes of the exchange is what a longer one
      does, but for the body bytes between them. */
  lemma {:induction false} BodyRunsOn(w: string, v: Verdict, i: nat, j: nat)
    requires i <= j <= |w| && Wanted(w[..j], v) && Taken(w[..i], v).phase == Body
    ensures j - i <= Taken(w[..i], v).bodyLeft && Taken(w[..j], v) == BodyBytes(Taken(w[..i], v), w[i..j])
    decreases j
  {
    hide HeadByte;
    var c := Taken(w[..i], v);
    if i == j {
      assert w[i..j] == "" && c.body + "" == c.body;
    } else {
      assert w[..j][..j - 1] == w[..j - 1];
      BodyRunsOn(w, v, i, j - 1);
      assert w[i..j] == w[i..j - 1] + [w[j - 1]];
      Associate(c.body, w[i..j - 1], [w[j - 1]]);
    }
  }

  /** Where one sink has answered so has the other. */
  lemma SinksAgree(a: HttpConn, b: HttpConn, w: string, closes: bool)
    requires HasItsFill(a, w, closes) && HasItsFill(b, w, closes) && a.verdict == b.verdict
    requires a.answered == FromSink
    ensures b.answered == FromSink
  {
    hide HeadByte, Taken, Wanted;
    TakenIsPrefix(a, w);
    TakenIsPrefix(b, w);
    if b.answered != FromSink {
      FillIsSettled(b, w, closes);
      if |b.taken| < |a.taken| {
        WantedBefore(w, a.verdict, |b.taken|, |a.taken|);
        assert false;
      } else {
        BodyRunsOn(w, a.verdict, |a.taken|, |b.taken|);
      }
    }
  }

  /** Split independence: of two exchanges sent the same request, for the same
      handler, however it was cut up on its way into their rings and whenever
      they were served, once each has its fill: either both sinks have answered
      or neither; and the two have taken the same bytes and are the same, but for
      an answer at the end that is still to come, and for what a sink takes past
      the byte it answers at in the call in which it does. What has arrived may
      differ: an exchange refused or answered stops draining its ring wherever the
      rest of the request then is. */
  lemma SplitIndependence(a: HttpConn, b: HttpConn, w: string, closes: bool)
    requires HasItsFill(a, w, closes) && HasItsFill(b, w, closes) && a.verdict == b.verdict
    ensures a.answered == FromSink <==> b.answered == FromSink
    ensures a.answered != FromSink || |a.taken| == |b.taken| ==>
              a.taken == b.taken && a.consumed == b.consumed && a.Unanswered() == b.Unanswered()
    ensures a.answered == b.answered && |a.taken| == |b.taken| ==> a.conn == b.conn
    ensures a.answered == FromSink ==>
              && a.conn.req == b.conn.req
              && |a.conn.body| >= a.verdict.answersAt.value && |b.conn.body| >= a.verdict.answersAt.value
              && a.conn.body[..a.verdict.answersAt.value] == b.conn.body[..a.verdict.answersAt.value]
  {
    hide HeadByte, Taken, Wanted;
    TakenIsPrefix(a, w);
    TakenIsPrefix(b, w);
    if a.answered == FromSink {
      SinksAgree(a, b, w, closes);
      if |a.taken| <= |b.taken| {
        BodyRunsOn(w, a.verdict, |a.taken|, |b.taken|);
      } else {
        BodyRunsOn(w, a.verdict, |b.taken|, |a.taken|);
      }
    } else {
      if b.answered == FromSink {
        SinksAgree(b, a, w, closes);
      }
      FillIsSettled(a, w, closes);
      FillIsSettled(b, w, closes);
      if |a.taken| <= |b.taken| {
        PrefixIsSettled(w, a.verdict, |a.taken|, |b.taken|);
      } else {
        PrefixIsSettled(w, a.verdict, |b.taken|, |a.taken|);
      }
    }
  }

  lemma TakenIsPrefix(c: HttpConn, w: string)
    requires c.Valid() && c.arrived <= w
    ensures c.taken == w[..|c.taken|]
  {
    assert c.taken == c.arrived[..|c.taken|];
  }

  lemma FillIsSettled(c: HttpConn, w: string, closes: bool)
    requires HasItsFill(c, w, closes) && c.taken == w[..|c.taken|] && c.answered != FromSink
    ensures |c.taken| == |w| || !Wants(Taken(w[..|c.taken|], c.verdict))
    ensures Wants(Taken(c.taken, c.verdict)) ==> c.Ended() == closes
  {
    hide HeadByte, Taken, Wanted;
    assert c.rx.len == 0 ==> c.taken == c.arrived;
  }
}
