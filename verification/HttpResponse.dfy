/** The response half of an HTTP exchange and the link that carries it
    (src/http_conn.c, src/http_transport.c): what is put in the tx ring is the
    promised framing, and what is sent is kept there until acknowledged. */
module HttpResponse {
  import opened NetRing
  import opened Words
  import opened Decimals
  import opened Wrappers
  import HttpHead

  const HTTP_TX_RING := 2048
  const HTTP_HDR_MAX := 384
  const HTTP_IDLE_MS := 20_000
  const CONTINUE := "HTTP/1.1 100 Continue\r\n\r\n"

  function Reason(status: nat): string {
    match status
    case 100 => "Continue"
    case 200 => "OK"
    case 201 => "Created"
    case 400 => "Bad Request"
    case 404 => "Not Found"
    case 405 => "Method Not Allowed"
    case 409 => "Conflict"
    case 411 => "Length Required"
    case 413 => "Content Too Large"
    case 414 => "URI Too Long"
    case 431 => "Request Header " + "Fields Too Large"
    case 501 => "Not Implemented"
    case 503 => "Service Unavailable"
    case _ => if status >= 500 then "Internal Server Error" else "Error"
  }

  datatype Head = Head(status: nat, common: string, ctype: string, len: u32, extra: string)

  function HeaderBlock(h: Head): string {
    "HTTP/1.1 " + Shown(h.status) + " " + Reason(h.status) + "\r\n" + h.common
    + "Connection: close\r\nContent-Type: " + h.ctype + "\r\nContent-Length: " + Shown(h.len) + "\r\n"
    + h.extra + "\r\n"
  }

  /** The parser of the request half reads the length announced here. */
  lemma AnnouncedLengthReads(n: u32)
    ensures HttpHead.ParsedLength(Shown(n)) ==
            if n <= HttpHead.LENGTH_MAX then HttpHead.Length.Length(n) else HttpHead.TooLarge
  {
    ShownIsDecimal(n);
    HttpHead.DigitsBefore(Shown(n), "");
    assert Shown(n) + "" == Shown(n) && Shown(n)[|Shown(n)|..] == "";
  }

  /* ---- The response ---- */

  /** http_conn_t's response half; out is the part of a body still in work. */
  datatype Reply = Reply(headOnly: bool, responded: bool, failed: bool, done: bool, out: string, streaming: bool,
                         streamLeft: nat)

  /** What has been put in the ring so far, as it should read: an interim answer,
      the header announced, the body after it; whole is the body, when it was
      given whole. */
  datatype Story = Story(written: string, interim: string, head: Head, body: string, whole: Option<string>)

  /** A later part of the story: the answer begun is the answer still, and only
      more of it has come. */
  predicate Continues(before: Story, after: Story) {
    && after.interim == before.interim && after.head == before.head && after.whole == before.whole
    && before.body <= after.body && before.written <= after.written
  }

  /** The pieces of a streamed body, in order. */
  function Joined(pieces: seq<string>): string {
    if pieces == [] then "" else Joined(pieces[..|pieces| - 1]) + pieces[|pieces| - 1]
  }

  lemma {:induction false} JoinedOn(body: string, pieces: seq<string>, more: seq<string>)
    ensures body + Joined(pieces + more) == (body + Joined(pieces)) + Joined(more)
  {
    JoinedMore(body + Joined(pieces), [], "");
    if more == [] {
      assert pieces + more == pieces;
    } else {
      var n := |more| - 1;
      JoinedOn(body, pieces, more[..n]);
      assert pieces + more == (pieces + more[..n]) + [more[n]];
      JoinedMore(body, pieces + more[..n], more[n]);
      JoinedMore(body + Joined(pieces), more[..n], more[n]);
      assert more[..n] + [more[n]] == more;
    }
  }

  lemma JoinedMore(body: string, pieces: seq<string>, data: string)
    ensures body + Joined([]) == body
    ensures body + Joined(pieces + [data]) == (body + Joined(pieces)) + data
  {
    assert (pieces + [data])[..|pieces|] == pieces;
  }

  /** Unless it failed, what was written is the header and so much of the body,
      and what is left of the body is the rest of the promise. */
  predicate Framed(r: Reply, g: Story) {
    if !r.responded then !r.failed && !r.done && r.out == "" && !r.streaming && g.written == g.interim
    else
      && (r.done ==> !r.failed && !MoreLeft(r))
      && (!r.failed ==> g.written == g.interim + (HeaderBlock(g.head) + g.body) && BodyPromise(r, g))
  }

  predicate BodyPromise(r: Reply, g: Story) {
    if r.headOnly then g.body == "" && r.out == "" && !r.streaming
    else
      && |g.body| + |r.out| + (if r.streaming then r.streamLeft else 0) == g.head.len
      && (r.streaming ==> r.out == "" && g.whole == None)
      && (!r.streaming ==> g.whole == Some(g.body + r.out))
  }

  predicate MoreLeft(r: Reply) {
    r.out != "" || (r.streaming && r.streamLeft > 0)
  }

  /** A whole response: the header and as much body as it promises, or, to HEAD,
      the header alone. */
  predicate WholeResponse(r: Reply, g: Story, text: string) {
    && text == g.interim + (HeaderBlock(g.head) + g.body)
    && |g.body| == (if r.headOnly then 0 else g.head.len)
    && (g.whole.Some? && !r.headOnly ==> g.body == g.whole.value)
  }

  lemma BodyGrows(interim: string, header: string, body: string, more: string)
    ensures (interim + (header + body)) + more == interim + (header + (body + more))
  {
  }

  lemma DoneIsWhole(r: Reply, g: Story)
    requires Framed(r, g) && r.done
    ensures WholeResponse(r, g, g.written)
  {
    assert g.body + "" == g.body;
  }

  /** Nothing is left to write exactly when all of the promised body has been. */
  lemma NothingLeftIsWhole(r: Reply, g: Story)
    requires Framed(r, g) && r.responded && !r.failed
    ensures !MoreLeft(r) <==> |g.body| == (if r.headOnly then 0 else g.head.len)
  {
    hide HeaderBlock;
  }

  lemma DoneHasNotFailed(r: Reply, g: Story)
    requires Framed(r, g) && r.done
    ensures !r.failed
  {
  }

  /* ---- The link ---- */

  datatype LinkPhase = Listening | Bound | Draining

  /** A call on the link: the scheduler's, the stack's, or the net task's pass. */
  datatype Call =
    | Serving
    | Copying(mss: nat)
    | Acking(bytes: nat)
    | Retransmitting
    | Passing(held: bool, mustLetGo: bool, peer: bool, closed: bool, consumed: bool, mss: nat, now: u32)

  datatype Link = Link(phase: LinkPhase, closing: bool, inFlight: nat, moved: bool, lastMs: u32, served: nat)

  class HttpLink {
    const tx: Ring<char>
    var r: Reply
    var l: Link
    ghost var g: Story
    ghost var acked: string

    /** Acknowledged bytes, then the ring's, are all that was written; what is in
        flight is the front of the ring. */
    ghost predicate Valid()
      reads this, tx, tx.buf
    {
      && tx.Valid() && tx.buf.Length == HTTP_TX_RING
      && acked + tx.Contents() == g.written
      && l.inFlight <= tx.len
      && Framed(r, g)
      && g.interim in {"", CONTINUE}
      && (l.closing ==> r.done)
    }

    /** A connected link given an exchange. */
    constructor (tx: Ring<char>, headOnly: bool, now: u32)
      requires tx.Valid() && tx.buf.Length == HTTP_TX_RING && tx.Contents() == ""
      ensures Valid() && l.phase == Bound && l.served == 0 && r.headOnly == headOnly && !r.responded
      ensures this.tx == tx && acked == "" && g.interim == ""
    {
      this.tx := tx;
      r := Reply(headOnly, false, false, false, "", false, 0);
      l := Link(Bound, false, 0, false, now, 0);
      acked := "";
      g := Story("", "", Head(0, "", "", 0, ""), "", None);
    }

    /** Into the ring, as much as there is room for. */
    method Write(src: string) returns (k: nat)
      requires tx.Valid() && acked + tx.Contents() == g.written
      modifies `g, tx`len, tx.buf
      ensures tx.Valid() && acked + tx.Contents() == g.written
      ensures k == Min(|src|, old(tx.Writable())) && tx.len == old(tx.len) + k
      ensures g == old(g).(written := old(g).written + src[..k])
    {
      k := tx.Write(src);
      Associate(acked, old(tx.Contents()), src[..k]);
      g := g.(written := g.written + src[..k]);
    }

    /** The interim answer to a request whose sender waits for it, once. */
    method Interim()
      requires Valid() && !r.responded && g.interim == ""
      modifies `g, tx`len, tx.buf
      ensures Valid() && g == old(g).(written := CONTINUE, interim := CONTINUE)
    {
      assert |acked| + tx.len == |g.written| == 0;
      var k := Write(CONTINUE);
      assert "" + CONTINUE[..k] == CONTINUE;
      g := g.(interim := CONTINUE);
    }

    /** begin_response(): the header always has room, so it fails just when it is
        too long for its own buffer. */
    method Begin(h: Head)
      requires Valid() && !r.responded
      modifies `r, `g, tx`len, tx.buf
      ensures tx.Valid() && acked + tx.Contents() == g.written && l.inFlight <= tx.len
      ensures r == old(r).(responded := true, failed := |HeaderBlock(h)| >= HTTP_HDR_MAX)
      ensures g.interim == old(g.interim) && old(g.written) <= g.written
      ensures !r.failed ==> tx.len == old(tx.len) + |HeaderBlock(h)|
      ensures !r.failed ==> g == old(g).(written := old(g).interim + HeaderBlock(h), head := h, body := "")
    {
      hide HeaderBlock;
      var hdr := HeaderBlock(h);
      r := r.(responded := true);
      if |hdr| >= HTTP_HDR_MAX {
        r := r.(failed := true);
        return;
      }
      assert |acked| + tx.len == |g.written|;
      var k := Write(hdr);
      r := r.(failed := k != |hdr|);
      assert hdr[..k] == hdr;
      g := g.(head := h, body := "");
    }

    /** respond(): a body given whole, copied into the ring and the rest of it
        into work, if it is not there already. */
    method Respond(h: Head, body: string, inWork: bool)
      requires Valid() && h.len == |body| && (inWork ==> |body| <= HttpHead.HTTP_WORK_SIZE)
      modifies `r, `g, tx`len, tx.buf
      ensures Valid()
      ensures old(r.responded) ==> r == old(r) && g == old(g)
      ensures r.headOnly == old(r.headOnly) && r.streaming == old(r.streaming)
      ensures g.interim == old(g.interim) && old(g.written) <= g.written
      ensures !old(r.responded) ==>
                && r.responded && r.done == old(r.done)
                && r.failed == (|HeaderBlock(h)| >= HTTP_HDR_MAX || (!r.headOnly && !inWork &&
                |body| > HttpHead.HTTP_WORK_SIZE + HTTP_TX_RING - (old(tx.len) + |HeaderBlock(h)|)))
      ensures !old(r.responded) && !r.failed ==> g.head == h && g.whole == Some(if r.headOnly then "" else body)
    {
      hide HeaderBlock;
      if r.responded {
        return;
      }
      Begin(h);
      g := g.(whole := Some(if r.headOnly then "" else body));
      assert HeaderBlock(h) + "" == HeaderBlock(h);
      if r.headOnly || r.failed || body == "" {
        assert "" + r.out == "";
        return;
      }
      assert "" + body == body;
      r := r.(out := body);
      PutBody(inWork);
    }

    /** The body's beginning goes straight into the ring; what is left must be in
        work, or fit there. */
    method PutBody(inWork: bool)
      requires Valid() && r.responded && !r.failed && !r.done && !r.headOnly && r.out != "" && r.out == g.whole.value
      modifies `r, `g, tx`len, tx.buf
      ensures Valid() && r == old(r).(out := r.out, failed := r.failed)
      ensures Continues(old(g), g)
      ensures r.failed == (!inWork && |old(r.out)| > HttpHead.HTTP_WORK_SIZE + old(tx.Writable()))
    {
      hide HeaderBlock;
      var some := r.out[..Min(0xFFFF, |r.out|)];
      var k := Write(some);
      assert some[..k] == r.out[..k];
      if k > 0 {
        PieceSent(r.out, k);
      } else {
        assert g.written + some[..0] == g.written;
      }
      if !inWork && |r.out| > HttpHead.HTTP_WORK_SIZE {
        r := r.(out := "", failed := true);
      }
    }

    /** refuse() with a 405, whose header says what is allowed: the whole body into
        the ring, or a failure. */
    method RefuseMethod(h: Head, why: string)
      requires Valid() && !r.responded && !r.headOnly && h.len == |why| && why != ""
      modifies `r, `g, tx`len, tx.buf
      ensures Valid() && r.responded && r.out == "" && !r.headOnly
      ensures g.interim == old(g.interim) && old(g.written) <= g.written
      ensures !r.failed ==> g.head == h && g.whole == Some(why) && g.body == why
    {
      hide HeaderBlock;
      Begin(h);
      if r.failed {
        return;
      }
      var k := Write(why);
      r := r.(failed := k != |why|);
      assert HeaderBlock(h) + "" == HeaderBlock(h) && "" + why == why && why + "" == why && why[..|why|] == why;
      BodyGrows(g.interim, HeaderBlock(h), "", why);
      g := g.(body := why, whole := Some(why));
    }

    /** http_respond_stream() */
    method RespondStream(h: Head)
      requires Valid()
      modifies `r, `g, tx`len, tx.buf
      ensures Valid()
      ensures old(r.responded) ==> r == old(r) && g == old(g)
      ensures r.responded && r.headOnly == old(r.headOnly)
      ensures g.interim == old(g.interim) && old(g.written) <= g.written
      ensures !old(r.responded) ==> !r.done && r.streaming == !r.headOnly
      ensures !old(r.responded) ==> r.failed == (|HeaderBlock(h)| >= HTTP_HDR_MAX)
      ensures !old(r.responded) && !r.failed ==> g.head == h && g.body == "" && g.whole == None
    {
      hide HeaderBlock;
      if r.responded {
        return;
      }
      Begin(h);
      g := g.(whole := None);
      assert HeaderBlock(h) + "" == HeaderBlock(h);
      r := r.(streaming := !r.headOnly, streamLeft := if r.headOnly then 0 else h.len);
    }

    /** pump(): the rest of a body given whole. */
    method PumpOut() returns (room: bool)
      requires Valid() && r.responded && !r.failed && !r.done
      modifies `r, `g, tx`len, tx.buf
      ensures Valid() && Continues(old(g), g) && (old(r.out) == "" ==> g == old(g))
      ensures r == old(r).(out := r.out) && (room ==> r.out == "") && (!room ==> tx.len == HTTP_TX_RING)
    {
      hide HeaderBlock;
      while r.out != ""
        invariant Valid() && r == old(r).(out := r.out)
        invariant Continues(old(g), g) && (old(r.out) == "" ==> g == old(g))
        decreases |r.out|
      {
        var some := r.out[..Min(0xFFFF, |r.out|)];
        var k := Write(some);
        assert some[..k] == r.out[..k];
        if k == 0 {
          assert g.written + some[..0] == g.written;
          return false;
        }
        PieceSent(r.out, k);
      }
      return true;
    }

    /** k of the body's bytes are in the ring: the promise moves on by them. */
    method PieceSent(out: string, k: nat)
      requires r.out == out && k <= |out| && 0 < k
      requires tx.Valid() && tx.buf.Length == HTTP_TX_RING && acked + tx.Contents() == g.written
      requires l.inFlight <= tx.len && g.interim in {"", CONTINUE} && (l.closing ==> r.done)
      requires r.responded && !r.failed && !r.done && BodyPromise(r, g)
      requires g.written == (g.interim + (HeaderBlock(g.head) + g.body)) + out[..k]
      modifies `r, `g
      ensures Valid() && r == old(r).(out := out[k..]) && g == old(g).(body := old(g).body + out[..k])
    {
      hide HeaderBlock;
      BodyGrows(g.interim, HeaderBlock(g.head), g.body, out[..k]);
      assert g.body + out == (g.body + out[..k]) + out[k..];
      g := g.(body := g.body + out[..k]);
      r := r.(out := out[k..]);
    }

    /** pump(): a streamed body, from the handler, which gives what it likes of
        what it is asked for and fails by giving nothing: what it gives joins the
        body, in order. */
    method PumpStream() returns (given: seq<string>)
      requires Valid() && r.responded && !r.failed && !r.done && r.out == ""
      modifies `r, `g, tx`len, tx.buf
      ensures Valid() && Continues(old(g), g) && g.body == old(g.body) + Joined(given)
      ensures r == old(r).(streamLeft := r.streamLeft, failed := r.failed)
      ensures r.failed == ("" in given) && (!old(r.streaming) ==> given == [])
      ensures !r.failed && MoreLeft(r) ==> tx.len == HTTP_TX_RING
    {
      hide HeaderBlock, Joined;
      given := [];
      JoinedMore(g.body, [], "");
      while r.streaming && r.streamLeft > 0
        invariant Valid() && r == old(r).(streamLeft := r.streamLeft)
        invariant Continues(old(g), g) && g.body == old(g.body) + Joined(given)
        invariant "" !in given && (!r.streaming ==> given == [])
        decreases r.streamLeft
      {
        var p, span := tx.WriteSpan();
        if span == 0 {
          return;
        }
        var want := if r.streamLeft < span then r.streamLeft else span;
        var data: string := *;
        data := data[..Min(want, |data|)];
        JoinedMore(old(g.body), given, data);
        given := given + [data];
        if data == "" {
          r := r.(failed := true);
          return;
        }
        StreamedIn(data);
      }
    }

    method StreamedIn(data: string)
      requires Valid() && r.responded && !r.failed && !r.done && r.streaming && 0 < |data| <= r.streamLeft
      requires |data| <= tx.Writable() && Turned(tx.tail + tx.len, HTTP_TX_RING) + |data| <= HTTP_TX_RING
      modifies `r, `g, tx`len, tx.buf
      ensures Valid() && r == old(r).(streamLeft := old(r).streamLeft - |data|)
      ensures g == old(g).(written := old(g).written + data, body := old(g).body + data)
    {
      hide HeaderBlock;
      ghost var contents := tx.Contents();
      tx.Put(data);
      Associate(acked, contents, data);
      BodyGrows(g.interim, HeaderBlock(g.head), g.body, data);
      g := g.(written := g.written + data, body := g.body + data);
      r := r.(streamLeft := r.streamLeft - |data|);
    }

    /** The end of http_conn_service(), once the exchange has been answered: a
        call leaves nothing undone that the ring has room for, and the exchange
        is done just when the whole response has been written. */
    method Serve() returns (given: seq<string>)
      requires Valid() && r.responded && !r.done
      modifies `r, `g, tx`len, tx.buf
      ensures Valid() && Continues(old(g), g) && r.responded
      ensures r.headOnly == old(r.headOnly) && r.streaming == old(r.streaming)
      ensures r.failed == (old(r.failed) || "" in given)
      ensures r.streaming ==> g.body == old(g.body) + Joined(given)
      ensures !r.streaming ==> given == []
      ensures r.done == (!r.failed && !MoreLeft(r))
      ensures r.done ==> WholeResponse(r, g, g.written)
      ensures !r.failed && MoreLeft(r) ==> tx.len == HTTP_TX_RING
    {
      hide HeaderBlock;
      given := [];
      JoinedMore(g.body, [], "");
      if !r.failed {
        var room := PumpOut();
        if room {
          given := PumpStream();
        }
      }
      if !r.failed && !MoreLeft(r) {
        r := r.(done := true);
        DoneIsWhole(r, g);
      }
    }

    /* ---- The stack's view of the ring ---- */

    /** more_to_come() */
    predicate MoreToCome()
      reads this
    {
      r.responded && !r.done && MoreLeft(r)
    }

    /** tx_queued(): what the stack is shown. */
    function Queued(mss: nat): nat
      requires tx.Valid()
      reads this, tx
    {
      if l.phase != Bound then 0
      else if l.inFlight > 0 then l.inFlight
      else if tx.len < mss then (if MoreToCome() then 0 else tx.len)
      else mss
    }

    /** tx_copy_segment(): with none in flight, just the bytes the stack was
        shown, off the front of what is unacknowledged; and a part of a segment
        waits only while there is more to come and room for it. */
    method CopySegment(mss: nat) returns (segment: string)
      requires Valid() && 0 < mss <= HTTP_TX_RING
      modifies `l
      ensures Valid() && l == old(l).(inFlight := l.inFlight)
      ensures old(l.inFlight) == 0 ==> |segment| == old(Queued(mss))
      ensures segment <= tx.Contents() && acked + segment <= g.written
      ensures if segment == "" then l == old(l) || l.inFlight == 0 else l.inFlight == |segment| <= mss
      ensures old(l.inFlight) == 0 && l.phase == Bound && tx.len > 0 && segment == "" ==>
                MoreToCome() && tx.Writable() > 0
    {
      hide Framed;
      if l.phase != Bound || l.inFlight > 0 {
        return "";
      }
      if tx.len < mss && MoreToCome() {
        return "";
      }
      var n := if tx.len < mss then tx.len else mss;
      var toEnd := tx.buf.Length - tx.tail;
      var first := if n < toEnd then n else toEnd;
      segment := tx.buf[tx.tail..tx.tail + first] + tx.buf[..n - first];
      assert segment == tx.Contents()[..n];
      l := l.(inFlight := n);
      assert acked + segment <= acked + tx.Contents();
    }

    /** tx_ack(): what is acknowledged of the segment in flight leaves the ring. */
    method Ack(bytes: nat)
      requires Valid()
      modifies `l, `acked, tx`tail, tx`len
      ensures Valid()
      ensures var n := Min(bytes, old(l.inFlight));
              && l == old(l).(inFlight := old(l).inFlight - n, moved := true)
              && acked == old(acked) + (if l.phase == Bound then old(tx.Contents())[..n] else "")
    {
      hide Framed;
      var n := if bytes < l.inFlight then bytes else l.inFlight;
      if l.phase == Bound {
        ghost var c := tx.Contents();
        tx.Discard(n);
        assert c == c[..n] + c[n..];
        Associate(acked, c[..n], c[n..]);
        acked := acked + c[..n];
      }
      l := l.(inFlight := l.inFlight - n, moved := true);
    }

    /** tx_mark_retransmit(): the next segment is again the front of what is
        unacknowledged. */
    method MarkRetransmit()
      requires Valid()
      modifies `l
      ensures Valid() && l == old(l).(inFlight := 0)
    {
      l := l.(inFlight := 0);
    }

    /* ---- The net task's pass over a bound link ---- */

    /** finish_closing(): served once all of a whole response is acknowledged. */
    method FinishClosing(closed: bool, now: u32)
      requires Valid() && l.phase == Bound && l.closing
      modifies `l
      ensures Valid() && (l.served == old(l.served) || l.served == old(l.served) + 1)
      ensures l.served > old(l.served) <==> tx.len == 0
      ensures l.served > old(l.served) ==> r.done && WholeResponse(r, g, acked) && l.phase == Draining
      ensures tx.len > 0 && l.phase == Bound ==> l == old(l)
    {
      hide Framed, WholeResponse;
      if tx.Readable() == 0 {
        DoneIsWhole(r, g);
        assert acked + "" == acked;
        l := l.(served := l.served + 1, phase := Draining, closing := false, lastMs := now);
      } else if closed || Sub(now, l.lastMs) > HTTP_IDLE_MS {
        Abort();
      }
    }

    method Abort()
      requires Valid()
      modifies `l
      ensures Valid() && l == old(l).(phase := Listening, closing := false, inFlight := 0)
    {
      l := l.(phase := Listening, closing := false, inFlight := 0);
    }

    /** transport_bound(), the stack taking a segment when it is told to or not. */
    method Pass(held: bool, mustLetGo: bool, peer: bool, closed: bool, consumed: bool, mss: nat, now: u32)
      requires Valid() && l.phase == Bound && 0 < mss <= HTTP_TX_RING
      modifies `l
      ensures Valid() && (l.served == old(l.served) || l.served == old(l.served) + 1)
      ensures l.served > old(l.served) ==> r.done && WholeResponse(r, g, acked) && l.phase == Draining
      ensures l.closing && !old(l.closing) ==> WholeResponse(r, g, g.written) && tx.len == l.inFlight
      ensures held ==> l == old(l).(moved := false, lastMs := l.lastMs)
    {
      hide Framed, WholeResponse, HeaderBlock, Around;
      if l.moved {
        l := l.(moved := false, lastMs := now);
      }
      if held {
        return;
      }
      if mustLetGo {
        Abort();
        return;
      }
      if l.closing {
        FinishClosing(closed, now);
        return;
      }
      if !peer {
        Abort();
        return;
      }
      if consumed {
        l := l.(lastMs := now);
      }
      if l.inFlight == 0 && tx.Readable() > 0 {
        if * {
          var segment := CopySegment(mss);
        }
      }
      if r.failed {
        Abort();
      } else if r.done && tx.Readable() == l.inFlight {
        DoneIsWhole(r, g);
        l := l.(closing := true);
      } else if Sub(now, l.lastMs) > HTTP_IDLE_MS {
        Abort();
      }
    }

    /* ---- From the answer to the end of the link ---- */

    /** One call, of those that an answered link can get. */
    method Called(c: Call) returns (ghost given: seq<string>)
      requires Valid() && r.responded
      modifies `r, `l, `g, `acked, tx, tx.buf
      ensures Valid() && Continues(old(g), g) && r.responded && r.headOnly == old(r.headOnly)
      ensures r.streaming == old(r.streaming) && (r.streaming ==> g.body == old(g.body) + Joined(given))
      ensures old(r.failed) ==> r.failed
      ensures old(r.done) ==> r == old(r) && g == old(g)
      ensures l.served == old(l.served) || l.served == old(l.served) + 1
      ensures l.served > old(l.served) ==> old(l.phase) == Bound && l.phase == Draining
      ensures l.served > old(l.served) ==> r.done && WholeResponse(r, g, acked)
      ensures old(l.phase) != Bound ==> l.phase == old(l.phase) && acked == old(acked)
    {
      hide Framed, WholeResponse, HeaderBlock, MoreLeft, Joined;
      given := [];
      JoinedMore(g.body, [], "");
      match c
      case Serving =>
        if !r.done {
          var pieces := Serve();
          given := pieces;
        }
      case Copying(mss) =>
        if 0 < mss <= HTTP_TX_RING {
          var segment := CopySegment(mss);
        }
      case Acking(bytes) =>
        Ack(bytes);
      case Retransmitting =>
        MarkRetransmit();
      case Passing(held, mustLetGo, peer, closed, consumed, mss, now) =>
        if l.phase == Bound && 0 < mss <= HTTP_TX_RING {
          Pass(held, mustLetGo, peer, closed, consumed, mss, now);
        }
    }

    /** Any calls, in any order, after an answer has been begun: the answer begun
        is what is written, and a link is served at most once, all of it
        acknowledged. */
    method Calls(calls: seq<Call>) returns (ghost given: seq<string>)
      requires Valid() && r.responded && l.phase == Bound
      modifies `r, `l, `g, `acked, tx, tx.buf
      ensures Valid() && Continues(old(g), g) && r.responded && r.headOnly == old(r.headOnly)
      ensures r.streaming == old(r.streaming) && (r.streaming ==> g.body == old(g.body) + Joined(given))
      ensures r.done ==> !old(r.failed) && WholeResponse(r, g, g.written)
      ensures l.served == old(l.served) || (l.served == old(l.served) + 1 && r.done && WholeResponse(r, g, acked))
    {
      hide Framed, WholeResponse, HeaderBlock, Joined;
      given := [];
      JoinedMore(g.body, [], "");
      for i := 0 to |calls|
        invariant Valid() && Continues(old(g), g) && r.responded && r.headOnly == old(r.headOnly)
        invariant r.streaming == old(r.streaming) && (r.streaming ==> g.body == old(g.body) + Joined(given))
        invariant old(r.failed) ==> r.failed
        invariant l.served == old(l.served)
               || (l.served == old(l.served) + 1 && WholeResponse(r, g, acked) && l.phase == Draining && r.done)
      {
        ghost var more := Called(calls[i]);
        JoinedOn(old(g.body), given, more);
        given := given + more;
      }
      if r.done {
        DoneIsWhole(r, g);
        DoneHasNotFailed(r, g);
      }
    }

    /** A body given whole, from its answer through any calls: once done, what
        has been written is the interim answer, the header and that body; once
        served, that is what the peer has acknowledged. */
    method RespondThroughout(h: Head, body: string, inWork: bool, calls: seq<Call>)
      requires Valid() && !r.responded && l.phase == Bound
      requires h.len == |body| && (inWork ==> |body| <= HttpHead.HTTP_WORK_SIZE)
      modifies `r, `l, `g, `acked, tx, tx.buf
      ensures Valid() && r.headOnly == old(r.headOnly) && g.interim == old(g.interim)
      ensures var text := old(g.interim) + (HeaderBlock(h) + (if r.headOnly then "" else body));
              && (r.done ==> g.written == text)
              && (l.served == old(l.served) || (l.served == old(l.served) + 1 && acked == text))
    {
      hide Framed, HeaderBlock;
      Respond(h, body, inWork);
      ghost var given := Calls(calls);
    }

    /** The same of a streamed answer: as much as was promised, and it is what the
        handler gave over all the calls, in order. */
    method StreamThroughout(h: Head, calls: seq<Call>) returns (ghost given: seq<string>)
      requires Valid() && !r.responded && l.phase == Bound
      modifies `r, `l, `g, `acked, tx, tx.buf
      ensures Valid() && r.headOnly == old(r.headOnly) && g.interim == old(g.interim)
      ensures var body := if r.headOnly then "" else Joined(given);
              && (r.done ==> g.written == old(g.interim) + (HeaderBlock(h) + body))
              && (r.done ==> |body| == if r.headOnly then 0 else h.len)
      ensures l.served == old(l.served) || (l.served == old(l.served) + 1 && r.done && acked == g.written)
    {
      hide Framed, HeaderBlock, Joined;
      RespondStream(h);
      given := Calls(calls);
      assert "" + Joined(given) == Joined(given);
    }
  }
}
