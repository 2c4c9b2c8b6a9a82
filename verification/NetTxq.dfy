/** Frames waiting for the USB endpoint (src/net_txq.c), each its length in two
    bytes and then itself, packed in one buffer. The queue is proved against the
    sequence of frames it holds. */
module NetTxq {
  import opened Wrappers

  const NET_TXQ_BYTES := 256
  const LEN_BYTES := 2

  /** A frame, whose length is a uint16_t. */
  type Frame = f: seq<byte> | |f| < 0x1_0000

  /* ---- The packing ---- */

  function Packed(f: Frame): seq<byte> {
    [|f| % 256, |f| / 256] + f
  }

  function Packing(fs: seq<Frame>): seq<byte> {
    if fs == [] then [] else Packed(fs[0]) + Packing(fs[1..])
  }

  /** What bytes decode to, taken as whole packed frames. */
  function Unpacked(b: seq<byte>): Option<seq<Frame>>
    decreases |b|
  {
    if b == [] then Some([])
    else if |b| < LEN_BYTES then None
    else
      var len: nat := b[0] as int + 256 * (b[1] as int);
      if |b| < LEN_BYTES + len then None
      else
        match Unpacked(b[LEN_BYTES + len..])
        case None => None
        case Some(fs) => Some([b[LEN_BYTES..LEN_BYTES + len]] + fs)
  }

  /** A packing decodes to exactly the frames packed. */
  lemma {:induction false} UnpackPacking(fs: seq<Frame>)
    ensures Unpacked(Packing(fs)) == Some(fs)
  {
    if fs != [] {
      var f, b := fs[0], Packing(fs);
      UnpackPacking(fs[1..]);
      PackedLength(f, Packing(fs[1..]));
      assert b[LEN_BYTES + |f|..] == Packing(fs[1..]);
      assert b[LEN_BYTES..LEN_BYTES + |f|] == f;
      assert [f] + fs[1..] == fs;
    }
  }

  lemma PackedLength(f: Frame, rest: seq<byte>)
    ensures var b := Packed(f) + rest; |b| >= LEN_BYTES && b[0] as int + 256 * (b[1] as int) == |f|
  {
    assert (Packed(f) + rest)[0] == |f| % 256 && (Packed(f) + rest)[1] == |f| / 256;
  }

  lemma SliceOfSlice(s: seq<byte>, from: nat, to: nat, i: nat, j: nat)
    requires from <= to <= |s| && i <= j <= to - from
    ensures s[from..to][i..j] == s[from + i..from + j]
  {
    var a, b := s[from..to][i..j], s[from + i..from + j];
    assert |a| == |b|;
    forall m | 0 <= m < |a| ensures a[m] == b[m] {
      assert a[m] == s[from..to][i + m];
    }
  }

  lemma PackedParts(f: Frame, rest: seq<byte>)
    ensures var b, k := Packed(f) + rest, LEN_BYTES + |f|; |b| >= k && b[LEN_BYTES..k] == f && b[k..] == rest
  {
  }

  lemma {:induction false} PackingAppends(fs: seq<Frame>, f: Frame)
    ensures Packing(fs + [f]) == Packing(fs) + Packed(f)
  {
    if fs == [] {
      assert Packing([f]) == Packed(f) + Packing([]);
    } else {
      PackingAppends(fs[1..], f);
      assert (fs + [f])[1..] == fs[1..] + [f];
    }
  }

  lemma {:induction false} PackingIsLong(fs: seq<Frame>)
    ensures |Packing(fs)| >= LEN_BYTES * |fs|
  {
    if fs != [] {
      PackingIsLong(fs[1..]);
    }
  }

  lemma NothingPacked()
    ensures Packing([]) == []
  {
  }

  /* ---- The endpoint ---- */

  /** The host's side of the cable: whether it is there, and whether the endpoint
      takes a frame, are its own affair at each call. */
  class Endpoint {
    ghost var sent: seq<Frame>
    ghost var gone: bool           // the newest answer: the host is not there
    ghost var refused: Option<nat> // the length last refused, unless one was taken since

    constructor ()
      ensures sent == []
    {
      sent := [];
    }

    method Ready() returns (ready: bool)
      modifies `gone
      ensures gone == !ready
    {
      ready := *;
      gone := !ready;
    }

    method CanSend(len: nat) returns (can: bool)
      modifies `refused
      ensures refused == if can then None else Some(len)
    {
      can := *;
      refused := if can then None else Some(len);
    }

    method Send(frame: Frame)
      modifies `sent
      ensures sent == old(sent) + [frame]
    {
      sent := sent + [frame];
    }
  }

  datatype TxResult = Sent | Held | Full | NotReady

  /* ---- The queue ---- */

  class TxQueue {
    const buf: array<byte>
    var head: nat
    var tail: nat
    var n: nat

    const ops: Endpoint
    /** The frames held; those accepted since the queue was last flushed, and
        what had been sent by then. */
    ghost var held: seq<Frame>
    ghost var accepted: seq<Frame>
    ghost var sentBefore: seq<Frame>

    ghost predicate Valid()
      reads this, buf, ops
    {
      && buf.Length == NET_TXQ_BYTES
      && head <= tail <= NET_TXQ_BYTES
      && buf[head..tail] == Packing(held)
      && n == |held| < 256
      && ops.sent + held == sentBefore + accepted
    }

    constructor (ops: Endpoint)
      ensures Valid() && this.ops == ops && fresh(buf) && held == [] && accepted == [] && sentBefore == ops.sent
    {
      buf := new byte[NET_TXQ_BYTES];
      head, tail, n := 0, 0, 0;
      this.ops := ops;
      held, accepted, sentBefore := [], [], ops.sent;
    }

    function LenAt(at: nat): nat
      requires at + 1 < buf.Length
      reads buf
    {
      buf[at] as int + 256 * (buf[at + 1] as int)
    }

    /** The queue starts over: no frame is owed, and what is accepted counts from
        what has been sent by now. */
    method Flush()
      requires Valid()
      modifies this
      ensures Valid() && held == [] && accepted == [] && sentBefore == ops.sent
    {
      NothingPacked();
      head, tail, n := 0, 0, 0;
      held, accepted, sentBefore := [], [], ops.sent;
      assert buf[head..tail] == [];
    }

    /** The oldest frame, where it lies. */
    lemma HeadFrame()
      requires Valid() && n > 0
      ensures head + LEN_BYTES + |held[0]| <= tail
      ensures LenAt(head) == |held[0]|
      ensures buf[head + LEN_BYTES..head + LEN_BYTES + |held[0]|] == held[0]
      ensures buf[head + LEN_BYTES + |held[0]|..tail] == Packing(held[1..])
    {
      var f, b := held[0], buf[head..tail];
      var k := LEN_BYTES + |f|;
      PackedLength(f, Packing(held[1..]));
      PackedParts(f, Packing(held[1..]));
      assert b == Packed(f) + Packing(held[1..]);
      assert b[0] == buf[head] && b[1] == buf[head + 1];
      SliceOfSlice(buf[..], head, tail, LEN_BYTES, k);
      SliceOfSlice(buf[..], head, tail, k, tail - head);
      assert b[k..tail - head] == b[k..];
    }

    /** With the host gone, everything held is dropped. Otherwise frames go, the
        oldest first, until none is left or the endpoint refuses the next. */
    method Drain() returns (ghost flushed: bool)
      requires Valid()
      modifies this, ops
      ensures Valid()
      ensures flushed ==> held == [] && accepted == [] && ops.sent == old(ops.sent)
      ensures !flushed ==> accepted == old(accepted) && sentBefore == old(sentBefore)
      ensures !flushed ==> ops.sent + held == old(ops.sent + held) && |held| <= old(|held|)
      ensures flushed == ops.gone
      ensures !flushed && held != [] ==> ops.refused == Some(|held[0]|)
    {
      hide Packing;
      var ready := ops.Ready();
      if !ready {
        Flush();
        return true;
      }
      flushed := false;
      while n > 0
        invariant Valid() && accepted == old(accepted) && sentBefore == old(sentBefore)
        invariant ops.sent + held == old(ops.sent + held) && |held| <= old(|held|) && !ops.gone
        decreases n
      {
        HeadFrame();
        var len := LenAt(head);
        var can := ops.CanSend(len);
        if !can {
          break;
        }
        ops.Send(buf[head + LEN_BYTES..head + LEN_BYTES + len]);
        head := head + LEN_BYTES + len;
        n := n - 1;
        held := held[1..];
      }
      if n == 0 {
        NothingPacked();
        head, tail := 0, 0;
      }
    }

    /** Made exactly when the bytes held and the need fit the buffer together; the
        packing may slide to its start, and is the same packing. */
    method MakeRoom(need: nat) returns (made: bool)
      requires Valid()
      modifies `head, `tail, buf
      ensures Valid()
      ensures made <==> |Packing(held)| + need <= NET_TXQ_BYTES
      ensures made ==> tail + need <= NET_TXQ_BYTES
    {
      assert |buf[head..tail]| == tail - head;
      if NET_TXQ_BYTES - tail >= need {
        return true;
      }
      ghost var was := buf[head..tail];
      forall i | 0 <= i < tail - head {
        buf[i] := buf[head + i];
      }
      assert buf[..tail - head] == was;
      tail := tail - head;
      head := 0;
      return NET_TXQ_BYTES - tail >= need;
    }

    /** A frame is sent at once only with nothing held before it, and otherwise
        joins the end of the queue; a frame refused changes nothing. */
    method Offer(frame: Frame) returns (r: TxResult, ghost flushed: bool)
      requires Valid()
      modifies this, buf, ops
      ensures Valid()
      ensures accepted == (if flushed then [] else old(accepted)) + (if r.Sent? || r.Held? then [frame] else [])
      ensures !flushed ==> sentBefore == old(sentBefore)
      ensures r.Sent? ==> held == []
      ensures r.Held? ==> held != [] && held[|held| - 1] == frame
      ensures r.NotReady? <==> ops.gone
      ensures r.Full? ==> |Packing(held)| + |Packed(frame)| > NET_TXQ_BYTES
    {
      flushed := Drain();
      var ready := ops.Ready();
      if !ready {
        return NotReady, flushed;
      }
      if n == 0 {
        var can := ops.CanSend(|frame|);
        if can {
          SendNow(frame);
          return Sent, flushed;
        }
      }
      var need := LEN_BYTES + |frame|;
      if need > NET_TXQ_BYTES {
        return Full, flushed;
      }
      var made := MakeRoom(need);
      if !made {
        return Full, flushed;
      }
      Append(frame);
      return Held, flushed;
    }

    method SendNow(frame: Frame)
      requires Valid() && n == 0
      modifies `accepted, ops`sent
      ensures Valid() && accepted == old(accepted) + [frame]
    {
      assert ops.sent + held == ops.sent;
      assert sentBefore + (accepted + [frame]) == (sentBefore + accepted) + [frame];
      ops.Send(frame);
      accepted := accepted + [frame];
      assert ops.sent + held == ops.sent;
    }

    /** The frame behind its length, past the tail. */
    method CopyIn(frame: Frame)
      requires head <= tail && tail + |Packed(frame)| <= buf.Length
      modifies buf
      ensures buf[head..tail + |Packed(frame)|] == old(buf[head..tail]) + Packed(frame)
    {
      ghost var was, len := buf[head..tail], LEN_BYTES + |frame|;
      buf[tail] := |frame| % 256;
      buf[tail + 1] := |frame| / 256;
      forall i | 0 <= i < |frame| {
        buf[tail + LEN_BYTES + i] := frame[i];
      }
      assert buf[tail..tail + len] == Packed(frame);
      assert buf[head..tail] == was;
      assert buf[head..tail + len] == buf[head..tail] + buf[tail..tail + len];
    }

    method Append(frame: Frame)
      requires Valid() && tail + |Packed(frame)| <= NET_TXQ_BYTES
      modifies this, buf
      ensures Valid() && held == old(held) + [frame] && accepted == old(accepted) + [frame]
      ensures sentBefore == old(sentBefore)
    {
      hide Packing;
      PackingIsLong(held);
      PackingAppends(held, frame);
      CopyIn(frame);
      tail := tail + LEN_BYTES + |frame|;
      n := n + 1;
      assert ops.sent + (held + [frame]) == (ops.sent + held) + [frame];
      assert sentBefore + (accepted + [frame]) == (sentBefore + accepted) + [frame];
      held := held + [frame];
      accepted := accepted + [frame];
    }
  }
}
