/** The byte ring under the HTTP layer (src/net_ring.c), proved against the
    bounded sequence of bytes it holds. */
module NetRing {
  function Min(a: int, b: int): int {
    if a < b then a else b
  }

  /** The len bytes from tail on, round the end of the buffer. */
  function Around<T>(b: seq<T>, tail: nat, len: nat): seq<T>
    requires tail < |b| && len <= |b|
  {
    if tail + len <= |b| then b[tail..tail + len] else b[tail..] + b[..tail + len - |b|]
  }

  /** A place less than two turns on, back in the buffer. */
  function Turned(i: nat, cap: nat): nat
    requires i < 2 * cap
  {
    if i < cap then i else i - cap
  }

  /** It is the source's remainder. */
  lemma TurnedIsRemainder(i: nat, cap: nat)
    requires i < 2 * cap
    ensures Turned(i, cap) == i % cap
  {
    if i >= cap {
      RemainderOf(i, cap, 1, i - cap);
    } else {
      RemainderOf(i, cap, 0, i);
    }
  }

  lemma RemainderOf(i: nat, cap: nat, q: nat, r: nat)
    requires cap > 0 && i == q * cap + r && r < cap && q <= 1
    ensures i % cap == r
  {
    if q == 0 {
      assert i % cap == i;
    } else {
      assert i / cap == 1 by {
        assert i < cap + cap;
      }
    }
  }

  lemma AroundAt<T>(b: seq<T>, tail: nat, len: nat, i: nat)
    requires tail < |b| && i < len <= |b|
    ensures Around(b, tail, len)[i] == b[Turned(tail + i, |b|)]
  {
  }

  /** Dropping from the front moves the tail round. */
  lemma AroundDrops<T>(b: seq<T>, tail: nat, len: nat, n: nat)
    requires tail < |b| && n <= len <= |b|
    ensures Around(b, Turned(tail + n, |b|), len - n) == Around(b, tail, len)[n..]
  {
  }

  /** Bytes written at the head join the end. */
  lemma AroundGrows<T>(b: seq<T>, c: seq<T>, tail: nat, len: nat, src: seq<T>)
    requires tail < |b| == |c| && len + |src| <= |b|
    requires var head := Turned(tail + len, |b|);
             && head + |src| <= |b|
             && c == b[..head] + src + b[head + |src|..]
    ensures Around(c, tail, len + |src|) == Around(b, tail, len) + src
  {
    if tail + len < |b| {
      FlatGrows(b, c, tail, tail + len, src);
    } else if src == [] {
      assert c == b;
    } else {
      WrappedGrows(b, c, tail, tail + len - |b|, src);
    }
  }

  lemma FlatGrows<T>(b: seq<T>, c: seq<T>, tail: nat, head: nat, src: seq<T>)
    requires tail <= head && head + |src| <= |b| == |c| && c == b[..head] + src + b[head + |src|..]
    ensures c[tail..head + |src|] == b[tail..head] + src
  {
  }

  lemma WrappedGrows<T>(b: seq<T>, c: seq<T>, tail: nat, head: nat, src: seq<T>)
    requires head + |src| <= tail <= |b| == |c| && c == b[..head] + src + b[head + |src|..]
    ensures c[tail..] + c[..head + |src|] == b[tail..] + b[..head] + src
  {
    assert c[tail..] == b[tail..];
    assert c[..head + |src|] == b[..head] + src;
  }

  lemma Associate<T>(a: seq<T>, b: seq<T>, c: seq<T>)
    ensures a + (b + c) == (a + b) + c
  {
  }

  lemma SplitAt<T>(s: seq<T>, i: nat, k: nat)
    requires i + k <= |s|
    ensures s[..i + k] == s[..i] + s[i..][..k]
  {
  }

  class Ring<T(0)> {
    const buf: array<T>
    var tail: nat
    var len: nat

    ghost predicate Valid()
      reads this
    {
      0 < buf.Length && tail < buf.Length && len <= buf.Length
    }

    function Contents(): (s: seq<T>)
      requires Valid()
      reads this, buf
      ensures |s| == len
    {
      Around(buf[..], tail, len)
    }

    constructor (cap: nat)
      requires cap > 0
      ensures Valid() && fresh(buf) && buf.Length == cap && Contents() == []
    {
      buf := new T[cap];
      tail, len := 0, 0;
    }

    function Readable(): nat
      reads this
    {
      len
    }

    function Writable(): nat
      requires Valid()
      reads this
    {
      buf.Length - len
    }

    method ReadSpan() returns (p: nat, span: nat)
      requires Valid()
      ensures p + span <= buf.Length && span <= len && (len > 0 ==> span > 0)
      ensures buf[p..p + span] == Contents()[..span]
    {
      p := tail;
      var toEnd := buf.Length - tail;
      span := if len < toEnd then len else toEnd;
    }

    method WriteSpan() returns (p: nat, span: nat)
      requires Valid()
      ensures p == Turned(tail + len, buf.Length) && p + span <= buf.Length
      ensures span <= Writable() && (Writable() > 0 ==> span > 0)
    {
      var head := Turned(tail + len, buf.Length);
      p := head;
      var toEnd := buf.Length - head;
      var room := Writable();
      span := if room < toEnd then room else toEnd;
    }

    /** What the producer has put in the span it was given joins the ring. */
    method Commit(n: nat)
      requires Valid()
      modifies `len
      ensures Valid() && len == old(len) + Min(n, old(Writable()))
    {
      var room := Writable();
      len := len + (if n < room then n else room);
    }

    method Discard(n: nat)
      requires Valid()
      modifies `tail, `len
      ensures Valid() && Contents() == old(Contents())[Min(n, old(len))..]
    {
      var k := if n > len then len else n;
      AroundDrops(buf[..], tail, len, k);
      tail := Turned(tail + k, buf.Length);
      len := len - k;
    }

    /** A copy into the write span, and its commit. */
    method Put(src: seq<T>)
      requires Valid() && |src| <= Writable() && Turned(tail + len, buf.Length) + |src| <= buf.Length
      modifies `len, buf
      ensures Valid() && Contents() == old(Contents()) + src
    {
      ghost var b := buf[..];
      var head := Turned(tail + len, buf.Length);
      forall i | 0 <= i < |src| {
        buf[head + i] := src[i];
      }
      assert buf[..] == b[..head] + src + b[head + |src|..];
      AroundGrows(b, buf[..], tail, len, src);
      Commit(|src|);
    }

    /** The beginning of src, as much as the write span takes. */
    method PutSpan(src: seq<T>) returns (k: nat)
      requires Valid()
      modifies `len, buf
      ensures Valid() && k <= |src| && len == old(len) + k && (k == 0 ==> src == [] || old(Writable()) == 0)
      ensures Contents() == old(Contents()) + src[..k]
    {
      hide Contents;
      var p, span := WriteSpan();
      k := if |src| < span then |src| else span;
      Put(src[..k]);
      assert |Contents()| == |old(Contents())| + k;
    }

    /** As much of src as there is room for, in order. */
    method Write(src: seq<T>) returns (done: nat)
      requires Valid()
      modifies `len, buf
      ensures Valid() && done == Min(|src|, old(Writable()))
      ensures Contents() == old(Contents()) + src[..done]
    {
      hide Contents;
      done := 0;
      while done < |src|
        invariant Valid() && done <= |src| && len == old(len) + done
        invariant Contents() == old(Contents()) + src[..done]
      {
        var k := PutSpan(src[done..]);
        if k == 0 {
          break;
        }
        SplitAt(src, done, k);
        Associate(old(Contents()), src[..done], src[done..][..k]);
        done := done + k;
      }
    }

    /** Up to n bytes of the read span, copied out and discarded. */
    method TakeSpan(n: nat) returns (d: seq<T>)
      requires Valid()
      modifies `tail, `len
      ensures Valid() && |d| <= n && old(Contents()) == d + Contents()
      ensures n > 0 && old(len) > 0 ==> d != []
    {
      var p, span := ReadSpan();
      var k := if n < span then n else span;
      d := buf[p..p + k];
      ghost var c := Contents();
      assert buf[p..p + span][..k] == d;
      assert d == c[..span][..k] == c[..k];
      Discard(k);
      assert c == c[..k] + c[k..];
    }

    /** Up to n bytes off the front. */
    method Read(n: nat) returns (dst: seq<T>)
      requires Valid()
      modifies `tail, `len
      ensures Valid() && |dst| == Min(n, old(len))
      ensures old(Contents()) == dst + Contents()
    {
      dst := [];
      while |dst| < n && len > 0
        invariant Valid() && |dst| <= n && old(Contents()) == dst + Contents()
        decreases n - |dst|
      {
        var d := TakeSpan(n - |dst|);
        Associate(dst, d, Contents());
        dst := dst + d;
      }
      assert |old(Contents())| == |dst| + |Contents()|;
    }
  }
}
