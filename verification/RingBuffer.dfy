/**
 LIB/Toastbox/RingBuffer.h: a fixed-size circular buffer. All offsets are of type `size_t`, so that the
 verifier also checks that no intermediate result leaves the machine's range, for any capacity.

 `Contents` is the abstract value, a sequence of at most `cap` elements; the methods refine reading from
 its front and appending to its end. Where the code calls `abort()`, the method reports it and changes
 nothing.
 */
module RingBuffer {
  newtype size_t = n: int | 0 <= n < 0x1_0000_0000_0000_0000

  /** The last `n` elements of a sequence, or all of them. */
  function Last<T>(s: seq<T>, n: nat): (r: seq<T>)
    ensures |r| == if |s| <= n then |s| else n
  {
    if |s| <= n then s else s[|s| - n..]
  }

  /** The position `n` further on. */
  function Advance(cap: nat, off: nat, n: nat): nat {
    if off + n < cap then off + n else off + n - cap
  }

  /** `len` elements of a circular buffer from position `from` on. */
  function Window<T>(buf: seq<T>, from: nat, len: nat): (r: seq<T>)
    requires (from < |buf| || len == 0) && len <= |buf|
    ensures |r| == len
    ensures forall k :: 0 <= k < len ==> r[k] == buf[Advance(|buf|, from, k)]
  {
    seq(len, k requires 0 <= k < len => buf[Advance(|buf|, from, k)])
  }

  /** How far position `p` lies behind position `at`. */
  function Distance(cap: nat, at: nat, p: nat): nat
    requires at <= cap && p < cap
  {
    if p >= at then p - at else p + cap - at
  }

  /** A circular buffer after `data` has been written from position `at` on. */
  function Splice<T>(buf: seq<T>, at: nat, data: seq<T>): (r: seq<T>)
    requires at <= |buf| && |data| <= |buf|
    ensures |r| == |buf|
    ensures forall p :: 0 <= p < |buf| ==>
              r[p] == if Distance(|buf|, at, p) < |data| then data[Distance(|buf|, at, p)] else buf[p]
  {
    seq(|buf|, p requires 0 <= p < |buf| =>
      if Distance(|buf|, at, p) < |data| then data[Distance(|buf|, at, p)] else buf[p])
  }

  function MinSize(a: size_t, b: size_t): size_t { if a <= b then a else b }

  class RingBuffer<T(0)> {
    const cap: size_t
    const buf: array<T>
    var roff: size_t
    var woff: size_t
    var full: bool

    ghost predicate Valid()
      reads this
    {
      && buf.Length == cap as int
      && (cap > 0 ==> roff < cap && woff < cap)
      && (cap == 0 ==> roff == woff == 0 && !full)
      && (full ==> roff == woff)
    }

    ghost function Length(): (n: nat)
      requires Valid()
      reads this
      ensures n <= cap as int
    {
      if woff > roff then (woff - roff) as int
      else if woff < roff then (cap - roff) as int + woff as int
      else if full then cap as int
      else 0
    }

    ghost function Contents(): (s: seq<T>)
      requires Valid()
      reads this, buf
      ensures |s| == Length()
      ensures full <==> |s| == cap as int && cap > 0
    {
      Window(buf[..], roff as int, Length())
    }

    constructor (cap: size_t)
      ensures Valid() && Contents() == [] && this.cap == cap && fresh(buf)
    {
      this.cap := cap;
      buf := new T[cap];
      roff, woff, full := 0, 0, false;
    }

    /** `len()`. */
    method Len() returns (n: size_t)
      requires Valid()
      ensures n as int == |Contents()|
    {
      if woff > roff {
        n := woff - roff;
      } else if woff < roff {
        n := (cap - roff) + woff;
      } else if full {
        n := cap;
      } else {
        n := 0;
      }
    }

    /** `space()`. */
    method Space() returns (n: size_t)
      requires Valid()
      ensures n as int == cap as int - |Contents()|
    {
      var len := Len();
      n := cap - len;
    }

    /** Both segments of `read`: copies `len` elements out and moves the read offset past them. */
    method CopyOut(data: array<T>, len: size_t)
      requires Valid() && len as int <= Length() && len as int <= data.Length && data != buf
      modifies this`roff, data
      ensures roff as int == Advance(cap as int, old(roff) as int, len as int)
      ensures forall p :: 0 <= p < len as int ==> data[p] == buf[Advance(cap as int, old(roff) as int, p)]
      ensures forall p :: len as int <= p < data.Length ==> data[p] == old(data[p])
    {
      // Segment 1: from `roff` to the end of the buffer
      var rem := len;
      var len1 := MinSize(rem, cap - roff);
      Copy(buf, roff, data, 0, len1);
      rem := rem - len1;
      roff := roff + len1;
      if roff == cap {
        roff := 0;
      }
      // Segment 2: from the start of the buffer
      if rem > 0 {
        var len2 := MinSize(rem, woff);
        assert len2 == rem;
        Copy(buf, 0, data, len1, len2);
        rem := rem - len2;
        roff := roff + len2;
        if roff == cap {
          assert false;  // the code would start over here, but this never happens
        }
      }
    }

    /** `read(data, len)`: takes the first `len` elements, unless there are fewer. */
    method Read(data: array<T>, len: size_t) returns (ok: bool)
      requires Valid() && len as int <= data.Length && data != buf
      modifies this`roff, this`full, data
      ensures Valid() && ok == (len as int <= old(|Contents()|))
      ensures !ok ==> Contents() == old(Contents()) && data[..] == old(data[..])
      ensures ok ==> Contents() == old(Contents())[len..] && data[..] == old(Contents())[..len] + old(data[len..])
    {
      hide Window;
      var have := Len();
      if len > have {
        return false;
      }
      WindowSplit(buf[..], roff as int, have as int, len as int);
      CopyOut(data, len);
      assert data[..len] == Window(buf[..], old(roff) as int, len as int);
      assert data[..] == data[..len] + old(data[len..]);
      if len > 0 {
        full := false;
      }
      ok := true;
    }

    /** The offsets are in range and `have` elements apart; `full` may still be out of date. */
    ghost predicate Spaced(have: nat)
      reads this
    {
      && buf.Length == cap as int
      && have <= cap as int
      && (cap > 0 ==> roff < cap && woff < cap)
      && (cap == 0 ==> roff == woff == 0 && !full)
      && woff as int == Advance(cap as int, roff as int, have)
    }

    /** Both segments of `write`: copies `data` in and moves the write offset past it. */
    method CopyIn(data: seq<T>, len: size_t, ghost have: nat)
      requires Spaced(have) && |data| == len as int
      requires have + len as int <= cap as int
      modifies this`woff, buf
      ensures woff as int == Advance(cap as int, old(woff) as int, len as int)
      ensures forall p :: 0 <= p < buf.Length ==>
                var k := Distance(cap as int, old(woff) as int, p);
                buf[p] == if k < |data| then data[k] else old(buf[p])
    {
      // Segment 1: from `woff` to the end of the buffer
      var rem := len;
      var len1 := MinSize(rem, cap - woff);
      CopyFrom(data, 0, buf, woff, len1);
      rem := rem - len1;
      woff := woff + len1;
      if woff == cap {
        woff := 0;
      }
      // Segment 2: from the start of the buffer
      if rem > 0 {
        var len2 := MinSize(rem, roff);
        assert len2 == rem;
        CopyFrom(data, len1, buf, 0, len2);
        rem := rem - len2;
        woff := woff + len2;
        if woff == cap {
          assert false;  // the code would start over here, but this never happens
        }
      }
    }

    /** The end of `write`, which both forms share: there is room behind the `have` elements from `roff` on. */
    method Append(data: seq<T>, len: size_t, ghost have: nat)
      requires Spaced(have) && |data| == len as int
      requires have + len as int <= cap as int
      requires if len == 0 then Valid() && Length() == have else full ==> have + len as int == cap as int
      modifies this`woff, this`full, buf
      ensures Valid() && Contents() == Window(old(buf[..]), old(roff) as int, have) + data
    {
      hide Window, Splice;
      ghost var was, at := buf[..], woff as int;
      SpliceWindows(was, roff as int, have, data);
      CopyIn(data, len, have);
      assert buf[..] == Splice(was, at, data);
      if len > 0 && woff == roff {
        full := true;
      }
      assert Length() == have + len as int;
    }

    /** `write(data, len)`: appends, unless there is not enough space. */
    method Write(data: seq<T>, len: size_t) returns (ok: bool)
      requires Valid() && |data| == len as int
      modifies this`woff, this`full, buf
      ensures Valid() && ok == (old(|Contents()|) + |data| <= cap as int)
      ensures Contents() == if ok then old(Contents()) + data else old(Contents())
    {
      hide Window;
      var space := Space();
      if len > space {
        return false;
      }
      Append(data, len, Length());
      ok := true;
    }

    /** `writeOver(data, len)`: appends, giving up the oldest elements where space is short. */
    method WriteOver(data: seq<T>, len: size_t)
      requires Valid() && |data| == len as int
      modifies this`roff, this`woff, this`full, buf
      ensures Valid() && Contents() == Last(old(Contents()) + data, cap as int)
    {
      hide Window;
      ghost var was := Contents();
      var tail, n := data, len;
      // Of more elements than fit, only the last count
      if n > cap {
        tail := tail[n - cap..];
        n := cap;
      }
      assert Last(was + data, cap as int) == Last(was + tail, cap as int);
      ghost var have := MakeRoom(n);
      LastOfAppended(was, tail, have, cap as int);
      Append(tail, n, have);
    }

    /** Moves the read offset past what `n` new elements overwrite; `have` elements stay. */
    method MakeRoom(n: size_t) returns (ghost have: nat)
      requires Valid() && n <= cap
      modifies this`roff
      ensures Spaced(have)
      ensures have == if old(Length()) + n as int <= cap as int then old(Length()) else (cap - n) as int
      ensures if n == 0 then Valid() && Length() == have else full ==> have + n as int == cap as int
      ensures Window(buf[..], roff as int, have) == Last(old(Contents()), have)
    {
      hide Window, Last;
      var avail := Space();
      have := Length();
      ghost var was := Contents();
      assert woff as int == Advance(cap as int, roff as int, have);
      assert Last(was, have) == was by { LastOfTwo([], was); assert [] + was == was; }
      if n > avail {
        var overflow := n - avail;
        ghost var at := Advance(cap as int, roff as int, overflow as int);
        ghost var keep := have - overflow as int;
        WindowSplit(buf[..], roff as int, have, overflow as int);
        LastOfTwo(Window(buf[..], roff as int, overflow as int), Window(buf[..], at, keep));
        if overflow < cap - roff {
          roff := roff + overflow;
        } else {
          roff := overflow - (cap - roff);
        }
        assert roff as int == at;
        have := keep;
      }
    }

    /** `std::copy` between two arrays. */
    static method Copy(src: array<T>, from: size_t, dst: array<T>, to: size_t, n: size_t)
      requires src != dst
      requires from as int + n as int <= src.Length && to as int + n as int <= dst.Length
      modifies dst
      ensures forall p :: 0 <= p < dst.Length ==>
                dst[p] == if to as int <= p < to as int + n as int then src[from as int + p - to as int] else old(dst[p])
    {
      for i := 0 to n
        invariant forall p :: 0 <= p < dst.Length ==>
                    dst[p] == if to as int <= p < to as int + i as int then src[from as int + p - to as int] else old(dst[p])
      {
        dst[to as int + i as int] := src[from as int + i as int];
      }
    }

    /** `std::copy` from the caller's data. */
    static method CopyFrom(src: seq<T>, from: size_t, dst: array<T>, to: size_t, n: size_t)
      requires from as int + n as int <= |src| && to as int + n as int <= dst.Length
      modifies dst
      ensures forall p :: 0 <= p < dst.Length ==>
                dst[p] == if to as int <= p < to as int + n as int then src[from as int + p - to as int] else old(dst[p])
    {
      for i := 0 to n
        invariant forall p :: 0 <= p < dst.Length ==>
                    dst[p] == if to as int <= p < to as int + i as int then src[from as int + p - to as int] else old(dst[p])
      {
        dst[to as int + i as int] := src[from as int + i as int];
      }
    }
  }

  // ----- windows -----

  lemma WindowSplit<T>(buf: seq<T>, from: nat, len: nat, k: nat)
    requires from < |buf| || (|buf| == 0 == from)
    requires k <= len <= |buf|
    ensures Advance(|buf|, from, k) < |buf| || (|buf| == 0 == k)
    ensures Window(buf, from, len) == Window(buf, from, k) + Window(buf, Advance(|buf|, from, k), len - k)
  {
  }

  /** Data written after the `have` elements from `from` on appears behind them, and they stay. */
  lemma SpliceWindows<T>(buf: seq<T>, from: nat, have: nat, data: seq<T>)
    requires from < |buf| || (|buf| == 0 == from)
    requires have + |data| <= |buf|
    ensures Advance(|buf|, from, have) <= |buf|
    ensures Window(Splice(buf, Advance(|buf|, from, have), data), from, have + |data|) == Window(buf, from, have) + data
  {
  }

  lemma LastOfTwo<T>(s: seq<T>, t: seq<T>)
    ensures Last(s + t, |t|) == t
  {
  }

  lemma LastOfAppended<T>(s: seq<T>, t: seq<T>, keep: nat, cap: nat)
    requires |t| <= cap && keep == if |s| + |t| <= cap then |s| else cap - |t|
    ensures Last(s, keep) + t == Last(s + t, cap)
  {
  }

  // ----- what a sequence of overwriting writes leaves -----

  /** Writing in two pieces leaves the same as writing at once. */
  lemma LastOfLast<T>(s: seq<T>, t: seq<T>, cap: nat)
    ensures Last(Last(s, cap) + t, cap) == Last(s + t, cap)
  {
  }

  function Flatten<T>(ws: seq<seq<T>>): seq<T> {
    if ws == [] then [] else ws[0] + Flatten(ws[1..])
  }

  /** The contents after a series of calls of `WriteOver`. */
  function Overwritten<T>(s: seq<T>, ws: seq<seq<T>>, cap: nat): seq<T>
    decreases |ws|
  {
    if ws == [] then s else Overwritten(Last(s + ws[0], cap), ws[1..], cap)
  }

  /** However a stream is cut into overwriting writes, its last `cap` elements are what stays. */
  lemma {:induction false} OverwritesKeepLast<T>(s: seq<T>, ws: seq<seq<T>>, cap: nat)
    requires |s| <= cap
    ensures Overwritten(s, ws, cap) == Last(s + Flatten(ws), cap)
    decreases |ws|
  {
    hide Last;
    if ws == [] {
      assert s + [] == s;
      assert Last(s, cap) == s by { LastOfShort(s, cap); }
    } else {
      OverwritesKeepLast(Last(s + ws[0], cap), ws[1..], cap);
      LastOfLast(s + ws[0], Flatten(ws[1..]), cap);
      assert s + ws[0] + Flatten(ws[1..]) == s + Flatten(ws);
    }
  }

  lemma LastOfShort<T>(s: seq<T>, cap: nat)
    requires |s| <= cap
    ensures Last(s, cap) == s
  {
  }
}
