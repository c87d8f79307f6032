/**
 What matching parked commands with written data (`_sendDataForInEndpoint`) promises about one
 endpoint: no byte is lost, reordered or duplicated, commands are answered in order, and neither the
 replies nor what is left over depends on how commands and writes interleave.
 */
module Pipes {
  import opened Endian
  import opened UsbIp
  import opened Engine

  function Payloads(es: seq<Entry>): seq<Byte> {
    if es == [] then [] else Payload(es[0].rep) + Payloads(es[1..])
  }

  function Unsent(ds: seq<Data>): seq<Byte> {
    if ds == [] then [] else ds[0].bytes[ds[0].off..] + Unsent(ds[1..])
  }

  function Commands(es: seq<Entry>): (cs: seq<Cmd>)
    ensures |cs| == |es|
    ensures forall i :: 0 <= i < |es| ==> cs[i] == es[i].cmd
  {
    seq(|es|, i requires 0 <= i < |es| => es[i].cmd)
  }

  lemma {:induction false} PayloadsAppend(a: seq<Entry>, b: seq<Entry>)
    ensures Payloads(a + b) == Payloads(a) + Payloads(b)
  {
    if a == [] {
      assert a + b == b;
    } else {
      assert (a + b)[1..] == a[1..] + b;
      PayloadsAppend(a[1..], b);
    }
  }

  lemma {:induction false} UnsentAppend(a: seq<Data>, b: seq<Data>)
    ensures Unsent(a + b) == Unsent(a) + Unsent(b)
  {
    if a == [] {
      assert a + b == b;
    } else {
      assert (a + b)[1..] == a[1..] + b;
      UnsentAppend(a[1..], b);
    }
  }

  /** The reply to the front command carries the next bytes of the front data. */
  lemma ServedPayload(c: InCmd, d: Data)
    ensures Payload(ServedEntry(c, d).rep) == d.bytes[d.off..d.off + Served(c, d)]
  {
    hide Served, Word32;
  }

  /** A reply has as many bytes as its command asks for, or all that is left of the data if that is less. */
  lemma ServedFills(c: InCmd, d: Data)
    ensures var n, left := |Payload(ServedEntry(c, d).rep)|, |d.bytes| - d.off;
            n == if SizeOf32(c.length) <= left then SizeOf32(c.length) else left
  {
    ServedPayload(c, d);
    hide SizeOf32, Signed32, ServedEntry;
  }

  lemma ServeOneConserves(p: Pipe)
    requires !Idle(p)
    ensures Payload(ServedEntry(p.cmds[0], p.data[0]).rep) + Unsent(ServeOne(p).data) == Unsent(p.data)
  {
    hide Served, ServedEntry;
    var c, d := p.cmds[0], p.data[0];
    ServedPayload(c, d);
    var off := d.off + Served(c, d);
    assert d.bytes[d.off..] == d.bytes[d.off..off] + d.bytes[off..];
    UnsentAppend(Remaining(c, d), p.data[1..]);
    assert Unsent(Remaining(c, d)) == d.bytes[off..];
  }

  /** The bytes sent, followed by the bytes still queued, are the bytes that were queued. */
  lemma {:induction false} DrainConserves(p: Pipe)
    ensures Payloads(Drain(p).entries) + Unsent(Drain(p).pipe.data) == Unsent(p.data)
    decreases |p.cmds|
  {
    hide ServeOne, ServedEntry;
    if !Idle(p) {
      var rest := Drain(ServeOne(p));
      assert |ServeOne(p).cmds| < |p.cmds| by { ServeOneTakesCommand(p); }
      DrainConserves(ServeOne(p));
      ServeOneConserves(p);
      assert Drain(p).entries[1..] == rest.entries;
    }
  }

  lemma ServeOneTakesCommand(p: Pipe)
    requires !Idle(p)
    ensures ServeOne(p).cmds == p.cmds[1..]
  {
  }

  /** Commands are answered from the front of the queue, and none is lost. */
  lemma {:induction false} DrainOrder(p: Pipe)
    ensures Commands(Drain(p).entries) + Drain(p).pipe.cmds == p.cmds
    decreases |p.cmds|
  {
    hide ServedEntry, Remaining, Drain;
    if Idle(p) {
      DrainIdle(p);
    } else {
      DrainStep(p);
      DrainOrder(ServeOne(p));
      assert Commands(Drain(p).entries) == [p.cmds[0]] + Commands(Drain(ServeOne(p)).entries);
    }
  }

  /** Only the front item may be partly sent, and then something of it is left. */
  ghost predicate OffsetsOk(ds: seq<Data>) {
    && (ds != [] ==> ds[0].off == 0 || ds[0].off < |ds[0].bytes|)
    && (forall k :: 0 < k < |ds| ==> ds[k].off == 0)
  }

  /** The loop stops only when one of the queues is empty. */
  lemma {:induction false} DrainStops(p: Pipe)
    ensures Idle(Drain(p).pipe)
    ensures OffsetsOk(p.data) ==> OffsetsOk(Drain(p).pipe.data)
    decreases |p.cmds|
  {
    hide ServedEntry, SizeOf32;
    if !Idle(p) {
      DrainStops(ServeOne(p));
    }
  }

  // ----- independence from interleaving -----

  function Join(p: Pipe, cs: seq<InCmd>, ds: seq<Data>): Pipe {
    Pipe(p.cmds + cs, p.data + ds)
  }

  lemma ServeOneJoin(p: Pipe, cs: seq<InCmd>, ds: seq<Data>)
    requires !Idle(p)
    ensures !Idle(Join(p, cs, ds))
    ensures ServeOne(Join(p, cs, ds)) == Join(ServeOne(p), cs, ds)
    ensures Join(p, cs, ds).cmds[0] == p.cmds[0] && Join(p, cs, ds).data[0] == p.data[0]
  {
    hide Remaining;
    assert (p.data + ds)[1..] == p.data[1..] + ds;
    assert (p.cmds + cs)[1..] == p.cmds[1..] + cs;
  }

  lemma DrainIdle(p: Pipe)
    requires Idle(p)
    ensures Drain(p) == Drained(p, [])
  {
  }

  lemma DrainStep(p: Pipe)
    requires !Idle(p)
    ensures ServeOne(p).cmds == p.cmds[1..]
    ensures var rest := Drain(ServeOne(p));
            Drain(p) == Drained(rest.pipe, [ServedEntry(p.cmds[0], p.data[0])] + rest.entries)
  {
  }

  /** Matching what is there before more is queued changes nothing in the end. */
  lemma {:induction false} DrainEarly(p: Pipe, cs: seq<InCmd>, ds: seq<Data>)
    ensures var now, later := Drain(p), Drain(Join(Drain(p).pipe, cs, ds));
            Drain(Join(p, cs, ds)) == Drained(later.pipe, now.entries + later.entries)
    decreases |p.cmds|
  {
    hide ServedEntry, ServeOne, Join, Drain;
    if Idle(p) {
      DrainIdle(p);
      var later := Drain(Join(p, cs, ds));
      assert [] + later.entries == later.entries;
    } else {
      var q := ServeOne(p);
      DrainStep(p);
      ServeOneJoin(p, cs, ds);
      DrainStep(Join(p, cs, ds));
      DrainEarly(q, cs, ds);
      var first, now, later := [ServedEntry(p.cmds[0], p.data[0])], Drain(q), Drain(Join(Drain(q).pipe, cs, ds));
      assert first + (now.entries + later.entries) == (first + now.entries) + later.entries;
    }
  }

  // ----- one write, many commands -----

  /** How many pieces of at most `m` bytes it takes to carry `len` bytes: `len` divided by `m`, rounded up. */
  function Pieces(len: nat, m: nat): (n: nat)
    requires m > 0 && len > 0
    ensures n > 0
    ensures (n - 1) * m < len <= n * m
  {
    var q, r := (len - 1) / m, (len - 1) % m;
    assert len - 1 == q * m + r;
    assert (q + 1) * m == q * m + m;
    q + 1
  }

  /** With commands that each ask for `m` bytes, a write is cut into pieces of `m`, the last one shorter. */
  lemma WriteIsCut(cs: seq<InCmd>, bytes: seq<Byte>, m: nat)
    requires m > 0 && bytes != []
    requires forall c :: c in cs ==> SizeOf32(c.length) == m
    requires |cs| >= Pieces(|bytes|, m)
    ensures var n, r := Pieces(|bytes|, m), Drain(Pipe(cs, [Chunk(bytes, 0)]));
            && |r.entries| == n
            && r.pipe == Pipe(cs[n..], [])
            && forall k :: 0 <= k < n ==>
                 |Payload(r.entries[k].rep)| == if k < n - 1 then m else |bytes| - (n - 1) * m
  {
    hide SizeOf32, Drain;
    var n := Pieces(|bytes|, m);
    assert n * m == (n - 1) * m + m;
    CutFrom(cs, Chunk(bytes, 0), m, n, |bytes| - (n - 1) * m);
  }

  function Times(k: nat, m: nat): (t: nat)
    ensures t == k * m
  {
    if k == 0 then 0 else
      assert k * m == (k - 1) * m + m;
      Times(k - 1, m) + m
  }

  lemma {:induction false} CutFrom(cs: seq<InCmd>, d: Data, m: nat, n: nat, last: nat)
    requires 0 < last <= m && n > 0
    requires |d.bytes| - d.off == Times(n - 1, m) + last
    requires forall c :: c in cs ==> SizeOf32(c.length) == m
    requires |cs| >= n
    ensures var r := Drain(Pipe(cs, [d]));
            && |r.entries| == n
            && r.pipe == Pipe(cs[n..], [])
            && forall k :: 0 <= k < n ==> |Payload(r.entries[k].rep)| == if k < n - 1 then m else last
    decreases n
  {
    hide SizeOf32, ServedEntry, Drain;
    if n == 1 {
      CutLast(cs, d, m);
    } else {
      var d' := CutMore(cs, d, m);
      CutFrom(cs[1..], d', m, n - 1, last);
      assert cs[1..][n - 1..] == cs[n..];
    }
  }

  /** The piece that finishes the data. */
  lemma CutLast(cs: seq<InCmd>, d: Data, m: nat)
    requires cs != [] && SizeOf32(cs[0].length) == m
    requires 0 < |d.bytes| - d.off <= m
    ensures Drain(Pipe(cs, [d])) == Drained(Pipe(cs[1..], []), [ServedEntry(cs[0], d)])
    ensures |Payload(ServedEntry(cs[0], d).rep)| == |d.bytes| - d.off
  {
    hide SizeOf32, ServedEntry, Drain;
    ServedPayload(cs[0], d);
    DrainStep(Pipe(cs, [d]));
    assert ServeOne(Pipe(cs, [d])) == Pipe(cs[1..], []);
    DrainIdle(Pipe(cs[1..], []));
  }

  /** A piece that leaves some data for the next command. */
  lemma CutMore(cs: seq<InCmd>, d: Data, m: nat) returns (d': Data)
    requires cs != [] && SizeOf32(cs[0].length) == m
    requires |d.bytes| - d.off > m
    ensures d' == Chunk(d.bytes, d.off + m)
    ensures var r := Drain(Pipe(cs[1..], [d']));
            Drain(Pipe(cs, [d])) == Drained(r.pipe, [ServedEntry(cs[0], d)] + r.entries)
    ensures |Payload(ServedEntry(cs[0], d).rep)| == m
  {
    hide SizeOf32, ServedEntry, Drain;
    ServedPayload(cs[0], d);
    DrainStep(Pipe(cs, [d]));
    d' := Chunk(d.bytes, d.off + m);
    assert ServeOne(Pipe(cs, [d])) == Pipe(cs[1..], [d']);
  }

  ghost predicate SliceOf(part: seq<Byte>, whole: seq<Byte>) {
    exists a, b :: 0 <= a <= b <= |whole| && part == whole[a..b]
  }

  /** A payload comes from a single one of the items queued. */
  ghost predicate FromOneWrite(payload: seq<Byte>, ds: seq<Data>) {
    exists i :: 0 <= i < |ds| && SliceOf(payload, ds[i].bytes)
  }

  lemma FromOneWriteBefore(payload: seq<Byte>, p: Pipe)
    requires !Idle(p) && FromOneWrite(payload, ServeOne(p).data)
    ensures FromOneWrite(payload, p.data)
  {
    hide Served, SliceOf;
    var q := ServeOne(p);
    var i :| 0 <= i < |q.data| && SliceOf(payload, q.data[i].bytes);
    var j := if |q.data| == |p.data| then i else i + 1;
    assert SliceOf(payload, p.data[j].bytes);
  }

  /** No reply mixes the bytes of two writes. */
  lemma {:induction false} NoMixing(p: Pipe)
    ensures forall e :: e in Drain(p).entries ==> FromOneWrite(Payload(e.rep), p.data)
    decreases |p.cmds|
  {
    hide ServedEntry, Served, FromOneWrite, Drain, Payload;
    if Idle(p) {
      DrainIdle(p);
    } else {
      var c, d, q := p.cmds[0], p.data[0], ServeOne(p);
      DrainStep(p);
      NoMixing(q);
      FrontPayload(c, d, p.data);
      forall e | e in Drain(q).entries ensures FromOneWrite(Payload(e.rep), p.data) {
        FromOneWriteBefore(Payload(e.rep), p);
      }
    }
  }

  lemma FrontPayload(c: InCmd, d: Data, ds: seq<Data>)
    requires ds != [] && ds[0] == d
    ensures FromOneWrite(Payload(ServedEntry(c, d).rep), ds)
  {
    hide ServedEntry, Served, Payload;
    ServedPayload(c, d);
    assert SliceOf(Payload(ServedEntry(c, d).rep), ds[0].bytes);
  }

  /** Every item comes from one of the writes `ws`. */
  ghost predicate Drawn(ds: seq<Data>, ws: seq<seq<Byte>>) {
    forall k :: 0 <= k < |ds| ==> ds[k].bytes in ws
  }

  lemma {:induction false} DrainDrawn(p: Pipe, ws: seq<seq<Byte>>)
    requires Drawn(p.data, ws)
    ensures Drawn(Drain(p).pipe.data, ws)
    decreases |p.cmds|
  {
    hide ServedEntry, Served, Drain;
    if Idle(p) {
      DrainIdle(p);
    } else {
      DrainStep(p);
      DrainDrawn(ServeOne(p), ws);
    }
  }
}
