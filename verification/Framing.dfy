/** Cutting a byte stream into packets (netw/client.c and netw/epldplx-c.c). */
module Framing {
  import opened Bytes
  import opened Wrappers
  import opened Codec

  /** Bytes of the first frame: header plus declared payload, added with 64-bit wrap. */
  function FrameSize(acc: seq<Byte>): U64
    requires |acc| >= HEADER
  {
    Add64(HEADER, Declared(acc))
  }

  predicate HasFrame(acc: seq<Byte>) { |acc| >= HEADER && |acc| >= FrameSize(acc) }

  /** Result of the extraction loop on an accumulator.  `spins` says that the loop has met a
      header whose frame size wraps to zero; it then cuts empty frames for ever. */
  datatype Cut = Cut(frames: seq<seq<Byte>>, rest: seq<Byte>, spins: bool)

  function Extract(acc: seq<Byte>): Cut
    decreases |acc|
  {
    if !HasFrame(acc) then Cut([], acc, false)
    else
      var n := FrameSize(acc);
      if n == 0 then Cut([], acc, true)
      else Prepend([acc[..n]], Extract(acc[n..]))
  }

  function Prepend(frames: seq<seq<Byte>>, c: Cut): Cut {
    c.(frames := frames + c.frames)
  }

  lemma ExtractStep(acc: seq<Byte>)
    requires HasFrame(acc) && FrameSize(acc) > 0
    ensures Extract(acc) == Prepend([acc[..FrameSize(acc)]], Extract(acc[FrameSize(acc)..]))
  {
  }

  /** The first frame is the same however much follows it. */
  lemma FirstStays(a: seq<Byte>, b: seq<Byte>)
    requires HasFrame(a)
    ensures HasFrame(a + b) && FrameSize(a + b) == FrameSize(a)
    ensures (a + b)[..FrameSize(a)] == a[..FrameSize(a)] && (a + b)[FrameSize(a)..] == a[FrameSize(a)..] + b
  {
    assert (a + b)[53..61] == a[53..61];
  }

  /** Bytes that arrive later never change what has been cut already. */
  lemma {:induction false} ExtractAppend(a: seq<Byte>, b: seq<Byte>)
    ensures Extract(a + b) == Prepend(Extract(a).frames, Extract(Extract(a).rest + b))
    decreases |a|
  {
    if HasFrame(a) {
      FirstStays(a, b);
      var n := FrameSize(a);
      if n > 0 {
        ExtractAppend(a[n..], b);
        ExtractStep(a);
        ExtractStep(a + b);
        hide Extract, FrameSize;
        var r := Extract(a[n..]);
        PrependTwice([a[..n]], r.frames, Extract(r.rest + b));
      }
    }
  }

  /** What a receiver has done after some reads: appended each chunk and run the loop.  A
      loop that spins never comes back for the next chunk. */
  function Feed(chunks: seq<seq<Byte>>): Cut {
    if chunks == [] then Cut([], [], false)
    else
      var n := |chunks| - 1;
      var before := Feed(chunks[..n]);
      if before.spins then before
      else Prepend(before.frames, Extract(before.rest + chunks[n]))
  }

  function Flatten(chunks: seq<seq<Byte>>): seq<Byte> {
    if chunks == [] then [] else Flatten(chunks[..|chunks| - 1]) + chunks[|chunks| - 1]
  }

  /** Chunking independence: however a stream is split into reads, the receiver cuts the
      same frames as from one read of the whole and is left with the same residue. */
  lemma {:induction false} ChunkingIndependence(chunks: seq<seq<Byte>>)
    ensures Feed(chunks).frames == Extract(Flatten(chunks)).frames
    ensures Feed(chunks).spins == Extract(Flatten(chunks)).spins
    ensures !Feed(chunks).spins ==> Feed(chunks).rest == Extract(Flatten(chunks)).rest
  {
    if chunks != [] {
      var n := |chunks| - 1;
      var before := Flatten(chunks[..n]);
      ChunkingIndependence(chunks[..n]);
      ExtractAppend(before, chunks[n]);
      var c := Extract(before);
      if c.spins {
        SpinsStuck(before, chunks[n]);
      }
    }
  }

  lemma {:induction false} SpinsStuck(a: seq<Byte>, b: seq<Byte>)
    requires Extract(a).spins
    ensures Extract(Extract(a).rest + b) == Cut([], Extract(a).rest + b, true)
    decreases |a|
  {
    var n := FrameSize(a);
    if n > 0 {
      SpinsStuck(a[n..], b);
    } else {
      assert (a + b)[53..61] == a[53..61];
    }
  }

  // ---- When the loop ends ----

  /** The declared length whose frame size wraps to zero. */
  const WRAPS: int := TWO_64 - HEADER

  /** An honest header costs at least its own 61 bytes. */
  lemma PassTakesHeader(acc: seq<Byte>)
    requires HasFrame(acc) && Declared(acc) < WRAPS
    ensures |acc[FrameSize(acc)..]| <= |acc| - HEADER
  {
  }

  /** The accumulators the loop passes through when it starts from acc. */
  ghost predicate Passes(acc: seq<Byte>, later: seq<Byte>)
    decreases |acc|
  {
    acc == later ||
    (HasFrame(acc) && FrameSize(acc) > 0 && Passes(acc[FrameSize(acc)..], later))
  }

  /** The loop runs for ever if and only if it meets a header declaring 2^64 - 61 bytes. */
  lemma {:induction false} SpinsIff(acc: seq<Byte>)
    ensures Extract(acc).spins <==> exists later :: Passes(acc, later) && |later| >= HEADER && Declared(later) == WRAPS
    decreases |acc|
  {
    if HasFrame(acc) && FrameSize(acc) > 0 {
      var next := acc[FrameSize(acc)..];
      SpinsIff(next);
      if later :| Passes(next, later) && |later| >= HEADER && Declared(later) == WRAPS {
        assert Passes(acc, later);
      }
      if later :| Passes(acc, later) && |later| >= HEADER && Declared(later) == WRAPS {
        assert later != acc;
      }
    } else {
      assert Passes(acc, acc);
      if later :| Passes(acc, later) && |later| >= HEADER && Declared(later) == WRAPS {
        assert later == acc;
        assert FrameSize(acc) == 0;
      }
    }
  }

  /** A 61-byte input on which the loop never ends. */
  lemma SpinExample()
    ensures exists acc: seq<Byte> :: |acc| == HEADER && Extract(acc).spins
  {
    var acc: seq<Byte> := seq(53, i => 0) + Store(WRAPS, 8);
    assert acc[53..61] == Store(WRAPS, 8);
    WordSizes();
    LoadStore(WRAPS, 8);
    assert Declared(acc) == WRAPS;
    assert FrameSize(acc) == 0;
    assert Extract(acc).spins;
  }

  // ---- Streams of packets ----

  ghost predicate AllSized(ps: seq<Packet>) { forall p | p in ps :: Sized(p) }

  function Wire(ps: seq<Packet>): seq<Byte> {
    if ps == [] then [] else Encode(ps[0]) + Wire(ps[1..])
  }

  function Blocks(ps: seq<Packet>): (bs: seq<seq<Byte>>)
    ensures |bs| == |ps|
    ensures forall i | 0 <= i < |ps| :: bs[i] == Encode(ps[i])
  {
    seq(|ps|, i requires 0 <= i < |ps| => Encode(ps[i]))
  }

  lemma BlocksConcat(a: seq<Packet>, b: seq<Packet>)
    ensures Blocks(a + b) == Blocks(a) + Blocks(b)
  {
    hide Encode;
  }

  lemma FirstFrame(p: Packet, more: seq<Byte>)
    requires Sized(p)
    ensures FrameSize(Encode(p) + more) == |Encode(p)| > 0
    ensures HasFrame(Encode(p) + more)
    ensures (Encode(p) + more)[..|Encode(p)|] == Encode(p)
    ensures (Encode(p) + more)[|Encode(p)|..] == more
  {
    DecodeEncode(p);
    assert (Encode(p) + more)[53..61] == Encode(p)[53..61];
  }

  /** A stream of packets is cut into exactly their wire forms. */
  lemma {:induction false} ExtractWire(ps: seq<Packet>)
    requires AllSized(ps)
    ensures Extract(Wire(ps)) == Cut(Blocks(ps), [], false)
  {
    if ps != [] {
      assert ps[0] in ps;
      FirstFrame(ps[0], Wire(ps[1..]));
      ExtractWire(ps[1..]);
      assert Blocks(ps) == [Encode(ps[0])] + Blocks(ps[1..]);
    } else {
      assert Blocks(ps) == [];
    }
  }

  lemma PartialFrame(p: Packet, x: seq<Byte>)
    requires Sized(p) && x < Encode(p)
    ensures Extract(x) == Cut([], x, false)
  {
    if |x| >= HEADER {
      DecodeEncode(p);
      hide Encode, Decode, Load64, Store;
      assert x[53..61] == Encode(p)[53..61];
      assert FrameSize(x) == HEADER + |p.data|;
    }
  }

  /** After any prefix of a stream of packets the receiver has cut the first k packets, and
      what is left is a proper beginning of packet k. */
  lemma {:induction false} ExtractPrefix(ps: seq<Packet>, x: seq<Byte>) returns (k: nat)
    requires AllSized(ps) && x <= Wire(ps)
    ensures k <= |ps|
    ensures Extract(x).frames == Blocks(ps[..k]) && !Extract(x).spins
    ensures k < |ps| ==> Extract(x).rest < Encode(ps[k])
    ensures k == |ps| ==> Extract(x).rest == []
  {
    hide Encode, Load64;
    assert Blocks(ps[..0]) == [];
    if ps == [] {
      k := 0;
    } else {
      assert ps[0] in ps;
      var e := Encode(ps[0]);
      if |x| < |e| {
        k := 0;
        assert Wire(ps)[..|x|] == e[..|x|];
        PartialFrame(ps[0], x);
      } else {
        var y := x[|e|..];
        assert Wire(ps)[..|e|] == e && Wire(ps)[|e|..] == Wire(ps[1..]);
        assert x == e + y;
        FirstFrame(ps[0], y);
        var j := ExtractPrefix(ps[1..], y);
        k := j + 1;
        assert ps[..k] == [ps[0]] + ps[1..][..j];
        assert Blocks(ps[..k]) == [e] + Blocks(ps[1..][..j]);
      }
    }
  }

  predicate Accepted(block: seq<Byte>) { |block| < TWO_64 && Decode(block).Some? }

  /** A frame is a block packet_deserial accepts if and only if its size did not wrap. */
  lemma FrameAcceptedIff(acc: seq<Byte>)
    requires HasFrame(acc)
    ensures Accepted(acc[..FrameSize(acc)]) <==> Declared(acc) < WRAPS
  {
    var frame := acc[..FrameSize(acc)];
    if |frame| >= HEADER {
      assert frame[53..61] == acc[53..61];
    }
  }

  /** Every frame cut is a block packet_deserial accepts, if and only if no header the loop
      meets declares 2^64 - 61 bytes or more. */
  lemma {:induction false} FramesDecodeIff(acc: seq<Byte>)
    requires !Extract(acc).spins
    ensures (forall b | b in Extract(acc).frames :: Accepted(b))
      <==> (forall later | Passes(acc, later) && HasFrame(later) :: Declared(later) < WRAPS)
    decreases |acc|
  {
    if HasFrame(acc) {
      var n := FrameSize(acc);
      var next, first := acc[n..], acc[..n];
      FramesDecodeIff(next);
      FrameAcceptedIff(acc);
      ExtractStep(acc);
      hide Extract, Accepted;
      assert Extract(acc).frames == [first] + Extract(next).frames;
      assert Passes(acc, acc);
      assert forall later | Passes(next, later) :: Passes(acc, later);
      assert forall later | Passes(acc, later) && later != acc :: Passes(next, later);
      assert forall b | b in Extract(next).frames :: b in Extract(acc).frames;
      assert first in Extract(acc).frames;
    }
  }

  /** 61 bytes from which the loop cuts a frame of one byte, which no handler can read. */
  lemma ShortFrameExample() returns (acc: seq<Byte>)
    ensures |acc| == HEADER && !Extract(acc).spins
    ensures Extract(acc).frames == [acc[..1]] && !Accepted(acc[..1])
  {
    acc := seq(53, i => 0) + Store(WRAPS + 1, 8);
    assert acc[53..61] == Store(WRAPS + 1, 8);
    WordSizes();
    LoadStore(WRAPS + 1, 8);
    assert Declared(acc) == WRAPS + 1;
    hide Store, Load64;
    assert FrameSize(acc) == 1;
    assert !HasFrame(acc[1..]);
    assert Extract(acc[1..]) == Cut([], acc[1..], false);
  }

  // ---- The loop in place ----

  /** The receiving side of a connection: accumulator, queue of whole packets, and the
      handlers scheduled for them. */
  class Receiver {
    var data: array<Byte>
    var dsize: nat
    var readq: seq<seq<Byte>>
    var scheduled: nat

    ghost predicate Valid()
      reads this
    {
      dsize <= data.Length < TWO_64
    }

    ghost function Acc(): seq<Byte>
      reads this, data
      requires Valid()
    {
      data[..dsize]
    }

    constructor ()
      ensures Valid() && fresh(data)
      ensures Acc() == [] && readq == [] && scheduled == 0
    {
      data := new Byte[0];
      dsize, readq, scheduled := 0, [], 0;
    }

    /** Grow the accumulator by one read. */
    method Append(chunk: seq<Byte>)
      requires Valid() && dsize + |chunk| < TWO_64
      modifies this
      ensures Valid() && (data == old(data) || fresh(data))
      ensures Acc() == old(Acc()) + chunk
      ensures readq == old(readq) && scheduled == old(scheduled)
    {
      if |chunk| > 0 {
        var newbuf := new Byte[dsize + |chunk|];
        forall i | 0 <= i < dsize {
          newbuf[i] := data[i];
        }
        forall i | 0 <= i < |chunk| {
          newbuf[dsize + i] := chunk[i];
        }
        data := newbuf;
        dsize := dsize + |chunk|;
      }
    }

    /** memmove(data, data + n, remain) */
    method MoveDown(n: nat, remain: nat)
      requires n + remain <= data.Length
      modifies data
      ensures data[..remain] == old(data[n..n + remain])
    {
      var i := 0;
      while i < remain
        invariant 0 <= i <= remain
        invariant forall j | 0 <= j < i :: data[j] == old(data[n + j])
        invariant forall j | i <= j < data.Length :: data[j] == old(data[j])
      {
        data[i] := data[n + i];
        i := i + 1;
      }
    }

    /** Drop the n bytes of a packet from the front and shrink the buffer. */
    method Consume(n: nat)
      requires Valid() && n <= dsize
      modifies this`data, this`dsize, data
      ensures Valid() && (data == old(data) || fresh(data))
      ensures Acc() == old(Acc()[n..])
    {
      var remain := dsize - n;
      MoveDown(n, remain);
      dsize := remain;
      var shr := new Byte[remain];
      forall i | 0 <= i < remain {
        shr[i] := data[i];
      }
      assert shr[..] == data[..remain];
      data := shr;
    }

    /** Body of the extraction loop: queue a copy of the first frame, cut it off, schedule its
        handler. */
    method TakeFrame(size: nat)
      requires Valid() && size <= dsize
      modifies this, data
      ensures Valid() && (data == old(data) || fresh(data))
      ensures readq == old(readq) + [old(Acc()[..size])]
      ensures Acc() == old(Acc()[size..])
      ensures scheduled == old(scheduled) + 1
    {
      assert data[..size] == Acc()[..size];
      readq := readq + [data[..size]];
      Consume(size);
      scheduled := scheduled + 1;
    }

    /** The extraction loop: queue every whole packet and schedule its handler. */
    method ExtractAll()
      requires Valid() && !Extract(Acc()).spins
      modifies this, data
      ensures Valid() && (data == old(data) || fresh(data))
      ensures readq == old(readq) + old(Extract(Acc()).frames)
      ensures Acc() == old(Extract(Acc()).rest)
      ensures scheduled == old(scheduled) + |old(Extract(Acc()).frames)|
    {
      ghost var cut := Extract(Acc());
      ghost var taken: seq<seq<Byte>> := [];
      while dsize >= HEADER
        invariant Valid() && (data == old(data) || fresh(data))
        invariant readq == old(readq) + taken
        invariant cut == Prepend(taken, Extract(Acc()))
        invariant scheduled == old(scheduled) + |taken|
        decreases dsize
      {
        ghost var acc := Acc();
        var size := ReadSize();
        if dsize < size {
          break;
        }
        TakeFrame(size);
        taken := taken + [acc[..size]];
        CutOne(acc, taken, Acc());
      }
      assert Extract(Acc()) == Cut([], Acc(), false);
    }

    /** header_sz + payload_sz of the frame at the front */
    method ReadSize() returns (size: U64)
      requires Valid() && dsize >= HEADER
      ensures size == FrameSize(Acc())
    {
      assert data[53..61] == Acc()[53..61];
      size := Add64(HEADER, Load64(data[53..61]));
    }
  }

  lemma CutOne(acc: seq<Byte>, taken: seq<seq<Byte>>, rest: seq<Byte>)
    requires HasFrame(acc) && !Extract(acc).spins && rest == acc[FrameSize(acc)..]
    requires taken != [] && taken[|taken| - 1] == acc[..FrameSize(acc)]
    ensures |rest| < |acc| && !Extract(rest).spins
    ensures Prepend(taken, Extract(rest)) == Prepend(taken[..|taken| - 1], Extract(acc))
  {
    assert FrameSize(acc) > 0 && Extract(acc).spins == Extract(rest).spins;
    hide Extract, FrameSize;
    ExtractStep(acc);
    var front, frame := taken[..|taken| - 1], acc[..FrameSize(acc)];
    assert taken == front + [frame];
    PrependTwice(front, [frame], Extract(rest));
  }

  lemma PrependTwice(a: seq<seq<Byte>>, b: seq<seq<Byte>>, c: Cut)
    ensures Prepend(a, Prepend(b, c)) == Prepend(a + b, c)
  {
    assert a + (b + c.frames) == a + b + c.frames;
  }
}
