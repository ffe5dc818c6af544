/** One direction of a connection from end to end: serialise and queue (dnet/client.c,
    dnet/server.c), write (cfull_write, sfull_write), read and cut (run_client, run_server),
    hand to a scheduled handler.  The steps of the two hosts interleave in any order. */
module Channel {
  import opened Bytes
  import opened Wrappers
  import opened Codec
  import opened Framing

  /** `lost` counts bytes of blocks that were popped after a short write, `starved` the
      handlers that found the read queue empty; `taken` counts bytes handed to handlers.
      None of the three exists in the code. */
  datatype State = State(
    sent: seq<Packet>,
    writeq: seq<seq<Byte>>,
    wire: seq<Byte>,
    acc: seq<Byte>,
    readq: seq<seq<Byte>>,
    scheduled: nat,
    handled: seq<Option<Packet>>,
    stuck: bool,
    lost: nat,
    starved: nat,
    taken: nat)

  const START := State([], [], [], [], [], 0, [], false, 0, 0, 0)

  datatype Step =
    | Send(p: Packet)
    | Write(n: nat)   // the socket takes n bytes of the front block
    | WouldBlock      // EAGAIN on either side
    | Receive(n: nat) // a read of n bytes
    | Handle

  predicate Enabled(s: State, step: Step) {
    match step
    case Send(p) => Sized(p)
    case Write(n) => s.writeq != [] && n <= |s.writeq[0]|
    case WouldBlock => true
    case Receive(n) => n <= |s.wire| && !s.stuck
    case Handle => s.scheduled > 0
  }

  /** packet_deserial on a queued block; no block is larger than a size_t. */
  function Deserialised(block: seq<Byte>): Option<Packet> {
    if |block| < TWO_64 then Decode(block) else None
  }

  function Next(s: State, step: Step): State
    requires Enabled(s, step)
  {
    match step
    case Send(p) => s.(sent := s.sent + [p], writeq := s.writeq + [Encode(p)])
    case Write(n) =>
      // the block is popped even when the socket took only part of it
      var block := s.writeq[0];
      s.(writeq := s.writeq[1..], wire := s.wire + block[..n], lost := s.lost + |block| - n)
    case WouldBlock => s
    case Receive(n) =>
      var cut := Extract(s.acc + s.wire[..n]);
      s.(wire := s.wire[n..], acc := cut.rest, readq := s.readq + cut.frames,
         scheduled := s.scheduled + |cut.frames|, stuck := cut.spins)
    case Handle =>
      var s' := s.(scheduled := s.scheduled - 1);
      if s.readq == [] then s'.(starved := s.starved + 1)
      else
        s'.(readq := s.readq[1..], handled := s.handled + [Deserialised(s.readq[0])],
            taken := s.taken + |s.readq[0]|)
  }

  ghost predicate Run(from: State, steps: seq<Step>, to: State)
    decreases |steps|
  {
    if steps == [] then from == to
    else Enabled(from, steps[0]) && Run(Next(from, steps[0]), steps[1..], to)
  }

  // ---- Bytes ----

  function Join(blocks: seq<seq<Byte>>): seq<Byte> {
    if blocks == [] then [] else blocks[0] + Join(blocks[1..])
  }

  lemma {:induction false} JoinConcat(a: seq<seq<Byte>>, b: seq<seq<Byte>>)
    ensures Join(a + b) == Join(a) + Join(b)
  {
    if a == [] {
      assert a + b == b;
    } else {
      JoinConcat(a[1..], b);
      assert (a + b)[1..] == a[1..] + b;
      Associative(a[0], Join(a[1..]), Join(b));
    }
  }

  lemma JoinSnoc(a: seq<seq<Byte>>, x: seq<Byte>)
    ensures Join(a + [x]) == Join(a) + x
  {
    JoinConcat(a, [x]);
    assert Join([x]) == x;
  }

  /** Without a spin the loop only divides its input. */
  lemma {:induction false} ExtractDivides(acc: seq<Byte>)
    ensures Join(Extract(acc).frames) + Extract(acc).rest == acc
    decreases |acc|
  {
    hide FrameSize;
    if HasFrame(acc) && FrameSize(acc) > 0 {
      var n := FrameSize(acc);
      ExtractDivides(acc[n..]);
      ExtractStep(acc);
      hide Extract, Join;
      var c := Extract(acc[n..]);
      Pieces(acc[..n], c.frames, c.rest);
      assert acc[..n] + acc[n..] == acc;
    } else {
      hide HasFrame;
      assert Extract(acc).frames == [];
    }
  }

  lemma Pieces(first: seq<Byte>, frames: seq<seq<Byte>>, rest: seq<Byte>)
    ensures Join([first] + frames) + rest == first + (Join(frames) + rest)
  {
    JoinConcat([first], frames);
    assert Join([first]) == first;
    hide Join;
    Associative(first, Join(frames), rest);
  }

  lemma {:induction false} WireConcat(a: seq<Packet>, b: seq<Packet>)
    ensures Wire(a + b) == Wire(a) + Wire(b)
  {
    hide Encode;
    if a == [] {
      assert a + b == b;
    } else {
      WireConcat(a[1..], b);
      assert (a + b)[1..] == a[1..] + b;
      Associative(Encode(a[0]), Wire(a[1..]), Wire(b));
    }
  }

  lemma WireSnoc(ps: seq<Packet>, p: Packet)
    ensures Wire(ps + [p]) == Wire(ps) + Encode(p)
  {
    WireConcat(ps, [p]);
    assert Wire([p]) == Encode(p);
  }

  lemma {:induction false} JoinBlocks(ps: seq<Packet>)
    ensures Join(Blocks(ps)) == Wire(ps)
  {
    hide Encode;
    if ps != [] {
      JoinBlocks(ps[1..]);
      assert Blocks(ps)[1..] == Blocks(ps[1..]);
    }
  }

  /** Bytes the packets among these take on the wire. */
  function Size(ps: seq<Option<Packet>>): nat {
    if ps == [] then 0
    else Size(ps[..|ps| - 1]) + (if ps[|ps| - 1].Some? then HEADER + |ps[|ps| - 1].value.data| else 0)
  }

  function Delivered(ps: seq<Packet>): (r: seq<Option<Packet>>)
    ensures |r| == |ps|
  {
    seq(|ps|, i requires 0 <= i < |ps| => Some(ps[i]))
  }

  lemma {:induction false} SizeDelivered(ps: seq<Packet>)
    ensures Size(Delivered(ps)) == |Wire(ps)|
  {
    hide Encode;
    if ps != [] {
      var n := |ps| - 1;
      SizeDelivered(ps[..n]);
      assert Delivered(ps)[..n] == Delivered(ps[..n]);
      assert ps == ps[..n] + [ps[n]];
      WireConcat(ps[..n], [ps[n]]);
      assert Wire([ps[n]]) == Encode(ps[n]) + Wire([]);
    }
  }

  // ---- What every step keeps ----

  /** Bytes are nowhere created, and every handler will find its block. */
  ghost predicate Conserved(s: State) {
    && AllSized(s.sent)
    && s.taken + |Join(s.readq)| + |s.acc| + |s.wire| + |Join(s.writeq)| + s.lost == |Wire(s.sent)|
    && Size(s.handled) <= s.taken
    && |s.readq| == s.scheduled && s.starved == 0
  }

  /** As long as nothing was lost: handled packets, queued blocks and the bytes still under
      way are one stream, in order. */
  ghost predicate InOrder(s: State) {
    var h, q := |s.handled|, |s.readq|;
    && !s.stuck
    && h + q <= |s.sent|
    && s.handled == Delivered(s.sent[..h])
    && s.readq == Blocks(s.sent[h..h + q])
    && s.acc + s.wire + Join(s.writeq) == Wire(s.sent[h + q..])
    && Extract(s.acc) == Cut([], s.acc, false)
  }

  ghost predicate Inv(s: State) { Conserved(s) && (s.lost == 0 ==> InOrder(s)) }

  lemma InvStart()
    ensures Inv(START)
  {
  }

  lemma SendKeeps(s: State, p: Packet)
    requires Inv(s) && Sized(p)
    ensures Inv(Next(s, Send(p)))
  {
    hide Encode, Extract, Wire, Join, Size;
    var s' := Next(s, Send(p));
    JoinSnoc(s.writeq, Encode(p));
    WireSnoc(s.sent, p);
    if s.lost == 0 {
      var h, q := |s.handled|, |s.readq|;
      assert s'.sent[..h] == s.sent[..h] && s'.sent[h..h + q] == s.sent[h..h + q];
      assert s'.sent[h + q..] == s.sent[h + q..] + [p];
      WireSnoc(s.sent[h + q..], p);
      Associative(s.acc + s.wire, Join(s.writeq), Encode(p));
    }
  }

  lemma WriteKeeps(s: State, n: nat)
    requires Inv(s) && Enabled(s, Write(n))
    ensures Inv(Next(s, Write(n)))
  {
    hide Encode, Extract, Wire;
    var s' := Next(s, Write(n));
    var b := s.writeq[0];
    assert Join(s.writeq) == b + Join(s.writeq[1..]);
    if s'.lost == 0 {
      assert b[..n] == b;
      assert s.acc + (s.wire + b) + Join(s.writeq[1..]) == s.acc + s.wire + (b + Join(s.writeq[1..]));
    }
  }

  lemma ReceiveConserves(s: State, n: nat)
    requires Conserved(s) && Enabled(s, Receive(n))
    ensures Conserved(Next(s, Receive(n)))
  {
    hide Encode, Extract, Wire;
    var input := s.acc + s.wire[..n];
    ExtractDivides(input);
    JoinConcat(s.readq, Extract(input).frames);
  }

  /** Reading some bytes of a stream of packets cuts off the next k of them. */
  lemma CutAhead(ahead: seq<Packet>, input: seq<Byte>, later: seq<Byte>) returns (k: nat)
    requires AllSized(ahead) && input + later == Wire(ahead)
    ensures k <= |ahead| && !Extract(input).spins
    ensures Extract(input).frames == Blocks(ahead[..k])
    ensures Extract(input).rest + later == Wire(ahead[k..])
    ensures Extract(Extract(input).rest) == Cut([], Extract(input).rest, false)
  {
    hide Encode, Extract, Join, Wire;
    k := ExtractPrefix(ahead, input);
    var rest := Extract(input).rest;
    ExtractDivides(input);
    JoinBlocks(ahead[..k]);
    assert ahead == ahead[..k] + ahead[k..];
    WireConcat(ahead[..k], ahead[k..]);
    Associative(Wire(ahead[..k]), rest, later);
    Cancel(Wire(ahead[..k]), rest + later, Wire(ahead[k..]));
    RestIsCut(input);
  }

  lemma ReceiveInOrder(s: State, n: nat)
    requires Inv(s) && s.lost == 0 && Enabled(s, Receive(n))
    ensures InOrder(Next(s, Receive(n)))
  {
    hide Encode, Extract, Join, Wire, Size, Blocks;
    var h, q := |s.handled|, |s.readq|;
    var ahead, input := s.sent[h + q..], s.acc + s.wire[..n];
    assert s.wire == s.wire[..n] + s.wire[n..];
    assert input + (s.wire[n..] + Join(s.writeq)) == s.acc + s.wire + Join(s.writeq);
    var k := CutAhead(ahead, input, s.wire[n..] + Join(s.writeq));
    Associative(Extract(input).rest, s.wire[n..], Join(s.writeq));
    assert s.sent[h + q + k..] == ahead[k..];
    BlocksConcat(s.sent[h..h + q], ahead[..k]);
    assert s.sent[h..h + q + k] == s.sent[h..h + q] + ahead[..k];
  }

  lemma Cancel(a: seq<Byte>, b: seq<Byte>, c: seq<Byte>)
    requires a + b == a + c
    ensures b == c
  {
    assert b == (a + b)[|a|..];
  }

  /** The residue holds no whole frame. */
  lemma {:induction false} RestIsCut(acc: seq<Byte>)
    requires !Extract(acc).spins
    ensures Extract(Extract(acc).rest) == Cut([], Extract(acc).rest, false)
    decreases |acc|
  {
    if HasFrame(acc) {
      RestIsCut(acc[FrameSize(acc)..]);
    }
  }

  lemma HandleConserves(s: State)
    requires Conserved(s) && Enabled(s, Handle)
    ensures Conserved(Next(s, Handle))
  {
    assert |Join(s.readq)| == |s.readq[0]| + |Join(s.readq[1..])|;
    hide Encode, Extract, Wire, Decode, Join, Size, Deserialised;
    SizeSnoc(s.handled, s.readq[0]);
  }

  lemma SizeSnoc(handled: seq<Option<Packet>>, block: seq<Byte>)
    ensures Size(handled + [Deserialised(block)]) <= Size(handled) + |block|
  {
    var r := handled + [Deserialised(block)];
    assert r[..|handled|] == handled;
    assert Deserialised(block).Some? ==> HEADER + |Deserialised(block).value.data| == |block|;
  }

  lemma HandleInOrder(s: State)
    requires Inv(s) && s.lost == 0 && Enabled(s, Handle)
    ensures InOrder(Next(s, Handle))
  {
    hide Encode, Extract, Wire, Decode;
    var s' := Next(s, Handle);
    var h, q := |s.handled|, |s.readq|;
    var p := s.sent[h];
    assert s.readq[0] == Encode(s.sent[h..h + q][0]) && p in s.sent;
    DecodeEncode(p);
    assert Deserialised(s.readq[0]) == Some(p);
    assert s.sent[..h + 1] == s.sent[..h] + [p];
    assert s'.handled == Delivered(s.sent[..h + 1]);
    assert s'.readq == Blocks(s.sent[h + 1..h + q]);
  }

  lemma InvNext(s: State, step: Step)
    requires Inv(s) && Enabled(s, step)
    ensures Inv(Next(s, step))
  {
    match step
    case Send(p) => SendKeeps(s, p);
    case Write(n) => WriteKeeps(s, n);
    case WouldBlock =>
    case Receive(n) =>
      ReceiveConserves(s, n);
      if s.lost == 0 { ReceiveInOrder(s, n); }
    case Handle =>
      HandleConserves(s);
      if s.lost == 0 { HandleInOrder(s); }
  }

  lemma {:induction false} InvRun(from: State, steps: seq<Step>, to: State)
    requires Inv(from) && Run(from, steps, to)
    ensures Inv(to)
    decreases |steps|
  {
    hide Inv, Enabled, Next;
    if steps != [] {
      InvNext(from, steps[0]);
      InvRun(Next(from, steps[0]), steps[1..], to);
    }
  }

  // ---- Main results ----

  /** A scheduled handler never finds its read queue empty, whatever the writes lost. */
  lemma NeverStarved(steps: seq<Step>, s: State)
    requires Run(START, steps, s)
    ensures s.starved == 0 && |s.readq| == s.scheduled
  {
    InvStart();
    InvRun(START, steps, s);
  }

  /** The packets handed to handlers are, field for field and in order, the first of the
      packets sent, unless bytes were lost. */
  lemma EndToEnd(steps: seq<Step>, s: State)
    requires Run(START, steps, s) && s.lost == 0
    ensures |s.handled| <= |s.sent| && s.handled == Delivered(s.sent[..|s.handled|])
    ensures !s.stuck
  {
    InvStart();
    InvRun(START, steps, s);
  }

  predicate Drained(s: State) { s.writeq == [] && s.wire == [] && s.readq == [] }

  /** Once the channel is empty every packet has been handed over, if and only if no byte was
      lost. */
  lemma DeliversAllIffNothingLost(s: State)
    requires Inv(s) && Drained(s)
    ensures s.handled == Delivered(s.sent) <==> s.lost == 0
  {
    hide Encode, Extract;
    if s.lost == 0 {
      var h := |s.handled|;
      var ahead := s.sent[h..];
      assert s.acc == Wire(ahead);
      if ahead != [] {
        assert AllSized(ahead);
        ExtractWire(ahead);
        assert false;
      }
      assert s.sent[..h] == s.sent;
    } else if s.handled == Delivered(s.sent) {
      SizeDelivered(s.sent);
    }
  }

  /** Some write of the run took less than the block it was given. */
  predicate ShortWrites(from: State, steps: seq<Step>)
    decreases |steps|
  {
    steps != [] && Enabled(from, steps[0]) &&
    ((steps[0].Write? && steps[0].n < |from.writeq[0]|) || ShortWrites(Next(from, steps[0]), steps[1..]))
  }

  /** Bytes are lost exactly by short writes. */
  lemma {:induction false} LossIsShortWrite(from: State, steps: seq<Step>, to: State)
    requires Run(from, steps, to) && from.lost == 0
    ensures to.lost == 0 <==> !ShortWrites(from, steps)
    decreases |steps|
  {
    hide Encode, Extract;
    if steps != [] {
      var mid := Next(from, steps[0]);
      if mid.lost == 0 {
        LossIsShortWrite(mid, steps[1..], to);
      } else {
        LossStays(mid, steps[1..], to);
      }
    }
  }

  lemma {:induction false} LossStays(from: State, steps: seq<Step>, to: State)
    requires Run(from, steps, to)
    ensures to.lost >= from.lost
    decreases |steps|
  {
    hide Encode, Extract;
    if steps != [] {
      LossStays(Next(from, steps[0]), steps[1..], to);
    }
  }

  /** When a run has emptied the channel, all packets have arrived if and only if the socket
      never took less than the block it was given. */
  lemma ReliableIffNoShortWrite(steps: seq<Step>, s: State)
    requires Run(START, steps, s) && Drained(s)
    ensures s.handled == Delivered(s.sent) <==> !ShortWrites(START, steps)
  {
    hide Inv, ShortWrites, Delivered;
    InvStart();
    InvRun(START, steps, s);
    DeliversAllIffNothingLost(s);
    LossIsShortWrite(START, steps, s);
  }

  /** A write that takes one byte of the only block, which arrives: the channel is at rest with
      an incomplete header at the receiver, and the packet is gone. */
  lemma ShortWriteExample(p: Packet) returns (steps: seq<Step>, s: State)
    requires Sized(p)
    ensures Run(START, steps, s) && ShortWrites(START, steps) && Drained(s)
    ensures s.sent == [p] && s.handled == [] && s.lost == HEADER + |p.data| - 1
  {
    steps := [Send(p), Write(1), Receive(1)];
    var block := Encode(p);
    hide Encode;
    var queued := Next(START, Send(p));
    var written := Next(queued, Write(1));
    assert written.wire == block[..1] && START.acc + written.wire[..1] == block[..1];
    assert Extract(block[..1]) == Cut([], block[..1], false);
    s := Next(written, Receive(1));
    assert steps[1..] == [Write(1), Receive(1)] && steps[1..][1..] == [Receive(1)];
    assert Run(s, [], s);
    assert Run(written, [Receive(1)], s);
    assert Run(queued, [Write(1), Receive(1)], s);
  }
}
