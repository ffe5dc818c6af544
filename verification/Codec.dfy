/** The wire format of a packet (dnet/general.c). */
module Codec {
  import opened Bytes
  import opened Wrappers

  // Values of PACKET_TYPE.  The enum travels as four bytes, so any 32-bit value can arrive.
  const REQUEST: U32 := 0
  const RESPONSE: U32 := 1
  const SIGNAL: U32 := 2
  const BROADCAST: U32 := 3
  const SIG_BROADCAST: U32 := 4
  const TRACEROUTE: U32 := 5
  const PING: U32 := 6

  /** Bytes in front of the payload: six ids, the type, one bool and the declared length. */
  const HEADER: int := 61

  datatype Packet = Packet(
    packtype: U32,
    fromOs: bool,
    fromUid: U64,
    toUid: U64,
    travFuid: U64,
    travTuid: U64,
    muid: U64,
    cmuid: U64,
    data: seq<Byte>)

  /** The packet and its header fit in a size_t, as anything held in memory does. */
  predicate Sized(p: Packet) { |p.data| + HEADER < TWO_64 }

  function Ids(p: Packet): (s: seq<Byte>)
    ensures |s| == 48
  {
    Store(p.fromUid, 8) + Store(p.toUid, 8) + Store(p.travFuid, 8)
    + Store(p.travTuid, 8) + Store(p.muid, 8) + Store(p.cmuid, 8)
  }

  function Flags(p: Packet): (s: seq<Byte>)
    ensures |s| == 5
  {
    Store(p.packtype, 4) + [if p.fromOs then 1 else 0]
  }

  function Encode(p: Packet): (s: seq<Byte>)
    ensures |s| == HEADER + |p.data|
    ensures s[HEADER..] == p.data
    ensures s[53..61] == Store(|p.data|, 8)
  {
    Ids(p) + Flags(p) + Store(|p.data|, 8) + p.data
  }

  /** The payload length a header declares. */
  function Declared(s: seq<Byte>): U64
    requires |s| >= HEADER
  {
    Load64(s[53..61])
  }

  function DecodeFields(s: seq<Byte>, data: seq<Byte>): Packet
    requires |s| >= HEADER
  {
    Packet(Load32(s[48..52]), s[52] != 0,
           Load64(s[0..8]), Load64(s[8..16]), Load64(s[16..24]),
           Load64(s[24..32]), Load64(s[32..40]), Load64(s[40..48]),
           data)
  }

  /** What packet_deserial makes of a block.  The length test is the subtraction of the
      source, which wraps at 64 bits. */
  function Decode(s: seq<Byte>): (r: Option<Packet>)
    requires |s| < TWO_64
    ensures r.Some? <==> |s| >= HEADER && |s| == HEADER + Declared(s)
  {
    if |s| < HEADER then None
    else if Sub64(|s|, Declared(s)) != HEADER then None
    else
      assert |s| == HEADER + Declared(s) by { WrapIsExact(|s|, Declared(s)); }
      Some(DecodeFields(s, s[HEADER..HEADER + Declared(s)]))
  }

  /** A block of memory: no longer than a size_t can say. */
  type Frame = s: seq<Byte> | |s| < TWO_64

  const ZERO_PACKET := Packet(REQUEST, false, 0, 0, 0, 0, 0, 0, [])

  /** What packet_deserial leaves in a packet that held `before`.  A refused block leaves it
      alone, or sets its header fields only. */
  function Parsed(block: Frame, before: Packet): Packet {
    if |block| < HEADER then before
    else if Decode(block).None? then DecodeFields(block, before.data)
    else Decode(block).value
  }

  /** On a block of at least a header the wrapping test is exact. */
  lemma WrapIsExact(size: U64, declared: U64)
    requires size >= HEADER
    ensures Sub64(size, declared) == HEADER <==> size == HEADER + declared
  {
    if size < declared {
      assert Sub64(size, declared) == size - declared + TWO_64;
    } else {
      assert Sub64(size, declared) == size - declared;
    }
  }

  /** Where each field of a packet lies in its wire form. */
  lemma WireLayout(p: Packet, s: seq<Byte>)
    requires s == Encode(p)
    ensures |s| == 61 + |p.data|
    ensures s[0..8] == Store(p.fromUid, 8)
    ensures s[8..16] == Store(p.toUid, 8)
    ensures s[16..24] == Store(p.travFuid, 8)
    ensures s[24..32] == Store(p.travTuid, 8)
    ensures s[32..40] == Store(p.muid, 8)
    ensures s[40..48] == Store(p.cmuid, 8)
    ensures s[48..52] == Store(p.packtype, 4)
    ensures s[52] == (if p.fromOs then 1 else 0)
    ensures s[53..61] == Store(|p.data|, 8)
    ensures s[61..] == p.data
  {
    assert s[0..48] == Ids(p);
    assert s[48..53] == Flags(p);
    assert s[0..8] == s[0..48][0..8];
    assert s[8..16] == s[0..48][8..16];
    assert s[16..24] == s[0..48][16..24];
    assert s[24..32] == s[0..48][24..32];
    assert s[32..40] == s[0..48][32..40];
    assert s[40..48] == s[0..48][40..48];
    assert s[48..52] == s[48..53][0..4];
    assert s[52] == s[48..53][4];
  }

  /** A serialised packet is read back field for field. */
  lemma DecodeEncode(p: Packet)
    requires Sized(p)
    ensures Decode(Encode(p)) == Some(p)
    ensures Declared(Encode(p)) == |p.data|
  {
    var s := Encode(p);
    WireLayout(p, s);
    WordSizes();
    LoadStore(p.fromUid, 8);
    LoadStore(p.toUid, 8);
    LoadStore(p.travFuid, 8);
    LoadStore(p.travTuid, 8);
    LoadStore(p.muid, 8);
    LoadStore(p.cmuid, 8);
    LoadStore(p.packtype, 4);
    LoadStore(|p.data|, 8);
    assert s[HEADER..HEADER + |p.data|] == p.data;
  }

  lemma IdsOfDecoded(s: seq<Byte>, data: seq<Byte>)
    requires |s| >= HEADER
    ensures Ids(DecodeFields(s, data)) == s[0..48]
  {
    hide Store, Load64;
    StoreLoad64(s[0..8]);
    StoreLoad64(s[8..16]);
    StoreLoad64(s[16..24]);
    StoreLoad64(s[24..32]);
    StoreLoad64(s[32..40]);
    StoreLoad64(s[40..48]);
    assert s[0..16] == s[0..8] + s[8..16];
    assert s[0..24] == s[0..16] + s[16..24];
    assert s[0..32] == s[0..24] + s[24..32];
    assert s[0..40] == s[0..32] + s[32..40];
    assert s[0..48] == s[0..40] + s[40..48];
  }

  lemma FlagsOfDecoded(s: seq<Byte>, data: seq<Byte>)
    requires |s| >= HEADER
    ensures Flags(DecodeFields(s, data)) == s[48..52] + [if s[52] != 0 then 1 else 0]
  {
    StoreLoad(s[48..52]);
  }

  /** Serialising an accepted block again changes at most its bool byte. */
  lemma Rebuilt(s: seq<Byte>)
    requires |s| < TWO_64
    requires Decode(s).Some?
    ensures Encode(Decode(s).value) == s[..52] + [if s[52] != 0 then 1 else 0] + s[53..]
  {
    var p := Decode(s).value;
    IdsOfDecoded(s, p.data);
    FlagsOfDecoded(s, p.data);
    hide Store, Ids, Flags, DecodeFields, Load;
    StoreLoad(s[53..61]);
    assert Store(|p.data|, 8) == s[53..61];
    assert s[..52] == s[0..48] + s[48..52];
    assert s[53..] == s[53..61] + s[61..];
  }

  /** An accepted block is reproduced byte for byte exactly when its bool byte is 0 or 1. */
  lemma EncodeDecode(s: seq<Byte>)
    requires |s| < TWO_64
    requires Decode(s).Some?
    ensures Encode(Decode(s).value) == s <==> s[52] <= 1
  {
    hide Encode, Decode;
    Rebuilt(s);
    var flag: Byte := if s[52] != 0 then 1 else 0;
    assert (s[..52] + [flag] + s[53..])[52] == flag;
    assert s == s[..52] + [s[52]] + s[53..];
  }

  /** Two packets never share a wire form. */
  lemma EncodeInjective(p: Packet, q: Packet)
    requires Sized(p) && Sized(q)
    requires Encode(p) == Encode(q)
    ensures p == q
  {
    DecodeEncode(p);
    DecodeEncode(q);
  }

  /** memcpy of the low n bytes of a word to out + offset; returns the advanced offset. */
  method PutWord(out: array<Byte>, offset: nat, x: nat, n: nat) returns (next: nat)
    requires offset + n <= out.Length
    modifies out
    ensures next == offset + n
    ensures out[..next] == old(out[..offset]) + Store(x, n)
  {
    var bytes := Store(x, n);
    forall i | 0 <= i < n {
      out[offset + i] := bytes[i];
    }
    next := offset + n;
  }

  method PutIds(out: array<Byte>, p: Packet) returns (offset: nat)
    requires out.Length >= 48
    modifies out
    ensures offset == 48
    ensures out[..48] == Ids(p)
  {
    hide Store;
    offset := PutWord(out, 0, p.fromUid, 8);
    offset := PutWord(out, offset, p.toUid, 8);
    offset := PutWord(out, offset, p.travFuid, 8);
    offset := PutWord(out, offset, p.travTuid, 8);
    offset := PutWord(out, offset, p.muid, 8);
    offset := PutWord(out, offset, p.cmuid, 8);
  }

  /** packet_serial: header fields then payload through a running offset. */
  method Serial(p: Packet) returns (out: array<Byte>)
    requires Sized(p)
    ensures fresh(out)
    ensures out[..] == Encode(p)
  {
    out := new Byte[|p.data| + HEADER];
    var offset := PutIds(out, p);
    offset := PutWord(out, offset, p.packtype, 4);
    offset := PutWord(out, offset, if p.fromOs then 1 else 0, 1);
    offset := PutWord(out, offset, |p.data|, 8);
    ghost var head := out[..offset];
    assert head == Ids(p) + Flags(p) + Store(|p.data|, 8) by {
      assert Store(if p.fromOs then 1 else 0, 1) == [if p.fromOs then 1 else 0];
    }
    if |p.data| != 0 {
      forall i | 0 <= i < |p.data| {
        out[offset + i] := p.data[i];
      }
    }
    assert out[..offset] == head;
    assert out[offset..] == p.data;
    assert out[..] == out[..offset] + out[offset..];
  }

  lemma HeaderSlices(block: array<Byte>, s: seq<Byte>)
    requires block.Length >= HEADER && s == block[..]
    ensures forall i, j | 0 <= i <= j <= HEADER :: s[i..j] == block[i..j]
  {
  }

  /** packet_deserial on a block of memory, into a packet that held `before`.  `dsize` is what
      data.dsize says afterwards: a block refused by the length test leaves the declared length
      there, beside the data of before. */
  method Deserial(block: array<Byte>, before: Packet) returns (ok: bool, p: Packet, dsize: nat)
    requires block.Length < TWO_64
    ensures ok ==> Decode(block[..]) == Some(p) && dsize == |p.data|
    ensures !ok ==> Decode(block[..]).None? && p.data == before.data
    ensures p == Parsed(block[..], before)
    ensures dsize == if block.Length < HEADER then |before.data| else Declared(block[..])
    ensures block.Length < HEADER ==> p == before
    ensures block.Length >= HEADER ==>
      && p.fromUid == Load64(block[0..8]) && p.toUid == Load64(block[8..16])
      && p.travFuid == Load64(block[16..24]) && p.travTuid == Load64(block[24..32])
      && p.muid == Load64(block[32..40]) && p.cmuid == Load64(block[40..48])
      && p.packtype == Load32(block[48..52]) && p.fromOs == (block[52] != 0)
  {
    hide Load64, Load32;
    if block.Length < HEADER {
      return false, before, |before.data|;
    }
    var s := block[..];
    HeaderSlices(block, s);
    dsize := Load64(s[53..61]);
    p := DecodeFields(s, before.data);
    WrapIsExact(block.Length, dsize);
    if Sub64(block.Length, dsize) != HEADER {
      return false, p, dsize;
    }
    p := p.(data := block[HEADER..HEADER + dsize]);
    ok := true;
  }
}
