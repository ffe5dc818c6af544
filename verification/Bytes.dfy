/** Machine words as byte sequences.

    The sources copy `ullong`, `size_t`, enums and `bool` with memcpy, so a word
    travels in the byte order of the host.  Little-endian order is used here. */
module Bytes {

  const TWO_32: int := 0x1_0000_0000
  const TWO_64: int := 0x1_0000_0000_0000_0000

  type Byte = x: int | 0 <= x < 256
  type U32 = x: int | 0 <= x < TWO_32
  type U64 = x: int | 0 <= x < TWO_64

  function Pow256(n: nat): (r: int)
    ensures r >= 1
  {
    if n == 0 then 1 else 256 * Pow256(n - 1)
  }

  lemma WordSizes()
    ensures Pow256(4) == TWO_32
    ensures Pow256(8) == TWO_64
  {
    assert Pow256(2) == 65536;
    assert Pow256(4) == TWO_32;
    assert Pow256(6) == 0x1_0000_0000_0000;
  }

  /** The n low-order bytes of x, least significant first. */
  function Store(x: nat, n: nat): (s: seq<Byte>)
    ensures |s| == n
  {
    if n == 0 then [] else [x % 256] + Store(x / 256, n - 1)
  }

  lemma {:induction false} AtLeast(d: int, e: int)
    requires d >= 1 && e >= 1
    ensures d * e >= d
  {
    if e > 1 {
      AtLeast(d, e - 1);
      assert d * e == d * (e - 1) + d;
    }
  }

  /** Quotient and remainder are unique. */
  lemma Unique(d: int, q: int, r: int, q': int, r': int)
    requires 0 <= r < d && 0 <= r' < d && d * q + r == d * q' + r'
    ensures q == q'
  {
    assert d * (q - q') == r' - r && d * (q' - q) == r - r';
    if q > q' { AtLeast(d, q - q'); }
    if q < q' { AtLeast(d, q' - q); }
  }

  /** Dividing twice is dividing by the product. */
  lemma DivideTwice(x: nat, p: int)
    requires p >= 1
    ensures (x / 256) / p == x / (256 * p)
  {
    var y, d := x / 256, 256 * p;
    var q, r := y / p, y % p;
    Split(y, p);
    Split(x, d);
    assert x == 256 * y + x % 256;
    assert 256 * (p * q) == d * q;
    Unique(d, q, 256 * r + x % 256, x / d, x % d);
  }

  lemma Split(x: int, d: int)
    requires d >= 1
    ensures x == d * (x / d) + x % d && 0 <= x % d < d
  {
  }

  /** Byte i of a word is its i-th digit to the base 256. */
  lemma {:induction false} StoreByte(x: nat, n: nat, i: nat)
    requires i < n
    ensures Store(x, n)[i] == (x / Pow256(i)) % 256
  {
    if i > 0 {
      StoreByte(x / 256, n - 1, i - 1);
      DivideTwice(x, Pow256(i - 1));
    }
  }

  function Load(s: seq<Byte>): (x: nat)
  {
    if s == [] then 0 else s[0] + 256 * Load(s[1..])
  }

  /** Four bytes as a number. */
  function Four(s: seq<Byte>): nat
    requires |s| >= 4
  {
    (s[0] as int) + 256 * (s[1] as int) + 65536 * (s[2] as int) + 16777216 * (s[3] as int)
  }

  lemma LoadFour(s: seq<Byte>)
    requires |s| == 4
    ensures Load(s) == Four(s)
  {
    assert s[1..][1..] == s[2..] && s[2..][1..] == s[3..];
    assert Load(s[3..]) == s[3] && Load(s[2..]) == s[2] + 256 * Load(s[3..]);
  }

  lemma {:induction false} LoadBound(s: seq<Byte>)
    ensures Load(s) < Pow256(|s|)
  {
    if s != [] {
      LoadBound(s[1..]);
    }
  }

  lemma {:induction false} LoadStore(x: nat, n: nat)
    requires x < Pow256(n)
    ensures Load(Store(x, n)) == x
  {
    if n > 0 {
      LoadStore(x / 256, n - 1);
      assert Store(x, n)[1..] == Store(x / 256, n - 1);
    }
  }

  lemma {:induction false} StoreLoad(s: seq<Byte>)
    ensures Store(Load(s), |s|) == s
  {
    if s != [] {
      StoreLoad(s[1..]);
      Digit(s[0], Load(s[1..]));
      assert s == [s[0]] + s[1..];
    }
  }

  lemma Digit(low: Byte, rest: nat)
    ensures (low + 256 * rest) % 256 == low && (low + 256 * rest) / 256 == rest
  {
  }

  function Load64(s: seq<Byte>): (x: U64)
    requires |s| == 8
  {
    LoadBound(s);
    WordSizes();
    Load(s)
  }

  function Load32(s: seq<Byte>): (x: U32)
    requires |s| == 4
  {
    LoadBound(s);
    WordSizes();
    Load(s)
  }

  /** Subtraction of `size_t` values wraps at 64 bits. */
  function Sub64(a: U64, b: U64): U64 { (a - b) % TWO_64 }

  /** Addition of `size_t` values wraps at 64 bits. */
  function Add64(a: U64, b: U64): U64 { (a + b) % TWO_64 }

  lemma Division(x: int, q: int, r: int)
    requires x == TWO_64 * q + r && 0 <= r < TWO_64
    ensures x % TWO_64 == r
  {
    var d := q - x / TWO_64;
    assert TWO_64 * d == x % TWO_64 - r;
  }

  /** Counting one on and then wrapping is the same as wrapping at every count. */
  lemma WrapOnce(x: nat)
    ensures Add64(x % TWO_64, 1) == (x + 1) % TWO_64
  {
    var q, r := x / TWO_64, x % TWO_64;
    if r + 1 < TWO_64 { Division(x + 1, q, r + 1); } else { Division(x + 1, q + 1, 0); }
  }

  lemma WrapSame(x: nat, y: nat)
    requires x <= y
    ensures x % TWO_64 == y % TWO_64 <==> (y - x) % TWO_64 == 0
  {
    var q, r := y / TWO_64 - x / TWO_64, y % TWO_64 - x % TWO_64;
    if r >= 0 { Division(y - x, q, r); } else { Division(y - x, q - 1, r + TWO_64); }
  }

  lemma StoreLoad64(s: seq<Byte>)
    requires |s| == 8
    ensures Store(Load64(s), 8) == s
  {
    hide Store;
    StoreLoad(s);
  }
}
