/** The associative store of map.c: keys and values in two byte buffers with fixed strides,
    searched linearly. */
module ByteMap {
  import opened Bytes
  import opened Wrappers
  import opened Assoc

  type Bytestring = seq<Byte>
  type Entries = seq<Entry<Bytestring, Bytestring>>

  /** Offset of cell i: i * size, by repeated addition. */
  function Slot(i: nat, size: nat): nat {
    if i == 0 then 0 else Slot(i - 1, size) + size
  }

  lemma {:induction false} SlotIsProduct(i: nat, size: nat)
    ensures Slot(i, size) == i * size
  {
    if i > 0 {
      SlotIsProduct(i - 1, size);
    }
  }

  lemma {:induction false} SlotMonotone(i: nat, j: nat, size: nat)
    requires i <= j
    ensures Slot(i, size) <= Slot(j, size)
  {
    if i < j {
      SlotMonotone(i, j - 1, size);
    }
  }

  lemma SlotNext(i: nat, size: nat)
    ensures Slot(i + 1, size) == Slot(i, size) + size
  {
  }

  function Cell(data: seq<Byte>, size: nat, i: nat): (c: Bytestring)
    requires Slot(i + 1, size) <= |data|
    ensures |c| == size
  {
    data[Slot(i, size)..Slot(i, size) + size]
  }

  /** The entries that the two buffers hold. */
  function Read(ks: seq<Byte>, vs: seq<Byte>, k: nat, v: nat, n: nat): (m: Entries)
    requires Slot(n, k) <= |ks| && Slot(n, v) <= |vs|
    ensures |m| == n
  {
    seq(n, i requires 0 <= i < n =>
      SlotMonotone(i + 1, n, k); SlotMonotone(i + 1, n, v);
      Entry(Cell(ks, k, i), Cell(vs, v, i)))
  }

  lemma ReadAt(ks: seq<Byte>, vs: seq<Byte>, k: nat, v: nat, n: nat, i: nat)
    requires Slot(n, k) <= |ks| && Slot(n, v) <= |vs| && i < n
    ensures Slot(i + 1, k) <= |ks| && Slot(i + 1, v) <= |vs|
    ensures Read(ks, vs, k, v, n)[i] == Entry(Cell(ks, k, i), Cell(vs, v, i))
  {
    SlotMonotone(i + 1, n, k);
    SlotMonotone(i + 1, n, v);
  }

  /** Appending one key and one value appends one entry. */
  lemma ReadAppend(ks: seq<Byte>, vs: seq<Byte>, k: nat, v: nat, n: nat, key: Bytestring, value: Bytestring)
    requires |ks| == Slot(n, k) && |vs| == Slot(n, v) && |key| == k && |value| == v
    ensures Read(ks + key, vs + value, k, v, n + 1) == Read(ks, vs, k, v, n) + [Entry(key, value)]
  {
    var m, m' := Read(ks, vs, k, v, n), Read(ks + key, vs + value, k, v, n + 1);
    forall i | 0 <= i < n + 1
      ensures m'[i] == (m + [Entry(key, value)])[i]
    {
      ReadAt(ks + key, vs + value, k, v, n + 1, i);
      if i < n {
        ReadAt(ks, vs, k, v, n, i);
        assert Cell(ks + key, k, i) == Cell(ks, k, i) && Cell(vs + value, v, i) == Cell(vs, v, i);
      } else {
        assert Cell(ks + key, k, n) == key && Cell(vs + value, v, n) == value;
      }
    }
  }

  /** Writing one cell of the value buffer changes one entry. */
  lemma ReadOverwrite(ks: seq<Byte>, vs: seq<Byte>, vs': seq<Byte>, k: nat, v: nat, n: nat, i: nat, value: Bytestring)
    requires Slot(n, k) <= |ks| && Slot(n, v) == |vs| == |vs'| && i < n && |value| == v
    requires Slot(i + 1, v) <= |vs|
    requires vs' == vs[..Slot(i, v)] + value + vs[Slot(i + 1, v)..]
    ensures Read(ks, vs', k, v, n) == Read(ks, vs, k, v, n)[i := Entry(Read(ks, vs, k, v, n)[i].key, value)]
  {
    var m, m' := Read(ks, vs, k, v, n), Read(ks, vs', k, v, n);
    forall j | 0 <= j < n
      ensures m'[j] == m[i := Entry(m[i].key, value)][j]
    {
      ReadAt(ks, vs, k, v, n, j);
      ReadAt(ks, vs', k, v, n, j);
      if j < i {
        SlotMonotone(j + 1, i, v);
        assert Cell(vs', v, j) == Cell(vs, v, j);
      } else if j > i {
        SlotMonotone(i + 1, j, v);
        assert Cell(vs', v, j) == Cell(vs, v, j);
      } else {
        assert Cell(vs', v, i) == value;
      }
    }
  }

  /** Closing the gap of one cell in both buffers removes one entry and keeps the order. */
  lemma ReadErase(ks: seq<Byte>, vs: seq<Byte>, k: nat, v: nat, n: nat, i: nat)
    requires Slot(n, k) == |ks| && Slot(n, v) == |vs| && i < n
    ensures Slot(i + 1, k) <= |ks| && Slot(i + 1, v) <= |vs|
    ensures |ks[..Slot(i, k)] + ks[Slot(i + 1, k)..]| == Slot(n - 1, k)
    ensures |vs[..Slot(i, v)] + vs[Slot(i + 1, v)..]| == Slot(n - 1, v)
    ensures Read(ks[..Slot(i, k)] + ks[Slot(i + 1, k)..], vs[..Slot(i, v)] + vs[Slot(i + 1, v)..], k, v, n - 1)
         == Read(ks, vs, k, v, n)[..i] + Read(ks, vs, k, v, n)[i + 1..]
  {
    SlotMonotone(i + 1, n, k);
    SlotMonotone(i + 1, n, v);
    var ks', vs' := ks[..Slot(i, k)] + ks[Slot(i + 1, k)..], vs[..Slot(i, v)] + vs[Slot(i + 1, v)..];
    var m, m' := Read(ks, vs, k, v, n), Read(ks', vs', k, v, n - 1);
    forall j | 0 <= j < n - 1
      ensures m'[j] == (m[..i] + m[i + 1..])[j]
    {
      ReadAt(ks', vs', k, v, n - 1, j);
      var j' := if j < i then j else j + 1;
      ReadAt(ks, vs, k, v, n, j');
      CellErase(ks, k, n, i, j);
      CellErase(vs, v, n, i, j);
    }
  }

  lemma CellErase(data: seq<Byte>, size: nat, n: nat, i: nat, j: nat)
    requires Slot(n, size) == |data| && i < n && j < n - 1
    requires Slot(i + 1, size) <= |data|
    requires Slot(j + 1, size) <= |data[..Slot(i, size)] + data[Slot(i + 1, size)..]|
    requires Slot((if j < i then j else j + 1) + 1, size) <= |data|
    ensures Cell(data[..Slot(i, size)] + data[Slot(i + 1, size)..], size, j)
         == Cell(data, size, if j < i then j else j + 1)
  {
    SlotNext(i, size);
    SlotNext(j, size);
    SlotNext(j + 1, size);
    hide Slot;
    if j < i {
      SlotMonotone(j + 1, i, size);
      GapBelow(data, Slot(i, size), Slot(i + 1, size), Slot(j, size), size);
    } else {
      SlotMonotone(i, j, size);
      GapAbove(data, Slot(i, size), size, Slot(j, size));
    }
  }

  /** A stretch in front of a gap stays where it is. */
  lemma GapBelow(data: seq<Byte>, from: nat, to: nat, at: nat, size: nat)
    requires at + size <= from <= to <= |data|
    ensures (data[..from] + data[to..])[at..at + size] == data[at..at + size]
  {
  }

  /** A stretch behind a gap moves down by the width of the gap. */
  lemma GapAbove(data: seq<Byte>, from: nat, size: nat, at: nat)
    requires from <= at && at + size + size <= |data|
    ensures (data[..from] + data[from + size..])[at..at + size] == data[at + size..at + size + size]
  {
  }

  /** Entry i is the first one with the value. */
  ghost predicate FirstWith(m: Entries, value: Bytestring, i: int) {
    0 <= i < |m| && m[i].value == value && forall j | 0 <= j < i :: m[j].value != value
  }

  class Store {
    const kSize: nat
    const vSize: nat
    var keys: array<Byte>      // NULL is the buffer of length 0
    var values: array<Byte>
    var len: nat

    ghost predicate Valid()
      reads this, keys, values
    {
      && keys != values
      && keys.Length == Slot(len, kSize)
      && values.Length == Slot(len, vSize)
      && (len > 0 ==> kSize > 0 && vSize > 0)
      && Distinct(View())
    }

    /** The entries in buffer order. */
    ghost function View(): (m: Entries)
      reads this, keys, values
      requires keys.Length == Slot(len, kSize) && values.Length == Slot(len, vSize)
    {
      Read(keys[..], values[..], kSize, vSize, len)
    }

    constructor (kSize: nat, vSize: nat)
      ensures Valid() && View() == [] && fresh(keys) && fresh(values)
      ensures this.kSize == kSize && this.vSize == vSize
    {
      this.kSize, this.vSize := kSize, vSize;
      keys := new Byte[0];
      values := new Byte[0];
      len := 0;
    }

    /** The search loop shared by map_at, map_in, map_copy_at, map_set and map_erase. */
    method Find(key: Bytestring) returns (inx: nat)
      requires Valid() && |key| == kSize
      ensures inx == IndexOf(View(), key)
      ensures inx < len ==> Slot(inx + 1, kSize) <= keys.Length && Slot(inx + 1, vSize) <= values.Length
    {
      inx := 0;
      while inx < len
        invariant 0 <= inx <= len
        invariant forall j | 0 <= j < inx :: View()[j].key != key
      {
        ReadAt(keys[..], values[..], kSize, vSize, len, inx);
        assert View()[inx].key == keys[Slot(inx, kSize)..Slot(inx, kSize) + kSize];
        if keys[Slot(inx, kSize)..Slot(inx, kSize) + kSize] == key {
          return;
        }
        inx := inx + 1;
      }
    }

    /** map_in */
    method Contains(key: Bytestring) returns (found: bool)
      requires Valid() && |key| == kSize
      ensures found <==> Has(View(), key)
    {
      var inx := Find(key);
      found := inx < len;
    }

    /** map_at and map_copy_at: where the value lies in the value buffer. */
    method At(key: Bytestring) returns (offset: Option<nat>)
      requires Valid() && |key| == kSize
      ensures offset.Some? <==> Has(View(), key)
      ensures offset.Some? ==>
        offset.value == IndexOf(View(), key) * vSize && offset.value + vSize <= values.Length &&
        Get(View(), key) == Some(values[offset.value..offset.value + vSize])
    {
      if kSize == 0 || vSize == 0 {
        return None;
      }
      var inx := Find(key);
      if inx == len {
        return None;
      }
      ReadAt(keys[..], values[..], kSize, vSize, len, inx);
      assert values[Slot(inx, vSize)..Slot(inx, vSize) + vSize] == View()[inx].value;
      SlotIsProduct(inx, vSize);
      offset := Some(Slot(inx, vSize));
    }

    /** map_key_by_val: the key of the first entry with this value. */
    method KeyByValue(value: Bytestring) returns (key: Option<Bytestring>)
      requires Valid() && |value| == vSize
      ensures key.None? ==> forall j | 0 <= j < len :: View()[j].value != value
      ensures key.Some? ==> exists i :: FirstWith(View(), value, i) && View()[i].key == key.value
    {
      hide IndexOf;
      var inx := 0;
      while inx < len
        invariant 0 <= inx <= len
        invariant forall j | 0 <= j < inx :: View()[j].value != value
      {
        ReadAt(keys[..], values[..], kSize, vSize, len, inx);
        assert View()[inx].value == values[Slot(inx, vSize)..Slot(inx, vSize) + vSize];
        assert View()[inx].key == keys[Slot(inx, kSize)..Slot(inx, kSize) + kSize];
        if values[Slot(inx, vSize)..Slot(inx, vSize) + vSize] == value {
          assert FirstWith(View(), value, inx);
          return Some(keys[Slot(inx, kSize)..Slot(inx, kSize) + kSize]);
        }
        inx := inx + 1;
      }
      key := None;
    }

    /** map_key_at */
    method KeyAt(inx: nat) returns (key: Option<Bytestring>)
      requires Valid()
      ensures key == if inx < len then Some(View()[inx].key) else None
    {
      if inx >= len {
        return None;
      }
      ReadAt(keys[..], values[..], kSize, vSize, len, inx);
      assert View()[inx].key == keys[Slot(inx, kSize)..Slot(inx, kSize) + kSize];
      key := Some(keys[Slot(inx, kSize)..Slot(inx, kSize) + kSize]);
    }

    /** realloc by one cell and copy the new cell in. */
    static method Grow(data: array<Byte>, cell: Bytestring) returns (copy: array<Byte>)
      ensures fresh(copy)
      ensures copy[..] == data[..] + cell
    {
      copy := new Byte[data.Length + |cell|];
      forall i | 0 <= i < data.Length {
        copy[i] := data[i];
      }
      forall i | 0 <= i < |cell| {
        copy[data.Length + i] := cell[i];
      }
    }

    /** memcpy of one cell over another. */
    static method WriteCell(data: array<Byte>, at: nat, cell: Bytestring)
      requires at + |cell| <= data.Length
      modifies data
      ensures data[..] == old(data[..at]) + cell + old(data[at + |cell|..])
    {
      forall i | 0 <= i < |cell| {
        data[at + i] := cell[i];
      }
    }

    /** malloc of a buffer one cell shorter and the two memcpy around the gap. */
    static method Shrink(data: array<Byte>, at: nat, size: nat) returns (copy: array<Byte>)
      requires at + size <= data.Length
      ensures fresh(copy)
      ensures copy[..] == data[..at] + data[at + size..]
    {
      copy := new Byte[data.Length - size];
      forall i | 0 <= i < at {
        copy[i] := data[i];
      }
      forall i | at <= i < copy.Length {
        copy[i] := data[i + size];
      }
    }

    /** map_set; refuses a map without key or value bytes. */
    method Set(key: Bytestring, value: Bytestring) returns (ok: bool)
      requires Valid() && |key| == kSize && |value| == vSize
      modifies this, keys, values
      ensures Valid() && (keys == old(keys) || fresh(keys)) && (values == old(values) || fresh(values))
      ensures ok <==> kSize > 0 && vSize > 0
      ensures View() == if ok then Put(old(View()), key, value) else old(View())
      ensures ok ==> forall i | 0 <= i < |old(View())| && old(View())[i].key == key ::
        View() == old(View())[i := Entry(key, value)]
      ensures ok && (forall i | 0 <= i < |old(View())| :: old(View())[i].key != key) ==>
        View() == old(View()) + [Entry(key, value)]
    {
      if kSize == 0 || vSize == 0 {
        return false;
      }
      ok := true;
      ghost var m := View();
      PutModel(m, key, value);
      PutPlace(m, key, value);
      var inx := Find(key);
      if inx < len {
        ghost var vs := values[..];
        WriteCell(values, Slot(inx, vSize), value);
        ReadOverwrite(keys[..], vs, values[..], kSize, vSize, len, inx, value);
      } else {
        ReadAppend(keys[..], values[..], kSize, vSize, len, key, value);
        var kCopy := Grow(keys, key);
        var vCopy := Grow(values, value);
        keys, values, len := kCopy, vCopy, len + 1;
      }
    }

    /** The copying part of map_erase. */
    method Cut(inx: nat)
      requires Valid() && inx < len
      requires Distinct(View()[..inx] + View()[inx + 1..])
      modifies this
      ensures Valid() && fresh(keys) && fresh(values)
      ensures View() == old(View()[..inx] + View()[inx + 1..])
    {
      ReadErase(keys[..], values[..], kSize, vSize, len, inx);
      var kCopy := Shrink(keys, Slot(inx, kSize), kSize);
      var vCopy := Shrink(values, Slot(inx, vSize), vSize);
      keys, values, len := kCopy, vCopy, len - 1;
    }

    /** map_erase */
    method Erase(key: Bytestring) returns (found: bool)
      requires Valid() && |key| == kSize
      modifies this
      ensures Valid() && (keys == old(keys) || fresh(keys)) && (values == old(values) || fresh(values))
      ensures found <==> exists i | 0 <= i < |old(View())| :: old(View())[i].key == key
      ensures View() == Remove(old(View()), key)
      ensures forall i | 0 <= i < |old(View())| && old(View())[i].key == key ::
        View() == old(View())[..i] + old(View())[i + 1..]
      ensures !found ==> View() == old(View())
    {
      RemoveModel(View(), key);
      RemovePlace(View(), key);
      var inx := Find(key);
      if inx == len {
        return false;
      }
      Cut(inx);
      found := true;
    }

    /** The loop of a caller that walks the map by index, as the broadcast does: every key is
        met once, in buffer order. */
    method AllKeys() returns (all: seq<Bytestring>)
      requires Valid()
      ensures |all| == len
      ensures forall i | 0 <= i < len :: all[i] == View()[i].key
      ensures forall i, j | 0 <= i < j < len :: all[i] != all[j]
    {
      all := [];
      for i := 0 to len
        invariant |all| == i
        invariant forall j | 0 <= j < i :: all[j] == View()[j].key
      {
        var key := KeyAt(i);
        all := all + [key.value];
      }
    }
  }

  // ---- Runs ----

  datatype Op = SetOp(key: Bytestring, value: Bytestring) | EraseOp(key: Bytestring)

  function Apply(m: Entries, op: Op): Entries {
    match op
    case SetOp(k, v) => Put(m, k, v)
    case EraseOp(k) => Remove(m, k)
  }

  function RunFrom(m: Entries, ops: seq<Op>): Entries {
    if ops == [] then m else Apply(RunFrom(m, ops[..|ops| - 1]), ops[|ops| - 1])
  }

  /** The same on a new map. */
  function Run(ops: seq<Op>): Entries { RunFrom([], ops) }

  /** Two keys that no call of a run erases keep their order: whoever walks the map by index
      meets them in the order in which they first came in. */
  lemma {:induction false} OrderKept(m: Entries, ops: seq<Op>, a: Bytestring, b: Bytestring)
    requires Before(m, a, b)
    requires EraseOp(a) !in ops && EraseOp(b) !in ops
    ensures Before(RunFrom(m, ops), a, b)
  {
    if ops != [] {
      var n := |ops| - 1;
      OrderKept(m, ops[..n], a, b);
      assert ops[n] in ops;
      match ops[n]
      case SetOp(k, v) => PutBefore(RunFrom(m, ops[..n]), k, v, a, b);
      case EraseOp(k) => RemoveBefore(RunFrom(m, ops[..n]), k, a, b);
    }
  }

  /** A key that is set while it is absent comes behind all keys then present. */
  lemma NewComesLast(m: Entries, key: Bytestring, value: Bytestring, a: Bytestring)
    requires Distinct(m) && Has(m, a) && !Has(m, key)
    ensures Before(Apply(m, SetOp(key, value)), a, key)
  {
    var r := Apply(m, SetOp(key, value));
    assert r[IndexOf(m, a)].key == a && r[|m|].key == key;
  }

  /** What an ideal finite map holds after the same run. */
  ghost function Ideal(ops: seq<Op>): map<Bytestring, Bytestring> {
    if ops == [] then map[]
    else
      var f := Ideal(ops[..|ops| - 1]);
      match ops[|ops| - 1]
      case SetOp(k, v) => f[k := v]
      case EraseOp(k) => f - {k}
  }

  /** Over any run the list keeps pairwise distinct keys and behaves as a finite map. */
  lemma {:induction false} RefinesFiniteMap(ops: seq<Op>)
    ensures Distinct(Run(ops))
    ensures Model(Run(ops)) == Ideal(ops)
  {
    if ops != [] {
      RefinesFiniteMap(ops[..|ops| - 1]);
      match ops[|ops| - 1]
      case SetOp(k, v) => PutModel(Run(ops[..|ops| - 1]), k, v);
      case EraseOp(k) => RemoveModel(Run(ops[..|ops| - 1]), k);
    } else {
      assert Model<Bytestring, Bytestring>([]) == map[];
    }
  }
}
