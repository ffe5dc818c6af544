/** The tracking allocator on the heap (allocator.c): an array of bucket chains that calls
    relink in place.  The blocks themselves, which malloc and realloc of libc provide, come in
    as parameters. */
module Allocator {
  import opened Bytes
  import opened Wrappers
  import opened HashTable

  /** struct bucket.  `epoch` tells the chains of one bucket array from those of the next. */
  class Bucket {
    var ptr: U64
    var next: Bucket?
    ghost var epoch: nat

    constructor (ptr: U64, ghost epoch: nat)
      ensures this.ptr == ptr && this.next == null && this.epoch == epoch
    {
      this.ptr, this.next, this.epoch := ptr, null, epoch;
    }
  }

  /** From head, the next pointers run through the nodes, which hold the pointers ps, and
      arrive at tail. */
  ghost predicate Segment(head: Bucket?, nodes: seq<Bucket>, ps: Chain, epoch: nat, tail: Bucket?)
    reads nodes
  {
    if nodes == [] then head == tail && ps == []
    else
      && ps != [] && head == nodes[0]
      && nodes[0].ptr == ps[0] && nodes[0].epoch == epoch
      && Segment(nodes[0].next, nodes[1..], ps[1..], epoch, tail)
  }

  ghost predicate Linked(head: Bucket?, nodes: seq<Bucket>, ps: Chain, epoch: nat)
    reads nodes
  {
    Segment(head, nodes, ps, epoch, null)
  }

  lemma {:induction false} LinkedNodes(head: Bucket?, nodes: seq<Bucket>, ps: Chain, epoch: nat, tail: Bucket?)
    requires Segment(head, nodes, ps, epoch, tail)
    ensures |nodes| == |ps|
    ensures forall j | 0 <= j < |nodes| :: nodes[j].ptr == ps[j] && nodes[j].epoch == epoch
  {
    if nodes != [] {
      LinkedNodes(nodes[0].next, nodes[1..], ps[1..], epoch, tail);
      forall j | 0 < j < |nodes|
        ensures nodes[j].ptr == ps[j] && nodes[j].epoch == epoch
      {
        assert nodes[j] == nodes[1..][j - 1] && ps[j] == ps[1..][j - 1];
      }
    }
  }

  lemma {:induction false} SegmentJoin(head: Bucket?, a: seq<Bucket>, p: Chain, mid: Bucket?, b: seq<Bucket>, q: Chain, epoch: nat, tail: Bucket?)
    requires Segment(head, a, p, epoch, mid) && Segment(mid, b, q, epoch, tail)
    ensures Segment(head, a + b, p + q, epoch, tail)
  {
    if a == [] {
      assert a + b == b && p + q == q;
    } else {
      SegmentJoin(a[0].next, a[1..], p[1..], mid, b, q, epoch, tail);
      assert (a + b)[1..] == a[1..] + b && (p + q)[1..] == p[1..] + q;
    }
  }

  lemma PourStep(from: Table, i: nat, into: Table)
    requires i <= |from| && |into| > 0
    ensures i == |from| ==> PourAll(from[i..], into) == into && Total(from[i..]) == 0
    ensures i < |from| ==>
      && PourAll(from[i..], into) == PourAll(from[i + 1..], Pour(from[i], into))
      && Total(from[i..]) == |from[i]| + Total(from[i + 1..])
  {
    if i < |from| {
      assert from[i..][1..] == from[i + 1..];
    }
  }

  class Allocator {
    var buckets: array<Bucket?>
    var size: nat
    var capacity: nat
    ghost var chains: seq<seq<Bucket>>
    ghost var table: Table
    ghost var epoch: nat
    ghost var nodes: set<Bucket>

    /** The bucket array and the chains represent the table. */
    ghost predicate Shape()
      reads this, buckets, nodes
    {
      && buckets.Length == capacity == |chains| == |table| > 0
      && (forall i | 0 <= i < |chains| :: |chains[i]| == |table[i]|)
      && (forall i | 0 <= i < |chains| :: (forall b | b in chains[i] :: b in nodes))
      && (forall i | 0 <= i < |chains| :: Linked(buckets[i], chains[i], table[i], epoch))
    }

    ghost predicate Valid()
      reads this, buckets, nodes
    {
      && Shape()
      && Good(table)
      && size == Total(table)
    }

    constructor ()
      ensures Valid() && fresh(buckets) && fresh(nodes)
      ensures table == EmptyTable(INITIAL_CAPACITY)
    {
      buckets := new Bucket?[INITIAL_CAPACITY](_ => null);
      size, capacity := 0, INITIAL_CAPACITY;
      chains := seq(INITIAL_CAPACITY, _ => []);
      table := EmptyTable(INITIAL_CAPACITY);
      epoch, nodes := 0, {};
      EmptyGood(INITIAL_CAPACITY);
      TotalEmpty(INITIAL_CAPACITY);
    }

    /** Nodes of one epoch in different chains, or at different places of one, differ. */
    lemma NodesApart(i: nat, j: nat, i': nat, j': nat)
      requires Shape() && Good(table)
      requires i < |chains| && j < |chains[i]| && i' < |chains| && j' < |chains[i']|
      ensures chains[i][j] == chains[i'][j'] ==> i == i' && j == j'
    {
      hide Hash;
      assert Linked(buckets[i], chains[i], table[i], epoch);
      assert Linked(buckets[i'], chains[i'], table[i'], epoch);
      LinkedNodes(buckets[i], chains[i], table[i], epoch, null);
      LinkedNodes(buckets[i'], chains[i'], table[i'], epoch, null);
      if chains[i][j] == chains[i'][j'] {
        assert table[i][j] == table[i'][j'];
        assert Hash(table[i][j], |table|) == i && Hash(table[i'][j'], |table|) == i';
      }
    }

    /** All nodes of the table are distinct. */
    lemma Apart()
      requires Shape() && Good(table)
      ensures forall i, j | 0 <= i < |chains| && 0 <= j < |chains[i]| ::
        |chains[i]| == |table[i]| && chains[i][j].ptr == table[i][j] && chains[i][j].epoch == epoch
      ensures forall i, j, i', j' | 0 <= i < |chains| && 0 <= j < |chains[i]| && 0 <= i' < |chains| && 0 <= j' < |chains[i']| ::
        chains[i][j] == chains[i'][j'] ==> i == i' && j == j'
    {
      forall i, j | 0 <= i < |chains| && 0 <= j < |chains[i]|
        ensures |chains[i]| == |table[i]| && chains[i][j].ptr == table[i][j] && chains[i][j].epoch == epoch
      {
        assert Linked(buckets[i], chains[i], table[i], epoch);
        LinkedNodes(buckets[i], chains[i], table[i], epoch, null);
      }
      forall i, j, i', j' | 0 <= i < |chains| && 0 <= j < |chains[i]| && 0 <= i' < |chains| && 0 <= j' < |chains[i']|
        ensures chains[i][j] == chains[i'][j'] ==> i == i' && j == j'
      {
        NodesApart(i, j, i', j');
      }
    }

    /** Push a bucket on the front of the chain its pointer hashes to. */
    method Link(bk: Bucket)
      requires Shape()
      requires forall i | 0 <= i < |chains| :: bk !in chains[i]
      modifies this`chains, this`table, this`nodes, this`size, buckets, bk`next, bk`epoch
      ensures Shape() && table == Insert(old(table), bk.ptr)
      ensures nodes == old(nodes) + {bk} && size == old(size) + 1
    {
      hide Hash;
      var index := Hash(bk.ptr, capacity);
      bk.epoch := epoch;
      bk.next := buckets[index];
      buckets[index] := bk;
      chains := chains[index := [bk] + chains[index]];
      table := Insert(table, bk.ptr);
      nodes := nodes + {bk};
      size := size + 1;
    }

    /** Where a search of chain inx stands when it has reached bucket j. */
    ghost predicate Reached(inx: nat, j: nat, prev: Bucket?, current: Bucket)
      reads this, buckets, nodes
      requires Valid()
    {
      && inx < |chains| && j < |chains[inx]| && current == chains[inx][j]
      && (j == 0 ==> prev == null)
      && (j > 0 ==> prev == chains[inx][j - 1] && Segment(buckets[inx], chains[inx][..j - 1], table[inx][..j - 1], epoch, prev))
      && Segment(current, chains[inx][j..], table[inx][j..], epoch, null)
    }

    /** Let the link that leads to bucket j of a chain skip it. */
    method Skip(inx: nat, ghost j: nat, prev: Bucket?, current: Bucket)
      requires Valid() && Reached(inx, j, prev, current)
      modifies buckets, nodes
      ensures Linked(buckets[inx], chains[inx][..j] + chains[inx][j + 1..], table[inx][..j] + table[inx][j + 1..], epoch)
      ensures forall i | 0 <= i < |chains| && i != inx :: Linked(buckets[i], chains[i], table[i], epoch)
      ensures current.ptr == old(current.ptr)
    {
      hide Hash;
      ghost var c, ps, head := chains[inx], table[inx], buckets[inx];
      Apart();
      assert c[j..][1..] == c[j + 1..] && ps[j..][1..] == ps[j + 1..];
      if prev == null {
        buckets[inx] := current.next;
        assert c[..j] + c[j + 1..] == c[1..] && ps[..j] + ps[j + 1..] == ps[1..];
      } else {
        prev.next := current.next;
        SkipOne(head, c, ps, j, prev, current);
      }
    }

    /** The chains without bucket j of chain inx, which then occurs nowhere. */
    lemma Gone(inx: nat, j: nat) returns (chains': seq<seq<Bucket>>)
      requires Valid() && inx < |chains| && j < |chains[inx]|
      requires inx == Hash(chains[inx][j].ptr, |table|)
      ensures chains' == chains[inx := chains[inx][..j] + chains[inx][j + 1..]]
      ensures forall i | 0 <= i < |chains'| :: chains[inx][j] !in chains'[i] && (forall b | b in chains'[i] :: b in nodes)
      ensures |table[inx]| == |chains[inx]|
      ensures Delete(table, chains[inx][j].ptr) == table[inx := table[inx][..j] + table[inx][j + 1..]]
      ensures Good(Delete(table, chains[inx][j].ptr)) && Total(Delete(table, chains[inx][j].ptr)) == Total(table) - 1
    {
      hide Hash;
      Apart();
      var ps := table[inx];
      DropAt(ps, j);
      DeleteGood(table, ps[j]);
      chains' := chains[inx := chains[inx][..j] + chains[inx][j + 1..]];
    }

    /** Remove bucket j of its chain from the table. */
    method Unlink(inx: nat, ghost j: nat, prev: Bucket?, current: Bucket)
      requires Valid() && Reached(inx, j, prev, current)
      requires inx == Hash(current.ptr, |table|)
      modifies this`chains, this`table, this`size, buckets, nodes
      ensures Valid() && table == Delete(old(table), old(current.ptr))
      ensures current.ptr == old(current.ptr)
      ensures forall i | 0 <= i < |chains| :: current !in chains[i]
    {
      hide Hash, Drop, Good, Live, Total;
      ghost var ps := table[inx];
      ghost var chains' := Gone(inx, j);
      Skip(inx, j, prev, current);
      chains := chains';
      table := Delete(table, current.ptr);
      size := size - 1;
    }

    lemma SkipOne(head: Bucket?, c: seq<Bucket>, ps: Chain, j: nat, prev: Bucket, current: Bucket)
      requires 0 < j < |c| == |ps| && c[j - 1] == prev && c[j] == current && prev.next == current.next
      requires prev.ptr == ps[j - 1] && prev.epoch == epoch
      requires Segment(head, c[..j - 1], ps[..j - 1], epoch, prev)
      requires Segment(current.next, c[j + 1..], ps[j + 1..], epoch, null)
      ensures Linked(head, c[..j] + c[j + 1..], ps[..j] + ps[j + 1..], epoch)
    {
      assert Segment(prev, [prev], [ps[j - 1]], epoch, current.next);
      SegmentJoin(head, c[..j - 1], ps[..j - 1], prev, [prev], [ps[j - 1]], epoch, current.next);
      assert c[..j] == c[..j - 1] + [prev] && ps[..j] == ps[..j - 1] + [ps[j - 1]];
      SegmentJoin(head, c[..j], ps[..j], current.next, c[j + 1..], ps[j + 1..], epoch, null);
    }

    /** The search of alc_free and alc_realloc, with the link that leads to the found bucket,
        and the unlinking. */
    method Detach(ptr: U64) returns (found: Bucket?)
      requires Valid()
      modifies this`chains, this`table, this`size, buckets, nodes
      ensures Valid() && table == Delete(old(table), ptr)
      ensures found != null <==> ptr in old(table[Hash(ptr, |table|)])
      ensures found != null ==> found in nodes && found.ptr == ptr
      ensures found != null ==> forall i | 0 <= i < |chains| :: found !in chains[i]
    {
      hide Hash;
      var inx := Hash(ptr, capacity);
      ghost var c, ps, j := chains[inx], table[inx], 0;
      var prev: Bucket? := null;
      var current := buckets[inx];
      assert Linked(current, c, ps, epoch);
      while current != null && current.ptr != ptr
        invariant j <= |c| == |ps|
        invariant Segment(current, c[j..], ps[j..], epoch, null)
        invariant Segment(buckets[inx], c[..j], ps[..j], epoch, current)
        invariant j == 0 ==> prev == null
        invariant j > 0 ==> prev == c[j - 1] && Segment(buckets[inx], c[..j - 1], ps[..j - 1], epoch, prev)
        invariant ptr !in ps[..j]
        modifies {}
        decreases |c| - j
      {
        SegmentJoin(buckets[inx], c[..j], ps[..j], current, [c[j]], [ps[j]], epoch, current.next);
        assert c[..j + 1] == c[..j] + [c[j]] && ps[..j + 1] == ps[..j] + [ps[j]];
        prev := current;
        current := current.next;
        j := j + 1;
      }
      found := current;
      if current != null {
        assert ps[j] == ptr;
        Unlink(inx, j, prev, current);
      } else {
        DropAbsent(ps, ptr);
      }
    }

    /** Nodes in the chains belong to the current epoch. */
    lemma Current()
      requires Shape()
      ensures forall i | 0 <= i < |chains| :: (forall b | b in chains[i] :: b.epoch == epoch)
    {
      forall i | 0 <= i < |chains|
        ensures forall b | b in chains[i] :: b.epoch == epoch
      {
        assert Linked(buckets[i], chains[i], table[i], epoch);
        LinkedNodes(buckets[i], chains[i], table[i], epoch, null);
      }
    }

    /** Inner loop of hash_table_resize: relink the nodes of one old chain, front first. */
    method MoveChain(head: Bucket?, ghost rest: seq<Bucket>, ghost ps: Chain, ghost past: nat)
      requires Shape() && past != epoch
      requires Segment(head, rest, ps, past, null)
      requires forall i, j | 0 <= i < j < |rest| :: rest[i] != rest[j]
      requires forall b | b in rest :: b in nodes
      modifies this`chains, this`table, this`nodes, this`size, buckets, rest`next, rest`epoch
      ensures Shape() && |table| == |old(table)| && table == Pour(ps, old(table))
      ensures nodes == old(nodes) && size == old(size) + |ps|
    {
      ghost var k := 0;
      var entry := head;
      LinkedNodes(head, rest, ps, past, null);
      while entry != null
        invariant k <= |rest| && Shape() && nodes == old(nodes)
        invariant |rest| == |ps| && size == old(size) + k
        invariant Segment(entry, rest[k..], ps[k..], past, null)
        invariant Pour(ps[k..], table) == Pour(ps, old(table))
        decreases |rest| - k
      {
        assert rest[k..][1..] == rest[k + 1..] && ps[k..][1..] == ps[k + 1..];
        assert entry == rest[k];
        Current();
        var next := entry.next;
        Link(entry);
        entry := next;
        k := k + 1;
      }
    }

    /** The old bucket array of a resize, from chain i on. */
    ghost predicate Remaining(i: nat, heads: array<Bucket?>, oldChains: seq<seq<Bucket>>, oldTable: Table, past: nat)
      reads heads, nodes, this`nodes
    {
      && heads.Length == |oldChains| == |oldTable|
      && (forall n | i <= n < |oldChains| :: (forall b | b in oldChains[n] :: b in nodes))
      && (forall n | i <= n < |oldChains| :: Linked(heads[n], oldChains[n], oldTable[n], past))
    }

    /** One turn of the outer loop of hash_table_resize. */
    method MoveBucket(i: nat, heads: array<Bucket?>, ghost oldChains: seq<seq<Bucket>>, ghost oldTable: Table, ghost past: nat)
      requires Shape() && past != epoch && heads != buckets
      requires i < |oldChains| && Remaining(i, heads, oldChains, oldTable, past)
      requires forall n, j, m, k | 0 <= n < |oldChains| && 0 <= j < |oldChains[n]| && 0 <= m < |oldChains| && 0 <= k < |oldChains[m]| ::
        oldChains[n][j] == oldChains[m][k] ==> n == m && j == k
      modifies this`chains, this`table, this`nodes, this`size, buckets, nodes
      ensures Shape() && |table| == |old(table)| && table == Pour(oldTable[i], old(table))
      ensures nodes == old(nodes) && size == old(size) + |oldTable[i]|
      ensures Remaining(i + 1, heads, oldChains, oldTable, past)
    {
      assert Linked(heads[i], oldChains[i], oldTable[i], past);
      MoveChain(heads[i], oldChains[i], oldTable[i], past);
    }

    /** First part of hash_table_resize: the new array takes the place of the old one, whose
        chains are still to be moved. */
    method Install(newCapacity: nat) returns (oldBuckets: array<Bucket?>)
      requires Valid() && newCapacity > 0
      modifies this`buckets, this`capacity, this`size, this`chains, this`table, this`epoch
      ensures Shape() && fresh(buckets) && oldBuckets == old(buckets)
      ensures table == EmptyTable(newCapacity) && size == 0 && epoch == old(epoch) + 1
      ensures Remaining(0, oldBuckets, old(chains), old(table), old(epoch))
    {
      hide Hash, Good, Total, Live;
      oldBuckets := buckets;
      buckets := new Bucket?[newCapacity](_ => null);
      capacity, size := newCapacity, 0;
      chains := seq(newCapacity, _ => []);
      table := EmptyTable(newCapacity);
      epoch := epoch + 1;
    }

    /** Outer loop of hash_table_resize. */
    method MoveAll(oldBuckets: array<Bucket?>, oldCapacity: nat, ghost oldChains: seq<seq<Bucket>>, ghost oldTable: Table, ghost past: nat)
      requires Shape() && past != epoch && oldBuckets != buckets && size == 0
      requires oldCapacity == |oldTable|
      requires Remaining(0, oldBuckets, oldChains, oldTable, past)
      requires forall n, j, m, k | 0 <= n < |oldChains| && 0 <= j < |oldChains[n]| && 0 <= m < |oldChains| && 0 <= k < |oldChains[m]| ::
        oldChains[n][j] == oldChains[m][k] ==> n == m && j == k
      modifies this`chains, this`table, this`nodes, this`size, buckets, nodes
      ensures Shape() && nodes == old(nodes) && |table| == |old(table)|
      ensures table == PourAll(oldTable, old(table)) && size == Total(oldTable)
    {
      hide Hash, Pour, PourAll, Total;
      assert oldTable[0..] == oldTable;
      var i := 0;
      while i < oldCapacity
        invariant i <= oldCapacity == |oldTable|
        invariant Shape() && nodes == old(nodes) && |table| == |old(table)|
        invariant Remaining(i, oldBuckets, oldChains, oldTable, past)
        invariant PourAll(oldTable[i..], table) == PourAll(oldTable, old(table))
        invariant size + Total(oldTable[i..]) == Total(oldTable)
      {
        PourStep(oldTable, i, table);
        MoveBucket(i, oldBuckets, oldChains, oldTable, past);
        i := i + 1;
      }
      PourStep(oldTable, i, table);
    }

    /** hash_table_resize; `granted` is whether calloc gave the new array. */
    method Resize(newCapacity: nat, granted: bool)
      requires Valid() && newCapacity > 0
      modifies this, nodes
      ensures Valid() && (buckets == old(buckets) || fresh(buckets)) && nodes == old(nodes)
      ensures table == if granted then Rehash(old(table), newCapacity) else old(table)
    {
      if !granted {
        return;
      }
      hide Hash, Live, Good, PourAll, Total;
      Apart();
      RehashGood(table, newCapacity);
      var oldCapacity := capacity;
      ghost var oldChains, oldTable, past := chains, table, epoch;
      var oldBuckets := Install(newCapacity);
      MoveAll(oldBuckets, oldCapacity, oldChains, oldTable, past);
    }

    /** Give a new bucket to a pointer that libc just handed out. */
    method Adopt(p: U64)
      requires Valid() && p !in Live(table)
      modifies this`chains, this`table, this`nodes, this`size, buckets
      ensures Valid() && table == Insert(old(table), p)
      ensures fresh(nodes - old(nodes))
    {
      hide Hash, Live;
      InsertGood(table, p);
      var bk := new Bucket(p, epoch);
      Link(bk);
    }

    /** alc_malloc; `p` is the answer of malloc. */
    method Malloc(p: Option<U64>, granted: bool) returns (r: Option<U64>)
      requires Valid() && (p.Some? ==> p.value !in Live(table))
      modifies this, buckets, nodes
      ensures Valid() && fresh(nodes - old(nodes)) && (buckets == old(buckets) || fresh(buckets))
      ensures r == p && table == HashTable.Malloc(old(table), p, granted)
      ensures capacity == if p.Some? && 4 * old(size) > 3 * old(capacity) && granted then 2 * old(capacity) else old(capacity)
      ensures size == old(size) + (if p.Some? then 1 else 0)
      ensures Live(table) == Live(old(table)) + (if p.Some? then {p.value} else {})
    {
      hide Hash, Live, Rehash, Insert;
      MallocGood(table, p, granted);
      if p.None? {
        return None;
      }
      if 4 * size > 3 * capacity {
        GrownGood(table, granted);
        Resize(2 * capacity, granted);
      }
      Adopt(p.value);
      r := p;
    }

    /** alc_calloc; `p` is the answer of calloc. */
    method Calloc(p: Option<U64>) returns (r: Option<U64>)
      requires Valid() && (p.Some? ==> p.value !in Live(table))
      modifies this, buckets, nodes
      ensures Valid() && fresh(nodes - old(nodes)) && (buckets == old(buckets) || fresh(buckets))
      ensures r == p && table == HashTable.Calloc(old(table), p)
      ensures capacity == old(capacity) && size == old(size) + (if p.Some? then 1 else 0)
      ensures Live(table) == Live(old(table)) + (if p.Some? then {p.value} else {})
    {
      hide Hash, Live, Insert;
      if p.Some? { InsertGood(table, p.value); }
      if p.None? {
        return None;
      }
      Adopt(p.value);
      r := p;
    }

    /** alc_free */
    method Free(ptr: Option<U64>)
      requires Valid()
      modifies this, buckets, nodes
      ensures Valid() && fresh(nodes - old(nodes)) && (buckets == old(buckets) || fresh(buckets))
      ensures table == Perform(old(table), DoFree(ptr))
      ensures capacity == old(capacity)
      ensures size == old(size) - (if ptr.Some? && ptr.value in Live(old(table)) then 1 else 0)
      ensures Live(table) == Live(old(table)) - (if ptr.Some? then {ptr.value} else {})
    {
      hide Hash, Live, Delete;
      if ptr.Some? { DeleteGood(table, ptr.value); }
      if ptr.None? {
        return;
      }
      var bk := Detach(ptr.value);
    }

    /** alc_realloc; `q` is the answer of realloc, or of malloc when ptr is NULL. */
    method Realloc(ptr: Option<U64>, newBytes: nat, q: Option<U64>, granted: bool) returns (r: Option<U64>)
      requires Valid() && Honest(Live(table), DoRealloc(ptr, newBytes, q, granted))
      modifies this, buckets, nodes
      ensures Valid() && fresh(nodes - old(nodes)) && (buckets == old(buckets) || fresh(buckets))
      ensures table == HashTable.Realloc(old(table), ptr, newBytes, q, granted)
      ensures r == if ptr.Some? && (newBytes == 0 || ptr.value !in Live(old(table))) then None else q
      ensures Total(old(table)) == |Live(old(table))| ==>
        Live(table) ==
          if ptr == None then Live(old(table)) + (if q.Some? then {q.value} else {})
          else if newBytes == 0 then Live(old(table)) - {ptr.value}
          else if ptr.value in Live(old(table)) && q.Some? then Live(old(table)) - {ptr.value} + {q.value}
          else Live(old(table))
    {
      ghost var before := table;
      if Total(before) == |Live(before)| { ReallocGood(before, ptr, newBytes, q, granted); }
      hide Hash, Live, Total, Good, HashTable.Realloc;
      r := Change(ptr, newBytes, q, granted);
    }

    /** The branches of alc_realloc. */
    method Change(ptr: Option<U64>, newBytes: nat, q: Option<U64>, granted: bool) returns (r: Option<U64>)
      requires Valid() && Honest(Live(table), DoRealloc(ptr, newBytes, q, granted))
      modifies this, buckets, nodes
      ensures Valid() && fresh(nodes - old(nodes)) && (buckets == old(buckets) || fresh(buckets))
      ensures table == HashTable.Realloc(old(table), ptr, newBytes, q, granted)
      ensures r == if ptr.Some? && (newBytes == 0 || ptr.value !in Live(old(table))) then None else q
    {
      hide Hash;
      if ptr.None? {
        r := Malloc(q, granted);
        return;
      }
      if newBytes == 0 {
        Free(ptr);
        return None;
      }
      OneChainSearch(table, ptr.value);
      DeleteGood(table, ptr.value);
      var oldBucket := Detach(ptr.value);
      if oldBucket == null {
        DropAbsent(old(table)[Hash(ptr.value, |old(table)|)], ptr.value);
        return None;
      }
      r := q;
      Relocate(oldBucket, if q.Some? then q.value else ptr.value);
      if q.Some? && 4 * size > 3 * capacity {
        Resize(2 * capacity, granted);
      }
    }

    /** Put a detached bucket back under the pointer its block now has. */
    method Relocate(bk: Bucket, p: U64)
      requires Valid() && p !in Live(table) && bk in nodes
      requires forall i | 0 <= i < |chains| :: bk !in chains[i]
      modifies this`chains, this`table, this`nodes, this`size, buckets, bk
      ensures Valid() && table == Insert(old(table), p) && nodes == old(nodes)
    {
      hide Hash, Live;
      InsertGood(table, p);
      bk.ptr := p;
      Link(bk);
    }

    /** alc_gcollect */
    method Collect()
      requires Valid()
      modifies this, buckets
      ensures Valid() && nodes == old(nodes) && buckets == old(buckets)
      ensures table == EmptyTable(|old(table)|)
    {
      hide Hash;
      EmptyGood(|table|);
      TotalEmpty(|table|);
      var i := 0;
      while i < capacity
        invariant i <= capacity == |chains| == |table| == buckets.Length && nodes == old(nodes)
        invariant buckets == old(buckets) && capacity == old(capacity)
        invariant forall k | 0 <= k < i :: buckets[k] == null
      {
        buckets[i] := null;
        i := i + 1;
      }
      chains := seq(capacity, _ => []);
      table := EmptyTable(capacity);
      size := 0;
    }
  }
}
