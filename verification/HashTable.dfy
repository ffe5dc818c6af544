/** The table of live pointers that the tracking allocator keeps (allocator.c), on values:
    one chain of pointers per bucket. */
module HashTable {
  import opened Bytes
  import opened Wrappers

  const INITIAL_CAPACITY := 1024

  function Hash(p: U64, capacity: nat): (i: nat)
    requires capacity > 0
    ensures i < capacity
  {
    ((p * 2654435761) % TWO_64) % capacity
  }

  lemma ModOfMod(x: int, capacity: nat, d: nat)
    requires capacity > 0 && capacity * d == TWO_64
    ensures (x % TWO_64) % capacity == x % capacity
  {
    var q, r := x / TWO_64, x % TWO_64;
    Split(x, TWO_64);
    Split(r, capacity);
    Split(x, capacity);
    assert TWO_64 * q == capacity * (d * q);
    assert x == capacity * (d * q + r / capacity) + r % capacity;
    Unique(capacity, d * q + r / capacity, r % capacity, x / capacity, x % capacity);
  }

  lemma ModStep(x: int, m: int, capacity: nat)
    requires capacity > 0
    ensures (x + m) % capacity == (x % capacity + m) % capacity
  {
    var h, y := x % capacity, x % capacity + m;
    Split(x, capacity);
    Split(y, capacity);
    Split(x + m, capacity);
    assert x + m == capacity * (x / capacity + y / capacity) + y % capacity;
    Unique(capacity, x / capacity + y / capacity, y % capacity, (x + m) / capacity, (x + m) % capacity);
  }

  /** The buckets of consecutive pointers, at a capacity that divides 2^64: bucket 0 for NULL, then
      on by the multiplier each time, and round. */
  lemma HashSteps(p: U64, capacity: nat, d: nat)
    requires capacity > 0 && capacity * d == TWO_64
    ensures Hash(0, capacity) == 0
    ensures p + 1 < TWO_64 ==> Hash(p + 1, capacity) == (Hash(p, capacity) + 2654435761) % capacity
  {
    var x := p * 2654435761;
    ModOfMod(x, capacity, d);
    ModOfMod(x + 2654435761, capacity, d);
    ModStep(x, 2654435761, capacity);
  }

  type Chain = seq<U64>
  type Table = seq<Chain>

  /** Every pointer is in the bucket its hash names and appears once. */
  ghost predicate Good(t: Table) {
    && |t| > 0
    && (forall i, j | 0 <= i < |t| && 0 <= j < |t[i]| :: Hash(t[i][j], |t|) == i)
    && (forall i, j, k | 0 <= i < |t| && 0 <= j < k < |t[i]| :: t[i][j] != t[i][k])
  }

  /** All pointers in the table. */
  ghost function Live(t: Table): set<U64> {
    set i, j | 0 <= i < |t| && 0 <= j < |t[i]| :: t[i][j]
  }

  function Total(t: Table): nat {
    if t == [] then 0 else |t[0]| + Total(t[1..])
  }

  /** Searching one chain finds a pointer if and only if it is live. */
  lemma OneChainSearch(t: Table, p: U64)
    requires Good(t)
    ensures p in t[Hash(p, |t|)] <==> p in Live(t)
  {
    hide Hash;
  }

  lemma {:induction false} TotalUpdate(t: Table, i: nat, c: Chain)
    requires i < |t|
    ensures Total(t[i := c]) == Total(t) - |t[i]| + |c|
  {
    if i == 0 {
      assert t[0 := c][1..] == t[1..];
    } else {
      TotalUpdate(t[1..], i - 1, c);
      assert t[i := c][1..] == t[1..][i - 1 := c];
    }
  }

  // ---- Insertion ----

  /** Push a pointer on the front of its chain. */
  function Insert(t: Table, p: U64): Table
    requires |t| > 0
  {
    var i := Hash(p, |t|);
    t[i := [p] + t[i]]
  }

  lemma InsertGood(t: Table, p: U64)
    requires Good(t) && p !in Live(t)
    ensures Good(Insert(t, p)) && |Insert(t, p)| == |t|
    ensures Live(Insert(t, p)) == Live(t) + {p}
    ensures Total(Insert(t, p)) == Total(t) + 1
    ensures Insert(t, p)[Hash(p, |t|)] == [p] + t[Hash(p, |t|)]
    ensures forall i | 0 <= i < |t| && i != Hash(p, |t|) :: Insert(t, p)[i] == t[i]
  {
    hide Hash;
    var h := Hash(p, |t|);
    var t' := Insert(t, p);
    TotalUpdate(t, h, [p] + t[h]);
    assert forall j | 0 < j < |t'[h]| :: t'[h][j] == t[h][j - 1];
    assert t'[h][0] == p;
    forall x | x in Live(t)
      ensures x in Live(t')
    {
      var i, j :| 0 <= i < |t| && 0 <= j < |t[i]| && t[i][j] == x;
      assert t'[i][if i == h then j + 1 else j] == x;
    }
    forall x | x in Live(t')
      ensures x in Live(t) + {p}
    {
      var i, j :| 0 <= i < |t'| && 0 <= j < |t'[i]| && t'[i][j] == x;
      if i == h && j > 0 {
        assert t[i][j - 1] == x;
      }
    }
  }

  // ---- Removal ----

  function Drop(c: Chain, p: U64): Chain {
    if c == [] then [] else if c[0] == p then c[1..] else [c[0]] + Drop(c[1..], p)
  }

  function Delete(t: Table, p: U64): Table
    requires |t| > 0
  {
    var i := Hash(p, |t|);
    t[i := Drop(t[i], p)]
  }

  /** Unlinking element j of a chain is dropping its pointer. */
  lemma {:induction false} DropAt(c: Chain, j: nat)
    requires j < |c| && forall k | 0 <= k < j :: c[k] != c[j]
    ensures Drop(c, c[j]) == c[..j] + c[j + 1..]
  {
    if j > 0 {
      DropAt(c[1..], j - 1);
      assert c == [c[0]] + c[1..];
    }
  }

  lemma {:induction false} DropAbsent(c: Chain, p: U64)
    requires p !in c
    ensures Drop(c, p) == c
  {
    if c != [] {
      DropAbsent(c[1..], p);
    }
  }

  lemma DeleteChain(t: Table, p: U64) returns (n: nat)
    requires Good(t) && p in t[Hash(p, |t|)]
    ensures n < |t[Hash(p, |t|)]|
    ensures Delete(t, p) == t[Hash(p, |t|) := t[Hash(p, |t|)][..n] + t[Hash(p, |t|)][n + 1..]]
    ensures t[Hash(p, |t|)][n] == p
  {
    hide Hash;
    var h := Hash(p, |t|);
    n :| 0 <= n < |t[h]| && t[h][n] == p;
    DropAt(t[h], n);
  }

  lemma DeleteLive(t: Table, p: U64)
    requires Good(t)
    ensures Live(Delete(t, p)) == Live(t) - {p}
  {
    hide Hash, Drop;
    var h := Hash(p, |t|);
    var t' := Delete(t, p);
    OneChainSearch(t, p);
    if p !in t[h] {
      DropAbsent(t[h], p);
      assert t' == t;
    } else {
      var n := DeleteChain(t, p);
      forall x | x in Live(t) && x != p
        ensures x in Live(t')
      {
        var i, j :| 0 <= i < |t| && 0 <= j < |t[i]| && t[i][j] == x;
        assert t'[i][if i == h && j > n then j - 1 else j] == x;
      }
      forall x | x in Live(t')
        ensures x in Live(t) && x != p
      {
        var i, j :| 0 <= i < |t'| && 0 <= j < |t'[i]| && t'[i][j] == x;
        assert t[i][if i == h && j >= n then j + 1 else j] == x;
      }
    }
  }

  lemma DeleteGood(t: Table, p: U64)
    requires Good(t)
    ensures Good(Delete(t, p)) && |Delete(t, p)| == |t|
    ensures Live(Delete(t, p)) == Live(t) - {p}
    ensures Total(Delete(t, p)) == Total(t) - (if p in Live(t) then 1 else 0)
  {
    hide Hash, Drop;
    var h := Hash(p, |t|);
    DeleteLive(t, p);
    OneChainSearch(t, p);
    TotalUpdate(t, h, Drop(t[h], p));
    if p !in t[h] {
      DropAbsent(t[h], p);
      assert Delete(t, p) == t;
    } else {
      var n := DeleteChain(t, p);
      var c := t[h][..n] + t[h][n + 1..];
      assert forall j | 0 <= j < |c| :: c[j] == t[h][if j < n then j else j + 1];
    }
  }

  // ---- Rehashing ----

  function EmptyTable(capacity: nat): (t: Table)
    ensures |t| == capacity
  {
    seq(capacity, i => [])
  }

  lemma {:induction false} TotalEmpty(capacity: nat)
    ensures Total(EmptyTable(capacity)) == 0
  {
    if capacity > 0 {
      TotalEmpty(capacity - 1);
      assert EmptyTable(capacity)[1..] == EmptyTable(capacity - 1);
    }
  }

  /** Inner loop of the resize: the entries of one old chain, front first. */
  function Pour(c: Chain, into: Table): (t: Table)
    requires |into| > 0
    ensures |t| == |into|
  {
    if c == [] then into else Pour(c[1..], Insert(into, c[0]))
  }

  /** Outer loop of the resize over the old buckets. */
  function PourAll(from: Table, into: Table): (t: Table)
    requires |into| > 0
    ensures |t| == |into|
  {
    if from == [] then into else PourAll(from[1..], Pour(from[0], into))
  }

  function Rehash(t: Table, capacity: nat): (r: Table)
    requires capacity > 0
    ensures |r| == capacity
  {
    PourAll(t, EmptyTable(capacity))
  }

  lemma {:induction false} PourGood(c: Chain, into: Table)
    requires Good(into)
    requires forall p | p in c :: p !in Live(into)
    requires forall j, k | 0 <= j < k < |c| :: c[j] != c[k]
    ensures Good(Pour(c, into))
    ensures Live(Pour(c, into)) == Live(into) + (set p | p in c)
    ensures Total(Pour(c, into)) == Total(into) + |c|
  {
    if c != [] {
      InsertGood(into, c[0]);
      PourGood(c[1..], Insert(into, c[0]));
      assert forall p | p in c :: p == c[0] || p in c[1..];
    }
  }

  /** What one suffix of the old buckets still has to contribute. */
  ghost predicate Apart(from: Table, into: Table) {
    && (forall i, j | 0 <= i < |from| && 0 <= j < |from[i]| :: from[i][j] !in Live(into))
    && (forall i, j, k | 0 <= i < |from| && 0 <= j < k < |from[i]| :: from[i][j] != from[i][k])
    && (forall i, i', j, j' | 0 <= i < i' < |from| && 0 <= j < |from[i]| && 0 <= j' < |from[i']| ::
          from[i][j] != from[i'][j'])
  }

  lemma LiveSplit(from: Table)
    requires from != []
    ensures Live(from) == (set p | p in from[0]) + Live(from[1..])
  {
    forall x
      ensures x in Live(from) <==> x in from[0] || x in Live(from[1..])
    {
      if x in Live(from) {
        var i, j :| 0 <= i < |from| && 0 <= j < |from[i]| && from[i][j] == x;
        if i > 0 { assert from[1..][i - 1][j] == x; }
      }
      if x in from[0] {
        var j :| 0 <= j < |from[0]| && from[0][j] == x;
      }
      if x in Live(from[1..]) {
        var i, j :| 0 <= i < |from[1..]| && 0 <= j < |from[1..][i]| && from[1..][i][j] == x;
        assert from[i + 1][j] == x;
      }
    }
  }

  /** Pouring one bucket leaves the others apart from what is in the new table. */
  lemma ApartNext(from: Table, into: Table)
    requires from != [] && Apart(from, into) && Good(into)
    ensures Good(Pour(from[0], into)) && Apart(from[1..], Pour(from[0], into))
    ensures Live(Pour(from[0], into)) == Live(into) + (set p | p in from[0])
    ensures Total(Pour(from[0], into)) == Total(into) + |from[0]|
  {
    hide Hash, Pour, Good;
    assert forall p | p in from[0] :: p !in Live(into);
    PourGood(from[0], into);
  }

  lemma {:induction false} PourAllGood(from: Table, into: Table)
    requires Good(into) && Apart(from, into)
    ensures Good(PourAll(from, into))
    ensures Live(PourAll(from, into)) == Live(into) + Live(from)
    ensures Total(PourAll(from, into)) == Total(into) + Total(from)
  {
    if from != [] {
      ApartNext(from, into);
      LiveSplit(from);
      hide Live, Good, Apart, Pour;
      PourAllGood(from[1..], Pour(from[0], into));
    }
  }

  lemma EmptyGood(capacity: nat)
    requires capacity > 0
    ensures Good(EmptyTable(capacity)) && Live(EmptyTable(capacity)) == {}
  {
  }

  /** The in-place rehash keeps exactly the live pointers, whatever the new capacity. */
  lemma RehashGood(t: Table, capacity: nat)
    requires Good(t) && capacity > 0
    ensures Good(Rehash(t, capacity))
    ensures Live(Rehash(t, capacity)) == Live(t)
    ensures Total(Rehash(t, capacity)) == Total(t)
  {
    hide Hash;
    EmptyGood(capacity);
    TotalEmpty(capacity);
    assert Apart(t, EmptyTable(capacity));
    PourAllGood(t, EmptyTable(capacity));
  }

  // ---- The allocator calls ----

  /** The load test, with the ratio taken exactly. */
  predicate Overloaded(t: Table) { 4 * Total(t) > 3 * |t| }

  /** hash_table_resize: `granted` is whether calloc gave the new bucket array. */
  function Grown(t: Table, granted: bool): Table
    requires |t| > 0
  {
    if granted then Rehash(t, 2 * |t|) else t
  }

  /** alc_malloc; `p` is what malloc returned. */
  function Malloc(t: Table, p: Option<U64>, granted: bool): Table
    requires |t| > 0
  {
    match p
    case None => t
    case Some(q) => Insert(if Overloaded(t) then Grown(t, granted) else t, q)
  }

  /** alc_calloc never tests the load. */
  function Calloc(t: Table, p: Option<U64>): Table
    requires |t| > 0
  {
    match p
    case None => t
    case Some(q) => Insert(t, q)
  }

  /** alc_realloc on a block that is tracked; `q` is what realloc returned. */
  function Moved(t: Table, ptr: U64, q: Option<U64>, granted: bool): Table
    requires |t| > 0
  {
    var cut := Delete(t, ptr);
    match q
    case None => Insert(cut, ptr)
    case Some(r) =>
      var t' := Insert(cut, r);
      if Overloaded(t') then Grown(t', granted) else t'
  }

  function Realloc(t: Table, ptr: Option<U64>, bytes: nat, q: Option<U64>, granted: bool): Table
    requires |t| > 0
  {
    match ptr
    case None => Malloc(t, q, granted)
    case Some(p) =>
      if bytes == 0 then Delete(t, p)
      else if p in t[Hash(p, |t|)] then Moved(t, p, q, granted)
      else t
  }

  datatype Call =
    | DoMalloc(p: Option<U64>, granted: bool)
    | DoCalloc(p: Option<U64>)
    | DoRealloc(ptr: Option<U64>, bytes: nat, q: Option<U64>, granted: bool)
    | DoFree(ptr: Option<U64>)
    | DoCollect

  function Perform(t: Table, c: Call): (r: Table)
    requires |t| > 0
  {
    match c
    case DoMalloc(p, g) => Malloc(t, p, g)
    case DoCalloc(p) => Calloc(t, p)
    case DoRealloc(ptr, n, q, g) => Realloc(t, ptr, n, q, g)
    case DoFree(ptr) => if ptr.Some? then Delete(t, ptr.value) else t
    case DoCollect => EmptyTable(|t|)
  }

  /** The set of live pointers an ideal tracker keeps. */
  ghost function Track(s: set<U64>, c: Call): set<U64> {
    match c
    case DoMalloc(p, _) => if p.Some? then s + {p.value} else s
    case DoCalloc(p) => if p.Some? then s + {p.value} else s
    case DoRealloc(ptr, n, q, _) =>
      if ptr.None? then (if q.Some? then s + {q.value} else s)
      else if n == 0 then s - {ptr.value}
      else if ptr.value in s && q.Some? then s - {ptr.value} + {q.value}
      else s
    case DoFree(ptr) => if ptr.Some? then s - {ptr.value} else s
    case DoCollect => {}
  }

  /** What libc promises: a block it hands out is not one that is live. */
  ghost predicate Honest(s: set<U64>, c: Call) {
    match c
    case DoMalloc(p, _) => p.Some? ==> p.value !in s
    case DoCalloc(p) => p.Some? ==> p.value !in s
    case DoRealloc(ptr, n, q, _) =>
      q.Some? ==> (if ptr.Some? then q.value !in s - {ptr.value} else q.value !in s)
    case DoFree(_) => true
    case DoCollect => true
  }

  lemma GrownGood(t: Table, granted: bool)
    requires Good(t)
    ensures Good(Grown(t, granted)) && Live(Grown(t, granted)) == Live(t)
    ensures Total(Grown(t, granted)) == Total(t)
    ensures |Grown(t, granted)| == if granted then 2 * |t| else |t|
  {
    RehashGood(t, 2 * |t|);
  }

  lemma MallocGood(t: Table, p: Option<U64>, granted: bool)
    requires Good(t) && (p.Some? ==> p.value !in Live(t))
    ensures Good(Malloc(t, p, granted))
    ensures Live(Malloc(t, p, granted)) == Live(t) + (if p.Some? then {p.value} else {})
    ensures Total(Malloc(t, p, granted)) == Total(t) + (if p.Some? then 1 else 0)
    ensures |Malloc(t, p, granted)| == if p.Some? && Overloaded(t) && granted then 2 * |t| else |t|
  {
    hide Hash, Rehash, Insert;
    if p.Some? {
      if Overloaded(t) { GrownGood(t, granted); }
      InsertGood(if Overloaded(t) then Grown(t, granted) else t, p.value);
    }
  }

  lemma MovedGood(t: Table, ptr: U64, q: Option<U64>, granted: bool)
    requires Good(t) && ptr in Live(t)
    requires q.Some? ==> q.value !in Live(t) - {ptr}
    ensures Good(Moved(t, ptr, q, granted))
    ensures Live(Moved(t, ptr, q, granted)) == if q.Some? then Live(t) - {ptr} + {q.value} else Live(t)
    ensures Total(Moved(t, ptr, q, granted)) == Total(t)
    ensures |Moved(t, ptr, q, granted)| == if q.Some? && Overloaded(t) && granted then 2 * |t| else |t|
  {
    hide Hash, Rehash, Insert, Delete;
    DeleteGood(t, ptr);
    var cut := Delete(t, ptr);
    match q
    case None => InsertGood(cut, ptr);
    case Some(r) =>
      InsertGood(cut, r);
      GrownGood(Insert(cut, r), granted);
  }

  /** Dropping one pointer from the ideal set and taking another in. */
  lemma SwapCount(s: set<U64>, p: U64, q: U64)
    requires q !in s - {p}
    ensures |s - {p} + {q}| == |s - {p}| + 1
    ensures |s - {p}| == |s| - (if p in s then 1 else 0)
  {
    if p !in s { assert s - {p} == s; }
  }

  /** One call keeps the table good, moves the live set as the ideal tracker does, and keeps
      the total equal to its size. */
  lemma PerformGood(t: Table, c: Call)
    requires Good(t) && Honest(Live(t), c) && Total(t) == |Live(t)|
    ensures Good(Perform(t, c))
    ensures Live(Perform(t, c)) == Track(Live(t), c)
    ensures Total(Perform(t, c)) == |Track(Live(t), c)|
  {
    hide Hash, Rehash, Insert, Delete, Moved, Malloc, Live, Total;
    var s := Live(t);
    match c
    case DoMalloc(p, g) =>
      MallocGood(t, p, g);
    case DoCalloc(p) =>
      if p.Some? { InsertGood(t, p.value); }
    case DoRealloc(ptr, n, q, g) => ReallocGood(t, ptr, n, q, g);
    case DoFree(ptr) =>
      if ptr.Some? {
        DeleteGood(t, ptr.value);
        SwapCount(s, ptr.value, ptr.value);
      }
    case DoCollect =>
      EmptyGood(|t|);
      TotalEmpty(|t|);
  }

  lemma ReallocGood(t: Table, ptr: Option<U64>, n: nat, q: Option<U64>, g: bool)
    requires Good(t) && Honest(Live(t), DoRealloc(ptr, n, q, g)) && Total(t) == |Live(t)|
    ensures Good(Realloc(t, ptr, n, q, g))
    ensures Live(Realloc(t, ptr, n, q, g)) == Track(Live(t), DoRealloc(ptr, n, q, g))
    ensures Total(Realloc(t, ptr, n, q, g)) == |Track(Live(t), DoRealloc(ptr, n, q, g))|
  {
    hide Hash, Rehash, Insert, Delete, Moved, Malloc, Live, Total;
    var s := Live(t);
    if ptr.None? {
      MallocGood(t, q, g);
    } else {
      OneChainSearch(t, ptr.value);
      if n == 0 {
        DeleteGood(t, ptr.value);
        SwapCount(s, ptr.value, ptr.value);
      } else if ptr.value in s {
        MovedGood(t, ptr.value, q, g);
        if q.Some? { SwapCount(s, ptr.value, q.value); }
      }
    }
  }

  function Run(calls: seq<Call>): (t: Table)
    ensures |t| > 0
  {
    if calls == [] then EmptyTable(INITIAL_CAPACITY)
    else
      var before := Run(calls[..|calls| - 1]);
      var after := Perform(before, calls[|calls| - 1]);
      assert |after| > 0 by { hide Hash; }
      after
  }

  ghost function Ideal(calls: seq<Call>): set<U64> {
    if calls == [] then {} else Track(Ideal(calls[..|calls| - 1]), calls[|calls| - 1])
  }

  ghost predicate AllHonest(calls: seq<Call>) {
    forall n | 0 <= n < |calls| :: Honest(Ideal(calls[..n]), calls[n])
  }

  /** After any run of allocator calls the table is good, holds exactly the live pointers, and
      its total is their number. */
  lemma {:induction false} RefinesSet(calls: seq<Call>)
    requires AllHonest(calls)
    ensures Good(Run(calls))
    ensures Live(Run(calls)) == Ideal(calls)
    ensures Total(Run(calls)) == |Ideal(calls)|
  {
    if calls == [] {
      EmptyGood(INITIAL_CAPACITY);
      TotalEmpty(INITIAL_CAPACITY);
    } else {
      var n := |calls| - 1;
      HonestPrefix(calls);
      RefinesSet(calls[..n]);
      PerformGood(Run(calls[..n]), calls[n]);
    }
  }

  // ---- Load ----

  /** 4 * (size - 1) <= 3 * capacity */
  ghost predicate WithinLoad(t: Table) { 4 * Total(t) <= 3 * |t| + 4 }

  /** A call that adds a pointer to a table over its load factor and does not grow it: a
      calloc, or a malloc whose resize is refused. */
  predicate Overfills(t: Table, c: Call) {
    Overloaded(t) &&
    match c
    case DoMalloc(p, granted) => p.Some? && !granted
    case DoCalloc(p) => p.Some?
    case DoRealloc(ptr, _, q, granted) => ptr.None? && q.Some? && !granted
    case _ => false
  }

  /** One call keeps the bound if and only if it does not overfill the table. */
  lemma LoadStepIff(t: Table, c: Call)
    requires Good(t) && Honest(Live(t), c) && |t| >= 2 && WithinLoad(t)
    ensures WithinLoad(Perform(t, c)) <==> !Overfills(t, c)
  {
    hide Hash, Rehash, Insert, Delete, Moved, Live, Total;
    match c
    case DoMalloc(p, g) => MallocGood(t, p, g);
    case DoCalloc(p) => if p.Some? { InsertGood(t, p.value); }
    case DoRealloc(ptr, n, q, g) =>
      if ptr.None? {
        MallocGood(t, q, g);
      } else {
        OneChainSearch(t, ptr.value);
        if n == 0 {
          DeleteGood(t, ptr.value);
        } else if ptr.value in Live(t) {
          MovedGood(t, ptr.value, q, g);
        }
      }
    case DoFree(ptr) => if ptr.Some? { DeleteGood(t, ptr.value); }
    case DoCollect => TotalEmpty(|t|);
  }

  /** No call ever shrinks the bucket array. */
  lemma CapacityKept(t: Table, c: Call)
    requires |t| > 0
    ensures |Perform(t, c)| >= |t|
  {
    hide Hash;
  }

  lemma {:induction false} CapacityAtLeastInitial(calls: seq<Call>)
    ensures |Run(calls)| >= INITIAL_CAPACITY
  {
    if calls != [] {
      hide Perform;
      CapacityAtLeastInitial(calls[..|calls| - 1]);
      CapacityKept(Run(calls[..|calls| - 1]), calls[|calls| - 1]);
    }
  }

  lemma HonestPrefix(calls: seq<Call>)
    requires AllHonest(calls) && calls != []
    ensures AllHonest(calls[..|calls| - 1])
    ensures Honest(Ideal(calls[..|calls| - 1]), calls[|calls| - 1])
  {
    var front := calls[..|calls| - 1];
    forall k | 0 <= k < |front|
      ensures Honest(Ideal(front[..k]), front[k])
    {
      assert front[..k] == calls[..k];
    }
  }

  /** The bound holds after the run and after every shorter one. */
  ghost predicate BoundThroughout(calls: seq<Call>) {
    WithinLoad(Run(calls)) && (calls != [] ==> BoundThroughout(calls[..|calls| - 1]))
  }

  /** Some call of the run met a table that it overfilled. */
  ghost predicate Overfilled(calls: seq<Call>) {
    calls != [] &&
    (Overfilled(calls[..|calls| - 1]) || Overfills(Run(calls[..|calls| - 1]), calls[|calls| - 1]))
  }

  /** For every run of calls, the load bound holds throughout if and only if no calloc and no
      malloc with a refused resize was made on a table over its load factor. */
  lemma {:induction false} LoadBoundIff(calls: seq<Call>)
    requires AllHonest(calls)
    ensures BoundThroughout(calls) <==> !Overfilled(calls)
    decreases |calls|
  {
    if calls == [] {
      TotalEmpty(INITIAL_CAPACITY);
    } else {
      hide Run, WithinLoad, Overfills, AllHonest;
      HonestPrefix(calls);
      LoadBoundIff(calls[..|calls| - 1]);
      LastCall(calls);
    }
  }

  /** The last call of a run keeps the bound, if it held before, exactly when it does not
      overfill. */
  lemma LastCall(calls: seq<Call>)
    requires AllHonest(calls) && calls != []
    ensures WithinLoad(Run(calls[..|calls| - 1])) ==>
      (WithinLoad(Run(calls)) <==> !Overfills(Run(calls[..|calls| - 1]), calls[|calls| - 1]))
  {
    hide Perform, WithinLoad, Overfills;
    var front := calls[..|calls| - 1];
    HonestPrefix(calls);
    RefinesSet(front);
    CapacityAtLeastInitial(front);
    if WithinLoad(Run(front)) { LoadStepIff(Run(front), calls[|calls| - 1]); }
  }

  predicate Resizes(c: Call) {
    match c
    case DoMalloc(_, g) => g
    case DoRealloc(_, _, _, g) => g
    case _ => true
  }

  lemma {:induction false} NeverOverfilled(calls: seq<Call>)
    requires forall c | c in calls :: !c.DoCalloc? && Resizes(c)
    ensures !Overfilled(calls)
  {
    if calls != [] {
      NeverOverfilled(calls[..|calls| - 1]);
      assert calls[|calls| - 1] in calls;
    }
  }

  /** With successful resizes and no calloc the table never holds more than one pointer above
      three quarters of its capacity. */
  lemma LoadBound(calls: seq<Call>)
    requires AllHonest(calls)
    requires forall c | c in calls :: !c.DoCalloc? && Resizes(c)
    ensures 4 * Total(Run(calls)) <= 3 * |Run(calls)| + 4
  {
    hide Run, AllHonest;
    LoadBoundIff(calls);
    NeverOverfilled(calls);
  }

  /** A run of callocs alone stays at the initial capacity, so it breaks the bound from the
      770th on. */
  lemma {:induction false} CallocNeverGrows(calls: seq<Call>)
    requires AllHonest(calls)
    requires forall c | c in calls :: c.DoCalloc? && c.p.Some?
    ensures |Run(calls)| == INITIAL_CAPACITY && Total(Run(calls)) == |calls|
    ensures WithinLoad(Run(calls)) <==> |calls| < 770
  {
    if calls == [] {
      TotalEmpty(INITIAL_CAPACITY);
    } else {
      hide Hash;
      var n := |calls| - 1;
      HonestPrefix(calls);
      CallocNeverGrows(calls[..n]);
      RefinesSet(calls[..n]);
      assert calls[n] in calls;
      InsertGood(Run(calls[..n]), calls[n].p.value);
    }
  }

  function Callocs(n: nat): (calls: seq<Call>)
    requires n <= TWO_64
    ensures |calls| == n && forall i | 0 <= i < n :: calls[i] == DoCalloc(Some(i))
  {
    seq(n, i requires 0 <= i < n => DoCalloc(Some(i)))
  }

  /** One more calloc, answered with a new block. */
  lemma CallocSnoc(front: seq<Call>, p: U64)
    requires AllHonest(front) && p !in Ideal(front)
    ensures AllHonest(front + [DoCalloc(Some(p))])
    ensures Ideal(front + [DoCalloc(Some(p))]) == Ideal(front) + {p}
  {
    var calls := front + [DoCalloc(Some(p))];
    assert calls[..|front|] == front;
    forall k | 0 <= k < |calls|
      ensures Honest(Ideal(calls[..k]), calls[k])
    {
      hide Ideal;
      if k < |front| {
        hide Honest;
        assert calls[..k] == front[..k] && Honest(Ideal(front[..k]), front[k]);
      }
    }
  }

  /** There are such runs of any length: libc handing out 0, 1, 2 and so on. */
  lemma {:induction false} CallocsAreHonest(n: nat)
    requires n <= TWO_64
    ensures AllHonest(Callocs(n))
    ensures forall p | p in Ideal(Callocs(n)) :: p < n
  {
    if n > 0 {
      var front := Callocs(n - 1);
      assert Callocs(n) == front + [DoCalloc(Some(n - 1))];
      hide AllHonest, Ideal, Callocs;
      CallocsAreHonest(n - 1);
      CallocSnoc(front, n - 1);
    }
  }
}
