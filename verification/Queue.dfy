/** The FIFO of byte blocks (queue.c): every block is deep-copied in and out, popping shifts
    the whole array down by one. */
module Queue {
  import opened Bytes
  import opened Wrappers

  const HEAD_STEP := 5

  /** struct qblock */
  datatype Block = Block(data: array?<Byte>, dsize: nat)

  predicate Readable(b: Block) { b.data != null ==> b.dsize <= b.data.Length }

  /** The bytes a block stands for.  A NULL pointer or a zero size is the empty block. */
  function Content(b: Block): seq<Byte>
    reads if b.data == null then {} else {b.data}
    requires Readable(b)
  {
    if b.data == null || b.dsize == 0 then [] else b.data[..b.dsize]
  }

  const NOTHING := Block(null, 0)

  /** qblock_copy into a destination whose old data has been freed. */
  method CopyBlock(src: Option<Block>) returns (dest: Block)
    requires src.Some? ==> Readable(src.value)
    ensures dest.data == null ==> dest.dsize == 0
    ensures dest.data != null ==> fresh(dest.data) && dest.data.Length == dest.dsize > 0
    ensures Content(dest) == if src.Some? then Content(src.value) else []
    ensures Holds(dest, Content(dest))
  {
    if src.None? || src.value.data == null || src.value.dsize == 0 {
      return NOTHING;
    }
    var n := src.value.dsize;
    var data := new Byte[n];
    forall i | 0 <= i < n {
      data[i] := src.value.data[i];
    }
    dest := Block(data, n);
  }

  /** The block is a private copy of the bytes. */
  ghost predicate Holds(b: Block, bytes: seq<Byte>)
    reads if b.data == null then {} else {b.data}
  {
    && (b.data == null ==> b.dsize == 0 && bytes == [])
    && (b.data != null ==> b.data.Length == b.dsize > 0 && b.data[..] == bytes)
  }

  lemma HeldBlock(b: Block, bytes: seq<Byte>)
    requires Holds(b, bytes)
    ensures Readable(b) && Content(b) == bytes
  {
  }

  /** The blocks hold the byte strings, no two of them in the same memory. */
  ghost predicate Stores(bs: seq<Block>, contents: seq<seq<Byte>>)
    reads set b | b in bs && b.data != null :: b.data
  {
    && |bs| == |contents|
    && (forall i | 0 <= i < |bs| :: Holds(bs[i], contents[i]))
    && (forall i, j | 0 <= i < j < |bs| :: bs[i].data == null || bs[i].data != bs[j].data)
  }

  /** Outcome of pop_block and peek_block. */
  datatype Code = Done | Empty | TookLast

  class Fifo {
    var blocks: array?<Block>
    var bsize: nat
    var headSize: nat
    ghost var contents: seq<seq<Byte>>
    ghost var repr: set<object>

    ghost predicate Valid()
      reads this, repr
      ensures Valid() ==> this in repr
    {
      && this in repr
      && bsize == |contents| <= headSize
      && (blocks == null ==> bsize == 0)
      && (blocks != null ==>
            && blocks in repr && bsize <= blocks.Length
            && (forall i | 0 <= i < bsize && blocks[i].data != null :: blocks[i].data in repr)
            && Stores(blocks[..bsize], contents))
    }

    constructor ()
      ensures Valid() && fresh(repr)
      ensures contents == []
    {
      blocks := null;
      bsize, headSize := 0, 0;
      contents := [];
      repr := {this};
    }

    /** alc_realloc of the block array to n elements. */
    method Resize(n: nat)
      requires Valid() && bsize <= n
      modifies this`blocks, this`repr
      ensures Valid() && fresh(repr - old(repr)) && old(repr) <= repr
      ensures blocks != null && fresh(blocks) && blocks.Length == n
      ensures forall i | 0 <= i < bsize :: old(blocks) != null && blocks[i] == old(blocks[i])
    {
      var from := blocks;
      var lcopy := new Block[n](_ => NOTHING);
      if from != null {
        forall i | 0 <= i < bsize {
          lcopy[i] := from[i];
        }
      }
      blocks := lcopy;
      repr := repr + {lcopy};
    }

    /** First half of push_block: make room.  head_size never falls while pops shrink the
        array, yet one slot is always free afterwards. */
    method Reserve()
      requires Valid()
      modifies this`blocks, this`headSize, this`repr
      ensures Valid() && fresh(repr - old(repr)) && old(repr) <= repr
      ensures blocks != null && fresh(blocks) && bsize < blocks.Length == headSize
    {
      if headSize <= bsize + 1 {
        headSize := headSize + HEAD_STEP;
      }
      Resize(headSize);
    }

    /** Second half of push_block: store the copy in the free slot. */
    method Append(copy: Block, ghost bytes: seq<Byte>)
      requires Valid() && blocks != null && bsize < blocks.Length && bsize < headSize
      requires Holds(copy, bytes) && (copy.data != null ==> copy.data !in repr)
      modifies this`bsize, this`contents, this`repr, blocks
      ensures Valid()
      ensures repr == old(repr) + (if copy.data == null then {} else {copy.data})
      ensures contents == old(contents) + [bytes]
    {
      ghost var bs := blocks[..bsize] + [copy];
      AddBlock(blocks[..bsize], contents, copy, bytes);
      blocks[bsize] := copy;
      assert Stores(bs, contents + [bytes]);
      assert blocks[..bsize + 1] == bs;
      contents := contents + [bytes];
      bsize := bsize + 1;
      if copy.data != null {
        repr := repr + {copy.data};
      }
    }

    /** push_block */
    method Push(b: Option<Block>)
      requires Valid()
      requires b.Some? ==> Readable(b.value) && (b.value.data != null ==> b.value.data !in repr)
      modifies this, repr
      ensures Valid() && fresh(repr - old(repr))
      ensures contents == old(contents) + [if b.Some? then old(Content(b.value)) else []]
      ensures b.Some? && b.value.data != null ==> b.value.data !in repr
    {
      Reserve();
      var lcopy := CopyBlock(b);
      Append(lcopy, Content(lcopy));
    }

    /** queue_free: the queue stays usable, head_size is kept. */
    method Free()
      requires Valid()
      modifies this
      ensures Valid() && fresh(repr - old(repr))
      ensures contents == [] && bsize == 0 && headSize == old(headSize)
    {
      blocks := null;
      bsize := 0;
      contents := [];
      repr := {this};
    }

    /** One turn of the loop of pop_block. */
    method ShiftOne(i: nat) returns (lcopy: Block)
      requires blocks != null && 1 <= i < blocks.Length && Readable(blocks[i])
      modifies blocks
      ensures blocks[..] == old(blocks[..])[i - 1 := lcopy]
      ensures Holds(lcopy, old(Content(blocks[i])))
      ensures lcopy.data != null ==> fresh(lcopy.data)
    {
      lcopy := CopyBlock(Some(blocks[i]));
      blocks[i - 1] := lcopy;
    }

    /** The loop of pop_block: copy block i over block i - 1 for every i. */
    method ShiftDown() returns (ghost held: seq<Block>)
      requires Valid() && bsize >= 1
      modifies blocks
      ensures blocks[..bsize - 1] == held
      ensures Stores(held, contents[1..])
      ensures forall b | b in held && b.data != null :: fresh(b.data)
    {
      hide Holds, Content;
      ghost var before := blocks[..bsize];
      held := [];
      var i := 1;
      while i < bsize
        invariant 1 <= i <= bsize
        invariant blocks[..i - 1] == held
        invariant blocks[i..bsize] == before[i..]
        invariant Stores(before, contents)
        invariant Stores(held, contents[1..i])
        invariant forall b | b in held && b.data != null :: fresh(b.data)
      {
        assert blocks[i] == before[i];
        HeldBlock(before[i], contents[i]);
        var lcopy := ShiftOne(i);
        AddBlock(held, contents[1..i], lcopy, contents[i]);
        assert contents[1..i + 1] == contents[1..i] + [contents[i]];
        held := held + [lcopy];
        i := i + 1;
      }
    }

    /** End of pop_block on two or more blocks: shift, then shrink the array by one. */
    method DropFirst()
      requires Valid() && bsize >= 2
      modifies this, blocks
      ensures Valid() && fresh(repr - old(repr)) && old(repr) <= repr
      ensures contents == old(contents[1..]) && headSize == old(headSize)
    {
      hide Holds;
      ghost var held := ShiftDown();
      contents := contents[1..];
      bsize := bsize - 1;
      repr := repr + (set b | b in held && b.data != null :: b.data);
      assert forall i | 0 <= i < bsize :: blocks[i] == held[i];
      Resize(bsize);
    }

    /** pop_block */
    method Pop() returns (code: Code, out: Block)
      requires Valid()
      modifies this, repr
      ensures Valid() && fresh(repr - old(repr))
      ensures code == if old(contents) == [] then Empty else if |old(contents)| == 1 then TookLast else Done
      ensures code == Empty ==> contents == []
      ensures code != Empty ==> Readable(out) && Content(out) == old(contents[0]) && contents == old(contents[1..])
      ensures out.data != null ==> fresh(out.data) && out.data !in repr
    {
      if bsize == 0 {
        return Empty, NOTHING;
      }
      out := CopyBlock(Some(blocks[0]));
      if bsize == 1 {
        Free();
        return TookLast, out;
      }
      DropFirst();
      code := Done;
    }

    /** peek_block */
    method Peek() returns (code: Code, out: Block)
      requires Valid()
      ensures code == if contents == [] then Empty else Done
      ensures code == Done ==> Readable(out) && Content(out) == contents[0]
      ensures out.data != null ==> fresh(out.data)
    {
      if bsize == 0 {
        return Empty, NOTHING;
      }
      out := CopyBlock(Some(blocks[0]));
      code := Done;
    }

    method IsEmpty() returns (e: bool)
      requires Valid()
      ensures e <==> contents == []
    {
      e := bsize == 0;
    }

    /** queue_forward: move or copy the front block of another queue to the end of this one. */
    method Forward(from: Fifo, peek: bool) returns (moved: bool)
      requires Valid() && from.Valid() && repr !! from.repr
      modifies this, repr, from, from.repr
      ensures Valid() && from.Valid() && repr !! from.repr
      ensures moved <==> old(from.contents) != []
      ensures moved ==> contents == old(contents) + [old(from.contents[0])]
      ensures from.contents == if moved && !peek then old(from.contents[1..]) else old(from.contents)
      ensures !moved ==> contents == old(contents)
    {
      hide Holds, Stores;
      var e := from.IsEmpty();
      if e {
        return false;
      }
      var block: Block;
      if peek {
        var _, b := from.Peek();
        block := b;
      } else {
        var _, b := from.Pop();
        block := b;
      }
      Push(Some(block));
      moved := true;
    }
  }

  lemma AddBlock(bs: seq<Block>, contents: seq<seq<Byte>>, b: Block, bytes: seq<Byte>)
    requires Stores(bs, contents) && Holds(b, bytes)
    requires b.data != null ==> forall c | c in bs :: c.data != b.data
    ensures Stores(bs + [b], contents + [bytes])
  {
  }

  // ---- Runs ----

  datatype Op = Push(bytes: seq<Byte>) | Pop | Peek

  /** Contents of the queue and everything popped so far, as the methods above specify them. */
  datatype State = State(contents: seq<seq<Byte>>, popped: seq<seq<Byte>>)

  function Apply(s: State, op: Op): State {
    match op
    case Push(b) => s.(contents := s.contents + [b])
    case Pop => if s.contents == [] then s else State(s.contents[1..], s.popped + [s.contents[0]])
    case Peek => s
  }

  function Run(ops: seq<Op>): State {
    if ops == [] then State([], []) else Apply(Run(ops[..|ops| - 1]), ops[|ops| - 1])
  }

  function Pushed(ops: seq<Op>): seq<seq<Byte>> {
    if ops == [] then []
    else
      var last := ops[|ops| - 1];
      Pushed(ops[..|ops| - 1]) + (if last.Push? then [last.bytes] else [])
  }

  /** Over any run, what was popped followed by what is queued is what was pushed. */
  lemma {:induction false} FirstInFirstOut(ops: seq<Op>)
    ensures Run(ops).popped + Run(ops).contents == Pushed(ops)
  {
    if ops != [] {
      var before := Run(ops[..|ops| - 1]);
      FirstInFirstOut(ops[..|ops| - 1]);
      match ops[|ops| - 1]
      case Push(b) =>
        assert before.popped + (before.contents + [b]) == (before.popped + before.contents) + [b];
      case Pop =>
        if before.contents != [] {
          assert before.contents == [before.contents[0]] + before.contents[1..];
        }
      case Peek =>
    }
  }
}
