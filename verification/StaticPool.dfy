/**
  The bump allocator behind HTTP fields: one arena, shared by any number of allocator copies, that hands
  out consecutive blocks, takes them back only as a count, and starts over when the count reaches zero.
 */
module StaticPool {
  import opened Common

  /** Bytes `start` to `start + size` of the arena. */
  datatype Block = Block(start: nat, size: nat) {
    function End(): nat {
      start + size
    }
  }

  /**
    The fields of `static_pool` (`cursor` is `p_` relative to the arena), how often its memory was
    released, the blocks handed out since the arena last started over, and which of them are in use.
   */
  datatype Arena = Arena(
    size: nat,
    cursor: nat,
    count: nat,
    refs: nat,
    released: nat,
    blocks: seq<Block>,
    live: set<nat>)

  /** `alloc`, `dealloc` of a block in use, copying an allocator and destroying one. */
  datatype Op = Alloc(bytes: nat) | Dealloc(index: nat) | Share | Destroy

  /** Does `alloc` throw `bad_alloc`? The last byte of the arena is never handed out. */
  predicate Refuses(a: Arena, bytes: nat) {
    a.cursor + bytes >= a.size
  }

  /** The effect of an operation through some copy of the allocator, or None if it cannot be called. */
  function Next(a: Arena, op: Op): Option<Arena> {
    if a.refs == 0 then None
    else match op
      case Alloc(bytes) =>
        if Refuses(a, bytes) then Some(a)
        else Some(a.(cursor := a.cursor + bytes, count := a.count + 1,
                     blocks := a.blocks + [Block(a.cursor, bytes)], live := a.live + {|a.blocks|}))
      case Dealloc(index) =>
        if index !in a.live || a.count == 0 then None
        else if a.count == 1 then Some(a.(count := 0, cursor := 0, blocks := [], live := {}))
        else Some(a.(count := a.count - 1, live := a.live - {index}))
      case Share => Some(a.(refs := a.refs + 1))
      case Destroy =>
        Some(a.(refs := a.refs - 1, released := a.released + if a.refs == 1 then 1 else 0))
  }

  function Construct(size: nat): Arena {
    Arena(size, 0, 0, 1, 0, [], {})
  }

  /** The arena after a run of operations, or None if some of them could not be called. */
  function Run(size: nat, ops: seq<Op>): Option<Arena> {
    if ops == [] then Some(Construct(size))
    else
      var before := Run(size, ops[..|ops| - 1]);
      if before.None? then None else Next(before.value, ops[|ops| - 1])
  }

  // ------------------------------------------------------------------------------------------
  // The invariant

  function TotalSize(blocks: seq<Block>): nat {
    if blocks == [] then 0 else TotalSize(blocks[..|blocks| - 1]) + blocks[|blocks| - 1].size
  }

  /** The blocks follow each other without overlap or gap, from the start of the arena to the cursor. */
  ghost predicate Packed(blocks: seq<Block>, cursor: nat) {
    && (forall i, j :: 0 <= i < j < |blocks| ==> blocks[i].End() <= blocks[j].start)
    && (forall i :: 0 <= i < |blocks| ==> blocks[i].End() <= cursor)
    && TotalSize(blocks) == cursor
  }

  ghost predicate Inv(a: Arena) {
    && Packed(a.blocks, a.cursor)
    && (a.cursor < a.size || a.blocks == [])
    && (forall i :: i in a.live ==> i < |a.blocks|)
    && a.count == |a.live|
    && (a.live == {} ==> a.blocks == [])
    && a.released == if a.refs == 0 then 1 else 0
  }

  lemma PackedExtend(blocks: seq<Block>, cursor: nat, bytes: nat)
    requires Packed(blocks, cursor)
    ensures Packed(blocks + [Block(cursor, bytes)], cursor + bytes)
  {
    var longer := blocks + [Block(cursor, bytes)];
    assert longer[..|longer| - 1] == blocks;
  }

  lemma PackedEmpty()
    ensures Packed([], 0)
  {
  }

  lemma Kept(a: Arena, op: Op, b: Arena)
    requires Inv(a) && Next(a, op) == Some(b)
    ensures Inv(b)
  {
    hide Packed;
    match op
    case Alloc(bytes) =>
      PackedExtend(a.blocks, a.cursor, bytes);
      assert |a.blocks| !in a.live;
    case Dealloc(index) =>
      PackedEmpty();
      assert |a.live - {index}| == |a.live| - 1;
    case _ =>
  }

  lemma {:induction false} RunInv(size: nat, ops: seq<Op>)
    requires Run(size, ops).Some?
    ensures Inv(Run(size, ops).value)
  {
    hide Inv, Next;
    if ops == [] {
      ConstructInv(size);
    } else {
      var n := |ops| - 1;
      RunInv(size, ops[..n]);
      Kept(Run(size, ops[..n]).value, ops[n], Run(size, ops).value);
    }
  }

  lemma ConstructInv(size: nat)
    ensures Inv(Construct(size))
  {
  }

  // ------------------------------------------------------------------------------------------
  // Theorems

  /** After any run, blocks in use do not overlap and lie inside the arena. */
  lemma LiveBlocksDisjoint(size: nat, ops: seq<Op>, i: nat, j: nat)
    requires Run(size, ops).Some?
    requires var a := Run(size, ops).value; i in a.live && j in a.live
    ensures var a := Run(size, ops).value;
      && i < |a.blocks| && j < |a.blocks| && a.size == size
      && (i != j ==> a.blocks[i].End() <= a.blocks[j].start || a.blocks[j].End() <= a.blocks[i].start)
      && a.blocks[i].End() < size
  {
    hide Run, Next;
    var a := Run(size, ops).value;
    RunInv(size, ops);
    SizeStays(size, ops);
  }

  lemma {:induction false} SizeStays(size: nat, ops: seq<Op>)
    requires Run(size, ops).Some?
    ensures Run(size, ops).value.size == size
  {
    if ops != [] {
      SizeStays(size, ops[..|ops| - 1]);
    }
  }

  ghost predicate NonEmptyBlocks(a: Arena) {
    forall i :: 0 <= i < |a.blocks| ==> 0 < a.blocks[i].size
  }

  /**
    After any run, the count is the number of blocks in use; with none in use the cursor is at the start,
    and, empty blocks aside, it is at the start only then.
   */
  lemma CountsAndCursor(size: nat, ops: seq<Op>)
    requires Run(size, ops).Some?
    ensures var a := Run(size, ops).value;
      && a.count == |a.live|
      && a.cursor == TotalSize(a.blocks)
      && (a.live == {} ==> a.cursor == 0)
      && (NonEmptyBlocks(a) ==> (a.cursor == 0 <==> a.live == {}))
      && (a.live == {} ==> forall n: nat :: !Refuses(a, n) <==> n < size)
  {
    hide Run, Next;
    var a := Run(size, ops).value;
    RunInv(size, ops);
    SizeStays(size, ops);
    if a.blocks != [] {
      assert a.blocks[0].End() <= a.cursor;
    }
  }

  function Balance(ops: seq<Op>): int {
    if ops == [] then 1
    else
      var n := |ops| - 1;
      Balance(ops[..n]) + match ops[n] case Share => 1 case Destroy => -1 case _ => 0
  }

  /**
    The references are the copies not yet destroyed; the memory is released exactly once, when the last
    of them goes, and no run continues after that.
   */
  lemma {:induction false} ReleasedOnce(size: nat, ops: seq<Op>)
    requires Run(size, ops).Some?
    ensures var a := Run(size, ops).value;
      && a.refs == Balance(ops)
      && a.released == (if Balance(ops) == 0 then 1 else 0)
      && (Balance(ops) == 0 ==> forall op :: Next(a, op).None?)
  {
    RunInv(size, ops);
    if ops != [] {
      ReleasedOnce(size, ops[..|ops| - 1]);
    }
  }

  // ------------------------------------------------------------------------------------------
  // The object

  class Pool {
    const size: nat
    var cursor: nat
    var count: nat
    var refs: nat
    var released: nat

    /** The object agrees with an arena. */
    ghost predicate Shows(a: Arena)
      reads this
    {
      size == a.size && cursor == a.cursor && count == a.count && refs == a.refs && released == a.released
    }

    constructor (size: nat)
      ensures Shows(Construct(size))
    {
      this.size := size;
      cursor, count, refs, released := 0, 0, 1, 0;
    }

    /** Returns the block's offset in the arena, or None for `bad_alloc`. */
    method AllocBytes(n: nat) returns (p: Option<nat>)
      requires 0 < refs
      modifies this
      ensures p == if old(cursor) + n < size then Some(old(cursor)) else None
      ensures cursor == old(cursor) + if p.Some? then n else 0
      ensures count == old(count) + (if p.Some? then 1 else 0) && refs == old(refs) && released == old(released)
      ensures forall a: Arena :: old(Shows(a)) ==> Next(a, Alloc(n)).Some? && Shows(Next(a, Alloc(n)).value)
    {
      var last := cursor + n;
      if last >= size {
        return None;
      }
      count := count + 1;
      p := Some(cursor);
      cursor := last;
    }

    /** `static_allocator<T>::allocate`: the byte count is computed in unsigned arithmetic. */
    method Allocate(n: nat, elementSize: nat) returns (p: Option<nat>)
      requires 0 < refs && n < WORD && 0 < elementSize < WORD
      modifies this
      ensures p.Some? <==> old(cursor) + Wrap(n * elementSize) < size
      ensures p.Some? ==> p.value == old(cursor)
      ensures p.Some? ==> (n * elementSize <= cursor - p.value <==> n * elementSize < WORD)
    {
      p := AllocBytes(Wrap(n * elementSize));
    }

    method DeallocOne()
      requires 0 < refs && 0 < count
      modifies this
      ensures forall a: Arena, i: nat :: old(Shows(a)) && i in a.live ==>
        Next(a, Dealloc(i)).Some? && Shows(Next(a, Dealloc(i)).value)
      ensures count == old(count) - 1 && cursor == if old(count) == 1 then 0 else old(cursor)
      ensures refs == old(refs) && released == old(released)
    {
      count := count - 1;
      if count != 0 {
        return;
      }
      cursor := 0;
    }

    method ShareOne()
      requires 0 < refs
      modifies this
      ensures forall a: Arena :: old(Shows(a)) ==> Shows(Next(a, Share).value)
      ensures refs == old(refs) + 1
      ensures cursor == old(cursor) && count == old(count) && released == old(released)
    {
      refs := refs + 1;
    }

    method DestroyOne()
      requires 0 < refs
      modifies this
      ensures forall a: Arena :: old(Shows(a)) ==> Shows(Next(a, Destroy).value)
      ensures refs == old(refs) - 1 && released == old(released) + if old(refs) == 1 then 1 else 0
      ensures cursor == old(cursor) && count == old(count)
    {
      refs := refs - 1;
      if refs != 0 {
        return;
      }
      released := released + 1;
    }
  }
}
