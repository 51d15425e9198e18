/** The block pool: a stack of free block indices over one contiguous buffer. */
module MemoryPoolModule {
  import opened Types

  const ALIGNMENT: int := 64

  function AlignUp(x: int): int { (x + ALIGNMENT - 1) / ALIGNMENT * ALIGNMENT }

  /** The smallest multiple of the alignment that holds x bytes. */
  lemma AlignUpLeast(x: int)
    requires x > 0
    ensures AlignUp(x) % ALIGNMENT == 0 && x <= AlignUp(x) < x + ALIGNMENT
  {
  }

  function OffsetOf(blockSize: int, block: int): int { block * blockSize }

  /** Division in release undoes multiplication in acquire, from any byte of the block. */
  lemma OffsetRoundTrip(blockSize: int, block: int, within: int)
    requires 0 <= within < blockSize
    ensures (OffsetOf(blockSize, block) + within) / blockSize == block
  {
    var p := block * blockSize + within;
    assert p == p / blockSize * blockSize + p % blockSize;
    var e := block - p / blockSize;
    assert e * blockSize == p % blockSize - within;
    assert e >= 1 ==> e * blockSize >= blockSize;
    assert e <= -1 ==> e * blockSize <= -blockSize;
  }

  lemma AlignedOffset(blockSize: int, block: int)
    requires blockSize % ALIGNMENT == 0
    ensures OffsetOf(blockSize, block) % ALIGNMENT == 0
  {
    var q := blockSize / ALIGNMENT;
    assert blockSize == q * ALIGNMENT;
    assert block * blockSize == (block * q) * ALIGNMENT;
    Multiple(block * q);
  }

  lemma Multiple(n: int)
    ensures n * ALIGNMENT % ALIGNMENT == 0
  {
  }

  lemma BlockInBuffer(blockSize: int, capacity: int, block: int)
    requires blockSize > 0 && 0 <= block < capacity
    ensures 0 <= OffsetOf(blockSize, block) && OffsetOf(blockSize, block) + blockSize <= capacity * blockSize
  {
    assert block * blockSize + blockSize == (block + 1) * blockSize;
    assert (block + 1) * blockSize <= capacity * blockSize;
    assert 0 <= block * blockSize;
  }

  lemma BlocksDisjoint(blockSize: int, a: int, b: int)
    requires blockSize > 0 && a < b
    ensures OffsetOf(blockSize, a) + blockSize <= OffsetOf(blockSize, b)
  {
    assert a * blockSize + blockSize == (a + 1) * blockSize;
    assert (a + 1) * blockSize <= b * blockSize;
  }

  // ----- runs -----

  /** The free blocks from the bottom of the stack to its top, and the blocks handed out. */
  datatype Pool = Pool(stack: seq<int>, out: set<int>)

  datatype Command = Acquire | Release(ptr: Option<int>) | Reset

  function Filled(capacity: nat): Pool
  {
    Pool(seq(capacity, i => capacity - 1 - i), {})
  }

  /** The block an address lies in, if it lies in one. */
  function BlockAt(capacity: int, blockSize: int, ptr: Option<int>): Option<int>
    requires blockSize > 0
  {
    if ptr.None? || ptr.value / blockSize >= capacity then None else Some(ptr.value / blockSize)
  }

  /** What a caller may do: only blocks that are out come back. */
  ghost predicate Allowed(p: Pool, capacity: int, blockSize: int, c: Command)
    requires blockSize > 0
  {
    c.Release? && c.ptr.Some? ==>
      c.ptr.value >= 0
      && (BlockAt(capacity, blockSize, c.ptr).Some? ==> BlockAt(capacity, blockSize, c.ptr).value in p.out)
  }

  function Applied(p: Pool, capacity: nat, blockSize: int, c: Command): Pool
    requires blockSize > 0
  {
    match c
    case Acquire =>
      if p.stack == [] then p
      else Pool(p.stack[..|p.stack| - 1], p.out + {p.stack[|p.stack| - 1]})
    case Release(ptr) =>
      var b := BlockAt(capacity, blockSize, ptr);
      if b.None? then p else Pool(p.stack + [b.value], p.out - {b.value})
    case Reset => Filled(capacity)
  }

  function PoolAfter(capacity: nat, blockSize: int, run: seq<Command>): Pool
    requires blockSize > 0
  {
    if run == [] then Filled(capacity)
    else Applied(PoolAfter(capacity, blockSize, run[..|run| - 1]), capacity, blockSize, run[|run| - 1])
  }

  ghost predicate AllAllowed(capacity: nat, blockSize: int, run: seq<Command>)
    requires blockSize > 0
  {
    forall n :: 0 <= n < |run| ==> Allowed(PoolAfter(capacity, blockSize, run[..n]), capacity, blockSize, run[n])
  }

  /** Every block is either on the stack, once, or out, and none is both. */
  ghost predicate Whole(p: Pool, capacity: int)
  {
    && |p.stack| + |p.out| == capacity
    && (forall i, j :: 0 <= i < j < |p.stack| ==> p.stack[i] != p.stack[j])
    && (forall i :: 0 <= i < |p.stack| ==> 0 <= p.stack[i] < capacity && p.stack[i] !in p.out)
    && (forall b :: b in p.out ==> 0 <= b < capacity)
    && (forall b :: 0 <= b < capacity && b !in p.out ==> b in p.stack)
  }

  lemma FilledIsWhole(capacity: nat)
    ensures Whole(Filled(capacity), capacity)
  {
    var p := Filled(capacity);
    forall b | 0 <= b < capacity ensures b in p.stack {
      assert p.stack[capacity - 1 - b] == b;
    }
  }

  lemma AppliedIsWhole(p: Pool, capacity: nat, blockSize: int, c: Command)
    requires blockSize > 0 && Whole(p, capacity) && Allowed(p, capacity, blockSize, c)
    ensures Whole(Applied(p, capacity, blockSize, c), capacity)
  {
    match c {
      case Acquire =>
        if p.stack != [] {
          TakenIsWhole(p, capacity);
        }
      case Release(ptr) =>
        var b := BlockAt(capacity, blockSize, ptr);
        if b.Some? {
          ReturnedIsWhole(p, capacity, b.value);
        }
      case Reset =>
        FilledIsWhole(capacity);
    }
  }

  lemma TakenIsWhole(p: Pool, capacity: nat)
    requires Whole(p, capacity) && p.stack != []
    ensures Whole(Pool(p.stack[..|p.stack| - 1], p.out + {p.stack[|p.stack| - 1]}), capacity)
  {
    var n := |p.stack| - 1;
    assert p.stack == p.stack[..n] + [p.stack[n]];
  }

  lemma ReturnedIsWhole(p: Pool, capacity: nat, b: int)
    requires Whole(p, capacity) && b in p.out
    ensures Whole(Pool(p.stack + [b], p.out - {b}), capacity)
  {
  }

  /** An address anywhere in a block brings back that block and no other; one past the last
      block and null bring back nothing. */
  lemma ReleaseReturns(p: Pool, capacity: nat, blockSize: int, block: int, within: int)
    requires 0 <= within < blockSize
    ensures block < capacity ==>
      Applied(p, capacity, blockSize, Release(Some(OffsetOf(blockSize, block) + within)))
      == Pool(p.stack + [block], p.out - {block})
    ensures block >= capacity ==>
      Applied(p, capacity, blockSize, Release(Some(OffsetOf(blockSize, block) + within))) == p
    ensures Applied(p, capacity, blockSize, Release(None)) == p
  {
    hide OffsetOf;
    OffsetRoundTrip(blockSize, block, within);
  }

  /** Bringing back what was just handed out, by the address of any of its bytes, restores the
      pool; an empty pool hands out nothing. */
  lemma ReleaseUndoesAcquire(p: Pool, capacity: nat, blockSize: int, within: int)
    requires 0 <= within < blockSize && Whole(p, capacity)
    ensures p.stack == [] ==> Applied(p, capacity, blockSize, Acquire) == p
    ensures p.stack != [] ==>
      var b := p.stack[|p.stack| - 1];
      var q := Applied(p, capacity, blockSize, Acquire);
      && q.out == p.out + {b} && |q.out| == |p.out| + 1
      && Applied(q, capacity, blockSize, Release(Some(OffsetOf(blockSize, b) + within))) == p
  {
    hide OffsetOf;
    if p.stack != [] {
      var b := p.stack[|p.stack| - 1];
      ReleaseReturns(Applied(p, capacity, blockSize, Acquire), capacity, blockSize, b, within);
      assert p.stack == p.stack[..|p.stack| - 1] + [b];
      assert p.out + {b} - {b} == p.out;
    }
  }

  /** After any run of allowed commands the stack and the blocks out still share out all
      blocks, and the blocks out are aligned ranges of the buffer that do not overlap. */
  lemma {:induction false} PoolRun(capacity: nat, blockSize: int, run: seq<Command>)
    requires blockSize > 0 && blockSize % ALIGNMENT == 0 && AllAllowed(capacity, blockSize, run)
    ensures var p := PoolAfter(capacity, blockSize, run);
      && Whole(p, capacity)
      && (forall a :: a in p.out ==> InBuffer(capacity, blockSize, a))
      && (forall a, b :: a in p.out && b in p.out && a < b ==>
            OffsetOf(blockSize, a) + blockSize <= OffsetOf(blockSize, b))
  {
    hide Allowed, Applied, OffsetOf, Filled;
    var p := PoolAfter(capacity, blockSize, run);
    if run == [] {
      FilledIsWhole(capacity);
    } else {
      var n := |run| - 1;
      AllowedBefore(capacity, blockSize, run);
      PoolRun(capacity, blockSize, run[..n]);
      AppliedIsWhole(PoolAfter(capacity, blockSize, run[..n]), capacity, blockSize, run[n]);
    }
    forall a | a in p.out ensures InBuffer(capacity, blockSize, a) {
      AlignedOffset(blockSize, a);
      BlockInBuffer(blockSize, capacity, a);
    }
    forall a, b | a in p.out && b in p.out && a < b
      ensures OffsetOf(blockSize, a) + blockSize <= OffsetOf(blockSize, b)
    {
      BlocksDisjoint(blockSize, a, b);
    }
  }

  predicate InBuffer(capacity: int, blockSize: int, block: int)
  {
    && OffsetOf(blockSize, block) % ALIGNMENT == 0 && 0 <= OffsetOf(blockSize, block)
    && OffsetOf(blockSize, block) + blockSize <= capacity * blockSize
  }

  lemma AllowedBefore(capacity: nat, blockSize: int, run: seq<Command>)
    requires blockSize > 0 && run != [] && AllAllowed(capacity, blockSize, run)
    ensures AllAllowed(capacity, blockSize, run[..|run| - 1])
  {
    hide Allowed, PoolAfter;
    var before := run[..|run| - 1];
    forall n | 0 <= n < |before|
      ensures Allowed(PoolAfter(capacity, blockSize, before[..n]), capacity, blockSize, before[n])
    {
      assert before[..n] == run[..n];
    }
  }

  // ----- the pool itself -----

  /** A pool, unless it would have no blocks or blocks of no size. */
  method CreatePool(capacity: int, size: int) returns (pool: MemoryPool?)
    ensures pool == null <==> capacity <= 0 || size <= 0
    ensures pool != null ==> fresh(pool) && fresh(pool.freeStack) && pool.Valid()
    ensures pool != null ==> pool.State() == Filled(capacity)
    ensures pool != null ==> pool.capacity == capacity && pool.blockSize == AlignUp(size)
  {
    if capacity <= 0 || size <= 0 {
      return null;
    }
    pool := new MemoryPool(capacity, size);
  }

  class MemoryPool {
    const capacity: int
    const blockSize: int
    const totalBytes: int
    const freeStack: array<int>
    var top: int
    var inUse: int
    /** The blocks handed out and not yet given back. */
    ghost var outstanding: set<int>

    /** The free stack lists distinct blocks, and together with the outstanding ones
        they are all the blocks, each exactly once. */
    ghost predicate Valid()
      reads this, freeStack
    {
      && capacity > 0 && blockSize > 0 && blockSize % ALIGNMENT == 0
      && totalBytes == capacity * blockSize
      && freeStack.Length == capacity && 0 <= top <= capacity
      && Whole(Pool(freeStack[..top], outstanding), capacity)
      && inUse == |outstanding|
    }

    ghost function State(): Pool
      requires Valid()
      reads this, freeStack
    {
      Pool(freeStack[..top], outstanding)
    }

    constructor (capacity: int, size: int)
      requires capacity > 0 && size > 0
      ensures Valid() && fresh(freeStack) && State() == Filled(capacity)
      ensures this.capacity == capacity && blockSize == AlignUp(size)
    {
      AlignUpLeast(size);
      this.capacity := capacity;
      blockSize := AlignUp(size);
      totalBytes := capacity * AlignUp(size);
      freeStack := new int[capacity](i => capacity - 1 - i);
      top := capacity;
      inUse := 0;
      outstanding := {};
      new;
      FilledIsWhole(capacity);
      assert freeStack[..top] == Filled(capacity).stack;
    }

    /** Hands out the block on top of the stack as an offset into the buffer; nothing
        when all are out. */
    method Acquire() returns (ptr: Option<int>)
      requires Valid()
      modifies this`top, this`inUse, this`outstanding
      ensures Valid() && State() == Applied(old(State()), capacity, blockSize, Command.Acquire)
      ensures ptr.None? <==> |old(outstanding)| == capacity
      ensures ptr.Some? ==>
        var b := old(freeStack[top - 1]);
        b !in old(outstanding) && ptr.value == OffsetOf(blockSize, b) && outstanding == old(outstanding) + {b}
    {
      ghost var was := State();
      if top <= 0 {
        return None;
      }
      top := top - 1;
      var idx := freeStack[top];
      inUse := inUse + 1;
      outstanding := outstanding + {idx};
      ptr := Some(OffsetOf(blockSize, idx));
      TakenIsWhole(was, capacity);
      assert freeStack[..top] == was.stack[..|was.stack| - 1];
    }

    /** Takes back the block an address lies in. A null pointer and an address past the
        last block are ignored; a block that is not out is a caller's error the pool
        does not detect. */
    method Release(ptr: Option<int>)
      requires Valid()
      requires Allowed(State(), capacity, blockSize, Command.Release(ptr))
      modifies this`top, this`inUse, this`outstanding, freeStack
      ensures Valid() && State() == Applied(old(State()), capacity, blockSize, Command.Release(ptr))
      ensures ptr.Some? && ptr.value / blockSize < capacity ==> ptr.value / blockSize in old(outstanding)
    {
      if ptr.None? {
        return;
      }
      var idx := ptr.value / blockSize;
      if idx < 0 || idx >= capacity {
        return;
      }
      OutstandingFit();
      ghost var was := State();
      ReturnedIsWhole(was, capacity, idx);
      freeStack[top] := idx;
      top := top + 1;
      inUse := inUse - 1;
      outstanding := outstanding - {idx};
      assert freeStack[..top] == was.stack + [idx];
    }

    lemma OutstandingFit()
      requires Valid()
      ensures outstanding != {} ==> top < capacity
    {
    }

    method Reset()
      requires Valid()
      modifies this`top, this`inUse, this`outstanding, freeStack
      ensures Valid() && State() == Applied(old(State()), capacity, blockSize, Command.Reset)
    {
      for i := 0 to capacity
        invariant forall k :: 0 <= k < i ==> freeStack[k] == capacity - 1 - k
      {
        freeStack[i] := capacity - 1 - i;
      }
      top := capacity;
      inUse := 0;
      outstanding := {};
      FilledIsWhole(capacity);
      assert freeStack[..top] == Filled(capacity).stack;
    }

    function Available(): (n: int)
      requires Valid()
      reads this, freeStack
      ensures n == top == capacity - |outstanding|
    {
      capacity - inUse
    }

    /** Blocks in use are aligned ranges inside the buffer, and no two overlap. */
    lemma OutstandingSafe(a: int, b: int)
      requires Valid() && a in outstanding && b in outstanding
      ensures OffsetOf(blockSize, a) % ALIGNMENT == 0
      ensures 0 <= OffsetOf(blockSize, a) && OffsetOf(blockSize, a) + blockSize <= totalBytes
      ensures a != b ==> OffsetOf(blockSize, a) + blockSize <= OffsetOf(blockSize, b)
                         || OffsetOf(blockSize, b) + blockSize <= OffsetOf(blockSize, a)
    {
      AlignedOffset(blockSize, a);
      BlockInBuffer(blockSize, capacity, a);
      if a < b {
        BlocksDisjoint(blockSize, a, b);
      } else if b < a {
        BlocksDisjoint(blockSize, b, a);
      }
    }
  }
}
