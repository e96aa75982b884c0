/**
 The fixed pool of blocks that the books take their orders and price levels from.
 */
module MemPool {
  import opened Domain

  /** A pool of `size` blocks, those in use, and the block the next allocation takes. */
  datatype Pool = Pool(size: nat, live: set<nat>, next: nat)

  /** The block `k` places after `from`, going round. */
  function Around(size: nat, from: nat, k: nat): (i: nat)
    requires from < size && k <= size
    ensures i < size
  {
    if from + k < size then from + k else if k == size then from else from + k - size
  }

  /** Block `i` is the first free block from `from` on, going round. */
  ghost predicate FirstFree(p: Pool, from: nat, i: nat)
    requires from < p.size
  {
    exists k: nat :: k < p.size && i == Around(p.size, from, k) && i !in p.live
      && forall j: nat :: j < k ==> Around(p.size, from, j) in p.live
  }

  /** Every block in use is one of the pool's, and the next one to be handed out is free. */
  predicate Ready(p: Pool) {
    p.next < p.size && p.next !in p.live && forall i :: i in p.live ==> i < p.size
  }

  ghost function Blocks(n: nat): (s: set<nat>)
    ensures |s| == n && forall i: nat :: i in s <==> i < n
  {
    if n == 0 then {} else Blocks(n - 1) + {n - 1}
  }

  /** A pool is full exactly if it has as many blocks in use as it has blocks. */
  lemma FullIff(live: set<nat>, n: nat)
    requires forall i :: i in live ==> i < n
    ensures |live| <= n
    ensures |live| == n <==> forall i: nat :: i < n ==> i in live
  {
    assert live <= Blocks(n);
    SubsetCount(live, Blocks(n));
    assert (forall i: nat :: i < n ==> i in live) ==> live == Blocks(n);
  }

  class MemPool<T(0)> {
    const size: nat
    const objects: array<T>
    const isFree: array<bool>
    var nextFree: nat

    ghost predicate Valid()
      reads this
    {
      size == objects.Length == isFree.Length && nextFree < size && objects as object != isFree
    }

    /** The abstract pool. */
    ghost function State(): Pool
      requires Valid()
      reads this, isFree
    {
      Pool(size, (set i: nat | i < size && !isFree[i]), nextFree)
    }

    constructor (numElems: nat, initial: T)
      requires numElems > 0
      ensures Valid() && State() == Pool(numElems, {}, 0) && Ready(State())
      ensures fresh(objects) && fresh(isFree)
    {
      size := numElems;
      objects := new T[numElems](_ => initial);
      isFree := new bool[numElems](_ => true);
      nextFree := 0;
    }

    /** Takes the next block, or reports that the source would have stopped with "out of space": that
        happens exactly if it was the last free block. The contents of the other blocks stay. */
    method Allocate(value: T) returns (block: nat, ok: bool)
      requires Valid() && Ready(State())
      modifies `nextFree, objects, isFree
      ensures Valid() && block == old(nextFree) && block !in old(State().live)
      ensures State().live == old(State().live) + {block}
      ensures ok <==> old(|State().live|) + 1 < size
      ensures ok ==> Ready(State()) && Steps(old(State()), Op.Allocate, State())
      ensures objects[..] == old(objects[..])[block := value]
    {
      block := nextFree;
      objects[block] := value;
      isFree[block] := false;
      assert State().live == old(State().live) + {block};
      ok := UpdateNextFreeIndex();
      FullIff(State().live, size);
    }

    /** Gives a block back, or reports which of the two assertions of the source would have stopped it. */
    method Deallocate(block: int) returns (ok: bool)
      requires Valid() && Ready(State())
      modifies isFree
      ensures Valid() && Ready(State()) && nextFree == old(nextFree)
      ensures ok <==> block in old(State().live)
      ensures ok ==> Steps(old(State()), Op.Deallocate(block), State())
      ensures !ok ==> State() == old(State())
    {
      if block < 0 || block >= size || isFree[block] {
        return false;
      }
      isFree[block] := true;
      return true;
    }

    /** Scans for the next free block, once round the pool at most. */
    method UpdateNextFreeIndex() returns (ok: bool)
      requires Valid()
      modifies `nextFree
      ensures Valid() && State().live == old(State().live)
      ensures ok <==> exists i: nat :: i < size && i !in State().live
      ensures ok ==> nextFree !in State().live && FirstFree(State(), old(nextFree), nextFree)
    {
      var initial := nextFree;
      ghost var k := 0;
      while !isFree[nextFree]
        invariant k < size && Valid() && nextFree == Around(size, initial, k)
        invariant forall j: nat :: j < k ==> !isFree[Around(size, initial, j)]
        decreases size - k
      {
        nextFree := nextFree + 1;
        k := k + 1;
        if nextFree == size {
          nextFree := 0;
        }
        if nextFree == initial {
          assert k == size;
          forall i: nat | i < size ensures !isFree[i] {
            assert i == Around(size, initial, if i >= initial then i - initial else i + size - initial);
          }
          return false;
        }
      }
      assert nextFree !in State().live;
      return true;
    }
  }

  // ----- Every run

  datatype Op = Allocate | Deallocate(block: nat)

  /** The pool a call leaves behind when none of the assertions of the source stops it. */
  ghost predicate Steps(p: Pool, op: Op, p': Pool) {
    p'.size == p.size &&
    match op
    case Allocate =>
      && p.next < p.size && p'.live == p.live + {p.next} && |p.live| + 1 < p.size && FirstFree(p', p.next, p'.next)
    case Deallocate(i) => i in p.live && p' == p.(live := p.live - {i})
  }

  ghost predicate Runs(ps: seq<Pool>, ops: seq<Op>) {
    |ps| == |ops| + 1 && forall i :: 0 <= i < |ops| ==> Steps(ps[i], ops[i], ps[i + 1])
  }

  /** Allocations less deallocations. */
  function Balance(ops: seq<Op>): int {
    if ops == [] then 0
    else Balance(ops[..|ops| - 1]) + (if ops[|ops| - 1].Allocate? then 1 else -1)
  }

  /** In every run the next block is free, no block is handed out twice, and the blocks in use are the
      allocations not given back, at most one less than the pool has blocks. */
  lemma {:induction false} PoolIsSafe(ps: seq<Pool>, ops: seq<Op>)
    requires Runs(ps, ops) && Ready(ps[0]) && ps[0].live == {}
    ensures var p := ps[|ops|];
      Ready(p) && |p.live| == Balance(ops) && |p.live| < p.size && p.size == ps[0].size
    decreases ops
  {
    if ops != [] {
      var n := |ops| - 1;
      PoolIsSafe(ps[..n + 1], ops[..n]);
      assert ps[..n + 1][n] == ps[n];
      assert Steps(ps[n], ops[n], ps[n + 1]);
    }
  }
}
