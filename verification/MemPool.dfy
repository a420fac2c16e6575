/** The fixed pool that serves every order and every price level. A pointer into the
    pool is the index of its block. */
module MemPools {

  datatype Block<T> = Block(item: T, isFree: bool)

  function Wrap(i: nat, n: nat): (r: int) {
    if i < n then i else i - n
  }

  ghost predicate InRange(s: set<nat>, n: nat) {
    forall i :: i in s ==> i < n
  }

  lemma {:induction false} FullExactly(s: set<nat>, n: nat)
    requires InRange(s, n)
    ensures |s| <= n
    ensures |s| == n <==> forall i :: 0 <= i < n ==> i in s
  {
    if n > 0 {
      FullExactly(s - {n - 1}, n - 1);
      assert n - 1 !in s ==> s - {n - 1} == s;
    }
  }

  class MemPool<T> {
    const store: array<Block<T>>
    var nextFree: nat
    ghost var items: seq<T>
    ghost var live: set<nat>

    /** In particular the cursor is on a free block. */
    ghost predicate Valid()
      reads this, store
    {
      && Mirrors()
      && nextFree < store.Length
      && nextFree !in live
    }

    ghost predicate Mirrors()
      reads this, store
    {
      && |items| == store.Length
      && InRange(live, store.Length)
      && (forall i :: 0 <= i < store.Length ==> items[i] == store[i].item && (i in live <==> !store[i].isFree))
    }

    constructor (n: nat, init: T)
      requires 0 < n
      ensures Valid() && fresh(store) && store.Length == n && live == {}
    {
      store := new Block<T>[n](_ => Block(init, true));
      nextFree := 0;
      items := seq(n, _ => init);
      live := {};
    }

    function At(i: nat): (x: T)
      requires Valid() && i < store.Length
      reads this, store
      ensures x == items[i]
    {
      store[i].item
    }

    /** The block `k` steps after `from` is in use. */
    ghost predicate TakenAfter(from: nat, k: nat)
      reads this`live
    {
      Wrap(from + k, store.Length) in live
    }

    /** Walk cyclically to the first free block; `full` is the out-of-space assert. */
    method UpdateNextFree() returns (full: bool, ghost steps: nat)
      requires Mirrors() && nextFree < store.Length
      modifies this`nextFree
      ensures full <==> |live| == store.Length
      ensures !full ==> steps < store.Length && nextFree == Wrap(old(nextFree) + steps, store.Length) && Valid()
      ensures forall k :: 0 <= k < steps ==> TakenAfter(old(nextFree), k)
    {
      var initial := nextFree;
      steps := 0;
      FullExactly(live, store.Length);
      while !store[nextFree].isFree
        invariant steps < store.Length && nextFree == Wrap(initial + steps, store.Length)
        invariant forall k :: 0 <= k < steps ==> TakenAfter(initial, k)
        decreases store.Length - steps
      {
        assert TakenAfter(initial, steps);
        nextFree := nextFree + 1;
        if nextFree == store.Length {
          nextFree := 0;
        }
        steps := steps + 1;
        if nextFree == initial {
          forall i | 0 <= i < store.Length
            ensures i in live
          {
            var k := if initial <= i then i - initial else i + store.Length - initial;
            assert TakenAfter(initial, k);
          }
          return true, steps;
        }
      }
      return false, steps;
    }

    method Allocate(x: T) returns (i: nat, full: bool)
      requires Valid()
      modifies this, store
      ensures i == old(nextFree) && i !in old(live)
      ensures live == old(live) + {i} && items == old(items)[i := x]
      ensures full <==> |old(live)| + 1 == store.Length
      ensures !full ==> Valid()
    {
      i := nextFree;
      store[i] := Block(x, false);
      items := items[i := x];
      live := live + {i};
      ghost var steps;
      full, steps := UpdateNextFree();
    }

    method Deallocate(i: nat)
      requires Valid() && i in live
      modifies this, store
      ensures Valid() && live == old(live) - {i}
      ensures items == old(items) && nextFree == old(nextFree)
    {
      store[i] := Block(store[i].item, true);
      live := live - {i};
    }

    /** Write through a pointer to a live object. */
    method Put(i: nat, x: T)
      requires Valid() && i in live
      modifies store, this`items
      ensures Valid() && items == old(items)[i := x]
    {
      store[i] := Block(x, false);
      items := items[i := x];
    }
  }
}
