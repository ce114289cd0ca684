/**
  Allocations of the native shim, reduced to what ownership needs: every
  allocation has an identity (a `Handle`), the heap is the set of live
  identities, and releasing an identity that is not live is a double free.
  Identities come from a counter, so a released identity is never handed
  out again: two allocations that happen to reuse one address are two
  different handles here.
 */
module Memory {

  newtype byte = b: int | 0 <= b < 256

  /** The identity of one allocation. */
  type Handle = nat

  datatype Option<+T> = None | Some(value: T)

  /** The live allocations, and the identity the next allocation receives. */
  datatype Heap = Heap(live: set<Handle>, next: Handle)

  /** Every live allocation was handed out before `next`. */
  predicate Valid(h: Heap) {
    forall a :: a in h.live ==> a < h.next
  }

  datatype Allocated = Allocated(handle: Handle, heap: Heap)

  /** gpr_malloc: it never fails (the support library aborts on exhaustion). */
  function Alloc(h: Heap): (r: Allocated)
    ensures r.heap.live == h.live + {r.handle}
    ensures h.next <= r.handle < r.heap.next
    ensures Valid(h) ==> Valid(r.heap) && r.handle !in h.live
  {
    Allocated(h.next, Heap(h.live + {h.next}, h.next + 1))
  }

  /** The pointers a release actually frees: a null pointer frees nothing. */
  function NonNull(p: Option<Handle>): (r: seq<Handle>)
    ensures p.None? ==> r == []
    ensures p.Some? ==> r == [p.value]
  {
    match p
    case None => []
    case Some(a) => [a]
  }

  function Elems(hs: seq<Handle>): set<Handle> {
    set a | a in hs
  }

  /** No identity occurs twice in a release list. */
  predicate Distinct(hs: seq<Handle>) {
    forall i, j :: 0 <= i < j < |hs| ==> hs[i] != hs[j]
  }

  datatype Freed = Freed(heap: Heap) | DoubleFree(handle: Handle)

  /** gpr_free of one non-null pointer. */
  function Free(h: Heap, a: Handle): (r: Freed)
    ensures r.Freed? <==> a in h.live
    ensures r.Freed? ==> r.heap.live == h.live - {a} && r.heap.next == h.next
    ensures r.DoubleFree? ==> r.handle == a
  {
    if a in h.live then Freed(Heap(h.live - {a}, h.next)) else DoubleFree(a)
  }

  /** Frees the pointers left to right, stopping at the first double free. */
  function FreeAll(h: Heap, hs: seq<Handle>): Freed
    decreases |hs|
  {
    if |hs| == 0 then Freed(h)
    else match Free(h, hs[0])
      case DoubleFree(a) => DoubleFree(a)
      case Freed(h') => FreeAll(h', hs[1..])
  }

  /**
    Releasing a list succeeds exactly when its identities are live and
    pairwise different, and then it removes exactly those identities.
   */
  lemma {:induction false} FreeAllReleasesExactly(h: Heap, hs: seq<Handle>)
    ensures FreeAll(h, hs).Freed? <==> Distinct(hs) && Elems(hs) <= h.live
    ensures FreeAll(h, hs).Freed? ==>
              FreeAll(h, hs).heap == Heap(h.live - Elems(hs), h.next)
    decreases |hs|
  {
    if |hs| == 0 {
      assert Elems(hs) == {};
    } else {
      var a, rest := hs[0], hs[1..];
      assert hs == [a] + rest;
      assert Elems(hs) == {a} + Elems(rest);
      assert Distinct(hs) <==> a !in rest && Distinct(rest) by {
        if Distinct(hs) {
          forall i, j | 0 <= i < j < |rest| ensures rest[i] != rest[j] {
            assert rest[i] == hs[i + 1] && rest[j] == hs[j + 1];
          }
        }
        if a !in rest && Distinct(rest) {
          forall i, j | 0 <= i < j < |hs| ensures hs[i] != hs[j] {
            if i > 0 {
              assert hs[i] == rest[i - 1] && hs[j] == rest[j - 1];
            }
          }
        }
      }
      if a in h.live {
        var h' := Heap(h.live - {a}, h.next);
        FreeAllReleasesExactly(h', rest);
        assert h'.live - Elems(rest) == h.live - Elems(hs);
      }
    }
  }

  /** Releasing `a + b` is releasing `a`, then `b` from what is left. */
  lemma {:induction false} FreeAllAppend(h: Heap, a: seq<Handle>, b: seq<Handle>)
    ensures FreeAll(h, a + b) ==
              match FreeAll(h, a)
              case Freed(h') => FreeAll(h', b)
              case DoubleFree(x) => DoubleFree(x)
    decreases |a|
  {
    if |a| > 0 {
      assert (a + b)[0] == a[0];
      assert (a + b)[1..] == a[1..] + b;
      match Free(h, a[0])
      case Freed(h') => FreeAllAppend(h', a[1..], b);
      case DoubleFree(_) =>
    } else {
      assert a + b == b;
    }
  }

  /** The handles of two lists joined are the handles of each. */
  lemma ElemsAppend(a: seq<Handle>, b: seq<Handle>)
    ensures Elems(a + b) == Elems(a) + Elems(b)
  {
  }
}
