/** Shared vocabulary: optional values, success/failure results, core ranges and identities. */
module Common {

  datatype Option<+T> = None | Some(value: T)

  /** The outcome of an operation that either succeeds with a value or fails with an error. */
  datatype Result<+T, +E> = Ok(value: T) | Err(error: E)

  /** The identity of an OS thread (a `Thread` object in the source). */
  type ThreadId = nat

  /** The set of core ids lo, lo+1, ..., hi-1. */
  function CoreRange(lo: int, hi: int): (r: set<int>)
    ensures forall c :: c in r <==> lo <= c < hi
    decreases hi - lo
  {
    if hi <= lo then {} else CoreRange(lo, hi - 1) + {hi - 1}
  }

  /** The list lo, lo+1, ..., hi-1 in ascending order (empty when hi <= lo). */
  function Ascending(lo: int, hi: int): (s: seq<int>)
    ensures |s| == if lo <= hi then hi - lo else 0
    ensures forall k :: 0 <= k < |s| ==> s[k] == lo + k
  {
    if lo < hi then seq(hi - lo, k => lo + k) else []
  }

  lemma AscendingElements(lo: int, hi: int, c: int)
    ensures c in Ascending(lo, hi) <==> lo <= c < hi
  {
    if lo <= c < hi {
      assert Ascending(lo, hi)[c - lo] == c;
    }
  }

  /** Collects lo, ..., hi-1 into a set, one element per iteration, as the source's
      `for (int i = lo; i < hi; i++) set.add(i)` loops do. */
  method CollectRange(lo: int, hi: int) returns (s: set<int>)
    ensures forall c :: c in s <==> lo <= c < hi
    ensures s == CoreRange(lo, hi)
  {
    s := {};
    var i := lo;
    while i < hi
      invariant lo <= i && (i <= hi || i == lo)
      invariant forall c :: c in s <==> lo <= c < i
    {
      s := s + {i};
      i := i + 1;
    }
  }

  /** A non-empty set of integers has an element to pick. */
  lemma NonEmptyHasElement(s: set<int>)
    requires s != {}
    ensures exists x :: x in s
  {
    if forall x :: x !in s {
      assert false;
    }
  }

  /** [lo, hi) holds hi - lo cores (none when hi <= lo). */
  lemma {:induction false} CoreRangeSize(lo: int, hi: int)
    ensures |CoreRange(lo, hi)| == if lo <= hi then hi - lo else 0
    decreases hi - lo
  {
    if lo < hi {
      CoreRangeSize(lo, hi - 1);
      assert hi - 1 !in CoreRange(lo, hi - 1);
    }
  }
}
