/** The library sorts the source relies on (JavaScript `Array.prototype.sort`
    with a comparator, Python `list.sort(key=..., reverse=True)`), modelled by
    one in-place insertion sort over an array, ordered by a total preorder. */
module Sorting {

  /** `le` is total and transitive: a valid "sorts no later than" relation. */
  ghost predicate TotalPreorder<T(!new)>(le: (T, T) -> bool)
  {
    && (forall x, y :: le(x, y) || le(y, x))
    && (forall x, y, z :: le(x, y) && le(y, z) ==> le(x, z))
  }

  ghost predicate SortedBy<T>(s: seq<T>, le: (T, T) -> bool)
  {
    forall i, j :: 0 <= i < j < |s| ==> le(s[i], s[j])
  }

  /** The positions 0, 1, ..., n-1 in order. */
  function Iota(n: nat): (r: seq<int>)
    ensures |r| == n && forall k :: 0 <= k < n ==> r[k] == k
  {
    seq(n, k => k)
  }

  /** `r` is `s` rearranged: its element at k is the element of `s` at
      `perm[k]`, and `perm` is a permutation of the positions of `s`. */
  ghost predicate Arranged<T>(s: seq<T>, r: seq<T>, perm: seq<int>)
  {
    && |r| == |s| && |perm| == |s|
    && multiset(r) == multiset(s)
    && multiset(perm) == multiset(Iota(|s|))
    && forall k :: 0 <= k < |r| ==> 0 <= perm[k] < |s| && r[k] == s[perm[k]]
  }

  /** Elements that `le` cannot tell apart keep their original order. */
  ghost predicate TiesKeepOrder<T>(r: seq<T>, perm: seq<int>, le: (T, T) -> bool)
  {
    |perm| == |r| && forall p, q :: 0 <= p < q < |r| && le(r[q], r[p]) ==> perm[p] < perm[q]
  }

  /** `r` is a stable rearrangement of `s` under `le`. */
  ghost predicate StablePermutation<T>(s: seq<T>, r: seq<T>, le: (T, T) -> bool)
  {
    exists perm :: Arranged(s, r, perm) && TiesKeepOrder(r, perm, le)
  }

  /** A stable sort puts first the EARLIEST of the elements that sort no
      later than every other one. */
  lemma StableHead<T(!new)>(s: seq<T>, r: seq<T>, le: (T, T) -> bool, m: nat)
    requires TotalPreorder(le) && SortedBy(r, le) && StablePermutation(s, r, le)
    requires m < |s| && forall k :: 0 <= k < |s| ==> le(s[m], s[k])
    requires forall k :: 0 <= k < m ==> !le(s[k], s[m])
    ensures r[0] == s[m]
  {
    var perm :| Arranged(s, r, perm) && TiesKeepOrder(r, perm, le);
    assert Iota(|s|)[m] == m;
    assert m in multiset(perm);
    var q :| 0 <= q < |perm| && perm[q] == m;
    assert r[q] == s[m] && r[0] == s[perm[0]];
    assert le(r[q], r[0]);
  }

  /** `s` with its element at `i` moved down to place `j`, the elements
      from `j` up to `i` shifting one place up. */
  function Moved<T>(s: seq<T>, j: nat, i: nat): (r: seq<T>)
    requires j <= i < |s|
    ensures |r| == |s| && r[j] == s[i]
    ensures forall k :: 0 <= k < j ==> r[k] == s[k]
    ensures forall k :: j < k <= i ==> r[k] == s[k - 1]
    ensures forall k :: i < k < |s| ==> r[k] == s[k]
  {
    s[..j] + [s[i]] + s[j..i] + s[i + 1..]
  }

  lemma MovedMultiset<T>(s: seq<T>, j: nat, i: nat)
    requires j <= i < |s|
    ensures multiset(Moved(s, j, i)) == multiset(s)
  {
    assert s == s[..j] + s[j..i] + [s[i]] + s[i + 1..];
  }

  /** Moving an element to `i` itself leaves the sequence alone. */
  lemma MovedNowhere<T>(s: seq<T>, i: nat)
    requires i < |s|
    ensures Moved(s, i, i) == s
  {
  }

  /** Swapping the moved element with its left neighbour moves it one
      place further down. */
  lemma MoveStep<T>(s: seq<T>, j: nat, i: nat)
    requires 0 < j <= i < |s|
    ensures Moved(s, j, i)[j - 1 := s[i]][j := s[j - 1]] == Moved(s, j - 1, i)
  {
  }

  /** The outer loop's state: the first `i` elements of `cur` are a sorted,
      stable arrangement of the first `i` of `s`; the rest are untouched. */
  ghost predicate Placed<T>(s: seq<T>, cur: seq<T>, perm: seq<int>, i: nat, le: (T, T) -> bool)
  {
    && Arranged(s, cur, perm) && i <= |cur|
    && (forall k :: i <= k < |cur| ==> perm[k] == k)
    && (forall k :: 0 <= k < i ==> perm[k] < i)
    && (forall p, q :: 0 <= p < q < i ==> le(cur[p], cur[q]))
    && (forall p, q :: 0 <= p < q < i && le(cur[q], cur[p]) ==> perm[p] < perm[q])
  }

  lemma StartPlaced<T>(s: seq<T>, le: (T, T) -> bool)
    ensures Placed(s, s, Iota(|s|), 0, le)
  {
  }

  /** Where element `i` stops: everything it passed sorts strictly after
      it, and the element before it (if any) sorts no later. */
  ghost predicate Stops<T>(cur: seq<T>, j: nat, i: nat, le: (T, T) -> bool)
    requires j <= i < |cur|
  {
    && (forall k :: j <= k < i ==> !le(cur[k], cur[i]))
    && (j == 0 || le(cur[j - 1], cur[i]))
  }

  lemma PlaceArranged<T>(s: seq<T>, cur: seq<T>, perm: seq<int>, j: nat, i: nat)
    requires Arranged(s, cur, perm) && j <= i < |cur|
    ensures Arranged(s, Moved(cur, j, i), Moved(perm, j, i))
  {
    MovedMultiset(cur, j, i);
    MovedMultiset(perm, j, i);
  }

  lemma PlaceSorted<T(!new)>(cur: seq<T>, j: nat, i: nat, le: (T, T) -> bool)
    requires TotalPreorder(le) && j <= i < |cur| && Stops(cur, j, i, le)
    requires forall p, q :: 0 <= p < q < i ==> le(cur[p], cur[q])
    ensures forall p, q :: 0 <= p < q < i + 1 ==> le(Moved(cur, j, i)[p], Moved(cur, j, i)[q])
  {
    var c := Moved(cur, j, i);
    forall p, q | 0 <= p < q < i + 1
      ensures le(c[p], c[q])
    {
      if p == j {
        assert !le(cur[q - 1], cur[i]);
      } else if q == j {
        if p < j - 1 {
          assert le(cur[p], cur[j - 1]);
        }
      } else {
        var p0 := if p < j then p else p - 1;
        var q0 := if q < j then q else q - 1;
        assert c[p] == cur[p0] && c[q] == cur[q0] && p0 < q0;
      }
    }
  }

  lemma PlaceStable<T>(cur: seq<T>, perm: seq<int>, j: nat, i: nat, le: (T, T) -> bool)
    requires j <= i < |cur| == |perm| && Stops(cur, j, i, le)
    requires perm[i] == i && forall k :: 0 <= k < i ==> perm[k] < i
    requires forall p, q :: 0 <= p < q < i && le(cur[q], cur[p]) ==> perm[p] < perm[q]
    ensures forall p, q :: 0 <= p < q < i + 1 && le(Moved(cur, j, i)[q], Moved(cur, j, i)[p])
              ==> Moved(perm, j, i)[p] < Moved(perm, j, i)[q]
  {
    var c, pm := Moved(cur, j, i), Moved(perm, j, i);
    forall p, q | 0 <= p < q < i + 1 && le(c[q], c[p])
      ensures pm[p] < pm[q]
    {
      if p == j {
        assert false;
      } else if q != j {
        var p0 := if p < j then p else p - 1;
        var q0 := if q < j then q else q - 1;
        assert c[p] == cur[p0] && c[q] == cur[q0] && pm[p] == perm[p0] && pm[q] == perm[q0];
      }
    }
  }

  /** Inserting element `i` where it stops extends the placed prefix by one. */
  lemma PlaceNext<T(!new)>(s: seq<T>, cur: seq<T>, perm: seq<int>, j: nat, i: nat, le: (T, T) -> bool)
    requires TotalPreorder(le) && Placed(s, cur, perm, i, le)
    requires j <= i < |cur| && Stops(cur, j, i, le)
    ensures Placed(s, Moved(cur, j, i), Moved(perm, j, i), i + 1, le)
  {
    PlaceArranged(s, cur, perm, j, i);
    PlaceSorted(cur, j, i, le);
    PlaceStable(cur, perm, j, i, le);
  }

  lemma PlacedAll<T>(s: seq<T>, cur: seq<T>, perm: seq<int>, le: (T, T) -> bool)
    requires Placed(s, cur, perm, |cur|, le)
    ensures SortedBy(cur, le) && Arranged(s, cur, perm) && TiesKeepOrder(cur, perm, le)
  {
  }

  method Swap<T>(a: array<T>, i: nat, j: nat)
    requires i < a.Length && j < a.Length
    modifies a
    ensures a[..] == old(a[..])[i := old(a[j])][j := old(a[i])]
  {
    a[i], a[j] := a[j], a[i];
  }

  /** Sorts `a` in place; the result is ordered by `le` and is a stable
      permutation of the original contents: `perm` says where each element
      came from, and elements `le` ranks equal keep their original order. */
  method InsertionSort<T(!new)>(a: array<T>, le: (T, T) -> bool) returns (ghost perm: seq<int>)
    requires TotalPreorder(le)
    modifies a
    ensures SortedBy(a[..], le)
    ensures multiset(a[..]) == old(multiset(a[..]))
    ensures Arranged(old(a[..]), a[..], perm) && TiesKeepOrder(a[..], perm, le)
  {
    ghost var s := a[..];
    perm := Iota(a.Length);
    StartPlaced(s, le);
    for i := 0 to a.Length
      invariant Placed(s, a[..], perm, i, le)
    {
      ghost var cur := a[..];
      var j := Insert(a, le, i);
      PlaceNext(s, cur, perm, j, i, le);
      perm := Moved(perm, j, i);
    }
    PlacedAll(s, a[..], perm, le);
  }

  /** Moves `a[i]` down past every element before it that must follow it,
      and returns where it stopped. */
  method Insert<T>(a: array<T>, le: (T, T) -> bool, i: nat) returns (j: nat)
    requires i < a.Length
    modifies a
    ensures j <= i && a[..] == Moved(old(a[..]), j, i) && Stops(old(a[..]), j, i, le)
  {
    ghost var s := a[..];
    MovedNowhere(s, i);
    j := i;
    while j > 0 && !le(a[j - 1], a[j])
      invariant j <= i && a[..] == Moved(s, j, i)
      invariant forall k :: j <= k < i ==> !le(s[k], s[i])
    {
      MoveStep(s, j, i);
      Swap(a, j - 1, j);
      j := j - 1;
    }
  }

  /** Copies `s` into a fresh array, sorts it and returns the contents: a
      stable sort, as JavaScript's `Array.prototype.sort` and Python's
      `list.sort` both are. */
  method SortSeq<T(!new)>(s: seq<T>, le: (T, T) -> bool) returns (r: seq<T>)
    requires TotalPreorder(le)
    ensures SortedBy(r, le)
    ensures multiset(r) == multiset(s)
    ensures StablePermutation(s, r, le)
    ensures |r| == |s|
  {
    var a := new T[|s|](i requires 0 <= i < |s| => s[i]);
    assert a[..] == s;
    ghost var perm := InsertionSort(a, le);
    r := a[..];
    assert Arranged(s, r, perm) && TiesKeepOrder(r, perm, le);
  }
}
