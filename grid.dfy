/** The cartesian product of a list of lists in `itertools.product` order:
    the first list varies slowest, the last fastest. */
module Grid {

  /** `x` put in front of every tuple of `rests`. */
  function Prefixed<T>(x: T, rests: seq<seq<T>>): (r: seq<seq<T>>)
    ensures |r| == |rests| && forall i :: 0 <= i < |rests| ==> r[i] == [x] + rests[i]
  {
    if rests == [] then [] else [[x] + rests[0]] + Prefixed(x, rests[1..])
  }

  /** Every element of `first` in front of every tuple of `rests`, in order. */
  function Expand<T>(first: seq<T>, rests: seq<seq<T>>): seq<seq<T>>
  {
    if first == [] then [] else Prefixed(first[0], rests) + Expand(first[1..], rests)
  }

  function Product<T>(lists: seq<seq<T>>): seq<seq<T>>
    decreases |lists|
  {
    if lists == [] then [[]] else Expand(lists[0], Product(lists[1..]))
  }

  /** The product of the list lengths. */
  function CountProduct<T>(lists: seq<seq<T>>): nat
  {
    if lists == [] then 1 else |lists[0]| * CountProduct(lists[1..])
  }

  lemma {:induction false} ExpandLength<T>(first: seq<T>, rests: seq<seq<T>>)
    ensures |Expand(first, rests)| == |first| * |rests|
  {
    if first != [] {
      ExpandLength(first[1..], rests);
    }
  }

  /** Tuple q * n + r of the expansion (n = |rests|, r < n) puts element q
      of `first` in front of tuple r of `rests`. */
  lemma ExpandAt<T>(first: seq<T>, rests: seq<seq<T>>, q: nat, r: nat)
    requires q < |first| && r < |rests|
    ensures |Expand(first, rests)| == |first| * |rests|
    ensures q * |rests| + r < |Expand(first, rests)|
    ensures Expand(first, rests)[q * |rests| + r] == [first[q]] + rests[r]
  {
    var n := |rests|;
    ExpandLength(first, rests);
    LessTimes(q, |first|, r, n);
    OffsetIsProduct(q, n);
    var i := Offset(q, n) + r;
    assert i == q * n + r;
    ExpandAtOffset(first, rests, q, r);
  }

  /** q copies of n added up; multiplication without nonlinear arithmetic. */
  function Offset(q: nat, n: nat): nat
  {
    if q == 0 then 0 else n + Offset(q - 1, n)
  }

  lemma {:induction false} OffsetIsProduct(q: nat, n: nat)
    ensures Offset(q, n) == q * n
  {
    if q > 0 {
      OffsetIsProduct(q - 1, n);
      MulPred(q, n);
    }
  }

  lemma MulPred(q: nat, n: nat)
    requires q > 0
    ensures q * n == n + (q - 1) * n
  {
  }

  lemma ExpandAtOffset<T>(first: seq<T>, rests: seq<seq<T>>, q: nat, r: nat)
    requires q < |first| && r < |rests|
    ensures Offset(q, |rests|) + r < |Expand(first, rests)|
    ensures Expand(first, rests)[Offset(q, |rests|) + r] == [first[q]] + rests[r]
  {
    var head, tail := first[..q], first[q..];
    var before, from := Expand(head, rests), Expand(tail, rests);
    assert Expand(first, rests) == before + from by {
      assert first == head + tail;
      ExpandAppend(head, tail, rests);
    }
    assert |before| == Offset(q, |rests|) by {
      ExpandLengthOffset(head, rests);
    }
    assert r < |from| && from[r] == [first[q]] + rests[r] by {
      TakeFirst(tail, rests, r);
    }
    assert (before + from)[|before| + r] == from[r];
  }

  /** Expanding a concatenation expands each part in turn. */
  lemma {:induction false} ExpandAppend<T>(a: seq<T>, b: seq<T>, rests: seq<seq<T>>)
    ensures Expand(a + b, rests) == Expand(a, rests) + Expand(b, rests)
  {
    if a == [] {
      assert a + b == b;
    } else {
      assert (a + b)[1..] == a[1..] + b;
      ExpandAppend(a[1..], b, rests);
    }
  }

  lemma {:induction false} ExpandLengthOffset<T>(first: seq<T>, rests: seq<seq<T>>)
    ensures |Expand(first, rests)| == Offset(|first|, |rests|)
  {
    if first != [] {
      ExpandLengthOffset(first[1..], rests);
    }
  }

  /** The expansion opens with the tuples that start with `first[0]`. */
  lemma TakeFirst<T>(first: seq<T>, rests: seq<seq<T>>, r: nat)
    requires first != [] && r < |rests|
    ensures r < |Expand(first, rests)|
    ensures Expand(first, rests)[r] == [first[0]] + rests[r]
  {
    var p := Prefixed(first[0], rests);
    var tail := Expand(first[1..], rests);
    assert Expand(first, rests) == p + tail;
    assert (p + tail)[r] == p[r];
  }

  lemma LessTimes(q: nat, m: nat, r: nat, n: nat)
    requires q < m && r < n
    ensures q * n + r < m * n
  {
    assert (q + 1) * n <= m * n;
  }

  /** The product has one tuple per choice of one element from each list. */
  lemma {:induction false} ProductLength<T>(lists: seq<seq<T>>)
    ensures |Product(lists)| == CountProduct(lists)
    decreases |lists|
  {
    if lists != [] {
      ProductLength(lists[1..]);
      ExpandLength(lists[0], Product(lists[1..]));
    }
  }

  /** Product order: with n the number of tuples over the other lists, tuple
      q * n + r puts element q of the first list in front of tuple r over the
      others, so the first list varies slowest and the last fastest. */
  lemma ProductAt<T>(lists: seq<seq<T>>, q: nat, r: nat)
    requires lists != [] && q < |lists[0]| && r < CountProduct(lists[1..])
    ensures |Product(lists)| == CountProduct(lists)
    ensures |Product(lists[1..])| == CountProduct(lists[1..])
    ensures q * CountProduct(lists[1..]) + r < |Product(lists)|
    ensures Product(lists)[q * CountProduct(lists[1..]) + r] == [lists[0][q]] + Product(lists[1..])[r]
  {
    ProductLength(lists);
    ProductLength(lists[1..]);
    ExpandAt(lists[0], Product(lists[1..]), q, r);
  }

  lemma {:induction false} ExpandMember<T>(first: seq<T>, rests: seq<seq<T>>, c: seq<T>)
    requires c in Expand(first, rests)
    ensures |c| > 0 && c[0] in first && c[1..] in rests
  {
    if c !in Prefixed(first[0], rests) {
      ExpandMember(first[1..], rests, c);
    } else {
      var j :| 0 <= j < |rests| && Prefixed(first[0], rests)[j] == c;
      assert c[1..] == rests[j];
    }
  }

  /** Every tuple takes its k-th element from the k-th list. */
  lemma {:induction false} ProductMembers<T>(lists: seq<seq<T>>, c: seq<T>)
    requires c in Product(lists)
    ensures |c| == |lists|
    ensures forall k :: 0 <= k < |lists| ==> c[k] in lists[k]
    decreases |lists|
  {
    if lists != [] {
      ExpandMember(lists[0], Product(lists[1..]), c);
      ProductMembers(lists[1..], c[1..]);
      forall k | 0 <= k < |lists| ensures c[k] in lists[k] {
        if k > 0 {
          assert c[k] == c[1..][k - 1];
        }
      }
    }
  }

  /** Every choice of one element from each list occurs in the product. */
  lemma {:induction false} ProductComplete<T>(lists: seq<seq<T>>, c: seq<T>)
    requires |c| == |lists|
    requires forall k :: 0 <= k < |lists| ==> c[k] in lists[k]
    ensures c in Product(lists)
    decreases |lists|
  {
    if lists != [] {
      ProductComplete(lists[1..], c[1..]);
      ExpandContains(lists[0], Product(lists[1..]), c[0], c[1..]);
      assert c == [c[0]] + c[1..];
    }
  }

  lemma {:induction false} ExpandContains<T>(first: seq<T>, rests: seq<seq<T>>, x: T, rest: seq<T>)
    requires x in first && rest in rests
    ensures [x] + rest in Expand(first, rests)
  {
    if first[0] == x {
      var j :| 0 <= j < |rests| && rests[j] == rest;
      assert Prefixed(x, rests)[j] == [x] + rest;
    } else {
      ExpandContains(first[1..], rests, x, rest);
    }
  }
}
