/**
 * `array.sort((a, b) => a.order - b.order)`: the in-place sort by a numeric key that
 * the survey renderer and the states page apply to what the backend returns.
 */
module Ordering {

  ghost predicate SortedBy<T>(s: seq<T>, key: T -> int) {
    forall i, j :: 0 <= i < j < |s| ==> key(s[i]) <= key(s[j])
  }

  /** The first `n` elements of `s` are in ascending key order. */
  ghost predicate SortedUpTo<T>(s: seq<T>, key: T -> int, n: int) {
    forall p, q :: 0 <= p < q < n && q < |s| ==> key(s[p]) <= key(s[q])
  }

  /** The elements of `s` whose key is `k`, in their order in `s`. */
  ghost function WithKey<T>(s: seq<T>, key: T -> int, k: int): seq<T>
    decreases |s|
  {
    if |s| == 0 then []
    else (if key(s[0]) == k then [s[0]] else []) + WithKey(s[1..], key, k)
  }

  /**
   * `t` keeps the relative order `s` gives to the elements of each key: what a
   * stable sort promises.
   */
  ghost predicate SameOrderPerKey<T>(t: seq<T>, s: seq<T>, key: T -> int) {
    forall k :: WithKey(t, key, k) == WithKey(s, key, k)
  }

  lemma {:induction false} WithKeyConcat<T>(a: seq<T>, b: seq<T>, key: T -> int, k: int)
    ensures WithKey(a + b, key, k) == WithKey(a, key, k) + WithKey(b, key, k)
    decreases |a|
  {
    if |a| > 0 {
      assert (a + b)[0] == a[0] && (a + b)[1..] == a[1..] + b;
      WithKeyConcat(a[1..], b, key, k);
    } else {
      assert a + b == b;
    }
  }

  /** Exchanging two neighbours with different keys keeps the order within every key. */
  lemma SwapKeepsOrderPerKey<T>(s: seq<T>, j: int, key: T -> int)
    requires 0 < j < |s| && key(s[j - 1]) != key(s[j])
    ensures SameOrderPerKey(s[j - 1 := s[j]][j := s[j - 1]], s, key)
  {
    var t := s[j - 1 := s[j]][j := s[j - 1]];
    var pre, post := s[..j - 1], s[j + 1..];
    assert s == pre + [s[j - 1], s[j]] + post;
    assert t == pre + [s[j], s[j - 1]] + post;
    forall k
      ensures WithKey(t, key, k) == WithKey(s, key, k)
    {
      WithKeyConcat(pre + [s[j - 1], s[j]], post, key, k);
      WithKeyConcat(pre, [s[j - 1], s[j]], key, k);
      WithKeyConcat(pre + [s[j], s[j - 1]], post, key, k);
      WithKeyConcat(pre, [s[j], s[j - 1]], key, k);
      WithKeyConcat([s[j - 1]], [s[j]], key, k);
      WithKeyConcat([s[j]], [s[j - 1]], key, k);
    }
  }

  /** One more such exchange after a sequence of them still keeps the order within every key. */
  lemma SwapStep<T>(before: seq<T>, after: seq<T>, orig: seq<T>, j: int, key: T -> int)
    requires 0 < j < |before| && key(before[j - 1]) != key(before[j])
    requires after == before[j - 1 := before[j]][j := before[j - 1]]
    requires SameOrderPerKey(before, orig, key)
    ensures SameOrderPerKey(after, orig, key)
  {
    SwapKeepsOrderPerKey(before, j, key);
  }

  /** Exchanges `a[j - 1]` and `a[j]`. */
  method SwapDown<T>(a: array<T>, j: int)
    requires 0 < j < a.Length
    modifies a
    ensures a[..] == old(a[..])[j - 1 := old(a[j])][j := old(a[j - 1])]
    ensures multiset(a[..]) == old(multiset(a[..]))
  {
    a[j - 1], a[j] := a[j], a[j - 1];
  }

  /**
   * Insertion of `s[j]` into the sorted prefix is under way: the first `i + 1`
   * elements are in order except at the hole `j`, and the hole's neighbours are
   * in order with each other.
   */
  ghost predicate Inserting<T>(s: seq<T>, key: T -> int, i: int, j: int) {
    && 0 <= j <= i < |s|
    && (forall p, q :: 0 <= p < q <= i && q != j ==> key(s[p]) <= key(s[q]))
    && (0 < j < i ==> key(s[j - 1]) <= key(s[j + 1]))
  }

  /** Exchanging the out-of-order element with its left neighbour moves the hole one place left. */
  lemma InsertStep<T>(s: seq<T>, t: seq<T>, key: T -> int, i: int, j: int)
    requires Inserting(s, key, i, j) && j > 0 && key(s[j - 1]) > key(s[j])
    requires t == s[j - 1 := s[j]][j := s[j - 1]]
    ensures Inserting(t, key, i, j - 1)
  {
  }

  /** Once the element has no larger left neighbour, the first `i + 1` elements are sorted. */
  lemma InsertDone<T>(s: seq<T>, key: T -> int, i: int, j: int)
    requires Inserting(s, key, i, j) && (j == 0 || key(s[j - 1]) <= key(s[j]))
    ensures SortedUpTo(s, key, i + 1)
  {
  }

  /** Moves `a[i]` left past the strictly larger keys before it. */
  method InsertAt<T>(a: array<T>, i: int, key: T -> int)
    requires 0 <= i < a.Length
    requires SortedUpTo(a[..], key, i)
    modifies a
    ensures SortedUpTo(a[..], key, i + 1)
    ensures multiset(a[..]) == old(multiset(a[..]))
    ensures SameOrderPerKey(a[..], old(a[..]), key)
  {
    var j := i;
    while j > 0 && key(a[j - 1]) > key(a[j])
      invariant Inserting(a[..], key, i, j)
      invariant multiset(a[..]) == old(multiset(a[..]))
      invariant SameOrderPerKey(a[..], old(a[..]), key)
    {
      ghost var before := a[..];
      SwapDown(a, j);
      InsertStep(before, a[..], key, i, j);
      SwapStep(before, a[..], old(a[..]), j, key);
      j := j - 1;
    }
    InsertDone(a[..], key, i, j);
  }

  /**
   * Sorts `a` in place into ascending `key` order; the result is a permutation of
   * the input, and elements with equal keys keep their relative order, as with the
   * stable `Array.prototype.sort`.
   */
  method SortByKey<T>(a: array<T>, key: T -> int)
    modifies a
    ensures SortedBy(a[..], key)
    ensures multiset(a[..]) == old(multiset(a[..]))
    ensures SameOrderPerKey(a[..], old(a[..]), key)
  {
    var i := 0;
    while i < a.Length
      invariant 0 <= i <= a.Length
      invariant SortedUpTo(a[..], key, i)
      invariant multiset(a[..]) == old(multiset(a[..]))
      invariant SameOrderPerKey(a[..], old(a[..]), key)
    {
      InsertAt(a, i, key);
      i := i + 1;
    }
  }
}
