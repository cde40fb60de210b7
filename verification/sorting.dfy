/** Stable sorting by an integer key, as `Array.prototype.sort` does with a
    comparator of the form `(a, b) => key(a) - key(b)` (the sort is stable
    since ECMAScript 2019). The sort is written as an insertion sort; the
    lemma `StableSortUnique` shows that any stable sort yields the same
    sequence, so the choice of algorithm is immaterial. */
module Sorting {

  import opened Collections

  predicate SortedBy<T>(xs: seq<T>, key: T -> int) {
    forall i, j :: 0 <= i < j < |xs| ==> key(xs[i]) <= key(xs[j])
  }

  /** Inserts `x` in front of the first element whose key is not below its
      own, so `x` stays ahead of the elements with an equal key. */
  function InsertBy<T>(x: T, xs: seq<T>, key: T -> int): (r: seq<T>)
    requires SortedBy(xs, key)
    ensures SortedBy(r, key)
    ensures multiset(r) == multiset(xs) + multiset{x}
    ensures forall v :: Select(r, key, v) == (if key(x) == v then [x] else []) + Select(xs, key, v)
  {
    if |xs| == 0 || key(x) <= key(xs[0]) then
      SelectConsAll(x, xs, key);
      [x] + xs
    else
      var rest := InsertBy(x, xs[1..], key);
      InsertStep(x, xs, rest, key);
      [xs[0]] + rest
  }

  /** The recursive case of `InsertBy`: `x` goes after the head. */
  lemma InsertStep<T>(x: T, xs: seq<T>, rest: seq<T>, key: T -> int)
    requires |xs| > 0 && key(xs[0]) < key(x) && SortedBy(xs, key)
    requires SortedBy(rest, key)
    requires multiset(rest) == multiset(xs[1..]) + multiset{x}
    requires forall v :: Select(rest, key, v) == (if key(x) == v then [x] else []) + Select(xs[1..], key, v)
    ensures SortedBy([xs[0]] + rest, key)
    ensures multiset([xs[0]] + rest) == multiset(xs) + multiset{x}
    ensures forall v :: Select([xs[0]] + rest, key, v) == (if key(x) == v then [x] else []) + Select(xs, key, v)
  {
    InsertKeepsSorted(x, xs, rest, key);
    assert multiset([xs[0]] + rest) == multiset(xs) + multiset{x} by {
      assert xs == [xs[0]] + xs[1..];
    }
    InsertSelects(x, xs, rest, key);
  }

  lemma InsertKeepsSorted<T>(x: T, xs: seq<T>, rest: seq<T>, key: T -> int)
    requires |xs| > 0 && key(xs[0]) < key(x) && SortedBy(xs, key)
    requires SortedBy(rest, key)
    requires multiset(rest) == multiset(xs[1..]) + multiset{x}
    ensures SortedBy([xs[0]] + rest, key)
  {
    forall j | 0 <= j < |rest|
      ensures key(xs[0]) <= key(rest[j])
    {
      assert rest[j] in multiset(xs[1..]) + multiset{x};
      if rest[j] != x {
        var k :| 0 <= k < |xs[1..]| && xs[1..][k] == rest[j];
        assert xs[k + 1] == rest[j];
      }
    }
  }

  lemma InsertSelects<T>(x: T, xs: seq<T>, rest: seq<T>, key: T -> int)
    requires |xs| > 0 && key(xs[0]) < key(x)
    requires forall v :: Select(rest, key, v) == (if key(x) == v then [x] else []) + Select(xs[1..], key, v)
    ensures forall v :: Select([xs[0]] + rest, key, v) == (if key(x) == v then [x] else []) + Select(xs, key, v)
  {
    forall v
      ensures Select([xs[0]] + rest, key, v) == (if key(x) == v then [x] else []) + Select(xs, key, v)
    {
      InsertSelectsAt(x, xs, rest, key, v);
    }
  }

  lemma InsertSelectsAt<T>(x: T, xs: seq<T>, rest: seq<T>, key: T -> int, v: int)
    requires |xs| > 0 && key(xs[0]) < key(x)
    requires Select(rest, key, v) == (if key(x) == v then [x] else []) + Select(xs[1..], key, v)
    ensures Select([xs[0]] + rest, key, v) == (if key(x) == v then [x] else []) + Select(xs, key, v)
  {
    SelectCons(xs[0], rest, key, v);
    if key(x) == v {
      InsertSelectsHit(x, xs, rest, key, v);
    } else {
      InsertSelectsMiss(x, xs, rest, key, v);
    }
  }

  /** The value of the inserted element: the head is not selected. */
  lemma InsertSelectsHit<T>(x: T, xs: seq<T>, rest: seq<T>, key: T -> int, v: int)
    requires |xs| > 0 && key(xs[0]) < key(x) == v
    requires Select(rest, key, v) == [x] + Select(xs[1..], key, v)
    requires Select([xs[0]] + rest, key, v) == Select(rest, key, v)
    ensures Select([xs[0]] + rest, key, v) == [x] + Select(xs, key, v)
  {
    assert Select(xs, key, v) == Select(xs[1..], key, v);
  }

  /** Any other value: the inserted element is not selected. */
  lemma InsertSelectsMiss<T>(x: T, xs: seq<T>, rest: seq<T>, key: T -> int, v: int)
    requires |xs| > 0 && key(x) != v
    requires Select(rest, key, v) == [] + Select(xs[1..], key, v)
    requires Select([xs[0]] + rest, key, v) == (if key(xs[0]) == v then [xs[0]] else []) + Select(rest, key, v)
    ensures Select([xs[0]] + rest, key, v) == [] + Select(xs, key, v)
  {
    assert Select(rest, key, v) == Select(xs[1..], key, v);
  }

  lemma SelectConsAll<T>(x: T, xs: seq<T>, key: T -> int)
    ensures forall v :: Select([x] + xs, key, v) == (if key(x) == v then [x] else []) + Select(xs, key, v)
  {
    forall v
      ensures Select([x] + xs, key, v) == (if key(x) == v then [x] else []) + Select(xs, key, v)
    {
      SelectCons(x, xs, key, v);
    }
  }

  /** `xs.sort((a, b) => key(a) - key(b))`. */
  function StableSortBy<T>(xs: seq<T>, key: T -> int): (r: seq<T>)
    ensures SortedBy(r, key)
    ensures multiset(r) == multiset(xs)
    ensures forall v :: Select(r, key, v) == Select(xs, key, v)
  {
    if |xs| == 0 then []
    else
      assert xs == [xs[0]] + xs[1..];
      InsertBy(xs[0], StableSortBy(xs[1..], key), key)
  }

  lemma StableSortLength<T>(xs: seq<T>, key: T -> int)
    ensures |StableSortBy(xs, key)| == |xs|
  {
    var r := StableSortBy(xs, key);
    assert |multiset(r)| == |multiset(xs)|;
  }

  /** A sorted sequence is determined by what it holds for each key: two
      sorted sequences with the same elements, in the same relative order, for
      every key value are equal. Hence the stable sort is the only sorted
      rearrangement that keeps equal keys in their original order. */
  lemma {:induction false} StableSortUnique<T>(xs: seq<T>, ys: seq<T>, key: T -> int)
    requires SortedBy(ys, key)
    requires forall v :: Select(ys, key, v) == Select(xs, key, v)
    ensures ys == StableSortBy(xs, key)
  {
    var r := StableSortBy(xs, key);
    SortedSameSelects(r, ys, key);
  }

  lemma {:induction false} SortedSameSelects<T>(a: seq<T>, b: seq<T>, key: T -> int)
    requires SortedBy(a, key) && SortedBy(b, key)
    requires forall v :: Select(a, key, v) == Select(b, key, v)
    ensures a == b
    decreases |a|
  {
    if |a| == 0 {
      SelectHead(b, key);
    } else {
      NonEmptyAlike(a, b, key);
      HeadsEqual(a, b, key);
      TailSelects(a, b, key);
      SortedSameSelects(a[1..], b[1..], key);
      assert a == [a[0]] + a[1..] && b == [b[0]] + b[1..];
    }
  }

  /** A nonempty sequence has a nonempty selection, so a sequence with the
      same selections is nonempty too. */
  lemma NonEmptyAlike<T>(a: seq<T>, b: seq<T>, key: T -> int)
    requires |a| > 0 && Select(a, key, key(a[0])) == Select(b, key, key(a[0]))
    ensures |b| > 0
  {
    SelectHead(a, key);
  }

  lemma HeadsEqual<T>(a: seq<T>, b: seq<T>, key: T -> int)
    requires |a| > 0 && |b| > 0 && SortedBy(a, key) && SortedBy(b, key)
    requires Select(a, key, key(a[0])) == Select(b, key, key(a[0]))
    requires Select(a, key, key(b[0])) == Select(b, key, key(b[0]))
    ensures a[0] == b[0]
  {
    var m, n := key(a[0]), key(b[0]);
    SelectHead(a, key);
    SelectHead(b, key);
    assert n <= m by { SelectLowerBound(b, key, m); }
    assert m <= n by { SelectLowerBound(a, key, n); }
  }

  /** The first element leads the selection of its own key. */
  lemma SelectHead<T>(xs: seq<T>, key: T -> int)
    ensures |xs| > 0 ==> Select(xs, key, key(xs[0])) != [] && Select(xs, key, key(xs[0]))[0] == xs[0]
  {
  }

  lemma TailSelects<T>(a: seq<T>, b: seq<T>, key: T -> int)
    requires |a| > 0 && |b| > 0 && a[0] == b[0]
    requires forall v :: Select(a, key, v) == Select(b, key, v)
    ensures forall v :: Select(a[1..], key, v) == Select(b[1..], key, v)
  {
    forall v
      ensures Select(a[1..], key, v) == Select(b[1..], key, v)
    {
      var p := if key(a[0]) == v then [a[0]] else [];
      SelectFirst(a, key, v);
      SelectFirst(b, key, v);
      PrefixCancel(p, Select(a[1..], key, v), Select(b[1..], key, v));
    }
  }

  /** A common prefix cancels. */
  lemma PrefixCancel<T>(p: seq<T>, x: seq<T>, y: seq<T>)
    requires p + x == p + y
    ensures x == y
  {
    assert x == (p + x)[|p|..];
    assert y == (p + y)[|p|..];
  }

  /** In a sorted sequence, no element with key `v` exists unless the first
      key is at most `v`. */
  lemma SelectLowerBound<T>(xs: seq<T>, key: T -> int, v: int)
    requires |xs| > 0 && SortedBy(xs, key)
    requires Select(xs, key, v) != []
    ensures key(xs[0]) <= v
  {
    var x := Select(xs, key, v)[0];
    assert x in Select(xs, key, v);
    var i :| 0 <= i < |xs| && xs[i] == x;
    assert key(xs[0]) <= key(xs[i]);
  }
}
