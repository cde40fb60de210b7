/** Sequence helpers shared by the organizer and the track list: keyed
    selection (`filter` by key), the insertion-ordered dictionary that a
    JavaScript object literal used as a map is, grouping into such a
    dictionary with `forEach` + `push`, and sums over sequences. */
module Collections {

  // ---------------------------------------------------------------------------
  // Keyed selection

  /** The elements of `xs` whose key is `k`, in their original order. */
  function Select<T, K(==)>(xs: seq<T>, key: T -> K, k: K): (r: seq<T>)
    ensures |r| <= |xs|
    ensures forall x :: x in r ==> x in xs && key(x) == k
  {
    if |xs| == 0 then []
    else (if key(xs[0]) == k then [xs[0]] else []) + Select(xs[1..], key, k)
  }

  lemma {:induction false} SelectAppend<T, K>(a: seq<T>, b: seq<T>, key: T -> K, k: K)
    ensures Select(a + b, key, k) == Select(a, key, k) + Select(b, key, k)
  {
    if |a| > 0 {
      assert (a + b)[1..] == a[1..] + b;
      SelectAppend(a[1..], b, key, k);
    } else {
      assert a + b == b;
    }
  }

  /** An element lands in the selection of its own key. */
  lemma {:induction false} SelectContains<T, K>(xs: seq<T>, key: T -> K, x: T)
    requires x in xs
    ensures x in Select(xs, key, key(x))
  {
    if xs[0] != x {
      SelectContains(xs[1..], key, x);
    }
  }

  /** `a` is `b` with some elements left out: an order-preserving
      subsequence. */
  predicate Subsequence<T(==)>(a: seq<T>, b: seq<T>)
    decreases |b|
  {
    if |a| == 0 then true
    else if |b| == 0 then false
    else if a[0] == b[0] then Subsequence(a[1..], b[1..])
    else Subsequence(a, b[1..])
  }

  /** A selection keeps the order of the elements it keeps. */
  lemma {:induction false} SelectSubsequence<T, K>(xs: seq<T>, key: T -> K, k: K)
    ensures Subsequence(Select(xs, key, k), xs)
  {
    if |xs| > 0 {
      SelectSubsequence(xs[1..], key, k);
      var r := Select(xs, key, k);
      if key(xs[0]) == k {
        assert r[0] == xs[0] && r[1..] == Select(xs[1..], key, k);
      } else {
        assert r == Select(xs[1..], key, k);
        SubsequenceOfTail(r, xs);
      }
    }
  }

  lemma SubsequenceOfTail<T>(a: seq<T>, b: seq<T>)
    requires |b| > 0 && Subsequence(a, b[1..])
    ensures Subsequence(a, b)
    decreases |b|, 0
  {
    if |a| > 0 && a[0] == b[0] {
      SubsequenceTail(a, b[1..]);
    }
  }

  lemma {:induction false} SubsequenceTail<T>(a: seq<T>, b: seq<T>)
    requires |a| > 0 && Subsequence(a, b)
    ensures Subsequence(a[1..], b)
    decreases |b|, 1
  {
    if a[0] == b[0] {
      SubsequenceOfTail(a[1..], b);
    } else {
      SubsequenceTail(a, b[1..]);
      SubsequenceOfTail(a[1..], b);
    }
  }

  /** A selection keeps every element of the selected key as often as it
      occurs, and no other element. */
  lemma {:induction false} SelectCount<T, K>(xs: seq<T>, key: T -> K, k: K, x: T)
    ensures multiset(Select(xs, key, k))[x] == if key(x) == k then multiset(xs)[x] else 0
  {
    if |xs| > 0 {
      SelectCount(xs[1..], key, k, x);
      assert xs == [xs[0]] + xs[1..];
    }
  }

  /** Selections by two keys that agree on every element are the same. */
  lemma {:induction false} SelectSameKeys<T, K>(xs: seq<T>, f: T -> K, g: T -> K, k: K)
    requires forall x :: x in xs ==> f(x) == g(x)
    ensures Select(xs, f, k) == Select(xs, g, k)
  {
    if |xs| > 0 {
      SelectSameKeys(xs[1..], f, g, k);
    }
  }

  /** When no element has key `k`, nothing is selected. */
  lemma {:induction false} SelectNone<T, K>(xs: seq<T>, key: T -> K, k: K)
    requires forall x :: x in xs ==> key(x) != k
    ensures Select(xs, key, k) == []
  {
    if |xs| > 0 {
      SelectNone(xs[1..], key, k);
    }
  }

  /** Selecting by two keys in turn is selecting by any key that holds
      exactly when both do. */
  lemma {:induction false} SelectSelect<T, A, B, C>(
    xs: seq<T>, f: T -> A, a: A, g: T -> B, b: B, h: T -> C, c: C)
    requires forall x :: x in xs ==> (h(x) == c <==> f(x) == a && g(x) == b)
    ensures Select(Select(xs, f, a), g, b) == Select(xs, h, c)
  {
    if |xs| > 0 {
      SelectSelect(xs[1..], f, a, g, b, h, c);
      var head := if f(xs[0]) == a then [xs[0]] else [];
      SelectAppend(head, Select(xs[1..], f, a), g, b);
    }
  }

  /** The selections for a list of keys, one after another. */
  function ConcatSelect<T, K(==)>(xs: seq<T>, key: T -> K, ks: seq<K>): seq<T> {
    if |ks| == 0 then [] else Select(xs, key, ks[0]) + ConcatSelect(xs, key, ks[1..])
  }

  lemma InTail<T>(s: seq<T>, x: T)
    requires x in s && x != s[0]
    ensures x in s[1..]
  {
    var i :| 0 <= i < |s| && s[i] == x;
    assert s[1..][i - 1] == x;
  }

  predicate Distinct<K(==)>(ks: seq<K>) {
    forall i, j :: 0 <= i < j < |ks| ==> ks[i] != ks[j]
  }

  lemma DistinctTail<K>(ks: seq<K>)
    requires |ks| > 0 && Distinct(ks)
    ensures Distinct(ks[1..]) && ks[0] !in ks[1..]
  {
  }

  /** A sequence is free of repetitions exactly when it holds every value at
      most once. */
  lemma {:induction false} DistinctCounts<K>(ks: seq<K>)
    ensures Distinct(ks) <==> forall k :: multiset(ks)[k] <= 1
  {
    if |ks| > 0 {
      DistinctCounts(ks[1..]);
      assert ks == [ks[0]] + ks[1..];
      if Distinct(ks) {
        DistinctTail(ks);
      } else {
        var i, j :| 0 <= i < j < |ks| && ks[i] == ks[j];
        if i == 0 {
          assert ks[j] == ks[1..][j - 1];
          assert multiset(ks)[ks[0]] == 1 + multiset(ks[1..])[ks[0]];
        } else {
          assert ks[1..][i - 1] == ks[1..][j - 1];
          var k :| multiset(ks[1..])[k] > 1;
          assert multiset(ks)[k] == multiset([ks[0]])[k] + multiset(ks[1..])[k];
        }
      }
    }
  }

  lemma DistinctConcat<K>(a: seq<K>, b: seq<K>)
    requires Distinct(a) && Distinct(b)
    requires forall k :: k in a ==> k !in b
    ensures Distinct(a + b)
  {
    forall i, j | 0 <= i < j < |a + b|
      ensures (a + b)[i] != (a + b)[j]
    {
      if j < |a| {
        assert (a + b)[i] == a[i] && (a + b)[j] == a[j];
      } else if i < |a| {
        assert (a + b)[i] == a[i] && a[i] in a;
        assert (a + b)[j] == b[j - |a|] && b[j - |a|] in b;
      } else {
        assert (a + b)[i] == b[i - |a|] && (a + b)[j] == b[j - |a|];
      }
    }
  }

  /** Rearranging a sequence keeps it free of repetitions. */
  lemma DistinctPermutation<K>(a: seq<K>, b: seq<K>)
    requires multiset(a) == multiset(b) && Distinct(a)
    ensures Distinct(b)
  {
    DistinctCounts(a);
    DistinctCounts(b);
  }

  lemma {:induction false} ConcatSelectCons<T, K>(x: T, xs: seq<T>, key: T -> K, ks: seq<K>)
    requires Distinct(ks)
    ensures multiset(ConcatSelect([x] + xs, key, ks))
         == multiset(ConcatSelect(xs, key, ks)) + (if key(x) in ks then multiset{x} else multiset{})
  {
    if |ks| > 0 {
      var k0, rest := ks[0], ks[1..];
      DistinctTail(ks);
      ConcatSelectCons(x, xs, key, rest);
      SelectCons(x, xs, key, k0);
      InCons(ks, key(x));
      AddOneBucket(x, if key(x) == k0 then [x] else [], Select(xs, key, k0), ConcatSelect(xs, key, rest),
        ConcatSelect([x] + xs, key, rest), key(x) == k0, key(x) in rest);
    }
  }

  lemma SelectCons<T, K>(x: T, xs: seq<T>, key: T -> K, k: K)
    ensures Select([x] + xs, key, k) == (if key(x) == k then [x] else []) + Select(xs, key, k)
  {
    assert ([x] + xs)[1..] == xs;
  }

  /** Membership in a non-empty sequence: the head or the tail. */
  lemma InCons<T>(s: seq<T>, y: T)
    requires |s| > 0
    ensures y in s <==> y == s[0] || y in s[1..]
  {
    assert s == [s[0]] + s[1..];
  }

  /** The multiset step of `ConcatSelectCons`: `x` lands in at most one of
      the head bucket and the remaining buckets. */
  lemma AddOneBucket<T>(x: T, head: seq<T>, a: seq<T>, b: seq<T>, b': seq<T>, inHead: bool, inRest: bool)
    requires multiset(head) == if inHead then multiset{x} else multiset{}
    requires multiset(b') == multiset(b) + (if inRest then multiset{x} else multiset{})
    requires !(inHead && inRest)
    ensures multiset(head + a + b') == multiset(a + b) + (if inHead || inRest then multiset{x} else multiset{})
  {
  }

  /** Partition: the selections for distinct keys that cover every element's
      key, concatenated, are a permutation of the input. */
  lemma {:induction false} SelectPartition<T, K>(xs: seq<T>, key: T -> K, ks: seq<K>)
    requires Distinct(ks)
    requires forall x :: x in xs ==> key(x) in ks
    ensures multiset(ConcatSelect(xs, key, ks)) == multiset(xs)
  {
    if |xs| == 0 {
      EmptySelects(key, ks);
    } else {
      SelectPartition(xs[1..], key, ks);
      ConcatSelectCons(xs[0], xs[1..], key, ks);
      assert xs == [xs[0]] + xs[1..];
    }
  }

  lemma {:induction false} EmptySelects<T, K>(key: T -> K, ks: seq<K>)
    ensures ConcatSelect([], key, ks) == []
  {
    if |ks| > 0 {
      EmptySelects(key, ks[1..]);
    }
  }

  // ---------------------------------------------------------------------------
  // Insertion-ordered dictionaries

  /** A JavaScript object used as a dictionary: its keys in insertion order
      (the order `Object.entries` reports for non-numeric keys) and its
      key/value pairs. */
  datatype Dict<K(==, !new), V> = Dict(order: seq<K>, values: map<K, V>) {

    ghost predicate Valid() {
      && Distinct(order)
      && (forall k :: k in values <==> k in order)
    }
  }

  /** The keys of the elements of `xs`. */
  ghost function KeySet<T, K>(xs: seq<T>, key: T -> K): set<K> {
    set x | x in xs :: key(x)
  }

  /** One `forEach` step of the grouping idiom
      `if (!groups[k]) groups[k] = []; groups[k].push(x)`. */
  function Place<K(==, !new), T>(d: Dict<K, seq<T>>, k: K, x: T): (r: Dict<K, seq<T>>)
    requires d.Valid()
    ensures r.Valid()
    ensures r.values.Keys == d.values.Keys + {k}
    ensures r.values[k] == (if k in d.values then d.values[k] else []) + [x]
    ensures forall k' :: k' in d.values && k' != k ==> r.values[k'] == d.values[k']
    ensures r.order == if k in d.values then d.order else d.order + [k]
  {
    if k in d.values then Dict(d.order, d.values[k := d.values[k] + [x]])
    else
      var r := Dict(d.order + [k], d.values[k := [x]]);
      assert forall k' :: k' in r.order <==> k' in d.order || k' == k;
      r
  }

  /** `xs.forEach(x => push x into groups[key(x)])` starting from `{}`: every
      key that occurs gets one entry, in order of first occurrence, holding
      the elements with that key in their original order. */
  function GroupBy<T, K(==, !new)>(xs: seq<T>, key: T -> K): (d: Dict<K, seq<T>>)
    ensures d.Valid()
    ensures d.values.Keys == KeySet(xs, key)
    ensures forall k :: k in d.values ==> d.values[k] == Select(xs, key, k) && |d.values[k]| > 0
    ensures SeenInOrder(xs, key, d.order)
  {
    if |xs| == 0 then Dict([], map[])
    else
      var n := |xs| - 1;
      var prefix := GroupBy(xs[..n], key);
      GroupByStep(xs, key, prefix);
      var d := Place(prefix, key(xs[n]), xs[n]);
      FirstSeenStep(xs, key, prefix.order, d.order);
      d
  }

  /** The position of the first element with key `k`, or `|xs|` when no
      element has it. */
  function FirstSeen<T, K(==)>(xs: seq<T>, key: T -> K, k: K): (i: nat)
    ensures i <= |xs|
    ensures i < |xs| ==> key(xs[i]) == k
    ensures forall j :: 0 <= j < i ==> key(xs[j]) != k
  {
    if |xs| == 0 then 0
    else if key(xs[0]) == k then 0
    else 1 + FirstSeen(xs[1..], key, k)
  }

  /** A key has a first position exactly when some element has it. */
  lemma FirstSeenPresent<T, K>(xs: seq<T>, key: T -> K, k: K)
    ensures FirstSeen(xs, key, k) < |xs| <==> k in KeySet(xs, key)
  {
    var i := FirstSeen(xs, key, k);
    if i < |xs| {
      assert xs[i] in xs;
    }
  }

  /** A key already seen in a prefix is first seen at the same place in the
      whole sequence. */
  lemma FirstSeenPrefix<T, K>(xs: seq<T>, key: T -> K, k: K, m: nat)
    requires m <= |xs| && FirstSeen(xs[..m], key, k) < m
    ensures FirstSeen(xs, key, k) == FirstSeen(xs[..m], key, k)
  {
    assert forall j :: 0 <= j < m ==> xs[..m][j] == xs[j];
  }

  /** A key missing from all but the last element is first seen last. */
  lemma FirstSeenLast<T, K>(xs: seq<T>, key: T -> K)
    requires |xs| > 0
    requires FirstSeen(xs[..|xs| - 1], key, key(xs[|xs| - 1])) == |xs| - 1
    ensures FirstSeen(xs, key, key(xs[|xs| - 1])) == |xs| - 1
  {
    var n := |xs| - 1;
    assert forall j :: 0 <= j < n ==> xs[..n][j] == xs[j];
  }

  /** Every key of `ks` occurs in `xs`, and the keys are listed in the order
      they first occur. */
  ghost predicate SeenInOrder<T, K>(xs: seq<T>, key: T -> K, ks: seq<K>) {
    && (forall i :: 0 <= i < |ks| ==> FirstSeen(xs, key, ks[i]) < |xs|)
    && (forall i, j :: 0 <= i < j < |ks| ==> FirstSeen(xs, key, ks[i]) < FirstSeen(xs, key, ks[j]))
  }

  /** One grouping step keeps the keys in order of first sight: the listed
      keys keep their first positions, and a new key is seen last. */
  lemma FirstSeenStep<T, K>(xs: seq<T>, key: T -> K, before: seq<K>, after: seq<K>)
    requires |xs| > 0
    requires SeenInOrder(xs[..|xs| - 1], key, before)
    requires after == before
      || (after == before + [key(xs[|xs| - 1])] && key(xs[|xs| - 1]) !in KeySet(xs[..|xs| - 1], key))
    ensures SeenInOrder(xs, key, after)
  {
    var n := |xs| - 1;
    var f := k' => FirstSeen(xs, key, k');
    forall i | 0 <= i < |before|
      ensures f(before[i]) == FirstSeen(xs[..n], key, before[i])
    {
      FirstSeenPrefix(xs, key, before[i], n);
    }
    if after != before {
      FirstSeenPresent(xs[..n], key, key(xs[n]));
      FirstSeenLast(xs, key);
      AppendSeenLater(before, key(xs[n]), f, n);
    }
  }

  /** Appending a key first seen after every listed key keeps the list in
      order of first sight. */
  lemma AppendSeenLater<K>(ks: seq<K>, k: K, f: K -> nat, n: nat)
    requires forall i :: 0 <= i < |ks| ==> f(ks[i]) < n
    requires forall i, j :: 0 <= i < j < |ks| ==> f(ks[i]) < f(ks[j])
    requires f(k) == n
    ensures forall i :: 0 <= i < |ks + [k]| ==> f((ks + [k])[i]) <= n
    ensures forall i, j :: 0 <= i < j < |ks + [k]| ==> f((ks + [k])[i]) < f((ks + [k])[j])
  {
  }

  lemma GroupByStep<T, K(!new)>(xs: seq<T>, key: T -> K, prefix: Dict<K, seq<T>>)
    requires |xs| > 0 && prefix.Valid()
    requires prefix.values.Keys == KeySet(xs[..|xs| - 1], key)
    requires forall k :: k in prefix.values ==> prefix.values[k] == Select(xs[..|xs| - 1], key, k)
    ensures var d := Place(prefix, key(xs[|xs| - 1]), xs[|xs| - 1]);
      && d.values.Keys == KeySet(xs, key)
      && forall k :: k in d.values ==> d.values[k] == Select(xs, key, k) && |d.values[k]| > 0
  {
    var n := |xs| - 1;
    var d := Place(prefix, key(xs[n]), xs[n]);
    StepKeys(xs, key, prefix);
    StepValues(xs, key, prefix);
    ValuesNonEmpty(xs, key, d);
  }

  lemma StepKeys<T, K(!new)>(xs: seq<T>, key: T -> K, prefix: Dict<K, seq<T>>)
    requires |xs| > 0 && prefix.Valid()
    requires prefix.values.Keys == KeySet(xs[..|xs| - 1], key)
    ensures Place(prefix, key(xs[|xs| - 1]), xs[|xs| - 1]).values.Keys == KeySet(xs, key)
  {
    var n := |xs| - 1;
    assert xs == xs[..n] + [xs[n]];
    KeySetSnoc(xs[..n], xs[n], key);
  }

  lemma StepValues<T, K(!new)>(xs: seq<T>, key: T -> K, prefix: Dict<K, seq<T>>)
    requires |xs| > 0 && prefix.Valid()
    requires prefix.values.Keys == KeySet(xs[..|xs| - 1], key)
    requires forall k :: k in prefix.values ==> prefix.values[k] == Select(xs[..|xs| - 1], key, k)
    ensures var d := Place(prefix, key(xs[|xs| - 1]), xs[|xs| - 1]);
      forall k :: k in d.values ==> d.values[k] == Select(xs, key, k)
  {
    var d := Place(prefix, key(xs[|xs| - 1]), xs[|xs| - 1]);
    forall k | k in d.values
      ensures d.values[k] == Select(xs, key, k)
    {
      StepValueAt(xs, key, prefix, k);
    }
  }

  lemma StepValueAt<T, K(!new)>(xs: seq<T>, key: T -> K, prefix: Dict<K, seq<T>>, k: K)
    requires |xs| > 0 && prefix.Valid()
    requires prefix.values.Keys == KeySet(xs[..|xs| - 1], key)
    requires k in prefix.values ==> prefix.values[k] == Select(xs[..|xs| - 1], key, k)
    requires k in Place(prefix, key(xs[|xs| - 1]), xs[|xs| - 1]).values
    ensures Place(prefix, key(xs[|xs| - 1]), xs[|xs| - 1]).values[k] == Select(xs, key, k)
  {
    var n := |xs| - 1;
    var x := xs[n];
    var d := Place(prefix, key(x), x);
    SelectLast(xs, key, k);
    if k == key(x) {
      if k !in prefix.values {
        SelectOutsideKeySet(xs[..n], key, k);
      }
    } else {
      assert d.values[k] == prefix.values[k];
    }
  }

  lemma ValuesNonEmpty<T, K(!new)>(xs: seq<T>, key: T -> K, d: Dict<K, seq<T>>)
    requires d.values.Keys == KeySet(xs, key)
    requires forall k :: k in d.values ==> d.values[k] == Select(xs, key, k)
    ensures forall k :: k in d.values ==> |d.values[k]| > 0
  {
    forall k | k in d.values
      ensures |d.values[k]| > 0
    {
      SelectNonEmpty(xs, key, k);
    }
  }

  lemma KeySetSnoc<T, K>(xs: seq<T>, x: T, key: T -> K)
    ensures KeySet(xs + [x], key) == KeySet(xs, key) + {key(x)}
  {
    assert forall y :: y in xs + [x] <==> y in xs || y == x;
  }

  lemma SelectSnoc<T, K>(xs: seq<T>, x: T, key: T -> K, k: K)
    ensures Select(xs + [x], key, k) == Select(xs, key, k) + (if key(x) == k then [x] else [])
  {
    SelectAppend(xs, [x], key, k);
    assert Select([x], key, k) == (if key(x) == k then [x] else []) + Select([], key, k);
  }

  lemma SelectLast<T, K>(xs: seq<T>, key: T -> K, k: K)
    requires |xs| > 0
    ensures Select(xs, key, k)
         == Select(xs[..|xs| - 1], key, k) + (if key(xs[|xs| - 1]) == k then [xs[|xs| - 1]] else [])
  {
    var n := |xs| - 1;
    LastSplit(xs);
    SelectSnoc(xs[..n], xs[n], key, k);
  }

  /** Selecting from a non-empty sequence decides its first element, then
      selects from the rest. */
  lemma SelectFirst<T, K>(xs: seq<T>, key: T -> K, k: K)
    requires |xs| > 0
    ensures Select(xs, key, k) == (if key(xs[0]) == k then [xs[0]] else []) + Select(xs[1..], key, k)
  {
  }

  /** Selecting from a single element keeps it exactly when its key matches. */
  lemma SelectOne<T, K>(x: T, key: T -> K, k: K)
    ensures Select([x], key, k) == if key(x) == k then [x] else []
  {
    assert [x][1..] == [];
  }

  /** A non-empty sequence is its front followed by its last element. */
  lemma LastSplit<T>(xs: seq<T>)
    requires |xs| > 0
    ensures xs == xs[..|xs| - 1] + [xs[|xs| - 1]]
  {
  }

  lemma SelectNonEmpty<T, K>(xs: seq<T>, key: T -> K, k: K)
    requires k in KeySet(xs, key)
    ensures |Select(xs, key, k)| > 0
  {
    var x :| x in xs && key(x) == k;
    SelectContains(xs, key, x);
  }

  lemma SelectOutsideKeySet<T, K>(xs: seq<T>, key: T -> K, k: K)
    requires k !in KeySet(xs, key)
    ensures Select(xs, key, k) == []
  {
  }

  /** The values of `m` for the keys `ks`, concatenated in order. */
  function ConcatValues<K, T>(ks: seq<K>, m: map<K, seq<T>>): seq<T>
    requires forall k :: k in ks ==> k in m
  {
    if |ks| == 0 then [] else m[ks[0]] + ConcatValues(ks[1..], m)
  }

  /** Grouping loses, duplicates and invents nothing: the groups of
      `GroupBy`, concatenated in insertion order, are a permutation of the
      input. */
  lemma GroupByPartition<T, K(!new)>(xs: seq<T>, key: T -> K)
    ensures var d := GroupBy(xs, key);
      multiset(ConcatValues(d.order, d.values)) == multiset(xs)
  {
    var d := GroupBy(xs, key);
    ConcatValuesAreSelects(xs, key, d.order, d.values);
    assert forall x :: x in xs ==> key(x) in KeySet(xs, key);
    SelectPartition(xs, key, d.order);
  }

  lemma {:induction false} ConcatValuesAreSelects<T, K>(
    xs: seq<T>, key: T -> K, ks: seq<K>, m: map<K, seq<T>>)
    requires forall k :: k in ks ==> k in m && m[k] == Select(xs, key, k)
    ensures ConcatValues(ks, m) == ConcatSelect(xs, key, ks)
  {
    if |ks| > 0 {
      ConcatValuesAreSelects(xs, key, ks[1..], m);
    }
  }

  // ---------------------------------------------------------------------------
  // Sums

  /** `xs.reduce((total, x) => total + w(x), 0)`. */
  function SumOf<T>(xs: seq<T>, w: T -> nat): nat {
    if |xs| == 0 then 0 else w(xs[0]) + SumOf(xs[1..], w)
  }

  lemma {:induction false} SumOfAppend<T>(a: seq<T>, b: seq<T>, w: T -> nat)
    ensures SumOf(a + b, w) == SumOf(a, w) + SumOf(b, w)
  {
    if |a| > 0 {
      assert (a + b)[1..] == a[1..] + b;
      SumOfAppend(a[1..], b, w);
    } else {
      assert a + b == b;
    }
  }

  /** A sum does not depend on the order of its terms. */
  lemma {:induction false} SumOfPermutation<T>(a: seq<T>, b: seq<T>, w: T -> nat)
    requires multiset(a) == multiset(b)
    ensures SumOf(a, w) == SumOf(b, w)
  {
    if |a| > 0 {
      assert a[0] in multiset(b);
      var j :| 0 <= j < |b| && b[j] == a[0];
      var rest := b[..j] + b[j + 1..];
      RemoveOne(a, b, j);
      SumOfPermutation(a[1..], rest, w);
      SumOfRemove(b, j, w);
    }
  }

  lemma RemoveOne<T>(a: seq<T>, b: seq<T>, j: int)
    requires multiset(a) == multiset(b) && |a| > 0 && 0 <= j < |b| && b[j] == a[0]
    ensures multiset(a[1..]) == multiset(b[..j] + b[j + 1..])
  {
    assert b == b[..j] + [b[j]] + b[j + 1..];
    assert a == [a[0]] + a[1..];
    assert multiset(a[1..]) == multiset(a) - multiset{a[0]};
    assert multiset(b[..j] + b[j + 1..]) == multiset(b) - multiset{b[j]};
  }

  /** `xs.map(f)`. */
  function Map<T, U>(xs: seq<T>, f: T -> U): (r: seq<U>)
    ensures |r| == |xs| && forall i :: 0 <= i < |xs| ==> r[i] == f(xs[i])
  {
    seq(|xs|, i requires 0 <= i < |xs| => f(xs[i]))
  }

  /** Mapping commutes with reordering: the images of two permutations of
      each other are permutations of each other. */
  lemma {:induction false} MapPermutation<T, U>(a: seq<T>, b: seq<T>, f: T -> U)
    requires multiset(a) == multiset(b)
    ensures multiset(Map(a, f)) == multiset(Map(b, f))
  {
    if |a| > 0 {
      assert a[0] in multiset(b);
      var j :| 0 <= j < |b| && b[j] == a[0];
      var rest := b[..j] + b[j + 1..];
      RemoveOne(a, b, j);
      MapPermutation(a[1..], rest, f);
      MapRemove(b, j, f);
      assert Map(a, f) == [f(a[0])] + Map(a[1..], f);
    } else {
      assert |b| == |multiset(b)| == 0;
    }
  }

  /** The image of a sequence is the image of one element and of the rest. */
  lemma MapRemove<T, U>(b: seq<T>, j: int, f: T -> U)
    requires 0 <= j < |b|
    ensures multiset(Map(b, f)) == multiset{f(b[j])} + multiset(Map(b[..j] + b[j + 1..], f))
  {
    var pre, post := Map(b[..j], f), Map(b[j + 1..], f);
    assert Map(b, f) == pre + [f(b[j])] + post;
    assert Map(b[..j] + b[j + 1..], f) == pre + post;
  }

  lemma {:induction false} SumOfRemove<T>(b: seq<T>, j: int, w: T -> nat)
    requires 0 <= j < |b|
    ensures SumOf(b, w) == w(b[j]) + SumOf(b[..j] + b[j + 1..], w)
  {
    var rest := b[..j] + b[j + 1..];
    if j == 0 {
      assert rest == b[1..];
    } else {
      SumOfRemove(b[1..], j - 1, w);
      assert rest[0] == b[0];
      assert rest[1..] == b[1..][..j - 1] + b[1..][j..];
    }
  }
}
