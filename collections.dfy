/** Sequence helpers shared by every registry of the model: the JavaScript
    `filter` (by a key that must differ, or must match), `find` (first match)
    and an order-preserving sub-sequence relation. */
module Collections {

  datatype Option<T> = None | Some(value: T)

  /** The items whose key differs from `k`, in their original order:
      `items.filter(x => key(x) !== k)`. */
  function Exclude<T(!new), K(==)>(items: seq<T>, key: T -> K, k: K): (r: seq<T>)
    ensures |r| <= |items|
  {
    if items == [] then []
    else
      var init, last := items[..|items| - 1], items[|items| - 1];
      assert items == init + [last];
      if key(last) != k then Exclude(init, key, k) + [last] else Exclude(init, key, k)
  }

  /** The items whose key equals `k`, in their original order. */
  function Select<T(!new), K(==)>(items: seq<T>, key: T -> K, k: K): (r: seq<T>)
    ensures |r| <= |items|
  {
    if items == [] then []
    else
      var init, last := items[..|items| - 1], items[|items| - 1];
      assert items == init + [last];
      if key(last) == k then Select(init, key, k) + [last] else Select(init, key, k)
  }

  /** `Exclude` keeps exactly the items whose key differs from `k`. */
  lemma {:induction false} ExcludeMembers<T(!new), K>(items: seq<T>, key: T -> K, k: K)
    ensures forall x :: x in Exclude(items, key, k) <==> x in items && key(x) != k
    decreases |items|
  {
    if items != [] {
      var init, last := items[..|items| - 1], items[|items| - 1];
      assert items == init + [last];
      ExcludeMembers(init, key, k);
    }
  }

  /** `Select` keeps exactly the items whose key equals `k`. */
  lemma {:induction false} SelectMembers<T(!new), K>(items: seq<T>, key: T -> K, k: K)
    ensures forall x :: x in Select(items, key, k) <==> x in items && key(x) == k
    decreases |items|
  {
    if items != [] {
      var init, last := items[..|items| - 1], items[|items| - 1];
      assert items == init + [last];
      SelectMembers(init, key, k);
    }
  }

  /** The first item satisfying `p`, as `Array.prototype.find` returns it. */
  function Find<T>(items: seq<T>, p: T -> bool): (r: Option<T>)
    ensures r.None? <==> forall i :: 0 <= i < |items| ==> !p(items[i])
    ensures r.Some? ==> exists i :: 0 <= i < |items| && items[i] == r.value && p(items[i])
                                    && forall j :: 0 <= j < i ==> !p(items[j])
  {
    if items == [] then None
    else if p(items[0]) then Some(items[0])
    else
      var r := Find(items[1..], p);
      assert forall i :: 1 <= i < |items| ==> items[i] == items[1..][i - 1];
      r
  }

  /** `a` is obtained from `b` by deleting elements, without reordering. */
  ghost predicate IsSubsequence<T>(a: seq<T>, b: seq<T>)
    decreases |b|
  {
    if a == [] then true
    else if b == [] then false
    else (a[|a| - 1] == b[|b| - 1] && IsSubsequence(a[..|a| - 1], b[..|b| - 1]))
         || IsSubsequence(a, b[..|b| - 1])
  }

  ghost predicate NoDuplicates<T>(s: seq<T>) {
    forall i, j :: 0 <= i < j < |s| ==> s[i] != s[j]
  }

  /** Filtering distributes over concatenation, so it never reorders. */
  lemma {:induction false} ExcludeAppend<T(!new), K>(a: seq<T>, b: seq<T>, key: T -> K, k: K)
    ensures Exclude(a + b, key, k) == Exclude(a, key, k) + Exclude(b, key, k)
    decreases |b|
  {
    if b == [] {
      assert a + b == a;
    } else {
      var init, last := b[..|b| - 1], b[|b| - 1];
      assert a + b == (a + init) + [last];
      assert (a + b)[..|a + b| - 1] == a + init;
      ExcludeAppend(a, init, key, k);
    }
  }

  /** Selecting distributes over concatenation. */
  lemma {:induction false} SelectAppend<T(!new), K>(a: seq<T>, b: seq<T>, key: T -> K, k: K)
    ensures Select(a + b, key, k) == Select(a, key, k) + Select(b, key, k)
    decreases |b|
  {
    if b == [] {
      assert a + b == a;
    } else {
      var init, last := b[..|b| - 1], b[|b| - 1];
      assert a + b == (a + init) + [last];
      assert (a + b)[..|a + b| - 1] == a + init;
      SelectAppend(a, init, key, k);
    }
  }

  /** What `Exclude` keeps is a sub-sequence of its input: the surviving
      items stay in their original relative order. */
  lemma {:induction false} ExcludeIsSubsequence<T(!new), K>(items: seq<T>, key: T -> K, k: K)
    ensures IsSubsequence(Exclude(items, key, k), items)
    decreases |items|
  {
    if items != [] {
      var init, last := items[..|items| - 1], items[|items| - 1];
      ExcludeIsSubsequence(init, key, k);
      var r := Exclude(items, key, k);
      if key(last) != k {
        assert r == Exclude(init, key, k) + [last];
        assert r[..|r| - 1] == Exclude(init, key, k);
      } else {
        assert r == Exclude(init, key, k);
        if r != [] {
          assert IsSubsequence(r, init);
        }
      }
    }
  }

  /** What `Select` keeps is a sub-sequence of its input. */
  lemma {:induction false} SelectIsSubsequence<T(!new), K>(items: seq<T>, key: T -> K, k: K)
    ensures IsSubsequence(Select(items, key, k), items)
    decreases |items|
  {
    if items != [] {
      var init, last := items[..|items| - 1], items[|items| - 1];
      SelectIsSubsequence(init, key, k);
      var r := Select(items, key, k);
      if key(last) == k {
        assert r == Select(init, key, k) + [last];
        assert r[..|r| - 1] == Select(init, key, k);
      } else {
        assert r == Select(init, key, k);
      }
    }
  }

  lemma {:induction false} SubsequenceTransitive<T>(a: seq<T>, b: seq<T>, c: seq<T>)
    requires IsSubsequence(a, b) && IsSubsequence(b, c)
    ensures IsSubsequence(a, c)
    decreases |c|
  {
    if a != [] && b != [] && c != [] {
      var a', b', c' := a[..|a| - 1], b[..|b| - 1], c[..|c| - 1];
      if b[|b| - 1] == c[|c| - 1] && IsSubsequence(b', c') {
        if a[|a| - 1] == b[|b| - 1] && IsSubsequence(a', b') {
          SubsequenceTransitive(a', b', c');
        } else {
          SubsequenceTransitive(a, b', c');
        }
      } else {
        SubsequenceTransitive(a, b, c');
      }
    }
  }

  /** Every element of a sub-sequence is an element of the sequence. */
  lemma {:induction false} SubsequenceMembers<T>(a: seq<T>, b: seq<T>)
    requires IsSubsequence(a, b)
    ensures forall x :: x in a ==> x in b
    decreases |b|
  {
    if a != [] && b != [] {
      var a', b' := a[..|a| - 1], b[..|b| - 1];
      assert a == a' + [a[|a| - 1]];
      assert b == b' + [b[|b| - 1]];
      if a[|a| - 1] == b[|b| - 1] && IsSubsequence(a', b') {
        SubsequenceMembers(a', b');
      } else {
        SubsequenceMembers(a, b');
      }
    }
  }

  /** Every item whose key differs from `k` survives with its multiplicity;
      the others are all gone. */
  lemma {:induction false} ExcludeMultiplicity<T(!new), K>(items: seq<T>, key: T -> K, k: K, x: T)
    ensures multiset(Exclude(items, key, k))[x] == if key(x) == k then 0 else multiset(items)[x]
    decreases |items|
  {
    if items != [] {
      var init, last := items[..|items| - 1], items[|items| - 1];
      assert items == init + [last];
      ExcludeMultiplicity(init, key, k, x);
    }
  }

  /** Select and Exclude split the input: together they hold every item once. */
  lemma {:induction false} SelectExcludePartition<T(!new), K>(items: seq<T>, key: T -> K, k: K)
    ensures multiset(Select(items, key, k)) + multiset(Exclude(items, key, k)) == multiset(items)
    decreases |items|
  {
    if items != [] {
      var init, last := items[..|items| - 1], items[|items| - 1];
      assert items == init + [last];
      SelectExcludePartition(init, key, k);
    }
  }

  /** Filtering out a key nothing carries is the identity. */
  lemma {:induction false} ExcludeAbsent<T(!new), K>(items: seq<T>, key: T -> K, k: K)
    requires forall i :: 0 <= i < |items| ==> key(items[i]) != k
    ensures Exclude(items, key, k) == items
    decreases |items|
  {
    if items != [] {
      var init, last := items[..|items| - 1], items[|items| - 1];
      assert items == init + [last];
      assert forall i :: 0 <= i < |init| ==> init[i] == items[i];
      ExcludeAbsent(init, key, k);
    }
  }
}
