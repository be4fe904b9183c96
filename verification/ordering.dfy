/** The byte order Go puts on strings, the lexicographic order on composite keys,
    and sorting by a key.

    The source sorts with `sort.Slice`, which promises a sorted permutation and
    nothing about ties. `SortIsDetermined` is why the choice of algorithm does not
    matter here: whenever the keys are distinct there is exactly one answer. */
module Ordering {

  type Key = seq<string>

  /** Go's `<=` on strings. */
  predicate StrLe(a: string, b: string)
  {
    a == [] || (b != [] && (a[0] < b[0] || (a[0] == b[0] && StrLe(a[1..], b[1..]))))
  }

  predicate StrLt(a: string, b: string)
  {
    StrLe(a, b) && a != b
  }

  /** Composite keys compare component by component, the first difference decides. */
  predicate KeyLe(a: Key, b: Key)
  {
    a == [] || (b != [] && if a[0] == b[0] then KeyLe(a[1..], b[1..]) else StrLe(a[0], b[0]))
  }

  lemma {:induction false} StrLeTotal(a: string, b: string)
    ensures StrLe(a, b) || StrLe(b, a)
  {
    if a != [] && b != [] {
      StrLeTotal(a[1..], b[1..]);
    }
  }

  lemma {:induction false} StrLeAntisymmetric(a: string, b: string)
    requires StrLe(a, b) && StrLe(b, a)
    ensures a == b
  {
    if a != [] && b != [] {
      StrLeAntisymmetric(a[1..], b[1..]);
      assert a == [a[0]] + a[1..] && b == [b[0]] + b[1..];
    }
  }

  lemma {:induction false} StrLeTransitive(a: string, b: string, c: string)
    requires StrLe(a, b) && StrLe(b, c)
    ensures StrLe(a, c)
  {
    if a != [] && b != [] && c != [] && a[0] == b[0] == c[0] {
      StrLeTransitive(a[1..], b[1..], c[1..]);
    }
  }

  lemma {:induction false} KeyLeTotal(a: Key, b: Key)
    ensures KeyLe(a, b) || KeyLe(b, a)
  {
    if a != [] && b != [] {
      StrLeTotal(a[0], b[0]);
      KeyLeTotal(a[1..], b[1..]);
    }
  }

  lemma {:induction false} KeyLeAntisymmetric(a: Key, b: Key)
    requires KeyLe(a, b) && KeyLe(b, a)
    ensures a == b
  {
    if a != [] && b != [] {
      if a[0] == b[0] {
        KeyLeAntisymmetric(a[1..], b[1..]);
        assert a == [a[0]] + a[1..] && b == [b[0]] + b[1..];
      } else {
        StrLeAntisymmetric(a[0], b[0]);
      }
    }
  }

  lemma {:induction false} KeyLeTransitive(a: Key, b: Key, c: Key)
    requires KeyLe(a, b) && KeyLe(b, c)
    ensures KeyLe(a, c)
  {
    if a != [] && b != [] && c != [] {
      if a[0] == b[0] == c[0] {
        KeyLeTransitive(a[1..], b[1..], c[1..]);
      } else if a[0] == c[0] {
        StrLeAntisymmetric(a[0], b[0]);
      } else if a[0] != b[0] && b[0] != c[0] {
        StrLeTransitive(a[0], b[0], c[0]);
      }
    }
  }

  ghost predicate SortedBy<T>(key: T -> Key, s: seq<T>)
  {
    forall i, j :: 0 <= i < j < |s| ==> KeyLe(key(s[i]), key(s[j]))
  }

  ghost predicate DistinctKeys<T>(key: T -> Key, s: seq<T>)
  {
    forall i, j :: 0 <= i < j < |s| ==> key(s[i]) != key(s[j])
  }

  function Insert<T>(key: T -> Key, x: T, s: seq<T>): seq<T>
  {
    if s == [] then [x]
    else if KeyLe(key(x), key(s[0])) then [x] + s
    else [s[0]] + Insert(key, x, s[1..])
  }

  function SortBy<T>(key: T -> Key, s: seq<T>): seq<T>
  {
    if s == [] then [] else Insert(key, s[0], SortBy(key, s[1..]))
  }

  lemma {:induction false} InsertMembers<T>(key: T -> Key, x: T, s: seq<T>)
    ensures multiset(Insert(key, x, s)) == multiset{x} + multiset(s)
  {
    if s != [] {
      InsertMembers(key, x, s[1..]);
      assert s == [s[0]] + s[1..];
    }
  }

  lemma PrependSorted<T>(key: T -> Key, x: T, s: seq<T>)
    requires SortedBy(key, s) && forall y :: y in s ==> KeyLe(key(x), key(y))
    ensures SortedBy(key, [x] + s)
  {
  }

  lemma {:induction false} InsertSorts<T>(key: T -> Key, x: T, s: seq<T>)
    requires SortedBy(key, s)
    ensures SortedBy(key, Insert(key, x, s))
  {
    if s != [] {
      assert s == [s[0]] + s[1..];
      if KeyLe(key(x), key(s[0])) {
        forall j | 0 <= j < |s| ensures KeyLe(key(x), key(s[j])) {
          if j > 0 { KeyLeTransitive(key(x), key(s[0]), key(s[j])); }
        }
        PrependSorted(key, x, s);
      } else {
        KeyLeTotal(key(x), key(s[0]));
        InsertSorts(key, x, s[1..]);
        InsertMembers(key, x, s[1..]);
        var r := Insert(key, x, s[1..]);
        forall y | y in r ensures KeyLe(key(s[0]), key(y)) {
          assert y in multiset(r);
        }
        PrependSorted(key, s[0], r);
      }
    }
  }

  lemma {:induction false} SortBySorts<T>(key: T -> Key, s: seq<T>)
    ensures SortedBy(key, SortBy(key, s))
    ensures multiset(SortBy(key, s)) == multiset(s)
    ensures |SortBy(key, s)| == |s|
  {
    if s != [] {
      SortBySorts(key, s[1..]);
      InsertSorts(key, s[0], SortBy(key, s[1..]));
      InsertMembers(key, s[0], SortBy(key, s[1..]));
      assert s == [s[0]] + s[1..];
    }
    assert |multiset(SortBy(key, s))| == |multiset(s)|;
  }

  lemma SortByKeepsMembers<T>(key: T -> Key, s: seq<T>, x: T)
    ensures x in SortBy(key, s) <==> x in s
  {
    SortBySorts(key, s);
    assert x in multiset(SortBy(key, s)) <==> x in multiset(s);
  }

  /** Elements with equal keys are equal: distinct keys are one way to have it. */
  ghost predicate KeyIdentifies<T>(key: T -> Key, s: seq<T>)
  {
    forall i, j :: 0 <= i < |s| && 0 <= j < |s| && key(s[i]) == key(s[j]) ==> s[i] == s[j]
  }

  lemma SortedHeads<T>(key: T -> Key, a: seq<T>, b: seq<T>)
    requires SortedBy(key, a) && SortedBy(key, b)
    requires multiset(a) == multiset(b) && a != [] && b != []
    ensures KeyLe(key(a[0]), key(b[0]))
  {
    assert b[0] in multiset(a);
    var j :| 0 <= j < |a| && a[j] == b[0];
    KeyLeTotal(key(a[0]), key(a[0]));
  }

  lemma DropHead<T>(a: seq<T>)
    requires a != []
    ensures multiset(a[1..]) == multiset(a) - multiset{a[0]}
  {
    assert a == [a[0]] + a[1..];
  }

  lemma HeadsAgree<T>(key: T -> Key, a: seq<T>, b: seq<T>)
    requires SortedBy(key, a) && SortedBy(key, b) && KeyIdentifies(key, a)
    requires multiset(a) == multiset(b) && a != [] && b != []
    ensures a[0] == b[0]
  {
    SortedHeads(key, a, b);
    SortedHeads(key, b, a);
    KeyLeAntisymmetric(key(a[0]), key(b[0]));
    assert b[0] in multiset(a);
  }

  /** Two sorted permutations of the same elements agree when keys identify them. */
  lemma {:induction false} SortedUnique<T>(key: T -> Key, a: seq<T>, b: seq<T>)
    requires SortedBy(key, a) && SortedBy(key, b)
    requires KeyIdentifies(key, a)
    requires multiset(a) == multiset(b)
    ensures a == b
  {
    assert |multiset(a)| == |a| && |multiset(b)| == |b|;
    if a != [] {
      HeadsAgree(key, a, b);
      DropHead(a);
      DropHead(b);
      SortedUnique(key, a[1..], b[1..]);
      assert a == [a[0]] + a[1..] && b == [b[0]] + b[1..];
    }
  }

  /** Distinctness of keys is a property of the elements, not of their order. */
  lemma DistinctKeysPermute<T>(key: T -> Key, a: seq<T>, b: seq<T>)
    requires DistinctKeys(key, a)
    requires multiset(a) == multiset(b)
    ensures DistinctKeys(key, b)
  {
    forall i, j | 0 <= i < j < |b| ensures key(b[i]) != key(b[j]) {
      if key(b[i]) == key(b[j]) {
        assert b[i] in multiset(a) && b[j] in multiset(a);
        var p :| 0 <= p < |a| && a[p] == b[i];
        var q :| 0 <= q < |a| && a[q] == b[j];
        assert p == q;
        TwiceIsTwo(b, i, j);
        AtMostOnce(key, a, p);
        assert false;
      }
    }
  }

  lemma TwiceIsTwo<T>(s: seq<T>, i: nat, j: nat)
    requires i < j < |s| && s[i] == s[j]
    ensures multiset(s)[s[i]] >= 2
  {
    assert s == s[..j] + [s[j]] + s[j+1..];
    assert s[i] in s[..j];
    assert multiset(s) == multiset(s[..j]) + multiset{s[j]} + multiset(s[j+1..]);
  }

  lemma AtMostOnce<T>(key: T -> Key, s: seq<T>, p: nat)
    requires p < |s| && DistinctKeys(key, s)
    ensures multiset(s)[s[p]] == 1
  {
    assert s == s[..p] + [s[p]] + s[p+1..];
    assert s[p] !in s[..p] && s[p] !in s[p+1..];
    assert multiset(s) == multiset(s[..p]) + multiset{s[p]} + multiset(s[p+1..]);
  }

  /** What `sort.Slice` returns is determined when keys are distinct: any sorted
      permutation is the one `SortBy` computes. */
  lemma SortIsDetermined<T>(key: T -> Key, s: seq<T>, sorted: seq<T>)
    requires DistinctKeys(key, s)
    requires SortedBy(key, sorted) && multiset(sorted) == multiset(s)
    ensures sorted == SortBy(key, s)
  {
    SortBySorts(key, s);
    DistinctKeysPermute(key, s, sorted);
    SortedUnique(key, sorted, SortBy(key, s));
  }

  /** Sorting forgets the input order. */
  lemma SortForgetsOrder<T>(key: T -> Key, a: seq<T>, b: seq<T>)
    requires DistinctKeys(key, a)
    requires multiset(a) == multiset(b)
    ensures SortBy(key, a) == SortBy(key, b)
  {
    SortBySorts(key, a);
    DistinctKeysPermute(key, a, b);
    SortIsDetermined(key, b, SortBy(key, a));
  }

  /** With distinct keys a sorted list is determined by what is in it. */
  lemma SortedSetsAgree<T>(key: T -> Key, u: seq<T>, v: seq<T>)
    requires SortedBy(key, u) && SortedBy(key, v)
    requires DistinctKeys(key, u) && DistinctKeys(key, v)
    requires forall s :: s in u <==> s in v
    ensures u == v
  {
    forall s ensures multiset(u)[s] == multiset(v)[s] {
      if s in u {
        var i :| 0 <= i < |u| && u[i] == s;
        var j :| 0 <= j < |v| && v[j] == s;
        AtMostOnce(key, u, i);
        AtMostOnce(key, v, j);
      }
    }
    assert multiset(u) == multiset(v);
    SortedUnique(key, u, v);
  }

  // Distinct keys and the set of them

  ghost function Image<T, K>(f: T -> K, s: seq<T>): set<K>
  {
    set x | x in s :: f(x)
  }

  lemma HasMember<T>(s: seq<T>)
    ensures s != [] ==> exists x :: x in s
  {
    if s != [] { assert s[0] in s; }
  }

  /** As many different values as elements, when no two elements share one. */
  lemma {:induction false} ImageSize<T, K>(f: T -> K, s: seq<T>)
    requires forall i, j :: 0 <= i < j < |s| ==> f(s[i]) != f(s[j])
    ensures |Image(f, s)| == |s|
  {
    if s == [] {
      assert Image(f, s) == {};
    } else {
      var front, last := s[..|s| - 1], s[|s| - 1];
      assert forall i :: 0 <= i < |front| ==> front[i] == s[i];
      ImageSize(f, front);
      assert s == front + [last];
      assert Image(f, s) == Image(f, front) + {f(last)};
      assert f(last) !in Image(f, front);
    }
  }

  /** Sorting strings, where equal keys are equal elements, needs no distinctness. */
  function StrKey(s: string): Key { [s] }

  function SortStrings(s: seq<string>): seq<string>
  {
    SortBy(StrKey, s)
  }

  lemma SortStringsForgetsOrder(a: seq<string>, b: seq<string>)
    ensures multiset(a) == multiset(b) <==> SortStrings(a) == SortStrings(b)
  {
    SortBySorts(StrKey, a);
    SortBySorts(StrKey, b);
    if multiset(a) == multiset(b) {
      SortedUnique(StrKey, SortStrings(a), SortStrings(b));
    }
  }

  // Flattening a list of lists, as a loop that appends does

  function FlatMap<A, B>(f: A -> seq<B>, s: seq<A>): seq<B>
  {
    if s == [] then [] else FlatMap(f, s[..|s| - 1]) + f(s[|s| - 1])
  }

  lemma FlatMapStep<A, B>(f: A -> seq<B>, s: seq<A>, i: nat)
    requires i < |s|
    ensures FlatMap(f, s[..i + 1]) == FlatMap(f, s[..i]) + f(s[i])
  {
    assert s[..i + 1][..i] == s[..i];
  }

  lemma {:induction false} FlatMapMembers<A, B>(f: A -> seq<B>, s: seq<A>, b: B)
    ensures b in FlatMap(f, s) <==> exists a :: a in s && b in f(a)
  {
    if s != [] {
      FlatMapMembers(f, s[..|s| - 1], b);
      assert s == s[..|s| - 1] + [s[|s| - 1]];
    }
  }

  lemma {:induction false} FlatMapSplit<A, B>(f: A -> seq<B>, a: seq<A>, b: seq<A>)
    ensures FlatMap(f, a + b) == FlatMap(f, a) + FlatMap(f, b)
  {
    if b == [] {
      assert a + b == a;
    } else {
      var front := b[..|b| - 1];
      FlatMapSplit(f, a, front);
      assert (a + b)[..|a + b| - 1] == a + front;
    }
  }

  lemma FlatMapOne<A, B>(f: A -> seq<B>, x: A)
    ensures FlatMap(f, [x]) == f(x)
  {
  }

  lemma {:induction false} FlatMapPermute<A, B>(f: A -> seq<B>, a: seq<A>, b: seq<A>)
    requires multiset(a) == multiset(b)
    ensures multiset(FlatMap(f, a)) == multiset(FlatMap(f, b))
  {
    assert |multiset(a)| == |a| && |multiset(b)| == |b|;
    if a != [] {
      assert a[0] in multiset(b);
      var i :| 0 <= i < |b| && b[i] == a[0];
      RemoveOne(a, b, i);
      FlatMapPermute(f, a[1..], b[..i] + b[i + 1..]);
      assert a == [a[0]] + a[1..] && b == b[..i] + ([b[i]] + b[i + 1..]);
      FlatMapSplit(f, [a[0]], a[1..]);
      FlatMapSplit(f, b[..i], [b[i]] + b[i + 1..]);
      FlatMapSplit(f, [b[i]], b[i + 1..]);
      FlatMapSplit(f, b[..i], b[i + 1..]);
    }
  }

  lemma RemoveOne<A>(a: seq<A>, b: seq<A>, i: nat)
    requires multiset(a) == multiset(b) && a != [] && i < |b| && b[i] == a[0]
    ensures multiset(a[1..]) == multiset(b[..i] + b[i + 1..])
  {
    DropHead(a);
    assert b == b[..i] + ([b[i]] + b[i + 1..]);
    assert multiset(b) == multiset(b[..i]) + (multiset{b[i]} + multiset(b[i + 1..]));
  }
}
