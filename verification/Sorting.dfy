/**
Python's `sorted(items, key=...)`.  Every sort key of the modelled code is an
int, a string, or a tuple of ints followed by a string, so a key is written as a
sequence of ints and compared lexicographically.
*/
module Sorting {

  type Key = seq<int>

  predicate Le(a: Key, b: Key)
  {
    a == [] || (b != [] && (a[0] < b[0] || (a[0] == b[0] && Le(a[1..], b[1..]))))
  }

  lemma {:induction false} LeTotal(a: Key, b: Key)
    ensures Le(a, b) || Le(b, a)
  {
    if a != [] && b != [] { LeTotal(a[1..], b[1..]); }
  }

  lemma {:induction false} LeAntisymmetric(a: Key, b: Key)
    requires Le(a, b) && Le(b, a)
    ensures a == b
  {
    if a != [] && b != [] {
      LeAntisymmetric(a[1..], b[1..]);
      assert a == [a[0]] + a[1..] && b == [b[0]] + b[1..];
    }
  }

  lemma {:induction false} LeTransitive(a: Key, b: Key, c: Key)
    requires Le(a, b) && Le(b, c)
    ensures Le(a, c)
  {
    if a != [] && b != [] && a[0] == b[0] == c[0] { LeTransitive(a[1..], b[1..], c[1..]); }
  }

  /** The code points of a string, so that string order is `Le` on them. */
  function Chars(s: string): Key
  {
    seq(|s|, i requires 0 <= i < |s| => s[i] as int)
  }

  lemma {:induction false} CharsInjective(s: string, t: string)
    requires Chars(s) == Chars(t)
    ensures s == t
  {
    assert |s| == |Chars(s)| == |Chars(t)| == |t|;
    forall i | 0 <= i < |s| ensures s[i] == t[i] {
      assert Chars(s)[i] == s[i] as int && Chars(t)[i] == t[i] as int;
    }
  }

  predicate Sorted<T>(s: seq<T>, key: T -> Key)
  {
    forall i, j :: 0 <= i < j < |s| ==> Le(key(s[i]), key(s[j]))
  }

  function Insert<T>(x: T, s: seq<T>, key: T -> Key): seq<T>
  {
    if s == [] || Le(key(x), key(s[0])) then [x] + s else [s[0]] + Insert(x, s[1..], key)
  }

  /** The stable sort of `s` by `key`. */
  function SortBy<T>(s: seq<T>, key: T -> Key): seq<T>
  {
    if s == [] then [] else Insert(s[0], SortBy(s[1..], key), key)
  }

  lemma {:induction false} InsertFacts<T>(x: T, s: seq<T>, key: T -> Key)
    requires Sorted(s, key)
    ensures Sorted(Insert(x, s, key), key)
    ensures multiset(Insert(x, s, key)) == multiset{x} + multiset(s)
  {
    var r := Insert(x, s, key);
    if s == [] {
    } else if Le(key(x), key(s[0])) {
      forall j | 0 <= j < |s| ensures Le(key(x), key(s[j])) {
        if j > 0 { LeTransitive(key(x), key(s[0]), key(s[j])); }
      }
    } else {
      InsertFacts(x, s[1..], key);
      LeTotal(key(x), key(s[0]));
      var t := Insert(x, s[1..], key);
      assert s == [s[0]] + s[1..];
      forall j | 0 <= j < |t| ensures Le(key(s[0]), key(t[j])) {
        assert t[j] in multiset(t);
        assert t[j] == x || t[j] in multiset(s[1..]);
      }
    }
  }

  lemma {:induction false} SortFacts<T>(s: seq<T>, key: T -> Key)
    ensures Sorted(SortBy(s, key), key)
    ensures multiset(SortBy(s, key)) == multiset(s)
    ensures |SortBy(s, key)| == |s|
    ensures forall x :: x in SortBy(s, key) <==> x in s
  {
    hide Insert;
    if s != [] {
      SortFacts(s[1..], key);
      InsertFacts(s[0], SortBy(s[1..], key), key);
      assert s == [s[0]] + s[1..];
    }
    assert |multiset(SortBy(s, key))| == |multiset(s)|;
    forall x ensures x in SortBy(s, key) <==> x in s {
      assert x in SortBy(s, key) <==> x in multiset(SortBy(s, key));
      assert x in s <==> x in multiset(s);
    }
  }

  ghost predicate InjectiveOn<T(!new)>(s: seq<T>, key: T -> Key)
  {
    forall x, y :: x in s && y in s && key(x) == key(y) ==> x == y
  }

  lemma {:induction false} HeadIsLeast<T>(s: seq<T>, x: T, key: T -> Key)
    requires Sorted(s, key) && x in s
    ensures Le(key(s[0]), key(x))
  {
    var i :| 0 <= i < |s| && s[i] == x;
    LeTotal(key(s[0]), key(s[0]));
  }

  lemma {:induction false} TailMultiset<T>(s: seq<T>)
    requires s != []
    ensures multiset(s[1..]) == multiset(s) - multiset{s[0]}
  {
    assert s == [s[0]] + s[1..];
  }

  lemma {:induction false} HeadsAgree<T(!new)>(a: seq<T>, b: seq<T>, key: T -> Key)
    requires a != [] && b != [] && multiset(a) == multiset(b)
    requires Sorted(a, key) && Sorted(b, key) && InjectiveOn(a, key)
    ensures a[0] == b[0] && multiset(a[1..]) == multiset(b[1..])
  {
    assert a[0] == b[0] by {
      assert a[0] in multiset(b) && b[0] in multiset(a);
      HeadIsLeast(a, b[0], key);
      HeadIsLeast(b, a[0], key);
      LeAntisymmetric(key(a[0]), key(b[0]));
    }
    TailMultiset(a);
    TailMultiset(b);
  }

  /** A sorted arrangement is unique when distinct elements have distinct keys. */
  lemma {:induction false} SortedUnique<T(!new)>(a: seq<T>, b: seq<T>, key: T -> Key)
    requires multiset(a) == multiset(b)
    requires Sorted(a, key) && Sorted(b, key)
    requires InjectiveOn(a, key)
    ensures a == b
  {
    assert |a| == |multiset(a)| == |multiset(b)| == |b|;
    if a != [] {
      HeadsAgree(a, b, key);
      SortedUnique(a[1..], b[1..], key);
      assert a == [a[0]] + a[1..] && b == [b[0]] + b[1..];
    }
  }

  /** Sorting forgets the order of its input when keys tell elements apart. */
  lemma {:induction false} SortForgetsOrder<T(!new)>(s: seq<T>, t: seq<T>, key: T -> Key)
    requires multiset(s) == multiset(t)
    requires InjectiveOn(s, key)
    ensures SortBy(s, key) == SortBy(t, key)
  {
    SortFacts(s, key);
    SortFacts(t, key);
    SortedUnique(SortBy(s, key), SortBy(t, key), key);
  }

  lemma AlreadySorted<T>(a: T, b: T, key: T -> Key)
    requires Le(key(a), key(b))
    ensures SortBy([a, b], key) == [a, b]
  {
    assert [a, b][1..] == [b] && [b][1..] == [];
    assert SortBy([b], key) == Insert(b, SortBy([], key), key) == [b];
    assert SortBy([a, b], key) == Insert(a, [b], key);
  }

  predicate Distinct<T(==)>(s: seq<T>)
  {
    forall i, j :: 0 <= i < j < |s| ==> s[i] != s[j]
  }

  function Elements<T(==)>(s: seq<T>): set<T>
  {
    set x | x in s
  }

  /** `sorted({...})` of a set of strings. */
  predicate Lists(s: seq<string>, elements: set<string>)
  {
    Sorted(s, Chars) && Distinct(s) && Elements(s) == elements
  }

  lemma {:induction false} ListsUnique(s: seq<string>, t: seq<string>, elements: set<string>)
    requires Lists(s, elements) && Lists(t, elements)
    ensures s == t
  {
    DistinctMultiset(s);
    DistinctMultiset(t);
    forall x, y | x in s && y in s && Chars(x) == Chars(y) ensures x == y { CharsInjective(x, y); }
    SortedUnique(s, t, Chars);
  }

  lemma {:induction false} DistinctMultiset<T>(s: seq<T>)
    requires Distinct(s)
    ensures multiset(s) == multiset(Elements(s))
  {
    if s != [] {
      DistinctMultiset(s[1..]);
      assert s == [s[0]] + s[1..];
      assert s[0] !in s[1..];
      assert Elements(s) == {s[0]} + Elements(s[1..]);
    }
  }

  lemma DistinctSize<T>(s: seq<T>)
    requires Distinct(s)
    ensures |Elements(s)| == |s|
  {
    DistinctMultiset(s);
    assert |s| == |multiset(s)| == |multiset(Elements(s))|;
  }

  /** The strings of `s`, each once, in order. */
  function SortedSet(s: seq<string>): seq<string>
  {
    if s == [] then []
    else
      var r := SortedSet(s[1..]);
      if s[0] in r then r else Insert(s[0], r, Chars)
  }

  lemma {:induction false} SortedSetLists(s: seq<string>)
    ensures Lists(SortedSet(s), Elements(s))
  {
    if s != [] {
      SortedSetLists(s[1..]);
      var r := SortedSet(s[1..]);
      assert s == [s[0]] + s[1..];
      assert Elements(s) == {s[0]} + Elements(s[1..]);
      assert s[0] in r <==> s[0] in Elements(r);
      if s[0] !in r {
        InsertFacts(s[0], r, Chars);
        InsertDistinct(s[0], r);
      }
    }
  }

  lemma {:induction false} InsertDistinct(x: string, s: seq<string>)
    requires Distinct(s) && x !in s && Sorted(s, Chars)
    ensures Distinct(Insert(x, s, Chars)) && Elements(Insert(x, s, Chars)) == {x} + Elements(s)
  {
    if s != [] && !Le(Chars(x), Chars(s[0])) {
      InsertDistinct(x, s[1..]);
      assert s == [s[0]] + s[1..];
      var t := Insert(x, s[1..], Chars);
      assert s[0] !in Elements(t);
      assert Elements(s) == {s[0]} + Elements(s[1..]);
      forall y ensures y in Elements([s[0]] + t) <==> y in {x} + Elements(s) {
        assert y in Elements(t) <==> y in t;
      }
    } else {
      forall y ensures y in Elements([x] + s) <==> y in {x} + Elements(s) {}
    }
  }

  lemma DistinctPermutation<T>(a: seq<T>, b: seq<T>)
    requires Distinct(a) && multiset(a) == multiset(b)
    ensures Distinct(b)
  {
    DistinctMultiset(a);
    forall i, j | 0 <= i < j < |b| ensures b[i] != b[j] {
      assert b == b[..i] + [b[i]] + b[i + 1..j] + [b[j]] + b[j + 1..];
      assert b[i] == b[j] ==> multiset(b)[b[i]] >= 2;
    }
  }

  function Mapped<A, B>(s: seq<A>, f: A -> B): (r: seq<B>)
    ensures |r| == |s| && forall i :: 0 <= i < |s| ==> r[i] == f(s[i])
  {
    seq(|s|, i requires 0 <= i < |s| => f(s[i]))
  }

  lemma {:induction false} InsertKeepsImages<A, B>(x: A, s: seq<A>, f: A -> B, key: A -> Key)
    ensures multiset(Mapped(Insert(x, s, key), f)) == multiset{f(x)} + multiset(Mapped(s, f))
  {
    if s == [] || Le(key(x), key(s[0])) {
      assert Mapped(Insert(x, s, key), f) == [f(x)] + Mapped(s, f);
    } else {
      InsertKeepsImages(x, s[1..], f, key);
      assert Mapped(Insert(x, s, key), f) == [f(s[0])] + Mapped(Insert(x, s[1..], key), f);
      assert Mapped(s, f) == [f(s[0])] + Mapped(s[1..], f);
    }
  }

  lemma {:induction false} SortKeepsImages<A, B>(s: seq<A>, f: A -> B, key: A -> Key)
    ensures multiset(Mapped(SortBy(s, key), f)) == multiset(Mapped(s, f))
  {
    if s != [] {
      SortKeepsImages(s[1..], f, key);
      InsertKeepsImages(s[0], SortBy(s[1..], key), f, key);
      assert Mapped(s, f) == [f(s[0])] + Mapped(s[1..], f);
    }
  }

  lemma {:induction false} InsertMapped<A, B>(x: A, s: seq<A>, f: A -> B, key: A -> Key, key': B -> Key)
    requires key(x) == key'(f(x)) && forall y :: y in s ==> key(y) == key'(f(y))
    ensures Insert(f(x), Mapped(s, f), key') == Mapped(Insert(x, s, key), f)
    decreases |s|
  {
    if s != [] && !Le(key(x), key(s[0])) {
      InsertMapped(x, s[1..], f, key, key');
      assert Mapped(s, f)[1..] == Mapped(s[1..], f);
    } else {
      assert Mapped([x] + s, f) == [f(x)] + Mapped(s, f);
    }
  }

  /** Sorting images is taking images of the sorted. */
  lemma {:induction false} SortMapped<A, B>(s: seq<A>, f: A -> B, key: A -> Key, key': B -> Key)
    requires forall y :: y in s ==> key(y) == key'(f(y))
    ensures SortBy(Mapped(s, f), key') == Mapped(SortBy(s, key), f)
    decreases |s|
  {
    hide Sorted, Le, Insert;
    if s != [] {
      SortMapped(s[1..], f, key, key');
      assert Mapped(s, f)[1..] == Mapped(s[1..], f);
      SortFacts(s[1..], key);
      assert s == [s[0]] + s[1..];
      forall y | y in SortBy(s[1..], key) ensures key(y) == key'(f(y)) {
        assert y in multiset(SortBy(s[1..], key));
      }
      InsertMapped(s[0], SortBy(s[1..], key), f, key, key');
    }
  }

  /** `sorted(s)` of a set. */
  method SortedOf(s: set<string>) returns (r: seq<string>)
    ensures Lists(r, s) && r == Listing(s)
  {
    r := [];
    var todo := s;
    while todo != {}
      invariant todo <= s && Lists(r, s - todo)
      decreases todo
    {
      var x :| x in todo;
      assert x !in Elements(r);
      InsertFacts(x, r, Chars);
      InsertDistinct(x, r);
      r := Insert(x, r, Chars);
      todo := todo - {x};
    }
    ListsUnique(r, Listing(s), s);
  }

  ghost function Listing(s: set<string>): (r: seq<string>)
    ensures Lists(r, s) && forall x :: x in r <==> x in s
  {
    if s == {} then []
    else
      var x :| x in s;
      var r := Listing(s - {x});
      assert x !in Elements(r);
      InsertFacts(x, r, Chars);
      InsertDistinct(x, r);
      var sorted := Insert(x, r, Chars);
      assert forall y :: y in sorted <==> y in Elements(sorted);
      sorted
  }
}
