/** The order `sort.Slice` uses on snapshots: topics by name, subscriptions by topic and then
    callback, names compared character by character as Go compares strings. */
module Ordering {
  import opened State

  predicate StringLess(a: string, b: string) {
    if b == "" then false
    else if a == "" then true
    else if a[0] != b[0] then a[0] < b[0]
    else StringLess(a[1..], b[1..])
  }

  // Lexicographic: a is a proper prefix of b, or smaller where they first differ.
  predicate DiffersAt(a: string, b: string, n: nat) {
    n <= |a| && n < |b| && a[..n] == b[..n] && (n == |a| || a[n] < b[n])
  }

  lemma {:induction false} StringLessExactly(a: string, b: string)
    ensures StringLess(a, b) <==> exists n: nat {:trigger DiffersAt(a, b, n)} :: DiffersAt(a, b, n)
    decreases |a|
  {
    if b == "" {
    } else if a == "" {
      assert DiffersAt(a, b, 0);
    } else if a[0] != b[0] {
      assert DiffersAt(a, b, 0) <==> a[0] < b[0];
      assert forall n: nat :: DiffersAt(a, b, n) && n > 0 ==> a[..n][0] == b[..n][0];
    } else {
      StringLessExactly(a[1..], b[1..]);
      forall n: nat
        ensures DiffersAt(a[1..], b[1..], n) <==> DiffersAt(a, b, n + 1)
      {
        DiffersBehind(a, b, n);
      }
      if n: nat :| DiffersAt(a[1..], b[1..], n) {
        assert DiffersAt(a, b, n + 1);
      }
      if n: nat :| DiffersAt(a, b, n) {
        assert n > 0 && DiffersAt(a[1..], b[1..], n - 1);
      }
    }
  }

  lemma DiffersBehind(a: string, b: string, n: nat)
    requires a != "" && b != "" && a[0] == b[0]
    ensures DiffersAt(a[1..], b[1..], n) <==> DiffersAt(a, b, n + 1)
  {
    if n < |a| && n < |b| {
      assert a[..n + 1] == [a[0]] + a[1..][..n] && b[..n + 1] == [b[0]] + b[1..][..n];
      assert a[..n + 1][1..] == a[1..][..n] && b[..n + 1][1..] == b[1..][..n];
    }
  }

  predicate KeyLess(a: Key, b: Key) {
    StringLess(a.topic, b.topic) || (a.topic == b.topic && StringLess(a.callback, b.callback))
  }

  lemma {:induction false} StringLessTotal(a: string, b: string)
    ensures StringLess(a, b) || StringLess(b, a) || a == b
    ensures !(StringLess(a, b) && StringLess(b, a))
    ensures !StringLess(a, a)
    decreases |a|
  {
    if a != "" {
      if b != "" {
        StringLessTotal(a[1..], b[1..]);
        assert a[0] == b[0] && a[1..] == b[1..] ==> [a[0]] + a[1..] == [b[0]] + b[1..];
        assert [a[0]] + a[1..] == a && [b[0]] + b[1..] == b;
      } else {
        StringLessTotal(a[1..], b);
      }
    }
  }

  lemma {:induction false} StringLessTransitive(a: string, b: string, c: string)
    requires StringLess(a, b) && StringLess(b, c)
    ensures StringLess(a, c)
    decreases |a|
  {
    if a != "" && a[0] == b[0] == c[0] {
      StringLessTransitive(a[1..], b[1..], c[1..]);
    }
  }

  lemma KeyLessTotal(a: Key, b: Key)
    ensures KeyLess(a, b) || KeyLess(b, a) || a == b
    ensures !(KeyLess(a, b) && KeyLess(b, a))
    ensures !KeyLess(a, a)
  {
    StringLessTotal(a.topic, b.topic);
    StringLessTotal(a.callback, b.callback);
  }

  lemma KeyLessTransitive(a: Key, b: Key, c: Key)
    requires KeyLess(a, b) && KeyLess(b, c)
    ensures KeyLess(a, c)
  {
    StringLessTotal(a.topic, b.topic);
    StringLessTotal(b.topic, c.topic);
    if a.topic == b.topic && b.topic == c.topic {
      StringLessTransitive(a.callback, b.callback, c.callback);
    } else if a.topic != b.topic && b.topic != c.topic {
      StringLessTransitive(a.topic, b.topic, c.topic);
    }
  }

  predicate Sorted<T(!new)>(s: seq<T>, key: T -> Key) {
    forall i, j :: 0 <= i < j < |s| ==> KeyLess(key(s[i]), key(s[j]))
  }

  predicate DistinctKeys<T(!new)>(s: seq<T>, key: T -> Key) {
    forall i, j :: 0 <= i < j < |s| ==> key(s[i]) != key(s[j])
  }

  lemma SortedAreDistinct<T(!new)>(s: seq<T>, key: T -> Key)
    requires Sorted(s, key)
    ensures DistinctKeys(s, key)
  {
    forall i, j | 0 <= i < j < |s|
      ensures key(s[i]) != key(s[j])
    {
      KeyLessTotal(key(s[i]), key(s[j]));
    }
  }

  function Insert<T(!new)>(x: T, s: seq<T>, key: T -> Key): seq<T> {
    if s == [] || KeyLess(key(x), key(s[0])) then [x] + s
    else [s[0]] + Insert(x, s[1..], key)
  }

  // Stands for the library's sort.Slice; all that is used of it is that it sorts.
  function SortSlice<T(!new)>(s: seq<T>, key: T -> Key): seq<T> {
    if s == [] then [] else Insert(s[0], SortSlice(s[1..], key), key)
  }

  lemma {:induction false} InsertSorted<T(!new)>(x: T, s: seq<T>, key: T -> Key)
    requires Sorted(s, key) && forall y :: y in s ==> key(y) != key(x)
    ensures Sorted(Insert(x, s, key), key)
    ensures multiset(Insert(x, s, key)) == multiset(s) + multiset{x}
  {
    if s == [] {
    } else if KeyLess(key(x), key(s[0])) {
      forall j | 0 <= j < |s|
        ensures KeyLess(key(x), key(s[j]))
      {
        if j > 0 {
          KeyLessTransitive(key(x), key(s[0]), key(s[j]));
        }
      }
    } else {
      var rest := Insert(x, s[1..], key);
      InsertSorted(x, s[1..], key);
      KeyLessTotal(key(x), key(s[0]));
      assert s == [s[0]] + s[1..];
      forall j | 0 <= j < |rest|
        ensures KeyLess(key(s[0]), key(rest[j]))
      {
        assert rest[j] in multiset(rest);
        assert rest[j] == x || rest[j] in s[1..];
      }
    }
  }

  lemma {:induction false} SortSliceSorts<T(!new)>(s: seq<T>, key: T -> Key)
    requires DistinctKeys(s, key)
    ensures Sorted(SortSlice(s, key), key)
    ensures multiset(SortSlice(s, key)) == multiset(s)
    ensures forall x :: x in SortSlice(s, key) <==> x in s
  {
    if s != [] {
      var rest := s[1..];
      SortSliceSorts(rest, key);
      assert s == [s[0]] + rest;
      forall y | y in rest
        ensures key(y) != key(s[0])
      {
        var i :| 0 <= i < |rest| && rest[i] == y;
        assert s[i + 1] == y;
      }
      InsertSorted(s[0], SortSlice(rest, key), key);
    }
    SameElements(s, SortSlice(s, key));
  }

  lemma SameElements<T(!new)>(s: seq<T>, t: seq<T>)
    requires multiset(s) == multiset(t)
    ensures forall x :: x in t <==> x in s
  {
    forall x
      ensures x in t <==> x in s
    {
      assert (x in s <==> x in multiset(s)) && (x in t <==> x in multiset(t));
    }
  }

  // Whatever order the elements came in, there is one way to write them sorted.
  lemma {:induction false} SortedUnique<T(!new)>(a: seq<T>, b: seq<T>, key: T -> Key)
    requires Sorted(a, key) && Sorted(b, key)
    requires forall x :: x in a <==> x in b
    ensures a == b
    decreases |a|
  {
    assert b != [] ==> b[0] in b;
    if a != [] {
      assert a[0] in b && b[0] in a;
      var j :| 0 <= j < |b| && b[j] == a[0];
      var i :| 0 <= i < |a| && a[i] == b[0];
      KeyLessTotal(key(a[0]), key(b[0]));
      assert i == 0 && j == 0;
      SameTails(a, b, key);
      SameTails(b, a, key);
      SortedUnique(a[1..], b[1..], key);
      assert a == [a[0]] + a[1..] && b == [b[0]] + b[1..];
    }
  }

  lemma SameTails<T(!new)>(a: seq<T>, b: seq<T>, key: T -> Key)
    requires Sorted(a, key) && a != [] && b != [] && a[0] == b[0]
    requires forall x :: x in a ==> x in b
    ensures forall x :: x in a[1..] ==> x in b[1..]
  {
    forall x | x in a[1..]
      ensures x in b[1..]
    {
      var i :| 0 <= i < |a| - 1 && a[1..][i] == x;
      assert a[i + 1] == x && KeyLess(key(a[0]), key(x));
      KeyLessTotal(key(a[0]), key(a[0]));
      assert x in b;
      var j :| 0 <= j < |b| && b[j] == x;
      assert b[1..][j - 1] == x;
    }
  }
}
