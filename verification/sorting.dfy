/** The stable sort of the source's standard library, and the uniqueness of its result for distinct keys. */
module Sorting {

  /** Block number first, log index second. */
  datatype Key = Key(block: nat, index: nat) {
    predicate Less(other: Key) {
      block < other.block || (block == other.block && index < other.index)
    }
  }

  ghost predicate Ordered<T(!new)>(key: T -> Key, s: seq<T>) {
    forall i, j :: 0 <= i < j < |s| ==> !key(s[j]).Less(key(s[i]))
  }

  ghost predicate StrictlyOrdered<T>(key: T -> Key, s: seq<T>) {
    forall i, j :: 0 <= i < j < |s| ==> key(s[i]).Less(key(s[j]))
  }

  /** No two occurrences share a key; a property of the multiset, so of every permutation. */
  ghost predicate DistinctKeys<T>(key: T -> Key, m: multiset<T>) {
    && (forall x :: x in m ==> m[x] == 1)
    && (forall x, y :: x in m && y in m && key(x) == key(y) ==> x == y)
  }

  function Insert<T>(key: T -> Key, x: T, s: seq<T>): (r: seq<T>)
    ensures |r| == |s| + 1
  {
    if s == [] || !key(s[0]).Less(key(x)) then [x] + s
    else [s[0]] + Insert(key, x, s[1..])
  }

  /** Insertion from the left keeps equal keys in their order, as `sort_by` does. */
  function Sort<T>(key: T -> Key, s: seq<T>): (r: seq<T>)
    ensures |r| == |s|
  {
    if s == [] then [] else Insert(key, s[0], Sort(key, s[1..]))
  }

  lemma {:induction false} InsertKeepsAll<T(!new)>(key: T -> Key, x: T, s: seq<T>)
    ensures multiset(Insert(key, x, s)) == multiset([x] + s)
    ensures Ordered(key, s) ==> Ordered(key, Insert(key, x, s))
  {
    if s == [] || !key(s[0]).Less(key(x)) {
      if Ordered(key, s) {
        var r := [x] + s;
        forall i, j | 0 <= i < j < |r|
          ensures !key(r[j]).Less(key(r[i]))
        {
          if i == 0 && j > 1 {
            assert !key(s[j - 1]).Less(key(s[0]));
          } else if i > 0 {
            assert !key(s[j - 1]).Less(key(s[i - 1]));
          }
        }
      }
    } else {
      var t := Insert(key, x, s[1..]);
      InsertKeepsAll(key, x, s[1..]);
      assert s == [s[0]] + s[1..];
      assert multiset([s[0]] + t) == multiset([s[0]]) + multiset([x] + s[1..]);
      if Ordered(key, s) {
        assert Ordered(key, s[1..]);
        InsertAfter(key, x, s[0], s[1..]);
      }
    }
  }

  lemma InsertAfter<T(!new)>(key: T -> Key, x: T, head: T, tail: seq<T>)
    requires Ordered(key, [head] + tail) && key(head).Less(key(x))
    requires var t := Insert(key, x, tail); Ordered(key, t) && multiset(t) == multiset([x] + tail)
    ensures Ordered(key, [head] + Insert(key, x, tail))
  {
    var t := Insert(key, x, tail);
    var r := [head] + t;
    forall i, j | 0 <= i < j < |r|
      ensures !key(r[j]).Less(key(r[i]))
    {
      if i == 0 {
        assert r[j] in multiset(t);
        assert r[j] in [x] + tail;
        if r[j] != x {
          var k :| 0 <= k < |tail| && tail[k] == r[j];
          assert ([head] + tail)[k + 1] == r[j] && ([head] + tail)[0] == head;
        }
      } else {
        assert !key(t[j - 1]).Less(key(t[i - 1]));
      }
    }
  }

  lemma {:induction false} SortIsOrderedPermutation<T(!new)>(key: T -> Key, s: seq<T>)
    ensures multiset(Sort(key, s)) == multiset(s)
    ensures Ordered(key, Sort(key, s))
  {
    if s != [] {
      SortIsOrderedPermutation(key, s[1..]);
      InsertKeepsAll(key, s[0], Sort(key, s[1..]));
      assert s == [s[0]] + s[1..];
    }
  }

  lemma OrderedAndDistinctIsStrict<T(!new)>(key: T -> Key, s: seq<T>)
    requires Ordered(key, s) && DistinctKeys(key, multiset(s))
    ensures StrictlyOrdered(key, s)
  {
    forall i, j | 0 <= i < j < |s|
      ensures key(s[i]).Less(key(s[j]))
    {
      assert s[i] in multiset(s) && s[j] in multiset(s);
      if s[i] == s[j] {
        OccursTwice(s, i, j);
      }
    }
  }

  lemma OccursTwice<T>(s: seq<T>, i: nat, j: nat)
    requires i < j < |s| && s[i] == s[j]
    ensures multiset(s)[s[i]] >= 2
  {
    assert s == s[..j] + [s[j]] + s[j + 1..];
    assert s[..j][i] == s[i];
  }

  /** A strictly ordered sequence is determined by its elements. */
  lemma {:induction false} StrictOrderIsUnique<T(!new)>(key: T -> Key, a: seq<T>, b: seq<T>)
    requires StrictlyOrdered(key, a) && StrictlyOrdered(key, b)
    requires forall x :: x in a <==> x in b
    ensures a == b
  {
    assert a == [] || a[0] in a;
    assert b == [] || b[0] in b;
    if a != [] && b != [] {
      FirstIsLeast(key, a, b[0]);
      FirstIsLeast(key, b, a[0]);
      forall x
        ensures x in a[1..] <==> x in b[1..]
      {
        InTail(key, a, x);
        InTail(key, b, x);
      }
      StrictOrderIsUnique(key, a[1..], b[1..]);
      assert a == [a[0]] + a[1..] && b == [b[0]] + b[1..];
    }
  }

  lemma FirstIsLeast<T>(key: T -> Key, s: seq<T>, x: T)
    requires x in s && StrictlyOrdered(key, s)
    ensures x == s[0] || key(s[0]).Less(key(x))
  {
  }

  lemma InTail<T>(key: T -> Key, s: seq<T>, x: T)
    requires s != [] && StrictlyOrdered(key, s)
    ensures x in s[1..] <==> x in s && x != s[0]
  {
    if x in s && x != s[0] {
      var i :| 0 <= i < |s| && s[i] == x;
      assert s[1..][i - 1] == x;
    }
    if x in s[1..] {
      var i :| 0 <= i < |s[1..]| && s[1..][i] == x;
      assert s[i + 1] == x;
    }
  }

  /** With distinct keys the sorted result does not depend on the order of the input. */
  lemma SortForgetsInputOrder<T(!new)>(key: T -> Key, a: seq<T>, b: seq<T>)
    requires multiset(a) == multiset(b) && DistinctKeys(key, multiset(a))
    ensures Sort(key, a) == Sort(key, b)
    ensures StrictlyOrdered(key, Sort(key, a))
  {
    SortIsOrderedPermutation(key, a);
    SortIsOrderedPermutation(key, b);
    var sa, sb := Sort(key, a), Sort(key, b);
    OrderedAndDistinctIsStrict(key, sa);
    OrderedAndDistinctIsStrict(key, sb);
    assert forall x :: x in sa <==> x in multiset(sa);
    assert forall x :: x in sb <==> x in multiset(sb);
    StrictOrderIsUnique(key, sa, sb);
  }

  lemma {:induction false} OccursOnce<T>(s: seq<T>, x: T)
    requires x in s
    requires forall i, j :: 0 <= i < j < |s| ==> s[i] != s[j]
    ensures multiset(s)[x] == 1
  {
    assert s == [s[0]] + s[1..];
    if x == s[0] {
      assert x !in s[1..];
      assert x !in multiset(s[1..]);
    } else {
      OccursOnce(s[1..], x);
    }
  }

  lemma ListedOnce<T(!new)>(key: T -> Key, a: seq<T>, b: seq<T>)
    requires StrictlyOrdered(key, b)
    requires forall x :: x in a <==> x in b
    requires forall i, j :: 0 <= i < j < |a| ==> a[i] != a[j]
    ensures DistinctKeys(key, multiset(a))
  {
    forall x | x in multiset(a)
      ensures multiset(a)[x] == 1
    {
      OccursOnce(a, x);
    }
    forall x, y | x in multiset(a) && y in multiset(a) && key(x) == key(y)
      ensures x == y
    {
      assert x in a && y in a;
      var i :| 0 <= i < |b| && b[i] == x;
      var j :| 0 <= j < |b| && b[j] == y;
    }
  }

  /** A sequence that lists the elements of a strictly ordered one, once each, sorts into it. */
  lemma SortsInto<T(!new)>(key: T -> Key, a: seq<T>, b: seq<T>)
    requires StrictlyOrdered(key, b)
    requires forall x :: x in a <==> x in b
    requires forall i, j :: 0 <= i < j < |a| ==> a[i] != a[j]
    ensures Sort(key, a) == b
  {
    ListedOnce(key, a, b);
    SortForgetsInputOrder(key, a, a);
    SortIsOrderedPermutation(key, a);
    var s := Sort(key, a);
    forall x
      ensures x in s <==> x in b
    {
      assert x in s <==> x in multiset(s);
      assert x in a <==> x in multiset(a);
    }
    StrictOrderIsUnique(key, s, b);
  }
}
