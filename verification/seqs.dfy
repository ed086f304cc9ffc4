/**
 * Sequence operations that stand in for the document store's query shapes:
 * filtering (`find` with a filter), prefixes (`limit`), first-seen
 * de-duplication (the `seen` set loop of the chat endpoint) and ordering
 * (`sort`).
 */
module Seqs {

  /** `a` is `b` with some elements dropped and the rest kept in their order. */
  predicate IsSubseq<T(==)>(a: seq<T>, b: seq<T>)
    decreases |b|
  {
    if |a| == 0 then true
    else if |b| == 0 then false
    else (a[0] == b[0] && IsSubseq(a[1..], b[1..])) || IsSubseq(a, b[1..])
  }

  /** Everything in a subsequence comes from the sequence it was drawn from. */
  lemma {:induction false} SubseqMembers<T>(a: seq<T>, b: seq<T>)
    requires IsSubseq(a, b)
    ensures forall x :: x in a ==> x in b
    decreases |b|
  {
    if |a| > 0 {
      if a[0] == b[0] && IsSubseq(a[1..], b[1..]) {
        SubseqMembers(a[1..], b[1..]);
        assert forall x :: x in a ==> x == a[0] || x in a[1..];
      } else {
        SubseqMembers(a, b[1..]);
      }
    }
  }

  /** The elements of `s` that satisfy `f`, in their original order. */
  function Filter<T(!new)>(s: seq<T>, f: T -> bool): (r: seq<T>)
    ensures |r| <= |s|
    ensures forall x :: x in r <==> x in s && f(x)
    ensures IsSubseq(r, s)
  {
    if |s| == 0 then []
    else if f(s[0]) then [s[0]] + Filter(s[1..], f)
    else Filter(s[1..], f)
  }

  /** Filtering distributes over concatenation. */
  lemma {:induction false} FilterAppend<T(!new)>(a: seq<T>, b: seq<T>, f: T -> bool)
    ensures Filter(a + b, f) == Filter(a, f) + Filter(b, f)
    decreases |a|
  {
    if |a| > 0 {
      assert (a + b)[1..] == a[1..] + b;
      FilterAppend(a[1..], b, f);
    } else {
      assert a + b == b;
    }
  }

  /** Three mutually exclusive conditions select no more elements together than there are. */
  lemma {:induction false} FilterExclusiveBound<T(!new)>(s: seq<T>, f: T -> bool, g: T -> bool, h: T -> bool)
    requires forall x :: !(f(x) && g(x)) && !(f(x) && h(x)) && !(g(x) && h(x))
    ensures |Filter(s, f)| + |Filter(s, g)| + |Filter(s, h)| <= |s|
    decreases |s|
  {
    if |s| > 0 {
      FilterExclusiveBound(s[1..], f, g, h);
    }
  }

  /** The positions of `s` whose element satisfies `f`. */
  function Positions<T>(s: seq<T>, f: T -> bool): set<int> {
    set i | 0 <= i < |s| && f(s[i])
  }

  /**
   * Counting by filtering agrees with the independent definition "the number
   * of positions whose element satisfies the condition".
   */
  lemma {:induction false} FilterCountIsPositionCount<T(!new)>(s: seq<T>, f: T -> bool)
    ensures |Filter(s, f)| == |Positions(s, f)|
    decreases |s|
  {
    if |s| > 0 {
      var n := |s| - 1;
      var init := s[..n];
      assert s == init + [s[n]];
      FilterAppend(init, [s[n]], f);
      FilterCountIsPositionCount(init, f);
      assert Positions(init, f) == set i | 0 <= i < n && f(s[i]);
      if f(s[n]) {
        assert Positions(s, f) == Positions(init, f) + {n};
      } else {
        assert Positions(s, f) == Positions(init, f);
      }
    } else {
      assert Positions(s, f) == {};
    }
  }

  /** Python's `s[:n]`: at most the first `n` elements. */
  function Take<T>(s: seq<T>, n: nat): (r: seq<T>)
    ensures |r| == if |s| <= n then |s| else n
    ensures |s| <= n ==> r == s
    ensures r == s[..|r|]
    ensures forall x :: x in r ==> x in s
  {
    if |s| <= n then s else
      assert forall x :: x in s[..n] ==> x in s;
      s[..n]
  }

  /** The keys of the elements of `s`. */
  function Keys<T(==), K>(s: seq<T>, key: T -> K): set<K> {
    set x | x in s :: key(x)
  }

  /** No two elements of `s` share a key. */
  predicate DistinctKeys<T, K(==)>(s: seq<T>, key: T -> K) {
    forall i, j :: 0 <= i < j < |s| ==> key(s[i]) != key(s[j])
  }

  /** Position `i` holds the first element of `s` with its key. */
  predicate FirstOfKey<T, K(==)>(s: seq<T>, key: T -> K, i: int)
    requires 0 <= i < |s|
  {
    forall j :: 0 <= j < i ==> key(s[j]) != key(s[i])
  }

  /**
   * Walks `s` in order, keeping an element when its key has not been seen yet
   * and then marking the key as seen; `seen` holds the keys marked beforehand.
   */
  function DedupeFrom<T(!new), K(==)>(s: seq<T>, key: T -> K, seen: set<K>): (r: seq<T>)
    ensures |r| <= |s|
    ensures DistinctKeys(r, key)
    ensures Keys(r, key) == Keys(s, key) - seen
    ensures IsSubseq(r, s)
    ensures forall i :: 0 <= i < |s| && key(s[i]) !in seen && FirstOfKey(s, key, i) ==> s[i] in r
    decreases |s|
  {
    if |s| == 0 then []
    else if key(s[0]) in seen then
      var rest := DedupeFrom(s[1..], key, seen);
      assert Keys(s, key) == {key(s[0])} + Keys(s[1..], key) by {
        assert forall x :: x in s <==> x == s[0] || x in s[1..];
      }
      assert forall i :: 1 <= i < |s| && FirstOfKey(s, key, i) ==> FirstOfKey(s[1..], key, i - 1);
      rest
    else
      var rest := DedupeFrom(s[1..], key, seen + {key(s[0])});
      var r := [s[0]] + rest;
      assert Keys(s, key) == {key(s[0])} + Keys(s[1..], key) by {
        assert forall x :: x in s <==> x == s[0] || x in s[1..];
      }
      assert Keys(r, key) == {key(s[0])} + Keys(rest, key) by {
        assert forall x :: x in r <==> x == s[0] || x in rest;
      }
      assert forall i :: 1 <= i < |s| && FirstOfKey(s, key, i) ==> FirstOfKey(s[1..], key, i - 1);
      assert r[0] == s[0] && r[1..] == rest;
      r
  }

  /** Every key of `s` has a first position. */
  lemma {:induction false} FirstPositionExists<T, K>(s: seq<T>, key: T -> K, k: K)
    requires k in Keys(s, key)
    ensures exists i :: 0 <= i < |s| && key(s[i]) == k && FirstOfKey(s, key, i)
    decreases |s|
  {
    if key(s[0]) == k {
      assert FirstOfKey(s, key, 0);
    } else {
      KeysOfCons(s, key);
      FirstPositionExists(s[1..], key, k);
      var i :| 0 <= i < |s[1..]| && key(s[1..][i]) == k && FirstOfKey(s[1..], key, i);
      assert key(s[i + 1]) == k;
      assert FirstOfKey(s, key, i + 1);
    }
  }

  /** Whatever de-duplication keeps is the first element of `s` with its key. */
  lemma DedupeKeepsFirstOccurrences<T(!new), K>(s: seq<T>, key: T -> K)
    ensures forall x :: x in Dedupe(s, key) ==> exists i :: 0 <= i < |s| && s[i] == x && FirstOfKey(s, key, i)
  {
    var r := Dedupe(s, key);
    forall x | x in r
      ensures exists i :: 0 <= i < |s| && s[i] == x && FirstOfKey(s, key, i)
    {
      assert key(x) in Keys(r, key);
      FirstPositionExists(s, key, key(x));
      var i :| 0 <= i < |s| && key(s[i]) == key(x) && FirstOfKey(s, key, i);
      assert s[i] in r;
      var a :| 0 <= a < |r| && r[a] == x;
      var b :| 0 <= b < |r| && r[b] == s[i];
      assert a == b;
    }
  }

  /** A prefix of a subsequence is still a subsequence. */
  lemma {:induction false} SubseqPrefix<T>(a: seq<T>, b: seq<T>, k: nat)
    requires IsSubseq(a, b)
    requires k <= |a|
    ensures IsSubseq(a[..k], b)
    decreases |b|
  {
    if k > 0 {
      if a[0] == b[0] && IsSubseq(a[1..], b[1..]) {
        SubseqPrefix(a[1..], b[1..], k - 1);
        assert a[..k][1..] == a[1..][..k - 1];
      } else {
        SubseqPrefix(a, b[1..], k);
      }
    }
  }

  /** De-duplication with nothing seen beforehand. */
  function Dedupe<T(!new), K(==)>(s: seq<T>, key: T -> K): seq<T> {
    DedupeFrom(s, key, {})
  }

  /**
   * De-duplicating a concatenation de-duplicates the first part, then the
   * second part with the first part's keys already seen: elements of `a`
   * always come before the new elements of `b`.
   */
  lemma {:induction false} DedupeAppend<T(!new), K>(a: seq<T>, b: seq<T>, key: T -> K, seen: set<K>)
    ensures DedupeFrom(a + b, key, seen) == DedupeFrom(a, key, seen) + DedupeFrom(b, key, seen + Keys(a, key))
    decreases |a|
  {
    if |a| == 0 {
      assert a + b == b;
      assert Keys(a, key) == {};
      assert seen + Keys(a, key) == seen;
    } else {
      var ab := a + b;
      assert ab[0] == a[0];
      assert ab[1..] == a[1..] + b;
      KeysOfCons(a, key);
      var k := key(a[0]);
      if k in seen {
        DedupeAppend(a[1..], b, key, seen);
        assert seen + Keys(a, key) == seen + Keys(a[1..], key);
      } else {
        DedupeAppend(a[1..], b, key, seen + {k});
        assert seen + {k} + Keys(a[1..], key) == seen + Keys(a, key);
      }
    }
  }

  /** Capping `lead + later` at `n >= |lead|` keeps `lead` whole, followed by a prefix of `later`. */
  lemma TakeOfAppend<T>(lead: seq<T>, later: seq<T>, n: nat)
    requires |lead| <= n
    ensures var r := Take(lead + later, n);
      && |lead| <= |r|
      && r[..|lead|] == lead
      && forall i :: |lead| <= i < |r| ==> r[i] in later
  {
    var all := lead + later;
    var r := Take(all, n);
    forall i | |lead| <= i < |r|
      ensures r[i] in later
    {
      assert r[i] == all[i] == later[i - |lead|];
    }
  }

  /**
   * Capping the de-duplication of `a + b` at `n`, where `a` alone yields at
   * most `n` elements: `a`'s survivors come first, whole, and every later
   * element has a key that `a` does not have.
   */
  lemma TakeDedupeAppend<T(!new), K>(a: seq<T>, b: seq<T>, key: T -> K, n: nat)
    requires |a| <= n
    ensures var lead := Dedupe(a, key);
      var r := Take(Dedupe(a + b, key), n);
      && |lead| <= |r|
      && r[..|lead|] == lead
      && (forall i :: |lead| <= i < |r| ==> key(r[i]) !in Keys(a, key))
      && (forall x :: x in a ==> exists i :: 0 <= i < |lead| && key(r[i]) == key(x))
  {
    var lead := Dedupe(a, key);
    var later := DedupeFrom(b, key, {} + Keys(a, key));
    DedupeAppend(a, b, key, {});
    TakeOfAppend(lead, later, n);
    var r := Take(lead + later, n);
    forall x | x in a
      ensures exists i :: 0 <= i < |lead| && key(r[i]) == key(x)
    {
      assert key(x) in Keys(lead, key);
      var y :| y in lead && key(y) == key(x);
      var i :| 0 <= i < |lead| && lead[i] == y;
      assert r[i] == r[..|lead|][i];
    }
  }

  lemma KeysOfCons<T, K>(a: seq<T>, key: T -> K)
    requires |a| > 0
    ensures Keys(a, key) == {key(a[0])} + Keys(a[1..], key)
  {
    assert forall x :: x in a <==> x == a[0] || x in a[1..];
  }

  /** `r` lists its elements in `before` order: earlier ones come before later ones. */
  predicate SortedBy<T>(r: seq<T>, before: (T, T) -> bool) {
    forall i, j :: 0 <= i < j < |r| ==> before(r[i], r[j])
  }

  /** `before` is total and transitive, so any two elements can be ordered consistently. */
  ghost predicate TotalPreorder<T(!new)>(before: (T, T) -> bool) {
    && (forall a, b :: before(a, b) || before(b, a))
    && (forall a, b, c :: before(a, b) && before(b, c) ==> before(a, c))
  }

  /** Places `x` into the sorted `s` ahead of the first element it may precede. */
  function Insert<T(!new)>(x: T, s: seq<T>, before: (T, T) -> bool): (r: seq<T>)
    requires TotalPreorder(before)
    requires SortedBy(s, before)
    ensures multiset(r) == multiset(s) + multiset{x}
    ensures SortedBy(r, before)
    decreases |s|
  {
    if |s| == 0 then [x]
    else if before(x, s[0]) then
      [x] + s
    else
      var rest := Insert(x, s[1..], before);
      assert s == [s[0]] + s[1..];
      assert forall y :: y in multiset(rest) ==> before(s[0], y) by {
        forall y | y in multiset(rest) ensures before(s[0], y) {
          if y != x {
            assert y in multiset(s[1..]);
            var k :| 0 <= k < |s[1..]| && s[1..][k] == y;
            assert s[k + 1] == y;
          }
        }
      }
      var r := [s[0]] + rest;
      assert forall j :: 0 < j < |r| ==> before(r[0], r[j]) by {
        forall j | 0 < j < |r| ensures before(r[0], r[j]) {
          assert r[j] == rest[j - 1] && rest[j - 1] in multiset(rest);
        }
      }
      r
  }

  /** A sorted permutation of `s` (insertion sort). */
  function SortBy<T(!new)>(s: seq<T>, before: (T, T) -> bool): (r: seq<T>)
    requires TotalPreorder(before)
    ensures multiset(r) == multiset(s)
    ensures SortedBy(r, before)
    decreases |s|
  {
    if |s| == 0 then []
    else
      assert s == [s[0]] + s[1..];
      Insert(s[0], SortBy(s[1..], before), before)
  }

  /** A prefix of a sorted sequence is sorted and holds only elements of the sequence. */
  lemma TakeOfSorted<T(!new)>(r: seq<T>, k: nat, before: (T, T) -> bool)
    requires SortedBy(r, before)
    ensures SortedBy(Take(r, k), before)
    ensures forall x :: x in Take(r, k) ==> x in r
  {
    var t := Take(r, k);
    assert forall i :: 0 <= i < |t| ==> t[i] == r[i];
  }

  /** Sequences with the same multiset have the same members. */
  lemma SameMembers<T>(a: seq<T>, b: seq<T>)
    requires multiset(a) == multiset(b)
    ensures forall x :: x in a <==> x in b
  {
    assert forall x :: x in a <==> x in multiset(a);
    assert forall x :: x in b <==> x in multiset(b);
  }

  /**
   * The first `k` elements of a sorted permutation of `s` are the best `k`:
   * any element of `s` left out comes after every element kept.
   */
  lemma TopOfSorted<T(!new)>(s: seq<T>, r: seq<T>, k: nat, before: (T, T) -> bool)
    requires multiset(r) == multiset(s)
    requires SortedBy(r, before)
    ensures forall y :: y in s ==> y in Take(r, k) || (|Take(r, k)| == k && forall z :: z in Take(r, k) ==> before(z, y))
  {
    var t := Take(r, k);
    forall y | y in s && y !in t
      ensures |t| == k && forall z :: z in t ==> before(z, y)
    {
      assert y in multiset(r);
      var m :| 0 <= m < |r| && r[m] == y;
      assert t == r[..|t|];
      assert m >= |t|;
      forall z | z in t ensures before(z, y) {
        var p :| 0 <= p < |t| && t[p] == z;
        assert r[p] == z;
      }
    }
  }
}
