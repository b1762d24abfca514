/**
 * The LINQ operators the services and pages compose their queries from:
 * Where, OrderByDescending (a stable sort), Select, Skip and Take.
 */
module Linq {

  /** Where: the elements of `s` that satisfy `p`, in their original order. */
  function Where<T(!new)>(s: seq<T>, p: T -> bool): (r: seq<T>)
    ensures |r| <= |s|
    ensures forall x :: x in r ==> p(x)
    ensures forall x {:trigger multiset(r)[x]} :: multiset(r)[x] == if p(x) then multiset(s)[x] else 0
  {
    if s == [] then []
    else
      assert s == [s[0]] + s[1..];
      if p(s[0]) then [s[0]] + Where(s[1..], p) else Where(s[1..], p)
  }

  /** Filtering one more element at the end extends the filtered sequence by it, if it passes. */
  lemma {:induction false} WhereSnoc<T(!new)>(s: seq<T>, x: T, p: T -> bool)
    ensures Where(s + [x], p) == Where(s, p) + (if p(x) then [x] else [])
  {
    var t := s + [x];
    var tail := if p(x) then [x] else [];
    if s == [] {
      assert t == [x] && t[1..] == [];
    } else {
      assert t[0] == s[0] && t[1..] == s[1..] + [x];
      WhereSnoc(s[1..], x, p);
      var head := if p(s[0]) then [s[0]] else [];
      calc {
        Where(t, p);
        head + Where(t[1..], p);
        head + (Where(s[1..], p) + tail);
        (head + Where(s[1..], p)) + tail;
        Where(s, p) + tail;
      }
    }
  }

  /** The positions of `s` whose element satisfies `p`. */
  ghost function Positions<T>(s: seq<T>, p: T -> bool): set<int>
  {
    set i | 0 <= i < |s| && p(s[i])
  }

  /** Where keeps as many elements as there are positions whose element passes. */
  lemma {:induction false} WhereCountsMatches<T(!new)>(s: seq<T>, p: T -> bool)
    ensures |Where(s, p)| == |Positions(s, p)|
  {
    if s != [] {
      var m := |s| - 1;
      var init := s[..m];
      WhereCountsMatches(init, p);
      assert s == init + [s[m]];
      WhereSnoc(init, s[m], p);
      var before := Positions(init, p);
      var after := Positions(s, p);
      assert before == set i | 0 <= i < m && p(s[i]);
      if p(s[m]) {
        assert after == before + {m};
      } else {
        assert after == before;
      }
    }
  }

  /** Elements in non-increasing order of `key`. */
  ghost predicate SortedDesc<T>(s: seq<T>, key: T -> int)
  {
    forall i, j :: 0 <= i < j < |s| ==> key(s[i]) >= key(s[j])
  }

  /**
   * Inserts `x` in front of the first element whose key is not larger,
   * so that `x` precedes the elements with an equal key.
   */
  function InsertDesc<T(!new)>(x: T, s: seq<T>, key: T -> int): (r: seq<T>)
    requires SortedDesc(s, key)
    ensures SortedDesc(r, key)
    ensures multiset(r) == multiset{x} + multiset(s)
    ensures r[0] == x || (s != [] && r[0] == s[0])
  {
    if s == [] || key(s[0]) <= key(x) then [x] + s
    else
      var rest := InsertDesc(x, s[1..], key);
      assert key(rest[0]) <= key(s[0]);
      PrependSorted(s[0], rest, key);
      assert s == [s[0]] + s[1..];
      [s[0]] + rest
  }

  /** A sorted sequence stays sorted behind an element whose key is at least its first key. */
  lemma PrependSorted<T>(y: T, rest: seq<T>, key: T -> int)
    requires SortedDesc(rest, key) && (rest != [] ==> key(rest[0]) <= key(y))
    ensures SortedDesc([y] + rest, key)
  {
    var r := [y] + rest;
    forall i, j | 0 <= i < j < |r| ensures key(r[i]) >= key(r[j]) {
      assert r[j] == rest[j - 1];
      if i > 0 {
        assert r[i] == rest[i - 1];
      } else {
        assert key(rest[0]) >= key(rest[j - 1]);
      }
    }
  }

  /**
   * OrderByDescending: a stable sort on `key` (insertion from the back, each
   * element placed before the later elements with an equal key).
   */
  function OrderByDescending<T(!new)>(s: seq<T>, key: T -> int): (r: seq<T>)
    ensures SortedDesc(r, key)
    ensures multiset(r) == multiset(s)
  {
    if s == [] then []
    else
      assert s == [s[0]] + s[1..];
      InsertDesc(s[0], OrderByDescending(s[1..], key), key)
  }

  /** Sorting a sequence that is already in order leaves it as it is. */
  lemma {:induction false} OrderByDescendingOfSorted<T(!new)>(s: seq<T>, key: T -> int)
    requires SortedDesc(s, key)
    ensures OrderByDescending(s, key) == s
  {
    if s != [] {
      OrderByDescendingOfSorted(s[1..], key);
      assert s == [s[0]] + s[1..];
    }
  }

  /** Select: applies `f` to each element. */
  function Select<T, U>(s: seq<T>, f: T -> U): (r: seq<U>)
    ensures |r| == |s| && forall i :: 0 <= i < |s| ==> r[i] == f(s[i])
  {
    seq(|s|, i requires 0 <= i < |s| => f(s[i]))
  }

  /** Projecting with a map that carries the sort key keeps the order. */
  lemma SelectKeepsOrder<T, U>(s: seq<T>, f: T -> U, key: T -> int, key': U -> int)
    requires SortedDesc(s, key)
    requires forall x :: key'(f(x)) == key(x)
    ensures SortedDesc(Select(s, f), key')
  {
  }

  /** The number of elements Skip(n) drops: n, clamped to [0, |s|]. */
  function Dropped<T>(s: seq<T>, n: int): (k: nat)
    ensures k <= |s|
  {
    if n <= 0 then 0 else if n >= |s| then |s| else n
  }

  /** Skip: drops the first n elements; a negative count drops nothing. */
  function Skip<T>(s: seq<T>, n: int): (r: seq<T>)
    ensures |r| == |s| - Dropped(s, n)
    ensures forall i :: 0 <= i < |r| ==> r[i] == s[Dropped(s, n) + i]
  {
    if n <= 0 then s else if n >= |s| then [] else s[n..]
  }

  /** Take: keeps the first n elements; a negative count keeps none. */
  function Take<T>(s: seq<T>, n: int): (r: seq<T>)
    ensures |r| <= |s| && (n >= 0 ==> |r| <= n) && (n < 0 ==> r == [])
    ensures n >= |s| ==> r == s
    ensures 0 <= n <= |s| ==> |r| == n
    ensures forall i :: 0 <= i < |r| ==> r[i] == s[i]
  {
    if n <= 0 then [] else if n >= |s| then s else s[..n]
  }

  /** Skip and Take keep a contiguous run of the input, so order is preserved. */
  lemma SkipTakeKeepsOrder<T>(s: seq<T>, skip: int, take: int, key: T -> int)
    requires SortedDesc(s, key)
    ensures SortedDesc(Take(Skip(s, skip), take), key)
  {
  }
}
