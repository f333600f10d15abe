/** `Array.prototype.sort` with a comparator. Since ECMAScript 2019 the sort is
    stable, so with a consistent comparator its result is unique: the sequence
    below, an insertion sort. A comparator `cmp` is given here as the relation
    `le(a, b) == (cmp(a, b) <= 0)`, which a consistent comparator makes a total
    preorder. */
module Sorting {

  ghost predicate TotalPreorder<T(!new)>(le: (T, T) -> bool) {
    && (forall a, b :: le(a, b) || le(b, a))
    && (forall a, b, c :: le(a, b) && le(b, c) ==> le(a, c))
  }

  ghost predicate Sorted<T>(s: seq<T>, le: (T, T) -> bool) {
    forall i, j :: 0 <= i < j < |s| ==> le(s[i], s[j])
  }

  /** The elements of `s` that the order cannot tell apart from `y`, in order. */
  function Ties<T>(s: seq<T>, y: T, le: (T, T) -> bool): seq<T>
    decreases |s|
  {
    if s == [] then []
    else (if le(s[0], y) && le(y, s[0]) then [s[0]] else []) + Ties(s[1..], y, le)
  }

  /** Place `x` in front of the first element it is not after. */
  function Insert<T>(x: T, s: seq<T>, le: (T, T) -> bool): (r: seq<T>)
    ensures multiset(r) == multiset(s) + multiset{x}
    ensures |r| == |s| + 1
    decreases |s|
  {
    if s == [] then [x]
    else if le(x, s[0]) then [x] + s
    else
      var t := Insert(x, s[1..], le);
      assert s == [s[0]] + s[1..];
      [s[0]] + t
  }

  lemma {:induction false} InsertSorted<T(!new)>(x: T, s: seq<T>, le: (T, T) -> bool)
    requires TotalPreorder(le)
    requires Sorted(s, le)
    ensures Sorted(Insert(x, s, le), le)
    decreases |s|
  {
    if s != [] && !le(x, s[0]) {
      var t := Insert(x, s[1..], le);
      InsertSorted(x, s[1..], le);
      forall k | 0 <= k < |t|
        ensures le(s[0], t[k])
      {
        assert t[k] in multiset(t);
        if t[k] != x {
          assert t[k] in multiset(s[1..]);
          var j :| 0 <= j < |s[1..]| && s[1..][j] == t[k];
          assert s[j + 1] == t[k];
        }
      }
    }
  }

  lemma TiesCons<T>(h: T, rest: seq<T>, y: T, le: (T, T) -> bool)
    ensures Ties([h] + rest, y, le) == (if le(h, y) && le(y, h) then [h] else []) + Ties(rest, y, le)
  {
    assert ([h] + rest)[0] == h && ([h] + rest)[1..] == rest;
  }

  /** Inserting `x` only moves it past elements strictly before it, and none
      of those ties with `y` when `x` does, so the ties keep their order. */
  lemma {:induction false} InsertTies<T(!new)>(x: T, s: seq<T>, y: T, le: (T, T) -> bool)
    requires TotalPreorder(le)
    ensures Ties(Insert(x, s, le), y, le) == Ties([x] + s, y, le)
    decreases |s|
  {
    if s != [] && !le(x, s[0]) {
      var h, rest := s[0], s[1..];
      assert s == [h] + rest;
      InsertTies(x, rest, y, le);
      var t := Insert(x, rest, le);
      assert Insert(x, s, le) == [h] + t;
      TiesCons(h, t, y, le);
      TiesCons(x, rest, y, le);
      TiesCons(x, s, y, le);
      TiesCons(h, rest, y, le);
      NotBothTied(x, h, y, le);
      SwapPastEmpty(if le(h, y) && le(y, h) then [h] else [], if le(x, y) && le(y, x) then [x] else [], Ties(rest, y, le));
    }
  }

  /** Two elements tied with `y` are tied with each other. */
  lemma NotBothTied<T(!new)>(x: T, h: T, y: T, le: (T, T) -> bool)
    requires TotalPreorder(le)
    requires !le(x, h)
    ensures !(le(h, y) && le(y, h) && le(x, y) && le(y, x))
  {
  }

  lemma SwapPastEmpty<T>(a: seq<T>, b: seq<T>, c: seq<T>)
    requires a == [] || b == []
    ensures a + (b + c) == b + (a + c)
  {
    if a == [] {
      assert a + (b + c) == b + c == b + (a + c);
    } else {
      assert a + (b + c) == a + c == b + (a + c);
    }
  }

  /** The stable sort: the sorted permutation in which tied elements keep their
      input order. */
  function SortBy<T(!new)>(s: seq<T>, le: (T, T) -> bool): (r: seq<T>)
    requires TotalPreorder(le)
    ensures multiset(r) == multiset(s) && |r| == |s|
    ensures Sorted(r, le)
    decreases |s|
  {
    if s == [] then []
    else
      var t := SortBy(s[1..], le);
      assert s == [s[0]] + s[1..];
      InsertSorted(s[0], t, le);
      Insert(s[0], t, le)
  }

  /** Stability: for any `y`, the elements tied with `y` appear in the result
      in the same order as in the input. */
  lemma {:induction false} SortByStable<T(!new)>(s: seq<T>, y: T, le: (T, T) -> bool)
    requires TotalPreorder(le)
    ensures Ties(SortBy(s, le), y, le) == Ties(s, y, le)
    decreases |s|
  {
    if s != [] {
      var t := SortBy(s[1..], le);
      SortByStable(s[1..], y, le);
      InsertTies(s[0], t, y, le);
      assert ([s[0]] + t)[1..] == t;
    }
  }

  /** Stability for every element at once. */
  lemma SortByStableAll<T(!new)>(s: seq<T>, le: (T, T) -> bool)
    requires TotalPreorder(le)
    ensures forall y :: Ties(SortBy(s, le), y, le) == Ties(s, y, le)
  {
    forall y ensures Ties(SortBy(s, le), y, le) == Ties(s, y, le) {
      SortByStable(s, y, le);
    }
  }
}
