/** Stable descending sort by a key, with what "stable" and "descending" mean spelled out. */
module StableSort {

  ghost predicate Distinct<T(!new)>(s: seq<T>) {
    forall i, j :: 0 <= i < j < |s| ==> s[i] != s[j]
  }

  /** `a` occurs in `s` and `b` occurs later. */
  ghost predicate Before<T(!new)>(s: seq<T>, a: T, b: T) {
    s != [] && ((s[0] == a && b in s[1..]) || Before(s[1..], a, b))
  }

  ghost predicate Descending<T(!new)>(s: seq<T>, key: T -> real) {
    forall i, j :: 0 <= i < j < |s| ==> key(s[i]) >= key(s[j])
  }

  function Insert<T(!new)>(x: T, s: seq<T>, key: T -> real): (r: seq<T>)
    ensures multiset(r) == multiset([x]) + multiset(s)
    ensures |r| == |s| + 1
    ensures forall y :: y in r <==> y == x || y in s
  {
    if s == [] || key(s[0]) <= key(x) then [x] + s
    else
      assert s == [s[0]] + s[1..];
      [s[0]] + Insert(x, s[1..], key)
  }

  function SortDesc<T(!new)>(s: seq<T>, key: T -> real): (r: seq<T>)
    ensures multiset(r) == multiset(s)
    ensures |r| == |s|
    ensures forall y :: y in r <==> y in s
  {
    if s == [] then []
    else
      assert s == [s[0]] + s[1..];
      Insert(s[0], SortDesc(s[1..], key), key)
  }

  lemma {:induction false} InsertDescending<T(!new)>(x: T, s: seq<T>, key: T -> real)
    requires Descending(s, key)
    ensures Descending(Insert(x, s, key), key)
    decreases |s|
  {
    if s != [] && key(s[0]) > key(x) {
      InsertDescending(x, s[1..], key);
      var r := Insert(x, s[1..], key);
      forall j | 0 <= j < |r|
        ensures key(s[0]) >= key(r[j])
      {
        assert r[j] == x || r[j] in s[1..];
      }
    }
  }

  lemma {:induction false} SortDescending<T(!new)>(s: seq<T>, key: T -> real)
    ensures Descending(SortDesc(s, key), key)
    decreases |s|
  {
    if s != [] {
      SortDescending(s[1..], key);
      InsertDescending(s[0], SortDesc(s[1..], key), key);
    }
  }

  lemma {:induction false} InsertBefore<T(!new)>(x: T, s: seq<T>, key: T -> real, a: T, b: T)
    requires Descending(s, key) && x !in s && a != b
    ensures Before(Insert(x, s, key), a, b) <==>
            if a == x then b in s && key(b) <= key(x)
            else if b == x then a in s && key(a) > key(x)
            else Before(s, a, b)
    decreases |s|
  {
    if s == [] {
    } else if key(s[0]) <= key(x) {
      assert ([x] + s)[1..] == s;
      assert forall y :: y in s ==> key(y) <= key(s[0]);
      BeforeNeedsBoth(s, a, b);
    } else {
      InsertBefore(x, s[1..], key, a, b);
      var r := Insert(x, s[1..], key);
      assert ([s[0]] + r)[1..] == r;
      assert forall y :: y in s <==> y == s[0] || y in s[1..];
    }
  }

  lemma {:induction false} BeforeNeedsBoth<T(!new)>(s: seq<T>, a: T, b: T)
    ensures Before(s, a, b) ==> a in s && b in s
    decreases |s|
  {
    if s != [] {
      BeforeNeedsBoth(s[1..], a, b);
    }
  }

  /** The sorted order in full: a larger key comes first, equal keys keep the order of the input. */
  lemma {:induction false} SortedBeforeIff<T(!new)>(s: seq<T>, key: T -> real, a: T, b: T)
    requires Distinct(s) && a in s && b in s && a != b
    ensures Before(SortDesc(s, key), a, b) <==> key(a) > key(b) || (key(a) == key(b) && Before(s, a, b))
    decreases |s|
  {
    var x, rest := s[0], s[1..];
    var sorted := SortDesc(rest, key);
    SortDescending(rest, key);
    assert x !in rest;
    InsertBefore(x, sorted, key, a, b);
    HeadComesFirst(s, a, b);
    if a != x && b != x {
      SortedBeforeIff(rest, key, a, b);
    }
  }

  lemma HeadComesFirst<T(!new)>(s: seq<T>, a: T, b: T)
    requires s != [] && s[0] !in s[1..] && a in s && b in s && a != b
    ensures Before(s, a, b) <==> if a == s[0] then true else b != s[0] && Before(s[1..], a, b)
  {
    BeforeNeedsBoth(s[1..], a, b);
  }

  lemma {:induction false} InsertKeepsDistinct<T(!new)>(x: T, s: seq<T>, key: T -> real)
    requires Distinct(s) && x !in s
    ensures Distinct(Insert(x, s, key))
    decreases |s|
  {
    if s != [] && key(s[0]) > key(x) {
      InsertKeepsDistinct(x, s[1..], key);
      assert s[0] !in s[1..];
    }
  }

  lemma {:induction false} SortKeepsDistinct<T(!new)>(s: seq<T>, key: T -> real)
    requires Distinct(s)
    ensures Distinct(SortDesc(s, key))
    decreases |s|
  {
    if s != [] {
      SortKeepsDistinct(s[1..], key);
      assert s[0] !in s[1..];
      InsertKeepsDistinct(s[0], SortDesc(s[1..], key), key);
    }
  }

  /** Among distinct elements, `Before` is the order of their places. */
  lemma {:induction false} BeforeIsOrder<T(!new)>(s: seq<T>, i: nat, j: nat)
    requires Distinct(s) && i < |s| && j < |s| && i != j
    ensures Before(s, s[i], s[j]) <==> i < j
    decreases |s|
  {
    assert s[0] !in s[1..];
    HeadComesFirst(s, s[i], s[j]);
    if i > 0 && j > 0 {
      BeforeIsOrder(s[1..], i - 1, j - 1);
    }
  }
}
