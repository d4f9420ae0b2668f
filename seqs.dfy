/**
 * The array operations the element tree uses on child lists:
 * `indexOf`, `splice(i, 1)` and `splice(i, 0, x)`.
 */
module Seqs {

  /** No element occurs twice. */
  ghost predicate NoDup<T>(s: seq<T>) {
    forall x | x in s :: multiset(s)[x] <= 1
  }

  /** `s.indexOf(x)`: the first position of `x`, or -1 when `x` does not occur. */
  function IndexOf<T(==)>(s: seq<T>, x: T): (i: int)
    ensures -1 <= i < |s|
    ensures i == -1 <==> x !in s
    ensures 0 <= i ==> s[i] == x && x !in s[..i]
  {
    if |s| == 0 then -1
    else if s[0] == x then 0
    else
      var j := IndexOf(s[1..], x);
      assert s[1..][..if j < 0 then 0 else j] == s[1..if j < 0 then 1 else j + 1];
      if j == -1 then -1 else j + 1
  }

  /** `s.splice(s.indexOf(x), 1)` when `x` occurs; `s` unchanged otherwise. */
  function RemoveFirst<T(==)>(s: seq<T>, x: T): (r: seq<T>)
    ensures multiset(r) == multiset(s) - multiset{x}
    ensures x !in s ==> r == s
    ensures x in s ==> s == r[..IndexOf(s, x)] + [x] + r[IndexOf(s, x)..]
  {
    var i := IndexOf(s, x);
    if i < 0 then s
    else
      assert s == s[..i] + [x] + s[i + 1..];
      var r := s[..i] + s[i + 1..];
      assert r[..i] == s[..i] && r[i..] == s[i + 1..];
      r
  }

  /** `s.splice(i, 0, x)`: `x` placed at position `i`, everything from `i` on shifted right. */
  function InsertAt<T>(s: seq<T>, i: nat, x: T): (r: seq<T>)
    requires i <= |s|
    ensures multiset(r) == multiset(s) + multiset{x}
    ensures |r| == |s| + 1 && r[i] == x
    ensures r[..i] == s[..i] && r[i + 1..] == s[i..]
  {
    assert s == s[..i] + s[i..];
    s[..i] + [x] + s[i..]
  }

  /** Removing an element from a list without duplicates leaves no copy of it. */
  lemma RemoveFirstNoDup<T>(s: seq<T>, x: T)
    requires NoDup(s)
    ensures NoDup(RemoveFirst(s, x)) && x !in RemoveFirst(s, x)
    ensures forall y :: y in RemoveFirst(s, x) <==> y in s && y != x
  {
    var r := RemoveFirst(s, x);
    forall y ensures y in r <==> y in s && y != x {
      assert y in r <==> multiset(r)[y] > 0;
      assert y in s <==> multiset(s)[y] > 0;
    }
  }

  /** Adding an element that was absent keeps a list free of duplicates. */
  lemma AddFreshNoDup<T>(s: seq<T>, r: seq<T>, x: T)
    requires NoDup(s) && x !in s
    requires multiset(r) == multiset(s) + multiset{x}
    ensures NoDup(r) && multiset(r)[x] == 1
    ensures forall y :: y in r <==> y in s || y == x
  {
    assert multiset(s)[x] == 0;
    forall y ensures y in r <==> y in s || y == x {
      assert y in r <==> multiset(r)[y] > 0;
      assert y in s <==> multiset(s)[y] > 0;
    }
  }

  /** In a list without repetitions, an entry does not occur before its own position. */
  lemma NoDupPrefix<T>(s: seq<T>, i: nat)
    requires NoDup(s) && i < |s|
    ensures s[i] !in s[..i]
  {
    assert s == s[..i] + s[i..];
    assert multiset(s) == multiset(s[..i]) + multiset(s[i..]);
    assert s[i] in s[i..];
    assert s[i] in s;
    assert multiset(s)[s[i]] <= 1;
  }

  /** The prefix as long as the list is the list. */
  lemma TakeAll<T>(s: seq<T>)
    ensures s[..|s|] == s
  {
  }
}
