/** Ordered lists of attraction identifiers, and the array operations the
    favourites store applies to them: `indexOf`, `includes`, `splice(i, 1)`
    and `push`. Everything here is pure; the store in favorites.dfy is the
    part that changes state. */
module IdLists {

  /** An attraction identifier, compared with strict equality. */
  type Id = string

  /** The list holds each identifier at most once. */
  predicate NoDuplicates(s: seq<Id>) {
    forall i, j :: 0 <= i < j < |s| ==> s[i] != s[j]
  }

  /** The identifiers the list holds, forgetting order and repetition. */
  function Elements(s: seq<Id>): set<Id> {
    set x | x in s
  }

  /** `Array.prototype.indexOf`: the first index holding `x`, or -1. */
  function IndexOf(s: seq<Id>, x: Id): (i: int)
    ensures -1 <= i < |s|
    ensures i == -1 <==> x !in s
    ensures 0 <= i ==> s[i] == x && forall j :: 0 <= j < i ==> s[j] != x
  {
    if |s| == 0 then -1
    else if s[0] == x then 0
    else
      var k := IndexOf(s[1..], x);
      if k == -1 then -1 else k + 1
  }

  /** `Array.prototype.includes`: whether some element equals `x`. */
  function Contains(s: seq<Id>, x: Id): (b: bool)
    ensures b <==> x in s
  {
    |s| > 0 && (s[0] == x || Contains(s[1..], x))
  }

  /** The list without its first occurrence of `x`: one element fewer, the
      same multiset minus one `x`. */
  function RemoveFirst(s: seq<Id>, x: Id): (r: seq<Id>)
    requires x in s
    ensures |r| == |s| - 1
    ensures multiset(r) == multiset(s) - multiset{x}
  {
    if s[0] == x then
      assert s == [s[0]] + s[1..];
      s[1..]
    else
      assert s == [s[0]] + s[1..];
      [s[0]] + RemoveFirst(s[1..], x)
  }

  /** What toggling `x` should do to the list, stated without indices:
      drop its first occurrence if it is there, otherwise add it at the end. */
  function Toggled(s: seq<Id>, x: Id): (r: seq<Id>)
    ensures |r| == if x in s then |s| - 1 else |s| + 1
  {
    if x in s then RemoveFirst(s, x) else s + [x]
  }

  /** `splice(i, 1)` removes exactly the first occurrence found by `indexOf`:
      the elements before it and after it keep their order. */
  lemma {:induction false} RemoveFirstIsSplice(s: seq<Id>, x: Id)
    requires x in s
    ensures RemoveFirst(s, x) == s[..IndexOf(s, x)] + s[IndexOf(s, x) + 1..]
  {
    if s[0] != x {
      RemoveFirstIsSplice(s[1..], x);
      SpliceAfterHead(s, IndexOf(s[1..], x));
    }
  }

  /** Cutting index `k + 1` out of a list keeps its head in front of the
      tail with index `k` cut out. */
  lemma SpliceAfterHead(s: seq<Id>, k: nat)
    requires k + 1 < |s|
    ensures s[..k + 1] + s[k + 2..] == [s[0]] + (s[1..][..k] + s[1..][k + 1..])
  {
    assert s[..k + 1] == [s[0]] + s[1..][..k];
    assert s[k + 2..] == s[1..][k + 1..];
  }

  /** Removing an element never introduces a duplicate. */
  lemma {:induction false} RemoveFirstKeepsNoDuplicates(s: seq<Id>, x: Id)
    requires x in s && NoDuplicates(s)
    ensures NoDuplicates(RemoveFirst(s, x))
  {
    if s[0] != x {
      assert NoDuplicates(s[1..]);
      RemoveFirstKeepsNoDuplicates(s[1..], x);
      var rest := RemoveFirst(s[1..], x);
      assert s[0] !in multiset(s[1..]);
      assert s[0] !in multiset(rest);
      assert s[0] !in rest;
      assert RemoveFirst(s, x) == [s[0]] + rest;
    }
  }

  /** The uniqueness invariant: a duplicate-free list stays duplicate-free
      under toggling. */
  lemma ToggleKeepsNoDuplicates(s: seq<Id>, x: Id)
    requires NoDuplicates(s)
    ensures NoDuplicates(Toggled(s, x))
  {
    if x in s {
      RemoveFirstKeepsNoDuplicates(s, x);
    }
  }

  /** On a duplicate-free list, removing the first occurrence of `x` removes
      the only one. */
  lemma {:induction false} RemoveFirstRemovesAll(s: seq<Id>, x: Id)
    requires x in s && NoDuplicates(s)
    ensures x !in RemoveFirst(s, x)
  {
    if s[0] == x {
      assert forall j :: 1 <= j < |s| ==> s[j] != s[0];
    } else {
      assert NoDuplicates(s[1..]);
      RemoveFirstRemovesAll(s[1..], x);
    }
  }

  /** On a duplicate-free list toggling `x` flips whether `x` is a favourite
      and leaves every other identifier's membership as it was. */
  lemma ToggleFlipsMembership(s: seq<Id>, x: Id)
    requires NoDuplicates(s)
    ensures x in Toggled(s, x) <==> x !in s
    ensures forall y :: y != x ==> (y in Toggled(s, x) <==> y in s)
  {
    if x in s {
      RemoveFirstRemovesAll(s, x);
      var r := RemoveFirst(s, x);
      forall y | y != x
        ensures y in r <==> y in s
      {
        assert multiset(r)[y] == multiset(s)[y];
      }
    }
  }

  /** Toggling an absent identifier twice gives back exactly the original
      list, order included. */
  lemma ToggleTwiceAbsent(s: seq<Id>, x: Id)
    requires x !in s
    ensures Toggled(Toggled(s, x), x) == s
  {
    var t := s + [x];
    RemoveFirstIsSplice(t, x);
    assert IndexOf(t, x) == |s|;
    assert t[..|s|] == s;
  }

  /** Toggling a present identifier twice, on a duplicate-free list, gives
      back the same favourites (the identifier moves to the end). */
  lemma ToggleTwicePresent(s: seq<Id>, x: Id)
    requires NoDuplicates(s) && x in s
    ensures Elements(Toggled(Toggled(s, x), x)) == Elements(s)
    ensures Toggled(Toggled(s, x), x) == RemoveFirst(s, x) + [x]
  {
    var t := Toggled(s, x);
    ToggleFlipsMembership(s, x);
    ToggleKeepsNoDuplicates(s, x);
    ToggleFlipsMembership(t, x);
  }

  /** On a duplicate-free list the length is the number of distinct
      identifiers it holds. */
  lemma {:induction false} LengthIsDistinctCount(s: seq<Id>)
    ensures NoDuplicates(s) ==> |s| == |Elements(s)|
  {
    if NoDuplicates(s) && s != [] {
      var tail := s[1..];
      assert NoDuplicates(tail);
      LengthIsDistinctCount(tail);
      assert s[0] !in tail;
      assert Elements(s) == Elements(tail) + {s[0]};
    }
  }
}
