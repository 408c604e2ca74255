/** Ordered views of sets: what iterating an ordered map, or sorting a list of ids, yields. */
module Sorting {

  predicate StrictlyAscending(s: seq<int>) {
    forall i, j :: 0 <= i < j < |s| ==> s[i] < s[j]
  }

  predicate NoDuplicates<T(==)>(s: seq<T>) {
    forall i, j :: 0 <= i < j < |s| ==> s[i] != s[j]
  }

  lemma SetIsEmptyOrNot(s: set<int>)
    ensures s == {} || exists x :: x in s
  {
    if forall x :: x !in s {
      assert s == {};
    }
  }

  lemma MapIsEmptyOrNot<V>(m: map<int, V>)
    ensures m == map[] || exists x :: x in m
    ensures m.Keys == {} <==> m == map[]
  {
    if forall x :: x !in m {
      assert m == map[];
    }
  }

  lemma {:induction false} LeastExists(s: set<int>)
    requires s != {}
    ensures exists m :: m in s && forall x :: x in s ==> m <= x
    decreases |s|
  {
    SetIsEmptyOrNot(s);
    var x :| x in s;
    var rest := s - {x};
    if rest == {} {
      assert s == {x};
    } else {
      LeastExists(rest);
      var y :| y in rest && forall z :: z in rest ==> y <= z;
      var m := if x < y then x else y;
      forall z | z in s ensures m <= z {
        assert z == x || z in rest;
      }
    }
  }

  function Least(s: set<int>): (m: int)
    requires s != {}
    ensures m in s && forall x :: x in s ==> m <= x
  {
    LeastExists(s);
    var m :| m in s && forall x :: x in s ==> m <= x;
    m
  }

  /** The elements of a set, smallest first. */
  function Ascending(s: set<int>): (r: seq<int>)
    ensures StrictlyAscending(r)
    ensures forall x :: x in r <==> x in s
    ensures forall i :: 0 <= i < |r| ==> r[i] in s
  {
    if s == {} then []
    else
      var m := Least(s);
      [m] + Ascending(s - {m})
  }

  lemma HeadIsMember(xs: seq<int>)
    ensures xs == [] || xs[0] in xs
  {
  }

  lemma TailMembers(xs: seq<int>)
    requires xs != [] && StrictlyAscending(xs)
    ensures forall x :: x in xs[1..] <==> x in xs && x != xs[0]
    ensures StrictlyAscending(xs[1..])
    ensures forall x :: x in xs ==> xs[0] <= x
  {
    assert xs == [xs[0]] + xs[1..];
    assert xs[0] !in xs[1..];
  }

  /** Two strictly ascending sequences with the same members are the same sequence. */
  lemma {:induction false} SameMembersSameSequence(xs: seq<int>, ys: seq<int>)
    requires StrictlyAscending(xs) && StrictlyAscending(ys)
    requires forall x :: x in xs <==> x in ys
    ensures xs == ys
    decreases |xs|
  {
    HeadIsMember(xs);
    HeadIsMember(ys);
    if xs != [] && ys != [] {
      TailMembers(xs);
      TailMembers(ys);
      SameMembersSameSequence(xs[1..], ys[1..]);
      assert xs == [xs[0]] + xs[1..] && ys == [ys[0]] + ys[1..];
    }
  }

  function Reversed(s: seq<int>): (r: seq<int>)
    ensures |r| == |s|
    ensures forall i :: 0 <= i < |s| ==> r[i] == s[|s| - 1 - i]
    ensures forall x :: x in r <==> x in s
  {
    if s == [] then []
    else
      var r := Reversed(s[1..]) + [s[0]];
      assert forall x :: x in s <==> x == s[0] || x in s[1..];
      r
  }

  // ----- Sorted lists of ids -----

  /** Insert into a strictly ascending list; an element already there is left alone. */
  function InsertSorted(ids: seq<int>, id: int): (r: seq<int>) {
    if ids == [] then [id]
    else if id < ids[0] then [id] + ids
    else if id == ids[0] then ids
    else [ids[0]] + InsertSorted(ids[1..], id)
  }

  lemma {:induction false} InsertSortedMembers(ids: seq<int>, id: int)
    ensures forall x :: x in InsertSorted(ids, id) <==> x in ids || x == id
    decreases |ids|
  {
    if ids != [] && id > ids[0] {
      InsertSortedMembers(ids[1..], id);
      assert ids == [ids[0]] + ids[1..];
    }
  }

  lemma {:induction false} InsertSortedAscends(ids: seq<int>, id: int)
    requires StrictlyAscending(ids)
    ensures StrictlyAscending(InsertSorted(ids, id))
    decreases |ids|
  {
    if ids != [] && id > ids[0] {
      var rest := InsertSorted(ids[1..], id);
      InsertSortedAscends(ids[1..], id);
      InsertSortedMembers(ids[1..], id);
      forall x | x in rest ensures ids[0] < x {
        if x != id {
          assert x in ids[1..];
        }
      }
      AscendsFromHead(ids[0], rest);
    } else if ids != [] && id < ids[0] {
      AscendsFromHead(id, ids);
    }
  }

  lemma AscendsFromHead(head: int, rest: seq<int>)
    requires StrictlyAscending(rest) && forall x :: x in rest ==> head < x
    ensures StrictlyAscending([head] + rest)
  {
    var s := [head] + rest;
    forall i, j | 0 <= i < j < |s| ensures s[i] < s[j] {
      assert s[j] == rest[j - 1] && rest[j - 1] in rest;
      assert i > 0 ==> s[i] == rest[i - 1];
    }
  }

  function RemoveSorted(ids: seq<int>, id: int): (r: seq<int>) {
    if ids == [] then []
    else if id == ids[0] then ids[1..]
    else [ids[0]] + RemoveSorted(ids[1..], id)
  }

  lemma {:induction false} RemoveSortedProperties(ids: seq<int>, id: int)
    requires StrictlyAscending(ids)
    ensures StrictlyAscending(RemoveSorted(ids, id))
    ensures forall x :: x in RemoveSorted(ids, id) <==> x in ids && x != id
    decreases |ids|
  {
    if ids != [] {
      var head, tail := ids[0], ids[1..];
      assert ids == [head] + tail;
      assert forall x :: x in tail ==> head < x;
      if id != head {
        RemoveSortedProperties(tail, id);
        AscendsFromHead(head, RemoveSorted(tail, id));
      }
    }
  }

  /** Sorting ids; an id listed twice is kept once. */
  function Sorted(ids: seq<int>): (r: seq<int>) {
    if ids == [] then [] else InsertSorted(Sorted(ids[1..]), ids[0])
  }

  lemma {:induction false} SortedIsAscending(ids: seq<int>)
    ensures StrictlyAscending(Sorted(ids))
    ensures forall x :: x in Sorted(ids) <==> x in ids
    decreases |ids|
  {
    if ids != [] {
      SortedIsAscending(ids[1..]);
      InsertSortedAscends(Sorted(ids[1..]), ids[0]);
      InsertSortedMembers(Sorted(ids[1..]), ids[0]);
      assert ids == [ids[0]] + ids[1..];
    }
  }

  /** Dropping every occurrence of one element, keeping the order of the rest. */
  function Without(s: seq<int>, x: int): (r: seq<int>) {
    if s == [] then []
    else if s[0] == x then Without(s[1..], x)
    else [s[0]] + Without(s[1..], x)
  }

  lemma {:induction false} WithoutProperties(s: seq<int>, x: int)
    ensures forall y :: y in Without(s, x) <==> y in s && y != x
    ensures NoDuplicates(s) ==> NoDuplicates(Without(s, x))
    decreases |s|
  {
    if s != [] {
      WithoutProperties(s[1..], x);
      assert s == [s[0]] + s[1..];
      if NoDuplicates(s) {
        forall i | 0 <= i < |s[1..]| ensures s[1..][i] != s[0] {
          assert s[1..][i] == s[i + 1];
        }
        assert s[0] !in Without(s[1..], x);
      }
    }
  }

  lemma NoDuplicatesTail(ids: seq<int>)
    requires NoDuplicates(ids) && ids != []
    ensures NoDuplicates(ids[1..]) && ids[0] !in ids[1..]
    ensures ids == [ids[0]] + ids[1..]
  {
    forall i | 0 <= i < |ids[1..]| ensures ids[1..][i] != ids[0] {
      assert ids[1..][i] == ids[i + 1];
    }
  }
}
