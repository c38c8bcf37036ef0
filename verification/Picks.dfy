// What a loop that looks at every element of a list and keeps some of them has kept: the kept ones stand in the order
// of the list, each once for every position that passes the test.
module Picks {

  /** The positions of `s` that pass the test `p`, in increasing order. */
  ghost predicate Positions<T(!new)>(s: seq<T>, p: T -> bool, pos: seq<nat>) {
    && (forall a, b :: 0 <= a < b < |pos| ==> pos[a] < pos[b])
    && (forall i: nat :: i in pos <==> i < |s| && p(s[i]))
  }

  /** `kept` is `f` of the elements at these positions. */
  ghost predicate At<T(!new), U(!new)>(s: seq<T>, f: T -> U, kept: seq<U>, pos: seq<nat>) {
    |pos| == |kept| && forall k :: 0 <= k < |pos| ==> pos[k] < |s| && kept[k] == f(s[pos[k]])
  }

  /** `kept` is `f` of the elements that pass the test, in order. */
  ghost predicate Kept<T(!new), U(!new)>(s: seq<T>, p: T -> bool, f: T -> U, kept: seq<U>) {
    exists pos: seq<nat> :: Positions(s, p, pos) && At(s, f, kept, pos)
  }

  lemma NothingKept<T(!new), U(!new)>(p: T -> bool, f: T -> U)
    ensures Kept([], p, f, [])
  {
    assert Positions([], p, []) && At([], f, [], []);
  }

  lemma PositionsNext<T(!new)>(s: seq<T>, x: T, p: T -> bool, pos: seq<nat>)
    requires Positions(s, p, pos)
    ensures Positions(s + [x], p, if p(x) then pos + [|s|] else pos)
  {
    var more := if p(x) then pos + [|s|] else pos;
    forall i: nat ensures i in more <==> i < |s + [x]| && p((s + [x])[i]) {
      assert i in pos <==> i < |s| && p(s[i]);
    }
    forall a | 0 <= a < |pos| ensures pos[a] < |s| {
      assert pos[a] in pos;
    }
  }

  lemma AtNext<T(!new), U(!new)>(s: seq<T>, x: T, f: T -> U, kept: seq<U>, pos: seq<nat>)
    requires At(s, f, kept, pos)
    ensures At(s + [x], f, kept, pos) && At(s + [x], f, kept + [f(x)], pos + [|s|])
  {
  }

  /** One more element is looked at. */
  lemma KeptNext<T(!new), U(!new)>(s: seq<T>, x: T, p: T -> bool, f: T -> U, kept: seq<U>)
    requires Kept(s, p, f, kept)
    ensures Kept(s + [x], p, f, if p(x) then kept + [f(x)] else kept)
  {
    hide Positions, At;
    var pos: seq<nat> :| Positions(s, p, pos) && At(s, f, kept, pos);
    PositionsNext(s, x, p, pos);
    AtNext(s, x, f, kept, pos);
  }

  /** What is kept comes from elements that pass the test, and from all of them. */
  lemma KeptMember<T(!new), U(!new)>(s: seq<T>, p: T -> bool, f: T -> U, kept: seq<U>)
    requires Kept(s, p, f, kept)
    ensures forall x :: x in kept <==> exists i :: 0 <= i < |s| && p(s[i]) && f(s[i]) == x
  {
    var pos: seq<nat> :| Positions(s, p, pos) && At(s, f, kept, pos);
    forall x ensures x in kept <==> exists i :: 0 <= i < |s| && p(s[i]) && f(s[i]) == x {
      if x in kept {
        var k :| 0 <= k < |kept| && kept[k] == x;
        assert pos[k] in pos;
      }
      if i :| 0 <= i < |s| && p(s[i]) && f(s[i]) == x {
        assert i in pos;
        var k :| 0 <= k < |pos| && pos[k] == i;
        assert kept[k] == x;
      }
    }
  }

  ghost function Passing<T(!new)>(s: seq<T>, p: T -> bool): set<int> {
    set i | 0 <= i < |s| && p(s[i])
  }

  /** As many are kept as positions pass the test. */
  lemma KeptCount<T(!new), U(!new)>(s: seq<T>, p: T -> bool, f: T -> U, kept: seq<U>)
    requires Kept(s, p, f, kept)
    ensures |kept| == |Passing(s, p)|
  {
    hide At;
    var pos: seq<nat> :| Positions(s, p, pos) && At(s, f, kept, pos);
    AtCount(s, f, kept, pos);
    PositionsCount(s, p, pos);
  }

  lemma AtCount<T(!new), U(!new)>(s: seq<T>, f: T -> U, kept: seq<U>, pos: seq<nat>)
    requires At(s, f, kept, pos)
    ensures |pos| == |kept|
  {
  }

  lemma PositionsCount<T(!new)>(s: seq<T>, p: T -> bool, pos: seq<nat>)
    requires Positions(s, p, pos)
    ensures |pos| == |Passing(s, p)|
  {
    IncreasingCount(pos);
    assert Passing(s, p) == set i: int | i in pos;
  }

  lemma {:induction false} IncreasingCount(pos: seq<nat>)
    requires forall a, b :: 0 <= a < b < |pos| ==> pos[a] < pos[b]
    ensures |set i: int | i in pos| == |pos|
  {
    if pos == [] {
      assert (set i: int | i in pos) == {};
    } else {
      var n := |pos| - 1;
      IncreasingCount(pos[..n]);
      assert pos == pos[..n] + [pos[n]];
      assert (set i: int | i in pos) == (set i: int | i in pos[..n]) + {pos[n]};
    }
  }
}
