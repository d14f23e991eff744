/** The three doors of the game and the two list operations the resolver
    performs on them: turning a set of doors into a Python list, and taking
    the first element of a list that differs from a given door. */
module Doors {
  import opened Wrappers

  /** A door index; the game always has exactly the doors 0, 1 and 2. */
  type Door = d: int | 0 <= d < 3

  const AllDoors: set<Door> := {0, 1, 2}

  /** `list(s)` for a set of doors. CPython stores small integers in a set by
      their own value, so the list comes out in ascending order. */
  function Listed(s: set<Door>): seq<Door>
  {
    (if 0 in s then [0] else []) + (if 1 in s then [1] else []) + (if 2 in s then [2] else [])
  }

  /** The list holds exactly the doors of the set, in strictly ascending
      order, so each of them once. */
  lemma ListedIsSortedListing(s: set<Door>)
    ensures forall d :: d in Listed(s) <==> d in s
    ensures forall i, j :: 0 <= i < j < |Listed(s)| ==> Listed(s)[i] < Listed(s)[j]
  {
  }

  /** `next(i for i in xs if i != door)`: the first element of `xs` other
      than `door`; `None` stands for the StopIteration Python would raise. */
  function FirstOther(xs: seq<Door>, door: Door): (r: Option<Door>)
    ensures r.Some? ==> r.value in xs && r.value != door
    ensures r.None? ==> forall x :: x in xs ==> x == door
  {
    if xs == [] then None
    else if xs[0] != door then Some(xs[0])
    else
      assert forall x :: x in xs ==> x == xs[0] || x in xs[1..];
      FirstOther(xs[1..], door)
  }

  /** `FirstOther` returns the first element of the list that differs from
      `door`: every element before it is `door`. */
  lemma {:induction false} FirstOtherIsFirst(xs: seq<Door>, door: Door)
    requires FirstOther(xs, door).Some?
    ensures exists k :: 0 <= k < |xs| && xs[k] == FirstOther(xs, door).value
                        && forall i :: 0 <= i < k ==> xs[i] == door
  {
    if xs[0] != door {
      assert xs[0] == FirstOther(xs, door).value;
    } else {
      FirstOtherIsFirst(xs[1..], door);
      var k :| 0 <= k < |xs[1..]| && xs[1..][k] == FirstOther(xs[1..], door).value
               && forall i :: 0 <= i < k ==> xs[1..][i] == door;
      assert xs[k + 1] == FirstOther(xs, door).value;
      forall i | 0 <= i < k + 1 ensures xs[i] == door {
        if i > 0 { assert xs[i] == xs[1..][i - 1]; }
      }
    }
  }
}
