/** The trial resolver: one game of Monty Hall. The two random draws of the
    source (the winning door and the host's choice among the doors he may
    open) are parameters, so the resolver is a total function of the
    contestant's door, the switch decision and those draws. */
module Resolver {
  import opened Doors

  /** What one game returns: whether the contestant won, the door the host
      opened, and the door hiding the car. */
  datatype Outcome = Outcome(won: bool, shown: Door, winning: Door)

  /** The doors the host may open: neither the contestant's door nor the car.
      There are two when the first pick is the car and one otherwise, so
      `random.choice` always has a door to draw. */
  function Remaining(door: Door, winning: Door): (r: seq<Door>)
    ensures forall d: Door :: d in r <==> d != door && d != winning
    ensures |r| == if door == winning then 2 else 1
  {
    ListedIsSortedListing(AllDoors - {door, winning});
    Listed(AllDoors - {door, winning})
  }

  /** `random.choice(xs)` when the random source yields `k`: the entry at
      `k` reduced modulo the length of `xs`, so every entry can be drawn. */
  function Choice(xs: seq<Door>, k: nat): (r: Door)
    requires xs != []
    ensures r in xs
    decreases k
  {
    if k < |xs| then xs[k] else Choice(xs, k - |xs|)
  }

  /** The door a switching contestant moves to: the first door, other than
      the contestant's own, among the doors the host left closed. */
  function SwitchTarget(door: Door, shown: Door): (r: Door)
    requires door != shown
    ensures r != door && r != shown
    ensures {door, shown, r} == AllDoors
  {
    var candidates := Listed(AllDoors - {shown});
    SwitchCandidates(shown);
    var other := if candidates[0] == door then 1 else 0;
    assert candidates[other] in candidates && candidates[other] != door;
    FirstOther(candidates, door).value
  }

  /** The doors left after the host opened `shown`, in list order. */
  lemma SwitchCandidates(shown: Door)
    ensures Listed(AllDoors - {shown}) == if shown == 0 then [1, 2] else if shown == 1 then [0, 2] else [0, 1]
  {
    if shown == 0 {
      assert AllDoors - {shown} == {1, 2};
    } else if shown == 1 {
      assert AllDoors - {shown} == {0, 2};
    } else {
      assert AllDoors - {shown} == {0, 1};
    }
  }

  /** One game. `winning` is the source's `random.randint(0, 2)`; the host's
      `random.choice(remaining)` picks entry `hostPick % |remaining|`, which
      ranges over exactly the doors the host may open. */
  function PlayMonteHall(door: Door, switch: bool, winning: Door, hostPick: nat): (o: Outcome)
    ensures o.winning == winning
    ensures o.shown != door && o.shown != winning
    ensures o.won <==> (if switch then door != winning else door == winning)
  {
    var remaining := Remaining(door, winning);
    var shown := Choice(remaining, hostPick);
    var target := SwitchTarget(door, shown);
    var finalDoor := if !switch then door else target;
    Outcome(finalDoor == winning, shown, winning)
  }

  /** When the first pick is the car the host has a genuine choice, and each
      of the two goat doors can be the one he opens; otherwise the door he
      opens is forced. */
  lemma {:induction false} HostChoice(door: Door, winning: Door)
    ensures door == winning ==>
      {PlayMonteHall(door, true, winning, 0).shown, PlayMonteHall(door, true, winning, 1).shown} == AllDoors - {door}
    ensures door != winning ==>
      forall k: nat :: {door, winning, PlayMonteHall(door, true, winning, k).shown} == AllDoors
  {
    var r := Remaining(door, winning);
    if door == winning {
      assert PlayMonteHall(door, true, winning, 0).shown == r[0];
      assert PlayMonteHall(door, true, winning, 1).shown == r[1];
    }
  }

  /** Whether the contestant wins does not depend on which goat door the host
      opens. */
  lemma {:induction false} WonIgnoresHostPick(door: Door, switch: bool, winning: Door, k1: nat, k2: nat)
    ensures PlayMonteHall(door, switch, winning, k1).won == PlayMonteHall(door, switch, winning, k2).won
  {
  }

  /** 1 when the game is won, 0 otherwise. */
  function WinValue(door: Door, switch: bool, winning: Door, hostPick: nat): nat
  {
    if PlayMonteHall(door, switch, winning, hostPick).won then 1 else 0
  }

  /** Games won over all nine equally likely pairs (first pick, car), whatever
      rule `host` the host follows to choose among the doors he may open. */
  function WinCount(switch: bool, host: (Door, Door) -> nat): nat
  {
    RowWins(0, switch, host) + RowWins(1, switch, host) + RowWins(2, switch, host)
  }

  function RowWins(door: Door, switch: bool, host: (Door, Door) -> nat): nat
  {
    WinValue(door, switch, 0, host(door, 0)) + WinValue(door, switch, 1, host(door, 1))
      + WinValue(door, switch, 2, host(door, 2))
  }

  /** The finite counterpart of the 2/3 against 1/3 claim: switching wins
      six of the nine pairs and staying wins three, for every host rule. */
  lemma {:induction false} SwitchWinsSixOfNine(host: (Door, Door) -> nat)
    ensures WinCount(true, host) == 6
    ensures WinCount(false, host) == 3
  {
  }
}
