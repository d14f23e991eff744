/** Play mode: the user plays one game in two clicks. The first click picks a
    door, and the host then opens a goat door; the second click is the final
    choice. The three fields that remember the game between clicks are
    updated in place, and they are all empty between games. */
module PlayMode {
  import opened Wrappers
  import opened Doors
  import opened Resolver

  /** What a click leads to: the host opens a door (first click), nothing
      happens (a click on the opened door), or the game ends. */
  datatype ClickEffect = Revealed(door: Door) | Ignored | Finished(won: bool, switched: bool)

  class PlayStage {
    var playDoor: Option<Door>
    var revealedDoor: Option<Door>
    var winningDoor: Option<Door>

    /** Either no game is under way and all three fields are empty, or the
        first click has been made and the opened door is a goat door other
        than the contestant's. */
    ghost predicate Valid()
      reads this
    {
      (playDoor.None? <==> revealedDoor.None?) && (playDoor.None? <==> winningDoor.None?)
      && (playDoor.Some? ==>
            revealedDoor.value != playDoor.value && revealedDoor.value != winningDoor.value)
    }

    ghost predicate AwaitingFirstPick()
      reads this
    {
      playDoor == None && revealedDoor == None && winningDoor == None
    }

    constructor ()
      ensures Valid() && AwaitingFirstPick()
    {
      playDoor, revealedDoor, winningDoor := None, None, None;
    }

    /** Forget the current game. */
    method ResetPlayStage()
      modifies this
      ensures Valid() && AwaitingFirstPick()
    {
      playDoor := None;
      revealedDoor := None;
      winningDoor := None;
    }

    /** A click on door `idx`. On the first click the resolver is consulted
        (with a switching contestant, only for the door it opens and the car);
        `winning` and `hostPick` are its random draws. */
    method OnDoorClick(idx: Door, winning: Door, hostPick: nat) returns (effect: ClickEffect)
      requires Valid()
      modifies this
      ensures Valid()
      ensures old(playDoor).None? ==>
        var o := PlayMonteHall(idx, true, winning, hostPick);
        playDoor == Some(idx) && revealedDoor == Some(o.shown) && winningDoor == Some(winning)
        && effect == Revealed(o.shown) && o.shown != idx && o.shown != winning
      ensures old(playDoor).Some? ==>
        playDoor == old(playDoor) && revealedDoor == old(revealedDoor) && winningDoor == old(winningDoor)
      ensures old(playDoor).Some? ==>
        (effect.Ignored? <==> Some(idx) == revealedDoor)
      ensures old(playDoor).Some? && Some(idx) != revealedDoor ==>
        effect == Finished(Some(idx) == winningDoor, Some(idx) != playDoor)
      ensures effect.Finished? ==>
        (effect.won <==> (effect.switched <==> playDoor.value != winningDoor.value))
    {
      if playDoor.None? {
        playDoor := Some(idx);
        var o := PlayMonteHall(idx, true, winning, hostPick);
        revealedDoor := Some(o.shown);
        winningDoor := Some(o.winning);
        effect := Revealed(o.shown);
      } else {
        if Some(idx) == revealedDoor {
          return Ignored;
        }
        var switched := Some(idx) != playDoor;
        var won := Some(idx) == winningDoor;
        effect := Finished(won, switched);
      }
    }
  }

  /** One game in play mode from a fresh board: the first click on `first`,
      then a click on `second`. The game ends unless `second` is the opened
      door, and it is won exactly when the user switched away from a wrong
      first pick or stayed on a right one. */
  method PlayOneGame(first: Door, second: Door, winning: Door, hostPick: nat) returns (effect: ClickEffect)
    ensures var shown := PlayMonteHall(first, true, winning, hostPick).shown;
      (effect.Ignored? <==> second == shown)
      && (second != shown ==> effect == Finished(second == winning, second != first))
      && (effect.Finished? ==> (effect.won <==> (effect.switched <==> first != winning)))
  {
    var stage := new PlayStage();
    var opening := stage.OnDoorClick(first, winning, hostPick);
    assert opening == Revealed(PlayMonteHall(first, true, winning, hostPick).shown);
    effect := stage.OnDoorClick(second, winning, hostPick);
  }
}
