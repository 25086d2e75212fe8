/** The role reveal (screens/RevealScreen.tsx): the device passes from player
    to player; each slides a shutter up to see their role, and may hand on only
    once the shutter has gone high enough and the drag is over. */
module Reveal {
  import opened Types

  const RevealThreshold: real := 85.0
  const SnapClosedBelow: real := 35.0
  const SnapOpenAbove: real := 65.0

  /** `Math.max(0, Math.min(100, p))`. */
  function ClampPercent(p: real): (r: real)
    ensures 0.0 <= r <= 100.0
    ensures r == p <==> 0.0 <= p <= 100.0
    ensures p < 0.0 ==> r == 0.0
    ensures p > 100.0 ==> r == 100.0
  {
    if p > 100.0 then 100.0 else if p < 0.0 then 0.0 else p
  }

  class RevealScreen {
    const players: seq<Player>
    var currentIndex: int
    var shutterPos: real
    var isDragging: bool
    var hasRevealedEnough: bool
    /** The shutter position when the current drag began (`currentY`). */
    var dragOrigin: real
    /** The players who have already handed the device on, in order. */
    ghost var passed: seq<Player>

    ghost predicate Valid()
      reads this
    {
      && 0.0 <= shutterPos <= 100.0
      && 0 <= currentIndex <= |players|
      && (currentIndex < |players| || players == [])
      && (passed == players[..currentIndex] || (currentIndex == |players| - 1 && passed == players))
    }

    constructor(ps: seq<Player>)
      ensures Valid()
      ensures players == ps && currentIndex == 0 && shutterPos == 0.0
      ensures !isDragging && !hasRevealedEnough && passed == []
    {
      players := ps;
      currentIndex := 0;
      shutterPos := 0.0;
      isDragging := false;
      hasRevealedEnough := false;
      dragOrigin := 0.0;
      passed := [];
    }

    /** `handleStart`: a drag begins from the current position. */
    method HandleStart()
      requires Valid()
      modifies this`isDragging, this`dragOrigin
      ensures Valid()
      ensures isDragging && dragOrigin == shutterPos
      ensures !NextOffered()
    {
      isDragging := true;
      dragOrigin := shutterPos;
    }

    /** `handleMove`, given the unclamped percentage the pointer geometry yields.
        Outside a drag, or before the shutter is laid out, nothing changes. */
    method HandleMove(percentage: real, laidOut: bool)
      requires Valid()
      modifies this`shutterPos, this`hasRevealedEnough
      ensures Valid()
      ensures !isDragging || !laidOut ==>
        shutterPos == old(shutterPos) && hasRevealedEnough == old(hasRevealedEnough)
      ensures isDragging && laidOut ==>
        && shutterPos == ClampPercent(percentage)
        && hasRevealedEnough == (old(hasRevealedEnough) || shutterPos > RevealThreshold)
    {
      if !isDragging || !laidOut {
        return;
      }
      shutterPos := ClampPercent(percentage);
      if shutterPos > RevealThreshold {
        hasRevealedEnough := true;
      }
    }

    /** `handleEnd`: the drag stops and the shutter snaps shut below 35 and open
        above 65; in between it stays where it was let go. */
    method HandleEnd()
      requires Valid()
      modifies this`isDragging, this`shutterPos, this`hasRevealedEnough
      ensures Valid()
      ensures !isDragging
      ensures old(shutterPos) < SnapClosedBelow ==> shutterPos == 0.0 && !hasRevealedEnough
      ensures old(shutterPos) > SnapOpenAbove ==> shutterPos == 100.0 && hasRevealedEnough
      ensures SnapClosedBelow <= old(shutterPos) <= SnapOpenAbove ==>
        shutterPos == old(shutterPos) && hasRevealedEnough == old(hasRevealedEnough)
      ensures old(shutterPos) > SnapOpenAbove && players != [] ==> NextOffered()
      ensures old(shutterPos) < SnapClosedBelow ==> !NextOffered()
    {
      isDragging := false;
      if shutterPos < SnapClosedBelow {
        shutterPos := 0.0;
        hasRevealedEnough := false;
      } else if shutterPos > SnapOpenAbove {
        shutterPos := 100.0;
        hasRevealedEnough := true;
      }
    }

    /** The "next" button is on screen: a player is shown, the shutter went
        high enough, and no drag is under way. */
    predicate NextOffered()
      reads this
    {
      0 <= currentIndex < |players| && hasRevealedEnough && !isDragging
    }

    /** `handleNext`: after the last player the walk is over (`onFinished`);
        otherwise the next player gets a closed shutter. */
    method HandleNext() returns (finished: bool)
      requires Valid() && NextOffered()
      requires passed == players[..currentIndex]
      modifies this`currentIndex, this`shutterPos, this`hasRevealedEnough, this`passed
      ensures Valid()
      ensures passed == old(passed) + [players[old(currentIndex)]]
      ensures finished <==> old(currentIndex) == |players| - 1
      ensures finished ==>
        && passed == players && currentIndex == old(currentIndex)
        && shutterPos == old(shutterPos) && hasRevealedEnough == old(hasRevealedEnough)
      ensures !finished ==>
        && currentIndex == old(currentIndex) + 1 && passed == players[..currentIndex]
        && shutterPos == 0.0 && !hasRevealedEnough
    {
      passed := passed + [players[currentIndex]];
      assert passed == players[..currentIndex + 1];
      if currentIndex == |players| - 1 {
        assert players[..currentIndex + 1] == players;
        finished := true;
      } else {
        currentIndex := currentIndex + 1;
        shutterPos := 0.0;
        hasRevealedEnough := false;
        finished := false;
      }
    }
  }
}
