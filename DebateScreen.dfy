/** The debate phase (screens/DebateScreen.tsx): an optional countdown that
    starts the vote by itself, once, when it reaches zero. */
module Debate {
  import opened Strings

  const MinDebateSeconds := 15
  const DefaultDebateSeconds := 60

  /** `Math.max(15, timerSeconds || 60)`: zero falls back to a minute, and no
      debate is shorter than 15 seconds. */
  function Duration(timerSeconds: int): (r: int)
    ensures r >= MinDebateSeconds
    ensures timerSeconds == 0 ==> r == DefaultDebateSeconds
    ensures timerSeconds >= MinDebateSeconds ==> r == timerSeconds
    ensures timerSeconds != 0 && timerSeconds < MinDebateSeconds ==> r == MinDebateSeconds
  {
    var requested := if timerSeconds == 0 then DefaultDebateSeconds else timerSeconds;
    if requested > MinDebateSeconds then requested else MinDebateSeconds
  }

  /** The seconds of a minute as two digits. */
  function TwoDigits(s: nat): (r: string)
    requires s < 60
  {
    (if s < 10 then "0" else "") + NatToString(s)
  }

  lemma TwoDigitsValue(s: nat)
    requires s < 60
    ensures |TwoDigits(s)| == 2 && AllDigits(TwoDigits(s)) && ParseNat(TwoDigits(s)) == s
  {
    ParseNatToString(s);
    if s < 10 {
      var t := TwoDigits(s);
      assert t == ['0', DigitChar(s)];
      assert t[..1] == "0";
    }
  }

  /** `formatTime`: minutes, a colon, then the seconds padded to two digits. */
  function FormatTime(seconds: nat): (r: string)
  {
    NatToString(seconds / 60) + ":" + TwoDigits(seconds % 60)
  }

  /** The clock face reads back as the minutes and seconds it shows: digits,
      a colon, and exactly two digits of seconds. */
  lemma FormatTimeReadsBack(seconds: nat)
    ensures var r := FormatTime(seconds);
      && |r| >= 4 && r[|r| - 3] == ':'
      && AllDigits(r[..|r| - 3]) && AllDigits(r[|r| - 2..])
      && 60 * ParseNat(r[..|r| - 3]) + ParseNat(r[|r| - 2..]) == seconds
  {
    var m, s := NatToString(seconds / 60), TwoDigits(seconds % 60);
    var r := FormatTime(seconds);
    TwoDigitsValue(seconds % 60);
    ParseNatToString(seconds / 60);
    assert r == m + ":" + s;
    assert r[..|r| - 3] == m;
    assert r[|r| - 2..] == s;
  }

  class DebateTimer {
    const timerEnabled: bool
    var duration: int
    var timeLeft: int
    /** `autoVoteTriggeredRef.current`. */
    var autoVoteTriggered: bool
    /** Votes started by the timer since the duration was last set. */
    ghost var autoVotes: nat

    ghost predicate Valid()
      reads this
    {
      && 0 <= timeLeft <= duration
      && autoVotes == (if autoVoteTriggered then 1 else 0)
      && (!timerEnabled ==> autoVotes == 0)
    }

    /** The screen mounts: the countdown is full and the auto-vote armed. */
    constructor(enabled: bool, timerSeconds: int)
      ensures Valid()
      ensures timerEnabled == enabled && duration == Duration(timerSeconds)
      ensures timeLeft == duration && !autoVoteTriggered && autoVotes == 0
    {
      timerEnabled := enabled;
      duration := Duration(timerSeconds);
      timeLeft := Duration(timerSeconds);
      autoVoteTriggered := false;
      autoVotes := 0;
    }

    /** One second of the interval, which only runs while enabled and above zero. */
    method Tick()
      requires Valid()
      modifies this`timeLeft
      ensures Valid()
      ensures timeLeft == if timerEnabled && old(timeLeft) > 0 then old(timeLeft) - 1 else old(timeLeft)
    {
      if timerEnabled && timeLeft > 0 {
        timeLeft := timeLeft - 1;
      }
    }

    /** The auto-vote effect: at zero, with the timer on, it calls `onVote`
        once and disarms itself. */
    method CheckAutoVote() returns (vote: bool)
      requires Valid()
      modifies this`autoVoteTriggered, this`autoVotes
      ensures Valid()
      ensures vote <==> timerEnabled && timeLeft == 0 && !old(autoVoteTriggered)
      ensures vote ==> old(autoVotes) == 0 && autoVotes == 1
      ensures !vote ==> autoVotes == old(autoVotes) && autoVoteTriggered == old(autoVoteTriggered)
      ensures autoVotes <= 1
    {
      vote := false;
      if !timerEnabled || timeLeft != 0 || autoVoteTriggered {
        return;
      }
      autoVoteTriggered := true;
      autoVotes := autoVotes + 1;
      vote := true;
    }

    /** New configuration props: when the resulting duration differs, the
        countdown restarts from it and the auto-vote is armed again. */
    method ChangeTimerSeconds(timerSeconds: int)
      requires Valid()
      modifies this`duration, this`timeLeft, this`autoVoteTriggered, this`autoVotes
      ensures Valid()
      ensures duration == Duration(timerSeconds)
      ensures duration == old(duration) ==>
        timeLeft == old(timeLeft) && autoVoteTriggered == old(autoVoteTriggered) && autoVotes == old(autoVotes)
      ensures duration != old(duration) ==> timeLeft == duration && !autoVoteTriggered && autoVotes == 0
    {
      var next := Duration(timerSeconds);
      if next != duration {
        duration := next;
        timeLeft := next;
        autoVoteTriggered := false;
        autoVotes := 0;
      }
    }
  }
}
