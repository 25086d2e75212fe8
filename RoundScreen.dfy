/** The clue phase (screens/RoundScreen.tsx): the turn walks through the list
    it is given, optionally requiring a written clue from each player, and
    hands over the recorded clues at the end. */
module Clues {
  import opened Types
  import opened Strings

  /** A recorded clue, with the player's 1-based position in the turn list. */
  datatype RoundClue = RoundClue(playerId: string, playerName: string, text: string, round: int, turnOrder: int)

  const MissingClueWarning: string := "Escribe la pista para continuar (modo registro activo)."

  /** `source[id] || ''`. */
  function ClueText(source: map<string, string>, id: string): string
  {
    if id in source then source[id] else ""
  }

  /** The clue of seat `i`, if its trimmed text is not empty. */
  function ClueAt(players: seq<Player>, source: map<string, string>, round: int, i: nat): seq<RoundClue>
    requires i < |players|
  {
    var text := Trim(ClueText(source, players[i].id));
    if text == "" then [] else [RoundClue(players[i].id, players[i].name, text, round, i + 1)]
  }

  /** `buildRoundClues`: one entry per player with a non-blank clue, in turn order. */
  function BuildRoundClues(players: seq<Player>, source: map<string, string>, round: int): (r: seq<RoundClue>)
    ensures |r| <= |players|
  {
    if players == [] then []
    else BuildRoundClues(players[..|players| - 1], source, round) + ClueAt(players, source, round, |players| - 1)
  }

  /** Seat `i` has a clue that is not blank once trimmed. */
  predicate HasClue(players: seq<Player>, source: map<string, string>, i: int) {
    0 <= i < |players| && Trim(ClueText(source, players[i].id)) != ""
  }

  /** `c` is the clue of the seat its `turnOrder` names. */
  predicate IsClueOfSeat(players: seq<Player>, source: map<string, string>, round: int, c: RoundClue) {
    var i := c.turnOrder - 1;
    && 0 <= i < |players|
    && c.playerId == players[i].id && c.playerName == players[i].name
    && c.text == Trim(ClueText(source, players[i].id)) && c.text != ""
    && c.round == round
  }

  predicate Lists(r: seq<RoundClue>, turnOrder: int) {
    exists k :: 0 <= k < |r| && r[k].turnOrder == turnOrder
  }

  /** Each entry is the trimmed clue of the seat it names, in the round given;
      entries follow the turn list; and every seat with a non-blank clue has
      its entry. */
  ghost predicate IsClueList(players: seq<Player>, source: map<string, string>, round: int, r: seq<RoundClue>) {
    && (forall k :: 0 <= k < |r| ==> IsClueOfSeat(players, source, round, r[k]))
    && (forall k, l :: 0 <= k < l < |r| ==> r[k].turnOrder < r[l].turnOrder)
    && (forall i :: 0 <= i < |players| && HasClue(players, source, i) ==> Lists(r, i + 1))
  }

  lemma {:induction false} BuildRoundCluesSpec(players: seq<Player>, source: map<string, string>, round: int)
    ensures IsClueList(players, source, round, BuildRoundClues(players, source, round))
  {
    if players != [] {
      var n := |players| - 1;
      var prefix := players[..n];
      BuildRoundCluesSpec(prefix, source, round);
      var front := BuildRoundClues(prefix, source, round);
      var last := ClueAt(players, source, round, n);
      var r := front + last;
      assert r == BuildRoundClues(players, source, round);
      forall k | 0 <= k < |r| ensures IsClueOfSeat(players, source, round, r[k]) {
        if k < |front| {
          assert IsClueOfSeat(prefix, source, round, front[k]);
          assert prefix[front[k].turnOrder - 1] == players[front[k].turnOrder - 1];
        }
      }
      forall k, l | 0 <= k < l < |r| ensures r[k].turnOrder < r[l].turnOrder {
        assert IsClueOfSeat(prefix, source, round, front[k]);
        if l >= |front| {
          assert r[l].turnOrder == n + 1;
        }
      }
      forall i | HasClue(players, source, i) ensures Lists(r, i + 1) {
        if i < n {
          assert prefix[i] == players[i];
          assert HasClue(prefix, source, i);
          var k :| 0 <= k < |front| && front[k].turnOrder == i + 1;
          assert r[k] == front[k];
        } else {
          assert r[|front|].turnOrder == i + 1;
        }
      }
    }
  }

  /** Stored clue texts carry no surrounding whitespace. */
  lemma CluesAreTrimmed(players: seq<Player>, source: map<string, string>, round: int)
    ensures forall k :: 0 <= k < |BuildRoundClues(players, source, round)| ==>
      IsTrimmed(BuildRoundClues(players, source, round)[k].text)
  {
    var r := BuildRoundClues(players, source, round);
    BuildRoundCluesSpec(players, source, round);
    forall k | 0 <= k < |r| ensures IsTrimmed(r[k].text) {
      assert IsClueOfSeat(players, source, round, r[k]);
      TrimShape(ClueText(source, players[r[k].turnOrder - 1].id));
    }
  }

  /** Every recorded clue is a real one: non-empty and already trimmed. */
  predicate RealClues(m: map<string, string>) {
    forall id :: id in m ==> m[id] != "" && IsTrimmed(m[id])
  }

  class RoundScreen {
    /** `orderedTurnList`: the players the screen was given, in that order. */
    const turnList: seq<Player>
    const roundNumber: int
    const clueCaptureEnabled: bool
    var currentIndex: int
    var cluesByPlayerId: map<string, string>
    var clueInput: string
    var clueWarning: string

    constructor(players: seq<Player>, round: int, captureEnabled: bool)
      ensures turnList == players && roundNumber == round && clueCaptureEnabled == captureEnabled
      ensures currentIndex == 0 && cluesByPlayerId == map[] && clueInput == "" && clueWarning == ""
    {
      turnList := players;
      roundNumber := round;
      clueCaptureEnabled := captureEnabled;
      currentIndex := 0;
      cluesByPlayerId := map[];
      clueInput := "";
      clueWarning := "";
    }

    /** Typing into the clue field. */
    method SetClueInput(text: string)
      modifies this`clueInput
      ensures clueInput == text
    {
      clueInput := text;
    }

    /** `handleNextPlayer`, followed by the effect that reloads the field and
        clears the warning whenever the turn or the recorded clues change.
        Returns the clues handed to `onCluesFinished` when the last turn ends. */
    method HandleNextPlayer() returns (finished: Option<seq<RoundClue>>)
      modifies this`currentIndex, this`cluesByPlayerId, this`clueInput, this`clueWarning
      ensures !(0 <= old(currentIndex) < |turnList|) || turnList[old(currentIndex)].id == "" ==>
        && finished.None? && currentIndex == old(currentIndex)
        && cluesByPlayerId == old(cluesByPlayerId) && clueInput == old(clueInput) && clueWarning == old(clueWarning)
      ensures 0 <= old(currentIndex) < |turnList| && turnList[old(currentIndex)].id != "" ==>
        var id := turnList[old(currentIndex)].id;
        var trimmed := Trim(old(clueInput));
        if clueCaptureEnabled && trimmed == "" then
          && finished.None? && clueWarning == MissingClueWarning
          && currentIndex == old(currentIndex) && cluesByPlayerId == old(cluesByPlayerId)
          && clueInput == old(clueInput)
        else
          && cluesByPlayerId == old(cluesByPlayerId)[id := trimmed]
          && clueWarning == ""
          && (old(currentIndex) == |turnList| - 1 ==>
                && currentIndex == old(currentIndex)
                && finished == Some(BuildRoundClues(turnList, cluesByPlayerId, roundNumber))
                && clueInput == trimmed)
          && (old(currentIndex) != |turnList| - 1 ==>
                && currentIndex == old(currentIndex) + 1 && finished.None?
                && clueInput == ClueText(cluesByPlayerId, turnList[currentIndex].id))
      ensures clueCaptureEnabled && RealClues(old(cluesByPlayerId)) ==> RealClues(cluesByPlayerId)
    {
      if !(0 <= currentIndex < |turnList|) || turnList[currentIndex].id == "" {
        return None;
      }
      var id := turnList[currentIndex].id;
      var trimmed := Trim(clueInput);
      if clueCaptureEnabled && trimmed == "" {
        clueWarning := MissingClueWarning;
        return None;
      }
      if clueCaptureEnabled {
        TrimShape(clueInput);
      }
      cluesByPlayerId := cluesByPlayerId[id := trimmed];
      if currentIndex == |turnList| - 1 {
        finished := Some(BuildRoundClues(turnList, cluesByPlayerId, roundNumber));
      } else {
        currentIndex := currentIndex + 1;
        finished := None;
      }
      clueInput := ClueText(cluesByPlayerId, turnList[currentIndex].id);
      clueWarning := "";
    }

    /** `skipAllTurns`: the clues recorded so far, without touching the state. */
    method SkipAllTurns() returns (clues: seq<RoundClue>)
      ensures clues == BuildRoundClues(turnList, cluesByPlayerId, roundNumber)
    {
      clues := BuildRoundClues(turnList, cluesByPlayerId, roundNumber);
    }
  }

  /** `r` has an entry for turn `turnOrder`, by player `id`, reading `text`. */
  predicate ListsClue(r: seq<RoundClue>, turnOrder: int, id: string, text: string) {
    exists k :: 0 <= k < |r| && r[k].turnOrder == turnOrder && r[k].text == text && r[k].playerId == id
  }

  /** A seat with a non-blank clue has its trimmed clue listed. */
  lemma SeatClueListed(players: seq<Player>, source: map<string, string>, round: int, i: nat)
    requires HasClue(players, source, i)
    ensures ListsClue(BuildRoundClues(players, source, round), i + 1, players[i].id, Trim(ClueText(source, players[i].id)))
  {
    var r := BuildRoundClues(players, source, round);
    BuildRoundCluesSpec(players, source, round);
    assert Lists(r, i + 1);
    var k :| 0 <= k < |r| && r[k].turnOrder == i + 1;
    assert IsClueOfSeat(players, source, round, r[k]);
  }

  /** The clue just entered on the last turn is among those handed over. */
  lemma LastClueIncluded(players: seq<Player>, source: map<string, string>, round: int, index: nat, input: string)
    requires index < |players| && Trim(input) != ""
    ensures var r := BuildRoundClues(players, source[players[index].id := Trim(input)], round);
      exists k :: 0 <= k < |r| && r[k].turnOrder == index + 1 && r[k].text == Trim(input)
        && r[k].playerId == players[index].id
  {
    var id, t := players[index].id, Trim(input);
    var updated := source[id := t];
    TrimIdempotent(input);
    assert ClueText(updated, id) == t;
    assert HasClue(players, updated, index);
    SeatClueListed(players, updated, round, index);
    var r := BuildRoundClues(players, updated, round);
    var k :| 0 <= k < |r| && r[k].turnOrder == index + 1 && r[k].text == t && r[k].playerId == id;
    assert r == BuildRoundClues(players, source[players[index].id := Trim(input)], round);
    assert 0 <= k < |r| && r[k].turnOrder == index + 1 && r[k].text == Trim(input) && r[k].playerId == players[index].id;
  }
}
