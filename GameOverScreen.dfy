/** The end screen (screens/GameOverScreen.tsx): who the impostors were and
    which side won. */
module GameOverView {
  import opened Types
  import opened GameController

  /** `players.filter(p => p.role === Role.IMPOSTOR)`. */
  function Impostors(players: seq<Player>): (r: seq<Player>)
  {
    Filter(players, IsImpostor)
  }

  /** The impostor list is the impostors of the table, in table order, and
      nobody else. */
  lemma ImpostorsListed(players: seq<Player>)
    ensures IsSubsequence(Impostors(players), players)
    ensures forall p :: p in Impostors(players) <==> p in players && p.role == Impostor
    ensures forall p :: multiset(Impostors(players))[p] == if p.role == Impostor then multiset(players)[p] else 0
  {
    FilterIsSubsequence(players, IsImpostor);
    FilterCounts(players, IsImpostor);
  }

  /** `impostors.every(i => i.isEliminated) ? CIVIL : IMPOSTOR`. */
  function Winner(players: seq<Player>): (r: Role)
    ensures r == Civil <==> forall k :: 0 <= k < |players| && players[k].role == Impostor ==> players[k].isEliminated
  {
    var impostors := Impostors(players);
    if forall k :: 0 <= k < |impostors| ==> impostors[k].isEliminated then Civil else Impostor
  }

  /** A table without impostors is a civilian win. */
  lemma NoImpostorsCivilWin(players: seq<Player>)
    requires forall k :: 0 <= k < |players| ==> players[k].role == Civil
    ensures Winner(players) == Civil
  {
  }

  /** The civilians win exactly when no impostor is still active. */
  lemma WinnerMatchesActiveImpostors(players: seq<Player>)
    ensures Winner(players) == Civil <==> CountActiveImpostors(players) == 0
  {
    var f := Filter(players, IsActiveImpostor);
    if Winner(players) == Civil {
      FilterNone(players, IsActiveImpostor);
    } else {
      var k :| 0 <= k < |players| && players[k].role == Impostor && !players[k].isEliminated;
      assert players[k] in f;
    }
  }

  /** The end screen agrees with the controller: a game ended for lack of
      impostors is a civilian win, one ended by the `TWO_LEFT` or `PARITY`
      rule an impostor win. */
  lemma WinnerAgreesWithOutcome(players: seq<Player>, winCondition: WinCondition)
    requires Outcome(players, winCondition) == GameOver
    ensures CountActiveImpostors(players) == 0 ==> Winner(players) == Civil
    ensures CountActiveImpostors(players) > 0 ==> Winner(players) == Impostor
  {
    WinnerMatchesActiveImpostors(players);
  }
}
