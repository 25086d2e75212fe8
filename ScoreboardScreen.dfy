/** The scoreboard overlay (screens/ScoreboardScreen.tsx): the players ranked
    by session total, and the scored rounds newest first. */
module Scoreboard {
  import opened Types
  import opened Strings

  // ---------------------------------------------------------------------
  // Deltas

  /** `formatDelta`: a plus sign before positive values only. */
  function FormatDelta(value: int): (r: string)
  {
    if value > 0 then "+" + IntToString(value) else IntToString(value)
  }

  /** Reads a signed decimal back. */
  function ParseSigned(s: string): int
  {
    if |s| > 0 && s[0] == '+' && AllDigits(s[1..]) then ParseNat(s[1..])
    else if |s| > 0 && s[0] == '-' && AllDigits(s[1..]) then 0 - ParseNat(s[1..])
    else if AllDigits(s) then ParseNat(s)
    else 0
  }

  /** The sign shown tells the sign of the value, and the text reads back as
      the value. */
  lemma FormatDeltaReadsBack(value: int)
    ensures FormatDelta(value)[0] == '+' <==> value > 0
    ensures FormatDelta(value)[0] == '-' <==> value < 0
    ensures ParseSigned(FormatDelta(value)) == value
  {
    var r := FormatDelta(value);
    if value > 0 {
      assert r == "+" + NatToString(value);
      assert r[1..] == NatToString(value);
      ParseNatToString(value);
    } else if value < 0 {
      assert r == "-" + NatToString(-value);
      assert r[1..] == NatToString(-value);
      ParseNatToString(-value);
    } else {
      assert r == NatToString(0);
      ParseNatToString(0);
    }
  }

  // ---------------------------------------------------------------------
  // Ranking

  /** A player with their session total. */
  datatype Ranked = Ranked(player: Player, total: int)

  /** `scoreTotals[id] || 0`. */
  function TotalOf(scoreTotals: map<string, int>, id: string): int
  {
    if id in scoreTotals then scoreTotals[id] else 0
  }

  /** `players.map(player => ({ ...player, total }))` on a copy. */
  function WithTotals(players: seq<Player>, scoreTotals: map<string, int>): (r: seq<Ranked>)
    ensures |r| == |players|
    ensures forall k :: 0 <= k < |players| ==> r[k] == Ranked(players[k], TotalOf(scoreTotals, players[k].id))
  {
    seq(|players|, k requires 0 <= k < |players| => Ranked(players[k], TotalOf(scoreTotals, players[k].id)))
  }

  /** Places `x` after the entries with a larger total and before the rest,
      so that among equal totals the earlier entry stays first. */
  function Insert(x: Ranked, sorted: seq<Ranked>): seq<Ranked>
  {
    if sorted == [] || sorted[0].total <= x.total then [x] + sorted
    else [sorted[0]] + Insert(x, sorted[1..])
  }

  /** A stable sort by descending total, as `sort((a, b) => b.total - a.total)`. */
  function SortByTotal(s: seq<Ranked>): seq<Ranked>
  {
    if s == [] then [] else Insert(s[0], SortByTotal(s[1..]))
  }

  /** `ranking`. */
  function Ranking(players: seq<Player>, scoreTotals: map<string, int>): seq<Ranked>
  {
    SortByTotal(WithTotals(players, scoreTotals))
  }

  predicate NonIncreasing(s: seq<Ranked>) {
    forall i, j :: 0 <= i < j < |s| ==> s[i].total >= s[j].total
  }

  /** The entries with total `t`, in order. */
  function WithTotal(s: seq<Ranked>, t: int): seq<Ranked>
  {
    if s == [] then [] else (if s[0].total == t then [s[0]] else []) + WithTotal(s[1..], t)
  }

  lemma WithTotalCons(y: Ranked, rest: seq<Ranked>, t: int)
    ensures WithTotal([y] + rest, t) == (if y.total == t then [y] else []) + WithTotal(rest, t)
  {
    assert ([y] + rest)[1..] == rest;
  }

  lemma {:induction false} InsertPermutes(x: Ranked, sorted: seq<Ranked>)
    ensures multiset(Insert(x, sorted)) == multiset(sorted) + multiset{x}
  {
    if sorted != [] && sorted[0].total > x.total {
      InsertPermutes(x, sorted[1..]);
      assert sorted == [sorted[0]] + sorted[1..];
    }
  }

  lemma {:induction false} InsertSorted(x: Ranked, sorted: seq<Ranked>)
    requires NonIncreasing(sorted)
    ensures NonIncreasing(Insert(x, sorted))
  {
    if sorted == [] || sorted[0].total <= x.total {
      var r := [x] + sorted;
      forall i, j | 0 <= i < j < |r| ensures r[i].total >= r[j].total {
        if i == 0 {
          assert r[j] == sorted[j - 1];
        } else {
          assert r[i] == sorted[i - 1] && r[j] == sorted[j - 1];
        }
      }
    } else {
      var rest := Insert(x, sorted[1..]);
      InsertSorted(x, sorted[1..]);
      InsertPermutes(x, sorted[1..]);
      var r := [sorted[0]] + rest;
      forall i, j | 0 <= i < j < |r| ensures r[i].total >= r[j].total {
        if i == 0 {
          assert r[j] == rest[j - 1];
          assert rest[j - 1] in multiset(rest);
          if rest[j - 1] != x {
            assert rest[j - 1] in multiset(sorted[1..]);
            var m :| 0 <= m < |sorted[1..]| && sorted[1..][m] == rest[j - 1];
            assert sorted[m + 1] == rest[j - 1];
          }
        } else {
          assert r[i] == rest[i - 1] && r[j] == rest[j - 1];
        }
      }
    }
  }

  lemma {:induction false} InsertWithTotal(x: Ranked, sorted: seq<Ranked>, t: int)
    ensures WithTotal(Insert(x, sorted), t) == (if x.total == t then [x] else []) + WithTotal(sorted, t)
  {
    if sorted == [] || sorted[0].total <= x.total {
      WithTotalCons(x, sorted, t);
    } else {
      var y := sorted[0];
      InsertWithTotal(x, sorted[1..], t);
      WithTotalCons(y, Insert(x, sorted[1..]), t);
      WithTotalCons(y, sorted[1..], t);
      assert sorted == [y] + sorted[1..];
    }
  }

  /** The ranking sort puts totals in non-increasing order, keeps every entry
      exactly once, and keeps the input order among entries with equal totals. */
  lemma {:induction false} SortByTotalSpec(s: seq<Ranked>)
    ensures NonIncreasing(SortByTotal(s))
    ensures multiset(SortByTotal(s)) == multiset(s)
    ensures forall t :: WithTotal(SortByTotal(s), t) == WithTotal(s, t)
  {
    if s != [] {
      SortByTotalSpec(s[1..]);
      InsertSorted(s[0], SortByTotal(s[1..]));
      InsertPermutes(s[0], SortByTotal(s[1..]));
      assert s == [s[0]] + s[1..];
      forall t ensures WithTotal(SortByTotal(s), t) == WithTotal(s, t) {
        InsertWithTotal(s[0], SortByTotal(s[1..]), t);
        WithTotalCons(s[0], s[1..], t);
      }
    }
  }

  /** Every player appears exactly once with their total, or 0 when they
      have none; higher totals come first, and ties keep the table order. */
  lemma RankingSpec(players: seq<Player>, scoreTotals: map<string, int>)
    ensures var r := Ranking(players, scoreTotals);
      && NonIncreasing(r)
      && multiset(r) == multiset(WithTotals(players, scoreTotals))
      && (forall k :: 0 <= k < |r| ==> r[k].player in players && r[k].total == TotalOf(scoreTotals, r[k].player.id))
      && forall t :: WithTotal(r, t) == WithTotal(WithTotals(players, scoreTotals), t)
  {
    var w := WithTotals(players, scoreTotals);
    var r := Ranking(players, scoreTotals);
    SortByTotalSpec(w);
    forall k | 0 <= k < |r| ensures r[k].player in players && r[k].total == TotalOf(scoreTotals, r[k].player.id) {
      assert r[k] in multiset(w);
      var j :| 0 <= j < |w| && w[j] == r[k];
    }
  }

  // ---------------------------------------------------------------------
  // Round history

  /** One key of a round's `deltas` record, in insertion order. */
  datatype DeltaEntry = DeltaEntry(playerId: string, delta: int)

  datatype ScoreRoundLog = ScoreRoundLog(
    sessionRound: int,
    gameRound: int,
    expelledName: string,
    expelledRole: Role,
    deltas: seq<DeltaEntry>,
    notes: map<string, seq<string>>)

  /** `[...scoreHistory].reverse()`. */
  function Reverse<T>(s: seq<T>): (r: seq<T>)
    ensures |r| == |s|
    ensures forall k :: 0 <= k < |s| ==> r[k] == s[|s| - 1 - k]
  {
    if s == [] then [] else Reverse(s[1..]) + [s[0]]
  }

  /** Newest first is the reverse of the logged order, and reversing again gives it back. */
  lemma ReverseInvolutive<T>(s: seq<T>)
    ensures Reverse(Reverse(s)) == s
  {
  }

  /** `players.find(p => p.id === id)?.name || id`. */
  function DisplayName(players: seq<Player>, id: string): (r: string)
    ensures r == id || exists k :: 0 <= k < |players| && players[k].id == id && players[k].name == r
  {
    if players == [] then id
    else if players[0].id == id then (if players[0].name != "" then players[0].name else id)
    else DisplayName(players[1..], id)
  }

  /** A line of a round: who, by how much, and the notes kept for them. */
  datatype DeltaLine = DeltaLine(playerId: string, playerName: string, delta: int, notes: seq<string>)

  function LineFor(players: seq<Player>, notes: map<string, seq<string>>, e: DeltaEntry): DeltaLine
  {
    DeltaLine(e.playerId, DisplayName(players, e.playerId), e.delta,
              if e.playerId in notes then notes[e.playerId] else [])
  }

  /** The lines of a round: zero deltas hidden, the rest in record order. */
  function VisibleDeltas(players: seq<Player>, round: ScoreRoundLog): seq<DeltaLine>
  {
    Lines(players, round.notes, round.deltas)
  }

  function Lines(players: seq<Player>, notes: map<string, seq<string>>, deltas: seq<DeltaEntry>): (r: seq<DeltaLine>)
  {
    if deltas == [] then []
    else (if deltas[0].delta != 0 then [LineFor(players, notes, deltas[0])] else [])
         + Lines(players, notes, deltas[1..])
  }

  /** No line shows a zero delta; every non-zero delta gets its line; and a
      player not on the table, or without a name, is shown by id. */
  lemma {:induction false} VisibleDeltasSpec(players: seq<Player>, notes: map<string, seq<string>>, deltas: seq<DeltaEntry>)
    ensures var r := Lines(players, notes, deltas);
      && |r| <= |deltas|
      && (forall k :: 0 <= k < |r| ==> r[k].delta != 0)
      && (forall e :: e in deltas && e.delta != 0 ==> LineFor(players, notes, e) in r)
      && (forall l :: l in r ==> exists e :: e in deltas && e.delta != 0 && l == LineFor(players, notes, e))
  {
    if deltas != [] {
      VisibleDeltasSpec(players, notes, deltas[1..]);
    }
  }

  /** A delta for an id no player has is listed under the id itself. */
  lemma UnknownPlayerShownById(players: seq<Player>, id: string)
    requires forall k :: 0 <= k < |players| ==> players[k].id != id
    ensures DisplayName(players, id) == id
  {
  }

  /** The name shown is the one of the first player holding the id, or the
      id itself when that player's name is empty. */
  lemma {:induction false} DisplayNameFirstMatch(players: seq<Player>, id: string, k: nat)
    requires k < |players| && players[k].id == id
    requires forall j :: 0 <= j < k ==> players[j].id != id
    ensures DisplayName(players, id) == if players[k].name != "" then players[k].name else id
  {
    if k > 0 {
      DisplayNameFirstMatch(players[1..], id, k - 1);
    }
  }
}
