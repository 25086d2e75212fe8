/** The private vote (screens/VoteScreen.tsx): every active player votes in
    turn; the tally keeps its keys in the order they first received a vote, and
    the expelled id is the first entry with the most votes. */
module Voting {
  import opened Types

  /** One key of the `votes` record: a player id and its vote count. The record
      is a list of entries in insertion order, as `Object.entries` yields them. */
  datatype Entry = Entry(id: string, count: int)

  function Keys(tally: seq<Entry>): (r: seq<string>)
    ensures |r| == |tally| && forall k :: 0 <= k < |tally| ==> r[k] == tally[k].id
  {
    seq(|tally|, k requires 0 <= k < |tally| => tally[k].id)
  }

  predicate DistinctKeys(tally: seq<Entry>) {
    forall i, j :: 0 <= i < j < |tally| ==> tally[i].id != tally[j].id
  }

  /** `votes[id] || 0`. */
  function Lookup(tally: seq<Entry>, id: string): int
  {
    if tally == [] then 0
    else if tally[0].id == id then tally[0].count
    else Lookup(tally[1..], id)
  }

  function SumCounts(tally: seq<Entry>): int
  {
    if tally == [] then 0 else tally[0].count + SumCounts(tally[1..])
  }

  /** `newVotes[targetId] = (newVotes[targetId] || 0) + 1` on a copy: an existing
      key keeps its place, a new key goes last. */
  function AddVote(tally: seq<Entry>, id: string): (r: seq<Entry>)
  {
    if tally == [] then [Entry(id, 1)]
    else if tally[0].id == id then [tally[0].(count := tally[0].count + 1)] + tally[1..]
    else [tally[0]] + AddVote(tally[1..], id)
  }

  /** A vote adds one to its target's count and leaves every other count alone. */
  lemma {:induction false} AddVoteLookup(tally: seq<Entry>, id: string, other: string)
    ensures Lookup(AddVote(tally, id), id) == Lookup(tally, id) + 1
    ensures other != id ==> Lookup(AddVote(tally, id), other) == Lookup(tally, other)
  {
    if tally != [] && tally[0].id != id {
      AddVoteLookup(tally[1..], id, other);
    }
  }

  /** The keys stay in place; a first vote for an id appends it. */
  lemma {:induction false} AddVoteKeys(tally: seq<Entry>, id: string)
    ensures Keys(AddVote(tally, id)) == if id in Keys(tally) then Keys(tally) else Keys(tally) + [id]
  {
    if tally != [] && tally[0].id != id {
      AddVoteKeys(tally[1..], id);
      assert Keys(tally) == [tally[0].id] + Keys(tally[1..]);
      assert Keys(AddVote(tally, id)) == [tally[0].id] + Keys(AddVote(tally[1..], id));
    } else if tally != [] {
      assert Keys(AddVote(tally, id)) == Keys(tally);
    }
  }

  /** Each vote adds exactly one to the total. */
  lemma {:induction false} AddVoteSum(tally: seq<Entry>, id: string)
    ensures SumCounts(AddVote(tally, id)) == SumCounts(tally) + 1
  {
    if tally != [] && tally[0].id != id {
      AddVoteSum(tally[1..], id);
    } else if tally != [] {
      assert AddVote(tally, id)[1..] == tally[1..];
    }
  }

  /** The record after the votes `cast`, in the order they were cast. */
  function Tally(cast: seq<string>): seq<Entry>
  {
    if cast == [] then [] else AddVote(Tally(cast[..|cast| - 1]), cast[|cast| - 1])
  }

  /** With distinct keys an entry's count is what the record reads for its id. */
  lemma {:induction false} LookupAt(tally: seq<Entry>, k: nat)
    requires DistinctKeys(tally) && k < |tally|
    ensures Lookup(tally, tally[k].id) == tally[k].count
  {
    if k > 0 {
      LookupAt(tally[1..], k - 1);
    }
  }

  /** The tally counts each id as often as it was voted for, has one entry per
      voted id and no other, and adds up to the number of votes cast. */
  lemma {:induction false} TallyCounts(cast: seq<string>)
    ensures DistinctKeys(Tally(cast))
    ensures forall x :: Lookup(Tally(cast), x) == multiset(cast)[x]
    ensures forall x :: x in Keys(Tally(cast)) <==> x in cast
    ensures SumCounts(Tally(cast)) == |cast|
  {
    if cast != [] {
      var prefix, last := cast[..|cast| - 1], cast[|cast| - 1];
      assert cast == prefix + [last];
      TallyCounts(prefix);
      var before := Tally(prefix);
      AddVoteKeys(before, last);
      AddVoteSum(before, last);
      forall x ensures Lookup(Tally(cast), x) == multiset(cast)[x] {
        AddVoteLookup(before, last, x);
      }
      var keys := Keys(Tally(cast));
      forall i, j | 0 <= i < j < |Tally(cast)| ensures Tally(cast)[i].id != Tally(cast)[j].id {
        assert keys[i] == Tally(cast)[i].id && keys[j] == Tally(cast)[j].id;
        if last !in Keys(before) {
          assert keys == Keys(before) + [last];
        }
      }
    }
  }

  /** Every entry of the tally holds a positive count. */
  lemma TallyPositive(cast: seq<string>)
    ensures forall k :: 0 <= k < |Tally(cast)| ==> Tally(cast)[k].count >= 1
  {
    TallyCounts(cast);
    forall k | 0 <= k < |Tally(cast)| ensures Tally(cast)[k].count >= 1 {
      LookupAt(Tally(cast), k);
      assert Keys(Tally(cast))[k] == Tally(cast)[k].id;
      assert Tally(cast)[k].id in cast;
    }
  }

  /** Position of the first vote for `x`. */
  function FirstVote(cast: seq<string>, x: string): (i: nat)
    requires x in cast
    ensures i < |cast| && cast[i] == x && forall j :: 0 <= j < i ==> cast[j] != x
  {
    if cast[0] == x then 0 else 1 + FirstVote(cast[1..], x)
  }

  lemma {:induction false} FirstVoteAppend(a: seq<string>, b: seq<string>, x: string)
    requires x in a
    ensures FirstVote(a + b, x) == FirstVote(a, x)
  {
    if a[0] != x {
      assert (a + b)[1..] == a[1..] + b;
      FirstVoteAppend(a[1..], b, x);
    }
  }

  /** The entries are voted-for ids, listed in the order of their first vote. */
  predicate InFirstVoteOrder(tally: seq<Entry>, cast: seq<string>) {
    && (forall k :: 0 <= k < |tally| ==> tally[k].id in cast)
    && (forall i, j :: 0 <= i < j < |tally| ==> FirstVote(cast, tally[i].id) < FirstVote(cast, tally[j].id))
  }

  /** A vote for an id already in the tally keeps the keys and their order. */
  lemma OrderStepRepeat(prefix: seq<string>, last: string, before: seq<Entry>, after: seq<Entry>)
    requires InFirstVoteOrder(before, prefix)
    requires Keys(after) == Keys(before)
    ensures InFirstVoteOrder(after, prefix + [last])
  {
    var cast := prefix + [last];
    forall k | 0 <= k < |after| ensures after[k].id in cast {
      assert after[k].id == Keys(before)[k] == before[k].id;
    }
    forall i, j | 0 <= i < j < |after|
      ensures FirstVote(cast, after[i].id) < FirstVote(cast, after[j].id)
    {
      assert after[i].id == Keys(before)[i] == before[i].id;
      assert after[j].id == Keys(before)[j] == before[j].id;
      FirstVoteAppend(prefix, [last], before[i].id);
      FirstVoteAppend(prefix, [last], before[j].id);
    }
  }

  /** A first vote for an id appends it after every earlier key. */
  lemma OrderStepNew(prefix: seq<string>, last: string, before: seq<Entry>, after: seq<Entry>)
    requires InFirstVoteOrder(before, prefix)
    requires last !in prefix
    requires Keys(after) == Keys(before) + [last]
    ensures InFirstVoteOrder(after, prefix + [last])
  {
    var cast := prefix + [last];
    assert FirstVote(cast, last) == |prefix|;
    forall k | 0 <= k < |after| ensures after[k].id in cast {
      assert after[k].id == Keys(after)[k];
    }
    forall i, j | 0 <= i < j < |after|
      ensures FirstVote(cast, after[i].id) < FirstVote(cast, after[j].id)
    {
      assert after[i].id == Keys(before)[i] == before[i].id;
      FirstVoteAppend(prefix, [last], before[i].id);
      if j < |before| {
        assert after[j].id == Keys(before)[j] == before[j].id;
        FirstVoteAppend(prefix, [last], before[j].id);
      } else {
        assert after[j].id == Keys(after)[j] == last;
      }
    }
  }

  lemma OrderStep(prefix: seq<string>, last: string)
    requires InFirstVoteOrder(Tally(prefix), prefix)
    ensures InFirstVoteOrder(Tally(prefix + [last]), prefix + [last])
  {
    var cast := prefix + [last];
    assert cast[..|cast| - 1] == prefix;
    var before := Tally(prefix);
    var after := Tally(cast);
    assert after == AddVote(before, last);
    TallyCounts(prefix);
    AddVoteKeys(before, last);
    if last in Keys(before) {
      OrderStepRepeat(prefix, last, before, after);
    } else {
      OrderStepNew(prefix, last, before, after);
    }
  }

  /** The tally lists ids in the order of their first vote. */
  lemma {:induction false} TallyInFirstVoteOrder(cast: seq<string>)
    ensures InFirstVoteOrder(Tally(cast), cast)
  {
    if cast != [] {
      var prefix, last := cast[..|cast| - 1], cast[|cast| - 1];
      TallyInFirstVoteOrder(prefix);
      OrderStep(prefix, last);
      assert cast == prefix + [last];
    }
  }

  // ---------------------------------------------------------------------
  // Choosing the expelled id

  /** Entry `k` holds the most votes, and every entry before it strictly fewer. */
  predicate IsFirstMaximum(tally: seq<Entry>, k: int) {
    && 0 <= k < |tally|
    && (forall j :: 0 <= j < |tally| ==> tally[j].count <= tally[k].count)
    && (forall j :: 0 <= j < k ==> tally[j].count < tally[k].count)
  }

  /** The scan over `Object.entries(newVotes)`: `maxVotes` starts at -1 and only
      a strictly larger count replaces the current choice. */
  method PickExpelled(tally: seq<Entry>) returns (expelledId: string)
    ensures (forall j :: 0 <= j < |tally| ==> tally[j].count < 0) ==> expelledId == ""
    ensures (exists j :: 0 <= j < |tally| && tally[j].count >= 0) ==>
      exists k :: IsFirstMaximum(tally, k) && tally[k].id == expelledId
  {
    var maxVotes := -1;
    expelledId := "";
    ghost var best := -1;
    var i := 0;
    while i < |tally|
      invariant 0 <= i <= |tally|
      invariant -1 <= best < i
      invariant best == -1 ==>
        maxVotes == -1 && expelledId == "" && forall j :: 0 <= j < i ==> tally[j].count < 0
      invariant best >= 0 ==>
        && maxVotes == tally[best].count >= 0 && expelledId == tally[best].id
        && (forall j :: 0 <= j < i ==> tally[j].count <= maxVotes)
        && (forall j :: 0 <= j < best ==> tally[j].count < maxVotes)
    {
      if tally[i].count > maxVotes {
        maxVotes := tally[i].count;
        expelledId := tally[i].id;
        best := i;
      }
      i := i + 1;
    }
    if best >= 0 {
      assert IsFirstMaximum(tally, best);
    }
  }

  /** On the tally of real votes, the first maximum is the most-voted id, and
      of the ids tied with it, the one voted for first. */
  lemma FirstMaximumIsFirstVoted(cast: seq<string>, k: int)
    requires IsFirstMaximum(Tally(cast), k)
    ensures var winner := Tally(cast)[k].id;
      && winner in cast
      && (forall x :: multiset(cast)[x] <= multiset(cast)[winner])
      && (forall x :: x in cast && multiset(cast)[x] == multiset(cast)[winner] ==>
            FirstVote(cast, winner) <= FirstVote(cast, x))
  {
    var t := Tally(cast);
    var winner := t[k].id;
    TallyCounts(cast);
    TallyInFirstVoteOrder(cast);
    LookupAt(t, k);
    assert Keys(t)[k] == winner;
    forall x ensures multiset(cast)[x] <= multiset(cast)[winner] {
      if x in cast {
        assert x in Keys(t);
        var j :| 0 <= j < |t| && Keys(t)[j] == x;
        LookupAt(t, j);
      }
    }
    forall x | x in cast && multiset(cast)[x] == multiset(cast)[winner]
      ensures FirstVote(cast, winner) <= FirstVote(cast, x)
    {
      assert x in Keys(t);
      var j :| 0 <= j < |t| && Keys(t)[j] == x;
      LookupAt(t, j);
    }
  }

  /** Once anybody has voted, a voted-for id is expelled. */
  lemma SomeoneExpelled(cast: seq<string>)
    requires cast != []
    ensures exists j :: 0 <= j < |Tally(cast)| && Tally(cast)[j].count >= 0
  {
    TallyCounts(cast);
    TallyPositive(cast);
    assert cast[0] in Keys(Tally(cast));
  }

  // ---------------------------------------------------------------------
  // Screen state

  class VoteScreen {
    /** Voters and candidates: the players still at the table, in table order. */
    const activePlayers: seq<Player>
    var voterIndex: int
    var isPrivate: bool
    var votes: seq<Entry>
    /** The targets chosen so far, in voting order. */
    ghost var cast: seq<string>

    ghost predicate Valid()
      reads this
    {
      votes == Tally(cast)
    }

    constructor(players: seq<Player>)
      ensures Valid()
      ensures activePlayers == Active(players)
      ensures voterIndex == 0 && isPrivate && votes == [] && cast == []
    {
      activePlayers := Active(players);
      voterIndex := 0;
      isPrivate := true;
      votes := [];
      cast := [];
    }

    /** The current voter holds the device and opens the ballot. */
    method Open()
      modifies this`isPrivate
      ensures !isPrivate
    {
      isPrivate := false;
    }

    /** `handleVote`: counts the vote; after the last voter hands over the
        expelled id, otherwise passes the device on in private mode. */
    method HandleVote(targetId: string) returns (expelled: Option<string>)
      requires Valid()
      modifies this`votes, this`cast, this`voterIndex, this`isPrivate
      ensures Valid()
      ensures cast == old(cast) + [targetId]
      ensures votes == AddVote(old(votes), targetId)
      ensures old(voterIndex) == |activePlayers| - 1 ==>
        && voterIndex == old(voterIndex) && isPrivate == old(isPrivate)
        && expelled.Some?
        && exists k :: IsFirstMaximum(votes, k) && votes[k].id == expelled.value
      ensures old(voterIndex) != |activePlayers| - 1 ==>
        voterIndex == old(voterIndex) + 1 && isPrivate && expelled.None?
    {
      votes := AddVote(votes, targetId);
      cast := cast + [targetId];
      assert cast[..|cast| - 1] == old(cast);
      if voterIndex == |activePlayers| - 1 {
        SomeoneExpelled(cast);
        var id := PickExpelled(votes);
        expelled := Some(id);
      } else {
        voterIndex := voterIndex + 1;
        isPrivate := true;
        expelled := None;
      }
    }
  }
}
