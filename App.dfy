/** The top-level controller (App.tsx): starting a game, expelling a player
    and moving between the phases of a round. */
module GameController {
  import opened Types
  import opened Strings

  // ---------------------------------------------------------------------
  // Randomness: `Math.random()` is an oracle that hands over numbers in [0, 1).

  /** `Math.floor(Math.random() * n)`. */
  function RandomIndex(draw: real, n: nat): int
  {
    (draw * n as real).Floor
  }

  lemma RandomIndexInRange(draw: real, n: nat)
    requires 0.0 <= draw < 1.0 && n > 0
    ensures 0 <= RandomIndex(draw, n) < n
  {
    var x := draw * n as real;
    assert (n as real) - x == (1.0 - draw) * (n as real);
    assert 0.0 <= x < n as real;
  }

  /** Every position of a non-empty list is picked by some draw. */
  lemma {:induction false} EveryIndexReachable(n: nat, k: nat)
    requires k < n
    ensures exists draw: real :: 0.0 <= draw < 1.0 && RandomIndex(draw, n) == k
  {
    var draw := (k as real) / (n as real);
    assert draw * (n as real) == k as real;
    assert RandomIndex(draw, n) == k;
  }

  // ---------------------------------------------------------------------
  // Secret word

  /** `getRandomLocalWord`: a word of the requested difficulty, or of any
      difficulty when the catalog has none; `None` when the catalog is empty,
      where the source reads `.text` of `undefined` and throws. */
  function LocalWord(words: seq<Word>, difficulty: Difficulty, draw: real): (r: Option<string>)
    requires 0.0 <= draw < 1.0
    ensures r.Some? <==> |words| > 0
    ensures r.Some? ==> exists w :: (w in words && w.text == r.value
      && (w.difficulty == difficulty || WordsOfDifficulty(words, difficulty) == []))
  {
    var filtered := WordsOfDifficulty(words, difficulty);
    var pool := if |filtered| > 0 then filtered else words;
    if |pool| == 0 then None
    else
      RandomIndexInRange(draw, |pool|);
      var w := pool[RandomIndex(draw, |pool|)];
      assert w in words;
      Some(w.text)
  }

  /** Any word of the requested difficulty can be the local pick. */
  lemma LocalWordCoversDifficulty(words: seq<Word>, difficulty: Difficulty, w: Word)
    requires w in words && w.difficulty == difficulty
    ensures exists draw: real :: 0.0 <= draw < 1.0 && LocalWord(words, difficulty, draw) == Some(w.text)
  {
    var pool := WordsOfDifficulty(words, difficulty);
    assert w in pool;
    var k :| 0 <= k < |pool| && pool[k] == w;
    EveryIndexReachable(|pool|, k);
    var draw: real :| 0.0 <= draw < 1.0 && RandomIndex(draw, |pool|) == k;
    assert LocalWord(words, difficulty, draw) == Some(w.text);
  }

  /** The word `startGame` settles on: the external generator's answer when it is
      not blank after trimming, otherwise (also when the call failed, `None`) a
      local pick; `None` when that local pick throws. */
  function StartWord(fetched: Option<string>, words: seq<Word>, difficulty: Difficulty, draw: real): (r: Option<string>)
    requires 0.0 <= draw < 1.0
  {
    if fetched.Some? && fetched.value != "" && Trim(fetched.value) != "" then Some(fetched.value)
    else LocalWord(words, difficulty, draw)
  }

  /** Where the secret word comes from: a generator's answer that is not blank
      always wins; a missing or blank answer falls back to the local pick, a
      catalog word of the requested difficulty whenever the catalog has one.
      There is no word exactly when the answer is missing or blank and the
      catalog is empty. */
  lemma StartWordSource(fetched: Option<string>, words: seq<Word>, difficulty: Difficulty, draw: real)
    requires 0.0 <= draw < 1.0
    ensures fetched.Some? && Trim(fetched.value) != "" ==> StartWord(fetched, words, difficulty, draw) == fetched
    ensures fetched.None? || Trim(fetched.value) == "" ==>
      StartWord(fetched, words, difficulty, draw) == LocalWord(words, difficulty, draw)
    ensures forall w :: StartWord(fetched, words, difficulty, draw) == Some(w) && (fetched.None? || Trim(fetched.value) == "") ==>
      exists x :: x in words && x.text == w && (x.difficulty == difficulty || WordsOfDifficulty(words, difficulty) == [])
    ensures StartWord(fetched, words, difficulty, draw).None? <==>
      (fetched.None? || Trim(fetched.value) == "") && words == []
  {
    if fetched.Some? && fetched.value == "" {
      assert Trim(fetched.value) == "";
    }
  }

  // ---------------------------------------------------------------------
  // Role assignment

  /** How many entries of `roles` are `r`. */
  function CountRole(roles: seq<Role>, r: Role): (n: nat)
    ensures n <= |roles|
  {
    if roles == [] then 0
    else CountRole(roles[..|roles| - 1], r) + (if roles[|roles| - 1] == r then 1 else 0)
  }

  lemma {:induction false} CountRoleTotal(roles: seq<Role>)
    ensures CountRole(roles, Civil) + CountRole(roles, Impostor) == |roles|
  {
    if roles != [] {
      CountRoleTotal(roles[..|roles| - 1]);
    }
  }

  lemma {:induction false} CountRoleAbsent(roles: seq<Role>, r: Role)
    requires forall k :: 0 <= k < |roles| ==> roles[k] != r
    ensures CountRole(roles, r) == 0
  {
    if roles != [] {
      CountRoleAbsent(roles[..|roles| - 1], r);
    }
  }

  /** Turning one civilian into an impostor adds exactly one impostor. */
  lemma {:induction false} CountRoleFlip(roles: seq<Role>, k: nat)
    requires k < |roles| && roles[k] == Civil
    ensures CountRole(roles[k := Impostor], Impostor) == CountRole(roles, Impostor) + 1
  {
    var n := |roles|;
    var flipped := roles[k := Impostor];
    if k < n - 1 {
      assert flipped[..n - 1] == roles[..n - 1][k := Impostor];
      CountRoleFlip(roles[..n - 1], k);
    } else {
      assert flipped[..n - 1] == roles[..n - 1];
    }
  }

  /** Seats holding an impostor. */
  function ImpostorSeats(roles: seq<Role>): set<int>
  {
    set k | 0 <= k < |roles| && roles[k] == Impostor
  }

  /** Seats named by the draws, out-of-range indices left aside. */
  function DrawnSeats(draws: seq<real>, n: nat): set<int>
  {
    set k | 0 <= k < |draws| && 0 <= RandomIndex(draws[k], n) < n :: RandomIndex(draws[k], n)
  }

  /** The role loop of `startGame`: all seats start civilian; each draw names a
      seat, which becomes an impostor if it is still a civilian. The source loops
      until `impostorCount` impostors are placed; here the draws are finite, and
      `complete` is false when they run out first, which for the source means
      the loop never ends. `used` is how many draws the loop read: the impostor
      seats are exactly the distinct seats those draws name, and the loop stops
      at the first draw that brings them to `impostorCount`. */
  method AssignRoles(totalPlayers: nat, impostorCount: int, draws: seq<real>)
    returns (roles: seq<Role>, complete: bool, ghost used: nat)
    requires forall k :: 0 <= k < |draws| ==> 0.0 <= draws[k] < 1.0
    ensures |roles| == totalPlayers
    ensures complete <==> CountRole(roles, Impostor) >= impostorCount
    ensures complete ==> CountRole(roles, Impostor) == (if impostorCount > 0 then impostorCount else 0)
    ensures complete ==> CountRole(roles, Civil) == totalPlayers - CountRole(roles, Impostor)
    ensures impostorCount > totalPlayers ==> !complete
    ensures used <= |draws|
    ensures ImpostorSeats(roles) == DrawnSeats(draws[..used], totalPlayers)
    ensures !complete ==> used == |draws|
    ensures used > 0 ==> |DrawnSeats(draws[..used - 1], totalPlayers)| < impostorCount
    ensures ImpostorSeats(roles) <= DrawnSeats(draws, totalPlayers)
  {
    var seats := new Role[totalPlayers](_ => Civil);
    var placed := 0;
    var next := 0;
    CountRoleAbsent(seats[..], Impostor);
    assert draws[..0] == [];
    while placed < impostorCount && next < |draws|
      invariant DrawState(seats[..], draws, next, totalPlayers, placed, impostorCount)
    {
      var idx := RandomIndex(draws[next], totalPlayers);
      ghost var before := seats[..];
      DrawKeepsState(before, draws, next, totalPlayers, placed, impostorCount);
      if 0 <= idx < totalPlayers && seats[idx] == Civil {
        seats[idx] := Impostor;
        placed := placed + 1;
      }
      assert seats[..] == Draw(before, draws[next], totalPlayers);
      next := next + 1;
    }
    roles := seats[..];
    complete := placed >= impostorCount;
    used := next;
    CountRoleTotal(roles);
    if !complete {
      assert draws[..used] == draws;
    }
    SeatsWithin(roles, draws, used, totalPlayers);
  }

  /** The seats after one draw: the seat it names turns impostor if it was a
      civilian. */
  function Draw(roles: seq<Role>, draw: real, n: nat): seq<Role>
  {
    var idx := RandomIndex(draw, n);
    if 0 <= idx < |roles| && 0 <= idx < n && roles[idx] == Civil then roles[idx := Impostor] else roles
  }

  /** What the role loop knows after `next` draws with `placed` impostors. */
  ghost predicate DrawState(roles: seq<Role>, draws: seq<real>, next: int, n: nat, placed: int, impostorCount: int)
  {
    && |roles| == n
    && 0 <= next <= |draws|
    && 0 <= placed == CountRole(roles, Impostor)
    && (placed <= impostorCount || placed == 0)
    && ImpostorSeats(roles) == DrawnSeats(draws[..next], n)
    && (next > 0 ==> |DrawnSeats(draws[..next - 1], n)| < impostorCount)
  }

  /** One turn of the role loop keeps what it knows. */
  lemma DrawKeepsState(roles: seq<Role>, draws: seq<real>, next: int, n: nat, placed: int, impostorCount: int)
    requires DrawState(roles, draws, next, n, placed, impostorCount)
    requires placed < impostorCount && next < |draws|
    ensures var idx := RandomIndex(draws[next], n);
      DrawState(Draw(roles, draws[next], n), draws, next + 1, n,
                placed + (if 0 <= idx < n && roles[idx] == Civil then 1 else 0), impostorCount)
  {
    var idx := RandomIndex(draws[next], n);
    ImpostorSeatsCount(roles);
    DrawnSeatsStep(draws, next, n);
    assert draws[..next + 1][..next] == draws[..next];
    if 0 <= idx < n && roles[idx] == Civil {
      CountRoleFlip(roles, idx);
      ImpostorSeatsFlip(roles, idx);
    }
  }

  /** With one impostor to place, the first draw decides: draws 0.0 then 0.5
      over three seats make seat 0 the impostor, and the second draw is never
      read. */
  lemma FirstDrawDecides(roles: seq<Role>, used: nat)
    requires |roles| == 3 && used <= 2
    requires ImpostorSeats(roles) == DrawnSeats([0.0, 0.5][..used], 3)
    requires used > 0 ==> |DrawnSeats([0.0, 0.5][..used - 1], 3)| < 1
    requires CountRole(roles, Impostor) >= 1
    ensures used == 1 && roles == [Impostor, Civil, Civil]
  {
    var draws := [0.0, 0.5];
    assert RandomIndex(0.0, 3) == 0;
    assert RandomIndex(0.5, 3) == 1;
    ImpostorSeatsCount(roles);
    assert DrawnSeats(draws[..0], 3) == {};
    assert DrawnSeats(draws[..1], 3) == {0};
    if used == 1 {
      assert roles[0] == Impostor && 1 !in ImpostorSeats(roles) && 2 !in ImpostorSeats(roles);
    }
  }

  /** There are as many impostor seats as impostors. */
  lemma {:induction false} ImpostorSeatsCount(roles: seq<Role>)
    ensures |ImpostorSeats(roles)| == CountRole(roles, Impostor)
  {
    if roles != [] {
      var n := |roles| - 1;
      var front := roles[..n];
      ImpostorSeatsCount(front);
      var last: set<int> := if roles[n] == Impostor then {n} else {};
      assert ImpostorSeats(roles) == ImpostorSeats(front) + last;
      assert n !in ImpostorSeats(front);
    }
  }

  /** One more draw adds the seat it names. */
  lemma DrawnSeatsStep(draws: seq<real>, used: nat, n: nat)
    requires used < |draws|
    ensures DrawnSeats(draws[..used + 1], n) == DrawnSeats(draws[..used], n)
      + (if 0 <= RandomIndex(draws[used], n) < n then {RandomIndex(draws[used], n)} else {})
  {
    var a, b := draws[..used], draws[..used + 1];
    assert forall k :: 0 <= k < used ==> b[k] == a[k];
    assert b[used] == draws[used];
  }

  /** Making seat `k` an impostor adds `k` to the impostor seats. */
  lemma ImpostorSeatsFlip(roles: seq<Role>, k: nat)
    requires k < |roles|
    ensures ImpostorSeats(roles[k := Impostor]) == ImpostorSeats(roles) + {k}
  {
  }

  lemma SeatsWithin(roles: seq<Role>, draws: seq<real>, used: nat, n: nat)
    requires used <= |draws|
    requires ImpostorSeats(roles) == DrawnSeats(draws[..used], n)
    ensures ImpostorSeats(roles) <= DrawnSeats(draws, n)
  {
    forall s | s in DrawnSeats(draws[..used], n) ensures s in DrawnSeats(draws, n) {
      var k :| 0 <= k < used && 0 <= RandomIndex(draws[..used][k], n) < n && s == RandomIndex(draws[..used][k], n);
      assert draws[..used][k] == draws[k];
    }
  }

  // ---------------------------------------------------------------------
  // Players

  /** `p-${i}-${suffix}`; the suffix is the random part of the id. */
  function PlayerId(i: nat, suffix: string): string
  {
    "p-" + NatToString(i) + "-" + suffix
  }

  /** The initial players: input names in order, the drawn roles, nobody
      eliminated, no votes received. */
  function BuildPlayers(names: seq<string>, roles: seq<Role>, suffix: nat -> string): (r: seq<Player>)
    requires |roles| == |names|
    ensures |r| == |names|
  {
    seq(|names|, i requires 0 <= i < |names| => Player(PlayerId(i, suffix(i)), names[i], roles[i], false, 0))
  }

  function RolesOf(players: seq<Player>): (r: seq<Role>)
    ensures |r| == |players| && forall i :: 0 <= i < |players| ==> r[i] == players[i].role
  {
    seq(|players|, i requires 0 <= i < |players| => players[i].role)
  }

  /** Two seats never share an id, whatever the random suffixes, because the
      digits between `p-` and the next `-` are the seat number. */
  lemma PlayerIdsDiffer(i: nat, j: nat, a: string, b: string)
    requires i != j
    ensures PlayerId(i, a) != PlayerId(j, b)
  {
    var di, dj := NatToString(i), NatToString(j);
    var x, y := PlayerId(i, a), PlayerId(j, b);
    assert x == "p-" + di + "-" + a && y == "p-" + dj + "-" + b;
    if |di| == |dj| {
      ParseNatToString(i);
      ParseNatToString(j);
      assert x[2..2 + |di|] == di;
      assert y[2..2 + |dj|] == dj;
    } else if |di| < |dj| {
      assert x[2 + |di|] == '-';
      assert y[2 + |di|] == dj[|di|];
    } else {
      assert y[2 + |dj|] == '-';
      assert x[2 + |dj|] == di[|dj|];
    }
  }

  /** The initial players keep the names' order, take the drawn roles, start
      active with no votes, and have pairwise distinct ids. */
  lemma InitialPlayers(names: seq<string>, roles: seq<Role>, suffix: nat -> string)
    requires |roles| == |names|
    ensures var ps := BuildPlayers(names, roles, suffix);
      && DistinctIds(ps)
      && RolesOf(ps) == roles
      && forall i :: 0 <= i < |ps| ==>
           ps[i].name == names[i] && !ps[i].isEliminated && ps[i].votesReceived == 0
  {
    var ps := BuildPlayers(names, roles, suffix);
    forall i, j | 0 <= i < j < |ps| ensures ps[i].id != ps[j].id {
      PlayerIdsDiffer(i, j, suffix(i), suffix(j));
    }
  }

  // ---------------------------------------------------------------------
  // Expulsion

  /** `players.find(p => p.id === id)`. */
  function FindPlayer(players: seq<Player>, id: string): (r: Option<Player>)
    ensures r.None? <==> forall k :: 0 <= k < |players| ==> players[k].id != id
    ensures r.Some? ==> exists k :: 0 <= k < |players| && players[k] == r.value && r.value.id == id
                          && forall j :: 0 <= j < k ==> players[j].id != id
  {
    if players == [] then None
    else if players[0].id == id then Some(players[0])
    else
      var r := FindPlayer(players[1..], id);
      if r.Some? then
        var k :| 0 <= k < |players[1..]| && players[1..][k] == r.value && r.value.id == id
                  && forall j :: 0 <= j < k ==> players[1..][j].id != id;
        assert players[k + 1] == r.value;
        r
      else r
  }

  /** `players.map(p => p.id === id ? { ...p, isEliminated: true } : p)`. */
  function Eliminate(players: seq<Player>, id: string): (r: seq<Player>)
    ensures |r| == |players|
  {
    seq(|players|, k requires 0 <= k < |players| =>
      if players[k].id == id then players[k].(isEliminated := true) else players[k])
  }

  function CountActiveCivilians(players: seq<Player>): nat { |Filter(players, IsActiveCivilian)| }
  function CountActiveImpostors(players: seq<Player>): nat { |Filter(players, IsActiveImpostor)| }

  /** The win rules, in the order the controller applies them. */
  function Outcome(players: seq<Player>, winCondition: WinCondition): GameState
  {
    var civilians := CountActiveCivilians(players);
    var impostors := CountActiveImpostors(players);
    if impostors == 0 then GameOver
    else if winCondition == TwoLeft && civilians + impostors <= 2 then GameOver
    else if winCondition == Parity && impostors >= civilians then GameOver
    else RoundResult
  }

  /** With `TWO_LEFT` and an impostor still in play, the game ends exactly when
      at most two players remain active. */
  lemma TwoLeftEndsAtTwo(players: seq<Player>)
    requires CountActiveImpostors(players) > 0
    ensures Outcome(players, TwoLeft) == GameOver <==> |Active(players)| <= 2
  {
    ActiveSplitsByRole(players);
  }

  /** With `PARITY` and an impostor still in play, the game ends exactly when
      the active impostors are at least as many as the active civilians. */
  lemma ParityEndsAtParity(players: seq<Player>)
    requires CountActiveImpostors(players) > 0
    ensures Outcome(players, Parity) == GameOver <==> CountActiveImpostors(players) >= CountActiveCivilians(players)
  {
  }

  /** Under `TWO_LEFT` a table of three or more impostors and no civilians
      plays on. */
  lemma NoCivilianRuleUnderTwoLeft(players: seq<Player>)
    requires CountActiveCivilians(players) == 0 && CountActiveImpostors(players) >= 3
    ensures Outcome(players, TwoLeft) == RoundResult
  {
  }

  /** What `handleExpulsion` computes: the new list, the snapshot of the player
      before elimination, and the next phase. `None` when no player has the id. */
  datatype Expulsion = Expulsion(players: seq<Player>, expelled: Player, next: GameState)

  function Expel(players: seq<Player>, id: string, winCondition: WinCondition): (r: Option<Expulsion>)
    ensures r.None? <==> FindPlayer(players, id).None?
  {
    var found := FindPlayer(players, id);
    if found.None? then None
    else
      var updated := Eliminate(players, id);
      Some(Expulsion(updated, found.value, Outcome(updated, winCondition)))
  }

  /** With distinct ids, expulsion changes exactly the named player, and only
      its elimination flag; the snapshot is that player as it was. */
  lemma ExpelChangesOnlyNamed(players: seq<Player>, id: string, winCondition: WinCondition)
    requires DistinctIds(players)
    requires Expel(players, id, winCondition).Some?
    ensures var e := Expel(players, id, winCondition).value;
      exists k :: 0 <= k < |players|
        && players[k].id == id && e.expelled == players[k]
        && e.players == players[k := players[k].(isEliminated := true)]
  {
    var e := Expel(players, id, winCondition).value;
    var k :| 0 <= k < |players| && players[k] == e.expelled && e.expelled.id == id
               && forall j :: 0 <= j < k ==> players[j].id != id;
    assert e.players == players[k := players[k].(isEliminated := true)];
  }

  /** Elimination only ever switches flags on: ids, names, roles and vote
      counts stay, and an eliminated player stays eliminated. */
  lemma EliminationMonotone(players: seq<Player>, id: string)
    ensures var r := Eliminate(players, id);
      forall k :: 0 <= k < |players| ==>
        && r[k].id == players[k].id && r[k].name == players[k].name
        && r[k].role == players[k].role && r[k].votesReceived == players[k].votesReceived
        && (players[k].isEliminated ==> r[k].isEliminated)
        && (r[k].isEliminated <==> players[k].isEliminated || players[k].id == id)
  {
  }

  /** Expelling the last active impostor ends the game, whatever the win condition. */
  lemma LastImpostorExpelled(players: seq<Player>, id: string, winCondition: WinCondition)
    requires Expel(players, id, winCondition).Some?
    requires forall k :: 0 <= k < |players| && IsActiveImpostor(players[k]) ==> players[k].id == id
    ensures Expel(players, id, winCondition).value.next == GameOver
  {
    var updated := Eliminate(players, id);
    assert forall k :: 0 <= k < |updated| ==> !IsActiveImpostor(updated[k]);
    FilterNone(updated, IsActiveImpostor);
  }

  // ---------------------------------------------------------------------
  // Phase graph

  /** The callbacks each screen hands to the controller. */
  datatype UiEvent =
    | NewGame        // HomeScreen onNewGame
    | OpenLibrary    // HomeScreen onLibrary
    | Back           // onBack of every screen
    | RevealFinished // RevealScreen onFinished
    | CluesFinished  // RoundScreen onCluesFinished
    | StartVote      // DebateScreen onVote
    | NextRound      // ResultScreen onNextRound
    | ReturnHome     // GameOverScreen onHome

  /** The phase a plain navigation callback leads to; `None` when the phase's
      screen does not offer that callback. Starting a game and expelling a player
      are the other two ways to change phase. */
  function Transition(phase: GameState, event: UiEvent): (r: Option<GameState>)
    ensures r != Some(RoleReveal) && r != Some(RoundResult) && r != Some(GameOver)
    ensures phase != Home && event == Back ==> r == Some(Home)
    ensures r == Some(RoundClues) <==>
      (phase == RoleReveal && event == RevealFinished) || (phase == RoundResult && event == NextRound)
    ensures r == Some(RoundDebate) <==> phase == RoundClues && event == CluesFinished
    ensures r == Some(RoundVote) <==> phase == RoundDebate && event == StartVote
  {
    match (phase, event)
    case (Home, NewGame) => Some(Setup)
    case (Home, OpenLibrary) => Some(Library)
    case (RoleReveal, RevealFinished) => Some(RoundClues)
    case (RoundClues, CluesFinished) => Some(RoundDebate)
    case (RoundDebate, StartVote) => Some(RoundVote)
    case (RoundResult, NextRound) => Some(RoundClues)
    case (GameOver, ReturnHome) => Some(Home)
    case (Home, Back) => None
    case (_, Back) => Some(Home)
    case _ => None
  }

  // ---------------------------------------------------------------------
  // Controller state

  class App {
    var gameState: GameState
    var config: GameConfig
    var players: seq<Player>
    var secretWord: string
    var roundNumber: int
    var lastExpelled: Option<Player>
    var gameId: string

    ghost predicate Valid()
      reads this
    {
      DistinctIds(players)
    }

    /** The controller's initial state; flags the initial configuration leaves
        out are false, and its vote mode is filled with `GROUP`, which no
        modelled code reads. */
    constructor(initialGameId: string, catalogCategories: seq<string>)
      ensures Valid()
      ensures gameState == Home && players == [] && secretWord == "" && roundNumber == 1
      ensures lastExpelled == None && gameId == initialGameId
      ensures config == GameConfig(7, 1, Medium, catalogCategories, Group, false, false, false, 30, TwoLeft)
    {
      gameState := Home;
      config := GameConfig(7, 1, Medium, catalogCategories, Group, false, false, false, 30, TwoLeft);
      players := [];
      secretWord := "";
      roundNumber := 1;
      lastExpelled := None;
      gameId := initialGameId;
    }

    /** The players the clue phase receives: the active ones, in table order. */
    function CluePlayers(): (r: seq<Player>)
      reads this
      ensures IsSubsequence(r, players)
      ensures forall p :: p in r <==> p in players && !p.isEliminated
      ensures forall p :: multiset(r)[p] == if p.isEliminated then 0 else multiset(players)[p]
    {
      ActiveInTableOrder(players);
      Active(players)
    }

    /** `startGame`. `roleDraws` and `idSuffix` stand for `Math.random`,
        `fetched` for the generator's answer (`None` when the call rejects),
        `words` for the catalog and `wordDraw` for the local pick's draw. */
    method StartGame(newConfig: GameConfig, playerNames: seq<string>, newGameId: string,
                     roleDraws: seq<real>, idSuffix: nat -> string,
                     fetched: Option<string>, words: seq<Word>, wordDraw: real)
      returns (ghost roles: seq<Role>, ghost complete: bool, ghost used: nat)
      requires Valid()
      requires gameState == Setup
      requires forall k :: 0 <= k < |roleDraws| ==> 0.0 <= roleDraws[k] < 1.0
      requires 0.0 <= wordDraw < 1.0
      modifies this
      ensures Valid()
      ensures config == newConfig && gameId == newGameId && lastExpelled == old(lastExpelled)
      ensures |roles| == |playerNames|
      ensures complete <==> CountRole(roles, Impostor) >= newConfig.impostorCount
      ensures newConfig.impostorCount > |playerNames| ==> !complete
      ensures used <= |roleDraws|
      ensures ImpostorSeats(roles) == DrawnSeats(roleDraws[..used], |playerNames|)
      ensures !complete ==> used == |roleDraws|
      ensures used > 0 ==> |DrawnSeats(roleDraws[..used - 1], |playerNames|)| < newConfig.impostorCount
      ensures complete ==>
        && CountRole(roles, Impostor) == (if newConfig.impostorCount > 0 then newConfig.impostorCount else 0)
        && CountRole(roles, Civil) == |playerNames| - CountRole(roles, Impostor)
        && players == BuildPlayers(playerNames, roles, idSuffix)
      ensures !complete ==>
        && players == old(players) && gameState == old(gameState)
        && secretWord == old(secretWord) && roundNumber == old(roundNumber)
      ensures complete && StartWord(fetched, words, newConfig.difficulty, wordDraw).Some? ==>
        && gameState == RoleReveal && roundNumber == 1
        && secretWord == StartWord(fetched, words, newConfig.difficulty, wordDraw).value
      ensures complete && StartWord(fetched, words, newConfig.difficulty, wordDraw).None? ==>
        gameState == Home && secretWord == old(secretWord) && roundNumber == old(roundNumber)
    {
      config := newConfig;
      gameId := newGameId;
      var drawn, done, read := AssignRoles(|playerNames|, newConfig.impostorCount, roleDraws);
      roles, complete, used := drawn, done, read;
      if !done {
        // The source is still drawing seats: nothing after the loop happens.
        return;
      }
      var initialPlayers := BuildPlayers(playerNames, drawn, idSuffix);
      InitialPlayers(playerNames, drawn, idSuffix);
      players := initialPlayers;
      var word := StartWord(fetched, words, newConfig.difficulty, wordDraw);
      if word.None? {
        // The critical-error path: back to the home screen.
        gameState := Home;
        return;
      }
      secretWord := word.value;
      roundNumber := 1;
      gameState := RoleReveal;
    }

    /** `handleExpulsion`. */
    method HandleExpulsion(playerId: string)
      requires Valid()
      modifies this
      ensures Valid()
      ensures config == old(config) && secretWord == old(secretWord)
      ensures roundNumber == old(roundNumber) && gameId == old(gameId)
      ensures Expel(old(players), playerId, config.winCondition).None? ==>
        players == old(players) && lastExpelled == old(lastExpelled) && gameState == old(gameState)
      ensures Expel(old(players), playerId, config.winCondition).Some? ==>
        var e := Expel(old(players), playerId, config.winCondition).value;
        players == e.players && lastExpelled == Some(e.expelled) && gameState == e.next
    {
      var e := Expel(players, playerId, config.winCondition);
      if e.None? {
        return;
      }
      ExpelChangesOnlyNamed(players, playerId, config.winCondition);
      players := e.value.players;
      lastExpelled := Some(e.value.expelled);
      gameState := e.value.next;
    }

    /** A navigation callback; `onNextRound` also counts the round. */
    method Dispatch(event: UiEvent)
      modifies this`gameState, this`roundNumber
      ensures Transition(old(gameState), event).None? ==> gameState == old(gameState)
      ensures Transition(old(gameState), event).Some? ==> gameState == Transition(old(gameState), event).value
      ensures roundNumber == old(roundNumber) + (if old(gameState) == RoundResult && event == NextRound then 1 else 0)
    {
      var next := Transition(gameState, event);
      if next.Some? {
        if gameState == RoundResult && event == NextRound {
          roundNumber := roundNumber + 1;
        }
        gameState := next.value;
      }
    }

    /** `onChangeWord` during the clue phase: the generator's answer when it is
        not empty, otherwise a local pick; a rejected call or a throwing local
        pick leaves the word as it was. */
    method ChangeWord(fetched: Option<string>, words: seq<Word>, wordDraw: real)
      requires 0.0 <= wordDraw < 1.0
      modifies this`secretWord
      ensures fetched.Some? && fetched.value != "" ==> secretWord == fetched.value
      ensures fetched == Some("") ==>
        secretWord == (var w := LocalWord(words, config.difficulty, wordDraw); if w.Some? then w.value else old(secretWord))
      ensures fetched.None? ==> secretWord == old(secretWord)
    {
      if fetched.None? {
        return;
      }
      if fetched.value != "" {
        secretWord := fetched.value;
      } else {
        var w := LocalWord(words, config.difficulty, wordDraw);
        if w.Some? {
          secretWord := w.value;
        }
      }
    }
  }
}
