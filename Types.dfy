/** The game's entities (types.ts) and the list operations every screen shares. */
module Types {

  datatype Option<T> = None | Some(value: T)

  datatype Role = Civil | Impostor

  datatype Difficulty = Easy | Medium | Hard | Extreme

  /** The string each `Difficulty` member stands for. */
  function DifficultyValue(d: Difficulty): string
  {
    match d
    case Easy => "Fácil"
    case Medium => "Media"
    case Hard => "Difícil"
    case Extreme => "Extrema"
  }

  /** `Object.values(Difficulty)`, in declaration order. */
  const AllDifficulties: seq<Difficulty> := [Easy, Medium, Hard, Extreme]

  /** Recognises one of the four `Difficulty` strings. */
  function ParseDifficulty(s: string): (r: Option<Difficulty>)
    ensures r.Some? ==> DifficultyValue(r.value) == s
    ensures r.None? ==> forall d: Difficulty :: DifficultyValue(d) != s
  {
    if s == "Fácil" then Some(Easy)
    else if s == "Media" then Some(Medium)
    else if s == "Difícil" then Some(Hard)
    else if s == "Extrema" then Some(Extreme)
    else None
  }

  lemma ParseDifficultyValue(d: Difficulty)
    ensures ParseDifficulty(DifficultyValue(d)) == Some(d)
  {
  }

  datatype GameState =
    | Home | Setup | RoleReveal | RoundClues | RoundDebate | RoundVote | RoundResult | GameOver | Library

  datatype VoteMode = Individual | Group

  datatype WinCondition = TwoLeft | Parity

  datatype Player = Player(id: string, name: string, role: Role, isEliminated: bool, votesReceived: int)

  /** The configuration record; `clueCaptureEnabled` is the field gameConfig.ts
      reads and writes beside those types.ts declares. */
  datatype GameConfig = GameConfig(
    playerCount: int,
    impostorCount: int,
    difficulty: Difficulty,
    categories: seq<string>,
    voteMode: VoteMode,
    aiWordGenerationEnabled: bool,
    clueCaptureEnabled: bool,
    timerEnabled: bool,
    timerSeconds: int,
    winCondition: WinCondition)

  datatype Word = Word(id: string, text: string, category: string, difficulty: Difficulty)

  // ---------------------------------------------------------------------
  // Lists

  /** `Array.prototype.filter`. */
  function Filter<T>(s: seq<T>, f: T -> bool): (r: seq<T>)
    ensures |r| <= |s|
    ensures forall k :: 0 <= k < |r| ==> r[k] in s && f(r[k])
    ensures forall k :: 0 <= k < |s| && f(s[k]) ==> s[k] in r
  {
    if s == [] then [] else (if f(s[0]) then [s[0]] else []) + Filter(s[1..], f)
  }

  lemma {:induction false} FilterAppend<T>(a: seq<T>, b: seq<T>, f: T -> bool)
    ensures Filter(a + b, f) == Filter(a, f) + Filter(b, f)
  {
    if a != [] {
      assert (a + b)[1..] == a[1..] + b;
      FilterAppend(a[1..], b, f);
    } else {
      assert a + b == b;
    }
  }

  /** Nothing passes a filter no element satisfies. */
  lemma {:induction false} FilterNone<T>(s: seq<T>, f: T -> bool)
    requires forall k :: 0 <= k < |s| ==> !f(s[k])
    ensures Filter(s, f) == []
  {
    if s != [] {
      FilterNone(s[1..], f);
    }
  }

  /** The filter keeps every element that passes as often as it occurs, and
      no other. */
  lemma {:induction false} FilterCounts<T>(s: seq<T>, f: T -> bool)
    ensures forall x :: multiset(Filter(s, f))[x] == if f(x) then multiset(s)[x] else 0
  {
    if s != [] {
      FilterCounts(s[1..], f);
      assert s == [s[0]] + s[1..];
      assert multiset(s) == multiset{s[0]} + multiset(s[1..]);
    }
  }

  /** `a` is `b` with some elements left out, the rest in their order. */
  predicate IsSubsequence<T(==)>(a: seq<T>, b: seq<T>)
  {
    if a == [] then true
    else if b == [] then false
    else if a[0] == b[0] then IsSubsequence(a[1..], b[1..])
    else IsSubsequence(a, b[1..])
  }

  lemma {:induction false} FilterIsSubsequence<T>(s: seq<T>, f: T -> bool)
    ensures IsSubsequence(Filter(s, f), s)
  {
    if s != [] {
      FilterIsSubsequence(s[1..], f);
      if !f(s[0]) {
        assert Filter(s, f) == Filter(s[1..], f);
        SubsequenceOfTail(Filter(s[1..], f), s);
      }
    }
  }

  lemma {:induction false} SubsequenceOfTail<T>(a: seq<T>, b: seq<T>)
    requires b != [] && IsSubsequence(a, b[1..])
    ensures IsSubsequence(a, b)
  {
    if a != [] && a[0] == b[0] {
      if b[1..] != [] {
        if a[0] == b[1] {
          assert IsSubsequence(a[1..], b[2..]);
          SubsequenceOfTail(a[1..], b[1..]);
          assert b[1..][1..] == b[2..];
        } else {
          assert IsSubsequence(a, b[2..]);
          assert b[1..][1..] == b[2..];
          SubsequenceDropHead(a, b[1..]);
        }
      }
    }
  }

  lemma {:induction false} SubsequenceDropHead<T>(a: seq<T>, b: seq<T>)
    requires a != [] && IsSubsequence(a, b)
    ensures IsSubsequence(a[1..], b)
  {
    if b != [] {
      if a[0] == b[0] {
        SubsequenceOfTail(a[1..], b);
      } else {
        SubsequenceDropHead(a, b[1..]);
        SubsequenceOfTail(a[1..], b);
      }
    }
  }

  // ---------------------------------------------------------------------
  // Players

  predicate DistinctIds(players: seq<Player>) {
    forall i, j :: 0 <= i < j < |players| ==> players[i].id != players[j].id
  }

  predicate IsActive(p: Player) { !p.isEliminated }
  predicate IsActiveCivilian(p: Player) { !p.isEliminated && p.role == Civil }
  predicate IsActiveImpostor(p: Player) { !p.isEliminated && p.role == Impostor }
  predicate IsImpostor(p: Player) { p.role == Impostor }

  /** `players.filter(p => !p.isEliminated)`: the players still at the table. */
  function Active(players: seq<Player>): (r: seq<Player>)
  {
    Filter(players, IsActive)
  }

  /** The active players keep the table order and are exactly the non-eliminated ones. */
  lemma ActiveInTableOrder(players: seq<Player>)
    ensures IsSubsequence(Active(players), players)
    ensures forall p :: p in Active(players) <==> p in players && !p.isEliminated
    ensures forall p :: multiset(Active(players))[p] == if p.isEliminated then 0 else multiset(players)[p]
  {
    FilterIsSubsequence(players, IsActive);
    FilterCounts(players, IsActive);
  }

  /** Every active player is a civilian or an impostor. */
  lemma {:induction false} ActiveSplitsByRole(players: seq<Player>)
    ensures |Active(players)| == |Filter(players, IsActiveCivilian)| + |Filter(players, IsActiveImpostor)|
  {
    if players != [] {
      ActiveSplitsByRole(players[1..]);
    }
  }

  // ---------------------------------------------------------------------
  // Word catalog

  /** `words.filter(w => w.difficulty === d)`. */
  function WordsOfDifficulty(words: seq<Word>, d: Difficulty): (r: seq<Word>)
    ensures forall w :: w in r <==> w in words && w.difficulty == d
  {
    if words == [] then []
    else (if words[0].difficulty == d then [words[0]] else []) + WordsOfDifficulty(words[1..], d)
  }

  /** The filtered catalog holds every word of the difficulty as often as the
      catalog does, and no other word. */
  lemma {:induction false} WordsOfDifficultyCounts(words: seq<Word>, d: Difficulty)
    ensures forall w :: multiset(WordsOfDifficulty(words, d))[w] == if w.difficulty == d then multiset(words)[w] else 0
  {
    if words != [] {
      WordsOfDifficultyCounts(words[1..], d);
      assert words == [words[0]] + words[1..];
      assert multiset(words) == multiset{words[0]} + multiset(words[1..]);
    }
  }

  /** The filtered catalog keeps catalog order. */
  lemma {:induction false} WordsOfDifficultyInOrder(words: seq<Word>, d: Difficulty)
    ensures IsSubsequence(WordsOfDifficulty(words, d), words)
  {
    if words != [] {
      WordsOfDifficultyInOrder(words[1..], d);
      if words[0].difficulty != d {
        assert WordsOfDifficulty(words, d) == WordsOfDifficulty(words[1..], d);
        SubsequenceOfTail(WordsOfDifficulty(words[1..], d), words);
      }
    }
  }
}
