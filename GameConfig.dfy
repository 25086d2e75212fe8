/** Normalisation of an untrusted, partial configuration into a `GameConfig`
    (gameConfig.ts). */
module ConfigNormalization {
  import opened Types
  import opened Strings

  const MinPlayers: int := 3
  const MaxImpostors: int := 3
  const MinTimerSeconds: int := 15
  const MaxTimerSeconds: int := 180

  /** A `Partial<GameConfig>` as it arrives. `None` stands for a field that is
      missing; for the numeric fields also for a value that is not a finite number
      (`Number.isFinite` fails), and for `categories` for a value that is not an array.
      The enumerations arrive as the strings they are compared with. */
  datatype RawConfig = RawConfig(
    playerCount: Option<real>,
    impostorCount: Option<real>,
    difficulty: Option<string>,
    categories: Option<seq<string>>,
    voteMode: Option<string>,
    aiWordGenerationEnabled: Option<bool>,
    clueCaptureEnabled: Option<bool>,
    timerEnabled: Option<bool>,
    timerSeconds: Option<real>,
    winCondition: Option<string>)

  /** `config ?? {}`: no configuration at all. */
  const NoConfig: RawConfig :=
    RawConfig(None, None, None, None, None, None, None, None, None, None)

  /** `DEFAULT_GAME_CONFIG`; `catalog` is the category list of the word catalog. */
  function DefaultGameConfig(catalog: seq<string>): GameConfig
  {
    GameConfig(7, 1, Medium, catalog, Group, false, false, true, 60, TwoLeft)
  }

  // ---------------------------------------------------------------------
  // Categories

  predicate IsNonEmpty(s: string) { |s| > 0 }

  predicate Distinct(s: seq<string>) {
    forall i, j :: 0 <= i < j < |s| ==> s[i] != s[j]
  }

  /** A category list as `sanitizeCategories` leaves it: trimmed, non-empty, no repeats. */
  predicate IsCleanList(s: seq<string>) {
    Distinct(s) && forall k :: 0 <= k < |s| ==> s[k] != [] && Trim(s[k]) == s[k]
  }

  function TrimAll(cs: seq<string>): (r: seq<string>)
    ensures |r| == |cs| && forall k :: 0 <= k < |cs| ==> r[k] == Trim(cs[k])
  {
    seq(|cs|, k requires 0 <= k < |cs| => Trim(cs[k]))
  }

  /** Position of the first occurrence of `x` in `s`. */
  function FirstIndex(s: seq<string>, x: string): (i: nat)
    requires x in s
    ensures i < |s| && s[i] == x && forall k :: 0 <= k < i ==> s[k] != x
  {
    if s[0] == x then 0 else 1 + FirstIndex(s[1..], x)
  }

  /** `Array.from(new Set(s))`: each value once, in the order of its first occurrence. */
  function Dedupe(s: seq<string>): (r: seq<string>)
    ensures Distinct(r)
    ensures forall x :: x in r <==> x in s
  {
    if s == [] then []
    else
      var d := Dedupe(s[..|s| - 1]);
      var last := s[|s| - 1];
      assert s == s[..|s| - 1] + [last];
      if last in d then d else d + [last]
  }

  lemma FirstIndexOfPrefix(init: seq<string>, last: string, x: string)
    requires x in init
    ensures FirstIndex(init + [last], x) == FirstIndex(init, x)
  {
    var i := FirstIndex(init, x);
    var j := FirstIndex(init + [last], x);
    assert (init + [last])[i] == x;
    assert j <= i;
    assert init[j] == x;
  }

  /** The values come out in the order in which each first occurs in `s`. */
  lemma {:induction false} DedupeKeepsFirstOccurrenceOrder(s: seq<string>)
    ensures forall i, j :: 0 <= i < j < |Dedupe(s)| ==> FirstIndex(s, Dedupe(s)[i]) < FirstIndex(s, Dedupe(s)[j])
  {
    if s != [] {
      var init := s[..|s| - 1];
      var last := s[|s| - 1];
      var d := Dedupe(init);
      assert s == init + [last];
      DedupeKeepsFirstOccurrenceOrder(init);
      forall i, j | 0 <= i < j < |Dedupe(s)|
        ensures FirstIndex(s, Dedupe(s)[i]) < FirstIndex(s, Dedupe(s)[j])
      {
        assert Dedupe(s)[i] == d[i];
        FirstIndexOfPrefix(init, last, d[i]);
        if j < |d| {
          FirstIndexOfPrefix(init, last, d[j]);
        } else {
          assert Dedupe(s)[j] == last && last !in init;
        }
      }
    }
  }

  /** The entries trimmed, blank ones dropped, before duplicates are removed. */
  function Cleaned(cs: seq<string>): seq<string>
  {
    Filter(TrimAll(cs), IsNonEmpty)
  }

  /** `sanitizeCategories`. */
  function SanitizeCategories(categories: Option<seq<string>>, catalog: seq<string>): (r: seq<string>)
  {
    if categories.None? then catalog
    else
      var unique := Dedupe(Cleaned(categories.value));
      if |unique| > 0 then unique else catalog
  }

  predicate HasNonBlank(cs: seq<string>) {
    exists c :: c in cs && Trim(c) != []
  }

  lemma CleanedMembers(cs: seq<string>)
    ensures forall x :: x in Cleaned(cs) <==> x != [] && exists c :: c in cs && Trim(c) == x
    ensures forall x :: x in Cleaned(cs) ==> Trim(x) == x
  {
    var t := TrimAll(cs);
    forall x ensures x in Cleaned(cs) <==> x != [] && exists c :: c in cs && Trim(c) == x {
      if x in Cleaned(cs) {
        var k :| 0 <= k < |t| && t[k] == x;
        assert cs[k] in cs;
      }
      if x != [] && exists c :: c in cs && Trim(c) == x {
        var c :| c in cs && Trim(c) == x;
        var k :| 0 <= k < |cs| && cs[k] == c;
        assert t[k] == x;
      }
    }
    forall x | x in Cleaned(cs) ensures Trim(x) == x {
      var k :| 0 <= k < |t| && t[k] == x;
      TrimIdempotent(cs[k]);
    }
  }

  /** A non-array or an all-blank list yields the catalog's list. */
  lemma SanitizeFallsBack(categories: Option<seq<string>>, catalog: seq<string>)
    requires categories.None? || !HasNonBlank(categories.value)
    ensures SanitizeCategories(categories, catalog) == catalog
  {
    if categories.Some? {
      CleanedMembers(categories.value);
    }
  }

  /** Otherwise the result holds every non-blank entry trimmed, each once and
      nothing else, in the order in which the trimmed entries first occur. */
  lemma SanitizeKeepsEntries(cs: seq<string>, catalog: seq<string>)
    requires HasNonBlank(cs)
    ensures var r := SanitizeCategories(Some(cs), catalog);
      && r == Dedupe(Cleaned(cs))
      && IsCleanList(r)
      && (forall x :: x in r <==> x != [] && exists c :: c in cs && Trim(c) == x)
  {
    CleanedMembers(cs);
    var c :| c in cs && Trim(c) != [];
    assert Trim(c) in Cleaned(cs);
    assert Trim(c) in Dedupe(Cleaned(cs));
    var r := Dedupe(Cleaned(cs));
    forall k | 0 <= k < |r| ensures r[k] != [] && Trim(r[k]) == r[k] {
      assert r[k] in Cleaned(cs);
    }
  }

  // ---------------------------------------------------------------------
  // Whole configuration

  function Max(a: int, b: int): int { if a >= b then a else b }
  function Min(a: int, b: int): int { if a <= b then a else b }

  /** `Math.floor` of a finite number, or the default. */
  function FloorOr(x: Option<real>, default: int): int
  {
    if x.Some? then x.value.Floor else default
  }

  /** `normalizeGameConfig`. */
  function NormalizeGameConfig(source: RawConfig, catalog: seq<string>): (r: GameConfig)
  {
    var playerCount := Max(MinPlayers, FloorOr(source.playerCount, 7));
    var maxImpostorsByPlayerCount := Max(1, Min(MaxImpostors, playerCount - 1));
    var impostorCount := Max(1, Min(maxImpostorsByPlayerCount, FloorOr(source.impostorCount, 1)));
    var timerSeconds := Max(MinTimerSeconds, Min(MaxTimerSeconds, FloorOr(source.timerSeconds, 60)));
    var difficulty :=
      if source.difficulty.Some? && ParseDifficulty(source.difficulty.value).Some?
      then ParseDifficulty(source.difficulty.value).value else Medium;
    var voteMode :=
      if source.voteMode == Some("INDIVIDUAL") then Individual
      else Group;
    var winCondition :=
      if source.winCondition == Some("PARITY") then Parity
      else TwoLeft;
    GameConfig(
      playerCount,
      impostorCount,
      difficulty,
      SanitizeCategories(source.categories, catalog),
      voteMode,
      if source.aiWordGenerationEnabled.Some? then source.aiWordGenerationEnabled.value else false,
      if source.clueCaptureEnabled.Some? then source.clueCaptureEnabled.value else false,
      if source.timerEnabled.Some? then source.timerEnabled.value else true,
      timerSeconds,
      winCondition)
  }

  /** The bounds every normalised configuration keeps. */
  predicate WithinBounds(c: GameConfig) {
    && c.playerCount >= MinPlayers
    && 1 <= c.impostorCount <= Min(MaxImpostors, c.playerCount - 1)
    && MinTimerSeconds <= c.timerSeconds <= MaxTimerSeconds
  }

  /** Each numeric field is the floored input moved to the nearest value inside
      its range, or the default when the input is missing or not finite. */
  lemma NormalizeNumbers(source: RawConfig, catalog: seq<string>)
    ensures var r := NormalizeGameConfig(source, catalog);
      && WithinBounds(r)
      && (source.playerCount.None? ==> r.playerCount == 7)
      && (source.playerCount.Some? ==>
            r.playerCount == if source.playerCount.value.Floor >= 3 then source.playerCount.value.Floor else 3)
      && (source.impostorCount.None? ==> r.impostorCount == 1)
      && (source.impostorCount.Some? && 1 <= source.impostorCount.value.Floor <= Min(3, r.playerCount - 1) ==>
            r.impostorCount == source.impostorCount.value.Floor)
      && (source.impostorCount.Some? && source.impostorCount.value.Floor < 1 ==> r.impostorCount == 1)
      && (source.impostorCount.Some? && source.impostorCount.value.Floor > Min(3, r.playerCount - 1) ==>
            r.impostorCount == Min(3, r.playerCount - 1))
      && (source.timerSeconds.None? ==> r.timerSeconds == 60)
      && (source.timerSeconds.Some? && 15 <= source.timerSeconds.value.Floor <= 180 ==>
            r.timerSeconds == source.timerSeconds.value.Floor)
      && (source.timerSeconds.Some? && source.timerSeconds.value.Floor < 15 ==> r.timerSeconds == 15)
      && (source.timerSeconds.Some? && source.timerSeconds.value.Floor > 180 ==> r.timerSeconds == 180)
  {
  }

  /** The enumerations keep a recognised value and fall back to the default on
      anything else; the flags take the input when it is present. */
  lemma NormalizeChoices(source: RawConfig, catalog: seq<string>)
    ensures var r := NormalizeGameConfig(source, catalog);
      && (forall d :: source.difficulty == Some(DifficultyValue(d)) ==> r.difficulty == d)
      && (source.difficulty.None? || ParseDifficulty(source.difficulty.value).None? ==> r.difficulty == Medium)
      && (r.voteMode == Individual <==> source.voteMode == Some("INDIVIDUAL"))
      && (r.winCondition == Parity <==> source.winCondition == Some("PARITY"))
      && r.aiWordGenerationEnabled == (if source.aiWordGenerationEnabled.Some? then source.aiWordGenerationEnabled.value else false)
      && r.clueCaptureEnabled == (if source.clueCaptureEnabled.Some? then source.clueCaptureEnabled.value else false)
      && r.timerEnabled == (if source.timerEnabled.Some? then source.timerEnabled.value else true)
  {
    forall d | source.difficulty == Some(DifficultyValue(d))
      ensures NormalizeGameConfig(source, catalog).difficulty == d
    {
      ParseDifficultyValue(d);
    }
  }

  /** No configuration at all gives `DEFAULT_GAME_CONFIG`. */
  lemma NormalizeNothing(catalog: seq<string>)
    ensures NormalizeGameConfig(NoConfig, catalog) == DefaultGameConfig(catalog)
  {
  }

  /** A configuration seen again as raw input. */
  function AsRaw(c: GameConfig): RawConfig
  {
    RawConfig(
      Some(c.playerCount as real), Some(c.impostorCount as real), Some(DifficultyValue(c.difficulty)),
      Some(c.categories), Some(if c.voteMode == Individual then "INDIVIDUAL" else "GROUP"),
      Some(c.aiWordGenerationEnabled), Some(c.clueCaptureEnabled), Some(c.timerEnabled),
      Some(c.timerSeconds as real), Some(if c.winCondition == Parity then "PARITY" else "TWO_LEFT"))
  }

  /** A clean, non-empty category list passes the cleaning unchanged. */
  lemma {:induction false} DedupeOfDistinct(s: seq<string>)
    requires Distinct(s)
    ensures Dedupe(s) == s
  {
    if s != [] {
      var init := s[..|s| - 1];
      DedupeOfDistinct(init);
      assert s[|s| - 1] !in init;
      assert init + [s[|s| - 1]] == s;
    }
  }

  lemma {:induction false} FilterKeepsAll(s: seq<string>)
    requires forall k :: 0 <= k < |s| ==> s[k] != []
    ensures Filter(s, IsNonEmpty) == s
  {
    if s != [] {
      FilterKeepsAll(s[1..]);
      assert [s[0]] + s[1..] == s;
    }
  }

  lemma SanitizeClean(cs: seq<string>, catalog: seq<string>)
    requires IsCleanList(cs) && |cs| > 0
    ensures SanitizeCategories(Some(cs), catalog) == cs
  {
    assert TrimAll(cs) == cs;
    FilterKeepsAll(cs);
    DedupeOfDistinct(cs);
  }

  /** A configuration inside the bounds, with a clean category list (or the
      catalog's own list), is its own normal form. */
  lemma NormalizeFixpoint(c: GameConfig, catalog: seq<string>)
    requires WithinBounds(c)
    requires (IsCleanList(c.categories) && |c.categories| > 0) || (c.categories == catalog && !HasNonBlank(catalog))
    ensures NormalizeGameConfig(AsRaw(c), catalog) == c
  {
    var r := NormalizeGameConfig(AsRaw(c), catalog);
    assert (c.playerCount as real).Floor == c.playerCount;
    assert (c.impostorCount as real).Floor == c.impostorCount;
    assert (c.timerSeconds as real).Floor == c.timerSeconds;
    assert r.playerCount == c.playerCount;
    assert r.impostorCount == c.impostorCount;
    assert r.timerSeconds == c.timerSeconds;
    ParseDifficultyValue(c.difficulty);
    assert r.difficulty == c.difficulty;
    if IsCleanList(c.categories) && |c.categories| > 0 {
      SanitizeClean(c.categories, catalog);
    } else {
      SanitizeFallsBack(Some(c.categories), catalog);
    }
    assert r.categories == c.categories;
  }

  /** Normalisation leaves a configuration that is already normalised unchanged,
      when the catalog's own category list is clean. */
  lemma NormalizeIdempotent(source: RawConfig, catalog: seq<string>)
    requires IsCleanList(catalog)
    ensures var c := NormalizeGameConfig(source, catalog);
      NormalizeGameConfig(AsRaw(c), catalog) == c
  {
    var c := NormalizeGameConfig(source, catalog);
    NormalizeNumbers(source, catalog);
    if source.categories.Some? && HasNonBlank(source.categories.value) {
      SanitizeKeepsEntries(source.categories.value, catalog);
    } else {
      SanitizeFallsBack(source.categories, catalog);
      if HasNonBlank(catalog) {
        var x :| x in catalog && Trim(x) != [];
        assert |catalog| > 0;
      } else if catalog != [] {
        assert Trim(catalog[0]) == catalog[0] && catalog[0] != [];
        assert catalog[0] in catalog;
      }
    }
    NormalizeFixpoint(c, catalog);
  }
}
