/** The word library (screens/LibraryScreen.tsx): the catalog, optionally
    narrowed to one difficulty. */
module Library {
  import opened Types

  /** `'TODAS'` or one `Difficulty`. */
  datatype LibraryFilter = All | Only(difficulty: Difficulty)

  /** `['TODAS', ...Object.values(Difficulty)]`. */
  function FilterOptions(): (r: seq<LibraryFilter>)
    ensures |r| == 1 + |AllDifficulties| && r[0] == All
    ensures forall k :: 1 <= k < |r| ==> r[k] == Only(AllDifficulties[k - 1])
    ensures forall i, j :: 0 <= i < j < |r| ==> r[i] != r[j]
  {
    [All, Only(Easy), Only(Medium), Only(Hard), Only(Extreme)]
  }

  /** Every difficulty is offered. */
  lemma FilterOptionsCoverDifficulties(d: Difficulty)
    ensures Only(d) in FilterOptions()
  {
    var r := FilterOptions();
    match d
    case Easy => assert r[1] == Only(d);
    case Medium => assert r[2] == Only(d);
    case Hard => assert r[3] == Only(d);
    case Extreme => assert r[4] == Only(d);
  }

  /** `filtered`: the whole catalog, or its words of the chosen difficulty. */
  function Filtered(catalog: seq<Word>, filter: LibraryFilter): (r: seq<Word>)
  {
    match filter
    case All => catalog
    case Only(d) => WordsOfDifficulty(catalog, d)
  }

  /** `'TODAS'` shows the catalog as it is; a difficulty shows exactly the
      catalog's words of that difficulty, in catalog order. */
  lemma FilteredSpec(catalog: seq<Word>, filter: LibraryFilter)
    ensures filter == All ==> Filtered(catalog, filter) == catalog
    ensures filter.Only? ==> forall w :: w in Filtered(catalog, filter) <==> w in catalog && w.difficulty == filter.difficulty
    ensures filter.Only? ==> forall w ::
      multiset(Filtered(catalog, filter))[w] == (if w.difficulty == filter.difficulty then multiset(catalog)[w] else 0)
    ensures IsSubsequence(Filtered(catalog, filter), catalog)
  {
    match filter
    case All =>
      SubsequenceOfItself(catalog);
    case Only(d) =>
      WordsOfDifficultyInOrder(catalog, d);
      WordsOfDifficultyCounts(catalog, d);
  }

  lemma {:induction false} SubsequenceOfItself<T>(s: seq<T>)
    ensures IsSubsequence(s, s)
  {
    if s != [] {
      SubsequenceOfItself(s[1..]);
    }
  }
}
