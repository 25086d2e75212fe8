/** The setup screen (screens/SetupScreen.tsx): choosing the table size, the
    number of impostors and the difficulty, naming the players and starting. */
module Setup {
  import opened Types
  import opened Strings

  /** The names offered for the first seats. */
  const RequestedNames: seq<string> := ["Perea", "Mario", "Charlie", "Raquel", "Lauri", "May", "Iván"]

  /** The fallback name of seat `i` (0-based). */
  function AgentName(i: nat): string
  {
    "Agente " + NatToString(i + 1)
  }

  /** `requestedNames[i] || \`Agente ${i + 1}\``. */
  function DefaultName(i: nat): string
  {
    if i < |RequestedNames| && RequestedNames[i] != "" then RequestedNames[i] else AgentName(i)
  }

  /** `Array.from({ length: playerCount }, ...)` in `handleNext`; a negative
      length makes an empty list. */
  function DefaultNames(playerCount: int): (r: seq<string>)
    ensures |r| == if playerCount > 0 then playerCount else 0
    ensures forall i :: 0 <= i < |r| ==> r[i] == DefaultName(i)
  {
    if playerCount <= 0 then [] else seq(playerCount, i requires 0 <= i < playerCount => DefaultName(i))
  }

  /** The first seven seats get the requested names, the rest `Agente n`. */
  lemma DefaultNameCases(i: nat)
    ensures i < 7 ==> DefaultName(i) == RequestedNames[i]
    ensures i >= 7 ==> DefaultName(i) == AgentName(i)
  {
  }

  /** The default names are never empty and never repeat. */
  lemma DefaultNamesDistinct(playerCount: int)
    ensures forall i :: 0 <= i < |DefaultNames(playerCount)| ==> DefaultNames(playerCount)[i] != ""
    ensures forall i, j :: 0 <= i < j < |DefaultNames(playerCount)| ==>
      DefaultNames(playerCount)[i] != DefaultNames(playerCount)[j]
  {
    var r := DefaultNames(playerCount);
    forall i, j | 0 <= i < j < |r| ensures r[i] != r[j] {
      if j >= 7 && i >= 7 {
        if AgentName(i) == AgentName(j) {
          assert AgentName(i)[7..] == NatToString(i + 1);
          assert AgentName(j)[7..] == NatToString(j + 1);
          NatToStringInjective(i + 1, j + 1);
        }
      } else if j >= 7 {
        assert RequestedNames[i][0] != 'A' by {
          assert i == 0 || i == 1 || i == 2 || i == 3 || i == 4 || i == 5 || i == 6;
        }
        assert AgentName(j)[0] == 'A';
      }
    }
  }

  /** `updateName`: a copy with entry `index` replaced. */
  function UpdateName(names: seq<string>, index: int, name: string): (r: seq<string>)
    requires 0 <= index < |names|
    ensures |r| == |names| && r[index] == name
    ensures forall j :: 0 <= j < |names| && j != index ==> r[j] == names[j]
  {
    names[index := name]
  }

  /** The impostor button `num` is enabled unless `num >= playerCount - 1`. */
  function ImpostorOptionEnabled(num: int, playerCount: int): (r: bool)
    ensures r <==> num <= playerCount - 2
  {
    !(num >= playerCount - 1)
  }

  /** An enabled choice among 1, 2, 3 always leaves at least two civilians,
      and so lies in the range the configuration normalisation keeps. */
  lemma EnabledImpostorChoiceIsSound(num: int, playerCount: int)
    requires 1 <= num <= 3 && ImpostorOptionEnabled(num, playerCount)
    ensures playerCount - num >= 2
    ensures 1 <= num <= (if playerCount - 1 < 3 then playerCount - 1 else 3)
  {
  }

  /** `detectedNames.slice(0, playerCount)` when some names were detected,
      otherwise the names as they were. */
  function ApplyDetectedNames(current: seq<string>, detected: seq<string>, playerCount: int): (r: seq<string>)
    ensures detected == [] ==> r == current
    ensures detected != [] ==> 0 <= playerCount ==>
      r == detected[..if playerCount < |detected| then playerCount else |detected|]
    ensures detected != [] ==> |r| <= |detected| && r == detected[..|r|]
  {
    if detected == [] then current
    else
      var end := if playerCount < 0 then (if |detected| + playerCount > 0 then |detected| + playerCount else 0)
                 else if playerCount < |detected| then playerCount else |detected|;
      detected[..end]
  }

  /** With a positive table size, detection never yields more names than seats. */
  lemma DetectedNamesFitTable(current: seq<string>, detected: seq<string>, playerCount: int)
    requires detected != [] && playerCount >= 0
    ensures |ApplyDetectedNames(current, detected, playerCount)| <= playerCount
    ensures |ApplyDetectedNames(current, detected, playerCount)| == playerCount <==> |detected| >= playerCount
  {
  }

  /** Dictation keeps as many names as the table size the speech handler saw
      when the screen was mounted, which is always 7: with the table set to 4
      seats, six dictated names all stay. */
  lemma DictationOverfillsTable()
    ensures var six := ["Ana", "Bea", "Carlos", "Dani", "Eva", "Fer"];
      |ApplyDetectedNames([], six, 7)| == 6 > 4
  {
  }

  /** The configuration `handleStartGame` hands over: categories empty, a
      60-second timer on, `TWO_LEFT`; the flags it omits read as false, and the
      vote mode it omits is filled with `GROUP`, which no modelled code reads. */
  function StartConfig(playerCount: int, impostorCount: int, difficulty: Difficulty): (c: GameConfig)
    ensures c.playerCount == playerCount && c.impostorCount == impostorCount && c.difficulty == difficulty
    ensures c.categories == [] && c.timerEnabled && c.timerSeconds == 60 && c.winCondition == TwoLeft
    ensures !c.aiWordGenerationEnabled && !c.clueCaptureEnabled
  {
    GameConfig(playerCount, impostorCount, difficulty, [], Group, false, false, true, 60, TwoLeft)
  }

  datatype View = ConfigView | NamesView

  class SetupScreen {
    /** The table size captured by the speech handler installed at mount. */
    const dictationCount: int
    var playerCount: int
    var impostorCount: int
    var difficulty: Difficulty
    var playerNames: seq<string>
    var view: View
    var isStarting: bool

    constructor()
      ensures playerCount == 7 && impostorCount == 1 && difficulty == Medium
      ensures playerNames == [] && view == ConfigView && !isStarting
      ensures dictationCount == 7
    {
      dictationCount := 7;
      playerCount := 7;
      impostorCount := 1;
      difficulty := Medium;
      playerNames := [];
      view := ConfigView;
      isStarting := false;
    }

    /** The table-size slider. */
    method SetPlayerCount(n: int)
      requires 3 <= n <= 20
      modifies this`playerCount
      ensures playerCount == n
    {
      playerCount := n;
    }

    /** An impostor button; disabled buttons cannot be pressed. */
    method SelectImpostors(num: int)
      requires num in {1, 2, 3} && ImpostorOptionEnabled(num, playerCount)
      modifies this`impostorCount
      ensures impostorCount == num
    {
      impostorCount := num;
    }

    method SelectDifficulty(d: Difficulty)
      modifies this`difficulty
      ensures difficulty == d
    {
      difficulty := d;
    }

    /** `handleNext`: one default name per seat, then the names view. */
    method HandleNext()
      modifies this`playerNames, this`view
      ensures playerNames == DefaultNames(playerCount) && view == NamesView
    {
      playerNames := DefaultNames(playerCount);
      view := NamesView;
    }

    /** `handleBackAction`: from the names back to the configuration; from the
        configuration out of the screen (`leave`). */
    method HandleBackAction() returns (leave: bool)
      modifies this`view
      ensures leave <==> old(view) == ConfigView
      ensures view == ConfigView
    {
      if view == NamesView {
        view := ConfigView;
        leave := false;
      } else {
        leave := true;
      }
    }

    /** Editing the name in row `index`. */
    method EditName(index: int, name: string)
      requires 0 <= index < |playerNames|
      modifies this`playerNames
      ensures playerNames == UpdateName(old(playerNames), index, name)
    {
      playerNames := UpdateName(playerNames, index, name);
    }

    /** The names a dictation produced, as the mounted speech handler applies
        them: cut to the table size of the first render, not the current one. */
    method NamesDetected(detected: seq<string>)
      modifies this`playerNames
      ensures playerNames == ApplyDetectedNames(old(playerNames), detected, dictationCount)
    {
      playerNames := ApplyDetectedNames(playerNames, detected, dictationCount);
    }

    /** The names a dictation produced, cut to the current table size; with
        names detected the table never gets more names than seats. */
    method NamesDetectedForTable(detected: seq<string>)
      modifies this`playerNames
      ensures playerNames == ApplyDetectedNames(old(playerNames), detected, playerCount)
      ensures detected != [] && playerCount >= 0 ==> |playerNames| <= playerCount
    {
      playerNames := ApplyDetectedNames(playerNames, detected, playerCount);
      if detected != [] && playerCount >= 0 {
        DetectedNamesFitTable(old(playerNames), detected, playerCount);
      }
    }

    /** `handleStartGame`: ignored while a start is under way; otherwise hands
        the configuration and the names to `onStart`, and lets a new start
        through again only if `onStart` throws. */
    method HandleStartGame(startThrows: bool) returns (started: Option<(GameConfig, seq<string>)>)
      modifies this`isStarting
      ensures old(isStarting) ==> started.None? && isStarting
      ensures !old(isStarting) ==>
        && started == Some((StartConfig(playerCount, impostorCount, difficulty), playerNames))
        && isStarting == !startThrows
    {
      if isStarting {
        return None;
      }
      isStarting := true;
      started := Some((StartConfig(playerCount, impostorCount, difficulty), playerNames));
      if startThrows {
        isStarting := false;
      }
    }
  }
}
