/** The tier selection screen: which tiers can be played and what choosing
    one does to the settings. */
module LevelSelector {
  import opened Types
  import opened Config
  import opened Progression

  /** The first tier is always open; any other opens once the tier before it
      has been cleared. */
  predicate IsUnlocked(index: nat, completed: seq<Difficulty>)
    requires index < |DIFFICULTY_ORDER|
    ensures index == 0 ==> IsUnlocked(index, completed)
    ensures completed == [] ==> (IsUnlocked(index, completed) <==> index == 0)
  {
    index == 0 || DIFFICULTY_ORDER[index - 1] in completed
  }

  predicate IsCompleted(d: Difficulty, completed: seq<Difficulty>)
    ensures IsCompleted(d, completed) <==> exists i :: 0 <= i < |completed| && completed[i] == d
  {
    d in completed
  }

  /** `startGame`: only the difficulty of the settings changes, and the shell
      moves to the playing screen. */
  function StartGame(settings: GameSettings, d: Difficulty): (r: (GameSettings, GameState))
    ensures r.0.difficulty == d && r.1 == Playing
    ensures r.0.soundEnabled == settings.soundEnabled && r.0.playerName == settings.playerName
  {
    (settings.(difficulty := d), Playing)
  }

  /** A click on the tier at `index`: a locked tier does nothing. */
  function Select(settings: GameSettings, screen: GameState, index: nat, completed: seq<Difficulty>): (r: (GameSettings, GameState))
    requires index < |DIFFICULTY_ORDER|
    ensures !IsUnlocked(index, completed) ==> r == (settings, screen)
    ensures IsUnlocked(index, completed) ==> r == StartGame(settings, DIFFICULTY_ORDER[index])
  {
    if IsUnlocked(index, completed) then StartGame(settings, DIFFICULTY_ORDER[index]) else (settings, screen)
  }

  /** Starting a game from the selector keeps every setting but the tier. */
  lemma SelectKeepsOtherSettings(settings: GameSettings, screen: GameState, index: nat, completed: seq<Difficulty>)
    requires index < |DIFFICULTY_ORDER|
    ensures var r := Select(settings, screen, index, completed);
      && r.0.soundEnabled == settings.soundEnabled
      && r.0.playerName == settings.playerName
      && (r.0.difficulty == settings.difficulty || r.0.difficulty == DIFFICULTY_ORDER[index])
  {
  }

  /** Every cleared tier after the first has its predecessor cleared too.
      The default progress has this, and playing keeps it (below). */
  predicate ClearedInOrder(completed: seq<Difficulty>)
  {
    forall k :: 0 < k < |DIFFICULTY_ORDER| && DIFFICULTY_ORDER[k] in completed ==> DIFFICULTY_ORDER[k - 1] in completed
  }

  /** The tiers open form a prefix of the tier order whenever the cleared
      tiers are in order: each tier open after the first needs its
      predecessor cleared, which needs that one open first. */
  lemma {:induction false} UnlockedIsPrefix(completed: seq<Difficulty>, i: nat, j: nat)
    requires i <= j < |DIFFICULTY_ORDER|
    requires ClearedInOrder(completed)
    ensures IsUnlocked(j, completed) ==> IsUnlocked(i, completed)
    decreases j - i
  {
    if i < j && j > 0 && IsUnlocked(j, completed) {
      if j - 1 > 0 {
        assert DIFFICULTY_ORDER[j - 2] in completed;
      }
      UnlockedIsPrefix(completed, i, j - 1);
    }
  }

  /** Clearing a tier, outside the infinite and Fuegorin modes, opens the
      next one. */
  lemma ClearingOpensNext(prev: PlayerProgress, res: GameResult, extras: ActiveExtras, i: nat)
    requires i + 1 < |DIFFICULTY_ORDER|
    requires Clears(res, extras)
    ensures IsUnlocked(i + 1, ApplyResult(prev, res, extras, DIFFICULTY_ORDER[i]).completedDifficulties)
  {
    CompletedFacts(prev, res, extras, DIFFICULTY_ORDER[i]);
  }

  /** No result closes a tier again. */
  lemma UnlockedStaysUnlocked(prev: PlayerProgress, res: GameResult, extras: ActiveExtras, d: Difficulty, i: nat)
    requires i < |DIFFICULTY_ORDER| && IsUnlocked(i, prev.completedDifficulties)
    ensures IsUnlocked(i, ApplyResult(prev, res, extras, d).completedDifficulties)
  {
    CompletedFacts(prev, res, extras, d);
  }

  /** A new player has cleared nothing, so the cleared tiers are in order. */
  lemma ClearedInOrderInitially()
    ensures ClearedInOrder(DEFAULT_PROGRESS.completedDifficulties)
  {
  }

  /** The selector only starts open tiers, and the result of a game on an
      open tier keeps the cleared tiers in order; so every progress the game
      reaches has its open tiers as a prefix of the tier order. */
  lemma PlayingKeepsClearedInOrder(prev: PlayerProgress, res: GameResult, extras: ActiveExtras, i: nat)
    requires i < |DIFFICULTY_ORDER|
    requires IsUnlocked(i, prev.completedDifficulties) && ClearedInOrder(prev.completedDifficulties)
    ensures ClearedInOrder(ApplyResult(prev, res, extras, DIFFICULTY_ORDER[i]).completedDifficulties)
  {
    CompletedFacts(prev, res, extras, DIFFICULTY_ORDER[i]);
    DifficultyOrderMonotone();
  }
}
