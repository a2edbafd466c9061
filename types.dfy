/** The records the game's screens pass to one another. */
module Types {
  import opened Basics

  datatype Difficulty = Easy | Normal | Hard | Extreme | Hacker

  /** The screens the application shell switches between. */
  datatype GameState =
    | Menu | LevelSelect | Playing | SkinsScreen | SettingsScreen | AchievementsScreen
    | ExtrasScreen | LeaderboardScreen | StoryScreen | GameOver | Victory

  /** Persisted settings; the on-screen control layout is not part of the model. */
  datatype GameSettings = GameSettings(soundEnabled: bool, difficulty: Difficulty, playerName: string)

  /** The mode toggles of the extras screen. `bananaMode` is toggled and read by
      the screens although the record type does not declare it. */
  datatype ActiveExtras = ActiveExtras(mutant: bool, infinite: bool, fuegorin: bool, bananaMode: bool)

  /** What a finished session reports. Times are in seconds; `foundPeel` and
      `foundCaramel` are set only by the item secrets. */
  datatype GameResult = GameResult(
    won: bool,
    score: int,
    hackerSurvivalTime: real,
    totalSurvivalTime: real,
    unlockedSecret: Option<int>,
    foundPeel: bool,
    foundCaramel: bool)

  /** Durable progress. `fuegorinLosses` is optional in the record type and is
      read as 0 when absent. */
  datatype PlayerProgress = PlayerProgress(
    totalSprouts: int,
    totalLosses: int,
    completedDifficulties: seq<Difficulty>,
    unlockedSkins: seq<string>,
    maxHackerSurvival: real,
    maxTotalSurvivalTime: real,
    unlockedStoryParts: seq<int>,
    fuegorinLosses: Option<int>)

  /** A JSON value as a request body field can hold it. */
  datatype Json = Undefined | Null | Bool(b: bool) | Num(n: int) | Str(s: string) | Compound

  /** JavaScript truthiness of a field value. */
  predicate Truthy(j: Json)
  {
    match j
    case Undefined => false
    case Null => false
    case Bool(b) => b
    case Num(n) => n != 0
    case Str(s) => s != ""
    case Compound => true
  }

  /** A leaderboard row. The server stores whatever name and date it was sent. */
  datatype LeaderboardEntry = LeaderboardEntry(name: Json, score: int, date: Json)
}
