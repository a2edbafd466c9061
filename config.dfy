/** The static tables the game reads: arena size, difficulty tiers, the secret
    zones, the Fuegorin story and the skin catalogue. */
module Config {
  import opened Basics
  import opened Types

  const CANVAS_WIDTH: real := 450.0
  const CANVAS_HEIGHT: real := 800.0
  const PLAYER_SPEED: real := 8.0
  const FIRE_WIDTH: real := 40.0
  const FIRE_HEIGHT: real := 50.0
  /** The player's square side, fixed where the session creates the player. */
  const PLAYER_SIZE: real := 30.0

  const DIFFICULTY_ORDER: seq<Difficulty> := [Easy, Normal, Hard, Extreme, Hacker]

  function WinScore(d: Difficulty): nat
  {
    match d
    case Easy => 10
    case Normal => 20
    case Hard => 30
    case Extreme => 50
    case Hacker => 100
  }

  /** Frames between enemy spawn attempts; positive, as the tick's modulo needs. */
  function SpawnRate(d: Difficulty): (r: nat)
    ensures r > 0
  {
    match d
    case Easy => 60
    case Normal => 40
    case Hard => 25
    case Extreme => 15
    case Hacker => 5
  }

  /** A zone as fractions of the arena; a missing bound leaves that side open. */
  datatype Bounds = Bounds(xMin: Option<real>, xMax: Option<real>, yMin: Option<real>, yMax: Option<real>)

  predicate InBounds(b: Bounds, rx: real, ry: real)
  {
    && (b.xMin.None? || rx >= b.xMin.value)
    && (b.xMax.None? || rx <= b.xMax.value)
    && (b.yMin.None? || ry >= b.yMin.value)
    && (b.yMax.None? || ry <= b.yMax.value)
  }

  datatype Secret = Secret(id: int, difficulty: Difficulty, bounds: Bounds)

  const SECRETS_CONFIG: seq<Secret> := [
    Secret(1, Normal, Bounds(Some(0.85), None, None, Some(0.1))),
    Secret(2, Easy, Bounds(None, Some(0.15), None, Some(0.1))),
    Secret(3, Easy, Bounds(None, Some(0.15), Some(0.9), None)),
    Secret(4, Hard, Bounds(Some(0.85), None, Some(0.9), None)),
    Secret(5, Hard, Bounds(Some(0.4), Some(0.6), Some(0.4), Some(0.6)))
  ]

  /** A story fragment; its title, hint and text are not modelled. */
  datatype StoryPart = StoryPart(id: int, difficultyReq: Difficulty)

  const FUEGORIN_STORY: seq<StoryPart> := [
    StoryPart(1, Normal),
    StoryPart(2, Easy),
    StoryPart(3, Easy),
    StoryPart(4, Hard),
    StoryPart(5, Hard)
  ]

  /** The skin ids of the catalogue, in catalogue order. */
  const AVAILABLE_SKINS: seq<string> := [
    "default", "sakura", "autumn", "magma", "glitch", "peruano",
    "venezolano", "bolivia", "golden", "void", "ghost", "ancient"
  ]

  /** Every skin id the progression rules can unlock. */
  const UNLOCKABLE_SKINS: seq<string> := [
    "sakura", "autumn", "magma", "glitch", "golden", "ghost",
    "peruano", "venezolano", "bolivia", "ancient", "void"
  ]

  /** The arena corners the player's top-left corner can reach, as fractions. */
  const REACH_X: real := (CANVAS_WIDTH - PLAYER_SIZE) / CANVAS_WIDTH
  const REACH_Y: real := (CANVAS_HEIGHT - PLAYER_SIZE) / CANVAS_HEIGHT

  /** Two zones are kept apart on some axis by their given bounds. */
  predicate Separated(a: Bounds, b: Bounds)
  {
    || (a.xMax.Some? && b.xMin.Some? && a.xMax.value < b.xMin.value)
    || (b.xMax.Some? && a.xMin.Some? && b.xMax.value < a.xMin.value)
    || (a.yMax.Some? && b.yMin.Some? && a.yMax.value < b.yMin.value)
    || (b.yMax.Some? && a.yMin.Some? && b.yMax.value < a.yMin.value)
  }

  lemma SeparatedDisjoint(a: Bounds, b: Bounds, rx: real, ry: real)
    requires Separated(a, b)
    ensures !(InBounds(a, rx, ry) && InBounds(b, rx, ry))
  {
  }

  predicate WellFormed(b: Bounds)
  {
    && (b.xMin.Some? ==> 0.0 <= b.xMin.value <= 1.0)
    && (b.xMax.Some? ==> 0.0 <= b.xMax.value <= 1.0)
    && (b.yMin.Some? ==> 0.0 <= b.yMin.value <= 1.0)
    && (b.yMax.Some? ==> 0.0 <= b.yMax.value <= 1.0)
    && (b.xMin.Some? && b.xMax.Some? ==> b.xMin.value <= b.xMax.value)
    && (b.yMin.Some? && b.yMax.Some? ==> b.yMin.value <= b.yMax.value)
  }

  /** Along the tier order the target score rises and enemies come faster. */
  lemma DifficultyOrderMonotone()
    ensures forall i, j :: 0 <= i < j < |DIFFICULTY_ORDER| ==>
      WinScore(DIFFICULTY_ORDER[i]) < WinScore(DIFFICULTY_ORDER[j])
      && SpawnRate(DIFFICULTY_ORDER[i]) > SpawnRate(DIFFICULTY_ORDER[j])
    ensures forall d: Difficulty :: d in DIFFICULTY_ORDER
    ensures forall i, j :: 0 <= i < j < |DIFFICULTY_ORDER| ==> DIFFICULTY_ORDER[i] != DIFFICULTY_ORDER[j]
  {
    forall d: Difficulty ensures d in DIFFICULTY_ORDER {
      match d
      case Easy => assert DIFFICULTY_ORDER[0] == d;
      case Normal => assert DIFFICULTY_ORDER[1] == d;
      case Hard => assert DIFFICULTY_ORDER[2] == d;
      case Extreme => assert DIFFICULTY_ORDER[3] == d;
      case Hacker => assert DIFFICULTY_ORDER[4] == d;
    }
  }

  /** The secret zones are the story parts 1..5, each under its own tier. */
  lemma SecretsMatchStory()
    ensures |SECRETS_CONFIG| == |FUEGORIN_STORY| == 5
    ensures forall i :: 0 <= i < 5 ==>
      SECRETS_CONFIG[i].id == FUEGORIN_STORY[i].id == i + 1
      && SECRETS_CONFIG[i].difficulty == FUEGORIN_STORY[i].difficultyReq
    ensures forall i, j :: 0 <= i < j < |SECRETS_CONFIG| ==> SECRETS_CONFIG[i].id != SECRETS_CONFIG[j].id
  {
  }

  lemma SecretBoundsWellFormed()
    ensures forall s :: s in SECRETS_CONFIG ==> WellFormed(s.bounds)
  {
  }

  /** No two story zones overlap, so no position is in two zones at once. */
  lemma SecretsDisjoint()
    ensures forall i, j :: 0 <= i < j < |SECRETS_CONFIG| ==>
      Separated(SECRETS_CONFIG[i].bounds, SECRETS_CONFIG[j].bounds)
  {
  }

  /** Zones that share a tier are disjoint. */
  lemma SameTierZonesDisjoint(i: nat, j: nat, rx: real, ry: real)
    requires i < |SECRETS_CONFIG| && j < |SECRETS_CONFIG| && i != j
    requires SECRETS_CONFIG[i].difficulty == SECRETS_CONFIG[j].difficulty
    ensures !(InBounds(SECRETS_CONFIG[i].bounds, rx, ry) && InBounds(SECRETS_CONFIG[j].bounds, rx, ry))
  {
    SecretsDisjoint();
    if i < j {
      SeparatedDisjoint(SECRETS_CONFIG[i].bounds, SECRETS_CONFIG[j].bounds, rx, ry);
    } else {
      SeparatedDisjoint(SECRETS_CONFIG[j].bounds, SECRETS_CONFIG[i].bounds, rx, ry);
    }
  }

  /** A position of the player's top-left corner, in pixels, that lies in zone b. */
  function ZoneWitness(b: Bounds): (p: (real, real))
    requires WellFormed(b)
    requires b.xMin.Some? ==> b.xMin.value <= REACH_X
    requires b.yMin.Some? ==> b.yMin.value <= REACH_Y
    ensures 0.0 <= p.0 <= CANVAS_WIDTH - PLAYER_SIZE && 0.0 <= p.1 <= CANVAS_HEIGHT - PLAYER_SIZE
    ensures InBounds(b, p.0 / CANVAS_WIDTH, p.1 / CANVAS_HEIGHT)
  {
    var rx := if b.xMin.Some? then b.xMin.value else 0.0;
    var ry := if b.yMin.Some? then b.yMin.value else 0.0;
    (rx * CANVAS_WIDTH, ry * CANVAS_HEIGHT)
  }

  /** The player's top-left corner at pixel (x, y) is inside the arena and in zone b. */
  predicate ReachableIn(b: Bounds, x: real, y: real)
  {
    && 0.0 <= x <= CANVAS_WIDTH - PLAYER_SIZE && 0.0 <= y <= CANVAS_HEIGHT - PLAYER_SIZE
    && InBounds(b, x / CANVAS_WIDTH, y / CANVAS_HEIGHT)
  }

  /** Every story zone can be entered by a player kept inside the arena. */
  lemma SecretsReachable(i: nat)
    requires i < |SECRETS_CONFIG|
    ensures exists x: real, y: real :: ReachableIn(SECRETS_CONFIG[i].bounds, x, y)
  {
    var p := ZoneWitness(SECRETS_CONFIG[i].bounds);
    assert ReachableIn(SECRETS_CONFIG[i].bounds, p.0, p.1);
  }

  /** The catalogue has no repeated id and holds the default skin and every
      skin progression can unlock. */
  lemma SkinCatalogueComplete()
    ensures forall i, j :: 0 <= i < j < |AVAILABLE_SKINS| ==> AVAILABLE_SKINS[i] != AVAILABLE_SKINS[j]
    ensures "default" in AVAILABLE_SKINS
    ensures forall id :: id in UNLOCKABLE_SKINS ==> id in AVAILABLE_SKINS
  {
  }
}
