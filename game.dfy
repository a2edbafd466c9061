/** One frame of the game loop, as a function from the session state and the
    frame's inputs to the next state, the results reported to the shell and
    whether the loop schedules another frame. Drawing is not part of it. */
module Game {
  import opened Basics
  import opened Types
  import opened Config
  import opened StableSort

  datatype Kind = Enemy | Sprout | Mutant | Projectile

  /** A moving or static object of the arena; its colour is not modelled. */
  datatype Entity = Entity(id: int, x: real, y: real, width: real, height: real, vx: real, vy: real, kind: Kind)

  datatype Vec = Vec(x: real, y: real)

  /** The shop power-ups the session was started with. */
  datatype PowerUps = PowerUps(shield: bool, rapidFire: bool, tripleShot: bool, speed: bool)

  /** What a session fixes when it starts. The story parts and the two banana
      items are read from the progress record at that time. */
  datatype SessionConfig = SessionConfig(
    difficulty: Difficulty,
    extras: ActiveExtras,
    unlockedStoryParts: seq<int>,
    hasSacredPeel: bool,
    hasCaramelBanana: bool,
    powerUps: PowerUps)

  /** A discovered secret: a story part, or one of the banana items. */
  datatype FoundSecret = StoryFound(id: int) | ItemFound(id: int)

  const SACRED_PEEL_ID: int := 998
  const CARAMEL_BANANA_ID: int := 999

  /** Frames the player must stay in a zone: two seconds at 60 frames a second. */
  const DWELL_FRAMES: nat := 120
  const SAFE_SPAWN_DIST_SQ: real := 22500.0
  const SHOT_SIZE: real := 10.0

  /** The session's mutable state. `frame` also stands for the survival time,
      which the loop advances by 1/60 s in the same frames. */
  datatype State = State(
    px: real, py: real,
    frame: nat,
    secretTimer: nat,
    score: nat,
    sproutsInRun: nat,
    abilityReady: bool,
    shieldActive: bool,
    gameOver: bool,
    victory: bool,
    paused: bool,
    secretFound: Option<FoundSecret>,
    enemies: seq<Entity>,
    sprouts: seq<Entity>,
    projectiles: seq<Entity>,
    lastShotTime: int)

  /** What the outside world supplies to one frame: the movement and aim
      vectors, the clock, the velocities the shot angles give, the random
      fractions in [0, 1) for the spawns and fresh ids. */
  datatype TickInput = TickInput(
    move: Vec,
    aim: Vec,
    now: int,
    shotLeft: Vec, shotCenter: Vec, shotRight: Vec,
    shotIds: seq<int>,
    enemyAt: Vec, enemyId: int,
    mutantAt: Vec, mutantId: int,
    sproutAt: Vec, sproutId: int)

  datatype StepOut = StepOut(state: State, reports: seq<GameResult>, rearm: bool)

  function SpeedBoost(cfg: SessionConfig): real
  {
    if cfg.powerUps.speed then 1.5 else 1.0
  }

  function Cooldown(cfg: SessionConfig): int
  {
    if cfg.powerUps.rapidFire then 200 else 500
  }

  /** `Math.max(0, Math.min(hi, v))`. */
  function Clamp(v: real, hi: real): (r: real)
    requires hi >= 0.0
    ensures 0.0 <= r <= hi
    ensures 0.0 <= v <= hi ==> r == v
  {
    Max(0.0, Min(hi, v))
  }

  function Survival(s: State): real
  {
    s.frame as real / 60.0
  }

  function Report(won: bool, score: nat, survival: real): GameResult
  {
    GameResult(won, score, 0.0, survival, None, false, false)
  }

  function NewSprout(kind: Kind, at: Vec, id: int): Entity
  {
    var side := if kind == Mutant then 35.0 else 25.0;
    Entity(id, at.x * (CANVAS_WIDTH - 40.0) + 20.0, at.y * (CANVAS_HEIGHT - 40.0) + 20.0, side, side, 0.0, 0.0, kind)
  }

  /** The session as it starts: the player centred and one sprout. */
  function Initial(cfg: SessionConfig, sproutAt: Vec, sproutId: int): State
  {
    State(CANVAS_WIDTH / 2.0, CANVAS_HEIGHT / 2.0, 0, 0, 0, 0, false, cfg.powerUps.shield,
          false, false, false, None, [], [NewSprout(Sprout, sproutAt, sproutId)], [], 0)
  }

  // ---- projectiles ----

  function Advance(p: Entity): Entity
  {
    p.(x := p.x + p.vx, y := p.y + p.vy)
  }

  predicate Hits(pr: Entity, e: Entity)
  {
    Abs(pr.x - e.x) < 25.0 && Abs(pr.y - e.y) < 25.0
  }

  predicate InArena(pr: Entity)
  {
    pr.x > -50.0 && pr.x < CANVAS_WIDTH + 50.0 && pr.y > -50.0 && pr.y < CANVAS_HEIGHT + 50.0
  }

  /** The enemies a projectile at pr leaves standing, in order. */
  function Survivors(es: seq<Entity>, pr: Entity): (r: seq<Entity>)
    ensures |r| <= |es|
  {
    if es == [] then []
    else Survivors(es[..|es| - 1], pr) + (if Hits(pr, es[|es| - 1]) then [] else [es[|es| - 1]])
  }

  datatype Pass = Pass(kept: seq<Entity>, enemies: seq<Entity>)

  /** Moves each projectile in turn, removes the enemies it touches and keeps
      it only if it touched none and is still near the arena. */
  function ProjectilePass(ps: seq<Entity>, es: seq<Entity>): (r: Pass)
    ensures |r.kept| <= |ps|
    ensures |r.enemies| <= |es|
  {
    if ps == [] then Pass([], es)
    else
      var prev := ProjectilePass(ps[..|ps| - 1], es);
      var pr := Advance(ps[|ps| - 1]);
      var left := Survivors(prev.enemies, pr);
      var hit := |left| < |prev.enemies|;
      Pass(prev.kept + (if !hit && InArena(pr) then [pr] else []), left)
  }

  // ---- shooting ----

  function NewShot(s: State, v: Vec, id: int): Entity
  {
    Entity(id, s.px + PLAYER_SIZE / 2.0, s.py + PLAYER_SIZE / 2.0, SHOT_SIZE, SHOT_SIZE, v.x, v.y, Projectile)
  }

  function IdAt(ids: seq<int>, i: nat): int
  {
    if i < |ids| then ids[i] else 0
  }

  /** The projectiles one shot fires from the player's centre: three with the
      triple-shot power-up, one otherwise. */
  function Volley(cfg: SessionConfig, s: State, inp: TickInput): (r: seq<Entity>)
    ensures |r| == if cfg.powerUps.tripleShot then 3 else 1
    ensures forall e :: e in r ==> e.kind == Projectile && e.x == s.px + 15.0 && e.y == s.py + 15.0
  {
    if cfg.powerUps.tripleShot
    then [NewShot(s, inp.shotLeft, IdAt(inp.shotIds, 0)), NewShot(s, inp.shotCenter, IdAt(inp.shotIds, 1)),
          NewShot(s, inp.shotRight, IdAt(inp.shotIds, 2))]
    else [NewShot(s, inp.shotCenter, IdAt(inp.shotIds, 0))]
  }

  /** Fires when the aim is non-zero and the cooldown has passed. */
  function Shoot(cfg: SessionConfig, s: State, inp: TickInput): (r: State)
    ensures s.projectiles <= r.projectiles
    ensures r.projectiles != s.projectiles ==>
      && (inp.aim.x != 0.0 || inp.aim.y != 0.0)
      && inp.now - s.lastShotTime >= Cooldown(cfg)
      && r.lastShotTime == inp.now
    ensures r == s.(lastShotTime := r.lastShotTime, projectiles := r.projectiles)
  {
    if inp.aim.x == 0.0 && inp.aim.y == 0.0 then s
    else if inp.now - s.lastShotTime < Cooldown(cfg) then s
    else s.(lastShotTime := inp.now, projectiles := s.projectiles + Volley(cfg, s, inp))
  }

  // ---- secret zones ----

  datatype Zone = Zone(secret: FoundSecret, bounds: Bounds)

  const PEEL_ZONE: Zone := Zone(ItemFound(SACRED_PEEL_ID), Bounds(Some(0.4), Some(0.6), None, Some(0.15)))
  const CARAMEL_ZONE: Zone := Zone(ItemFound(CARAMEL_BANANA_ID), Bounds(Some(0.4), Some(0.6), Some(0.85), None))

  /** The story zones of the session's tier whose part is not yet unlocked,
      in table order; `GameFacts.StoryZonesEligible` proves that a zone is
      here exactly when its secret is of that tier and still locked. */
  function StoryZones(secrets: seq<Secret>, cfg: SessionConfig): (r: seq<Zone>)
    ensures |r| <= |secrets|
  {
    if secrets == [] then []
    else
      var sc := secrets[0];
      (if sc.difficulty == cfg.difficulty && sc.id !in cfg.unlockedStoryParts
       then [Zone(StoryFound(sc.id), sc.bounds)] else [])
      + StoryZones(secrets[1..], cfg)
  }

  /** Every zone the loop checks, in the order it checks them. */
  function ActiveZones(cfg: SessionConfig): seq<Zone>
  {
    StoryZones(SECRETS_CONFIG, cfg)
    + (if cfg.extras.fuegorin
       then (if !cfg.hasSacredPeel then [PEEL_ZONE] else []) + (if !cfg.hasCaramelBanana then [CARAMEL_ZONE] else [])
       else [])
  }

  datatype Dwell = Found(secret: FoundSecret, timer: nat) | Stay(inAny: bool, timer: nat)

  /** Checks the zones in order; each zone containing the point adds one frame
      to the timer, and the first to bring it to the threshold is found. */
  function ScanFrom(zones: seq<Zone>, rx: real, ry: real, inAny: bool, timer: nat): (r: Dwell)
    ensures timer <= r.timer <= timer + |zones|
    ensures r.Found? ==> r.timer >= DWELL_FRAMES
    ensures r.Stay? ==> r.timer == timer || r.timer < DWELL_FRAMES
    ensures r.Stay? ==> (r.inAny <==> inAny || r.timer != timer)
  {
    if zones == [] then Stay(inAny, timer)
    else if InBounds(zones[0].bounds, rx, ry) then
      if timer + 1 >= DWELL_FRAMES then Found(zones[0].secret, timer + 1)
      else ScanFrom(zones[1..], rx, ry, true, timer + 1)
    else ScanFrom(zones[1..], rx, ry, inAny, timer)
  }

  // ---- spawning ----

  function Dist2(x1: real, y1: real, x2: real, y2: real): real
  {
    (x1 - x2) * (x1 - x2) + (y1 - y2) * (y1 - y2)
  }

  /** An enemy at the random point, unless that point is within 150 px of the player. */
  function SpawnEnemy(s: State, at: Vec, id: int): State
  {
    var x := at.x * (CANVAS_WIDTH - FIRE_WIDTH);
    var y := at.y * (CANVAS_HEIGHT - FIRE_HEIGHT);
    if Dist2(x, y, s.px, s.py) < SAFE_SPAWN_DIST_SQ then s
    else s.(enemies := s.enemies + [Entity(id, x, y, FIRE_WIDTH, FIRE_HEIGHT, 0.0, 0.0, Enemy)])
  }

  function SpawnEnemyStage(cfg: SessionConfig, s: State, inp: TickInput): (r: State)
    ensures s.enemies <= r.enemies && |r.enemies| <= |s.enemies| + 1
    ensures r.enemies != s.enemies ==> s.frame % SpawnRate(cfg.difficulty) == 0
    ensures s.frame % SpawnRate(cfg.difficulty) == 0
            && Dist2(inp.enemyAt.x * (CANVAS_WIDTH - FIRE_WIDTH), inp.enemyAt.y * (CANVAS_HEIGHT - FIRE_HEIGHT), s.px, s.py)
               >= SAFE_SPAWN_DIST_SQ
            ==> |r.enemies| == |s.enemies| + 1 && r.enemies[|s.enemies|].kind == Enemy
    ensures r == s.(enemies := r.enemies)
  {
    if s.frame % SpawnRate(cfg.difficulty) == 0 then SpawnEnemy(s, inp.enemyAt, inp.enemyId) else s
  }

  function SpawnMutantStage(cfg: SessionConfig, s: State, inp: TickInput): (r: State)
    ensures s.sprouts <= r.sprouts && |r.sprouts| <= |s.sprouts| + 1
    ensures r.sprouts != s.sprouts ==> cfg.extras.mutant && r.sprouts[|s.sprouts|].kind == Mutant
    ensures cfg.extras.mutant && s.frame % 180 == 0 ==>
              |r.sprouts| == |s.sprouts| + 1 && r.sprouts[|s.sprouts|].kind == Mutant
    ensures r == s.(sprouts := r.sprouts)
  {
    if cfg.extras.mutant && s.frame % 180 == 0
    then s.(sprouts := s.sprouts + [NewSprout(Mutant, inp.mutantAt, inp.mutantId)]) else s
  }

  function SpawnSproutStage(s: State, inp: TickInput): (r: State)
    ensures s.sprouts <= r.sprouts && |r.sprouts| <= |s.sprouts| + 1
    ensures r.sprouts != s.sprouts ==> |s.sprouts| < 4
    ensures |s.sprouts| < 4 && s.frame % 60 == 0 ==>
              |r.sprouts| == |s.sprouts| + 1 && r.sprouts[|s.sprouts|].kind == Sprout
    ensures r == s.(sprouts := r.sprouts)
  {
    if |s.sprouts| < 4 && s.frame % 60 == 0
    then s.(sprouts := s.sprouts + [NewSprout(Sprout, inp.sproutAt, inp.sproutId)]) else s
  }

  /** The three spawn checks, in the loop's order. */
  function Spawn(cfg: SessionConfig, s: State, inp: TickInput): (r: State)
    ensures s.enemies <= r.enemies && |r.enemies| <= |s.enemies| + 1
    ensures s.sprouts <= r.sprouts && |r.sprouts| <= |s.sprouts| + 2
    ensures s.frame % SpawnRate(cfg.difficulty) == 0
            && Dist2(inp.enemyAt.x * (CANVAS_WIDTH - FIRE_WIDTH), inp.enemyAt.y * (CANVAS_HEIGHT - FIRE_HEIGHT), s.px, s.py)
               >= SAFE_SPAWN_DIST_SQ
            ==> |r.enemies| == |s.enemies| + 1
    ensures cfg.extras.mutant && s.frame % 180 == 0 ==> |r.sprouts| > |s.sprouts| && r.sprouts[|s.sprouts|].kind == Mutant
    ensures r == s.(enemies := r.enemies, sprouts := r.sprouts)
  {
    SpawnSproutStage(SpawnMutantStage(cfg, SpawnEnemyStage(cfg, s, inp), inp), inp)
  }

  // ---- enemy contact ----

  predicate Touches(px: real, py: real, e: Entity)
  {
    Abs(px - e.x) < 25.0 && Abs(py - e.y) < 30.0
  }

  /** The enemies whose id differs from id, in order. */
  function RemoveId(es: seq<Entity>, id: int): (r: seq<Entity>)
    ensures |r| <= |es|
  {
    if es == [] then []
    else RemoveId(es[..|es| - 1], id) + (if es[|es| - 1].id == id then [] else [es[|es| - 1]])
  }

  datatype Contact = Caught(enemies: seq<Entity>) | Clear(enemies: seq<Entity>, shield: bool)

  /** Walks the enemies as they were when the check began; a touching enemy
      is removed by the shield while it lasts and otherwise ends the game. */
  function Collide(snapshot: seq<Entity>, es: seq<Entity>, shield: bool, px: real, py: real): (r: Contact)
    ensures |r.enemies| <= |es|
    ensures r.Clear? && r.shield ==> shield && r.enemies == es
    ensures !shield ==> r.enemies == es
  {
    if snapshot == [] then Clear(es, shield)
    else if Touches(px, py, snapshot[0]) then
      if shield then Collide(snapshot[1..], RemoveId(es, snapshot[0].id), false, px, py)
      else Caught(es)
    else Collide(snapshot[1..], es, shield, px, py)
  }

  // ---- sprout pickup ----

  predicate Reaches(px: real, py: real, sp: Entity)
  {
    Abs(px - sp.x) < 30.0 && Abs(py - sp.y) < 30.0
  }

  function Worth(sp: Entity): nat
  {
    if sp.kind == Mutant then 4 else 1
  }

  datatype Pickup = Pickup(kept: seq<Entity>, score: nat, run: nat, ready: bool, victory: bool, reports: seq<GameResult>)

  /** One picked-up sprout: score and run counter gain its worth, a full run
      readies the ability, and outside infinite mode a score at the target wins. */
  function Gain(cfg: SessionConfig, p: Pickup, sp: Entity, survival: real): (r: Pickup)
    ensures r.kept == p.kept && r.score > p.score
    ensures p.run < 15 ==> r.run < 15
    ensures p.reports <= r.reports && |r.reports| <= |p.reports| + 1
    ensures p.victory ==> r.victory
    ensures cfg.extras.infinite ==> r.reports == p.reports && r.victory == p.victory
  {
    var score := p.score + Worth(sp);
    var run := p.run + Worth(sp);
    var won := !cfg.extras.infinite && score >= WinScore(cfg.difficulty);
    Pickup(p.kept,
           score,
           if run >= 15 then run - 15 else run,
           p.ready || run >= 15,
           p.victory || won,
           p.reports + (if won then [Report(true, score, survival)] else []))
  }

  function Collect(cfg: SessionConfig, ss: seq<Entity>, px: real, py: real, survival: real, start: Pickup): (r: Pickup)
    ensures start.kept <= r.kept && |r.kept| <= |start.kept| + |ss|
    ensures r.score >= start.score
    ensures start.run < 15 ==> r.run < 15
    ensures start.reports <= r.reports && |r.reports| <= |start.reports| + |ss|
    ensures start.victory ==> r.victory
  {
    if ss == [] then start
    else
      var p := Collect(cfg, ss[..|ss| - 1], px, py, survival, start);
      var sp := ss[|ss| - 1];
      if Reaches(px, py, sp) then Gain(cfg, p, sp, survival)
      else p.(kept := p.kept + [sp])
  }

  // ---- the frame ----

  /** Advances the frame counter and moves the player, clamped to the arena. */
  function Move(cfg: SessionConfig, s: State, move: Vec): (r: State)
    ensures 0.0 <= r.px <= CANVAS_WIDTH - PLAYER_SIZE && 0.0 <= r.py <= CANVAS_HEIGHT - PLAYER_SIZE
    ensures r.frame == s.frame + 1
    ensures r == s.(frame := r.frame, px := r.px, py := r.py)
  {
    s.(frame := s.frame + 1,
       px := Clamp(s.px + move.x * PLAYER_SPEED * SpeedBoost(cfg), CANVAS_WIDTH - PLAYER_SIZE),
       py := Clamp(s.py + move.y * PLAYER_SPEED * SpeedBoost(cfg), CANVAS_HEIGHT - PLAYER_SIZE))
  }

  /** The frame up to the zone check: move, projectiles, shooting. */
  function Prelude(cfg: SessionConfig, s: State, inp: TickInput): State
  {
    var s1 := Move(cfg, s, inp.move);
    var pass := ProjectilePass(s1.projectiles, s1.enemies);
    Shoot(cfg, s1.(projectiles := pass.kept, enemies := pass.enemies), inp)
  }

  /** The frame after the zone check: spawns, enemy contact, pickups. */
  function Finish(cfg: SessionConfig, s: State, inp: TickInput): StepOut
  {
    var s1 := Spawn(cfg, s, inp);
    match Collide(s1.enemies, s1.enemies, s1.shieldActive, s1.px, s1.py)
    case Caught(es) =>
      StepOut(s1.(enemies := es, shieldActive := false, gameOver := true),
              [Report(false, s1.score, Survival(s1))], false)
    case Clear(es, shield) =>
      var p := Collect(cfg, s1.sprouts, s1.px, s1.py, Survival(s1),
                       Pickup([], s1.score, s1.sproutsInRun, s1.abilityReady, s1.victory, []));
      StepOut(s1.(enemies := es, shieldActive := shield, sprouts := p.kept, score := p.score,
                  sproutsInRun := p.run, abilityReady := p.ready, victory := p.victory),
              p.reports, true)
  }

  function Step(cfg: SessionConfig, s: State, inp: TickInput): (r: StepOut)
    ensures r.state.score >= s.score
    ensures s.frame <= r.state.frame <= s.frame + 1
    ensures s.gameOver ==> r.state == s && r.reports == []
  {
    if s.paused || s.secretFound.Some? then StepOut(s, [], true)
    else if s.gameOver || s.victory then StepOut(s, [], false)
    else
      var s1 := Prelude(cfg, s, inp);
      match ScanFrom(ActiveZones(cfg), s1.px / CANVAS_WIDTH, s1.py / CANVAS_HEIGHT, false, s1.secretTimer)
      case Found(secret, t) =>
        StepOut(Setup(s1.(secretTimer := t, secretFound := Some(secret)), inp.sproutAt, inp.sproutId), [], true)
      case Stay(inAny, t) => Finish(cfg, s1.(secretTimer := if inAny then t else 0), inp)
  }

  // ---- actions outside the frame ----

  /** An enemy's squared distance from a point, the order the ability sorts
      by; the square root the game takes does not change that order. */
  function DistFrom(px: real, py: real): Entity -> real
  {
    (e: Entity) => Dist2(e.x, e.y, px, py)
  }

  /** The ability: the ten enemies nearest the player are removed. */
  function Nuke(s: State): (r: State)
    ensures |r.enemies| == if |s.enemies| < 10 then 0 else |s.enemies| - 10
    ensures !r.abilityReady
    ensures r == s.(enemies := r.enemies, abilityReady := false)
  {
    s.(enemies := Drop(Sort(s.enemies, DistFrom(s.px, s.py)), 10), abilityReady := false)
  }

  /** The session setup the screen's effect runs again whenever the pause
      flag or the found secret changes: the player is recentred, the arena
      emptied, one sprout placed, and a fresh loop scheduled. */
  function Setup(s: State, sproutAt: Vec, sproutId: int): (r: State)
    ensures Inv(s) ==> Inv(r)
    ensures r.enemies == [] && |r.sprouts| == 1 && r.sprouts[0].kind == Sprout
    ensures r == s.(px := r.px, py := r.py, enemies := [], sprouts := r.sprouts)
  {
    s.(px := CANVAS_WIDTH / 2.0, py := CANVAS_HEIGHT / 2.0,
       enemies := [], sprouts := [NewSprout(Sprout, sproutAt, sproutId)])
  }

  /** Changing the pause flag re-runs the session setup. */
  function SetPause(s: State, p: bool, sproutAt: Vec, sproutId: int): (r: State)
    ensures r.paused == p
    ensures p == s.paused ==> r == s
    ensures Inv(s) ==> Inv(r)
  {
    if p == s.paused then s else Setup(s.(paused := p), sproutAt, sproutId)
  }

  /** Claiming a found secret reports it and names the screen to show next. */
  function Claim(s: State): (r: Option<(GameResult, GameState)>)
    ensures r.Some? <==> s.secretFound.Some?
    ensures r.Some? ==> !r.value.0.won && r.value.0.score == s.score
    ensures r.Some? ==> (r.value.0.unlockedSecret.Some? <==> r.value.1 == StoryScreen)
  {
    match s.secretFound
    case None => None
    case Some(ItemFound(id)) =>
      Some((GameResult(false, s.score, 0.0, Survival(s), None, id == SACRED_PEEL_ID, id == CARAMEL_BANANA_ID), ExtrasScreen))
    case Some(StoryFound(id)) =>
      Some((GameResult(false, s.score, 0.0, Survival(s), Some(id), false, false), StoryScreen))
  }

  /** What holds of every session state the loop can reach. */
  predicate Inv(s: State)
  {
    && 0.0 <= s.px <= CANVAS_WIDTH - PLAYER_SIZE
    && 0.0 <= s.py <= CANVAS_HEIGHT - PLAYER_SIZE
    && s.sproutsInRun < 15
  }
}
