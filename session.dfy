/** The running game session: the state the loop keeps in mutable
    references, updated frame by frame, and the loops each frame runs. */
module GameSession {
  import opened Basics
  import opened Types
  import opened Config
  import opened StableSort
  import opened Game
  import opened GameFacts

  /** Removes the enemies one projectile touches and says whether it touched any. */
  method RemoveHit(es: seq<Entity>, pr: Entity) returns (left: seq<Entity>, hit: bool)
    ensures left == Survivors(es, pr)
    ensures hit <==> |left| < |es|
    ensures hit <==> exists e :: e in es && Hits(pr, e)
    ensures forall e :: e in left <==> e in es && !Hits(pr, e)
  {
    left := [];
    hit := false;
    var j := 0;
    while j < |es|
      invariant j <= |es|
      invariant left == Survivors(es[..j], pr)
      invariant hit <==> |left| < j
    {
      assert es[..j + 1][..j] == es[..j];
      if Hits(pr, es[j]) {
        hit := true;
      } else {
        left := left + [es[j]];
      }
      j := j + 1;
    }
    assert es[..|es|] == es;
    SurvivorsMembers(es, pr);
  }

  /** Moves every projectile, removes what each one touches, and keeps the
      projectiles that touched nothing and are still near the arena. */
  method AdvanceProjectiles(ps: seq<Entity>, es: seq<Entity>) returns (kept: seq<Entity>, left: seq<Entity>)
    ensures Pass(kept, left) == ProjectilePass(ps, es)
    ensures left == Unhit(es, Advanced(ps))
    ensures kept == KeptFilter(ps, es, |ps|)
    ensures forall q :: q in kept ==> InArena(q) && q in Advanced(ps)
  {
    kept := [];
    left := es;
    var i := 0;
    while i < |ps|
      invariant i <= |ps|
      invariant Pass(kept, left) == ProjectilePass(ps[..i], es)
    {
      assert ps[..i + 1][..i] == ps[..i];
      var pr := Advance(ps[i]);
      var hit;
      left, hit := RemoveHit(left, pr);
      if !hit && InArena(pr) {
        kept := kept + [pr];
      }
      i := i + 1;
    }
    assert ps[..|ps|] == ps;
    PassEnemies(ps, es);
    PassKept(ps, es);
  }

  /** Checks the zones in order, counting frames in the zones that contain
      the point, and stops at the first that reaches the threshold. */
  method ScanZones(zones: seq<Zone>, rx: real, ry: real, timer: nat) returns (d: Dwell)
    ensures d == ScanFrom(zones, rx, ry, false, timer)
    ensures CountIn(zones, rx, ry) <= 1 ==>
      d == if CountIn(zones, rx, ry) == 0 then Stay(false, timer)
           else if timer + 1 >= DWELL_FRAMES then Found(FirstIn(zones, rx, ry).value, timer + 1)
           else Stay(true, timer + 1)
  {
    var inAny := false;
    var t: nat := timer;
    var i := 0;
    while i < |zones|
      invariant i <= |zones|
      invariant ScanFrom(zones, rx, ry, false, timer) == ScanFrom(zones[i..], rx, ry, inAny, t)
    {
      assert zones[i..][1..] == zones[i + 1..];
      if InBounds(zones[i].bounds, rx, ry) {
        inAny := true;
        t := t + 1;
        if t >= DWELL_FRAMES {
          d := Found(zones[i].secret, t);
          ScanSingleIf(zones, rx, ry, timer);
          return;
        }
      }
      i := i + 1;
    }
    d := Stay(inAny, t);
    ScanSingleIf(zones, rx, ry, timer);
  }

  lemma ScanSingleIf(zones: seq<Zone>, rx: real, ry: real, timer: nat)
    ensures CountIn(zones, rx, ry) <= 1 ==>
      ScanFrom(zones, rx, ry, false, timer)
      == if CountIn(zones, rx, ry) == 0 then Stay(false, timer)
         else if timer + 1 >= DWELL_FRAMES then Found(FirstIn(zones, rx, ry).value, timer + 1)
         else Stay(true, timer + 1)
  {
    if CountIn(zones, rx, ry) <= 1 {
      ScanSingle(zones, rx, ry, false, timer);
    }
  }

  /** Drops every enemy with the given id. */
  method FilterId(es: seq<Entity>, id: int) returns (left: seq<Entity>)
    ensures left == RemoveId(es, id)
    ensures forall e :: e in left <==> e in es && e.id != id
  {
    left := [];
    var j := 0;
    while j < |es|
      invariant j <= |es|
      invariant left == RemoveId(es[..j], id)
    {
      assert es[..j + 1][..j] == es[..j];
      if es[j].id != id {
        left := left + [es[j]];
      }
      j := j + 1;
    }
    assert es[..|es|] == es;
    RemoveIdMembers(es, id);
  }

  /** Walks the enemies as they stand when the check starts; the shield
      absorbs the first touching enemy and any further one ends the game. */
  method CheckContact(es: seq<Entity>, shield: bool, px: real, py: real) returns (c: Contact)
    ensures c == Collide(es, es, shield, px, py)
    ensures c.Caught? <==> CountTouching(es, px, py) > (if shield then 1 else 0)
  {
    var cur := es;
    var sh := shield;
    var i := 0;
    while i < |es|
      invariant i <= |es|
      invariant Collide(es, es, shield, px, py) == Collide(es[i..], cur, sh, px, py)
    {
      assert es[i..][1..] == es[i + 1..];
      if Touches(px, py, es[i]) {
        if sh {
          sh := false;
          cur := FilterId(cur, es[i].id);
        } else {
          c := Caught(cur);
          CollideSpec(es, es, shield, px, py);
          return;
        }
      }
      i := i + 1;
    }
    c := Clear(cur, sh);
    CollideSpec(es, es, shield, px, py);
  }

  /** Removes the sprouts within the player's reach, adding their worth to
      the score and the run counter and recording each win. */
  method CollectSprouts(cfg: SessionConfig, ss: seq<Entity>, px: real, py: real, survival: real, start: Pickup)
    returns (p: Pickup)
    ensures p == Collect(cfg, ss, px, py, survival, start)
    ensures p.kept == start.kept + Unreached(ss, px, py)
    ensures p.score == start.score + PickedWorth(ss, px, py)
    ensures start.run < 15 ==> p.run < 15
  {
    p := start;
    var i := 0;
    while i < |ss|
      invariant i <= |ss|
      invariant p == Collect(cfg, ss[..i], px, py, survival, start)
    {
      assert ss[..i + 1][..i] == ss[..i];
      var sp := ss[i];
      ghost var next := Collect(cfg, ss[..i + 1], px, py, survival, start);
      assert next == if Reaches(px, py, sp) then Gain(cfg, p, sp, survival) else p.(kept := p.kept + [sp]);
      if Reaches(px, py, sp) {
        var score := p.score + Worth(sp);
        var run := p.run + Worth(sp);
        var ready := p.ready;
        if run >= 15 {
          run := run - 15;
          ready := true;
        }
        var won := !cfg.extras.infinite && score >= WinScore(cfg.difficulty);
        p := Pickup(p.kept, score, run, ready, p.victory || won,
                    p.reports + (if won then [Report(true, score, survival)] else []));
      } else {
        p := p.(kept := p.kept + [sp]);
      }
      i := i + 1;
    }
    assert ss[..|ss|] == ss;
    CollectCounts(cfg, ss, px, py, survival, start);
  }

  class Session {
    const cfg: SessionConfig
    var px: real
    var py: real
    var frame: nat
    var secretTimer: nat
    var score: nat
    var sproutsInRun: nat
    var abilityReady: bool
    var shieldActive: bool
    var gameOver: bool
    var victory: bool
    var paused: bool
    var secretFound: Option<FoundSecret>
    var enemies: seq<Entity>
    var sprouts: seq<Entity>
    var projectiles: seq<Entity>
    var lastShotTime: int

    function Snapshot(): State
      reads this
    {
      State(px, py, frame, secretTimer, score, sproutsInRun, abilityReady, shieldActive,
            gameOver, victory, paused, secretFound, enemies, sprouts, projectiles, lastShotTime)
    }

    predicate Valid()
      reads this
    {
      Inv(Snapshot())
    }

    /** A new session: the player centred, the shield as the power-ups give
        it, one sprout in the arena. */
    constructor (cfg: SessionConfig, sproutAt: Vec, sproutId: int)
      ensures this.cfg == cfg
      ensures Snapshot() == Initial(cfg, sproutAt, sproutId)
      ensures Valid()
    {
      this.cfg := cfg;
      px := CANVAS_WIDTH / 2.0;
      py := CANVAS_HEIGHT / 2.0;
      frame := 0;
      secretTimer := 0;
      score := 0;
      sproutsInRun := 0;
      abilityReady := false;
      shieldActive := cfg.powerUps.shield;
      gameOver := false;
      victory := false;
      paused := false;
      secretFound := None;
      enemies := [];
      sprouts := [NewSprout(Sprout, sproutAt, sproutId)];
      projectiles := [];
      lastShotTime := 0;
    }

    /** Advances the frame counter and moves the player within the arena. */
    method MovePlayer(move: Vec)
      modifies this
      ensures Snapshot() == Move(cfg, old(Snapshot()), move)
    {
      frame := frame + 1;
      px := Clamp(px + move.x * PLAYER_SPEED * SpeedBoost(cfg), CANVAS_WIDTH - PLAYER_SIZE);
      py := Clamp(py + move.y * PLAYER_SPEED * SpeedBoost(cfg), CANVAS_HEIGHT - PLAYER_SIZE);
    }

    method MoveProjectiles()
      modifies this
      ensures Snapshot() == old(Snapshot()).(projectiles := ProjectilePass(old(projectiles), old(enemies)).kept,
                                             enemies := ProjectilePass(old(projectiles), old(enemies)).enemies)
    {
      var kept, left := AdvanceProjectiles(projectiles, enemies);
      projectiles, enemies := kept, left;
    }

    /** Fires when aiming and the cooldown has passed. */
    method Fire(inp: TickInput)
      modifies this
      ensures Snapshot() == Shoot(cfg, old(Snapshot()), inp)
    {
      if inp.aim.x != 0.0 || inp.aim.y != 0.0 {
        if inp.now - lastShotTime >= Cooldown(cfg) {
          var shots := Volley(cfg, Snapshot(), inp);
          lastShotTime := inp.now;
          projectiles := projectiles + shots;
        }
      }
    }

    /** Runs the zone check; true when a secret was found. */
    method CheckSecrets() returns (found: bool)
      modifies this
      ensures match ScanFrom(ActiveZones(cfg), old(px) / CANVAS_WIDTH, old(py) / CANVAS_HEIGHT, false, old(secretTimer))
        case Found(secret, t) => found && Snapshot() == old(Snapshot()).(secretTimer := t, secretFound := Some(secret))
        case Stay(inAny, t) => !found && Snapshot() == old(Snapshot()).(secretTimer := if inAny then t else 0)
    {
      var d := ScanZones(ActiveZones(cfg), px / CANVAS_WIDTH, py / CANVAS_HEIGHT, secretTimer);
      match d
      case Found(secret, t) =>
        secretTimer := t;
        secretFound := Some(secret);
        found := true;
      case Stay(inAny, t) =>
        secretTimer := if inAny then t else 0;
        found := false;
    }

    method SpawnAll(inp: TickInput)
      modifies this
      ensures Snapshot() == Spawn(cfg, old(Snapshot()), inp)
    {
      SpawnEnemies(inp);
      SpawnMutants(inp);
      SpawnSprouts(inp);
    }

    method SpawnEnemies(inp: TickInput)
      modifies this
      ensures Snapshot() == SpawnEnemyStage(cfg, old(Snapshot()), inp)
    {
      if frame % SpawnRate(cfg.difficulty) == 0 {
        var x := inp.enemyAt.x * (CANVAS_WIDTH - FIRE_WIDTH);
        var y := inp.enemyAt.y * (CANVAS_HEIGHT - FIRE_HEIGHT);
        if Dist2(x, y, px, py) >= SAFE_SPAWN_DIST_SQ {
          enemies := enemies + [Entity(inp.enemyId, x, y, FIRE_WIDTH, FIRE_HEIGHT, 0.0, 0.0, Enemy)];
        }
      }
    }

    method SpawnMutants(inp: TickInput)
      modifies this
      ensures Snapshot() == SpawnMutantStage(cfg, old(Snapshot()), inp)
    {
      if cfg.extras.mutant && frame % 180 == 0 {
        sprouts := sprouts + [NewSprout(Mutant, inp.mutantAt, inp.mutantId)];
      }
    }

    method SpawnSprouts(inp: TickInput)
      modifies this
      ensures Snapshot() == SpawnSproutStage(old(Snapshot()), inp)
    {
      if |sprouts| < 4 && frame % 60 == 0 {
        sprouts := sprouts + [NewSprout(Sprout, inp.sproutAt, inp.sproutId)];
      }
    }

    /** Enemy contact; true when the game is lost. */
    method Contact() returns (lost: bool)
      modifies this
      ensures match Collide(old(enemies), old(enemies), old(shieldActive), old(px), old(py))
        case Caught(es) => lost && Snapshot() == old(Snapshot()).(enemies := es, shieldActive := false, gameOver := true)
        case Clear(es, shield) => !lost && Snapshot() == old(Snapshot()).(enemies := es, shieldActive := shield)
    {
      var c := CheckContact(enemies, shieldActive, px, py);
      match c
      case Caught(es) =>
        enemies := es;
        shieldActive := false;
        gameOver := true;
        lost := true;
      case Clear(es, shield) =>
        enemies := es;
        shieldActive := shield;
        lost := false;
    }

    /** Sprout pickup; returns the wins it reports. */
    method PickUp() returns (reports: seq<GameResult>)
      modifies this
      ensures var p := Collect(cfg, old(sprouts), old(px), old(py), Survival(old(Snapshot())),
                               Pickup([], old(score), old(sproutsInRun), old(abilityReady), old(victory), []));
        && reports == p.reports
        && Snapshot() == old(Snapshot()).(sprouts := p.kept, score := p.score, sproutsInRun := p.run,
                                          abilityReady := p.ready, victory := p.victory)
    {
      ghost var s0 := Snapshot();
      var survival := frame as real / 60.0;
      assert survival == Survival(s0);
      var p := CollectSprouts(cfg, sprouts, px, py, survival,
                              Pickup([], score, sproutsInRun, abilityReady, victory, []));
      sprouts, score, sproutsInRun, abilityReady, victory := p.kept, p.score, p.run, p.ready, p.victory;
      reports := p.reports;
      assert Snapshot() == s0.(sprouts := p.kept, score := p.score, sproutsInRun := p.run,
                               abilityReady := p.ready, victory := p.victory);
    }

    /** Spawns, enemy contact, then sprout pickup. */
    method Resolve(inp: TickInput) returns (reports: seq<GameResult>, rearm: bool)
      modifies this
      ensures Finish(cfg, old(Snapshot()), inp) == StepOut(Snapshot(), reports, rearm)
    {
      ghost var s0 := Snapshot();
      SpawnAll(inp);
      ghost var s1 := Snapshot();
      assert s1 == Spawn(cfg, s0, inp);
      var lost := Contact();
      if lost {
        reports, rearm := [Report(false, score, frame as real / 60.0)], false;
        return;
      }
      reports := PickUp();
      rearm := true;
    }

    /** One frame of the loop. */
    method Tick(inp: TickInput) returns (reports: seq<GameResult>, rearm: bool)
      modifies this
      ensures Step(cfg, old(Snapshot()), inp) == StepOut(Snapshot(), reports, rearm)
      ensures old(Valid()) ==> Valid()
    {
      ghost var s0 := Snapshot();
      if Inv(s0) {
        StepInv(cfg, s0, inp);
      }
      if paused || secretFound.Some? {
        return [], true;
      }
      if gameOver || victory {
        return [], false;
      }
      MovePlayer(inp.move);
      MoveProjectiles();
      Fire(inp);
      assert Snapshot() == Prelude(cfg, s0, inp);
      var found := CheckSecrets();
      if found {
        Restart(inp.sproutAt, inp.sproutId);
        return [], true;
      }
      reports, rearm := Resolve(inp);
    }

    /** The ability: the ten enemies nearest the player are removed. */
    method TriggerAbility()
      modifies this
      ensures Snapshot() == Nuke(old(Snapshot()))
      ensures old(Valid()) ==> Valid()
    {
      enemies := Drop(Sort(enemies, DistFrom(px, py)), 10);
      abilityReady := false;
    }

    /** Pausing or resuming re-runs the session setup. */
    method SetPaused(p: bool, sproutAt: Vec, sproutId: int)
      modifies this
      ensures Snapshot() == SetPause(old(Snapshot()), p, sproutAt, sproutId)
      ensures old(Valid()) ==> Valid()
    {
      if p != paused {
        paused := p;
        Restart(sproutAt, sproutId);
      }
    }

    /** Re-runs the session setup. */
    method Restart(sproutAt: Vec, sproutId: int)
      modifies this
      ensures Snapshot() == Setup(old(Snapshot()), sproutAt, sproutId)
    {
      px := CANVAS_WIDTH / 2.0;
      py := CANVAS_HEIGHT / 2.0;
      enemies := [];
      sprouts := [NewSprout(Sprout, sproutAt, sproutId)];
    }
  }
}
