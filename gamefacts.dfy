/** Properties of one frame of the game loop, each stated against an
    independent description of what the frame should do. */
module GameFacts {
  import opened Basics
  import opened Types
  import opened Config
  import opened StableSort
  import opened Game

  // ---- projectiles ----

  function Advanced(ps: seq<Entity>): (r: seq<Entity>)
    ensures |r| == |ps|
    ensures forall i :: 0 <= i < |ps| ==> r[i] == Advance(ps[i])
  {
    seq(|ps|, i requires 0 <= i < |ps| => Advance(ps[i]))
  }

  predicate HitByAny(shots: seq<Entity>, e: Entity)
  {
    exists q :: q in shots && Hits(q, e)
  }

  /** The enemies no shot touches, in order. */
  function Unhit(es: seq<Entity>, shots: seq<Entity>): seq<Entity>
  {
    if es == [] then []
    else Unhit(es[..|es| - 1], shots) + (if HitByAny(shots, es[|es| - 1]) then [] else [es[|es| - 1]])
  }

  lemma {:induction false} UnhitMembers(es: seq<Entity>, shots: seq<Entity>)
    ensures forall e :: e in Unhit(es, shots) <==> e in es && !HitByAny(shots, e)
    ensures multiset(Unhit(es, shots)) <= multiset(es)
  {
    if es != [] {
      var init := es[..|es| - 1];
      UnhitMembers(init, shots);
      assert es == init + [es[|es| - 1]];
    }
  }

  lemma {:induction false} UnhitByNothing(es: seq<Entity>)
    ensures Unhit(es, []) == es
  {
    if es != [] {
      UnhitByNothing(es[..|es| - 1]);
      assert es == es[..|es| - 1] + [es[|es| - 1]];
    }
  }

  lemma {:induction false} SurvivorsUnhit(es: seq<Entity>, shots: seq<Entity>, q: Entity)
    ensures Survivors(Unhit(es, shots), q) == Unhit(es, shots + [q])
  {
    if es != [] {
      var init := es[..|es| - 1];
      var e := es[|es| - 1];
      SurvivorsUnhit(init, shots, q);
      assert HitByAny(shots + [q], e) <==> HitByAny(shots, e) || Hits(q, e) by {
        if Hits(q, e) { assert q in shots + [q]; }
        if HitByAny(shots, e) {
          var w :| w in shots && Hits(w, e);
          assert w in shots + [q];
        }
      }
      var u := Unhit(init, shots);
      assert Unhit(es, shots + [q]) == Unhit(init, shots + [q]) + (if HitByAny(shots + [q], e) then [] else [e]);
      if !HitByAny(shots, e) {
        assert Unhit(es, shots) == u + [e];
        assert (u + [e])[..|u + [e]| - 1] == u;
        assert Survivors(u + [e], q) == Survivors(u, q) + (if Hits(q, e) then [] else [e]);
      } else {
        assert Unhit(es, shots) == u;
      }
    }
  }

  /** Membership in the enemies one projectile leaves, and when it leaves fewer. */
  lemma {:induction false} SurvivorsMembers(es: seq<Entity>, pr: Entity)
    ensures forall e :: e in Survivors(es, pr) <==> e in es && !Hits(pr, e)
    ensures |Survivors(es, pr)| < |es| <==> exists e :: e in es && Hits(pr, e)
  {
    if es != [] {
      var init, last := es[..|es| - 1], es[|es| - 1];
      SurvivorsMembers(init, pr);
      assert es == init + [last];
      var tail := if Hits(pr, last) then [] else [last];
      assert Survivors(es, pr) == Survivors(init, pr) + tail;
      forall e
        ensures e in Survivors(es, pr) <==> e in es && !Hits(pr, e)
      {
        assert e in es <==> e in init || e == last;
      }
    }
  }

  /** The enemies left after the projectiles move are exactly those that no
      moved projectile touches, in their original order; so the enemy count
      never grows and every touched enemy is gone. */
  lemma {:induction false} PassEnemies(ps: seq<Entity>, es: seq<Entity>)
    ensures ProjectilePass(ps, es).enemies == Unhit(es, Advanced(ps))
  {
    if ps == [] {
      UnhitByNothing(es);
    } else {
      var init := ps[..|ps| - 1];
      PassEnemies(init, es);
      SurvivorsUnhit(es, Advanced(init), Advance(ps[|ps| - 1]));
      assert Advanced(ps) == Advanced(init) + [Advance(ps[|ps| - 1])];
    }
  }

  /** Whether the i-th projectile, once moved, is kept: it is still near the
      arena and touches none of the enemies standing when its turn comes,
      which are those the projectiles before it left. */
  predicate KeptAt(ps: seq<Entity>, es: seq<Entity>, i: nat)
    requires i < |ps|
  {
    var q := Advance(ps[i]);
    InArena(q) && !exists e :: e in Unhit(es, Advanced(ps[..i])) && Hits(q, e)
  }

  /** The first n projectiles, moved, filtered index by index with KeptAt. */
  function KeptFilter(ps: seq<Entity>, es: seq<Entity>, n: nat): seq<Entity>
    requires n <= |ps|
  {
    if n == 0 then []
    else KeptFilter(ps, es, n - 1) + (if KeptAt(ps, es, n - 1) then [Advance(ps[n - 1])] else [])
  }

  lemma {:induction false} KeptFilterMembers(ps: seq<Entity>, es: seq<Entity>, n: nat)
    requires n <= |ps|
    ensures |KeptFilter(ps, es, n)| <= n
    ensures forall q :: q in KeptFilter(ps, es, n) <==> exists i :: 0 <= i < n && KeptAt(ps, es, i) && q == Advance(ps[i])
  {
    if n > 0 {
      KeptFilterMembers(ps, es, n - 1);
      forall q
        ensures q in KeptFilter(ps, es, n) <==> exists i :: 0 <= i < n && KeptAt(ps, es, i) && q == Advance(ps[i])
      {
        if q !in KeptFilter(ps, es, n - 1) && KeptAt(ps, es, n - 1) && q == Advance(ps[n - 1]) {
          assert q in KeptFilter(ps, es, n);
        }
      }
    }
  }

  lemma {:induction false} PassKeptPrefix(ps: seq<Entity>, es: seq<Entity>, n: nat)
    requires n <= |ps|
    ensures ProjectilePass(ps[..n], es).kept == KeptFilter(ps, es, n)
  {
    if n > 0 {
      PassKeptPrefix(ps, es, n - 1);
      assert ps[..n][..n - 1] == ps[..n - 1];
      var prev := ProjectilePass(ps[..n - 1], es);
      var pr := Advance(ps[n - 1]);
      PassEnemies(ps[..n - 1], es);
      SurvivorsMembers(prev.enemies, pr);
    }
  }

  /** The kept projectiles are exactly the moved projectiles, in order, that
      are still near the arena and touch no enemy standing at their turn; in
      particular one that touches no enemy at all and is near the arena is
      kept, and every kept one is near the arena. */
  lemma PassKept(ps: seq<Entity>, es: seq<Entity>)
    ensures ProjectilePass(ps, es).kept == KeptFilter(ps, es, |ps|)
    ensures |ProjectilePass(ps, es).kept| <= |ps|
    ensures forall q :: q in ProjectilePass(ps, es).kept ==> InArena(q) && q in Advanced(ps)
    ensures forall q :: q in Advanced(ps) && InArena(q) && (forall e :: e in es ==> !Hits(q, e))
                        ==> q in ProjectilePass(ps, es).kept
  {
    PassKeptPrefix(ps, es, |ps|);
    assert ps[..|ps|] == ps;
    KeptFilterMembers(ps, es, |ps|);
    var kept := ProjectilePass(ps, es).kept;
    forall q | q in kept
      ensures InArena(q) && q in Advanced(ps)
    {
      var i :| 0 <= i < |ps| && KeptAt(ps, es, i) && q == Advance(ps[i]);
      assert Advanced(ps)[i] == q;
    }
    forall q | q in Advanced(ps) && InArena(q) && (forall e :: e in es ==> !Hits(q, e))
      ensures q in kept
    {
      var i :| 0 <= i < |ps| && Advanced(ps)[i] == q;
      UnhitMembers(es, Advanced(ps[..i]));
      assert KeptAt(ps, es, i);
    }
  }

  lemma ProjectileStep(ps: seq<Entity>, es: seq<Entity>)
    ensures |ProjectilePass(ps, es).enemies| <= |es|
    ensures multiset(ProjectilePass(ps, es).enemies) <= multiset(es)
    ensures forall e :: e in ProjectilePass(ps, es).enemies <==> e in es && !HitByAny(Advanced(ps), e)
    ensures forall q, e :: q in ProjectilePass(ps, es).kept && e in ProjectilePass(ps, es).enemies ==> !Hits(q, e)
    ensures ProjectilePass(ps, es).kept == KeptFilter(ps, es, |ps|)
    ensures forall q :: q in ProjectilePass(ps, es).kept ==> InArena(q) && q in Advanced(ps)
    ensures forall q :: q in Advanced(ps) && InArena(q) && (forall e :: e in es ==> !Hits(q, e))
                        ==> q in ProjectilePass(ps, es).kept
  {
    var r := ProjectilePass(ps, es);
    assert r.enemies == Unhit(es, Advanced(ps)) by { PassEnemies(ps, es); }
    UnhitMembers(es, Advanced(ps));
    assert r.kept == KeptFilter(ps, es, |ps|)
        && (forall q :: q in r.kept ==> InArena(q) && q in Advanced(ps))
        && (forall q :: q in Advanced(ps) && InArena(q) && (forall e :: e in es ==> !Hits(q, e)) ==> q in r.kept)
    by {
      PassKept(ps, es);
    }
    forall q, e | q in r.kept && e in r.enemies
      ensures !Hits(q, e)
    {
      assert q in Advanced(ps);
    }
  }

  // ---- secret zones ----

  /** How many of the zones contain the point. */
  function CountIn(zones: seq<Zone>, rx: real, ry: real): nat
  {
    if zones == [] then 0
    else (if InBounds(zones[0].bounds, rx, ry) then 1 else 0) + CountIn(zones[1..], rx, ry)
  }

  function FirstIn(zones: seq<Zone>, rx: real, ry: real): (r: Option<FoundSecret>)
    ensures r.Some? <==> CountIn(zones, rx, ry) > 0
  {
    if zones == [] then None
    else if InBounds(zones[0].bounds, rx, ry) then Some(zones[0].secret)
    else FirstIn(zones[1..], rx, ry)
  }

  /** When no two zones contain the point, a frame adds one to the timer if
      the player is in a zone and the secret is found when that reaches two
      seconds; outside every zone nothing is added. */
  lemma {:induction false} ScanSingle(zones: seq<Zone>, rx: real, ry: real, inAny: bool, timer: nat)
    requires CountIn(zones, rx, ry) <= 1
    ensures ScanFrom(zones, rx, ry, inAny, timer)
         == if CountIn(zones, rx, ry) == 0 then Stay(inAny, timer)
            else if timer + 1 >= DWELL_FRAMES then Found(FirstIn(zones, rx, ry).value, timer + 1)
            else Stay(true, timer + 1)
  {
    if zones != [] {
      if InBounds(zones[0].bounds, rx, ry) {
        if timer + 1 < DWELL_FRAMES {
          ScanSingle(zones[1..], rx, ry, true, timer + 1);
        }
      } else {
        ScanSingle(zones[1..], rx, ry, inAny, timer);
      }
    }
  }

  lemma {:induction false} CountInAppend(a: seq<Zone>, b: seq<Zone>, rx: real, ry: real)
    ensures CountIn(a + b, rx, ry) == CountIn(a, rx, ry) + CountIn(b, rx, ry)
  {
    if a != [] {
      assert (a + b)[1..] == a[1..] + b;
      CountInAppend(a[1..], b, rx, ry);
    } else {
      assert a + b == b;
    }
  }

  lemma {:induction false} CountAtMostOne(zones: seq<Zone>, rx: real, ry: real)
    requires forall i, j :: 0 <= i < j < |zones| ==> Separated(zones[i].bounds, zones[j].bounds)
    ensures CountIn(zones, rx, ry) <= 1
  {
    if zones != [] {
      var rest := zones[1..];
      CountAtMostOne(rest, rx, ry);
      if InBounds(zones[0].bounds, rx, ry) {
        forall j | 0 <= j < |rest| ensures !InBounds(rest[j].bounds, rx, ry) {
          SeparatedDisjoint(zones[0].bounds, zones[j + 1].bounds, rx, ry);
        }
        CountNone(rest, rx, ry);
      }
    }
  }

  lemma {:induction false} CountNone(zones: seq<Zone>, rx: real, ry: real)
    requires forall j :: 0 <= j < |zones| ==> !InBounds(zones[j].bounds, rx, ry)
    ensures CountIn(zones, rx, ry) == 0
  {
    if zones != [] {
      CountNone(zones[1..], rx, ry);
    }
  }

  function ZonesOf(secrets: seq<Secret>): (r: seq<Zone>)
    ensures |r| == |secrets|
  {
    seq(|secrets|, i requires 0 <= i < |secrets| => Zone(StoryFound(secrets[i].id), secrets[i].bounds))
  }

  lemma {:induction false} StoryZonesFewer(secrets: seq<Secret>, cfg: SessionConfig, rx: real, ry: real)
    ensures CountIn(StoryZones(secrets, cfg), rx, ry) <= CountIn(ZonesOf(secrets), rx, ry)
  {
    if secrets != [] {
      StoryZonesFewer(secrets[1..], cfg, rx, ry);
      var sc := secrets[0];
      var head := if sc.difficulty == cfg.difficulty && sc.id !in cfg.unlockedStoryParts
                  then [Zone(StoryFound(sc.id), sc.bounds)] else [];
      CountInAppend(head, StoryZones(secrets[1..], cfg), rx, ry);
      assert ZonesOf(secrets)[1..] == ZonesOf(secrets[1..]);
      if head != [] {
        assert head[1..] == [];
      }
    }
  }

  /** The story zones with the two banana zones: every zone the loop may check. */
  const ALL_ZONES: seq<Zone> := ZonesOf(SECRETS_CONFIG) + [PEEL_ZONE, CARAMEL_ZONE]

  lemma AllZonesSeparated()
    ensures forall i, j :: 0 <= i < j < |ALL_ZONES| ==> Separated(ALL_ZONES[i].bounds, ALL_ZONES[j].bounds)
  {
    SecretsDisjoint();
  }

  /** The player is in at most one of the zones a session checks. */
  lemma ActiveZonesAtMostOne(cfg: SessionConfig, rx: real, ry: real)
    ensures CountIn(ActiveZones(cfg), rx, ry) <= 1
  {
    var banana := if cfg.extras.fuegorin
      then (if !cfg.hasSacredPeel then [PEEL_ZONE] else []) + (if !cfg.hasCaramelBanana then [CARAMEL_ZONE] else [])
      else [];
    CountInAppend(StoryZones(SECRETS_CONFIG, cfg), banana, rx, ry);
    StoryZonesFewer(SECRETS_CONFIG, cfg, rx, ry);
    AllZonesSeparated();
    CountAtMostOne(ALL_ZONES, rx, ry);
    CountInAppend(ZonesOf(SECRETS_CONFIG), [PEEL_ZONE, CARAMEL_ZONE], rx, ry);
    assert CountIn(banana, rx, ry) <= CountIn([PEEL_ZONE, CARAMEL_ZONE], rx, ry) by {
      assert [PEEL_ZONE, CARAMEL_ZONE][1..] == [CARAMEL_ZONE];
      assert [CARAMEL_ZONE][1..] == [];
      assert [PEEL_ZONE][1..] == [];
      assert banana == [] || banana == [PEEL_ZONE] || banana == [CARAMEL_ZONE] || banana == [PEEL_ZONE, CARAMEL_ZONE];
    }
  }

  /** A zone is checked exactly when its secret belongs to the session's tier
      and its story part is not yet unlocked. */
  lemma {:induction false} StoryZonesEligible(secrets: seq<Secret>, cfg: SessionConfig, z: Zone)
    ensures z in StoryZones(secrets, cfg) <==>
      exists sc :: sc in secrets && sc.difficulty == cfg.difficulty && sc.id !in cfg.unlockedStoryParts
                   && z == Zone(StoryFound(sc.id), sc.bounds)
  {
    if secrets != [] {
      StoryZonesEligible(secrets[1..], cfg, z);
      assert secrets == [secrets[0]] + secrets[1..];
    }
  }

  // ---- shooting ----

  /** A shot is fired only with a non-zero aim once the cooldown has passed,
      and then adds three projectiles with the triple-shot power-up and one
      otherwise, at the player's centre; nothing else changes. */
  lemma ShootFacts(cfg: SessionConfig, s: State, inp: TickInput)
    ensures var fires := (inp.aim.x != 0.0 || inp.aim.y != 0.0) && inp.now - s.lastShotTime >= Cooldown(cfg);
      var r := Shoot(cfg, s, inp);
      && r.projectiles[..|s.projectiles|] == s.projectiles
      && |r.projectiles| == |s.projectiles| + (if !fires then 0 else if cfg.powerUps.tripleShot then 3 else 1)
      && r.lastShotTime == (if fires then inp.now else s.lastShotTime)
      && (forall i :: |s.projectiles| <= i < |r.projectiles| ==>
            r.projectiles[i].kind == Projectile
            && r.projectiles[i].x == s.px + 15.0 && r.projectiles[i].y == s.py + 15.0)
      && r == s.(projectiles := r.projectiles, lastShotTime := r.lastShotTime)
  {
    if (inp.aim.x != 0.0 || inp.aim.y != 0.0) && inp.now - s.lastShotTime >= Cooldown(cfg) {
      var v := Volley(cfg, s, inp);
      var ps := s.projectiles + v;
      assert Shoot(cfg, s, inp) == s.(lastShotTime := inp.now, projectiles := ps);
      assert ps[..|s.projectiles|] == s.projectiles;
      forall i | |s.projectiles| <= i < |ps|
        ensures ps[i].kind == Projectile && ps[i].x == s.px + 15.0 && ps[i].y == s.py + 15.0
      {
        assert ps[i] == v[i - |s.projectiles|];
        assert ps[i] in v;
      }
    } else {
      assert Shoot(cfg, s, inp) == s;
    }
  }

  // ---- spawning ----

  /** An enemy appears exactly on frames that are multiples of the tier's
      spawn rate when its random point is at least 150 px from the player. */
  lemma SpawnEnemyFacts(cfg: SessionConfig, s: State, inp: TickInput)
    ensures var r := SpawnEnemyStage(cfg, s, inp);
      && r == s.(enemies := r.enemies)
      && r.enemies[..|s.enemies|] == s.enemies
      && |r.enemies| <= |s.enemies| + 1
      && (|r.enemies| > |s.enemies| ==>
            var e := r.enemies[|s.enemies|];
            s.frame % SpawnRate(cfg.difficulty) == 0 && Dist2(e.x, e.y, s.px, s.py) >= SAFE_SPAWN_DIST_SQ
            && e.kind == Enemy)
      && (|r.enemies| > |s.enemies| <==>
            s.frame % SpawnRate(cfg.difficulty) == 0
            && Dist2(inp.enemyAt.x * (CANVAS_WIDTH - FIRE_WIDTH), inp.enemyAt.y * (CANVAS_HEIGHT - FIRE_HEIGHT), s.px, s.py)
               >= SAFE_SPAWN_DIST_SQ)
  {
  }

  /** A mutant sprout appears exactly in mutant mode every 180 frames; a
      regular sprout exactly every 60 frames while fewer than 4 sprouts are
      live, counting a mutant placed in the same frame. */
  lemma SpawnSproutFacts(cfg: SessionConfig, s: State, inp: TickInput)
    ensures var r := SpawnSproutStage(SpawnMutantStage(cfg, s, inp), inp);
      && r == s.(sprouts := r.sprouts)
      && r.sprouts[..|s.sprouts|] == s.sprouts
      && |r.sprouts| <= |s.sprouts| + 2
      && (forall i :: |s.sprouts| <= i < |r.sprouts| ==>
            (r.sprouts[i].kind == Mutant ==> cfg.extras.mutant && s.frame % 180 == 0)
            && (r.sprouts[i].kind == Sprout ==> s.frame % 60 == 0 && i < 4)
            && (r.sprouts[i].kind == Mutant || r.sprouts[i].kind == Sprout))
      && var mutantDue := cfg.extras.mutant && s.frame % 180 == 0;
         var live := |s.sprouts| + (if mutantDue then 1 else 0);
         var sproutDue := live < 4 && s.frame % 60 == 0;
         && |r.sprouts| == live + (if sproutDue then 1 else 0)
         && (mutantDue ==> r.sprouts[|s.sprouts|].kind == Mutant)
         && (sproutDue ==> r.sprouts[live].kind == Sprout)
  {
    var m := SpawnMutantStage(cfg, s, inp);
    assert m.sprouts[..|s.sprouts|] == s.sprouts;
  }

  lemma SpawnFacts(cfg: SessionConfig, s: State, inp: TickInput)
    ensures var r := Spawn(cfg, s, inp);
      && r == s.(enemies := r.enemies, sprouts := r.sprouts)
      && r.enemies == SpawnEnemyStage(cfg, s, inp).enemies
      && r.sprouts == SpawnSproutStage(SpawnMutantStage(cfg, s, inp), inp).sprouts
  {
    var e := SpawnEnemyStage(cfg, s, inp);
    SpawnEnemyFacts(cfg, s, inp);
    assert e.frame == s.frame && e.sprouts == s.sprouts;
    var m := SpawnMutantStage(cfg, e, inp);
    var m' := SpawnMutantStage(cfg, s, inp);
    assert m.sprouts == m'.sprouts && m.frame == m'.frame;
    var r := SpawnSproutStage(m, inp);
    assert r.sprouts == SpawnSproutStage(m', inp).sprouts;
    SpawnSproutFacts(cfg, e, inp);
    assert r == e.(sprouts := r.sprouts);
  }

  /** With random fractions in [0, 1), a spawned sprout lies in
      [20, 430) x [20, 780) and a spawned enemy in [0, 410) x [0, 750). */
  lemma SpawnPositions(at: Vec, id: int, kind: Kind, s: State)
    requires 0.0 <= at.x < 1.0 && 0.0 <= at.y < 1.0
    ensures var sp := NewSprout(kind, at, id);
      20.0 <= sp.x < CANVAS_WIDTH - 20.0 && 20.0 <= sp.y < CANVAS_HEIGHT - 20.0
    ensures var r := SpawnEnemy(s, at, id);
      forall i :: |s.enemies| <= i < |r.enemies| ==>
        0.0 <= r.enemies[i].x < CANVAS_WIDTH - FIRE_WIDTH && 0.0 <= r.enemies[i].y < CANVAS_HEIGHT - FIRE_HEIGHT
  {
    assert at.x * 410.0 < 410.0 && at.y * 760.0 < 760.0 && at.y * 750.0 < 750.0;
  }

  // ---- enemy contact ----

  /** How many of the enemies touch the player. */
  function CountTouching(es: seq<Entity>, px: real, py: real): nat
  {
    if es == [] then 0
    else (if Touches(px, py, es[0]) then 1 else 0) + CountTouching(es[1..], px, py)
  }

  lemma {:induction false} RemoveIdMembers(es: seq<Entity>, id: int)
    ensures forall e :: e in RemoveId(es, id) <==> e in es && e.id != id
  {
    if es != [] {
      RemoveIdMembers(es[..|es| - 1], id);
      assert es == es[..|es| - 1] + [es[|es| - 1]];
    }
  }

  /** The game is lost exactly when more enemies touch the player than the
      shield can absorb, which is one; an absorbed enemy is removed by its id
      and nothing else is removed. */
  lemma {:induction false} CollideSpec(snapshot: seq<Entity>, es: seq<Entity>, shield: bool, px: real, py: real)
    ensures Collide(snapshot, es, shield, px, py).Caught?
        <==> CountTouching(snapshot, px, py) > (if shield then 1 else 0)
    ensures match Collide(snapshot, es, shield, px, py)
      case Caught(_) => true
      case Clear(left, sh) =>
        && (sh ==> shield && left == es && CountTouching(snapshot, px, py) == 0)
        && (!shield ==> left == es && !sh)
        && (shield && !sh ==>
              CountTouching(snapshot, px, py) == 1
              && exists e :: e in snapshot && Touches(px, py, e) && left == RemoveId(es, e.id))
  {
    if snapshot != [] {
      var rest := snapshot[1..];
      if Touches(px, py, snapshot[0]) {
        if shield {
          CollideSpec(rest, RemoveId(es, snapshot[0].id), false, px, py);
        }
      } else {
        CollideSpec(rest, es, shield, px, py);
        var c := Collide(rest, es, shield, px, py);
        if c.Clear? && shield && !c.shield {
          var e :| e in rest && Touches(px, py, e) && c.enemies == RemoveId(es, e.id);
          assert e in snapshot;
        }
      }
    }
  }

  // ---- sprout pickup ----

  /** The sprouts out of the player's reach, in order. */
  function Unreached(ss: seq<Entity>, px: real, py: real): seq<Entity>
  {
    if ss == [] then []
    else Unreached(ss[..|ss| - 1], px, py) + (if Reaches(px, py, ss[|ss| - 1]) then [] else [ss[|ss| - 1]])
  }

  /** The total worth of the sprouts within the player's reach. */
  function PickedWorth(ss: seq<Entity>, px: real, py: real): nat
  {
    if ss == [] then 0
    else PickedWorth(ss[..|ss| - 1], px, py) + (if Reaches(px, py, ss[|ss| - 1]) then Worth(ss[|ss| - 1]) else 0)
  }

  /** Win reports at or above the tier's target, made at the given survival time. */
  predicate WinReports(rs: seq<GameResult>, cfg: SessionConfig, survival: real)
  {
    forall r :: r in rs ==> r.score >= WinScore(cfg.difficulty) && r == Report(true, r.score, survival)
  }

  /** Picking up sprouts keeps the unreached ones in order, raises the score
      by the worth of the reached ones, keeps the run counter equal to the
      gained worth modulo 15 and below 15, and readies the ability exactly
      when the counter wrapped. */
  lemma {:induction false} CollectCounts(cfg: SessionConfig, ss: seq<Entity>, px: real, py: real, survival: real, start: Pickup)
    ensures var c := Collect(cfg, ss, px, py, survival, start);
      && c.kept == start.kept + Unreached(ss, px, py)
      && c.score == start.score + PickedWorth(ss, px, py)
      && (start.run < 15 ==> c.run < 15)
      && c.run <= start.run + PickedWorth(ss, px, py)
      && (start.run + PickedWorth(ss, px, py) - c.run) % 15 == 0
      && c.ready == (start.ready || c.run != start.run + PickedWorth(ss, px, py))
  {
    if ss != [] {
      CollectCounts(cfg, ss[..|ss| - 1], px, py, survival, start);
    }
  }

  /** The win reports a frame's pickups should make: outside infinite mode,
      one per reached sprout whose pickup leaves the running score, counted
      from base, at or above the tier's target, carrying that score, in
      sprout order. */
  function WinsAlong(cfg: SessionConfig, ss: seq<Entity>, px: real, py: real, survival: real, base: nat): seq<GameResult>
  {
    if ss == [] then []
    else
      var total := base + PickedWorth(ss, px, py);
      WinsAlong(cfg, ss[..|ss| - 1], px, py, survival, base)
      + (if Reaches(px, py, ss[|ss| - 1]) && !cfg.extras.infinite && total >= WinScore(cfg.difficulty)
         then [Report(true, total, survival)] else [])
  }

  /** The reports a frame's pickups add are exactly WinsAlong from the score
      the frame started with. */
  lemma {:induction false} CollectReports(cfg: SessionConfig, ss: seq<Entity>, px: real, py: real, survival: real, start: Pickup)
    ensures Collect(cfg, ss, px, py, survival, start).reports == start.reports + WinsAlong(cfg, ss, px, py, survival, start.score)
  {
    if ss != [] {
      var init := ss[..|ss| - 1];
      CollectReports(cfg, init, px, py, survival, start);
      CollectCounts(cfg, init, px, py, survival, start);
    }
  }

  /** Outside infinite mode the session is won exactly when a pickup brings
      the score to the tier's target, and the reports added are exactly one
      per reached sprout whose pickup leaves the score at or above the target
      (WinsAlong), so every pickup from then on in the same frame reports the
      win again; in infinite mode nothing is reported. */
  lemma {:induction false} CollectWins(cfg: SessionConfig, ss: seq<Entity>, px: real, py: real, survival: real, start: Pickup)
    ensures var c := Collect(cfg, ss, px, py, survival, start);
      && (c.victory <==>
            (start.victory || (!cfg.extras.infinite && PickedWorth(ss, px, py) > 0 && c.score >= WinScore(cfg.difficulty))))
      && |c.reports| >= |start.reports|
      && c.reports[..|start.reports|] == start.reports
      && WinReports(c.reports[|start.reports|..], cfg, survival)
      && (cfg.extras.infinite ==> c.reports == start.reports)
      && (|c.reports| > |start.reports| ==> c.victory)
      && c.reports == start.reports + WinsAlong(cfg, ss, px, py, survival, start.score)
  {
    CollectReports(cfg, ss, px, py, survival, start);
    if ss != [] {
      var init := ss[..|ss| - 1];
      var sp := ss[|ss| - 1];
      CollectWins(cfg, init, px, py, survival, start);
      CollectCounts(cfg, init, px, py, survival, start);
      var p := Collect(cfg, init, px, py, survival, start);
      if Reaches(px, py, sp) {
        var c := Gain(cfg, p, sp, survival);
        var extra := if !cfg.extras.infinite && c.score >= WinScore(cfg.difficulty) then [Report(true, c.score, survival)] else [];
        assert c.reports == p.reports + extra;
        assert c.reports[|start.reports|..] == p.reports[|start.reports|..] + extra;
      }
    }
  }

  lemma CollectFacts(cfg: SessionConfig, ss: seq<Entity>, px: real, py: real, survival: real, start: Pickup)
    ensures var c := Collect(cfg, ss, px, py, survival, start);
      && c.kept == start.kept + Unreached(ss, px, py)
      && c.score == start.score + PickedWorth(ss, px, py)
      && (start.run < 15 ==> c.run < 15)
      && (c.victory <==>
            (start.victory || (!cfg.extras.infinite && PickedWorth(ss, px, py) > 0 && c.score >= WinScore(cfg.difficulty))))
      && |c.reports| >= |start.reports|
      && c.reports[..|start.reports|] == start.reports
      && WinReports(c.reports[|start.reports|..], cfg, survival)
      && (|c.reports| > |start.reports| ==> c.victory)
  {
    CollectCounts(cfg, ss, px, py, survival, start);
    CollectWins(cfg, ss, px, py, survival, start);
  }

  /** Two sprouts picked up in the same frame once the target is within
      reach report the win twice. */
  lemma DoubleWin(cfg: SessionConfig, a: Entity, b: Entity, survival: real)
    requires cfg.difficulty == Easy && !cfg.extras.infinite
    requires a.kind == Sprout && b.kind == Sprout
    requires a.x == 100.0 && a.y == 100.0 && b.x == 100.0 && b.y == 100.0
    ensures var c := Collect(cfg, [a, b], 100.0, 100.0, survival, Pickup([], 9, 0, false, false, []));
      c.reports == [Report(true, 10, survival), Report(true, 11, survival)] && c.victory && c.kept == []
  {
    var start := Pickup([], 9, 0, false, false, []);
    assert [a, b][..1] == [a];
    assert [a][..0] == [];
    var p1 := Collect(cfg, [a], 100.0, 100.0, survival, start);
    assert Collect(cfg, [a][..0], 100.0, 100.0, survival, start) == start;
    assert Reaches(100.0, 100.0, a) && Reaches(100.0, 100.0, b);
    assert p1 == Gain(cfg, start, a, survival);
    assert p1.score == 10 && p1.reports == [Report(true, 10, survival)] && p1.kept == [];
  }

  // ---- the ability ----

  /** The ability removes min(n, 10) enemies, all of them at least as close
      to the player as every enemy it keeps, and keeps the rest in order of
      distance; the ability is then spent. */
  lemma NukeFacts(s: State)
    ensures var r := Nuke(s);
      var removed := Take(Sort(s.enemies, DistFrom(s.px, s.py)), 10);
      && |r.enemies| == (if |s.enemies| <= 10 then 0 else |s.enemies| - 10)
      && |removed| == |s.enemies| - |r.enemies|
      && multiset(removed) + multiset(r.enemies) == multiset(s.enemies)
      && (forall a, b :: a in removed && b in r.enemies ==> DistFrom(s.px, s.py)(a) <= DistFrom(s.px, s.py)(b))
      && SortedBy(r.enemies, DistFrom(s.px, s.py))
      && !r.abilityReady
      && r == s.(enemies := r.enemies, abilityReady := false)
  {
    var sorted := Sort(s.enemies, DistFrom(s.px, s.py));
    var k := |Take(sorted, 10)|;
    SortSplit(s.enemies, DistFrom(s.px, s.py), 10);
    assert Take(sorted, 10) == sorted[..k];
    assert Drop(sorted, 10) == sorted[k..];
  }

  // ---- the whole frame ----

  predicate Running(s: State)
  {
    !s.paused && s.secretFound.None? && !s.gameOver && !s.victory
  }

  /** While paused or after a secret is found a frame only schedules the next
      one; after a defeat or a victory it does not even do that. */
  lemma StepIdle(cfg: SessionConfig, s: State, inp: TickInput)
    ensures s.paused || s.secretFound.Some? ==> Step(cfg, s, inp) == StepOut(s, [], true)
    ensures !s.paused && s.secretFound.None? && (s.gameOver || s.victory) ==> Step(cfg, s, inp) == StepOut(s, [], false)
  {
  }

  /** Before the zone check a frame advances the counter, keeps the player
      inside the arena and touches only the projectiles, the enemies and the
      shot clock; the enemy count does not grow. */
  lemma PreludeFacts(cfg: SessionConfig, s: State, inp: TickInput)
    ensures var r := Prelude(cfg, s, inp);
      && r == s.(frame := s.frame + 1, px := r.px, py := r.py, enemies := r.enemies,
                 projectiles := r.projectiles, lastShotTime := r.lastShotTime)
      && 0.0 <= r.px <= CANVAS_WIDTH - PLAYER_SIZE && 0.0 <= r.py <= CANVAS_HEIGHT - PLAYER_SIZE
      && |r.enemies| <= |s.enemies|
  {
    var s1 := Move(cfg, s, inp.move);
    var pass := ProjectilePass(s1.projectiles, s1.enemies);
    ProjectileStep(s1.projectiles, s1.enemies);
    var s2 := s1.(projectiles := pass.kept, enemies := pass.enemies);
    ShootFacts(cfg, s2, inp);
    var r := Shoot(cfg, s2, inp);
    assert r == Prelude(cfg, s, inp);
    assert r.enemies == s2.enemies && r.px == s1.px && r.py == s1.py;
  }

  /** After the zone check: the game is lost exactly when more enemies touch
      the player than the shield absorbs, and the loss is reported with the
      current score; otherwise the score only grows, the run counter stays
      below 15 and every report is a win at or above the target. Neither the
      player, the frame nor the zone timer change. */
  lemma FinishFacts(cfg: SessionConfig, s: State, inp: TickInput)
    requires s.sproutsInRun < 15 && !s.gameOver && !s.victory
    ensures var out := Finish(cfg, s, inp);
      var sp := Spawn(cfg, s, inp);
      && out.state.px == s.px && out.state.py == s.py && out.state.frame == s.frame
      && out.state.secretTimer == s.secretTimer && out.state.secretFound == s.secretFound
      && out.state.paused == s.paused
      && (out.state.gameOver <==> CountTouching(sp.enemies, s.px, s.py) > (if s.shieldActive then 1 else 0))
      && (out.state.gameOver ==>
            out.reports == [Report(false, s.score, Survival(s))] && !out.rearm && out.state.score == s.score
            && !out.state.victory)
      && (!out.state.gameOver ==>
            out.rearm && out.state.score >= s.score && out.state.sproutsInRun < 15
            && WinReports(out.reports, cfg, Survival(s))
            && (out.state.victory <==> out.reports != []))
  {
    var sp := Spawn(cfg, s, inp);
    SpawnFacts(cfg, s, inp);
    CollideSpec(sp.enemies, sp.enemies, sp.shieldActive, sp.px, sp.py);
    var start := Pickup([], sp.score, sp.sproutsInRun, sp.abilityReady, sp.victory, []);
    CollectFacts(cfg, sp.sprouts, sp.px, sp.py, Survival(sp), start);
    var c := Collect(cfg, sp.sprouts, sp.px, sp.py, Survival(sp), start);
    assert c.reports[0..] == c.reports;
    if c.victory {
      assert !cfg.extras.infinite && PickedWorth(sp.sprouts, sp.px, sp.py) > 0;
      VictoryReported(cfg, sp.sprouts, sp.px, sp.py, Survival(sp), start);
    }
  }

  /** Outside infinite mode, a pickup that leaves the score at the target
      is reported. */
  lemma {:induction false} VictoryReported(cfg: SessionConfig, ss: seq<Entity>, px: real, py: real, survival: real, start: Pickup)
    requires !cfg.extras.infinite && PickedWorth(ss, px, py) > 0
    requires start.score + PickedWorth(ss, px, py) >= WinScore(cfg.difficulty)
    ensures |Collect(cfg, ss, px, py, survival, start).reports| > |start.reports|
  {
    var init := ss[..|ss| - 1];
    var sp := ss[|ss| - 1];
    if !Reaches(px, py, sp) {
      VictoryReported(cfg, init, px, py, survival, start);
    } else {
      CollectFacts(cfg, init, px, py, survival, start);
    }
  }

  /** A running frame keeps the player in the arena, never lowers the score,
      and reports only results whose hacker time is 0 and whose survival time
      is the frames played so far. */
  lemma StepRunning(cfg: SessionConfig, s: State, inp: TickInput)
    requires Running(s) && s.sproutsInRun < 15
    ensures var out := Step(cfg, s, inp);
      && out.state.frame == s.frame + 1
      && 0.0 <= out.state.px <= CANVAS_WIDTH - PLAYER_SIZE && 0.0 <= out.state.py <= CANVAS_HEIGHT - PLAYER_SIZE
      && out.state.score >= s.score
      && out.state.sproutsInRun < 15
      && (forall r :: r in out.reports ==>
            r.hackerSurvivalTime == 0.0 && r.totalSurvivalTime == (s.frame + 1) as real / 60.0
            && r.unlockedSecret.None? && (r.won <==> out.state.victory))
      && (out.reports != [] <==> out.state.gameOver || out.state.victory)
  {
    var s1 := Prelude(cfg, s, inp);
    PreludeFacts(cfg, s, inp);
    match ScanFrom(ActiveZones(cfg), s1.px / CANVAS_WIDTH, s1.py / CANVAS_HEIGHT, false, s1.secretTimer)
    case Found(_, _) =>
    case Stay(inAny, t) =>
      var s2 := s1.(secretTimer := if inAny then t else 0);
      FinishFacts(cfg, s2, inp);
  }

  /** Every state the loop reaches keeps the player in the arena and the run
      counter below 15. */
  lemma StepInv(cfg: SessionConfig, s: State, inp: TickInput)
    requires Inv(s)
    ensures Inv(Step(cfg, s, inp).state)
  {
    if Running(s) {
      StepRunning(cfg, s, inp);
    }
  }

  /** The zone timer gains one frame while the player is in a checked zone
      and drops to 0 outside all of them; when it reaches two seconds the
      secret is recorded and the frame stops before spawning, contact and
      pickups, reporting nothing; recording it re-runs the session setup,
      which recentres the player, empties the arena, places one sprout and
      schedules a loop that idles until the secret is claimed. */
  lemma StepDwell(cfg: SessionConfig, s: State, inp: TickInput)
    requires Running(s)
    ensures var s1 := Prelude(cfg, s, inp);
      var rx := s1.px / CANVAS_WIDTH;
      var ry := s1.py / CANVAS_HEIGHT;
      var n := CountIn(ActiveZones(cfg), rx, ry);
      var out := Step(cfg, s, inp);
      && (n == 0 ==> out.state.secretTimer == 0 && out.state.secretFound.None?)
      && (n > 0 && s.secretTimer + 1 < DWELL_FRAMES ==>
            out.state.secretTimer == s.secretTimer + 1 && out.state.secretFound.None?)
      && (n > 0 && s.secretTimer + 1 >= DWELL_FRAMES ==>
            && out.reports == [] && out.rearm
            && out.state == s1.(secretTimer := s.secretTimer + 1, secretFound := FirstIn(ActiveZones(cfg), rx, ry),
                                px := CANVAS_WIDTH / 2.0, py := CANVAS_HEIGHT / 2.0,
                                enemies := [], sprouts := [NewSprout(Sprout, inp.sproutAt, inp.sproutId)]))
  {
    var s1 := Prelude(cfg, s, inp);
    var rx := s1.px / CANVAS_WIDTH;
    var ry := s1.py / CANVAS_HEIGHT;
    PreludeFacts(cfg, s, inp);
    assert s1.secretTimer == s.secretTimer;
    ActiveZonesAtMostOne(cfg, rx, ry);
    ScanSingle(ActiveZones(cfg), rx, ry, false, s1.secretTimer);
    var d := ScanFrom(ActiveZones(cfg), rx, ry, false, s1.secretTimer);
    if d.Stay? {
      var s2 := s1.(secretTimer := if d.inAny then d.timer else 0);
      assert Step(cfg, s, inp) == Finish(cfg, s2, inp);
      FinishKeepsDwell(cfg, s2, inp);
    }
  }

  lemma FinishKeepsDwell(cfg: SessionConfig, s: State, inp: TickInput)
    ensures Finish(cfg, s, inp).state.secretTimer == s.secretTimer
    ensures Finish(cfg, s, inp).state.secretFound == s.secretFound
  {
    SpawnFacts(cfg, s, inp);
  }

  /** The secret found names the zone the player stands in, which is a zone
      of the session's tier whose part is still locked, or a banana zone. */
  lemma FoundZoneEligible(cfg: SessionConfig, rx: real, ry: real)
    requires CountIn(ActiveZones(cfg), rx, ry) > 0
    ensures exists z :: z in ActiveZones(cfg) && InBounds(z.bounds, rx, ry) && FirstIn(ActiveZones(cfg), rx, ry) == Some(z.secret)
  {
    FirstInMember(ActiveZones(cfg), rx, ry);
  }

  lemma {:induction false} FirstInMember(zones: seq<Zone>, rx: real, ry: real)
    requires CountIn(zones, rx, ry) > 0
    ensures exists z :: z in zones && InBounds(z.bounds, rx, ry) && FirstIn(zones, rx, ry) == Some(z.secret)
  {
    if !InBounds(zones[0].bounds, rx, ry) {
      FirstInMember(zones[1..], rx, ry);
      var z :| z in zones[1..] && InBounds(z.bounds, rx, ry) && FirstIn(zones[1..], rx, ry) == Some(z.secret);
      assert z in zones;
    } else {
      assert zones[0] in zones;
    }
  }

  /** The session starts in a state the invariant admits. */
  lemma InitialInv(cfg: SessionConfig, at: Vec, id: int)
    ensures Inv(Initial(cfg, at, id))
    ensures Running(Initial(cfg, at, id))
  {
  }

  lemma SetPauseInv(s: State, p: bool, at: Vec, id: int)
    requires Inv(s)
    ensures Inv(SetPause(s, p, at, id))
  {
  }

  lemma NukeInv(s: State)
    requires Inv(s)
    ensures Inv(Nuke(s))
  {
  }

  /** A claimed story part is reported as unlocked and leads to the story
      screen; a claimed banana item is reported by its flag and leads to the
      extras screen; with nothing found there is nothing to claim. */
  lemma ClaimFacts(s: State)
    ensures Claim(s).Some? <==> s.secretFound.Some?
    ensures s.secretFound.Some? && s.secretFound.value.StoryFound? ==>
      Claim(s).value.0.unlockedSecret == Some(s.secretFound.value.id) && Claim(s).value.1 == StoryScreen
      && !Claim(s).value.0.foundPeel && !Claim(s).value.0.foundCaramel
    ensures s.secretFound == Some(ItemFound(SACRED_PEEL_ID)) ==>
      Claim(s).value.0.foundPeel && !Claim(s).value.0.foundCaramel && Claim(s).value.1 == ExtrasScreen
    ensures s.secretFound == Some(ItemFound(CARAMEL_BANANA_ID)) ==>
      Claim(s).value.0.foundCaramel && !Claim(s).value.0.foundPeel && Claim(s).value.1 == ExtrasScreen
    ensures Claim(s).Some? ==> !Claim(s).value.0.won && Claim(s).value.0.score == s.score
  {
  }
}
