/** What the application shell does when a session ends: the progress
    reducer with its skin unlocks, the local leaderboard row of an infinite
    run, and the achievement list derived from the progress. */
module Progression {
  import opened Basics
  import opened Types
  import opened Config

  /** The progress a first launch starts from. */
  const DEFAULT_PROGRESS: PlayerProgress :=
    PlayerProgress(0, 0, [], ["default"], 0.0, 0.0, [], Some(0))

  /** Appends a skin id unless it is already unlocked. */
  function UnlockSkin(id: string, skins: seq<string>): (r: seq<string>)
    ensures skins <= r && id in r
    ensures forall x :: x in r ==> x in skins || x == id
    ensures r == skins <==> id in skins
    ensures |r| <= |skins| + 1
  {
    if id in skins then skins else skins + [id]
  }

  /** Unlocking the same skin twice is unlocking it once. */
  lemma UnlockSkinIdempotent(id: string, skins: seq<string>)
    ensures UnlockSkin(id, UnlockSkin(id, skins)) == UnlockSkin(id, skins)
  {
    assert id in UnlockSkin(id, skins);
  }

  predicate NoDuplicates<T(==)>(s: seq<T>)
  {
    forall i, j :: 0 <= i < j < |s| ==> s[i] != s[j]
  }

  lemma UnlockSkinNoDuplicates(id: string, skins: seq<string>)
    requires NoDuplicates(skins)
    ensures NoDuplicates(UnlockSkin(id, skins))
  {
  }

  /** `n || 0` for an optional counter. */
  function OrZero(n: Option<int>): (r: int)
    ensures n.Some? ==> r == n.value
    ensures n.None? ==> r == 0
  {
    match n
    case None => 0
    case Some(v) => v
  }

  /** The skin a cleared tier awards; the easy tier awards none. */
  function TierSkin(d: Difficulty): Option<string>
  {
    match d
    case Easy => None
    case Normal => Some("sakura")
    case Hard => Some("autumn")
    case Extreme => Some("magma")
    case Hacker => Some("glitch")
  }

  /** `new Set(completed).size`: the number of distinct tiers cleared. */
  function DistinctTiers(completed: seq<Difficulty>): (n: nat)
    ensures n <= |completed|
  {
    var tiers := set d | d in completed;
    TiersBound(completed, tiers);
    |tiers|
  }

  lemma {:induction false} TiersBound(completed: seq<Difficulty>, tiers: set<Difficulty>)
    requires tiers == set d | d in completed
    ensures |tiers| <= |completed|
  {
    if completed != [] {
      var init := completed[..|completed| - 1];
      var rest := set d | d in init;
      TiersBound(init, rest);
      assert completed == init + [completed[|completed| - 1]];
      assert tiers == rest + {completed[|completed| - 1]};
    }
  }

  const ALL_TIERS: set<Difficulty> := {Easy, Normal, Hard, Extreme, Hacker}

  lemma AllTiersCount()
    ensures |ALL_TIERS| == 5
    ensures forall d: Difficulty :: d in ALL_TIERS
  {
    forall d: Difficulty ensures d in ALL_TIERS {
      match d
      case Easy =>
      case Normal =>
      case Hard =>
      case Extreme =>
      case Hacker =>
    }
  }

  /** Five distinct tiers cleared means every tier is cleared. */
  lemma AllTiersCleared(completed: seq<Difficulty>)
    ensures DistinctTiers(completed) >= 5 <==> forall d: Difficulty :: d in completed
  {
    var tiers := set d | d in completed;
    AllTiersCount();
    if forall d: Difficulty :: d in completed {
      assert tiers == ALL_TIERS;
    } else {
      var m: Difficulty :| m !in completed;
      assert tiers <= ALL_TIERS - {m};
      assert |ALL_TIERS - {m}| == 4;
      SubsetCard(tiers, ALL_TIERS - {m});
    }
  }

  lemma {:induction false} SubsetCard<T>(a: set<T>, b: set<T>)
    requires a <= b
    ensures |a| <= |b|
  {
    if a != {} {
      var x :| x in a;
      SubsetCard(a - {x}, b - {x});
    }
  }

  /** The updated totals the threshold unlocks read. */
  datatype Totals = Totals(
    cleared: bool,
    difficulty: Difficulty,
    sprouts: int,
    losses: int,
    hackerSurvival: real,
    fuegorinLosses: int,
    totalSurvival: real,
    distinctTiers: nat)

  /** One threshold check of the reducer: unlock `id` when `applies`. */
  datatype Rule = Rule(applies: bool, id: string)

  /** The reducer's checks, in the order it makes them. */
  function Rules(t: Totals): seq<Rule>
  {
    var tier := TierSkin(t.difficulty);
    [ Rule(t.cleared && tier.Some?, if tier.Some? then tier.value else ""),
      Rule(t.sprouts >= 50, "golden"),
      Rule(t.losses >= 25, "ghost"),
      Rule(t.losses >= 50, "peruano"),
      Rule(t.hackerSurvival >= 50.0, "venezolano"),
      Rule(t.fuegorinLosses >= 25, "bolivia"),
      Rule(t.totalSurvival >= 120.0, "ancient"),
      Rule(t.distinctTiers >= 5, "void") ]
  }

  /** Runs the checks left to right, each an `unlockSkin` when it applies. */
  function ApplyRules(skins: seq<string>, rules: seq<Rule>): (r: seq<string>)
    ensures skins <= r
    ensures |r| <= |skins| + |rules|
    decreases |rules|
  {
    if rules == [] then skins
    else ApplyRules(if rules[0].applies then UnlockSkin(rules[0].id, skins) else skins, rules[1..])
  }

  function GrantSkins(skins: seq<string>, t: Totals): (r: seq<string>)
    ensures skins <= r
    ensures |r| <= |skins| + |Rules(t)|
  {
    ApplyRules(skins, Rules(t))
  }

  /** When a skin is earned, stated skin by skin. */
  predicate Earned(id: string, t: Totals)
  {
    || (t.cleared && TierSkin(t.difficulty) == Some(id))
    || (id == "golden" && t.sprouts >= 50)
    || (id == "ghost" && t.losses >= 25)
    || (id == "peruano" && t.losses >= 50)
    || (id == "venezolano" && t.hackerSurvival >= 50.0)
    || (id == "bolivia" && t.fuegorinLosses >= 25)
    || (id == "ancient" && t.totalSurvival >= 120.0)
    || (id == "void" && t.distinctTiers >= 5)
  }

  lemma EarnedByRule(id: string, t: Totals)
    ensures Earned(id, t) <==> Rule(true, id) in Rules(t)
  {
  }

  /** The checks add exactly the ids of the rules that apply. */
  lemma {:induction false} ApplyRulesMembers(skins: seq<string>, rules: seq<Rule>)
    ensures forall x :: x in ApplyRules(skins, rules) <==> x in skins || Rule(true, x) in rules
    ensures NoDuplicates(skins) ==> NoDuplicates(ApplyRules(skins, rules))
    decreases |rules|
  {
    if rules != [] {
      var next := if rules[0].applies then UnlockSkin(rules[0].id, skins) else skins;
      ApplyRulesMembers(next, rules[1..]);
      assert rules == [rules[0]] + rules[1..];
    }
  }

  /** Once every id the rules grant is present, the checks change nothing. */
  lemma {:induction false} ApplyRulesSettled(skins: seq<string>, rules: seq<Rule>)
    requires forall x :: Rule(true, x) in rules ==> x in skins
    ensures ApplyRules(skins, rules) == skins
    decreases |rules|
  {
    if rules != [] {
      if rules[0].applies {
        assert Rule(true, rules[0].id) == rules[0];
      }
      assert forall x :: Rule(true, x) in rules[1..] ==> Rule(true, x) in rules;
      ApplyRulesSettled(skins, rules[1..]);
    }
  }

  /** The unlocks keep every skin in place and add exactly the earned ones. */
  lemma GrantSkinsFacts(skins: seq<string>, t: Totals)
    ensures skins <= GrantSkins(skins, t)
    ensures forall x :: x in GrantSkins(skins, t) <==> x in skins || Earned(x, t)
    ensures NoDuplicates(skins) ==> NoDuplicates(GrantSkins(skins, t))
  {
    ApplyRulesMembers(skins, Rules(t));
    forall x ensures Earned(x, t) <==> Rule(true, x) in Rules(t) {
      EarnedByRule(x, t);
    }
  }

  /** Every skin a threshold or a cleared tier earns is an unlockable skin of
      the catalogue, so no rule names an id the skin screen does not know. */
  lemma EarnedInCatalogue(id: string, t: Totals)
    requires Earned(id, t)
    ensures id in UNLOCKABLE_SKINS && id in AVAILABLE_SKINS
  {
    SkinCatalogueComplete();
  }

  /** Granting adds only catalogue skins. */
  lemma GrantSkinsInCatalogue(skins: seq<string>, t: Totals)
    ensures forall x :: x in GrantSkins(skins, t) ==> x in skins || x in AVAILABLE_SKINS
  {
    GrantSkinsFacts(skins, t);
    forall x | x in GrantSkins(skins, t) && x !in skins
      ensures x in AVAILABLE_SKINS
    {
      EarnedInCatalogue(x, t);
    }
  }

  /** Granting the same result's skins twice is granting them once. */
  lemma GrantSkinsIdempotent(skins: seq<string>, t: Totals)
    ensures GrantSkins(GrantSkins(skins, t), t) == GrantSkins(skins, t)
  {
    ApplyRulesMembers(skins, Rules(t));
    ApplyRulesSettled(GrantSkins(skins, t), Rules(t));
  }

  /** `unlockedSecret && !parts.includes(unlockedSecret)`: a reported part is
      added unless it is absent, zero (falsy) or already unlocked. */
  function AddStoryPart(parts: seq<int>, secret: Option<int>): (r: seq<int>)
    ensures parts <= r && |r| <= |parts| + 1
    ensures |r| == |parts| + 1 <==> secret.Some? && secret.value != 0 && secret.value !in parts
    ensures |r| == |parts| + 1 ==> r[|parts|] == secret.value
  {
    if secret.Some? && secret.value != 0 && secret.value !in parts then parts + [secret.value] else parts
  }

  lemma AddStoryPartIdempotent(parts: seq<int>, secret: Option<int>)
    ensures AddStoryPart(AddStoryPart(parts, secret), secret) == AddStoryPart(parts, secret)
  {
  }

  /** A win outside the infinite and Fuegorin modes clears the tier played. */
  predicate Clears(res: GameResult, extras: ActiveExtras)
  {
    res.won && !extras.infinite && !extras.fuegorin
  }

  function FuegorinLossesAfter(prev: PlayerProgress, res: GameResult, extras: ActiveExtras): int
  {
    OrZero(prev.fuegorinLosses) + (if extras.fuegorin && !res.won then 1 else 0)
  }

  function CompletedAfter(prev: PlayerProgress, res: GameResult, extras: ActiveExtras, difficulty: Difficulty): seq<Difficulty>
  {
    if Clears(res, extras) && difficulty !in prev.completedDifficulties
    then prev.completedDifficulties + [difficulty]
    else prev.completedDifficulties
  }

  /** The totals after the result, as the threshold checks see them. */
  function TotalsAfter(prev: PlayerProgress, res: GameResult, extras: ActiveExtras, difficulty: Difficulty): Totals
  {
    Totals(
      Clears(res, extras),
      difficulty,
      prev.totalSprouts + res.score,
      if res.won then prev.totalLosses else prev.totalLosses + 1,
      Max(prev.maxHackerSurvival, res.hackerSurvivalTime),
      FuegorinLossesAfter(prev, res, extras),
      Max(prev.maxTotalSurvivalTime, res.totalSurvivalTime),
      DistinctTiers(CompletedAfter(prev, res, extras, difficulty)))
  }

  /** The progress reducer run when a session ends: `difficulty` and `extras`
      are the settings and mode toggles the session was played with. */
  function ApplyResult(prev: PlayerProgress, res: GameResult, extras: ActiveExtras, difficulty: Difficulty): (r: PlayerProgress)
    ensures r.totalSprouts == prev.totalSprouts + res.score
    ensures r.totalLosses == prev.totalLosses + (if res.won then 0 else 1)
    ensures r.fuegorinLosses == Some(OrZero(prev.fuegorinLosses) + (if extras.fuegorin && !res.won then 1 else 0))
    ensures r.maxHackerSurvival >= prev.maxHackerSurvival && r.maxHackerSurvival >= res.hackerSurvivalTime
    ensures r.maxHackerSurvival == prev.maxHackerSurvival || r.maxHackerSurvival == res.hackerSurvivalTime
    ensures r.maxTotalSurvivalTime >= prev.maxTotalSurvivalTime && r.maxTotalSurvivalTime >= res.totalSurvivalTime
    ensures r.maxTotalSurvivalTime == prev.maxTotalSurvivalTime || r.maxTotalSurvivalTime == res.totalSurvivalTime
    ensures prev.unlockedSkins <= r.unlockedSkins
    ensures prev.completedDifficulties <= r.completedDifficulties
    ensures prev.unlockedStoryParts <= r.unlockedStoryParts
  {
    var t := TotalsAfter(prev, res, extras, difficulty);
    GrantSkinsFacts(prev.unlockedSkins, t);
    PlayerProgress(
      t.sprouts,
      t.losses,
      CompletedAfter(prev, res, extras, difficulty),
      GrantSkins(prev.unlockedSkins, t),
      t.hackerSurvival,
      t.totalSurvival,
      AddStoryPart(prev.unlockedStoryParts, res.unlockedSecret),
      Some(t.fuegorinLosses))
  }

  /** A tier enters the completed list exactly when it is cleared and was not
      there yet; nothing else does. */
  lemma CompletedFacts(prev: PlayerProgress, res: GameResult, extras: ActiveExtras, difficulty: Difficulty)
    ensures var c := ApplyResult(prev, res, extras, difficulty).completedDifficulties;
      && (forall d :: d in c <==> d in prev.completedDifficulties || (Clears(res, extras) && d == difficulty))
      && (NoDuplicates(prev.completedDifficulties) ==> NoDuplicates(c))
      && (!Clears(res, extras) ==> c == prev.completedDifficulties)
  {
  }

  /** The skins after a result: the old list, followed by exactly the skins the
      updated totals earn that were missing; a duplicate-free list stays so. */
  lemma SkinsAfterResult(prev: PlayerProgress, res: GameResult, extras: ActiveExtras, difficulty: Difficulty)
    ensures var r := ApplyResult(prev, res, extras, difficulty);
      forall x :: x in r.unlockedSkins <==> x in prev.unlockedSkins || Earned(x, TotalsAfter(prev, res, extras, difficulty))
    ensures NoDuplicates(prev.unlockedSkins) ==> NoDuplicates(ApplyResult(prev, res, extras, difficulty).unlockedSkins)
  {
    GrantSkinsFacts(prev.unlockedSkins, TotalsAfter(prev, res, extras, difficulty));
  }

  /** Every threshold the progress has crossed has unlocked its skin. */
  predicate ThresholdsMet(p: PlayerProgress)
  {
    && (p.totalSprouts >= 50 ==> "golden" in p.unlockedSkins)
    && (p.totalLosses >= 25 ==> "ghost" in p.unlockedSkins)
    && (p.totalLosses >= 50 ==> "peruano" in p.unlockedSkins)
    && (p.maxHackerSurvival >= 50.0 ==> "venezolano" in p.unlockedSkins)
    && (OrZero(p.fuegorinLosses) >= 25 ==> "bolivia" in p.unlockedSkins)
    && (p.maxTotalSurvivalTime >= 120.0 ==> "ancient" in p.unlockedSkins)
    && (DistinctTiers(p.completedDifficulties) >= 5 ==> "void" in p.unlockedSkins)
  }

  /** Each threshold of the reducer, stated against the updated progress, and
      the tier skin of a cleared tier. */
  lemma ThresholdUnlocks(prev: PlayerProgress, res: GameResult, extras: ActiveExtras, difficulty: Difficulty)
    ensures var r := ApplyResult(prev, res, extras, difficulty);
      && ThresholdsMet(r)
      && ((forall d: Difficulty :: d in r.completedDifficulties) ==> "void" in r.unlockedSkins)
      && (Clears(res, extras) && TierSkin(difficulty).Some? ==> TierSkin(difficulty).value in r.unlockedSkins)
  {
    var r := ApplyResult(prev, res, extras, difficulty);
    SkinsAfterResult(prev, res, extras, difficulty);
    AllTiersCleared(r.completedDifficulties);
  }

  /** The tier skins are only ever earned by clearing their tier. */
  lemma TierSkinOnlyByClearing(prev: PlayerProgress, res: GameResult, extras: ActiveExtras, difficulty: Difficulty, d: Difficulty)
    requires TierSkin(d).Some? && TierSkin(d).value !in prev.unlockedSkins
    ensures TierSkin(d).value in ApplyResult(prev, res, extras, difficulty).unlockedSkins
        <==> Clears(res, extras) && difficulty == d
  {
    SkinsAfterResult(prev, res, extras, difficulty);
  }

  /** Applying the same result's unlocks to the new progress again adds no
      skin and no story part. */
  lemma UnlocksIdempotent(prev: PlayerProgress, res: GameResult, extras: ActiveExtras, difficulty: Difficulty)
    ensures var r := ApplyResult(prev, res, extras, difficulty);
      && GrantSkins(r.unlockedSkins, TotalsAfter(prev, res, extras, difficulty)) == r.unlockedSkins
      && AddStoryPart(r.unlockedStoryParts, res.unlockedSecret) == r.unlockedStoryParts
  {
    GrantSkinsIdempotent(prev.unlockedSkins, TotalsAfter(prev, res, extras, difficulty));
    AddStoryPartIdempotent(prev.unlockedStoryParts, res.unlockedSecret);
  }

  /** A first win of 50 on the normal tier from the default progress. */
  lemma FirstWinExample()
    ensures var r := ApplyResult(DEFAULT_PROGRESS, GameResult(true, 50, 0.0, 0.0, None, false, false),
                                 ActiveExtras(false, false, false, false), Normal);
      && r.totalSprouts == 50
      && r.unlockedSkins == ["default", "sakura", "golden"]
      && r.completedDifficulties == [Normal]
  {
    var res := GameResult(true, 50, 0.0, 0.0, None, false, false);
    var extras := ActiveExtras(false, false, false, false);
    var completed := CompletedAfter(DEFAULT_PROGRESS, res, extras, Normal);
    assert completed == [Normal];
    assert DistinctTiers(completed) == 1 by {
      assert (set d | d in [Normal]) == {Normal};
    }
    var t := TotalsAfter(DEFAULT_PROGRESS, res, extras, Normal);
    assert t == Totals(true, Normal, 50, 0, 0.0, 0, 0.0, 1);
    FirstWinSkins();
  }

  lemma FirstWinSkins()
    ensures GrantSkins(["default"], Totals(true, Normal, 50, 0, 0.0, 0, 0.0, 1)) == ["default", "sakura", "golden"]
  {
    var rules := Rules(Totals(true, Normal, 50, 0, 0.0, 0, 0.0, 1));
    var idle := [Rule(false, "ghost"), Rule(false, "peruano"), Rule(false, "venezolano"),
                 Rule(false, "bolivia"), Rule(false, "ancient"), Rule(false, "void")];
    assert rules == [Rule(true, "sakura"), Rule(true, "golden")] + idle;
    assert rules[1..] == [Rule(true, "golden")] + idle;
    assert UnlockSkin("sakura", ["default"]) == ["default", "sakura"];
    assert "golden"[0] != "sakura"[0] && "golden"[0] != "default"[0];
    assert UnlockSkin("golden", ["default", "sakura"]) == ["default", "sakura", "golden"];
    ApplyRulesIdle(["default", "sakura", "golden"], idle);
  }

  lemma {:induction false} ApplyRulesIdle(skins: seq<string>, rules: seq<Rule>)
    requires forall i :: 0 <= i < |rules| ==> !rules[i].applies
    ensures ApplyRules(skins, rules) == skins
    decreases |rules|
  {
    if rules != [] {
      ApplyRulesIdle(skins, rules[1..]);
    }
  }

  /** The row an infinite run adds to the local leaderboard; other runs add none. */
  function RecordRun(board: seq<LeaderboardEntry>, extras: ActiveExtras, playerName: string, score: int, date: string): (r: seq<LeaderboardEntry>)
    ensures !extras.infinite ==> r == board
    ensures extras.infinite ==> (
      && |r| == |board| + 1 && board <= r
      && r[|board|].score == score && r[|board|].date == Str(date)
      && Truthy(r[|board|].name)
      && r[|board|].name == Str(if playerName != "" then playerName else "Anónimo"))
  {
    var name := if playerName != "" then playerName else "Anónimo";
    if extras.infinite then board + [LeaderboardEntry(Str(name), score, Str(date))] else board
  }

  /** An achievement as the achievements screen receives it. */
  datatype Achievement = Achievement(id: string, skinRewardId: string, isUnlocked: bool, currentProgress: int, target: int)

  function Reward(id: string, skin: string, p: PlayerProgress, current: int, target: int): (a: Achievement)
    ensures a.isUnlocked <==> skin in p.unlockedSkins
  {
    Achievement(id, skin, skin in p.unlockedSkins, current, target)
  }

  /** The achievement list derived from the progress; survival times are
      shown rounded down. */
  function Achievements(p: PlayerProgress): (r: seq<Achievement>)
    ensures |r| == 7
    ensures forall i :: 0 <= i < |r| ==> r[i].skinRewardId in UNLOCKABLE_SKINS
    ensures forall i :: 0 <= i < |r| ==> (r[i].isUnlocked <==> r[i].skinRewardId in p.unlockedSkins)
  {
    [
      Reward("collect_50", "golden", p, p.totalSprouts, 50),
      Reward("all_difficulties", "void", p, DistinctTiers(p.completedDifficulties), 5),
      Reward("lose_25", "ghost", p, p.totalLosses, 25),
      Reward("lose_50", "peruano", p, p.totalLosses, 50),
      Reward("hacker_survival", "venezolano", p, p.maxHackerSurvival.Floor, 50),
      Reward("fuegorin_fail", "bolivia", p, OrZero(p.fuegorinLosses), 25),
      Reward("total_survival", "ancient", p, p.maxTotalSurvivalTime.Floor, 120)
    ]
  }

  /** Once the thresholds are met, as they are after any result is applied,
      every achievement whose progress has reached its target shows as
      unlocked. */
  lemma AchievementsReached(p: PlayerProgress)
    requires ThresholdsMet(p)
    ensures forall a :: a in Achievements(p) && a.currentProgress >= a.target ==> a.isUnlocked
  {
    assert p.maxHackerSurvival.Floor >= 50 ==> p.maxHackerSurvival >= 50.0;
    assert p.maxTotalSurvivalTime.Floor >= 120 ==> p.maxTotalSurvivalTime >= 120.0;
  }
}
