# Arbolín — a verified model of the game core

Arbolín is a browser game. A small tree dodges fire enemies, picks up sprouts
and shoots projectiles on a 450 × 800 canvas. This project models the parts
of the game that decide outcomes:

- **The frame loop of the game screen** (`components/Game.tsx`), modelled twice:
  - as a pure step function `Game.Step` on a `Game.State` value, with its
    properties proved in `GameFacts`;
  - as the class `GameSession.Session`, whose fields are the loop's mutable
    references. Its `Tick` method runs the loop's own in-place loops:
    - projectiles against enemies;
    - the secret-zone scan;
    - enemy contact with the one-shot shield;
    - sprout pickup.

    `Tick` is proved to produce exactly `Game.Step` of the old state.
- **The progression reducer of the app shell** (`App.tsx`). It folds one game
  result into the persisted player progress:
  - counters and maxima;
  - cleared tiers;
  - story parts;
  - skin unlocks by threshold.

  The module also holds the derived achievements list and the local
  leaderboard row of an infinite run.
- **The configuration tables** (`constants.ts`):
  - tier order, win scores and spawn rates;
  - the secret zones and the Fuegorín story;
  - the skin catalogue.
- **The leaderboard service** (`server.ts`): the POST that validates an
  entry, appends it, sorts by descending score and keeps the best 50, and
  the GET.
- **The leaderboard screen** (`components/Leaderboard.tsx`): the ten best of a
  sorted copy.
- **The level selector** (`components/LevelSelector.tsx`): which tiers are
  open, and starting a game.
- **The extras screen** (`components/Extras.tsx`):
  - mode toggles;
  - the Fuegorín-mode gate;
  - the next story hint;
  - the parts-found counter.
- **The on-screen D-pad** (`components/DirectionalButtons.tsx`): button state,
  and the normalised direction vector.

Modules, one per file:

| module | file |
|---|---|
| `Basics` | `basics.dfy` |
| `Types` | `types.dfy` |
| `Config` | `config.dfy` |
| `StableSort` | `sorting.dfy` |
| `Game` | `game.dfy` |
| `GameFacts` | `gamefacts.dfy` |
| `GameSession` | `session.dfy` |
| `Progression` | `progression.dfy` |
| `LeaderboardServer` | `server.dfy` |
| `LeaderboardView` | `leaderboard_view.dfy` |
| `LevelSelector` | `level_selector.dfy` |
| `Extras` | `extras.dfy` |
| `DirectionPad` | `dpad.dfy` |

JavaScript's `Array.prototype.sort` is stable. Every sort in the core is
therefore modelled by one stable insertion sort on a real-valued key,
`StableSort.Sort`. Its properties are proved once:
- sorted;
- a permutation;
- stable;
- a sorted input is left as it is.

It is then used with two keys:
- the negated score, for the server and the leaderboard screen;
- the squared distance to the player, for the ability.

Time is counted in whole frames. A zone must be held for 120 frames, which
is two seconds at 60 frames per second. Survival time is reported as
`frame / 60`.

## Model

| member | source | states |
|---|---|---|
| Basics.Take | components/Leaderboard.tsx:41 | `slice(0, n)`: the first min(n, length) elements, a prefix of the list |
| Basics.Drop | components/Game.tsx:126 | `slice(n)`: what is left after the first n; with the prefix it rebuilds the list |
| Config.SpawnRate | constants.ts:16-22 | every tier's enemy spawn interval is positive, so the `%` in the loop is defined |
| Config.DifficultyOrderMonotone | constants.ts:14-22 | the tier order lists all five tiers once, with win scores strictly rising and spawn intervals strictly falling |
| Config.SecretsMatchStory | constants.ts:26-70 | five secrets and five story parts; secret i and story part i share the id and the tier, and the ids are distinct |
| Config.SecretBoundsWellFormed | constants.ts:26-32 | every secret zone's bounds are ratios in [0, 1] with each minimum at most its maximum |
| Config.SecretsDisjoint | constants.ts:26-32 | no point of the canvas lies in two secret zones |
| Config.SameTierZonesDisjoint | constants.ts:26-32 | two distinct zones of the same tier never both contain the player |
| Config.ZoneWitness | constants.ts:26-32 | for well-formed bounds whose lower edges the player can reach, a player position inside the arena and inside the zone |
| Config.SecretsReachable | constants.ts:26-32 | every secret zone contains a position the player can stand on |
| Config.SeparatedDisjoint | constants.ts:26-32 | zones separated on one axis share no point |
| Config.SkinCatalogueComplete | constants.ts:72-180 | skin ids are distinct, `default` is among them, and every listed unlockable skin is in the catalogue; `Progression.EarnedInCatalogue` ties that list to the unlock rules |
| StableSort.SortPermutes | components/Game.tsx:120-124 | sorting keeps exactly the same multiset of elements |
| StableSort.SortSorted | components/Game.tsx:120-124 | the sorted list is non-decreasing in the key |
| StableSort.SortStable | server.ts:31 | for every key value, the elements with that key keep their relative order |
| StableSort.SortOfSorted | components/Leaderboard.tsx:41 | a list already sorted by the key is returned unchanged |
| StableSort.SortAppendSorted | server.ts:30-31 | sorting a sorted list with one element appended inserts that element after every element whose key is not greater |
| StableSort.SortSplit | components/Game.tsx:120-126 | cutting the sorted list at k splits the input multiset in two, with every key of the front at most every key of the back |
| StableSort.Sort | server.ts:31 | the stable sort keeps the length; that it is sorted, a permutation and stable is stated by `SortSorted`, `SortPermutes` and `SortStable` |
| Game.Clamp | components/Game.tsx:276-277 | `max(0, min(hi, v))` lies in [0, hi] and leaves a value already inside unchanged |
| Game.Volley | components/Game.tsx:98-114 | one shot fires three projectiles with the triple-shot power-up and one otherwise, all projectiles starting at the player's centre |
| Game.StoryZones | components/Game.tsx:307-308 | the story zones checked are a selection of the secret table; which ones is stated by `GameFacts.StoryZonesEligible` |
| Game.ProjectilePass | components/Game.tsx:280-295 | the pass never keeps more projectiles than there were nor leaves more enemies; which ones is stated by `GameFacts.PassKept` and `GameFacts.PassEnemies` |
| Game.Shoot | components/Game.tsx:87-115 | a shot only appends projectiles, only with a non-zero aim once the cooldown has passed, and then records the time; nothing else changes (in full: `GameFacts.ShootFacts`) |
| Game.ScanFrom | components/Game.tsx:310-323 | the timer gains at most one frame per zone; a found secret has reached 120 frames; a frame that added time and did not find stays below 120 and is marked inside a zone (single-zone rule: `GameFacts.ScanSingle`) |
| Game.SpawnEnemyStage | components/Game.tsx:361 | at most one enemy is appended, only on a spawn-rate frame; on such a frame one is appended whenever the random point is at least 150 px from the player; nothing else changes (`GameFacts.SpawnEnemyFacts`) |
| Game.SpawnMutantStage | components/Game.tsx:362 | at most one sprout is appended, a mutant, only in mutant mode; in mutant mode one is appended on every 180th frame; nothing else changes |
| Game.SpawnSproutStage | components/Game.tsx:363 | at most one sprout is appended, only while fewer than 4 are live; while fewer than 4 are live one is appended on every 60th frame; nothing else changes (`GameFacts.SpawnSproutFacts`) |
| Game.Spawn | components/Game.tsx:361-363 | the spawns only append, at most one enemy and two sprouts, and change nothing else; a due enemy at least 150 px away and a due mutant are appended (`GameFacts.SpawnFacts`) |
| Game.Collide | components/Game.tsx:366-387 | contact never adds enemies; without the shield it removes none; a shield still up after the walk removed none (count rule: `GameFacts.CollideSpec`) |
| Game.Gain | components/Game.tsx:391-405 | one pickup keeps the other sprouts, raises the score, keeps the run counter below 15, adds at most one report, never undoes a victory, and in infinite mode reports and wins nothing |
| Game.Collect | components/Game.tsx:389-409 | the pickup pass only extends the kept sprouts and the reports (at most one each per sprout), never lowers the score, keeps the run counter below 15 and never undoes a victory (exact values: `GameFacts.CollectCounts`, `GameFacts.CollectWins`) |
| Game.Move | components/Game.tsx:271-277 | the frame counter gains one, the player ends inside the arena, and nothing else changes |
| Game.Step | components/Game.tsx:267-409 | a frame never lowers the score, adds at most one to the frame counter, and after a loss changes and reports nothing; in full: `GameFacts.StepIdle`, `StepRunning`, `StepDwell`, `StepInv` |
| Game.Nuke | components/Game.tsx:117-127 | the ability leaves max(n − 10, 0) enemies, is spent, and changes nothing else (which enemies: `GameFacts.NukeFacts`) |
| Game.Setup | components/Game.tsx:259-265 | the setup empties the enemies, places one regular sprout, moves only the player, and keeps the invariant |
| Game.SetPause | components/Game.tsx:253-265 | the pause flag becomes the new value; an unchanged flag changes nothing; the invariant is kept |
| Game.Claim | components/Game.tsx:564-589 | there is something to claim exactly when a secret was found; the claim reports a loss with the current score, and carries a story id exactly when it opens the story screen |
| GameFacts.PassEnemies | components/Game.tsx:280-295 | after the projectile pass, the enemies left are exactly those no moved projectile touches, in their original order |
| GameFacts.PassKept | components/Game.tsx:280-295 | the kept projectiles are exactly, in order, the moved projectiles that are within 50 px of the canvas and touch no enemy still standing at their turn (`KeptFilter`); so one that touches no enemy and is near the arena is kept, and every kept one is a moved input near the arena |
| GameFacts.KeptFilterMembers | components/Game.tsx:280-295 | a projectile is in the index-wise filter exactly when it is some moved projectile the keep rule accepts at its own index |
| GameFacts.PassKeptPrefix | components/Game.tsx:280-295 | after any number of projectiles have moved, those kept are the filter of that prefix |
| GameFacts.ProjectileStep | components/Game.tsx:280-295 | the projectile pass never adds enemies; every enemy left was there and is touched by no moved projectile; every touched enemy is gone; the kept projectiles are the index-wise filter, include every clean one near the arena, and touch no enemy left |
| GameFacts.UnhitMembers | components/Game.tsx:286-292 | membership in the enemies left, and their multiset inclusion in the original enemies |
| GameFacts.ScanSingle | components/Game.tsx:302-358 | when at most one checked zone contains the player, a frame adds one to the zone timer when the player is in it, finds the secret at 120 frames, and resets the timer outside every zone |
| GameFacts.ActiveZonesAtMostOne | components/Game.tsx:307-354 | the player stands in at most one of the zones a session checks, the two banana zones included |
| GameFacts.AllZonesSeparated | components/Game.tsx:327-354 | the five story zones and the two banana zones are pairwise separated |
| GameFacts.StoryZonesEligible | components/Game.tsx:307-308 | a story zone is checked exactly when its tier is the session's and its part is not yet unlocked |
| GameFacts.FoundZoneEligible | components/Game.tsx:302-354 | the secret found is that of a checked zone containing the player |
| GameFacts.ShootFacts | components/Game.tsx:87-115 | a shot fires only with a non-zero aim once the cooldown (200 ms with rapid fire, else 500 ms) has passed; it appends the volley at the player's centre and records the time; nothing else changes |
| GameFacts.SpawnEnemyFacts | components/Game.tsx:194-205 | an enemy is added exactly on frames that are multiples of the tier's spawn rate when its random point is at least 150 px from the player; the old enemies stay as they were |
| GameFacts.SpawnSproutFacts | components/Game.tsx:207-217 | a mutant is added exactly in mutant mode every 180 frames, and a regular sprout exactly every 60 frames while fewer than 4 are live, counting a mutant from the same frame; the sprout count is pinned by these two conditions; old sprouts stay |
| GameFacts.SpawnFacts | components/Game.tsx:361-363 | the three spawn checks change only the enemy and sprout lists: the enemies are those of the enemy check, the sprouts those of the mutant and sprout checks |
| GameFacts.SpawnPositions | components/Game.tsx:195-212 | with random fractions in [0, 1), a sprout lies in [20, 430) × [20, 780) and an enemy in [0, 410) × [0, 750) |
| GameFacts.CollideSpec | components/Game.tsx:366-387 | the game is lost exactly when more enemies touch the player than the shield absorbs (one); otherwise only the absorbed enemy's id is removed and the shield is spent exactly when it absorbed one |
| GameFacts.RemoveIdMembers | components/Game.tsx:370 | the shield's filter keeps exactly the enemies whose id differs |
| GameFacts.CollectCounts | components/Game.tsx:390-409 | pickup keeps the unreached sprouts in order, raises the score by the worth of the reached ones (4 for a mutant, 1 otherwise), and keeps the run counter below 15, readying the ability exactly when it wraps |
| GameFacts.CollectReports | components/Game.tsx:389-409 | the reports a frame's pickups add are exactly one win report per reached sprout whose pickup leaves the running score at or above the target, carrying that score, in sprout order (`WinsAlong`) |
| GameFacts.CollectWins | components/Game.tsx:400-405 | outside infinite mode the session is won exactly when a pickup brings the score to the tier's target; the reports added are exactly `WinsAlong`, so each later pickup in the same frame reports the win again; infinite mode reports nothing |
| GameFacts.CollectFacts | components/Game.tsx:390-409 | counts and win reports of the pickup pass together, the earlier reports kept as a prefix |
| GameFacts.VictoryReported | components/Game.tsx:401-405 | outside infinite mode a pickup that reaches the target is reported |
| GameFacts.DoubleWin | components/Game.tsx:390-409 | two sprouts taken in the same frame at 9 of 10 points on the easy tier report the win twice |
| GameFacts.NukeFacts | components/Game.tsx:117-127 | the ability removes min(n, 10) enemies, each at least as close to the player as every enemy kept; it keeps the rest sorted by distance, as a sub-multiset; the ability is spent |
| GameFacts.NukeInv | components/Game.tsx:117-127 | the ability keeps the session invariant |
| GameFacts.StepIdle | components/Game.tsx:268-269 | paused or with a secret pending, a frame only schedules the next; after a loss or a win it schedules nothing |
| GameFacts.PreludeFacts | components/Game.tsx:271-299 | up to the zone check a frame adds one to the counter, keeps the player inside the arena, and changes only the player, the projectiles, the enemies and the shot clock; the enemy count does not grow |
| GameFacts.FinishFacts | components/Game.tsx:360-409 | after the zone check the game is lost exactly when more enemies touch than the shield absorbs, and the loss is reported with the score; otherwise the score only grows and every report is a win at or above the target |
| GameFacts.StepRunning | components/Game.tsx:267-409 | a running frame keeps the player in the arena and never lowers the score; it reports only results with hacker time 0 and survival time frame/60, and reports exactly when it ends the game |
| GameFacts.StepInv | components/Game.tsx:267-409 | every reachable state keeps the player inside the arena and the run counter below 15 |
| GameFacts.StepDwell | components/Game.tsx:302-358 | the zone timer gains one frame inside a checked zone and drops to 0 outside all of them; at 120 frames the secret is recorded and the frame returns before spawns, contact and pickups, with no report; recording it re-runs the setup (player centred, arena emptied, one sprout) and the loop idles |
| GameFacts.FinishKeepsDwell | components/Game.tsx:360-409 | spawns, contact and pickups leave the zone timer and the found secret alone |
| GameFacts.InitialInv | components/Game.tsx:33-50 | a new session satisfies the invariant and is running |
| GameFacts.SetPauseInv | components/Game.tsx:253-265 | re-running the setup when the pause flag changes keeps the invariant |
| GameFacts.ClaimFacts | components/Game.tsx:564-589 | claiming a story part reports a loss carrying its id and opens the story screen; claiming a banana item sets its flag and opens the extras screen; with nothing found there is nothing to claim |
| GameSession.RemoveHit | components/Game.tsx:285-292 | the enemies one projectile leaves, in order, and `hit` exactly when it touched at least one |
| GameFacts.SurvivorsMembers | components/Game.tsx:286-292 | the enemies left are exactly those the projectile does not touch |
| GameSession.AdvanceProjectiles | components/Game.tsx:280-295 | the loop's result equals the projectile pass; the enemies left are those no moved projectile touches; kept projectiles are the index-wise filter `KeptFilter` |
| GameSession.ScanZones | components/Game.tsx:302-323 | the zone loop equals the zone scan, and with at most one zone containing the player it is the single-zone rule |
| GameSession.FilterId | components/Game.tsx:370 | the filter keeps exactly the enemies with a different id, in order |
| GameSession.CheckContact | components/Game.tsx:366-387 | the contact loop equals the contact rule, and it reports a loss exactly when more enemies touch than the shield absorbs |
| GameSession.CollectSprouts | components/Game.tsx:390-409 | the pickup loop equals the pickup pass, keeps the unreached sprouts, adds their worth to the score and keeps the run counter below 15 |
| GameSession.Session.constructor | components/Game.tsx:33-50 | a new session is the initial state (player centred, shield from the power-ups, one sprout) and satisfies the invariant |
| GameSession.Session.MovePlayer | components/Game.tsx:271-277 | the frame counter advances and the player moves, clamped to the arena |
| GameSession.Session.MoveProjectiles | components/Game.tsx:280-295 | projectiles and enemies become the result of the projectile pass, nothing else changes |
| GameSession.Session.Fire | components/Game.tsx:297-299 | the state becomes the shot rule's result |
| GameSession.Session.CheckSecrets | components/Game.tsx:302-358 | the zone timer and the found secret follow the zone scan, and `found` says whether the frame stops |
| GameSession.Session.SpawnEnemies | components/Game.tsx:361 | the enemy spawn check |
| GameSession.Session.SpawnMutants | components/Game.tsx:362 | the mutant spawn check |
| GameSession.Session.SpawnSprouts | components/Game.tsx:363 | the sprout spawn check |
| GameSession.Session.SpawnAll | components/Game.tsx:361-363 | the three spawn checks in order |
| GameSession.Session.Contact | components/Game.tsx:366-387 | enemies, shield and game-over flag follow the contact rule, and `lost` says whether the game ended |
| GameSession.Session.PickUp | components/Game.tsx:389-409 | sprouts, score, run counter, ability and victory follow the pickup pass, and the wins it reports are returned |
| GameSession.Session.Resolve | components/Game.tsx:360-409 | spawns, contact and pickup together equal the second half of the frame, reports and rescheduling included |
| GameSession.Session.Tick | components/Game.tsx:267-409 | one frame of the loop equals `Game.Step` on the old state, and keeps the session invariant |
| GameSession.Session.TriggerAbility | components/Game.tsx:117-127 | the ability's result on the old state, keeping the invariant |
| GameSession.Session.Restart | components/Game.tsx:259-265 | the setup the effect re-runs: the player centred, enemies and sprouts replaced by one new sprout, nothing else changed |
| GameSession.Session.SetPaused | components/Game.tsx:253-265 | a pause change re-runs the setup (player centred, arena emptied, one sprout); the invariant is kept |
| Progression.UnlockSkin | App.tsx:131-136 | the id is appended exactly when missing; the old list is a prefix; nothing else is added, so the list grows by at most one |
| Progression.UnlockSkinIdempotent | App.tsx:131-136 | unlocking the same skin twice is unlocking it once |
| Progression.UnlockSkinNoDuplicates | App.tsx:131-136 | unlocking keeps a duplicate-free list duplicate-free |
| Progression.OrZero | App.tsx:162 | `x \|\| 0` on a counter that may be absent |
| Progression.TiersBound | App.tsx:193 | the number of distinct cleared tiers is at most the length of the list |
| Progression.AllTiersCount | App.tsx:193-194 | there are exactly five tiers |
| Progression.AllTiersCleared | App.tsx:193-194 | at least five distinct cleared tiers exactly when every tier is cleared |
| Progression.ApplyRules | App.tsx:174-194 | applying the unlock rules in order only appends to the skin list, at most one skin per rule |
| Progression.ApplyRulesMembers | App.tsx:174-194 | after the rules, a skin is unlocked exactly when it was, or an applying rule grants it; duplicates are not introduced |
| Progression.ApplyRulesSettled | App.tsx:174-194 | rules whose skins are all unlocked already change nothing |
| Progression.EarnedByRule | App.tsx:174-194 | a skin is earned by the totals exactly when an applying rule names it |
| Progression.GrantSkins | App.tsx:174-194 | granting only appends, at most one skin per rule (which skins: `GrantSkinsFacts`) |
| Progression.EarnedInCatalogue | constants.ts:72-180 | every skin a threshold or a cleared tier earns is an unlockable skin of the catalogue |
| Progression.GrantSkinsInCatalogue | App.tsx:174-194 | granting adds only catalogue skins |
| Progression.GrantSkinsFacts | App.tsx:174-194 | the granted list extends the old one with exactly the earned skins and stays duplicate-free |
| Progression.GrantSkinsIdempotent | App.tsx:174-194 | granting twice with the same totals is granting once |
| Progression.AddStoryPart | App.tsx:164-167 | a truthy secret id not yet in the list is appended; otherwise the list is unchanged |
| Progression.AddStoryPartIdempotent | App.tsx:164-167 | adding the same secret twice is adding it once |
| Progression.ApplyResult | App.tsx:153-206 | the reducer adds the score to the sprout total, counts a loss and a Fuegorín-mode loss, takes both survival maxima, and only extends the skin, tier and story lists |
| Progression.CompletedFacts | App.tsx:169-172 | the tier enters the cleared list exactly when the result is a win outside infinite and Fuegorín mode, and is not added twice |
| Progression.SkinsAfterResult | App.tsx:174-194 | after a result the skins are the old ones plus exactly those the updated totals earn, duplicate-free |
| Progression.ThresholdUnlocks | App.tsx:174-194 | every crossed threshold (50 sprouts, 25 and 50 losses, 50 s hacker, 25 Fuegorín losses, 120 s, five tiers) has its skin unlocked, and a cleared tier its tier skin |
| Progression.TierSkinOnlyByClearing | App.tsx:169-178 | a missing tier skin is unlocked exactly when its tier is cleared by this result |
| Progression.UnlocksIdempotent | App.tsx:153-206 | applying the unlocks of the same result again changes no skin and no story part |
| Progression.FirstWinExample | App.tsx:18-29 | from the default progress, a first win of 50 on the normal tier unlocks `sakura` and `golden` and clears `normal` |
| Progression.FirstWinSkins | App.tsx:174-181 | the skin rules on that win append `sakura` then `golden` |
| Progression.RecordRun | App.tsx:142-151 | an infinite run appends one row with the score, the date and the player name or `Anónimo`; any other run leaves the local list as it was |
| Progression.Reward | App.tsx:57-121 | an achievement is shown unlocked exactly when its reward skin is unlocked |
| Progression.Achievements | App.tsx:57-121 | seven achievements, each rewarding a catalogue skin and unlocked exactly when that skin is |
| Progression.AchievementsReached | App.tsx:57-121 | in progress whose crossed thresholds have unlocked their skins (as every result leaves it), every achievement at its target shows unlocked |
| LeaderboardServer.ByScoreOrder | server.ts:31 | ascending in the key is descending in the score |
| LeaderboardServer.DescendingIsSorted | server.ts:31 | descending by score is the same as sorted by the key |
| LeaderboardServer.Accepts | server.ts:29 | a missing body, a falsy name and a string score are refused; a non-empty string name with a numeric score (0 included) is accepted |
| LeaderboardServer.Posted | server.ts:30-32 | the POSTed list has one entry more than before while there is room and 50 once full (order and contents: `PostedFacts`, `PostedSurvival`) |
| LeaderboardServer.EntryOf | server.ts:28-29 | an accepted body gives an entry with a truthy name and its numeric score |
| LeaderboardServer.PostedFacts | server.ts:29-32 | after an accepted POST the list has min(n + 1, 50) entries, in descending score, all from the old list and the new entry, and all of them while nothing is cut |
| LeaderboardServer.PostedInserts | server.ts:30-32 | on a sorted list the POST inserts the entry after every entry scoring at least as much, then cuts to 50 |
| LeaderboardServer.InsertPosCounts | server.ts:30-31 | in a descending list the entry goes in after exactly the entries scoring at least as much |
| LeaderboardServer.PostedSurvival | server.ts:29-32 | the new entry is kept, at position k, exactly when fewer than 50 stored entries score at least as much (k of them); otherwise the list is the old top 50 |
| LeaderboardServer.PostedStable | server.ts:31 | entries of one score stay in the order they were posted |
| LeaderboardServer.PostOnEmpty | server.ts:29-32 | posting to an empty list gives the one entry |
| LeaderboardServer.PostExample | server.ts:29-32 | posting 10 then 20 gives the 20 first |
| LeaderboardServer.PostTieExample | server.ts:29-32 | a later 10 goes after an earlier 10 |
| LeaderboardServer.SortByScore | server.ts:31 | the in-place sort's result is the stable sort by descending score, a permutation |
| LeaderboardServer.Store.constructor | server.ts:12 | the stored list starts empty |
| LeaderboardServer.Store.Get | server.ts:23-25 | GET returns the stored list |
| LeaderboardServer.Store.Post | server.ts:27-38 | 201 and the posted list for an accepted body; 400 and no change otherwise; order and the bound of 50 are kept |
| LeaderboardView.TopTen | components/Leaderboard.tsx:41 | the view shows min(n, 10) entries in descending score, all taken from the list |
| LeaderboardView.TopTenOmitted | components/Leaderboard.tsx:41 | shown and omitted entries together are the whole list, and no omitted entry outscores a shown one |
| LeaderboardView.TopTenOfStored | components/Leaderboard.tsx:41 | on a list the server stored, the view is its first ten entries |
| LevelSelector.StartGame | components/LevelSelector.tsx:14-17 | starting sets the tier and the playing screen, keeping the other settings |
| LevelSelector.IsUnlocked | components/LevelSelector.tsx:35-36 | the first tier is always open, and with nothing cleared it is the only open one |
| LevelSelector.IsCompleted | components/LevelSelector.tsx:37 | `includes`: the tier appears at some index of the cleared list |
| LevelSelector.Select | components/LevelSelector.tsx:33-43 | a click on a locked tier changes nothing; on an open tier it starts the game with that tier |
| LevelSelector.SelectKeepsOtherSettings | components/LevelSelector.tsx:14-17 | a click never changes sound or player name, and leaves the tier as it was or sets it to the clicked one |
| LevelSelector.UnlockedIsPrefix | components/LevelSelector.tsx:33-36 | while the cleared tiers follow the order, the open tiers form a prefix of it |
| LevelSelector.ClearedInOrderInitially | App.tsx:23 | a new player's cleared tiers (none) are in order |
| LevelSelector.PlayingKeepsClearedInOrder | components/LevelSelector.tsx:36-42 | the result of a game on an open tier keeps every cleared tier's predecessor cleared, so reachable progress meets the hypothesis of `UnlockedIsPrefix` |
| LevelSelector.ClearingOpensNext | components/LevelSelector.tsx:35-36 | clearing a tier opens the next one |
| LevelSelector.UnlockedStaysUnlocked | components/LevelSelector.tsx:35-36 | no result closes an open tier |
| Extras.ToggleExtra | components/Extras.tsx:15 | the toggled flag flips and every other flag keeps its value |
| Extras.FlagsDetermine | components/Extras.tsx:15 | the four flags determine the extras |
| Extras.ToggleTwice | components/Extras.tsx:15 | toggling twice restores the extras |
| Extras.FuegorinUnlocked | components/Extras.tsx:19 | ids 1 to 5 all unlocked is the same as every part of the Fuegorín story unlocked |
| Extras.ClickFuegorin | components/Extras.tsx:19-61 | the Fuegorín card toggles the mode only when story parts 1 to 5 are all unlocked |
| Extras.NextMissing | components/Extras.tsx:22 | the hint shown is a story part not yet found, and none exactly when all are found |
| Extras.NextMissingIsFirst | components/Extras.tsx:22 | every part before the hinted one has been found |
| Extras.NextHintIffLocked | components/Extras.tsx:19-22 | the Fuegorín hint disappears exactly when the mode opens |
| Extras.PartsFound | components/Extras.tsx:31 | the count of found parts is at most the story length, and equal exactly when all are found; its value is stated by `PartsFoundCount` |
| Extras.PartsFoundCount | components/Extras.tsx:31 | the counter is the number of story positions whose part has been found |
| Extras.PartsFoundSuffix | components/Extras.tsx:31 | the count over a story's suffix is the number of found positions in it |
| Extras.AllPartsFoundUnlocks | components/Extras.tsx:19-31 | five of five parts found exactly when the mode opens |
| DirectionPad.SetButton | components/DirectionalButtons.tsx:36-44 | pressing or releasing sets that button only |
| DirectionPad.ButtonsDetermine | components/DirectionalButtons.tsx:9-14 | the four buttons determine the pad state |
| DirectionPad.PressRelease | components/DirectionalButtons.tsx:36-44 | press then release of a released button restores the state |
| DirectionPad.Direction | components/DirectionalButtons.tsx:17-34 | each axis is negative or positive exactly when only its one button is held; a straight move is a unit step; a diagonal has equal components and unit length |

## Left out

- Rendering, styles, sounds and every screen's markup are not modelled.
  This covers the canvas drawing, the decorations from `generateScenario` and
  the story screen. They decide no outcome.
- The WebSocket broadcast, the `fetch` POST of an infinite run's score, and
  `localStorage` persistence are left out. They are I/O: the server's list
  and the app's progress are values here.
- `Math.random`, `Date.now`, `new Date().toISOString()` and the trigonometry
  of shot angles are inputs of each frame (`Game.TickInput`).
- The square root in the ability's distance is not modelled. Enemies are
  ordered by squared distance, which gives the same order.
- The D-pad's diagonal length `Math.sqrt(2)` is a parameter of
  `DirectionPad.Direction` whose square is 2. IEEE rounding is not modelled.
- Floating-point accumulation is not modelled. The loop's time counters add
  1/60 per frame as floats; the model counts whole frames instead.
  - The zone threshold of 2.0 seconds becomes 120 frames.
  - Survival time is `frame / 60`, exactly.
- The keyboard handler (`Game.tsx:145-192`) is not modelled. It feeds the
  same movement vector the pads do, and that vector is an input here.
- The joystick, the shop, the settings, the skin picker and the power-up
  purchase are left out. The active power-ups are a field of the session
  configuration.
- Entities are values, so the model cannot express aliasing of the mutable
  `playerRef`. The loop reads the player only through its own fields.
- `types.ts` optional fields that the reducer never reads are carried as
  inputs and are not interpreted:
  - `foundPeel` and `foundCaramel` of a result;
  - `redeemedCodes`.
- The Arbolín and banana stories are not part of this model. Only the story
  ids that the zones report matter to the core.
- LeaderboardServer.Store.Post: scores are integers. The service accepts any
  JSON number, including fractions.
- Enemy ids are integers supplied by the caller, rather than random
  strings.
  - Two enemies sharing an id are both removed by the shield's filter, as
    the code would do.
  - The model does not assume ids are unique.

Where the prose description and the code differ, the model follows the
code:

- A win is reported once for every pickup at or after the target in the
  same frame, not once per session. Lemma `GameFacts.CollectReports` states
  which reports are made, and `GameFacts.DoubleWin` shows an example.
- A second enemy touching the player in the frame the shield is spent ends
  the game.
- The pause toggle and a found secret both re-run the session setup. The
  player is recentred, the arena is emptied and one sprout is placed. The
  loop then idles until the game is resumed or the secret is claimed.
