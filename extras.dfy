/** The extras screen: the mode toggles, the Fuegorin unlock and the hint for
    the next story fragment to find. */
module Extras {
  import opened Basics
  import opened Types
  import opened Config

  datatype ExtraKey = MutantKey | InfiniteKey | FuegorinKey | BananaKey

  function Flag(e: ActiveExtras, k: ExtraKey): bool
  {
    match k
    case MutantKey => e.mutant
    case InfiniteKey => e.infinite
    case FuegorinKey => e.fuegorin
    case BananaKey => e.bananaMode
  }

  /** `toggleExtra(k)`: flips flag k and keeps the others. */
  function ToggleExtra(e: ActiveExtras, k: ExtraKey): (r: ActiveExtras)
    ensures Flag(r, k) == !Flag(e, k)
    ensures forall j :: j != k ==> Flag(r, j) == Flag(e, j)
  {
    match k
    case MutantKey => e.(mutant := !e.mutant)
    case InfiniteKey => e.(infinite := !e.infinite)
    case FuegorinKey => e.(fuegorin := !e.fuegorin)
    case BananaKey => e.(bananaMode := !e.bananaMode)
  }

  /** The four flags determine the record. */
  lemma FlagsDetermine(a: ActiveExtras, b: ActiveExtras)
    requires forall k :: Flag(a, k) == Flag(b, k)
    ensures a == b
  {
    assert Flag(a, MutantKey) == Flag(b, MutantKey);
    assert Flag(a, InfiniteKey) == Flag(b, InfiniteKey);
    assert Flag(a, FuegorinKey) == Flag(b, FuegorinKey);
    assert Flag(a, BananaKey) == Flag(b, BananaKey);
  }

  lemma ToggleTwice(e: ActiveExtras, k: ExtraKey)
    ensures ToggleExtra(ToggleExtra(e, k), k) == e
  {
    var r := ToggleExtra(ToggleExtra(e, k), k);
    forall j ensures Flag(r, j) == Flag(e, j) {
    }
    FlagsDetermine(r, e);
  }

  /** Fuegorin mode opens once story parts 1 to 5 have all been found. */
  predicate FuegorinUnlocked(unlocked: seq<int>)
    ensures FuegorinUnlocked(unlocked) <==> forall p :: p in FUEGORIN_STORY ==> p.id in unlocked
  {
    forall id :: 1 <= id <= 5 ==> id in unlocked
  }

  /** A click on the Fuegorin card toggles the mode only once it is open. */
  function ClickFuegorin(e: ActiveExtras, unlocked: seq<int>): (r: ActiveExtras)
    ensures FuegorinUnlocked(unlocked) ==> r == ToggleExtra(e, FuegorinKey)
    ensures !FuegorinUnlocked(unlocked) ==> r == e
  {
    if FuegorinUnlocked(unlocked) then ToggleExtra(e, FuegorinKey) else e
  }

  /** `story.find(part => !unlocked.includes(part.id))`. */
  function NextMissing(story: seq<StoryPart>, unlocked: seq<int>): (r: Option<StoryPart>)
    ensures r.Some? ==> r.value in story && r.value.id !in unlocked
    ensures r.None? <==> forall p :: p in story ==> p.id in unlocked
  {
    if story == [] then None
    else if story[0].id !in unlocked then Some(story[0])
    else NextMissing(story[1..], unlocked)
  }

  /** Everything before the part NextMissing returns has been found. */
  lemma {:induction false} NextMissingIsFirst(story: seq<StoryPart>, unlocked: seq<int>)
    ensures var r := NextMissing(story, unlocked);
      r.Some? ==> exists i :: (0 <= i < |story| && story[i] == r.value
        && forall j :: 0 <= j < i ==> story[j].id in unlocked)
  {
    if story != [] && story[0].id in unlocked {
      NextMissingIsFirst(story[1..], unlocked);
      var r := NextMissing(story, unlocked);
      if r.Some? {
        var i :| 0 <= i < |story[1..]| && story[1..][i] == r.value
          && forall j :: 0 <= j < i ==> story[1..][j].id in unlocked;
        assert story[i + 1] == r.value;
        forall j | 0 <= j < i + 1 ensures story[j].id in unlocked {
          if j > 0 {
            assert story[j] == story[1..][j - 1];
          }
        }
      }
    } else if story != [] {
      assert story[0] == NextMissing(story, unlocked).value;
    }
  }

  /** The Fuegorin hint disappears exactly when the mode opens. */
  lemma NextHintIffLocked(unlocked: seq<int>)
    ensures NextMissing(FUEGORIN_STORY, unlocked).None? <==> FuegorinUnlocked(unlocked)
  {
    SecretsMatchStory();
    if FuegorinUnlocked(unlocked) {
      forall p | p in FUEGORIN_STORY ensures p.id in unlocked {
        var i :| 0 <= i < |FUEGORIN_STORY| && FUEGORIN_STORY[i] == p;
        assert p.id == i + 1;
      }
    } else {
      var id :| 1 <= id <= 5 && id !in unlocked;
      assert FUEGORIN_STORY[id - 1].id == id;
    }
  }

  /** `story.filter(part => unlocked.includes(part.id)).length`. */
  function PartsFound(story: seq<StoryPart>, unlocked: seq<int>): (n: nat)
    ensures n <= |story|
    ensures n == |story| <==> forall p :: p in story ==> p.id in unlocked
  {
    if story == [] then 0
    else (if story[0].id in unlocked then 1 else 0) + PartsFound(story[1..], unlocked)
  }

  /** The positions of the story whose part has been found. */
  function FoundPositions(story: seq<StoryPart>, unlocked: seq<int>, from: nat): set<nat>
  {
    set i: nat | from <= i < |story| && story[i].id in unlocked
  }

  /** The counter shown on the extras screen is the number of story
      positions whose part has been found. */
  lemma PartsFoundCount(story: seq<StoryPart>, unlocked: seq<int>)
    ensures PartsFound(story, unlocked) == |FoundPositions(story, unlocked, 0)|
  {
    PartsFoundSuffix(story, unlocked, 0);
    assert story[0..] == story;
  }

  lemma {:induction false} PartsFoundSuffix(story: seq<StoryPart>, unlocked: seq<int>, m: nat)
    requires m <= |story|
    ensures PartsFound(story[m..], unlocked) == |FoundPositions(story, unlocked, m)|
    decreases |story| - m
  {
    if m == |story| {
      assert FoundPositions(story, unlocked, m) == {};
    } else {
      PartsFoundSuffix(story, unlocked, m + 1);
      assert story[m..][1..] == story[m + 1..];
      var here: set<nat> := if story[m].id in unlocked then {m} else {};
      assert FoundPositions(story, unlocked, m) == here + FoundPositions(story, unlocked, m + 1);
      assert here !! FoundPositions(story, unlocked, m + 1);
    }
  }

  /** All five Fuegorin parts found is the Fuegorin unlock. */
  lemma AllPartsFoundUnlocks(unlocked: seq<int>)
    ensures PartsFound(FUEGORIN_STORY, unlocked) == 5 <==> FuegorinUnlocked(unlocked)
  {
    NextHintIffLocked(unlocked);
  }
}
