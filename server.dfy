/** The leaderboard service: the stored list, the POST that validates,
    appends, sorts by descending score and keeps the best 50, and the GET
    that returns the list. */
module LeaderboardServer {
  import opened Basics
  import opened Types
  import opened StableSort

  const MAX_ENTRIES: nat := 50

  /** The sort key of the comparator `(a, b) => b.score - a.score`: ascending
      in the negated score is descending in the score. */
  function ByScore(e: LeaderboardEntry): real
  {
    -(e.score as real)
  }

  lemma ByScoreOrder(a: LeaderboardEntry, b: LeaderboardEntry)
    ensures ByScore(a) <= ByScore(b) <==> a.score >= b.score
    ensures ByScore(a) == ByScore(b) <==> a.score == b.score
  {
  }

  /** Ordered by non-increasing score. */
  predicate Descending(s: seq<LeaderboardEntry>)
  {
    forall i, j :: 0 <= i < j < |s| ==> s[i].score >= s[j].score
  }

  lemma DescendingIsSorted(s: seq<LeaderboardEntry>)
    ensures Descending(s) <==> SortedBy(s, ByScore)
  {
  }

  /** A POST body: missing altogether, or the fields an entry reads. */
  datatype Body = NoBody | Body(name: Json, score: Json, date: Json)

  /** `entry && entry.name && typeof entry.score === 'number'`. */
  predicate Accepts(b: Body)
    ensures b.NoBody? ==> !Accepts(b)
    ensures b.Body? && !Truthy(b.name) ==> !Accepts(b)
    ensures b.Body? && b.score.Str? ==> !Accepts(b)
    ensures b.Body? && b.name.Str? && b.name.s != "" && b.score.Num? ==> Accepts(b)
  {
    b.Body? && Truthy(b.name) && b.score.Num?
  }

  function EntryOf(b: Body): (e: LeaderboardEntry)
    requires Accepts(b)
    ensures Truthy(e.name) && e.score == b.score.n
  {
    LeaderboardEntry(b.name, b.score.n, b.date)
  }

  /** The list after an accepted POST of e. */
  function Posted(board: seq<LeaderboardEntry>, e: LeaderboardEntry): (r: seq<LeaderboardEntry>)
    ensures |r| == if |board| < MAX_ENTRIES then |board| + 1 else MAX_ENTRIES
  {
    Take(Sort(board + [e], ByScore), MAX_ENTRIES)
  }

  /** An accepted POST leaves at most 50 entries, one more than before while
      there is room, ordered by score, all taken from the old list and the
      new entry, and all of them while nothing is cut. */
  lemma PostedFacts(board: seq<LeaderboardEntry>, e: LeaderboardEntry)
    ensures var r := Posted(board, e);
      && |r| == (if |board| < MAX_ENTRIES then |board| + 1 else MAX_ENTRIES)
      && Descending(r)
      && multiset(r) <= multiset(board + [e])
      && (|board| < MAX_ENTRIES ==> multiset(r) == multiset(board + [e]))
  {
    var sorted := Sort(board + [e], ByScore);
    SortSorted(board + [e], ByScore);
    SortPermutes(board + [e], ByScore);
    DescendingIsSorted(sorted);
    TakeSubMultiset(sorted, MAX_ENTRIES);
    var r := Take(sorted, MAX_ENTRIES);
    assert r == sorted[..|r|];
    DescendingIsSorted(r);
  }

  lemma TakeSubMultiset<T>(s: seq<T>, n: nat)
    ensures multiset(Take(s, n)) <= multiset(s)
  {
    assert s == Take(s, n) + Drop(s, n);
  }

  /** How many entries score at least v. */
  function CountAtLeast(s: seq<LeaderboardEntry>, v: int): (n: nat)
    ensures n <= |s|
  {
    if s == [] then 0 else (if s[0].score >= v then 1 else 0) + CountAtLeast(s[1..], v)
  }

  lemma {:induction false} CountAtLeastNone(s: seq<LeaderboardEntry>, v: int)
    requires forall i :: 0 <= i < |s| ==> s[i].score < v
    ensures CountAtLeast(s, v) == 0
  {
    if s != [] {
      CountAtLeastNone(s[1..], v);
    }
  }

  /** In a descending list the entries scoring at least e.score come first,
      so the insertion point is their count. */
  lemma {:induction false} InsertPosCounts(s: seq<LeaderboardEntry>, e: LeaderboardEntry)
    requires Descending(s)
    ensures InsertPos(s, e, ByScore) == CountAtLeast(s, e.score)
  {
    if s != [] {
      if s[0].score < e.score {
        CountAtLeastNone(s, e.score);
      } else {
        InsertPosCounts(s[1..], e);
      }
    }
  }

  /** Posting onto a sorted list inserts the entry after every entry with an
      equal or higher score, then trims. */
  lemma PostedInserts(board: seq<LeaderboardEntry>, e: LeaderboardEntry)
    requires Descending(board)
    ensures Posted(board, e) == Take(Insert(board, e, ByScore), MAX_ENTRIES)
  {
    DescendingIsSorted(board);
    SortAppendSorted(board, e, ByScore);
  }

  /** The new entry is kept, at position k, exactly when fewer than 50 stored
      entries score at least as much as it; otherwise the list is the old
      top 50. */
  lemma PostedSurvival(board: seq<LeaderboardEntry>, e: LeaderboardEntry)
    requires Descending(board)
    ensures var k := CountAtLeast(board, e.score);
      && (k < MAX_ENTRIES ==>
            (&& k < |Posted(board, e)| && Posted(board, e)[k] == e
             && Posted(board, e) == Take(board[..k] + [e] + board[k..], MAX_ENTRIES)))
      && (k >= MAX_ENTRIES ==> Posted(board, e) == Take(board, MAX_ENTRIES))
  {
    var k := CountAtLeast(board, e.score);
    PostedInserts(board, e);
    InsertSplits(board, e, ByScore);
    InsertPosCounts(board, e);
    var ins := board[..k] + [e] + board[k..];
    if k >= MAX_ENTRIES {
      assert Take(ins, MAX_ENTRIES) == board[..MAX_ENTRIES];
    } else {
      assert ins[k] == e;
    }
  }

  /** Entries of any one score appear in the stored list in the order they
      were submitted: the posted list's entries of that score are a prefix of
      the old ones followed by the new one. */
  lemma PostedStable(board: seq<LeaderboardEntry>, e: LeaderboardEntry, v: real)
    ensures WithKey(Posted(board, e), ByScore, v) <= WithKey(board + [e], ByScore, v)
    ensures |board| < MAX_ENTRIES ==> WithKey(Posted(board, e), ByScore, v) == WithKey(board + [e], ByScore, v)
  {
    var sorted := Sort(board + [e], ByScore);
    SortStable(board + [e], ByScore, v);
    var n := |Posted(board, e)|;
    WithKeyAt(sorted, n, ByScore, v);
    assert Posted(board, e) == sorted[..n];
    if |board| < MAX_ENTRIES {
      assert sorted[n..] == [];
    }
  }

  lemma PostOnEmpty(e: LeaderboardEntry)
    ensures Posted([], e) == [e]
  {
    PostedInserts([], e);
    assert Take([e], MAX_ENTRIES) == [e];
  }

  /** Posting A:10 and then B:20 gives [B, A], whatever else the two
      entries carry. */
  lemma PostExample(a: LeaderboardEntry, b: LeaderboardEntry)
    requires a.score == 10 && b.score == 20
    ensures Posted(Posted([], a), b) == [b, a]
  {
    PostOnEmpty(a);
    PostedInserts([a], b);
    assert Insert([a], b, ByScore) == [b, a];
    assert Take([b, a], MAX_ENTRIES) == [b, a];
  }

  lemma InsertAfter(x: LeaderboardEntry, rest: seq<LeaderboardEntry>, e: LeaderboardEntry)
    requires x.score >= e.score
    ensures Insert([x] + rest, e, ByScore) == [x] + Insert(rest, e, ByScore)
  {
    assert ([x] + rest)[1..] == rest;
  }

  /** A later C:10 on [B:20, A:10] goes after A, its equal-scored elder. */
  lemma PostTieExample(a: LeaderboardEntry, b: LeaderboardEntry, c: LeaderboardEntry)
    requires a.score == 10 && b.score == 20 && c.score == 10
    ensures Posted([b, a], c) == [b, a, c]
  {
    PostedInserts([b, a], c);
    InsertAfter(b, [a], c);
    InsertAfter(a, [], c);
    assert Take([b, a, c], MAX_ENTRIES) == [b, a, c];
  }

  /** The stored list keeps its order and its bound. */
  predicate StoreInv(board: seq<LeaderboardEntry>)
  {
    Descending(board) && |board| <= MAX_ENTRIES
  }

  /** Sorts a copy by descending score, one entry at a time. */
  method SortByScore(s: seq<LeaderboardEntry>) returns (r: seq<LeaderboardEntry>)
    ensures r == Sort(s, ByScore)
    ensures Descending(r) && multiset(r) == multiset(s)
  {
    r := [];
    for i := 0 to |s|
      invariant r == Sort(s[..i], ByScore)
    {
      assert s[..i + 1][..i] == s[..i];
      r := Insert(r, s[i], ByScore);
    }
    assert s[..|s|] == s;
    SortSorted(s, ByScore);
    SortPermutes(s, ByScore);
    DescendingIsSorted(r);
  }

  class Store {
    var leaderboard: seq<LeaderboardEntry>

    constructor()
      ensures leaderboard == [] && StoreInv(leaderboard)
    {
      leaderboard := [];
    }

    /** GET: the stored list, unchanged. */
    method Get() returns (r: seq<LeaderboardEntry>)
      ensures r == leaderboard
    {
      r := leaderboard;
    }

    /** POST: 201 after storing an accepted entry, 400 and no change otherwise. */
    method Post(body: Body) returns (status: int)
      modifies this
      ensures Accepts(body) ==> status == 201 && leaderboard == Posted(old(leaderboard), EntryOf(body))
      ensures !Accepts(body) ==> status == 400 && leaderboard == old(leaderboard)
      ensures old(StoreInv(leaderboard)) || Accepts(body) ==> StoreInv(leaderboard)
    {
      if Accepts(body) {
        PostedFacts(leaderboard, EntryOf(body));
        leaderboard := leaderboard + [EntryOf(body)];
        leaderboard := SortByScore(leaderboard);
        leaderboard := Take(leaderboard, MAX_ENTRIES);
        status := 201;
      } else {
        status := 400;
      }
    }
  }
}
