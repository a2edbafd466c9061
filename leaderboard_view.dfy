/** The leaderboard screen's view of the list it received: a sorted copy cut
    to the ten best scores. */
module LeaderboardView {
  import opened Basics
  import opened Types
  import opened StableSort
  import opened LeaderboardServer

  const SHOWN: nat := 10

  /** `[...leaderboard].sort(byScoreDesc).slice(0, 10)`; the list itself is a
      value and is left as it was. */
  function TopTen(board: seq<LeaderboardEntry>): (r: seq<LeaderboardEntry>)
    ensures |r| <= SHOWN && |r| == if |board| < SHOWN then |board| else SHOWN
    ensures Descending(r)
    ensures multiset(r) <= multiset(board)
  {
    var sorted := Sort(board, ByScore);
    SortSorted(board, ByScore);
    SortPermutes(board, ByScore);
    DescendingIsSorted(sorted);
    TakeSubMultiset(sorted, SHOWN);
    Take(sorted, SHOWN)
  }

  /** The entries the view leaves out: together with the shown ones they are
      the whole list, and none of them outscores a shown entry. */
  lemma TopTenOmitted(board: seq<LeaderboardEntry>)
    ensures var rest := Drop(Sort(board, ByScore), SHOWN);
      && multiset(TopTen(board)) + multiset(rest) == multiset(board)
      && forall x, y :: x in rest && y in TopTen(board) ==> x.score <= y.score
  {
    var sorted := Sort(board, ByScore);
    var k := |TopTen(board)|;
    SortSplit(board, ByScore, SHOWN);
    assert TopTen(board) == sorted[..k];
    assert Drop(sorted, SHOWN) == sorted[k..];
    forall x, y | x in sorted[k..] && y in sorted[..k] ensures x.score <= y.score {
      assert ByScore(y) <= ByScore(x);
    }
  }

  /** On a list the server stored, the view is its first ten entries. */
  lemma TopTenOfStored(board: seq<LeaderboardEntry>)
    requires Descending(board)
    ensures TopTen(board) == Take(board, SHOWN)
  {
    DescendingIsSorted(board);
    SortOfSorted(board, ByScore);
  }
}
