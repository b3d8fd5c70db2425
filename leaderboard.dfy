/** The results table: a sorted copy of the players, the rank column and the
    winner banner (src/components/game/leaderboard.tsx). */
module Leaderboard {
  import opened RaceTypes
  import opened Sorting

  /** The table's comparator: by rank when both are ranked, finishers before
      non-finishers, then by finish time, and otherwise by position, furthest
      first. */
  function Compare(a: Player, b: Player): real {
    if HasRank(a) && HasRank(b) then (RankKey(a) - RankKey(b)) as real
    else if a.finishTime.None? && b.finishTime.Some? then 1.0
    else if a.finishTime.Some? && b.finishTime.None? then -1.0
    else if FinishTruthy(a) && FinishTruthy(b) then FinishKey(a) - FinishKey(b)
    else b.position - a.position
  }

  lemma CompareAntisymmetric()
    ensures Antisymmetric(Compare)
  {
  }

  /** `[...players].sort(Compare)`: a sorted copy, the input is a value and
      stays as it was. Each adjacent pair of rows obeys the comparator's rules. */
  function SortedPlayers(players: seq<Player>): (r: seq<Player>)
    ensures |r| == |players| && multiset(r) == multiset(players)
    ensures forall i ::
              (0 <= i < |r| - 1 && HasRank(r[i]) && HasRank(r[i + 1])) ==>
              RankKey(r[i]) <= RankKey(r[i + 1])
    ensures forall i ::
              (0 <= i < |r| - 1 && !(HasRank(r[i]) && HasRank(r[i + 1]))
               && r[i].finishTime.None?) ==>
              r[i + 1].finishTime.None?
    ensures forall i ::
              (0 <= i < |r| - 1 && !(HasRank(r[i]) && HasRank(r[i + 1]))
               && FinishTruthy(r[i]) && FinishTruthy(r[i + 1])) ==>
              FinishKey(r[i]) <= FinishKey(r[i + 1])
    ensures forall i ::
              (0 <= i < |r| - 1 && !(HasRank(r[i]) && HasRank(r[i + 1]))
               && r[i].finishTime.Some? == r[i + 1].finishTime.Some?
               && !(FinishTruthy(r[i]) && FinishTruthy(r[i + 1]))) ==>
              r[i].position >= r[i + 1].position
  {
    CompareAntisymmetric();
    SortByPermutes(players, Compare);
    SortBySorted(players, Compare);
    SortBy(players, Compare)
  }

  /** The rank column: `player.rank || index + 1`. */
  function DisplayedRank(sorted: seq<Player>, i: int): int
    requires 0 <= i < |sorted|
  {
    if HasRank(sorted[i]) then RankKey(sorted[i]) else i + 1
  }

  /** The winner banner appears when the first row has rank 1. */
  predicate ShowsWinner(sorted: seq<Player>) {
    |sorted| > 0 && sorted[0].rank == Some(1)
  }

  lemma {:induction false} AdjacentRanksPairwise(r: seq<Player>)
    requires forall i :: 0 <= i < |r| - 1 ==> RankKey(r[i]) <= RankKey(r[i + 1])
    ensures forall i, j :: 0 <= i <= j < |r| ==> RankKey(r[i]) <= RankKey(r[j])
  {
    if |r| > 1 {
      AdjacentRanksPairwise(r[1..]);
      forall i, j | 0 <= i <= j < |r|
        ensures RankKey(r[i]) <= RankKey(r[j])
      {
        if 0 < i {
          assert r[i] == r[1..][i - 1] && r[j] == r[1..][j - 1];
        } else if 0 < j {
          assert r[1] == r[1..][0] && r[j] == r[1..][j - 1];
        }
      }
    }
  }

  /** When every player holds a rank, the whole table is in ascending rank
      order, not just each adjacent pair. */
  lemma RankedTableAscending(players: seq<Player>)
    requires forall p :: p in players ==> HasRank(p)
    ensures forall i, j :: 0 <= i <= j < |players| ==>
              RankKey(SortedPlayers(players)[i]) <= RankKey(SortedPlayers(players)[j])
  {
    var r := SortedPlayers(players);
    forall i | 0 <= i < |r|
      ensures HasRank(r[i])
    {
      assert multiset(r)[r[i]] > 0;
      assert r[i] in players;
    }
    AdjacentRanksPairwise(r);
  }

  /** No two players hold the same rank, and every rank lies in 1..n. */
  ghost predicate RanksOneToN(players: seq<Player>) {
    && (forall p :: p in players ==> p.rank.Some? && 1 <= RankKey(p) <= |players|)
    && (forall i, j :: 0 <= i < j < |players| ==> players[i].rank != players[j].rank)
  }

  lemma {:induction false} NoDupsCounts(s: seq<Player>)
    requires forall i, j :: 0 <= i < j < |s| ==> s[i] != s[j]
    ensures forall x :: multiset(s)[x] <= 1
  {
    if s != [] {
      NoDupsCounts(s[1..]);
      assert s == [s[0]] + s[1..];
      assert s[0] !in s[1..];
    }
  }

  lemma {:induction false} CountsNoDups(s: seq<Player>)
    requires forall x :: multiset(s)[x] <= 1
    ensures forall i, j :: 0 <= i < j < |s| ==> s[i] != s[j]
  {
    if s != [] {
      assert s == [s[0]] + s[1..];
      forall x
        ensures multiset(s[1..])[x] <= 1
      {
        assert multiset(s)[x] == multiset([s[0]])[x] + multiset(s[1..])[x];
      }
      CountsNoDups(s[1..]);
      assert multiset(s)[s[0]] == 1 + multiset(s[1..])[s[0]];
      assert s[0] !in s[1..];
      forall i, j | 0 <= i < j < |s|
        ensures s[i] != s[j]
      {
        if 0 < i {
          assert s[i] == s[1..][i - 1] && s[j] == s[1..][j - 1];
        } else {
          assert s[j] in s[1..];
        }
      }
    }
  }

  lemma {:induction false} FillLower(xs: seq<int>, i: int)
    requires 0 <= i < |xs|
    requires forall k :: 0 <= k < |xs| ==> 1 <= xs[k]
    requires forall k :: 0 <= k < |xs| - 1 ==> xs[k] < xs[k + 1]
    ensures i + 1 <= xs[i]
  {
    if 0 < i {
      FillLower(xs, i - 1);
    }
  }

  lemma {:induction false} FillUpper(xs: seq<int>, i: int)
    requires 0 <= i < |xs|
    requires forall k :: 0 <= k < |xs| ==> xs[k] <= |xs|
    requires forall k :: 0 <= k < |xs| - 1 ==> xs[k] < xs[k + 1]
    ensures xs[i] <= i + 1
    decreases |xs| - i
  {
    if i < |xs| - 1 {
      FillUpper(xs, i + 1);
    }
  }

  /** The sorted copy of a table whose ranks are 1..n holds the same players,
      so no rank twice. */
  lemma SortedRanksDistinct(players: seq<Player>)
    requires RanksOneToN(players)
    ensures RanksOneToN(SortedPlayers(players))
  {
    var r := SortedPlayers(players);
    forall p | p in r
      ensures p in players
    {
      assert multiset(r)[p] > 0;
    }
    NoDupsCounts(players);
    CountsNoDups(r);
    forall i, j | 0 <= i < j < |r|
      ensures r[i].rank != r[j].rank
    {
      assert r[i] in players && r[j] in players;
      var a :| 0 <= a < |players| && players[a] == r[i];
      var b :| 0 <= b < |players| && players[b] == r[j];
      assert a != b;
    }
  }

  /** A table in ascending rank order whose ranks are exactly 1..n holds
      rank i + 1 in row i. */
  lemma RanksFillRows(r: seq<Player>)
    requires RanksOneToN(r)
    requires forall i :: 0 <= i < |r| - 1 ==> RankKey(r[i]) <= RankKey(r[i + 1])
    ensures forall i :: 0 <= i < |r| ==> r[i].rank == Some(i + 1)
  {
    var xs := seq(|r|, k requires 0 <= k < |r| => RankKey(r[k]));
    forall k | 0 <= k < |xs|
      ensures 1 <= xs[k] <= |xs|
    {
      assert r[k] in r;
    }
    forall k | 0 <= k < |xs| - 1
      ensures xs[k] < xs[k + 1]
    {
      assert r[k].rank != r[k + 1].rank;
      assert r[k] in r && r[k + 1] in r;
    }
    forall i | 0 <= i < |r|
      ensures r[i].rank == Some(i + 1)
    {
      FillLower(xs, i);
      FillUpper(xs, i);
      assert r[i] in r;
    }
  }

  /** When the ranks are exactly 1..n (as after a completed race), the table
      shows row i with rank i + 1 and the winner banner appears. */
  lemma FullRankingDisplayed(players: seq<Player>)
    requires RanksOneToN(players)
    ensures forall i :: 0 <= i < |players| ==>
              SortedPlayers(players)[i].rank == Some(i + 1)
              && DisplayedRank(SortedPlayers(players), i) == i + 1
    ensures |players| > 0 ==> ShowsWinner(SortedPlayers(players))
  {
    var r := SortedPlayers(players);
    SortedRanksDistinct(players);
    RankedTableAscending(players);
    RanksFillRows(r);
  }
}
