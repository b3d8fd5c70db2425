/** The two library behaviours the race code leans on: `Array.prototype.sort`
    with a comparator (stable since ES2019) and `Array.prototype.findIndex` by
    player id, together with what ranking by finish time gets out of them. */
module Sorting {
  import opened RaceTypes

  /** A JavaScript comparator: a negative result sorts `a` before `b`. */
  type Comparator = (Player, Player) -> real

  /** Inserts `x` in front of the first element it may precede. */
  function Insert(x: Player, t: seq<Player>, cmp: Comparator): (r: seq<Player>)
    ensures |r| == |t| + 1
    ensures r[0] == x || (t != [] && r[0] == t[0])
  {
    if t == [] then [x]
    else if cmp(x, t[0]) <= 0.0 then [x] + t
    else [t[0]] + Insert(x, t[1..], cmp)
  }

  /** Stable insertion sort: an element never moves ahead of an earlier one it
      compares equal to. */
  function SortBy(s: seq<Player>, cmp: Comparator): (r: seq<Player>)
    ensures |r| == |s|
  {
    if s == [] then []
    else Insert(s[0], SortBy(s[1..], cmp), cmp)
  }

  /** Inserting adds exactly `x`. */
  lemma {:induction false} InsertPermutes(x: Player, t: seq<Player>, cmp: Comparator)
    ensures multiset(Insert(x, t, cmp)) == multiset(t) + multiset{x}
  {
    if t != [] && cmp(x, t[0]) > 0.0 {
      InsertPermutes(x, t[1..], cmp);
      assert t == [t[0]] + t[1..];
    }
  }

  /** Sorting neither adds nor drops anyone. */
  lemma {:induction false} SortByPermutes(s: seq<Player>, cmp: Comparator)
    ensures multiset(SortBy(s, cmp)) == multiset(s)
  {
    if s != [] {
      SortByPermutes(s[1..], cmp);
      InsertPermutes(s[0], SortBy(s[1..], cmp), cmp);
      assert s == [s[0]] + s[1..];
    }
  }

  /** `cmp(a, b) > 0` forces `cmp(b, a) < 0`: the comparator never claims that
      each of two players must come after the other. */
  ghost predicate Antisymmetric(cmp: Comparator) {
    forall a, b :: cmp(a, b) > 0.0 ==> cmp(b, a) < 0.0
  }

  /** Every element may precede its successor. */
  ghost predicate AdjacentSorted(s: seq<Player>, cmp: Comparator) {
    forall i :: 0 <= i < |s| - 1 ==> cmp(s[i], s[i + 1]) <= 0.0
  }

  lemma {:induction false} InsertSorted(x: Player, t: seq<Player>, cmp: Comparator)
    requires Antisymmetric(cmp) && AdjacentSorted(t, cmp)
    ensures AdjacentSorted(Insert(x, t, cmp), cmp)
  {
    if t != [] && cmp(x, t[0]) > 0.0 {
      InsertSorted(x, t[1..], cmp);
      var rest := Insert(x, t[1..], cmp);
      assert cmp(t[0], rest[0]) <= 0.0 by {
        if rest[0] == x {
          assert cmp(t[0], x) < 0.0;
        } else {
          assert cmp(t[0], t[1]) <= 0.0;
        }
      }
      assert Insert(x, t, cmp) == [t[0]] + rest;
    }
  }

  /** For any antisymmetric comparator the sorted output is in order pair by
      adjacent pair. */
  lemma {:induction false} SortBySorted(s: seq<Player>, cmp: Comparator)
    requires Antisymmetric(cmp)
    ensures AdjacentSorted(SortBy(s, cmp), cmp)
  {
    if s != [] {
      SortBySorted(s[1..], cmp);
      InsertSorted(s[0], SortBy(s[1..], cmp), cmp);
    }
  }

  /** No two entries share an id. */
  ghost predicate DistinctIds(s: seq<Player>) {
    forall i, j :: 0 <= i < j < |s| ==> s[i].id != s[j].id
  }

  lemma {:induction false} InsertDistinct(x: Player, t: seq<Player>, cmp: Comparator)
    requires DistinctIds(t)
    requires forall y :: y in t ==> y.id != x.id
    ensures DistinctIds(Insert(x, t, cmp))
  {
    if t != [] && cmp(x, t[0]) > 0.0 {
      InsertDistinct(x, t[1..], cmp);
      var rest := Insert(x, t[1..], cmp);
      InsertPermutes(x, t[1..], cmp);
      forall y | y in rest
        ensures y.id != t[0].id
      {
        assert multiset(rest)[y] > 0;
        if y != x {
          assert y in t[1..];
        }
      }
      assert Insert(x, t, cmp) == [t[0]] + rest;
    }
  }

  /** Sorting keeps ids distinct. */
  lemma {:induction false} SortByDistinct(s: seq<Player>, cmp: Comparator)
    requires DistinctIds(s)
    ensures DistinctIds(SortBy(s, cmp))
  {
    if s != [] {
      SortByDistinct(s[1..], cmp);
      var t := SortBy(s[1..], cmp);
      SortByPermutes(s[1..], cmp);
      forall y | y in t
        ensures y.id != s[0].id
      {
        assert multiset(t)[y] > 0;
        assert y in s[1..];
      }
      InsertDistinct(s[0], t, cmp);
    }
  }

  /** `findIndex(sp => sp.id === id)`: the first index holding `id`, or -1. */
  function FindIndex(s: seq<Player>, id: string): (r: int)
    ensures -1 <= r < |s|
    ensures r >= 0 ==> s[r].id == id && forall j :: 0 <= j < r ==> s[j].id != id
    ensures r == -1 ==> forall j :: 0 <= j < |s| ==> s[j].id != id
  {
    if s == [] then -1
    else if s[0].id == id then 0
    else
      var k := FindIndex(s[1..], id);
      if k < 0 then -1 else k + 1
  }

  /** With distinct ids, the id held at `i` is found at `i`. */
  lemma FindIndexDistinct(s: seq<Player>, i: int)
    requires DistinctIds(s) && 0 <= i < |s|
    ensures FindIndex(s, s[i].id) == i
  {
    var r := FindIndex(s, s[i].id);
    assert r != -1;
    assert s[r].id == s[i].id;
  }

  /** Sort key used for ranking: ascending finish time. */
  function ByFinish(a: Player, b: Player): real {
    FinishKey(a) - FinishKey(b)
  }

  lemma ByFinishAntisymmetric()
    ensures Antisymmetric(ByFinish)
  {
  }

  lemma {:induction false} AdjacentKeysSorted(t: seq<Player>)
    requires AdjacentSorted(t, ByFinish)
    ensures forall i, j :: 0 <= i <= j < |t| ==> FinishKey(t[i]) <= FinishKey(t[j])
  {
    if |t| > 1 {
      AdjacentKeysSorted(t[1..]);
      forall i, j | 0 <= i <= j < |t|
        ensures FinishKey(t[i]) <= FinishKey(t[j])
      {
        if 0 < i {
          assert t[i] == t[1..][i - 1] && t[j] == t[1..][j - 1];
        } else if 0 < j {
          assert t[1] == t[1..][0] && t[j] == t[1..][j - 1];
          assert ByFinish(t[0], t[1]) <= 0.0;
        }
      }
    }
  }

  /** The list sorted by ascending finish time. */
  function ByFinishTime(s: seq<Player>): (r: seq<Player>)
    ensures |r| == |s| && multiset(r) == multiset(s)
    ensures forall i, j :: 0 <= i <= j < |r| ==> FinishKey(r[i]) <= FinishKey(r[j])
  {
    ByFinishAntisymmetric();
    SortByPermutes(s, ByFinish);
    SortBySorted(s, ByFinish);
    AdjacentKeysSorted(SortBy(s, ByFinish));
    SortBy(s, ByFinish)
  }

  lemma ByFinishTimeDistinct(s: seq<Player>)
    requires DistinctIds(s)
    ensures DistinctIds(ByFinishTime(s))
  {
    SortByDistinct(s, ByFinish);
  }

  /** Ranking by finish time: with distinct ids, every entry is found at a
      distinct index of the sorted list (so `index + 1` runs over 1..|s|), and a
      strictly earlier finish gets a strictly smaller index. */
  lemma RankIndexOrdered(s: seq<Player>, a: Player, b: Player)
    requires DistinctIds(s) && a in s && b in s
    ensures 0 <= FindIndex(ByFinishTime(s), a.id) < |s|
    ensures ByFinishTime(s)[FindIndex(ByFinishTime(s), a.id)] == a
    ensures a != b ==> FindIndex(ByFinishTime(s), a.id) != FindIndex(ByFinishTime(s), b.id)
    ensures FinishKey(a) < FinishKey(b) ==>
              FindIndex(ByFinishTime(s), a.id) < FindIndex(ByFinishTime(s), b.id)
  {
    var t := ByFinishTime(s);
    SortByDistinct(s, ByFinish);
    assert multiset(t)[a] > 0 && multiset(t)[b] > 0;
    var ia :| 0 <= ia < |t| && t[ia] == a;
    var ib :| 0 <= ib < |t| && t[ib] == b;
    assert FindIndex(t, a.id) == ia;
    assert FindIndex(t, b.id) == ib;
  }
}
