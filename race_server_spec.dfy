/** The pure side of the race server (src/pages/api/socket.ts): the player
    records its handlers build, the per-player step of the 60 Hz loop, the
    ready counter's meaning and the rank assignment, with one loop method per
    `forEach` the handlers run over the players record. */
module RaceServerSpec {
  import opened RaceTypes
  import opened GameConfig
  import opened Sorting

  /** The quorum of ready players that starts a countdown. */
  const READY_QUORUM: int := 3
  /** The countdown the server starts from, in seconds. */
  const SERVER_COUNTDOWN: int := 3

  // ---------------------------------------------------------------------------
  // The players record and its key order

  /** No key is listed twice. */
  ghost predicate NoDupKeys(order: seq<string>) {
    forall i, j :: 0 <= i < j < |order| ==> order[i] != order[j]
  }

  /** `order` lists the keys of the players record in insertion order (the
      order `Object.values` visits them) and every record sits under its own id. */
  ghost predicate RoomShape(order: seq<string>, players: map<string, Player>) {
    && NoDupKeys(order)
    && (forall k :: k in players <==> k in order)
    && (forall k :: k in players ==> players[k].id == k)
  }

  /** The room's invariant: the record's shape, and no negative speed. */
  ghost predicate RoomValid(order: seq<string>, players: map<string, Player>) {
    && RoomShape(order, players)
    && (forall k :: k in players ==> players[k].speed >= 0.0)
  }

  /** Replacing a record by one with the same id and a non-negative speed
      keeps the invariant. */
  lemma RoomValidUpdate(order: seq<string>, players: map<string, Player>, k: string, p: Player)
    requires RoomValid(order, players) && k in players && p.id == k && p.speed >= 0.0
    ensures RoomValid(order, players[k := p])
  {
  }

  /** The key order after `players[k] = …`: a new key goes to the end, an
      existing key keeps its place. */
  function KeyOrderAfterSet(order: seq<string>, players: map<string, Player>, k: string): seq<string> {
    if k in players then order else order + [k]
  }

  /** Storing a record under its own id with a non-negative speed keeps the
      invariant, whether the key is new or not. */
  lemma SetValid(order: seq<string>, players: map<string, Player>, k: string, p: Player)
    requires RoomValid(order, players) && p.id == k && p.speed >= 0.0
    ensures RoomValid(KeyOrderAfterSet(order, players, k), players[k := p])
  {
    if k !in players {
      var order' := order + [k];
      forall i, j | 0 <= i < j < |order'|
        ensures order'[i] != order'[j]
      {
        if j == |order| {
          assert order[i] in order;
        }
      }
    }
  }

  /** `delete players[k]` as seen in the key order. */
  function RemoveKey(order: seq<string>, k: string): (r: seq<string>)
  {
    if order == [] then []
    else if order[0] == k then RemoveKey(order[1..], k)
    else [order[0]] + RemoveKey(order[1..], k)
  }

  lemma {:induction false} RemoveKeyProps(order: seq<string>, k: string)
    ensures forall x :: x in RemoveKey(order, k) <==> x in order && x != k
    ensures NoDupKeys(order) ==> NoDupKeys(RemoveKey(order, k))
  {
    if order != [] {
      RemoveKeyProps(order[1..], k);
      if order[0] != k {
        assert NoDupKeys(order) ==> order[0] !in order[1..] && NoDupKeys(order[1..]);
      }
    }
  }

  /** A countdown interval or race loop leaving the list of live timers. */
  function Without(s: seq<int>, k: int): (r: seq<int>)
    requires 0 <= k < |s|
    ensures |r| == |s| - 1
    ensures forall i :: 0 <= i < k ==> r[i] == s[i]
    ensures forall i :: k <= i < |r| ==> r[i] == s[i + 1]
  {
    s[..k] + s[k + 1..]
  }

  // ---------------------------------------------------------------------------
  // The ready counter

  /** The ids of the players in the record whose `isReady` is set. */
  function ReadySet(players: map<string, Player>): set<string> {
    set k | k in players && players[k].isReady
  }

  /** The number of players in the record whose `isReady` is set: what
      `readyPlayersCount` is meant to hold. */
  function ReadyCount(players: map<string, Player>): nat {
    |ReadySet(players)|
  }

  /** 1 when `k` is a ready player of the record, else 0. */
  function ReadyBit(players: map<string, Player>, k: string): int {
    if k in players && players[k].isReady then 1 else 0
  }

  /** Changes that keep the keys and every ready flag keep the count. */
  lemma ReadyCountSameFlags(p1: map<string, Player>, p2: map<string, Player>)
    requires p1.Keys == p2.Keys
    requires forall k :: k in p1 ==> p2[k].isReady == p1[k].isReady
    ensures ReadyCount(p1) == ReadyCount(p2)
  {
    assert ReadySet(p1) == ReadySet(p2);
  }

  /** Storing a record under `k` moves the count by the change of `k`'s flag. */
  lemma ReadyCountUpdate(players: map<string, Player>, k: string, p: Player)
    ensures ReadyCount(players[k := p])
            == ReadyCount(players) - ReadyBit(players, k) + (if p.isReady then 1 else 0)
  {
    ReadyCountRemove(players, k);
    ReadyCountRemove(players[k := p], k);
    assert players[k := p] - {k} == players - {k};
  }

  /** Deleting `k` takes its flag off the count. */
  lemma ReadyCountRemove(players: map<string, Player>, k: string)
    ensures ReadyCount(players - {k}) == ReadyCount(players) - ReadyBit(players, k)
  {
    assert ReadySet(players - {k}) == ReadySet(players) - {k};
  }

  // ---------------------------------------------------------------------------
  // Records built by the handlers

  /** `playerSetup.isReady || false`. */
  function ReadyFlag(setup: PlayerSetupInfo): bool {
    setup.isReady == Some(true)
  }

  /** The record `player_join` stores under the socket id. */
  function JoinedPlayer(id: string, setup: PlayerSetupInfo): Player {
    Player(id, setup.name, setup.color, 0.0, 0.0, 1, None, None, 0, ReadyFlag(setup))
  }

  /** What `restart_game` does to one record: race fields back to their
      initial values, identity and readiness kept. */
  function ResetPlayer(p: Player): (r: Player)
    ensures r.id == p.id && r.name == p.name && r.color == p.color && r.isReady == p.isReady
    ensures r.speed == 0.0 && r.position == 0.0 && r.lap == 1
    ensures r.finishTime.None? && r.rank.None? && r.lastCheckpointPassed == 0
  {
    p.(speed := 0.0, position := 0.0, lap := 1, finishTime := None, rank := None, lastCheckpointPassed := 0)
  }

  /** JavaScript truthiness of `gameState.raceStartTime` (null and 0 are falsy). */
  predicate StartTruthy(start: Option<int>) {
    start.Some? && start.value != 0
  }

  /** A player the race loop still moves: ready and without a finish time. */
  predicate Moving(p: Player) {
    p.isReady && p.finishTime.None?
  }

  /** Where `speed * dt` takes a player from its current position. */
  function MovedTo(p: Player, dt: real): (pos: real)
    ensures p.speed >= 0.0 && dt >= 0.0 ==> pos >= p.position
  {
    p.position + p.speed * dt
  }

  /** One 60 Hz step of one racing player: it moves by `speed * dt`, and on
      reaching the line (with a race start recorded) it is pinned to 1 and
      gets its finish time. Only the position and the finish time change. */
  function TickPlayer(p: Player, dt: real, now: int, start: Option<int>): (r: Player)
    ensures r == p.(position := r.position, finishTime := r.finishTime)
    ensures MovedTo(p, dt) >= 1.0 && StartTruthy(start) ==>
              r.position == 1.0 && r.finishTime == Some((now - start.value) as real)
    ensures !(MovedTo(p, dt) >= 1.0 && StartTruthy(start)) ==>
              r.position == MovedTo(p, dt) && r.finishTime == p.finishTime
    ensures p.speed >= 0.0 && dt >= 0.0 && p.position <= 1.0 ==> r.position >= p.position
    ensures StartTruthy(start) ==> r.position <= 1.0 || r.finishTime != p.finishTime
  {
    var pos := MovedTo(p, dt);
    if pos >= 1.0 && StartTruthy(start) then
      p.(position := 1.0, finishTime := Some((now - start.value) as real))
    else
      p.(position := pos)
  }

  // ---------------------------------------------------------------------------
  // Whole-record updates and the loops that perform them

  function Ticked(players: map<string, Player>, dt: real, now: int, start: Option<int>): map<string, Player> {
    map k | k in players :: if Moving(players[k]) then TickPlayer(players[k], dt, now, start) else players[k]
  }

  /** How the race loop detects a finish, record by record: a moving player
      gets a finish time exactly when its move reaches the line with a truthy
      start time, and is then pinned at 1 with `now - start`; otherwise it
      sits at its moved position. A finished or unready record comes out as
      it went in, so a finish time is stamped once. */
  lemma TickedFinish(players: map<string, Player>, dt: real, now: int, start: Option<int>, k: string)
    requires k in players
    ensures k in Ticked(players, dt, now, start)
    ensures var q, r := players[k], Ticked(players, dt, now, start)[k];
            && (!Moving(q) ==> r == q)
            && (Moving(q) ==> (r.finishTime.Some? <==> MovedTo(q, dt) >= 1.0 && StartTruthy(start)))
            && (Moving(q) && r.finishTime.Some? ==>
                  r.position == 1.0 && r.finishTime == Some((now - start.value) as real))
            && (Moving(q) && r.finishTime.None? ==> r.position == MovedTo(q, dt))
            && r == q.(position := r.position, finishTime := r.finishTime)
  {
  }

  function StartSpeeds(players: map<string, Player>, draws: map<string, real>): map<string, Player>
    requires forall k :: k in players ==> k in draws && 0.0 <= draws[k] < 1.0
  {
    map k | k in players :: if players[k].isReady then players[k].(speed := RandomSpeed(draws[k])) else players[k]
  }

  function ResetAll(players: map<string, Player>): map<string, Player> {
    map k | k in players :: ResetPlayer(players[k])
  }

  /** The first `n` passes of the ranking `forEach`: pass `i` writes rank
      `i + 1` into the record under `sorted[i].id`. */
  function RanksUpTo(players: map<string, Player>, sorted: seq<Player>, n: nat): (r: map<string, Player>)
    requires n <= |sorted|
    ensures r.Keys == players.Keys
    ensures forall k :: k in r ==> r[k] == players[k].(rank := r[k].rank)
  {
    if n == 0 then players
    else
      var m := RanksUpTo(players, sorted, n - 1);
      var id := sorted[n - 1].id;
      if id in m then m[id := m[id].(rank := Some(n))] else m
  }

  /** The ranks the server hands out: every pass of the `forEach`. */
  function WithRanks(players: map<string, Player>, sorted: seq<Player>): map<string, Player> {
    RanksUpTo(players, sorted, |sorted|)
  }

  /** With distinct ids, the record of the player at index `j` ends up with
      rank `j + 1`. */
  lemma {:induction false} RanksUpToAt(players: map<string, Player>, sorted: seq<Player>, n: nat, j: int)
    requires n <= |sorted| && DistinctIds(sorted)
    requires 0 <= j < n && sorted[j].id in players
    ensures RanksUpTo(players, sorted, n)[sorted[j].id].rank == Some(j + 1)
  {
    if j < n - 1 {
      RanksUpToAt(players, sorted, n - 1, j);
    }
  }

  /** A record whose id no pass names keeps its rank. */
  lemma {:induction false} RanksUpToUntouched(players: map<string, Player>, sorted: seq<Player>, n: nat, k: string)
    requires n <= |sorted| && k in players
    requires forall j :: 0 <= j < n ==> sorted[j].id != k
    ensures RanksUpTo(players, sorted, n)[k] == players[k]
  {
    if n > 0 {
      RanksUpToUntouched(players, sorted, n - 1, k);
    }
  }

  /** Ranking touches no id, key, flag or speed. */
  lemma WithRanksValid(order: seq<string>, players: map<string, Player>, sorted: seq<Player>)
    requires RoomValid(order, players)
    ensures RoomValid(order, WithRanks(players, sorted))
    ensures ReadyCount(WithRanks(players, sorted)) == ReadyCount(players)
  {
    ReadyCountSameFlags(players, WithRanks(players, sorted));
  }

  /** A tick touches no id, key, flag or speed. */
  lemma TickedValid(order: seq<string>, players: map<string, Player>, dt: real, now: int, start: Option<int>)
    requires RoomValid(order, players)
    ensures RoomValid(order, Ticked(players, dt, now, start))
    ensures ReadyCount(Ticked(players, dt, now, start)) == ReadyCount(players)
  {
    ReadyCountSameFlags(players, Ticked(players, dt, now, start));
  }

  /** Start speeds lie in the speed range and touch no id, key or flag. */
  lemma StartSpeedsValid(order: seq<string>, players: map<string, Player>, draws: map<string, real>)
    requires RoomValid(order, players)
    requires forall k :: k in players ==> k in draws && 0.0 <= draws[k] < 1.0
    ensures RoomValid(order, StartSpeeds(players, draws))
    ensures ReadyCount(StartSpeeds(players, draws)) == ReadyCount(players)
  {
    ReadyCountSameFlags(players, StartSpeeds(players, draws));
  }

  /** Dropping a record and its key keeps the invariant. */
  lemma RemoveValid(order: seq<string>, players: map<string, Player>, k: string)
    requires RoomValid(order, players)
    ensures RoomValid(RemoveKey(order, k), players - {k})
  {
    RemoveKeyProps(order, k);
  }

  /** The ranks of a finished race: `WithRanks` over the time-sorted filter. */
  function RaceRanks(order: seq<string>, players: map<string, Player>): map<string, Player> {
    WithRanks(players, ByFinishTime(FinishedReady(order, players)))
  }

  /** Every ready player has a finish time. */
  ghost predicate AllReadyFinished(players: map<string, Player>) {
    forall k :: k in players && players[k].isReady ==> players[k].finishTime.Some?
  }

  /** A ready player that has a finish time. */
  predicate FinishedReadyPlayer(p: Player) {
    p.isReady && p.finishTime.Some?
  }

  /** The ready players with a finish time, in key order (the filter both the
      finish handler and the race loop apply to `Object.values(players)`). */
  function FinishedReady(order: seq<string>, players: map<string, Player>): (r: seq<Player>)
    ensures forall p :: p in r ==> FinishedReadyPlayer(p)
  {
    if order == [] then []
    else
      var k := order[|order| - 1];
      FinishedReady(order[..|order| - 1], players)
      + (if k in players && FinishedReadyPlayer(players[k]) then [players[k]] else [])
  }

  /** Under the record's shape, the filter holds exactly the finished ready
      records, each once. */
  lemma {:induction false} FinishedReadyMembers(order: seq<string>, players: map<string, Player>)
    requires NoDupKeys(order)
    requires forall k :: k in players ==> players[k].id == k
    ensures forall p :: p in FinishedReady(order, players) <==>
              p.id in order && p.id in players && players[p.id] == p && FinishedReadyPlayer(p)
    ensures DistinctIds(FinishedReady(order, players))
  {
    if order != [] {
      var front := order[..|order| - 1];
      var k := order[|order| - 1];
      assert NoDupKeys(front);
      FinishedReadyMembers(front, players);
      assert order == front + [k];
      assert k !in front;
      var f := FinishedReady(front, players);
      forall p | p in f
        ensures p.id != k
      {
      }
    }
  }

  /** After ranking the filtered, time-sorted records, finished ready players
      hold ranks 1..k, no two the same, and an earlier finish gets a smaller
      rank. */
  lemma RanksFollowFinishTimes(order: seq<string>, players: map<string, Player>, a: string, b: string)
    requires RoomShape(order, players)
    requires a in players && b in players
    requires FinishedReadyPlayer(players[a]) && FinishedReadyPlayer(players[b])
    ensures RaceRanks(order, players)[a].rank.Some?
    ensures 1 <= RankKey(RaceRanks(order, players)[a]) <= |FinishedReady(order, players)|
    ensures a != b ==> RaceRanks(order, players)[a].rank != RaceRanks(order, players)[b].rank
    ensures FinishKey(players[a]) < FinishKey(players[b]) ==>
              RankKey(RaceRanks(order, players)[a]) < RankKey(RaceRanks(order, players)[b])
  {
    var fin := FinishedReady(order, players);
    var sorted := ByFinishTime(fin);
    var ia, ib := FindIndex(sorted, a), FindIndex(sorted, b);
    FinishedReadyMembers(order, players);
    assert && 0 <= ia < |fin| && 0 <= ib < |fin| && sorted[ia].id == a && sorted[ib].id == b
           && (a != b ==> ia != ib)
           && (FinishKey(players[a]) < FinishKey(players[b]) ==> ia < ib) by {
      assert players[a] in fin && players[b] in fin && DistinctIds(fin);
      RankIndexOrdered(fin, players[a], players[b]);
      RankIndexOrdered(fin, players[b], players[a]);
    }
    ByFinishTimeDistinct(fin);
    RanksUpToAt(players, sorted, |sorted|, ia);
    RanksUpToAt(players, sorted, |sorted|, ib);
  }

  /** Records that are not finished ready players keep their rank. */
  lemma UnfinishedKeepRank(order: seq<string>, players: map<string, Player>, k: string)
    requires RoomShape(order, players)
    requires k in players && !FinishedReadyPlayer(players[k])
    ensures RaceRanks(order, players)[k] == players[k]
  {
    var fin := FinishedReady(order, players);
    FinishedReadyMembers(order, players);
    var sorted := ByFinishTime(fin);
    forall i | 0 <= i < |sorted|
      ensures sorted[i].id != k
    {
      assert multiset(sorted)[sorted[i]] > 0;
      assert sorted[i] in fin;
    }
    RanksUpToUntouched(players, sorted, |sorted|, k);
  }

  /** The `forEach` of the finish handler: collects the finished ready players
      in key order and notes whether any ready player is still racing. */
  method CollectFinished(order: seq<string>, players: map<string, Player>)
    returns (finished: seq<Player>, allFinished: bool)
    requires RoomShape(order, players)
    ensures finished == FinishedReady(order, players)
    ensures allFinished <==> AllReadyFinished(players)
  {
    finished := [];
    allFinished := true;
    for i := 0 to |order|
      invariant finished == FinishedReady(order[..i], players)
      invariant allFinished <==>
                  forall j :: 0 <= j < i ==> (players[order[j]].isReady ==> players[order[j]].finishTime.Some?)
    {
      var p := players[order[i]];
      assert order[..i + 1][..i] == order[..i];
      if p.isReady {
        if p.finishTime.Some? {
          finished := finished + [p];
        } else {
          allFinished := false;
        }
      }
    }
    assert order[..|order|] == order;
  }

  /** Ranks the finished ready players of a room and reports whether every
      ready player has finished; ids, keys and flags are untouched. */
  method RankRoom(order: seq<string>, players: map<string, Player>)
    returns (ranked: map<string, Player>, allFinished: bool)
    requires RoomValid(order, players)
    ensures ranked == RaceRanks(order, players)
    ensures allFinished <==> AllReadyFinished(players)
    ensures RoomValid(order, ranked) && ReadyCount(ranked) == ReadyCount(players)
  {
    var finished;
    finished, allFinished := CollectFinished(order, players);
    ranked := AssignRanks(players, ByFinishTime(finished));
    WithRanksValid(order, players, ByFinishTime(finished));
  }

  /** The `forEach` that writes `rank = index + 1` into the record of every
      player of `sorted`. */
  method AssignRanks(players: map<string, Player>, sorted: seq<Player>)
    returns (updated: map<string, Player>)
    ensures updated == WithRanks(players, sorted)
  {
    updated := players;
    for i := 0 to |sorted|
      invariant updated == RanksUpTo(players, sorted, i)
    {
      var id := sorted[i].id;
      if id in updated {
        updated := updated[id := updated[id].(rank := Some(i + 1))];
      }
    }
  }

  /** The record and the `allFinished` flag after the race loop has visited
      the keys `ks` in order. */
  function TickLoop(players: map<string, Player>, ks: seq<string>, dt: real, now: int, start: Option<int>)
    : (r: (map<string, Player>, bool))
    ensures r.0.Keys == players.Keys
    decreases |ks|
  {
    if ks == [] then (players, true)
    else
      var prev := TickLoop(players, ks[..|ks| - 1], dt, now, start);
      var k := ks[|ks| - 1];
      if k in prev.0 && Moving(prev.0[k]) then (prev.0[k := TickPlayer(prev.0[k], dt, now, start)], false)
      else prev
  }

  /** Visiting distinct keys in order steps each visited moving player once,
      leaves the others alone, and clears the flag exactly when a visited key
      names a moving player. */
  lemma {:induction false} TickLoopAt(players: map<string, Player>, ks: seq<string>, dt: real, now: int, start: Option<int>)
    requires NoDupKeys(ks)
    ensures forall k :: k in players ==>
              TickLoop(players, ks, dt, now, start).0[k]
              == if k in ks then Ticked(players, dt, now, start)[k] else players[k]
    ensures TickLoop(players, ks, dt, now, start).1
            <==> forall k :: k in ks && k in players ==> !Moving(players[k])
    decreases |ks|
  {
    if ks != [] {
      var init := ks[..|ks| - 1];
      var last := ks[|ks| - 1];
      assert ks == init + [last];
      assert NoDupKeys(init) by {
        forall a, b | 0 <= a < b < |init| ensures init[a] != init[b] {
          assert init[a] == ks[a] && init[b] == ks[b];
        }
      }
      assert last !in init by {
        forall a | 0 <= a < |init| ensures init[a] != last {
          assert init[a] == ks[a];
        }
      }
      TickLoopAt(players, init, dt, now, start);
    }
  }

  /** Visiting every key of the record is the whole race-loop step. */
  lemma TickLoopAll(order: seq<string>, players: map<string, Player>, dt: real, now: int, start: Option<int>)
    requires RoomShape(order, players)
    ensures TickLoop(players, order, dt, now, start).0 == Ticked(players, dt, now, start)
    ensures TickLoop(players, order, dt, now, start).1 <==> AllReadyFinished(players)
  {
    TickLoopAt(players, order, dt, now, start);
  }

  /** The key the loop visits next has not been stepped yet. */
  lemma TickLoopUnvisited(order: seq<string>, players: map<string, Player>, i: int, dt: real, now: int, start: Option<int>)
    requires RoomShape(order, players) && 0 <= i < |order|
    ensures order[i] in players
    ensures TickLoop(players, order[..i], dt, now, start).0[order[i]] == players[order[i]]
  {
    var pre := order[..i];
    assert NoDupKeys(pre) by {
      forall a, b | 0 <= a < b < |pre| ensures pre[a] != pre[b] {
        assert pre[a] == order[a] && pre[b] == order[b];
      }
    }
    assert order[i] !in pre by {
      forall a | 0 <= a < |pre| ensures pre[a] != order[i] {
        assert pre[a] == order[a];
      }
    }
    TickLoopAt(players, pre, dt, now, start);
  }

  /** The race loop's `forEach`: every ready player without a finish time
      takes one step, and the loop notes whether any ready player was still
      racing. */
  method TickPlayers(order: seq<string>, players: map<string, Player>, dt: real, now: int, start: Option<int>)
    returns (updated: map<string, Player>, allFinished: bool)
    requires RoomShape(order, players)
    ensures updated == Ticked(players, dt, now, start)
    ensures allFinished <==> AllReadyFinished(players)
  {
    updated := players;
    allFinished := true;
    for i := 0 to |order|
      invariant (updated, allFinished) == TickLoop(players, order[..i], dt, now, start)
    {
      var id := order[i];
      assert id in updated && updated[id] == players[id] by {
        TickLoopUnvisited(order, players, i, dt, now, start);
      }
      assert TickLoop(players, order[..i + 1], dt, now, start)
             == if Moving(updated[id]) then (updated[id := TickPlayer(updated[id], dt, now, start)], false)
                else (updated, allFinished) by {
        assert order[..i + 1][..i] == order[..i];
      }
      var p := updated[id];
      if p.isReady && p.finishTime.None? {
        allFinished := false;
        updated := updated[id := TickPlayer(p, dt, now, start)];
      }
    }
    assert order[..|order|] == order;
    TickLoopAll(order, players, dt, now, start);
  }

  /** The countdown's `forEach`: a fresh random speed for every ready player. */
  method AssignStartSpeeds(order: seq<string>, players: map<string, Player>, draws: map<string, real>)
    returns (updated: map<string, Player>)
    requires RoomShape(order, players)
    requires forall k :: k in players ==> k in draws && 0.0 <= draws[k] < 1.0
    ensures updated == StartSpeeds(players, draws)
    ensures forall k :: k in updated && updated[k].isReady ==> MIN_SPEED <= updated[k].speed < MAX_SPEED
  {
    updated := players;
    for i := 0 to |order|
      invariant updated.Keys == players.Keys
      invariant forall k :: k in updated ==>
                  updated[k] == if k in order[..i] then StartSpeeds(players, draws)[k] else players[k]
    {
      var id := order[i];
      assert order[..i + 1] == order[..i] + [id];
      assert id in updated && updated[id] == players[id] by {
        assert id !in order[..i];
      }
      var p := updated[id];
      if p.isReady {
        updated := updated[id := p.(speed := RandomSpeed(draws[id]))];
      }
    }
    assert order[..|order|] == order;
    assert updated == StartSpeeds(players, draws) by {
      assert forall k :: k in updated ==> updated[k] == StartSpeeds(players, draws)[k];
    }
  }

  /** The restart handler's `forEach` over `Object.keys(players)`. */
  method ResetPlayers(order: seq<string>, players: map<string, Player>)
    returns (updated: map<string, Player>)
    requires RoomShape(order, players)
    ensures updated == ResetAll(players)
    ensures RoomShape(order, updated)
    ensures ReadyCount(updated) == ReadyCount(players)
  {
    updated := players;
    for i := 0 to |order|
      invariant updated.Keys == players.Keys
      invariant forall k :: k in updated ==>
                  updated[k] == if k in order[..i] then ResetPlayer(players[k]) else players[k]
    {
      var id := order[i];
      assert order[..i + 1] == order[..i] + [id];
      assert id in updated && updated[id] == players[id] by {
        assert id !in order[..i];
      }
      updated := updated[id := ResetPlayer(updated[id])];
    }
    assert order[..|order|] == order;
    assert updated == ResetAll(players) by {
      assert forall k :: k in updated ==> updated[k] == ResetAll(players)[k];
    }
    ReadyCountSameFlags(players, updated);
  }

  // ---------------------------------------------------------------------------
  // The record work of `player_finish` and of one race-loop firing

  /** The guard of `player_finish`: a known player, a race running with a
      (truthy) start time, and no (truthy) finish time yet. */
  predicate FinishAllowed(players: map<string, Player>, phase: Phase, start: Option<int>, sid: string) {
    sid in players && phase == Racing && !FinishTruthy(players[sid]) && StartTruthy(start)
  }

  /** The record with the finish time of `sid` stamped at `now`. */
  function Stamped(players: map<string, Player>, sid: string, start: Option<int>, now: int): map<string, Player> {
    if sid in players && start.Some? then
      players[sid := players[sid].(finishTime := Some((now - start.value) as real))]
    else players
  }

  /** `player_finish` on the record: when allowed, the finish time is stamped
      (the position stays where it was), every finished ready player is
      ranked, and the phase becomes results once no ready player lacks a
      finish time. Otherwise nothing changes. */
  method FinishRecord(order: seq<string>, players: map<string, Player>, phase: Phase, start: Option<int>,
                      sid: string, now: int)
    returns (updated: map<string, Player>, newPhase: Phase)
    requires RoomValid(order, players)
    ensures !FinishAllowed(players, phase, start, sid) ==> updated == players && newPhase == phase
    ensures FinishAllowed(players, phase, start, sid) ==>
              && updated == RaceRanks(order, Stamped(players, sid, start, now))
              && newPhase == if AllReadyFinished(Stamped(players, sid, start, now)) then Results else Racing
    ensures FinishAllowed(players, phase, start, sid) ==>
              && updated[sid].finishTime == Some((now - start.value) as real)
              && updated[sid].position == players[sid].position
    ensures RoomValid(order, updated) && ReadyCount(updated) == ReadyCount(players)
  {
    updated, newPhase := players, phase;
    if FinishAllowed(players, phase, start, sid) {
      var p := players[sid].(finishTime := Some((now - start.value) as real));
      var stamped := Stamped(players, sid, start, now);
      assert stamped == players[sid := p];
      ReadyCountUpdate(players, sid, p);
      RoomValidUpdate(order, players, sid, p);
      var allFinished;
      updated, allFinished := RankRoom(order, stamped);
      newPhase := if allFinished then Results else Racing;
    }
  }

  /** One race-loop firing on the record while racing: every moving player
      steps by `dt`; a firing that finds no ready player still moving moves
      nobody and ranks the finished ready players instead. */
  method RaceStep(order: seq<string>, players: map<string, Player>, dt: real, now: int, start: Option<int>)
    returns (updated: map<string, Player>, allFinished: bool)
    requires RoomValid(order, players)
    ensures allFinished <==> AllReadyFinished(players)
    ensures allFinished ==> updated == RaceRanks(order, players)
    ensures !allFinished ==> updated == Ticked(players, dt, now, start)
    ensures RoomValid(order, updated) && ReadyCount(updated) == ReadyCount(players)
    ensures dt >= 0.0 ==>
              forall k :: k in players && players[k].position <= 1.0 ==> updated[k].position >= players[k].position
  {
    var ticked;
    ticked, allFinished := TickPlayers(order, players, dt, now, start);
    TickedValid(order, players, dt, now, start);
    if allFinished {
      var done;
      updated, done := RankRoom(order, players);
    } else {
      updated := ticked;
    }
  }

  /** The seconds between a loop's last firing and `now` (milliseconds). */
  function Elapsed(last: int, now: int): (dt: real)
    ensures now >= last ==> dt >= 0.0
  {
    (now - last) as real / 1000.0
  }

  /** One firing of race loop `k`, whose last firing was at `loops[k]`:
      outside racing the loop clears itself; otherwise it runs the step of
      `RaceStep` with the elapsed seconds, and either ends the race (results,
      loop cleared) or records `now` as the loop's last firing. */
  method LoopFiring(order: seq<string>, players: map<string, Player>, phase: Phase, loops: seq<int>,
                    k: int, now: int, start: Option<int>)
    returns (newPlayers: map<string, Player>, newPhase: Phase, newLoops: seq<int>)
    requires RoomValid(order, players) && 0 <= k < |loops|
    ensures phase != Racing ==> newPhase == phase && newPlayers == players && newLoops == Without(loops, k)
    ensures phase == Racing && AllReadyFinished(players) ==>
              newPhase == Results && newPlayers == RaceRanks(order, players) && newLoops == Without(loops, k)
    ensures phase == Racing && !AllReadyFinished(players) ==>
              && newPhase == Racing
              && newPlayers == Ticked(players, Elapsed(loops[k], now), now, start)
              && newLoops == loops[k := now]
    ensures RoomValid(order, newPlayers) && ReadyCount(newPlayers) == ReadyCount(players)
    ensures now >= loops[k] ==>
              forall id :: id in players && players[id].position <= 1.0 ==>
                id in newPlayers && newPlayers[id].position >= players[id].position
  {
    if phase != Racing {
      newPlayers, newPhase, newLoops := players, phase, Without(loops, k);
    } else {
      var dt := Elapsed(loops[k], now);
      var allFinished;
      newPlayers, allFinished := RaceStep(order, players, dt, now, start);
      if allFinished {
        newPhase, newLoops := Results, Without(loops, k);
      } else {
        newPhase, newLoops := Racing, loops[k := now];
      }
    }
  }

  /** What `player_ready` does to the records and the counter of a connected
      player: the flag is overwritten, and the counter moves only when the
      flag actually flips, so it keeps its distance to the true count. */
  method ReadyRecord(order: seq<string>, players: map<string, Player>, count: int, sid: string, isReady: bool)
    returns (updated: map<string, Player>, newCount: int)
    requires RoomValid(order, players) && sid in players
    ensures updated == players[sid := players[sid].(isReady := isReady)]
    ensures newCount == count + (if !players[sid].isReady && isReady then 1
                                 else if players[sid].isReady && !isReady then -1
                                 else 0)
    ensures players[sid].isReady == isReady ==> updated == players && newCount == count
    ensures RoomValid(order, updated)
    ensures newCount - ReadyCount(updated) == count - ReadyCount(players)
  {
    var p := players[sid].(isReady := isReady);
    ReadyCountUpdate(players, sid, p);
    RoomValidUpdate(order, players, sid, p);
    updated := players[sid := p];
    newCount := count;
    if !players[sid].isReady && isReady {
      newCount := count + 1;
    } else if players[sid].isReady && !isReady {
      newCount := count - 1;
    }
  }

  /** What `disconnect` does to the records and the counter: the entry goes,
      and a ready player takes one off the counter, which therefore keeps its
      distance to the true count. */
  method LeaveRecord(order: seq<string>, players: map<string, Player>, count: int, sid: string)
    returns (newOrder: seq<string>, updated: map<string, Player>, newCount: int)
    requires RoomValid(order, players) && sid in players
    ensures updated == players - {sid} && newOrder == RemoveKey(order, sid)
    ensures sid !in updated && newCount == count - ReadyBit(players, sid)
    ensures RoomValid(newOrder, updated)
    ensures newCount - ReadyCount(updated) == count - ReadyCount(players)
  {
    ReadyCountRemove(players, sid);
    RemoveValid(order, players, sid);
    newOrder, updated := RemoveKey(order, sid), players - {sid};
    newCount := if players[sid].isReady then count - 1 else count;
  }
}
