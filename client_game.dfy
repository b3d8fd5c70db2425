/** The single-screen game of the browser page (src/app/page.tsx): local
    players are created from the setup form, a countdown runs, every animation
    frame moves the cars and records checkpoints and finishes, and once all are
    in, ranks are assigned by finish time for the results table. */
module ClientGame {
  import opened RaceTypes
  import opened GameConfig
  import opened Sorting
  import Leaderboard

  // ---------------------------------------------------------------------------
  // Player ids `player1`, `player2`, ...

  function DigitChar(d: int): char
    requires 0 <= d < 10
  {
    ('0' as int + d) as char
  }

  function DigitValue(c: char): nat {
    if '0' <= c <= '9' then c as int - '0' as int else 0
  }

  /** The decimal text of `n`, as a template literal writes it. */
  function NatToString(n: nat): (s: string)
    ensures |s| >= 1
  {
    if n < 10 then [DigitChar(n)] else NatToString(n / 10) + [DigitChar(n % 10)]
  }

  /** Reads a decimal text back. */
  function ParseNat(s: string): nat {
    if s == [] then 0 else ParseNat(s[..|s| - 1]) * 10 + DigitValue(s[|s| - 1])
  }

  lemma {:induction false} ParseNatToString(n: nat)
    ensures ParseNat(NatToString(n)) == n
  {
    var s := NatToString(n);
    if n < 10 {
      assert s[..|s| - 1] == [];
    } else {
      ParseNatToString(n / 10);
      assert s[..|s| - 1] == NatToString(n / 10);
    }
  }

  /** `player${index + 1}`. */
  function PlayerId(index: nat): string {
    "player" + NatToString(index + 1)
  }

  /** Different setup entries get different ids. */
  lemma PlayerIdInjective(i: nat, j: nat)
    ensures PlayerId(i) == PlayerId(j) ==> i == j
  {
    if PlayerId(i) == PlayerId(j) {
      assert PlayerId(i)[6..] == NatToString(i + 1);
      assert PlayerId(j)[6..] == NatToString(j + 1);
      ParseNatToString(i + 1);
      ParseNatToString(j + 1);
    }
  }

  // ---------------------------------------------------------------------------
  // The roster built by handleSetupComplete

  /** The record built for setup entry `index`: the local Player literal has no
      `isReady`, which reads as false. */
  function SetupPlayer(index: nat, info: PlayerSetupInfo): Player {
    Player(PlayerId(index), info.name, info.color, 0.0, 0.0, 1, None, None, 0, false)
  }

  /** `playerInfos.map(...)`: one player per entry, named and coloured as the
      entry says, on the start line, without speed, finish time or rank. */
  function InitialPlayers(infos: seq<PlayerSetupInfo>): (r: seq<Player>)
    ensures |r| == |infos|
    ensures forall i :: 0 <= i < |r| ==>
              && r[i].id == PlayerId(i) && r[i].name == infos[i].name && r[i].color == infos[i].color
              && r[i].speed == 0.0 && r[i].position == 0.0 && r[i].lap == 1
              && r[i].finishTime.None? && r[i].rank.None? && r[i].lastCheckpointPassed == 0
  {
    seq(|infos|, i requires 0 <= i < |infos| => SetupPlayer(i, infos[i]))
  }

  lemma InitialIdsDistinct(infos: seq<PlayerSetupInfo>)
    ensures DistinctIds(InitialPlayers(infos))
  {
    var r := InitialPlayers(infos);
    forall i, j | 0 <= i < j < |r|
      ensures r[i].id != r[j].id
    {
      PlayerIdInjective(i, j);
    }
  }

  /** What the page relies on about its list of players: ids are distinct,
      speeds are never negative, no car is past the line and a finished car
      sits on it. */
  ghost predicate Roster(players: seq<Player>) {
    && DistinctIds(players)
    && (forall i :: 0 <= i < |players| ==> players[i].speed >= 0.0)
    && (forall i :: 0 <= i < |players| ==> players[i].position <= RACE_LAPS as real)
    && (forall i :: 0 <= i < |players| && players[i].finishTime.Some? ==>
          players[i].position == RACE_LAPS as real)
  }

  lemma InitialRoster(infos: seq<PlayerSetupInfo>)
    ensures Roster(InitialPlayers(infos))
  {
    InitialIdsDistinct(infos);
  }

  // ---------------------------------------------------------------------------
  // Start of the race

  /** `prevPlayers.map((p, idx) => ({ ...p, speed: initialSpeeds[idx] }))`. */
  function WithSpeeds(players: seq<Player>, speeds: seq<real>): (r: seq<Player>)
    requires |speeds| == |players|
    ensures |r| == |players|
    ensures forall i :: 0 <= i < |r| ==> r[i] == players[i].(speed := speeds[i])
  {
    seq(|players|, i requires 0 <= i < |players| => players[i].(speed := speeds[i]))
  }

  lemma WithSpeedsRoster(players: seq<Player>, speeds: seq<real>)
    requires Roster(players) && |speeds| == |players|
    requires forall i :: 0 <= i < |speeds| ==> speeds[i] >= 0.0
    ensures Roster(WithSpeeds(players, speeds))
  {
    var r := WithSpeeds(players, speeds);
    forall i, j | 0 <= i < j < |r|
      ensures r[i].id != r[j].id
    {
      assert r[i].id == players[i].id && r[j].id == players[j].id;
    }
  }

  // ---------------------------------------------------------------------------
  // One animation frame for one player

  /** The checkpoint test of the frame: the car was before `cp`, is now at or
      past it, and has not yet recorded it or a later one. */
  predicate Crosses(p: Player, newPosition: real, cp: Checkpoint) {
    p.position < cp.position && newPosition >= cp.position && p.lastCheckpointPassed < cp.id
  }

  /** Index of the first checkpoint of `cps` that the move crosses, if any. */
  function FirstCrossing(cps: seq<Checkpoint>, p: Player, newPosition: real): (r: Option<nat>)
    ensures r.Some? ==> r.value < |cps|
  {
    if cps == [] then None
    else if Crosses(p, newPosition, cps[0]) then Some(0)
    else
      match FirstCrossing(cps[1..], p, newPosition)
      case None => None
      case Some(k) => Some(k + 1)
  }

  /** The index found is the first whose checkpoint the move crosses; none is
      found exactly when the move crosses none. */
  lemma {:induction false} FirstCrossingSpec(cps: seq<Checkpoint>, p: Player, newPosition: real)
    ensures var r := FirstCrossing(cps, p, newPosition);
            && (r.Some? ==> Crosses(p, newPosition, cps[r.value]))
            && (r.Some? ==> forall j :: 0 <= j < r.value ==> !Crosses(p, newPosition, cps[j]))
            && (r.None? ==> forall j :: 0 <= j < |cps| ==> !Crosses(p, newPosition, cps[j]))
  {
    if cps != [] && !Crosses(p, newPosition, cps[0]) {
      FirstCrossingSpec(cps[1..], p, newPosition);
      var r := FirstCrossing(cps, p, newPosition);
      forall j | 0 < j < |cps| && (r.None? || j < r.value)
        ensures !Crosses(p, newPosition, cps[j])
      {
        assert cps[j] == cps[1..][j - 1];
      }
    }
  }

  /** `for (const cp of CHECKPOINTS) { if (...) { ...; break; } }`: the scan
      stops at the first checkpoint crossed. */
  method FindCrossing(p: Player, newPosition: real) returns (found: Option<nat>)
    ensures found == FirstCrossing(CHECKPOINTS, p, newPosition)
  {
    found := None;
    var i := 0;
    while i < |CHECKPOINTS|
      invariant 0 <= i <= |CHECKPOINTS|
      invariant forall j :: 0 <= j < i ==> !Crosses(p, newPosition, CHECKPOINTS[j])
    {
      if Crosses(p, newPosition, CHECKPOINTS[i]) {
        found := Some(i);
        break;
      }
      i := i + 1;
    }
    FirstCrossingSpec(CHECKPOINTS, p, newPosition);
  }

  /** The finish time: `performance.now() - raceStartTimeRef.current` when a
      start time is recorded (0 counts as none), else 0. */
  function ClientFinishTime(clock: real, start: Option<real>): real {
    if start.Some? && start.value != 0.0 then clock - start.value else 0.0
  }

  /** `player.position + player.speed * deltaTime`: where the car would be
      after the frame. */
  function Advance(p: Player, dt: real): real {
    p.position + p.speed * dt
  }

  /** With a non-negative speed and elapsed time a car does not go back. */
  lemma AdvanceForward(p: Player, dt: real)
    requires p.speed >= 0.0 && dt >= 0.0
    ensures Advance(p, dt) >= p.position
  {
    assert p.speed * dt >= 0.0;
  }

  /** The rest of the callback for a car still racing that has moved to
      `pos`: the first checkpoint crossed draws a new speed (`draw` is the
      `Math.random()` value) and is recorded, and reaching the line pins the
      car there and stamps the finish (`clock` is the `performance.now()`
      read). The source also tests `!player.finishTime` before stamping, but
      the callback only gets here for a player whose finish time is null, so
      that test always passes. */
  function Landing(p: Player, pos: real, draw: real, clock: real, start: Option<real>): Player
    requires 0.0 <= draw < 1.0
  {
    var crossing := FirstCrossing(CHECKPOINTS, p, pos);
    var speed := if crossing.Some? then RandomSpeed(draw) else p.speed;
    var last := if crossing.Some? then CHECKPOINTS[crossing.value].id else p.lastCheckpointPassed;
    if pos >= RACE_LAPS as real then
      p.(position := RACE_LAPS as real, speed := speed, lastCheckpointPassed := last,
         finishTime := Some(ClientFinishTime(clock, start)), lap := RACE_LAPS)
    else
      p.(position := pos, speed := speed, lastCheckpointPassed := last)
  }

  /** The map callback of the game loop for one player: a finished player is
      returned as is. */
  function StepPlayer(p: Player, dt: real, draw: real, clock: real, start: Option<real>): Player
    requires 0.0 <= draw < 1.0
  {
    if p.finishTime.Some? then p else Landing(p, Advance(p, dt), draw, clock, start)
  }

  /** What landing at `pos` does to a racing car: identity and rank are
      untouched, it finishes exactly when `pos` reaches the line and is then
      pinned there with the stamped time, otherwise it sits at `pos`; the
      recorded checkpoint only moves forward, to one the move crossed, and a
      changed speed is a fresh draw within the bounds. */
  lemma LandingProps(p: Player, pos: real, draw: real, clock: real, start: Option<real>)
    requires 0.0 <= draw < 1.0 && p.finishTime.None?
    ensures var r := Landing(p, pos, draw, clock, start);
            && r.id == p.id && r.name == p.name && r.color == p.color
            && r.rank == p.rank && r.isReady == p.isReady
            && (r.finishTime.Some? <==> pos >= RACE_LAPS as real)
            && r.position <= RACE_LAPS as real
            && (r.finishTime.Some? ==>
                  && r.position == RACE_LAPS as real && r.lap == RACE_LAPS
                  && r.finishTime == Some(ClientFinishTime(clock, start)))
            && (r.finishTime.None? ==> r.position == pos && r.lap == p.lap)
            && r.lastCheckpointPassed >= p.lastCheckpointPassed
            && (r.lastCheckpointPassed != p.lastCheckpointPassed ==>
                  exists j :: 0 <= j < |CHECKPOINTS| && Crosses(p, pos, CHECKPOINTS[j])
                              && r.lastCheckpointPassed == CHECKPOINTS[j].id)
            && (r.speed != p.speed ==> r.speed == RandomSpeed(draw) && MIN_SPEED <= r.speed < MAX_SPEED)
  {
    var c := FirstCrossing(CHECKPOINTS, p, pos);
    FirstCrossingSpec(CHECKPOINTS, p, pos);
    if c.Some? {
      assert Crosses(p, pos, CHECKPOINTS[c.value]);
    }
  }

  /** What one frame does to one car: a finished car is left alone; a racing
      car lands where it moved to, and with a non-negative speed and elapsed
      time it never goes backwards. */
  lemma StepPlayerProps(p: Player, dt: real, draw: real, clock: real, start: Option<real>)
    requires 0.0 <= draw < 1.0
    ensures p.finishTime.Some? ==> StepPlayer(p, dt, draw, clock, start) == p
    ensures p.finishTime.None? ==>
              StepPlayer(p, dt, draw, clock, start) == Landing(p, Advance(p, dt), draw, clock, start)
    ensures p.speed >= 0.0 && dt >= 0.0 && p.position <= RACE_LAPS as real ==>
              StepPlayer(p, dt, draw, clock, start).position >= p.position
  {
    if p.finishTime.None? {
      LandingProps(p, Advance(p, dt), draw, clock, start);
      if p.speed >= 0.0 && dt >= 0.0 {
        AdvanceForward(p, dt);
      }
    }
  }

  /** A frame records at most one checkpoint, even when the move passes several:
      the one recorded is the first the car had not recorded yet. */
  lemma OneCheckpointPerFrame(p: Player, pos: real, draw: real, clock: real, start: Option<real>, j: int)
    requires 0.0 <= draw < 1.0
    requires 0 <= j < |CHECKPOINTS| && Crosses(p, pos, CHECKPOINTS[j])
    ensures Landing(p, pos, draw, clock, start).lastCheckpointPassed <= CHECKPOINTS[j].id
  {
    var c := FirstCrossing(CHECKPOINTS, p, pos);
    FirstCrossingSpec(CHECKPOINTS, p, pos);
    CheckpointTableOrdered();
    assert c.Some? && c.value <= j;
  }

  // ---------------------------------------------------------------------------
  // One animation frame for all players

  /** `Math.random()` values, at least one per player. */
  ghost predicate Draws(n: int, draws: seq<real>) {
    n <= |draws| && forall i :: 0 <= i < |draws| ==> 0.0 <= draws[i] < 1.0
  }

  /** Inputs of one frame: one random draw and one clock reading per player. */
  ghost predicate FrameInputs(n: int, draws: seq<real>, clocks: seq<real>) {
    Draws(n, draws) && n <= |clocks|
  }

  /** `players.map(...)` of the game loop. */
  function Stepped(players: seq<Player>, dt: real, draws: seq<real>, clocks: seq<real>, start: Option<real>): (r: seq<Player>)
    requires FrameInputs(|players|, draws, clocks)
    ensures |r| == |players|
  {
    seq(|players|, i requires 0 <= i < |players| => StepPlayer(players[i], dt, draws[i], clocks[i], start))
  }

  /** The callback as the page runs it for a car that has moved to `pos`:
      the checkpoint scan may draw a new speed, and reaching the line pins the
      car and stamps the finish. */
  method Land(p: Player, pos: real, draw: real, clock: real, start: Option<real>) returns (q: Player)
    requires 0.0 <= draw < 1.0
    ensures q == Landing(p, pos, draw, clock, start)
  {
    var speed := p.speed;
    var last := p.lastCheckpointPassed;
    var crossing := FindCrossing(p, pos);
    if crossing.Some? {
      speed := RandomSpeed(draw);
      last := CHECKPOINTS[crossing.value].id;
    }
    if pos >= RACE_LAPS as real {
      q := p.(position := RACE_LAPS as real, speed := speed, lastCheckpointPassed := last,
              finishTime := Some(ClientFinishTime(clock, start)), lap := RACE_LAPS);
    } else {
      q := p.(position := pos, speed := speed, lastCheckpointPassed := last);
    }
  }

  /** The map callback as the page runs it: a finished player is returned as
      is, any other car moves and lands. */
  method StepOne(p: Player, dt: real, draw: real, clock: real, start: Option<real>) returns (q: Player)
    requires 0.0 <= draw < 1.0
    ensures q == StepPlayer(p, dt, draw, clock, start)
  {
    if p.finishTime.Some? {
      return p;
    }
    var pos := p.position + p.speed * dt;
    assert pos == Advance(p, dt);
    q := Land(p, pos, draw, clock, start);
  }

  /** Every player entering the frame already has a finish time. */
  predicate AllFinished(players: seq<Player>) {
    forall i :: 0 <= i < |players| ==> players[i].finishTime.Some?
  }

  /** The loop over the players: `allFinished` starts true and is cleared by
      any player still racing. */
  method StepAll(players: seq<Player>, dt: real, draws: seq<real>, clocks: seq<real>, start: Option<real>)
    returns (updated: seq<Player>, allFinished: bool)
    requires FrameInputs(|players|, draws, clocks)
    ensures updated == Stepped(players, dt, draws, clocks, start)
    ensures allFinished <==> AllFinished(players)
  {
    updated := [];
    allFinished := true;
    var i := 0;
    while i < |players|
      invariant 0 <= i <= |players|
      invariant |updated| == i
      invariant forall j :: 0 <= j < i ==> updated[j] == StepPlayer(players[j], dt, draws[j], clocks[j], start)
      invariant allFinished <==> forall j :: 0 <= j < i ==> players[j].finishTime.Some?
    {
      var q := StepOne(players[i], dt, draws[i], clocks[i], start);
      if players[i].finishTime.None? {
        allFinished := false;
      }
      updated := updated + [q];
      i := i + 1;
    }
  }

  /** A frame keeps the roster's invariant. */
  lemma SteppedRoster(players: seq<Player>, dt: real, draws: seq<real>, clocks: seq<real>, start: Option<real>)
    requires Roster(players) && FrameInputs(|players|, draws, clocks)
    ensures Roster(Stepped(players, dt, draws, clocks, start))
  {
    var r := Stepped(players, dt, draws, clocks, start);
    forall i | 0 <= i < |r|
      ensures r[i].id == players[i].id && r[i].speed >= 0.0 && r[i].position <= RACE_LAPS as real
      ensures r[i].finishTime.Some? ==> r[i].position == RACE_LAPS as real
    {
      StepPlayerProps(players[i], dt, draws[i], clocks[i], start);
      if players[i].finishTime.None? {
        LandingProps(players[i], Advance(players[i], dt), draws[i], clocks[i], start);
      }
      SpeedBoundsSane();
    }
  }

  /** Results come one frame late: the frame that sees everyone finished is
      the one after the last finish, and it moves nobody. */
  lemma {:induction false} FinishedFrameMovesNobody(players: seq<Player>, dt: real, draws: seq<real>, clocks: seq<real>, start: Option<real>)
    requires FrameInputs(|players|, draws, clocks) && AllFinished(players)
    ensures Stepped(players, dt, draws, clocks, start) == players
  {
    var r := Stepped(players, dt, draws, clocks, start);
    forall i | 0 <= i < |players|
      ensures r[i] == players[i]
    {
      assert players[i].finishTime.Some?;
    }
  }

  // ---------------------------------------------------------------------------
  // Final ranks

  /** `.filter(p => p.finishTime !== null)`. */
  function FinishedOnly(s: seq<Player>): seq<Player> {
    if s == [] then []
    else if s[0].finishTime.Some? then [s[0]] + FinishedOnly(s[1..])
    else FinishedOnly(s[1..])
  }

  /** The filter keeps exactly the finished players. */
  lemma {:induction false} FinishedOnlyMembers(s: seq<Player>)
    ensures forall p :: p in FinishedOnly(s) <==> p in s && p.finishTime.Some?
  {
    if s != [] {
      FinishedOnlyMembers(s[1..]);
      assert s == [s[0]] + s[1..];
    }
  }

  lemma {:induction false} FinishedOnlyDistinct(s: seq<Player>)
    requires DistinctIds(s)
    ensures DistinctIds(FinishedOnly(s))
  {
    if s != [] {
      FinishedOnlyDistinct(s[1..]);
      var rest := FinishedOnly(s[1..]);
      FinishedOnlyMembers(s[1..]);
      if s[0].finishTime.Some? {
        forall k | 0 <= k < |rest|
          ensures rest[k].id != s[0].id
        {
          assert rest[k] in s[1..];
        }
        var r := [s[0]] + rest;
        forall i, j | 0 <= i < j < |r|
          ensures r[i].id != r[j].id
        {
          if i > 0 {
            assert r[i] == rest[i - 1] && r[j] == rest[j - 1];
          } else {
            assert r[j] == rest[j - 1];
          }
        }
      }
    }
  }

  /** The list the ranks are read from: the finished players by ascending
      finish time. */
  function FinishOrder(players: seq<Player>): seq<Player> {
    ByFinishTime(FinishedOnly(players))
  }

  /** `rank: p.finishTime !== null ? findIndex + 1 : undefined`. */
  function RankedBy(order: seq<Player>, p: Player): Player {
    p.(rank := if p.finishTime.Some? then Some(FindIndex(order, p.id) + 1) else None)
  }

  /** `updatedPlayers.map(...)` that writes the final ranks. */
  function FinalRanks(players: seq<Player>): (r: seq<Player>)
    ensures |r| == |players|
    ensures forall i :: 0 <= i < |r| ==> r[i] == players[i].(rank := r[i].rank)
  {
    seq(|players|, i requires 0 <= i < |players| => RankedBy(FinishOrder(players), players[i]))
  }

  /** With distinct ids: a finisher's rank lies in 1..(number of finishers),
      two finishers never share a rank, a strictly earlier finish gets a
      strictly better rank, and a non-finisher gets no rank. */
  lemma FinalRanksOrdered(players: seq<Player>, i: int, j: int)
    requires DistinctIds(players) && 0 <= i < |players| && 0 <= j < |players|
    ensures FinalRanks(players)[i].rank.Some? <==> players[i].finishTime.Some?
    ensures players[i].finishTime.Some? ==>
              1 <= RankKey(FinalRanks(players)[i]) <= |FinishedOnly(players)|
    ensures i != j && players[i].finishTime.Some? && players[j].finishTime.Some? ==>
              FinalRanks(players)[i].rank != FinalRanks(players)[j].rank
    ensures players[i].finishTime.Some? && players[j].finishTime.Some?
            && FinishKey(players[i]) < FinishKey(players[j]) ==>
              RankKey(FinalRanks(players)[i]) < RankKey(FinalRanks(players)[j])
  {
    var fin := FinishedOnly(players);
    var r := FinalRanks(players);
    if players[i].finishTime.Some? && players[j].finishTime.Some? {
      FinishedOnlyDistinct(players);
      FinishedOnlyMembers(players);
      assert players[i] in fin && players[j] in fin;
      RankIndexOrdered(fin, players[i], players[j]);
      if i != j {
        assert players[i].id != players[j].id;
        assert players[i] != players[j];
      }
    } else if players[i].finishTime.Some? {
      FinishedOnlyDistinct(players);
      FinishedOnlyMembers(players);
      assert players[i] in fin;
      RankIndexOrdered(fin, players[i], players[i]);
    }
  }

  /** When everyone finished, the ranks are exactly 1..n, each once. */
  lemma AllFinishedRanksOneToN(players: seq<Player>)
    requires DistinctIds(players) && AllFinished(players)
    ensures Leaderboard.RanksOneToN(FinalRanks(players))
  {
    var r := FinalRanks(players);
    assert FinishedOnly(players) == players by {
      FinishedOnlyAll(players);
    }
    forall p | p in r
      ensures p.rank.Some? && 1 <= RankKey(p) <= |r|
    {
      var i :| 0 <= i < |r| && r[i] == p;
      FinalRanksOrdered(players, i, i);
    }
    forall i, j | 0 <= i < j < |r|
      ensures r[i].rank != r[j].rank
    {
      FinalRanksOrdered(players, i, j);
    }
  }

  lemma {:induction false} FinishedOnlyAll(s: seq<Player>)
    requires AllFinished(s)
    ensures FinishedOnly(s) == s
  {
    if s != [] {
      assert AllFinished(s[1..]) by {
        forall i | 0 <= i < |s| - 1
          ensures s[1..][i].finishTime.Some?
        {
          assert s[1..][i] == s[i + 1];
        }
      }
      FinishedOnlyAll(s[1..]);
      assert s == [s[0]] + s[1..];
    }
  }

  /** The results screen after a complete local race: the table lists row i
      with rank i + 1 and shows the winner banner. */
  lemma ResultsTableInOrder(players: seq<Player>)
    requires DistinctIds(players) && AllFinished(players) && |players| > 0
    ensures forall i :: 0 <= i < |players| ==>
              Leaderboard.SortedPlayers(FinalRanks(players))[i].rank == Some(i + 1)
    ensures Leaderboard.ShowsWinner(Leaderboard.SortedPlayers(FinalRanks(players)))
  {
    AllFinishedRanksOneToN(players);
    Leaderboard.FullRankingDisplayed(FinalRanks(players));
  }

  lemma FinalRanksRoster(players: seq<Player>)
    requires Roster(players)
    ensures Roster(FinalRanks(players))
  {
    var r := FinalRanks(players);
    forall i, j | 0 <= i < j < |r|
      ensures r[i].id != r[j].id
    {
      assert r[i].id == players[i].id && r[j].id == players[j].id;
    }
  }

  // ---------------------------------------------------------------------------
  // The page component

  /** The page's state: the `gamePhase`, `players` and `countdown` state
      variables, the last-frame and race-start refs, and whether an animation
      frame is pending (`gameLoopRef`). */
  class RacePage {
    var gamePhase: Phase
    var players: seq<Player>
    var countdown: Option<int>
    var lastFrameTime: real
    var raceStartTime: Option<real>
    var frameScheduled: bool

    ghost predicate Valid()
      reads this
    {
      Roster(players)
    }

    constructor ()
      ensures Valid()
      ensures gamePhase == Lobby && players == [] && countdown == None
      ensures lastFrameTime == 0.0 && raceStartTime == None && !frameScheduled
    {
      gamePhase := Lobby;
      players := [];
      countdown := None;
      lastFrameTime := 0.0;
      raceStartTime := None;
      frameScheduled := false;
    }

    /** "Play again": cancel the pending frame, empty the list, clear the
        countdown and the race start, and go back to the setup form. */
    method ResetGame()
      modifies this
      ensures Valid()
      ensures gamePhase == Lobby && players == [] && countdown == None
      ensures raceStartTime == None && !frameScheduled && lastFrameTime == old(lastFrameTime)
    {
      frameScheduled := false;
      players := [];
      countdown := None;
      gamePhase := Lobby;
      raceStartTime := None;
    }

    /** The setup form is submitted: one fresh player per entry, then the
        countdown starts at COUNTDOWN_SECONDS. */
    method HandleSetupComplete(infos: seq<PlayerSetupInfo>)
      modifies this
      ensures Valid()
      ensures players == InitialPlayers(infos)
      ensures gamePhase == Countdown && countdown == Some(COUNTDOWN_SECONDS)
      ensures lastFrameTime == old(lastFrameTime) && raceStartTime == old(raceStartTime)
      ensures frameScheduled == old(frameScheduled)
    {
      InitialRoster(infos);
      players := InitialPlayers(infos);
      gamePhase := Countdown;
      countdown := Some(COUNTDOWN_SECONDS);
    }

    /** The countdown effect, run when its one-second timer has fired or the
        count reached zero: above zero the count drops by one; at zero every
        player gets a start speed from `draws`, the race starts, both refs
        read the clock (`frameNow`, then `startNow`) and the racing effect
        requests the first frame. In any other phase nothing happens. */
    method CountdownEffect(draws: seq<real>, frameNow: real, startNow: real)
      requires Valid() && Draws(|players|, draws)
      modifies this
      ensures Valid()
      ensures !(old(gamePhase) == Countdown && old(countdown).Some? && old(countdown).value >= 0) ==>
                && gamePhase == old(gamePhase) && players == old(players) && countdown == old(countdown)
                && lastFrameTime == old(lastFrameTime) && raceStartTime == old(raceStartTime)
                && frameScheduled == old(frameScheduled)
      ensures old(gamePhase) == Countdown && old(countdown).Some? && old(countdown).value > 0 ==>
                && countdown == Some(old(countdown).value - 1) && gamePhase == Countdown
                && players == old(players) && lastFrameTime == old(lastFrameTime)
                && raceStartTime == old(raceStartTime) && frameScheduled == old(frameScheduled)
      ensures old(gamePhase) == Countdown && old(countdown) == Some(0) ==>
                && gamePhase == Racing && countdown == None
                && |players| == |old(players)|
                && (forall i :: 0 <= i < |players| ==>
                      players[i] == old(players)[i].(speed := RandomSpeed(draws[i]))
                      && MIN_SPEED <= players[i].speed < MAX_SPEED)
                && lastFrameTime == frameNow && raceStartTime == Some(startNow) && frameScheduled
    {
      if gamePhase == Countdown && countdown.Some? {
        if countdown.value > 0 {
          countdown := Some(countdown.value - 1);
        } else if countdown.value == 0 {
          var speeds := InitialSpeeds(|players|, draws);
          SpeedBoundsSane();
          WithSpeedsRoster(players, speeds);
          players := WithSpeeds(players, speeds);
          gamePhase := Racing;
          countdown := None;
          lastFrameTime := frameNow;
          raceStartTime := Some(startNow);
          frameScheduled := true;
        }
      }
    }

    /** One animation frame at `timestamp`: outside a race nothing happens.
        Otherwise the elapsed seconds since the last frame move every
        unfinished car; if everyone was already finished on entry (and there
        is anyone), the page shows the results with the final ranks and no
        further frame is requested, else the next frame is requested. */
    method RunGameLoop(timestamp: real, draws: seq<real>, clocks: seq<real>)
      requires Valid() && FrameInputs(|players|, draws, clocks)
      modifies this
      ensures Valid()
      ensures old(gamePhase) != Racing ==>
                && gamePhase == old(gamePhase) && players == old(players)
                && lastFrameTime == old(lastFrameTime) && frameScheduled == old(frameScheduled)
      ensures old(gamePhase) == Racing ==>
                && lastFrameTime == timestamp
                && var stepped := Stepped(old(players), (timestamp - old(lastFrameTime)) / 1000.0,
                                          draws, clocks, old(raceStartTime));
                   if AllFinished(old(players)) && |old(players)| > 0 then
                     players == FinalRanks(stepped) && gamePhase == Results && !frameScheduled
                   else
                     players == stepped && gamePhase == Racing && frameScheduled
      ensures old(gamePhase) == Racing && AllFinished(old(players)) && |old(players)| > 0 ==>
                players == FinalRanks(old(players))
      ensures countdown == old(countdown) && raceStartTime == old(raceStartTime)
    {
      if gamePhase != Racing {
        return;
      }
      var dt := (timestamp - lastFrameTime) / 1000.0;
      lastFrameTime := timestamp;
      var updated, allFinished := StepAll(players, dt, draws, clocks, raceStartTime);
      SteppedRoster(players, dt, draws, clocks, raceStartTime);
      players := updated;
      if allFinished && |updated| > 0 {
        gamePhase := Results;
        FinalRanksRoster(updated);
        FinishedFrameMovesNobody(old(players), dt, draws, clocks, raceStartTime);
        players := FinalRanks(updated);
        frameScheduled := false;
        return;
      }
      frameScheduled := true;
    }
  }
}
