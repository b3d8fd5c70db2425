/** The authoritative race room of the server (src/pages/api/socket.ts): the
    module-level game state as an object whose handler methods run one at a
    time, as the JavaScript event loop runs them. Live timers are part of the
    state: each countdown interval keeps its own `count`, each race loop its
    own `lastUpdateTime`, and the event loop fires them through `CountdownTick`
    and `RaceTick`. */
module RaceServer {
  import opened RaceTypes
  import opened GameConfig
  import opened RaceServerSpec

  class RaceRoom {
    var phase: Phase
    var players: map<string, Player>
    /** The keys of `players` in insertion order, the order `Object.values`
        visits them in; it decides the order of equal finish times. */
    var order: seq<string>
    var readyPlayersCount: int
    var countdown: Option<int>
    var raceStartTime: Option<int>
    /** The `count` of every countdown interval that has not cleared itself. */
    var countdownTimers: seq<int>
    /** The `lastUpdateTime` of every race loop that has not cleared itself. */
    var raceLoops: seq<int>

    ghost predicate Valid()
      reads this
    {
      RoomValid(order, players)
    }

    /** How far `readyPlayersCount` is from the number of ready players. */
    ghost function Drift(): int
      reads this
    {
      readyPlayersCount - ReadyCount(players)
    }

    /** The initial `gameState`. */
    constructor ()
      ensures Valid() && Drift() == 0
      ensures phase == Lobby && players == map[] && order == [] && readyPlayersCount == 0
      ensures countdown == None && raceStartTime == None
      ensures countdownTimers == [] && raceLoops == []
    {
      phase := Lobby;
      players := map[];
      order := [];
      readyPlayersCount := 0;
      countdown := None;
      raceStartTime := None;
      countdownTimers := [];
      raceLoops := [];
    }

    /** `player_join`: (re)creates the record under the socket id and counts
        it when it arrives ready. A repeated join overwrites the record without
        uncounting the old one, so the counter's distance to the true count
        grows by the old record's ready flag. */
    method Join(sid: string, setup: PlayerSetupInfo)
      requires Valid()
      modifies this
      ensures Valid()
      ensures players == old(players)[sid := JoinedPlayer(sid, setup)]
      ensures order == KeyOrderAfterSet(old(order), old(players), sid)
      ensures readyPlayersCount == old(readyPlayersCount) + (if ReadyFlag(setup) then 1 else 0)
      ensures phase == old(phase) && countdown == old(countdown) && raceStartTime == old(raceStartTime)
      ensures countdownTimers == old(countdownTimers) && raceLoops == old(raceLoops)
      ensures sid !in old(players) ==> Drift() == old(Drift())
      ensures sid in old(players) ==>
                Drift() == old(Drift()) + ReadyBit(old(players), sid)
    {
      var p := JoinedPlayer(sid, setup);
      ReadyCountUpdate(players, sid, p);
      SetValid(order, players, sid, p);
      order := KeyOrderAfterSet(order, players, sid);
      players := players[sid := p];
      if setup.isReady == Some(true) {
        readyPlayersCount := readyPlayersCount + 1;
      }
    }

    /** `player_ready`: flips the flag, moves the counter only on a real
        change, and starts the one countdown interval when the quorum is met
        in the lobby. */
    method Ready(sid: string, isReady: bool)
      requires Valid()
      modifies this
      ensures Valid() && Drift() == old(Drift())
      ensures order == old(order) && raceStartTime == old(raceStartTime) && raceLoops == old(raceLoops)
      ensures sid !in old(players) ==>
                players == old(players) && readyPlayersCount == old(readyPlayersCount)
                && phase == old(phase) && countdown == old(countdown)
                && countdownTimers == old(countdownTimers)
      ensures sid in old(players) ==>
                && players == old(players)[sid := old(players)[sid].(isReady := isReady)]
                && readyPlayersCount == old(readyPlayersCount)
                     + (if !old(players)[sid].isReady && isReady then 1
                        else if old(players)[sid].isReady && !isReady then -1
                        else 0)
      ensures sid in old(players) && old(players)[sid].isReady == isReady ==>
                players == old(players) && readyPlayersCount == old(readyPlayersCount)
      ensures sid in old(players) && old(phase) == Lobby && readyPlayersCount >= READY_QUORUM ==>
                && phase == Countdown && countdown == Some(SERVER_COUNTDOWN)
                && countdownTimers == old(countdownTimers) + [SERVER_COUNTDOWN]
      ensures !(sid in old(players) && old(phase) == Lobby && readyPlayersCount >= READY_QUORUM) ==>
                phase == old(phase) && countdown == old(countdown) && countdownTimers == old(countdownTimers)
    {
      if sid in players {
        players, readyPlayersCount := ReadyRecord(order, players, readyPlayersCount, sid, isReady);
        if readyPlayersCount >= READY_QUORUM && phase == Lobby {
          phase, countdown, countdownTimers := Countdown, Some(SERVER_COUNTDOWN), countdownTimers + [SERVER_COUNTDOWN];
        }
      }
    }

    /** One 1 Hz firing of countdown interval `k`: it counts down and
        publishes the value; at zero or below it clears itself, starts the
        race at `now`, gives every ready player a speed drawn from
        `draws[id]` and starts a race loop whose first clock reading is
        `loopStart` (the loop reads the clock again when it is set up).
        Unready players keep their speed. */
    method CountdownTick(k: int, now: int, loopStart: int, draws: map<string, real>)
      requires Valid() && 0 <= k < |countdownTimers|
      requires forall id :: id in players ==> id in draws && 0.0 <= draws[id] < 1.0
      modifies this
      ensures Valid() && Drift() == old(Drift())
      ensures countdown == Some(old(countdownTimers)[k] - 1)
      ensures order == old(order) && readyPlayersCount == old(readyPlayersCount)
      ensures old(countdownTimers)[k] - 1 > 0 ==>
                && countdownTimers == old(countdownTimers)[k := old(countdownTimers)[k] - 1]
                && phase == old(phase) && players == old(players)
                && raceStartTime == old(raceStartTime) && raceLoops == old(raceLoops)
      ensures old(countdownTimers)[k] - 1 <= 0 ==>
                && countdownTimers == Without(old(countdownTimers), k)
                && phase == Racing && raceStartTime == Some(now)
                && players == StartSpeeds(old(players), draws)
                && raceLoops == old(raceLoops) + [loopStart]
      ensures old(countdownTimers)[k] - 1 <= 0 ==>
                forall id :: id in players ==>
                  if players[id].isReady then MIN_SPEED <= players[id].speed < MAX_SPEED
                  else players[id] == old(players)[id]
    {
      var count := countdownTimers[k] - 1;
      countdown := Some(count);
      if count <= 0 {
        countdownTimers := Without(countdownTimers, k);
        phase := Racing;
        raceStartTime := Some(now);
        var started := AssignStartSpeeds(order, players, draws);
        StartSpeedsValid(order, players, draws);
        players := started;
        raceLoops := raceLoops + [loopStart];
      } else {
        countdownTimers := countdownTimers[k := count];
      }
    }

    /** `checkpoint_passed`: while racing, takes the reported checkpoint as
        the player's last one (no check that it is ahead of the previous one)
        and draws a new speed. Nothing else changes. */
    method Checkpoint(sid: string, checkpointId: int, draw: real)
      requires Valid() && 0.0 <= draw < 1.0
      modifies this
      ensures Valid() && Drift() == old(Drift())
      ensures order == old(order) && readyPlayersCount == old(readyPlayersCount) && phase == old(phase)
      ensures countdown == old(countdown) && raceStartTime == old(raceStartTime)
      ensures countdownTimers == old(countdownTimers) && raceLoops == old(raceLoops)
      ensures sid in old(players) && old(phase) == Racing ==>
                players == old(players)[sid := old(players)[sid].(lastCheckpointPassed := checkpointId,
                                                                  speed := RandomSpeed(draw))]
      ensures sid in old(players) && old(phase) == Racing ==>
                MIN_SPEED <= players[sid].speed < MAX_SPEED
      ensures !(sid in old(players) && old(phase) == Racing) ==> players == old(players)
    {
      if sid in players && phase == Racing {
        var p := players[sid].(lastCheckpointPassed := checkpointId, speed := RandomSpeed(draw));
        ReadyCountUpdate(players, sid, p);
        RoomValidUpdate(order, players, sid, p);
        players := players[sid := p];
      }
    }

    /** `player_finish`: the first report stamps the finish time (the
        position is left where it was), then every finished ready player is
        ranked by finish time and the room moves to results once every ready
        player has a finish time. */
    method Finish(sid: string, now: int)
      requires Valid()
      modifies this
      ensures Valid() && Drift() == old(Drift())
      ensures order == old(order) && readyPlayersCount == old(readyPlayersCount)
      ensures countdown == old(countdown) && raceStartTime == old(raceStartTime)
      ensures countdownTimers == old(countdownTimers) && raceLoops == old(raceLoops)
      ensures !FinishAllowed(old(players), old(phase), old(raceStartTime), sid) ==>
                players == old(players) && phase == old(phase)
      ensures FinishAllowed(old(players), old(phase), old(raceStartTime), sid) ==>
                && players == RaceRanks(order, Stamped(old(players), sid, old(raceStartTime), now))
                && phase == if AllReadyFinished(Stamped(old(players), sid, old(raceStartTime), now)) then Results else Racing
    {
      players, phase := FinishRecord(order, players, phase, raceStartTime, sid, now);
    }

    /** One 60 Hz firing of race loop `k`. Outside racing the loop clears
        itself. Otherwise every ready unfinished player moves by
        `speed * Δt`; the results phase and the ranks come only on a firing
        that starts with no ready player unfinished, one firing after the
        last finish. */
    method RaceTick(k: int, now: int)
      requires Valid() && 0 <= k < |raceLoops|
      modifies this
      ensures Valid() && Drift() == old(Drift())
      ensures order == old(order) && readyPlayersCount == old(readyPlayersCount)
      ensures countdown == old(countdown) && raceStartTime == old(raceStartTime)
      ensures countdownTimers == old(countdownTimers)
      ensures old(phase) != Racing ==>
                phase == old(phase) && players == old(players) && raceLoops == Without(old(raceLoops), k)
      ensures old(phase) == Racing && AllReadyFinished(old(players)) ==>
                && phase == Results
                && players == RaceRanks(order, old(players))
                && raceLoops == Without(old(raceLoops), k)
      ensures old(phase) == Racing && !AllReadyFinished(old(players)) ==>
                && phase == Racing
                && players == Ticked(old(players), Elapsed(old(raceLoops)[k], now), now, raceStartTime)
                && raceLoops == old(raceLoops)[k := now]
      ensures now >= old(raceLoops)[k] ==>
                forall id :: id in players && old(players)[id].position <= 1.0 ==>
                  players[id].position >= old(players)[id].position
    {
      players, phase, raceLoops := LoopFiring(order, players, phase, raceLoops, k, now, raceStartTime);
    }

    /** `restart_game`: every record back to its starting race fields with
        identity and readiness kept; the room returns to the lobby with the
        counter zeroed although ready flags stay set. Running intervals are
        not cleared. */
    method Restart()
      requires Valid()
      modifies this
      ensures Valid()
      ensures players == ResetAll(old(players)) && order == old(order)
      ensures phase == Lobby && readyPlayersCount == 0 && countdown == None && raceStartTime == None
      ensures countdownTimers == old(countdownTimers) && raceLoops == old(raceLoops)
      ensures ReadyCount(players) == old(ReadyCount(players))
    {
      players := ResetPlayers(order, players);
      phase := Lobby;
      readyPlayersCount := 0;
      countdown := None;
      raceStartTime := None;
    }

    /** `disconnect`: drops the record and its key, uncounting it if it was
        ready; in the lobby below quorum the countdown value and the start
        time are cleared. */
    method Disconnect(sid: string)
      requires Valid()
      modifies this
      ensures Valid() && Drift() == old(Drift())
      ensures countdownTimers == old(countdownTimers) && raceLoops == old(raceLoops) && phase == old(phase)
      ensures sid !in old(players) ==>
                players == old(players) && order == old(order) && readyPlayersCount == old(readyPlayersCount)
                && countdown == old(countdown) && raceStartTime == old(raceStartTime)
      ensures sid in old(players) ==>
                && players == old(players) - {sid}
                && order == RemoveKey(old(order), sid)
                && readyPlayersCount == old(readyPlayersCount) - ReadyBit(old(players), sid)
      ensures sid in old(players) && phase == Lobby && readyPlayersCount < READY_QUORUM ==>
                countdown == None && raceStartTime == None
      ensures !(sid in old(players) && phase == Lobby && readyPlayersCount < READY_QUORUM) ==>
                countdown == old(countdown) && raceStartTime == old(raceStartTime)
    {
      if sid in players {
        order, players, readyPlayersCount := LeaveRecord(order, players, readyPlayersCount, sid);
        if phase == Lobby && readyPlayersCount < READY_QUORUM {
          phase := Lobby;
          countdown := None;
          raceStartTime := None;
        }
      }
    }
  }
}
