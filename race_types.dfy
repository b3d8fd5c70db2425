/** Value types shared by the race server, the client page and the leaderboard
    (the records declared in src/types/index.ts). */
module RaceTypes {

  datatype Option<T> = None | Some(value: T)

  /** The four stages of a race room. */
  datatype Phase = Lobby | Countdown | Racing | Results

  /** One racer. `speed` is track fraction per second, `position` the fraction of
      the track completed, `finishTime` milliseconds since the race start. */
  datatype Player = Player(
    id: string,
    name: string,
    color: string,
    speed: real,
    position: real,
    lap: int,
    finishTime: Option<real>,
    rank: Option<int>,
    lastCheckpointPassed: int,
    isReady: bool)

  /** A checkpoint: its id, its threshold on the 0..1 progress scale and the
      coordinates of its icon. */
  datatype Checkpoint = Checkpoint(id: int, position: real, x: int, y: int)

  /** What a client sends when it joins; `isReady` is an optional flag. */
  datatype PlayerSetupInfo = PlayerSetupInfo(name: string, color: string, isReady: Option<bool>)

  /** JavaScript truthiness of `player.rank` (undefined and 0 are falsy). */
  predicate HasRank(p: Player) {
    p.rank.Some? && p.rank.value != 0
  }

  /** JavaScript truthiness of `player.finishTime` (null and 0 are falsy). */
  predicate FinishTruthy(p: Player) {
    p.finishTime.Some? && p.finishTime.value != 0.0
  }

  /** The rank a comparator subtracts; only read for ranked players. */
  function RankKey(p: Player): int {
    if p.rank.Some? then p.rank.value else 0
  }

  /** The finish time a comparator subtracts; only read for finished players. */
  function FinishKey(p: Player): real {
    if p.finishTime.Some? then p.finishTime.value else 0.0
  }
}
