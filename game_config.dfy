/** The static race configuration: the checkpoint table, the speed bounds, the
    countdown length and the race distance (src/lib/game-config.ts). */
module GameConfig {
  import opened RaceTypes

  const CHECKPOINTS: seq<Checkpoint> := [
    Checkpoint(1, 0.09, 180, 120),
    Checkpoint(2, 0.18, 300, 190),
    Checkpoint(3, 0.27, 450, 230),
    Checkpoint(4, 0.36, 600, 190),
    Checkpoint(5, 0.45, 680, 250),
    Checkpoint(6, 0.54, 680, 350),
    Checkpoint(7, 0.63, 580, 450),
    Checkpoint(8, 0.72, 480, 410),
    Checkpoint(9, 0.81, 350, 370),
    Checkpoint(10, 0.90, 180, 410)
  ]

  const MIN_SPEED: real := 0.025
  const MAX_SPEED: real := 0.045

  const COUNTDOWN_SECONDS: int := 3
  /** The race is a single lap: progress runs from 0 to RACE_LAPS. */
  const RACE_LAPS: int := 1

  /** Ids are 1, 2, ... in table order, and thresholds strictly increase
      inside the open interval (0, RACE_LAPS). */
  ghost predicate WellOrdered(cps: seq<Checkpoint>) {
    && (forall i :: 0 <= i < |cps| ==> cps[i].id == i + 1)
    && (forall i, j :: 0 <= i < j < |cps| ==> cps[i].position < cps[j].position)
    && (forall i :: 0 <= i < |cps| ==> 0.0 < cps[i].position < RACE_LAPS as real)
  }

  /** The checkpoint table is ordered the way both race loops rely on, and
      every checkpoint lies before the finish line. */
  lemma CheckpointTableOrdered()
    ensures |CHECKPOINTS| == 10
    ensures WellOrdered(CHECKPOINTS)
    ensures CHECKPOINTS[|CHECKPOINTS| - 1].position < RACE_LAPS as real
  {
  }

  /** The speed bounds are positive and form a non-empty interval. */
  lemma SpeedBoundsSane()
    ensures 0.0 < MIN_SPEED < MAX_SPEED
  {
  }

  /** The speed drawn for a uniform random value `r` in [0, 1). */
  function RandomSpeed(r: real): (s: real)
    requires 0.0 <= r < 1.0
    ensures MIN_SPEED <= s < MAX_SPEED
  {
    r * (MAX_SPEED - MIN_SPEED) + MIN_SPEED
  }

  /** One fresh speed per player; `draws` are the successive random values. */
  method InitialSpeeds(numPlayers: int, draws: seq<real>) returns (speeds: seq<real>)
    requires numPlayers <= |draws|
    requires forall i :: 0 <= i < |draws| ==> 0.0 <= draws[i] < 1.0
    ensures |speeds| == if numPlayers < 0 then 0 else numPlayers
    ensures forall i :: 0 <= i < |speeds| ==> speeds[i] == RandomSpeed(draws[i])
    ensures forall i :: 0 <= i < |speeds| ==> MIN_SPEED <= speeds[i] < MAX_SPEED
  {
    speeds := [];
    var i := 0;
    while i < numPlayers
      invariant 0 <= i <= |draws|
      invariant numPlayers >= 0 ==> i <= numPlayers
      invariant numPlayers < 0 ==> i == 0
      invariant |speeds| == i
      invariant forall j :: 0 <= j < i ==> speeds[j] == RandomSpeed(draws[j])
    {
      speeds := speeds + [RandomSpeed(draws[i])];
      i := i + 1;
    }
  }
}
