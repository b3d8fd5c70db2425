# Velocity Dash race core in Dafny

Velocity Dash is a small browser racing game. This project models its core
and proves properties about it:

- **The authoritative race room of the server** (`src/pages/api/socket.ts`).
  Players join, flip their ready flag, report checkpoints and finishes,
  restart the game and disconnect. A quorum of three ready players starts a
  1 Hz countdown. At zero the countdown draws start speeds and launches a
  60 Hz race loop. The loop moves every ready, unfinished car. One firing
  after the last finish, the loop ranks the finishers and ends the race.
  - `RaceServer.RaceRoom` is a class with the room's fields and one method
    per handler.
  - Live timers are part of the state. `countdownTimers` holds the `count`
    of each running countdown interval. `raceLoops` holds the
    `lastUpdateTime` of each running race loop. `CountdownTick` and
    `RaceTick` are one firing of such a timer.
  - The record work of the handlers is done by pure methods and functions
    in `RaceServerSpec`. Each `forEach` over the players record is a loop
    method proved against a function over the record.
  - `order` keeps the keys of the players record in insertion order. That
    is the order `Object.values` visits them in, and the stable sort keeps
    it for equal finish times.
- **The single-screen local game of the page** (`src/app/page.tsx`), in
  `ClientGame`:
  - setup builds players `player1..playerN`;
  - a countdown runs;
  - each animation frame moves the cars, records at most one checkpoint per
    car and clamps finishers to the line;
  - once every car was already finished when a frame began, ranks are
    assigned by finish time.
  - `RacePage` is a class with the state variables and refs of the component.
- **The results table** (`src/components/game/leaderboard.tsx`), in
  `Leaderboard`: the comparator sort, the rank column and the winner banner.
- **The configuration** (`src/lib/game-config.ts`), in `GameConfig`: the
  checkpoint table, the speed bounds, the countdown length, the race
  distance, `getRandomSpeed` and `getInitialSpeeds`.
- **Shared pieces**:
  - `Sorting` models `Array.prototype.sort` with a comparator as a stable
    insertion sort, and `findIndex` by id. All three views use them.
  - `RaceTypes` holds the records of `src/types/index.ts` and the JavaScript
    truthiness tests the code relies on.

## Modelling choices

- **Non-deterministic inputs.** Clocks (`Date.now()`, `performance.now()`,
  animation-frame timestamps) and `Math.random()` values are parameters.
  Random draws are reals in [0, 1).
- **Numbers.** Positions, speeds and times are reals; floating-point rounding
  is not modelled.
- **Truthiness** is written out:
  - `!player.finishTime` treats 0 as "no finish time";
  - `gameState.raceStartTime` treats 0 as "no start";
  - `a.rank && b.rank` treats rank 0 as unranked.
- **Handlers run one at a time**, as the JavaScript event loop runs them. The
  caller chooses which handler or timer fires next.

### Behaviour of the code the model keeps

- **Checkpoint reports.** The handler takes any reported id as the player's
  last checkpoint, with no check that it lies ahead of the previous one, and
  draws a new speed; see `RaceServer.RaceRoom.Checkpoint`.
- **Finished position.** The `player_finish` handler stamps the time and
  leaves the position where it was; only the race loop pins a finisher at 1.
  See `RaceServerSpec.FinishRecord`.
- **Timers on restart.** The restart handler clears no interval, so a
  countdown that is still running starts a race after a restart. Several
  countdown intervals can therefore be live at once.
- **Ready counter on restart.** The restart handler zeroes the counter and
  keeps every ready flag, so `readyPlayersCount` falls behind the number of
  ready players.
- **Repeated join.** A second join from the same socket overwrites the record
  without uncounting the old one. The counter's distance to the true ready
  count grows by the old record's ready flag: by one when the old record was
  ready, by nothing when it was not.
- **Results come one firing late.** The race loop sets `allFinished` from
  the players it visits before stepping them, so the firing that stamps the
  last finish does not end the race. The same holds on the page.
- **Two clock readings at the start.** The countdown stamps `raceStartTime`
  and the race loop then reads the clock again for its first
  `lastUpdateTime`. `CountdownTick` takes both readings.

## Model

| member | source | states |
|---|---|---|
| RaceTypes.HasRank | src/components/game/leaderboard.tsx:16 | defines the truthiness of `rank` (undefined and 0 are falsy); used by Leaderboard.SortedPlayers and DisplayedRank |
| RaceTypes.FinishTruthy | src/pages/api/socket.ts:169 | defines the truthiness of `finishTime` (null and 0 are falsy); used by FinishAllowed and Leaderboard.SortedPlayers |
| GameConfig.CheckpointTableOrdered | src/lib/game-config.ts:12-23 | ten checkpoints with ids 1..10 in table order, strictly increasing thresholds inside (0, RACE_LAPS), the last one before the line |
| GameConfig.SpeedBoundsSane | src/lib/game-config.ts:26-27 | 0 < MIN_SPEED < MAX_SPEED |
| GameConfig.RandomSpeed | src/lib/game-config.ts:34-36 | for a draw in [0, 1) the speed lies in [MIN_SPEED, MAX_SPEED) |
| GameConfig.InitialSpeeds | src/lib/game-config.ts:38-44 | returns max(n, 0) speeds, the i-th drawn from the i-th random value, each within the speed bounds |
| Sorting.Insert | src/components/game/leaderboard.tsx:15 | one step of the stable insertion sort: the result is one longer and starts with the inserted element or the old head; its permutation and order properties are InsertPermutes and InsertSorted |
| Sorting.SortBy | src/components/game/leaderboard.tsx:15 | the modelled `Array.prototype.sort` keeps the length; its permutation and order properties are SortByPermutes and SortBySorted |
| Sorting.InsertPermutes | src/components/game/leaderboard.tsx:15 | inserting into the sorted part adds exactly the inserted element |
| Sorting.SortByPermutes | src/components/game/leaderboard.tsx:15 | the sorted copy is a permutation of the input |
| Sorting.InsertSorted | src/components/game/leaderboard.tsx:15 | inserting keeps every adjacent pair in comparator order when the comparator is antisymmetric |
| Sorting.SortBySorted | src/components/game/leaderboard.tsx:15 | for an antisymmetric comparator every adjacent pair of the output satisfies cmp <= 0 |
| Sorting.SortByDistinct | src/pages/api/socket.ts:182 | sorting keeps player ids distinct |
| Sorting.FindIndex | src/app/page.tsx:128 | `findIndex` by id returns the first index holding the id, or -1 exactly when no entry holds it |
| Sorting.FindIndexDistinct | src/app/page.tsx:128 | with distinct ids the id held at index i is found at i |
| Sorting.ByFinish | src/pages/api/socket.ts:67 | defines the comparator `(a, b) => a.finishTime - b.finishTime` used at src/pages/api/socket.ts:67 and :182 and src/app/page.tsx:125; its antisymmetry is ByFinishAntisymmetric and the order it produces is stated by ByFinishTime |
| Sorting.ByFinishAntisymmetric | src/pages/api/socket.ts:182 | the finish-time comparator is antisymmetric |
| Sorting.AdjacentKeysSorted | src/pages/api/socket.ts:182 | helper for ByFinishTime (the sort by `a.finishTime - b.finishTime` is ascending throughout): adjacent finish-time order extends to every pair |
| Sorting.ByFinishTime | src/pages/api/socket.ts:182 | sorting by finish time yields a permutation in ascending finish time |
| Sorting.ByFinishTimeDistinct | src/pages/api/socket.ts:182 | sorting the finishers by time keeps their ids distinct |
| Sorting.RankIndexOrdered | src/pages/api/socket.ts:65-72 | after sorting by finish time every player is found at a distinct index of the sorted list, and a strictly earlier finish is found at a strictly smaller index |
| Leaderboard.Compare | src/components/game/leaderboard.tsx:15-21 | defines the table's comparator; its antisymmetry is CompareAntisymmetric and the order it imposes is stated by SortedPlayers |
| Leaderboard.DisplayedRank | src/components/game/leaderboard.tsx:49 | defines the rank cell: `player.rank` when truthy, else `index + 1`; stated by FullRankingDisplayed |
| Leaderboard.ShowsWinner | src/components/game/leaderboard.tsx:28 | defines the winner banner's condition; stated by FullRankingDisplayed and ClientGame.ResultsTableInOrder |
| Leaderboard.CompareAntisymmetric | src/components/game/leaderboard.tsx:15-21 | the table comparator never puts each of two players after the other |
| Leaderboard.SortedPlayers | src/components/game/leaderboard.tsx:15-21 | the sorted copy is a permutation of the players. Each adjacent pair follows the comparator's rules: ranked pairs by ascending rank; a null finish never precedes a finisher unless both are ranked; two finishers by ascending finish time; otherwise by descending position |
| Leaderboard.AdjacentRanksPairwise | src/components/game/leaderboard.tsx:16 | helper for RankedTableAscending: ascending ranks between neighbours extend to every pair of rows |
| Leaderboard.RankedTableAscending | src/components/game/leaderboard.tsx:16 | when every player holds a rank, the whole table is in ascending rank order |
| Leaderboard.NoDupsCounts | src/components/game/leaderboard.tsx:15 | helper for SortedRanksDistinct (the sorted copy holds each row once): a list without repeats has every multiplicity at most 1 |
| Leaderboard.CountsNoDups | src/components/game/leaderboard.tsx:15 | helper for SortedRanksDistinct: multiplicities at most 1 mean no repeats |
| Leaderboard.SortedRanksDistinct | src/components/game/leaderboard.tsx:15 | if ranks are 1..n with none twice, the sorted copy has the same property |
| Leaderboard.FillLower | src/components/game/leaderboard.tsx:47-49 | helper for RanksFillRows (rank i + 1 in row i): in a strictly increasing list of values >= 1, the value at row i is at least i + 1 |
| Leaderboard.FillUpper | src/components/game/leaderboard.tsx:47-49 | helper for RanksFillRows: in a strictly increasing list of values <= n, the value at row i is at most i + 1 |
| Leaderboard.RanksFillRows | src/components/game/leaderboard.tsx:47-49 | a table in ascending rank order with ranks exactly 1..n shows rank i + 1 in row i |
| Leaderboard.FullRankingDisplayed | src/components/game/leaderboard.tsx:28-49 | with ranks exactly 1..n, row i of the table holds rank i + 1, the rank column shows i + 1, and the winner banner appears |
| RaceServerSpec.RoomValidUpdate | src/pages/api/socket.ts:121 | replacing a record by one with the same id and a non-negative speed keeps the room invariant |
| RaceServerSpec.SetValid | src/pages/api/socket.ts:100-111 | storing a record under its own id keeps the invariant; a new key is appended to the key order and an existing key keeps its place |
| RaceServerSpec.RemoveKeyProps | src/pages/api/socket.ts:223 | deleting a key leaves exactly the other keys, still without repeats |
| RaceServerSpec.RemoveValid | src/pages/api/socket.ts:223 | deleting a record and its key keeps the invariant |
| RaceServerSpec.Without | src/pages/api/socket.ts:41 | a cleared timer leaves the others in their order |
| RaceServerSpec.ReadyCountSameFlags | src/pages/api/socket.ts:201-209 | changes that keep the keys and every ready flag keep the number of ready players |
| RaceServerSpec.ReadyCountUpdate | src/pages/api/socket.ts:119-126 | overwriting one record changes the ready count by the change of that record's flag |
| RaceServerSpec.ReadyCountRemove | src/pages/api/socket.ts:220-223 | deleting a record lowers the ready count by one exactly when it was ready |
| RaceServerSpec.KeyOrderAfterSet | src/pages/api/socket.ts:100 | defines the key order after `players[id] = ...`: a new key goes last, an existing one keeps its place; stated by SetValid |
| RaceServerSpec.RemoveKey | src/pages/api/socket.ts:223 | defines the key order after `delete`; stated by RemoveKeyProps |
| RaceServerSpec.ReadyFlag | src/pages/api/socket.ts:110 | defines the stored flag: true only for an `isReady` of true, false when absent or false; used by JoinedPlayer and RaceRoom.Join |
| RaceServerSpec.JoinedPlayer | src/pages/api/socket.ts:100-111 | defines the record `player_join` stores; its fields are stated by RaceRoom.Join |
| RaceServerSpec.ResetPlayer | src/pages/api/socket.ts:201-209 | restart zeroes speed, position and checkpoint, sets lap 1, clears finish time and rank, and keeps id, name, colour and readiness |
| RaceServerSpec.TickPlayer | src/pages/api/socket.ts:49-60 | one step changes only position and finish time. When the move reaches 1 and the start time is truthy, the car is pinned at 1 with finish time now minus start; otherwise it sits at its moved position with its finish time unchanged. With non-negative speed and Δt a car at or before the line does not go back |
| RaceServerSpec.StartSpeeds | src/pages/api/socket.ts:140-144 | defines the record after the start-speed draw; stated by AssignStartSpeeds and StartSpeedsValid |
| RaceServerSpec.ResetAll | src/pages/api/socket.ts:201-209 | defines the record after restart; stated by ResetPlayers and ResetPlayer |
| RaceServerSpec.WithRanks | src/pages/api/socket.ts:68-72 | defines the record after the ranking `forEach`; stated by RanksUpToAt, RanksUpToUntouched and WithRanksValid |
| RaceServerSpec.RanksUpTo | src/pages/api/socket.ts:68-72 | the ranking passes keep the keys and change nothing but ranks |
| RaceServerSpec.RanksUpToAt | src/pages/api/socket.ts:68-72 | with distinct ids the player at sorted index j ends up with rank j + 1 |
| RaceServerSpec.RanksUpToUntouched | src/pages/api/socket.ts:183-187 | a record that no pass names keeps its rank |
| RaceServerSpec.WithRanksValid | src/pages/api/socket.ts:183-187 | ranking keeps the invariant and the ready count |
| RaceServerSpec.TickedValid | src/pages/api/socket.ts:48-62 | a race-loop step keeps the invariant and the ready count |
| RaceServerSpec.StartSpeedsValid | src/pages/api/socket.ts:140-144 | drawing start speeds keeps the invariant and the ready count |
| RaceServerSpec.RaceRanks | src/pages/api/socket.ts:65-72 | defines filter, sort by finish time and ranking of the record; stated by RanksFollowFinishTimes and UnfinishedKeepRank |
| RaceServerSpec.FinishedReadyPlayer | src/pages/api/socket.ts:66 | defines the filter test `p.isReady && typeof p.finishTime === 'number'`, also the nested tests at src/pages/api/socket.ts:174-175; that the filter holds exactly these records is FinishedReadyMembers |
| RaceServerSpec.FinishedReady | src/pages/api/socket.ts:65-66 | the filter yields only ready players with a finish time |
| RaceServerSpec.FinishedReadyMembers | src/pages/api/socket.ts:173-181 | the filter holds exactly the finished ready records, each once, with distinct ids |
| RaceServerSpec.RanksFollowFinishTimes | src/pages/api/socket.ts:65-72 | after ranking, every finished ready player has a rank in 1..k (k finishers), no two share a rank, and a strictly earlier finish gets a strictly smaller rank |
| RaceServerSpec.UnfinishedKeepRank | src/pages/api/socket.ts:183-187 | records that are not finished ready players keep their rank |
| RaceServerSpec.CollectFinished | src/pages/api/socket.ts:171-181 | the loop collects exactly the filtered list and reports whether every ready player has a finish time |
| RaceServerSpec.AssignRanks | src/pages/api/socket.ts:183-187 | the loop writes index + 1 into the record of each sorted player that is still present |
| RaceServerSpec.RankRoom | src/pages/api/socket.ts:171-187 | collecting, sorting and ranking produce the race ranks, report whether all ready players finished, and keep the invariant and the ready count |
| RaceServerSpec.MovedTo | src/pages/api/socket.ts:51 | with non-negative speed and Δt the moved position is not behind the old one |
| RaceServerSpec.TickedFinish | src/pages/api/socket.ts:48-60 | per record of a loop step: a moving player gets a finish time exactly when its move reaches 1 with a truthy start, is then pinned at 1 with now minus start, and otherwise sits at its moved position; finished or unready records come out unchanged, so a finish time is stamped once; only position and finish time change |
| RaceServerSpec.Moving | src/pages/api/socket.ts:49 | defines the loop's filter `player.isReady && player.finishTime === null`; used by TickedFinish and TickPlayers |
| RaceServerSpec.StartTruthy | src/pages/api/socket.ts:52 | defines the truthiness of `gameState.raceStartTime` (null and 0 are falsy); its effect is stated by TickPlayer and FinishRecord |
| RaceServerSpec.Ticked | src/pages/api/socket.ts:48-62 | defines the record after one loop step (moving players stepped, others kept); its properties are stated by TickedFinish, TickedValid and TickPlayers |
| RaceServerSpec.TickLoop | src/pages/api/socket.ts:47-62 | defines the record and `allFinished` after the loop has visited a prefix of the keys; related to Ticked by TickLoopAt and TickLoopAll |
| RaceServerSpec.TickLoopAt | src/pages/api/socket.ts:47-62 | visiting distinct keys in order steps each visited moving player once, leaves every other record alone, and keeps `allFinished` exactly when no visited key named a moving player |
| RaceServerSpec.TickLoopAll | src/pages/api/socket.ts:47-62 | visiting every key of the record is the whole race-loop step, and the flag says that every ready player has a finish time |
| RaceServerSpec.TickPlayers | src/pages/api/socket.ts:47-62 | the loop steps exactly the ready unfinished players and reports whether no ready player was unfinished |
| RaceServerSpec.AssignStartSpeeds | src/pages/api/socket.ts:140-144 | the loop gives every ready player, and only those, a drawn speed within the bounds |
| RaceServerSpec.ResetPlayers | src/pages/api/socket.ts:201-209 | the loop resets every record and keeps the shape and the ready count |
| RaceServerSpec.FinishAllowed | src/pages/api/socket.ts:169 | defines the guard of `player_finish` (known player, racing, falsy finish time, truthy start); its effect is stated by FinishRecord |
| RaceServerSpec.Stamped | src/pages/api/socket.ts:170 | defines the record with the reporting player's finish time stamped; stated by FinishRecord |
| RaceServerSpec.FinishRecord | src/pages/api/socket.ts:168-190 | when the guard fails nothing changes. Otherwise the finish time is stamped with the position left as it was, the finishers are ranked, and the phase becomes results exactly when every ready player has a finish time. The invariant and the ready count are kept |
| RaceServerSpec.RaceStep | src/pages/api/socket.ts:44-74 | a firing either steps the moving players, or, when no ready player was unfinished on entry, ranks instead of stepping. It keeps the invariant and the ready count, and with Δt >= 0 no car at or before the line goes back |
| RaceServerSpec.Elapsed | src/pages/api/socket.ts:44-46 | the seconds since the loop's last firing are non-negative when the clock has not gone back |
| RaceServerSpec.LoopFiring | src/pages/api/socket.ts:37-77 | outside racing the loop clears itself and nothing else changes. With no ready player unfinished on entry, the record is ranked, the phase becomes results and the loop clears itself. Otherwise the record is stepped by the elapsed seconds, the phase stays racing and the loop records `now`. The invariant and the ready count are kept, and with a clock that has not gone back no car at or before the line goes back |
| RaceServerSpec.ReadyRecord | src/pages/api/socket.ts:119-126 | the flag is overwritten and the counter moves only on a real flip. Re-sending the same flag changes nothing. The counter keeps its distance to the ready count |
| RaceServerSpec.LeaveRecord | src/pages/api/socket.ts:219-223 | the record and its key go, the counter drops by one exactly for a ready player and keeps its distance to the ready count |
| RaceServer.RaceRoom.constructor | src/pages/api/socket.ts:23-29 | the initial state: lobby, no players, zero count, no countdown, no start, no timers |
| RaceServer.RaceRoom.Join | src/pages/api/socket.ts:99-116 | the record is (re)created with the starting fields and the count rises for a ready arrival. A first join keeps the counter's distance to the ready count; a rejoin widens it by the old record's ready flag |
| RaceServer.RaceRoom.Ready | src/pages/api/socket.ts:118-153 | the flag and counter update of a known player, idempotence for a repeated flag, and in the lobby at quorum the countdown at 3 with one new countdown interval; unknown players change nothing |
| RaceServer.RaceRoom.CountdownTick | src/pages/api/socket.ts:131-148 | the published countdown is the interval's count minus one. Above zero only that count changes. At zero or below, the interval clears itself, the race starts at the first clock reading, ready players get speeds within the bounds, unready records are untouched, and one race loop starts whose last update time is the second clock reading (src/pages/api/socket.ts:38) |
| RaceServer.RaceRoom.Checkpoint | src/pages/api/socket.ts:155-166 | while racing, a known player's checkpoint is overwritten by the reported id, without a guard, and a new speed within the bounds is drawn; otherwise nothing changes |
| RaceServer.RaceRoom.Finish | src/pages/api/socket.ts:168-198 | the room-level effect of the finish handler as stated by FinishRecord, with counter, timers and start time unchanged |
| RaceServer.RaceRoom.RaceTick | src/pages/api/socket.ts:37-77 | outside racing the loop clears itself. If no ready player was unfinished on entry it ranks, moves to results and clears itself. Otherwise it steps the moving players by the elapsed seconds and records the time. Position never decreases for a non-negative Δt |
| RaceServer.RaceRoom.Restart | src/pages/api/socket.ts:200-216 | every record is reset, the room returns to the lobby with count 0 while the number of ready players is unchanged, and no timer is cleared |
| RaceServer.RaceRoom.Disconnect | src/pages/api/socket.ts:218-231 | a known player's record and key go and a ready one is uncounted; in the lobby below quorum the countdown and the start time are cleared |
| ClientGame.ParseNatToString | src/app/page.tsx:38 | helper for PlayerIdInjective (the `${index + 1}` part of an id): the decimal text of a number reads back as that number |
| ClientGame.PlayerIdInjective | src/app/page.tsx:38 | different setup entries get different `player${index + 1}` ids |
| ClientGame.PlayerId | src/app/page.tsx:38 | defines the id `player${index + 1}`; its injectivity is PlayerIdInjective |
| ClientGame.NatToString | src/app/page.tsx:38 | defines the decimal text of `index + 1` in the id template; that it reads back as the number is ParseNatToString, on which PlayerIdInjective rests |
| ClientGame.SetupPlayer | src/app/page.tsx:37-47 | defines the Player literal of one setup entry; stated by InitialPlayers |
| ClientGame.InitialPlayers | src/app/page.tsx:37-47 | one player per setup entry with its id, name and colour, on the start line with zero speed, lap 1, no finish time, no rank and checkpoint 0 |
| ClientGame.InitialIdsDistinct | src/app/page.tsx:37-47 | the initial ids are pairwise distinct |
| ClientGame.InitialRoster | src/app/page.tsx:37-48 | the initial list satisfies the page invariant (distinct ids, speeds >= 0, no car past the line, finished cars on the line) |
| ClientGame.WithSpeeds | src/app/page.tsx:60-63 | each player gets the speed at its own index and nothing else changes |
| ClientGame.WithSpeedsRoster | src/app/page.tsx:60-63 | giving non-negative start speeds keeps the page invariant |
| ClientGame.Crosses | src/app/page.tsx:91 | defines the checkpoint test of the frame; used by FirstCrossingSpec and LandingProps |
| ClientGame.FirstCrossing | src/app/page.tsx:90-101 | the index found lies in the checkpoint table |
| ClientGame.FirstCrossingSpec | src/app/page.tsx:90-101 | the index found is the first checkpoint the move crosses, and none is found exactly when the move crosses none |
| ClientGame.FindCrossing | src/app/page.tsx:90-101 | the scan with `break` finds the first crossed checkpoint |
| ClientGame.ClientFinishTime | src/app/page.tsx:106 | defines the stamped finish time (`performance.now() - start` with a truthy start, else 0); stated by LandingProps |
| ClientGame.Advance | src/app/page.tsx:86 | defines `player.position + player.speed * deltaTime`; that it never moves a car back is AdvanceForward |
| ClientGame.AdvanceForward | src/app/page.tsx:86 | with non-negative speed and Δt the new position is not behind the old one |
| ClientGame.Landing | src/app/page.tsx:87-116 | defines the callback's result for a racing car that moved to a given position; stated by LandingProps and OneCheckpointPerFrame |
| ClientGame.StepPlayer | src/app/page.tsx:80-117 | defines the map callback for one player; stated by StepPlayerProps |
| ClientGame.Stepped | src/app/page.tsx:80-117 | keeps the number of players; every entry is stepped by StepPlayer, and the properties of a frame are SteppedRoster and FinishedFrameMovesNobody |
| ClientGame.LandingProps | src/app/page.tsx:86-116 | for a racing car: identity, readiness and rank are kept. It finishes exactly when the move reaches RACE_LAPS; it is then clamped to RACE_LAPS with lap RACE_LAPS and the stamped time, otherwise it sits at the moved position. The checkpoint only moves forward, to one the move crossed, and a changed speed is a fresh draw within bounds |
| ClientGame.StepPlayerProps | src/app/page.tsx:80-117 | a finished car is returned unchanged, a racing car lands at its moved position, and with speed and Δt >= 0 no car at or before the line goes back |
| ClientGame.OneCheckpointPerFrame | src/app/page.tsx:90-100 | a frame records at most one checkpoint: never one beyond any checkpoint the move crossed |
| ClientGame.Land | src/app/page.tsx:86-116 | the imperative checkpoint scan, speed draw and clamping compute the landing function |
| ClientGame.StepOne | src/app/page.tsx:80-117 | the map callback returns the specified step for each player |
| ClientGame.StepAll | src/app/page.tsx:79-117 | the loop maps every player through the step and reports whether every player was finished on entry |
| ClientGame.AllFinished | src/app/page.tsx:79-84 | defines the `allFinished` flag (every player already has a finish time); StepAll returns exactly this flag of the players on entry and RunGameLoop shows results only when it holds |
| ClientGame.SteppedRoster | src/app/page.tsx:80-117 | a frame keeps the page invariant |
| ClientGame.FinishedFrameMovesNobody | src/app/page.tsx:79-83 | a frame in which everyone was already finished changes no player (results come one frame late) |
| ClientGame.FinishedOnly | src/app/page.tsx:124 | defines the filter `p.finishTime !== null`; stated by FinishedOnlyMembers, FinishedOnlyDistinct and FinishedOnlyAll |
| ClientGame.FinishOrder | src/app/page.tsx:123-125 | defines the finished players sorted by finish time; stated by FinalRanksOrdered |
| ClientGame.RankedBy | src/app/page.tsx:128-129 | defines one entry of the final map; stated by FinalRanks and FinalRanksOrdered |
| ClientGame.FinishedOnlyMembers | src/app/page.tsx:124 | the filter keeps exactly the players with a finish time |
| ClientGame.FinishedOnlyDistinct | src/app/page.tsx:124 | the filter keeps ids distinct |
| ClientGame.FinishedOnlyAll | src/app/page.tsx:124 | when every player has a finish time the filter keeps them all in order |
| ClientGame.FinalRanks | src/app/page.tsx:127-130 | the final map changes only ranks |
| ClientGame.FinalRanksOrdered | src/app/page.tsx:121-131 | with distinct ids: a player is ranked exactly when it has a finish time, ranks lie in 1..(finishers), two finishers never share a rank, and a strictly earlier finish gets a strictly better rank |
| ClientGame.AllFinishedRanksOneToN | src/app/page.tsx:121-131 | when everyone finished, the ranks are exactly 1..n, each once |
| ClientGame.ResultsTableInOrder | src/app/page.tsx:121-131 | after a complete local race, row i of the results table has rank i + 1 and the winner banner shows |
| ClientGame.FinalRanksRoster | src/app/page.tsx:127-131 | ranking keeps the page invariant |
| ClientGame.RacePage.constructor | src/app/page.tsx:20-26 | the initial page state: lobby, no players, no countdown, no race start, no pending frame |
| ClientGame.RacePage.ResetGame | src/app/page.tsx:28-34 | the pending frame is cancelled, the list emptied, the countdown and race start cleared, and the phase is lobby |
| ClientGame.RacePage.HandleSetupComplete | src/app/page.tsx:36-51 | the list becomes the initial players of the setup entries and the countdown starts at COUNTDOWN_SECONDS |
| ClientGame.RacePage.CountdownEffect | src/app/page.tsx:54-70 | above zero the count drops by one. At zero every player gets a start speed within the bounds, the phase becomes racing, the countdown is cleared, both refs take the clock and the first frame is requested. In any other state nothing changes |
| ClientGame.RacePage.RunGameLoop | src/app/page.tsx:73-137 | outside racing nothing changes. Otherwise every player is stepped by the elapsed seconds. If everyone was finished on entry and there is anyone, the phase becomes results, the list holds the final ranks of the unchanged players and no frame is requested. Otherwise the next frame is requested. The page invariant is kept |

## Left out

- The Socket.IO server setup, `safeEmit` broadcasts, toasts, console
  output and all rendering are left out. They change no modelled state.
- The HTTP handler's missing-server branch (`src/pages/api/socket.ts:81-85`)
  is left out. It concerns transport only.
- `setInterval`, `setTimeout` and `requestAnimationFrame` scheduling is not
  modelled. Each firing is a method call, and their interleaving is left to
  the caller.
- Payload types are not modelled beyond their declared types. Payloads that
  are not the declared booleans or numbers are left out: a non-boolean
  `isReady` or a non-number `checkpointId` is not represented.
- Floating-point rounding is not modelled; numbers are reals. The
  leaderboard's `toFixed` formatting is left out.
- JavaScript key-order rules for integer-like keys are not modelled. The key
  order is insertion order, which holds for socket ids, since they are never
  integer-like.
- Sorting.SortBy: V8's sort is a stable merge/insertion hybrid. The model is
  a stable insertion sort, which gives the same result for a comparator that
  is a total preorder, such as the finish-time one. The leaderboard
  comparator is only proved antisymmetric. For inputs where it is not
  transitive, V8 may order rows differently from the model. The
  leaderboard's properties are stated for adjacent pairs of the modelled
  sort.
- React re-rendering is not modelled. `runGameLoop` captures `players` from
  its render, and the effect at `src/app/page.tsx:140-155` re-subscribes the
  loop after each render. The model lets every frame see the latest state.
  The effect's cancel-on-change is reduced to the `frameScheduled` flag.
- The page's Player literal has no `isReady` field, so on the page the field
  is undefined. Nothing in `src/app/page.tsx` or
  `src/components/game/leaderboard.tsx` reads it, and `handleSetupComplete`
  drops `info.isReady`. The model stores false there; no page operation looks
  at it.
- ClientGame.RacePage.CountdownEffect: the pending one-second timeout is not
  a separate state. A call stands for the timer having fired or the count
  having reached zero.
- `GAME_FPS` and the track drawing constants are not part of this model.
