# tourjs-shared in Dafny

This project models the shared core of tourjs, a multiplayer indoor-cycling
race. Each rider has a physics tick that moves them along an elevation map
from their power, with drafting behind the riders ahead. A race state runs
those ticks for the whole roster. The server game drives the race lifecycle:
pre-race, racing, then post-race. Around that core the project models:

- the rolling power averages that re-estimate a rider's handicap;
- the elevation maps: sampled, interpolated and binary-searched;
- the client's message sequencing;
- the AI training-snapshot helpers;
- the heart-rate handicap controller;
- the workout recorder and its PWX export;
- the display formatters.

One Dafny module stands for each source file:

| module | file | source |
|---|---|---|
| `Common` | common.dfy | shared helpers: `Option`/`Result`, `Max`/`Min`, `bound` (ServerAISnapshots.ts) as `Clamp` |
| `Utils` | utils.dfy | Utils.ts |
| `RideMaps` | ridemap.dfy | RideMap.ts |
| `HandicapMaps` | ridemaphandicap.dfy | RideMapHandicap.ts |
| `SpanAverages` | spanaverage.dfy | SpanAverage.ts |
| `Riders` | user.dfy | User.ts |
| `Races` | race.dfy | RaceState.ts |
| `Messages` | communication.dfy | communication.ts, except the connection manager |
| `Connections` | connection.dfy | `ConnectionManager` in communication.ts |
| `ServerGames` | servergame.dfy | ServerGame.ts |
| `AiSnapshots` | aisnapshots.dfy | ServerAISnapshots.ts |
| `HeartRateEngines` | heartrate.dfy | heart-rate-engine.ts |
| `FileSaving` | filesaving.dfy | FileSaving.ts |

The model's conventions:

- Distances, speeds, watts and elevations are `real`. Timestamps are `int` milliseconds.
- A wire number the source tests with `isFinite` is a `JsNumber`, which is finite or not.
- The wall clock, the course's elevation profile and the transcendental slope-force factor are parameters.
- Objects whose fields the source updates in place are classes with `modifies` frames. Their state is also available as a datatype value (`State()`), which the specification functions work on.
- `assert2` in Utils.ts only logs. So each of its call sites becomes a precondition or a proved assertion, never runtime behaviour.

## Model

| member | source | states |
|---|---|---|
| Common.Clamp | ServerAISnapshots.ts:144-146 | `bound(min, v, max)` lies in [min, max] when min ≤ max, is v itself when v is already inside, and is min when the bounds are crossed |
| Utils.TestAssert | Utils.ts:9-13 | testAssert fails, with the given reason, exactly when its argument is false |
| Utils.FormatSecondsHms | Utils.ts:15-28 | the printed parts always add back up to the input. Seconds only below 60. Minutes and seconds below 3600, with 1 ≤ m < 60 and 0 ≤ s < 60. Otherwise h ≥ 1 with 0 ≤ m < 60 and 0 ≤ s < 60 |
| Utils.FormatDisplayDistance | Utils.ts:30-40 | metres exactly below 500. Kilometres are meters/1000, with 2 decimals below 10 km, 1 below 100 km and 0 beyond |
| Utils.DisplayPrecisionMonotone | Utils.ts:33-39 | once in kilometres, a longer distance never gets more decimals |
| RideMaps.SlopeOfStraightStretch | RideMap.ts:19-22 | the central difference over ±1 m gives the grade of a stretch that is straight there |
| RideMaps.FollowsIsProduct | RideMap.ts:55 | the forward scan's continue test is Δelev·slope ≥ 0 |
| RideMaps.OpposesIsProduct | RideMap.ts:42 | the backward scan's continue test is Δelev·slope ≤ 0 |
| RideMaps.BackCount | RideMap.ts:39-50 | the number of 10 m steps back the scan accepts: every step up to it is accepted and the next is not |
| RideMaps.FwdCount | RideMap.ts:52-64 | the number of 10 m steps forward the scan accepts: every step below it is accepted and that one is not |
| RideMaps.ScanHillStart | RideMap.ts:37-50 | the backward loop ends at the anchor less BackCount whole steps, with the elevation there |
| RideMaps.ScanHillEnd | RideMap.ts:51-64 | the forward loop ends at the last accepted whole step past the anchor, or at the anchor itself, with the elevation there |
| RideMaps.GetHillStatsAtDistance | RideMap.ts:23-66 | the result is null exactly when the start equals the end. Otherwise it holds the two scan ends and their elevations, and start < end |
| RideMaps.HillBracketsAnchor | RideMap.ts:27-64 | start ≤ anchor ≤ end. A start moved off the anchor is ≥ 0, and an end moved off it is < the course length |
| RideMaps.IntoAHillShape | RideMap.ts:72-84 | the IntoAHillMap course has the given length, its two pieces meet at 1.25 at 50 m, and its elevation never decreases on [0, ∞) |
| RideMaps.IntoAHillGrade | RideMap.ts:19-22 | from 51 m on, the slope the map reports is the 5 % of its linear piece |
| HandicapMaps.NewRideMapHandicap | RideMapHandicap.ts:15-32 | the constructor fails exactly on an empty distance or elevation array. Otherwise the length is the last distance, and min/maxElev bound every elevation and are elements of it |
| HandicapMaps.Bracket | RideMapHandicap.ts:42-55 | for a target strictly inside the ends, an index ix with d[ix] < target ≤ d[ix+1] |
| HandicapMaps.BracketUnique | RideMapHandicap.ts:42-55 | on strictly increasing distances, such an ix is unique |
| HandicapMaps.IndexBelowMeters | RideMapHandicap.ts:34-56 | the result is 0 at or before d[0], and the last index at or past the last distance. Strictly between, the binary search terminates with d[ix] < target ≤ d[ix+1]; on increasing distances that is the unique bracket |
| HandicapMaps.ElevationAtDistance | RideMapHandicap.ts:58-78 | the last elevation at or past the end, the first at or before 0, and always within [minElev, maxElev] |
| HandicapMaps.Interpolate | RideMapHandicap.ts:64-77 | the interpolation lies between its endpoints' bounds, and is the right elevation exactly at the right distance |
| HandicapMaps.ElevationAtSample | RideMapHandicap.ts:58-77 | at a sampled distance inside the course, the elevation is that sample's |
| HandicapMaps.PowerTransform | RideMapHandicap.ts:79-83 | 300·p/handicap is 300 when p equals the handicap, is p itself at the default handicap of 300, and for a positive handicap it is ≥ 300 exactly when p ≥ handicap |
| HandicapMaps.GetBounds | RideMapHandicap.ts:88-95 | the elevation bounds are the least and the greatest elevation: both are samples and every elevation lies between them; the distance bounds are the first and last distances |
| HandicapMaps.AsRideMap | RideMapHandicap.ts:58-87 | as a RideMap the course has the same length, transforms power by the handicap, and never leaves its elevation bounds |
| SpanAverages.StaleUpTo | SpanAverage.ts:67-81 | the eviction loop's stop: every sample before it is older than the span and the one it stops at is not |
| SpanAverages.Average | SpanAverage.ts:43-49 | getAverage is exactly 0 when not ready, and otherwise powerSum/dtSum |
| SpanAverages.SpanAverage.constructor | SpanAverage.ts:21-31 | a new average is reset to the span |
| SpanAverages.SpanAverage.Reset | SpanAverage.ts:25-31 | no samples, zero sums and anchor, and the new span |
| SpanAverages.SpanAverage.Add | SpanAverage.ts:51-84 | the new state is AfterAdd of the old one: the first add, or an add more than 2 s after the anchor, only moves the anchor. Otherwise the sample is appended with its seconds since the anchor, and the stale front is evicted |
| SpanAverages.SpanAverage.Evict | SpanAverage.ts:67-82 | exactly the stale front is dropped, in order. Its weight comes off dtSum and its work comes off powerSum, floored at 0 after each |
| SpanAverages.AddKeepsNewest | SpanAverage.ts:63-82 | a recorded add keeps the sample it just added, last |
| SpanAverages.AddKeepsDtConsistent | SpanAverage.ts:57-74 | with the clock moving forward, dtSum stays the sum of the retained samples' positive weights |
| SpanAverages.AppendKeepsDt | SpanAverage.ts:63-65 | appending adds the sample's weight to a consistent dtSum |
| SpanAverages.EvictKeepsDt | SpanAverage.ts:73-74 | evicting the first k samples takes off exactly their weight |
| SpanAverages.AddKeepsWorkConsistent | SpanAverage.ts:64-76 | for non-negative power and a forward clock, powerSum stays the work of the retained samples |
| SpanAverages.EvictKeepsWork | SpanAverage.ts:75 | on a consistent sum, the floor at zero never changes what eviction leaves |
| SpanAverages.AddKeepsWindow | SpanAverage.ts:67-82 | after a recorded add the samples stay in time order and none is older than the span |
| SpanAverages.ReadyHasWeight | SpanAverage.ts:33-48 | a ready average has positive dtSum, so getAverage never divides by zero |
| SpanAverages.NonNegativeWork | SpanAverage.ts:64 | non-negative samples have non-negative work |
| SpanAverages.FloorInactive | SpanAverage.ts:75 | the floor is inactive while powerSum covers the evicted work |
| SpanAverages.AddKeepsPowerSumNonNegative | SpanAverage.ts:64-76 | powerSum is never negative after an add of non-negative power |
| SpanAverages.RetainedWithinSpan | SpanAverage.ts:67-82 | in time order, everything from the first fresh sample on is inside the span |
| SpanAverages.ConstantStreamAverage | SpanAverage.ts:43-49 | for constant power, a ready average is exactly that power |
| Races.FinishPredicates | RaceState.ts:91-110 | all racers finished implies all humans finished. On an empty roster both hold and no human has finished. Both test distance ≥ length |
| Races.LocalUser | RaceState.ts:81-89 | the first rider with the Local flag, or none exactly when no rider has it |
| Races.TheLocalUser | RaceState.ts:81-89 | with exactly one Local rider, as asserted, getLocalUser is that rider |
| Races.NamesFor | RaceState.ts:121-128 | the name rows kept are rows of the message with the given id |
| Races.UpdatesFor | RaceState.ts:112-120 | the position rows kept are rows of the message with the given id |
| Races.PositionsAbsorbed | RaceState.ts:112-120 | after absorbing its rows, a rider is at the last row's distance and speed; no rows leave it unchanged |
| Races.RecordersAbsorbed | RaceState.ts:112-120 | absorbing rows keeps the id and finish time and stamps the packet time; no rows leave it unchanged |
| Races.FindUser | RaceState.ts:114 | getUser finds the first rider with the id, or reports that none has it |
| Races.RaceState.constructor | RaceState.ts:30-36 | map and game id stored, the unfinished-human time set to now, not stopped |
| Races.RaceState.Stop | RaceState.ts:43-45 | sets stopped and nothing else it reads |
| Races.RaceState.SecondsSinceLastNonFinishedHuman | RaceState.ts:72-74 | never negative, and the elapsed seconds when the clock is past the stamp |
| Races.RaceState.Tick | RaceState.ts:46-71 | a no-op once stopped. Otherwise the riders are ticked in list order (TickedInOrder): each rider's new state is AfterTick of its old one against the roster as the earlier riders' ticks left it, and ids and power readings are kept. Each recorder takes the finish time now exactly on the tick its rider first crosses the line (CrossedAt, FinishAfter) and is otherwise as it was. The unfinished-human time becomes now exactly when some non-AI rider is unfinished; otherwise it is unchanged |
| Races.RaceState.AbsorbPositionUpdate | RaceState.ts:112-120 | each rider absorbs exactly the rows with its id, in order; rows with unknown ids are skipped |
| Races.RaceState.AbsorbNameUpdate | RaceState.ts:121-128 | each rider absorbs exactly the name rows with its id, in order; unknown ids are skipped |
| Messages.RaceStateUpdateFor | communication.ts:68-88 | no game gives PreRace, 0 and 0x7fffffff. In PreRace the countdown is max(0, start − now) toward the scheduled start. In any other state both times are −1 |
| Messages.EvenLeftIndex | communication.ts:306 | floor(pct·n) is an index below n bracketing pct·n |
| Messages.EvenFraction | communication.ts:311-318 | the interpolation fraction lies in [0, 1], and is 0 on the left sample |
| Messages.EvenInterior | communication.ts:305-322 | the interpolated elevation lies between the two neighbouring samples |
| Messages.SpanAround | communication.ts:311-312 | the left and right sample distances bracket the distance |
| Messages.EvenSpacedElevationAsWritten | communication.ts:298-325 | before the start, the first sample. At or past the end, `elevations[length−2]`: the second-to-last sample, not the last |
| Messages.EvenSpacedElevation | communication.ts:298-325 | before the start, the first sample; at or past the end, the last sample |
| Messages.QuotientBounds | communication.ts:299-305 | the pct tests on meters/length are the tests on meters |
| Messages.EvenInteriorAtSample | communication.ts:305-322 | strictly inside, the interpolation reproduces each sample at its own distance |
| Messages.EvenSpacedAtSample | communication.ts:298-325 | with the end branch corrected, every sample is reproduced at its own distance, the last included |
| Messages.EvenSpacedAsWrittenAtSample | communication.ts:298-325 | as written, every sample except the last is reproduced; at the end the second-to-last one comes back |
| Messages.EndSampleMissed | communication.ts:303-304 | at the end of a 100 m course sampled [0, 0, 10], the as-written code returns 0 where the last sample is 10 |
| Messages.SampleDistanceIncreasing | communication.ts:195 | the sample distances (x/2000)·length strictly increase for length > 0 |
| Messages.SampledDescription | communication.ts:188-204 | at most one entry per x, one elevation per distance, each an (x/2000)·length, strictly increasing for a positive length |
| Messages.SampleKept | communication.ts:194-202 | a sample distance is in the description exactly when its x is in range and its elevation is finite |
| Messages.FirstSampleAtStart | communication.ts:194-199 | with a finite elevation at 0, the distances start at 0 |
| Messages.DescriptionInterpolable | communication.ts:188-204 | the description of a positive-length course with a finite start is a valid interpolation input for RideMapHandicap |
| Messages.NewServerMapDescription | communication.ts:188-204 | the constructor's loop builds exactly SampledDescription over x < 2000 |
| Messages.ClientToServerUpdate | communication.ts:275-296 | fails exactly without a local rider. Otherwise it carries the game id and the local rider's id and last power. lastHrm is present exactly when the current heart rate is > 0, and is then that rate |
| Messages.JoinUrl | communication.ts:157-174 | root, separator and endpoint joined, with a slash between root and endpoint |
| Messages.SeparatorAdded | communication.ts:158 | the joiner is "/" exactly when the endpoint does not start with '/' and the root does not end with it; otherwise "" |
| Connections.Admitted | communication.ts:580-586 | a timestamp is admitted exactly when it is finite and later than the last one; it then becomes the last one |
| Connections.AdmittedIncrease | communication.ts:580-586 | the timestamps admitted over a run of messages are all later than the start and strictly increase |
| Connections.Received | communication.ts:562-678 | the screening of a message: a message from another socket closes that socket, and only such a message does; with no race or no user provider the current socket is closed and the race dropped. A message is handled exactly from the last socket, on the current manager, once it parses and is admitted. Screened-out messages change no state. A handled message stores its timestamp and race state. With a race and a user provider it is dispatched, with the count taken before the increment, and the image or finish payload stored. Otherwise the race is dropped |
| Connections.RejectedChangesNothing | communication.ts:562-585 | screening out a message changes nothing, so receiving it again gives the same result |
| Connections.ReplayBounced | communication.ts:580-582 | a dispatched message, received once more, is bounced as not later than the last one |
| Connections.BumpedHandicapIsMax | communication.ts:606-620 | the local handicap after a name update is at least every finite handicap the update carries for the local rider, and at least the old one. It is one of those values |
| Connections.RaisesBounded | communication.ts:606-620 | every _onLocalHandicapChange value lies above the old handicap and at most the final one. There are none exactly when the handicap stays, and otherwise the last one is the final handicap |
| Connections.RaisesIncrease | communication.ts:606-620 | the _onLocalHandicapChange values strictly increase |
| Connections.ImageFor | communication.ts:635 | `get(id) \|\| null`: an image exactly when one is on file for the id and it is not the empty string |
| Connections.NewClientsFor | communication.ts:629-639 | notifyNewClient is called exactly for the update's clients whose id is not among the riders, each with its image on file |
| Connections.ConnectionManager.constructor | communication.ts:417-443 | no socket, race, provider or stored state; timestamp 0, no images, no updates counted |
| Connections.ConnectionManager.Connected | communication.ts:539-552 | connect's success path: the socket becomes the last one, and the race, the user provider and the game id are stored; the rest is kept |
| Connections.ConnectionManager.OnMsgReceived | communication.ts:562-678 | the new state and the outcome are Received of the old state. A dispatched name update first raises the local rider's handicap and then absorbs the names. A dispatched position update reports the unknown clients and then absorbs the positions. Nothing else touches a rider |
| Connections.ConnectionManager.Deliver | communication.ts:590-666 | the switch on the payload type: only name and position updates touch the riders, as in Delivered |
| Connections.ConnectionManager.HandleNameUpdate | communication.ts:603-624 | the local rider is raised as BumpedHandicap says, with the raises reported in order. Then every rider absorbs its name rows; the other riders keep their state otherwise |
| Connections.ConnectionManager.BumpLocalHandicap | communication.ts:607-620 | the forEach loop leaves the handicap BumpedHandicap of the rows and reports HandicapRaises; no other field changes |
| Connections.ConnectionManager.HandlePositionUpdate | communication.ts:626-645 | the unknown clients are reported as NewClientsFor says, then every rider absorbs its position rows |
| Connections.LocalUnique | RaceState.ts:81-89 | only one index can be the first rider flagged Local |
| Riders.DraftModForSpeed | User.ts:215-218 | the draft modifier lies in [1, 2]: 1 up to 10 m/s, 2 from 20 m/s, and speed/10 in between |
| Riders.Nearest | User.ts:381-396 | the pick of the forEach is a draftable rider, with its own gap and its own speed modifier |
| Riders.NearestSpec | User.ts:381-396 | the pick is no further than any draftable rider, and strictly closer than every draftable rider before it, so ties go to the earliest. There is no pick exactly when nobody is draftable |
| Riders.DraftPct | User.ts:408 | myPct lies in [0, 1] for a rider in the draft zone |
| Riders.DraftAeroMultiplier | User.ts:405-413 | myPctReduction lies between the close-edge multiplier and 1 |
| Riders.CloseMultiplierBounds | User.ts:404-406 | the close-edge multiplier 1 − (0.33/max(1, n))/mod is in [0.67, 1) for every draftee count and modifier ≥ 1 |
| Riders.DraftMultiplier | User.ts:398-425 | the aero multiplier of a tick lies in [0.67, 1], and is 1 without a leader |
| Riders.NearestIsValid | User.ts:398-400 | every pick the search returns lies in the draft zone with a modifier ≥ 1, which is what the source's assert2 there checks |
| Riders.WattsSaved | User.ts:417-420 | the watts saved are never negative |
| Riders.AeroForce | User.ts:367 | air resistance never pushes |
| Riders.DraftedAero | User.ts:417-418 | drafting scales drag down and never turns it into push |
| Riders.SlopeForce | User.ts:436-440 | the slope force pushes downhill and holds back otherwise, which is the source's assert2 |
| Riders.RollingForce | User.ts:442-444 | rolling resistance never pushes |
| Riders.NextSpeed | User.ts:447-451 | the new speed is at least 0.5 m/s |
| Riders.NextSpeedMonotone | User.ts:447-450 | more force never gives a lower new speed |
| Riders.DraftingNeverSlows | User.ts:417-450 | the same rider is never slower after a tick in a draft than after the same tick out of it |
| Riders.PositionAdvances | User.ts:453-456 | the position never passes the course's end, and on the course it never goes back |
| Riders.HistoryStaysSpaced | User.ts:459-466 | the distance history keeps every old entry, grows by at most one, and stays strictly increasing in distance with entries more than 1 s apart |
| Riders.JoulesPerCategory | User.ts:472-491 | on the course a tick adds its joules to exactly the categories that apply, and exactly one of the two halves applies |
| Riders.JoulesOffCourse | User.ts:472-495 | off the course nothing is charged; at or before the start the whole-course total becomes 0 |
| Riders.HandicapSecondsSaved | User.ts:574-579 | the saved joules over 300 W, for any non-zero handicap: the handicap cancels |
| Riders.HandicapSecondsUsed | User.ts:580-588 | the same categories, each holding its joules at 300 W |
| Riders.UiDistance | User.ts:315-322 | the reported position is the correction-free position from 1 s after the correction on, and the fully corrected one at or before it |
| Riders.UiDistanceBetween | User.ts:315-322 | the reported position always lies between the corrected and the uncorrected one |
| Riders.RecentFrom | User.ts:71-79 | where the backward loop stops: every entry from there on is inside the window, and the one before it is not |
| Riders.SumOfConstant | User.ts:77 | the loop's sum over n equal values is n times the value |
| Riders.MeanOfConstant | User.ts:80 | sum/count of equal values is that value |
| Riders.SteadyPowerAverage | User.ts:66-81 | a steady power, with a recent sample, reads back as itself |
| Riders.CrossTime | User.ts:528-533 | the interpolated crossing time lies between the two entries' times |
| Riders.CrossingFrom | User.ts:524-542 | a reported crossing lies in the past; there is none exactly when no pair of entries brackets the distance at a time before now |
| Riders.CrossingIsFirst | User.ts:524-542 | the crossing reported is the one of the first bracketing pair in the past |
| Riders.CycleRotation | User.ts:496-515 | drafteeCheck and notifyDrafteeThisCycle keep the cycle time at the larger of old and now. A notified draftee is pending. Last cycle's set is the pending one after a rotation and is kept otherwise |
| Riders.DrafteeCountedNextCycle | User.ts:496-518 | a rider who drafted a leader is counted among its draftees once its next cycle starts |
| Riders.DraftCycle.constructor | User.ts:236-241 | no draftees pending or counted, no stats, cycle time 0 |
| Riders.DraftCycle.NotifyDrafteeThisCycle | User.ts:496-506 | the cycle becomes Notified of the old one |
| Riders.DraftCycle.DrafteeCheck | User.ts:507-515 | the cycle becomes Checked of the old one |
| Riders.LastHrm | User.ts:95-100 | the last heart rate while it is at most 5 s old, else 0 |
| Riders.DataRecorder.constructor | User.ts:51-60 | power and heart rate 0, id, finish and packet times −1, no history |
| Riders.DataRecorder.PowerAverageForLastNSeconds | User.ts:66-81 | the backward loop computes RecentAverage: the mean of the newest run of samples inside the window, or nothing where the source divides 0 by 0 |
| Riders.DataRecorder.NotifyPower | User.ts:82-86 | the last power and its time are set, and the sample is appended to the history |
| Riders.DataRecorder.NotifyHrm | User.ts:90-93 | the last heart rate and its time are set |
| Riders.DataRecorder.SetFinishTime | User.ts:104-106 | only the finish time changes |
| Riders.DataRecorder.NotePacket | User.ts:116-118 | only the last packet time changes |
| Riders.DataRecorder.SetId | User.ts:120-127 | only the id changes; the assert2 checks that it toggles between set and unset |
| Riders.TickAdmitted | User.ts:353-355 | the tick runs exactly for a clock step in [0, 1) s |
| Riders.WithWattsSaved | User.ts:560-568 | setLastWattsSaved touches only the saving fields |
| Riders.DraftSavingCounted | User.ts:420-426 | past 5 m a tick adds dt times the watts saved behind its leader, or nothing without one. The leader is recorded, and position and speed are untouched |
| Riders.DraftStep | User.ts:370-427 | the drafting block leaves position, speed, history, name, handicap and flags alone |
| Riders.Accelerated | User.ts:430-451 | the speed step gives at least 0.5 m/s and leaves the position and history alone |
| Riders.Advanced | User.ts:453-466 | the position step stays on the course and does not go back. The elevation is the course's at the new position, the history stays spaced, and the speed is kept |
| Riders.MovedState | User.ts:430-495 | the motion part: speed ≥ 0.5, on the course, never backwards, elevation at the new position, history spaced, identity unchanged |
| Riders.LeaderIsAnother | User.ts:381-396 | a rider is never its own leader: its gap to itself is 0, which is outside the draft zone |
| Riders.NearestStep | User.ts:381-395 | one iteration of the forEach: a draftable rider replaces the pick exactly when it is strictly closer |
| Riders.Views | User.ts:381-387 | what the search reads of each other rider: position and speed |
| Riders.ViewsStep | User.ts:381-387 | the views of one more rider extend the views by that rider's |
| Riders.AfterTick | User.ts:349-495 | the clock is always taken. Outside [0, 1) s nothing else changes. Otherwise speed ≥ 0.5, the position stays on the course and does not go back, the elevation matches the course, the history stays spaced, and identity is unchanged |
| Riders.NameAbsorbed | User.ts:633-646 | the name is taken. A finite handicap replaces the old one and, when higher, stamps the revision time. A non-local rider takes the type flags. Position, speed and joules stay |
| Riders.NameAbsorbOwn | User.ts:633-646 | a rider absorbing its own name, type and handicap is unchanged |
| Riders.NameAbsorbIdempotent | User.ts:633-646 | absorbing the same name update twice is absorbing it once |
| Riders.LocalFlagsKept | User.ts:642-644 | a local rider stays local through any name update |
| Riders.PositionAbsorbSmooth | User.ts:655-663 | at the moment of the update the UI shows what it showed before. From 1 s later it shows the server's distance, and in between it lies between the two |
| Riders.RecorderAbsorbed | User.ts:647-666 | the packet time is stamped and the id and finish time kept. A local rider's recorder changes in nothing else. A remote rider's takes the server's power, heart rate and one more history sample |
| Riders.AbsorbedUpdateEchoes | User.ts:285-293 | after absorbing its row a rider reports it back: id, distance and speed, and for a rider that is not local also power and heart rate |
| Riders.User.constructor | User.ts:222-258 | name, mass, handicap and flags stored, the clock at tmNow, everything else zero or empty, with a fresh recorder and draftee cycle |
| Riders.User.SetHandicap | User.ts:260-263 | only the handicap changes; it may only go up except when a rider joins, which the source asserts |
| Riders.User.GetPositionUpdate | User.ts:285-293 | the row a rider sends is PositionUpdateOf its state and its recorder's |
| Riders.User.FindDraftTarget | User.ts:381-396 | the forEach computes Nearest over the other riders' views |
| Riders.User.SetLastWattsSaved | User.ts:560-568 | the new state is WithWattsSaved of the old one |
| Riders.User.Draft | User.ts:370-427 | the drafting block: the multiplier and new state are DraftStep's. The rider's cycle is rolled past 5 m, the picked leader is notified of this draftee, and the recorder is untouched |
| Riders.User.ApplyDraft | User.ts:371-426 | past 5 m: roll the cycle, then draft behind the leader or record a zero saving, as DraftedState says |
| Riders.User.DraftBehind | User.ts:398-422 | the multiplier uses the leader's count from before it is notified; the leader's cycle becomes Notified, and the saving is recorded |
| Riders.User.Move | User.ts:430-495 | the new state is MovedState of the old one; the finish time is taken exactly on the tick that crosses the line |
| Riders.User.Accelerate | User.ts:430-451 | the new state is Accelerated of the old one |
| Riders.User.Advance | User.ts:453-495 | the new state is Advanced of the old one, plus the finish time on the crossing tick |
| Riders.User.PhysicsTick | User.ts:349-495 | the new state is AfterTick of the old one. The finish time is taken only on a crossing tick, the cycle is rolled only on an admitted tick past 5 m, and only the picked leader's cycle is notified |
| Riders.User.Ride | User.ts:357-495 | past the guard: drafting, then the clock, then MovedState at the transformed power |
| Riders.User.SecondsAgoToCross | User.ts:524-542 | the loop computes CrossingFrom from the first pair |
| Riders.User.AbsorbNameUpdate | User.ts:633-646 | the new state is NameAbsorbed of the old one |
| Riders.User.AbsorbPositionUpdate | User.ts:647-667 | the new state is PositionAbsorbed, and the recorder's RecorderAbsorbed, of the old ones |
| ServerGames.HillPower | ServerGame.ts:390-393 | AIHillBrain never asks for negative power when its strength is non-negative, and on the flat it asks for strength × handicap |
| ServerGames.HillPowerMonotone | ServerGame.ts:390-393 | a steeper slope never asks for less power |
| ServerGames.SaveyBudget | ServerGame.ts:414-424 | DumbSavey's plan averages exactly the handicap: the saving stretch at fractionToSaveAt and the rest at the charge effort |
| ServerGames.SaveyPower | ServerGame.ts:414-424 | strength × handicap × fractionToSaveAt before the saving fraction of the course, and the charge effort × handicap from it on |
| ServerGames.SaveyPowerNonNegative | ServerGame.ts:402-424 | with the parameters its constructor draws, DumbSavey never asks for negative power |
| ServerGames.AiPower | ServerGame.ts:596-619 | the power an AI rider is told is never negative. It is 0 when the AIs coast. Without a brain it is handicap²/300 plus the jitter, floored at 0 |
| ServerGames.Reading | ServerGame.ts:125-174 | a window gives a reading exactly when it is ready |
| ServerGames.MeanOfThreeWithin | ServerGame.ts:177-178 | estSum/estCount lies between any bounds of the readings present |
| ServerGames.FtpEstimate | ServerGame.ts:125-178 | there is no estimate exactly when none of the 5, 10 and 20 minute windows is ready |
| ServerGames.FtpEstimateWithin | ServerGame.ts:125-178 | the estimate lies between the smallest and the largest scaled reading |
| ServerGames.Rehandicapped | ServerGame.ts:177-183 | the handicap is kept, or replaced by an estimate at least 2 % above it. Such an estimate is always taken, and the handicap never falls |
| ServerGames.Added | ServerGame.ts:112-114 | every window takes the reading with its own AfterAdd, and each stays sound |
| ServerGames.IdleReset | ServerGame.ts:125-160 | when the 5-minute window shows no output, the 10 and 20 minute windows are cleared to their lengths; all else stays |
| ServerGames.EstimateOf | ServerGame.ts:125-178 | the estimate of a rider's windows is absent exactly when none of the three shortest is ready |
| ServerGames.WindowsAfter | ServerGame.ts:109-160 | one notifyPower of a human: every window takes the reading, and the 10 and 20 minute ones are cleared exactly when then idle |
| ServerGames.HandicapNeverFalls | ServerGame.ts:105-186 | a human's handicap never falls through notifyPower, and when it changes it goes up by at least 2 % |
| ServerGames.IdleKeepsHandicap | ServerGame.ts:150-183 | five idle minutes keep a positive handicap as it is |
| ServerGames.ServerUser.constructor | ServerGame.ts:26-40 | six fresh windows of 5 to 60 minutes, cleared and sound |
| ServerGames.ServerUser.NotifyPower | ServerGame.ts:105-186 | the recorder takes the reading. An AI rider changes nothing else. A human's windows become WindowsAfter of the old ones and its handicap HandicapAfter, and the windows stay sound |
| ServerGames.ServerUser.AddToWindows | ServerGame.ts:112-114 | the windows become Added of the old ones |
| ServerGames.ServerUser.Rehandicap | ServerGame.ts:118-184 | the idle reset, then the handicap raised as Rehandicapped says on the estimate of the reset windows |
| ServerGames.ServerUser.SetPosition | ServerGame.ts:79-81 | only the position changes |
| ServerGames.IdCounter.constructor | ServerGame.ts:190 | the module's counter starts at 0 |
| ServerGames.RidersOf | ServerGame.ts:192-199 | each entry is the rider of the ServerUser at that place |
| ServerGames.Live | ServerGame.ts:199-205 | the riders getUsers keeps are exactly those of the roster with a packet in the last 300000 ms, a finish, or the Ai or Bot flag |
| ServerGames.LiveRoster | ServerGame.ts:199-205 | filtering a roster of distinct riders keeps them distinct |
| ServerGames.IndexOfId | ServerGame.ts:206-208 | the first rider with the id, or none when no rider has it |
| ServerGames.ServerUserProvider.constructor | ServerGame.ts:193-195 | an empty roster on the shared counter |
| ServerGames.ServerUserProvider.GetUsers | ServerGame.ts:199-205 | exactly the live riders of the roster |
| ServerGames.ServerUserProvider.GetUser | ServerGame.ts:206-208 | a rider with the id, or null exactly when none has it |
| ServerGames.ServerUserProvider.AddUser | ServerGame.ts:209-231 | the rider takes the counter's value as its id, and the counter moves on by one. It has the Remote flag on top of the given ones, the default mass and the request's name and handicap, and joins the end of the roster. getUser of the new id then finds it, and the ids stay distinct |
| ServerGames.ServerUserProvider.Append | ServerGame.ts:228-230 | the roster grows by the rider, which getUser finds under its id |
| ServerGames.AppendKeepsIds | ServerGame.ts:215-228 | an id taken from the counter keeps every id of the roster below the counter, which then moves past it, and new to the ids before it |
| ServerGames.FreshIdsDistinct | ServerGame.ts:215 | ids each new to the ids before them, as `userIdCounter++` hands them out, are exactly pairwise distinct ids |
| ServerGames.HumanCount | ServerGame.ts:590 | the number of humans is at most the number of riders |
| ServerGames.OneHuman | ServerGame.ts:590 | the count is at least one exactly when some rider is human |
| ServerGames.TwoHumans | ServerGame.ts:590-591 | the count is at least two exactly when two different riders are human |
| ServerGames.CoastRule | ServerGame.ts:589-591 | the AIs coast exactly when two different humans are present and none of the humans has a positive last power |
| ServerGames.PowerFor | ServerGame.ts:596-619 | the power told to an AI id is never negative, and 0 when coasting |
| ServerGames.Notified | ServerGame.ts:106 | notifyPower sets power, its time and one more history sample; nothing else of the recorder |
| ServerGames.AiPassed | ServerGame.ts:593-621 | the AI pass, rider by rider: AI riders are notified with PowerFor, the others are left alone |
| ServerGames.AisAreLive | ServerGame.ts:199-205 | every AI rider is among getUsers' riders |
| ServerGames.NotifyOne | ServerGame.ts:594-620 | one pass of the forEach: rider i's recorder becomes AiNotified, and no other recorder changes |
| ServerGames.NotifyAis | ServerGame.ts:593-621 | the forEach leaves every recorder AiNotified, keeps the ids, and does not change who is live |
| ServerGames.LifecycleStep | ServerGame.ts:626-682 | it is pre-race exactly before the scheduled start, without physics. From pre-race past the start it races with physics. Racing stays racing, with physics, while a human is out. With all humans done it stops and goes post-race exactly when all racers are done or 30 s have passed, and otherwise ticks on. Post-race stays post-race |
| ServerGames.FiveMinuteRuleUnreachable | ServerGame.ts:647-666 | the 300-second rule sits behind the 30-second one, so from Racing the race is post-race exactly when it stops |
| ServerGames.PostRaceAbsorbing | ServerGame.ts:675-678 | past the scheduled start, post-race lasts for good |
| ServerGames.NeverBackToPreRace | ServerGame.ts:626-682 | with the clock past the scheduled start, a race that has had a tick never returns to pre-race |
| ServerGames.EarlyTickIsPreRace | ServerGame.ts:626-629 | a tick before the scheduled start makes any mode pre-race |
| ServerGames.ServerGame.constructor | ServerGame.ts:474-506 | an empty roster on the shared counter, a race state for the course, one AI rider per seat with its name, handicap, Ai flag and brain under its id. The counter moves on by the seat count, the times are −1, the mode is pre-race, the game is not stopped, and the AI time is now |
| ServerGames.ServerGame.AddAi | ServerGame.ts:488-498 | one AI rider joins under the counter's next id, Remote and Ai flagged, and its brain is kept under that id |
| ServerGames.ServerGame.Stop | ServerGame.ts:536-539 | the game and its race state are stopped; nothing else changes |
| ServerGames.ServerGame.ScheduleRaceStartTime | ServerGame.ts:558-560 | only the scheduled start changes |
| ServerGames.ServerGame.AddUser | ServerGame.ts:540-557 | a Remote human joins, and getUser finds it by its new id. During post-race it counts as finished now at the end of the course, otherwise it is unfinished. Without a schedule the start becomes 5 s from now |
| ServerGames.ServerGame.Admit | ServerGame.ts:544-555 | a newcomer arriving in post-race mode is finished on the spot: its finish time is now and it stands at the course's end; otherwise it is unchanged. An unset scheduled start (negative) becomes now + 5 s, a set one is kept, and the other fields are kept |
| ServerGames.ServerGame.Tick | ServerGame.ts:573-690 | once stopped no rider, recorder or field changes. Otherwise the AI update time is stamped exactly when more than 250 ms have passed since the last one. Then mode, start time and stop follow LifecycleStep over the riders getUsers returned; when it calls for physics the live riders are ticked in list order (TickedInOrder), each live rider's finish time is set on the tick it first crosses the line (FinishAfter), and the unfinished-human time follows them; only live riders are touched |
| ServerGames.ServerGame.LiveStep | ServerGame.ts:626-690 | the lifecycle step over the riders getUsers returns now: mode, start time and stop follow LifecycleStep; with physics the riders are ticked in list order against the roster as the earlier ticks left it (TickedInOrder), otherwise their states are kept; each recorder's finish time follows its rider's crossing (CrossedAt) and nothing else in it changes; the unfinished-human time follows the non-AI riders still riding |
| ServerGames.ServerGame.UpdateLiveAis | ServerGame.ts:585-622 | the AI update leaves the riders getUsers returns, their states and their recorders' finish times as they were, and the game sound |
| ServerGames.AiPassedFinish | ServerGame.ts:593-621 | the AI pass sets power readings only: every recorder keeps its finish time |
| ServerGames.ServerGame.UpdateAis | ServerGame.ts:585-622 | the coast rule over the live riders, then every AI recorder takes PowerFor and the update time is stamped; only power readings change |
| ServerGames.ServerGame.RunLifecycle | ServerGame.ts:626-690 | the new mode, the start time, the stop and the race-state tick follow LifecycleStep. The start time is the first physics tick's and −1 before the start. With physics the riders are ticked in list order (TickedInOrder), otherwise their states are kept; each recorder's finish time follows its rider's crossing (CrossedAt); and the unfinished-human time follows the non-AI riders still riding |
| ServerGames.ServerGame.ClaimFinished | ServerGame.ts:545-549 | the joining rider's finish time is now and its position the course length; nothing else of it changes |
| AiSnapshots.PointIs | ServerAISnapshots.ts:294 | the i-th distance the loops reach by repeated `dist += step` is start + i·step |
| AiSnapshots.Profile | ServerAISnapshots.ts:294-295 | the elevation profile has one entry per sample point, each the direction times the course's elevation there |
| AiSnapshots.SampleIff | ServerAISnapshots.ts:294 | a sample index is inside the loop's range exactly when its distance is short of the course length |
| AiSnapshots.Climb | ServerAISnapshots.ts:296-298 | the climbing along a profile, the sum of its rising steps, is never negative |
| AiSnapshots.Negated | ServerAISnapshots.ts:291-295 | direction −1 turns every elevation into its negative |
| AiSnapshots.MetersLeftToClimb | ServerAISnapshots.ts:290-303 | the loop's climbAmount is the climbing along the samples every hundredth of the course from the rider to the end |
| AiSnapshots.ClimbStep | ServerAISnapshots.ts:294-300 | one more sample adds exactly the rise into it |
| AiSnapshots.UpsideDownClimb | ServerAISnapshots.ts:418-420 | climbing the upside-down profile is the descent of the profile, so metersLeftToDescend is the descent ahead |
| AiSnapshots.ClimbLessDescent | ServerAISnapshots.ts:296-298 | climbing less descent over a profile is its last elevation less its first |
| AiSnapshots.ClimbAndDescentLeft | ServerAISnapshots.ts:418-420 | the direction −1 scan measures the descent ahead, and climb less descent is the net elevation change to the last sample |
| AiSnapshots.RiseRun | ServerAISnapshots.ts:310-318 | the length of the strictly rising run of samples from a start index: every step in it rises, and the next step, if any, does not |
| AiSnapshots.MetersLeftToClimbCurrentHill | ServerAISnapshots.ts:304-321 | vertToGo is the height gained over the rising run ahead of the rider and horzToGo the distance it covers; both are non-negative |
| AiSnapshots.HillWithinClimb | ServerAISnapshots.ts:304-321 | the current hill's height lies between zero and the whole climb left |
| AiSnapshots.RisingClimb | ServerAISnapshots.ts:312-313 | over a strictly rising run the climbing is the top elevation less the bottom one |
| AiSnapshots.ClimbOfPrefix | ServerAISnapshots.ts:296-298 | a prefix of a profile never climbs more than the whole |
| AiSnapshots.AheadRun | ServerAISnapshots.ts:330-343 | the riders directly ahead in the group: each is within 10 m of the one before, and the first rider beyond them is not |
| AiSnapshots.BehindRun | ServerAISnapshots.ts:350-362 | the riders directly behind in the group, with the same 10 m rule walking backwards |
| AiSnapshots.InsertByDistance | ServerAISnapshots.ts:364 | inserting a rider adds it once and keeps every other member |
| AiSnapshots.InsertAscending | ServerAISnapshots.ts:364 | inserting into a list ordered by distance keeps it ordered |
| AiSnapshots.SortByDistance | ServerAISnapshots.ts:364 | the sorted group is a permutation of the unsorted one, ordered by distance |
| AiSnapshots.GetGroup | ServerAISnapshots.ts:323-366 | ixYou is the number of group riders ahead of the rider; the group is exactly the riders from the last one behind to the last one ahead, once each, sorted by distance; ridersAheadOfGroup counts every rider ahead of the group |
| AiSnapshots.ScanAhead | ServerAISnapshots.ts:330-343 | the forward loop pushes the riders of the forward run, in order, and stops at the first rider who has broken away. The count of riders ahead of the group is the corrected `length - ixAhead`, not the source's `length - ixAhead - 1` (see the second row of "## Findings") |
| AiSnapshots.ScanBehind | ServerAISnapshots.ts:350-362 | the backward loop appends the riders of the backward run, nearest first |
| AiSnapshots.GroupMembers | ServerAISnapshots.ts:336-356 | the riders pushed ahead, the rider and the riders pushed behind are exactly one contiguous stretch of the field |
| AiSnapshots.RidersAheadAsWritten | ServerAISnapshots.ts:340 | ridersAheadOfGroup as written: the field size less the breakaway's index less one, and 0 when nobody broke away |
| AiSnapshots.RidersAheadUndercounted | ServerAISnapshots.ts:340 | whenever someone broke away ahead, the count as written is one less than the riders ahead of the group |
| AiSnapshots.RidersAheadCounterexample | ServerAISnapshots.ts:340 | two riders 100 m apart: one rider is ahead of the group, and the count as written is 0 |
| AiSnapshots.LabelRun | ServerAISnapshots.ts:507-511 | the run of snapshots from x that stay at or beyond the labelled snapshot's distance, stopped by the first one behind it or by the window's end |
| AiSnapshots.LabelCount | ServerAISnapshots.ts:504-514 | count lies between 1 and 5, covers only snapshots of the same race (none behind the first) and stops only at a race change, the window's end or the array's end |
| AiSnapshots.TrainingSnapshotToAiLabel | ServerAISnapshots.ts:500-516 | the label is the single mean of powerNextSecond over the counted snapshots |
| AiSnapshots.PowerSumBetween | ServerAISnapshots.ts:512 | the sum of n powers each within [lo, hi] lies within [n·lo, n·hi] |
| AiSnapshots.LabelBetween | ServerAISnapshots.ts:500-516 | the label lies between the smallest and largest power it averages |
| AiSnapshots.Column | ServerAISnapshots.ts:543-544 | the column of a rectangular table holds that cell of every row |
| AiSnapshots.MaxOf | ServerAISnapshots.ts:543 | Math.max over a column: a member of it no smaller than any entry |
| AiSnapshots.MinOf | ServerAISnapshots.ts:544 | Math.min over a column: a member of it no larger than any entry |
| AiSnapshots.MinMaxConstant | ServerAISnapshots.ts:545 | a column's minimum equals its maximum exactly when every row holds the same value there |
| AiSnapshots.BoringCols | ServerAISnapshots.ts:541-549 | the killed columns, ascending: exactly the constant columns |
| AiSnapshots.DataOf | ServerAISnapshots.ts:555 | the numbers of a row of named cells, in order |
| AiSnapshots.RemoveBoringColumns | ServerAISnapshots.ts:537-570 | killCols is exactly the constant columns, ascending; every output row is its input row's numbers with those columns removed |
| AiSnapshots.StripRow | ServerAISnapshots.ts:551-564 | one row's slices between the killed columns, concatenated, are its surviving numbers |
| AiSnapshots.SurvivorsLength | ServerAISnapshots.ts:551-564 | each output row is shorter than its input by the number of killed columns |
| AiSnapshots.SnapshotPlaceOf | ServerAISnapshots.ts:376-413 | a snapshot is taken exactly when the rider has not finished, not every racer has finished, and the rider is beyond 50 m but short of the finish; it then records the distance done and to go, summing to the course length, and a completion fraction strictly between 0 and 1 |
| HeartRateEngines.AdjustPerSecond | heart-rate-engine.ts:25-36 | below the target heart rate the per-second change is positive and capped at gain·0.025·10; at or above it, it is never positive |
| HeartRateEngines.NewTargetHandicap | heart-rate-engine.ts:21-42 | without both a heart rate and power the target is kept; below the target heart rate it rises, by at most 0.25 handicaps a second at full gain; at or above it, it never rises |
| HeartRateEngines.AdjustMonotone | heart-rate-engine.ts:25-36 | the per-second change never grows as the heart-rate error shrinks |
| HeartRateEngines.HandicapFallsAsHeartRateRises | heart-rate-engine.ts:21-42 | other inputs equal, a higher heart rate never gives a higher target handicap |
| HeartRateEngines.HeartRateEngine.constructor | heart-rate-engine.ts:8-10 | the engine starts with the given heart rate |
| HeartRateEngines.HeartRateEngine.Tick | heart-rate-engine.ts:12-47 | with no user the result is 0 and nothing changes; with one, lastBpm becomes their current heart rate and the result is NewTargetHandicap of it and their last power |
| FileSaving.SamplePowerAsWritten | FileSaving.ts:8 | the power field as written reads `.power` off a number, so it is always undefined |
| FileSaving.PowerCell | FileSaving.ts:88 | a power can be written to the export exactly when it is a number, and then it is that number |
| FileSaving.SamplePowerLost | FileSaving.ts:8 | the power recorded as written never equals the rider's power, and cannot be written |
| FileSaving.SamplePowerCounterexample | FileSaving.ts:8 | at 200 W the recorded power as written is not 200 |
| FileSaving.SampleOf | FileSaving.ts:5-18 | a sample records the time, the rider's last power, distance, speed and current heart rate |
| FileSaving.SpacedApart | FileSaving.ts:35-42 | in a recording, samples q − p apart in order are at least (q − p) seconds apart in time |
| FileSaving.WorkoutFileSaver.constructor | FileSaving.ts:26-33 | the saver records its first sample only when the time is at least one second past the epoch, then remembers now as the last sample time |
| FileSaving.WorkoutFileSaver.Tick | FileSaving.ts:35-42 | one sample of the rider is appended, and the time remembered, exactly when a second or more has passed since the last sample; otherwise nothing changes |
| FileSaving.WorkoutFileSaver.GetWorkout | FileSaving.ts:44-46 | the recording has its samples at least a second apart, and the last one was taken at the remembered time |
| FileSaving.PwxSampleOf | FileSaving.ts:76-92 | an exported sample has a heart rate exactly when the recorded one is positive, the recorded distance, power and speed, and its offset in seconds from the first sample |
| FileSaving.RunMax | FileSaving.ts:74-91 | the running maximum distance: at least the start, at least every sample's distance, and one of them |
| FileSaving.LeadsIff | FileSaving.ts:76 | a sample is written exactly when it reaches the running maximum distance of those before it |
| FileSaving.WrittenStep | FileSaving.ts:75-93 | one more sample appends its export exactly when it leads, and the running maximum grows to include it |
| FileSaving.SamplesToPwx | FileSaving.ts:49-99 | no samples gives no export; otherwise the duration is the whole seconds between first and last sample, the length the distance between them, and the samples written are those that lead |
| FileSaving.WrittenOrdered | FileSaving.ts:75-93 | the written distances never decrease and lie between the first sample's distance and the running maximum |
| FileSaving.FirstWritten | FileSaving.ts:74-76 | the first sample is always written, first |
| FileSaving.AllWrittenWhenNondecreasing | FileSaving.ts:75-93 | when the distances never decrease, every sample is written |
| FileSaving.RecordedDuration | FileSaving.ts:35-63 | a recording of n samples has a duration of at least n − 1 whole seconds |

## Left out

- The wall clock (`new Date().getTime()`) is the `tmNow` parameter everywhere.
- Drawing, scenery decoration, the sign-in client and the DTO and stub files are not part of this model: they are canvas, DOM and network code with no stateable contract.
- File input and output is not modelled: the finish-result and training-snapshot writes of ServerGame.ts, and the brain loading. `ServerGame.Stop` models only the stop, not the write.
- `setTimeout` scheduling of the game tick (`_scheduleTick`) is not modelled. `ServerGame.Tick` is one tick.
- The WebSocket transport is not modelled, and neither is the HTTP `fetch` transport. This covers connecting, the startup negotiation (`_performStartupNegotiate`), reconnection and `disconnect`. A socket is a number, and a message arrives as an argument; of the HTTP helpers only the URL join is modelled.
- What a chat message and an image update do to a rider is not modelled. The source calls `setChat` on the sender (communication.ts:596-599, User.ts:265-268), which stores the chat and its time, and `setImage` on the rider (communication.ts:649-654, User.ts:622-631), which stores the image unless the rider is an AI. The model leaves the riders as they were for both; `OnMsgReceived` records only the manager's own copy of the image. Error messages only reach `assert2`. The UI callbacks and console logging are not modelled.
- `Connections.Received`: on its disconnect branch (communication.ts:669-675) the source also clears the network-tick timer. The timer is not modelled; the socket close and the dropped race are.
- `HandlePositionUpdate`: `_notifyNewClient` is a callback into the client, which normally adds the rider to the user provider. The model keeps the roster fixed across the loop over the rows. So a rider added by that callback does not stop a later row with the same id from being reported again, and it does not take its own row in the same `absorbPositionUpdate`; the source's `getUsers` would see it there.
- `ServerGames.ServerGame.Tick` does not restate what the AI pass does to the AI riders' recorders; `ServerGames.ServerGame.UpdateAis` states it (AiPassed). Tick's contract keeps the power readings its physics tick used and the finish-time rule, but not the rest of each recorder's state.
- `Races.RaceState.Tick` leaves the draftee counts free. TickedInOrder says that each rider's new state is AfterTick for some draftee count of the leader it drafts (the count `getDrafteeCount` reads from the leader's draft cycle). The contract does not tie that count to the leaders' draft cycles as the earlier riders' ticks left them. So for a rider who drafts, the draft bonus, and with it the speed and position, is not pinned down. Proving the frame facts about every draft cycle across the whole loop over the roster was beyond what the verifier could do within its resource limit. `Riders.User.PhysicsTick` states the count exactly for a single tick.
- `Races.RaceState.Tick` does not state the draft cycles' states after the tick. That is the draftee notifications each rider's tick sends to the leader it drafts, and each rider's own cycle rotation. `Riders.User.PhysicsTick` states both for a single tick (DraftStep, Checked and Notified); the reason is the same as above.
- `ServerGames.ServerGame.Tick` inherits both gaps of `Races.RaceState.Tick`: draftee counts are left free, and the draft cycles after the tick are not stated.
- `ServerGames.ServerGame.LiveStep`: as above, the draftee counts are free and the draft cycles after the tick are not stated.
- `ServerGames.ServerGame.RunLifecycle`: as above, the draftee counts are free and the draft cycles after the tick are not stated.
- `ServerGames.ServerUser.NotifyPower` requires, for a human, that the clock has moved past the anchor of every window that has one (ClockPast). SpanAverage.ts:51-65 takes any time. A reading at or before a window's anchor would record a sample of zero or negative weight. After that, getAverage could divide by a zero weight and give NaN or Infinity in JavaScript. The model keeps the windows' weights positive, so it leaves that case out.
- `ServerGames.ServerUser.AddToWindows` requires ClockPast for the same reason: the case of a sample with zero or negative weight is not modelled. `SpanAverages.SpanAverage.Add` itself takes any time.
- `Races.RaceState.Tick`: the browser-only early return of RaceState.ts:50-53 (a race that is not the main singleton, when `window` exists) is not modelled. The model takes the server's path, where `window` is undefined.
- `Utils.FormatDisplayDistance`: `toFixed` is modelled as the exact value, without its rounding to the given number of digits.
- `HandicapMaps.PowerTransform` requires a non-zero handicap. At handicap 0 the source divides by zero and gives ±Infinity or NaN, which exact reals cannot express.
- `Riders.HandicapSecondsSaved` and `Riders.User.GetHandicapSecondsSaved` require a non-zero handicap, for the same reason: the source gives NaN at 0.
- `Riders.TransformedPower`, `Riders.AfterTick` and `Riders.User.PhysicsTick` require a non-zero handicap on a handicap-normalised course and a positive mass. The source divides by both and would give ±Infinity or NaN; `Races.Rideable` carries the same demand for every rider of a race.
- `Messages.EvenSpacedElevation` and `Messages.EvenSpacedElevationAsWritten` require a positive course length and at least two samples. With fewer samples or a zero length the source reads past the array or divides by zero and gives undefined or NaN.
- `AiSnapshots.RemoveBoringColumns` requires every row to have as many columns as the first. On an empty table or a short row the source throws a TypeError (ServerAISnapshots.ts:538-543); the model does not model the throw.
- `ServerGames.AiPower`, `ServerGames.PowerFor` and the AI-update members that call them require a non-zero course length. The source divides the distance by the length and would give ±Infinity or NaN.
- `setImage`, `findUserByImage`, `getDisplay` and the plain getter properties of the users and the connection manager are not modelled. They only read or write a field.
- The global singletons (`RaceState._mainRaceState`, `ConnectionManager._this`, `userIdToUserMap`) are not modelled as globals. The race, the roster and "is this the current manager" are explicit parameters.
- The TensorFlow training code of ServerAISnapshots.ts is not modelled (model building, prediction, normalisation, testing, shuffling): it calls a foreign library and uses randomness.
- `TrainingDataPrepped` and `trainingSnapshotToAIInput` are not modelled, because they depend on JavaScript object-key order and `delete`.
- `getTerminalVelocity` is not modelled: it is a floating-point bisection with no termination bound.
- Of `takeTrainingSnapshot` only the null-return guards and the race-place fields are modelled (`SnapshotPlaceOf`). The remaining feature fields read rider getters and call `getTerminalVelocity`; this includes the `slice(0, ixMe - 1)` search for the nearest human behind at ServerAISnapshots.ts:473.
- `AiSnapshots.GetGroup` works on the sorted riders' distances and returns their indices, not the user objects.
- `AiSnapshots.SortByDistance`: the comparator of ServerAISnapshots.ts:364 never returns 0, so the order JavaScript's sort gives to riders at equal distances is unspecified. The model fixes one order, and only states that the result is sorted and a permutation.
- The slope-force trigonometry of User.ts:432-440 is the non-negative parameter `slopeFactor`. `PureCosineMap` and `AISineBrain` use sin and cos and are not modelled.
- `getAIStrengthBoostForDistance` uses `pow` and is not modelled. Math.random() values (the AI power jitter, `AIBoringBrain`, the random brain constructors and `getNextAIBrain`) and the neural brain's prediction are parameters: the jitter and the `OtherBrain` wattage.
- Floating-point rounding is not modelled; numbers are exact reals. Repeated `dist += step` in the climb scans is the exact point start + i·step (`AiSnapshots.PointIs`). A NaN or infinite number exists only where the source checks a wire value with `isFinite` (`JsNumber`).
- `toFixed`, the date stamp and the XML text of the PWX export are not modelled. The sample selection and the summary numbers are.
- `FileSaving.SamplesToPwx`: with no samples the source throws reading the first one. The model returns None and does not model the throw's message.
- `S2CFinishUpdate.getPermanentKey` (date formatting) and the `S2CFinishUpdate` sort comparator are not modelled, because the comparator is not a consistent ordering. Finish results are stored as received.
- `assert2` only logs (Utils.ts:1-8). Its call sites are preconditions or proved assertions, not runtime behaviour.

## Findings

| source | as written | input that shows it | evidently intended | confidence | as-written member | corrected member |
|---|---|---|---|---|---|---|
| communication.ts:303-304 | at or past the end of the course (pct ≥ 1) the elevation is `elevations[length - 2]`, the second-to-last sample | a 100 m course sampled as [0, 0, 10], asked for the elevation at 100 m: 0 instead of 10 | the last sample, `elevations[length - 1]`, so that the interpolation meets every sample | not executed | Messages.EvenSpacedElevationAsWritten (with Messages.EndSampleMissed) | Messages.EvenSpacedElevation (with Messages.EvenSpacedAtSample) |
| ServerAISnapshots.ts:340 | ridersAheadOfGroup is `length - ixAhead - 1`, which leaves out the rider at ixAhead who broke away | riders at 0 m and 100 m, for the rider at 0 m: 0 instead of 1 | every rider ahead of the group, `length - ixAhead` | not executed | AiSnapshots.RidersAheadAsWritten (with AiSnapshots.RidersAheadUndercounted, AiSnapshots.RidersAheadCounterexample) | AiSnapshots.GetGroup |
| FileSaving.ts:8 | the sample's power is `user.getLastPower().power`, a property read on a number, so it is undefined and the export's `toFixed` on it throws | a rider whose last power is 200 W: the sample's power is undefined, not 200 | the rider's last power, `user.getLastPower()` | not executed | FileSaving.SamplePowerAsWritten (with FileSaving.SamplePowerLost, FileSaving.SamplePowerCounterexample) | FileSaving.SampleOf |
