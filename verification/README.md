# A verified model of the server's managers

The managers of a vanilla World of Warcraft server hold self-contained algorithms: a scheduler, a
stage machine, weekly honor arithmetic, loot distribution, a search for free angles, a text format
with its editor, identifier packing, rate limits and a graph of conditions. This project models
them in Dafny 4.11 and proves what they are for. `dafny verify dfyconfig.toml` checks all of it.

Objects that the server updates in place are classes here, whose methods are proved against
functions of the old state; the laws are lemmas about those functions and about whole runs.

- **GameEvents, GameSchedules**: which game events run at a time, when that changes next, the update
  that keeps the active set in step, and what a schedule means in the minutes and days of its table.
  uint32 products and the C++ remainder of a negative number are modelled.
- **WarEffort, WarEffortRuns, WarEffortProgress**: the thirteen stages of the Ahn'Qiraj war effort, the table of
  required events per stage, the reconciliation of the active events with it, and all runs of the
  machine, between whose updates others ring the gong, change stock and let the scheduler run.
- **Honor, HonorRanks**: the breakpoint curve of a standing list, earnings, weekly decay with
  floors and level caps, ranks, the distribution over a faction and runs over weeks. Floating point
  numbers are reals; rounding to the one stored decimal is modelled.
- **LootTemplates, LootChances, LootQuests, Loot, LootSlots, LootView, LootPermissions, LootObject,
  LootRuns, LootWorlds**: templates with groups and references, what their chances mean and the test
  for quest items, lists per player, the shared uint8 counter of what is left, the slot list sent to a
  client under each permission and its decoder, the refusals of a take, and the life of a loot
  through any openings, takes and blocked rolls, in a changing world or one that stands still. Dice are an explicit sequence of choices.
- **PosSelector**: the two interleaved walks past used angles around an object.
- **DumpText, DumpSearch**: a row printed as SQL, the functions that find and replace its n-th
  value, and which rows they read back, lose track of or never finish.
- **DumpLoad, DumpPets, DumpRows, DumpPositions**: the load of a character dump line by line, with the renaming of
  items, mails, texts and pets and the changes to the character, when two pets come to share a
  number, what a load makes of printed rows, and which columns of the tables it touches.
- **ObjectGuids, PackedGuids**: 64-bit guids, the generator of their counters, and their packed
  form in packets.
- **InstanceLimits, GuardPosts**: instances per account and hour, and guards per area.
- **Conditions, ConditionTargets, ConditionRuns**: the Boolean graph of condition entries, its checks
  at load time and its meaning; the objects that leaves ask for and the test whether a condition can
  do without a player; and evaluation as the code does it, which may not end.
- **Integers, Options**: uint32 truncation, the C++ remainder, optional values.

## What the code does against its own comments and names

- An outdated game event that is restarted with its schedule overwritten runs for `length` seconds,
  although `length` counts minutes (`GameEvents.RestartedRunsSeconds`); a restarted event runs its
  whole length if and only if its end leaves room for it (`GameEvents.RestartedRunsSpanIff`). An
  overwriting stop can be undone by the next update (`GameEvents.OverwrittenStopHoldsIff`).
- `CONDITION_NOT` is documented as the opposite of one condition; the code makes it true as soon as
  its third or fourth condition is (`Conditions.NotIsOppositeIff`). Those two values are not checked
  when the store is loaded (`Conditions.SelfReferencePasses`), so an evaluation may never end
  (`ConditionRuns.SelfReferenceNeverEnds`, `ConditionRuns.EndsIff`); and `CanBeUsedWithoutPlayer`
  overlooks them (`ConditionTargets.ExtraOverlooked`).
- `CanBeUsedWithoutPlayer` overlooks the flag that swaps source and target as well. It permits a
  swapped leaf that asks for a source (`ConditionTargets.SwappedSourceOverlooked`) and refuses one that
  asks for a target (`ConditionTargets.SwappedTargetRefused`); `ConditionTargets.UsableIff` says exactly
  when its answer is right, and without swaps a refusal always is (`ConditionTargets.UsableWithoutSwaps`).
- Disabling a condition makes it behave as if its outcome were false. With its objects missing and
  its result reversed it is met, though, where any entry with missing objects is not
  (`Conditions.DisabledLeafIff`).
- `Loot::isLooted` reads a uint8 counter that runs over (`LootRuns.FullLootLooksEmpty`). It also
  misses conditional items that became available to a player after the loot was opened: they can be
  taken without having been counted (`LootRuns.UncountedTakeReached`, `LootSlots.TakenConservedIff`).
  While the world stands still that cannot happen (`LootWorlds.StillRunConserved`).
  `leaveOnlyQuestItems` sets it to zero whatever quest items are left
  (`LootRuns.LeftQuestItemUncounted`, `LootRuns.LeavingQuestItems`).
- Loot for both factions drops items that the team test refuses (`LootTemplates.OnlyAllowedDropsIff`).
- `LootStore::HaveQuestLootFor` looks references up in its own store, processing in the reference
  store (`LootTemplates.OwnStoreMissesQuestDrop`, `LootQuests.OwnStoreNeverMissesIff`).
- The level cap can cost a rank that the decay floor protects (`HonorRanks.LevelCapCostsRank`), but
  only from points above the cap, which no run of weeks reaches while levels do not fall
  (`HonorRanks.RankNeverLost`). Rank 0 is also the rank of exactly -15000 points
  (`HonorRanks.RankZeroIff`).
- `findnth` searches the first value from the same place again when it meets an escaped quote, and
  so does not end (`DumpSearch.EscapedFirstValueIsEndless`, `DumpSearch.EndlessIff`). A NULL shifts
  the numbering: only NULLs at the end do no harm (`DumpText.NullMisleads`,
  `DumpSearch.AllValuesRecoveredIff`).
- Behind a later value that holds an escaped quote the search jumps four characters, as if a value
  had ended: an apostrophe near the end of a value loses step with the fields
  (`DumpSearch.ApostropheNearEnd`, `DumpSearch.InStepIff`).
- A pet with an empty id lets the next pet share its new id (`DumpRows.EmptyPetIdIsShared`,
  `DumpPets.LoadKeepsPetsIff`).
- A mail without text refers to text 0; loading a dump turns that into a fresh id
  (`DumpRows.ZeroStaysZeroIff`).
- Behind the used positions `NextPosibleAngle` compares signed angles and not distances: the small steps
  of the two sides do not alternate, the negative side goes on until it ends (`PosSelector.TurnIs`).
- The overflow stop of the guid generator does not end the call that asks for it
  (`ObjectGuids.ObjectGuidGenerator.Generate`).

## Model

| member | source | states |
|---|---|---|
| GameEvents.StatusConstantUntilNextCheck | src/game/GameEventMgr.cpp:39-70 | No transition is missed: from `now` until the announced next check the status of an event does not change, at any time, with the leap-day window where C++ `%` is negative and the uint32 products included |
| GameEvents.ExactNextCheck | src/game/GameEventMgr.cpp:46-70 | The status changes exactly at the announced time if and only if an open window closes there, by its length with a pause behind it or by the end of the event, or a window opens there before that end |
| GameEvents.CalledKeepsValid | src/game/GameEventMgr.cpp:72-155 | Starting, stopping and enabling events never activates an unusable slot and never changes number, kind, length or period of events |
| GameEvents.AllCalledKeepsValid | src/game/GameEventMgr.cpp:605-620 | The same over any sequence of such calls made by the hardcoded events |
| GameEvents.OverwrittenStartRuns | src/game/GameEventMgr.cpp:91-96 | A usable event that is started with its schedule overwritten runs at once |
| GameEvents.RestartedRunsSeconds | src/game/GameEventMgr.cpp:91-96 | An outdated event that is restarted that way runs for `length` seconds, although `length` counts minutes |
| GameEvents.RestartedRunsSpanIff | src/game/GameEventMgr.cpp:91-96 | Any restarted event runs for its whole length from now on if and only if its old end is at least that far away or, for an outdated one, its length in minutes is no more than so many seconds |
| GameEvents.OverwrittenStopHoldsIff | src/game/GameEventMgr.cpp:107-112 | An overwriting stop of an event that has not ended keeps it stopped if and only if it has no leap days and pauses between occurrences; otherwise the schedule starts it again at once |
| GameEvents.GameEventMgr.StartEvent | src/game/GameEventMgr.cpp:72-97 | State after a start, with the restart of the schedule that `overwrite` asks for; an unusable id changes nothing |
| GameEvents.GameEventMgr.StopEvent | src/game/GameEventMgr.cpp:99-113 | State after a stop, with the schedule moved back by one length when overwritten |
| GameEvents.GameEventMgr.EnableEvent | src/game/GameEventMgr.cpp:115-153 | Enabling never starts an event; a change of the flag stops an active one that is not of the hardcoded list |
| GameEvents.GameEventMgr.UpdateHardcoded | src/game/GameEventMgr.cpp:611-620 | The hardcoded events are updated in list order, each seeing what the ones before did; the smallest delay is kept |
| GameEvents.GameEventMgr.UpdateRegular | src/game/GameEventMgr.cpp:622-655 | The loop brings every enabled regular event in step and returns the smallest of all delays |
| GameEvents.GameEventMgr.Update | src/game/GameEventMgr.cpp:605-660 | One tick: whatever the hardcoded events did first, an enabled regular event is active exactly when the schedule says so and stays right until the returned delay minus its added second, which is the minimum of all delays |
| GameEvents.StaysInStep | src/game/GameEventMgr.cpp:605-660 | The active set after a tick is right for every second up to the smallest next check |
| GameEvents.RunStaysInStep | src/game/GameEventMgr.cpp:605-660 | Over any run of updates at the announced times every scheduled event is in step at every second, except in the last second before an update, and there only if its status changes in that second |
| GameSchedules.RunsInOccurrences | src/game/GameEventMgr.cpp:39-44 | From its first occurrence, behind the leap days, to its end an event runs exactly when the time lies in an occurrence: `length` minutes long, one every `occurence` minutes |
| GameSchedules.SameOnePeriodLater | src/game/GameEventMgr.cpp:39-44 | `occurence` minutes later the schedule says the same |
| GameSchedules.RunsThroughLeapDays | src/game/GameEventMgr.cpp:39-44 | While the leap days behind its start last an event runs all the time |
| GameSchedules.RunsOnlyBetween | src/game/GameEventMgr.cpp:39-44 | Before its start and from its end on an event does not run |
| GameSchedules.DelayOutside | src/game/GameEventMgr.cpp:46-57 | The next look at an outdated event is a day away, at one to come due at its start |
| GameSchedules.StartDoes | src/game/GameEventMgr.cpp:72-97 | A start makes the event active and touches no other; overwritten, its schedule begins now and lets it run |
| GameSchedules.StopDoes | src/game/GameEventMgr.cpp:99-113 | A stop makes the event inactive and touches no other; overwritten, its last occurrence counts as just over, and it runs again at once exactly if it has leap days or no pauses |
| GameSchedules.EnableDoes | src/game/GameEventMgr.cpp:115-153 | Switching an event on or off starts nothing; a change of the flag stops it if it is active and not of the hardcoded list |
| GameSchedules.UpdateDecides | src/game/GameEventMgr.cpp:622-655 | The regular part of an update makes every event active exactly when its schedule says so, except event 0, disabled and hardcoded ones, which stay as they are |
| GameSchedules.HardcodedDelay | src/game/GameEventMgr.cpp:607-620 | The hardcoded part announces the smallest delay of the events that are enabled when their turn comes, and at most a day |
| WarEffort.CancelCommon | src/game/HardcodedEvents.cpp:1431-1447 | The in-place erase loop leaves in each list exactly its elements that the other does not have, in their order |
| WarEffort.ReconciledFollowsRow | src/game/HardcodedEvents.cpp:1395-1471 | After the reconciliation a tracked event is active if and only if the stage's row lists it, untracked events are untouched, whatever was active before |
| WarEffort.RowsAreTracked | src/game/HardcodedEvents.cpp:1132-1164 | Every event of every row is among the tracked events, and neither list repeats an event, so that no row can leave an event on for good; the gate is in the rows up to GONG_WAIT only |
| WarEffort.WarEffortEvent.EnableAndStartEvent | src/game/HardcodedEvents.cpp:1501-1510 | An inactive event ends up enabled and active, an active one is left as it is |
| WarEffort.WarEffortEvent.DisableAndStopEvent | src/game/HardcodedEvents.cpp:1512-1519 | The event ends up inactive and disabled |
| WarEffort.WarEffortEvent.Reconcile | src/game/HardcodedEvents.cpp:1395-1471 | Collecting, cancelling, stopping and starting have the effect of one change of the tables: stop what is not required, start what is missing |
| WarEffort.WarEffortEvent.UpdateStageEvents | src/game/HardcodedEvents.cpp:1395-1471 | The tables follow the row of the current stage |
| WarEffort.WarEffortEvent.UpdateWarEffortCollection | src/game/HardcodedEvents.cpp:1307-1356 | The stage becomes READY exactly when every objective is stocked and complete; the transition time is saved then |
| WarEffort.WarEffortEvent.CompleteWarEffort | src/game/HardcodedEvents.cpp:1377-1393 | Gate and colossus battles are off, the stage stays COMPLETE and is saved |
| WarEffort.WarEffortEvent.UpdateStage | src/game/HardcodedEvents.cpp:1199-1302 | Next stage, saved variables and tables for each stage below COMPLETE |
| WarEffort.WarEffortEvent.Update | src/game/HardcodedEvents.cpp:1179-1305 | One update as one step of the stage machine, saved variables and event tables included |
| WarEffortRuns.StepKeepsInv | src/game/HardcodedEvents.cpp:1179-1305 | In every run in which others only ring the gong, change the stock and let the scheduler run: the stage stays or advances by exactly one, COMPLETE is final, the gong time is not zero from GONG_RUNG on |
| WarEffortRuns.StagesGrow | src/game/HardcodedEvents.cpp:1179-1305 | Over any number of updates stages never go back and never skip one |
| WarEffortRuns.GateNeverReturns | src/game/HardcodedEvents.cpp:1252-1271 | From the update that reaches BATTLE on, the gate event is never active again, the rows of later stages and the scheduler included |
| WarEffortRuns.TransitionTimeIsEntryTime | src/game/HardcodedEvents.cpp:1358-1369 | The saved transition time is the time at which the run entered its current stage |
| WarEffortRuns.StageOutlastsThreshold | src/game/HardcodedEvents.cpp:1207-1301 | A timed stage is left only after its threshold has passed since it was entered |
| WarEffortRuns.StageIsEntered | src/game/HardcodedEvents.cpp:1199-1302 | Between two stages of a run each stage in between is entered by some update |
| WarEffortRuns.TransitTime | src/game/HardcodedEvents.cpp:1199-1302 | The thresholds of all stages a run passes through add up to a lower bound of the time it takes |
| WarEffortRuns.MarchTakesFiveDays | src/game/HardcodedEvents.cpp:1217-1227 | From the end of the collection to the wait for the gong a run takes more than five marching days |
| WarEffortProgress.TimedStageLeftIff | src/game/HardcodedEvents.cpp:1207-1285 | In any run an update leaves a timed stage exactly when more than its time has passed since the stage was entered: 600 seconds for READY, 86400 for each march, 14400 for BATTLE and CH_ATTACK |
| WarEffortProgress.UntimedStageLeftIff | src/game/HardcodedEvents.cpp:1199-1302 | In any run an update leaves COLLECTION exactly when all stock is complete, GONG_WAIT exactly when the gong was rung, GONG_RUNG always, FINALBATTLE exactly when more than 36000 seconds have passed since the gong, and COMPLETE never |
| WarEffortProgress.OthersKeepStage | src/game/HardcodedEvents.cpp:1179-1305 | Rings of the gong and scheduler ticks never change the stage |
| WarEffortProgress.GongIsLastRing | src/game/HardcodedEvents.cpp:1241-1258 | The saved gong time is the time of the last ring in the run |
| WarEffortProgress.AutomaticIff | src/game/HardcodedEvents.cpp:1307-1314 | In any run the automatic contribution comes exactly with updates that find the collection and more than its period passed since the last one |
| WarEffortProgress.MarchEnds | src/game/HardcodedEvents.cpp:1207-1228 | With an update every so many seconds the march to GONG_WAIT is over 432600 seconds and six such gaps behind the collection |
| WarEffortProgress.RowShows | src/game/HardcodedEvents.cpp:1132-1164 | Which stages show which event, by the event ids: troops of each march day from that march on, crystals with the battle, the gate until the gong is rung, and so on |
| WarEffortProgress.SwitchedAreEnabled | src/game/HardcodedEvents.cpp:1395-1519 | An event a stage brings is enabled, one it takes away is disabled, and nothing else in the table of events changes |
| WarEffortProgress.UpdateShows | src/game/HardcodedEvents.cpp:1179-1305 | Behind an update below COMPLETE the switched events are those of its stage, the war effort and the battles of slain colossi run, and all other events are as before |
| WarEffortProgress.CompleteShows | src/game/HardcodedEvents.cpp:1184-1192 | Behind an update in COMPLETE only representatives, officers and the events behind the war are left of all that the war effort switches |
| Honor.GetStandingCPByPosition | src/game/HonorMgr.cpp:35-46 | Contribution points at a position counted from one, zero off the list |
| Honor.BreakpointsFall | src/game/HonorMgr.cpp:545-569 | For every standing list the breakpoint positions fall strictly and stay positive, the fake player pool included |
| Honor.ScoresRise | src/game/HonorMgr.cpp:575-611 | The contribution column of the curve never falls and is zero only from the bottom up |
| Honor.CurveIsCurve | src/game/HonorMgr.cpp:545-617 | Every standing list gives a curve on which earnings can be looked up without index -1 and without a division by zero |
| Honor.GenerateScores | src/game/HonorMgr.cpp:545-617 | The loops fill the columns with the curve of the list; the alternative for the top scorer inside the loop never fires |
| Honor.CalculateRpEarning | src/game/HonorMgr.cpp:619-632 | The search and interpolation return the earning of the curve |
| Honor.EarningInSegment | src/game/HonorMgr.cpp:619-632 | An earning lies between the rank points of its segment, hence in [0, 13000] |
| Honor.EarningRises | src/game/HonorMgr.cpp:619-632 | Who contributes more never earns less |
| Honor.EarningOnChord | src/game/HonorMgr.cpp:619-632 | Between two neighbouring points of the curve earnings lie on the straight line through them |
| Honor.EarningsFallDownTheStandings | src/game/HonorMgr.cpp:230-258 | Down the standings nobody earns more than a player above |
| Honor.TopScorerEarnsMost | src/game/HonorMgr.cpp:545-632 | The head of every list earns the full 13000 points |
| Honor.BreakpointsAre | src/game/HonorMgr.cpp:545-569 | Each breakpoint is its share of the faction in thousandths, of 800 players at least, rounded to the nearest place |
| Honor.ScoreIsAverage | src/game/HonorMgr.cpp:575-600 | A score is the average of the two players around a place, counting none as zero |
| Honor.CurveIs | src/game/HonorMgr.cpp:571-617 | The contribution column is made of the scores at the breakpoints, with zero below and the contribution of the first player on top |
| Honor.EarningAtBreakpoint | src/game/HonorMgr.cpp:571-632 | Who contributes what a breakpoint stands at earns 0, 400, 1000, 2000 and so on to 12000 points |
| HonorRanks.DecayLosesAtMost2500 | src/game/HonorMgr.cpp:634-674 | Before the level cap a week never takes more than 2500 points |
| HonorRanks.HalfOfWhatIsMissing | src/game/HonorMgr.cpp:653-664 | Who earns less than a fifth of the points, rounded, loses half of what is missing, at most 2500; who earns more gains the difference |
| HonorRanks.FloorTakesOver | src/game/HonorMgr.cpp:665-673 | A rank earned once sets a floor and changes nothing else |
| HonorRanks.FloorsAre | src/game/HonorMgr.cpp:637-652 | The floors: 2000 points for rank 6, 5000 for rank 7, 5000 more for each rank behind it |
| HonorRanks.IdleWeekTakesATenth | src/game/HonorMgr.cpp:653-664 | An idle player with up to 25000 points and no floor loses a tenth of them, to within a quarter of a point |
| HonorRanks.EarningMoreKeepsMore | src/game/HonorMgr.cpp:634-674 | Who earns more in a week is never left with fewer points |
| HonorRanks.PointsSettleAtFiveEarnings | src/game/HonorMgr.cpp:653-664 | Under a constant whole earning points grow below and shrink above five times that earning, to within rounding, and stay exactly in between |
| HonorRanks.DecayStaysInRange | src/game/HonorMgr.cpp:634-674 | Points from [0, 65000] stay in [0, 65000]; the floor lookup stays in bounds for highest ranks up to 18 |
| HonorRanks.LevelCapRises | src/game/HonorMgr.cpp:676-691 | A higher level never has a lower cap |
| HonorRanks.LevelCapSteps | src/game/HonorMgr.cpp:676-691 | The cap is 6500 points up to level 29, and what each further level adds to it |
| HonorRanks.PointsWithinRankLimits | src/game/HonorMgr.cpp:1035-1088 | Positive points up to 65000 lie between the lower and upper limit of the rank they give |
| HonorRanks.RanksAre | src/game/HonorMgr.cpp:1035-1088 | The ranks in numbers, with their limits and the rank shown |
| HonorRanks.DishonorRanksAre | src/game/HonorMgr.cpp:1035-1088 | The ranks of negative points in numbers, and the limits of no rank |
| HonorRanks.RankRises | src/game/HonorMgr.cpp:1056-1088 | More points never mean a lower rank |
| HonorRanks.RankFloorIsRankLimit | src/game/HonorMgr.cpp:634-656 | The floor table of the decay is the table of lower rank limits, and reaching a floor is the same as reaching the rank |
| HonorRanks.DecayKeepsRank | src/game/HonorMgr.cpp:634-674 | Before the level cap a week never costs a rank earned once (6 to 18) |
| HonorRanks.CappedDecayKeepsRankIff | src/game/HonorMgr.cpp:245-256 | With the level cap the rank is kept if and only if the cap of the level reaches the rank's lower limit |
| HonorRanks.LevelCapCostsRank | src/game/HonorMgr.cpp:245-256 | Concrete week: 61000 points of rank 18, which lie above the cap of level 29, do not keep that rank |
| HonorRanks.LossNeedsPointsAboveCap | src/game/HonorMgr.cpp:245-256 | A week costs a rank only if the points before it lie above the level cap |
| HonorRanks.RankZeroIff | src/game/HonorMgr.cpp:1056-1088 | Rank 0 is given for 0 points and, against its meaning, for exactly -15000 |
| HonorRanks.FlushKeepsBetterRank | src/game/HonorMgr.cpp:332-360 | For points that are not negative the flush stores the better of the current and the highest rank |
| HonorRanks.StoringKeepsWholeBounds | src/game/HonorMgr.cpp:340-356 | Storing points with one decimal never crosses a whole number |
| HonorRanks.WeekStaysInRange | src/game/HonorMgr.cpp:230-360 | Every active or inactive week keeps points in [0, 65000] and the highest rank at most 18, and never lowers the highest rank |
| HonorRanks.RunStaysInRange | src/game/HonorMgr.cpp:230-360 | The same over any number of weeks, each starting from what the week before stored |
| HonorRanks.WeekStaysUnderCap | src/game/HonorMgr.cpp:230-360 | Every week keeps points and the floor of the highest rank under the level cap, and the points worth the highest rank |
| HonorRanks.RankNeverLost | src/game/HonorMgr.cpp:230-360 | No run of weeks in which levels do not fall costs a rank (6 to 18), if the points start below the level cap and are worth the highest rank |
| HonorRanks.FreshRunsKeepRanks | src/game/HonorMgr.cpp:230-360 | In particular no player who starts without points ever loses a rank to the weekly maintenance while levels do not fall |
| HonorRanks.RankKeptUnderCaps | src/game/HonorMgr.cpp:230-360 | From any points: a run whose level caps all reach the floor of a rank never falls below that rank once it was reached |
| HonorRanks.HonorMaintenancer.DistributeRankPoints | src/game/HonorMgr.cpp:230-263 | Every listed player with a score gets earning, new points and standing of the place among the scored; all other scores stay |
| HonorRanks.HonorMaintenancer.InactiveDecayRankPoints | src/game/HonorMgr.cpp:265-277 | Exactly the scores of inactive players decay, with no earning and no level cap |
| HonorRanks.HonorMaintenancer.FlushRankPoints | src/game/HonorMgr.cpp:332-360 | The rank stored for every player |
| HonorRanks.DistributionFollowsStandings | src/game/HonorMgr.cpp:230-263 | After a distribution a better position has the better standing number and no lower earning, and new points are in range |
| LootTemplates.AddEntryKeepsContent | src/game/LootMgr.cpp:1121-1132 | Loading a template keeps every entry exactly once, grouped or not |
| LootTemplates.AddEntryKeepsWellFormed | src/game/LootMgr.cpp:1294-1304 | Groups hold plain entries of their own number only, sorted by kind of chance |
| LootTemplates.Roll | src/game/LootMgr.cpp:1134-1181 | The loop over explicit chances, each taken off the roll, and the choice among equal ones give the item of the group |
| LootTemplates.ExplicitRollIff | src/game/LootMgr.cpp:1136-1152 | One of the explicit entries drops if and only if the roll is below the sum of the allowed chances |
| LootChances.HitIsPicked | src/game/LootMgr.cpp:1136-1152 | An explicit entry is picked on every roll that lies in its share, behind the allowed chances before it |
| LootChances.PickedIsHit | src/game/LootMgr.cpp:1136-1152 | An explicit entry is picked only on such rolls |
| LootChances.EqualPick | src/game/LootMgr.cpp:1153-1156 | Of entries with equal chance the throw names the one that drops, each having its turn |
| LootChances.EqualPickAllowed | src/game/LootMgr.cpp:1157-1168 | With conditions the throw chooses among the allowed ones in their order |
| LootTemplates.GroupRollAllowed | src/game/LootMgr.cpp:1134-1172 | In the loot of one faction a group drops only what that faction may get |
| LootTemplates.OnlyAllowedDropsIff | src/game/LootMgr.cpp:1153-1172 | In general a group never drops what is not allowed if and only if the loot belongs to one faction, or the allowed explicit chances leave no roll over, or all its equal entries are allowed |
| LootTemplates.DropsAreReachable | src/game/LootMgr.cpp:1307-1341 | Whatever the dice, only entries reachable through references drop, for a group reference only from the named group; processing ends when whole-template references are acyclic |
| LootChances.PlainTemplateDrops | src/game/LootMgr.cpp:275-342 | A template of single plain entries drops exactly those with a chance of 100 or whose own throw lies below chance times rate, in order |
| LootChances.DropsIff | src/game/LootMgr.cpp:1307-1341 | What drops from any template: exactly what some entry that takes its chance brings, a reference in each of its rounds, and what the groups pick |
| LootChances.GroupReferenceDrops | src/game/LootMgr.cpp:1307-1316 | A reference to one group drops what that group picks, and nothing when there is no such group |
| LootChances.NoChanceNoDrop | src/game/LootMgr.cpp:275-288 | With fair dice an entry whose chance times rate is not positive never drops |
| LootChances.MoreChanceStillDrops | src/game/LootMgr.cpp:275-288 | With the same throws an entry that dropped drops with any larger chance as well |
| LootTemplates.HasQuestDropIff | src/game/LootMgr.cpp:1344-1373 | The quest-drop test is true if and only if some reachable entry drops for a quest or starts one |
| LootTemplates.NoQuestDropWithoutQuestEntry | src/game/LootMgr.cpp:1307-1373 | When the test is false over the reference store, no dice make a quest item drop |
| LootTemplates.OwnStoreMissesQuestDrop | src/game/LootMgr.cpp:210-218 | Concrete stores: asked with its own store, as HaveQuestLootFor does, the test can be false although a quest item drops |
| LootQuests.OwnStoreNeverMissesIff | src/game/LootMgr.cpp:210-218 | The test asked with the own store is right for every reference store if and only if it answers yes or the template has no reference |
| LootQuests.AgreeingStoresSameAnswer | src/game/LootMgr.cpp:1344-1373 | Two stores that agree on every id to which the references of a template lead give the same answer |
| Loot.AddedConserved | src/game/LootMgr.cpp:473-497 | Adding an item, capped or not, keeps the shared counter equal to what is left to take (modulo 256, as a uint8) |
| Loot.AddedIs | src/game/LootMgr.cpp:473-497 | A dropped item starts untouched, is kept while there is room among 16 ordinary or 32 quest items, and is counted at once only if everybody may take it and once |
| Loot.FilledForGrows | src/game/LootMgr.cpp:563-678 | Making a player's three lists raises the counter by exactly what it adds to what is left, also on a repeated opening |
| Loot.DistributionConserved | src/game/LootMgr.cpp:473-678 | Conservation over any items followed by any players with repeats: the counter is the number of unconditional shared items, claimed conditional items, blocked quest items and free-for-all entries per player |
| LootSlots.TakenKeepsInv | src/game/Handlers/LootHandler.cpp:135-238 | List invariants survive every take that the server allows, accounted for or not |
| LootSlots.TakenCounts | src/game/Handlers/LootHandler.cpp:135-238 | Taking an item that was counted leaves exactly one less to take; otherwise nothing less is left |
| LootSlots.TakenConservedIff | src/game/Handlers/LootHandler.cpp:135-238 | The counter stays right through a take that the server allows if and only if the item was counted |
| LootSlots.TakeAfterOpeningIsAccounted | src/game/LootMgr.cpp:563-678 | Whatever a player without lists may take right after opening the loot was counted |
| LootView.ShownSlotsDecode | src/game/LootMgr.cpp:883-1027 | Slot round trip: every slot on a viewer's list is below 16 and decodes to the very item shown, quest slots never colliding with ordinary ones |
| LootView.SlotsFit | src/game/LootMgr.cpp:854-858 | No player has more than 16 slots after any fill |
| LootView.ViewIsExact | src/game/LootMgr.cpp:883-1027 | With unrestricted permission and no turn to wait for, the list shows exactly the slots in which something is offered to the player |
| LootPermissions.GroupShows | src/game/LootMgr.cpp:907-938 | In a group: an item that is rolled for is shown as such, any other as free, below the threshold only to the player whose turn it is |
| LootPermissions.RoundRobinShows | src/game/LootMgr.cpp:939-957 | Taking turns: everything is shown as free to the player whose turn it is, to all if it is nobody's |
| LootPermissions.OthersShow | src/game/LootMgr.cpp:958-988 | A master looter is shown everything as hers to hand out, an owner and everybody else as free |
| LootPermissions.QuestShows | src/game/LootMgr.cpp:993-1016 | A quest item is shown as free until it is gone, or while a turn of another player with a quest list lasts |
| LootPermissions.FFAIff | src/game/LootMgr.cpp:1018-1029 | The free-for-all lines are exactly the entries that are left, shown as free |
| LootPermissions.CondIff | src/game/LootMgr.cpp:1031-1055 | The conditional lines are exactly the entries that are left and allowed, outside another player's turn, with the slot type of the permission |
| LootPermissions.TurnedAwayIff | src/game/LootMgr.cpp:389-419 | A player is turned away from an item exactly for an unknown item, an unmet condition, a quest not held, a quest already begun, or another owner |
| LootView.ListedAgainstTakeable | src/game/Handlers/LootHandler.cpp:135-238 | The list against the refusals of a take: a listed item is refused only if it is no longer allowed or a roll for it goes on, and what may be taken is listed unless it is a free-for-all item without an entry of the player |
| LootView.ListedSlotsAreAccounted | src/game/LootMgr.cpp:883-1027 | Which listed slots were counted: all but conditional items nobody has claimed |
| LootObject.LootBox.Clear | src/game/LootMgr.h:296-331 | A cleared loot is the empty one; without clearing quest items these and their lists stay, with the counter at zero |
| LootObject.LootBox.AddItem | src/game/LootMgr.cpp:473-497 | State after an item is added, caps of 16 and 32 included |
| LootObject.LootBox.Process | src/game/LootMgr.cpp:1307-1341 | Recursive processing adds exactly the drops of the template, in order, and ends |
| LootObject.LootBox.FillFFALoot | src/game/LootMgr.cpp:583-608 | A player's free-for-all list and the counter |
| LootObject.LootBox.FillQuestLoot | src/game/LootMgr.cpp:610-647 | A player's quest list, cut off where the slots end, the items it blocks, and the counter |
| LootObject.LootBox.FillNonQuestNonFFAConditionalLoot | src/game/LootMgr.cpp:649-678 | A player's conditional list and the items first claimed |
| LootObject.LootBox.FillNotNormalLootFor | src/game/LootMgr.cpp:563-581 | Each of the three lists is made once per player |
| LootObject.LootBox.FillLoot | src/game/LootMgr.cpp:500-549 | The loot after the template dropped and everybody who may loot got lists |
| LootObject.LootBox.LootItemInSlot | src/game/LootMgr.cpp:791-852 | The item and list entry behind a slot, or that there is none |
| LootObject.LootBox.TakeItem | src/game/Handlers/LootHandler.cpp:135-238 | The refusals of items that are gone, not allowed, rolled for, handed out by a master looter or without room in the bags, in which nothing changes; otherwise marks and counter after the item was stored |
| LootObject.LootBox.SendView | src/game/LootMgr.cpp:883-1027 | The lines written for a viewer and their number |
| LootRuns.ProcessedItems | src/game/LootMgr.cpp:1307-1373 | What a template adds is made from reachable entries, within the caps, and no quest item comes unannounced by the quest-drop test |
| LootRuns.FilledLootGood | src/game/LootMgr.cpp:500-549 | After any fill of a cleared loot: lists are in order, the counter is right, nobody has more than 16 slots |
| LootRuns.RunBehind | src/game/LootMgr.cpp:473-852 | Over every run of openings, allowed takes and changes of block marks the counter falls behind what is left by the uncounted takes and by nothing else |
| LootRuns.RunConservedIff | src/game/LootMgr.cpp:473-852 | The counter is right after a run if and only if the number of uncounted takes is a multiple of 256 |
| LootRuns.UncountedTakeReached | src/game/Handlers/LootHandler.cpp:135-238 | Concrete run: an item drops, a player opens the loot before the condition of the item is met and takes it after; nothing is left and the counter shows 255 |
| LootWorlds.StillRunCounts | src/game/Handlers/LootHandler.cpp:135-238 | Over every run of openings, takes and blocks in which the world stands still and nobody takes before having opened the loot, everything taken was counted |
| LootWorlds.StillRunConserved | src/game/LootMgr.cpp:473-852 | From the drop on, the counter is right at the end of every such run |
| LootRuns.LeavingQuestItems | src/game/LootMgr.h:328-331 | Leaving only the quest items keeps the lists in order, and the counter right if and only if what is left of the quest items is a multiple of 256 |
| LootRuns.LeftQuestItemUncounted | src/game/Objects/Player.cpp:9313 | Concrete run: a quest item drops, a player with the quest opens the loot, all but quest items is cleared; one is left and the counter shows none |
| LootRuns.EmptyCounterMeansNothingLeft | src/game/LootMgr.h:334 | With few enough players an empty counter means that nothing is left, and conversely |
| LootRuns.EmptyCounterIff | src/game/LootMgr.h:334 | In general the counter is empty if and only if what is left is a multiple of 256 |
| LootRuns.FullLootLooksEmpty | src/game/LootMgr.h:280-334 | Concrete loot: sixteen free-for-all items seen by sixteen players have counter 0 while untouched |
| PosSelector.InsertedOrdered | src/game/ObjectPosSelector.cpp:64-70 | A used position is added in the order of absolute angles and nothing is lost |
| PosSelector.InsertedBehindEqual | src/game/ObjectPosSelector.cpp:64-70 | A used position goes behind those with the same angle |
| PosSelector.ObjectPosSelector.InitializeAngle | src/game/ObjectPosSelector.cpp:72-82 | The search starts over with a supply of angles bounded by used positions times steps in pi |
| PosSelector.ObjectPosSelector.NextAngleFor | src/game/ObjectPosSelector.h:80-104 | The angle behind a used position is accepted exactly when the node in front of it permits it |
| PosSelector.ObjectPosSelector.NextSmallStepAngle | src/game/ObjectPosSelector.h:106-137 | A small step is accepted exactly when it stays within pi, before the node in front, and that node permits it |
| PosSelector.ObjectPosSelector.NextPosibleAngle | src/game/ObjectPosSelector.cpp:121-161 | One try: whose turn it is, which angle, what each side remembers; a success uses up part of a bounded supply, a failure a used position or a direction's small steps |
| PosSelector.TurnIsNearest | src/game/ObjectPosSelector.cpp:121-161 | On ordered lists the turn always goes to the nearest of all used positions still ahead, on either side |
| PosSelector.TurnIs | src/game/ObjectPosSelector.cpp:121-161 | At a tie the positive side is first; behind the used positions the small steps of the two sides do not alternate, the negative side goes on to its end first |
| PosSelector.TriedBehindUsed | src/game/ObjectPosSelector.h:80-104 | On either side the angle tried clears the used position by its own gap, and is permitted exactly when the gap of the one in front is clear too |
| PosSelector.TriedSmallStep | src/game/ObjectPosSelector.h:106-137 | A small step leads away from zero and is permitted exactly up to pi, before the recorded position and out of its gap |
| PosSelector.PermittedKeepsGap | src/game/ObjectPosSelector.h:56-66 | A node permits an angle exactly when it lies at least its gap further ahead, on either side, going round |
| PosSelector.BothGapsKept | src/game/ObjectPosSelector.h:80-104 | An angle accepted behind a used position keeps exactly the gap of that one and at least that of the one in front |
| PosSelector.NextUsedIsNearest | src/game/ObjectPosSelector.cpp:47-62 | The node in front is the nearest ahead of all that lie behind the next used position, going round to the other side |
| PosSelector.ObjectPosSelector.NextAngle | src/game/ObjectPosSelector.cpp:94-106 | Always returns; an angle found passed the check on its side, and not found means that nothing is left to try |
| PosSelector.ObjectPosSelector.NextUsedAngle | src/game/ObjectPosSelector.cpp:108-119 | Always returns although free angles are skipped without using up positions |
| PosSelector.ObjectPosSelector.AllAngles | src/game/Objects/Object.cpp:2480-2497 | However often a caller asks, only a bounded number of angles comes: used positions (at least one a side) times the steps in pi |
| PosSelector.SmallStepUsesOne | src/game/ObjectPosSelector.h:106-137 | Each small step uses up one of the steps that fit before pi |
| DumpText.CreateDumpString | src/game/PlayerDump.cpp:196-221 | The printed line of a row, NULLs bare and texts quoted |
| DumpText.FindNth | src/game/PlayerDump.cpp:94-120 | Where the n-th value is found, including the wrap-around of a missing key text, or that the search never ends |
| DumpText.FoundValuesArePlain | src/game/PlayerDump.cpp:94-120 | Whatever the line, a value that is found has no quote and no backslash at its end |
| DumpText.ValueFound | src/game/PlayerDump.cpp:148-155 | A plain value reads back from the printed row when the values before it are in order: the first is plain, in the others every quote is escaped and no jump behind one leaves the value; what comes later does not matter |
| DumpText.NextEndsIff | src/game/PlayerDump.cpp:107-118 | Behind a value whose search ended at its own closing quote, the next search does if and only if in its text every quote is escaped and no jump leaves the text |
| DumpSearch.InStepIff | src/game/PlayerDump.cpp:94-120 | The first n searches all end at the closing quotes of their own fields if and only if these fields are in order |
| DumpSearch.ValueFoundIff | src/game/PlayerDump.cpp:94-155 | Behind fields in order a text reads back if and only if it is plain |
| DumpSearch.ApostropheNearEnd | src/game/PlayerDump.cpp:107-118 | Concrete rows: an escaped apostrophe inside a second value does no harm, one near its end loses step |
| DumpText.ValueMissing | src/game/PlayerDump.cpp:94-120 | A number beyond the last value is not found |
| DumpSearch.AllValuesRecoveredIff | src/game/PlayerDump.cpp:94-221 | Reading gives back every value of a row, a NULL as empty text, if and only if the row is some plain texts followed by NULLs only |
| DumpSearch.EndlessIff | src/game/PlayerDump.cpp:94-120 | For any row, NULLs included, and any number the search never ends if and only if the text in which it looks for the first value (the first one, or behind a leading NULL the one that holds the key text) has a first quote behind a backslash |
| DumpSearch.EscapedFirstValueIsEndless | src/game/PlayerDump.cpp:94-120 | Concrete row: an escaped quote as first value |
| DumpSearch.NullRowEnds | src/game/PlayerDump.cpp:94-120 | In a row with a leading NULL whose texts do not hold the key text every search ends |
| DumpText.NullMisleads | src/game/PlayerDump.cpp:94-120 | Concrete row: behind a NULL the second value does not read back |
| DumpText.ReplacedRow | src/game/PlayerDump.cpp:132-146 | Replacing such a value gives the printed line of the row with that value replaced, so no other field changes; a zero that stands for none stays |
| DumpText.ChangeThenGet | src/game/PlayerDump.cpp:132-155 | A replaced plain value reads back, the others read as before, and beyond the last value the edit fails and changes nothing |
| DumpText.TableNameRecoveredIff | src/game/PlayerDump.cpp:122-130 | The table name reads back if and only if it has no backquote |
| DumpLoad.DecimalIsFaithful | src/game/PlayerDump.cpp:182-194 | A printed guid is plain text, differs for different guids and reads back as the same number |
| DumpLoad.OldGuidIs | src/game/PlayerDump.cpp:182-194 | An empty field reads as guid 0, a printed number as its lower 32 bits, from 64 bits on the load stops |
| DumpLoad.PlayerDumpReader.RegisterNewGuid | src/game/PlayerDump.cpp:172-180 | An old guid keeps the id it has; a new one gets the id just drawn |
| DumpLoad.PlayerDumpReader.ChangeGuid | src/game/PlayerDump.cpp:182-194 | The line and maps after one reference is renamed; an id is drawn whether or not it is used |
| DumpLoad.PlayerDumpReader.LoadStringDump | src/game/PlayerDump.cpp:493-716 | The line loop: lines of every kind of table are rewritten in order, the first failure ends the load |
| DumpLoad.PlayerDumpReader.RewriteCharacter | src/game/PlayerDump.cpp:565-595 | Owner, account and name of the character; its own name is kept when none is given, with a rename at login when it is taken |
| DumpLoad.PlayerDumpReader.RewritePet | src/game/PlayerDump.cpp:635-659 | A pet whose id differs from the last one read gets a new number, which is remembered |
| DumpLoad.PlayerDumpReader.RewritePetTable | src/game/PlayerDump.cpp:660-675 | A row that belongs to a pet gets the number of that pet, or breaks the load when the pet is unknown |
| DumpLoad.LoadKeepsMaps | src/game/PlayerDump.cpp:493-716 | Over a whole load, whatever the lines say, the maps of items, mails and texts stay injective functions into freshly drawn ids, and all maps only grow |
| DumpLoad.LoadKeepsPets | src/game/PlayerDump.cpp:635-675 | Over a whole load whose pets all have an id the map of pets is injective into freshly drawn ids as well |
| DumpLoad.PetKeepsPetsIff | src/game/PlayerDump.cpp:635-659 | A pet line keeps the map of pets injective if and only if the pet is known, its id differs from a nonempty last one, or the number to write belongs to no other pet |
| DumpPets.LoadKeepsPetsIff | src/game/PlayerDump.cpp:635-675 | A load that succeeds keeps the map of pets injective if and only if no pet line brings a new pet, draws no number for it, and finds none to spare, all read off the lines before it |
| DumpPets.SharedBehindEmptyId | src/game/PlayerDump.cpp:635-659 | A pet can share a number only if the pet right before it has an empty id |
| DumpPets.NewEmptyIdIsShared | src/game/PlayerDump.cpp:635-659 | Behind an empty id that brought the number 0, a new pet always shares |
| DumpRows.EmptyPetIdIsShared | src/game/PlayerDump.cpp:635-659 | Concrete family: after a pet with an empty id the next pet gets the same new id |
| DumpRows.LineRenamed | src/game/PlayerDump.cpp:556-706 | The edits of one printed row give the printed row with exactly the planned fields renamed |
| DumpRows.LoadRenamesAll | src/game/PlayerDump.cpp:493-716 | Loading a printed dump of all kinds of tables, characters and pets included, succeeds, and every line is its row renamed with the maps at the end of the load, so early and late references agree; fields that are not looked at may hold escaped quotes as long as they are in order |
| DumpRows.ReferencesAgreeIff | src/game/PlayerDump.cpp:493-716 | Two inventory, bag, item, gift, loot, mail, text or pet references of one kind hold the same id after the load if and only if they held the same guid before |
| DumpPositions.LoadedLines | src/game/PlayerDump.cpp:493-716 | Every line after the load prints the fields that the following rows speak about |
| DumpPositions.OwnerStands | src/game/PlayerDump.cpp:555-706 | The new owner stands in column 1 of a character table, an inventory row and a gift, 3 of an item and a pet, 2 of what an item holds, 6 of a mail and 4 of what a mail brings |
| DumpPositions.ColumnsAgreeIff | src/game/PlayerDump.cpp:596-706 | Inventory 2 and 4, item 1, gift 2, item loot 1 and mail item 2 hold the same number after the load exactly when they did before, a bag that is none left aside; likewise mail 1 and mail item 1, mail 8 and item text 1, pet 1 and the tables of pets |
| DumpPositions.BagStaysNoneIff | src/game/PlayerDump.cpp:596-605 | Column 2 of an inventory row is 0 after the load exactly when it was 0 before |
| DumpPositions.NamedIsNeverNone | src/game/PlayerDump.cpp:596-706 | All other of these columns are never 0 after the load |
| DumpPositions.OtherColumnsStay | src/game/PlayerDump.cpp:555-706 | All other columns are as before |
| DumpPositions.CharacterLoaded | src/game/PlayerDump.cpp:565-595 | The columns of the character: owner, account, name and the request to rename at login; all others as before |
| DumpRows.ZeroStaysZeroIff | src/game/PlayerDump.cpp:614-706 | A reference of the plan that holds zero stays zero if and only if the plan keeps its zero, which only the bag of an inventory row does |
| DumpRows.UntouchedStays | src/game/PlayerDump.cpp:556-706 | Fields that no edit concerns are what they were |
| DumpRows.ItemIdsAreFresh | src/game/ObjectGuid.cpp:80-95 | The ids a load draws from the item guid generator differ from each other and from every id in use |
| ObjectGuids.EntryGuidDecodesIff | src/game/ObjectGuid.h:124-171 | A guid with an entry decodes to its parts if and only if it has a counter and counter and entry fit 24 bits |
| ObjectGuids.PlainGuidDecodesIff | src/game/ObjectGuid.h:124-171 | A guid without entry decodes to its parts unless a zero counter lost its type |
| ObjectGuids.MadeGuidsDiffer | src/game/ObjectGuid.h:124-171 | Guids made of fitting parts coincide only when all parts do, across all types |
| ObjectGuids.GuidIs | src/game/ObjectGuid.h:124-171 | The number made of type, entry and counter, by the types that have an entry and those that do not; without a counter it is 0 |
| ObjectGuids.ObjectGuidGenerator.Generate | src/game/ObjectGuid.cpp:80-95 | Freed numbers first, then the next one with uint32 wrap; the overflow stop does not end the call |
| ObjectGuids.ObjectGuidGenerator.GenerateRange | src/game/ObjectGuid.cpp:97-109 | A block of 100 numbers from the end |
| ObjectGuids.ObjectGuidGenerator.FreeGuid | src/game/ObjectGuid.h:299 | Freed numbers queue up |
| ObjectGuids.DrawnInOrder | src/game/ObjectGuid.cpp:80-95 | Draws in a row hand out the freed numbers, oldest first, then count on; the stop is requested from the maximum less one on |
| ObjectGuids.RunKeepsOk | src/game/ObjectGuid.h:286-304 | Over every run that frees only numbers in use and does not overflow: freed numbers are distinct, not in use, and all are below the next one |
| ObjectGuids.NoCounterTwice | src/game/ObjectGuid.cpp:80-109 | No number is handed out while in use, and all are positive and below the type's maximum |
| ObjectGuids.ReissuedOnlyAfterFree | src/game/ObjectGuid.cpp:80-109 | Between two times a number is handed out it was freed |
| ObjectGuids.LiveGuidsDiffer | src/game/ObjectGuid.h:124-171 | Numbers in use at one time make guids that decode and never coincide, with any entries |
| ObjectGuids.ConsecutiveCountersDiffer | src/game/ObjectGuid.cpp:80-95 | Numbers drawn one after the other differ from each other and from those in use before |
| PackedGuids.AppendPackGUID | src/shared/ByteBuffer.h:430-448 | The loop writes mask and nonzero bytes of the guid |
| PackedGuids.ReadPackGUID | src/shared/ByteBuffer.h:354-371 | The guid the mask and bytes stand for, or that the packet ends too early |
| PackedGuids.MaskDescribes | src/shared/ByteBuffer.h:430-448 | The mask tells for every byte whether it is there |
| PackedGuids.PackedReadsBack | src/shared/ByteBuffer.h:354-448 | Every 64-bit guid reads back from its packed form, whatever follows it in the packet, and exactly its bytes are consumed |
| PackedGuids.ClampKeepsIff | src/game/ObjectGuid.cpp:143-149 | The clamp changes a guid if and only if it is a player guid with bits above its counter |
| PackedGuids.MadeGuidsSurvivePackets | src/game/ObjectGuid.cpp:131-149 | Type, entry and counter of every made guid survive packing, reading and the clamp |
| InstanceLimits.AccountMgr.CheckInstanceCount | src/game/AccountMgr.cpp:659-686 | The answer, and that at most the first stale instance is forgotten |
| InstanceLimits.AccountMgr.AddInstanceEnterTime | src/game/AccountMgr.cpp:688-701 | The entry is remembered for its account and instance, all others stay |
| InstanceLimits.RunKeepsOk | src/game/AccountMgr.cpp:659-701 | Over every run at most the maximum is remembered, each as the last entry, and an entry is forgotten only after an hour |
| InstanceLimits.HourlyLimit | src/game/AccountMgr.cpp:659-701 | In every hour of every run an account enters at most the maximum number of different instances |
| InstanceLimits.DeniedIff | src/game/AccountMgr.cpp:659-686 | Entry is denied if and only if the account entered the maximum number of different other instances in the last hour |
| GuardPosts.GuardMgr.Update | src/game/GuardMgr.cpp:240-264 | All areas cool down and, when the timer runs out, recharge together |
| GuardPosts.GuardMgr.SummonGuard | src/game/GuardMgr.cpp:413-453 | A charge is spent exactly when cooldown and charges allow it; when the civilian may call again |
| GuardPosts.StepKeepsOk | src/game/GuardMgr.cpp:240-264 | Charges never exceed 10 and cooldowns 10000 ms, over any steps |
| GuardPosts.GuardsAreApart | src/game/GuardMgr.cpp:431-437 | Two guards of one area are at least 10000 ms of update time apart |
| GuardPosts.GuardsAreCharged | src/game/GuardMgr.cpp:240-264 | Guards are paid for by the first charges and the recharges |
| GuardPosts.RechargesTakeTime | src/game/GuardMgr.cpp:240-250 | Recharges are a minute of update time apart, for any initial timer |
| GuardPosts.GuardsAreLimited | src/game/GuardMgr.cpp:240-453 | In any time E an area summons at most 10 + E/60000 + 1 guards, and at most 1 + E/10000 |
| GuardPosts.CooldownEnds | src/game/GuardMgr.cpp:252-263 | While an area summons nobody its cooldown runs down with the time, to zero and no further |
| GuardPosts.IdleAreaRefills | src/game/GuardMgr.cpp:252-263 | Meanwhile every recharge adds a charge, up to ten |
| GuardPosts.RechargeComes | src/game/GuardMgr.cpp:240-250 | There is a recharge exactly when more time has passed than the timer shows |
| GuardPosts.CallIsAnswered | src/game/GuardMgr.cpp:413-453 | Ten seconds without a guard and a charge in that time: the next call is answered |
| GuardPosts.CallTakes | src/game/GuardMgr.cpp:431-453 | An answered call takes one charge and starts ten seconds of rest; any other call changes nothing |
| Conditions.MeetsIsNormalForm | src/game/Conditions.cpp:121-185 | On a well-founded store a condition means a formula in which all reverse flags, swaps and NOTs have moved to the leaves; early returns and order do not matter |
| Conditions.NotIsOppositeIff | src/game/Conditions.cpp:149-159 | A NOT entry is the opposite of its first condition if and only if that condition is not met together with one of the optional ones |
| Conditions.ConditionStorage.IsValid | src/game/Conditions.cpp:752-825 | Which operands the check looks at, and that only leaves may be disabled |
| Conditions.ConditionStorage.LoadConditions | src/game/ObjectMgr.cpp:9131-9148 | The ascending loop over the store erases or disables entries |
| Conditions.LoadedIff | src/game/ObjectMgr.cpp:9131-9148 | An entry is left if and only if its own check passes and all its checked operands are lower and are left themselves |
| Conditions.LoadedWellFoundedIff | src/game/Conditions.cpp:752-825 | After loading every operand is lower and present, which is enough for every evaluation to end, if and only if the third and fourth values of NOT entries, which are not checked, are |
| Conditions.SelfReferencePasses | src/game/Conditions.cpp:752-769 | Concrete store: a NOT entry whose third value is its own id passes the check |
| ConditionRuns.RunIsMeets | src/game/Conditions.cpp:121-185 | On a well-founded store the evaluation that stops early, in the order of the code, ends with the meaning of the condition |
| ConditionRuns.EndsIff | src/game/Conditions.cpp:121-185 | On any store, for given outcomes of the leaves, an evaluation ends if and only if the conditions it asks one after the other lead neither to an absent entry nor back to one they come from |
| ConditionRuns.NoGraphTrapEnds | src/game/Conditions.cpp:121-185 | Whatever the outcomes, an evaluation ends if no path of operands leads to a cycle or an absent entry |
| ConditionRuns.GraphDoesNotDecide | src/game/Conditions.cpp:149-159 | Concrete stores, left alone by loading, with the same cycle of operands: one always ends and the other never does, for they differ in the outcome that guards the cycle |
| ConditionRuns.SelfReferenceNeverEnds | src/game/Conditions.cpp:149-159 | Concrete store: no evaluation of a NOT entry whose third value is its own id ends |
| ConditionRuns.UpwardReferenceEnds | src/game/Conditions.cpp:149-159 | Concrete store: a third value that points upwards to a leaf is out of order, and yet every evaluation ends |
| Conditions.DisabledLeafIff | src/game/Conditions.h:330 | A disabled leaf means what a false outcome means if and only if it was not reversed or its objects are there |
| Conditions.DisabledMeansFalse | src/game/Conditions.h:330 | Under that condition disabling a leaf equals replacing its outcome by false for every entry of the graph |
| ConditionTargets.UsableIff | src/game/Conditions.cpp:1354-1382 | A permission is wrong if and only if a leaf that the test looks at asks for the target once the flags on its way swap the two, or an optional operand on the way needs the target; a refusal is right if and only if one of these holds or a leaf whose swaps cancel out asks for the target |
| ConditionTargets.UsableWithoutSwaps | src/game/Conditions.cpp:1354-1382 | Without swaps on its way a refusal is always right, and a permission is wrong only for an optional operand |
| ConditionTargets.NeedsIff | src/game/Conditions.cpp:676-748 | Beside a source, the parameter check of a leaf fails for want of a target if and only if its requirement names the target at its swaps; otherwise the target plays no part in the check |
| ConditionTargets.LeavesAsk | src/game/Conditions.cpp:49-117 | Which leaves ask for a target, a source, either of them or a map, and of which kind, by their codes |
| ConditionTargets.FreeIff | src/game/Conditions.cpp:1369-1381 | The listed requirements are exactly those that do not ask for an unswapped target, over all kinds of leaves |
| ConditionTargets.TargetPlaysNoPart | src/game/Conditions.cpp:121-145 | A condition that needs no target means the same for every target and for none, if the outcomes of its leaves do not depend on the target |
| ConditionTargets.NeededLeafFails | src/game/Conditions.cpp:126-136 | A leaf that needs the target is never met without one |
| ConditionTargets.SwappedSourceOverlooked | src/game/LootMgr.cpp:436-442 | Concrete store: a swapped leaf that asks for a source is permitted, is never met without a target, and can be met with one |
| ConditionTargets.SwappedTargetRefused | src/game/LootMgr.cpp:142-147 | Concrete store: a swapped leaf that asks for a target is refused, though it needs none and can be met without |
| ConditionTargets.ExtraOverlooked | src/game/Conditions.cpp:1354-1382 | Concrete store: an optional operand that needs a target is overlooked, and the permitted condition is never met without one |

## Left out

- SQL, logging, packets, chat texts, mails, reports and spawns: input and output; the values that would be stored are kept.
- GameEvents.GameEventMgr.Update: the time is read once for a whole update, while the code reads the clock again for each delay; event ids are assumed to fit uint16, and what a hardcoded event does, its Enable and Disable hooks included, is a list of start, stop and enable calls given from outside.
- GameEvents.GameEventMgr.EnableEvent: the Enable and Disable hooks of hardcoded events are among those calls from outside.
- GameEvents.CheckOneGameEvent: an event with period 0 that is in use, or an unused slot whose start and end say otherwise, divides by zero; loading rejects neither, the model assumes that there is none.
- GameEvents.ExactNextCheck: delays are assumed to fit uint32, as one occurrence plus one period do in seconds.
- The first scheduler pass at server start, which spawns objects of inactive events, and the resume of events that were active at shutdown, which only suppresses mails.
- WarEffort.WarEffortEvent.UpdateWarEffortCollection: stock counts are an input; the automatic completion of stock is part of that input.
- The hardcoded events other than the war effort: no state machine of comparable size.
- Honor points of single kills, city ranks and the honor bar: finite tables and one-branch formulas.
- Honor.GenerateScores: breakpoints are reals and positions whole numbers, float rounding of the group sizes is not modelled.
- HonorRanks.HonorMaintenancer.FlushRankPoints: only the ranks are modelled, not the text of the update statements.
- LootTemplates.DropsAreReachable: references are assumed acyclic, which the loader does not check.
- Loot money, looters, party announcements and master looter assignment: no effect on items, lists and counter.
- LootView.ViewIsExact: is about unrestricted permission; with other permissions the list also shows what cannot be taken.
- LootSlots.TakenConservedIff: whether the bags have room and whether a master looter hands the loot out are given from outside.
- PosSelector.ObjectPosSelector.NextAngle: the arc cosine is a parameter that is never negative; an angle right after InitializeAngle is not checked against neighbours, so freedom from collisions is not claimed.
- The first angle of an unbalanced search (FirstAngle) and the test of the original angle (CheckOriginal): one call each.
- DumpRows.LoadRenamesAll: every pet stands in one row, with an id of 1 to 19 digits, before the rows that belong to it, as tables and keys guarantee; the table kind of a line is given, blank lines and notes are taken out before, INSERT is not turned into REPLACE, and the cache of item texts is not modelled.
- DumpRows.ReferencesAgreeIff: the ids drawn are assumed different, which `DumpRows.ItemIdsAreFresh` proves for items; the generators of mail, text and pet ids are counters that are not modelled.
- DumpLoad.PlayerDumpReader.RewriteCharacter: escaping a name and asking whether it is taken are functions given from outside.
- DumpLoad.PlayerDumpReader.RewritePet: leading blanks and signs, which strtoul would accept in a pet id, read as 0.
- DumpLoad.PlayerDumpReader.LoadStringDump: the table kind of a line is given; the lookup of the table name, blank lines, notes and the change of INSERT to REPLACE are not modelled.
- DumpLoad.PlayerDumpReader.ChangeGuid: text in a guid field that is not a number stops the load, where std::stoul would accept leading blanks, signs and trailing characters.
- ObjectGuids.RunKeepsOk: the lock of the shared generators is not modelled, calls happen one after the other.
- InstanceLimits.HourlyLimit: game masters, who pass without a check, are left out, and an entry follows its check at once.
- GuardPosts.GuardMgr.SummonGuard: the guard itself and what the civilian says; a call outside the listed areas goes to a nearby guard and is only reported as handled.
- Conditions.MeetsIsNormalForm: leaves are uninterpreted outcomes of the objects looked at; the two leaf kinds that evaluate another condition (map event targets, object fits condition) count as leaves, so their operands are outside the claims about evaluations that end.
- ConditionTargets.TargetPlaysNoPart: that outcomes ignore the target is assumed; escort, instance script and battleground leaves look at one that is given, and area and map leaves at either object.
- Conditions.LoadedIff: whether the values of a leaf are kept, pointless or wrong is given from outside.
- Pools, creature groups, maps, movement, spells, gossip, tickets and network code: they depend on engine classes outside these managers.
