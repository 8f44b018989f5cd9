# HorseRaceSimulator in Dafny

A model of the core of HorseRaceSimulator, a Java horse-race simulator in two parts:

- **part1** is a terminal race. A fixed array of lanes holds horses. A tick loop moves every horse that has neither finished nor fallen, and a leaderboard is printed at the end.
- **part2** is the graphical version. It adds the following:
  - tracks with a surface condition and a shape, and their speed and fall-risk modifiers;
  - horses with equipment and accessories, and the modifier folds over them;
  - a race that records its finish order;
  - betting: decimal odds, bets, and a ledger that settles bets against the winner;
  - the track-record rule;
  - a horse comparison;
  - the row and line logic of the two CSV file layers (`utils/FileIO.java` and `utils/fileIO.java`).

How the Java becomes Dafny:

- Classes whose fields the program updates become Dafny classes: both `Horse`s, both `Race`s, `Track`, `Bet` and `BetManager`. Their methods state the whole new state in `ensures`.
- `HorseItem` has only final fields, so it is a datatype.
- The odds, the track modifiers and the CSV splitting rule are functions. Lemmas relate them.
- Java `double` is an exact `real`, and Java `int`/`long` is an unbounded `int`. Java's truncating `/`, `%`, `(int)` cast and `Math.round` are written out in `JavaNum`.
- `Math.random()` is a stream of draws `draw: nat -> real`, consumed in the order the source calls it.
- The race loop `while (!raceComplete)` need not end in the source. Here it runs at most `maxTicks` ticks and reports `OutOfTicks` when cut off.
- File contents are parameters: parsed rows for `FileIO`, raw lines for `fileIO`. What would be written is a result.
- `Double.parseDouble`, `Integer.parseInt` and `Long.parseLong` are function parameters. The formatted text of a number is a string parameter.
- An exception the source does not catch becomes a precondition. Examples are `charAt(1)` on a short field, `get(0)` on an empty finish order, and a figure-eight modulo by zero.

Module layout, one module per source file: `TrackModel`, `HorseItems`, `HorseModel`, `Part1Horse`, `Part1Race`, `RaceModel`, `RaceStatisticsModel`, `BetModel`, `BetManagerModel`, `BettingOdds`, `HorseComparator`, `FileIO` and `FileIOAlt`. `RaceComparison` sets the two races' lane step side by side. Four modules are shared:

- `RaceTicks` holds the two races' tick loop on values: a lane's state (`Runner`), one pass over the lanes (`TickLanes`), `ticks` passes (`RunLanes`) and `Advanced`, the relation of lanes before and after ticks. Both races prove their loops against it.
- `Csv` holds the `parseCSVLine` loop, which both file layers contain.
- `Common` holds Option, `String.join`, `String.trim` and `String.replace`.
- `JavaNum` holds Java's integer and cast arithmetic.

Where the code and its documentation or test comments disagree, the model follows the code:

- The part1 horse test expects confidence 1.0 after constructing with 1.5. The code stores only values in [0, 1], so the confidence stays 0.0 (`Part1Horse.Horse.constructor`).
- `adjustPerformance` clamps confidence at 0 but not at 1 (`HorseModel.AdjustedConfidenceCanExceedOne`).
- In the part2 race a horse can finish and fall in the same call to `moveHorse`. It still enters the finish order, because the entry depends only on the distance.
- No stall state or tick limit exists in the source. The `maxTicks` bound belongs to the model only.

## Model

| member | source | states |
|---|---|---|
| TrackModel.SpeedModifier | part2/src/models/Track.java:54-60 | the surface keeps a horse's speed by a factor in (0, 1], and the factor is 1 exactly on a dry track |
| TrackModel.FallRiskModifier | part2/src/models/Track.java:62-68 | the extra fall risk lies in [0, 1) and is 0 exactly on a dry track |
| TrackModel.SlowerIsRiskier | part2/src/models/Track.java:54-68 | a slower surface is always a riskier one; no two conditions have the same speed factor |
| TrackModel.ShapeSpeedAdjustment | part2/src/models/Track.java:70-80 | the adjustment is 0.7 or 1.0, and always 1.0 on an oval; a figure-eight needs `length / 2 != 0` (Java's division by zero) |
| TrackModel.FigureEightCrossings | part2/src/models/Track.java:73-78 | on a figure-eight of length at least 2, a horse is slowed exactly at the non-negative multiples of half the length |
| TrackModel.FigureEightThirty | part2/src/models/Track.java:73-78 | on a figure-eight of length 30, a horse between 0 and 30 is slowed exactly at 0, 15 and 30 |
| TrackModel.Track.constructor | part2/src/models/Track.java:20-28 | the configuration is as given, with no record yet (best time 0, empty holder) |
| TrackModel.Track.SetName | part2/src/models/Track.java:32 | only the name changes |
| TrackModel.Track.SetLength | part2/src/models/Track.java:42 | only the length changes |
| TrackModel.Track.SetCondition | part2/src/models/Track.java:44 | only the condition changes |
| TrackModel.Track.SetBestTime | part2/src/models/Track.java:48 | only the best time changes |
| TrackModel.Track.SetBestHorse | part2/src/models/Track.java:52 | only the record holder changes |
| HorseItems.NewEquipment | part2/src/models/HorseItem.java:21-30 | an equipment item stores every argument and hands each back unchanged |
| HorseItems.NewAccessory | part2/src/models/HorseItem.java:35-42 | an accessory keeps its name, type and description and is neutral (all three multipliers 1.0) |
| HorseItems.AccessoryIsNeutralEquipment | part2/src/models/HorseItem.java:21-42 | the accessory constructor equals the equipment constructor called with multipliers 1.0 |
| HorseModel.ProductAppend | part2/src/models/Horse.java:173-195 | the modifier product over two lists appended is the product of the two products, so the fold does not depend on how the list was built |
| HorseModel.ProductOfNeutral | part2/src/models/Horse.java:173-195 | neutral items, accessories among them, leave every product at 1.0 |
| HorseModel.WithoutName | part2/src/models/Horse.java:141-147 | removal by name keeps exactly the items with another name and never lengthens the list |
| HorseModel.WithoutNameAppend | part2/src/models/Horse.java:141-147 | removal by name distributes over concatenation, so the kept items stay in their original order |
| HorseModel.WithoutNameIdempotent | part2/src/models/Horse.java:141-147 | removing the same name twice changes nothing more |
| HorseModel.AdjustedConfidence | part2/src/models/Horse.java:111-114 | the adjusted confidence is never negative, and is either 0 or the scaled confidence minus the fall risk |
| HorseModel.AdjustedConfidenceInUnitRange | part2/src/models/Horse.java:111-114 | with an equipment confidence product of at most 1, a confidence in [0, 1] stays in [0, 1] |
| HorseModel.AdjustedConfidenceCanExceedOne | part2/src/models/Horse.java:111-114 | with no upper clamp, full confidence and a product of 1.5 on a dry track give 1.5 |
| HorseModel.Horse.constructor | part2/src/models/Horse.java:34-46 | a new horse is at distance 0, not fallen, with no items; its confidence is the argument if that lies in [0, 1], else 0 |
| HorseModel.Horse.SetConfidence | part2/src/models/Horse.java:90-96 | a value in [0, 1] is stored; any other value leaves the confidence as it was; nothing else changes |
| HorseModel.Horse.SetSymbol | part2/src/models/Horse.java:98-101 | only the symbol changes |
| HorseModel.Horse.MoveForward | part2/src/models/Horse.java:87-88 | the distance grows by exactly 1, fallen or not |
| HorseModel.Horse.Fall | part2/src/models/Horse.java:76-79 | the horse is fallen afterwards; nothing else changes |
| HorseModel.Horse.GoBackToStart | part2/src/models/Horse.java:81-84 | the distance becomes 0 and the fallen flag is kept |
| HorseModel.Horse.AddEquipment | part2/src/models/Horse.java:129-133 | the item is appended only if its type is exactly "Equipment"; accessories and race state are kept |
| HorseModel.Horse.AddAccessory | part2/src/models/Horse.java:135-139 | the item is appended only if its type is exactly "Accessory"; equipment and race state are kept |
| HorseModel.Horse.RemoveEquipment | part2/src/models/Horse.java:141-143 | the equipment loses every item of that name and keeps the rest in order; nothing else changes |
| HorseModel.Horse.RemoveAccessory | part2/src/models/Horse.java:145-147 | the accessories lose every item of that name and keep the rest in order; nothing else changes |
| HorseModel.Horse.FoldEquipment | part2/src/models/Horse.java:173-195 | the accumulator loop yields the base value times the product of the equipment multipliers |
| HorseModel.Horse.CalculateTotalSpeedModifier | part2/src/models/Horse.java:173-179 | the base speed times the equipment's speed multipliers; accessories play no part |
| HorseModel.Horse.CalculateTotalEnduranceModifier | part2/src/models/Horse.java:181-187 | the base endurance times the equipment's endurance multipliers |
| HorseModel.Horse.CalculateTotalConfidenceModifier | part2/src/models/Horse.java:189-195 | the product of the equipment's confidence multipliers |
| HorseModel.Horse.AdjustPerformance | part2/src/models/Horse.java:103-126 | the confidence becomes the adjusted confidence; the horse falls when the draw is below the track's fall risk, and the fall is kept; a standing horse advances by the truncated product of the speed, shape and endurance factors; the items are kept |
| Part1Horse.Horse.constructor | part1/Horse.java:24-29 | a new horse is at the start and standing; its confidence is the argument if that lies in [0, 1], else 0 (so 1.5 gives 0) |
| Part1Horse.Horse.SetConfidence | part1/Horse.java:73-78 | only a value in [0, 1] is stored; otherwise the old value stays |
| Part1Horse.Horse.SetSymbol | part1/Horse.java:80-83 | only the symbol changes |
| Part1Horse.Horse.MoveForward | part1/Horse.java:70-71 | the distance grows by 1 unless the horse has fallen |
| Part1Horse.Horse.Fall | part1/Horse.java:59-62 | the fall is latched; nothing else changes |
| Part1Horse.Horse.GoBackToStart | part1/Horse.java:64-67 | the distance becomes 0; nothing else changes |
| RaceTicks.LaneAfterBounds | part1/Race.java:81-84 | one lane of a tick: the distance grows by at most one, the confidence stays, a fall is kept, a lane that is not running does not change, and a horse short of the length ends at most at it |
| RaceTicks.AdvancedTrans | part2/src/models/Race.java:69-77 | lanes advanced by one stretch of ticks and then by another are advanced over both: distances never shrink, falls are kept, and lanes not running stay as they were |
| RaceTicks.TickLanesDraws | part1/Race.java:79-85 | one pass over the lanes takes exactly two draws per running lane |
| RaceTicks.TickLanesEach | part1/Race.java:79-85 | lane k after a pass is LaneAfter of lane k before it, with the two draws that follow those of the running lanes below k |
| RaceTicks.DoneTickIsIdle | part1/Race.java:79-98 | once every lane has finished or fallen, a pass changes nothing and takes no draw |
| RaceTicks.TickStepBounds | part1/Race.java:79-85 | over a whole pass, every lane's distance grows by at most one, falls are kept, finished or fallen lanes do not change, and nobody passes the length |
| RaceTicks.RunLanesNext | part1/Race.java:76-98 | after a tick that left a lane running, the loop runs once more: the next tick is one pass over the current lanes, and the completion check has failed after every earlier tick |
| RaceTicks.ReachedStays | part1/Race.java:76-98 | a lane's distance at a tick is never more than at any later tick, so a horse at the length stays there |
| RaceTicks.ResetLanes | part1/Race.java:71-74 | the reset puts every lane at distance 0 and keeps its fall and confidence |
| Part1Race.ZeroConfidenceTick | part1/Race.java:79-180 | when every lane horse has confidence 0, a tick leaves every lane as it was |
| Part1Race.ZeroConfidenceStalls | part1/Race.java:76-180 | when every lane horse has confidence 0, any number of ticks leaves the lanes as they were, so the race is done after them only if it was done before: the loop never ends |
| Part1Race.SortByDistance | part1/Race.java:109-114 | the leaderboard lists every lane once, by descending distance, with ties in lane order (a stable sort) |
| Part1Race.InsertKeepsRanked | part1/Race.java:114 | inserting a lane at its place keeps the leaderboard ordered |
| Part1Race.InsertKeepsLanes | part1/Race.java:114 | inserting a lane keeps every listed lane and adds that one |
| Part1Race.FirstFinisher | part1/Race.java:136-150 | the announced winner is the first leaderboard entry that reached the race length; there is none ("No winners") exactly when no entry did |
| Part1Race.WinnerLeadsLeaderboard | part1/Race.java:136-150 | on a complete leaderboard the first finisher is the top entry, the lowest of the lanes that went furthest |
| Part1Race.RankLanes | part1/Race.java:108-150 | the leaderboard is ranked and complete, and the winner is none exactly when nobody reached the length, else the leading lane |
| Part1Race.Race.constructor | part1/Race.java:27-32 | a race of the given length with that many empty lanes |
| Part1Race.Race.RaceWonBy | part1/Race.java:188-191 | a horse has won exactly when its lane state has reached the race length, and then the tick loop leaves it as it is whatever the draws |
| Part1Race.Race.Distances | part1/Race.java:117-131 | one distance per lane, each that lane's horse's distance |
| Part1Race.Race.AllDoneMeans | part1/Race.java:90-98 | the completion check over the horses is Done over their lane states |
| Part1Race.Race.AddHorse | part1/Race.java:40-48 | a lane outside 1..lanes.length changes nothing; otherwise only that lane is set |
| Part1Race.Race.IsComplete | part1/Race.java:90-98 | the completion check holds exactly when every horse has reached the length or fallen |
| Part1Race.Race.MoveHorse | part1/Race.java:160-180 | a standing horse takes two draws, advancing when the first is below its confidence and falling when the second is below 0.1·confidence²; both draws are always taken; a fallen horse takes none and does not change |
| Part1Race.Race.TickLane | part1/Race.java:81-84 | the lane's horse becomes LaneAfter of its state on the next draws, which advance by DrawsOf; every horse changes only as TickStep allows; with no horse in two lanes, the pass so far is TickLanes on one more lane |
| Part1Race.Race.TickPass | part1/Race.java:79-85 | the loop over the lanes: each horse keeps its symbol and is stepped as Stepped allows from its state before the pass; with no horse in two lanes the whole pass is TickLanes with the draw that follows it |
| Part1Race.Race.TickedAll | part1/Race.java:79-85 | a pass carried over every lane leaves the lanes' states and the next draw as TickLanes gives them |
| Part1Race.Race.Tick | part1/Race.java:79-85 | with no horse in two lanes, the lanes after the pass are TickLanes of the lanes before, the draws taken in lane order; in any case every horse changes only as TickStep allows (no distance shrinks, falls are kept, finished or fallen horses do not change, nobody passes the length) |
| Part1Race.Race.ResetHorses | part1/Race.java:71-74 | every horse in a lane is back at distance 0, with its fallen flag and confidence kept: the lanes are ResetLanes of the lanes before |
| Part1Race.Race.TickAndCheck | part1/Race.java:79-98 | one round of the loop: a tick, then the completion check, whose result is AllDone; with no horse in two lanes, the lanes are one tick further along RunLanes |
| Part1Race.Race.RunTicks | part1/Race.java:76-103 | the loop ends complete only with every horse finished or fallen, after at least one tick; cut off, it ran maxTicks ticks; distances grow, falls are kept and nobody passes the length; with no horse in two lanes, the lanes are RunLanes from the start and the completion check failed after every earlier tick |
| Part1Race.Race.Snapshot | part1/Race.java:117-131 | the distances read off the lanes after the loop |
| Part1Race.Race.ResetAndRun | part1/Race.java:70-103 | the reset and the loop: the loop's facts hold, and with no horse in two lanes the lanes are RunLanes from the reset lanes |
| Part1Race.Race.Rank | part1/Race.java:108-150 | the leaderboard and winner read off the lanes as they stand: ranked by distance, complete, and the winner as RankLanes announces it |
| Part1Race.Race.RunRace | part1/Race.java:68-151 | on full lanes: the reset, the loop and the results; a finished race has a ranked, complete leaderboard and the winner RankLanes announces |
| Part1Race.Race.StartRace | part1/Race.java:56-151 | an empty lane refuses the start and touches no horse; otherwise the horses are reset and run until all have finished or fallen; no horse passes the length; the leaderboard is ranked and complete; the winner is announced as in RankLanes; with no horse in two lanes the lanes are RunLanes from the reset lanes |
| RaceComparison.FallsLessOftenThanTerminalRace | part2/src/models/Race.java:128-138 | on the same draws, a lane moves the same distance under the part2 fall chance (0.01 times confidence squared) as under the part1 one (0.1 times confidence squared), and falls under part2 only if it falls under part1 |
| RaceModel.ZeroConfidenceTick | part2/src/models/Race.java:69-138 | when every lane horse has confidence 0, a tick leaves every lane as it was |
| RaceModel.ZeroConfidenceStalls | part2/src/models/Race.java:69-138 | when every lane horse has confidence 0, any number of ticks leaves the lanes as they were, so the race is done after them only if it was done before: the loop never ends |
| RaceModel.FinishersEach | part2/src/models/Race.java:70-77 | a lane finishes in a tick exactly when it was running before the tick and has reached the length after it; the finishers are listed by increasing lane |
| RaceModel.RunLaneStep | part2/src/models/Race.java:69-77 | from one tick to the next, a lane that is not running does not change and no distance shrinks |
| RaceModel.RunOfSteps | part2/src/models/Race.java:69-77 | the loop's run keeps its lane count and changes lanes only as Steps allows |
| RaceModel.StepAt | part2/src/models/Race.java:69-77 | Steps read at one tick and one lane |
| RaceModel.FinishOrderGrows | part2/src/models/Race.java:73-75 | the finish order after t ticks is a prefix of the finish order after any later tick |
| RaceModel.FinishOrderInLanes | part2/src/models/Race.java:73-75 | every entry of the finish order is a lane |
| RaceModel.FinishOrderIsReached | part2/src/models/Race.java:63-75 | from lanes with nobody at the length, the finish order after any tick holds exactly the lanes whose horses have reached the length, each once |
| RaceModel.WinnerAlreadyIn | part2/src/models/Race.java:73-75 | once the finish order has a first lane, that horse had reached the length at that tick and still has at the next |
| RaceModel.NobodyReachedYet | part2/src/models/Race.java:73-75 | while the finish order is empty, no horse has reached the length at any tick so far |
| RaceModel.FirstFinisher | part2/src/models/Race.java:70-75 | in a tick that starts with nobody at the length, the first finisher has reached it and no lower lane has |
| RaceModel.WinnerOfFirstTick | part2/src/models/Race.java:70-75 | in the first tick with finishers, the first of them has reached the length and no lower lane has |
| RaceModel.WinnerFirstAt | part2/src/models/Race.java:69-77 | for one tick and one lane: whoever has reached the length by that tick, the winner has too; a lower lane that has, did so only after the winner |
| RaceModel.WinnerFinishedFirst | part2/src/models/Race.java:69-115 | the first lane of the finish order finished first: at every tick where some horse had reached the length the winner had too, and a lower lane reaching it did so only a tick after the winner (ties in a tick go to the lower lane) |
| RaceModel.TickFinishersStep | part2/src/models/Race.java:70-77 | a pass over one more lane appends that lane's LaneAfter and its draws, and appends the lane to the finishers exactly when it was running and reached the length |
| RaceModel.TickedLanesStep | part2/src/models/Race.java:70-77 | moving lane i as LaneAfter says, and nothing else, carries a pass from i lanes to i + 1 |
| RaceModel.ListsLanesAppend | part2/src/models/Race.java:73-75 | the horses of two lists of lanes, one after the other, are the horses of the joined list |
| RaceModel.TickedAtStep | part2/src/models/Race.java:70-77 | moving lane i and adding its horse when it was running and reached the length carries both the pass and the added finishers from i lanes to i + 1 |
| RaceModel.StandingsStep | part2/src/models/Race.java:71-75 | moving a running lane's horse, even one standing in other lanes too, keeps the finish order's meaning once it is added on reaching the length; a running horse is not yet in the order; the lanes advance |
| RaceModel.TickedAtDone | part2/src/models/Race.java:70-77 | after every lane, the lanes are TickLanes of the lanes before, and the horses added to the finish order are those of the tick's finishers, in lane order |
| RaceModel.RunStep | part2/src/models/Race.java:69-87 | one more tick after a tick that left a lane running extends the run and the finish order by that tick's finishers |
| RaceModel.FinishedInOrderStep | part2/src/models/Race.java:69-77 | the finish order of one more tick: the horses of the earlier ticks' finishers, then the new tick's |
| RaceModel.Race.constructor | part2/src/models/Race.java:28-32 | one empty lane per lane of the track, and an empty finish order |
| RaceModel.Race.RaceWonBy | part2/src/models/Race.java:146-148 | a horse has won exactly when its lane state has reached the track length, and then the tick loop leaves it as it is whatever the draws |
| RaceModel.Race.AllDoneMeans | part2/src/models/Race.java:81-87 | the completion check over the horses is Done over their lane states |
| RaceModel.Race.Winner | part2/src/models/Race.java:114-118 | there is a winner exactly when the finish order is non-empty, and it is the first horse in it |
| RaceModel.Race.AddHorse | part2/src/models/Race.java:40-46 | a lane outside 1..lanes.length changes nothing; otherwise only that lane is set, replacing any horse there |
| RaceModel.Race.MoveHorse | part2/src/models/Race.java:128-138 | a standing horse takes two draws, advancing when the first is below its confidence and falling when the second is below 0.01·confidence²; a fallen horse takes none; items and confidence are kept |
| RaceModel.Race.MoveRunning | part2/src/models/Race.java:72 | moveHorse on a running lane: its state becomes Move with the next two draws; every lane holding the same horse changes with it, and every other lane is unchanged |
| RaceModel.Race.MoveLane | part2/src/models/Race.java:71-76 | the lane becomes LaneAfter of its state; its horse joins the end of the finish order exactly when it was running and reached the length; the finish order keeps its meaning and the lanes advance |
| RaceModel.Race.TickLane | part2/src/models/Race.java:71-76 | MoveLane within a pass: the finish order only grows and keeps its meaning; with no horse in two lanes, the pass and its added finishers reach one more lane |
| RaceModel.Race.Tick | part2/src/models/Race.java:70-77 | the finish order only grows and keeps its meaning (no duplicates, exactly the lane horses at or past a positive length, nobody past it) and the lanes advance; with no horse in two lanes, the lanes are TickLanes of the lanes before and the horses added are those of the tick's Finishers, in lane order |
| RaceModel.Race.TickRun | part2/src/models/Race.java:70-77 | one tick of the loop, which with no horse in two lanes extends the run and the finish order by one tick |
| RaceModel.Race.TickAndCheck | part2/src/models/Race.java:70-87 | a tick, then the completion check, whose result is AllDone and Done on the lane states |
| RaceModel.Race.Reset | part2/src/models/Race.java:62-67 | the finish order is cleared and every horse is at distance 0, with its fallen flag and items kept: the lanes are ResetLanes of the lanes before |
| RaceModel.Race.RunTicks | part2/src/models/Race.java:69-93 | the loop ends complete only after a tick that left every horse finished or fallen, and otherwise was cut off with a horse still running; the finish order keeps its meaning; falls are kept; with no horse in two lanes, the lanes are RunLanes from the start and the finish order is FinishOrder's lanes |
| RaceModel.Race.ResetAndRun | part2/src/models/Race.java:62-93 | the reset and the loop: the loop's facts hold, from the reset lanes |
| RaceModel.Race.StartRace | part2/src/models/Race.java:54-119 | an empty lane refuses the start and changes neither the finish order nor any horse; otherwise ticks run until all horses have finished or fallen, and the finish order holds exactly the horses at a positive length, each once; with no horse in two lanes it is FinishOrder's lanes from the reset lanes: by the tick each reached the length, then by lane |
| RaceModel.Race.WinnerReachedLength | part2/src/models/Race.java:114-118 | on a positive length there is no winner exactly when no lane horse reached it; otherwise the winner is a lane horse that reached it |
| RaceStatisticsModel.RecordAfter | part2/src/models/RaceStatistics.java:34-36 | the record becomes the race's time and horse when there is no record or the race is strictly faster; otherwise it is kept; an existing best time never grows |
| RaceStatisticsModel.TieKeepsHolder | part2/src/models/RaceStatistics.java:34 | a race as fast as the record keeps the old holder |
| RaceStatisticsModel.RecordAfterIdempotent | part2/src/models/RaceStatistics.java:34-36 | applying the same race twice changes the record no more than once |
| RaceStatisticsModel.ZeroTimeRecordIsReplaced | part2/src/models/RaceStatistics.java:34 | a best time of 0 reads as "no record", so any race replaces it |
| RaceStatisticsModel.FindTrack | part2/src/models/RaceStatistics.java:26-31 | the index of the first track with that name, or none exactly when no track has it |
| RaceStatisticsModel.UpdateTrackRecords | part2/src/models/RaceStatistics.java:21-40 | with no such track nothing changes or is saved; otherwise only the first such track's record follows RecordAfter, and the list is saved exactly when the record was replaced |
| BetModel.Bet.constructor | part2/src/models/Bet.java:19-27 | a bet copies the horse's name and symbol and the stake, and starts not won with no winnings |
| BetModel.Bet.SetWon | part2/src/models/Bet.java:40 | only the won flag changes |
| BetModel.Bet.SetWinnings | part2/src/models/Bet.java:41 | only the winnings change |
| BetModel.Bet.CalculatePotentialWinnings | part2/src/models/Bet.java:44-46 | a bet's potential winnings equal the odds helper's winnings for its stake |
| BettingOdds.CalculateOdds | part2/src/utils/BettingOdds.java:8-15 | the odds are never below 1.1, are never below the raw formula, and are one of the two |
| BettingOdds.RawOdds | part2/src/utils/BettingOdds.java:10-12 | the confidence formula 2 + 8·(1 − confidence) scaled by the surface: exactly the formula on a dry track, and for a confidence of at most 1 never below it, and so never below 2, on any surface |
| BettingOdds.CalculatePotentialWinnings | part2/src/utils/BettingOdds.java:21-23 | odds of at least 1 pay back at least a non-negative stake, and odds above 1 pay more than a positive stake |
| BettingOdds.OddsWinningsCoverStake | part2/src/utils/BettingOdds.java:8-23 | a positive stake at the computed odds always pays back more than the stake |
| BettingOdds.OddsRange | part2/src/utils/BettingOdds.java:10-14 | for a confidence in [0, 1] the floor never applies, and on a dry track the odds lie in [2, 10] |
| BettingOdds.OddsFallWithConfidence | part2/src/utils/BettingOdds.java:10-14 | more confidence never lengthens the odds on the same surface |
| BettingOdds.OddsRiseOnSlowerSurface | part2/src/utils/BettingOdds.java:10-14 | for a confidence in [0, 1] a slower surface never shortens the odds (dry, then muddy, then icy) |
| BetManagerModel.BetsForMembers | part2/src/models/BetManager.java:81-83 | a race's bets are exactly the ledger's bets for that race, and there are none for a race nobody bet on |
| BetManagerModel.BetsForSnoc | part2/src/models/BetManager.java:31-32 | a bet appended to the ledger is appended to its own race's bets only |
| BetManagerModel.AddToRace | part2/src/models/BetManager.java:32 | `computeIfAbsent(...).add`: the bet's race list gains the bet at its end, created if absent, and no other list changes |
| BetManagerModel.RaceListAfterAdd | part2/src/models/BetManager.java:32 | after the add, the bet's race list has gained the bet at its end and every other race's list reads as before |
| BetManagerModel.GroupedKeys | part2/src/models/BetManager.java:28-32 | in a grouped map the race ids with a list are exactly those some bet carries |
| BetManagerModel.AddKeepsGrouped | part2/src/models/BetManager.java:31-32 | adding a bet to the ledger and to its race list keeps the map grouped by race id |
| BetManagerModel.SumAmountsSnoc | part2/src/models/BetManager.java:90-95 | a further bet raises the total stake by its amount |
| BetManagerModel.SumAmountsBounds | part2/src/models/BetManager.java:90-95 | with no negative stakes the total is never negative and never below any one stake |
| BetManagerModel.WinningBetsMembers | part2/src/models/BetManager.java:58-60 | the winning bets are exactly the bets with the winner's name and symbol |
| BetManagerModel.WinningBetsSnoc | part2/src/models/BetManager.java:58-60 | a further bet joins the winning bets only if it is on the winner |
| BetManagerModel.SettleBets | part2/src/models/BetManager.java:58-70 | exactly the bets on the winner become won with stake-times-odds winnings; every other bet is untouched; one payout per winning bet, in order |
| BetManagerModel.BetManager.constructor | part2/src/models/BetManager.java:13-17 | a manager over the loaded bets, grouped by race |
| BetManagerModel.BetManager.LoadBets | part2/src/models/BetManager.java:100-107 | the ledger is the loaded bets and the map is rebuilt so that each bet is in exactly its race's list, in load order |
| BetManagerModel.BetManager.GetRaceBets | part2/src/models/BetManager.java:81-83 | the race's bets in ledger order, and an empty list for an unknown race |
| BetManagerModel.BetManager.GetTotalRaceBets | part2/src/models/BetManager.java:90-95 | the sum of the race's stakes, and 0 for an unknown race |
| BetManagerModel.BetManager.EachBetInItsRaceList | part2/src/models/BetManager.java:100-107 | each bet of the ledger is in its own race's list and in no other |
| BetManagerModel.BetManager.PlaceBet | part2/src/models/BetManager.java:26-39 | the new bet is recorded in the ledger and at the end of its race's list whatever the saves return; the race total grows by the stake; the result is true only if both saves succeeded |
| BetManagerModel.BetManager.ProcessRaceResults | part2/src/models/BetManager.java:45-74 | a race without bets is left alone; otherwise the odds are the lane count, and exactly the bets on the first finisher's name and symbol are settled as won |
| HorseComparator.CompareHorses | part2/src/utils/HorseComparator.java:15-50 | every per-horse field comes from its horse, the modifiers are the horses' totals, and each difference is the first value minus the second |
| HorseComparator.Swap | part2/src/utils/HorseComparator.java:15-50 | the comparison made the other way round exchanges the horses' fields |
| HorseComparator.SwapNegatesDifferences | part2/src/utils/HorseComparator.java:29-47 | swapping the horses negates every difference, and swapping back gives the original comparison |
| HorseComparator.Names | part2/src/utils/HorseComparator.java:101-107 | the item names in list order |
| HorseComparator.DropLeadingEmpty | part2/src/utils/HorseComparator.java:103-106 | no separator is written before the first non-empty name, so the empty names before it leave no trace |
| HorseComparator.DropLeadingEmptySnoc | part2/src/utils/HorseComparator.java:103-106 | one more name is dropped only while every name so far has been empty |
| HorseComparator.NoEmptyNameKeepsAll | part2/src/utils/HorseComparator.java:103-106 | when no name is empty, nothing is dropped |
| HorseComparator.AppendName | part2/src/utils/HorseComparator.java:103-106 | one pass of the builder loop appends the name with a separator exactly when the text is non-empty |
| HorseComparator.FormatItemList | part2/src/utils/HorseComparator.java:92-109 | "None" for a missing, non-list or empty argument; otherwise the item names joined by ", " |
| HorseComparator.FormatWithNamedItems | part2/src/utils/HorseComparator.java:100-108 | when every item has a name, the text is the names joined by ", " with no separator at either end |
| Csv.ScanParity | part2/src/utils/FileIO.java:71-73 | after any prefix of the line the in-quotes flag is set exactly when an odd number of quote characters has been read |
| Csv.ScanCount | part2/src/utils/FileIO.java:74-76 | after any prefix one field has been completed per comma read outside quotes |
| Csv.ScanJoin | part2/src/utils/FileIO.java:70-80 | after any prefix the fields read so far, joined with commas, give the prefix back |
| Csv.FieldCount | part2/src/utils/FileIO.java:65-83 | a line splits into one more field than it has commas outside quotes, so never into none |
| Csv.TrimAllKeeps | part2/src/utils/FileIO.java:75 | trimming fields whose ends are all above U+0020 leaves them as they are |
| Csv.ScanFromKeepsDone | part2/src/utils/FileIO.java:70-80 | reading on never loses a completed field: the fields done so far stay a prefix |
| Csv.ParseJoinRoundTrip | part2/src/utils/FileIO.java:75-81 | when no field has whitespace at either end, trimming changes nothing and joining the fields with "," gives back the line |
| Csv.ScanFromConcat | part2/src/utils/FileIO.java:70-80 | reading two texts one after the other is reading their concatenation |
| Csv.ScanNoComma | part2/src/utils/FileIO.java:71-79 | text without a comma only extends the current field, flipping the flag once per quote character |
| Csv.ScanQuotedText | part2/src/utils/FileIO.java:74-79 | inside quotes, commas do not split: text without quote characters only extends the current field |
| Csv.ScanLineComma | part2/src/utils/FileIO.java:74-76 | a comma outside quotes completes the current field |
| Csv.ScanLinePlain | part2/src/utils/FileIO.java:71-79 | text with no comma and an even number of quotes, read outside quotes, extends the field and leaves the flag clear |
| Csv.ScanLineQuoted | part2/src/utils/FileIO.java:71-79 | a quote-free text between double quotes reads as one field in progress, with the flag clear again at the end |
| Csv.ParseCsvLine | part2/src/utils/FileIO.java:65-83 | the character loop (of which `utils/fileIO.java:131-152` is a second, identical copy) returns exactly the trimmed fields of the reference scan, one more than the splitting commas |
| FileIO.WithConfidence | part2/src/utils/FileIO.java:130-137 | the horse's row gets the new confidence text in field 2 and keeps every other field and its match; any other row is unchanged |
| FileIO.WithConfidenceIdempotent | part2/src/utils/FileIO.java:130-137 | updating a row twice with the same text is the same as updating it once |
| FileIO.OtherHorseLineKept | part2/src/utils/FileIO.java:137 | another horse's line with no padded field is written back exactly as it was read |
| FileIO.UpdateHorseConfidence | part2/src/utils/FileIO.java:125-140 | the lines to write are the fixed header and then every row, updated, joined with "," and in order |
| FileIO.RacesOf | part2/src/utils/FileIO.java:371-372 | the rows it keeps are complete race rows carrying the horse's name, and never more than the file has |
| FileIO.RacesOfNone | part2/src/utils/FileIO.java:371-372 | the horse has no race rows exactly when no row carries its name |
| FileIO.RacesOfSnoc | part2/src/utils/FileIO.java:371-372 | one more row adds itself to the horse's race rows exactly when it carries the name |
| FileIO.RaceSumsSnoc | part2/src/utils/FileIO.java:373-389 | one more race row adds its win, its confidence and its timed race, if any, to the sums |
| FileIO.CountWins | part2/src/utils/FileIO.java:374 | wins never outnumber races |
| FileIO.SumConfidenceBounds | part2/src/utils/FileIO.java:376-382 | with every parsed confidence in [0, 1], the confidence total lies between 0 and the number of races |
| FileIO.TimedRaces | part2/src/utils/FileIO.java:384-389 | races with time -1 add no speed: every kept pair has a recorded time, and there are no more pairs than races |
| FileIO.RateIsPercentage | part2/src/utils/FileIO.java:396 | a win rate of at most as many wins as races lies in [0, 100] |
| FileIO.TallyRace | part2/src/utils/FileIO.java:373-389 | one race row adds one race, a win exactly when its position rounds to 1, its confidence (0.5 if unparsable) and its (distance, time) pair exactly when a time was recorded |
| FileIO.SumRaces | part2/src/utils/FileIO.java:366-391 | the loop's counters end as the race count, the wins, the confidence total and the timed races of the horse's race rows |
| FileIO.GetHorseStats | part2/src/utils/FileIO.java:362-403 | no statistics exactly when no row has the name; otherwise the race count, wins (no more than races), a win rate in [0, 100], the average confidence (0.5 for an unparsable field) and the timed races |
| FileIO.AverageConfidenceInUnitRange | part2/src/utils/FileIO.java:393-397 | when every parsed confidence lies in [0, 1], so does the average |
| FileIO.CountWon | part2/src/utils/FileIO.java:439-440 | winning bets never outnumber bets |
| FileIO.NoWinNoWinnings | part2/src/utils/FileIO.java:439-442 | with no won bet the winnings are 0, so the profit is minus the stakes |
| FileIO.GetBettingStats | part2/src/utils/FileIO.java:427-455 | no statistics exactly when there are no rows; otherwise winning bets are at most the bets, the win rate lies in [0, 100], profit is winnings minus stakes, and the return on investment is absent exactly when nothing was staked |
| FileIO.ShapeValueOf | part2/src/utils/FileIO.java:177 | `TrackShape.valueOf`: OVAL and FIGURE_EIGHT exactly for those names, and nothing otherwise |
| FileIO.TrackRows | part2/src/utils/FileIO.java:171-172 | only rows with at least three fields become tracks, and all do when every row has three |
| FileIO.TrackRowsSnoc | part2/src/utils/FileIO.java:171-172 | one more row becomes one more track exactly when it has three fields |
| FileIO.NewTrack | part2/src/utils/FileIO.java:173-186 | a new track with three lanes on a dry surface, its name, length and shape from the row, and a best time and holder only where the row has non-empty ones |
| FileIO.LoadTracks | part2/src/utils/FileIO.java:167-192 | one new track per row with three or more fields, in file order, each as NewTrack describes |
| FileIOAlt.AnyHorseMeans | part2/src/utils/fileIO.java:97 | the found flag ends true exactly when some line after the header is the horse's |
| FileIOAlt.RewriteAll | part2/src/utils/fileIO.java:91-105 | one line out per line in; the horse's lines are rewritten and every other line is kept verbatim |
| FileIOAlt.RewriteSnoc | part2/src/utils/fileIO.java:91-105 | one more line extends both the rewrite and the search by that line |
| FileIOAlt.RewriteLine | part2/src/utils/fileIO.java:92-104 | the line matches exactly when it is the horse's, and comes out rewritten |
| FileIOAlt.UpdateHorseConfidence | part2/src/utils/fileIO.java:76-124 | a value outside [0, 1] is rejected before reading; nothing is written exactly when no line is the horse's; otherwise the header is copied, the horse's lines become `"name",symbol,value` and every other line is kept verbatim |
| FileIOAlt.ScanHorseLine | part2/src/utils/fileIO.java:99 | a rewritten line splits into the quoted name, the symbol field and the value |
| FileIOAlt.UnquoteQuoted | part2/src/utils/fileIO.java:93 | removing the double quotes around a quote-free name gives the name back |
| FileIOAlt.HorseLineFields | part2/src/utils/fileIO.java:93-99 | a rewritten line splits, after trimming, into exactly the quoted name, the symbol field and the value text |
| FileIOAlt.HorseLineReadsBack | part2/src/utils/fileIO.java:93-99 | a rewritten horse line reads back as the same horse (same name and symbol) with the new confidence text and no later field |
| FileIOAlt.QuotedSymbol | part2/src/utils/fileIO.java:370 | the symbol field `'c'` saveHorses writes holds two quotes and no comma, and has no blank end |
| FileIOAlt.SavedLineRaw | part2/src/utils/fileIO.java:370 | before trimming, a saved horse line splits into the quoted name, the quoted symbol and the confidence text first, whatever follows |
| FileIOAlt.SavedLineFields | part2/src/utils/fileIO.java:370 | after trimming, the first three fields of a saved horse line are the quoted name, the quoted symbol and the confidence text |
| FileIOAlt.SavedLineHorse | part2/src/utils/fileIO.java:43-59 | a line saveHorses writes is loadable, and ingestHorses reads from it the saved name, the saved symbol and the parsed confidence (0 outside [0, 1]) |
| FileIOAlt.SaveLoadRoundTrip | part2/src/utils/fileIO.java:43-59 | a horse loaded from a saved line has the saved name and symbol and the saved confidence (0 outside [0, 1]), but breed Thoroughbred and coat Bay whatever was saved |
| FileIOAlt.FirstBreedLine | part2/src/utils/fileIO.java:349-362 | the position of the first line for the breed: no line before it is for the breed, and it is one unless it is past the end |
| FileIOAlt.BreedAttributesFirstMatch | part2/src/utils/fileIO.java:349-362 | the lookup finds nothing exactly when no line is for the breed, and otherwise returns the attributes of the first line that is |
| FileIOAlt.GetBreedAttributes | part2/src/utils/fileIO.java:345-363 | the lookup loop returns the first-match attributes (fields 1 to 3 of the first line with five fields naming the breed), or none |
| FileIOAlt.BaseStats | part2/src/utils/fileIO.java:53-55 | without breed attributes the base speed and endurance are 1.0 each; otherwise they are attributes 0 and 1 |
| FileIOAlt.IngestHorse | part2/src/utils/fileIO.java:43-59 | a new horse with the unquoted name, the symbol after the quote, the parsed confidence (0 outside [0, 1]), a Thoroughbred of Bay coat, and base stats from the breed file or 1.0 |
| FileIOAlt.AllBuiltSnoc | part2/src/utils/fileIO.java:43-59 | appending a horse built from the next line's values keeps every earlier horse built from its own line |
| FileIOAlt.AllBuiltLoaded | part2/src/utils/fileIO.java:43-59 | horses built from the values their lines describe are exactly the horses those lines load |
| FileIOAlt.IngestHorses | part2/src/utils/fileIO.java:33-68 | one new horse per line after the header, in order, each as IngestHorse describes |
| JavaNum.Div | part2/src/models/Track.java:74 | Java's `/` on int: the quotient truncated toward zero |
| JavaNum.Rem | part2/src/models/Track.java:74 | Java's `%` on int: the remainder keeps the sign of the dividend and splits the dividend with Div |
| JavaNum.Trunc | part2/src/models/Horse.java:124 | the `(int)` cast: truncation toward zero |
| JavaNum.Round | part2/src/utils/FileIO.java:374 | `Math.round`: the nearest integer, halves rounded up |
| Common.RemoveChar | part2/src/utils/FileIO.java:131 | `replace("\"", "")`: no double quote is left, every other character of the input is still there, and a string without the quote is unchanged |
| Common.RemoveCharSingle | part2/src/utils/FileIO.java:131 | a one-character string loses its character exactly when it is the removed one |
| Common.RemoveCharPositions | part2/src/utils/FileIO.java:131 | the result is a subsequence of the input: it reads the input at strictly increasing positions that include every character other than the removed one, so only that character goes and the rest keep their order |
| Common.RemoveCharConcat | part2/src/utils/FileIO.java:131 | removal works piece by piece: removing from a concatenation is removing from each part, so with the one-character case every other character is kept, in order |
| Common.TrimStart | part2/src/utils/FileIO.java:75 | the result is a suffix of the input that is empty or starts above U+0020 |
| Common.TrimStartBlank | part2/src/utils/FileIO.java:75 | every character TrimStart removes is at most U+0020, so it removes exactly the leading blank run |
| Common.TrimEnd | part2/src/utils/FileIO.java:75 | the result is a prefix of the input that is empty or ends above U+0020 |
| Common.TrimEndBlank | part2/src/utils/FileIO.java:75 | every character TrimEnd removes is at most U+0020, so it removes exactly the trailing blank run |
| Common.Trim | part2/src/utils/FileIO.java:75 | `String.trim`: the result's ends are above U+0020, and a string whose ends are above U+0020 is left as it is |
| Common.TrimInfix | part2/src/utils/FileIO.java:75 | Trim keeps an infix of the string, and every character it removes before or after that infix is at most U+0020 |
| Common.BlankOutside | part2/src/utils/FileIO.java:75 | in a split into blank start, infix and blank end, every character above U+0020 lies in the infix |
| Common.SplitUnique | part2/src/utils/FileIO.java:75 | two splits into blank start, infix with non-blank ends and blank end have the same infix |
| Common.TrimUnique | part2/src/utils/FileIO.java:75 | any split of a string into blank start, infix with non-blank ends and blank end gives Trim as that infix, so Trim is `String.trim` |

## Left out

- Swing UI, the animation timer and the background race thread: presentation and concurrency outside the modelled core.
- File reading and writing (`readCsvFile`, `writeCsvFile`, the buffered readers and writers, `Files.write`): file contents and save results are parameters. An `IOException` path is not modelled.
- `printRace`, `printLane`, `multiplePrint`, the result printing and the 100 ms sleep in both races: terminal output and timing only. The part2 race's list of fallen horses sorted by distance (part2/src/models/Race.java:102-112) is only printed and is left out with them.
- `Math.random()`: replaced by an explicit stream of draws. Nothing states that draws lie in [0, 1) except where a lemma asks for it.
- Part1Race.Race.StartRace: the source loop may never end; the model stops after `maxTicks` ticks and reports `OutOfTicks`.
- RaceModel.Race.StartRace: the same tick bound.
- Part1Race.Race.Tick: the source lets one horse be added to two lanes (`addHorse` does not check). Only without such a horse is the pass proved to be TickLanes, with each running horse moved once. With one, it is moved once per lane it holds, and the model states only TickStep for every horse.
- Part1Race.Race.RunTicks: likewise, the lanes are tied to RunLanes only when no horse stands in two lanes. Otherwise the loop's completion facts and TickStep's bounds are stated, but not which draws moved whom.
- RaceModel.Race.Tick: with a horse in two lanes, only the finish order's meaning (StandingsAt), growth of the order and Advanced are stated. That the horses added are the tick's Finishers in lane order is proved only when no horse stands in two lanes.
- RaceModel.Race.RunTicks: likewise, the finish order is FinishOrder's lanes, by tick and then by lane, only when no horse stands in two lanes. Otherwise it holds exactly the horses at a positive length, each once, in an order the model does not state.
- HorseComparator.CompareHorses: `compareHorses` calls `calculateTotalSpeedModifier` and `calculateTotalEnduranceModifier`, which are private in part2/src/models/Horse.java:173,181, so the Java does not compile as written. The model reads them as accessible and uses their values.
- Java `double` rounding: every confidence, modifier, odds value and amount is an exact real. NaN and infinities do not exist; the betting return on investment over a zero stake is `None`.
- Java `int`/`long` overflow: distances, counters and durations are unbounded integers.
- Java strings are UTF-16, but the model's strings are sequences of Unicode scalar values. `char` symbols, `charAt(1)` (part2/src/utils/FileIO.java:93,132 and part2/src/utils/fileIO.java:47,94), `length()` and the field-length tests therefore count scalars, not UTF-16 code units. On a character outside the Basic Multilingual Plane (above U+FFFF), such as an emoji symbol, Java reads one half of a surrogate pair where the model reads the whole character. A row such as `🐎` without quotes has a Java length of 2 but a model length of 1. The model agrees with Java only on text without such characters; every symbol the source itself uses (♞, ♘, ⏩) is within the plane.
- The `utils.FileIO.updateHorseConfidence` call inside `setConfidence` (part2/src/models/Horse.java:94): a write to the horse file, left out as I/O. `HorseModel.Horse.SetConfidence` models only the field update.
- Number parsing and formatting: `Double.parseDouble`, `Integer.parseInt`, `Long.parseLong` and `Double.toString` are parameters. `String.format("%.2f", ...)` output arrives as text. A `NumberFormatException` that the source does not catch is not modelled.
- FileIO.GetHorseStats: the average, best and worst speeds are not computed; the statistics keep the (distance, time) pairs they come from, because the division by a time in seconds is floating-point presentation.
- FileIO.UpdateHorseConfidence: the confidence arrives already formatted as `%.2f` text.
- FileIOAlt.UpdateHorseConfidence: the value arrives as text, as `Double.toString` prints it. An empty file (a `null` header) is modelled as nothing found.
- `FileIO.ingestHorses` (part2/src/utils/FileIO.java:85-123) calls a five-argument `Horse` constructor that `Horse` does not have; only the `fileIO.ingestHorses` copy is modelled.
- `fileIO.loadTracks`, `saveHorses`, `saveTracks`, `saveBets`, `loadBets`, `loadTransactions`, `saveTransactions`, `storeRaceStats`, `loadBreeds`, `loadEquipment`, `loadAccessories` and the other readers and writers: file I/O outside the modelled row logic.
- A full save/load round trip for horses does not hold, and only a partial one is proved. `FileIO.saveHorses` writes the symbol without quotes (part2/src/utils/FileIO.java:292-294), while its loader reads the character after a quote. `fileIO.saveHorses` writes the quoted symbol that `ingestHorses` reads back (part2/src/utils/fileIO.java:370), but `ingestHorses` replaces the breed and coat with Thoroughbred and Bay and takes the base stats from the breed file. So only the name, symbol and confidence read back, which `FileIOAlt.SaveLoadRoundTrip` proves.
- BetManagerModel.BetManager.PlaceBet: `race.getRaceID()` does not exist on `Race`, so the race id is a parameter; the save results are parameters.
- BetManagerModel.BetManager.ProcessRaceResults: `race.getFinishOrder()` and `race.getLanes()` do not exist on `Race`, so the finish order and the lane count are parameters. The WIN transactions are the returned payouts; `Transaction.TransactionType` has neither BET nor WIN.
- `Transaction`, and the date and time of a `Bet` (`LocalDateTime.now()`, `getDate`, `getTime`, `toTableRow`, `toCsvString`): clock-dependent formatting.
- `BettingOdds.formatOdds` and `HorseComparator.formatComparison`: `%.1f` and `%.2f` text formatting.
- `RaceStatistics.getHorseStats`, `getBettingStats` and `storeRaceStats`: they only forward to the file layer, whose logic is modelled in `FileIO`.
- RaceStatisticsModel.UpdateTrackRecords: the loaded tracks are a parameter and `saveTracks` is reduced to the `saved` result.
- HorseComparator.FormatItemList: `null`, a non-list and a list whose first element is not a `HorseItem` are all represented by `None`, since the model's item lists are typed.
