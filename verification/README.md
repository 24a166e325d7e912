# Verified model of the OpenTransit API core

Dafny 4.11 models of the stateful and algorithmic parts of the OpenTransit backend, with proofs of what these parts
are for. `dafny verify dfyconfig.toml` checks everything; each `.dfy` file is one component.

Where the program edits objects, dictionaries and lists step by step, the model is a method or a class with the same
branches, proved equal to a specification function; the theorems are about that function, mostly over whole runs.
Where a promise of the program turns out not to hold on all inputs, the code is modelled as it is, a lemma names an
input on which it fails, and another states exactly when it holds.

| component | files | what is proved |
|---|---|---|
| realtime cache | `Realtime`, `RealtimeCache`, `RealtimeFrames` | deltas taken before bearings are filled in still give subscribers the exact frame, in every run of polls and purges; which bearing a vehicle shows |
| analytics rollup | `Analytics`, `AnalyticsStore`, `AnalyticsCounts` | watermark rollups equal aggregation from scratch for every interleaving of inserts and rollups; what each counter counts |
| curb-rule clock | `CurbClock`, `CurbDates`, `CurbZone` | the announced next change is exact; what each field of a rule means for the days; what a zone announces when a stronger rule is dormant |
| offline timetable | `Interning`, `Timetable`, `TimetableBoards`, `TimetablePatterns`, `TimetableJourneys`, `TimetablePatternBuild`, `TimetableDepartures`, `TimetableVehicles` | the board file and the pattern file hold the same departures, which are those the feed promises |
| service calendar | `ServiceCalendar`, `ServiceDays` | the typed and the textual calendar evaluators agree; on which days a service runs |
| geometry | `Polyline`, `Simplify`, `ChordDistance`, `Geohash`, `GeohashGrid`, `Dedupe`, `DedupeVerdicts` | codec round trips in both directions, Douglas-Peucker on a stack, geohash cells, shape deduplication |
| push | `PushLog`, `Push`, `PushPasses` | wake-ups exactly once, alerts at most once, six a day for each life of the process; whom a pass reaches |
| accounts | `Accounts`, `AccountsSteps`, `AccountsStore` | an enabled owner always remains, sessions and identity bindings stay sound; exactly when each step is done |
| assistant loop | `ToolLoop`, `ToolReplies` | replies do not depend on the order concurrent tools finish in; which calls are run and when a reply ends |
| itineraries | `Itinerary`, `ParkRide`, `TripTimes`, `ParkingFee`, `ParkingStays`, `Predictions`, `PredictionRows` | timelines stay consistent, fees are monotone and metered, predictions are conserved |
| configuration | `ConfigMerge`, `ConfigStore` | layering, idempotence, relation to RFC 7386, runs of edits, resets and restarts |

## Results that differ from what the program says of itself

- A frame that repeats a vehicle id may break the delta (`Realtime.RepeatedIdBreaksDelta`; exactly when is
  `Realtime.DeltaExactness` and, on the input, `Realtime.DeltaExactOnInput`). A client that sleeps through a
  publication misses its delta (`Realtime.SkippedDelta`, `Realtime.MissedRemovalLeavesGhost`). The operator's purge clears
  the trails but leaves the smoothing state behind (`Realtime.SmoothingStateInStep`).
- A row whose reception time is not above the watermark is missing from the tables unless a newer row touches the
  same day (and hour): `AnalyticsStore.LateRowIsLost`. Exactly when one rollup is right is `Analytics.RollupIsExact`, and
  exactly when the tables are right in a run, healing rollups included, `AnalyticsStore.TablesRightExactly`.
- `next_change` misses a rule that starts at noon of its start date (`CurbClock.NoonStartIsMissed`), and
  `evaluate_zone` announces no change when a dormant policy of better priority wakes up
  (`CurbZone.PeakBanIsNotAnnounced`).
- A trip with a single timed stop is on the boards and in no pattern (`Timetable.LoneCallIsDropped`), and a frequency trip
  whose first call is not its earliest is shifted differently (`Timetable.LateFirstCallDisagrees`); exactly when they agree
  is `Timetable.AgreementExact`.
- A calendar ending on `99999999` runs in the bundle and not in the API (`ServiceCalendar.AllNinesSplitsThem`), one
  starting on `2026101` the other way round (`ServiceCalendar.ShortDateSplitsThem`); exactly when they agree is
  `ServiceCalendar.AgreeExactly`.
- `bounds` documents a `ValueError` for a bad hash and raises `KeyError`; the model returns `None`. Centres rounded to six
  decimals encode back for lengths up to eleven and for no longer ones (`Geohash.CentersEncodeBack`).
- The comment on `WAKE_WINDOW` says an instant counts as due from two minutes before it; the code makes it due until two
  minutes after it, and the model follows the code. The daily alert count lives in the process, so a restart
  starts the day's six anew (`Push.RestartReopensTheDay`, `Push.SeventhInADay`); a day keeps to six for each life of the
  process (`Push.DailyCapOverRuns`).
- A sign-in that provisions the very first account leaves a deployment without an owner until the shell is used
  (`Accounts.NoOwnerStays`, `Accounts.ProvisionedFirst`); the shell command that disables an account does not look whether
  it is the last owner (`Accounts.ShellTakesLastOwner`; exactly when: `Accounts.OwnerStays`).
- A car leg between two transit legs moves the earlier one (`Itinerary.BusLeavesEarly`, `ParkRide.LongerWalkMovesBus`;
  exactly when: `Itinerary.TransitMoves`, `ParkRide.RewriteMovesTransit`, and `ParkRide.ParkThenStretchMoves` for both
  rewritings); a park-and-ride walk shorter than the one it replaces leaves the car leg longer than it states
  (`ParkRide.ShorterWalkStretchesCar`; exactly when: `ParkRide.ParkedLegLength`).
- Two calls run under one id make the reply depend on which tool finishes last (`ToolLoop.SharedIdRaces`; exactly when:
  `ToolLoop.ConfluentExactly`).
- A null inside a section restores the YAML value only if the override already holds that section; otherwise the
  null is stored and the key vanishes (`ConfigMerge.NullVanishes`; exactly when: `ConfigMerge.NestedNullRestores`).
  Merging in layers, merging twice and RFC 7386 each agree with the merge under a condition of their own
  (`ConfigMerge.Layering`, `ConfigMerge.Idempotent`, `ConfigMerge.IsMergePatch`; inputs without it:
  `ConfigMerge.ValueOverrideIsForgotten`, `ConfigMerge.FreshNullStays`). Revisions repeat after a reset
  (`ConfigStore.RevisionRepeats`; exactly when: `ConfigStore.RevisionsUnique`).

## Model
| member | source | states |
|---|---|---|
| `Realtime.BearingIsCourse` | app/rt.py:181-194 | a bearing is the course from the most recent position outside the noise radius if that is recent enough, and there is none otherwise |
| `Realtime.UnchangedStaysUnchanged` | app/rt.py:365-404 | a vehicle the raw comparison calls unchanged has, once bearings are filled in, the position, trip and bearing it had in the frame before, however often a frame repeats it |
| `Realtime.DeltaExactness` | app/rt.py:365-426 | for any frame, repeated ids and derived bearings included: it does exactly when every vehicle's last changed record shows what its last record shows |
| `Realtime.DeltaIsExact` | app/rt.py:365-426 | patching the previous frame with the published delta gives exactly the new frame, though bearings are filled in after the delta was decided, unless some vehicle's last record is unchanged and an earlier one of it is not |
| `Realtime.DeltaExactOnInput` | app/rt.py:365-426 | it does exactly when no vehicle's last record is unchanged while an earlier one changed, if two such records differ in position or trip or the feed supplies a bearing for both or neither: for every feed with bearings and every feed without |
| `Realtime.UniformIsComparable` | app/rt.py:386-404 | a feed that supplies all bearings or none is of that kind |
| `Realtime.RunKeepsInv` | app/rt.py:372-426 | in every run each vehicle shown without a bearing has a trail that ends at its position and yields none |
| `Realtime.SubscriberTracksFrame` | app/rt.py:359-426 | a subscriber that reads every publication holds exactly the current frame after any run of polls and purges in which no such vehicle occurs |
| `Realtime.UniqueIsOrderly` | app/rt.py:365-370 | and none occurs as long as no frame repeats an id |
| `Realtime.RepeatedIdBreaksDelta` | app/rt.py:365-370 | a frame with a moved and then an unmoved record of one vehicle leaves the patched frame wrong |
| `Realtime.StreamTracksFrame` | app/rt.py:429-447 | a client of the two-slot queue that reads every publication before the next one shows the current frame whenever nothing waits |
| `Realtime.PatchTwice` | app/routers/vehicles.py:92-105 | reading one delta twice changes nothing |
| `Realtime.SkippedDelta` | app/rt.py:429-447 | two publications, then two wake-ups: the client reads the newer delta twice and is right exactly when what the missed one removed is back and what it moved is gone, sent again or not really changed |
| `Realtime.MissedRemovalLeavesGhost` | app/rt.py:429-447 | a vehicle that leaves in the missed frame stays on the client's map |
| `Realtime.MemoryIsBounded` | app/rt.py:372-384 | no trail exceeds its ring, and after a poll there are at most three trails for each of max(vehicles, 1000) |
| `Realtime.SmoothingStateInStep` | app/rt.py:381-384 | polls keep the smoothing state inside the trails, and a purge does exactly when there is none |
| `RealtimeCache.RTCache.ComputeDelta` | app/rt.py:365-370 | the delta lists the live objects that are new or differ, and the removed ids |
| `RealtimeCache.RTCache.Apply` | app/rt.py:406-426 | one poll over shared, mutable vehicle objects does to frame, trails, bearings and published delta what the specification of a poll says |
| `RealtimeFrames.DerivedIsCourse` | app/rt.py:181-194 | the derived course of a trail is that from the latest position it moved away from, and there is one exactly when it moved |
| `RealtimeFrames.BearingShown` | app/rt.py:386-404 | a vehicle shows the bearing of the feed; without one and moving, the rounded course, the first time alone and then averaged with the course before; otherwise none |
| `RealtimeFrames.CourseRemembered` | app/rt.py:372-404 | after a poll the course remembered for a vehicle is the one it last moved on without a bearing of the feed |
| `RealtimeFrames.CoursesOverRuns` | app/rt.py:372-426 | so over every run of polls and purges |
| `RealtimeFrames.BearingOverRuns` | app/rt.py:386-426 | in a run a moving vehicle is smoothed with the course it moved on before |
| `RealtimeFrames.TrailIsRecentPath` | app/rt.py:372-380 | over a run without pruning a trail is the last distinct positions of its vehicle, as many as the ring holds |
| `RealtimeFrames.DeltaCarriesNews` | app/rt.py:365-370 | a delta carries exactly the records that differ from the frame before in position, trip or bearing, in order, and the ids that are gone |
| `Analytics.SelectionKeepsCell` | app/analytics.py:318-400 | a counter, session counts included, is the same over any selection of rows that keeps every row reaching it |
| `Analytics.RolledUpCell` | app/analytics.py:444-461 | a rolled-up counter is the one over all rows if its day or hour was touched, and the old one otherwise |
| `Analytics.RollupIsExact` | app/analytics.py:444-461 | a rollup of tables that were right gives the tables of all rows exactly when every later row not above the watermark is rescued by one that is |
| `Analytics.RescuedIsNeeded` | app/analytics.py:422-461 | a late row that no newer row rescues leaves some counter wrong |
| `AnalyticsCounts.SessionsCounted` | app/analytics.py:318-380 | the sessions of a day are the different sessions its rows name, and there is no count without rows |
| `AnalyticsCounts.HitsCounted` | app/analytics.py:318-400 | every other counter holds how often the rows hit it, and is absent without a hit |
| `AnalyticsCounts.HitsAreWeights` | app/analytics.py:334-378 | a row hits exactly the counters that are about its event, on its own hour or day, as often as they are |
| `AnalyticsCounts.CountersCountEvents` | app/analytics.py:318-400 | in a time zone every counter holds the number of the events it is about |
| `AnalyticsStore.RollupsAgreeWithScratch` | app/analytics.py:431-461 | after any interleaving of inserts and rollups of any cities that ends in a rollup, the city's tables aggregate all of its raw rows |
| `AnalyticsStore.TablesRightExactly` | app/analytics.py:431-461 | in every run, late rows and all, a city's tables aggregate its raw rows exactly when every counter a row reaches was recomputed by a rollup after the row came in |
| `AnalyticsStore.RollupIsIdempotent` | app/analytics.py:444-461 | a second rollup in a row changes nothing |
| `AnalyticsStore.LateRowIsLost` | app/analytics.py:447-451 | a row inserted with a stale reception time on a quiet day is missing after the next rollup |
| `AnalyticsStore.TimeZonesAreSound` | app/analytics.py:314-400 | the event-to-counter rules of a time zone put every counter of a row on the row's own day and hour |
| `AnalyticsStore.AggregateRows` | app/analytics.py:318-400 | the counting loop computes the aggregate |
| `AnalyticsStore.TouchedBy` | app/analytics.py:422-428 | the days and hours of the new rows |
| `AnalyticsStore.MemoryAnalyticsStore.RollUp` | app/analytics.py:444-461 | the in-memory store performs the specified rollup and leaves other cities alone |
| `CurbClock.WrapIsTwoSpans` | app/openmobility.py:143-150 | a window wrapping midnight is its evening and its morning part, both on the dates that match |
| `CurbClock.NextChangeExactness` | app/openmobility.py:167-193 | the state is constant up to the returned instant exactly when every start or end date of the eight days at which it differs has a candidate at or before it at which it differs |
| `CurbClock.NextChangeIsExact` | app/openmobility.py:108-193 | with dates on midnights the state is constant up to the returned instant and flips there; with none it does not flip for eight days |
| `CurbClock.NextChangeIsUnique` | app/openmobility.py:187-193 | the search has one answer |
| `CurbClock.NoonStartIsMissed` | app/openmobility.py:167-193 | a rule starting at noon is announced for the midnight after |
| `CurbClock.NextChange` | app/openmobility.py:167-193 | the loop over days and edges returns the first candidate at which the state differs |
| `CurbDates.OneDayInSeven` | app/openmobility.py:123-125 | a rule for one day of the week is on throughout one day in seven: Sunday for the first of the week, and the others after it |
| `CurbDates.DaysFromSunday` | app/openmobility.py:123-125 | listed days of the week count from any Sunday of the calendar |
| `CurbDates.WeekChange` | app/openmobility.py:123-193 | the next change of a rule for days of the week is the midnight before the first day listed where today is not, or the other way round; there is none where the week has no such day |
| `CurbDates.WeekendComes` | app/openmobility.py:123-193 | a rule for Monday to Friday asked on a Friday changes at Saturday's midnight, asked on a Saturday at Monday's |
| `CurbDates.WeeksFromFirst` | app/openmobility.py:126-131 | days and weeks of the month count from its first day: the first week is its first seven days |
| `CurbDates.HolidaysSplitTheDays` | app/openmobility.py:136-140 | a rule for holidays and its twin that excepts them split the days; a period nobody can tell is no restriction |
| `CurbDates.EveryFieldCounts` | app/openmobility.py:104-150 | a span is in force exactly when the spans with one of its fields are |
| `CurbDates.WindowOfDay` | app/openmobility.py:142-150 | a window is the instants from its first minute up to its last; one that ends before it starts is on exactly when the one with its ends exchanged is off |
| `CurbDates.OpenFromUntil` | app/openmobility.py:112-121 | a span runs from its opening date on and up to the closing one |
| `CurbDates.EndIsAnnounced` | app/openmobility.py:169-193 | an end on a midnight is announced on the seven days before it and not earlier |
| `CurbZone.EvaluateZone` | app/openmobility.py:403-447 | the decision is that of the lowest-priority policy in force, and the change is the earliest of those in force, or of all |
| `CurbZone.AnnouncedChangeExact` | app/openmobility.py:412-445 | the deciding policy decides until the announced change exactly when no dormant policy that outranks it has an earlier change |
| `CurbZone.NothingComesBefore` | app/openmobility.py:440-445 | where no policy is in force none comes into force before the announced change |
| `CurbZone.PeakBanIsNotAnnounced` | app/openmobility.py:440-445 | paid parking under an evening ban announces the end of both and not the start of the ban |
| `CurbZone.WinningPrice` | app/openmobility.py:482-495 | the loop of its own that looks for the price finds the lowest-priority policy in force that has a rule for the caller |
| `CurbZone.PriceFollowsDecision` | app/openmobility.py:482-495 | the price shown is the deciding policy's exactly when that policy has a rule for the caller |
| `CurbZone.StopExactly` | app/openmobility.py:369-432 | a policy lets a caller stop exactly when a rule written for one of the caller's classes allows it and none bans it; without a rule for the caller it is not in force |
| `CurbZone.TaxiBay` | app/openmobility.py:294-306 | a bay for taxis is open to a taxi and not to a car, a car bay to both, a bay that excepts cars to neither taxi with car rights nor car |
| `CurbZone.OneAnswer` | app/openmobility.py:421-445 | there is one earliest change and one deciding policy |
| `Interning.Interner.Intern` | scripts/build_offline_bundle.py:69-85 | a name keeps its index, a new one gets the next, and the table stays free of repeats |
| `Timetable.BoardsAndPatternsAgree` | scripts/build_offline_bundle.py:126-174 | in a well-formed feed boards and patterns hold the same departure minutes under every stop, route, headsign and service |
| `Timetable.NonDecreasingIsAnchored` | scripts/build_offline_bundle.py:154-174 | where times do not decrease the first call in order is the earliest, so both builders shift a frequency trip alike |
| `Timetable.AgreementExact` | scripts/build_offline_bundle.py:154-174 | under a key the two hold equally many departures exactly when none is the single call of a running trip, and the same ones exactly when, besides, no departure of a frequency trip falls in another minute counted from the first call than from the earliest time |
| `Timetable.AnchoredAgreement` | scripts/build_offline_bundle.py:154-174 | where frequency trips are anchored only single calls of running trips tell them apart |
| `Timetable.LoneCallIsDropped` | scripts/build_offline_bundle.py:154-160 | a feed with a one-row trip, on which they differ |
| `Timetable.LateFirstCallDisagrees` | scripts/build_offline_bundle.py:154-174 | a frequency trip whose first call is not the earliest, on which they differ |
| `TimetableBoards.Gaps` | scripts/build_offline_bundle.py:348-356 | prefix sums of the stored gaps give back the sorted minutes |
| `TimetableBoards.Build` | scripts/build_offline_bundle.py:292-356 | every board, once its gaps are added up and its indices named, holds the departure minutes of its key |
| `TimetablePatterns.RunsMatchCalls` | scripts/build_offline_bundle.py:164-174 | walking the runs departure by departure or the calls one by one gives the same minutes |
| `TimetablePatternBuild.BuildPatterns` | scripts/build_offline_bundle.py:112-177 | scanning the pattern file under its names gives for every key the minutes of all rows, and runs are sorted |
| `TimetablePatternBuild.BoardsMatchPatterns` | scripts/build_offline_bundle.py:97-99 | in a well-formed feed the board file and the pattern file give the same departures under every key, frequency trips included |
| `TimetableDepartures.VehiclesAre` | scripts/build_offline_bundle.py:339-341 | a row of frequencies.txt promises a vehicle for each multiple of its headway before its end |
| `TimetableDepartures.TableMinutes` | scripts/build_offline_bundle.py:297-301 | the windows of a trip are all of its usable rows, each with all its vehicles |
| `TimetableDepartures.BoardsHoldPromised` | scripts/build_offline_bundle.py:292-356 | a board holds exactly the minutes the rows of its key promise: one for a row without frequencies, one for each vehicle of each frequency row otherwise |
| `TimetableDepartures.PatternsHoldScheduled` | scripts/build_offline_bundle.py:112-177 | and so does the scan of the patterns for trips with two calls |
| `TimetableDepartures.EveryVehicleIsOnTheBoard` | scripts/build_offline_bundle.py:337-341 | every vehicle of every frequency row of a trip is on the board of each stop it calls at |
| `TimetableDepartures.EveryVehicleIsInThePatterns` | scripts/build_offline_bundle.py:164-174 | and in the scan of the patterns for a trip with two calls |
| `TimetableDepartures.BoardSize` | scripts/build_offline_bundle.py:337-346 | a board lists as many departures as its rows promise |
| `TimetableVehicles.TripIsVehicles` | scripts/build_offline_bundle.py:150-177 | a trip with two calls is entered as its vehicles, one journey each from the first stop to the last, and one with fewer is not entered |
| `TimetableVehicles.EveryVehicleRunsThrough` | scripts/build_offline_bundle.py:164-177 | every vehicle of a frequency row is one journey of the file, at the trip's own intervals from stop to stop |
| `TimetableVehicles.FileHoldsVehicles` | scripts/build_offline_bundle.py:112-177 | read through its tables of names the file holds exactly the vehicles of all trips with two calls |
| `TimetableVehicles.CallsInOrder` | scripts/build_offline_bundle.py:154-160 | the stops of a journey are all calls of the trip in order of sequence, stop and time |
| `TimetableVehicles.RunsLeaveInOrder` | scripts/build_offline_bundle.py:171-174 | the runs of a pattern are in the order in which they leave |
| `TimetableVehicles.BoardsCountForward` | scripts/build_offline_bundle.py:343-350 | a board never counts back, and its tables name each stop and route once |
| `ServiceCalendar.ParseText` | app/gtfs_static.py:111-116 | a date is read back from the eight digits it is written in |
| `ServiceCalendar.TextParse` | app/gtfs_static.py:111-116 | eight digits that can be read are what is written of the date |
| `ServiceCalendar.TextOrder` | scripts/build_offline_bundle.py:436-437 | dates compare as text as they do in time |
| `ServiceCalendar.EvaluatorsAgree` | scripts/build_offline_bundle.py:419-438 | with readable dates of eight digits both evaluators give the same answer for every service and date, with a calendar row or without |
| `ServiceCalendar.AgreeExactly` | scripts/build_offline_bundle.py:428-437 | whatever the tables' dates, they agree on a date exactly unless the row is unreadable or not of eight digits, the two comparisons differ and no exception decides; an exception filed under a shorter text decides for the API alone |
| `ServiceCalendar.AllNinesSplitsThem` | app/gtfs_static.py:111-116 | a last date of all nines is served by one evaluator and not by the other |
| `ServiceCalendar.ShortDateSplitsThem` | app/gtfs_static.py:111-116 | `2026101` is the first of October to one evaluator and a text after `20261005` to the other |
| `ServiceCalendar.BundleServices` | scripts/build_offline_bundle.py:363-388 | the bundle lists each referenced service once, and its exceptions by text |
| `ServiceCalendar.ActiveByText` | scripts/build_offline_bundle.py:419-438 | exactly the indices of the services the textual rule runs |
| `ServiceCalendar.ServiceIndex.ActiveServices` | app/features.py:201-213 | exactly the services the typed rule runs, in whatever order dictionaries are walked |
| `ServiceDays.RunsByDate` | app/features.py:201-213 | a service runs exactly when the last exception for the day adds it, or none removes it and the last row with readable dates covers the day on its weekday |
| `ServiceDays.RunsByText` | scripts/build_offline_bundle.py:419-438 | the bundle has it so by the texts of the rows as they are |
| `ServiceDays.DatesFollow` | app/gtfs_static.py:111-116 | dates are in the order of the days: nothing lies between a date and the day after it |
| `ServiceDays.LeapYears` | app/gtfs_static.py:111-116 | February has 29 days in every fourth year, the last of a century only every fourth century |
| `ServiceDays.ParseExactly` | app/gtfs_static.py:111-116 | a text is a date exactly when it is four digits of a year, a month and a day of that year and nothing else, the month of two digits where it can be |
| `ServiceDays.ShortDates` | app/gtfs_static.py:111-116 | so a day of one digit is read too, and a text with something left over is no date |
| `Polyline.DecodeEncode` | app/geo.py:63-101 | every list of grid points of any size and sign is decoded back |
| `Polyline.EncodeInjective` | app/geo.py:63-79 | equal encodings mean equal lines |
| `Polyline.NextPoint` | app/geo.py:72-79 | a further point adds its latitude and then its longitude, each as the difference from the point before |
| `Polyline.NumberFormat` | app/geo.py:63-69 | a number is written in base 32 from the lowest digit, in printable characters of which all but the last carry the continuation mark |
| `Polyline.DocumentedExample` | app/geo.py:72-79 | the example of the format's own documentation is encoded as it says |
| `Polyline.EncodeDecode` | app/geo.py:63-101 | a decodable text is the encoding of what it decodes to exactly when it is minimal: encoder characters, no padded group |
| `Polyline.EncNumber` | app/geo.py:63-69 | the shifting loop writes the five-bit groups of the zigzag number |
| `Polyline.EncodePolyline` | app/geo.py:72-79 | the encoding loop |
| `Polyline.ReadNumber` | app/geo.py:86-95 | the accumulating loop reads one number, or runs past the end |
| `Polyline.DecodePolyline` | app/geo.py:82-101 | the decoding loop |
| `Simplify.SimplifiedIsSubline` | app/geo.py:34-60 | both ends survive in place and the survivors keep their order |
| `Simplify.SimplifiedWithin` | app/geo.py:34-60 | a vertex dropped between neighbouring survivors is within `eps` of the line through them |
| `Simplify.OnlyEnds` | app/geo.py:34-60 | only the ends are left exactly when no vertex is farther than `eps` from their line |
| `Simplify.SimplifyTwice` | app/geo.py:34-60 | applying it twice changes nothing more |
| `ChordDistance.DistanceToLine` | app/geo.py:48-51 | with lengths by Pythagoras the distance that decides is that of the nearest point of the line through the ends |
| `ChordDistance.DistanceToPoint` | app/geo.py:51 | and the way to the end where the ends coincide |
| `Simplify.FindFarthest` | app/geo.py:48-54 | the first vertex at the greatest distance |
| `Simplify.Rdp` | app/geo.py:34-60 | the stack loop terminates with the recursive result |
| `Geohash.EncodeExactly` | app/geohash.py:6-47 | a place, of the world or beyond it, is hashed to `gh` exactly when the cell of `gh` holds it |
| `Geohash.EncodedWithinBounds` | app/geohash.py:6-47 | a place of the world lies between the bounds of its hash |
| `Geohash.EncodePrefix` | app/geohash.py:6-30 | a shorter hash is a prefix of a longer one |
| `Geohash.PrefixesNest` | app/geohash.py:33-47 | the cell of a hash lies inside the cells of its prefixes |
| `Geohash.CellSize` | app/geohash.py:33-47 | a cell is 180/2^floor(5n/2) degrees high and 360/2^ceil(5n/2) wide |
| `GeohashGrid.CharPicksCell` | app/geohash.py:33-47 | a character in an odd place picks one of eight columns and four rows of the cell before it, one in an even place one of four and eight, by alternate binary digits |
| `GeohashGrid.AlphabetIs` | app/geohash.py:2 | the alphabet is the digits and the small letters without a, i, l and o, ascending |
| `GeohashGrid.KnownHash` | app/geohash.py:6-30 | the usual example has its well-known hash |
| `Geohash.CenterEncodesBack` | app/geohash.py:50-52 | up to eleven characters the rounded centre is hashed to its own cell |
| `Geohash.CentersEncodeBack` | app/geohash.py:50-52 | all rounded centres of a length encode back exactly for lengths up to eleven |
| `Geohash.EncodeHash` | app/geohash.py:6-30 | the interval loop with its bit counter computes the hash |
| `Geohash.BoundsOf` | app/geohash.py:33-47 | the two loops over characters and bits compute the cell, or fail on a foreign character |
| `Dedupe.LongestIsCanonical` | app/network_dedupe.py:43-62 | the longest member, first by id among equals, is canonical |
| `Dedupe.StandsForCanonical` | app/network_dedupe.py:47-62 | every member points straight at a canonical member of its group seen before it, or is one itself |
| `Dedupe.BestCoverIs` | app/network_dedupe.py:56 | a covered shape is attributed to the first of the kept shapes that cover it best |
| `Dedupe.DroppedIsCovered` | app/network_dedupe.py:47-59 | a dropped shape is an exact twin of the one that stands for it, or at least `coverage` covered by the final kept set |
| `Dedupe.CanonicalIsNeeded` | app/network_dedupe.py:47-62 | a canonical shape is no twin of an earlier one and is less than `coverage` covered by those before it |
| `Dedupe.CanonicalsDiffer` | app/network_dedupe.py:47-62 | with encoder-written texts no two canonical shapes of a group draw the same line |
| `Dedupe.EachMemberOnce` | app/network_dedupe.py:50-62 | the `represents` lists together hold one label for each member and no more |
| `Dedupe.CoverageGrows` | app/geo.py:140-155 | more lines never cover less |
| `DedupeVerdicts.CoverageIs` | app/geo.py:140-155 | the coverage is the share of the points that are near at least one line |
| `DedupeVerdicts.CanonicalExactly` | app/network_dedupe.py:47-62 | a member is canonical exactly when no canonical one before it has its text and, unless it is the first, fewer of its points than the threshold asks for are near canonical ones before it; its entry says which part is |
| `DedupeVerdicts.LongestFirst` | app/network_dedupe.py:42-44 | a group is gone through from the longest shape down, then by id |
| `DedupeVerdicts.EveryRouteListed` | app/network_dedupe.py:50-62 | every member's route, or its own name, is on the list of a canonical member |
| `Dedupe.GroupsPartition` | app/network_dedupe.py:39-41 | the groups partition the shapes |
| `Dedupe.DedupeGroup` | app/network_dedupe.py:42-63 | the group loop with its index by encoding files exactly the specified entries |
| `Dedupe.DedupeShapes` | app/network_dedupe.py:38-64 | every group's entries are those of the group alone, one for each shape |
| `Predictions.Conserved` | app/normalize.py:411-437 | what departures take and what is left over is the pool, each arrival once |
| `Predictions.ArrivalsConserved` | app/normalize.py:411-437 | every arrival not older than two minutes is taken or left over as often as it was predicted, and no other ever is |
| `Predictions.TakenIsNearest` | app/normalize.py:413-433 | what a departure takes is of its route, within the window and nearest among those left, and its scheduled time stays |
| `Predictions.NothingLeftFits` | app/normalize.py:413-437 | no arrival is left over that a departure without a time could have used |
| `Predictions.ChosenIsFirstEqual` | app/normalize.py:429-430 | removing the first equal arrival removes the chosen one |
| `Predictions.BestArrival` | app/normalize.py:421-428 | the running best is the first nearest fitting arrival |
| `Predictions.ApplyStopPredictions` | app/normalize.py:393-446 | departures are filled in place and one row is appended for each arrival nobody took |
| `PredictionRows.TurnExactly` | app/normalize.py:413-433 | a row waiting for a time takes an arrival exactly when one of its route within the window is left: the nearest, which is used up; any other row stays as it is |
| `PredictionRows.ScopeIsDropped` | app/normalize.py:414-415 | routes are compared without what stands before the first colon |
| `PredictionRows.PoolIs` | app/normalize.py:411 | an arrival counts if it has a time at most two minutes past, soonest first |
| `PredictionRows.LeftoverIsShown` | app/normalize.py:435-446 | an arrival nobody took is on the merged board at its own time and claims neither trip nor schedule |
| `PredictionRows.ShownInOrder` | app/normalize.py:126-137 | the board is in order of the realtime time where a row has one and of the scheduled time elsewhere, each trip once |
| `Predictions.MergedIsSorted` | app/normalize.py:126-137 | merged rows are in order of their effective time, each trip at most once |
| `Predictions.MergedKeepsEarliest` | app/normalize.py:126-137 | every trip is represented by a row no later than each of its rows |
| `Predictions.MergedKeepsUntracked` | app/normalize.py:126-137 | rows without a trip are kept as often as they occur |
| `Predictions.MergeDepartures` | app/normalize.py:126-137 | the loop with its set of seen trips |
| `ParkingFee.FeeGrows` | app/parkride.py:39-70 | with rates and caps that are not negative a longer stay never costs less |
| `ParkingFee.FeeCapped` | app/parkride.py:64-69 | where every tier has a cap no stay costs more than the caps together, rounded |
| `ParkingFee.TotalBetween` | app/parkride.py:51-68 | from any moment to any later one uncapped tiers by time charge the price of each tier for the time spent in it |
| `ParkingFee.TotalIsMetered` | app/parkride.py:51-68 | over whole minutes that is what a meter adding up each minute's price charges |
| `ParkingFee.UnitPrices` | app/parkride.py:58-64 | one minute, hour, day or week at a rate per that unit costs the rate, and a missing unit is an hour |
| `ParkingFee.TiersOfOneRate` | app/parkride.py:51-68 | cutting a flat rate into adjoining tiers changes nothing |
| `ParkingStays.FeeExactly` | app/parkride.py:39-70 | there is a fee exactly when a parking rule has a row with a rate, and it is the rounded sum of what the rows of the first such rule charge for the hours inside their bounds, by unit and up to their caps |
| `ParkingStays.HourlyStay` | app/parkride.py:46-69 | at an hourly rate a stay costs the rate times the hours, and one that ends before it starts nothing |
| `ParkingFee.ComputeFee` | app/parkride.py:39-70 | the first parking rule with rates prices the stay, whatever the order of its tiers |
| `Itinerary.StretchKeepsTimeline` | app/ondemand.py:374-397 | one stretch keeps end minus start equal to the duration, legs in order and of their length, and adds the delta to the duration |
| `Itinerary.StretchAllKeepsTimeline` | app/ondemand.py:340-366 | so does stretching every car leg in turn |
| `Itinerary.DurationGrows` | app/ondemand.py:340-397 | the itinerary grows by the sum of the deltas |
| `TripTimes.StretchExactly` | app/ondemand.py:374-397 | a car leg that takes longer in traffic takes that long: with transit to come it and all before start earlier by the difference, otherwise it and all after end later |
| `TripTimes.EachLegTakes` | app/ondemand.py:340-397 | in the end every on-demand leg takes the longer of plan and traffic at the start it has by its turn, and every other leg what was planned |
| `Itinerary.TransitMoves` | app/ondemand.py:340-397 | a transit leg is moved, and then earlier, exactly when the plan has a car leg after it that is to be lengthened and feeds a later transit leg |
| `Itinerary.TransitStays` | app/ondemand.py:340-397 | with no car leg between transit legs none is moved |
| `Itinerary.BusLeavesEarly` | app/ondemand.py:374-397 | bus, car, bus: the first bus is moved five minutes ahead |
| `Itinerary.ItineraryObject.StretchCarLeg` | app/ondemand.py:374-397 | the in-place edits of legs and itinerary are the specified stretch |
| `Itinerary.ItineraryObject.StretchCarLegs` | app/ondemand.py:340-366 | the leg loop, each factor taken at the start the leg has by then |
| `ParkRide.FindParking` | app/parkride.py:81-102 | the first nearest zone that is in reach, allowed and not reported full, if there is one |
| `ParkRide.RewriteKeepsDuration` | app/parkride.py:144-175 | end minus start stays the duration, and the parked leg gets no taxi quotes |
| `ParkRide.RewriteKeepsOrder` | app/parkride.py:144-175 | the new legs are in order without overlap |
| `ParkRide.RewriteMovesTransit` | app/parkride.py:144-175 | transit after the car is untouched; transit before it moves exactly when the new walk is longer |
| `ParkRide.LongerWalkMovesBus` | app/parkride.py:144-175 | bus, car, walk, bus: a walk five minutes longer moves the first bus five minutes ahead |
| `ParkRide.RewriteKeepsWalkTime` | app/parkride.py:144-179 | the walking time stays the sum of the walking legs |
| `TripTimes.ParkExactly` | app/parkride.py:144-179 | the new walk takes the place of the planner's and ends when that did; if it is longer the car and all before start earlier by the difference, and all after stays |
| `TripTimes.ParksExactly` | app/parkride.py:81-175 | a trip is rewritten exactly when its first drive leads to transit, is short enough and ends near a zone where a car may stay, and then around the first nearest of these with the walk at 1.2 metres a second |
| `ParkRide.ParkedLegLength` | app/parkride.py:144-170 | the parked leg lasts as it states exactly when the new walk is not the shorter one |
| `ParkRide.ShorterWalkStretchesCar` | app/parkride.py:144-170 | a walk five minutes shorter leaves a car leg of fifteen minutes that states ten |
| `ParkRide.ParkThenStretch` | app/parkride.py:114-179 | both rewritings after one another keep order and duration |
| `ParkRide.ParkThenStretchMoves` | app/parkride.py:114-179 | under both a transit leg stays put exactly when it is not before a car leg whose new walk is longer nor before another car leg that is lengthened and feeds transit |
| `ParkRide.AttachParkRide` | app/parkride.py:126-175 | the in-place rewriting of an itinerary around the nearest admissible zone, walking at 1.2 metres a second, and whether it is kept |
| `ToolLoop.EachItsOwn` | app/assistant/engine.py:98-121 | with distinct ids every call gets its own result in call order, whatever order tools finish in |
| `ToolLoop.ConfluentExactly` | app/assistant/engine.py:98-121 | a round's results are the same for all completion orders exactly when calls run under one id return the same |
| `ToolLoop.SharedIdRaces` | app/assistant/engine.py:98-121 | two calls under one id whose tools differ both get the result of the last to finish |
| `ToolLoop.Confluent` | app/assistant/engine.py:64-143 | turns, tools used and usage of the whole reply do not depend on completion orders where calls run under one id return the same |
| `ToolLoop.DistinctAlwaysAgree` | app/assistant/engine.py:98-121 | and so they do where every call has an id of its own |
| `ToolLoop.TurnsPaired` | app/assistant/engine.py:94-121 | the conversation only grows, and every turn with calls is followed by one results turn with one result for each call |
| `ToolLoop.BudgetHolds` | app/assistant/engine.py:98-110 | tools run over all rounds never exceed the cap and are known ones |
| `ToolLoop.UsageIsSum` | app/assistant/engine.py:79-143 | reported usage is the sum over at most six streams, the extra one without tools included |
| `ToolLoop.Converse` | app/assistant/engine.py:64-143 | the loop over rounds, with its results dictionary and refusal exit |
| `ToolReplies.RoundExactly` | app/assistant/engine.py:78-126 | a round adds the model's turn as streamed for the turns so far; without calls that ends the reply, with calls it adds their answers, uses the tools that ran and ends only on a refusal |
| `ToolReplies.RunExactly` | app/assistant/engine.py:98-110 | a call is run exactly when its tool exists and fewer calls to existing tools come before it than the budget has left |
| `ToolReplies.UsedAre` | app/assistant/engine.py:98-110 | the tools a round uses are the first of those it names, as many as the budget has left |
| `ToolReplies.OneMoreEvent` | app/assistant/engine.py:79-92 | in a stream texts are strung together, the last list of calls counts, usage adds up and the last end decides over refusal |
| `ToolReplies.ReplyExactly` | app/assistant/engine.py:78-143 | all the model said is what the provider streams for the turns before, in at most five turns; a stream without tools is asked for exactly when tools were used, nothing was said and nothing refused |
| `ConfigMerge.Layering` | app/admin_config.py:631-641 | merging the patch into the override and that into the YAML equals merging it into their merge exactly for coherent values, override and patch being null-free |
| `ConfigMerge.Idempotent` | app/admin_config.py:631-641 | a patch applied twice is a patch applied once exactly when no object it adds holds a null |
| `ConfigMerge.IsMergePatch` | app/admin_config.py:631-641 | the merge is that of section 2 of RFC 7386 under exactly the same condition |
| `ConfigMerge.FreshNullStays` | app/admin_config.py:631-641 | a patch that adds an object with a null: applied twice it is another patch, and the RFC would drop the null |
| `ConfigMerge.ValueOverrideIsForgotten` | app/admin_config.py:631-641 | a section overridden by a value and patched to an object again: the two orders of merging differ |
| `ConfigMerge.NullRestores` | app/routers/admin.py:414-415 | a null for a section serves the YAML's again whatever the override was |
| `ConfigMerge.NestedNullRestores` | app/routers/admin.py:402-415 | a null anywhere in a patch does so exactly when the override holds objects down to its key, or the YAML does and has nothing there |
| `ConfigMerge.MergedValue` | app/admin_config.py:631-641 | where a patch is silent the base stays, a value replaces what was there and leaves nothing below it |
| `ConfigMerge.NullVanishes` | app/routers/admin.py:402-415 | a null for one fare, never overridden before, makes the fare vanish |
| `ConfigMerge.DeepMerge` | app/admin_config.py:631-641 | the loop over the patch computes the merge in whatever order keys come |
| `ConfigStore.RunConsistent` | app/admin_config.py:990-1028 | over every run of edits, resets and restarts what is served is the YAML under the stored override, which the newest history entry records |
| `ConfigStore.RestartServesSame` | app/admin_config.py:1019-1036 | a restart serves the same; the revision is lost exactly after a reset |
| `ConfigStore.ResetServesYaml` | app/routers/admin.py:425-431 | a reset serves the YAML as it is |
| `ConfigStore.NullSectionServesYaml` | app/routers/admin.py:414-415 | an accepted edit with a null for a section serves the YAML's section again |
| `ConfigStore.EditTakesEffect` | app/routers/admin.py:399-421 | an edit is taken exactly when what would be served validates; what it says is served, what it is silent about keeps its override, and the history gets its author and content |
| `ConfigStore.RowsFollow` | app/admin_config.py:1000-1012 | an edit stores its row under the revision and author of its entry, and a reset drops the row and is recorded as one |
| `ConfigStore.RevisionsUnique` | app/admin_config.py:1000-1012 | history revisions are unique exactly when nothing was stored after a reset |
| `ConfigStore.RevisionRepeats` | app/admin_config.py:1000-1012 | edit, reset, edit: one revision twice |
| `ConfigStore.CityRuntime.PutConfig` | app/routers/admin.py:399-421 | an edit that does not validate changes nothing; one that does is stored, logged and served |
| `ConfigStore.CityRuntime.DeleteConfig` | app/routers/admin.py:425-431 | a reset drops the row, logs itself and serves the YAML |
| `Accounts.RunKeeps` | app/routers/admin.py:289-356 | over every run addresses are unique, every session is of an enabled user with role and scope as at opening, and a subject binds one account and an account one subject per provider |
| `Accounts.OwnerStays` | app/routers/admin.py:289-356 | with an enabled owner there is one after every step but a shell command disabling the last |
| `Accounts.OwnerStaysOverRuns` | app/routers/admin.py:289-356 | from the first owner on no run loses the last one but by a shell command that disables it |
| `Accounts.ShellTakesLastOwner` | scripts/admin_user.py:104-107 | a seeded owner disabled from the shell leaves accounts without an owner |
| `Accounts.NoOwnerStays` | app/admin_auth.py:508-520 | accounts without an owner have one after a step exactly when it is a shell command that makes or enables an owner: the seed does nothing and only owners make accounts |
| `Accounts.ProvisionedFirst` | app/admin_auth.py:579-603 | a provisioned first sign-in leads there |
| `Accounts.SessionSpeaks` | app/routers/admin.py:80-89 | a session answers exactly until it runs out, for its user, with the role and scope it was opened with |
| `Accounts.BindingStays` | app/admin_auth.py:533-576 | no step but unlinking changes or drops a binding, and unlinking drops exactly the named one |
| `Accounts.BindingStaysOverRuns` | app/admin_auth.py:533-576 | so over runs without unlinking a subject keeps its account |
| `Accounts.MismatchRefused` | app/admin_auth.py:557-570 | both directions of mismatch are refused and change nothing |
| `AccountsSteps.LoginExactly` | app/admin_auth.py:489-505 | a password sign-in succeeds exactly for an enabled account with that address against whose digest the password verifies; it opens a session of that account under the token and changes nothing but a renewed digest, and a failed one changes nothing |
| `AccountsSteps.SignInExactly` | app/admin_auth.py:533-576 | a provider sign-in to an account succeeds exactly if it is enabled and the subject is its own or both are unbound; it binds the two and opens a session |
| `AccountsSteps.FirstSignInExactly` | app/admin_auth.py:554-556 | a provider sign-in with an address nobody has makes an account if the deployment provisions one |
| `AccountsSteps.OwnersOnly` | app/routers/admin.py:115-119 | managing accounts without an owner's live session is refused and changes nothing |
| `AccountsSteps.CreateExactly` | app/routers/admin.py:301-311 | an owner creates exactly the account described, unless the address is taken or a check fails |
| `AccountsSteps.UpdateExactly` | app/routers/admin.py:315-342 | an owner's update changes exactly the fields it names, ends sessions where it must and is refused for the last owner |
| `AccountsSteps.DisableExactly` | app/routers/admin.py:346-356 | an owner's disabling ends the account's sessions and nobody else's, and is refused exactly for the last owner and an id nobody has |
| `AccountsSteps.LogoutExactly` | app/routers/admin.py:173-177 | signing out drops exactly that session |
| `AccountsSteps.ExpiryExactly` | app/admin_auth.py:442-446 | the clean-up drops exactly the sessions that have run out |
| `AccountsSteps.SeedExactly` | app/admin_auth.py:508-520 | the seed makes an owner exactly where there is no account |
| `AccountsSteps.ShellExactly` | scripts/admin_user.py:95-117 | each command of the script does just its own to the one account |
| `AccountsSteps.SessionsAreSignedIn` | app/routers/admin.py:80-89 | over every run each session was opened under its token by an accepted sign-in |
| `AccountsStore.MemoryAdminUserStore.IsLastOwner` | app/routers/admin.py:289-292 | the listed enabled owners are the one id exactly when no other enabled owner exists |
| `AccountsStore.SignInWithIdentity` | app/admin_auth.py:533-576 | the provider sign-in over the store is the specified step |
| `AccountsStore.UpdateAccount` | app/routers/admin.py:315-342 | the checks and updates of the handler are the specified step, with its refusals |
| `AccountsStore.DisableAccount` | app/routers/admin.py:346-356 | likewise for disabling |
| `AccountsStore.CreateAccount` | app/routers/admin.py:301-311 | likewise for creating |
| `AccountsStore.SignInWithPassword` | app/admin_auth.py:480-505 | likewise for the password sign-in and the session it opens |
| `AccountsStore.RunShell` | scripts/admin_user.py:91-117 | likewise for the commands of the script |
| `PushLog.AlertedOnce` | app/push.py:315-318 | two attempts of one alert to one device are two hundred attempts apart, unless the device went in between |
| `PushLog.SixADay` | app/push.py:424-447 | at most six alerts are delivered to a device between two clearings of the counts, by a new day or a restart |
| `PushLog.SixForEachRestart` | app/push.py:424-447 | a day holds at most six deliveries to a device and six more for each restart in it |
| `PushLog.WokenExactly` | app/push.py:298-310 | a registered instant of a reachable device is attempted, once, exactly when a pass falls in the two minutes after it |
| `PushLog.RegularPassesWake` | app/push.py:402-415 | with passes at most two minutes apart every registered instant is attempted in exactly one of them |
| `Push.RunKeeps` | app/push.py:286-447 | over every run the store holds what the log of attempts says and every attempt was justified when made |
| `Push.AlertsOnceOverRuns` | app/push.py:418-447 | the alert guarantee over runs with restarts and repeated ids in one list |
| `Push.SixADayOverRuns` | app/push.py:424-447 | the cap between clearings over runs |
| `Push.DailyCapOverRuns` | app/main.py:253-259 | in every run a day holds at most six deliveries to a device for each life of the process, so six without a restart |
| `Push.WakesExactlyOnceOverRuns` | app/push.py:298-310 | the wake-up guarantee over runs |
| `Push.RegularPassesWakeOverRuns` | app/push.py:402-415 | in every run with passes at most two minutes apart a registered instant is attempted in exactly one of them |
| `Push.RestartReopensTheDay` | app/push.py:424-437 | after a restart a device that had its six is sent the next alert |
| `Push.SeventhInADay` | app/main.py:251-259 | six alerts, a restart and one more: a run that delivers seven on one day |
| `PushPasses.AlertExactly` | app/push.py:418-447 | a pass with one alert sends it, once each, to exactly the devices of the city with a transport that follow one of its routes, were not told before and are below six; each remembers it whatever the answer, and everyone else is left alone |
| `PushPasses.AlertsInTurn` | app/push.py:418-428 | a pass takes its alerts one after the other, and what was seen before it began decides which |
| `PushPasses.RegisteredIsTold` | app/push.py:290-313 | a device that registers for a route of an alert is told with the next pass, and one for other routes, another city or without transport is not |
| `PushPasses.NextDayIsTold` | app/push.py:434-437 | a device at its cap is told of the next alert once a day has begun and not before |
| `PushPasses.BetweenPasses` | app/push.py:290-296 | a new day clears the counts and a restart what was seen too; unregistering drops the one device |
| `PushPasses.WakeExactly` | app/push.py:402-415 | a wake pass wakes, once each, exactly the devices with an instant due in the last two minutes, uses up what is past and leaves everyone else alone |
| `Push.PushLoop.PushWakes` | app/push.py:402-415 | the wake pass over the store, with consumption and removal of dead tokens |
| `Push.PushLoop.PushAlerts` | app/push.py:418-447 | the alert pass: filter first, then each alert to its followers |
| `Util.RoundHalfEven` | app/ondemand.py:381 | rounding is to a nearest integer, the even one of a tie |

## Left out

- Web, database, event-stream and protobuf transport, the clients of other services, push senders and model
  providers; a send, a tool or a provider is an oracle of which nothing is assumed.
- Trigonometry, projection on a line and lengths: deterministic functions passed in; only that a length is not negative is used.
- Floating point: coordinates, fees and traffic factors are reals; the polyline works on the 1e-5 grid after rounding.
- Real time zones and holidays: an event's hour and day, the weekday and the holidays of a date are parameters.
- Password digests, tokens and provider identity verification: opaque values; `AccountsStore.SignInWithPassword` takes the verdict from a parameter.
- Interleaving inside one handler or pass: each is one atomic step, so a disable between the password check and the new session is not seen.
- The order of rows inside aggregate tables and of the ids a delta removes: tables are maps of counters, removals a set.
- The connection behind a subscriber's queue: a client reads when it is woken, and reading is one step.
- Alerts, trip updates, position parsing, feed back-off and the stream filter of the realtime component.
- The queries over raw analytics rows (origin-destination pairs and places with their anonymity threshold) and the request limiter.
- ServiceCalendar.AgreeExactly: for dates written in ASCII, stripped of blanks at both ends; digits of other scripts, which the date reader takes as well, are not modelled.
- ServiceCalendar.TextOrder: for texts of eight digits, as dates from the year 1000 on are written; `strftime` may leave out the leading zeros of earlier years.
- ParkingFee.TotalIsMetered: for stays and tier bounds of whole minutes; `ParkingFee.TotalBetween` is for any.
- Route names, colours, stop details and feed statistics of the timetable bundle; route windows and fare estimates of the service index.
- Price labels, localisation, geometry and publication formats of the curb component.
- The stream of tokens and cards of the assistant: `ToolLoop.Confluent` is about turns, tools used and usage; cards go out in completion order by design.
- ParkRide.AttachParkRide: whether a drive is short enough and its drop-off known, and the metres from a zone to the stop, are given.
- Distances and fares of rewritten itineraries.
- The list loop around `ParkRide.AttachParkRide`, which only collects the itineraries that are kept.
- Section-by-section validation of configuration: any predicate on the merged sections; masked credentials are put back before the merge.
- Devices of other cities keep their rows; the push loop of one city is modelled, with its own counts.
- AccountsStore.MemoryAdminUserStore.IsLastOwner: needs ids below the next id, which every reachable store has.
- ParkRide.RewriteKeepsOrder: for plans whose leg times can be read and whose replaced walk lasts as long as it says.
- Push.WakesExactlyOnceOverRuns: for a device that neither registers again nor goes; a new registration starts a new instant.
