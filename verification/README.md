# SmartGarden station firmware: a verified model

The station firmware waters a garden: it polls a clock, runs stored and ad-hoc
schedules over up to 64 zones, drives valves on its own output boards or on
remote stations over radio, keeps its settings and water counters in a byte
memory, and takes web requests. This project models that behaviour in Dafny and
proves what it is meant to guarantee, for every input and over whole runs.
`dafny verify dfyconfig.toml` checks everything.

## How it is laid out

| files | what they model |
|---|---|
| `words`, `site` | machine words of the 8-bit target, bits; stations, zones, schedules, routes of valve commands |
| `next_event`, `run_days`, `scheduler`, `scheduler_invariant` | the search for the next start; on which days a schedule runs; each operation of the run-state object as a function on its state; what all of them keep |
| `run_state`, `zone_messages` | the same operations as the firmware runs them: an object whose fields and cache array change in place, loops over zones and message bits, each proved equal to its function |
| `zone_protocol`, `output_type`, `runs`, `traces`, `backstop`, `network` | zone messages between master and remote; a change of the output type; runs of arbitrary inputs; what each leaves in the log; the time limit of every open valve; two stations over lossy links |
| `wiring` | which output or remote channel belongs to a zone, and that a schedule drives each of a station's outputs once, down to the pins of the serial board |
| `undisturbed`, `timetable`, `quiet_runs` | an undisturbed schedule on the wrapping clock refines a timetable on true time; what the timetable promises; the same with ticks, reports and status readings between the polls; that it ends |
| `auto_start`, `due_minute`, `pause`, `status_cache`, `quantities` | which schedule the clock starts, and how often; the rain pause; fading of unconfirmed commands; minutes and water |
| `moteino_rf`, `frames`, `syslog` | sequence numbers and retries; frame layout and checks; events cut into fragments |
| `memory`, `settings`, `stored_schedules`, `zone_table`, `water_ledger` | the byte memory and its map; records and the schedule list; its agreement with the scheduler's table; the generated zone table; the water counters |
| `serial_board` | the shift-register output board |
| `http_header`, `http_parser` | the request-header parser as a machine, and with its fixed buffers and chunked reads |

State that the firmware updates in place is a class or an array here
(`RunState`, `Radio`, `Store`, `EventLog`, `LocalBoardSerial`, `Parser`). Every
method of these says what the new state is; where that is a function of the old
state, the properties are proved of the function.

One call reads the clock once. The wall clock (minute of day, weekday, day
number), the calendar of the water counters and the weather scale are inputs.
True time is an unbounded number of milliseconds; the firmware sees it modulo
2^32. The event log of the scheduler holds every valve command that was carried
out and every log record; it exists only for the proofs.

## What does not hold

Several properties one would like are false of the code. Each is stated with the
exact condition under which it holds:

- Disabling the zone whose valve is open leaves it open when the schedule ends
  (`Runs.EditExactly`, `Runs.EditOfRunningZone`).
- A status report in the name of the unit's own station falsifies the cache
  (`Runs.ReportOfOwnStation`).
- A settings request that changes the output type can leave a valve of the
  parallel board open, which then no poll, button or frame closes before the
  settings change again, or, with schedules off, shut a valve the cache still shows
  (`Runs.NewOutputType`, `OutputType.OneNewType`, `Traces.DeafForGood`).
- A report on some channels tells the master that all others are off
  (`ZoneProtocol.ReportBringsInStep`).
- A request for 255 minutes only closes what was running
  (`ZoneProtocol.TtrWrapOnlyCloses`, `AutoStart.TtrWrapStartsDue`),
  channel number `channels` addresses another station
  (`ZoneProtocol.TargetIsOwn`), and switching off a whole station by one request
  is always refused (`ZoneProtocol.TurnOffAllRefused`).
- A pause with minutes left does not hold a schedule back when minute and pause
  together exceed a `short` and no other start time comes first
  (`AutoStart.PauseFailsOnOverflow`).
- A pause nobody looks at in its last minute is not lifted, and comes back for some
  four days (`Pause.LiftedExactly`, `Pause.MissedPauseReturns`).
- A schedule can be started twice in the minute it is due exactly if all its zones
  are scaled to 0 minutes and the delays between them fit the minute
  (`DueMinute.TwiceInItsMinute`); a due schedule without existing zones shadows the
  others (`AutoStart.DueStarts`).
- Brief answers and register requests are dropped by the receiver, and register
  reports rejected (`Frames.FrameRoundTrip`, `Frames.RegisterReportRejected`).
- A message is lost as a supposed duplicate exactly when its distance to the last
  one that arrived is a multiple of 255 (`MoteinoRF.HandedExactly`), also across a
  restart of the sender (`MoteinoRF.RestartedSender`).
- Zone records at or above the old zone count are not written when the table is
  generated (`ZoneTable.TableTiles`).
- Counters and sums are cut to their widths (`WaterLedger.RunConserves`,
  `Quantities.WaterIsProduct`, `Quantities.MinutesAreTrue`, `Frames.ReadingsExact`).

The header comment of the radio transport says the sequence number advances once
the packet is acknowledged (`Station/MoteinoRF.cpp:15`); the code advances it in
any case (`Station/MoteinoRF.cpp:126-127`), and so does the model.

## Model

| member | source | states |
|---|---|---|
| SchedulerInvariant.TurnOffKeeps | Station/core.cpp:207-279 | closing a zone keeps "at most one local valve open, in the cache, on the outputs and in the command history", touches no other cell, and a local zone is OFF after it |
| SchedulerInvariant.TurnOnKeeps | Station/core.cpp:125-205 | with everything shut, opening the current zone leaves exactly its valve open, or none if the command is refused |
| SchedulerInvariant.TurnOffAllIdles | Station/core.cpp:378-390 | after "all zones off" no schedule is active and every local zone is OFF and every output de-energised |
| SchedulerInvariant.StopIdles | Station/core.cpp:465-477 | stopping a schedule closes its valve, even one a board set-up already closed, leaves the unit idle, and its one record reports the sum of its zone records divided once by 100, which always fits its 16 bits |
| SchedulerInvariant.OpenKeeps | Station/core.cpp:522-576 | starting a schedule on an idle unit keeps all invariants |
| SchedulerInvariant.AfterDelayKeeps | Station/core.cpp:591-631 | the end of an inter-zone delay keeps all invariants; the remembered zone is always a real one |
| SchedulerInvariant.AfterZoneKeeps | Station/core.cpp:632-677 | the end of a zone keeps all invariants, the water counter staying equal to the sum of the zone records |
| SchedulerInvariant.PollKeeps | Station/core.cpp:580-698 | so does every poll, in every state; both "state corruption" branches are unreachable |
| SchedulerInvariant.SetPauseKeeps | Station/core.cpp:479-499 | so does setting or lifting a pause |
| SchedulerInvariant.ClearIdles | Station/core.cpp:339-345 | clearing before a manual start leaves the unit idle |
| SchedulerInvariant.StartZoneKeeps | Station/core.cpp:317-359 | so does a manual or remote start of any station, channel and time |
| SchedulerInvariant.TickKeeps | Station/core.cpp:47-91 | so does the once-a-second tick; cells stay well-formed |
| SchedulerInvariant.ReportKeeps | Station/core.cpp:412-430 | so does a status report of any station that is not wired to this unit |
| SchedulerInvariant.AtMostOneValve | Station/core.cpp:125-279 | from the invariant: at most one output energised, none while idle or in a delay, at most one local zone not OFF, and it is the current zone |
| Runs.StepKeeps | Station/core.cpp:286-698 | every input of the unit (poll, web requests, buttons, frames, pause, settings with output types, status page, tick) keeps the invariant, under the three demands stated in Admissible |
| Runs.StepTiled | Station/settings.cpp:664-813 | no input breaks the tiling of the zone table |
| Runs.RunKeeps | Station/core.cpp:286-698 | any admissible sequence of inputs keeps the invariant and the tiling |
| Runs.SafeFromBoot | Station/core.cpp:125-698 | after any run from power-up: never two local valves, in no moment of the history; an open valve belongs to the current zone of an active schedule; schedule and zone registers agree; every schedule record is honest |
| Runs.EditsTake | Station/web.cpp:822-900 | edits do what they say, whatever they start or stop besides: a saved schedule is in its place or appended, a deleted one is gone from the list, settings, zones and the switch are in force; no other input changes any of these |
| Runs.ButtonStarts | Station/core.cpp:317-359 | a start by the buttons leaves exactly the asked channel of a station in use running, for the minutes asked for; for a station not in use or a channel beyond it nothing happens |
| Runs.ReportShows | Station/core.cpp:412-430 | after a report that is taken every channel of its station shows RUNNING or OFF, bit by bit |
| Runs.AllOffIdles | Station/core.cpp:366-390 | the button for everything off leaves no schedule and no valve of this unit open |
| Runs.OffMeansIdle | Station/core.cpp:580-588 | with schedules off, every poll leaves the unit idle, whatever was asked for since |
| Runs.PlanStaysFixed | Station/settings.cpp:625-628 | no input changes a stored schedule while it runs without first ending it with its record |
| Runs.SavedElsewhere | Station/settings.cpp:622-628 | saving another schedule than the running one touches nothing but the table |
| Runs.EditExactly | Station/settings.cpp:664-747 | an edit of names, enable flags and flow rates keeps the invariant if and only if it leaves the zone enabled whose valve is open on this unit |
| Runs.EditOfRunningZone | Station/core.cpp:223-227 | after an edit of the zones, stopping the schedule closes the running valve if and only if the edit left its zone enabled |
| Runs.ReportOfOwnStation | Station/RProtocolMS.cpp:555-562 | a report naming a local station keeps the invariant if and only if every bit of it is true |
| Runs.NewOutputType | Station/settings.cpp:789-792 | a settings request, with any list of new output types, keeps the invariant if and only if every output its set-ups leave energised still obeys and, with schedules off, none was driven off |
| OutputType.OneNewType | Station/settings.cpp:1882-1891 | for one new type this means: with schedules on, the type is direct or no parallel valve is open; with schedules off, no open valve is closed by the set-up or made deaf by the type |
| OutputType.AllSetUp | Station/LocalBoard.cpp:110-125 | setting up the boards only ever drives outputs off, and changes neither cache nor schedule nor the history's interlock |
| OutputType.SetUpExactly | Station/LocalBoard.cpp:110-141 | exactly which outputs are energised and which boards ready after one new output type; the old type again changes nothing |
| OutputType.AllDriven | Station/LocalBoard.cpp:284-300 | every output gone after it was driven off by a logged set-up |
| OutputType.DeafStays | Station/LocalBoard.cpp:70-94 | an energised output that does not obey stays energised through the stop and the poll of the request |
| Wiring.LocalRoute | Station/core.cpp:159-178 | channel i of a local station is the board channel numbered station address plus i, in one byte, of the board its network number names |
| Wiring.SwitchesItsChannel | Station/core.cpp:125-279 | opening and closing the zone of channel i switches exactly that board channel, if zone and board let it |
| Wiring.SendsToItsChannel | Station/core.cpp:188-204 | a zone of a radio station has its commands sent to that station and channel, if both are in use, and shows as on after the opening one only; no output of this unit is touched |
| Wiring.NoWayNoEffect | Station/core.cpp:132-157 | nothing happens to a zone that does not exist or is switched off, whose station is disabled, or whose network is unknown |
| Wiring.SharedOutput | Station/core.cpp:159-190 | two zones share an output or a remote channel if and only if they belong to different stations of one local board whose channel numbers coincide |
| Wiring.NumbersApart | Station/core.cpp:161 | channels of one station never share a number |
| Wiring.RequestOpens | Station/RProtocolMS.cpp:214-283 | a request for channel ch of a local station opens the board channel at its address plus ch, if zone and board let it, and leaves every other output closed |
| Wiring.StationSchedule | Station/core.cpp:522-684 | a stored schedule over one local station, run to its end, energises and de-energises each board channel of the station once, in order from its address on |
| Wiring.DriveOn | Station/LocalBoard.cpp:151-195 | opening a zone of a serial station makes the board hold the serial outputs of the state, down to the pins |
| Wiring.DriveOff | Station/LocalBoard.cpp:197-234 | so does closing one |
| Traces.StepTraced | Station/core.cpp:125-698 | every input but new settings logs its commands with its own time, leaves the boards as they are, and switches off no output that does not obey |
| Traces.StepLogged | Station/core.cpp:125-698 | every input, new settings included, only adds entries of its own time to the log |
| Traces.DeafForGood | Station/LocalBoard.cpp:70-94 | an output gone deaf stays energised through any run until the settings change again |
| Traces.StopRecords | Station/core.cpp:465-477 | stopping an active schedule adds the closing of its zone, if carried out, and exactly one schedule record; stopping an idle unit adds nothing |
| Traces.AllOffReaches | Station/core.cpp:378-390 | "all zones off" sends every zone that is not OFF its closing command, zones of other stations included, after which it does not show as on |
| Traces.ClearReaches | Station/core.cpp:339-345 | after clearing before a start no zone that can be commanded shows as on |
| Words.ElapsedIsTrueInterval | Station/core.cpp:593-634 | unsigned subtraction of two clock readings is the true interval whenever that is below 2^32 ms, across a wrap or not |
| Undisturbed.ZonePoll | Station/core.cpp:632-640 | a poll of a running zone does nothing before its minutes are over on the true clock, and ends it at the first poll after |
| Undisturbed.ZoneEnd | Station/core.cpp:638-677 | the end of a zone appends its record and its closing command and leads to the delay before the next watered zone, or to the schedule's record |
| Undisturbed.GapEnd | Station/core.cpp:591-631 | the end of a delay opens exactly the remembered zone, with its minutes |
| Undisturbed.ZoneRefines | Station/core.cpp:580-698 | from the middle of a zone, for any polls, the log grows by exactly what the timetable on true time says, and the schedule is over exactly when the timetable is |
| Undisturbed.GapRefines | Station/core.cpp:580-698 | the same from the middle of a delay |
| Timetable.ZonePromise | Station/core.cpp:632-677 | the timetable from a zone on: zones open and close in order, for at least their minutes, 5000 ms apart; one record with the sum of the zone records |
| Timetable.GapPromise | Station/core.cpp:591-631 | the same from a delay on |
| Timetable.ZonePlanned | Station/core.cpp:622-629 | every opening in the timetable has the minutes the plan gives its zone at the poll that made it: the stored ones, scaled if the schedule is weather-adjusted; commands go along the route of their zone; every zone record has minutes times flow, in 16 bits, and the schedule's number |
| Timetable.GapPlanned | Station/core.cpp:622-629 | the same from a delay on |
| Timetable.ZoneRecorded | Station/core.cpp:440-463 | every closing comes right after its zone's record, whose duration is the time since the opening in minutes; the schedule's record has the time since its start |
| Timetable.GapRecorded | Station/core.cpp:440-463 | the same from a delay on |
| Timetable.ZonePrompt | Station/core.cpp:632-677 | the timetable closes each zone at the first poll that finds its minutes over |
| Timetable.GapPrompt | Station/core.cpp:591-631 | and opens the next watered zone at the first poll that finds the delay over |
| Timetable.OpenedPolls | Station/core.cpp:522-684 | polled alone, a schedule fulfils its plan: it opens exactly the watered zones, ascending, once each, with their planned minutes; keeps each open for at least these and closes it at the first poll after; leaves at least 5000 ms and opens the next at the first poll after; records each with the minutes it was open and its water; and is over exactly when its one record, the plain sum of its zone records over 100, is written |
| Timetable.ZoneEnds | Station/core.cpp:632-684 | from a zone, a schedule polled beyond its time budget is over, after at most two changes per remaining zone less one |
| Timetable.GapEnds | Station/core.cpp:591-631 | from a delay, after at most two changes per remaining zone |
| QuietRuns.PollAlike | Station/core.cpp:589-684 | a poll of an active schedule does not look at the status cache nor at the pause |
| QuietRuns.RunsLikePolls | Station/core.cpp:771-877 | with ticks, reports of any station and readings of the status page between the polls, a schedule runs as with the polls alone |
| QuietRuns.OpenedRun | Station/core.cpp:522-684 | a whole run with such inputs fulfils its plan |
| QuietRuns.StoredRun | Station/core.cpp:549-575 | this for a stored schedule started in any reachable state |
| QuietRuns.QuickRun | Station/core.cpp:527-548 | this for the quick schedule |
| QuietRuns.PostedRun | Station/web.cpp:451-490 | a quick run asked for by web waters each zone for the minutes posted, or those left from before; with none of them it only stops what ran |
| QuietRuns.PostedStored | Station/web.cpp:451-490 | a stored schedule asked for by web is run to its plan if it exists, is enabled and waters something; otherwise what ran is over |
| QuietRuns.ScheduleEnds | Station/core.cpp:589-684 | every started schedule becomes idle within the budget of its zones, in at most 2 * numZones changes of the current zone, whatever such inputs come |
| NextEvent.ScanIsCorrect | Station/core.cpp:734-764 | after any part of the search the best so far is the minimum over the slots seen |
| NextEvent.NextIsMinimum | Station/core.cpp:720-767 | the answer is the minimum start time not before the given minute over all schedules that run today and water something, the lowest schedule that attains it and its first zone; none exactly if there is no such slot |
| NextEvent.CandidateMeans | Station/core.cpp:737-758 | a start slot qualifies if and only if its schedule runs today, it is used and not past, and some zone has a duration |
| RunDays.ReadMarks | Station/settings.cpp:557-563 | the loop over the weekday boxes of a form leaves a mask with which an enabled schedule runs exactly on the weekdays last marked on, Sunday first |
| RunDays.LastMark | Station/settings.cpp:557-563 | one more box decides for its weekday and no other |
| RunDays.OncePerInterval | Station/core.cpp:704 | an enabled schedule by an interval of n days runs on exactly one of any n days in a row, the one whose number n divides |
| RunDays.DisabledNeverRuns | Station/core.cpp:703 | a disabled schedule runs on no day |
| NextEvent.Search | Station/core.cpp:734-764 | the nested loops compute that answer |
| AutoStart.SearchFindsDue | Station/core.cpp:690-696 | searched from the current minute or an earlier one, the answer is due now exactly if some schedule is and no earlier start time comes first, and is the lowest of those due |
| AutoStart.DueStarts | Station/core.cpp:685-697 | an idle, unpaused poll starts the lowest due schedule and nothing else; with no existing zone in it, nothing runs |
| AutoStart.ResumeStarts | Station/core.cpp:481-488 | lifting a pause looks at the clock at once: it starts the schedule that is due, and none if none is |
| AutoStart.DisabledEnds | Station/core.cpp:601-676 | a stored schedule found disabled is stopped when the time of its zone or delay is over |
| AutoStart.StartedSchedule | Station/core.cpp:540-576 | a stored schedule is started if and only if it exists, is enabled and has a duration for an existing zone; what ran before is over in any case |
| AutoStart.HoldsForItsMinute | Station/core.cpp:632-636 | a zone survives all polls of its first 60 seconds if and only if its minutes are not 0 |
| AutoStart.PauseFailsOnOverflow | Station/core.cpp:732-746 | with pause minutes left, an idle unit starts a schedule if and only if minute plus pause exceeds a `short`, no start time from the wrapped minute on is before now, and the lowest due schedule waters an existing zone |
| AutoStart.TtrWrapStartsDue | Station/core.cpp:286-294 | after a request for 255 minutes exactly the schedule runs that is due at that minute and waters an existing zone, if any |
| DueMinute.ZoneNotEarly | Station/core.cpp:632-677 | a schedule's record never comes before the minutes and delays still due have passed |
| DueMinute.GapNotEarly | Station/core.cpp:591-631 | the same from a delay on |
| DueMinute.ZoneEndsOnTime | Station/core.cpp:632-677 | polled on time, it comes exactly then |
| DueMinute.GapEndsOnTime | Station/core.cpp:591-631 | the same from a delay on |
| DueMinute.SecondStartFits | Station/core.cpp:685-697 | a second start within the due minute needs the nominal length of the schedule to fit in it |
| DueMinute.FittingStartsTwice | Station/core.cpp:685-697 | if it fits, some polls start the schedule twice |
| DueMinute.TwiceInItsMinute | Station/core.cpp:685-697 | some polls of the due minute start the schedule twice if and only if all its existing zones are scaled to 0 minutes and the delays between them fit what is left of the minute |
| Pause.PauseSets | Station/core.cpp:489-498 | a pause request sets a pause of that many minutes, which is what is left of it at every later moment; it stops what runs and changes nothing else as long as minute and pause fit a `short` |
| Pause.PauseCleared | Station/core.cpp:481-488 | a request for 0 minutes lifts the pause; without one it changes nothing |
| Pause.RestingStep | Station/core.cpp:580-698 | an input that asks for no start leaves an idle paused unit idle and paused, and opens nothing |
| Pause.PausedUnitRests | Station/core.cpp:479-499 | from the request to the last minute of a pause no schedule runs and nothing is opened, whatever comes that does not itself ask for a start |
| Pause.PauseHolds | Station/core.cpp:732-746 | while a pause has minutes left, an idle poll changes nothing at all (sum of minute and pause below 32768) |
| Pause.RemainingIsTrue | Station/core.h:77-86 | the remaining pause is the true one, to the minute, across a clock wrap |
| Pause.IdlePollClears | Station/core.h:81-84 | an idle poll with less than a minute left lifts the pause |
| Pause.PauseLifts | Station/core.cpp:479-499 | polled at least once a minute, a pause of up to 31328 minutes is lifted by some poll no later than its end, and nothing happens before |
| Pause.StepOfPause | Station/core.h:77-91 | one input before the end of a pause lifts it exactly if it looks at the pause in the last minute |
| Pause.LiftedExactly | Station/web.cpp:348-350 | over any quiet run up to its end, a pause is lifted if and only if an idle poll with schedules on or the status page looks at it in its last minute |
| Pause.MissedPauseReturns | Station/core.h:77-86 | a pause not lifted by its end has 45 to 6046 minutes left for the next 6000 minutes, and nothing starts |
| StatusCache.CellAfterTicks | Station/core.cpp:47-91 | a cell in transition keeps its state exactly as many seconds as its timer says and is then OFF; settled cells stay |
| StatusCache.Settles | Station/core.cpp:47-91 | after five seconds without a report every cell is RUNNING, if it was, or OFF |
| StatusCache.FourStates | Station/core.cpp:94-103 | a zone is always seen in one of four states, one that does not exist as OFF |
| StatusCache.SecondsPass | Station/core.cpp:771-877 | n seconds of the main loop are n ticks |
| StatusCache.CommandFades | Station/core.cpp:185-190 | an unconfirmed remote command shows as STARTING or STOPPING for five seconds, then as OFF |
| Quantities.AdjustRounds | Station/core.cpp:501-519 | adjusted minutes are rounded to the nearest, cut at 254, and 0 exactly below half a minute |
| Quantities.MinutesAreTrue | Station/core.cpp:444 | the minutes of a record are the true ones if and only if they are below 32768 |
| Quantities.WaterIsProduct | Station/core.cpp:450 | the water of a record is minutes times flow if and only if that fits 16 bits |
| RunStateObject.RunState.constructor | Station/core.cpp:432-438 | a fresh object is idle, unpaused, with every zone OFF |
| RunStateObject.RunState.TurnOnZone | Station/core.cpp:125-205 | the object after the call is the function TurnOn of the object before, and nothing else changes |
| RunStateObject.RunState.TurnOffZone | Station/core.cpp:207-279 | likewise TurnOff: a local cell goes OFF even if the board refuses |
| RunStateObject.RunState.ActiveZoneNum | Station/core.cpp:112-121 | the first zone that is not OFF, -1 exactly if all are OFF |
| RunStateObject.RunState.TurnOffZonesWorker | Station/core.cpp:378-390 | closes every zone that is not OFF, in order, then drops schedule and zone |
| RunStateObject.RunState.LogEvent | Station/core.cpp:440-455 | adds the zone's record and charges its water |
| RunStateObject.RunState.LogScheduleEvent | Station/core.cpp:457-463 | adds the schedule's record if one is active |
| RunStateObject.RunState.StopSchedule | Station/core.cpp:465-477 | is Stop on the object's value |
| RunStateObject.RunState.FirstWatered | Station/core.cpp:660-672 | the lowest zone from the given one on with a duration, -1 exactly if there is none |
| RunStateObject.RunState.OpenSchedule | Station/core.cpp:531-547 | opens the first watered zone, if any, with its minutes |
| RunStateObject.RunState.StartSchedule | Station/core.cpp:522-576 | is StartQuick or StartStored on the object's value |
| RunStateObject.RunState.GetRemainingPauseTime | Station/core.h:77-86 | the remaining minutes, clearing a pause that has none |
| RunStateObject.RunState.GetNextEvent | Station/core.cpp:720-767 | nothing when schedules are off, else the minimum of the search shifted by the pause |
| RunStateObject.RunState.EndDelay | Station/core.cpp:597-630 | is AfterDelay on the object's value |
| RunStateObject.RunState.EndZone | Station/core.cpp:638-676 | is AfterZone on the object's value |
| RunStateObject.RunState.ProcessScheduledEvents | Station/core.cpp:580-698 | is Poll on the object's value, so all results on Poll apply to it |
| RunStateObject.RunState.SetPauseMinutes | Station/core.cpp:479-499 | is SetPause on the object's value |
| RunStateObject.RunState.SetQuickOnly | Station/core.cpp:347-354 | the quick schedule waters exactly the asked zone |
| RunStateObject.RunState.StartZoneWorker | Station/core.cpp:317-359 | is StartZone on the object's value; true exactly if the request addresses a zone |
| RunStateObject.RunState.RemoteStartZone | Station/core.cpp:286-294 | the same with one minute more, in one byte |
| RunStateObject.RunState.SetOT | Station/settings.cpp:1882-1891 | a new output type sets up both boards and drives their outputs off as the types allow; cache and registers stay |
| RunStateObject.RunState.ZoneHandlerLoop | Station/core.cpp:47-91 | is Tick on the object's value |
| RunStateObject.RunState.ReportStationZonesStatus | Station/core.cpp:412-430 | is Report on the object's value: the station's block takes the bits, no other cell changes |
| ZoneMessages.MessageZonesSet | Station/RProtocolMS.cpp:214-281 | the handler does HandleSet to the station and sends exactly the answers of AnswerSet |
| ZoneMessages.StartChannels | Station/RProtocolMS.cpp:265-269 | starts the channels whose bit is set, in order |
| ZoneMessages.MessageZonesRead | Station/RProtocolMS.cpp:155-198 | answers a read without changing anything |
| ZoneMessages.SendZonesReport | Station/RProtocolMS.cpp:286-345 | the loop collects the status bits of the range asked for |
| ZoneMessages.MessageZonesReport | Station/RProtocolMS.cpp:538-563 | the handler does HandleReport to the master |
| ZoneProtocol.HandleSetKeeps | Station/RProtocolMS.cpp:214-281 | any switch request keeps the scheduler's invariant |
| ZoneProtocol.StatusBitsRead | Station/RProtocolMS.cpp:323-331 | a status bit is set exactly for channels of the range that show running or starting |
| ZoneProtocol.OneZoneStart | Station/core.cpp:317-359 | a carried-out start for 1 to 254 minutes leaves exactly the asked zone running, alone in a quick schedule, or nothing |
| ZoneProtocol.OneZoneManual | Station/core.cpp:317-359 | a manual start leaves exactly the asked zone running, for the minutes asked for, or, with schedules off, nothing |
| ZoneProtocol.RefusedExactly | Station/RProtocolMS.cpp:226-255 | a switch request is refused, with one error and nothing done, if and only if its station is not valid, enabled and under remote control, or the range of channels is empty or too long |
| ZoneProtocol.OneChannelRequest | Station/RProtocolMS.cpp:214-283 | the request for one channel: for every channel the station has, it is left running for ttr + 1 minutes (off for 0) and reported as it then is, by one report naming that channel; for any other nothing happens and an error comes back |
| ZoneProtocol.ReadAnswered | Station/RProtocolMS.cpp:155-205 | a read request is answered by one report on exactly the asked range, a bit for each channel that shows as on, if and only if the station may report and the range is not empty nor too long; otherwise by an error |
| ZoneProtocol.ReportsInRange | Station/RProtocolMS.cpp:286-325 | a report is sent if and only if the station exists and, when enabled, has all channels of the range |
| ZoneProtocol.ReportTouches | Station/RProtocolMS.cpp:538-562 | a report changes only cells of its station's block; none if the station may not report, is not in use, or the range exceeds the zones |
| ZoneProtocol.StartEachWithin | Station/RProtocolMS.cpp:265-269 | starting several channels leaves at most one running, and it is one of those asked for |
| ZoneProtocol.ReportBringsInStep | Station/core.cpp:412-430 | a report brings the master's cells of the whole station into step with the remote if and only if everything outside its range is OFF |
| ZoneProtocol.SetExchange | Station/RProtocolMS.cpp:214-345 | after a delivered switch request, for any range of channels, and its report, all the station's cells agree on both sides |
| ZoneProtocol.ForceSingleZoneSwitches | Station/RProtocolMS.cpp:798-819 | the request the master sends for one channel is such a request |
| ZoneProtocol.ReadExchange | Station/RProtocolMS.cpp:155-198 | after a delivered read of all channels the cells agree too |
| ZoneProtocol.TtrWrapOnlyCloses | Station/core.cpp:286-294 | a request for 255 minutes closes what was running and leaves the unit idle; only a poll follows |
| ZoneProtocol.TargetIsOwn | Station/core.cpp:328-337 | a start request addresses its own station's channel if and only if the station is in use and the channel number is below the channel count; it addresses some zone only for a station in use and a number up to the count |
| ZoneProtocol.TurnOffAllRefused | Station/RProtocolMS.cpp:834-853 | the request for all zones is taken exactly by a station of 255 channels, so never under the zone table's limit of 8 |
| Backstop.GuardedStep | Station/core.cpp:125-698 | any admissible input, starts of anything else included, closes an open valve of this unit in time or leaves it open and the log as it was |
| Backstop.GuardedRun | Station/core.cpp:125-698 | so any admissible run, polled at most one gap apart, closes it within its minutes and that gap |
| Backstop.UnclosedIsOn | Station/core.cpp:125-205 | an opening in an interlocked history that nothing has closed is the last one, and its output is on |
| Backstop.OpeningsInTime | Station/core.cpp:522-698 | in any admissible run from any sound state every opening of a local valve is closed within its minutes and one poll gap |
| Backstop.NeverTooLong | Station/core.cpp:522-698 | from power-up no valve of this unit ever stays open longer than the minutes it was opened for and one poll gap, for stored, quick, manual and remote starts |
| Backstop.RemoteZoneIsClosed | Station/core.cpp:286-294 | in particular a zone started remotely for 1 to 254 minutes is closed no later than ttr + 1 minutes and one poll gap after the start, whatever frames are lost and whatever else comes |
| Network.DeliveredIffArrives | Station/MoteinoRF.cpp:173-189 | on a link with fewer than 254 wholly lost messages in a row, a message is handed over exactly if a copy arrives |
| Network.StepNetKeeps | Station/RProtocolMS.cpp:155-345 | every step of a master, a remote and two lossy links keeps both sound and their records matching |
| Network.RunNetKeeps | Station/RProtocolMS.cpp:155-345 | so does every run |
| Network.OneAnswer | Station/RProtocolMS.cpp:272-280 | a telling request causes one answer, a report, which brings the master into step |
| Network.ExchangeOutcome | Station/RProtocolMS.cpp:155-345 | a request of which no copy gets through changes neither station; one that does is carried out once, and the master hears the answer if and only if a copy of it gets through |
| Network.OtherMessages | Station/MoteinoRF.cpp:102-141 | messages about other things leave both stations alone and count on their link |
| Network.InStepAfterAnyRun | Station/RProtocolMS.cpp:155-345 | after any run with any losses, one exchange of which request and answer get through makes the master's cells the remote's |
| MoteinoRF.TransmitOnce | libraries/RFM69/RFM69.cpp:253-271 | any pattern of retries and lost acknowledgements has the effect of one delivery, or none if no copy arrives |
| MoteinoRF.Numbers | Station/MoteinoRF.cpp:75-80 | after any run of a sender that has just started: its number is the message index modulo 255, the receiver's that of the last arrived message, or the one it had before |
| MoteinoRF.HandedNext | Station/MoteinoRF.cpp:181-188 | whether the next message is handed over, from the history |
| MoteinoRF.HandedExactly | Station/MoteinoRF.cpp:150-198 | over any lossy run, whatever the receiver saw before: a message is handed over if and only if a copy arrives and its number is not the last one seen, that is, its distance to the last arrived one is no multiple of 255; in send order; never twice |
| MoteinoRF.ExactlyOnce | Station/MoteinoRF.cpp:102-198 | with at most 253 wholly lost messages before it, an arriving message is handed over exactly once |
| MoteinoRF.RestartedSender | Station/MoteinoRF.cpp:75-80 | the exact fate of every message after a restart of the sender, until one arrives and from then on |
| MoteinoRF.Radio.constructor | Station/MoteinoRF.cpp:75-80 | fresh counters |
| MoteinoRF.Radio.Receive | Station/MoteinoRF.cpp:150-198 | what is handed over and which counter changes, for every packet |
| MoteinoRF.SendPacket | Station/MoteinoRF.cpp:102-141 | the retry loop is Send on the link: only this direction's two counters change |
| Frames.FrameRoundTrip | Station/RProtocolMS.cpp:1181-1303 | every frame a sender builds, but the register report, fits the 61-byte payload with its number and passes the first checks; it is read back field by field if there is a handler for it; brief answers and register requests are dropped |
| Frames.EventRoundTrip | Station/RProtocolMS.cpp:416-447 | an event of up to 40 characters is read back |
| Frames.MasterRoundTrip | Station/RProtocolMS.cpp:927-945 | registrations with the event master are read back |
| Frames.ZoneMessagesArrive | Station/RProtocolMS.cpp:798-819 | the three zone messages of the protocol survive the frame layer; a report only from a station that may report |
| Frames.WireImages | Station/RProtocolMS.cpp:798-819 | the three zone messages byte by byte |
| Frames.TakenExactly | Station/RProtocolMS.cpp:1181-1303 | exactly which bytes the receiver takes for a message: whole frames of the protocol whose payload has the length its code demands, reports from remote stations only |
| Frames.StrangerRejected | Station/RProtocolMS.cpp:550-585 | zone and sensor reports of stations that may not report are rejected |
| Frames.ReadingsRoundTrip | Station/RProtocolMS.cpp:350-380 | sensor readings are read back modulo 16 bits |
| Frames.ReadingsExact | Station/RProtocolMS.cpp:366-376 | readings arrive unchanged if and only if they are 16-bit signed numbers |
| Frames.RegisterReportRejected | Station/RProtocolMS.cpp:385-411 | every report of system registers fails the receiver's length check |
| SysLog.PiecesJoin | Station/sdlog.cpp:40-58 | the pieces of a message join to it; all but the last have 39 bytes, the last 1 to 39 |
| SysLog.EventsRecovered | Station/sdlog.cpp:40-58 | the fragments of any events, one after the other, are put together again by their CONTINUE flags: none is cut, no two are mixed up |
| SysLog.PiecesAppend | Station/sdlog.cpp:44-58 | one more character lengthens the last piece or begins a new one |
| SysLog.EventLog.PutChar | Station/sdlog.cpp:40-58 | buffer, counter and reports after one character |
| SysLog.EventLog.Event | Station/sdlog.cpp:119-145 | an event reports exactly its pieces, in order, CONTINUE on all but the first |
| Memory.SlotsApart | Station/eepromMap.h:14-79 | no two different records or settings share a byte |
| Memory.WriteReads | Station/settings.cpp:36-200 | what is written to a slot is read back, and every other slot keeps its bytes |
| Memory.WordsRoundTrip | Station/settings.cpp:395-470 | 16- and 32-bit values survive being stored as bytes |
| Memory.ZoneRoundTrip | Station/settings.cpp:36-50 | a packed zone record unpacks to itself |
| Memory.StationRoundTrip | Station/settings.cpp:108-130 | so does a station |
| Memory.SensorRoundTrip | Station/settings.cpp:141-164 | so does a sensor |
| Memory.ScheduleRoundTrip | Station/settings.cpp:184-200 | so does a schedule, negative start times included |
| Settings.ZoneSaved | Station/settings.cpp:36-50 | a saved zone is loaded back if and only if its number is below the zone count on record; nothing else changes |
| Settings.StationSaved | Station/settings.cpp:124-130 | a saved station is loaded back, nothing else changes |
| Settings.SensorSaved | Station/settings.cpp:158-164 | the same for a sensor |
| Settings.ScheduleSaved | Station/settings.cpp:194-200 | the same for a schedule |
| Settings.Store.SaveBlock | Station/settings.cpp:198-199 | the byte loop writes exactly the slot |
| Settings.Store.LoadBlock | Station/settings.cpp:188-191 | the byte loop reads exactly the slot |
| Settings.Store.SaveZone | Station/settings.cpp:44-50 | the memory after a save, or unchanged if refused |
| Settings.Store.LoadZone | Station/settings.cpp:36-42 | the record, or nothing for numbers at or above the zone count |
| Settings.Store.SaveStation | Station/settings.cpp:124-130 | likewise |
| Settings.Store.SaveSensor | Station/settings.cpp:158-164 | likewise |
| Settings.Store.SaveSchedule | Station/settings.cpp:194-200 | likewise |
| Settings.Store.DeleteSchedule | Station/settings.cpp:633-662 | deleting entry k turns the stored list s into s[..k] + s[k+1..]; refused exactly for other numbers; nothing else changes |
| Settings.Store.StoreSchedule | Station/settings.cpp:602-624 | number -1 appends, any other replaces; refused exactly when full or out of range; nothing else changes |
| ZoneTable.StartGrows | Station/settings.cpp:1305-1333 | the blocks of the stations follow each other without overlap |
| ZoneTable.OwnerIsInverse | Station/settings.cpp:1305-1333 | zone numbers and (station, channel) pairs are in one-to-one correspondence |
| ZoneTable.GenerateZones | Station/settings.cpp:1303-1336 | the loops write every zone's owner and every station's first zone, up to the save guard, and nothing else |
| ZoneTable.TableTiles | Station/settings.cpp:1303-1336 | the resulting table is the tiling the scheduler relies on if and only if no record was left stale, in particular if the zone count does not grow |
| ZoneTable.FlagsSeen | Station/settings.h:156-159 | the flag byte of a station is read as it is written: valid 1, enabled 2, may report 4, may be controlled 8 |
| ZoneTable.SavedZoneSeen | Station/settings.cpp:36-50 | a saved zone, flow rate included, is what the scheduler then sees under its number, and nothing else changes for it |
| ZoneTable.SavedStationSeen | Station/settings.cpp:108-130 | likewise a saved station |
| StoredSchedules.KindSeen | Station/settings.h:48-53 | so is the type byte of a schedule: enabled 1, by interval 2, weather-adjusted 4 |
| StoredSchedules.WebDelete | Station/settings.cpp:633-662 | deleting a schedule keeps memory and the scheduler's table in agreement, for every number |
| StoredSchedules.WebStore | Station/settings.cpp:600-631 | so does storing one, number -1 appending |
| WaterLedger.StepConserves | Station/settings.cpp:427-448 | one use of the counters conserves water up to what the rollover drops if and only if no counter overflows; less than a gallon is dropped |
| WaterLedger.RunConserves | Station/settings.cpp:413-493 | over any history: 100 * total + daily counters + dropped remainders is all water ever logged if and only if no counter ever overflowed, otherwise less |
| WaterLedger.CheckTwice | Station/settings.cpp:427-440 | the second look of a day rolls nothing over |
| WaterLedger.DayAddsUp | Station/settings.cpp:427-448 | after any uses on one day its counter holds all water logged that day, modulo 16 bits, no other counter has changed, and the total has grown once, by the whole gallons of the same weekday of an earlier week |
| WaterLedger.CheckCounter | Station/settings.cpp:427-440 | the rollover in the store is Check on the ledger and touches only the counters |
| WaterLedger.GetCounter | Station/settings.cpp:442-448 | reading a counter, after the rollover |
| WaterLedger.LogWater | Station/sdlog.cpp:330-334 | a zone record charges today's counter |
| SerialBoard.ShiftStep | Station/LocalBoard.cpp:171-186 | one clocked bit more keeps the chain holding the bits sent so far |
| SerialBoard.AllShifted | Station/LocalBoard.cpp:171-194 | after all bits, channel 8k+j is on pin 8(n-1-k)+j |
| SerialBoard.SamePins | Station/LocalBoard.cpp:251-281 | the recorded state determines the pins |
| SerialBoard.LastCallWins | Station/LocalBoard.cpp:151-248 | the fold of any sequence of calls contains exactly the existing channels that were turned on and not off since |
| SerialBoard.LocalBoardSerial.ShiftRegister | Station/LocalBoard.cpp:173-186 | the inner loop clocks out one register |
| SerialBoard.LocalBoardSerial.ShiftOut | Station/LocalBoard.cpp:171-194 | the loops clock out and latch all registers: the pins show the recorded state |
| SerialBoard.LocalBoardSerial.ChannelOn | Station/LocalBoard.cpp:151-195 | the channels on are the former ones and this one; refused exactly when not ready or out of range |
| SerialBoard.LocalBoardSerial.ChannelOff | Station/LocalBoard.cpp:197-234 | the channels on are the former ones without this one |
| SerialBoard.LocalBoardSerial.AllChannelsOff | Station/LocalBoard.cpp:236-248 | no channel is on |
| SerialBoard.LocalBoardSerial.Loop | Station/LocalBoard.cpp:251-281 | the refresh changes no pin |
| SerialBoard.LocalBoardSerial.Begin | Station/LocalBoard.cpp:135-141 | with channels configured the board is ready and all are off |
| SerialBoard.RunCalls | Station/LocalBoard.cpp:151-281 | any sequence of calls to the board leaves exactly the channels last turned on energised, each on its pin of the fixed map |
| HttpHeader.Hex2Int | Station/web.cpp:565-583 | a value below 16, 0 only for the digit 0 and for non-digits |
| HttpHeader.RunConcat | Station/web.cpp:601-778 | the outcome over a stream is that of its parts in turn |
| HttpHeader.RunFields | Station/web.cpp:661-717 | up to 60 encoded pairs are read back; one more ends the parse with the first 59 |
| HttpHeader.RunHeader | Station/web.cpp:761-770 | whatever header follows, the first blank line completes the parse |
| HttpHeader.RunLines | Station/web.cpp:761-770 | as long as no header line is blank the request is not complete |
| HttpHeader.RequestRoundTrip | Station/web.cpp:585-780 | every form-encoded GET request within the limits, in any spelling of its escapes, is read back as what it means |
| HttpHeader.EncodeRoundTrip | Station/web.cpp:726-756 | encoding any bytes and decoding them gives them back, with control characters, quotes and backslashes as spaces |
| HttpHeader.PairsRoundTrip | Station/web.cpp:585-780 | any pairs within the limits, encoded into a request, are delivered, sanitized: all of up to 60, else the first 59 |
| HttpHeader.EscapeMeans | Station/web.cpp:565-583 | an escape, its digits in either case, means its byte; exactly 0 to 31, 34, 92 and 127 become a space |
| HttpHeader.NoDigit | Station/web.cpp:565-583 | exactly 0-9, A-F and a-f are digits; all else counts as 0 |
| HttpHeader.LongRequestFails | Station/web.cpp:651-725 | a request fails if its page does not fit, or one of its first 60 pairs has a key of ten characters or a value of twenty |
| HttpHeader.BadEscapeDropped | Station/web.cpp:728-747 | an escape with a character that is no digit is swallowed with it |
| HttpHeader.BareKey | Station/web.cpp:661-686 | a key without a value is dropped at the end of the pairs and fails the request before another pair |
| HttpHeader.UnprintableByte | Station/web.cpp:641-760 | a control or non-ASCII byte fails a value; in a page or a key a line feed ends the line and any other is ignored |
| HttpHeader.BareRequest | Station/web.cpp:641-770 | a request line of "GET /" and a page alone, followed by an empty line, is read as that page without pairs |
| HttpHeader.GetInJunk | Station/web.cpp:622-633 | "GET /" is found in any stream that contains its bytes in order, other bytes between them being skipped |
| HttpParser.Parser.constructor | Station/web.cpp:591-600 | empty buffers, before the first byte |
| HttpParser.Parser.ValueByte | Station/web.cpp:687-760 | one byte inside a value, on the buffers, does what the machine does |
| HttpParser.Parser.NameByte | Station/web.cpp:635-686 | likewise inside the page name or a key |
| HttpParser.Parser.Byte | Station/web.cpp:622-773 | likewise in every state; no index leaves its row |
| HttpParser.Parser.ParseHeader | Station/web.cpp:601-779 | the result depends on the bytes alone, not on how reads cut them; on success the buffers hold the page and the pairs as C strings |

## Left out

- Runs.SafeFromBoot: assumes that an edit does not disable the zone whose valve is open on this unit, that no report names a station wired to this unit, and that a new output type strands no open valve; all three demands are the code's, and `Runs.EditExactly`, `Runs.ReportOfOwnStation` and `Runs.NewOutputType` show exactly why.
- Undisturbed.ZoneRefines: polls must be less than about 49 days apart (one clock turn less 255 minutes).
- DueMinute.TwiceInItsMinute: the weather scale stays the same within the minute; the code fetches it at most every 480 minutes.
- Backstop.RemoteZoneIsClosed: for requests of 1 to 254 minutes; 255 wraps to 0, see `ZoneProtocol.TtrWrapOnlyCloses`.
- ZoneProtocol.SetExchange: not for 255 minutes, nor for a request that names no channel, which changes nothing; `ZoneProtocol.ReportBringsInStep` says exactly when the report then helps.
- Pause.PausedUnitRests: while minute and remaining pause fit a `short`; `AutoStart.PauseFailsOnOverflow` says exactly what a longer pause lets through.
- Pause.PauseLifts: for pauses of at most 31328 minutes, so that minute plus pause fits a `short`; `Pause.LiftedExactly` says when any pause is lifted, `AutoStart.PauseFailsOnOverflow` when a longer one fails.
- RunStateObject.RunState.StartZoneWorker: for station numbers below 16; for others the code goes on with an unset record.
- RunStateObject.RunState.RemoteStartZone: likewise.
- ZoneMessages.MessageZonesReport: like ReportStationZonesStatus below, for a station whose block lies inside the cache.
- MoteinoRF.SendPacket: for destinations below 16; for others the code sends number 255 and increments a counter outside its array.
- MoteinoRF.HandedExactly: copies of one message arrive before copies of the next, and an acknowledgement always belongs to the message just sent; the number of retries is any number.
- ZoneTable.GenerateZones: a station's first zone is saved before the loop over its channels instead of in its first turn; the generated zone names are a parameter; at most 64 zones in all.
- Frames.FrameRoundTrip: the handlers of master, remote and time client are taken together; an event frame whose text is longer than the frame is rejected by the model, while the code would read on in its receive buffer; the unset byte after an event's text is modelled as 0.
- HttpParser.Parser.ParseHeader: the reads of the connection are a finite list after which the peer is gone.
- RunStateObject.RunState.ReportStationZonesStatus: requires the station's block to lie inside the cache, which the zone table provides; the code does not check it.
- A schedule day interval of 0 is excluded from the schedule type: the code would divide by it.
- Station number 16 in a zone record passes the code's check and reads an unset station; the model gives such a zone no route, and no generated table contains it.
- Stopping everything writes no schedule record, and the water of an interrupted zone is never logged; the model follows the code in both.
- Zones are numbered from 0 throughout, where some functions of the source count from 1.
- Start time stamps and adjustment percentages of log records, and the schedule number in zone messages, which has no effect.
- Notification of the event master after local starts and stops, and a single-channel status update that nothing calls.
- The quick schedule is its durations only; its type byte is always 0.
- The factory reset of the settings while the unit runs.
- Frames are modelled as values; the radio's registers, timing, carrier sense and interrupts, and the XBee transport, are not.
- The parallel output board is an abstract set of energised channels with the code's own checks; only the serial board is modelled to the pin. The channel whose number equals the parallel board's channel count passes the check but is not set up; what its pin does when the polarity changes is not modelled.
- Parsing of key-value pairs into schedules (but for the weekday boxes) and settings, web pages, files on the SD card, LCD and buttons, sensors, weather requests, time synchronisation, file transfer, watchdog.
