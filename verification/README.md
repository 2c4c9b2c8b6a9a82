# Verification of the flight computer's decision code

The firmware of this rocket flight computer runs on the two cores of an RP2040.
Most of the code that decides anything is free of hardware calls. This project
models that code in Dafny and proves what it is relied on for. `dafny verify
dfyconfig.toml` checks the whole project.

Most modules follow one source file, or one half of one. `FilterState`,
`FireRounds`, `FlashProgress`, `HttpRequest`, `HttpAnswer` and `HeaderRead` say of
such a module what it does over whole runs, or to whoever is at the other end, in
terms of their own. Code that updates
state in place is a class, or a method over an array, proved against a function
of the old state; the promises are then proved about that function, over whole
runs. Times are unbounded integers in the properties and wrapping 32-bit words
in the code, so each comparison of two times is proved to mean what it says, or
exactly when it does.

- **Flash under two cores** (`FlashOp`, `FlashPark`, `FlashFlight`,
  `FlashProgress`, `FlashPiece`, `FlashSlot`, `FlashTiming`, `FlashChip`). The
  lockout and the flight's slot pieces are a machine of atomic steps: each section
  under the lock, each load or store of a shared word, each command to the chip.
  The two cores' steps and the chip's interleave freely with the clock. When
  something fetches from a flash out of XIP, and when something is started over a
  suspended operation, is proved exactly, with a run for each way it happens; and
  which boards it cannot happen on, from the part's figures. What is begun ends.
  The loop that cuts an operation into pieces is proved against any hardware, and
  a piece against any chip behind its polls: what either returns says exactly what
  the chip has done.
- **Altitude filter** (`Covariances`, `AltitudeFilter`, `FilterState`, `BadRun`).
  The six hand-expanded variances are proved, through their quadratic form, to be
  F P F' + Q and the optimal correction; so the covariance stays positive
  semidefinite through every run. The state is followed against the readings and
  against a true flight.
- **Pyro pulses** (`FireControl`, `FireRounds`). When each pulse is commanded, and
  which, exactly, in true times and heights; spacing, order and the charge guard
  over whole runs, with "time never goes back" as a stated hypothesis.
- **HTTP** (`NetRing`, `HttpHead`, `HttpConn`, `HttpRequest`, `HttpResponse`,
  `HttpAnswer`). A request's outcome depends on its bytes alone, however they are
  cut up, and every well-formed request is read back from them; a response is the
  header and body it was given, through any calls, and reads as its status, one
  length and that much body; and a link counts as served only when all of it is
  acknowledged.
- **Flight log** (`Decimals`, `Rows`, `FlightRecords`, `FlightHeader`,
  `HeaderRead`, `FlightLog`). The text is one fixed text for every way of reading
  it, reads back to what was written, and survives a cut at any byte.
- **Sensor path** (`PressureCollector`, `PressureProcessing`, `GroundReference`,
  `GroundRing`). Records are traced to a log of the bus; estimators are known by
  the calls made on them; the ring of sums is proved to hold the window of the
  whole history.
- **Queues and text** (`NetTxq`, `IniTokenizer`, `Config`, `ConfigNames`). The
  packed queue is a queue of frames; configuration text parses back to the
  configuration it was written from, over the table of fields.
- **Ground test** (`GroundTestSeq`). What is true of every fire asked for, and the
  route the procedure is on, over every history of the switch.

`Words`, `Wrappers`, `CStrings` and `Core1Frame` hold what the modules share.

## Where the code and its promise differ

Each of these is proved, with the exact condition under which the code does what
is said of it.

- PARK_MAX_US is said to be longer than any single operation. A body that finds
  one held suspended runs two, the held one's rest first. On the listed part with
  800 ms an erase that can be 1.6 s: core0 lets itself go at 1.5 s and fetches
  from a busy flash (`OutlivesPark`). The flash is safe if and only if the two
  and the code's time are shorter than the park (`SafeExactly`), which holds of
  the 400 ms parts, and of that one while `held_suspended` is false
  (`ListedParts`).
- `flash_op_flight_end()` gives up after PIECE_HARD_MAX_US while pieces may
  still begin. Polled no further apart than the writer's slots are, it never ends
  a flight over a piece that stays in its slot; one microsecond more and it can
  (`TimelyRunIsSafe`, `SparsePollsLandOnPiece`).
- A piece that returns PIECE_ESUSPEND or PIECE_ENDLESS leaves a busy chip behind
  and interrupts on, so both cores may fetch from a flash out of XIP until the
  chip is done (`PendingSuspendIsFetched`, `EndlessIsFetched`). On a part that
  keeps to its figures no piece does (`PiecesKeepToSlots`). That, a park outlived
  and a flight ended over a piece are the only ways, and each is one
  (`XipSafety`, `AbandonedExactly`, `OverranExactly`).
- `run_direct()` clears `held_suspended` whatever `flash_chip_finish_suspended()`
  found, which is nothing while the suspend has not landed: the held operation is
  then forgotten and the next is started over it (`MissedSuspendStartsOnHeld`).
  What the chip holds is known if and only if that never happens
  (`KnownExactly`).
- A piece of a new operation starts on a chip that still holds one the writer
  gave up, and is ignored by it (`FreshStartOnHeld`, `FreshOnHeldIsIgnored`).
- A run of far readings that begins on the timer's last tick is not timed from
  its first reading, since one past that time is the word for no run
  (`FirstReadingAnchors`); the ground reference's time of rejection is the same
  (`FirstRejectionCounts`).
- The gap between two channels, a channel's re-fire interval and the charge guard
  are judged by unsigned differences: when time goes back the first two are
  passed at once and the guard is gone (`GapTestMeans`, `IntervalTestMeans`,
  `GuardTestMeans`). The callers pass the loop's time at
  src/flight_descent.c:106 and the sample's at src/flight_descent.c:111, so a
  sample behind a pulse fires the channel again (`SampleBehindPulseFiresAgain`).
- A pulse noted during a stuck run, from its first reading on and before its
  eighth, is taken back with the readings, and the estimators know nothing of it
  (`EarlyPulseIsForgotten`).
- The ground test arms on how long the switch has been closed, not on how long
  the mode has been announced: the announcement is long enough if and only if
  the closure is no older than the alert, which after a fire it can be
  (`AnnouncedLongEnough`, `ArmsJustAnnounced`).
- The six Content-Lengths from 4,294,967,290 that 32 bits still hold are refused
  as too large (`ParseLength`).
- A unit that is none of the three is shown as cm by the log and as m by the
  configuration (`UnitsAgree`).
- The run of identical readings is counted in sixteen bits, so 65,536 of them
  are again believed (`CountWraps`).

## Model

| member | source | states |
|---|---|---|
| FlashOp.XipSafety | src/flash_op.c:71-89 | In every state of every interleaving of the two cores and the chip, with no assumption on time: a core that may be fetching (core0 in flight runs from RAM) finds the chip busy, or a body or a piece at work on it, if and only if a body has outlived the other core's park, the flight was ended over the piece that runs, or a piece gave up a chip busy yet; and a body and a piece never drive the chip together unless a body outlived its park |
| FlashOp.AbandonedExactly | src/flash_op.c:378-391 | The third exception is exactly that a piece returned PIECE_ENDLESS or PIECE_ESUSPEND and the chip has been busy ever since |
| FlashOp.OverranExactly | src/flash_op.c:399-410 | The second is exactly that flash_op_flight_end() gave up waiting with a piece in progress, and one has been in progress ever since; it says nothing of later flights |
| FlashOp.StepKeepsInv | src/flash_op.c:74-89 | Every step of either core, of its park helper, of the flight task, of a slot piece and of the chip keeps the invariants of the lock words, of the pieces and of the chip |
| FlashOp.RunKeepsInv | src/flash_op.c:74-184 | So they hold in every state reached from the start by any interleaving |
| FlashOp.WithdrawnClaimParksNobody | src/flash_op.c:163-175 | A helper that looks after its caller has gone, the claim withdrawn or served, parks nobody; one still spinning then finds its word changed |
| FlashOp.BodyFollowsPark | src/flash_op.c:176-180 | A lockout's body is entered only with the other core parked for it, or that park already expired |
| FlashOp.SuspendedIsKnown | src/flash_op.c:52-55 | With bodies punctual, until run_direct() has looked at the suspended bit of a chip whose suspend has not landed, an operation the chip holds between pieces is known to be held: held_suspended is true |
| FlashOp.KnownExactly | src/flash_chip.c:89-91 | And at once not when it has: so what the chip holds is known throughout a run if and only if no run_direct() looks too early |
| FlashOp.NothingStartsOnHeld | src/flash_op.c:118-132 | run_direct(), if none has looked too early, never starts an operation on a chip that holds another suspended or suspending: the suspended one is finished first |
| FlashOp.MissedSuspendStartsOnHeld | src/flash_op.c:121-126 | Otherwise it can: a run whose run_direct() clears the flag and finishes nothing, and starts its operation on the held chip |
| FlashOp.FreshOnHeldIsIgnored | src/flash_op.c:52-55 | A piece starts fresh on a chip that holds an operation only after the writer has given one up; the held one is then known, and the chip ignores the new one |
| FlashOp.FreshStartOnHeld | src/flash_slot.c:42-58 | And it does: a run in which an operation suspended by one piece is given up 20 s later, the length of two thousand passes, and the next piece starts fresh on the held chip |
| FlashOp.NoPieceAfterLanding | src/flash_op.c:45-48 | While not in flight, unless the landing's own piece is still in progress, no piece is running and none can start until the next flight begins |
| FlashOp.SparsePollsLandOnPiece | src/flash_op.c:399-410 | The bound on the polls is tight: with polls one microsecond further apart than slots are, every piece inside its slot and everything else in time, flash_op_flight_end() takes the third slot's piece for the first's, ends the flight, and core0 may fetch from a flash out of XIP |
| FlashOp.PendingSuspendIsFetched | src/flash_op.c:386-389 | A suspend that has not landed in SUSPEND_HARD_MAX_US is fetched over: a run in which its piece returns, core1's interrupts return and the flight ends, with the chip still busy and both cores free to fetch |
| FlashOp.EndlessIsFetched | src/flash_op.c:378-379 | So is an operation that has not ended in PIECE_HARD_MAX_US: a run in which its piece returns and core1 may fetch from a busy chip |
| FlashOp.ResumingExactly | src/flash_slot.c:41-53 | The writer's operation goes on with a resume exactly when its newest piece left it held and since then no piece has ended otherwise, no rest of it has been run whole and it has not been given up |
| FlashOp.FlagExactly | src/flash_op.c:118-132 | held_suspended stands exactly while a piece has left its operation held, or its suspend not landed, and since then no resumed piece has ended otherwise and no run_direct() has been past it |
| FlashOp.EndsAsRunPiece | src/flash_op.c:366-391 | The steps a piece of this machine ends on give, whatever the chip does under a piece's status reads, what run_piece() returns |
| FlashPark.BodiesEndInPark | src/flash_op.c:118-132 | A body that may first finish an operation held waits for the chip twice at most, so where what is left of one held, one of its own and the code's time are less than PARK_MAX_US every body of every run ends inside its park, from either core, whole or a ground piece |
| FlashPark.TimelyRunIsSafe | src/flash_op.c:399-410 | And then, with pieces inside the writer's slot that leave the chip idle and the flight task polling no further apart than slots are, no core ever fetches from a flash out of XIP and no flight ends over a piece |
| FlashPark.OutlivesPark | src/flash_op.c:121-126 | Where they are not less: a run, everything else in time, whose body finishes the held operation and starts its own, and core0's helper lets itself go with the chip busy |
| FlashPark.SafeExactly | src/flash_op.c:20-24 | So nothing fetches from a flash out of XIP, in every run that keeps a board's times, if and only if the held operation's remainder, one of the body's own and the code's time, from the park to the body's end and its waits left out, are less than PARK_MAX_US |
| FlashPark.SafeWithNoneHeld | src/flash_op.c:121-126 | And in those in which no body finds an operation held, which a caller can see in held_suspended, if and only if one operation and the code's time are |
| FlashPark.ListedParts | src/flash_timing.c:28-34 | So of the listed parts that suspend: on XT25F128F, 800 ms an erase, the flash is safe only while none is held, however quick the code; on the 400 ms parts it is with any code under 0.7 s |
| FlashFlight.PiecesKeepToSlots | src/flash_op.c:366-391 | In every run whose pieces are planned, go out and step on as src/flash_slot.h:37-43 costs them, on a part that suspends in its time, each piece stays inside its slot from its claim, and none is given up: the chip is never left busy |
| FlashFlight.SafeOnPlan | src/flash_op.c:362-391 | So from the part's figures and the pace of the code alone: where a park is long enough for them, nothing ever fetches from a flash out of XIP |
| FlashProgress.LockoutIsShort | src/flash_op.c:146-184 | In any stretch of any run in which a lockout goes on, no more than eleven steps are its own: each brings it nearer its end, and no other's does |
| FlashProgress.LockoutIsNeverStuck | src/flash_op.c:109-184 | And in every state of every run it has a step of its own if and only if its core runs or it is in its body, and it is not in the first PARK_WAIT_US of waiting for the other core to park or waiting for the chip to end the operation it runs |
| FlashProgress.LockoutEnds | src/flash_op.c:146-184 | It ends by returning after its body; or, with none, refused in a flight, or withdrawn if the other core is not parked then, whose word it takes back; all others enter their body; and it sets no word but the other core's |
| FlashProgress.ParkEnds | src/flash_op.c:74-90 | A helper that has parked its core lets it go by three steps, the second to be had exactly when its word no longer says parked or PARK_MAX_US have passed, and leaves its word idle; one that looks parks exactly when it is wanted |
| FlashProgress.PieceEndsItself | src/flash_op.c:482-512 | A slot piece frees itself by four steps of its own and always has one, core1 running to start it; one is claimed exactly in flight, as the writer then goes on |
| FlashProgress.LandingEnds | src/flash_op.c:399-410 | A look of flash_op_flight_end() ends the flight exactly when no piece is in progress or PIECE_HARD_MAX_US have passed |
| FlashTiming.Lookup | src/flash_timing.c:36-41 | A chip's figures are those of a listed part with its id, and there are none exactly when no part has it |
| FlashSlot.PlanIsTrue | src/flash_slot.c:11-27 | Across any wrap of the 32-bit timer the plan is made in true time: a suspending piece fits exactly when its earliest suspend is no later than its latest, a program that cannot suspend exactly when its worst case fits, and an erase that cannot suspend never |
| FlashSlot.Try | src/flash_slot.c:29-35 | One try in a slot issues the planned piece, or nothing when it does not fit |
| FlashSlot.Run | src/flash_slot.c:39-58 | The loop over any hardware answers is the loop the properties below are about: its result and the commands that reached the chip |
| FlashSlot.RunIsProper | src/flash_slot.c:39-58 | For any behaviour of the hardware, `sliced` turning at any pass: at most one fresh start, then only resumes, each of what the last command left suspended; 0 exactly when the last command reported done; otherwise that command's answer or FLASH_SLOT_ETIME; and a refusal sends nothing |
| FlashSlot.SendsExactly | src/flash_slot.c:28-51 | A pass sends a command exactly when the loop has not returned and the operation runs whole, or sliced, it is no erase of an unlisted part, it is the first pass of a listed one or its slot's alarm ran, and its plan fits the slot, if the hardware takes it |
| FlashSlot.RefusedErase | src/flash_slot.c:45-46 | An erase of a part not listed, or whose erase cannot suspend, is refused at once while sliced with nothing sent, and otherwise runs whole |
| FlashSlot.ReturnStands | src/flash_slot.c:39-58 | Once the operation has returned, later passes send nothing |
| FlashSlot.EraseEndsBy | src/flash_slot.c:42-57 | An erase resumed in each slot ends within the passes its worst time divided by the slot's useful part asks for |
| FlashSlot.ListedEraseEnds | src/flash_timing.c:28-34 | Of every listed part whose erase suspends, the erase ends within 368 commands when slots are entered on time and 1,601 when each is entered 1.68 ms late: FLASH_SLOT_ETIME is not reached |
| FlashPiece.RunPiece | src/flash_op.c:366-391 | run_piece()'s loops over any polls end where and how the properties below say |
| FlashPiece.RunPieceTells | src/flash_op.c:366-391 | Whatever a chip whose bits are polled does and whenever it is polled, its command taken or with nothing left to resume: a piece returns PIECE_SUSPENDED if and only if the chip holds the operation at the return, PIECE_DONE if and only if it is ready, PIECE_ENDLESS or PIECE_ESUSPEND if and only if it is busy, before the suspend command or after it |
| FlashPiece.GivesUpExactly | src/flash_op.c:378-390 | A piece gives the chip up at the first poll past a bound and only there, every poll before it busy: PIECE_HARD_MAX_US after its command, not told to suspend by then, or SUSPEND_HARD_MAX_US after it was told |
| FlashPiece.IgnoredStartReadsDone | src/flash_slot.h:112-119 | A fresh start on a chip that holds another operation returns PIECE_DONE at its first read, with that operation held yet |
| FlashPiece.ZeroMeansEnded | src/flash_slot.c:39-59 | On a chip that holds nothing before it, however its passes go and whatever finishes what it holds between them, flash_slot_run() returns 0 if and only if its last command ran and left the chip ready, the one start it sent having been taken; a busy chip is told by its own codes; and FLASH_SLOT_ETIME, once anything was sent, leaves the operation held |
| FlashPiece.SuspendingPieceEndsInSlot | src/flash_op.c:366-381 | A piece planned in its slot and polled no more than FLASH_SLOT_SUSPEND_US apart ends, or is told to suspend with the part's whole time to suspend left in the slot, at a poll no more than that past the due time, and no sooner after its command than the part's hold; PIECE_HARD_MAX_US is never reached |
| FlashPiece.SuspendReturns | src/flash_op.c:381-391 | After the suspend command, of a part that suspends within its time, the first status read finds the chip idle: PIECE_ESUSPEND is never returned |
| FlashPiece.SuspendingPieceReturnsInSlot | src/flash_op.c:366-391 | A planned piece whose code takes no step longer than a fifth of FLASH_SLOT_SUSPEND_US returns by the slot's end, done or suspended, never PIECE_ENDLESS or PIECE_ESUSPEND |
| FlashPiece.WholeProgramEndsInSlot | src/flash_op.c:366-380 | A planned program of a part that cannot suspend is over by the slot's end and found so at the first poll after, inside the slot with two polls' time to spare of the start's; PIECE_HARD_MAX_US is never reached |
| BadRun.Gate.Rejects | src/bad_run.h:23-32 | The gate's word and answer at each reading are those of the run the properties below are about |
| BadRun.AfterRunIsAnchor | src/bad_run.h:29-31 | After any run of far readings the word is one past the time of the run's anchor |
| BadRun.RefusedForFiftyMs | src/bad_run.h:24-32 | The newest far reading is refused exactly while less than 50 ms has passed since the run's anchor, across the timer's wrap |
| BadRun.FirstReadingAnchors | src/bad_run.h:18-30 | A run is timed from its first reading, whatever follows, if and only if that reading is not on the timer's last tick |
| BadRun.LastTickStretchesRun | src/bad_run.h:29-31 | On that tick a run 50,005 us old is still refused |
| BadRun.RefusedInItsRun | src/bad_run.h:22-33 | Over any readings, near and far, the newest is refused exactly when it is far and less than 50 ms has passed since the anchor of the run of far ones it ends |
| BadRun.NearEndsRun | src/bad_run.h:24-27 | A near reading ends the run, whatever was before it: the next far one begins another |
| Covariances.FormDetermines | src/altitude_filter.c:52-66 | A covariance is determined by its quadratic form, so the equations below are equations between matrices |
| Covariances.PredictIsPropagation | src/altitude_filter.c:52-66 | The six hand-expanded entries of a prediction are those of F P F' plus the noise of white jerk of density 7 |
| Covariances.JerkFormPositive | src/altitude_filter.c:52-66 | That noise is positive semidefinite: its form is a sum of squares |
| Covariances.NoiseComposes | src/altitude_filter.c:52-66 | The noise of two intervals, the first carried through the second, is the noise of their sum |
| Covariances.PredictComposes | src/altitude_filter.c:52-66 | Predicting over two intervals in turn is predicting over their sum |
| Covariances.PredictKeepsPsd | src/altitude_filter.c:52-66 | A prediction keeps the covariance positive semidefinite |
| Covariances.CauchySchwarz | src/altitude_filter.c:84-99 | The squared covariance of the altitude with any combination of the state is at most the product of their variances |
| Covariances.CorrectTakesExplained | src/altitude_filter.c:84-99 | A correction takes from the variance of every combination of the state exactly what the reading explains of it |
| Covariances.CorrectKeepsPsd | src/altitude_filter.c:84-99 | A correction keeps the covariance positive semidefinite and raises the variance of no combination of the state |
| Covariances.CorrectedHeightVariance | src/altitude_filter.c:84-99 | The corrected height variance is prediction times reading variance over their sum, so below the reading's own |
| Covariances.GainIsOptimal | src/altitude_filter.c:84-99 | No gain whatever leaves less variance than the filter's, in any direction |
| Covariances.OwnGainAttains | src/altitude_filter.c:84-99 | And the filter's own gain leaves exactly the corrected covariance |
| AltitudeFilter.InnovationVarPositive | src/altitude_filter.c:111-113 | At every reading that is heeded the innovation variance is at least the reading floor, so the divisions are sound |
| AltitudeFilter.UpdateKeepsGood | src/altitude_filter.c:101-127 | An update keeps the covariance positive semidefinite and the noise at or above its floor, and raises no variance above the prediction's |
| AltitudeFilter.RunStaysGood | src/altitude_filter.c:101-127 | So does every run of readings from a start, whatever their values and times |
| AltitudeFilter.RefusedRunIsOnePrediction | src/altitude_filter.c:114-119 | However many readings a bad run refuses and however they are spaced, the belief is that of one prediction over the whole time |
| AltitudeFilter.AltitudeFilter.TrackNoise | src/altitude_filter.c:70-82 | The tracked noise is the weighted half-square of the innovations' step, never below its floor |
| AltitudeFilter.Variances.TakeDown | src/altitude_filter.c:92-98 | The six variances overwritten one after the other, from copies of the three that the gains are made of, become the corrected covariance of the values before |
| AltitudeFilter.AltitudeFilter.Correct | src/altitude_filter.c:84-99 | With the gains of the variances as they stood and the state moved by them, that is the correction of the run properties |
| AltitudeFilter.AltitudeFilter.Update | src/altitude_filter.c:101-127 | The update in place, its refusal and its order of steps included, is the update the run properties are about |
| FilterState.MovesTowardReading | src/altitude_filter.c:84-90 | At every reading that is heeded and not refused, what is left between it and the corrected altitude is what there was times the reading's variance over the innovation's: on the same side, and less unless the altitude was certain |
| FilterState.ErrorAfter | src/altitude_filter.c:84-90 | Against any true state, the error along every combination of altitude, speed and acceleration becomes the prediction's less its altitude error by the gain that GainIsOptimal is about, plus the reading's own error by the same |
| FilterState.PredictionIsTransition | src/altitude_filter.c:52-55 | The state is carried by the transition whose transpose carries the covariance's form |
| FilterState.HeededIsLater | src/altitude_filter.c:101-108 | A reading is heeded exactly when its true time is later than the last one's, across the timer's wrap, and predicted over the seconds between; another changes nothing |
| FilterState.ExactOnModel | src/altitude_filter.c:52-127 | On a flight of constant acceleration shown exactly, at any times and over any turns of the timer, a filter once right is right at every reading and refuses none |
| FilterState.SigmasAre | src/altitude_filter.c:25-29 | In standard deviations: a reading's is the sensor's as altitude or half a metre if that is larger, and one is far exactly when it is over six of the innovation's from the prediction |
| FilterState.NoiseFollowsSteps | src/altitude_filter.c:70-82 | The tracked noise goes dt / 2 s of the way toward half the square of the last step, all of it from two seconds on, never below its floor, and stays with no step to go by |
| FilterState.StartShows | src/altitude_filter.c:31-50 | Started, the filter shows the height it was started at, at rest, as unsure of it as of a reading at the noise floor, and 8 m/s and 8 m/s^2 unsure of the rest, of nothing together |
| FilterState.WhatIsKept | src/altitude_filter.c:101-126 | A heeded reading that is refused leaves the prediction, the noise, and no step; one that is used is the next step's beginning, and the noise follows it unless it was far |
| FilterState.RejectedExactly | src/altitude_filter.c:112-117 | Through every run the newest reading is refused exactly when it is over six standard deviations off and less than 50 ms have passed since the anchor of the run of such readings it ends |
| FireControl.CommandsAreSpaced | src/fire_control.c:70-140 | In every run in order of time: nothing is commanded before apogee, to a disabled channel or while a pulse is active; the other channel's pulse was seen to end at least the gap before; and the channel's own last began at least the re-fire interval before |
| FireControl.AnyTwoAreSpaced | src/fire_control.c:70-140 | Any two commands of such a run: of the same channel they begin at least the re-fire interval apart; of different ones the earlier pulse is seen to end between them, at least the gap before the later begins |
| FireControl.OvertakenOnce | src/fire_control.c:95-108 | With a gap, a channel owed a pulse while the other is given one is not passed over by the other again |
| FireControl.GapTestMeans | src/fire_control.c:110-115 | The gap test is passed exactly when the gap has passed or time has gone back behind the pulse's end: it means what it says if and only if time has not gone back |
| FireControl.IntervalTestMeans | src/fire_control.c:70-72 | The test of the re-fire interval likewise: passed exactly when the interval has passed or time has gone back behind the pulse's start |
| FireControl.GuardTestMeans | src/fire_control.c:24-26 | The charge guard runs exactly for CHARGE_GUARD_MS after the pulse, and not at all when time has gone back behind it |
| FireControl.SampleBehindPulseFiresAgain | src/flight_descent.c:106-111 | A sample one millisecond behind the loop's time of a pulse fires that channel again, a minute's interval notwithstanding, and is believed as it stands |
| FireControl.BelievedIsAbove | src/fire_control.c:28-40 | While the guard runs, what is believed is never below free fall from the guard's state |
| FireControl.ChainStaysAbove | src/fire_control.c:142-152 | Each pulse of a chain, given while the last one's guard runs, leaves a guard no lower than free fall from the first |
| FireControl.GuardHoldsThroughChain | src/fire_control.c:24-40 | Through any chain of such pulses, whatever the sensor says, what is believed is never below free fall, in height or in speed, from what was believed at the first, its speed capped at zero; so no height, fallen or speed rule, no re-fire and no emergency fire is met before that fall would meet it |
| FireRounds.CommandExactly | src/fire_control.c:53-140 | A round commands a first fire, a re-fire or an emergency one to a channel if and only if no pulse is active; the channel is enabled, apogee is declared, the interval since its own last command has passed, and that kind is due by the event of its mode, the re-fire speed or the emergency one; the other channel's last pulse was seen over the gap ago; and the other is due nothing, or fired more recently, or ties and is pyro 2: in true times, of what was commanded before |
| FireRounds.FirstFireExactly | src/fire_control.c:53-91 | With neither channel fired, no pulse active, no emergency speed and nothing due to the other, an enabled channel is given its first fire if and only if apogee is declared and its event has come: the delay since apogee, the height, the fall from the peak or the descent; and otherwise nothing is commanded |
| FireRounds.BelievedExactly | src/fire_control.c:24-44 | What the rules go by is the sensor's height and speed, each held for two seconds after a command to at least what free fall makes of what was believed then |
| FireRounds.PulsesAreCounted | src/fire_control.c:142-157 | Each channel's count of pulses is of its commands, in sixteen bits |
| NetRing.Ring.Write | src/net_ring.c:53-68 | A write appends as much of the source as there is room for, in order, round the end of the buffer |
| NetRing.Ring.Read | src/net_ring.c:70-85 | A read takes up to n bytes off the front, in order |
| NetRing.Ring.Discard | src/net_ring.c:45-51 | A discard drops up to n bytes off the front |
| NetRing.Ring.ReadSpan | src/net_ring.c:26-30 | The read span is the beginning of what is held, and not empty when anything is |
| NetRing.Ring.WriteSpan | src/net_ring.c:32-38 | The write span lies where the next bytes belong, and is not empty when there is room |
| NetRing.Ring.Put | src/net_ring.c:40-43 | Bytes put in the write span and committed join the end of what is held |
| NetRing.AroundGrows | src/net_ring.c:32-43 | Bytes written at the head extend the held bytes, wrapped or not |
| NetTxq.UnpackPacking | src/net_txq.c:11-13 | A packing of frames decodes to exactly those frames |
| NetTxq.PackingAppends | src/net_txq.c:60-65 | A frame packed at the end adds exactly that frame |
| NetTxq.TxQueue.Drain | src/net_txq.c:24-36 | Frames go oldest first until none is held or the endpoint refuses the next; with the host gone everything held is dropped |
| NetTxq.TxQueue.MakeRoom | src/net_txq.c:39-48 | Room is made exactly when the frames held and the need fit the buffer, and no held frame changes either way |
| NetTxq.TxQueue.Offer | src/net_txq.c:50-67 | Between flushes what has been sent followed by what is held is what was accepted, in order; a frame is sent at once only with nothing held, otherwise joins the end, and is refused as full only when it does not fit |
| NetTxq.TxQueue.Flush | src/net_txq.c:15-18 | A flush drops everything held |
| HttpHead.RequestLineRoundTrip | src/http_conn.c:239-274 | A request line put together from a method, a path and a version parses back to them if the version is of HTTP/1, the path fits and the method is known, or is refused 400, 414 or 405 by the first of these that it is not |
| HttpHead.MalformedLine | src/http_conn.c:244-249 | A line with fewer than two blanks, or nothing before the first or between them, is refused 400 |
| HttpHead.ParseLength | src/http_conn.c:304-324 | The Content-Length loop, in 32 bits, gives the exact decimal value of the digits, or refuses it as too large or malformed, and never overflows |
| HttpConn.PrefixIsSettled | src/http_conn.c:343-372 | How much of a request is taken, of all that ever arrives, is settled by its bytes |
| HttpConn.BodyBytesAreBytes | src/http_conn.c:401-424 | A run of body bytes taken together is those bytes taken one at a time |
| HttpConn.RequestIsBounded | src/http_conn.c:343-372 | What is kept of a request is bounded, whatever arrives: its line, its head, its path, its host and its length |
| HttpConn.BodyIsTheBytes | src/http_conn.c:401-433 | Gathered or streamed, the body is exactly the bytes after the head: with what is left of it, the Content-Length |
| HttpConn.HttpConn.Deliver | src/net_ring.c:53-68 | Bytes delivered join what has arrived, as many as the ring has room for |
| HttpConn.HttpConn.ParseHead | src/http_conn.c:343-380 | The head is parsed as far as the ring goes, and a peer that closes inside it is refused or was never asking |
| HttpConn.HttpConn.TakeSpan | src/http_conn.c:401-423 | What the body is offered is a nonempty run of its next bytes; all of it goes to work or is dropped, and of it a sink takes a beginning and is offered the rest again, and answers in the call that takes the byte it answers at |
| HttpConn.HttpConn.TakeBody | src/http_conn.c:401-436 | The body is taken as far as it goes; one whose sink answers is taken no further; one shorter than its length is refused; one that is in is applied |
| HttpConn.HttpConn.Service | src/http_conn.c:440-452 | After a call of the scheduler the exchange is that of the bytes taken, with nothing left that it could take, and answered from the sink exactly if that has taken its byte, or at the end, when it is asked and likes, or not yet |
| HttpConn.SplitIndependence | src/http_conn.c:239-452 | Two exchanges sent the same request, by a peer that then closes or does not, however it was cut up on its way and whenever they were served, once each has its fill: both sinks have answered or neither; they are in the same state, with the same bytes taken and the same count, but for an answer at the end not yet given and for what a sink takes past its answering byte in that call; though a refused one leaves more of the request in its ring or unsent than the other |
| HttpRequest.RequestComesBack | src/http_conn.c:239-372 | Every request that fits the head is read back from its bytes: its verb, its path, whether it is a HEAD, its host, its length and its flags, whatever the order of its headers, the case of their names, the blanks about their values, the other headers and the line ends; then it is refused 411 when it is chunked or a POST without a length, 413 when it is too long to gather, and else goes where the handler says |
| HttpRequest.BodyFollows | src/http_conn.c:401-424 | Then exactly the next Content-Length bytes are the body: each is wanted and kept in order, and after the last no more is |
| HttpRequest.RequestServed | src/http_conn.c:440-452 | Served over its ring in any pieces and at any calls, an exchange with its fill of such a request and its body is the handler's to answer, with that request and that body, unless its sink has answered |
| HttpRequest.CutRequestRefused | src/http_conn.c:373-380 | A peer that closes before the end of such a request has asked nothing if it sent nothing, and is otherwise refused 400, in the head or in the body |
| HttpRequest.CutRequestServed | src/http_conn.c:343-436 | And so is the exchange it was cut off from, in whatever pieces and at whatever calls, once that has its fill |
| HttpRequest.HeaderRefused | src/http_conn.c:300-338 | A second length that differs is refused 400 and one too large 413; a second Host leaves the name of no board |
| HttpRequest.LengthIsDigits | src/http_conn.c:304-324 | A value is a length exactly when it is digits, at least one, then blanks alone, and they say no more than LENGTH_MAX |
| HttpRequest.LongHeadRefused | src/http_conn.c:343-349 | The head's 8,193rd byte is refused 431, whatever it is |
| HttpResponse.AnnouncedLengthReads | src/http_conn.c:61-64 | A length announced in a response reads back as that length, or is past what the request parser accepts |
| HttpResponse.DoneIsWhole | src/http_conn.c:453-456 | An exchange that is done has written its interim answer, its header and as much body as it promised, or to HEAD none |
| HttpResponse.NothingLeftIsWhole | src/http_conn.c:121-151 | Nothing is left to write exactly when all of the promised body has been |
| HttpResponse.HttpLink.Interim | src/http_conn.c:288-291 | The 100 Continue, whole, goes before everything else that is written |
| HttpResponse.HttpLink.Begin | src/http_conn.c:59-70 | The header always has room, so a response fails at its header exactly when that is too long for its own buffer |
| HttpResponse.HttpLink.Respond | src/http_conn.c:72-98 | A second response changes nothing; the first is announced with its body's length, keeps of the body exactly what the ring did not take, and fails exactly when the header is too long or the rest fits nowhere; what was written before stands |
| HttpResponse.HttpLink.RefuseMethod | src/http_conn.c:191-199 | A 405 carries its whole body straight into the ring or fails |
| HttpResponse.HttpLink.RespondStream | src/http_conn.c:112-119 | A streamed response promises its length, and nothing to HEAD |
| HttpResponse.HttpLink.PumpOut | src/http_conn.c:121-132 | The rest of a whole body goes to the ring in order while there is room, and the answer begun stays as it is |
| HttpResponse.HttpLink.PumpStream | src/http_conn.c:133-150 | What the handler gives joins the body in order, up to the promised length; the exchange fails exactly when it gives nothing before that |
| HttpResponse.HttpLink.Serve | src/http_conn.c:453-456 | A call leaves nothing undone that the ring has room for, changes nothing already written, and the exchange is done exactly when it has not failed and all of it has been written |
| HttpResponse.HttpLink.CopySegment | src/http_transport.c:94-108 | A segment is a prefix of the unacknowledged bytes, as long as the stack was shown; a part of one waits only while there is more to come and room for it |
| HttpResponse.HttpLink.Ack | src/http_transport.c:110-117 | Acknowledged bytes of the segment in flight leave the front of the ring and join what is acknowledged |
| HttpResponse.HttpLink.MarkRetransmit | src/http_transport.c:146-149 | After a retransmit is asked for, the next segment is again the front of what is unacknowledged |
| HttpResponse.HttpLink.FinishClosing | src/http_transport.c:223-233 | A link counts as served exactly when the ring is empty, and then all of a whole response has been acknowledged |
| HttpResponse.HttpLink.Pass | src/http_transport.c:235-275 | A pass counts a link served only with the whole response acknowledged, and closes it only with all of one written and the last of it on its way |
| HttpResponse.HttpLink.Calls | src/http_transport.c:223-275 | Through any calls of the scheduler, the stack and the net task, in any order, after an answer has begun: what was begun is what is written, only more of it comes, and a link is served at most once, with all of it acknowledged |
| HttpResponse.HttpLink.RespondThroughout | src/http_conn.c:72-98 | So of a body given whole: once done, what was written is the interim answer, the header and that body, byte for byte; once served, that is what the peer has acknowledged |
| HttpResponse.HttpLink.StreamThroughout | src/http_conn.c:112-150 | And of a streamed one: once done, what was written is the header and then what the handler gave over all the calls, in order, exactly the promised length |
| HttpAnswer.BlockReads | src/http_conn.c:59-70 | Read by a reader that knows lines, names and digits only, a header block is a status line of HTTP/1.1 with the status, the common and extra lines where they were put, one type, one word to close, one length, the promised one or one the parser calls too large, and an empty line that ends it |
| HttpAnswer.WholeReads | src/http_conn.c:72-98 | Any whole response, a 100 Continue passed over, reads as its status, exactly one length, and a body of exactly that length, or of none to HEAD |
| HttpAnswer.DoneReads | src/http_conn.c:440-456 | So does all that an exchange that is done has written; and its body is the one it was given |
| Decimals.PutU32 | src/flight_log.c:128-139 | The digits put out are the number's, in order |
| Decimals.PutI32 | src/flight_log.c:141-147 | A signed word is put out with its sign and magnitude, INT32_MIN included |
| Decimals.ShownIsDecimal | src/flight_log.c:128-139 | A number's digits say that number |
| Decimals.SignedRoundTrip | src/flight_log.c:141-147 | A signed number read back from its text is that number |
| Decimals.WordIsShort | src/flight_log.c:128-131 | A word has no more digits than the buffer they are gathered in |
| Rows.SplitJoin | src/flight_log.c:196-226 | Fields without the separator are what their joined line splits into |
| FlightRecords.SampleComesBack | src/flight_log.c:76-90 | A sample's bytes, whatever follows them, read back as that sample |
| FlightRecords.TextComesBack | src/flight_log.c:92-109 | A text's bytes read back as its time, tag, length and characters |
| FlightRecords.RecordRenders | src/flight_log.c:196-243 | A record renders to its own row and no more is read, whatever follows it |
| FlightRecords.CutRecordEnds | src/flight_log.c:113-124 | A record cut anywhere renders nothing |
| FlightRecords.WholeIsWhole | src/flight_log.c:262-269 | The records counted as whole inside the first k bytes are those that lie there, and no more |
| FlightRecords.CutStream | src/flight_log.c:245-273 | The rows of a log cut after any number of bytes are those of the records wholly inside |
| FlightRecords.FieldsAreFields | src/flight_log.c:103-107 | No field of any record holds a comma or a line's end: a text cannot add a field or a row |
| FlightRecords.RowSplits | src/flight_log.c:196-243 | Each row splits into exactly its eight fields in the columns' order, and only its end is a line's end |
| FlightRecords.TenthsRoundTrip | src/flight_log.c:201-221 | A temperature in tenths reads back from its text, sign below one degree included |
| FlightRecords.SampleRowReadsBack | src/flight_log.c:196-226 | Every number of a sample's row reads back as what was written, INT32_MIN included |
| FlightRecords.PlainTextKept | src/flight_log.c:101-108 | A text is kept up to its limit, character for character, but for commas and what is not printable, which are blanks |
| FlightRecords.NamesTellApart | src/flight_events.h:45-100 | No two events share a name, nor two tags, so each is found by it |
| FlightRecords.FlightIsTold | src/flight_events.h:19-43 | The events a flight is told by carry the names that they are found by |
| FlightHeader.HeaderComesBack | src/flight_log.c:48-74 | A header's bytes read back as that header, each string cut to its field |
| FlightHeader.HeaderRenders | src/flight_log.c:164-194 | A header renders to its own text and no more is read, whatever follows it |
| FlightHeader.CutHeaderEnds | src/flight_log.c:164-170 | A header cut anywhere renders nothing |
| FlightHeader.CutLog | src/flight_log.c:245-273 | Whatever byte power is lost at, a log reads as its header and exactly the records wholly written, or as nothing when the header is cut |
| FlightHeader.CommonFits | src/flight_log.c:179-187 | A header's common lines are never longer than 185 characters |
| HeaderRead.HeaderReadsBack | src/flight_log.c:156-194 | From the text of a log alone a reader that knows its labels has the header back: the board, the id, the name, each channel's mode and value, the units, the ground, the estimator and who decides apogee; then the columns |
| HeaderRead.OldHeaderRenders | src/flight_log.c:140-194 | A header of the first version renders to the same text but for the estimator and who decides, which it does not have |
| HeaderRead.UnitsAgree | src/flight_log.c:182-187 | The log and the configuration call a unit the same if and only if it is one of the three; of another the log says cm and the configuration m |
| FlightLog.PutStr8 | src/flight_log.c:41-46 | An eight-byte field holds the string up to its NUL or eight characters, then zeros |
| FlightLog.PutHeader | src/flight_log.c:48-74 | The header is written exactly when it fits, and nothing past it is touched |
| FlightLog.PutSample | src/flight_log.c:76-90 | A sample is written exactly when it fits, and nothing past it is touched |
| FlightLog.PutText | src/flight_log.c:92-109 | A text is cut to its limit, cleaned and written exactly when it fits; a negative length writes nothing |
| FlightLog.FlogCsv.Take | src/flight_log.c:113-124 | All of n bytes are had from a source that gives as few as it likes, exactly when the log has them |
| FlightLog.FlogCsv.RenderHeader | src/flight_log.c:164-194 | The header's text is rendered, of either version, always inside the line buffer |
| FlightLog.FlogCsv.RenderSample | src/flight_log.c:196-226 | A sample's row is rendered, always inside the line buffer |
| FlightLog.FlogCsv.RenderText | src/flight_log.c:228-243 | A text's row is rendered, always inside the line buffer |
| FlightLog.FlogCsv.NextLine | src/flight_log.c:245-273 | There is a next line exactly when there is text to come, and taking it loses none |
| FlightLog.FlogCsv.Read | src/flight_log.c:281-298 | A read gives the next characters of one fixed text, as many as asked while there are any, and with no destination counts the same |
| FlightLog.CountText | src/http_server.c:1117-1122 | The length counted a step at a time is the length of the text |
| FlightLog.Download | src/http_server.c:1076-1080 | Reads of any sizes put together are that text, or its beginning when they are too few |
| PressureProcessing.RollBack | src/pressure_processing.c:190-208 | In a run of fewer than eight readings of one value each estimator has had each; from the eighth on it stands as the run's first reading left it, with only the calls from the eighth on made since |
| PressureProcessing.StuckRunLeavesNoTrace | src/pressure_processing.c:185-208 | So whatever state machine an estimator is, readings two to seven of a stuck run leave no trace in it |
| PressureProcessing.LateIsNoReadings | src/pressure_processing.c:198-205 | With no pulse in the run those calls are one no_reading for each reading from the eighth on |
| PressureProcessing.EarlyPulseIsForgotten | src/pressure_processing.c:210-215 | A pulse noted before the eighth reading is taken back with the readings: from then on the estimators are as if it had not been noted |
| PressureProcessing.RepeatsAreSuspect | src/pressure_processing.c:249-268 | Every sample from the eighth reading of a run on is marked suspect |
| PressureProcessing.CountWraps | src/pressure_processing.c:151-165 | For a run of any length the count is the number of readings in sixteen bits, and it is taken to repeat exactly when that is eight or more |
| PressureProcessing.SuspectForASecond | src/pressure_processing.c:143-164 | After a gap or a stuck run every reading within a second of the one that showed it is suspect, across the timer's wrap |
| PressureProcessing.Intake.WatchForGapAndStuck | src/pressure_processing.c:148-167 | The watch in place is the watch the properties are about |
| PressureProcessing.Intake.FeedEstimators | src/pressure_processing.c:193-208 | Every estimator is started, put back, told and remembered alike |
| PressureProcessing.Intake.TakeReading | src/pressure_processing.c:274-289 | A reading that is not positive changes nothing; any other feeds the watch and every estimator, and its sample is marked as the properties say |
| PressureProcessing.Intake.NotePulse | src/pressure_processing.c:210-215 | A pulse is told to every started estimator, at the last reading's time |
| PressureProcessing.SuspectExactly | src/pressure_processing.c:143-168 | Over any readings, for as long as they go on, the watch is suspicious if and only if within the last second one came after a gap or was of a stuck run, as sixteen bits and the timer show it |
| PressureProcessing.MarkedExactly | src/pressure_processing.c:249-265 | So a sample is marked suspect exactly then or when its reading is of a run of eight or more, whatever pulses and unusable readings come between; an ordinary one is not |
| PressureCollector.Collector.Command | src/pressure_collector.c:92-99 | A command is put on the bus and the time of its conversion noted in the slot being built, the queued cycles untouched |
| PressureCollector.Collector.AfterCommand | src/pressure_collector.c:138-148 | The alarm after a command asks for its read, at this alarm's time, or fails; whether flash operations ran meanwhile is noted |
| PressureCollector.Collector.AfterRead | src/pressure_collector.c:150-163 | The alarm after a read logs the bytes it got and then the next step's command, its conversion beginning once that is written after this alarm's time; the last step's bytes put the cycle on the queue; or it fails |
| PressureCollector.Collector.Push | src/pressure_collector.c:82-90 | A finished cycle joins the end of the queue, and a full queue loses its oldest |
| PressureCollector.Collector.Fail | src/pressure_collector.c:108-117 | A failure begins the cycle again after RETRY_US; exactly the third in a row takes the lines for a bus clear |
| PressureCollector.Collector.ClearStep | src/pressure_collector.c:121-136 | Each alarm of a bus clear makes exactly its next move, and the one that gives the lines back writes the reset |
| PressureCollector.Collector.AfterReset | src/pressure_collector.c:165-172 | A reset that fails counts as a failure like any other |
| PressureCollector.Collector.Alarm | src/pressure_collector.c:176-189 | Every alarm logs exactly what that state does at that time, and keeps it that each queued cycle holds, for each step, bytes whose read was asked for no sooner than the conversion time after that step's own command, with nothing between on the bus; that a bus clear begins only on the third failure in a row, and a reset only follows a whole one; that cycles are taken, dropped or queued; and the queue changes only by a finished cycle |
| PressureCollector.Collector.Take | src/pressure_collector.c:204-214 | The oldest cycle is taken, so cycles leave in the order of their passes, and the one being built is untouched |
| PressureCollector.ClearIsNineClocksAndStop | src/pressure_collector.c:119-136 | A whole bus clear has exactly eighteen clock edges, low and high in turn, then SDA low and high with SCL high |
| PressureCollector.BuildingIsFree | src/pressure_collector.c:69-78 | The slot being built is never a queued one |
| GroundReference.FeedKeeps | src/ground_reference.c:52-70 | A reading is accepted exactly when tracking and within 50 Pa of the mean then standing, and the pressure stays the truncated mean of the window |
| GroundReference.MeanStandsThroughout | src/ground_reference.c:42-70 | From a seed on, whatever is fed in order of time: the pressure is the truncated mean of all the readings in the last twenty blocks, and each reading is in its block's quarter second |
| GroundReference.HistoryIsAccepted | src/ground_reference.c:52-70 | The history is the seed and the accepted readings, none lost, added or moved |
| GroundReference.FreezeUsesThePast | src/ground_reference.c:76-95 | Frozen before a time, the pressure rests on exactly the blocks of the window over by then and not under way, so only on readings taken before it, and is degraded exactly when they cover less than a second |
| GroundReference.FirstRejectionCounts | src/ground_reference.c:55-59 | How long readings have been rejected is timed from the first, unless that is on the clock's last tick: then, and only then, it is not noted |
| GroundReference.RejectionsKeepTheFirst | src/ground_reference.c:55-59 | Later rejections do not move that time |
| GroundReference.SeedStands | src/ground_reference.c:12-21 | A seed is its own mean |
| GroundReference.TakenWithinFiftyPa | src/ground_reference.c:28-31 | From a seed on, a reading is taken if and only if it is within 50 Pa, either way, of the truncated mean of what the window holds; another leaves the pressure and all that was taken as they were |
| GroundReference.RejectingSinceTheRun | src/ground_reference.c:105-108 | Over any readings, the time of rejection is none just after one is taken, and otherwise since the first rejected after it that is not on the clock's last tick |
| GroundReference.FrozenStands | src/ground_reference.c:85-101 | Frozen, the reference stands: nothing fed to it changes it |
| GroundReference.SeedBlockStartsLate | src/ground_reference.c:11-23 | Nothing is rejected or degraded of a seed, and its block takes its time from the first reading taken |
| GroundReference.TowardZero | src/ground_reference.c:43-50 | The mean is truncated toward zero, whatever the sign of the sum |
| GroundRing.HoldsNext | src/ground_reference.c:33-40 | The next block takes the place of the oldest once the ring is full |
| GroundRing.RingGathers | src/ground_reference.c:42-50 | The ring's sums, in whatever order, are the window's |
| GroundRing.PastGathers | src/ground_reference.c:84-90 | The ring's ended blocks are the window's, the one under way left out |
| GroundRing.GroundRef.Feed | src/ground_reference.c:52-70 | A feed in place is the feed of the whole history |
| GroundRing.GroundRef.FreezeBefore | src/ground_reference.c:80-95 | A freeze in place is the freeze of the whole history |
| GroundRing.GroundRef.OpenNextBlock | src/ground_reference.c:33-40 | The next block opened in place is the next block of the window |
| GroundRing.GroundRef.MeanOfBlocks | src/ground_reference.c:42-50 | The mean is of all the cells' sums and counts |
| GroundRing.GroundRef.Seed | src/ground_reference.c:12-26 | A seed empties the ring but for itself |
| GroundRing.GroundRef.Reseed | src/ground_reference.c:109-112 | A reseed is a seed, counted |
| GroundTestSeq.AlwaysSafe | src/ground_test_seq.c:122-146 | After every history of switch readings and reports in order of time the procedure's times, its arming and its phases mean what they should |
| GroundTestSeq.FireIsEarned | src/ground_test_seq.c:87-134 | A fire asked for is of an enabled channel; as its phase begins every step of a full countdown has found the debounced switch open; the first countdown follows a closure of at least GT_ARM_MS; and with both enabled channel 2 is asked for only after channel 1's fire was reported since the mode was last announced |
| GroundTestSeq.FireBegins | src/ground_test_seq.c:87-111 | Only a step begins a fire, and only from the end of a countdown |
| GroundTestSeq.NothingAfterTheAllClear | src/ground_test_seq.c:104-111 | Nothing is asked after the all-clear, whatever happens |
| GroundTestSeq.ArmsByClosure | src/ground_test_seq.c:74-81 | A closed switch arms exactly when it has been closed for GT_ARM_MS, however long the mode has then been announced |
| GroundTestSeq.AnnouncedLongEnough | src/ground_test_seq.c:74-81 | So the promise that the mode has been announced for GT_ARM_MS with the switch closed is kept, whenever the next step comes, if and only if the closure is no older than the alert |
| GroundTestSeq.ArmsJustAnnounced | src/ground_test_seq.c:31-36 | It is not always: with the switch closed during channel 1's fire, the test is armed one millisecond after the mode is announced afresh |
| GroundTestSeq.LevelIsSteady | src/ground_test_seq.c:62-72 | The debounced level changes only to what every step has read for GT_DEBOUNCE_MS |
| GroundTestSeq.GroundTest.Debounce | src/ground_test_seq.c:62-72 | The debounce in place is that of the history |
| GroundTestSeq.GroundTest.Advance | src/ground_test_seq.c:87-111 | So is what the time alone does |
| GroundTestSeq.GroundTest.Step | src/ground_test_seq.c:122-134 | So is a step, and what it asks for |
| GroundTestSeq.GroundTest.Fired | src/ground_test_seq.c:136-146 | So is a report: BUSY leaves the request standing |
| GroundTestSeq.RouteIsFollowed | src/ground_test_seq.c:40-111 | After any history the procedure is on its route, having gone through all of it before that in order: a countdown, the enabled channels with a tone and a countdown between two, the all-clear, the end |
| GroundTestSeq.StepLeavesOnTime | src/ground_test_seq.c:76-130 | A step leaves a phase if and only if its time has passed or, in a countdown or the tone, the switch is closed, which goes back to the alert disarmed; the alert, when it is armed and the switch open; a fire and the end, never |
| GroundTestSeq.ResultsAreReported | src/ground_test_seq.c:136-146 | Each channel's result is the newest outcome but BUSY reported for it in its own fire, and such a report, and no other, takes the procedure on |
| GroundTestSeq.SoundsOnce | src/ground_test_seq.c:118-134 | Each phase is sounded once, by its first step, as itself; and a step asks for a channel exactly in that channel's fire |
| GroundTestSeq.LevelFollows | src/ground_test_seq.c:62-72 | A step takes the level read steadily for the debounce time, and nothing sooner |
| IniTokenizer.Trim | src/ini_tokenizer.h:27-34 | A string is cut in place of the blanks round it and of nothing else |
| IniTokenizer.TakePair | src/ini_tokenizer.h:47-55 | A line gives its key and value, or nothing, and nothing past the line is touched |
| IniTokenizer.ForEach | src/ini_tokenizer.h:36-57 | The pairs found in place are the text's, in order |
| IniTokenizer.PairComesBack | src/ini_tokenizer.h:47-53 | A line of a key and a value gives them back |
| IniTokenizer.LineOff | src/ini_tokenizer.h:36-46 | A line ended by CR and LF is taken off whole |
| Config.ConfigRoundTrip | src/config.c:173-226 | Any configuration in range, its strings of at most eight characters with no line end, NUL or outer blank, parses back from its own text over any other with nothing rejected, and its text fits CONFIG_INI_MAX |
| Config.RoundTrip | src/config.c:173-226 | So it is for any table of fields whose keys are keys and distinct |
| Config.TextFits | src/config.c:196-226 | The text of any configuration, in range or not, fits CONFIG_INI_MAX |
| Config.FieldsAreTheirOwn | src/config.c:136-170 | Each field is what the pairs with its own key make of it, and the count is of the known keys' values not taken |
| Config.AbsentKeeps | src/config.c:160-166 | A key the text does not name keeps its value |
| Config.RejectedKeeps | src/config.c:55-65 | A key whose every value is rejected keeps its value, but a pyro mode is then none |
| Config.TakenExactly | src/config.c:45-90 | A mode or a unit is taken by its one name, a number exactly by digits alone that say it and are in range, a flag by either of two words, and of a string what fits |
| Config.ValueComesBack | src/config.c:45-90 | Each kind's value in range is taken back from its own text |
| Config.TextReads | src/config.c:211-222 | The text is read as the table's keys and values, in order |
| Config.TableIsDistinct | src/config_fields.h:26-46 | No two fields of the board's table have one key |
| Config.TableIsKeyed | src/config_fields.h:26-46 | Each of its keys is one the tokenizer reads back |
| Config.ParseIni | src/config.c:173-177 | Parsing in place assigns the text's pairs in order and counts the rejected |
| Config.SerializeIni | src/config.c:196-226 | Serialising writes the whole text and a NUL, or answers -1 exactly when they do not fit |

## Left out

- XipSafety: has one lockout caller at a time, from either core; nothing in src/flash_op.c keeps two apart, so that is its callers' to keep, and two at once are not modelled
- SafeExactly: a body starts one operation, of one sector or page, as src/flash_op.c:20-24 says that nothing erases more at once; flash_op_erase() of several sectors at a time is not covered
- SuspendingPieceReturnsInSlot: takes the measured costs of src/flash_slot.h:37-43 as bounds on the steps of the code, and that a suspend lands within the part's time; the SDK's commands are not modelled
- PiecesKeepToSlots: is of parts whose erases and programs both suspend; of the one that does not, WholeProgramEndsInSlot speaks of a piece at a time
- SplitIndependence: takes the handler's answer to the head as one fixed verdict, and a sink's as given in the call that takes a fixed byte of the body; a sink that answers by the clock, or without taking a byte, is not covered
- CommandExactly: is stated for rounds in time, shorter than half a turn of the 32-bit timer, and for an apogee less than a turn ago
- RequestComesBack: is of requests whose head fits HTTP_HEAD_MAX and whose header lines that are read fit their buffer, with one Host and lengths and codings that agree; HeaderRefused and LongHeadRefused say what becomes of others
- WholeReads: is for common and extra lines without a length of their own, and a status other than 100
- SuspectExactly: is stated for readings less than a turn of the 32-bit timer apart
- AnnouncedLongEnough: is stated of a switch closed for less than a turn of the 32-bit timer, 49 days, as ArmsByClosure is
- GuardHoldsThroughChain: its re-fire and emergency rules are for a pad ratio that is not negative, as a ratio of pressures is not
- OvertakenOnce: is stated for a positive gap and runs shorter than half a turn of the 32-bit timer
- MeanStandsThroughout: is stated for blocks of fewer than 65,536 readings, past which the code's count wraps
- Floating point: floats are reals, rounding is not modelled, and the outlier test is the square of the source's, so innovation_sigmas and the square roots of af_estimate() are not there
- The chip behind flash_op.c is ready, busy, suspending or holding; the SDK's commands and the wire are not modelled
- Counters of statistics that nothing decides by: of flash operations, of each cause of a bus failure, of the links
- board_flash_ok(), task priorities and notifications, and the wait for a release
- Estimators: a history of calls stands for each state, so altitude and slope are known by the reading they come from
- The sample ring of the pressure path, calibration's median, the rise and the pad's air
- The collector's bus controller: a transfer ends well with its bytes or not at all, and times do not wrap, as 64 bits do not
- smallest_tcp: the stack takes a segment, acknowledges bytes in flight, or asks for them again, and never acknowledges what it was not given; waiting and draining links, and the exchanges' pool, are not modelled
- http_server.c's routes, http_origin_refusal() and http_host_is_board()
- snprintf() and strtoul(): their documented results on the formats used
- The log's file system: a source gives some of the next bytes, none only at the end
- config_set_defaults(), config_from_file() and the other .ini files' fields
- Atmosphere and simulation models, buzzer, telemetry, descriptors, Lua and OTA: plumbing, tables or floating-point functions with nothing exact to prove beside these
