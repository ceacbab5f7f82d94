# LapGuard: models and proofs of its safety controllers

LapGuard is a daemon that watches a laptop's battery and mains adapter, warns its user, and can
drain containers and power the host off. This project models the logic that decides about that, and
proves what it promises over every run.

- **Auto-drain** (`AutoDrain`, `DrainProtocol`, `DrainSafety`, `DrainResets`, `DrainOverlap`,
  `DrainReports`, `DrainEpisodes`, `DrainOutcomes`, `DrainSequence`, and `DrainSchedules` for the
  runs they show). The state one mutex guards is updated in seven locked regions, with the notifier and the host commands
  running between them unlocked. `AutoDrain` has each region twice: as a function on the state as a
  value, and as a method of a class that does it step by step and is proved to agree. `DrainProtocol`
  lets any number of `Tick`, `Respond` and `Reset` calls interleave, one region, notifier return or
  host call at a time, with adversarial configurations, samples, clocks and outcomes, and keeps a
  log. `DrainResets` says what a reset to idle takes back, `DrainOverlap` when two sequences can be
  in progress at once, `DrainReports` compares what a sequence claims with the host calls it made,
  and `DrainEpisodes` adds that the daemon runs one poll loop. `DrainOutcomes` says what each step
  must do, and `DrainSequence` names the host calls of a sequence, both in terms of the settings and
  readings alone.
- **The AC watcher** (`Watcher`, `Outages`). A class with the incremental filter's fields, proved to
  emit what a declarative filter says of the whole history of polls, and what the transitions of a
  history add up to.
- **The battery controller** (`Controller`, `BatteryEvents`). A class with the three latches, and the
  events and plans given by a run of polls and simulations, whose locked regions may interleave.
- **Manual actions** (`ActionGuard`, `GuardProtocol`, `GuardReports`). The guard as a class, the
  status that must agree with it, all interleavings of requests, and what they are answered.
- **Around them**: `Settings` and `SettingsUpdates` (normalization and publication of the
  configuration, and what an update leaves in every field), `DryRun` (what dry run promises from the
  request that sets it), `Power` (adapter classification), `HostExecutor` (argument vectors and the container drain), `Delivery` (rate limiter
  and retry), `RuntimeLabel`, and the vocabulary in `Basics`, `Text` and `Safety`.

Instants and durations are integers counting nanoseconds. A `time.Time` that may be the zero time,
a `*int`, and an empty source string are options.

## What the proofs found

Each of these is proved of the code as it is, with a run or an input that shows it.

- A NO is overridden by an older YES still on its way to the gate, because NO leaves `notified` set
  and the gate asks for no more. `RefusalLastsUnlessPending` says exactly when; `OlderYesOverridesNo`
  is a run.
- A reset to idle does not take back everything from before it. A warning that was delivered and not
  yet recorded is recorded after it and can be started on, whether the reset was a call of `Reset`
  (`ResetDoesNotRecallAWarning`) or an answer that came before the prompt was recorded
  (`EarlyAnswerDoesNotRecallAWarning`). A consent given before it and not yet at the gate starts on
  the notification of a newer prompt, with its own old configuration and sample
  (`ResetDoesNotStopAnOlderYes`). Whatever starts after a reset rests on a delivery since that reset
  exactly when neither is there at the reset (`StartsAreFreshUnlessCarried`, and for each of the two
  `EveryResetRecallsUnlessDelivered` and `OldCallsStopUnlessPending`).
- Two host sequences can be in progress at once (`SequencesOverlapAfterReset`). `NextStartNeedsReset`
  says exactly when another start has to wait for a reset to idle, and `OneSequenceUntilReset` that
  there is then at most one sequence.
- `commandsExecuted` is claimed by the captured configuration of a sequence that ended well. So it
  claims commands that were only recorded (`SwitchedOffRunIsClaimed`), and it denies containers that
  were stopped before a later command failed (`FailedRunIsNotClaimed`); `ClaimIsTrueExactlyWhen` says
  exactly when it is true. The answer to a manual request has the same two faults
  (`AnswerIsTrueExactlyWhen`, `SwitchedOffDrainIsAnswered`, `FailedPowerOffIsNotAnswered`).
- A CRITICAL event that finds the plan cooldown running is never planned for, although the state stays
  SHUTDOWN_PENDING, until the battery recovers or a critical simulation begins
  (`UnplannedCriticalIsNeverPlanned`; `CooldownSwallowsAPlan` is a run).
- An outage that passes through UNKNOWN is reported from that point on only (`OutageReportedInFull`;
  `OutageThroughUnknownIsHalved` is a history).
- A simulated warning releases the warning latch alone, so the latches are left out of order exactly
  when a CRITICAL stands (`SimulatedWarningDisordersLatches`; `CriticalThenSimulatedWarning` is a
  run). Nothing else disorders them under published configurations (`LatchesStayInOrder`).
- A simulation emits nothing when a poll between its release and its tick emitted first
  (`SimulationEmitsItsEvent` says exactly when; `PollSilencesSimulation` is a run).
- The cooldown seconds in the status are rounded down (`SecondsRemainingRoundDown` says when they are
  too few; `RoundedSecondIsTooShort` is a case).
- The settings accept an executable path with a space or tab, and a power-off path with a trailing
  slash, that the executor then refuses (`ConfiguredDockerRunsUnlessSpaced`,
  `ConfiguredSyncRunsUnlessSpaced`, `ConfiguredPowerOffRunsUnlessSpacedOrSlashed`;
  `SpacedDockerIsAcceptedAndRefused` and `SlashedPowerOffIsAcceptedAndRefused` name such paths).

The comment on `AutoDrain` promises that no host command runs unless a notification was delivered; the
code counts a notifier that panicked as delivered, and the proofs speak of `sendWarning` returning nil.

## Model

| member | source | states |
|---|---|---|
| AutoDrain.AutoDrain.TickLocked | internal/safety/auto_drain.go:234-318 | the first locked region of a tick, with its outcome (rest, warn, let time run out) and whether it reset |
| AutoDrain.AutoDrain.PromptLocked | internal/safety/auto_drain.go:275-287 | recording a delivered prompt sets the deadline from the prompting sample and the timeout that tick read |
| AutoDrain.AutoDrain.RespondLocked | internal/safety/auto_drain.go:333-361 | the answer is taken only while a delivered prompt waits, and the sample handed on is the last one |
| AutoDrain.AutoDrain.GateLocked | internal/safety/auto_drain.go:366-393 | the gate passes only a notified state, on the captured configuration and sample |
| AutoDrain.AutoDrain.CloseLocked | internal/safety/auto_drain.go:396-414 | what is claimed as executed at the end of a sequence |
| AutoDrain.AutoDrain.ResetToIdle | internal/safety/auto_drain.go:523-532 | a reset clears everything but the last sample |
| DrainOutcomes.PromptsRunOutOnTime | internal/safety/auto_drain.go:290-316 | in every run, a tick that finds a prompt waiting resets when auto-drain is off or the sample is not discharging or on AC, and otherwise lets the prompt run out exactly when it is at or past the prompting sample's time plus its response minutes, ten when not positive |
| DrainOutcomes.WaitingTick | internal/safety/auto_drain.go:290-316 | what a tick on a waiting prompt leaves in every field, before and from the deadline on |
| DrainOutcomes.IdleTick | internal/safety/auto_drain.go:469-492 | an idle tick warns exactly when auto-drain, container stopping and a usable provider are on and the battery is present, discharging, off AC and at or below the threshold |
| DrainOutcomes.SettledTick | internal/safety/auto_drain.go:513-521 | after an answer or a timeout a tick rearms exactly when auto-drain is off, or the sample is not discharging, on AC, or more than two points above the threshold |
| DrainOutcomes.EarlyTick | internal/safety/auto_drain.go:290-305 | a tick that finds a warning not yet recorded resets to idle |
| DrainOutcomes.RelockOutcome | internal/safety/auto_drain.go:267-288 | a delivered warning waits for its response minutes from the prompting sample on, and a failed one resets to idle |
| DrainOutcomes.AnswerOutcome | internal/safety/auto_drain.go:333-361 | while a prompt waits a YES goes to the gate with the last sample and a NO ends the episode; any other answer starts nothing |
| DrainOutcomes.GateOutcome | internal/safety/auto_drain.go:366-393 | a consent starts exactly when notified, enabled, container-stopping, discharging, off AC and at or below the threshold, and really exactly when real actions are on in both configurations |
| DrainOutcomes.CloseOutcome | internal/safety/auto_drain.go:396-414 | the end of a sequence changes only its claim, true exactly on success with real actions on at capture |
| DrainOutcomes.ResetOutcome | internal/safety/auto_drain.go:174-181 | a Reset clears everything but the last sample |
| DrainProtocol.RunKeepsInv | internal/safety/auto_drain.go:240-396 | in every interleaving: notified holds exactly outside IDLE and WARNING_SENT and exactly while a recorded prompt stands, the deadline is that prompt's, each call's place is what its events tell, and every logged event is justified by the log before it |
| DrainSafety.PromptsAreConserved | internal/safety/auto_drain.go:256-393 | in every run the prompts delivered are as many as the sequences started, those stopped at the gate, declined, lost, carried by a call, and waiting; so sequences never outnumber deliveries |
| DrainSafety.StartsRestOnTheirOwn | internal/safety/auto_drain.go:256-393 | two starts never rest on the same delivery, nor on the same recorded prompt, nor on the same consent |
| DrainSafety.EveryStartRests | internal/safety/auto_drain.go:328-393 | every start rests on a delivery, its recording and a consent to it, in that order |
| DrainSafety.EveryStartIsGrounded | internal/safety/auto_drain.go:366-393 | a sequence starts only while a delivered prompt stands, no reset having followed its recording, and on an enabled, docker-stopping configuration and a discharging, off-AC sample at or below the threshold |
| DrainSafety.TimeoutIsNeverEarly | internal/safety/auto_drain.go:276-316 | a timeout's tick is at or after the prompting tick's time plus the timeout that tick read, a minute at least |
| DrainSafety.EveryHostCallHasItsChain | internal/safety/auto_drain.go:366-414 | every host call follows, in order, a delivered warning, its recording, a consent to it, a start of the same call, and the earlier actions of the plan, all successful |
| DrainSequence.PowerOffFollowsSync | internal/safety/auto_drain.go:603-614 | a power-off comes after a good sync, and that after a good stopping of the containers, by the same call since its start |
| DrainSequence.SyncFollowsDrain | internal/safety/auto_drain.go:603-614 | a sync comes after a good stopping of the containers |
| DrainSequence.DrainComesFirst | internal/safety/auto_drain.go:603-614 | stopping the containers is the first call of its sequence |
| DrainSequence.EndedWellMadeThePlan | internal/safety/auto_drain.go:603-614 | a sequence that ended well stopped the containers, synced and powered off, in that order, and nothing else |
| DrainSafety.DryRunOnlyRecords | internal/safety/auto_drain.go:417-439 | while every configuration read keeps real actions off, no run makes a real call |
| DrainSafety.RealCallNeedsBothReadings | internal/api/actions.go:439-453 | a real call needs real actions on in the captured and in the live configuration |
| DrainReports.ClaimIsTrueExactlyWhen | internal/safety/auto_drain.go:391-408 | for every sequence that ended, the claim of executed commands is true of its real host calls exactly when it ended well and real actions were not switched off between capture and pick, or it failed at its first call |
| DrainReports.SwitchedOffRunIsClaimed | internal/safety/auto_drain.go:391-403 | a run that claims commands and made no real call |
| DrainReports.FailedRunIsNotClaimed | internal/safety/auto_drain.go:395-402 | a run that claims no command and stopped the containers |
| DrainResets.ResetRecallsUnlessDelivered | internal/safety/auto_drain.go:267-288 | after a call of Reset from any state, some delivery lies between it and every start, exactly when no call had a delivery not yet recorded |
| DrainResets.EveryResetRecallsUnlessDelivered | internal/safety/auto_drain.go:240-345 | the same after any reset to idle of any run, by a tick, an early answer, a failed warning or a call of Reset |
| DrainResets.OldCallsStopUnlessPending | internal/safety/auto_drain.go:358-393 | after any reset to idle no call from before it starts a sequence, exactly when none of them has a consent that passes the gate |
| DrainResets.StartsAreFreshUnlessCarried | internal/safety/auto_drain.go:256-393 | after any reset to idle every start rests on a delivery, a recording and a consent since that reset, exactly when no call has a delivery not yet recorded or a consent that passes the gate |
| DrainResets.ResetDoesNotRecallAWarning | internal/safety/auto_drain.go:267-288 | a run in which a sequence starts on a warning delivered before the last call of Reset |
| DrainResets.EarlyAnswerDoesNotRecallAWarning | internal/safety/auto_drain.go:339-344 | a run in which a sequence starts on a warning delivered before an answer that reset to idle |
| DrainResets.ResetDoesNotStopAnOlderYes | internal/safety/auto_drain.go:358-393 | a run in which a YES given before a reset starts its sequence after it, on its old configuration and sample |
| DrainOverlap.NextStartNeedsReset | internal/safety/auto_drain.go:290-393 | once a prompt is answered or has run out, nothing starts before a reset to idle, exactly when no consent that passes the gate is pending and no warning is with the notifier or delivered and unrecorded |
| DrainOverlap.OneSequenceUntilReset | internal/safety/auto_drain.go:366-414 | then at most one host sequence is in progress as long as nothing resets to idle |
| DrainOverlap.SequencesOverlapAfterReset | internal/safety/auto_drain.go:366-396 | a run in which two host sequences are in progress at once |
| DrainEpisodes.OneWarningPerEpisode | internal/safety/auto_drain.go:243-305 | with one poll loop, no warning is attempted or delivered after a recorded prompt before a recovery sample, a tick with auto-drain off, or a Reset |
| DrainEpisodes.RefusalLastsUnlessPending | internal/safety/auto_drain.go:350-358 | with one poll loop, after a NO nothing starts until a reset and then a new delivery, exactly when no earlier consent that passes the gate is pending |
| DrainEpisodes.OnlyAnAgreementCanBePending | internal/safety/auto_drain.go:306-316 | with one poll loop, every consent still on its way to the gate when a NO is taken is a YES |
| DrainEpisodes.OlderYesOverridesNo | internal/safety/auto_drain.go:350-369 | a run in which a NO is taken and does not last |
| Watcher.Watcher.Tick | internal/power/watcher.go:144-222 | the incremental filter emits what the declarative filter says of the whole history |
| Watcher.OnePollMore | internal/power/watcher.go:159-191 | how the declarative filter (baseline, committed source, span of the maximal constant run) moves with one more poll |
| Outages.TransitionsFormAChain | internal/power/watcher.go:193-221 | each transition leaves the source the previous one reached for another one and reports the time since that commit when power is back; nothing else is emitted; consecutive event types differ |
| Outages.TransitionNamesItsSource | internal/power/state.go:23-32 | a transition to AC is AC_CONNECTED, to BATTERY AC_DISCONNECTED, to UNKNOWN AC_UNKNOWN, and conversely; only one to AC reports a duration, in whole milliseconds |
| Outages.EventsMatchTheAdapters | internal/power/state.go:23-87 | over classified scans, connected means a readable adapter online, disconnected adapters that are all readable and offline, unknown neither, and conversely |
| Outages.EmitsExactlyWhenSettled | internal/power/watcher.go:159-191 | with a clock that does not run backwards, a poll emits exactly when its source differs from the committed one and has been read for the debounce time |
| Outages.SettledSourceIsCommitted | internal/power/watcher.go:181-217 | a source read for the debounce time is the committed one from then on |
| Outages.CommitsAreSpaced | internal/power/watcher.go:181-191 | with a clock that does not run backwards, the i-th and j-th commit are (j-i) debounce times apart |
| Outages.EventsInWindowAreBounded | internal/power/watcher.go:181-221 | the events within any window are at most its length divided by the debounce time, plus one |
| Outages.ReportedOutagesFitElapsedTime | internal/power/watcher.go:201-210 | the sum of reported outages never exceeds the time elapsed |
| Outages.OutageReportedInFull | internal/power/watcher.go:201-210 | an outage is counted from its beginning exactly when it was committed once, and, with a debounce of a millisecond or more, the reported milliseconds are those of the whole outage exactly then |
| Outages.OutageThroughUnknownIsHalved | internal/power/watcher.go:201-210 | a history whose outage of four debounce times is reported as two |
| Power.Classify | internal/power/state.go:65-87 | AC, BATTERY or UNKNOWN by the documented rule on all adapters |
| Power.ClassifiedIgnoresOrder | internal/power/state.go:60-87 | the order of the adapters does not matter |
| Controller.Controller.Evaluate | internal/safety/controller.go:249-336 | the latches, event, plan and state of one evaluation |
| Controller.Controller.Tick | internal/safety/controller.go:211-230 | one tick updates the whole state by the evaluation |
| Controller.Controller.UnlatchIfRecovered | internal/safety/controller.go:321-329 | a latch stays while the percentage is within the margin above its threshold |
| Controller.Controller.BeginSimulation | internal/safety/controller.go:380-415 | the sample a simulation makes up and the latches it releases, up to its unlock |
| Controller.Controller.Simulate | internal/safety/controller.go:380-416 | the release, and then a tick that reads the configuration anew, with no other tick between |
| BatteryEvents.EventsNeverRepeatWithoutRecovery | internal/safety/controller.go:281-329 | over runs of polls and simulations: an event is emitted exactly when the sample is in its band and no event that forbids it stands |
| BatteryEvents.RepeatedEventHasRecovery | internal/safety/controller.go:262-329 | between an event and a further WARNING, and between two CRITICALs, a sample was on AC or above the threshold by more than the margin, or a simulation that releases the latch began |
| BatteryEvents.DrainingRunWarnsAtMostOnce | internal/safety/controller.go:281-313 | from any state, off AC, on one configuration, with percentages that never rise: at most one WARNING and then at most one CRITICAL |
| BatteryEvents.ReadingsDecide | internal/safety/controller.go:249-329 | what a source, a percentage and discharging make of a sample: its band, what it releases, and the state |
| BatteryEvents.FallingRunIsAnnounced | internal/safety/controller.go:281-313 | from a fresh start, on a falling battery, CRITICAL is emitted exactly when some sample is at or below the critical threshold and WARNING exactly when some is above it and at or below the warning one; with shutdown enabled the plan is made with the first, by name |
| BatteryEvents.FallingRunShowsItsState | internal/safety/controller.go:281-313 | and the state after each sample is the one its percentage calls for |
| BatteryEvents.RecoveredBatteryIsAnnouncedAgain | internal/safety/controller.go:262-329 | after mains power or a recovered percentage a low battery is announced again, whatever came before |
| BatteryEvents.UnusableReadingDecidesNothing | internal/safety/controller.go:249-261 | a sample without a percentage, or below the minimum, leaves latches, events and plans alone |
| BatteryEvents.TickRemembers | internal/safety/controller.go:216-228 | the last event is the one emitted, at the sample's time and percentage, and the last plan the one made, by name |
| BatteryEvents.PlansAreRateBounded | internal/safety/controller.go:289-296 | a plan is made exactly with a CRITICAL of an enabled shutdown that is forced, uncooled, or a cooldown after the plan before it |
| BatteryEvents.FirstPlan | internal/safety/controller.go:331-336 | with no plan before, no cooldown applies |
| BatteryEvents.PlanMeansEveryAdapterOffline | internal/safety/controller.go:262-298 | with require_ac_loss, a plan from a classified scan means at least one adapter, all readable and offline |
| BatteryEvents.UnplannedCriticalIsNeverPlanned | internal/safety/controller.go:285-302 | a CRITICAL that was not planned for is not planned for later in its episode, while the state is SHUTDOWN_PENDING |
| BatteryEvents.CooldownSwallowsAPlan | internal/safety/controller.go:285-302 | a run whose second CRITICAL is not planned for, neither then nor ever so long after |
| BatteryEvents.LatchOrderNeedsOrderedThresholds | internal/safety/controller.go:315-329 | a configuration keeps shutdown, critical and warning latches in order exactly when its thresholds are, or its minimum hides the difference |
| BatteryEvents.LatchesStayInOrder | internal/safety/controller.go:249-329 | under normalized configurations the latches stay in order over every run without a simulated warning |
| BatteryEvents.SimulatedWarningDisordersLatches | internal/safety/controller.go:396-404 | the release of a simulated warning leaves the latches out of order exactly when a CRITICAL stands |
| BatteryEvents.SimulationEmitsItsEvent | internal/safety/controller.go:380-416 | whatever comes between its release and its tick, a simulation emits its event exactly when no event intervened unreleased and its sample is in the event's band of the configuration the tick reads; a critical one plans whatever the cooldown |
| BatteryEvents.SimulatedSampleByName | internal/safety/controller.go:380-415 | what the made-up sample reads |
| BatteryEvents.SimulatedSampleIsInBand | internal/safety/controller.go:380-415 | on an unchanged configuration the made-up sample is in its band unless the minimum hides it or the thresholds are out of order |
| ActionGuard.ActionGuard.Begin | internal/api/actions.go:105-124 | the verdict on a request and the state it leaves |
| ActionGuard.ActionGuard.End | internal/api/actions.go:126-135 | only a success is remembered, with the time it began and its key |
| ActionGuard.ActionGuard.Status | internal/api/actions.go:137-153 | the read-only view of the cooldown |
| ActionGuard.StatusAgreesWithEnforcement | internal/api/actions.go:178-204 | ready exactly when no gate is listed, and exactly when a request would run, confirmation being required as in every normalized configuration |
| ActionGuard.SecondsRemainingRoundDown | internal/api/actions.go:137-153 | waiting the reported seconds is enough exactly when no part of a second was dropped, and one more always is |
| GuardProtocol.AtMostOneInFlight | internal/api/actions.go:105-135 | in every interleaving at most one action is in flight, and the guard's flag says so |
| GuardProtocol.ActionsNeverOverlap | internal/api/actions.go:274-282 | another action's start or host call comes after the end of the action before |
| GuardProtocol.NextSuccessIsSpaced | internal/api/actions.go:114-120 | a success began at least its own cooldown after the success before it |
| GuardProtocol.AnyTwoSuccessesAreSpaced | internal/api/actions.go:114-133 | so did any later success, when the successes after the first have positive cooldowns |
| GuardProtocol.PublishedSuccessesAreSpaced | internal/api/actions.go:114-133 | so did any later success, when every request is checked against a normalized configuration |
| GuardProtocol.NoKeyLingers | internal/api/actions.go:126-135 | whenever no action is in flight no key is pending |
| GuardProtocol.OnlySuccessesAreRemembered | internal/api/actions.go:126-135 | failures change neither the last time nor the last key |
| GuardProtocol.WorkFollowsThePlan | internal/api/actions.go:219-308 | every host call is the next action of its plan after all the earlier ones succeeded, a success made the whole plan, and a real call had real actions on in the configuration checked and in the one its executor was chosen by |
| GuardReports.ManualActionsInOrder | internal/api/actions.go:219-236 | a power-off stops the containers if so configured, then syncs, then powers off; a drain stops the containers; each call after good ones, and a success did all |
| GuardReports.VerdictsFollowTheHistory | internal/api/actions.go:105-124 | a request begins exactly when no action is in progress and the last success began its cooldown ago, and otherwise is refused as a duplicate, in flight or cooling down by the key and action in its way |
| GuardReports.RequestsAreGated | internal/api/actions.go:310-328 | a request is checked on exactly when real actions are on and the battery is the source and discharging, and otherwise refused by the first reason |
| GuardReports.AnswerIsTrueExactlyWhen | internal/api/actions.go:274-307 | the answer that commands were executed is true of the real host calls exactly when a success had real actions on in the configuration its executor was chosen by, and a failure came at the first call |
| GuardReports.SwitchedOffDrainIsAnswered | internal/api/actions.go:303-307 | a run answered as executed that made no real call |
| GuardReports.FailedPowerOffIsNotAnswered | internal/api/actions.go:294-302 | a run answered as not executed that stopped the containers |
| GuardProtocol.DryRunNeverBegins | internal/api/actions.go:268-272 | while every configuration read keeps real actions off, no manual action begins |
| Settings.NormalizeServices | internal/config/settings.go:325-345 | the known services, each at its first mention, in order, or ntfy |
| Settings.NormalizeDrain | internal/config/settings.go:295-323 | the rewriting of the drain settings, or their refusal |
| Settings.DistinctServices | internal/config/settings.go:325-340 | exactly the known names mentioned, without repeats |
| Settings.NormalizationIdempotentAndSane | internal/config/config.go:308-356 | normalizing twice is normalizing once, and the result is within every bound the controllers assume |
| Settings.PatchSections | internal/api/config.go:39-83 | the chained section updates, refused when any section is |
| SettingsUpdates.UpdateTakesEveryField | internal/config/settings.go:412-514 | after an accepted request every field given has the given value or its normal form, and every other field its published value |
| SettingsUpdates.NotificationsFields | internal/config/settings.go:412-437 | the notification fields: folded provider, kept blank or redacted secrets |
| SettingsUpdates.ShutdownFields | internal/config/settings.go:439-454 | the shutdown fields |
| SettingsUpdates.DockerFields | internal/config/settings.go:456-468 | the container fields |
| SettingsUpdates.SafetyFields | internal/config/settings.go:470-488 | the safety fields |
| SettingsUpdates.DrainFields | internal/config/settings.go:490-514 | the drain fields, with 0 for their defaults |
| SettingsUpdates.ActionsFields | internal/config/actions.go:51-72 | the action fields, confirmation always required and paths kept |
| SettingsUpdates.NotificationsAccepted | internal/config/settings.go:227-262 | exactly when a notifications update is accepted |
| SettingsUpdates.ShutdownAccepted | internal/config/settings.go:265-276 | exactly when a shutdown update is accepted |
| SettingsUpdates.DockerAccepted | internal/config/settings.go:278-283 | exactly when a container update is accepted |
| SettingsUpdates.SafetyAccepted | internal/config/settings.go:285-293 | exactly when a safety update is accepted |
| SettingsUpdates.DrainAccepted | internal/config/settings.go:295-323 | exactly when a drain update is accepted |
| SettingsUpdates.ActionsAccepted | internal/config/actions.go:47-74 | exactly when an actions update is accepted; one that gives a path is refused |
| SettingsUpdates.GeneralAndAuthForms | internal/config/config.go:308-356 | the normal forms of the settings that no request changes |
| SettingsUpdates.ServicesKeepTheirOrder | internal/config/settings.go:325-345 | the services stand in the order of their first mentions |
| SettingsUpdates.ServicesAreTheKnownOnes | internal/config/settings.go:325-345 | they are exactly the known ones mentioned, or ntfy alone when none is |
| SettingsUpdates.DryRunStays | internal/api/config.go:60-66 | once an accepted request sets dry run it stays set until an accepted request unsets it |
| DryRun.NoManualActionBegins | internal/api/actions.go:268-272 | and until then no manual action begins on the configurations published |
| DryRun.NoRealDrainCall | internal/safety/auto_drain.go:417-439 | nor does auto-drain make a real call, but for a sequence that was on its way with the real executor |
| Settings.Server.PutConfig | internal/api/config.go:164-189 | an accepted request publishes exactly the patched sections, and a refused one nothing |
| Settings.UpdatedIsNormalized | internal/api/config.go:168-174 | the normalization that ends an update refuses and rewrites nothing |
| Settings.EveryPublishedConfigIsSane | internal/api/config.go:164-189 | every configuration ever published from a normalized start is normalized and sane |
| HostExecutor.StopDocker | internal/actions/real.go:13-43 | with the configured docker or an absolute one found, the trace is the listing and then a prefix of the stops of exactly the valid ids in order, all on success, and no stop is refused; without a docker nothing is handed over |
| HostExecutor.DrainSucceedsExactlyWhen | internal/actions/real.go:23-42 | a drain succeeds exactly when the listing and the stop of every listed id do, in time |
| HostExecutor.DrainEndsAtFirstTrouble | internal/actions/real.go:27-42 | otherwise it ends at the first id whose time is over, before its stop, or whose stop failed, after it |
| HostExecutor.StopAll | internal/actions/real.go:27-42 | where and why the stops end |
| HostExecutor.ParseContainerIDs | internal/actions/real.go:124-137 | the valid ids, trimmed, in the order of the lines |
| HostExecutor.IDsKeepTheirOrder | internal/actions/real.go:124-137 | the ids of two listings in a row are those of the first and then those of the second |
| HostExecutor.IDsAreHex | internal/actions/exec.go:121-133 | a valid id is 12 to 64 hexadecimal digits, once trimmed |
| Text.LinesRoundTrip | internal/actions/real.go:126-126 | the lines hold no line break and joined again are the output |
| HostExecutor.TraceIsAdmitted | internal/actions/real.go:23-40 | every argument vector of a drain is one the runner admits: the listing first, then the stops of listed ids |
| HostExecutor.OnlyKnownCommandsRun | internal/actions/exec.go:85-119 | an admitted argument vector is an absolute path without shell characters or blanks, to one of four commands with one of its argument lists |
| HostExecutor.ParsedIDsAreAccepted | internal/actions/exec.go:85-135 | once the listing is accepted, the stop of a parsed id is |
| HostExecutor.ListedStopsAreAdmitted | internal/actions/real.go:27-40 | so every stop of a listed id is let through |
| HostExecutor.ConfiguredDockerRunsUnlessSpaced | internal/config/actions.go:76-93 | a docker path that the settings accept runs exactly when it has no space or tab |
| HostExecutor.ConfiguredSyncRunsUnlessSpaced | internal/actions/real.go:89-94 | so does a sync path |
| HostExecutor.ConfiguredPowerOffRunsUnlessSpacedOrSlashed | internal/actions/real.go:96-122 | a power-off path that the settings accept runs exactly when it has no space or tab and no trailing slash |
| HostExecutor.SpacedDockerIsAcceptedAndRefused | internal/config/actions.go:76-93 | every docker under a directory with a space or tab in its name is accepted and never runs |
| HostExecutor.SlashedPowerOffIsAcceptedAndRefused | internal/config/actions.go:76-93 | every poweroff with a trailing slash is accepted and never runs |
| Delivery.Limiter.Allow | internal/notify/ratelimit.go:30-42 | one request to the limiter |
| Delivery.GrantsAreSpaced | internal/notify/ratelimit.go:30-42 | two grants to one key are a cooldown apart, whatever the clock |
| Delivery.GrantedExactlyWhenDue | internal/notify/ratelimit.go:30-42 | a request with a key is granted exactly when the last grant to that key, if any, is the cooldown ago |
| Delivery.KeysAreIndependent | internal/notify/ratelimit.go:37-41 | what is granted to a key does not depend on other keys |
| Delivery.WithRetry | internal/notify/retry.go:19-70 | at most max(1, attempts) calls, past retryable failures only, how it ends, and how long it waited by then |
| Delivery.RetryableByName | internal/notify/retry.go:50-70 | deadlines, 429, 5xx and network failures are worth another try, and nothing else |
| RuntimeLabel.LabelIsAccurate | internal/battery/compute.go:243-274 | the label is within 30 seconds below a day and 30 minutes above |
| RuntimeLabel.LabelPartsAreInRange | internal/battery/compute.go:255-273 | no label carries 60 minutes beside hours or 24 hours beside days |
| RuntimeLabel.LabelUnits | internal/battery/compute.go:243-274 | no estimate exactly when unavailable or not positive; minutes below an hour, hours below a day, days above |
| RuntimeLabel.LabelIsMonotone | internal/battery/compute.go:243-274 | more seconds never give a label that stands for less |

## Left out

- HTTP routing, JSON decoding, authentication, audit records and log messages: plumbing. Reason strings and the view fields of the snapshots, which nothing decides on.
- The notifier, the battery and sysfs reads, the clock and the file system: their outcomes are parameters of the steps.
- Go's integer widths and the saturation of `Duration`: times and seconds are unbounded integers. Normalized settings keep every product far below the limits.
- The zero instant as a clock reading: clocks are taken to read later than it.
- Auto-drain and manual actions excluding each other: they do not, since auto-drain does not pass the guard.
- `Respond` with an action other than yes or no, refused before the mutex is taken.
- AutoDrain.AutoDrain.TickLocked: `Tick`, `Respond` and `execute` are cut at their unlocks, and how the pieces follow one another is in `DrainProtocol.Next`.
- Controller.Controller.Simulate: states the two locked regions with no tick of another goroutine between them; runs with polls between are in `BatteryEvents.SimulationEmitsItsEvent`.
- Executors injected by tests; the two executors are the recording one, which never fails, and the real one.
- Settings.NormalizationIdempotentAndSane: a URL carries the library parser's verdict; settings that normalization does not touch (listen address, paths, logging) are not part of the model.
- Lower-casing is kept to the characters whose lower case is an ASCII letter; the others cannot make a string equal an ASCII name.
- HostExecutor.StopDocker: takes what the executable search found as an input; error texts are not modelled.
- The text of the runtime label: the model keeps its numbers and units.
- Floating-point telemetry, charge thresholds, discovery, storage and the mock provider.
