# Tenderduty alert engine: a verified model

Tenderduty watches Cosmos validators and tells people when something is wrong. This project
models the part that decides *what is active* and *who is told*: raising and resolving alarms,
the per-channel notification gate, silencing, escalation, digests, saving and restoring, and the
evaluators, pollers and counters that feed them, together with the encrypted configuration file,
denomination conversion and configuration defaulting. `dafny verify dfyconfig.toml`
checks the whole project.

## How it is built

State that the program updates in place is a class whose methods are proved equal to a function
of the old state (`AlarmCache`, `Config`, `Dispatcher`, `Digester`, `SignStats`, `Poller`,
`Evaluator`, `NodeConfig`, `Monitor`); loops carry the invariants that tie them to those
functions. Whole-run statements are then lemmas over sequences of those functions.

Time is an integer number of nanoseconds that the caller passes in. Sending is appending to a
log (`outbox`, `alertChan`). A region under one lock is one step; in the escalation sweep the lock
boundaries are the subject, so there each region is a step of its own. Messages are compared by
id, chain, severity and resolved flag (`Note`), because building a Slack message rewrites the text
of a resolution for every channel that comes after it.

| file | what it models |
|---|---|
| AlertTypes, Notify | records, severities, `shouldNotify` and runs of it |
| Engine | `buildAlertMsg`, `alert`, silencing |
| Dispatch, Agreement, Paging | the dispatch loop; AllAlarms against the sent maps over whole runs; PagerDuty's own case |
| Digest, Summary | batching against immediate sending; the digest text |
| Outbound | what is sent and buffered over runs, told from the history of messages |
| Escalation, Interleaving | one sweep; any number of sweeps interleaved at lock boundaries |
| Restart | saving and restoring alarms, silence windows and node health |
| Evaluators, NodeHealth | threshold evaluators; probes and node alarms |
| EndToEnd | from an evaluator's condition to what a channel holds |
| Blocks | vote and block aggregation |
| Decimal, GovernanceId, GovernancePoll, GovernanceAlerts | numerals, alarm ids, polling, reconciliation |
| Base64, Encryption | the encrypted configuration file |
| Denomination, Defaults | fixed-point conversion; configuration defaulting |
| Wrappers | the Option datatype |

## What the proofs found

Each of these is a lemma: a condition that holds exactly when the program does what is intended,
or an input for which it does not.

- A resolution during silence, and `clearAll`, take an alarm off AllAlarms and tell no channel.
  On every channel but PagerDuty the stores agree after the queue drains if and only if nothing was
  dropped like that since the id's last dispatched message (`DrainedChannelMatchesAllAlarms`,
  `DrainedChannelIsAllAlarms`), and no active alarm is ever missing from such a channel.
- PagerDuty can miss an active alarm for good. A firing delivered within five minutes of the last
  page is withheld without being recorded, and since the alarm is active no evaluation raises it
  again: a second outage soon after a first one goes unpaged (`SecondOutageGoesUnpaged`). PagerDuty
  agrees with AllAlarms exactly when the run is settled and the last message delivered for the id
  was not withheld, or neither holds (`DrainedPagerMatchesAllAlarms`).
- Each message is handled in its own goroutine. Delivered in another order, the pending messages
  leave a channel as the raised order would if and only if the last message for the id is of the
  same kind in both (`DeliveryOrderDecides`); a resolution that overtakes its firing leaves the
  channel holding a resolved id (`OvertakenResolutionSticks`).
- An escalation can hit an alarm that has only just been raised: the second lock checks that an
  entry with the key exists and is unmarked, not that it is the entry the scan saw
  (`StaleScanEscalatesFreshAlarm`). It hits one that is not due exactly when the key was written
  between scan and mark (`MarksAreDueUnlessWritten`).
- A sweep sends its message some time after its mark, so a delayed send and the send of the next
  sweep can fall between the same two writes of a key (`TwoMessagesAfterOneWrite`). Between any two
  points of a run the messages sent are the marks made and the messages owed at the first point,
  less those owed at the second; where nothing is written there is at most one mark, and so at most
  one message if none was owed (`MessagesBetween`). In total there is at most one message for each
  write, and one for an alarm there at the start (`OneMessagePerWrite`).
- Nothing resolves the derived `_escalated` ids. An escalation is let through on a channel exactly
  if the channel did not hold its id at the start and none for the same alarm id has been sent
  there before (`HeardOnlyTheFirstTime`), so when an alarm resolves, fires again and is escalated
  again, no channel hears of it (`SecondEscalationIsUnheard`).
- A proposals reply that does not decode returns an empty list and no error, because `err` is
  shadowed. If votes stay cast and the proposal is open over one stretch, it is unvoted over more
  than one interval exactly when such a reply comes while it is unvoted and a later reply still
  says it is not voted on (`FlapsOnlyIfBlankedOut`); then, with a pass after every poll, and only
  then, it fires more than once (`FiresOnceUnlessBlankedOut`).
- A legacy governance id is misread exactly if the address ends in a segment that is a uint64
  numeral and the proposal number fits an int64 (`LegacyIdParses`).
- Messages for two Telegram bots can share a bucket exactly when one bot key, with a `|` after it,
  begins the other with a `|` after it (`SharedBucketExactly`, `KeysTellApartExactly`).
- The encrypted configuration comes back exactly if the tag does not end in a zero byte and the
  salt is not all zero (`DecryptInvertsEncrypt`). The loop that drops the decoder's spare bytes
  also drops a zero at the end of the tag.
- A file makes decryption panic, instead of failing, exactly when it decodes and what is left
  without trailing zeros is empty, or is shorter than a tag although the keys derive, or ends in
  the right tag without holding salt, iv and whole blocks before it (`PanicsExactly`; files of zero
  bytes and short files padded with them are the families `ZeroFilePanics` and `ShortFilePanics`).
- While a node stays down, its alarm is active exactly if it was and was not cleared, or the node
  has no recovery left to evaluate and an unsilenced pass came after the minutes were over
  (`OutageIsReported`; `LagIsReported` for lagging). A restored node always has a recovery left to
  evaluate, so it raises no alarm while it stays down or lagging, even if it had not been so long
  enough for one before the restart (`RestartLosesOutage`, `RestoredLaggingNodeStaysQuiet`). The
  comment at td2/types.go:813-814 says the restore is there to keep the debounce timer; the
  restored `wasLagging` switches the alarm off instead. An alarm whose recovery was recorded but
  not yet evaluated when the process stopped is restored with nothing left to resolve it
  (`StrandedDownAlarm`): after the restart, an answered probe and a pass, a carried-over alarm is
  active exactly if its node was not on record as down, or lagging, and it has not been cleared
  (`CarriedDownAlarmClears`, `CarriedLagAlarmClears`).
- Looking for a working endpoint marks a node down without ending its lagging. A node is down and
  lagging at once exactly if such a mark came while it was lagging and no probe has come since
  (`BothStatesExactly`), and after a pass it holds both alarms exactly if, besides, both are due
  from that mark on (`BothAlarmsExactly`).

## Model

| member | source | states |
|---|---|---|
| AlertTypes.Severities | td2/types.go:38-53 | nothing but critical, warning and info passes; critical always, warning unless the threshold is critical; info unless it is critical or warning; case does not matter and an unknown threshold admits all three |
| AlertTypes.ThresholdsIgnoreCase | td2/types.go:38-53 | a threshold admits the same severities in any mix of cases; what each of its three words admits |
| Notify.AlarmCache.ShouldNotify | td2/alert.go:145-235 | the answer and the whole new cache, for every channel, as the verdict and effect that the run lemmas below are about |
| Notify.AlarmCache.DetectFlap | td2/alert.go:212-226 | a PagerDuty firing is suppressed iff one was remembered for the chain and id in the last five minutes; one let through is remembered |
| Notify.AlarmCache.ClearAll | td2/alert.go:113-120 | the chain has no entry afterwards; no other chain and no sent map changes |
| Notify.AlarmCache.Exist | td2/alert.go:122-131 | true iff the chain has an entry with the id |
| Notify.AlarmCache.GetCount | td2/alert.go:104-111 | the number of ids active on the chain, 0 for an unknown one |
| Notify.NotificationsAreBracketed | td2/alert.go:183-235 | from any cache and over any calls: approvals per channel and id alternate firing and resolution, beginning according to what the channel held; the only others are governance reminders, each more than the configured hours after the approval before it; the sent maps remember exactly the last approval |
| Notify.ApprovedExactlyWhenDue | td2/alert.go:145-235 | after any calls, a message is let through iff its severity is admitted and: a resolution, if the channel holds the id by the history of approvals; a repeated firing, if it is a governance id last approved more than the configured hours ago; a new firing, unless it is for PagerDuty and paged within five minutes |
| Notify.ApprovalsAreWhatIsDue | td2/alert.go:145-235 | over any calls, from any cache, the approvals are exactly the messages that are due by that rule when they come, told from the approvals before them alone |
| Notify.MemoryIsLastPage | td2/alert.go:216-226 | flap detection remembers exactly the last PagerDuty firing of each chain and id |
| Notify.PagerDutyDoesNotFlap | td2/alert.go:212-226 | within a process any two PagerDuty firings of a chain and id are at least five minutes apart, on any clock |
| Notify.BracketStep | td2/alert.go:183-235 | one call keeps every approval so far, and its own, bracketed |
| Engine.Config.Build | td2/alert.go:771-807 | no message iff the chain is not configured; a channel is on iff defaults and chain both enable it |
| Engine.Config.File | td2/alert.go:845-867 | under the lock: a resolution removes the id if it is recorded, a silenced firing leaves no record, any other firing overwrites the entry and clears its escalation mark |
| Engine.Config.Alert | td2/alert.go:830-868 | AllAlarms and the alert channel together, for known and unknown chains, silenced or not |
| Engine.RaiseEffect | td2/alert.go:830-868 | raising one alert changes the presence of its own id only, leaves other entries and chains alone, and queues one message of its kind iff the chain is not silenced |
| Engine.RaiseRecords | td2/alert.go:830-868 | the whole record and the whole message: a firing leaves a fresh, unescalated record of its text and severity, a resolution none, a silenced firing the old one; unless silenced, exactly one message is queued, with this id, severity, flag, text and the configuration of the chain, for exactly the channels that defaults and chain both enable; for an unknown chain nothing happens |
| Engine.ChainConfig.SilenceStatus | td2/types.go:284-290 | silenced iff a window is set whose end lies in a later whole second |
| Engine.Config.SilenceChain | td2/silence.go:17-31 | refused outside 1 to 1440 minutes or for an unknown chain, changing nothing; otherwise that chain and no other is silenced at exactly the instants in whole seconds before the end |
| Engine.Config.UnsilenceChain | td2/silence.go:34-44 | afterwards the chain is silenced at no instant; other chains keep their windows |
| Dispatch.Dispatcher.NotifyOn | td2/alert.go:237-487 | gate first, then the example-key and disable-resolve filters: the cache changes even for a filtered message, the request goes out iff gate and filters pass (what that means over a run is `Outbound.SentExactlyWhenDue`), and Slack rewrites the text of a resolution |
| Dispatch.Dispatcher.Dispatch | td2/run.go:52-73 | all five channels in order, each seeing what the one before left; over runs this is what the Outbound lemmas are about |
| Dispatch.ChannelsAreIndependent | td2/run.go:52-73 | through any list of distinct channels, each of the five sent maps and the flap memory end as the one gate that writes them alone would leave them, and AllAlarms is untouched |
| Dispatch.TextIsIrrelevant | td2/alert.go:280-297 | the rewritten text of a resolution reaches no sent map |
| Agreement.AgreementStep | td2/alert.go:830-868 | one step, for a channel without flap detection: an active alarm is always known to the channel once its messages are in; the stores agree afterwards iff the step dispatched a message for the id, or they agreed and it did not drop the alarm silently |
| Agreement.StoresAgree | td2/alert.go:830-868 | over every run of raises, in-order deliveries, silences and clearAll, for a channel without flap detection: no active alarm is missed, and the stores agree iff the run is settled for the id |
| Agreement.DrainingDecides | td2/alert.go:145-235 | for a channel without flap detection: delivering all pending messages, at any times, leaves the id held iff the last pending message for it is a firing, or it was held and none is pending |
| Agreement.DrainedChannelMatchesAllAlarms | td2/alert.go:145-235 | for an enabled non-PagerDuty channel whose threshold admits the severities: after draining, the channel holds every active id, and holds exactly what AllAlarms holds iff the run is settled |
| Agreement.DrainedChannelIsAllAlarms | td2/alert.go:145-235 | with ids belonging to one chain each and every id settled, the drained channel holds exactly the ids active on any chain |
| Agreement.QuietRunsAreSettled | td2/alert.go:838-855 | every run without silence and clearAll is settled |
| Agreement.DeliveryOrderDecides | td2/run.go:52-77 | for every order in which the pending messages can be delivered: what the channel ends up holding, and it agrees with AllAlarms as the raised order would iff the last message for the id is of the same kind in both orders |
| Agreement.OvertakenResolutionSticks | td2/run.go:55-77 | a firing and its resolution: delivered in order the id ends cleared, in reverse it ends held |
| Paging.OnePage | td2/alert.go:183-235 | after delivering an admitted message PagerDuty holds the id iff it is a firing and the id was held or not paged within five minutes |
| Paging.PagerDrainingDecides | td2/alert.go:183-235 | after any deliveries PagerDuty holds the id iff the last message for it is a firing that found the id held or not paged within five minutes; with none, iff it held it before |
| Paging.PagerKnows | td2/alert.go:145-235 | over every run: an active alarm is held or was withheld by flap detection, and the stores agree on all but what was withheld iff the run is settled |
| Paging.PagerMatchesAllAlarms | td2/alert.go:145-235 | when nothing is pending, PagerDuty and AllAlarms agree about the id iff (the run is settled iff the last message delivered for it was not withheld); an active alarm it does not hold was withheld |
| Paging.DrainedPagerMatchesAllAlarms | td2/alert.go:145-235 | the same after draining any run at any times |
| Paging.SecondOutageGoesUnpaged | td2/alert.go:216-219 | an outage that begins within five minutes of the page for the one before: its page is withheld, nothing is pending, the alarm is active, and no evaluation that still finds the condition raises it again |
| Digest.Digester.Enqueue | td2/digest.go:43-64 | the gates run once per wanted channel; every bucket grows by exactly the approved, unfiltered message, under its own address key (over a run: `Outbound.BufferedExactlyWhenDue`) |
| Digest.Digester.SendAll | td2/digest.go:93-112 | one batch for each non-empty bucket, holding all that is in it and addressed to its first message; no two batches for one bucket, none for an empty one or another channel |
| Digest.Digester.Flush | td2/digest.go:84-113 | all buffers end empty; among the batches a flush adds no two share channel and key, each holds the whole bucket that was buffered and goes to the address of its first message, and every non-empty bucket has one; sent plus pending is unchanged for every destination |
| Digest.DispatchBatched | td2/run.go:55-63 | PagerDuty at once and never batched, then every other channel through the digester |
| Digest.DigestRefinesImmediate | td2/digest.go:43-113 | for every interleaving of messages and flushes from any cache: per destination, flushed then pending messages are in order exactly what immediate mode sends, and both modes end with the same cache |
| Digest.BucketsAreAddresses | td2/digest.go:47-64 | two messages share a bucket iff they share an address, on Telegram if their bot keys do not overlap |
| Digest.SharedBucketExactly | td2/digest.go:50-53 | two bot keys can share a bucket, for some channels, iff they are equal or one with the separator begins the other with the separator |
| Digest.KeysTellApartExactly | td2/digest.go:50-53 | buckets tell the addresses of two bots apart, whatever their channels, iff their keys do not overlap |
| Digest.PlainKeysDoNotOverlap | td2/digest.go:50-53 | keys without the separator do not overlap |
| Digest.BatchesReachEveryAddress | td2/digest.go:84-113 | over every run, any two messages batched together have the same address, on Telegram if their bot keys do not overlap |
| Digest.SeparatorInKeyMergesBuckets | td2/digest.go:50-53 | a smallest overlapping pair of keys, with two addresses in one bucket |
| Outbound.SentExactlyWhenDue | td2/alert.go:237-487 | over every run of immediate mode from any cache, the requests sent on each channel are, in order, one for each message that wants the channel and is due on it by the history, but for the example key of PagerDuty and resolutions declined by a webhook, each with its id, chain, severity and flag and to the address its configuration names |
| Outbound.BufferedExactlyWhenDue | td2/digest.go:43-113 | over every run of digest mode, with flushes anywhere: what a bucket has sent and holds is, in order, exactly the messages that are due on its channel to an address with its key |
| Outbound.EscalationIsHeard | td2/escalation.go:60-85 | after any run, delivering an escalation sends it to the address the chain names, on every channel other than PagerDuty that defaults and chain both enable, iff the channel does not hold the derived id (or a governance reminder of it is due) |
| Outbound.EscalationIsBuffered | td2/escalation.go:60-85 | the same in digest mode: it joins the bucket of that address |
| Summary.DigestSummary | td2/alert.go:530-568 | the lines and both counts; firing and resolved counts sum to the input length |
| Summary.ChainOrder | td2/alert.go:534-543 | the chains shown are exactly those that occur, each once, in order of first message |
| Summary.SectionOrder | td2/alert.go:555-566 | within a chain all firing messages come before all resolved ones, each kind in input order |
| Summary.SectionLines | td2/alert.go:555-566 | the lines of a chain by position: its firing header over its firing messages, its resolved header over its resolved ones, and no header over none |
| Summary.LayoutOfBoth | td2/alert.go:554-567 | the sections stand one after the other in the order of the chains |
| Summary.SelectOfBoth | td2/alert.go:537-551 | the messages of a chain and kind keep the order of the input |
| Summary.FiringIsCounted | td2/alert.go:544-550 | the firing count is the number of positions with an unresolved message |
| Summary.SummaryConserves | td2/alert.go:530-568 | every message is shown exactly as often as it occurs |
| Escalation.Scan | td2/escalation.go:40-47 | the candidates are exactly the critical, unescalated entries at least the threshold old, each once |
| Escalation.EscalationIsAddressed | td2/escalation.go:60-67 | the message for a candidate of a known chain is critical and firing, has the derived id and the text, carries the configuration of the chain, and wants every channel other than PagerDuty iff defaults and chain both enable it |
| Escalation.Escalate | td2/escalation.go:49-85 | one candidate: skipped on an unknown or silenced chain or if gone or already marked, else marked, and a message queued that is critical and firing under the derived id, carries the configuration of the chain, and wants exactly the channels other than PagerDuty that defaults and chain enable |
| Escalation.CheckEscalations | td2/escalation.go:36-87 | an uninterrupted sweep marks exactly the keys it sends for, in their order, and leaves every other entry as it was; it queues one such addressed message for each of them and nothing else |
| Escalation.SweepIsExact | td2/escalation.go:36-87 | those keys are exactly the due ones on a known chain that is not silenced, each once |
| Escalation.SecondSweepIsSilent | td2/escalation.go:36-87 | an immediate second sweep sends nothing; a key passed over stays due at every later instant |
| Escalation.EscalationsOfOneAlarmNotifyOnce | td2/escalation.go:60-67 | an upper bound for every channel, PagerDuty included: with the derived id never resolved, at most one approval of it, and none if the channel already holds it |
| Escalation.HoldsOnceTried | td2/escalation.go:60-67 | while only escalations are sent under a derived id, a channel holds it iff it did at the start or has been sent one |
| Escalation.HeardOnlyTheFirstTime | td2/escalation.go:60-67 | an escalation is let through on a channel iff the channel did not hold its id at the start and no escalation of the same alarm id has been sent there before |
| Escalation.SecondEscalationIsUnheard | td2/escalation.go:60-67 | an alarm fires, is escalated, resolves, fires again and is escalated again: every message is let through but the last |
| Interleaving.EscalatesOncePerWrite | td2/escalation.go:69-80 | under every interleaving of sweeps with writes, resolutions and clearAll: between two marks of a key there is a firing write of it |
| Interleaving.EscalationsAnswerScans | td2/escalation.go:36-87 | every mark follows a scan by the same sweep that saw the key critical, unescalated and old enough; every message has the derived id, is critical, firing and not for PagerDuty |
| Interleaving.EscalationsFollowLookups | td2/escalation.go:49-67 | under every interleaving, every mark and every message follows a lookup by the same sweep that found the chain configured and not silenced, and the message is addressed by the configuration found there |
| Interleaving.OneMessagePerMark | td2/escalation.go:69-85 | each sweep sends one message for each of its marks and none without one |
| Interleaving.OneMessagePerWrite | td2/escalation.go:69-85 | over all sweeps: messages for a key never exceed its marks, nor those its firing writes, plus one for an alarm there at the start |
| Interleaving.MessagesBetween | td2/escalation.go:69-85 | between any two points of a run: messages sent equal marks made plus messages owed at the first point less those owed at the second; with the key not written in between, at most one mark, and when at most one message |
| Interleaving.OneMarkUnwritten | td2/escalation.go:69-80 | where marks have writes between them and nothing is written, at most one mark, and one iff there is a mark at all |
| Interleaving.TwoMessagesAfterOneWrite | td2/escalation.go:79-85 | a run, with its two sweeps one after the other, in which two messages for a key are sent with no write between them |
| Interleaving.UnwrittenMarksAreDue | td2/escalation.go:69-80 | a mark with no write of the key since the scan marks the very entry the scan saw |
| Interleaving.MarksAreDueUnlessWritten | td2/escalation.go:69-80 | with firings stamped no earlier than the scans before them and a positive threshold: a mark hits an entry that was due at its scan iff the key was not written between scan and mark |
| Interleaving.StaleScanEscalatesFreshAlarm | td2/escalation.go:69-80 | a run in which an alarm, critical throughout, is resolved and raised afresh between scan and mark, and is escalated at the moment it is raised |
| Restart.ClearStale | td2/types.go:888-900 | keeps exactly the records younger than 24 hours (86400 seconds), unchanged |
| Restart.RestoreAlarms | td2/types.go:752-780 | every map the file holds replaces the current one without its stale records, escalation marks included; a missing one leaves it; the flap memory is not restored |
| Restart.SaveAndRestore | td2/run.go:208-214 | save then load leaves in each sent map and in AllAlarms exactly the records younger than 24 hours at load |
| Restart.RestartIsTransparent | td2/types.go:752-780 | the gate decides a message as before iff it is not admitted anyway, or its record is young, or it has none and is not a firing that flap detection held back |
| Restart.FirstApprovalAfterRestart | td2/types.go:752-780 | over every run after a restart, the first approval of an id on a channel is a new firing iff the channel had no record of it younger than 24 hours |
| Restart.RestartKeepsAgreement | td2/types.go:752-780 | a channel that agreed with AllAlarms still does iff no id has one record younger and one older than 24 hours |
| Restart.SaveSilences | td2/run.go:201-207 | exactly the windows that end in a later second are saved |
| Restart.RestoreSilences | td2/types.go:833-842 | a saved window still to come is stored if its chain is configured; nothing else changes |
| Restart.SilenceSurvivesRestart | td2/types.go:833-842 | at every instant from the load on, silence is as if there had been no restart |
| Restart.CarrySilences | td2/run.go:201-207 | both halves together, for every chain still configured |
| Restart.SaveNodes | td2/run.go:183-200 | the address of every failing node, with the time of the last node of that address |
| Restart.RestoreNodes | td2/types.go:782-831 | a node on record with a real time starts failing and marked as having failed; noNodes is set iff node records exist and leave all nodes down |
| Restart.SaveAndRestoreNodes | td2/types.go:782-831 | each node of the next process is restored from the last failing node of its address that has a real time; all count as down iff every address is so on record |
| Restart.OwnAddress | td2/types.go:782-831 | a node whose address is its own is restored from its own record |
| Restart.RestartKeepsCoherent | td2/types.go:782-831 | a restart keeps the invariant between node and alarms iff no carried-over alarm belongs to a node that has already recovered |
| Restart.StrandedDownAlarm | td2/types.go:782-799 | an alarm carried over by a node that is up stays through any answered probes and passes, until clearAll and no longer |
| Restart.CarriedDownAlarmClears | td2/types.go:782-799 | after the restart, one answered probe and one pass, while the node answers: its down alarm is active iff it was carried over, the node was not on record as down, and it has not been cleared |
| Restart.CarriedLagAlarmClears | td2/types.go:813-831 | the same for the lagging alarm, while the node is not behind |
| Restart.RestartLosesOutage | td2/types.go:783-799 | the same for a node that is down and not answered |
| Restart.RestoredLaggingNodeStaysQuiet | td2/types.go:813-831 | while a restored node goes on lagging its alarm is active iff it was carried over and not cleared; without the restart also iff it had no recovery left to evaluate and an unsilenced pass came after the minutes were over |
| Evaluators.GuardedSettles | td2/alert.go:870-902 | after a guarded evaluation the alarm is active iff its condition holds and it was active or the chain is not silenced; no other alarm moves |
| Evaluators.Evaluator.EvaluateConsecutiveBlocksMissed | td2/alert.go:870-902 | active afterwards iff the run of misses has reached the limit (and, if silenced, it was active already); alert iff it was inactive and the limit is reached, resolved iff the reverse; then, unless silenced, exactly one message is queued, with this id, severity and flag and for the channels enabled for the chain, and otherwise the queue and AllAlarms do not move |
| Evaluators.Evaluator.EvaluatePercentageBlocksMissed | td2/alert.go:904-935 | the same, queue included, for missed blocks against a percentage of the window, in whole numbers; an empty window fires iff anything was missed |
| Evaluators.Evaluator.EvaluateConsecutiveEmptyBlocks | td2/alert.go:1038-1068 | the same, queue included, for the run of empty proposals |
| Evaluators.Evaluator.EvaluatePercentageEmptyBlocks | td2/alert.go:1070-1115 | the same, queue included, for the share of empty proposals, zero before the first proposal |
| Evaluators.Evaluator.EvaluateStakeChange | td2/alert.go:1189-1235 | the same, queue included, for a relative change of stake, with a limit per direction; nothing happens without two readings or a positive earlier stake |
| Evaluators.Evaluator.EvaluateCommissionChange | td2/alert.go:1237-1270 | the same, queue included, for an absolute change of commission |
| Evaluators.MissAlarmFollowsHistory | td2/alert.go:874-898 | with statistics kept over any history, an unsilenced pass leaves the alarm active iff the run of misses the history ends with has reached the limit |
| Evaluators.RemovalBetweenFirings | td2/alert.go:830-868 | over every run, between two dispatched firings of an alarm it is removed, by clearAll or by an evaluation whose condition is false, which dispatches a resolution unless silenced |
| Evaluators.FiringBetweenResolutions | td2/alert.go:830-868 | between two dispatched resolutions of an alarm a firing of it is dispatched |
| EndToEnd.PassSettles | td2/alert.go:870-902 | raising what a guarded evaluation raises, unsilenced, leaves the alarm active iff its condition holds, and the run settled iff something was raised or it was settled before |
| EndToEnd.ConditionReachesChannel | td2/alert.go:830-902 | after an unsilenced pass and draining, an enabled channel that admits the severity holds the alarm iff its condition holds, iff the pass raised something or the run was settled before; it always holds one whose condition holds |
| EndToEnd.ConditionReachesPager | td2/alert.go:830-902 | the same for PagerDuty, with what flap detection withheld |
| NodeHealth.NodeConfig.Check | td2/rpc.go:155-230 | one probe, whatever it finds: down supersedes lagging, an answer clears down, and a node lags iff a limit is set and its latest block is more than that many minutes old |
| NodeHealth.Monitor.EvaluateRPCNodeDownAlert | td2/alert.go:1117-1151 | the nodes, AllAlarms and the queue after a pass over the nodes in order, each seeing the alarms the ones before it left, also where nodes share an address |
| NodeHealth.Monitor.EvaluateRPCNodeLaggingAlert | td2/alert.go:1153-1187 | the same for lagging |
| NodeHealth.ReportsAreTurns | td2/alert.go:1117-1187 | a pass reports a node iff it raises an inactive alarm whose state has lasted, or resolves an active one whose state is over; and when it forgets a past state |
| NodeHealth.DownPassPerNode | td2/alert.go:1117-1151 | such a pass moves no alarm of another kind and queues nothing but reports of this chain, none in silence; with different addresses each node, its alarm, its record and its messages end as the per-node rule of the run lemmas says; a node nobody wants to hear of is left as it is |
| NodeHealth.LagPassPerNode | td2/alert.go:1153-1187 | the same for lagging |
| NodeHealth.AlarmsExcludeEachOther | td2/rpc.go:154-230 | from a fresh start over every run of probes, marks made while connecting, passes and clearAll, with no such mark on a lagging node: an active down alarm means down or wasDown, and after every pass no node holds both alarms |
| NodeHealth.BothStatesExactly | td2/rpc.go:86-92 | from a fresh start over all runs: a node is down and lagging at once iff it was marked while connecting when it was lagging and has not been probed since; every active alarm is explained by its node |
| NodeHealth.MarkedWhileLagging | td2/rpc.go:86-92 | from such a mark, over every run without a probe, both alarms are active iff each was active and not cleared or became due at a pass |
| NodeHealth.BothAlarmsExactly | td2/rpc.go:86-92 | from a fresh start over every run ending with a pass: the node holds both alarms iff there is such a mark with no probe after it and both alarms are due from there |
| NodeHealth.AnswerThenPassClears | td2/alert.go:1134-1146 | an answered probe and a pass leave no down alarm |
| NodeHealth.OutageIsReported | td2/alert.go:1117-1151 | from any node that is down, over every run without an answered probe: its alarm is active iff it was and was not cleared, or the node alerts, has no recovery left to evaluate, and an unsilenced pass came after the minutes since it went down |
| NodeHealth.LagIsReported | td2/alert.go:1153-1187 | the same for a lagging node, while every probe finds it behind |
| NodeHealth.FailureIsReported | td2/alert.go:1122-1133 | a node that fails with no recovery left to evaluate has its alarm iff it had it or an unsilenced pass came after the minutes |
| NodeHealth.NodeConfig.MarkConnecting | td2/rpc.go:86-92 | marks the node down from now unless it is down, with syncing as found, and leaves lagging and past states as they are |
| NodeHealth.ConnectingBreaksExclusion | td2/rpc.go:86-92 | marking a node while connecting keeps the invariant iff the node is not lagging; a lagging node so marked can hold both alarms after a pass |
| NodeHealth.DownAlarmIsDebounced | td2/alert.go:1122-1133 | a down alarm is raised only if every answered probe is more than the configured minutes ago |
| NodeHealth.RestoredDownNodeStaysQuiet | td2/types.go:782-799 | while a restored node is down its alarm is active iff it was carried over and not cleared |
| Blocks.Find | td2/ws.go:345-355 | true iff the address is among the signatures |
| Blocks.HandleBlock | td2/ws.go:370-393 | the status of a final update, each one iff its condition holds |
| Blocks.HandleVote | td2/ws.go:413-433 | an update iff the vote is ours and its type has a name; the status by type |
| Blocks.SignStats.Update | td2/ws.go:152-211 | one update, with the missed-block name looked up safely |
| Blocks.StatisticsMatchHistory | td2/ws.go:149-211 | over every history of updates, bonding changes and reconnections: each final block records the highest status seen while bonded since the last one, counters count the record, consecutive counters are its trailing runs, the window shows its newest end first |
| Blocks.RecordIsUnique | td2/ws.go:156-166 | that record is determined by the history |
| Blocks.BondedBlocksAreRecorded | td2/ws.go:156-158 | a final update that arrives while bonded records at least its own status |
| Decimal.UintRoundTrip | td2/alert.go:1485-1485 | a printed uint64 parses back |
| Decimal.IntRoundTrip | td2/alert.go:1486-1486 | a printed int64 parses back |
| Decimal.NumeralDigits | td2/alert.go:1427-1435 | a printed number has its base-ten digits, the last one first told, and no leading zero |
| GovernanceId.PrintedIdParses | td2/alert.go:1473-1502 | for every validator string, proposal and deadline, the resolve loop reads both back from a printed id |
| GovernanceId.LegacyIdParses | td2/alert.go:1482-1498 | a legacy id gives its proposal and no deadline iff the last segment of the address is not a uint64 numeral or the proposal exceeds int64; otherwise what it gives instead |
| GovernanceId.PrintedIdsAreInjective | td2/alert.go:1427-1435 | equal ids have equal parts |
| GovernancePoll.Poller.WasPreviouslyUnvoted | td2/provider-default.go:85-92 | true iff the stored list has the proposal |
| GovernancePoll.Poller.QueryUnvotedOpenProposals | td2/provider-default.go:94-152 | no result iff the query fails; an undecodable reply or a bad address gives an empty list; a failed vote check keeps what was known |
| GovernancePoll.Poller.Refresh | td2/validator.go:332-341 | the list is replaced iff the poll gave one |
| GovernancePoll.MemberStep | td2/provider-default.go:118-145 | after a decoded reply a proposal is unvoted iff some listing says so, or some check of it failed and it was unvoted |
| GovernancePoll.KeptInOrder | td2/provider-default.go:118-145 | the unvoted list keeps the order of the reply, and of each listing the whole proposal |
| GovernancePoll.FlapsOnlyIfBlankedOut | td2/provider-default.go:94-152 | with votes that stay and a proposal open over one stretch: it is unvoted over more than one interval iff an undecodable reply comes while it is unvoted and a later reply says it is not voted on |
| GovernancePoll.UnvotedOverOneInterval | td2/provider-default.go:94-152 | with votes that stay and a proposal open over one stretch, under any vote-check failures: unvoted over at most one interval of polls unless blanked out |
| GovernancePoll.UndecodableReplyFlaps | td2/provider-default.go:100-151 | a smallest run that flaps: two equal good replies with an undecodable one between them |
| GovernancePoll.NoAddressNoMembers | td2/provider-default.go:120-124 | with an address that does not convert nothing is ever unvoted |
| GovernanceAlerts.Evaluator.Unawaited | td2/alert.go:1468-1505 | exactly the parsable governance alarms of proposals no longer unvoted, each once |
| GovernanceAlerts.Evaluator.Evaluate | td2/alert.go:1424-1535 | which ids are active afterwards; one message is queued for each id gained or lost and none else, none at all in silence, each a warning of this chain for the channels enabled for it; every entry that stays is unchanged and every new one is a fresh warning |
| GovernanceAlerts.PassReconciles | td2/alert.go:1424-1535 | after an unsilenced pass from any mix of id formats, the parsable governance alarms stand for exactly the unvoted proposals; every other alarm is active iff it was |
| GovernanceAlerts.SilencedPassOnlyDrops | td2/alert.go:1424-1535 | a silenced pass adds nothing and keeps no parsable alarm without an unvoted proposal |
| GovernanceAlerts.OneFiringOneResolution | td2/alert.go:1424-1535 | any interleaving of polls and unsilenced passes dispatches at most one firing and one resolution for a proposal that is not blanked out |
| GovernanceAlerts.EveryRiseFires | td2/alert.go:1424-1535 | with a pass after every poll, the firings dispatched are as many as the times the proposal came onto the unvoted list |
| GovernanceAlerts.FiresOnceUnlessBlankedOut | td2/alert.go:1424-1535 | with a pass after every poll, at most one firing is dispatched iff the proposal is not blanked out |
| GovernanceAlerts.EveryTurnIsDispatched | td2/alert.go:1424-1535 | under any interleaving of polls and unsilenced passes, the firings dispatched are the turns from voted to unvoted between passes and the resolutions the turns back |
| GovernanceAlerts.FiresTwiceExactly | td2/alert.go:1424-1535 | under any interleaving, more than one firing is dispatched for a proposal iff three passes find it unvoted, then not, then unvoted again |
| Base64.RoundTrip | td2/encryption.go:124-133 | decoding an encoding gives the bytes back |
| Base64.GroupHolds | td2/encryption.go:124-125 | every three bytes are the 24 bits of four characters of six bits, the highest first |
| Base64.LeftOver | td2/encryption.go:124-125 | one or two bytes left over are completed with zero bits, of which only padding is told |
| Base64.DecodesExactly | td2/encryption.go:132-136 | the decoder accepts whole groups of characters of the alphabet with at most two of padding at the end, and nothing else |
| Base64.OnlyBreaksGo | td2/encryption.go:132-136 | carriage returns and line feeds are skipped, wherever they stand, and nothing else is |
| Encryption.CbcInverts | td2/encryption.go:102-104 | chained decryption inverts chained encryption, given a block cipher that inverts itself |
| Encryption.XorIsBitwise | td2/encryption.go:90-104 | every bit of the exclusive or is the sum modulo 2 of the two bits |
| Encryption.SealIsChained | td2/encryption.go:90-104 | by position: every sealed block is the cipher of the text block xored with the sealed block before it, the iv before the first |
| Encryption.UnchainedIsOpen | td2/encryption.go:171-173 | by position: a text is what opening gives iff its every block is the deciphered block xored with the sealed block before it, the iv before the first |
| Encryption.PaddingComesOff | td2/encryption.go:179-186 | stripping the padding that was added gives the text back |
| Encryption.Encrypt | td2/encryption.go:62-127 | the file for the drawn salt and iv; refused for an empty text or a refused password |
| Encryption.FileIsLaidOut | td2/encryption.go:62-127 | a file is written iff the text is not empty, the password is accepted and the keys are not all zero; decoded it is the salt, the iv, the padded text block by block in chained form under the first half of the derived bytes, and the tag of all that under the second half; the padding is 1 to 16 bytes, each holding their number |
| Encryption.OpensExactly | td2/encryption.go:131-187 | decryption returns a text iff the decoded file is more than 80 bytes and, without trailing zeros, is a non-zero salt, an iv, whole blocks and the right tag under keys of an accepted password, and the text with its padding is those blocks unchained |
| Encryption.Decrypt | td2/encryption.go:131-187 | the result for every file, run-time panics included |
| Encryption.DecryptInvertsEncrypt | td2/encryption.go:131-187 | for every non-empty text and accepted password, with or without line breaks in the file: decryption gives the text back iff the salt is not all zero and the tag does not end in a zero byte |
| Encryption.OnlyTaggedFilesOpen | td2/encryption.go:131-187 | whatever opens is, decoded and without trailing zeros, a body led by a non-zero salt and followed by the tag of that body under the keys of the accepted password |
| Encryption.PanicsExactly | td2/encryption.go:131-187 | decryption panics iff the file decodes and, without trailing zeros, is empty, or is shorter than a tag while more than 80 bytes were decoded and the keys derive, or then ends in the right tag but is not salt, iv and whole blocks before it |
| Encryption.ShortFilePanics | td2/encryption.go:137-162 | fewer than 32 bytes followed by zeros, more than 80 bytes in all, panic if the password derives keys |
| Encryption.ZeroFilePanics | td2/encryption.go:137-140 | a file that decodes to zero bytes only, or to nothing, panics |
| Denomination.FindExponent | td2/utils/price-conversion.go:258-264 | the exponent of the first unit with the name, if any |
| Denomination.ConvertDecCoinToDisplayUnit | td2/utils/price-conversion.go:243-333 | the converted list, or no list |
| Denomination.ConversionIsIdempotent | td2/utils/price-conversion.go:270-330 | length and order are kept, a changed coin has the display name, and converting again changes nothing |
| Denomination.CoinsConvertByUnit | td2/utils/price-conversion.go:270-330 | every coin by its unit: in the display unit or of no listed unit it stays as it is; any other becomes the display unit, exactly where its unit is no smaller, and else to the nearest decimal, ties to even, up to 18 places |
| Denomination.ConversionFailsOnlyOnMetadata | td2/utils/price-conversion.go:257-268 | conversion is possible iff the metadata has a unit with the display name |
| Denomination.QuoIsOneRounding | td2/utils/price-conversion.go:309-309 | scaling down by up to 18 decimals is one half-even rounding of the exact quotient |
| Denomination.MulIsExact | td2/utils/price-conversion.go:321-321 | scaling up loses nothing |
| Denomination.TotalIsClose | td2/utils/price-conversion.go:270-330 | n coins scaled down by 10^k, k at most 18: the total is within n*10^k/2 units of the original total |
| Defaults.ApplyAlertDefaults | td2/types.go:56-81 | the recursive fill, one field at a time, computes the merge the lemmas below are about |
| Defaults.MergeKeepsAndFills | td2/types.go:56-81 | everything set explicitly stays, non-nil pointers to zero included, and everything unset comes from the defaults |
| Defaults.KeepsAndFillsIsMerge | td2/types.go:56-81 | and those two conditions determine the result |
| Defaults.MergeIsIdempotent | td2/types.go:56-81 | filling twice, or from itself, changes nothing |
| Defaults.MergeIsAssociative | td2/types.go:56-81 | filling from filled defaults is filling twice |
| Defaults.ZeroIsIdentity | td2/types.go:56-81 | the all-zero configuration is a right identity, and a left one up to fields that cannot be set |
| Defaults.ExportedIsAll | td2/types.go:56-81 | with exported fields only, that is everything |

## Left out

- Message texts: titles, durations, emoji and units are plain strings here; only ids, severities, chains and flags matter to the results. The rewriting Slack does to a resolution is kept.
- Sending: HTTP, Telegram, PagerDuty and websocket calls are entries in a log, and their failures, which the program only prints, are not modelled.
- JSON, YAML, protobuf and ABCI decoding: a decoded value or an error outcome is the input.
- Clock: one instant per dispatch, sweep, evaluation or save; the several clock reads inside one of them are taken as equal. Durations do not overflow int64.
- Goroutines: in runs messages are delivered in order (`DeliveryOrderDecides` is about every other order of the pending ones), a probe, an evaluation and a locked region are one step each, and a delivery is one step although each channel takes the lock by itself.
- Interleaving: the moment a message is put on the alert channel relative to other sweeps is free, but dispatching it is not part of that model.
- Alert history feed, dashboard, Prometheus and logging: presentation only.
- Floating point: percentages, stake and commission are exact reals; an empty slashing window follows the infinity and not-a-number comparisons.
- Denomination.TotalIsClose: scaling down by at most 18 decimals, the precision of the decimals; beyond it the quotient is truncated before it is rounded. The 315-bit overflow panic of the decimals is not modelled.
- Defaults.ApplyAlertDefaults: works on values, so that a pointer copied from the defaults is shared afterwards is not captured; slices and maps count as plain values.
- Encryption: password policy, key derivation, the block cipher and the tag are arbitrary functions of which only lengths and block inversion are assumed; reading random bytes does not fail.
- NodeHealth: the lemmas about runs follow one node and its alarms, so they are about a node whose address no other node of the chain has; nodes that share an address share an alarm id.
- NodeHealth: which endpoint is tried, and so when a node is marked while connecting, is free in runs; the nil client after a failed `rpchttp.New` is not part of this model.
- Evaluators for a stalled chain, an inactive validator, missing RPC endpoints and unclaimed rewards: they use their own flags or no guard, or need prices.
- Restart.SaveNodes: one chain's nodes at a time, where the program keys the records by chain first. Saved block windows are handed back unchanged and are left out.
- Lower-casing of thresholds: only what can make a string equal to an ASCII word.
- Case of an unset block window or a status update below the lowest status: the program never makes one.
- NamadaProvider, registry and price clients, the dashboard server, the TTL cache and capped lists: fetching, or easy to keep right.
