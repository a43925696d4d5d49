# A model of the fleet daemon's replay, admission, audit and durable-log cores

This project models seven cores of the daemon in Dafny and proves what they promise over every input, every run or
every interleaving. Verify it with `dafny verify dfyconfig.toml`.

- **Replay view** (`Transcript`, `View`, `Bodies`, `Frames`, `Streams`, `Coalesce`, `Collisions`). Coalescing turns a
  journal of interleaved assistant fragments into one sealed frame for each response. `Streams` and `Coalesce` hold the
  machine with its string keys, generations, legacy stream and two passes; `View` defines the same view by looking
  ahead, with none of that state, and `Frames` tells it field by field from the journal alone. Machine and view agree on
  a set of wire ids exactly when no id spells a generation of another.
- **Admission control** (`Capacity`, `Readings`, `Admission`, `AdmissionLaws`, `Decisions`, `Monotone`,
  `PlanMonotone`, `PlanInversions`, `Governor`, `Seats`). A snapshot is assessed into one pressure, which
  `Readings` tells from the raw readings; a plan decides a queue in rank order, and `Decisions` tells every answer; the
  governor keeps live counts over begins and releases; seat dimensions and spawn decisions recompute parts of the
  assessment and agree with it. For which policies more load never makes a plan more permissive is settled exactly.
- **Audit ledger** (`Residue`, `ResidueLaws`, `ResidueAlerts`, `ResiduePasses`). Findings are merged pass by pass; the
  laws speak about whole runs of merges and dispositions, and about each finding of a pass.
- **Cycle limiter** (`Limiter`, `LimiterClock`). A sliding day window and a minimum gap, on a forward clock and on any.
- **Chat journal** (`TextLines`, `Journal`, `RewindTwice`, `JournalLog`). Replay, tail, window, pages and rewind of one
  file.
- **Attribution log** (`TouchLog`). Appends that a crash may cut at any byte.
- **Report ids, landing record, elision** (`Reports`, `Landing`, `Utf8`, `Elide`, `ElideSides`). Concurrent exclusive
  claims with pruning; a two-writer protocol over one replaced file; cutting a report to a bound.

`Options`, `Numbers`, `Sequences` and `Strings` hold what several modules share. Code that the source runs step by step
is a class or a method with loops, proved against a function; the theorems are about that function.

## Conventions

- Strings are sequences of characters; `Elide` works on bytes. Integers are unbounded, fractions are real numbers, times
  and durations are integers.
- A journal line is the value its decoder yields. Wire ids, provider names, class names, fingerprints and reasons are
  already trimmed and lower-cased. Whether a body is filtered out of the view is a parameter, and so is whether a
  journal line is a user line.
- Free memory is a percentage from 0 to 100. A free-memory limit of exactly 100 divides by zero in the source: any
  reading below it is then out of memory, and a reading of 100, which yields no number, carries no signal.
- A codec of touches is a parameter: an encoding has no newline, decodes to its record, has no decodable strict prefix
  and fits the scanner. Decoding includes the trimming of the line.
- The tail's share of an elision budget is any function that gives it a part of the budget; the fixed text of the
  marker is a parameter.
- One policy is in force for a whole run of the governor, one configuration for a run of the limiter. Bounds are stated
  with admission control switched on.

## Where the code and its words differ

- `internal/agentreport/store.go:150-153` says that siblings sort right after their base, so that name order is
  arrival order. Pruning sorts names with `.json` attached, and there every sibling sorts before its base and later
  siblings by their numerals as text (`Reports.SiblingOrderExactly`, `Reports.NewestCanBePruned`).
- `internal/agentreport/elide.go:130-133` says that each side keeps the minimal side or its whole share. With fewer
  than 396 bytes beside the marker, a cut at a line break or before a wide character can leave less than both
  (`ElideSides.ThreeFifthsKeepSidesExactly`). A text of at most 160 bytes over its bound is marked as truncated with
  nothing missing (`Elide.OverBoundIsCutExactly`).
- `cmd/integrate/detach.go:29-31` says that only the child writes the record. The parent writes it too, from a read
  that may be stale, and can erase an outcome (`Landing.OutcomeCanBeLost`).
- `internal/chatlog/chatlog.go:168-172` speaks of complete lines; the scanner also returns a torn last line
  (`Journal.TornLineShowsOnlyInScans`), and a rewind strips one more carriage return from lines that keep one
  (`Journal.WrittenReadsBackExactly`).
- `internal/audit/residue.go:268-271` says that a finding that comes back is pending again after a verdict to ignore or
  to file it. Only an ignored one is; a filed one stays filed (`ResiduePasses.ReportedExactly`).
- `internal/capacity/hostpressure.go:142-144` says that a kernel memory warning is no halt. It is one under a policy that
  reserves nothing for the owner (`Readings.WarningHaltsExactly`).
- The journal's own append does not heal a torn line, the attribution log's does (`Journal.AppendSurvivesExactly`,
  `TouchLog.HealingKeeps`).

## Model

| member | source | states |
|---|---|---|
| Collisions.FaithfulExactlyWhenCollisionFree | internal/chatlog/coalesce.go:172-199 | over any set of wire ids, the keyed two-pass coalescer shows the look-ahead replay view on every journal over those ids if and only if no id of the set spells another id with `#` and a generation number |
| Collisions.CollisionShows | internal/chatlog/coalesce.go:187-199 | for each such pair of ids, a concrete journal on which the shared key merges two responses |
| Coalesce.KeyedViewIsCoalesced | internal/chatlog/coalesce.go:128-377 | on collision-free ids the two passes with their key maps, generation counter and legacy stream refine the replay view defined without any of them |
| Coalesce.ViewForeseen | internal/chatlog/coalesce.go:209-281 | at every line of the first pass, the streams found so far together with the lines to come make up the whole view |
| Coalesce.StateConsistent | internal/chatlog/coalesce.go:144-199 | in every reachable state each open stream is the one its pointer names, keys belong to their own id, and the ids with an open stream are exactly those with an unsealed fragment |
| Coalesce.CoalesceStreamLines | internal/chatlog/coalesce.go:128-377 | the whole coalescer, imperative: its output is the keyed view of the journal, and on collision-free ids the replay view, told line by line and field by field from the journal alone |
| Frames.ViewIsReplay | internal/chatlog/coalesce.go:242-371 | the replay view is decided by which fragments belong together: at the first fragment of a response stands a frame with its id, the stamp, stop and body of its own fragments; its later fragments vanish; every other line stays |
| Frames.StampIs | internal/chatlog/coalesce.go:265-272 | a frame's timestamp is that of the last fragment of its response that brings text and has one, and empty when none does |
| Frames.StopIs | internal/chatlog/coalesce.go:273-288 | its stop reason is the terminal one that a fragment of its response gives, after which none belongs to it, and end_turn when none gives one |
| Frames.GatheredIsFrame | internal/chatlog/coalesce.go:295-344 | the frame gathered fragment by fragment is the one told from the journal, its body the joined segments, dropped when empty or filtered out |
| Collisions.PassesSplitAtSeal | internal/chatlog/coalesce.go:209-240 | a settle line or a broken line cuts the journal into independent parts, although keys, generations and counters carry over |
| Collisions.PassesTwice | internal/chatlog/coalesce.go:290-376 | coalescing the output again only drops the timestamps of frames without a body, and changes nothing at all if and only if no stamped response was filtered out |
| View.SealSplits | internal/chatlog/coalesce.go:209-240 | compositionality of the replay view at a settle or broken line |
| View.ViewKeepsOtherLines | internal/chatlog/coalesce.go:352-371 | every line that is not an assistant fragment appears unchanged and in order |
| View.ViewIsByMembership | internal/chatlog/coalesce.go:242-281 | the view decided line by line from the whole journal: a frame stands exactly where no earlier fragment of the same id is still unsealed |
| View.OpenIffStaysOpen | internal/chatlog/coalesce.go:172-199 | an id has an open response after a prefix if and only if some fragment of it has met no seal and no terminal stop of its own id since |
| View.CoalescedTwice | internal/chatlog/coalesce.go:295-344 | coalescing a coalesced view gives it back, less the timestamps of frames without a body |
| View.IdempotentExactly | internal/chatlog/coalesce.go:308-344 | the view is idempotent if and only if no response that carries a timestamp has its text filtered out |
| Bodies.BodyIsJoinedSegments | internal/chatlog/coalesce.go:24-100 | the body of a frame is its fragments' pieces of text, cut at the marked edges and joined; no segment is empty |
| Bodies.SegmentsKeepText | internal/chatlog/coalesce.go:40-100 | cutting into segments keeps every piece of text, once and in order |
| Bodies.JoiningAddsOnlySeparators | internal/chatlog/coalesce.go:24-36 | joining adds one blank line between two segments exactly where neither side has a line break, and nothing else |
| Bodies.FragmentHasOneStart | internal/chatlog/coalesce.go:172-199 | every fragment belongs to exactly one response |
| Transcript.ApplyAssistantContent | internal/chatlog/coalesce.go:63-100 | the block walk with its text-part counter and edge flag computes the content function that the body theorems are about |
| Streams.NextGenIsLeastFree | internal/chatlog/coalesce.go:187-199 | the minting loop ends, with the least generation after the counter whose key is free |
| Streams.StateIndexed | internal/chatlog/coalesce.go:158-166 | in every reachable state each stream was opened by the line at its first index, and each absorbed line names a stream opened no later |
| Streams.Coalescer.OpenWireStream | internal/chatlog/coalesce.go:172-199 | finds or mints the stream of a wire id; the loop and the maps end in the state that the step function gives |
| Streams.Coalescer.OpenStream | internal/chatlog/coalesce.go:254-264 | finds or opens the stream of a labelled or an unlabelled fragment |
| Streams.Coalescer.SealStreams | internal/chatlog/coalesce.go:212-240 | seals every open stream and leaves the others alone |
| Streams.Coalescer.MarkEdgeOpen | internal/chatlog/coalesce.go:201-207 | marks an edge on every open stream that has text, and on no other |
| Streams.Coalescer.AbsorbInto | internal/chatlog/coalesce.go:265-280 | one fragment changes its own stream only: text, timestamp, terminal stop, and the legacy pointer |
| Streams.Coalescer.Take | internal/chatlog/coalesce.go:209-281 | one line of the first pass takes the state to the next state of the machine |
| Streams.Coalescer.IndexByFirst | internal/chatlog/coalesce.go:346-350 | every stream is listed under its first line, and no line has two |
| Streams.Coalescer.Flush | internal/chatlog/coalesce.go:295-344 | a stream is emitted at most once, and a stream with neither text nor stop is not shown |
| Streams.Coalescer.Emit | internal/chatlog/coalesce.go:352-376 | the second pass emits the keyed view, and the final loop over all streams emits nothing more |
| Capacity.ComputeSeatHeadroom | internal/capacity/policy.go:248-270 | the loop over the provider map yields the one tightest known seat headroom, for every order of the map |
| Capacity.ComputeAssessment | internal/capacity/policy.go:214-348 | the loops and branches compute the assessment function |
| Capacity.PressureExactly | internal/capacity/policy.go:284-342 | the pressure is at least a level if and only if spawning is halted, the alert is at least that level, or one of the five known dimensions alone is under that level's line; load average never counts |
| Readings.PressureFromReadings | internal/capacity/policy.go:214-348 | the pressure is at least a level if and only if spawning is halted, the alert is at least that level, or a raw reading is short by it: billed money against budget or ceiling, tokens, sessions, a provider's load against its published or assumed cap, the plan window, or free memory or swap; each by what is left of its limit against the reserve and the degrade line |
| Readings.ShippedLines | internal/capacity/policy.go:117-134 | under the shipped policy counts draw their lines at 60, 80 and 100 percent of a limit, an assumed cap at eight and ten agents and never critical, and the load average above 3.2 a core |
| Readings.ShippedMemoryLines | internal/capacity/hostpressure.go:35-58 | and memory at 52, 36 and 20 percent free, or 54, 72 and 90 percent of swap |
| Readings.ShippedSwitches | internal/capacity/policy.go:118-134 | the shipped policy is on, bounds background work by three, lets repairs alone bear load and makes ambient work wait for the owner |
| Readings.LoadHighExactly | internal/capacity/hostpressure.go:175-188 | ambient work waits for the load average if and only if the run queue leaves less than the owner reserve of what the cores take |
| Readings.MemoryDecidesExactly | internal/capacity/hostpressure.go:405-424 | memory is the deciding dimension if and only if it is known and no known dimension is tighter |
| Readings.WarningHaltsExactly | internal/capacity/hostpressure.go:137-146 | a kernel memory warning alone halts the fleet if and only if the policy reserves nothing for the owner |
| Capacity.LoadedPoliciesAreInRange | internal/capacity/config.go:75-95 | a loaded policy has its fractions in order and in range; repair replaces a fraction out of range by the shipped one, lifts a degrade line below the reserve to it, replaces a negative bound by three, and changes nothing else |
| Monotone.AssessIsMonotone | internal/capacity/policy.go:214-348 | raising any usage, load, memory pressure or alert against the same limits never lowers the pressure |
| Monotone.AdmissionIsMonotone | internal/capacity/policy.go:423-511 | and never makes the verdict on a request more permissive |
| PlanMonotone.PlanKeepsVerdicts | internal/capacity/policy.go:361-511 | in a queue of any length no verdict gets more permissive under a heavier snapshot, when tokens decide nothing and the slots keep order |
| PlanInversions.SlotPlansAreMonotoneExactly | internal/capacity/policy.go:361-511 | over all queues and snapshots in which tokens play no part, heavier snapshots never make a verdict of the plan more permissive if and only if control is off, the policy bounds no total, or each background class that ranks above a load-bearing one bears load too |
| PlanInversions.PlansAreMonotoneExactly | internal/capacity/policy.go:361-511 | with token estimates at play the same holds if and only if control is off, or the policy reserves every token and its slots keep order |
| PlanInversions.AlertFreesASlot | internal/capacity/policy.go:466-485 | for every bounded policy and every pair of classes out of that order, a queue of two in which raising the alert defers the first and so admits the second |
| PlanInversions.SpentTokenFreesTokens | internal/capacity/policy.go:486-501 | for every policy that reserves less than all tokens, a queue of two in which one more spent token admits the second, because the costlier first no longer fits |
| Admission.OrderBefore | internal/capacity/policy.go:367-377 | in the sorted items each request comes right after exactly the requests it waits behind: better classes, then earlier ones of its own class |
| Admission.CountRunning | internal/capacity/policy.go:379-387 | the slots in use are the positive counts of the background classes, for every order of the map |
| Admission.DecideItems | internal/capacity/policy.go:391-395 | the loop that mutates the counters decides each item with the slots its predecessors left |
| Admission.Plan | internal/capacity/policy.go:361-405 | every decision of a plan is the decision of that request after the ones it waits behind, in the caller's order |
| Admission.AdmitOne | internal/capacity/policy.go:353-355 | one request on its own is a queue of one |
| Decisions.PlanExactly | internal/capacity/policy.go:361-511 | every decision of a plan in full: verdict, tier and reason follow from the first obstacle in a fixed order, with the slots in use counted over the running cycles and the grants of the requests ahead, and the tokens left above the truncated owner reserve less what those spend |
| Decisions.DegradesExactly | internal/capacity/policy.go:503-507 | a request is degraded if and only if control is on and it is admitted background work that can be degraded, of a class that bears no load, at elevated pressure |
| Decisions.TiersFollowVerdicts | internal/capacity/policy.go:428-511 | full tier exactly on admission, reduced exactly on degradation, none exactly on deferral; a plan cancels nothing |
| Decisions.OutranksByRank | internal/capacity/capacity.go:64-90 | requests are decided in the order of the ranked list of classes |
| AdmissionLaws.LowerPriorityIsInvisible | internal/capacity/policy.go:361-405 | deleting a request changes no decision that comes before it by rank and position |
| AdmissionLaws.PlanIsAdmittingInOrder | internal/capacity/policy.go:353-405 | with no token estimates or no token budget, planning is admitting one request at a time in rank order while raising the running counts |
| AdmissionLaws.PlanNeverOverspends | internal/capacity/policy.go:409-511 | granted estimates stay within the allowance above the owner reserve; initial plus granted slots, in all and for each class, stay within the larger of the initial count and the bound |
| AdmissionLaws.ForegroundIsNeverShed | internal/capacity/policy.go:428-444 | owner and Build requests run in full exactly when they are owner turns, or spawning is not halted, or control is off |
| AdmissionLaws.AdmittedFits | internal/capacity/policy.go:476-501 | an admitted background request fits both slot bounds and the tokens left, and takes exactly one slot and its estimate |
| Governor.EveryRunStaysBounded | internal/capacity/governor.go:82-123 | in every interleaving of begins and releases the running counts are the live cycles, admitted and deferred counts are the calls made, each background bound holds, and notices alternate |
| Governor.AdmittedHasRoom | internal/capacity/policy.go:476-485 | an admitted cycle leaves the live cycles within the total and the class bound |
| Governor.BegunExactly | internal/capacity/governor.go:82-97 | in every reachable state a background cycle begins if and only if pressure, load average and owner activity let its class in and the live cycles, in all and of its class, are under their bounds; it begins reduced if and only if pressure is elevated and its class bears no load; Build work waits for the clamp alone |
| Governor.LatchIsLatest | internal/capacity/governor.go:160-178 | the notice latch says whether the latest Begin found the host critical |
| Governor.LastIsLatest | internal/capacity/governor.go:93-95 | the decision kept for a class is the one its latest Begin was given |
| Governor.SecondReleaseDoesNothing | internal/capacity/governor.go:113-122 | releasing twice is releasing once |
| Governor.ReleasedCounts | internal/capacity/governor.go:113-122 | a first release lowers its class's count by one, and never below the cycles still live |
| Governor.Governor.Begin | internal/capacity/governor.go:82-123 | the mutex-guarded body takes the state to the next state of the protocol and returns its decision and ticket |
| Governor.Governor.Release | internal/capacity/governor.go:113-122 | the release closure takes the state to the released state |
| Governor.Governor.RunningCopy | internal/capacity/governor.go:150-158 | the copy handed to admission holds exactly the positive counts |
| Seats.SeatDimension | internal/capacity/hostpressure.go:227-250 | names a binding that attains the assessment's seat headroom, the least provider name on a tie |
| Seats.NamedOnce | internal/capacity/hostpressure.go:233-248 | at most one binding qualifies, so the answer is the same for every order of the provider map |
| Seats.SeatsHaltExactly | internal/capacity/hostpressure.go:89-110 | seats halt if and only if the census is full or some published cap is reached; an assumed cap alone never halts |
| Seats.DestBlocksExactly | internal/capacity/hostpressure.go:293-332 | a pane for a destination is blocked if and only if the census is full or that destination's own published cap is reached |
| Seats.AnyPublishedDestHasHeadroom | internal/capacity/hostpressure.go:342-361 | the early-returning loop is true exactly when some published destination is under its cap or none publishes one |
| Seats.UnawareSpawnExactly | internal/capacity/spawn.go:76-128 | a worker spawn with no destination is admitted if and only if one for some published destination would be, or nothing is published and the other conditions hold |
| Seats.AdmitSpawnDest | internal/capacity/spawn.go:76-128 | the branches compute the spawn decision, which Seats.SpawnExactly tells in full |
| Seats.SpawnExactly | internal/capacity/spawn.go:76-128 | owner seats and repair agents always start; a worker pane is refused for memory, else for want of a seat, else for the spawn clamp, each exactly when raw readings say so, and otherwise starts in full |
| Seats.BindingReads | internal/capacity/hostpressure.go:227-250 | the named binding carries the census and its bound, or a provider's load and its published or assumed cap, and whether it was assumed |
| Seats.PreemptsExactlyWhatPressureDefers | internal/capacity/policy.go:520-548 | a preemptible class is cancelled if and only if a fresh request of it would be deferred for pressure |
| ResidueLaws.EveryRunIsSound | internal/audit/residue.go:207-297 | over every run of merges and dispositions: fingerprints stay unique, a resolution time is set exactly while resolved, the maximum severity is the worst rating ever given, and resolutions number the reopenings, plus one while resolved |
| ResidueLaws.OpenTotalBalances | internal/audit/residue.go:299-332 | outstanding after = outstanding before + new + reopened - resolved, and that is the total reported |
| ResidueLaws.UnseenEntriesAreKept | internal/audit/residue.go:283-297 | an entry that a pass did not see changes only by resolving, and only when its scope was covered |
| ResidueLaws.MergedLookup | internal/audit/residue.go:283-336 | what a merge makes of one fingerprint: fold, then absence, then alert stamp; the order of the file plays no part |
| ResiduePasses.ReportedExactly | internal/audit/residue.go:207-281 | every field of the entry of a reported finding after a pass, from the entry before, the finding and whether it was alerted on |
| ResiduePasses.UnreportedExactly | internal/audit/residue.go:283-297 | an entry that was not reported resolves with the time and the report when it stood in a covered scope, and is otherwise unchanged |
| ResiduePasses.OneKind | internal/audit/residue.go:213-281 | a reported finding is listed as new, reopened or updated if and only if its entry was absent, resolved or outstanding |
| ResiduePasses.ResolvedExactly | internal/audit/residue.go:283-297 | a pass lists as resolved, once each, exactly the outstanding entries of covered scopes that it did not report |
| ResiduePasses.AlertsExactly | internal/audit/residue.go:299-320 | a pass alerts on a finding if and only if it is rated, at the threshold (critical when none is set), and new, resolved before, never alerted on, or last alerted on at least the window ago (a day when none is set); with a maximum, on as many as it allows, and none left out is worse than one sent |
| ResiduePasses.AlertsInOrder | internal/audit/residue.go:315-320 | alerts stand worst first |
| ResiduePasses.MergedInFileOrder | internal/audit/residue.go:406-411 | the file is in the order in which findings were first seen |
| ResiduePasses.DisposedExactly | internal/audit/residue.go:340-386 | disposing of a finding sets disposition and time and, when given, reason and target, and touches no other entry |
| Sequences.SortedIsStable | internal/audit/residue.go:315-411 | the sorts of alerts and of the file keep the order of elements that tie |
| ResidueAlerts.RepeatedReportIsQuiet | internal/audit/residue.go:207-297 | merging the same findings over the same scopes again adds, reopens and resolves nothing, whatever the other arguments are |
| ResidueAlerts.AlertsAreSpaced | internal/audit/residue.go:299-326 | in every run with one re-alert window whose reports name a finding once, as the parser sees to (internal/audit/report.go:254-258), two alerts for a finding that stayed open are at least the window apart |
| ResidueAlerts.FirstReportSpacedExactly | internal/audit/residue.go:299-326 | that a report names a finding once matters: on an empty ledger, with no maximum on alerts, its alerts are apart if and only if it names no finding twice at the threshold |
| Residue.Store.FoldFinding | internal/audit/residue.go:208-281 | one finding through the fingerprint index adds, updates or reopens one entry |
| Residue.Store.ResolveAbsent | internal/audit/residue.go:283-297 | the loop resolves exactly the outstanding, unseen entries of covered scopes |
| Residue.Store.ChooseAlerts | internal/audit/residue.go:299-320 | new and reopened entries at the threshold and updated ones past the window, worst first, cut to the maximum |
| Residue.Store.StampAlerts | internal/audit/residue.go:321-325 | the stamp reaches exactly the entries that were alerted on |
| Residue.Store.Merge | internal/audit/residue.go:173-337 | the whole merge takes the ledger to the merged ledger and reports what changed |
| Residue.Store.SetDisposition | internal/audit/residue.go:340-386 | refuses what the source refuses and otherwise changes the first entry with the fingerprint |
| Limiter.EveryRunIsLimited | internal/audit/config.go:573-597 | on a clock that never steps back, with forced passes in between: no half-open day holds more recorded unforced passes than the cap, and each starts at least the gap after the recorded pass before it |
| Limiter.AllowedExactly | internal/audit/config.go:573-609 | the guard answers from the pruned window exactly as the whole history would: the last recorded pass at least the gap ago (300 seconds when unset, none when negative) and fewer passes than the cap (four when unset, none when negative) started within the last 24 hours |
| Limiter.EveryPassIsCounted | internal/audit/config.go:592-597 | on every clock the counters say how many passes were recorded and when the last one started |
| Limiter.PruningKeepsCounts | internal/audit/config.go:599-609 | pruning drops no stamp that a check at the same time or later counts |
| Limiter.PrunedIs | internal/audit/config.go:599-609 | pruning leaves exactly the stamps strictly later than a day ago, each as often as before, in ascending order |
| LimiterClock.CapHoldsOnAnyClockExactly | internal/audit/config.go:573-609 | over all runs of unforced passes on any clock, no half-open day holds more passes than the cap if and only if there is a minimum gap, or the cap is one or off |
| LimiterClock.CapHoldsWithForcedExactly | internal/audit/config.go:573-609 | with forced passes in between, if and only if the cap is one or off |
| LimiterClock.GapsHoldOnAnyClock | internal/audit/config.go:582-597 | on every clock each unforced pass starts at least the gap after the recorded pass before it |
| LimiterClock.ClockSetBackBreaksTheCap | internal/audit/config.go:592-609 | for every cap of at least two, and forced passes or no gap, a run with one step back by a day that puts one unforced pass too many into a day |
| Limiter.PruneWindow | internal/audit/config.go:599-609 | the filtering loop and the sort yield that window |
| Limiter.AllowCycle | internal/audit/config.go:573-589 | allowed or refused, for the gap exactly when it has not elapsed, else for the cap |
| Limiter.Auditor.RecordCycle | internal/audit/config.go:592-597 | stamps the start, counts the pass and prunes |
| Limiter.Auditor.RunCycle | internal/audit/auditor.go:304-335 | a pass runs only when allowed and is recorded with its own start |
| Journal.ReadersAgreeExactly | internal/chatlog/chatlog.go:77-105 | on a file that ends its last line, the scanner readers show what a replay shows if and only if no line ends in a carriage return and every line fits the scanner |
| Journal.TornLineShowsOnlyInScans | internal/chatlog/chatlog.go:173-205 | a torn last line is shown by the scanner and by no replay |
| Journal.ReplaySplits | internal/chatlog/chatlog.go:77-105 | a file cut after any newline replays as its two halves |
| Journal.AppendSurvivesExactly | internal/chatlog/chatlog.go:52-65 | an appended line replays as itself after all earlier lines if and only if the file did not end in a torn line |
| Journal.TailIsASuffix | internal/chatlog/chatlog.go:113-166 | for every window the tail is a suffix of the replayed lines, and all of them when nothing was truncated |
| Journal.TailKeepsRecentLines | internal/chatlog/chatlog.go:133-166 | every line that starts after the offset is in the tail |
| Journal.TailExactly | internal/chatlog/chatlog.go:113-166 | with n bytes asked for (a mebibyte when none): the tail is truncated if and only if the file is longer than n; it holds exactly the lines from the first one that starts after the last n bytes do, and with their newlines they take at most n bytes |
| Journal.TurnsStartExactly | internal/chatlog/chatlog.go:190-198 | a line starts a turn if and only if it is a user line and the line before it is not |
| Journal.WindowHoldsLastTurns | internal/chatlog/chatlog.go:214-230 | a window that cuts something opens with a turn start, and its starts are the last maxTurns starts of the log; with no more turns than that, or none asked for, it is the whole log |
| Journal.PagesMeet | internal/chatlog/chatlog.go:240-290 | adjacent pages join up |
| Journal.PageIs | internal/chatlog/chatlog.go:240-290 | a page holds exactly the lines from its start to its end that exist, in order |
| Journal.PageMeetsWindow | internal/chatlog/chatlog.go:214-290 | the page before the window and the window are the whole log |
| Journal.RewindRemovesTurns | internal/chatlog/chatlog.go:297-359 | a rewind by n goes through if and only if there are n turns; it leaves a newline-ended prefix of the lines with exactly n fewer turns, whose starts are the first ones of before, and that prefix is read back as it was if and only if none of its lines ends in a further carriage return |
| Journal.RewindRefusals | internal/chatlog/chatlog.go:297-336 | a rewind is refused exactly for a count below one, a missing file, a line too long, or too few turns, which it counts |
| Journal.ScanFailsExactly | internal/chatlog/chatlog.go:173-205 | the scanner fails if and only if some line is a mebibyte or longer |
| RewindTwice.RewindsAddExactly | internal/chatlog/chatlog.go:297-359 | rewinding by m and then by n is rewinding by m + n if and only if no line that is to stay ends in a further carriage return, and no turn removed by the second rewind follows an earlier user line but for lines of a lone carriage return |
| RewindTwice.RereadTurns | internal/chatlog/chatlog.go:313-346 | reading rewritten lines back never adds a turn, and keeps their number if and only if no start merges into the turn before it |
| Journal.WrittenReadsBackExactly | internal/chatlog/chatlog.go:338-346 | scanned lines written back are read back the same if and only if none ends in a carriage return |
| JournalLog.Log.Append | internal/chatlog/chatlog.go:52-65 | writes the line and a newline, and nothing for an empty line |
| JournalLog.Log.Replay | internal/chatlog/chatlog.go:77-105 | the reading loop yields the complete non-empty lines |
| JournalLog.Log.TailBytes | internal/chatlog/chatlog.go:113-166 | the seek, the skipped torn line and the loop yield the tail, and report truncation exactly when the file is longer than the bytes asked for |
| JournalLog.Log.TakeSnapshot | internal/chatlog/chatlog.go:173-205 | the scanning loop yields every line and every turn start, or fails on a line that is too long |
| JournalLog.Log.ReplayTail | internal/chatlog/chatlog.go:214-230 | yields the window, where it starts and how many lines there are |
| JournalLog.Log.ReadRange | internal/chatlog/chatlog.go:240-290 | the counting loop yields the clamped page and the total |
| JournalLog.Log.TruncateTurns | internal/chatlog/chatlog.go:297-359 | replaces the file by the rewound one, or leaves it and says why |
| TouchLog.LoadIsWhatWasWhole | internal/attrib/attrib.go:107-189 | after any appends to any sessions, each cut at any byte, loading yields as a multiset exactly the records whose encodings were written whole and that name a path |
| TouchLog.FilesShowWhatWasWhole | internal/attrib/attrib.go:107-189 | and each file shows its own in the order they were written |
| TouchLog.AppendLoads | internal/attrib/attrib.go:107-142 | one append cut at any byte adds exactly the records it wrote whole and takes away none |
| TouchLog.AppendedExactly | internal/attrib/attrib.go:120-140 | a cut append leaves the first bytes of what it writes: a newline exactly when the file does not end its last line, then the encoded lines |
| TouchLog.HealingKeeps | internal/attrib/attrib.go:120-131 | the healing newline ends the last line and changes nothing that was readable |
| TouchLog.CutLinesLoad | internal/attrib/attrib.go:132-140 | encoded lines cut at any byte load as the records before the cut |
| TouchLog.CompleteExactly | internal/attrib/attrib.go:132-140 | a record is complete if and only if the cut comes no earlier than the end of its encoding |
| TouchLog.WrittenAreGiven | internal/attrib/attrib.go:133-136 | every record written whole was given to an append to its directory, with its own session or, when it had none, that of the append |
| TouchLog.FitsExactly | internal/attrib/attrib.go:169-171 | a file fits the scanner if and only if it has no line of four mebibytes |
| TouchLog.LongLineHidesTheRest | internal/attrib/attrib.go:169-171 | such a line hides itself and all that follows, and nothing before it |
| TouchLog.Store.AppendRecords | internal/attrib/attrib.go:107-142 | the healing write and the encoding loop, stopped by a crash after any number of bytes, leave the file that the append function gives |
| TouchLog.Store.LoadFile | internal/attrib/attrib.go:169-184 | the scanning loop yields the records of a file up to a line too long to scan |
| TouchLog.Store.Load | internal/attrib/attrib.go:151-189 | every session's records, each as often as it was loaded, in ascending order of time |
| Reports.EveryRunIsSafe | internal/agentreport/store.go:158-216 | in every interleaving of savers and pruners: a file holds its own id, a finished save's file holds that save's text until it is deleted, finished saves share an id only across a deletion, and every name of a family before one that was tried had been published |
| Reports.SavesAreKept | internal/agentreport/store.go:158-216 | until something is deleted every finished save has an id of its own whose file holds its text and that id |
| Reports.PublishedNeverChanges | internal/agentreport/store.go:188-216 | no step changes a published file; it goes only by a prune that chose its name |
| Reports.DeletedWereOldest | internal/agentreport/store.go:220-241 | every id that was ever deleted was chosen by a prune that found at least as many names after it as it was to keep (200 when not told) |
| Reports.FamiliesHaveNoGaps | internal/agentreport/store.go:158-174 | until something is deleted each id family is gap-free |
| Reports.PrunedExactly | internal/agentreport/store.go:220-241 | a prune deletes a record if and only if at least the kept number of names sort after its own |
| Reports.SiblingsSortFirst | internal/agentreport/store.go:150-153 | with the suffix attached every later sibling sorts before its base |
| Reports.SiblingOrderExactly | internal/agentreport/store.go:150-165 | of two names of a family the earlier sorts first if and only if it is not the base and its numeral is below the other as text |
| Numbers.DecimalReads | internal/agentreport/store.go:160-163 | sibling numbers are printed as decimal numerals without leading zeros, which read back as the number |
| Reports.SiblingGoesFirstExactly | internal/agentreport/store.go:220-241 | a base is never deleted before its siblings; a later sibling goes while its base stays if and only if the number to keep lies between the counts of names that sort after each |
| Reports.NewestCanBePruned | internal/agentreport/store.go:220-241 | whatever is to be kept, beside one report less than that of later names a prune deletes the newest of two same-second reports and keeps the older |
| Reports.Dir.LinkExclusive | internal/agentreport/store.go:188-216 | publishes the record whole or reports the name taken; never overwrites |
| Reports.Dir.ClaimRecordFile | internal/agentreport/store.go:158-174 | the retry loop claims the first free name of the family (the base, then the base with -2, -3 and so on), with that name inside the record, or gives up when a thousand are taken |
| Reports.Dir.Save | internal/agentreport/store.go:101-128 | after a save exactly those files are there, old or saved, that fewer than 200 names sort after, each as it was; a save fails only when a thousand names are taken |
| Reports.Dir.Prune | internal/agentreport/store.go:220-241 | keeps exactly the smaller of n and keep files, those with the lexically greatest names |
| Landing.LandedIsTrustedExactly | cmd/integrate/detach.go:103-157 | in every interleaving LANDED means that this landing's own child recorded exit 0, if and only if no child of an earlier landing can still record a success |
| Landing.OutcomeShowsExactly | cmd/integrate/detach.go:103-157 | while no child of an earlier landing is alive: from the announcement on every reader sees this landing; a failed start is recorded as exit 2; the recorded outcome shows except exactly when the child wrote it between the parent's read and the parent's write |
| Landing.FinishedStays | cmd/integrate/detach.go:118-124 | while no child of an earlier landing is alive: a finished record stays finished at every step but that one |
| Landing.OutcomeCanBeLost | cmd/integrate/detach.go:121-124 | the interleaving that loses an outcome, after which a reader reports a landing that died |
| Landing.NamedRecordTracksItsChild | cmd/integrate/detach.go:119-141 | once the child as it starts, or the parent, has named the child in the record, readers report it running while it is alive and died when it is not |
| Landing.StatusesExactly | cmd/integrate/detach.go:159-199 | each status exactly: a recorded outcome as it is, 3 also for a landing under way, 2 also for no record, 1 also for a landing that never started or died; LANDED is printed for a recorded exit 0 and nothing else |
| Landing.RecordFile.RecordResult | cmd/integrate/detach.go:143-157 | the child's read and write, uninterrupted |
| Landing.RecordFile.NameChild | cmd/integrate/detach.go:121-124 | the parent's read and write, uninterrupted, lose nothing |
| Elide.DeliveredIsWellFormed | internal/agentreport/elide.go:101-186 | well-formed UTF-8 in (sections 3 and 4 of RFC 3629), well-formed UTF-8 out |
| Elide.CountIsExact | internal/agentreport/elide.go:110-127 | head + elided + tail = total, and the count is positive if and only if the room beside the marker, never less than two minimal sides, is smaller than the text |
| Elide.OverBoundIsCutExactly | internal/agentreport/elide.go:101-141 | of a text over its bound something is missing if and only if it is longer than two minimal sides |
| Elide.SizeIsBounded | internal/agentreport/elide.go:110-127 | the delivered size exceeds the bound only by the digits the final count has over the first, or because two minimal sides and the marker do not fit |
| Elide.RoomsExactly | internal/agentreport/elide.go:110-120 | the final split has the room that the bound leaves beside a marker counting what a first split, beside a marker counting nothing, left out |
| Elide.SplitFits | internal/agentreport/elide.go:135-147 | the sides fit the budget, and something is elided exactly when the text does not |
| Elide.HeadEndsAtLastBreak | internal/agentreport/elide.go:149-166 | the head is the longest piece of whole characters that fits, cut after its last line break when that lies in its second half |
| Elide.PiecesAreWhole | internal/agentreport/elide.go:158-180 | the head's piece ends at the last byte up to the budget that starts a character, the tail's starts at the first one |
| Elide.TailStartsAtFirstBreak | internal/agentreport/elide.go:168-186 | the tail is the longest piece of whole characters that fits, cut after its first line break when that lies in its first half |
| Elide.SidesKeepHalf | internal/agentreport/elide.go:151-186 | each side keeps at least half of its budget, less three bytes |
| ElideSides.SplitKeepsSidesExactly | internal/agentreport/elide.go:130-148 | every well-formed text over the budget keeps a minimal side or the whole share at both ends if and only if the head's share is nothing or at least 159 bytes and the tail's is nothing or at least 162 |
| ElideSides.ThreeFifthsKeepSidesExactly | internal/agentreport/elide.go:134-147 | with three fifths for the tail, if and only if at least 396 bytes are left beside the marker |
| ElideSides.HeadKeepsItsSideExactly | internal/agentreport/elide.go:151-166 | the head alone: if and only if its budget is nothing or at least 159 bytes |
| ElideSides.TailKeepsItsSideExactly | internal/agentreport/elide.go:170-186 | the tail alone: if and only if its budget is nothing or at least 162 bytes |
| Elide.HeadIsClean | internal/agentreport/elide.go:151-166 | the head ends between characters |
| Elide.TailIsClean | internal/agentreport/elide.go:170-186 | the tail starts between characters |
| Utf8.CutAtStart | internal/agentreport/elide.go:158-180 | a well-formed string may be cut before any byte that starts a character |
| Utf8.WellFormedExactly | internal/agentreport/elide.go:158-180 | a byte string is well formed if and only if it is the encoding of a sequence of Unicode scalar values, by sections 3 and 4 of RFC 3629 |
| Elide.TrimToRuneBoundaryHead | internal/agentreport/elide.go:151-166 | the backward loop and the line-break rule end the head where the head function says |
| Elide.TrimToRuneBoundaryTail | internal/agentreport/elide.go:170-186 | the forward loop and the line-break rule start the tail where the tail function says |
| Elide.SplitSides | internal/agentreport/elide.go:135-147 | the two trims are a prefix and a suffix that do not overlap |
| Elide.ElideText | internal/agentreport/elide.go:101-128 | a text within the bound is untouched; otherwise what is delivered is a prefix of the report, a marker whose two numerals read as the bytes missing and the bytes there were, in that order, and a suffix of the report, with exactly that many bytes left out between them |

## Left out

- JSON encoding and decoding, fsync, file modes, temporary names, locks and the text of log lines and notices.
- `Detail`, `Reasons` and `Residual` texts of decisions and assessments, `formatSeatBinding`, `DestsWithHeadroom`, and
  the `lastAt` and `assessed` fields of the governor, which nothing decides on.
- `NormalizeClass`, `ClassifySpawnKind`, the order of the list that `Preempt` returns, `PlanQueue` and `Status`.
- The stream records of the coalescer are values in a map, not shared pointers.
- Release closures are tickets held in the governor's state.
- A clock reading of zero, which the source replaces by the current time.
- Ledger files written by older versions: runs of the ledger, the limiter and the report store start from nothing.
- Audit passes that end before their state is saved are attempts that record nothing.
- Floating-point rounding, saturating time differences and 64-bit overflow.
- A callback that stops a replay early, and read errors of the file system.
- `ReplayTailSealed` and `ReplayTailRaw`: the window followed by the view.
- The legacy location of landing records, the log tail, and a start record that cannot be written by the parent.
- `List`, `Load` and the checks on agent names of the report store: a stored record is what its file holds.
- Two processes that append to one session's attribution file at the same time.
- ResidueAlerts.AlertsAreSpaced: for runs with one re-alert window whose reports name each finding once;
  ResidueAlerts.FirstReportSpacedExactly shows for first reports that the second condition is needed, and
  internal/audit/report.go:254-258 that the parser meets it.
- ResidueAlerts.FirstReportSpacedExactly: for the empty ledger and without a maximum on alerts.
- Landing.OutcomeShowsExactly: while no child of an earlier landing is alive; Landing.LandedIsTrustedExactly covers one.
- Landing.FinishedStays: likewise.
- ResiduePasses.ReportedExactly: for reports that name each finding once, and so are ResiduePasses.OneKind and
  ResiduePasses.AlertsExactly.
- Limiter.AllowedExactly: on a clock that never steps back.
- Limiter.EveryRunIsLimited: on a clock that never steps back; LimiterClock.CapHoldsOnAnyClockExactly and
  LimiterClock.CapHoldsWithForcedExactly say what holds on any clock.
- RewindTwice.RewindsAddExactly: for a decoder that takes a trailing carriage return for white space, as JSON does.
- Reports.FamiliesHaveNoGaps: for proposed ids of the fixed width that a time stamp and a digest have.
- Monotone.AdmissionIsMonotone: for policies as loaded and free memory of at most 100 percent. Of a whole queue it holds
  exactly as PlanInversions.SlotPlansAreMonotoneExactly and PlanInversions.PlansAreMonotoneExactly say.
- PlanInversions.PlansAreMonotoneExactly: for spent tokens and estimates that are not negative.
- Git, gate, broker, fleet, user-interface and voice code, and code around these cores.
