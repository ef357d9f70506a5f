# EULLM: a Dafny model of its core and of the newsroom built on it

The project models the parts of the repository where state, time or arithmetic
make it hard to see that the code does what it promises, and proves those
promises for every input, every run and every interleaving.

* **Tenant limits** (`Calendar`, `Limits`, `LimitProtocol`, `MonthlyBudget`,
  `Pacing`): days and months are computed in closed form and compared with a
  calendar that counts one day after the other; the reserve, record and drop
  steps of a request are a state machine in which every read and write of the
  service is a step of its own; the pace of fetches is compared with all
  possible schedules.
* **Approvals** (`Approvals`, `ApprovalProtocol`, `Heartbeat`): the rows of the
  store, the queue of waiting runs, every way a run can hear a decision (a
  message, a poll, the deadline, another process, a restart) as steps of one
  machine, and the refreshes by which processes know of each other.
* **The agent loop** (`Llm`, `Policy`, `Agent`, `RunSafety`, `Transcript`):
  whole runs, for any rules, replies, answers of people and tool outputs, and
  the transcript as it is sent to the model.
* **Models and fallbacks** (`Router`): the fallback graph, the first model that
  answers, and what its answer costs.
* **File tools** (`FileTree`, `Workspace`): a file tree with symbolic links, the
  resolution of pathnames of XBD section 4.13 of POSIX.1-2017, and the
  confinement to one directory.
* **The automatic newsroom** (`NewsroomHours`, `Newsroom`, `Selection`,
  `MinHash`): hours that wrap past midnight, the day's line, articles brought
  forward and owed, the choice of proposals, near-duplicate texts.
* **Accounts and billing** (`Lockout`, `Intervals`, `Payments`,
  `PaymentHistory`): the lock after wrong passwords, billing periods, and
  payment notices in any order with any repeats.

What the source changes in place is a class whose methods are proved against
functions on plain values; runs and properties are stated about those
functions. What the code asks from outside (a clock, a database, a person, a
model, a gateway) is an input, taken to be arbitrary.

Findings about the code, each with the exact condition:

* before the first recorded call of a month the average is zero, and calls under
  way pile up without bound exactly when the limits leave anything to spend
  (`MonthlyBudget.CallsPileUpExactly`, `MonthlyBudget.NoBoundBeforeFirstCall`);
* with the window from 0 to 24 no hour is ever the last, and the day reaches its
  target exactly when the first hour leaves at most 23 articles
  (`NewsroomHours.TargetReached`);
* articles kept stay within the days' shares and the debt left exactly when the
  settings bring forward fewer than a day's articles, breaking news included;
  otherwise the debt is not repaid, because the target never falls below one
  (`Newsroom.KeptOverDays`, `Newsroom.DebtOfADayIsNotRepaid`);
* a process whose row was deleted refreshes in vain: until it connects anew,
  every recovery of another closes its runs (`Heartbeat.GoneForGood`);
* after a payment is marked as paid a step that fails is never tried again
  (`PaymentHistory.LaterNoticesDoNothing`, `PaymentHistory.PaidIsSettled`);
* a first payment moves the end of a paid period back exactly when it lies beyond
  one interval from now (`PaymentHistory.FirstResets`);
* twelve monthly periods end before a yearly one exactly when a month on the way
  is too short (`Intervals.TwelveMonthsOrAYear`);
* a write through a link is refused exactly when the path's text does not end in
  a slash or a dot (`Workspace.WriteRefusedExactly`).

## Model

| member | source | states |
|---|---|---|
| `Calendar.PeriodStartsAreCivil` | src/service.rs:288-299 | For every time, negative ones included, the closed form gives midnight of the civil day and midnight of the first day of its month, both found by counting days one at a time from 1970 |
| `Calendar.PeriodStartsOfToday` | src/service.rs:288-299 | The closed form is midnight of the day and of day 1 of its month, by the number of days counted year by year and month by month |
| `Calendar.SharedStarts` | src/service.rs:288-299 | Two times share a day start exactly when they share the date, and a month start exactly when they share year and month |
| `Calendar.StartsAreMonotone` | src/service.rs:288-299 | A later time never has an earlier day start or month start, and no start lies after its time |
| `Calendar.DayNumberOfDateOf` | src/service.rs:288-299 | Counting years and months agrees with stepping from day to day (leap rule of RFC 3339, Appendix C) |
| `Calendar.DateOfDayNumber` | src/service.rs:288-299 | Every valid date is the date of its own day number, so the count of days loses none |
| `Calendar.PeriodStartsFit` | src/service.rs:288-299 | From 31 days after the smallest 64-bit time on, both starts are 64-bit times again |
| `Limits.UsageStore.UsageOf` | src/store/memory.rs:150-176 | The loop over the logs returns exactly the runs, calls, tokens, cost and fetches of the tenant since a time |
| `Limits.UsageStore.Record` | src/store/memory.rs:125-148 | A record is added to the log, which keeps all others |
| `Limits.Admission.Reserve` | src/service.rs:111-118 | One more reservation on the key, all other keys unchanged |
| `Limits.Admission.Drop` | src/service.rs:46-62 | One reservation fewer, never below zero, and no key left at zero |
| `Limits.Admission.CheckMonth` | src/service.rs:151-183 | Refused exactly when the projected cost or tokens reach the month's limit |
| `Limits.Admission.CheckDay` | src/service.rs:184-203 | Refused exactly when pending and recorded runs reach the limit on runs, for a run, or pending and recorded fetches the limit on fetches, for a fetch; never for a model call |
| `Limits.MonthRefusesExactly` | src/service.rs:151-183 | With calls recorded, a run or a model call is refused exactly when cost or tokens, each call under way taken as the average one, reach the month's limit; a fetch never |
| `Limits.Admission.ReserveSlot` | src/service.rs:99-137 | A slot is held exactly when month and day allow it: a full day refuses a run by the limit on runs and a fetch by the limit on fetches, and what is refused on an open day is refused by the month; a refusal changes nothing |
| `LimitProtocol.DailyLimitsHold` | src/service.rs:99-137 | In every interleaving of gate, reads, reservations, records, drops and the clock, runs recorded today plus those reserved and not yet recorded stay within the tenant's limit on runs, fetches within its limit on fetches, and every in-flight count is the number of reservations on its key |
| `LimitProtocol.InvPreserved` | src/service.rs:184-202 | Every step keeps the counts exact, the limits kept, and what the gate's holder has read a bound on what it read about |
| `LimitProtocol.LoadNeverGrows` | src/service.rs:447-459 | No step but an admission on the key raises recorded plus live work: recording moves it, dropping lowers it |
| `LimitProtocol.OppositeReadOrderMissesWork` | src/service.rs:103-126 | With the store read before the table, the only run under way, recorded and dropped in between, is seen by neither read: with the day full a check passes and the day goes one over its limit |
| `LimitProtocol.UninterruptedCheck` | src/service.rs:103-137 | With nothing in between, the machine admits what the sequential check admits and ends in its table |
| `MonthlyBudget.MonthlyTokensBounded` | src/service.rs:151-183 | Once a call is recorded in the month with no check of the tenant under way, if all calls use t tokens, recorded plus under-way calls stay under the limit plus t, whatever the interleaving |
| `MonthlyBudget.MonthlyBudgetBounded` | src/service.rs:151-183 | The same for either monthly limit, in tokens or in cost, each call coming to one amount |
| `MonthlyBudget.BudgetPreserved` | src/service.rs:122-136 | Every step of the month keeps that bound, for either limit, and what a check has read |
| `MonthlyBudget.ProjectionIsExact` | src/service.rs:156-183 | When every call used t tokens the projection is exactly t for each recorded and pending call |
| `MonthlyBudget.NoBudgetBeforeFirstCall` | src/service.rs:156-162 | Before the first recorded call any number of pending calls passes the check, exactly when the limits are above zero |
| `MonthlyBudget.CallsPileUpExactly` | src/service.rs:122-136 | Before anything is recorded, runs of the protocol have any number of model calls of a tenant under way exactly when its limits leave something to spend |
| `MonthlyBudget.NoBoundBeforeFirstCall` | src/service.rs:151-183 | Such a run stays in the month and goes above every budget, so the bound needs its first recorded call |
| `Pacing.FetchService.TakeSlot` | src/service.rs:605-621 | The wait leads to the host's next slot, or to now; the map is pruned past 10,000 hosts and holds the slot after |
| `Pacing.StartsArePaced` | src/service.rs:605-621 | On a clock that does not go back, starts to one host are at least the interval apart and never before arrival |
| `Pacing.StartsAreEarliest` | src/service.rs:605-621 | No schedule in arrival order starts any request earlier |
| `Pacing.PruningIsInvisible` | src/service.rs:605-621 | The pruned map gives every request the slot a map never pruned gives it |
| `Approvals.Store.CreateApproval` | src/store/memory.rs:193-201 | The row is stored and its run waits |
| `Approvals.Store.DecideApproval` | src/store/memory.rs:203-233 | Only a pending row of the deciding tenant is decided, and its run goes on; otherwise nothing changes |
| `Approvals.OwnTenantDecides` | src/store/sqlite.rs:503-546 | Another tenant's decision, or one on a row not pending, changes nothing; the own tenant's gives exactly that row the verdict, who gave it and the note, and lets its run go on if it waited |
| `Approvals.Store.ExpireApproval` | src/store/memory.rs:235-243 | Only a pending row expires |
| `Approvals.Store.GetApproval` | src/store/memory.rs:245-248 | A tenant reads its own row and no other's |
| `Approvals.Store.RecoverInterrupted` | src/store/sqlite.rs:585-630 | The runs of processes that are gone are closed, their pending rows expired, and their number returned |
| `Approvals.RecoveryClosesOnlyTheGone` | src/store/sqlite.rs:585-621 | A run changes exactly when it was interrupted, a row exactly when it was pending for such a run; nothing of a process seen lately changes |
| `Approvals.RecoveryIsIdempotent` | src/store/sqlite.rs:585-630 | A second recovery finds nothing left |
| `Approvals.ApprovalQueue.Await` | src/approvals.rs:147-161 | The wait ends at the first wake that carries a decision, a lost sender or the deadline, with what that one says |
| `Approvals.WhatEndsTheWait` | src/approvals.rs:149-161 | A decision, a lost sender, the deadline and a poll that shows a row no longer pending end the wait, and nothing else |
| `Approvals.OutcomeExactly` | src/approvals.rs:82-93 | A row tells nothing while pending, then its own verdict with who gave it and the note; an expired one that nobody decided |
| `Approvals.ApprovalQueue.Conclude` | src/approvals.rs:162-177 | A decision heard is returned; otherwise the row is expired if still pending and its own status is the outcome |
| `Approvals.ApprovalQueue.Decide` | src/approvals.rs:182-208 | The decision is stored and the waiter, if any, removed and sent that outcome |
| `ApprovalProtocol.DecidedOnce` | src/store/sqlite.rs:503-570 | A row leaves pending at most once: from then on it never changes and is never lost |
| `ApprovalProtocol.DecidedByItsTenant` | src/store/sqlite.rs:503-546 | Whatever step leaves a row approved or denied that was pending, it is a decision of the row's own tenant, and the row keeps its verdict, giver and note |
| `ApprovalProtocol.OutcomeIsStored` | src/approvals.rs:115-178 | The outcome a request returns equals the status stored then and ever after, however it was heard |
| `ApprovalProtocol.ExecutedOnlyIfApproved` | src/agent/mod.rs:338-391 | A call that needed approval executes only if its row is approved, and the row stays so |
| `ApprovalProtocol.ExecutedOnlyIfItsTenantApproved` | src/agent/mod.rs:338-391 | In every run, a call that needed approval executes only after a step in which its own tenant approved it |
| `ApprovalProtocol.AllHearTheSame` | src/approvals.rs:115-208 | At any two moments, what is sent, about to be sent, heard or returned for one approval is the same outcome, and the one its row keeps |
| `ApprovalProtocol.InvPreserved` | src/approvals.rs:115-208 | Every step of a request, a decision, another process or a recovery keeps what was heard equal to the rows |
| `Heartbeat.SeenAtLastBeat` | src/store/sqlite.rs:76-97 | The row of a process that refreshes in time is there and holds its last refresh, whatever others recover in between |
| `Heartbeat.BeatingProcessIsSafe` | src/store/sqlite.rs:585-630 | Over any steps, a process whose last refresh is at most three beats old at each recovery of another never has a run closed or an approval expired by one |
| `Heartbeat.ClosedExactlyWhen` | src/store/sqlite.rs:585-630 | At the next recovery of another an unfinished run of that kind is closed, and the row deleted, exactly when the refresh is older |
| `Heartbeat.GoneForGood` | src/store/sqlite.rs:85-97 | A deleted row does not come back by refreshing, and every recovery of another closes what the process has unfinished |
| `Policy.FirstRuleWins` | src/policy.rs:162-201 | The first applying rule decides, the default exactly when none applies |
| `Policy.MatchesExactly` | src/policy.rs:142-147 | A pattern ending in a star stands for all names that begin with the rest, any other for itself |
| `Policy.AppliesExactly` | src/policy.rs:169-173 | A rule speaks of its tools, in its profiles or all, in runs tainted as it says or any |
| `Policy.OneEffectDecides` | src/policy.rs:162-201 | There is always exactly one deciding effect: the first applying rule's, else the default |
| `Policy.EvaluateExactly` | src/policy.rs:162-220 | Denied exactly when the deciding effect is deny, put to a person exactly when it is require_approval; an allowed tool behind a closed gate gets the gate's effect |
| `Policy.AllowedExactlyWhen` | src/policy.rs:162-211 | A call runs unasked exactly when the first applying rule, or the default, allows it and no taint gate stands closed |
| `Agent.Run.Account` | src/agent/mod.rs:201-208 | Tokens and cost of an answer are added; without usage nothing changes |
| `Agent.Run.HandleToolCall` | src/agent/mod.rs:304-409 | The call is decided, put to a person if the decision says so, run or refused, recorded, and marks the run with what it read |
| `Agent.Run.HandleCalls` | src/agent/mod.rs:292-298 | Each call of a reply is handled in order with the marks of those before, and answered in the transcript |
| `Agent.Run.Iteration` | src/agent/mod.rs:237-299 | Time, tenant budget, model, accounting, run budget, answer or calls, in that order |
| `Agent.Run.RunLoop` | src/agent/mod.rs:225-302 | The loop is the run: iterations until one ends it or their number is reached |
| `RunSafety.TaintIsContained` | src/policy.rs:162-211 | In every run, with a taint effect other than allow, a side-effect tool that executes after external content was approved by a person, and so was an egress tool after external and private reads, calls inside one reply included |
| `RunSafety.CallsDecidedExactly` | src/agent/mod.rs:329-391 | In every run each call is decided by the rules and gates in the state it came in: a person is asked exactly when they require it, it executes exactly when they allow it or a person approved, and one that the first applying rule or the default denies never executes, whatever people answer |
| `RunSafety.ResultExactly` | src/agent/mod.rs:373-409 | The model sees the tool's own output if the call ran and gave one, and otherwise an error |
| `RunSafety.TaintGateExactly` | src/agent/mod.rs:329-391 | After external content a side-effect tool runs without a person exactly when the profile has it, the rules allow it and the taint effect is allow |
| `RunSafety.RanOnlyIfPermitted` | src/agent/mod.rs:329-391 | A call is not refused exactly when it was allowed or a person approved it |
| `RunSafety.ModelCalledWithinBudget` | src/agent/mod.rs:210-223 | No later model call of a run is made with more tokens or cost than the profile allows |
| `RunSafety.TotalsAreSums` | src/agent/mod.rs:201-208 | A run's counters are the sums over its answers of input tokens, output tokens and known costs |
| `RunSafety.StopsOverBudget` | src/agent/mod.rs:210-223 | A run stops for its budget exactly when an answer takes its tokens or cost over it |
| `RunSafety.IterationExactly` | src/agent/mod.rs:237-299 | The model is asked only with time left and the call admitted; without an answer, or with one that calls nothing, the run ends there and no tool runs |
| `RunSafety.CallsAreLogged` | src/agent/mod.rs:292-298 | Every call of a reply is recorded, in order |
| `RunSafety.BeforeIsOnTheRun` | src/agent/mod.rs:235-302 | The states these properties speak of are those the run passes through |
| `RunSafety.ModelSeesTranscript` | src/agent/mod.rs:235-299 | Whenever the model is called the messages are a system prompt, what the user asked and rounds in which every call is answered once, in order |
| `RunSafety.ModelCallIsWellShaped` | src/llm/anthropic.rs:96-163 | At every model call of every run what is sent is well shaped and loses nothing |
| `Transcript.ToAnthropicMessages` | src/llm/anthropic.rs:96-163 | The loop, appending into its last message in place, computes the conversion |
| `Transcript.SystemTextIsLast` | src/llm/anthropic.rs:96-110 | The last system message is the one kept |
| `Transcript.AssistantExactly` | src/llm/anthropic.rs:112-140 | An assistant message is its text alone, or parts when it calls tools, its text first if it says anything |
| `Transcript.NothingIsLost` | src/llm/anthropic.rs:96-163 | A decoder gets back every non-system message of any list, up to what the form cannot tell apart |
| `Transcript.TranscriptReadBack` | src/llm/anthropic.rs:96-163 | For a transcript of the loop the decoder gets back exactly the messages after the system one, and the system text is kept |
| `Transcript.TranscriptIsWellShaped` | src/llm/anthropic.rs:96-163 | The messages start with user, strictly alternate, and each assistant message's tool-use ids are answered in order, once, by the next |
| `Transcript.RoundKeepsShape` | src/llm/anthropic.rs:96-163 | Adding a reply with calls and its results keeps that shape |
| `Llm.TranscriptExtended` | src/llm/mod.rs:42-78 | A transcript followed by a round is a transcript |
| `Llm.PriceIsPerMillion` | src/llm/mod.rs:104-118 | A million input tokens cost the input price, a million output tokens the output price, and usages add up |
| `Llm.CostExactly` | src/llm/mod.rs:104-118 | The price that counts is that of the fallback that answered, even if it has none, otherwise the model's own |
| `Router.Walk` | src/router.rs:52-67 | The walk terminates with the chain of repeated fallbacks, none twice, or with a model that lies on a cycle |
| `Router.FromConfig` | src/router.rs:31-85 | It succeeds exactly when the fallback graph has no cycle; every model is routed along its chain, and what is complained about is on a cycle |
| `Router.ValidatedIsClosed` | src/config.rs:626-640 | A validated configuration names only models that exist as fallbacks |
| `Router.ChainIsUnique` | src/router.rs:52-67 | A model has one chain only |
| `Router.CycleNeverEnds` | src/router.rs:52-67 | From a model on a cycle the fallbacks never end |
| `Router.ChatChain` | src/router.rs:212-237 | The first model that succeeds answers, marked with its name and price; if none does the last error is returned |
| `Router.Chat` | src/router.rs:68-75 | A routed model answers with its one client or with its chain |
| `Router.OnlyMissingUsageIsEstimated` | src/router.rs:171-186 | A reported usage is kept, a missing one filled in, and nothing else changes |
| `Router.ChargedAtItsOwnPrice` | src/llm/mod.rs:104-118 | Whatever the client at each place of the chain answers, the answer is that of the first fallback that succeeds, charged at that model's own price from a usage that is always there; there is none exactly when all failed |
| `FileTree.WalkInParts` | src/tools/sandbox.rs:62-74 | Resolving a path may be cut anywhere, links followed up to the cut |
| `FileTree.FollowedIsNoLink` | src/tools/sandbox.rs:72-75 | A path with all its links followed ends at no link |
| `FileTree.StraightWalk` | src/tools/sandbox.rs:72-75 | An entry's own path leads to it through no link |
| `Workspace.ResolvePath` | src/tools/sandbox.rs:37-83 | The two loops terminate and compute the resolution |
| `Workspace.ComponentsExactly` | src/tools/sandbox.rs:41-60 | A text's components are those of its parts around a slash; a part without slashes is one, unless empty or a dot |
| `Workspace.JoinedExactly` | src/tools/sandbox.rs:37-60 | Asked for may be exactly a text neither empty nor with a NUL, under the root if absolute, without a dot-dot below it; relative ones are put under the root |
| `Workspace.ResolvePathForWrite` | src/tools/sandbox.rs:87-105 | The checks before a write, in their order, compute its resolution |
| `Workspace.DeepestExists` | src/tools/sandbox.rs:62-71 | The walk up stops at the deepest part that exists; everything longer is missing |
| `Workspace.ResultIsConfined` | src/tools/sandbox.rs:37-83 | Any path returned lies under the root: an existing part without a link, then names that do not exist |
| `Workspace.LeadsNowhereElse` | src/tools/sandbox.rs:72-83 | On an unchanged tree such a path leads to itself if it exists and nowhere if not |
| `Workspace.ResolveAgain` | src/tools/sandbox.rs:37-83 | Resolving a returned path gives it back |
| `Workspace.ExistingIsCanonical` | src/tools/sandbox.rs:72-83 | A path that exists is resolved to the entry it leads to, and refused exactly when that lies outside the root |
| `Workspace.NewPathUnderEntry` | src/tools/sandbox.rs:62-83 | The part of a path that does not exist is put after the entry the rest leads to, and refused exactly when that is not under the root |
| `Workspace.WriteRefusedExactly` | src/tools/sandbox.rs:87-105 | A resolvable path is refused for a write exactly when it is the root, or a link and its text does not end in a slash or a dot |
| `NewsroomHours.HoursLeft` | editor-mode/src/editor/autopilot.py:250-255 | The hour-by-hour count is the distance to the window's end, past midnight too |
| `NewsroomHours.InHoursExactly` | editor-mode/src/editor/autopilot.py:245-247 | The working hours are those less than the window's length after its start, the clock taken round midnight |
| `NewsroomHours.LastHourExactly` | editor-mode/src/editor/autopilot.py:250-255 | A window has a last hour exactly when it is not 0 to 24 |
| `NewsroomHours.DueAtTheEnds` | editor-mode/src/editor/autopilot.py:258-264 | The first hour is due the morning's share, the last of several the whole day |
| `NewsroomHours.DueIsLeast` | editor-mode/src/editor/autopilot.py:258-264 | By each hour the line is the least number of articles that make up the morning's share and, of the rest, the part of the later hours gone |
| `NewsroomHours.OrdinaryRoundStaysWithin` | editor-mode/src/editor/autopilot.py:686-733 | However many are accepted, an ordinary round takes kept no further than the target, tries no further than twice the day's articles, and no more than the month has left |
| `NewsroomHours.WantExactly` | editor-mode/src/editor/autopilot.py:724-732 | A round asks for as many as would, taken every hour, use up the hours left, or what is missing to the line if that is more, and never more than the month has left |
| `NewsroomHours.FullRoundCatchesUp` | editor-mode/src/editor/autopilot.py:724-733 | A round that gets what it wants reaches the smaller of target and line, and the target in the last hour |
| `NewsroomHours.DayKeepsTheLine` | editor-mode/src/editor/autopilot.py:245-264 | After every hour of a day of such rounds, in any window, kept is at least the smaller of target and line, and equals the target after a last hour |
| `NewsroomHours.TargetReached` | editor-mode/src/editor/autopilot.py:245-264 | In every accepted window the day ends with its target, but for 0 to 24, where it does exactly when the target is at most 23 more than the first hour's articles |
| `NewsroomHours.WholeDayKept` | editor-mode/src/editor/autopilot.py:724-730 | From 0 to 24 the first hour takes the morning's share or a twenty-fourth, and each later hour a twenty-fourth of what is left |
| `NewsroomHours.WholeDayNeverEnds` | editor-mode/src/editor/autopilot.py:250-264 | From 0 to 24 every hour counts 24 hours left and the line stays at the morning's share |
| `NewsroomHours.WholeDayMissesTarget` | editor-mode/src/editor/autopilot.py:250-264 | So 48 articles from 0 to 24 with no morning share end at 36 |
| `Newsroom.Site.Hour` | editor-mode/src/editor/autopilot.py:628-763 | One hour of the newsroom: which of ordinary, brought forward, paid, breaking or nothing, and what it leaves counted and stored |
| `Newsroom.Site.Breaking` | editor-mode/src/editor/autopilot.py:662-675 | Breaking news is taken and counted only if wanted, found and within three a day |
| `Newsroom.Site.Ordinary` | editor-mode/src/editor/autopilot.py:723-733 | An ordinary round takes what is wanted, the month's quota included, of what is found |
| `Newsroom.Site.ChooseExtra` | editor-mode/src/editor/autopilot.py:686-708 | Whether an article beyond the target is brought forward, paid or not made |
| `Newsroom.Site.Live` | editor-mode/src/editor/schedule.py:297-303 | Hour after hour and day after day, with discards in between, the site is where the properties below say |
| `Newsroom.WhatARoundNeeds` | editor-mode/src/editor/autopilot.py:628-763 | What each kind of article needs: the plan, the hours, a target and tries not used up; a day that has its own; credits; news, fewer than three, and a month not over |
| `Newsroom.WhatARoundDoes` | editor-mode/src/editor/autopilot.py:690-763 | A day that has its own makes one brought forward while there is room, else one paid for, else breaking news; a month that is over only a paid one |
| `Newsroom.OutOfHours` | editor-mode/src/editor/autopilot.py:677-678 | Out of hours only breaking news is made |
| `Newsroom.OrdinaryTakes` | editor-mode/src/editor/autopilot.py:723-750 | A day short of its target and tries takes what is wanted as far as there is something to take |
| `Newsroom.RoundWithinMonth` | editor-mode/src/editor/autopilot.py:656-661 | No round takes on more than the month has left; with nothing left it makes at most one article, and pays for it |
| `Newsroom.MonthKeepsQuota` | editor-mode/src/editor/autopilot.py:628-763 | Over any days of a month whose rounds are told at most the quota less what is kept, articles not paid with credits stay within the quota |
| `Newsroom.DebtExactly` | editor-mode/src/editor/autopilot.py:608-625 | Today starts from its own record, or from what yesterday kept beyond its target of what it brought forward; anything older is forgotten |
| `Newsroom.RoundBalances` | editor-mode/src/editor/autopilot.py:690-763 | Every round keeps the day's articles within its target, the credit-paid ones and those owed, and the free ones beyond the target within what may be brought forward |
| `Newsroom.DayCloses` | editor-mode/src/editor/autopilot.py:608-625 | At midnight what was kept is within the target, the credit-paid ones and the debt carried on |
| `Newsroom.KeptOverDays` | editor-mode/src/editor/autopilot.py:608-763 | Over any number of days and events, kept is at most days times per-day plus credit-paid extras plus what today leaves owing, exactly when borrowing plus the day's breaking news is below a day's articles |
| `Newsroom.DebtLowersTarget` | editor-mode/src/editor/autopilot.py:608-625 | An article brought forward, or breaking news, once the day has its own raises tomorrow's debt by one and lowers its target by one, down to one |
| `Newsroom.DebtOfADayIsNotRepaid` | editor-mode/src/editor/autopilot.py:689-703 | For all other settings there are two days that keep a day's articles, all that may be brought forward, all breaking news and one more: above the bound |
| `Newsroom.KeptWhileDebtIsSmall` | editor-mode/src/editor/autopilot.py:608-763 | Whatever the settings, the bound holds for every run whose debt stays below a day's articles |
| `Newsroom.DebtStaysSmall` | editor-mode/src/editor/autopilot.py:608-703 | The debt stays below a day's articles in all runs exactly when borrowing, as much again as credits can pay, and the breaking news are below them together |
| `Selection.FindOverlap` | editor-mode/src/editor/autopilot.py:388-400 | The loop finds whether any taken story is told again |
| `Selection.RetellsExactly` | editor-mode/src/editor/autopilot.py:379-400 | Two stories are one by names, words of the title or words in all shared, in number and as a part of the shorter |
| `Selection.CapIsTheShare` | editor-mode/src/editor/autopilot.py:426-439 | A cap is the share of the day to the nearest article, to the even one of two as near, and at least one |
| `Selection.Chooser.ReadRows` | editor-mode/src/editor/autopilot.py:525-548 | The first pass over the rows, its lists and counts, and the avoided rows turned down |
| `Selection.Chooser.FillUp` | editor-mode/src/editor/autopilot.py:553-559 | The second pass over the rows fewer outlets tell |
| `Selection.Chooser.Choose` | editor-mode/src/editor/autopilot.py:489-559 | Both passes, in order |
| `Selection.ChoiceKeepsLimits` | editor-mode/src/editor/autopilot.py:489-559 | At most n chosen, none avoided nor retelling a recent or earlier chosen story, and every foreign country and section at or below the larger of its starting count and its cap |
| `Selection.ChoiceIsMaximal` | editor-mode/src/editor/autopilot.py:489-559 | With fewer than n chosen, every row was chosen, is avoided, belongs to a foreign country or a section whose share is reached, or retells a recent or chosen story |
| `Selection.NextIsTaken` | editor-mode/src/editor/autopilot.py:525-546 | A row told by enough outlets that comes while fewer than n are taken is the next one taken, or left out for such a reason |
| `Selection.TakenInOrder` | editor-mode/src/editor/autopilot.py:525-546 | Those taken stand in the rows one after the other |
| `Selection.AvoidedExactly` | editor-mode/src/editor/autopilot.py:528-537 | Rows turned down for good are those on a topic to avoid |
| `Selection.SourcedComeFirst` | editor-mode/src/editor/autopilot.py:525-559 | News told by enough outlets come first, the others only if those fall short |
| `MinHash.Euclid` | editor-mode/src/editor/dedup.py:16-18 | A prime divides no product of two positive numbers below it |
| `MinHash.PermutedInjective` | editor-mode/src/editor/dedup.py:32-36 | Each permutation sends different hashes to different values |
| `MinHash.AgreeExactlyWhen` | editor-mode/src/editor/dedup.py:32-36 | Two non-empty texts agree in a position exactly when the hash lowest in it among both belongs to both |
| `MinHash.AgreementIsShared` | editor-mode/src/editor/dedup.py:32-42 | Texts that agree in a position share a shingle's hash, or are both empty |
| `MinHash.SignatureOfUnion` | editor-mode/src/editor/dedup.py:32-36 | The signature of joined shingles is the lower value in every position, the empty text's being the identity |
| `MinHash.SimilarityRange` | editor-mode/src/editor/dedup.py:39-42 | Similarity is symmetric and between 0 and 1; 1 exactly for equal signatures, 0 exactly without an agreeing position |
| `MinHash.SimilarityIsShare` | editor-mode/src/editor/dedup.py:39-42 | Similarity is the share of agreeing positions |
| `MinHash.FindDuplicate` | editor-mode/src/editor/dedup.py:45-54 | The last candidate of greatest similarity at or above the threshold; none exactly when all are below |
| `MinHash.JoinInjective` | editor-mode/src/editor/dedup.py:21-25 | A shingle's text gives its words back |
| `MinHash.DuplicatesShareWords` | editor-mode/src/editor/dedup.py:21-54 | Without colliding hashes, texts similar above zero share three consecutive words, or are equal and shorter |
| `Lockout.Accounts.Authenticate` | editor-mode/src/editor/accounts.py:139-163 | The branches of one attempt: what is answered and what the accounts are after |
| `Lockout.SignInExactly` | editor-mode/src/editor/accounts.py:139-163 | In gets exactly an account that is there, not disabled, with a password, its lock over, with the password that fits; that clears failures and lock. While the lock lasts nothing changes |
| `Lockout.WrongPasswordsBounded` | editor-mode/src/editor/accounts.py:37-38 | Over attempts at non-decreasing times with no success, the wrong passwords checked on an account in a closed window number at most 5 × (window / 15 minutes + 1), whatever happens on others |
| `Lockout.BoundIsReached` | editor-mode/src/editor/accounts.py:139-163 | For every number of locks there are attempts that reach the bound |
| `Lockout.OthersLeaveItAlone` | editor-mode/src/editor/accounts.py:139-163 | Attempts on other accounts do not touch an account |
| `Lockout.LockEnds` | editor-mode/src/editor/accounts.py:153-163 | Fifteen minutes after the last attempt no account is locked |
| `Intervals.MonthlyPeriods` | editor-mode/src/editor/billing.py:63-68 | n monthly steps are exactly n months later, on the smaller of the starting day and the shortest month visited |
| `Intervals.MonthSpan` | editor-mode/src/editor/billing.py:63-68 | A monthly step spans 28 to 31 days |
| `Intervals.YearSpan` | editor-mode/src/editor/billing.py:63-68 | A yearly step spans 365 or 366 days |
| `Intervals.LaterIsMonotone` | editor-mode/src/editor/billing.py:63-68 | An interval keeps the order of dates |
| `Intervals.OrderIsWeak` | editor-mode/src/editor/billing.py:63-68 | Two different dates may have the same month later |
| `Intervals.TwelveMonthsOrAYear` | editor-mode/src/editor/billing.py:63-68 | Twelve monthly steps never end after a yearly one, and with it exactly when no month on the way is too short |
| `Intervals.PeriodLength` | editor-mode/src/editor/billing.py:63-68 | A period ends later by that many days at the same time of day; only the year 9999 has no next one |
| `Payments.Billing.GatewayEvent` | editor-mode/src/editor/billing.py:882-951 | One notice, branch by branch: unknown, a renewal not seen before, unchanged, credits, first payment, renewal, failure, and the errors that stop it |
| `Payments.Billing.Grant` | editor-mode/src/editor/credits.py:165-185 | Credits are added once for a payment, or an error leaves the ledger as it was |
| `Payments.Billing.Activate` | editor-mode/src/editor/billing.py:917-938 | A first payment starts the plan from now, and frees the newsroom |
| `Payments.Billing.Renew` | editor-mode/src/editor/billing.py:939-945 | A renewal extends the period by one interval and frees the newsroom, branch by branch |
| `PaymentHistory.OnlyPayingActs` | editor-mode/src/editor/billing.py:904-951 | A notice that does not make a payment paid moves no credits, period or hold; at most an active subscription becomes past due |
| `PaymentHistory.TakesEffectOnce` | editor-mode/src/editor/billing.py:904-908 | In any order and with any repeats a payment takes effect at most once, exactly when it was unpaid before and is paid after |
| `PaymentHistory.PaidStays` | editor-mode/src/editor/billing.py:904-908 | A paid payment never changes again |
| `PaymentHistory.LaterNoticesDoNothing` | editor-mode/src/editor/billing.py:904-906 | Once paid, a later notice changes nothing at all |
| `PaymentHistory.CreditsAreThoseSold` | editor-mode/src/editor/billing.py:907-915 | The credits granted to a newsroom are the sum over its distinct paid credit payments, when every grant succeeds |
| `PaymentHistory.GrantedExactlyWhen` | editor-mode/src/editor/billing.py:910-915 | A sale is granted exactly when its credits are not zero, the newsroom exists and the ledger takes them |
| `PaymentHistory.PaidIsSettled` | editor-mode/src/editor/billing.py:904-915 | A sale not granted when it became paid is never granted later |
| `PaymentHistory.RenewalExtends` | editor-mode/src/editor/billing.py:939-945 | A paid renewal adds exactly one interval to the later of the end and now, 28 to 31 or 365 to 366 days, so its end is at least 28 days after both; it is lost only at the end of the calendar |
| `PaymentHistory.RenewalsNeverShorten` | editor-mode/src/editor/billing.py:882-945 | Over any notices but first payments of the newsroom its paid end never moves back |
| `PaymentHistory.FirstResets` | editor-mode/src/editor/billing.py:917-938 | A first payment sets the end one interval from now, so it moves it back exactly when what was paid goes further |
| `PaymentHistory.FirstActivates` | editor-mode/src/editor/billing.py:917-938 | A first payment puts the newsroom on its plan, paid from now and renewed by the new subscription; without that it changes only its own status |
| `PaymentHistory.PayingReleases` | editor-mode/src/editor/billing.py:936-944 | A payment that starts or renews a plan frees the newsroom held for its bills, and no other hold |
| `PaymentHistory.UnpaidExactly` | editor-mode/src/editor/billing.py:904-951 | A failed, expired or canceled renewal leaves an active subscription past due; any other notice of something unpaid only the payment's status |
| `PaymentHistory.NewPaymentExactly` | editor-mode/src/editor/billing.py:886-903 | A payment not on the books is unknown unless the gateway renewed with it a subscription of ours; then it is put down for that newsroom |
| `PaymentHistory.SaleGrants` | editor-mode/src/editor/billing.py:910-915 | A sale granted adds one entry, of as many credits as the gateway says, or as the note says if it says none |

## Left out

- Floating point: costs, the catch-up line, shares and similarities are exact rationals, so a result that hangs on a rounding error of a double is not modelled.
- Integer widths: counters, tokens and the values inside the calendar computation are unbounded; `Calendar.PeriodStartsFit` bounds its results.
- SQL text, migrations and PostgreSQL: each guarded update is its effect on a map of rows; transactions are single steps, and two processes meet only through those rows.
- `Heartbeat.BeatingProcessIsSafe`: all processes use one heartbeat interval and one clock, as processes on one database file do.
- Clocks: daily limits and the pace assume a clock that does not go back, and limits that do not change; several processes together may exceed a daily limit.
- Network, providers, people and tools: their answers are inputs. A tool's output is what the model will see of it, already capped; `strip_think_blocks` is an arbitrary function of text.
- The text of messages and errors is shortened, and where several errors lead to the same refusal they are one.
- HTTP serving, the web pages, setup, backups, process execution and sandboxing of programs: request handling and I/O around the functions modelled here.
- The planner, the editor's checks, translation and publishing of the newsroom: what a round finds and whether it is accepted are inputs, and the sharing of topics and names between texts is a set of words.
- `Newsroom.KeptOverDays`: assumes that nothing is kept across midnight, that articles are only discarded between rounds, and that settings stay as they are.
- `NewsroomHours.TargetReached`: rounds get what they want, nothing is discarded and the month's quota does not bind.
- `Router.ChargedAtItsOwnPrice`: takes a provider's own answer to name no fallback, as every provider of the repository leaves it.
- `Lockout.WrongPasswordsBounded`: password resets and new passwords, which clear the counters as a success does, are not among the attempts.
- `Newsroom.MonthKeepsQuota`: articles accepted and not yet written, which the plan's own count leaves out, are counted as kept.
- Hash functions: the shingle hash and the password check are arbitrary functions; that the prime of `dedup.py` is prime is a hypothesis.
- Reading a sale's credits out of the text of a payment's metadata or note: both are numbers in the model.
- Refunds, manual payments, starting and cancelling a subscription, and the hourly end of trials: they appear in runs as arbitrary changes of subscriptions and newsrooms, and only notices are modelled.
- Building a provider's client may fail before any fallback is looked at; the model starts with the clients built.
- File permissions and changes of the tree between the check and the use; the limit on links followed is one number for every lookup.
