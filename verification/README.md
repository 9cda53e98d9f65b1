# A verified model of RDPBlocker

RDPBlocker counts failed logins per remote address, puts a firewall rule in place when an address has
failed too often, and takes the rule away again after a while. It also judges successful logins by the
name of the workstation that they come from. This project models that logic in Dafny and proves what it
does over every history, every run and every interleaving of its threads.

## How the model is laid out

| files | what they are |
|---|---|
| `Clocks`, `RemoteAddressStatus`, `FailBanThread`, `IoContext`, `FirewallController`, `RandomUtils`, `ConcurrentQueue`, `WorkstationPolicy`, `SuccessThread` | the objects and loops of the C++ sources, updated in place |
| `FailBan` | what one failed-login event does to the table of addresses, as a function (`Step`) of the event and of the clock readings taken while it is handled; `State` folds it over a history, `Genuine` says which histories can happen |
| `Projection`, `FailureCounts`, `BlockTransitions` | theorems about all genuine histories |
| `RuleTasks` | the tasks that add and delete rules, on an event loop with timers, as a state machine |
| `MonitorQueue` | the queue as a monitor: any number of threads, one action for each step that others can see |
| `FailMachine`, `BlockingSystem`, `SystemTheorems`, `RuleOrigins` | the failed-login thread one clock reading at a time, the whole program as a state machine with restarts, and theorems about every run: `RuleOrigins` says which decision each rule comes from |
| `Composition` | the whole program with the monitor in the place of its atomic queue |

The imperative classes are proved against the functions. The contract of each method ties every field that
it may change to its old value, up to clock readings, random draws and the order in which a sweep visits the
records; and between two events `FailBanThread.Thread.Valid` says that the table is the fold of a genuine
history. The state machines use the same functions: the log that `FailMachine` builds from single
clock readings is a genuine history, and its table is the fold of that log, so the theorems about histories
hold of every run of the whole program.

Every reading of `time(0)` is one of its own; successive readings do not go back and are otherwise
arbitrary. In `BlockingSystem` an instant is a real number, which the steady clock shows as it is, and
`time(0)` is that instant plus an arbitrary phase, cut down to whole seconds.

## Assumptions

- Both clocks are monotone and run at the same rate; their phase is arbitrary.
- The event loop runs handlers in the order in which they were queued, one at a time, and a timer whose
  deadline has passed queues its handler at some later moment, in any order among timers.
- A new random rule name is not in the firewall and not in use by an unfinished task (`RuleTasks.NameIsFree`).
- Adding and removing a firewall rule is atomic. Both may fail, and then the firewall stays as it is.
- Nobody else changes firewall rules while the program runs. The rules that are there before the first start
  are arbitrary, leftovers of earlier versions and look-alikes included, and a clean-up at a start may remove
  all of the rules that it looks for, only some of them, or none (`FirewallController.Trimmed`).
- For coming to rest (`SystemTheorems.ComesToRest`): there are as many free names as rules still to post.
- The address parser and the regular expression search are arbitrary total functions. The rule prefix has no
  special characters, so that searching for it is searching for a substring.

## Where code and documentation differ

- An address is blocked when its count is equal to the threshold (source/main.cpp:157); the repository's README.md:56 and
  inno/Release/config.yaml:13 say greater. `FailureCounts.FirstBlockAtThreshold` states what the code does.
- The repository's README.md:45 gives the duration as the block time plus a random delay from the range; with equal ends the
  delay drawn is 0 and not that end (source/random_utils.cpp:5-12).
- Its README.md:71 says that a name is bound at the first login. The name is bound as a regular expression, so that
  a first login whose name does not match itself is blocked: `WorkstationPolicy.FirstLogin`.
- `BlockInboundIP` reports failure even when it succeeds (source/firewall_controller.cpp:250); no caller looks.
- That the failures behind a first block fall within one expiry time for each but the first is not true in
  general, because a failure is checked by the sweep and stamped only later, after other work. It holds in every
  run exactly if the threshold is at most 1, or is 2 and records expire (`FailureCounts.SimpleBoundIff`). In
  general the span exceeds it by at most the lag of the failures in the middle (`FailureCounts.NoPrematureBlock`),
  and for every threshold above 2 and every lag some run attains that (`FailureCounts.BoundIsAttained`).

## Model

| member | source | states |
|---|---|---|
| Clocks.Clock.Read | source/timer.cpp:12-20 | a reading of the clock is never earlier than the one before it |
| RemoteAddressStatus.Status.constructor | source/remote_address_status.cpp:3-10 | a new record has count, expiry time and block time 0, with both timers at the time of its making |
| RemoteAddressStatus.Status.SetCount | source/remote_address_status.cpp:21-24 | only the count changes |
| RemoteAddressStatus.Status.SetExpireTime | source/remote_address_status.cpp:31-35 | sets the expiry time and restarts its timer; count and block stay |
| RemoteAddressStatus.Status.ResetExpireTimer | source/remote_address_status.cpp:37-40 | restarts the expiry timer and nothing else |
| RemoteAddressStatus.Status.SetBlockTime | source/remote_address_status.cpp:56-60 | sets the block time and restarts its timer; count and expiry stay |
| RemoteAddressStatus.Status.IsExpired | source/remote_address_status.cpp:42-49 | true exactly when the expiry time is positive and the clock is past stamp plus expiry time, strictly; the record is not changed |
| RemoteAddressStatus.Status.IsBlocked | source/remote_address_status.cpp:67-76 | true exactly when the block time is positive and the clock is not past stamp plus block time; the record is not changed |
| RandomUtils.RandomInt | source/random_utils.cpp:3-13 | a value of the range, both ends included, and 0 for an empty or one-point range |
| RandomUtils.RandomString | source/random_utils.cpp:15-37 | the string has the length asked for, or is empty for an empty table, and has only characters of the table |
| FirewallController.RandomRuleName | source/main.cpp:84-89 | every generated name is the prefix and eight letters, so that the clean-up finds it |
| FirewallController.RuleNameIsFound | source/main.cpp:493 | a name of that shape contains the prefix |
| FirewallController.Firewall.BlockInboundIP | source/firewall_controller.cpp:203-251 | adds one rule of that name for that address, or none if a call behind it fails, and reports failure either way |
| FirewallController.Firewall.DeleteRuleByName | source/firewall_controller.cpp:253-269 | one rule of that name goes, if there is one, and no other; none goes if the rules cannot be reached or the removal fails; only the first of these is reported |
| FirewallController.Firewall.DeleteRulesByRegex | source/firewall_controller.cpp:315-342 | a rule whose name contains the expression goes exactly if its own removal succeeds, whatever happens to the others; the rest stay as often as they were; nothing changes if the rules cannot be reached |
| FirewallController.Firewall.RemoveAll | source/firewall_controller.cpp:338-341 | goes on after a removal that fails: the rules that go are those at the places whose removal succeeds |
| FirewallController.SucceededCounts | source/firewall_controller.cpp:338-341 | of each name, as many rules go as there are places in the list with that name and a removal that succeeds |
| FirewallController.MatchingCounts | source/firewall_controller.cpp:315-336 | the first loop collects each matching name once for each of its rules, and no other name |
| ConcurrentQueue.Queue.Push | source/concurrent_queue.h:18-24 | the value goes in last, nothing comes out |
| ConcurrentQueue.Queue.TryPop | source/concurrent_queue.h:43-54 | takes out and gives the oldest value, or gives nothing, at once, exactly if the queue is empty |
| ConcurrentQueue.Queue.WaitPop | source/concurrent_queue.h:56-66 | sleeps through exactly the rounds of other threads that leave the queue empty, none if it is not empty at first; then takes out and gives the oldest value and no other |
| ConcurrentQueue.SubscriptionCallback | source/subscribe_system_event.cpp:22-62 | only a delivered event that could be rendered is pushed, exactly once |
| MonitorQueue.MutexKept | source/concurrent_queue.h:20-24 | in every action of every thread, being in a critical section and owning the lock stay the same thing |
| MonitorQueue.FifoKept | source/concurrent_queue.h:21-65 | in every action, the values popped followed by the queue stay the values pushed |
| MonitorQueue.TakersKept | source/concurrent_queue.h:59-65 | a thread that has seen a value still finds one when it takes it |
| MonitorQueue.TakenKept | source/concurrent_queue.h:64-65 | what a thread has taken, and is about to return, is the last value that came out of the queue |
| MonitorQueue.NoLostWakeupKept | source/concurrent_queue.h:18-66 | in every action, with spurious wake-ups, barging and late notifies: while someone sleeps, there are no more values than notifies still to come and woken threads still at work |
| MonitorQueue.InvKept | source/concurrent_queue.h:18-66 | all of these together are kept by every action |
| MonitorQueue.LinearizableFifo | source/concurrent_queue.h:18-66 | in every run, the values with which calls have returned, in the order of their returns, the one about to be returned and those in the queue are those pushed, in order, none lost, none twice; at most one thread is in a critical section |
| MonitorQueue.ReturnedInOrder | source/concurrent_queue.h:43-66 | the values returned and the one about to be returned are those that came out of the queue, in order |
| MonitorQueue.WaitPopStep | source/concurrent_queue.h:59-62 | a waiting pop goes to sleep exactly when its test finds nothing, and has no way out but seeing a value |
| MonitorQueue.WaitPopEndsWithValue | source/concurrent_queue.h:56-66 | in every run, a call of wait_pop that has returned had taken a value |
| MonitorQueue.TryPopNeverSleeps | source/concurrent_queue.h:43-54 | in every run, a call of try_pop is never asleep, and returns with a value unless the queue was empty at its test |
| MonitorQueue.PushPutsInOnce | source/concurrent_queue.h:18-24 | in every run, a call of push puts in its own value, once, before it returns |
| MonitorQueue.NoSleepOverValues | source/concurrent_queue.h:56-66 | in every run, when some thread sleeps and nobody is awake or about to notify, the queue is empty |
| MonitorQueue.ValuesKeepMoving | source/concurrent_queue.h:18-66 | while a value waits and someone sleeps, some thread in the middle of a call can go on without a spurious wake-up |
| FailBanThread.IsWhiteAddress | source/application_config.cpp:148-158 | true exactly when some expression of the whitelist matches the address |
| FailBanThread.BlockTime | source/application_config.cpp:15-19 | the block time plus a delay that the configuration can draw |
| FailBanThread.IsRemovable | source/main.cpp:202-217 | a record is removed exactly if it was not blocked at one reading and expired at a later one |
| FailBanThread.Thread.DeleteExpireRemoteAddress | source/main.cpp:197-218 | the loop ends, reads the clock for every record in any order, and leaves exactly the records that were blocked or not expired at their own readings, unchanged |
| FailBanThread.Thread.FindOrInsert | source/main.cpp:142-150 | the record of the address, new with the configured expiry time if there was none; the rest of the table stays |
| FailBanThread.CountFailure | source/main.cpp:152-171 | the expiry timer restarts, the count grows by one, and a block is decided exactly if the count is at least the threshold and the record not blocked; then the record gets its duration and stamp, and a rule is posted and armed exactly if the duration is positive |
| FailBanThread.Thread.BlockRemoteAddressesWhenLoginFailed | source/main.cpp:124-172 | counts one failure of the address exactly if it is well formed and not whitelisted, and then creates the tasks of its decision; otherwise table and event loop stay as they are |
| FailBanThread.BlockRemoteAddressesWhenLoginSucceed | source/main.cpp:174-195 | a rule is posted and armed exactly if the address is well formed and not whitelisted and the duration is positive |
| FailBanThread.Thread.ProcessAuthFailedEvent | source/main.cpp:234-252 | one turn of the loop appends one event to a history that can still happen, keeps the table its fold, and changes the event loop by the post and the arming that the decision of that event asks for, or not at all |
| FailBanThread.Thread.ProcessAuthFailedEvents | source/main.cpp:232-253 | any number of turns handle exactly the popped events, in order; the event loop changes by the posts and armings of their decisions, one after the other, and by nothing else |
| FailBanThread.TasksOfDecisions | source/main.cpp:80-106 | the tasks so created are one for each decision with a positive duration, for its address, in order; the firewall is not touched by the thread |
| IoContext.Context.AsyncBlock | source/main.cpp:64-70 | a new task and its add handler, both last |
| IoContext.Context.AsyncUnblock | source/main.cpp:72-77 | arms the timer for the given number of seconds after a reading of the steady clock |
| IoContext.Context.CreateBlockTasks | source/main.cpp:80-106 | if the duration is positive, one new task for the address under a generated name, its add handler queued last and its timer armed that many seconds after a reading of the steady clock; otherwise nothing |
| IoContext.Context.ExpireTimer | source/main.cpp:74-77 | a timer past its deadline queues its delete handler, last |
| IoContext.Context.RunOne | source/main.cpp:52-62 | runs the handler at the head: adds the rule for the address of its task, or deletes one rule of its name, or changes no rule if a call fails |
| FailBan.GenuinePrefix | source/main.cpp:232-253 | every prefix of a history that can happen can happen, and readings are in order along the whole of it |
| Projection.SweepTimingIsUnobservable | source/main.cpp:142-253 | for every history, the block decisions for an address and their durations are those of the run of that address alone, and the tables differ only in that the full one may lack a record that is already unblocked and expired |
| Projection.RunsAgree | source/main.cpp:197-253 | the induction behind it: after every event the two tables agree at the address up to that |
| Projection.AloneIsGenuine | source/main.cpp:232-253 | the run of one address alone is a run that can happen |
| Projection.OwnRecordIsExact | source/main.cpp:142-171 | right after a failure of an address, its record is the one of its run alone |
| Projection.RemovableIsMonotone | source/remote_address_status.cpp:42-76 | a record that a sweep could remove can be removed by every later sweep |
| FailureCounts.CountCharacterisation | source/main.cpp:142-155 | after a failure, the count is the length of the longest suffix of the address's countable failures in which each came within the expiry time of its predecessor or during a block; all of them if records do not expire |
| FailureCounts.RecordTracksRun | source/remote_address_status.cpp:31-76 | the record's stamps and blocked state in terms of the failures and decisions before it |
| FailureCounts.UnblockedLifetime | source/main.cpp:157-165 | a record that was not blocked in its lifetime has no block time |
| FailureCounts.FirstBlockAtThreshold | source/main.cpp:157-165 | while a record has not been blocked, a failure starts a block exactly if the count is at least the threshold, and so the first block comes exactly at the threshold-th failure |
| FailureCounts.FirstBlockInHistory | source/main.cpp:142-165 | the same in a whole history with any other traffic |
| FailureCounts.NoPrematureBlock | source/main.cpp:142-165 | the first block of a lifetime takes exactly threshold failures (one, for a threshold below 1), and they fall within one expiry time for each but the first and the lag between check and stamp of those in the middle |
| FailureCounts.NoPrematureBlockIfPrompt | source/main.cpp:142-165 | if those in the middle are stamped as they are checked, the lag is gone |
| FailureCounts.BoundIsAttained | source/main.cpp:151-155 | for every threshold above 2, every expiry time and every lag, some run starts its first block after exactly that long |
| FailureCounts.SimpleBoundIff | source/main.cpp:142-165 | the bound without the lag holds of all runs exactly if the threshold is at most 1, or is 2 and records expire |
| FailureCounts.NoPrematureBlockInHistory | source/main.cpp:142-165 | the bound with the lag in a whole history with any other traffic |
| BlockTransitions.ThresholdLeavesBlocked | source/main.cpp:151-171 | if durations are positive, a failure whose count reaches the threshold leaves its record blocked |
| BlockTransitions.DecisionIsTransition | source/main.cpp:156-171 | a block is decided exactly when a record goes from unblocked to blocked, and then it is that of the event's address |
| BlockTransitions.BlocksOverHistory | source/main.cpp:151-171 | both at every event of every history |
| BlockTransitions.SurvivorIsRecent | source/main.cpp:197-218 | a record that outlives a sweep has a failure of its address no longer ago than the expiry time or the longest block |
| BlockTransitions.TableIsBounded | source/main.cpp:197-218 | right after a sweep the table has no more records than there are countable failures in that window |
| RuleTasks.InvKept | source/main.cpp:52-106 | in every action of any number of posting threads, the timers and the handlers, with failing calls: the queue holds what the tasks wait for, names in use are distinct, stages are in order, and the firewall is the foreign rules and the live ones |
| RuleTasks.OrderInvKept | source/main.cpp:64-77 | in every action, the handlers that have run followed by the queue stay the handlers queued, in the order in which they were |
| RuleTasks.FirstQueuedFirstRun | source/main.cpp:64-77 | of any two handlers, the one queued first runs first |
| RuleTasks.AddsRunInPostOrder | source/main.cpp:64-70 | when the add handler of a task runs, those of all tasks posted before it have run |
| RuleTasks.DeletesRunInExpiryOrder | source/main.cpp:72-77 | when a delete handler runs, those of all timers that expired before have run |
| RuleTasks.AddRunsBeforeDelete | source/main.cpp:94-101 | a delete handler at the head of the queue belongs to a task whose add handler has run |
| RuleTasks.DeleteTakesOwnRule | source/main.cpp:58-62 | a delete handler that succeeds takes away its own rule and no other, or nothing if adding had failed |
| RuleTasks.RuleLifecycle | source/main.cpp:52-106 | in every run each rule is posted, added, expired and deleted at most once and in that order, never deleted before its deadline; adds run in the order of posts and deletes in the order of expiries; a run of n tasks has at most 5n actions |
| RuleTasks.RunRestoresFirewall | source/main.cpp:52-106 | a run that has come to rest after all deadlines has taken exactly 5 actions a task, and leaves the firewall as it found it exactly if every rule that was added has been deleted |
| RuleTasks.RestoredIffAllDeleted | source/main.cpp:52-62 | the firewall is as it was before exactly if every rule that was added has been deleted |
| RuleTasks.RunCanFinish | source/main.cpp:52-106 | every run can go on, without a new post, to a state of rest with all deadlines passed; if no deletion had failed before, the firewall is then as it was |
| RuleTasks.CleanupAfterCrash | source/main.cpp:491-494 | after any action, a clean-up that succeeds leaves exactly the foreign rules whose names do not contain the prefix |
| FailMachine.FailInvKept | source/main.cpp:197-253 | every clock reading of the failed-login thread keeps its table what the fold of its history and the part of the current event done so far make it |
| FailMachine.FinishedEvent | source/main.cpp:234-252 | a finished event takes the table to where the fold goes, with readings in order and every record swept |
| BlockingSystem.TimeoutMeansOver | source/timer.cpp:17-25 | a timeout in whole seconds, counted from a cut-down stamp, means that more than the duration has really passed since the stamp |
| BlockingSystem.RecordsInvAfterMove | source/main.cpp:197-218 | no sweep and no failure removes or overwrites the record of a block before the block is over |
| BlockingSystem.WindowsInvAfterMove | source/main.cpp:157-165 | a block is decided only once the earlier blocks of its address are over |
| BlockingSystem.InvKept | source/main.cpp:453-525 | every action of the callback, both threads, the event loop and a restart, with whatever its clean-up achieves, keeps the invariant of the whole program |
| SystemTheorems.BlocksNeverOverlap | source/main.cpp:157-165 | in every run, a failban rule for an address, its block stamped or not yet, is posted strictly after every rule posted for it earlier in the same start is due, for any phase between the clocks |
| SystemTheorems.BlockedUntilDue | source/main.cpp:80-106 | from the stamp of a block until its rule is due, the record is in the table and blocked, and the rule is not deleted |
| SystemTheorems.CountOutlastsBlock | source/main.cpp:197-218 | from any state in which a block is known until it is over, and without a restart in between, its address keeps its record and the count in it never falls |
| SystemTheorems.RecordOutlivesRule | source/main.cpp:159-165 | a record reports blocked for less than a second, and the time from arming to stamping, after its rule is due |
| SystemTheorems.ThreadRefinesFold | source/main.cpp:232-253 | in every run, between events, the table is the fold of a genuine history of the delivered events, and the failban rules are those of its decisions |
| SystemTheorems.RulesInEveryRun | source/main.cpp:496-523 | in every run the rules live through their stages once and in order, adds run in the order of posts and deletes in that of expiries, the firewall is what the last clean-up left and the live rules, and no rule whose name does not contain the prefix is ever touched |
| SystemTheorems.CrashRecovery | source/main.cpp:488-494 | crashing after any action of any run and starting again, with a clean-up that succeeds, leaves of the very first firewall exactly the rules whose names do not contain the prefix |
| SystemTheorems.WorkLowersRank | source/main.cpp:496-523 | every action of the program itself lowers a lexicographic measure of waiting events, positions of the threads and work of the event loop |
| SystemTheorems.WorkEnds | source/main.cpp:496-523 | from any state of any run, and however much time passes in between, the program cannot act by itself forever |
| SystemTheorems.ComesToRest | source/main.cpp:496-523 | every run can go on, by time and the program's own actions alone, to rest with all deadlines passed; every delivered event has been handled then, and if no deletion had failed before, the firewall is as the start-up clean-up left it |
| SystemTheorems.RestRestoresFirewall | source/main.cpp:496-523 | whenever a run is at rest with all deadlines passed, every delivered event has been handled, all tasks are finished, and the firewall is as the start-up clean-up left it exactly if every rule that was added has been deleted |
| RuleOrigins.EveryRuleHasOneDecision | source/main.cpp:80-195 | in every run, every task is that of exactly one decision of the failed-login or the successful-login thread, with its address and deadline, and never for a malformed or whitelisted address |
| RuleOrigins.EveryDecisionIsServed | source/main.cpp:80-106 | in every run, every decision that has been posted has a task of its own, with its address and, once armed, its deadline |
| RuleOrigins.BlockedLoginHasItsRule | source/main.cpp:174-195 | in every run, a decision to block a successful login, once posted and armed, has a rule for the address of that login, due block time and delay after the instant of arming, for good |
| Composition.WholeInvKept | source/subscribe_system_event.cpp:134-142 | the monitor and the program stay in step: what is in the queue is what waits to be handled |
| Composition.RefinesSequentialFold | source/main.cpp:232-253 | in every interleaving of callbacks and thread, between events the table is the fold over what was popped, a prefix of what was pushed |
| Composition.PopReturnsNextEvent | source/concurrent_queue.h:64-65 | in every interleaving, the thread comes back from the queue only with a value, the oldest not yet popped, and that is the event that it then handles |
| Composition.AsleepMeansDone | source/concurrent_queue.h:56-66 | the thread sleeps, with no notify to come, only once every pushed failure has been handled |
| WorkstationPolicy.WorkstationNameConfig.CreateBindRecord | source/application_config.cpp:73-78 | binds the name to the user and changes no other binding |
| WorkstationPolicy.WorkstationNameConfig.ProcessAuthSucceedEvent | source/main.cpp:284-359 | skips exactly the logins of another type or without an address; allows the whitelisted, blocks the blocklisted, allows the rest if names are not checked, none of which binds; otherwise asks the bound name, which is that of this login for an unbound user with auto-bind |
| WorkstationPolicy.WorkstationNameConfig.ProcessAuthSucceedEvents | source/main.cpp:278-360 | the same over any number of turns |
| WorkstationPolicy.ListsComeFirst | source/main.cpp:291-330 | the same order of tests for every login of every run, and that none of these logins binds |
| WorkstationPolicy.BindingAfterRun | source/main.cpp:332-344 | after any run a configured binding is as configured, and an unconfigured user is bound, with auto-bind, to the workstation of the first login that is neither whitelisted nor blocklisted |
| WorkstationPolicy.VerdictOfBinding | source/main.cpp:332-359 | which pattern decides a login: the configured one, or the workstation of that first login; without either it is blocked |
| WorkstationPolicy.DecisionsAreStable | source/main.cpp:305-359 | in every run, all checked logins of one user from one workstation get the same verdict, for any matcher |
| WorkstationPolicy.UsersAreIndependent | source/main.cpp:305-359 | the verdicts on one user's logins are those of the run in which nobody else logs in |
| WorkstationPolicy.FirstLogin | source/application_config.cpp:92-107 | with auto-bind, the first such login of an unconfigured user is allowed exactly if its workstation name matches itself as a pattern |
| SuccessThread.ProcessAuthSucceedEvent | source/main.cpp:278-360 | a rule is created for the address of a login exactly if the policy blocks the login and the address is well formed and not whitelisted |

## Left out

- FailureCounts.NoPrematureBlock: the bound has the handling lag in it, because without it the claim is false for every threshold above 2 (`SimpleBoundIff`).
- FirewallController.Firewall.BlockInboundIP: the calls that set up a rule are one flag, since a failure of any of them has the same effect; the other properties of a rule are left out.
- FirewallController.Firewall.DeleteRulesByRegex: a rule whose name cannot be read is one whose removal fails.
- ConcurrentQueue.Queue.WaitPop: sees other threads only as what they push and pop during each sleep; their interleaving is in `MonitorQueue`.
- FailBanThread.Thread.ProcessAuthFailedEvents: the endless loop is any finite number of turns.
- The two `Timer` members of a record are held by value there and are values here; `Timer::get` and `Timer::set` are not called.
- In `BlockingSystem` the successful-login thread decides to block any well-formed address that is not whitelisted at any time; which logins make it do so is in `WorkstationPolicy`.
- `RemoteAddressStatus::get_expire_time` and `reset_block_timer`, `empty` and `size` of the queue: not called, or would only add easy members.
- In the state machines the firewall is a multiset of rule names, and the address of a rule is that of its task; the rules with their addresses are in `FirewallController` and `IoContext`.
- Windows firewall calls, string conversion and `IsFireWallEnabled`: not part of this model.
- Rendering and parsing of events: they come in already decoded, with the address as the queued value.
- Loading of the configuration, the command line, logging, the checksum, the mutex: not part of this model.
- Invalid regular expressions in a binding, which end the thread, and `int` overflow of counts and durations: excluded, and integers are unbounded.
- Clock steps backwards and collisions of random names: excluded by the assumptions.
