# What chronoloop promises, proved

chronoloop is a deterministic simulation engine with three systems written on it. This project models
the engine and those systems in Dafny and proves what their documentation and tests promise, for every
input and every run.

The parts, and the modules that hold them:

- **The reconciler** (`Reconciler`, `ReconcilerAsync`, `ReconcilerCalm`, `ReconcilerPass`, `ReconcilerTeardown`,
  `ReconcilerRules`, `ReconcilerServer`, `ReconcilerWorld`). The decision that compares what is wanted with what is
  observed; the protocol around it, as steps on a wire that delays, reorders, loses and repeats, and exactly when
  what is wanted may change over it; one pass landing in any order, and exactly when the order matters; rounds that
  converge; the server's table of phase changes; and the same facts read off a recorded world.
- **The shrinker** (`Faults`, `ShrinkSpec`, `Shrink`). Delta debugging over a schedule of faults, three
  bisections and the loop around them, for an arbitrary pure run.
- **The kernel** (`Clock`, `EventQueue`, `Kernel`, `KernelRules`, `KernelSteady`, `KernelSafe`, `Inboxes`,
  `Executor`, `Wire`, `Timeout`). The clock, the timer queue, tasks, waits, joins, inboxes, the wire and the run
  loop. `Kernel` is the machine over its steps, with a task free to take any step in any order and to give its poll
  back whenever it likes; `KernelRules` says what each step changes, `KernelSteady` proves what holds of all such
  runs, and `KernelSafe` what holds of tasks that look after their waits. The classes in `EventQueue`, `Inboxes`
  and `Executor` update their fields in place and are proved to take exactly those steps.
- **States named by content** (`Tree`, `Bytes`, `Hashing`, `HashText`, `World`, `Store`, `Diff`). The
  canonical encoding, the codec of worlds, the store that keeps each part once, and the diff that stops where
  two names agree.
- **Checking a trace** (`Monitor`, `Check`). Safety and liveness watched in one pass, against a definition
  of where a promise first breaks.
- **The quorum** (`Quorum`, `QuorumVerdict`, `QuorumRun`). Rounds timed by the system's own constants, under any
  delays within them and any messages dropped; the worlds they write down, kept in a store; and the verdict a
  check of that store comes to.
- **Sweeps and forks** (`Sweep`, `Fork`). Many workers against one pass; a forked run against the run.
- **Written forms** (`Text`, `ClockText`, `TraceText`, `FaultText`, `ReproText`, `Outcomes`, `Forms`, `Reading`).
  Printers and parsers that undo each other, the forms word for word, exactly which texts each parser takes and
  what its refusals name, and what a lost line does.
- **The replicated log** (`Replog`, `ReplogInv`, `ReplogSafe`, `ReplogSteps`, `ReplogRuns`, `ReplogSafety`,
  `ReplogOrder`, `ReplogRules`, `ReplogProgress`, `ReplogClients`, `ReplogVerdict`, `ReplogViews`,
  `ReplogAnswers`). Elections, copying and committing, with every message ever sent free to arrive late, again or
  never; that any majority can always go on alone; the clients, what they are told and when; and the three safety
  promises, of every view a run writes down.

`Order` and `Wrappers` hold what several of these share: lists in order, `Option` and `Result`.

Two properties the code does not have are stated as such, each with the exact condition it does hold under.
What is wanted of a database may change with messages on the wire: `ReconcilerCalm.ChangeInFlightLosesData` gives
a run that then loses its data, and `ReconcilerCalm.ChangeIsSafeIffCalm` says which wires are safe to change over,
no more and no fewer. And the order of one pass may decide what becomes of a database wanted nowhere:
`ReconcilerTeardown.TeardownOrderMatters` says exactly when, and `ReconcilerPass.PassConfluent` that it never
matters to a database that is wanted.

Where a class updates fields, its methods say what the new state is as a function of the old one, and what
is promised is proved of that function. A condition that the source leaves to its callers is written where
it is used: `Kernel.Proper` (a task polls a wait to be woken itself, and gives its poll back only once it has
looked at every wait that would wake it), which only the claims about nobody sleeping for ever and about exact
deadlines ask for, and `Hashing.Distinct` (the hash does not collide on the states in play; no hash of a fixed
width could do more).

To check the project: `dafny verify dfyconfig.toml`.

## Model

| member | source | states |
|---|---|---|
| Reconciler.ReconcileExact | src/systems/reconciler.rs:626-679 | a decision asks for an action exactly when that action is what is called for at its own place: nothing else, nothing missed, for any number of databases and regions |
| ReconcilerRules.CreatesPrimaryIff | src/systems/reconciler.rs:626-679 | a primary is created exactly where it is wanted, when nothing is there and the database has no primary anywhere |
| ReconcilerRules.CreatesStandbyIff | src/systems/reconciler.rs:626-679 | a standby is created exactly where one is wanted and nothing is, or where the primary is wanted while it is elsewhere |
| ReconcilerRules.PromotesIff | src/systems/reconciler.rs:626-679 | a promotion is asked for exactly of a ready standby that stands in the place meant for the primary |
| ReconcilerRules.DeletesIff | src/systems/reconciler.rs:626-679 | exactly a replica of a database not wanted, or a standby in a region its database is not wanted in, is deleted |
| ReconcilerRules.PrimaryAfterOnePass | src/systems/reconciler.rs:574-679 | a database wanted with no primary, and nothing where it is wanted, has one there after a pass, in whatever order it lands and whatever of it lands twice |
| Reconciler.ReconcileOrdered | src/systems/reconciler.rs:574-679 | the actions come ordered by database and then region, so no replica is asked for twice |
| Reconciler.FitsIffChanges | src/systems/reconciler.rs:415-483 | applying an action answers true exactly when the state it leaves is another one |
| ReconcilerRules.CreateLeaves | src/systems/reconciler.rs:425-445 | a replica created is being provisioned in the role asked for, unless one is there or it would be a second primary; nothing else changes |
| ReconcilerRules.PromoteLeaves | src/systems/reconciler.rs:446-466 | a standby that is ready becomes the one primary, and whatever was primary a standby in its phase; any other replica refuses; nothing else changes |
| ReconcilerRules.DeleteLeaves | src/systems/reconciler.rs:467-483 | a replica deleted is gone, and its database lost exactly when it was a primary and no standby in sync is left |
| ReconcilerRules.TimeLeaves | src/systems/reconciler.rs:485-497 | a standby being provisioned catches up next and is only then ready; a primary being provisioned is ready next; a replica that is ready stays so |
| ReconcilerRules.StandbyCatchesUpFirst | src/systems/reconciler.rs:485-497 | over any run, a replica that was only ever a standby has been through both phase changes before it counts as in sync |
| Reconciler.NewPlacement | src/systems/reconciler.rs:168-196 | a placement is refused exactly when its primary is among its standbys |
| Reconciler.ApplyIdempotent | src/systems/reconciler.rs:415-483 | an action landing a second time changes nothing |
| Reconciler.ReachedSound | src/systems/reconciler.rs:425-497 | at most one primary to a database and no primary catching up, whatever is applied and however phases move on |
| Reconciler.ReachedFromNothing | src/systems/reconciler.rs:404-497 | every world reached from an empty one has at most one primary to a database and none of them catching up |
| Reconciler.LostForGood | src/systems/reconciler.rs:423-483 | a database marked lost stays lost over every run |
| ReconcilerAsync.NeverPrimaryAgain | src/systems/reconciler.rs:592-600 | the key of the argument: a place wanted for nothing that holds no primary never comes to hold one |
| ReconcilerAsync.DecidedHarmless | src/systems/reconciler.rs:596-600 | what is decided on a stale listing is still harmless when it is decided |
| ReconcilerAsync.WireMoves | src/systems/reconciler.rs:592-679 | a message read, landed or lost is one fewer on its way and one repeated is one more; a listing read puts on its way exactly what it calls for |
| ReconcilerAsync.StepKeepsSafe | src/systems/reconciler.rs:592-679 | one step of the protocol, of any kind, keeps the invariant and loses nothing wanted |
| ReconcilerAsync.RunKeepsSafe | src/systems/reconciler.rs:592-679 | so does every run, with listings and actions delayed, reordered, lost or repeated |
| ReconcilerAsync.AsynchronousSafety | src/systems/reconciler.rs:592-600 | from a wire calm about it, no run loses a database that is wanted and not lost yet; what is wanted may change on the way, for others at any time and for it whenever the wire is calm about it as it is then wanted |
| ReconcilerCalm.CalmExactly | src/systems/reconciler.rs:592-600 | that condition is exact: a wire is calm about a wanted database if and only if no run over it, from any world, loses it; and the same of the worlds an empty one comes to |
| ReconcilerCalm.ChangeIsSafeIffCalm | src/systems/reconciler.rs:592-600 | what is wanted may change safely exactly when the wire is calm about the database as it is then wanted: no delete of it, and no promotion or creation of a primary but where it is then wanted |
| ReconcilerCalm.NotCalmLoses | src/systems/reconciler.rs:626-679 | over any wire that is not calm, whichever delete, promotion or creation makes it so, a run from a world reached from nothing loses the data |
| ReconcilerAsync.FixedDesiredIsSafe | src/systems/reconciler.rs:592-600 | with what is wanted held fixed, no run whatever loses a wanted database |
| ReconcilerCalm.ChangeInFlightLosesData | src/systems/reconciler.rs:626-679 | a whole run, for any two regions, from a world an empty one comes to with nothing on the wire: what is wanted changes with a delete on its way, and the data is lost |
| ReconcilerPass.PassConfluent | src/systems/reconciler.rs:590-593 | the actions of one pass leave the same replicas in whatever order they land and however often each is repeated, and cost no wanted database its data |
| ReconcilerTeardown.LostExactly | src/systems/reconciler.rs:423-483 | a pass loses a database wanted nowhere exactly when some delete in it takes a primary that was still there once no standby in sync is left |
| ReconcilerTeardown.TeardownCertain | src/systems/reconciler.rs:423-483 | without both a primary and a standby in sync, every order of a whole pass, repeats and all, comes to one end: its data is lost if it has a primary, and not if it has none |
| ReconcilerTeardown.TeardownOrderMatters | src/systems/reconciler.rs:423-483 | for a database wanted nowhere and not lost, two orders of one pass disagree about its data exactly when it has both a primary and a standby in sync |
| ReconcilerPass.TicksSettle | src/systems/reconciler.rs:485-497 | replicas whose time comes in any order settle in the roles they had |
| ReconcilerPass.ThreeRoundsConverge | src/systems/reconciler.rs:574-679 | from any world with at most one primary to a database, three rounds of deciding, landing in any order and settling reach exactly what is wanted, ask for nothing more and lose nothing wanted |
| ReconcilerPass.ConvergedAsksNothing | src/systems/reconciler.rs:626-679 | a converged world calls for no action |
| ReconcilerPass.EmptyIffConverged | src/systems/reconciler.rs:626-679 | in a settled world nothing is called for exactly when everything is in place |
| ReconcilerServer.Observed.Apply | src/systems/reconciler.rs:415-483 | the update in place leaves exactly the state the action calls for, and answers whether it changed |
| ReconcilerServer.Observed.Advance | src/systems/reconciler.rs:485-497 | the replica moves on one phase, or is absent or ready and nothing happens |
| ReconcilerServer.Server.constructor | src/systems/reconciler.rs:1054-1069 | a server starts with an empty world, owing nobody a phase change |
| ReconcilerServer.Server.NextDue | src/systems/reconciler.rs:1066-1069 | the next phase change is the earliest owed, and there is none exactly when every replica is ready |
| ReconcilerServer.Server.Change | src/systems/reconciler.rs:1085-1090 | what is wanted changes for one database and the change is written down |
| ReconcilerServer.Server.MoveOn | src/systems/reconciler.rs:1100-1111 | a due replica can always move on, so the two early returns are unreachable; it is due again exactly when it is now catching up |
| ReconcilerServer.Server.Advance | src/systems/reconciler.rs:1092-1111 | the earliest due entry, once its time has come, is taken and its replica moved on; otherwise nothing changes |
| ReconcilerServer.Server.Owe | src/systems/reconciler.rs:1118-1129 | after an action that changed something, the table owes one entry to every replica still on its way and none to any other |
| ReconcilerServer.Server.Apply | src/systems/reconciler.rs:1113-1131 | an action is carried out and written down exactly if it changes something, and the table stays in step |
| ReconcilerServer.DueIsArmed | src/systems/reconciler.rs:1113-1131 | a replica made is due once provisioning takes, one taken away is due no more, and no other entry is touched |
| ReconcilerServer.DueIsMoved | src/systems/reconciler.rs:1093-1111 | a replica moved on is due again, once catching up takes, exactly if it is catching up now |
| ReconcilerServer.OwesExactly | src/systems/reconciler.rs:1054-1131 | the table holds exactly as many entries as there are replicas not ready yet |
| ReconcilerServer.OwesMoved | src/systems/reconciler.rs:1093-1111 | moving one replica on leaves the table owing what it should |
| ReconcilerWorld.RegionOfExact | src/systems/reconciler.rs:779-799 | the region a field is about can be read back off the name of the field, whatever text names the region |
| ReconcilerWorld.EndingsDiffer | src/systems/reconciler.rs:779-799 | no field name can be read with two endings, or taken for the one that marks data lost |
| ReconcilerWorld.FieldThere | src/systems/reconciler.rs:729-777 | a record has exactly the fields of the places a database is wanted in or is, and they say its role and phase there |
| ReconcilerWorld.RegionFieldExact | src/systems/reconciler.rs:796-799 | looking through the fields for a region and ending finds the field of that name or none |
| ReconcilerWorld.SettledIffConverged | src/systems/reconciler.rs:815-826 | read off a recorded world, settled means exactly that the typed state is what was wanted |
| ReconcilerWorld.KeepsItsDataIffNothingLost | src/systems/reconciler.rs:801-813 | read off a recorded world, keeping its data means exactly that no wanted database is lost |
| ReconcilerWorld.WriteRecord | src/systems/reconciler.rs:729-777 | the loops over what is wanted, what exists and what is lost write exactly that record |
| Faults.NewWindow | src/fault.rs:66-82 | a window is refused exactly when it would close before it opens |
| Faults.WindowsMeet | src/fault.rs:56-127 | two windows end to end hold every instant of the one over both, and none twice unless they meet at the end of time, which each then holds |
| Faults.NewOdds | src/net.rs:107-128 | odds are refused exactly when there are no trials, or fewer than occurrences |
| Faults.NarrowedTo | src/fault.rs:102-118 | a window only ever narrows, and becomes the window asked for when that lies inside it |
| Faults.LoweredTo | src/net.rs:147-170 | odds only ever become less likely: the numerator asked for, or the one there was |
| Faults.WithinAppliesLess | src/fault.rs:172-183 | a smaller fault is on the same direction, in force nowhere the larger one was not, and drops no more of what it draws for |
| Faults.FirstApplying | src/fault.rs:372-379 | the fault in force is the first on that very direction whose window holds the instant, the end of time included, and there is none exactly when no entry is |
| Wire.Wire.constructor | src/net.rs:499-512 | a wire starts with every direction on one link and no faults to meet |
| Wire.Wire.SetLink | src/net.rs:532-535 | one direction gets a link of its own and every other keeps the one it had |
| Wire.Wire.Send | src/net.rs:434-467 | what becomes of a message is decided by the fault in force, the link and the generator, and no more is drawn than that takes |
| Wire.DrawnInOrder | src/net.rs:436-467 | whether it is lost, then how long it takes, then whether it is said twice, then how long that takes: each drawn from where the one before left off, and only if it is needed |
| Wire.CutDrawsNothing | src/net.rs:442-445 | a direction that is cut carries nothing and draws nothing |
| Wire.HarmlessFault | src/net.rs:451-458 | a fault with the link's own odds changes neither what becomes of any message nor what is drawn for it |
| Wire.ElsewhereHarmless | src/fault.rs:355-379 | nor does a fault on another direction, or not in force, wherever it stands in the schedule |
| Wire.Send | src/net.rs:591-635 | a node's message meets the schedule, the link and the generator, and what that comes to is filed and woken for; lost or cut, nothing but the generator moves |
| ShrinkSpec.SpansCover | src/shrink.rs:340-351 | every place of a list lies in one of the pieces it is cut into |
| ShrinkSpec.SpansEndToEnd | src/shrink.rs:340-351 | the pieces lie end to end from the first place to the last, all of one size but a short last one |
| ShrinkSpec.SpansCount | src/shrink.rs:340-351 | there are no more pieces than asked for, two when two are asked for, and one to an entry when as many are |
| ShrinkSpec.ReducesTrans | src/shrink.rs:80-126 | a reduction of a reduction is a reduction: entries kept in order, windows inside, numerators no higher |
| ShrinkSpec.ReducesIff | src/shrink.rs:80-126 | what is left first is some entry made smaller, and the rest a reduction of what came after that one |
| ShrinkSpec.NarrowedLower | src/shrink.rs:264-304 | a narrowing that is kept lowers the measure the search ends by |
| ShrinkSpec.LoweredLower | src/shrink.rs:306-332 | so does a lowering of odds |
| ShrinkSpec.StuckIsMinimal | src/shrink.rs:150-158 | where no move of the search is taken, each schedule one entry, one nanosecond or one occurrence smaller runs, and passes or breaks for another reason |
| ShrinkSpec.StuckSameFailure | src/outcome.rs:141-152 | a fixed point is one for every outcome that is the same failure, whatever step it surfaced at |
| Shrink.Reducing.Keeps | src/shrink.rs:182-199 | a candidate replaces what is kept exactly when its run breaks for the same reason, at whatever step |
| Shrink.Reducing.DropOne | src/shrink.rs:228-240 | a pass over the pieces drops the first it can, and drops none exactly when each is refused |
| Shrink.Reducing.DropEntries | src/shrink.rs:201-250 | the list comes out shorter or unchanged, unchanged exactly when no split of it can lose a piece |
| Shrink.Reducing.NarrowEnd | src/shrink.rs:264-284 | the end comes in until one nanosecond further in the run would go otherwise, and stays exactly when every instant the bisection would try is refused |
| Shrink.Reducing.NarrowStart | src/shrink.rs:286-304 | the start moves up until one nanosecond further up the run would go otherwise, and stays exactly when every instant the bisection would try is refused |
| Shrink.Reducing.NarrowWindows | src/shrink.rs:252-262 | nothing changes exactly when no window can be narrowed from either side |
| Shrink.Reducing.LowerOne | src/shrink.rs:306-332 | a numerator comes down until one occurrence fewer the run would go otherwise |
| Shrink.Reducing.LowerOdds | src/shrink.rs:306-332 | nothing changes exactly when no numerator can be lowered |
| Shrink.Shrink | src/shrink.rs:80-164 | for any pure run, monotone or not: terminates on entries, then spans, then numerators; the outcome reported is the kept schedule's own, for the reason the input broke for; the schedule is an order-preserving reduction of the input and locally minimal; nothing comes back exactly when the run passed |
| Shrink.ShrinkAgain | src/shrink.rs:80-164 | shrinking what shrinking left returns it unchanged |
| Clock.Later | src/clock.rs:46-62 | an instant plus a delay, held at the end of time |
| Clock.VirtualClock.AdvanceTo | src/clock.rs:218-232 | the clock moves to an instant not yet passed, and refuses any other without moving |
| EventQueue.EventQueue.Push | src/event.rs:73-87 | an event waits under a name no other has or had |
| EventQueue.EventQueue.Pop | src/event.rs:89-96 | the earliest event comes out, the first pushed among those at one instant |
| EventQueue.EventQueue.Cancel | src/event.rs:98-104 | a cancelled event is gone; one gone already is left alone |
| KernelRules.TurnTakes | src/executor.rs:457-507 | with a task ready the lowest is polled, if it is live; with none the clock moves to the earliest event, first pushed of those, and its task alone is made ready; done and stalled only with nothing to do |
| KernelRules.PollIsOver | src/executor.rs:490-507 | a poll given back: a task that finished is not live, is known to have finished, and the one that waited for it is ready |
| KernelRules.SpawnIsReady | src/executor.rs:59-111 | a task spawned is ready at once under a number nobody has, and joined by nobody |
| KernelRules.SleepIsPolled | src/executor.rs:181-204 | a wait on the clock is over exactly once its deadline has come, and then holds no timer; until then it holds one there for whoever polled |
| KernelRules.SleepIsDropped | src/executor.rs:159-170 | a wait dropped leaves no timer and no other wait touched |
| KernelRules.RecvIsPolled | src/net.rs:689-736 | a wait on an inbox takes the first message to have landed; with none landed it is aimed at the first that will, and registered |
| KernelRules.RecvIsDropped | src/net.rs:663-679 | a wait dropped is registered nowhere and holds no timer |
| KernelRules.JoinIsPolled | src/executor.rs:319-353 | a join is registered for whoever polled it last, until the task has finished |
| KernelRules.JoinIsDropped | src/executor.rs:303-309 | a join dropped wakes nobody |
| KernelRules.NewWaits | src/executor.rs:138-157 | a wait that begins is known by its deadline or its inbox alone: no timer is set and nobody is registered |
| KernelRules.NodeIsNew | src/net.rs:325-339 | a new node is empty under a number nobody has |
| KernelSteady.StartSteady | src/executor.rs:422-425 | a fresh kernel keeps every invariant that asks nothing of its tasks |
| KernelSteady.StepSteady | src/executor.rs:457-507 | every step of any task keeps them: each timer one wait's and no wait with two, no timer behind the clock, none later than what a wait still registered has coming, deliveries in order |
| KernelSteady.RunSteady | src/executor.rs:457-475 | so does every run, whatever its tasks do |
| KernelSteady.DisarmKeeps | src/executor.rs:159-170 | a wait that lets its timer go leaves every other wait's timer alone |
| KernelSteady.AimKeeps | src/net.rs:705-727 | a wait aimed at an instant ends up with its one timer there |
| KernelSafe.StartGood | src/executor.rs:422-425 | nor does a fresh kernel leave anybody asleep with nothing to wake it |
| KernelSafe.StepGood | src/executor.rs:457-507 | nor does any step of a task that polls its waits to be woken itself and has looked at each before it gives its poll back |
| KernelSafe.RunGood | src/executor.rs:457-475 | nor any run of such tasks |
| KernelSteady.NeverBackwards | src/executor.rs:457-475 | whatever its tasks do, the loop never asks the clock to move backwards |
| KernelSteady.NoRunFails | src/executor.rs:457-475 | no run from the start, of any tasks at all, ever ends in a clock error |
| KernelSafe.SleepExact | src/executor.rs:181-204 | a wait on the clock polled before its deadline is over exactly at the deadline |
| KernelSafe.SleepExactInRun | src/executor.rs:181-204 | the same over a whole run of tasks that look after their waits, from the first poll to the one that finds it over |
| KernelSteady.NeverPassesAMessage | src/net.rs:689-736 | no lost wake-up, whatever the tasks do: the instant the clock moves to is no later than the earliest arrival at an inbox with a wait registered there that has not been woken since |
| KernelSafe.NeverPassesAnyMessage | src/net.rs:689-736 | with tasks that look after their waits, at an inbox with any wait registered there |
| KernelSafe.AllQueued | src/executor.rs:449-475 | with no task ready or running, every armed wait still has its timer in the queue |
| KernelSafe.StallsForGoodReason | src/executor.rs:457-475 | a run that stalls, of tasks that look after their waits, has every inbox somebody waits on empty and every join on a task that has not finished |
| KernelSteady.NodeInOrder | src/net.rs:341-367 | what a node has taken came in order of arrival, none early, none twice, none still in flight |
| KernelSteady.DeliveredInOrder | src/net.rs:341-476 | over any run of any tasks every copy filed to a node is in flight or was taken once, in strictly increasing order of arrival and sequence |
| Inboxes.Inboxes.Add | src/net.rs:325-339 | a new node gets a number of its own and an empty inbox |
| Inboxes.Inboxes.File | src/net.rs:341-357 | a copy is put in flight to a node that exists, and the sequence moves on in any case |
| Inboxes.Inboxes.TakeLanded | src/net.rs:359-367 | the earliest message that has landed is taken, and none exactly when all are still to land |
| Inboxes.Inboxes.NextLanding | src/net.rs:369-373 | the earliest instant anything lands at |
| Inboxes.Inboxes.Register | src/net.rs:390-395 | a wait is registered with its waker |
| Inboxes.Inboxes.Unregister | src/net.rs:397-402 | a wait is taken off again |
| Inboxes.Inboxes.TakeWaiting | src/net.rs:404-413 | everyone waiting is handed back and nobody is left waiting |
| Executor.Executor.constructor | src/executor.rs:422-425 | a fresh executor is the start of a run |
| Executor.Executor.Spawn | src/executor.rs:59-111 | a task is numbered, made ready and left for the loop to take on |
| Executor.Executor.SleepPoll | src/executor.rs:181-204 | over once the deadline has come, and otherwise holding one timer there for whoever polled |
| Executor.Executor.SleepDrop | src/executor.rs:159-170 | a dropped wait takes its timer with it |
| Executor.Executor.RecvPoll | src/net.rs:689-736 | the earliest landed message, or registered and aimed at the next arrival |
| Executor.Executor.RecvDrop | src/net.rs:663-679 | a dropped wait takes its timer and its registration with it |
| Executor.Executor.SendOn | src/net.rs:591-635 | a message cut off or lost leaves everything as it was; one carried is in flight once, or twice if it is said twice, each copy to land its own delay from now, and everyone waiting there is woken |
| Executor.Executor.JoinPoll | src/executor.rs:319-353 | done once the task has finished, and otherwise registered to be woken when it does |
| Executor.Executor.JoinDrop | src/executor.rs:303-309 | a dropped join is woken no more |
| Executor.Executor.PollOver | src/executor.rs:490-507 | a poll of any task is over: one that finishes is forgotten and whoever joined it is woken; what asks nothing of tasks is kept whatever the task did, and the rest if it had looked at each wait that would wake it |
| Executor.Executor.Turn | src/executor.rs:449-507 | one turn of the loop: spawned tasks taken on, the lowest ready task begun, or the clock moved to the earliest event; never a clock error |
| Executor.Executor.FireNext | src/executor.rs:457-475 | with nothing ready the clock moves to the earliest event and whoever it was for is woken; with no event left the run has stalled |
| Timeout.NeverPastDeadline | src/clock.rs:335-347 | the clock does not pass the deadline of a wait that was polled before it and is still held, where tasks look after their waits |
| Timeout.Poll | src/clock.rs:359-369 | the work is polled first: a message that has landed is in time, and time is up only with nothing landed; once armed, only exactly at the deadline |
| Timeout.Drop | src/clock.rs:341-344 | given up, neither half leaves a timer behind |
| Timeout.TimeoutExactInRun | src/clock.rs:335-347 | over a whole run of tasks that look after their waits a held deadline is never passed: a message found landed by it, or time is up exactly then with nothing landed |
| Bytes.LeRoundTrip | src/world.rs:719-725 | a length comes back out of its eight bytes |
| Bytes.Utf8RoundTrip | src/world.rs:387-428 | text comes back out of its bytes |
| Bytes.FromUtf8RoundTrip | src/world.rs:387-428 | and no other bytes read as that text |
| Forms.EightBytes | src/world.rs:719-725 | a length is eight bytes, the least first |
| Forms.ValueForm | src/world.rs:39-44 | a value is a byte for its kind and then what the kind holds |
| Forms.ShellForm | src/world.rs:22-32 | a leaf is a zero byte, its length and its bytes; a branch a one byte, how many children it has and each in order of name |
| Forms.ChildForm | src/world.rs:22-32 | a child is how long its name is, its name, and the name its own tree answers to |
| Forms.HexForm | src/world.rs:142-155 | a state's name is two lower-case digits to a byte |
| Hashing.ChildDecode | src/world.rs:703-713 | a child's part of an encoding tells its name, its hash and where it ends |
| Hashing.ShellBytesInjective | src/world.rs:22-44 | the encoding is uniquely decodable: no two nodes share one |
| Hashing.StatesHashAlikeIffEqual | src/world.rs:22-44 | where the hash tells the encodings in play apart, two trees answer to one name exactly when they are one tree |
| Hashing.HashNode | src/world.rs:692-716 | the loop feeding the hash produces the name of the canonical encoding |
| Hashing.DistinctTells | src/world.rs:22-44 | such a hash names every part of the states in play alone |
| HashText.ReadHash | src/world.rs:156-174 | sixty-four lower-case digits read as the hash written so; every other text is refused with the reason it deserves |
| HashText.HexTextInjective | src/world.rs:108-114 | no two hashes are written alike |
| World.ValueRoundTrip | src/world.rs:387-453 | a value reads back from its bytes |
| World.ValueStrict | src/world.rs:387-428 | and no other bytes read as that value |
| World.ValueRefusedFor | src/world.rs:331-428 | what does not read back is refused for what is wrong with it: nothing there, no such kind, the wrong length for its kind, no flag, or no text |
| World.WorldRoundTrip | src/world.rs:560-679 | a world reads back from its tree |
| World.WorldStrict | src/world.rs:632-679 | a tree that reads as a world is the tree that world writes |
| World.AcceptsExactlyWorlds | src/world.rs:632-679 | exactly the trees worlds write are accepted |
| World.RefusalIsFirst | src/world.rs:632-679 | a refusal names the first resource, and in it the first field, that cannot be read |
| World.ReadWorld | src/world.rs:649-679 | the loops over resources and fields come to that reading |
| Store.MirrorsUnique | src/store.rs:18-30 | what a store holds depends on what was put in it alone, not on the order or on whether a part already there was walked again |
| Store.StateStore.Insert | src/store.rs:119-141 | a state and every part of it is held, under its own name, and nothing held before changes; skipping a part already there costs nothing |
| Store.StateStore.Get | src/store.rs:143-159 | the state rebuilt is the one put in, for every part ever put in; nothing for a name never seen |
| Store.StateStore.Held | src/store.rs:161-189 | one node as it is held, whose children are all there to descend to |
| Store.StateStore.Len | src/store.rs:191-197 | as many nodes as distinct states and parts were ever put in |
| Store.MirrorsGrow | src/store.rs:18-30 | an answer once given never changes |
| Diff.EmptyIffEqual | src/diff.rs:213-219 | the report is empty exactly when the two states are one |
| Diff.WalkInOrder | src/diff.rs:370-432 | paths come in strictly increasing order and none leads to another |
| Diff.ChangesTrue | src/diff.rs:161-198 | each change says what stands at its path on either side |
| Diff.ChangesFinest | src/diff.rs:20-60 | no line is coarser than it need be: what changed is never two branches or two leaves alike, and what came or went is the highest part that did |
| Diff.StoreReads | src/diff.rs:122-147 | a store can read back every line written of a state it holds |
| Diff.PatchYields | src/diff.rs:370-432 | carried out on the earlier state, the report makes it the later one |
| Diff.Descend | src/diff.rs:389-432 | the walk that stops where two names agree writes exactly what the one that descends everywhere does |
| Diff.Compare | src/diff.rs:370-387 | the report of two states the store holds, or the name it never saw |
| Diff.ListingTells | src/diff.rs:265-333 | a listing leaves nothing out: states with one listing between them are equal |
| Diff.Gather | src/diff.rs:335-350 | the recursive walk writes that listing |
| Monitor.Step | src/invariant.rs:328-356 | the watch moves on by the rule for its kind, comparing with a deadline that saturates |
| Monitor.StepWatched | src/invariant.rs:328-356 | one step keeps the watch true to everything seen so far |
| Monitor.WatchedSays | src/invariant.rs:19-50 | what a watch says at the end is exactly where the promise first broke, safety or liveness |
| Monitor.SafetyBreaksWhere | src/invariant.rs:19-24 | a safety promise first breaks where some state is against it and none before was |
| Monitor.LivenessKeptIff | src/invariant.rs:26-45 | a liveness promise is kept exactly when every lapse of it is over inside the span, a recovery on the deadline counting |
| Monitor.BreachStops | src/invariant.rs:33-45 | the step a breach of it names is one it does not hold at: the last before the deadline was passed, or the last there is |
| Check.ReportInOrder | src/invariant.rs:52-56 | each promise is reported at most once, steps in order and, at one step, promises in the order given |
| Check.SortByStep | src/invariant.rs:305-313 | violations sorted by step, those at one step staying in the order of the promises |
| Check.Check | src/invariant.rs:225-314 | reports exactly the promises that broke, each at its first breach and the state it left, by step and then position; or the first step whose state cannot be read |
| Quorum.Answer | src/systems/quorum.rs:328-343 | a replica answers every question that reaches it the moment it has thought: none finds it busy or gone |
| Quorum.QuorumsMeet | src/systems/quorum.rs:56-61 | any two quorums share a replica, and with one replica fewer two need not |
| Quorum.AckIsReply | src/systems/quorum.rs:328-343 | an acknowledgement is a replica's answer once the wire has brought it back |
| Quorum.BroughtIsAck | src/systems/quorum.rs:229-343 | what the wire brings back of what the replicas sent is an acknowledgement for each question and answer both carried, and nothing else |
| Quorum.LandsInRound | src/systems/quorum.rs:56-81 | an acknowledgement lands inside its own round, before it closes |
| Quorum.Round | src/systems/quorum.rs:229-298 | a round closes with exactly the replicas whose question and answer were both carried, within its patience, and hears no other round's answer |
| Quorum.Ask | src/systems/quorum.rs:229-298 | so does every round in turn; what is written down is, round by round, each acknowledgement as it lands and then that the round closed, when the last replica was heard or else when patience ran out |
| QuorumVerdict.StandsUnless | src/systems/quorum.rs:345-366 | a recorded world breaks a round's promise exactly while that round is the last to have closed, and closed short |
| QuorumVerdict.FirstBreachIsClosing | src/systems/quorum.rs:386-398 | a round that closed short first breaks its promise at the step it closed; one that did not never does |
| QuorumVerdict.BookHolds | src/systems/quorum.rs:144-160 | the recorded world holds of each replica what it last acknowledged and when, and nothing of one never heard from |
| QuorumVerdict.NamesTell | src/systems/quorum.rs:83-90 | replicas and promises go by names that spell their numbers, so no two share one |
| QuorumVerdict.ReportIsShortRounds | src/systems/quorum.rs:386-398 | a check reports exactly the rounds short of a quorum, in order, each at the step it closed and the state it left |
| QuorumVerdict.VerdictIsFirstShortRound | src/systems/quorum.rs:400-410 | the first of that report is the first round short of a quorum, at its closing step, and there is none exactly when every round reached one |
| QuorumRun.Collect | src/systems/quorum.rs:412-425 | every world a run wrote down is put in a store, and each step has its instant and its world's name |
| QuorumRun.ReadsBack | src/systems/quorum.rs:412-425 | read back, the trace is the run as it was written down |
| QuorumRun.Verdict | src/systems/quorum.rs:400-410 | a run is judged by the first promise the check finds broken, and passes when it finds none |
| QuorumRun.Run | src/systems/quorum.rs:166-187 | from the answers replicas sent and the wire brought back to the verdict: the run fails exactly when some round reached fewer than a quorum, with the name of the first such round at the step it closed |
| Sweep.OneWorker | src/sweep.rs:212-234 | every seed is one worker's and no other's |
| Sweep.Stride | src/sweep.rs:212-234 | a worker finds exactly the failures of its own seeds, in order, or stops at its lowest that cannot be run |
| Sweep.SequentialUnique | src/sweep.rs:14-30 | a single pass has one answer |
| Sweep.Merge | src/sweep.rs:187-207 | merged in whatever order the workers finish, their answers are the single pass's |
| Sweep.LowestUnfinished | src/sweep.rs:23-25 | the lowest seed any worker stopped at is the lowest there is |
| Sweep.Sweep | src/sweep.rs:108-207 | for any number of workers the answer is the single pass's, and there is one whenever the last seed plus a stride is still a seed |
| Sweep.SweepTwice | src/sweep.rs:14-30 | two sweeps with different numbers of workers agree |
| Fork.NewFork | src/fork.rs:123-140 | a fork names the instant of a step the trace has |
| Fork.ForkedRng.constructor | src/fork.rs:189-203 | a generator starts on its own seed, holding the one it is to change to |
| Fork.ForkedRng.Drawing | src/fork.rs:205-217 | the key changes at the first draw past the instant, and only then, and only once |
| Fork.ForkedRng.Draw | src/fork.rs:220-236 | what is drawn is the generator's then in force |
| Fork.SameUpToFork | src/fork.rs:19-51 | up to and at the instant, a forked run draws exactly what the run drew |
| Fork.ForkToOwnSeed | src/fork.rs:40-45 | a fork to the run's own seed differs from it in no draw, however far it goes |
| Fork.SeedsInForce | src/fork.rs:46-51 | each generator draws from the run's own derived seed until it passes the instant and from the fork's after |
| Fork.PastTheFork | src/fork.rs:19-45 | every draw past the instant is the fork seed's, from the place the generator had reached |
| Forms.TimeForm | src/clock.rs:83-162 | an instant is its seconds, a point, nine digits of nanoseconds and an s |
| Forms.DecimalForm | src/digits.rs:1-40 | a number is its digits, the most significant first, and begins with no nought unless it is nought |
| Forms.PartitionForm | src/fault.rs:186-200 | a partition's line, word for word |
| Forms.LossForm | src/fault.rs:186-200 | a loss's line, word for word |
| Forms.ScheduleForm | src/fault.rs:398-405 | a schedule is its header and a line to a fault, in order |
| Forms.TraceForm | src/trace.rs:19-37 | a trace's header, fork and step lines, word for word, its steps numbered from nought |
| Forms.OutcomeForm | src/outcome.rs:155-170 | an outcome is that the run passed, or the step it failed at and why |
| Forms.ReproForm | src/repro.rs:18-34 | a repro starts with its system and seed, goes on with the outcome expected and ends with the written schedule |
| Reading.ReturnsAlike | src/trace.rs:354-365 | a file reads alike however its lines end |
| Reading.LastAlike | src/trace.rs:354-365 | and whether or not anything ends the last of them |
| Reading.TakenIsFirst | src/repro.rs:287-294 | the first line taken off a text is the first of its lines, and what is left holds the others |
| Reading.TimeReadIff | src/clock.rs:138-172 | an instant is read from exactly the texts that are digits, a point, nine digits and an s, and come to it |
| Reading.WindowReadIff | src/fault.rs:276-289 | a window is read from exactly the texts that give its two ends |
| Reading.OddsReadIff | src/fault.rs:291-296 | odds are read from exactly the texts that give both their numbers |
| Reading.FaultReadIff | src/fault.rs:298-325 | a fault is read from exactly the texts that say what it is, on which direction and while which window lasts |
| Reading.ScheduleReadIff | src/fault.rs:446-470 | a schedule is read from exactly a header and a line to a fault; a refusal is for no header, another header, or names the first line that is no fault |
| Reading.OutcomeReadIff | src/outcome.rs:239-268 | an outcome is read from exactly the texts that say the run passed, or the step it failed at and why |
| Reading.HeaderReadIff | src/repro.rs:285-294 | a repro's first line is read from exactly the texts that name a system and a seed |
| Reading.ReproReadIff | src/repro.rs:285-309 | a repro is read from exactly those three parts; a refusal is for the first that is not there, and a fault that cannot be read is named by its line in the whole file |
| Reading.StepReadIff | src/trace.rs:165-182 | a step is read from exactly the texts that give an instant, a hash and one line of message |
| Reading.ForkReadIff | src/trace.rs:408-412 | a fork's line is read from exactly the texts that give an instant and a seed |
| Reading.NumberedReadIff | src/trace.rs:372-397 | a line is read as the step of its place only when it is numbered so; another number is refused as that, whatever follows it |
| Reading.TraceReadIff | src/trace.rs:348-406 | a trace is read from exactly a header, its fork's line if it has one, and a line for each step in turn |
| Reading.TraceRefusedAt | src/trace.rs:348-406 | a trace is refused for having no header, for another header, for a line that begins as a fork and is none, or else for the first line that is not the step of its place |
| Text.LinesRoundTrip | src/trace.rs:351-362 | what is written a line at a time reads back as those lines |
| ClockText.TimeRoundTrip | src/clock.rs:83-162 | every instant reads back as itself, the end of time included |
| TraceText.StepRoundTrip | src/trace.rs:100-179 | every step reads back as itself |
| TraceText.ForkRoundTrip | src/trace.rs:398-402 | every fork line reads back as itself |
| TraceText.PrintTrace | src/trace.rs:261-271 | the printer writes the header, the fork and each numbered step |
| TraceText.ParseTrace | src/trace.rs:348-395 | the parser's loop comes to the reading the claims below are about |
| TraceText.TraceRoundTrip | src/trace.rs:261-395 | every trace reads back as itself, forked or not |
| TraceText.LostStepRefused | src/trace.rs:45-49 | a written trace missing any step before its last is refused, naming the line, the step expected and the one found |
| TraceText.LostEndReads | src/trace.rs:45-49 | one missing its last step reads as the shorter trace |
| FaultText.FaultRoundTrip | src/fault.rs:186-324 | every fault reads back as itself |
| FaultText.PrintSchedule | src/fault.rs:398-405 | the printer writes the header and each fault on a line |
| FaultText.ScheduleRoundTrip | src/fault.rs:398-466 | every schedule reads back as itself, in order |
| ReproText.OutcomeRoundTrip | src/outcome.rs:155-265 | every outcome reads back as itself, whatever its reason says |
| ReproText.ReproRoundTrip | src/repro.rs:198-305 | every repro reads back as itself: the run, the failure and the faults |
| ReplogInv.Matching | src/systems/replog.rs:17-24 | two logs with an entry of one term at one place agree up to it |
| ReplogInv.MajoritiesMeet | src/systems/replog.rs:142-144 | any two majorities share a replica |
| ReplogInv.LeaderComplete | src/systems/replog.rs:26-40 | every later leader's log holds what a majority agreed to: the argument the module says it relies on and does not prove |
| ReplogSteps.NotBehindHolds | src/systems/replog.rs:709-751 | a log that is not behind another holds what the other holds of an earlier leader's, or that leader's successor never had it |
| ReplogSteps.NotYetLed | src/systems/replog.rs:753-798 | nobody has led a term a candidate has just won |
| ReplogRuns.TakeKeeps | src/systems/replog.rs:852-883 | copying entries takes away nothing the two logs agreed on |
| ReplogRuns.CommittedIsLeaders | src/systems/replog.rs:800-850 | what a follower has committed is in its leader's log, so nothing copied can replace it |
| ReplogRuns.ReachedCertified | src/systems/replog.rs:933-970 | what a leader counts as committed, of its own term, a majority has agreed to |
| ReplogRules.AdvanceCommits | src/systems/replog.rs:933-952 | a leader commits the furthest entry of its own term that most replicas hold, past what it had committed, and nothing further; none, and it commits nothing more |
| ReplogRules.AnswerCommits | src/systems/replog.rs:903-931 | an answer raises what a follower is known to hold, or takes the next copy one entry back; what most then hold is committed there and then; and a follower still behind is copied to again |
| ReplogRules.CopyCarries | src/systems/replog.rs:1039-1053 | a copy carries everything after the entry the follower is believed to hold, and how far the leader has committed |
| ReplogRules.TakeReplaces | src/systems/replog.rs:852-883 | copied entries are kept where the log holds them, and from the first it does not they take the place of all that was there |
| ReplogRules.AppendAnswers | src/systems/replog.rs:800-850 | when a copy is refused, and what it does when it is not: heeded, taken, committed as far as the leader had, applied and answered |
| ReplogRules.CouldStandIff | src/systems/replog.rs:658-684 | a replica says another could stand exactly when the term is past its own, the asker's log up to date with its own, and it follows nobody; and saying so changes nothing |
| ReplogRules.StandsWhenMostSay | src/systems/replog.rs:686-707 | a replica stands exactly when most have said it could, about the term it is asking about now |
| ReplogRules.VotesIff | src/systems/replog.rs:709-751 | a vote is given exactly in the voter's term, to a log up to date with its own, with the vote unspent or this candidate's already |
| ReplogRules.LeadsWhenMostVote | src/systems/replog.rs:753-798 | a candidate leads exactly when most have voted for it in its term, with one more entry of that term on its log that it copies to everyone |
| ReplogRules.LaterTermTakenUp | src/systems/replog.rs:639-656 | a later term is taken up following nobody and with its vote unspent |
| ReplogRules.TermTakenUpFirst | src/systems/replog.rs:590-637 | of a message in a later term than its own, a replica takes up the term before it does anything else |
| ReplogRules.TimerAsks | src/systems/replog.rs:535-568 | a timer has a leader copy its log again and anyone else ask whether it could stand, spending nothing |
| ReplogRules.CommandTakenIff | src/systems/replog.rs:997-1025 | a command is taken exactly by a leader whose log does not hold it, as its next entry |
| ReplogProgress.ComesToBeLed | src/systems/replog.rs:17-58 | any majority on its own comes to have a leader, whoever led before and whatever terms they are in |
| ReplogProgress.Syncs | src/systems/replog.rs:800-931 | a follower comes to hold all its leader does, however far back their logs part |
| ReplogProgress.MajorityGoesOn | src/systems/replog.rs:17-58 | from any state of any run, any majority on its own can have any command applied by every one of them, with not one message from or to anyone else |
| ReplogProgress.DeafMovesNoTerm | src/systems/replog.rs:42-55 | a replica that hears nothing, however often its timer runs out, never moves a term, stands or votes |
| ReplogSafe.Applies | src/systems/replog.rs:885-901 | applying on from where a replica had got to applies exactly what is now committed |
| ReplogRuns.StepInv | src/systems/replog.rs:535-1027 | every step of any replica, with any message ever sent, keeps every invariant |
| ReplogSafety.OneLeaderATerm | src/systems/replog.rs:1184-1196 | no two replicas ever lead one term |
| ReplogSafety.LogsMatch | src/systems/replog.rs:17-24 | in any run two logs with an entry of one term at one place are the same up to it |
| ReplogSafety.CommittedInLeaders | src/systems/replog.rs:26-40 | what is committed is in the log of the leader of any later term |
| ReplogSafety.LeaderHoldsCommitted | src/systems/replog.rs:26-40 | a leader holds everything committed by any replica whose term it has reached |
| ReplogSafety.AppliedAgree | src/systems/replog.rs:1198-1217 | of what any two replicas have applied, one is the beginning of the other |
| ReplogSafety.AppliedForGood | src/systems/replog.rs:1198-1217 | the same across any two moments of a run: nothing applied is ever applied otherwise |
| ReplogSafety.AppliedOnce | src/systems/replog.rs:1263-1303 | no replica applies a command twice, however often it is sent |
| ReplogOrder.AppliedIsLogged | src/systems/replog.rs:1198-1217 | what a replica has applied is what its own log holds there, and only commands some client sent |
| ReplogOrder.RealTimeOrder | src/systems/replog.rs:1263-1303 | a command that first reached a replica after another stood committed is applied after it, on every replica and for good |
| ReplogClients.HeldAt | src/systems/replog.rs:997-1010 | the place a leader finds a command at is one its log holds it at, and it finds none exactly when the log holds it nowhere |
| ReplogViews.TakenThenCommitted | src/systems/replog.rs:800-850 | entries taken and committed by one message are written twice: once held and not yet committed, and then committed |
| ReplogViews.NothingUnwritten | src/systems/replog.rs:583-641 | nothing a replica holds goes unwritten: after any step, what it holds is what was last noted of it |
| ReplogViews.OnlyChangesWritten | src/systems/replog.rs:583-641 | and nothing is written for nothing: each thing noted as a message is handled differs from what was written before it |
| ReplogViews.NotedGrounded | src/systems/replog.rs:800-883 | every state noted within a step, a follower's between taking entries and committing them too, keeps the protocol's invariants |
| ReplogAnswers.RunOwing | src/systems/replog.rs:933-1025 | in every run only a leader owes a client an answer, and only for commands its log holds where they are owed, past what is committed |
| ReplogAnswers.AnswersAllItOwes | src/systems/replog.rs:955-969 | a leader that commits further tells, there and then, every client it owes for what that commits, and goes on owing exactly the rest |
| ReplogAnswers.AskedIsAnswered | src/systems/replog.rs:979-1025 | anyone but a leader points the client at whom it follows; a leader answers what is committed at once and owes an answer for anything else |
| ReplogAnswers.ClientWritten | src/systems/replog.rs:1423-1453 | what is written of a client is each command as it is first sent, and when it is heard to be done |
| ReplogAnswers.CommandsApart | src/systems/replog.rs:237-246 | a round takes the next three numbers, the clients in turn, so no two commands share one |
| ReplogAnswers.ClientMay | src/systems/replog.rs:1500-1555 | a client sends the command of each of its five rounds from the instant the round opens, asks about it while it waits, and hears it is done once an answer has had time to cross |
| ReplogAnswers.ClientLeaves | src/systems/replog.rs:1514-1545 | an ask puts the command of the client's own round on its way and changes nothing else; sending and hearing move only the client's own place and what is written of it |
| ReplogAnswers.RoundsInTime | src/systems/replog.rs:1500-1555 | in every run no client sends more than five commands, and none before its round opens |
| ReplogViews.OwedSettled | src/systems/replog.rs:933-970 | a client is told its command is done only once a replica has applied it, after nothing sent later than the answer |
| ReplogVerdict.DoneComesFirst | src/systems/replog.rs:1234-1303 | a command heard to be done by the instant another was sent, that very instant included, was applied before it |
| ReplogVerdict.SoundPromised | src/systems/replog.rs:1184-1303 | a view written down at such a state has one leader to a term, no committed entry changed, and commands in an order every client could have seen |
| ReplogViews.ActOk | src/systems/replog.rs:1400-1620 | every act of a replica, a client or the wire keeps what that rests on |
| ReplogViews.EveryViewPromised | src/systems/replog.rs:1184-1303 | in every run, every view written down keeps the three safety promises the run is judged by |

## Left out

- Sweep.Sweep: real threads; a worker is the result of its stride, and the results come in any order. A worker
  running past the last seed is modelled; a panic inside a run is not.
- Fork.ForkedRng.Draw: the cipher's own stream; a generator is a seed and a place, and what it answers is any
  function of the two and the request.
- Hashing.HashNode: BLAKE3 itself; the hash is any function from bytes to 32 bytes.
- Hashing.StatesHashAlikeIffEqual: asks that the hash not collide on the parts of the two trees, and that no
  name be longer than a machine can hold, rather than that it be injective on all byte strings, which no hash is.
- ReconcilerServer.Server.Apply: a delay is any number for each of the two bounds, not one within them, and the
  message loops around the server and the controller are the steps of `ReconcilerAsync` instead.
- ReconcilerServer.Server.MoveOn: the text of an observation; its parts are kept as they are.
- ReconcilerWorld.WriteRecord: the error of a name that cannot be one; any text is a name here.
- Shrink.Shrink: the run is a pure function; a run that answers differently each time is outside what is claimed.
- KernelSteady.StepSteady: timers scheduled by tasks directly, outside a wait; they can lie behind the clock, as the
  source's clock error allows. Event, task and arrival numbers are unbounded.
- KernelSafe.StepGood: asks that the task look after its waits (`Kernel.Proper`); one that does not can sleep for
  ever in the source too, and everything else is proved of it in `KernelSteady`.
- Executor.Executor.Spawn: the future itself; a task is free to take any step, and what it computes, its output
  and its panics are not modelled. Nor are pinning, reference counts and locks.
- Wire.Wire.Send: a generator answers any request as it likes, so odds are drawn and not weighed: what odds of
  never and always are promised is the generator's to keep.
- Timeout.Poll: the work is a wait on an inbox, which is what the systems put a deadline around.
- Diff.Compare: how a report is printed; its lines are kept as path and contents.
- Check.Check: a promise is any predicate over worlds, a step's event is its instant alone, and an error's wording
  is left out.
- QuorumRun.Run: the text of each step's message, and the tasks and inboxes of the kernel, which are proved apart.
- Quorum.Answer: the endpoint and clock; what the wire does with each message is given, within the constants.
- TraceText.TraceRoundTrip: parsing first and printing after is not the identity (leading zeros, `\r\n` and a
  missing last newline all read) and is not claimed; the same holds of schedules and instants.
- ReproText.ReproRoundTrip: the three errors a repro's parts nest are modelled, their wording is not.
- ReplogRuns.StepInv: replicas are values, not objects updated in place. Terms are unbounded, where the source
  saturates at the largest u64. No replica crashes, as in the source.
- ReplogOrder.RealTimeOrder: a replica's answers and the clients' instants are not looked at here; they are in
  `ReplogViews.EveryViewPromised`.
- ReplogViews.EveryViewPromised: a view is its values; the names and digits its fields are written under are not
  modelled, nor is the text of a note. A client may ask again at any time and of any replica, rather than when its
  patience runs out or on a hint, and no loop stops at the run's end: each only adds runs. That every command
  commits in the end depends on the timing of elections, which is left free: that it always can is
  `ReplogProgress.MajorityGoesOn`, and that it does is not claimed.
- Odds as a chance drawn from a generator: a floating-point threshold in a library.
- `pingpong`, `ring`, the event history, the command line and the audit: they exercise the engine, and add
  only members easier than these.
