# FyS arena: a verified model of its turn scheduler, admission protocol and supporting structures

The arena server of FyS runs fights between teams of players and generated contenders. This project models the parts of it whose correctness spans several functions or whole runs, and proves what they are for. Nothing here runs the server.

- **Turn scheduler** (`SpeedDynamics`, `SpeedBounds`, `PriorityLists`, `SimpleScheduler`, `SchedulerRuns`, `SchedulerLaws`, `TiedDrift`, `PriorityOrderList`). The class `PriorityOrderList` has the fields of the original, updated in place: whole turns are generated in advance, reversed and popped. It is proved to hand out the stream of a simple scheduler that picks one participant per call and queues nothing. Each call of that scheduler is in turn shown to be one move of bare speeds by participant, and fairness, the bound on stored speeds and the length of a turn are proved for every sequence of such moves, so for every way in which a sorting routine may order equal speeds.
- **Side battle** (`SideBattle`). The timed side that polls the clock and advances the scheduler.
- **Admission** (`Admission`, `AdmissionLedger`, `ArenaServer`). A state machine over the awaiting, pit and identifier maps; a ledger that follows every accepted registration over whole runs; and the two server classes, each handler of which is proved to take the step of the state machine.
- **Weighted draw** (`WeightedDraw`), **script cache** (`ScriptCache`), **bounded queue** (`SizedQueue`), **token key** (`TokenKey`), **party teams** (`AllyTeams`).

`dafny verify dfyconfig.toml` checks everything.

## Assumptions

- The sorting routine is a parameter: any function that returns an ascending permutation. It may order equal speeds as it likes.
- Participants of one side have pairwise distinct ids, since the scheduler looks them up by id alone, and base speeds are at least 1. A newcomer whose id is taken by a participant of the other kind is excluded, because the guard of the addition lets it through (line 41 compares the kind as well) and lookups by id then become ambiguous.
- A reversal whose range ends before it begins does nothing (line 104 can produce one).
- Server messages are handled one after the other. Whether a zone is known and its contenders can be generated is an input of each authentication; a party team is always found for a user and carries that user's name.
- In the cache the file clock and the system clock are one clock, and each lookup carries the times at which it copies and fills.

## Results that differ from what one might expect

- The model follows the code where `docs/services/arena/Arena_TurnPriorityList.md` differs: the participant who acts pays the stored speed of the next slower one in base order, wrapping round, where the document subtracts the second of the re-ordered list; and a removal only filters the three lists, where the document asks for a recalculation.
- A newcomer that joins after the opening starts with twice its own speed, not with its speed plus that of the fastest: `getFastestBaseSpeed` reads the last entry of the base list before it is sorted again, and that entry is the newcomer itself.
- The reversal among equal speeds never changes who is picked from the list it is applied to (`TieReversalKeepsPick`), and an inverted tie at the fast end is not repaired, so that the slower of two participants with equal stored speed can be returned first (`SlowerOfTiedIsReturned`). `TieReversalRepairs` says exactly when the reversal leaves no inverted tie.
- A list that was built empty and filled by additions goes through the opening round twice, since additions put the turn counter back to 0.
- Let F be the fastest base speed of a side and N the number of its participants whose base speed is the smallest or the largest. Stored speeds never leave [0, (3N² - 3N + 4)F], for every sorting routine (`NoDrift`). For N = 2 that is [0, 10F]. Ten times is enough for every side and sorting routine exactly when N is at most 2: for every larger N some side of N equally fast participants exceeds it after at most eleven calls (`TenTimesIffTwoExtremes`). Where the sorting routine leaves the sorted base list alone, as it must for distinct base speeds, ten times is enough for every N (`TenTimes`).
- Nobody starves on any side and with any sorting routine (`NoStarvation`, `UniformFairness`).
- For draws from 1 to 100 the weighted draw is exact precisely when no entry of chance 0 stands between entries that have one (`ExactIffZeroesHarmless`). The code draws from 0, and the draw 0 goes to the first entry even if its chance is 0 (`DrawZeroIsTheFirst`).
- A write on the very tick of a cache fill goes unnoticed (`WriteOnTheTickOfTheFill`); `WriteKeepsCoherence` says exactly which writes are safe.
- A token key gives its index back exactly for indices below 100000. From 100000000 on the unsigned offset wraps, the key is built without complaint and decodes to 9672 (`RoundTripIffSmall`).
- An accepted push on a queue whose counter is about to wrap loses everything stored (`SizedQueue.Push`).
- `allyNumberOnSide` and `getMembersBySide` disagree when the first team has no members and a later one has some on that side (`CountMatchesList`).

## Model

F is the fastest base speed of a side, n the number of its participants, N the number of those whose base speed is the smallest or the largest; x is what somebody may hold beyond F in the state a law starts from, 0 for a freshly built side.

| member | source | states |
|---|---|---|
| SpeedDynamics.PlayKeepsLive | services/arena/src/fightingPit/PriorityOrderList.cpp:163-180 | No play drives a stored speed negative: whoever has the greatest speed can pay, and the slowest keeps at least 1; after a top-up everybody has more than 1. |
| SpeedDynamics.MidTurnPlaySpends | services/arena/src/fightingPit/PriorityOrderList.cpp:163-180 | A play inside a turn strictly lowers the total speed of all but the slowest, which never goes below 0. |
| SpeedBounds.MoveKeepsBounded | services/arena/src/fightingPit/PriorityOrderList.cpp:124-180 | Every move keeps the invariant: any k of the N extreme participants together hold at most k(3N² - 3N + 2 - k(k - 1))F, plus k times what was stored beyond F at first, and less by k(2kF - x) while a possible payee outside them holds only x. |
| SpeedBounds.OutsiderPicked | services/arena/src/fightingPit/PriorityOrderList.cpp:163-175 | Whoever is picked outside a group holds at least as much as each of it, so the group holds no more than its low cap. |
| SpeedBounds.LeadsAfterMove | services/arena/src/fightingPit/PriorityOrderList.cpp:124-180 | A play of somebody else never raises the total lead of the slow ones over a participant, and ending the turn lowers it by at least 1, whoever ends it. |
| SpeedBounds.LeadsBounded | services/arena/src/fightingPit/PriorityOrderList.cpp:124-180 | Those leads are at most the cap of that many participants plus one each. |
| PriorityLists.ReorderingKeepsSpeeds | services/arena/src/fightingPit/PriorityOrderList.cpp:128-133 | Under distinct ids no permutation changes the speed found under an id. |
| PriorityLists.SortingIsForced | services/arena/src/fightingPit/PriorityOrderList.cpp:114 | Whatever the sorting routine, a list without equal speeds has one sorting. |
| PriorityLists.TieReversalPermutes | services/arena/src/fightingPit/PriorityOrderList.cpp:84-107 | The reversal permutes the list and leaves its last element in place. |
| PriorityLists.TieReversalKeepsPick | services/arena/src/fightingPit/PriorityOrderList.cpp:79-107 | On a sorted list the reversal gives a sorted permutation with the same last element, so the fastest picked is that of the plain sort. |
| PriorityLists.TieReversalTurns | services/arena/src/fightingPit/PriorityOrderList.cpp:79-107 | With the first inverted tie and the end of the slowest run given by what they are, exactly the stretch from one to the other is turned round. |
| PriorityLists.TieReversalLeaves | services/arena/src/fightingPit/PriorityOrderList.cpp:79-107 | Without an inverted tie, or with one speed only, the list stays as it is. |
| PriorityLists.WithoutKeepsOthers | services/arena/src/fightingPit/PriorityOrderList.cpp:58-61 | Whoever has another id stays, as often and in the order it was there. |
| PriorityLists.TieReversalRepairs | services/arena/src/fightingPit/PriorityOrderList.cpp:84-106 | The result has no inverted tie iff the list had none, or the stretch turned round never rises in base speed, fits what precedes it and nothing after it is inverted. |
| SimpleScheduler.StreamSplits | services/arena/src/fightingPit/PriorityOrderList.cpp:64-77 | m + n calls return what m calls return followed by what n calls from the state reached return. |
| SimpleScheduler.NextIsLegalPlay | services/arena/src/fightingPit/PriorityOrderList.cpp:79-180 | One call on lists of participants is one legal play by base rank: a fastest participant pays the speed of its next slower one, everybody is topped up exactly when the slowest played, and both lists stay about the same participants. |
| SimpleScheduler.PayeeIsNextSlower | services/arena/src/fightingPit/PriorityOrderList.cpp:124-140 | The price is the stored speed of the neighbour before the one who acts, nobody's base speed lying between theirs; the slowest pays by a fastest one; 0 counts as 1. |
| SimpleScheduler.ReturnedEntry | services/arena/src/fightingPit/PriorityOrderList.cpp:171-177 | The entry returned is a participant of the side with its own kind and the speed it has left after paying; the next top-up comes on top of that. |
| SimpleScheduler.RestedIsSorted | services/arena/src/fightingPit/PriorityOrderList.cpp:149-159 | After a completed turn the topped-up list is sorted once more and the ties of that sorting are reversed. |
| SimpleScheduler.BaseSortedBeforehand | services/arena/src/fightingPit/PriorityOrderList.cpp:109-122 | Sorting the base list before a turn instead of within its first call makes no difference. |
| SimpleScheduler.AloneIsAlwaysNext | services/arena/src/fightingPit/PriorityOrderList.cpp:142-180 | Somebody alone on a side is returned by every call and never changes. |
| SchedulerRuns.TurnLength | services/arena/src/fightingPit/PriorityOrderList.cpp:163-180 | Turn generation terminates for every sorting routine and every well-formed state; a turn has at least one play. |
| SchedulerRuns.TurnShape | services/arena/src/fightingPit/PriorityOrderList.cpp:109-180 | Every generated turn holds only participants of the side and the slowest exactly once, as its last; it ends in a state from which the next turn starts, and is no longer than 1 plus the speed of the faster ones. |
| SchedulerRuns.StreamIsKnown | services/arena/src/fightingPit/PriorityOrderList.cpp:64-77 | Over any number of calls every entry returned carries the id and the kind of one participant of the side, and stored and base list stay about the same participants with the same kinds. |
| SchedulerRuns.SeatedAnyOrder | services/arena/src/fightingPit/PriorityOrderList.cpp:109-114 | However the base list is sorted again, its first is one of the slowest, its last one of the fastest, and everybody keeps its base speed. |
| SchedulerRuns.NextIsMove | services/arena/src/fightingPit/PriorityOrderList.cpp:64-180 | For every sorting routine one call is one move of the side: a fastest participant pays by somebody else's stored speed, a turn is ended by one of the slowest paying by one of the fastest, and then everybody gains its base speed plus F. |
| SchedulerLaws.NoDriftFrom | services/arena/src/fightingPit/PriorityOrderList.cpp:142-180 | From any state in which nobody holds more than F + x, for every side and sorting routine, after any number of calls every stored speed lies in [0, (3N² - 3N + 4)F + x], and 2F less for the slowest and fastest. |
| SchedulerLaws.NoDrift | services/arena/src/fightingPit/PriorityOrderList.cpp:142-180 | From construction x is 0: after any number of calls every stored speed lies in [0, (3N² - 3N + 4)F]. |
| SchedulerLaws.TenTimesFrom | services/arena/src/fightingPit/PriorityOrderList.cpp:142-180 | The multiple is 10 when N is 2 and when sorting leaves the sorted base list alone, from any state. |
| SchedulerLaws.TenTimes | services/arena/src/fightingPit/PriorityOrderList.cpp:142-180 | From construction the bound is then 10F. |
| SchedulerLaws.DistinctSpeedsAreLeftAlone | services/arena/src/fightingPit/PriorityOrderList.cpp:114 | With distinct base speeds every sorting routine leaves the sorted base list alone. |
| SchedulerLaws.NoStarvation | services/arena/src/fightingPit/PriorityOrderList.cpp:124-180 | From any state, for every side and sorting routine, while a participant is not returned at most as many turns complete as the slowest participants together lead it by. |
| SchedulerLaws.LeadOfOneSlowest | services/arena/src/fightingPit/PriorityOrderList.cpp:124-180 | With one slowest participant that is max(0, l - x + 1) for the stored speeds l of the slowest and x of the one waiting. |
| SchedulerLaws.NoStarvationInOneOrder | services/arena/src/fightingPit/PriorityOrderList.cpp:124-180 | The bound max(0, l - x + 1) also holds, whoever is tied, when sorting leaves the sorted base list alone. |
| SchedulerLaws.UniformFairnessFrom | services/arena/src/fightingPit/PriorityOrderList.cpp:64-180 | From any state, for every side and sorting routine, any later window of calls without a given participant holds at most WaitInTurns turns and fewer calls than one more full turn than that. |
| SchedulerLaws.UniformFairness | services/arena/src/fightingPit/PriorityOrderList.cpp:64-180 | The same from construction, wherever in the battle the window lies. |
| SchedulerLaws.WaitWithTwoExtremes | services/arena/src/fightingPit/PriorityOrderList.cpp:124-180 | With N = 2 that is at most 8F + x + 1 turns, of at most 1 + (n - 1)(10F + x) calls. |
| SchedulerLaws.UniformFairnessInOneOrder | services/arena/src/fightingPit/PriorityOrderList.cpp:64-180 | The same 8F + x + 1 turns for every N when sorting leaves the sorted base list alone. |
| TiedDrift.TenTimesIffTwoExtremes | services/arena/src/fightingPit/PriorityOrderList.cpp:79-180 | For every N: ten times F bounds all sides with N extreme participants, all sorting routines and all numbers of calls iff N <= 2. |
| TiedDrift.Drifts | services/arena/src/fightingPit/PriorityOrderList.cpp:30-180 | For every n >= 3 a side of n participants of base speed 2, built and called under one fixed sorting routine, reaches a stored speed above 20 within eleven calls. |
| TiedDrift.InsertionSortSorts | services/arena/src/fightingPit/PriorityOrderList.cpp:82 | There is a sorting routine as the other results assume one. |
| TiedDrift.UnluckySorts | services/arena/src/fightingPit/PriorityOrderList.cpp:82 | The routine behind the excess sorts every list. |
| TiedDrift.SlowerOfTiedIsReturned | services/arena/src/fightingPit/PriorityOrderList.cpp:79-107 | A freshly built side whose second call meets an inverted tie, leaves it and returns the participant of smaller base speed. |
| PriorityOrder.ServedAhead | services/arena/src/fightingPit/PriorityOrderList.cpp:64-77 | Queueing any stretch of the stream in advance cannot be observed by any number of calls. |
| PriorityOrder.GeneratedTurn | services/arena/src/fightingPit/PriorityOrderList.cpp:109-122 | Generating a turn in advance gives a well-shaped turn, keeps all speeds at least 1 and leaves the stream as it was. |
| PriorityOrder.FairAfterQueue | services/arena/src/fightingPit/PriorityOrderList.cpp:64-77 | Whatever is queued, once it has been handed out every window of calls without a given participant is short, for every state reached from a start, wherever in the battle. |
| PriorityOrder.ListIsFair | services/arena/src/fightingPit/PriorityOrderList.cpp:30-77 | That fairness for the list itself, built with its participants or filled by additions, and whoever has joined or left before. |
| PriorityOrder.FilledListStartsFresh | services/arena/src/fightingPit/PriorityOrderList.cpp:37-53 | A list filled by additions before its first turn carries on from a freshly built side after what is queued. |
| PriorityOrder.ListStartsAnew | services/arena/src/fightingPit/PriorityOrderList.cpp:37-62 | From its first generated turn on a list is a start at any time, so both laws apply again after every change of the roster. |
| PriorityOrder.JoinedStarts | services/arena/src/fightingPit/PriorityOrderList.cpp:37-53 | The side enlarged by a newcomer, with twice its speed, is a start. |
| PriorityOrder.ListWithin | services/arena/src/fightingPit/PriorityOrderList.cpp:64-77 | As long as the roster stays, the stored speeds in the list are within the bound of the state it started from. |
| PriorityOrder.Battle | services/arena/src/fightingPit/PriorityOrderList.cpp:30-77 | A built list called any number of times returns the opening round and then the stream, and its stored speeds are within the bound. |
| PriorityOrder.CallStep | services/arena/src/fightingPit/PriorityOrderList.cpp:163-180 | The steps of one recursion of the generator are one call of the simple scheduler and use up one play of the turn. |
| PriorityOrder.PriorityOrderList.constructor | services/arena/src/fightingPit/PriorityOrderList.cpp:30-35 | A new list is valid; it returns the opening round fastest first and then the simple scheduler's stream from the base speeds. |
| PriorityOrder.PriorityOrderList.CustomSort | services/arena/src/fightingPit/PriorityOrderList.cpp:79-107 | In place, the analyzed list becomes its sorting with the reversal among equal speeds applied. |
| PriorityOrder.PriorityOrderList.FindInvertedTie | services/arena/src/fightingPit/PriorityOrderList.cpp:85-99 | The search finds the first pair of equal speeds in which the faster by base speed comes first. |
| PriorityOrder.PriorityOrderList.GetComputedSpeed | services/arena/src/fightingPit/PriorityOrderList.cpp:124-140 | The result is the stored speed of the next slower participant in base order, wrapping from slowest to fastest, 1 in place of 0 and when nobody is found. |
| PriorityOrder.PriorityOrderList.EndTurnRoutine | services/arena/src/fightingPit/PriorityOrderList.cpp:142-161 | The loop gives everybody its base speed plus the fastest's exactly once, then sorts; the queue is reversed and the counter advanced. |
| PriorityOrder.PriorityOrderList.CalculatePriority | services/arena/src/fightingPit/PriorityOrderList.cpp:163-180 | The recursion ends, appends exactly one turn of the simple scheduler to the queue, reversed, and leaves the simple scheduler's state. |
| PriorityOrder.PriorityOrderList.SortBaseAndCalculatePriority | services/arena/src/fightingPit/PriorityOrderList.cpp:109-122 | Establishes validity and a non-empty queue for a non-empty side without changing what later calls return; the stored speeds are then those of the simple scheduler exactly one turn later. |
| PriorityOrder.PriorityOrderList.GetNext | services/arena/src/fightingPit/PriorityOrderList.cpp:64-77 | The call keeps the list valid and returns the head of the announced stream, a current participant with its own kind, leaving its tail; an empty side gives the entry (0, 0, false) and no change. The stored speeds stay, or are those of the simple scheduler one turn later when a turn had to be generated. It calls itself at most once. |
| PriorityOrder.PriorityOrderList.AddParticipantInList | services/arena/src/fightingPit/PriorityOrderList.cpp:37-53 | A known participant changes nothing; a newcomer drops the queue, keeps the list valid and the turn counter, and from then on the stream is the simple scheduler's on the enlarged side, the newcomer starting with twice its speed, and the stored speeds are those one turn later. |
| PriorityOrder.PriorityOrderList.RemoveParticipantFromList | services/arena/src/fightingPit/PriorityOrderList.cpp:55-62 | The list stays valid, the participant is gone from all three lists, everybody else stays in order. |
| PriorityOrder.Draw | services/arena/src/fightingPit/PriorityOrderList.cpp:64-77 | Any number of calls returns exactly the stream announced before the first, and the list goes through states of the simple scheduler only. |
| SideBattles.PollsStayOnSchedule | services/arena/src/fightingPit/SideBattle.cpp:28-42 | For any non-decreasing polls the deadline after k advances stays between regular turns and regular turns plus the slack of the polls. |
| SideBattles.AdvancesOnTime | services/arena/src/fightingPit/SideBattle.cpp:28-42 | With interlude d and polls at most g apart, k advances need at least k * d and happen before d + k * (d + g) has passed. |
| SideBattles.NeverEarly | services/arena/src/fightingPit/SideBattle.cpp:28-42 | For any non-decreasing polls, by time T at most (T - t0) / d advances have happened. |
| SideBattles.TurnLastsInterlude | services/arena/src/fightingPit/SideBattle.cpp:28-42 | For any polls, a turn that began with the first poll or an advance at poll i lasts until the first poll at least d later than poll i. |
| SideBattles.SideBattle.GetCurrentParticipantTurn | services/arena/src/fightingPit/SideBattle.cpp:28-42 | Before the deadline the current participant is returned and the scheduler untouched; at or after it the scheduler advances by exactly one. |
| SideBattles.Watch | services/arena/src/fightingPit/SideBattle.cpp:28-42 | What every poll shows is fixed by the clock and the stream the scheduler offered at the beginning, and constant between advances. |
| Admission.StepKeepsInv | services/arena/src/ArenaServerService.cpp:97-169 | Every message keeps the protocol invariant (entries under their own token, generation data iff pit id 0, otherwise a live pit; ids 1..n; one authenticated founder per pit), and neither a vanished pit nor a dangling broadcast is reached. |
| Admission.AnnouncementAccepted | services/arena/src/ArenaServerService.cpp:97-115 | From every reachable state an announcement is accepted iff it is for pit 0 or a live pit and nobody waits under its token; accepted, the player waits with all that was announced; refused, nothing changes. |
| Admission.AnnouncedIsAdmitted | services/arena/src/ArenaServerService.cpp:53-150 | The player of an accepted announcement joins the live pit, or gets the next pit, of the announced level, whenever one can be created. |
| Admission.AuthenticationAnswered | services/arena/src/ArenaServerService.cpp:124-131 | An authentication is refused without any change iff its name, token and pit are not awaited together. |
| Admission.PitsOnlyGrow | services/arena/src/ArenaServerService.cpp:120-169 | No message removes a pit or alters it but by adding teams at the end. |
| Admission.NextIdIsFresh | services/arena/src/network/WorkerService.cpp:55-71 | On a reachable state the search for an id succeeds at once with the successor of the last, which is free, not 0 and does not wrap. |
| Admission.AdmitCreates | services/arena/src/ArenaServerService.cpp:133-149 | An awaited player with generation data that can be served creates one new pit with itself as the only authenticated user and team, consumes its entry and changes no other pit. |
| Admission.AdmitJoins | services/arena/src/ArenaServerService.cpp:138-149 | An awaited player of a live pit adds one team to that pit and consumes its entry. |
| Admission.IdentityIsRetrieved | services/arena/src/network/WorkerService.cpp:96-134 | The identity recorded last for a user is the one retrieved and other users keep theirs. |
| Admission.IdentityIsKept | services/arena/src/network/WorkerService.cpp:96-134 | On states: the identity recorded for a user in a pit is retrieved there, and every other user in every pit keeps what it had. |
| AdmissionLedger.LastIdentityIsRetrieved | services/arena/src/network/WorkerService.cpp:96-134 | On every run the identity retrieved for a user in a pit is the one of its last admission to that pit, or its name, whoever else has joined. |
| AdmissionLedger.RecordStaysSound | services/arena/src/ArenaServerService.cpp:97-169 | Every message keeps server state and ledger matched: awaiting entries with waiting tickets and pits with founders one to one, and the teams of each pit, counted with repetition, with its founder and the tickets that joined it. |
| AdmissionLedger.Conservation | services/arena/src/ArenaServerService.cpp:109-146 | On every run accepted registrations = entries still awaiting + pits + failed creations + joins, the joins being the teams in all pits beyond one per pit. |
| AdmissionLedger.TeamsAreRegistrations | services/arena/src/ArenaServerService.cpp:133-146 | On every run the teams of a pit are those of the registration it was founded with and of the registrations that joined it, each as often as it joined. |
| AdmissionLedger.RecordTouches | services/arena/src/ArenaServerService.cpp:97-169 | A message appends one waiting ticket, settles the waiting ticket of its own token, or leaves the ledger alone. |
| AdmissionLedger.AdmittedIffWaiting | services/arena/src/ArenaServerService.cpp:120-131 | On every run an authentication is not refused iff an accepted registration under its name, token and pit is still waiting. |
| AdmissionLedger.FatesAreFinal | services/arena/src/ArenaServerService.cpp:133-146 | Over every continuation of every run a registration that has been consumed is never consumed again. |
| AdmissionLedger.OnePitPerRegistration | services/arena/src/ArenaServerService.cpp:133-137 | No two accepted registrations founded the same pit. |
| AdmissionLedger.ForwardedToFounderOnly | services/arena/src/ArenaServerService.cpp:153-168 | On every run an in-game message is forwarded to a pit iff its name and token are those of the registration the pit was founded from. |
| AdmissionLedger.NeverDangling | services/arena/src/ArenaServerService.cpp:138-149 | After any run, no message finds its pit vanished or the arriving team missing. |
| AdmissionLedger.PitIdsAreContiguous | services/arena/src/network/WorkerService.cpp:55-71 | After any run live pits are exactly 1..last id, each knows its own id, none has the error id. |
| ArenaServer.WorkerService.AddFightingPit | services/arena/src/network/WorkerService.cpp:55-71 | The wrapping search loop in place has the effect and result specified for adding a pit. |
| ArenaServer.WorkerService.PlayerJoinFightingPit | services/arena/src/network/WorkerService.cpp:73-83 | Exactly the named pit gains the team; an unknown pit changes nothing. |
| ArenaServer.WorkerService.GetAuthenticatedPlayerFightingPit | services/arena/src/network/WorkerService.cpp:85-94 | A pit is returned iff it exists and the pair of name and token is authenticated in it. |
| ArenaServer.WorkerService.AddPlayerIdentifier | services/arena/src/network/WorkerService.cpp:96-108 | The update in place of a user's first entry, or the append, is the recursive recording. |
| ArenaServer.WorkerService.RetrievePlayerIdentifier | services/arena/src/network/WorkerService.cpp:119-134 | The recorded identity, or the user name when there is none. |
| ArenaServer.WorkerService.BroadCastNewArrivingTeam | services/arena/src/network/WorkerService.cpp:110-117 | Looking up the pit and searching its teams throws no exception iff the pit exists and some team of it is that user's. |
| ArenaServer.ArenaServerService.OnEncounter | services/arena/src/ArenaServerService.cpp:97-116 | The handler keeps the invariant and takes the registration step of the protocol. |
| ArenaServer.ArenaServerService.OnAuthenticate | services/arena/src/ArenaServerService.cpp:120-150 | The handler keeps the invariant, takes the authentication step of the protocol and never ends in the missing pit or dangling broadcast branch. |
| ArenaServer.ArenaServerService.OnInGame | services/arena/src/ArenaServerService.cpp:153-169 | The handler changes nothing and forwards exactly when the protocol does. |
| ArenaServer.ArenaServerService.CreateNewFightingPit | services/arena/src/ArenaServerService.cpp:202-222 | Creates and stores the pit of an awaited player, leaving identifiers alone. |
| WeightedDraw.ExactIffZeroesHarmless | services/arena/src/fightingPit/FightingPitAnnouncer.cpp:42-53 | With chances adding up to 100, every draw 1..100 selects the entry in whose share it falls iff every entry of chance 0 is first or comes after the whole 100. |
| WeightedDraw.OwnsItsShare | services/arena/src/fightingPit/FightingPitAnnouncer.cpp:42-53 | Of the draws 1 to 100 an entry owns as many as its chance. |
| WeightedDraw.OwnsAnnouncedShare | services/arena/src/fightingPit/FightingPitAnnouncer.cpp:42-53 | In a pit announced with level code 1 that number is the medium chance, with 2 the hard one, otherwise the easy one, and the draw is exact. |
| WeightedDraw.DrawZeroIsTheFirst | services/arena/src/fightingPit/FightingPitAnnouncer.cpp:96-97 | The draw 0 selects the first entry, whatever its chance. |
| WeightedDraw.PositiveChances | services/arena/src/fightingPit/FightingPitAnnouncer.cpp:42-53 | With positive chances the keys are exactly the accumulated chances, every draw is exact, and draw 0 selects the first entry. |
| WeightedDraw.HijackLasts | services/common/include/BoundaryMap.hh:37-50 | Once a zero in the middle has taken a draw, no later insertion gives it back. |
| WeightedDraw.MakeContenderRngBoundaryMap | services/arena/src/fightingPit/FightingPitAnnouncer.cpp:42-53 | The accumulating loop builds the specified map, or reports where the original is undefined. |
| WeightedDraw.BoundaryMap.Get | services/common/include/BoundaryMap.hh:31-35 | The entry with the smallest key not below the index, if there is one. |
| WeightedDraw.BoundaryMap.Insert | services/common/include/BoundaryMap.hh:37-50 | The three insertion branches, the last one being undefined because the erased position is read. |
| WeightedDraw.ValidateZone | services/arena/src/ArenaServerContext.cpp:96-107 | Accepted iff for all three difficulties the chances add up to 100 modulo 2^32. |
| WeightedDraw.ValidatedTotal | services/arena/src/ArenaServerContext.cpp:96-107 | For percentages that check means that the chances add up to 100. |
| ScriptCache.SharedPath | scripting_cache/cml/include/CmlKey.hh:34-38 | Two keys share a file iff they differ only in ':' against '/', or one is absolute and spells out the local directory of the other. |
| ScriptCache.PathsAreSpelt | scripting_cache/cml/include/CmlKey.hh:34-38 | Both the local and the source path of a key are its directory, one separator and the key with every ':' read as '/'; an absolute key stands alone. |
| ScriptCache.SpeltOnce | scripting_cache/cml/include/CmlKey.hh:34-38 | There is only one such path. |
| ScriptCache.ScriptIsFound | scripting_cache/cml/src/CmlCopy.cpp:29-34 | With no local file, the script stored in the source directory under the parts of its key is what the lookup answers, and is then stored locally under them. |
| ScriptCache.LookupReadsThrough | scripting_cache/cml/src/Cml.cpp:66-96 | On a coherent state a lookup, including one that copies, answers the current file content, else the source's, else the empty string, and stays coherent. |
| ScriptCache.CoherentIffEveryHitIsCurrent | scripting_cache/cml/src/Cml.cpp:70-86 | Coherence holds iff every lookup of an existing file tells its content. |
| ScriptCache.LookupTouchesOwnKeyOnly | scripting_cache/cml/src/Cml.cpp:77-96 | A lookup changes at most its own memory entry and creates at most its own file. |
| ScriptCache.SecondLookupIsServedFromMemory | scripting_cache/cml/src/Cml.cpp:81-92 | Looking a key up again changes nothing, and an existing file is then served from memory. |
| ScriptCache.WriteKeepsCoherence | scripting_cache/cml/src/Cml.cpp:70-75 | A write keeps coherence iff every fill from its path stamped no earlier had read the same content. |
| ScriptCache.WriteOnTheTickOfTheFill | scripting_cache/cml/src/Cml.cpp:70-75 | A concrete write on the tick of a fill after which old content is served. |
| ScriptCache.RunReadsThrough | scripting_cache/cml/src/Cml.cpp:66-96 | Over any run of lookups, writes and deletions in which every write or copy comes later than the lookups that filled the memory from its path, every lookup answers as if there were no memory. |
| ScriptCache.AliasesAgree | scripting_cache/cml/include/CmlKey.hh:34-38 | Two keys of one path, each with its own memory entry, are answered alike. |
| ScriptCache.CmlCopy.FindInCache | scripting_cache/cml/src/Cml.cpp:77-96 | The search that calls itself after a copy has the effect and answer of the flat form "supply the file, then remember it"; it recurses at most once. |
| SizedQueues.LiveSlotsDistinct | services/common/include/SizedQueue.hh:86-90 | Counters less than a capacity apart never share a slot. |
| SizedQueues.SizedQueue.Push | services/common/include/SizedQueue.hh:68-76 | For every capacity: accepted iff fewer elements than the capacity are stored; then the element is appended to the FIFO contents, unless the 32-bit counter wraps, when everything stored is lost. |
| SizedQueues.SizedQueue.Pop | services/common/include/SizedQueue.hh:51-60 | The oldest element is returned and removed; on an empty queue the reset of the counters leaves it empty and usable. |
| SizedQueues.SizedQueue.Size | services/common/include/SizedQueue.hh:82-83 | While the counter has not wrapped, the size is the length of the contents and at most the capacity. |
| TokenKeys.RoundTripIffSmall | services/common/include/Key.hh:50-77 | For every 32-bit index and filler of at least six digits for which a key is built, decoding gives the index back iff it is below 100000; from 100000000 on it gives 9672. |
| TokenKeys.BuildKey | services/common/include/Key.hh:50-62 | A key of exactly eight characters is built iff the index is below 100000 or at least 100000000. |
| TokenKeys.SmallIndexToken | services/common/include/Key.hh:55-61 | Below 100000 the token is exactly eight characters: the offset digit, the first filler digits, and the index in decimal from the offset on. |
| TokenKeys.PrintedIsRead | services/common/include/Key.hh:56-75 | Reading a number's decimal notation gives the number. |
| TokenKeys.DigitCount | services/common/include/Key.hh:56-57 | A number has at most k decimal digits iff it is below 10^k. |
| AllyTeams.AllyPartyTeams.AddPartyTeam | services/arena/src/fightingPit/team/AllyPartyTeams.cpp:55-62 | Ids stay 1..N in flattened order: the new members get the next numbers, earlier teams are untouched. |
| AllyTeams.AllyPartyTeams.SelectSuitableMember | services/arena/src/fightingPit/team/AllyPartyTeams.cpp:64-78 | The fold team by team equals the fold over the flat list for every comparator. |
| AllyTeams.BestIsEarliest | services/common/include/algorithm/algorithm.hh:54-68 | For a strict weak order the fold selects the earliest maximal element. |
| AllyTeams.FindMostSuitable | services/common/include/algorithm/algorithm.hh:54-68 | The loop is the fold of its comparator from the given start. |
| AllyTeams.AllyPartyTeams.SelectMemberById | services/arena/src/fightingPit/team/AllyPartyTeams.cpp:132-147 | Number i gives the i-th member of the flat list; nothing is found exactly for numbers outside 1..N or when the first team is empty. |
| AllyTeams.AllyPartyTeams.GetMembersBySide | services/arena/src/fightingPit/team/AllyPartyTeams.cpp:159-170 | The members of the flat list on that side in order, or nobody when the first team is empty. |
| AllyTeams.OnSideKeepsOrder | services/arena/src/fightingPit/team/AllyPartyTeams.cpp:159-170 | What is kept are exactly the members on that side, as often and in the order they come. |
| AllyTeams.CountTeamsIsFlat | services/arena/src/fightingPit/team/AllyPartyTeams.cpp:149-157 | The count over teams is the number of members of the flat list on that side. |
| AllyTeams.CountMatchesList | services/arena/src/fightingPit/team/AllyPartyTeams.cpp:149-170 | The count equals the length of the list for that side iff the first team has members or nobody at all is on the side. |

## Left out

- TiedDrift.TenTimesIffTwoExtremes: characterises the bound by N; which single sides with N > 2 stay within ten times for every sorting routine, for example one slowest with two fastest, is not characterised. The routine that exceeds it orders equal speeds by id; nothing is claimed about routines that look at speeds only.
- SchedulerLaws.NoDrift: its multiple is not claimed to be the smallest for N > 2.
- PriorityOrder.PriorityOrderList.AddParticipantInList: does not cover an id already used by a participant of the other kind, which `initializePriorityListInSidesBattle` can produce because contenders are numbered from 0 and allies from 1.
- PriorityOrder.PriorityOrderList.CalculatePriority: speeds and the turn counter are unbounded integers; by ListWithin no speed overflows while the roster stays and (3N² - 3N + 4)F, with what was stored beyond F when it last changed, fits.
- ArenaServer.ArenaServerService.OnAuthenticate: reads the awaited entry only after the check; the original dereferences the end of the map first when the player is not awaited.
- ArenaServer.WorkerService.PlayerJoinFightingPit: a pit is reduced to its founder and the user names of its teams; layout, side battles and action scripts of a joining team are not part of this model.
- ScriptCache.CmlCopy.FindInCache: paths are compared as written, so spellings such as `a//b` or `./a` of one file count as different, and reading or copying never fails half-way; `createFile` and the unused key tokenizer are not modelled.
- WeightedDraw.BoundaryMap.Insert: an element equal to the one found is reported as undefined rather than given a meaning, since the original reads an erased position.
- WeightedDraw.ValidateZone: the other check of the encounter context, that each zone draws at least one contender, is a plain comparison and is not modelled.
- TokenKeys.BuildKey: the shuffled digits of the object's address are an arbitrary filler of at least six characters.
- AllyTeams.AllyPartyTeams.AddPartyTeam: teams are values here, so a member shared with the caller does not see its new number.
- Sockets, FlatBuffers, dispatchers, configuration files and database access: messages are plain inputs.
- ChaiScript and the action scripts; life arithmetic is simple clamping.
- Random draws: any value in the requested range.
- The second server thread that runs the fights: steps are sequential and atomic.
- The selectors restricted to a side or to living members: they test only the current candidate, so they do not promise what their names say.
- In-game access of joiners: the original never authenticates them, and the model says no more.
- End states of a fight, collision maps, player positions and the movement table of the hexagon.
