# Blinker app: a verified model

The Blinker app is a small cFS flight-software application. It keeps N blinkers,
each with a wrapping 16-bit count and a status, an 8-bit command counter, an 8-bit
error counter and a housekeeping packet. Messages arrive on its pipe: ground
commands, housekeeping requests, and blink ticks that add one to the count of every
enabled blinker. Commands reset, report, enable and disable blinkers, one or all,
and swap two counts.

Each handler is a few lines long. What is hard is what a run of messages does:
swaps move counts but not statuses, ticks look at statuses, resets cut history
short, counters wrap. This project models the app twice and then proves what runs do.

- `Types.dfy`, `Wrapping.dfy`: messages, outputs, state, build parameters (the number
  of blinkers, structure sizes and message IDs stay symbolic), wrapping counters.
- `Machine.dfy`: the app as a pure machine. `Classify` is the dispatcher's decision,
  `Act` and `Emit` one step, `Run` and `Trace` any finite run, `Decode` the dispatcher
  applied to a message sequence.
- `App.dfy`, `Startup.dfy`: the app as written, a class over arrays with the source's
  loops, switches and in-place swap, up to `Init` and `AppMain`, proved against the machine.
- `Dispatch.dfy`: which messages stand for which action, in plain codes and lengths.
- `History.dfy`: an account of counts, statuses, counters and outputs that looks only
  at past messages, and the proof that the machine agrees with it.
- `Logbook.dfy`: what the outputs tell an observer: each is true of its step, and
  together they record everything but ticks.
- `Summaries.dfy`: a finite normal form for what a run does.
- `Reachability`, `Distinguish`, `Symmetry`, `AllLoops`, `Permutations`, `Cycles`,
  `Exchange`, `Trades`, `Ledger`, `Erasure`, `Ticks`: the other theorems about runs.

`Wrap16` and `Wrap8` are reduction modulo 65536 and 256 (`Wrapping.Wrap16IsMod`,
`Wrapping.Wrap8IsMod`); `Slot(acts, i, k, t)` is the place where, after k messages, the
count was that is in slot i after t messages.

## Where the code and its texts differ

The model follows the code.

- The loops of the three "all" commands stop before the last blinker, although their
  events say "All blinkers ..." and a tick covers every blinker. The loop bound is a
  field of the configuration, so that the code (`AsWritten`) and the text (`Intended`)
  can be compared: `AllLoops.PromiseKeptIff` says exactly when a command does what its
  event says, `AllLoops.RunsIdenticalIff` exactly when the two go through the same states.
- "Blinker App Initialized" is sent once the pipe is subscribed, also when registering
  or loading the table then fails and `Init` returns an error (`Startup.InitializedEvent`).
- Only NOOP counts as a command and only a wrong length counts as an error
  (`History.CountersAreHistory`); an unknown code, an unknown message ID or a blinker
  number out of range is reported but not counted.
- The housekeeping packet declares a status and a count for each blinker, but nothing
  writes them (`History.PacketArraysUntouched`, `History.PacketIsHistory`).
- The event IDs declared for the single blinker commands are never used
  (`Ledger.EventIds`; `Ledger.OwnIds` says which events carry which of the other IDs).

## Model

| member | source | states |
|---|---|---|
| App.BlinkerApp.SendHkCmd | apps/blinker_app/fsw/src/blinker_app_cmds.c:47-72 | the packet takes both counters as they stand and is sent; nothing else changes |
| App.BlinkerApp.NoopCmd | apps/blinker_app/fsw/src/blinker_app_cmds.c:79-87 | adds one, wrapping, to the command counter and reports |
| App.BlinkerApp.ResetCountersCmd | apps/blinker_app/fsw/src/blinker_app_cmds.c:96-104 | zeroes both counters and reports |
| App.BlinkerApp.DisplayParamCmd | apps/blinker_app/fsw/src/blinker_app_cmds.c:152-159 | one event echoes the payload of the message, all three fields as they came; no state changes |
| App.BlinkerApp.ResetAllBlinkersCmd | apps/blinker_app/fsw/src/blinker_app_cmds.c:161-171 | zeroes exactly the counts of slots 0 to N-2 |
| App.BlinkerApp.EnableAllBlinkersCmd | apps/blinker_app/fsw/src/blinker_app_cmds.c:173-183 | sets exactly the statuses of slots 0 to N-2 to 1 |
| App.BlinkerApp.DisableAllBlinkersCmd | apps/blinker_app/fsw/src/blinker_app_cmds.c:185-195 | sets exactly the statuses of slots 0 to N-2 to 0 |
| App.BlinkerApp.ResetSpecBlinkersCmd | apps/blinker_app/fsw/src/blinker_app_cmds.c:197-211 | zeroes one count, or rejects a number that is out of range with an error event and status -1 |
| App.BlinkerApp.ReportSpecBlinkersCmd | apps/blinker_app/fsw/src/blinker_app_cmds.c:213-227 | reports one count, or rejects the number |
| App.BlinkerApp.EnableSpecBlinkersCmd | apps/blinker_app/fsw/src/blinker_app_cmds.c:229-243 | sets exactly one status to 1 and reports that number as enabled, or reports the number as out of range |
| App.BlinkerApp.DisableSpecBlinkersCmd | apps/blinker_app/fsw/src/blinker_app_cmds.c:245-259 | sets exactly one status to 0 and reports that number as disabled, or reports the number as out of range |
| App.BlinkerApp.SwapBlinkerCountsCmd | apps/blinker_app/fsw/src/blinker_app_cmds.c:261-283 | exchanges two counts in place and reports both as they are afterwards, or rejects the pair, naming both numbers in their order, if either is out of range |
| App.BlinkerApp.VerifyCmdLength | apps/blinker_app/fsw/src/blinker_app_dispatch.c:39-67 | true exactly for the expected length; otherwise one error event and one more, wrapping, in the error counter |
| App.BlinkerApp.Blink | apps/blinker_app/fsw/src/blinker_app_dispatch.c:69-78 | one more, wrapping, in every enabled count, in all N slots |
| App.BlinkerApp.ProcessGroundCommand | apps/blinker_app/fsw/src/blinker_app_dispatch.c:85-186 | for every code, length and payload, the effect and the outputs of the action the message stands for; a known code with a length other than its structure's changes nothing but the error counter and reports both lengths; a code above 11 only reports |
| App.BlinkerApp.TaskPipe | apps/blinker_app/fsw/src/blinker_app_dispatch.c:195-220 | for every message one step of the machine and its outputs; a housekeeping request of any length sends the packet; a tick of any length adds one, wrapping, to each enabled count and nothing else; a command of the wrong length only raises the error counter and reports both lengths; an unknown code or message ID only reports |
| App.BlinkerApp.ClearData | apps/blinker_app/fsw/src/blinker_app.c:116 | afterwards each element of the four arrays and each counter is 0 |
| App.BlinkerApp.Init | apps/blinker_app/fsw/src/blinker_app.c:110-219 | for any results of the framework calls: success exactly when all calls succeed, else the status of a call all of whose predecessors succeeded; in each of the eight outcomes the exact calls and events, each failure with its own event; every count, status, counter and packet field zero, and the app running |
| App.BlinkerApp.RunLoop | apps/blinker_app/fsw/src/blinker_app.c:69 | the assumed framework: it answers yes only while the run status is APP_RUN |
| App.BlinkerApp.Loop | apps/blinker_app/fsw/src/blinker_app.c:69-95 | for any script of answers and reads: exactly the messages before the first failed read or refusal are dispatched, and the run status records why the loop ended |
| App.BlinkerApp.AppMain | apps/blinker_app/fsw/src/blinker_app.c:45-103 | from start to exit, the final state is the run of the dispatched messages from zero, everything put out is what the message history prescribes, and the log records exactly the dispatched messages other than ticks and Process commands; nothing is dispatched if Init fails |
| Dispatch.Routed | apps/blinker_app/fsw/src/blinker_app_dispatch.c:201-219 | by message ID: housekeeping requests and ticks whatever their length, and rejection of exactly the other IDs |
| Dispatch.CommandsWithoutArguments | apps/blinker_app/fsw/src/blinker_app_dispatch.c:96-143 | codes 0, 1, 2, 4, 9 and 10 with the plain command length, and no other message, are NOOP, counter reset, Process and the three "all" commands |
| Dispatch.CommandsOnOneBlinker | apps/blinker_app/fsw/src/blinker_app_dispatch.c:145-171 | codes 5 to 8 with the specific-blinker length, and no other message, are reset, report, enable and disable of the numbered blinker, or a rejected number when it is N or more |
| Dispatch.CommandsWithPayload | apps/blinker_app/fsw/src/blinker_app_dispatch.c:117-178 | likewise code 3 with the display length, and code 11 with the swap length, which is rejected exactly when either number is N or more |
| Dispatch.CommandsRefused | apps/blinker_app/fsw/src/blinker_app_dispatch.c:51-184 | exactly the commands with a code above 11 are unknown; exactly the known codes whose length is not that of their structure are refused for their length, each with the length its code asks for |
| Startup.FirstFailure | apps/blinker_app/fsw/src/blinker_app.c:131-209 | the first call in the chain whose result is not success |
| Startup.InitSucceedsIffAllCallsDo | apps/blinker_app/fsw/src/blinker_app.c:131-218 | success exactly when all seven checked calls succeed; a call is made exactly when all earlier ones succeeded |
| Startup.InitStatusIs | apps/blinker_app/fsw/src/blinker_app.c:131-218 | a failing status is the one a call returned whose predecessors all succeeded |
| Startup.InitInFull | apps/blinker_app/fsw/src/blinker_app.c:131-216 | for each place where the chain can stop, the calls made and the events sent, each with the status it quotes |
| Startup.InitializedEvent | apps/blinker_app/fsw/src/blinker_app.c:194-218 | the event is sent exactly when the first five calls succeed, and goes with a failing status exactly when they succeed and one of the two table calls fails |
| Startup.ExitIs | apps/blinker_app/fsw/src/blinker_app.c:69-95 | the served messages and the exit status are fixed by the first round that delivers nothing |
| History.LastWriterWins | apps/blinker_app/fsw/src/blinker_app_cmds.c:173-259 | after any run a status is what the last enable or disable covering it wrote, else the initial one |
| History.StatusesStayBinary | apps/blinker_app/fsw/src/blinker_app_cmds.c:173-259 | statuses stay 0 or 1 |
| History.CountIsHistory | apps/blinker_app/fsw/src/blinker_app_dispatch.c:69-78 | at every moment of every run a count is the number, wrapped, of ticks its value felt in the slots it passed through while they were enabled, since the last reset that hit it |
| History.ClosedForm | apps/blinker_app/fsw/src/blinker_app_cmds.c:161-283 | the same for whole runs from any state in ordinary arithmetic: modulo 65536, the ticks kept plus, if no reset hit the value, the initial count of its slot of origin |
| History.CountersAreHistory | apps/blinker_app/fsw/src/blinker_app_cmds.c:79-104 | the counters are the accepted NOOPs and the wrong-length commands since the last counter reset, wrapped |
| History.TraceIsHistory | apps/blinker_app/fsw/src/blinker_app_dispatch.c:85-220 | every run emits exactly the events and packets that a specification keeping only the message history prescribes, with the history's counts in each report and swap event |
| Logbook.OutputsAreTrue | apps/blinker_app/fsw/src/blinker_app_dispatch.c:51-219 | for every message of every run: its output is an exact account of the step, of which field changed and how, and of the message's ID, code and numbers; a message without output is a tick or a well-formed Process command |
| Logbook.LastEventHolds | apps/blinker_app/fsw/src/blinker_app_cmds.c:173-259 | at any moment a blinker's status is what the last event covering it announced, else the initial one |
| Logbook.LogRecordsActions | apps/blinker_app/fsw/src/blinker_app_cmds.c:47-283 | the outputs of any run, read back, are its actions other than ticks and Process commands, in order and with their arguments |
| Logbook.ReplayOfLog | apps/blinker_app/fsw/src/blinker_app_dispatch.c:69-219 | replaying the log gives statuses, counters and packet exactly, and each count short of the ticks it has kept |
| Logbook.ReplayIsExactIff | apps/blinker_app/fsw/src/blinker_app_dispatch.c:69-78 | and gives a count exactly when the ticks it has kept are a multiple of 65536 |
| Logbook.SameLogSameState | apps/blinker_app/fsw/src/blinker_app_dispatch.c:85-220 | two runs from one state with the same outputs differ at most in counts |
| Logbook.LifeRecordsActions | apps/blinker_app/fsw/src/blinker_app.c:45-219 | the log of a whole life, from Init to a failed read, reads back as exactly the dispatched actions other than ticks and Process commands |
| History.PacketArraysUntouched | apps/blinker_app/config/default_blinker_app_msgstruct.h:93-99 | no message ever writes the blinker arrays of the packet |
| History.PacketIsHistory | apps/blinker_app/fsw/src/blinker_app_cmds.c:47-61 | each packet carries, modulo 256, the wrong-length commands and NOOPs since the last counter reset, and in each slot status 0 and count 0 |
| History.TelemetryStaysSmall | apps/blinker_app/config/default_blinker_app_msgstruct.h:93-99 | the 16-bit counter fields of every packet sent stay at most 255 and each of its N statuses and N counts is 0 |
| Summaries.RunIsApply | apps/blinker_app/fsw/src/blinker_app_dispatch.c:69-220 | a run of any length does to every state what its finite summary says: for each slot the last status written, the origin of the count or a reset, the ticks kept for certain and those that depend on an initial status, modulo 65536; and the counters and the packet |
| Summaries.ApplyInjective | apps/blinker_app/fsw/src/blinker_app_dispatch.c:69-220 | summaries that do the same to every state are equal |
| Summaries.RunsEquivalentIff | apps/blinker_app/fsw/src/blinker_app_dispatch.c:69-220 | two runs lead every state to the same state exactly when their summaries are equal |
| Reachability.CanReach | apps/blinker_app/fsw/src/blinker_app_cmds.c:79-259 | from any state, a constructed message sequence leads to any proper state with the same packet arrays |
| Reachability.ReachableIffProper | apps/blinker_app/fsw/src/blinker_app_dispatch.c:51-78 | the states reachable from start-up are exactly those with arbitrary counts and counters, 0/1 statuses, packet counters up to 255 and a 0 in every slot of both packet arrays |
| Reachability.ReachableStatesConnected | apps/blinker_app/fsw/src/blinker_app_dispatch.c:85-220 | any reachable state can be reached from any other |
| Distinguish.IndistinguishableIffAlike | apps/blinker_app/fsw/src/blinker_app_dispatch.c:69-220 | no message sequence tells two states apart exactly when counts, enabledness, counters and packet arrays agree |
| Distinguish.TellApart | apps/blinker_app/fsw/src/blinker_app_cmds.c:47-227 | otherwise two messages suffice |
| Symmetry.ClassifyRenamed | apps/blinker_app/fsw/src/blinker_app_dispatch.c:85-220 | renaming the in-range blinker numbers of a message renames the action it stands for |
| Symmetry.RenamedMessages | apps/blinker_app/fsw/src/blinker_app_cmds.c:161-283 | for every permutation of the blinkers that keeps the range of the "all" loops, or any at all if the run has no "all" command: renaming start state and messages renames final state and outputs |
| Symmetry.SymmetricIffKeepsRange | apps/blinker_app/fsw/src/blinker_app_cmds.c:161-195 | a permutation is a symmetry of every run, from all start states, exactly when it keeps the range of the "all" loops |
| Symmetry.KeepsRangeAsWritten | apps/blinker_app/fsw/src/blinker_app_cmds.c:163-190 | as written, it says that the last blinker keeps its number |
| AllLoops.PromiseKeptIff | apps/blinker_app/fsw/src/blinker_app_cmds.c:161-195 | as written, an "all" command leaves all blinkers as its event says exactly when the last one already was |
| AllLoops.EnableAllFails | apps/blinker_app/fsw/src/blinker_app_cmds.c:173-183 | from start-up, enabling all blinkers leaves the last one disabled |
| AllLoops.DisableAllFails | apps/blinker_app/fsw/src/blinker_app_cmds.c:185-195 | once the last blinker is enabled, disabling all leaves it enabled |
| AllLoops.ResetAllFails | apps/blinker_app/fsw/src/blinker_app_cmds.c:161-171 | once the last blinker has counted a tick, resetting all leaves its count |
| AllLoops.PromiseKeptIfIntended | apps/blinker_app/fsw/src/blinker_app_cmds.c:161-195 | with the bound N it always does |
| AllLoops.BoundsAgree | apps/blinker_app/fsw/src/blinker_app_cmds.c:161-283 | at each moment of any run, the two bounds give the same count for every value that was never in the last slot, and the same statuses elsewhere |
| AllLoops.AvoidsLastIgnoresBound | apps/blinker_app/fsw/src/blinker_app_cmds.c:273-275 | whether a value has been in the last slot is the same under every bound, so the condition does not favour one machine |
| AllLoops.BoundsAgreeWithoutSwaps | apps/blinker_app/fsw/src/blinker_app_cmds.c:163-275 | without swaps between the last slot and another, they agree at each step on all other slots |
| AllLoops.SwapSpreadsDifference | apps/blinker_app/fsw/src/blinker_app_cmds.c:161-283 | a run of four messages, for any N of at least 2, where such a swap brings the difference into slot 0 |
| AllLoops.RunsIdenticalIff | apps/blinker_app/fsw/src/blinker_app_cmds.c:161-195 | the two bounds give the same state after each message exactly when every "all" command finds the last slot as it would leave it, and then the same outputs |
| AllLoops.AllIsSpecifics | apps/blinker_app/fsw/src/blinker_app_cmds.c:161-259 | a run of specific commands equals the "all" command from every state exactly when it covers the loop's range and nothing else, in any order and with repetitions |
| Permutations.OriginIsPerm | apps/blinker_app/fsw/src/blinker_app_cmds.c:273-275 | along any run the slots where the counts began form a permutation |
| Permutations.SwapsPermute | apps/blinker_app/fsw/src/blinker_app_cmds.c:261-283 | a run of accepted swaps rearranges the counts by that permutation and changes nothing else |
| Cycles.SwapsAtLeast | apps/blinker_app/fsw/src/blinker_app_cmds.c:261-283 | a run of swaps that performs p has at least N minus the number of cycles of p |
| Cycles.SwapsSuffice | apps/blinker_app/fsw/src/blinker_app_cmds.c:261-283 | and some run performs p with exactly that many |
| Cycles.EveryPermByFewSwaps | apps/blinker_app/fsw/src/blinker_app_cmds.c:261-283 | every permutation is performed by some run of at most N-1 swaps |
| Cycles.RotationNeedsAll | apps/blinker_app/fsw/src/blinker_app_cmds.c:261-283 | the bound N-1 is tight: no run of fewer swaps rotates all counts by one |
| Exchange.SpecificsIndependent | apps/blinker_app/fsw/src/blinker_app_cmds.c:197-283 | commands on different blinkers, or a count and a status command, are independent |
| Exchange.IndependentCommute | apps/blinker_app/fsw/src/blinker_app_cmds.c:47-283 | actions neither of which writes what the other reads or writes commute from every state, and report the same |
| Trades.CommuteIffMayTrade | apps/blinker_app/fsw/src/blinker_app_cmds.c:47-283 | for every two actions and every state: both orders lead to the same state exactly when the guard `MayTrade` holds, which looks only at the statuses, counts and counters the two meet in |
| Trades.TickCommutesIff | apps/blinker_app/fsw/src/blinker_app_dispatch.c:69-78 | a tick and another action lead to the same state in either order exactly when: the slots of a swap are the same, or enabled or disabled alike; the slot of a reset or disable is disabled, that of an enable enabled; likewise every slot in the range of an "all" command; with any other action always |
| Trades.ReportSameIff | apps/blinker_app/fsw/src/blinker_app_cmds.c:47-283 | an action reports the same with or without another before it exactly when that one leaves what it quotes as it is |
| Trades.SwapTickLaws | apps/blinker_app/fsw/src/blinker_app_cmds.c:273-281 | a swap and a tick commute exactly when the slots are the same or alike; the swap reports the same counts exactly when both are disabled |
| Trades.IndependentMayTrade | apps/blinker_app/fsw/src/blinker_app_cmds.c:47-283 | independent actions may trade places from every state and keep their reports |
| Trades.TradeIff | apps/blinker_app/fsw/src/blinker_app_dispatch.c:85-220 | trading two neighbours of a run keeps the state exactly when they may trade there, and the outputs up to order exactly when neither disturbs the other |
| Trades.ChainOfTrades | apps/blinker_app/fsw/src/blinker_app_dispatch.c:85-220 | whole runs linked by trades that the state reached at each point permits end in the same state, and with the same outputs as a multiset if the trades keep the reports |
| Ledger.CountsConserved | apps/blinker_app/fsw/src/blinker_app_dispatch.c:71-77 | over any run the sum of counts is the initial sum, plus ticks felt, minus counts cleared, minus 65536 for each wrap-around |
| Ledger.OutputAccounting | apps/blinker_app/fsw/src/blinker_app_dispatch.c:51-219 | one event for each message that is no housekeeping request, tick or well-formed Process command; one error event for each rejected message; one packet for each request |
| Erasure.DecodeAccepted | apps/blinker_app/fsw/src/blinker_app_dispatch.c:85-220 | erasing rejected messages is erasing the actions they stand for |
| Erasure.ErasureInvisible | apps/blinker_app/fsw/src/blinker_app_cmds.c:199-272 | erasing every rejected message from a run changes neither blinkers nor command counter nor any output but error events and the packet's error field |
| Ticks.TickBatch | apps/blinker_app/fsw/src/blinker_app_dispatch.c:69-78 | k ticks in a row change nothing but the counts and are silent |
| Ticks.TickBatchSlot | apps/blinker_app/fsw/src/blinker_app_dispatch.c:69-78 | k ticks add k modulo 65536 to each enabled count and nothing to the others |
| Ticks.SameTicks | apps/blinker_app/fsw/src/blinker_app_dispatch.c:69-78 | two stretches of ticks lead to the same state exactly when their lengths agree modulo 65536 or no blinker is enabled |
| Ticks.TicksIndistinguishable | apps/blinker_app/fsw/src/blinker_app_dispatch.c:69-78 | stretches of lengths equal modulo 65536 can replace each other inside any run, with the same state and outputs |
| Ticks.TicksIndistinguishableIff | apps/blinker_app/fsw/src/blinker_app_dispatch.c:69-78 | from a given state, no continuation tells two stretches apart exactly when their lengths agree modulo 65536 or no blinker is enabled |
| Ticks.FullTurn | apps/blinker_app/fsw/src/blinker_app_dispatch.c:69-78 | 65536 ticks change nothing |
| Wrapping.WrapInc | apps/blinker_app/fsw/src/blinker_app.h:53-83 | counting in a wrapped counter is wrapping the count |

## Left out

- The framework itself (software bus, event, table and time services, performance log): each call is a given result or an entry in a ghost log of outputs; the run loop's answers are a finite script.
- System log messages, `CFE_TBL_Manage` after a housekeeping packet, and the packet header and time stamp.
- `BLINKER_APP_ProcessCmd`, `BLINKER_APP_GetCrc` and the table validation function: they read a table, write to the system log and touch none of the state modelled here.
- Event texts: an event is one constructor for each format string, with its numeric arguments and the echoed payload; the two failures with the same ID and text, of the command and the blink subscription, are one event.
- Structure layout and byte order: a message is given decoded, with its length as a number; the number of blinkers is any N from 1 to 65536, so that every slot has a 16-bit number.
- The dispatcher generated from the electronic data sheet: its decisions are in a generated function that is not part of this model.
- The exact inlining: the run loop of the source's main function and the two arms of its body, the stages of `Init` and its memset, and the numbered cases of the command switch are methods of their own in `App.dfy`.
- Pipe depth, pipe name and version string: they are passed to the framework and never read again.
