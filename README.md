# showcontrol4j in Dafny

showcontrol4j synchronises independently clocked show elements (lights, sound, GPIO devices). A show trigger broadcasts a command over a fanout exchange. The command is an instruction (GO, IDLE or SHUTDOWN) plus an absolute start time in epoch milliseconds. Every show element waits until that start time and then cancels whatever it is running. It then starts the routine the instruction names. The keyboard trigger turns typed tokens into commands.

This project models that core:

- `Instructions`: the instruction enumeration, with the names the instructions travel under.
- `JsonText` and `Messages`: the `SCFJMessage` value, its Lombok builder and its byte codec. Jackson is not part of the model. In its place is a minimal two-field JSON text over US-ASCII bytes, `{"instruction":"GO","startTime":1234}`. Its decoder accepts exactly the texts the encoder writes.
- `ShowCommands`: the `ShowCommand` factories. Java's `long` addition `now + syncTimeout` is written out with its wrap-around modulo 2^64. The wall clock is the parameter `now`.
- `Elements`: the show element as a class.
  - `HandleMessage` is the delivery thread. It runs the 100 ms pause loop up to the start time, cancels the task in the `runningFuture` slot, then submits a new task.
  - `Step` and `RunWorker` are the executor's worker. A worker step is one hook call of one task.
  - The hooks `showSequence`, `idleLoop` and `shutdownProcedure` are recorded as events in a trace.
  - The class invariant `Valid` says that at most one task is live and not cancelled, and that it is the one in the slot.
- `Triggers`: `ShowTrigger` and its three send methods, publishing onto a channel. The channel is modelled as an append-only log of accepted `basicPublish` calls.
- `KeyboardTriggers`:
  - `equalsIgnoreCase` as Java defines it.
  - The token classification chain of `startListener`.
  - The listener loop as a method over a finite sequence of key presses. Its result is tied to the functions `Listen`, `Consumed` and `Exits`.

Points where the code is not what a reader might expect, and how the model reads it:

- The enumeration defines only SHUTDOWN as its terminal instruction (Instruction.java:8-21), yet the code names the terminal command in other ways at three sites:
  - `ShowElement.java` line 85 tests `Instruction.STOP`, which does not exist;
  - `ShowTrigger.java` line 71 calls `ShowCommand.STOP()`, which does not exist;
  - `KeyboardShowTrigger.java` line 50 calls `sendShutdownMessage()`, which `ShowTrigger` does not define.

  The model reads all three as the SHUTDOWN instruction.
- `handleMessage` blocks the delivering thread in its wait loop (ShowElement.java:71-77). A newer command never abandons a pending wait, so every delivered command is waited for and then, until the element has shut down, replaces the running task. After `runStop`, `executor.submit` (ShowElement.java:81) throws RejectedExecutionException: the command is waited for and replaces nothing (`Replace` returns `accepted == false`).
- The keyboard test `testStartListener_stopMessage` expects a publish for the token "STOP". The classification chain ignores "STOP" (KeyboardShowTrigger.java:42-54), and `ScannerTestsAsWritten` proves that it publishes nothing, however often it is read.
- A deadline past the end of the `long` range wraps to the far past, exactly as Java computes it (`OffsetOverflowWraps`).
- The codec is a stand-in for Jackson and is stricter: it rejects a payload without an instruction field (`MissingInstructionRejected`), where Jackson would leave that field at its default.

## Model

| member | source | states |
|---|---|---|
| Instructions.FromName | showcontrol4j-core/src/main/java/org/showcontrol4j/message/Instruction.java:8-21 | `valueOf`: a constant it finds has exactly the given name; it finds none only for a name that is none of GO, IDLE, SHUTDOWN |
| Instructions.ExactlyThree | showcontrol4j-core/src/main/java/org/showcontrol4j/message/Instruction.java:8-21 | every instruction is GO, IDLE or SHUTDOWN, and these are three distinct constants |
| Instructions.NameRoundTrip | showcontrol4j-core/src/main/java/org/showcontrol4j/message/Instruction.java:8-21 | reading an instruction's name back gives the same instruction; two instructions share a name iff they are equal |
| Instructions.NoStopInstruction | showcontrol4j-core/src/main/java/org/showcontrol4j/message/Instruction.java:8-21 | no constant is named STOP, and `valueOf("STOP")` finds nothing |
| Messages.BuilderStoresFields | showcontrol4j-core/src/main/java/org/showcontrol4j/message/SCFJMessage.java:18-25 | the builder yields a message with exactly the instruction and start time it was given, in either order of setting |
| Messages.BuilderDefaults | showcontrol4j-core/src/test/java/org/showcontrol4j/message/SCFJMessageTest.java:27-32 | a message built with nothing set has a null instruction and start time 0 |
| Messages.MessageEquality | showcontrol4j-core/src/main/java/org/showcontrol4j/message/SCFJMessage.java:19-25 | two messages are equal iff their instructions and start times are equal |
| Messages.Serialize | showcontrol4j-core/src/main/java/org/showcontrol4j/message/SCFJMessage.java:27-29 | `serialize()`: the message's two-field text as bytes; no contract of its own, specified by `DeserializeSerialize` and `SerializeDeserialize` |
| Messages.Deserialize | showcontrol4j-core/src/main/java/org/showcontrol4j/message/SCFJMessage.java:31-33 | `deserialize(bytes)`: a message or a decode error; no contract of its own, specified by `DeserializeSerialize`, `SerializeDeserialize` and the three `...Rejected` lemmas |
| Messages.DeserializeSerialize | showcontrol4j-core/src/test/java/org/showcontrol4j/message/SCFJMessageTest.java:34-44 | deserializing the serialization of any message gives back that message, both fields included |
| Messages.SerializeDeserialize | showcontrol4j-core/src/main/java/org/showcontrol4j/message/SCFJMessage.java:27-33 | bytes that deserialize to a message are exactly that message's serialization: the decoder invents no field |
| Messages.EmptyPayloadRejected | showcontrol4j-core/src/main/java/org/showcontrol4j/message/SCFJMessage.java:31-33 | an empty payload is reported as an error |
| Messages.MissingInstructionRejected | showcontrol4j-core/src/main/java/org/showcontrol4j/message/SCFJMessage.java:31-33 | a payload without the instruction field is reported as an error |
| Messages.UnknownInstructionRejected | showcontrol4j-core/src/main/java/org/showcontrol4j/message/SCFJMessage.java:31-33 | a payload whose instruction is "STOP" is reported as an error |
| JsonText.ParseIntText | showcontrol4j-core/src/main/java/org/showcontrol4j/message/SCFJMessage.java:25-33 | the start time's decimal text reads back as the same integer, negative values included |
| JsonText.IntTextOfParse | showcontrol4j-core/src/main/java/org/showcontrol4j/message/SCFJMessage.java:25-33 | every numeral the reader accepts is the printed form of the integer it yields |
| ShowCommands.Go | showcontrol4j-core/src/main/java/org/showcontrol4j/message/ShowCommand.java:23-28 | `ShowCommand.GO`; no contract of its own, specified by `DeadlineIsNowPlusOffset`, `NoOffsetStartsNow`, `DeadlineNotBeforeEmission`, `DeadlineIsAbsolute` and `OffsetOverflowWraps` |
| ShowCommands.Idle | showcontrol4j-core/src/main/java/org/showcontrol4j/message/ShowCommand.java:39-44 | `ShowCommand.IDLE`; no contract of its own, specified by `DeadlineIsNowPlusOffset`, `NoOffsetStartsNow` and `DeadlineNotBeforeEmission` |
| ShowCommands.Shutdown | showcontrol4j-core/src/main/java/org/showcontrol4j/message/ShowCommand.java:51-56 | `ShowCommand.SHUTDOWN`; no contract of its own, specified by `ShutdownStartsNow` |
| ShowCommands.AddLong | showcontrol4j-core/src/main/java/org/showcontrol4j/message/ShowCommand.java:26 | Java `long` addition: the exact sum when it fits in 64 bits, and always congruent to the sum modulo 2^64 |
| ShowCommands.DeadlineIsNowPlusOffset | showcontrol4j-core/src/main/java/org/showcontrol4j/message/ShowCommand.java:23-44 | GO and IDLE carry their instruction and start at `now + syncTimeout` when that fits in a long |
| ShowCommands.NoOffsetStartsNow | showcontrol4j-core/src/test/java/org/showcontrol4j/message/ShowCommandTest.java:25-49 | with a null syncTimeout, GO and IDLE start at `now` |
| ShowCommands.ShutdownStartsNow | showcontrol4j-core/src/main/java/org/showcontrol4j/message/ShowCommand.java:51-56 | SHUTDOWN carries its instruction and starts at `now` |
| ShowCommands.DeadlineNotBeforeEmission | showcontrol4j-core/src/main/java/org/showcontrol4j/message/ShowCommand.java:23-44 | a non-negative offset that does not overflow never gives a start time before `now` |
| ShowCommands.DeadlineIsAbsolute | showcontrol4j-core/src/main/java/org/showcontrol4j/message/ShowCommand.java:23-28 | the start time is absolute: with the same offset, deadlines are as far apart as their emission instants, and each lies `t` after its own |
| ShowCommands.OffsetOverflowWraps | showcontrol4j-core/src/main/java/org/showcontrol4j/message/ShowCommand.java:26 | GO at `Long.MAX_VALUE` with offset 1 starts at `Long.MIN_VALUE` |
| Elements.PausesNeeded | showcontrol4j-element/src/main/java/org/showcontrol4j/element/ShowElement.java:71-77 | the number of 100 ms pauses is the least one that brings the clock to the start time, and 0 when it has already come |
| Elements.PausesNeededUnique | showcontrol4j-element/src/main/java/org/showcontrol4j/element/ShowElement.java:71-77 | those two bounds determine the pause count |
| Elements.Advance | showcontrol4j-element/src/main/java/org/showcontrol4j/element/ShowElement.java:84-117 | one step of `analyzeMessage`, `runShowLoop`, `runIdleLoop` or `runStop`; no contract of its own, specified through `Run` by the lemmas below and used by `ShowElement.Step` |
| Elements.Run | showcontrol4j-element/src/main/java/org/showcontrol4j/element/ShowElement.java:94-111 | the hooks an uncancelled task calls in `n` steps; no contract of its own, specified by `IdlingRepeats`, `FinishedIsSilent`, `GoShowsThenIdles`, `IdleRepeatsForever`, `ShutdownRunsOnce` and `NoInstructionNoHook` |
| Elements.IdlingRepeats | showcontrol4j-element/src/main/java/org/showcontrol4j/element/ShowElement.java:103-111 | a task in the idle loop calls `idleLoop` at every step and stays in the loop |
| Elements.FinishedIsSilent | showcontrol4j-element/src/main/java/org/showcontrol4j/element/ShowElement.java:136-139 | a task whose `run()` has returned calls no hook |
| Elements.GoShowsThenIdles | showcontrol4j-element/src/main/java/org/showcontrol4j/element/ShowElement.java:94-101 | GO calls `showSequence` once, then `idleLoop` at every later step |
| Elements.IdleRepeatsForever | showcontrol4j-element/src/main/java/org/showcontrol4j/element/ShowElement.java:89-90 | IDLE calls `idleLoop` at every step, from the first |
| Elements.ShutdownRunsOnce | showcontrol4j-element/src/main/java/org/showcontrol4j/element/ShowElement.java:113-117 | SHUTDOWN calls `shutdownProcedure` exactly once, however long its task runs |
| Elements.NoInstructionNoHook | showcontrol4j-element/src/main/java/org/showcontrol4j/element/ShowElement.java:84-92 | a message with a null instruction matches no branch and calls no hook |
| Elements.ShowElement.LiveTasks | showcontrol4j-element/src/main/java/org/showcontrol4j/element/ShowElement.java:78-81 | at most one task is live and not cancelled, and it is the one in `runningFuture` |
| Elements.ShowElement.constructor | showcontrol4j-element/src/main/java/org/showcontrol4j/element/ShowElement.java:40-52 | a new element has no task, an empty slot and a running executor |
| Elements.ShowElement.Pause | showcontrol4j-element/src/main/java/org/showcontrol4j/element/ShowElement.java:124-126 | a pause advances the clock by 100 ms |
| Elements.ShowElement.WaitUntil | showcontrol4j-element/src/main/java/org/showcontrol4j/element/ShowElement.java:71-77 | the wait loop makes exactly `PausesNeeded` pauses and ends with the clock at or past the start time |
| Elements.ShowElement.Replace | showcontrol4j-element/src/main/java/org/showcontrol4j/element/ShowElement.java:78-81 | the task in the slot is cancelled, then a new task for the message is submitted and becomes the only live one; after `shutdownNow` nothing is submitted |
| Elements.ShowElement.HandleMessage | showcontrol4j-element/src/main/java/org/showcontrol4j/element/ShowElement.java:70-82 | a delivery waits until the start time, calls no hook, cancels the running task and leaves only the new task live, keeping the invariant |
| Elements.ShowElement.Step | showcontrol4j-element/src/main/java/org/showcontrol4j/element/ShowElement.java:84-117 | one worker step: a cancelled task ends silently; otherwise the instruction's branch runs, and SHUTDOWN empties the slot and shuts the executor down, interrupting every task |
| Elements.ShowElement.RunWorker | showcontrol4j-element/src/main/java/org/showcontrol4j/element/ShowElement.java:128-140 | an uncancelled task's steps call exactly the hooks of `Run`, a cancelled task's none; an uncancelled SHUTDOWN task empties the slot, shuts the executor down and cancels every task, and otherwise the slot, the cancelled set and the executor are unchanged |
| Elements.ShowElement.ShutdownIsAbsorbing | showcontrol4j-element/src/main/java/org/showcontrol4j/element/ShowElement.java:113-117 | once the executor is shut down, no task is live |
| Elements.GoMessageScenario | showcontrol4j-element/src/test/java/org/showcontrol4j/element/ShowElementTest.java:141-174 | GO runs the show sequence, then the idle loop |
| Elements.TwoGoMessagesScenario | showcontrol4j-element/src/test/java/org/showcontrol4j/element/ShowElementTest.java:176-213 | two GO messages run the show sequence twice; the interrupted first task calls nothing more, given that its hooks throw InterruptedException once interrupted |
| Elements.DelayedGoScenario | showcontrol4j-element/src/test/java/org/showcontrol4j/element/ShowElementTest.java:215-247 | a GO five seconds ahead is submitted after fifty pauses, at its start time |
| Elements.IdleMessageScenario | showcontrol4j-element/src/test/java/org/showcontrol4j/element/ShowElementTest.java:249-279 | IDLE calls the idle hook repeatedly |
| Elements.ShutdownMessageScenario | showcontrol4j-element/src/test/java/org/showcontrol4j/element/ShowElementTest.java:281-312 | SHUTDOWN during a show cancels it and calls the shutdown procedure once; later messages are refused |
| Triggers.Channel.BasicPublish | showcontrol4j-trigger/src/main/java/org/showcontrol4j/trigger/ShowTrigger.java:61-62 | a publish appends one delivery to the channel, or throws and appends nothing |
| Triggers.CommandFor | showcontrol4j-trigger/src/main/java/org/showcontrol4j/trigger/ShowTrigger.java:60-72 | the command each send method builds; no contract of its own, specified by `ReceiverDecodesCommand` and `SyncTimeoutHandling` |
| Triggers.Publication | showcontrol4j-trigger/src/main/java/org/showcontrol4j/trigger/ShowTrigger.java:60-72 | the `basicPublish` arguments of each send method; no contract of its own, specified by `ReceiverDecodesCommand` and used by the `Send...` methods' contracts |
| Triggers.ReceiverDecodesCommand | showcontrol4j-trigger/src/main/java/org/showcontrol4j/trigger/ShowTrigger.java:60-72 | a published command goes to the exchange's name with routing key "" and null properties, and decodes to its instruction and start time `now + syncTimeout` (`now` for SHUTDOWN) |
| Triggers.SyncTimeoutHandling | showcontrol4j-trigger/src/main/java/org/showcontrol4j/trigger/ShowTrigger.java:62-71 | a null syncTimeout acts as 0, and the terminal command ignores the timeout |
| Triggers.ShowTrigger.constructor | showcontrol4j-trigger/src/main/java/org/showcontrol4j/trigger/ShowTrigger.java:36-53 | the trigger keeps its name, id, syncTimeout, exchange and channel |
| Triggers.ShowTrigger.SetChannel | showcontrol4j-trigger/src/test/java/org/showcontrol4j/trigger/ShowTriggerTest.java:70-82 | `setChannel` replaces the channel |
| Triggers.ShowTrigger.SendGo | showcontrol4j-trigger/src/main/java/org/showcontrol4j/trigger/ShowTrigger.java:60-63 | publishes exactly one GO publication, unless the publish throws |
| Triggers.ShowTrigger.SendIdle | showcontrol4j-trigger/src/main/java/org/showcontrol4j/trigger/ShowTrigger.java:65-68 | publishes exactly one IDLE publication, unless the publish throws |
| Triggers.ShowTrigger.SendStop | showcontrol4j-trigger/src/main/java/org/showcontrol4j/trigger/ShowTrigger.java:70-72 | publishes exactly one SHUTDOWN publication, unless the publish throws |
| Triggers.SetChannelScenario | showcontrol4j-trigger/src/test/java/org/showcontrol4j/trigger/ShowTriggerTest.java:70-95 | after `setChannel`, a GO goes to the new channel to "test" and the old channel gets nothing |
| KeyboardTriggers.EqualsIgnoreCaseUpper | showcontrol4j-trigger/src/main/java/org/showcontrol4j/trigger/keyboard/KeyboardShowTrigger.java:42-51 | two strings are equal ignoring case iff their upper-case forms are equal |
| KeyboardTriggers.EqualsIgnoreCaseEquivalence | showcontrol4j-trigger/src/main/java/org/showcontrol4j/trigger/keyboard/KeyboardShowTrigger.java:42-51 | equality ignoring case is reflexive, symmetric and transitive |
| KeyboardTriggers.Classify | showcontrol4j-trigger/src/main/java/org/showcontrol4j/trigger/keyboard/KeyboardShowTrigger.java:42-54 | the if/else chain on one token; no contract of its own, specified by `TriggerKeySendsGo`, `ReservedWords` and `TriggerKeyShadowsReservedWords` |
| KeyboardTriggers.TriggerKeySendsGo | showcontrol4j-trigger/src/main/java/org/showcontrol4j/trigger/keyboard/KeyboardShowTrigger.java:42-44 | the trigger key in any case sends GO |
| KeyboardTriggers.ReservedWords | showcontrol4j-trigger/src/main/java/org/showcontrol4j/trigger/keyboard/KeyboardShowTrigger.java:45-54 | a token other than the trigger key sends IDLE, sends SHUTDOWN or ends the listener iff it spells IDLE, SHUTDOWN or EXIT in any case, and is ignored iff it spells none of them |
| KeyboardTriggers.TriggerKeyShadowsReservedWords | showcontrol4j-trigger/src/main/java/org/showcontrol4j/trigger/keyboard/KeyboardShowTrigger.java:42-51 | a trigger key spelled like a reserved word sends GO, not the reserved word's action |
| KeyboardTriggers.Listen | showcontrol4j-trigger/src/main/java/org/showcontrol4j/trigger/keyboard/KeyboardShowTrigger.java:39-57 | the commands the loop sends for a sequence of tokens; no contract of its own, specified by `ListenReadsOn`, `ListenStops`, `AtMostOnePublishPerToken`, `NothingAfterExit`, `SkippedTokenReadsOn` and `RepeatedToken`, and tied to the loop by `StartListener` |
| KeyboardTriggers.ExitsWhenSomeTokenIsExit | showcontrol4j-trigger/src/main/java/org/showcontrol4j/trigger/keyboard/KeyboardShowTrigger.java:51-53 | the listener exits iff some token is EXIT |
| KeyboardTriggers.ListenReadsOn | showcontrol4j-trigger/src/main/java/org/showcontrol4j/trigger/keyboard/KeyboardShowTrigger.java:39-57 | a token that is not EXIT publishes its reaction, counts one read, and the listener goes on to the next token |
| KeyboardTriggers.ListenStops | showcontrol4j-trigger/src/main/java/org/showcontrol4j/trigger/keyboard/KeyboardShowTrigger.java:51-53 | EXIT publishes nothing and is the last token read |
| KeyboardTriggers.AtMostOnePublishPerToken | showcontrol4j-trigger/src/main/java/org/showcontrol4j/trigger/keyboard/KeyboardShowTrigger.java:39-57 | there are no more publishes than tokens read, and no more tokens read than typed |
| KeyboardTriggers.NothingAfterExit | showcontrol4j-trigger/src/main/java/org/showcontrol4j/trigger/keyboard/KeyboardShowTrigger.java:51-53 | tokens after an EXIT publish nothing and are not read |
| KeyboardTriggers.SkippedTokenReadsOn | showcontrol4j-trigger/src/main/java/org/showcontrol4j/trigger/keyboard/KeyboardShowTrigger.java:55-57 | an ignored token, or one whose publish throws, publishes nothing, and the listener reads on |
| KeyboardTriggers.KeyboardShowTrigger.constructor | showcontrol4j-trigger/src/main/java/org/showcontrol4j/trigger/keyboard/KeyboardShowTrigger.java:29-34 | the keyboard trigger keeps its key, and its trigger part keeps name, id, syncTimeout, exchange and channel |
| KeyboardTriggers.KeyboardShowTrigger.React | showcontrol4j-trigger/src/main/java/org/showcontrol4j/trigger/keyboard/KeyboardShowTrigger.java:42-54 | one branch of the chain appends exactly the publications of the token's reaction |
| KeyboardTriggers.KeyboardShowTrigger.StartListener | showcontrol4j-trigger/src/main/java/org/showcontrol4j/trigger/keyboard/KeyboardShowTrigger.java:36-59 | the channel receives exactly the publications of `Listen`, in order; the tokens read are `Consumed` and the listener exits iff `Exits` |
| KeyboardTriggers.RepeatedToken | showcontrol4j-trigger/src/main/java/org/showcontrol4j/trigger/keyboard/KeyboardShowTrigger.java:39-57 | a token that does not end the listener, read again and again, sends its command once per read at each read's clock, or nothing when it has none; all reads are consumed and the listener does not exit |
| KeyboardTriggers.ScannerTestsAsWritten | showcontrol4j-trigger/src/test/java/org/showcontrol4j/trigger/keyboard/KeyboardShowTriggerTest.java:79-125 | with the scanner returning one token on every call and trigger key "a": every read of "a" sends GO, every read of "IDLE" sends IDLE, and "STOP" sends nothing however often it is read |
| KeyboardTriggers.TestTokens | showcontrol4j-trigger/src/main/java/org/showcontrol4j/trigger/keyboard/KeyboardShowTrigger.java:42-54 | with trigger key "a": "a" sends GO, "IDLE" sends IDLE, "STOP" is ignored and "exit" ends the listener |
| KeyboardTriggers.TestPressesPublish | showcontrol4j-trigger/src/main/java/org/showcontrol4j/trigger/keyboard/KeyboardShowTrigger.java:39-57 | over this model's own five presses, combining the tests' tokens "a", "IDLE", "STOP" with an "exit" and an unread "SHUTDOWN": "a" sends GO, then "IDLE" sends IDLE, and nothing else is sent |
| KeyboardTriggers.TestPressesExit | showcontrol4j-trigger/src/main/java/org/showcontrol4j/trigger/keyboard/KeyboardShowTrigger.java:51-53 | the listener reads those tokens up to and including "exit", and exits |
| KeyboardTriggers.ListenerScenario | showcontrol4j-trigger/src/test/java/org/showcontrol4j/trigger/keyboard/KeyboardShowTriggerTest.java:79-125 | the listener with the tests' trigger key "a", syncTimeout 5000 and exchange "test", over the model's own five presses: it publishes one GO and one IDLE command to "test" with routing key "" and null properties, then stops after four tokens |

## Left out

- RabbitMQ plumbing is not modelled: connections, `exchangeDeclare`, queue declaration and binding, `basicConsume`, and `registerShowElement`/`registerShowTrigger` with their logged IOException/TimeoutException. A channel is given to the constructors. On the element side, a delivery is a direct call of `HandleMessage` with the decoded message.
- The deliver callback's decode failure is not modelled. `Messages.Deserialize` reports it as a `Failure`, but the element is not shown receiving undecodable bytes.
- Messages.Deserialize: the decoder is strict, with exactly two fields in a fixed order and no whitespace. A payload missing either field is rejected, where Jackson would leave that field at its default (a null instruction, start time 0). Jackson is lenient in other ways too: it ignores field order and whitespace. Jackson is not part of this model.
- Messages.Serialize: the `JsonProcessingException` of `serialize()` cannot arise for these two fields, and is not modelled.
- The wall clock `System.currentTimeMillis()` is a parameter (`now`, or the element's `clock`). `pause()` advances that clock by exactly 100 ms. An interrupted sleep is logged and the wait continues; the model does not distinguish that case.
- Concurrency is not modelled. Deliveries and worker steps are interleaved by the caller as sequential method calls. The five-thread pool is not modelled beyond its one observable slot.
- Elements.ShowElement.Step: cancellation is cooperative, and `cancel(true)` only interrupts the task's thread. `runIdleLoop`'s `while (true) { idleLoop(); }` (ShowElement.java:105-107) ends only when `idleLoop` throws InterruptedException. `runShowLoop` skips the idle loop only when `showSequence` throws (ShowElement.java:95-100). The model assumes every hook throws InterruptedException once its thread is interrupted, so a cancelled task calls no further hook. A hook that ignores the interrupt, like the tests' no-op idle hook (ShowElementTest.java:190-192), keeps a cancelled task calling `idleLoop` forever. `TwoGoMessagesScenario`'s "calls nothing more" holds only under this assumption.
- A hook that throws anything other than InterruptedException is not modelled; such an exception would end the task's `run()`.
- The Raspberry Pi GPIO element, `toString`, logging and the getters/setters other than `setChannel` are outside the core.
- KeyboardTriggers.EqualsIgnoreCase: case folding covers ASCII letters only. Java's `Character.toUpperCase`/`toLowerCase` on non-ASCII characters is not modelled.
- JsonText.ToBytes: the stand-in codec writes US-ASCII by its own choice, with '?' for a character outside ASCII. Jackson's `writeValueAsBytes` (SCFJMessage.java:28) writes UTF-8. A message's text is ASCII, where the two encodings agree, so the replacement never happens on a message's path.
- KeyboardTriggers.KeyboardShowTrigger.StartListener: the `Scanner` over `System.in` is a finite sequence of key presses. Each press carries the clock at which it was read and whether its publish throws.
  - `System.exit(0)` on EXIT ends the listener, returning `exited`.
  - When the tokens run out, the model's listener returns with `exited` false. In the original, `scanner.next()` (KeyboardShowTrigger.java:41) throws NoSuchElementException at the end of input. The `catch (IOException)` at line 55 does not catch it, so `startListener` ends with that exception.
  - A null trigger key is not modelled: for it, `equalsIgnoreCase` returns false.
- The keyboard test `testStartListener_stopMessage` asserts at least one publish for "STOP". That expectation does not hold of the code, so the model states the opposite: `ScannerTestsAsWritten` proves that "STOP" sends nothing. The tests' timing (`Thread.sleep`) and Mockito's `atLeast(1)` are not modelled; the lemma gives the exact sends for any number of reads instead.
- An overflowing start time is modelled with Java's wrap-around. The lemmas about deadlines assume no overflow, because Java's arithmetic decides the overflowing case (`OffsetOverflowWraps`).
- The element tests call `showElement.init()`, which `ShowElement.java` does not define. The shutdown test also expects `System.exit(0)`, which `runStop` does not call. Neither is modelled: the element is ready once constructed, and the terminal state is `executorShutdown`.
