# Robolectric core pieces in Dafny

This project models four pieces of Robolectric, the Android unit-test
framework, and proves properties of each.

- **The paused looper** (`ShadowPausedLooper`). Each looper has a message queue. In paused mode, posted messages run only when test code asks for it:
  - `idle()` drains the messages that are due now;
  - `idleFor(d)` steps the shared virtual clock from one scheduled time to the next, up to `now + d`;
  - `runOneTask()` runs the head message even if it is not yet due.

  After a message is read and the queue goes idle, the idle handlers run and those that answer `false` are dropped. The main looper is paused from the start and can only be driven from its own thread. `unPause()` always refuses it. `quit()` from its own thread still hands an unpause to its executor, which posts it into the main queue. Other loopers pause and unpause through control commands carried to their thread by an executor.
- **The `@Implements` validator** of the annotation processor (`ImplementsValidator`). It contains:
  - the attribute checks at the top of `visitType`;
  - the two SDK checks on each shadow method;
  - the `Problems` collection, which groups the SDKs on which each problem was found and prints one message per problem with the SDKs as ranges (`"... for SDKs 16-18/21"`);
  - small element helpers: the binary class name, `@SuppressWarnings` lookup, and `sdkOrNull`.
- **The default Conscrypt mode** (`ConscryptModeConfigurer.defaultValue`). It is OFF on an Apple-silicon Mac and ON everywhere else.
- **The droidsugar fake of `SpannableStringBuilder`.** It is an append-only text buffer that hands back the real builder it stands in for.

Files and modules:

| file | module | contents |
|---|---|---|
| `wrappers.dfy` | `Wrappers` | `Option` |
| `message_queue.dfy` | `MessageQueue` | the queue and clock the looper drives |
| `paused_looper.dfy` | `PausedLooper` | the looper class |
| `sdk_text.dfy` | `SdkText` | decimal text and the SDK range text |
| `problem_reports.dfy` | `ProblemReports` | `Problems` and `recount` |
| `implements_validator.dfy` | `ImplementsValidator` | the SDK checks, the element helpers, the `visitType` decision table |
| `conscrypt_mode_configurer.dfy` | `ConscryptModeConfigurer` | the default Conscrypt mode |
| `fake_spannable_string_builder.dfy` | `FakeSpannable` | the fake builder |

Modelling choices:

- **Threads.** Whether the caller runs on the looper's own thread is a boolean parameter, `onLooperThread`.
- **Clock.** The virtual clock is a `SystemClock` object shared by all loopers.
- **Times are `long`s.** Uptimes, delays and durations have the subset type `Long`, Java's 64-bit range. The sums and differences the looper computes (`now + delay` in `post`, `now + time` in `idleFor`, `next - now` in `runToNextTask` and `runToEndOfTasks`) wrap around as Java's do, through `Wrap`.
- **Message queue.** The queue class itself is not part of this model. It is modelled from how the looper uses it:
  - it keeps `(when, number)` messages ordered by time, then by insertion;
  - it is idle when no message has `when <= now`;
  - `getNextScheduledTaskTime()` is the head's time, or 0 for an empty queue.
- **Idle handlers.** Each idle handler carries the fixed answer its `queueIdle()` gives.
- **Quitting.** `quit()` and `quitSafely()` end in Android's `MessageQueue.quit(safe)`. It throws `IllegalStateException` for a looper built with `quitAllowed` false, which is always so for the main looper. It ignores a second request. Otherwise it drops every queued message, or only those not yet due. After that, `enqueueMessage` refuses new messages, so `post` answers false. The model follows this behaviour of the real queue.
- **Effects as logs.** A dispatched message is appended to the looper's `dispatched` log. A `queueIdle()` call is appended to `idleHandlerCalls`.
- **Problems.** A `TreeSet<Integer>` is a strictly ascending `seq<int>`. The `HashMap` of problems is a `map`. Its iteration order is left open: it is chosen by `EntryOrder`, and `recount`'s result is specified for every order.

## Model

| member | source | states |
|---|---|---|
| MessageQueue.HeadIsEarliest | shadows/framework/src/main/java/org/robolectric/shadows/ShadowPausedLooper.java:245-248 | In an ordered queue the head is due no later than any other message, so the head's time is the next scheduled time. |
| MessageQueue.TailIsLatest | shadows/framework/src/main/java/org/robolectric/shadows/ShadowPausedLooper.java:250-253 | In an ordered queue the last message is due no earlier than any other, so the last scheduled time covers every message. |
| MessageQueue.DueCount | shadows/framework/src/main/java/org/robolectric/shadows/ShadowPausedLooper.java:311-316 | The number of leading due messages is at most the queue length. |
| MessageQueue.DueCountIsDuePrefix | shadows/framework/src/main/java/org/robolectric/shadows/ShadowPausedLooper.java:311-316 | In an ordered queue the messages due at `now` are exactly the first DueCount(q, now), and every later one is not due. |
| MessageQueue.DueCountAfterDrop | shadows/framework/src/main/java/org/robolectric/shadows/ShadowPausedLooper.java:380-387 | Taking c due messages off the front leaves DueCount minus c due messages. |
| MessageQueue.DueCountMonotonic | shadows/framework/src/main/java/org/robolectric/shadows/ShadowPausedLooper.java:99-104 | A later clock never makes fewer leading messages due. |
| MessageQueue.IdleWhenNothingDue | shadows/framework/src/main/java/org/robolectric/shadows/ShadowPausedLooper.java:311-316 | An ordered queue is idle at `now` exactly when none of its leading messages is due. |
| MessageQueue.KeepAlive | shadows/framework/src/main/java/org/robolectric/shadows/ShadowPausedLooper.java:353-358 | The survivors of a run of the idle handlers are exactly those answering true, and there are no more of them than handlers. |
| MessageQueue.KeepAliveAppend | shadows/framework/src/main/java/org/robolectric/shadows/ShadowPausedLooper.java:353-358 | Survivor selection distributes over concatenation, so it can be done handler by handler. |
| MessageQueue.KeepAliveIdempotent | shadows/framework/src/main/java/org/robolectric/shadows/ShadowPausedLooper.java:353-358 | Running the idle handlers a second time removes nothing more. |
| MessageQueue.RemoveFirst | shadows/framework/src/main/java/org/robolectric/shadows/ShadowPausedLooper.java:356 | List.remove removes one element when the handler is present and changes nothing otherwise. |
| MessageQueue.RemoveFirstAt | shadows/framework/src/main/java/org/robolectric/shadows/ShadowPausedLooper.java:356 | Exactly the first occurrence of the handler goes; the handlers before and after it keep their order. |
| MessageQueue.RemoveFirstSkipsPrefix | shadows/framework/src/main/java/org/robolectric/shadows/ShadowPausedLooper.java:356 | Removing a handler that is not in a prefix leaves that prefix untouched. |
| MessageQueue.Insert | shadows/framework/src/main/java/org/robolectric/shadows/ShadowPausedLooper.java:188-191 | Posting adds exactly the new message to the multiset of queued messages. |
| MessageQueue.InsertKeepsOrder | shadows/framework/src/main/java/org/robolectric/shadows/ShadowPausedLooper.java:188-191 | A newly numbered message inserted behind every message not after it keeps the queue ordered. |
| MessageQueue.Wrap | shadows/framework/src/main/java/org/robolectric/shadows/ShadowPausedLooper.java:98 | A `long` sum is exact when it fits, and otherwise is the `long` that equals it modulo 2^64. |
| MessageQueue.WrapUnique | shadows/framework/src/main/java/org/robolectric/shadows/ShadowPausedLooper.java:98 | Exactly one `long` is congruent to a given value modulo 2^64, and Wrap returns it. |
| MessageQueue.WrapDifference | shadows/framework/src/main/java/org/robolectric/shadows/ShadowPausedLooper.java:173-181 | Adding the wrapped difference `b - a` back to `a` gives `b`, so runToNextTask and runToEndOfTasks reach the target time even when the difference overflows. |
| MessageQueue.SystemClock.constructor | shadows/framework/src/main/java/org/robolectric/shadows/ShadowPausedLooper.java:98 | The clock starts at the given uptime. |
| MessageQueue.PausedMessageQueue.constructor | shadows/framework/src/main/java/org/robolectric/shadows/ShadowPausedLooper.java:66-72 | A new queue is empty, ordered and has no idle handlers. |
| MessageQueue.PausedMessageQueue.EnqueueMessage | shadows/framework/src/main/java/org/robolectric/shadows/ShadowPausedLooper.java:188-191 | Queues a message for the given time, numbered with the next sequence number, at its ordered place. The queue stays ordered and the idle handlers are unchanged. |
| MessageQueue.PausedMessageQueue.AddIdleHandler | shadows/framework/src/main/java/org/robolectric/shadows/ShadowPausedLooper.java:351 | Registers a handler at the end of the list the looper snapshots, and leaves the messages alone. |
| MessageQueue.PausedMessageQueue.RemoveIdleHandler | shadows/framework/src/main/java/org/robolectric/shadows/ShadowPausedLooper.java:356 | Removes the first occurrence of the handler and leaves the messages alone. |
| MessageQueue.PausedMessageQueue.IsIdle | shadows/framework/src/main/java/org/robolectric/shadows/ShadowPausedLooper.java:314-315 | Looking at the head answers exactly whether no message is due. |
| MessageQueue.PausedMessageQueue.GetNext | shadows/framework/src/main/java/org/robolectric/shadows/ShadowPausedLooper.java:315 | On a non-idle queue, takes the head, which is due, and leaves the rest in order. |
| MessageQueue.PausedMessageQueue.GetNextIgnoringWhen | shadows/framework/src/main/java/org/robolectric/shadows/ShadowPausedLooper.java:400 | Takes the head whether or not it is due; an empty queue answers null and is unchanged. |
| MessageQueue.PausedMessageQueue.RemoveFrom | shadows/framework/src/main/java/org/robolectric/shadows/ShadowPausedLooper.java:277-291 | The messages from a position on are dropped, as the real queue does when its looper quits; the rest and the idle handlers stay. |
| MessageQueue.PausedMessageQueue.NextScheduledTaskTime | shadows/framework/src/main/java/org/robolectric/shadows/ShadowPausedLooper.java:245-248 | 0 for an empty queue, else the head's time, which no message precedes. |
| MessageQueue.PausedMessageQueue.LastScheduledTaskTime | shadows/framework/src/main/java/org/robolectric/shadows/ShadowPausedLooper.java:250-253 | 0 for an empty queue, else the tail message's time, which is at or after every message's time. |
| PausedLooper.RouteOf | shadows/framework/src/main/java/org/robolectric/shadows/ShadowPausedLooper.java:413-429 | executeOnLooper refuses exactly when called off the looper thread on the main looper. It hands to the executor exactly the unpause issued on the looper thread, and runs everything else at once. |
| PausedLooper.AllDueAtLast | shadows/framework/src/main/java/org/robolectric/shadows/ShadowPausedLooper.java:173-176 | At the last scheduled time every queued message is due. |
| PausedLooper.ProgressDrain | shadows/framework/src/main/java/org/robolectric/shadows/ShadowPausedLooper.java:99-108 | One more idle that drains d messages moves idleFor's progress from c to c + d. |
| PausedLooper.CallsFromSnapshot | shadows/framework/src/main/java/org/robolectric/shadows/ShadowPausedLooper.java:351-358 | Every queueIdle() call during idleFor goes to a handler registered when idleFor began. |
| PausedLooper.HandlerStep | shadows/framework/src/main/java/org/robolectric/shadows/ShadowPausedLooper.java:353-358 | After handler i of the snapshot has run, the live list is the survivors of handlers 0..i followed by the rest. |
| PausedLooper.ShadowPausedLooper.constructor | shadows/framework/src/main/java/org/robolectric/shadows/ShadowPausedLooper.java:65-72 | A new looper keeps its quitAllowed flag, is unpaused, has a HandlerExecutor and an empty queue. |
| PausedLooper.ShadowPausedLooper.PrepareMainLooper | shadows/framework/src/main/java/org/robolectric/shadows/ShadowPausedLooper.java:270-275 | The main looper is paused as soon as it is prepared, and may not quit. |
| PausedLooper.ShadowPausedLooper.Post | shadows/framework/src/main/java/org/robolectric/shadows/ShadowPausedLooper.java:188-191 | Answers true and queues a message for now plus the delay (a negative delay counts as 0), summed as `long`s so that a huge delay wraps into the past. Once the looper has quit it answers false and the queue is unchanged. |
| PausedLooper.ShadowPausedLooper.GetNextExecutableMessage | shadows/framework/src/main/java/org/robolectric/shadows/ShadowPausedLooper.java:311-316 | Answers null exactly when the queue is idle, and then leaves the queue untouched; otherwise takes the due head. |
| PausedLooper.ShadowPausedLooper.TriggerIdleHandlersIfNeeded | shadows/framework/src/main/java/org/robolectric/shadows/ShadowPausedLooper.java:341-358 | The handlers run only when a message was read and the queue is now idle. They run once each in snapshot order, and those answering false are removed. |
| PausedLooper.ShadowPausedLooper.IdlingRun | shadows/framework/src/main/java/org/robolectric/shadows/ShadowPausedLooper.java:375-393 | Dispatches exactly the messages due now, in queue order. What remains is idle, and the handlers ran once if anything was dispatched. |
| PausedLooper.ShadowPausedLooper.RunIdleHandlers | shadows/framework/src/main/java/org/robolectric/shadows/ShadowPausedLooper.java:354-358 | Every handler of the snapshot is called once, in order; afterwards the registered handlers are exactly those that answered true, and the message queue is unchanged. |
| PausedLooper.ShadowPausedLooper.RunIdleHandler | shadows/framework/src/main/java/org/robolectric/shadows/ShadowPausedLooper.java:354-357 | One round of the handler loop: the handler is called, and removed from the queue exactly when its queueIdle() answered false. |
| PausedLooper.ShadowPausedLooper.DispatchNext | shadows/framework/src/main/java/org/robolectric/shadows/ShadowPausedLooper.java:380-387 | One round of the drain loop: null exactly when all due messages are gone; otherwise the next due message is dispatched and the handlers run if it was the last. |
| PausedLooper.ShadowPausedLooper.RunOneRun | shadows/framework/src/main/java/org/robolectric/shadows/ShadowPausedLooper.java:395-410 | An empty queue changes nothing. Otherwise exactly the head is removed, due or not, the clock moves to its time, it is dispatched once, and the handlers run if the queue is now idle. |
| PausedLooper.ShadowPausedLooper.Idle | shadows/framework/src/main/java/org/robolectric/shadows/ShadowPausedLooper.java:91-94 | Refused off-thread on the main looper, with nothing changed. Otherwise every message due now is dispatched in order. |
| PausedLooper.ShadowPausedLooper.IdleFor | shadows/framework/src/main/java/org/robolectric/shadows/ShadowPausedLooper.java:96-109 | The clock ends at start + d, a `long` sum that may wrap to a time before the start, and exactly the messages due by then were dispatched, in order. If refused, the clock stopped at the first scheduled time within reach (or at start + d) and nothing was dispatched. The idle handlers' calls are only bounded: each call went to a handler registered at the start; how many rounds ran is not stated. |
| PausedLooper.ShadowPausedLooper.IdleAtScheduledTime | shadows/framework/src/main/java/org/robolectric/shadows/ShadowPausedLooper.java:100-104 | One loop round moves the clock to a nonzero next time within reach and idles. At least one message is dispatched and no message due after the end. |
| PausedLooper.ShadowPausedLooper.IdleAtEnd | shadows/framework/src/main/java/org/robolectric/shadows/ShadowPausedLooper.java:104-107 | The clock is set to the ending time and one last idle() runs: afterwards exactly the messages due by the end were dispatched, or, if refused, nothing changed but the clock. |
| PausedLooper.ShadowPausedLooper.IdleAccounted | shadows/framework/src/main/java/org/robolectric/shadows/ShadowPausedLooper.java:102 | Each idle() inside idleFor adds the messages due at the current clock to the dispatched prefix. |
| PausedLooper.ShadowPausedLooper.RunToNextTask | shadows/framework/src/main/java/org/robolectric/shadows/ShadowPausedLooper.java:178-181 | Idles up to the head's time, so the head message is the next one dispatched, even when `next - now` overflows a `long`. |
| PausedLooper.ShadowPausedLooper.RunToEndOfTasks | shadows/framework/src/main/java/org/robolectric/shadows/ShadowPausedLooper.java:173-176 | Idles up to the last scheduled time, which dispatches every queued message in order and empties the queue, even when `last - now` overflows a `long`. |
| PausedLooper.ShadowPausedLooper.RunOneTask | shadows/framework/src/main/java/org/robolectric/shadows/ShadowPausedLooper.java:183-186 | Refused off-thread on the main looper, with nothing changed; otherwise as RunOneRunnable. |
| PausedLooper.ShadowPausedLooper.Pause | shadows/framework/src/main/java/org/robolectric/shadows/ShadowPausedLooper.java:128-133 | Does nothing on a paused looper; otherwise installs the PausedLooperExecutor. Either way the looper ends paused. |
| PausedLooper.ShadowPausedLooper.ExecuteUnPause | shadows/framework/src/main/java/org/robolectric/shadows/ShadowPausedLooper.java:411-428 | Off the thread, the main looper refuses the unpause and other loopers run it, which leaves them unpaused with a HandlerExecutor. On the looper thread the command goes to the current executor. A PausedLooperExecutor queues it. A HandlerExecutor posts it to the looper's own queue as a message due now, or throws IllegalState once the looper has quit (478-482). |
| PausedLooper.ShadowPausedLooper.UnPause | shadows/framework/src/main/java/org/robolectric/shadows/ShadowPausedLooper.java:120-126 | Always throws on the main looper, with nothing changed. On another looper it unpauses from another thread. From the looper's own thread it is handed to the current executor, and fails with IllegalState when that executor is a HandlerExecutor of a looper that has quit. |
| PausedLooper.ShadowPausedLooper.SetPaused | shadows/framework/src/main/java/org/robolectric/shadows/ShadowPausedLooper.java:140-148 | Pauses, or unpauses with the outcomes of unPause, and answers true whenever it returns. |
| PausedLooper.ShadowPausedLooper.RequestQuit | shadows/framework/src/main/java/org/robolectric/shadows/ShadowPausedLooper.java:277-291 | A paused looper is unpaused through executeOnLooper first; a refused unpause throws UnsupportedOperation and nothing is quit. On the main looper's own thread the unpause is posted to the main queue, and then quitting throws IllegalState because quitAllowed is false. A second request does nothing. Otherwise quit() drops every message and quitSafely() drops those not yet due, and later posts are refused. |
| PausedLooper.ShadowPausedLooper.IsIdle | shadows/framework/src/main/java/org/robolectric/shadows/ShadowPausedLooper.java:111-118 | On the looper thread or when paused: idle exactly when nothing is due. Otherwise the looper must also be polling. |
| PausedLooper.ShadowPausedLooper.RunPaused | shadows/framework/src/main/java/org/robolectric/shadows/ShadowPausedLooper.java:200-208 | Runs the runnable exactly when paused and on the looper thread, and throws otherwise. |
| PausedLooper.ShadowPausedLooper.PollGuard | shadows/framework/src/main/java/org/robolectric/shadows/ShadowPausedLooper.java:240-243 | poll is allowed only on the main looper from its own thread, and throws IllegalStateException otherwise. |
| PausedLooper.PostOverflowScenario | shadows/framework/src/main/java/org/robolectric/shadows/ShadowPausedLooper.java:188-191 | At uptime 100, a post with delay Long.MAX_VALUE wraps to Long.MIN_VALUE + 99, before the clock, so the message is due at once. |
| PausedLooper.IdleForOverflowScenario | shadows/framework/src/main/java/org/robolectric/shadows/ShadowPausedLooper.java:96-109 | At uptime 100, idleFor(Long.MAX_VALUE) ends at Long.MIN_VALUE + 99: a message posted for +50 does not run, and the clock is left at that past time. |
| PausedLooper.IdleForScenario | shadows/framework/src/main/java/org/robolectric/shadows/ShadowPausedLooper.java:96-109 | Messages at +100 and +50: idling for 75 runs only the second, leaves the clock at 75 and keeps the first. |
| PausedLooper.IdleHandlersScenario | shadows/framework/src/main/java/org/robolectric/shadows/ShadowPausedLooper.java:341-358 | One due message and handlers answering false then true: idling calls both in order and keeps only the second. |
| PausedLooper.QuitScenario | shadows/framework/src/main/java/org/robolectric/shadows/ShadowPausedLooper.java:277-291 | quitSafely() keeps the message due now and drops the later one, and a later post answers false. quit() on the main looper from its own thread throws IllegalState, and leaves one posted unpause message due now in the main queue. |
| SdkText.NatToString | processor/src/main/java/org/robolectric/annotation/processing/validator/ImplementsValidator.java:404 | The decimal text of an SDK is a non-empty string of digits with no leading zero. |
| SdkText.ParseNatToString | processor/src/main/java/org/robolectric/annotation/processing/validator/ImplementsValidator.java:404-419 | The decimal text of an SDK reads back as that SDK. |
| SdkText.IntToStringReadsBack | processor/src/main/java/org/robolectric/annotation/processing/validator/ImplementsValidator.java:404-419 | StringBuilder.append(int): a minus sign exactly for a negative value, then digits with no leading zero that read back as the magnitude. |
| SdkText.Runs | processor/src/main/java/org/robolectric/annotation/processing/validator/ImplementsValidator.java:400-416 | The runs are empty exactly for no SDKs, and each run is non-empty. The last run ends with the last SDK. |
| SdkText.RunsFlatten | processor/src/main/java/org/robolectric/annotation/processing/validator/ImplementsValidator.java:400-416 | The runs, read in order, are the SDKs again. |
| SdkText.RunsConsecutive | processor/src/main/java/org/robolectric/annotation/processing/validator/ImplementsValidator.java:406-412 | Inside a run each SDK is its predecessor plus one. |
| SdkText.RunsGaps | processor/src/main/java/org/robolectric/annotation/processing/validator/ImplementsValidator.java:406-409 | Neighbouring runs are separated by a gap, so runs are maximal. |
| SdkText.OpenTextSingle | processor/src/main/java/org/robolectric/annotation/processing/validator/ImplementsValidator.java:403-404 | The first SDK is printed alone. |
| SdkText.SdkRangesOfPending | processor/src/main/java/org/robolectric/annotation/processing/validator/ImplementsValidator.java:418-420 | The final text is the text so far plus "-lastSdk" exactly when lastSdk is set. |
| SdkText.OpenTextGap | processor/src/main/java/org/robolectric/annotation/processing/validator/ImplementsValidator.java:406-409 | An SDK after a gap appends "-previous/sdk" and clears lastSdk. |
| SdkText.OpenTextExtend | processor/src/main/java/org/robolectric/annotation/processing/validator/ImplementsValidator.java:410-412 | A consecutive SDK appends nothing and becomes lastSdk. |
| SdkText.AppendSdkRanges | processor/src/main/java/org/robolectric/annotation/processing/validator/ImplementsValidator.java:400-420 | The loop with previousSdk and lastSdk prints exactly the run-by-run text SdkRanges. |
| SdkText.SdkRangesSingle | processor/src/main/java/org/robolectric/annotation/processing/validator/ImplementsValidator.java:403-404 | A single SDK prints as just its number. |
| SdkText.RunsOfConsecutive | processor/src/main/java/org/robolectric/annotation/processing/validator/ImplementsValidator.java:410-412 | A consecutive set is a single run. |
| SdkText.SdkRangesConsecutive | processor/src/main/java/org/robolectric/annotation/processing/validator/ImplementsValidator.java:400-420 | A consecutive set of two or more prints as "first-last". |
| SdkText.DecimalExamples | processor/src/main/java/org/robolectric/annotation/processing/validator/ImplementsValidator.java:404 | 16, 17, 18 and 21 print as "16", "17", "18" and "21". |
| SdkText.SdkRangesSingletonBeforeGap | processor/src/main/java/org/robolectric/annotation/processing/validator/ImplementsValidator.java:406-409 | {a, b} with a gap prints as "a-a/b": a singleton run before a gap is printed as a range. |
| SdkText.SdkRangesRunThenGap | processor/src/main/java/org/robolectric/annotation/processing/validator/ImplementsValidator.java:400-420 | {a, a+1, a+2, b} with a gap prints as "a-(a+2)/b". |
| SdkText.SdkRangesExampleRun | processor/src/main/java/org/robolectric/annotation/processing/validator/ImplementsValidator.java:400-420 | {16, 17, 18, 21} prints as "16-18/21". |
| SdkText.SdkRangesExampleSingleton | processor/src/main/java/org/robolectric/annotation/processing/validator/ImplementsValidator.java:406-409 | {16, 18} prints as "16-16/18". |
| ProblemReports.InsertSdk | processor/src/main/java/org/robolectric/annotation/processing/validator/ImplementsValidator.java:383 | TreeSet.add keeps the SDKs ascending and adds exactly the new SDK. |
| ProblemReports.ConsAscending | processor/src/main/java/org/robolectric/annotation/processing/validator/ImplementsValidator.java:383 | An SDK smaller than every SDK of an ascending set can go in front. |
| ProblemReports.InsertSdkPresent | processor/src/main/java/org/robolectric/annotation/processing/validator/ImplementsValidator.java:383 | Adding an SDK already present changes nothing, so no SDK is duplicated. |
| ProblemReports.Aggregate | processor/src/main/java/org/robolectric/annotation/processing/validator/ImplementsValidator.java:378-384 | The map built by a series of add calls holds ascending SDK sets. |
| ProblemReports.AddReportEffect | processor/src/main/java/org/robolectric/annotation/processing/validator/ImplementsValidator.java:378-384 | One add makes the problem a key, adds exactly the new SDK to its ascending set, and leaves every other problem's SDKs unchanged. |
| ProblemReports.AggregateKeys | processor/src/main/java/org/robolectric/annotation/processing/validator/ImplementsValidator.java:378-388 | A problem is a key exactly when it was reported, and the map is empty exactly when nothing was reported. |
| ProblemReports.AggregateSdks | processor/src/main/java/org/robolectric/annotation/processing/validator/ImplementsValidator.java:378-384 | The SDKs held for a problem are exactly those it was reported for. |
| ProblemReports.AggregateSnoc | processor/src/main/java/org/robolectric/annotation/processing/validator/ImplementsValidator.java:378-384 | One more add call adds its report to the aggregate. |
| ProblemReports.RecountTextShape | processor/src/main/java/org/robolectric/annotation/processing/validator/ImplementsValidator.java:395-398 | A message opens with problem + " for ", then "SDK " exactly for a single SDK and "SDKs " otherwise, then the ranges. |
| ProblemReports.Texts | processor/src/main/java/org/robolectric/annotation/processing/validator/ImplementsValidator.java:391-393 | There is one message text per problem of the map. |
| ProblemReports.RecountMessage | processor/src/main/java/org/robolectric/annotation/processing/validator/ImplementsValidator.java:395-420 | The StringBuilder code builds exactly RecountText of the problem and its SDKs. |
| ProblemReports.Problems.constructor | processor/src/main/java/org/robolectric/annotation/processing/validator/ImplementsValidator.java:374-376 | A new Problems has its kind and no problems. |
| ProblemReports.Problems.Add | processor/src/main/java/org/robolectric/annotation/processing/validator/ImplementsValidator.java:378-384 | The map stays the aggregate of every add call so far. |
| ProblemReports.Problems.Any | processor/src/main/java/org/robolectric/annotation/processing/validator/ImplementsValidator.java:386-388 | any() is true exactly when at least one add has happened. |
| ProblemReports.Problems.Recount | processor/src/main/java/org/robolectric/annotation/processing/validator/ImplementsValidator.java:390-424 | One message of this Problems' kind per problem, each with its own text, and nothing else. |
| ProblemReports.RecountAll | processor/src/main/java/org/robolectric/annotation/processing/validator/ImplementsValidator.java:391-423 | The loop over the entries prints every problem's text once, whatever the iteration order. |
| ProblemReports.EntryOrder | processor/src/main/java/org/robolectric/annotation/processing/validator/ImplementsValidator.java:391 | entrySet() hands out each key exactly once. |
| ProblemReports.EntryStep | processor/src/main/java/org/robolectric/annotation/processing/validator/ImplementsValidator.java:391 | Handing out one more key keeps each key listed once, and the rest shrinks. |
| ProblemReports.Messages | processor/src/main/java/org/robolectric/annotation/processing/validator/ImplementsValidator.java:391-423 | The loop prints one message per key visited. |
| ProblemReports.MessagesGrow | processor/src/main/java/org/robolectric/annotation/processing/validator/ImplementsValidator.java:422 | Each iteration appends the message of the current key. |
| ProblemReports.VisitedIsElements | processor/src/main/java/org/robolectric/annotation/processing/validator/ImplementsValidator.java:391 | A key was visited exactly when it occurs in the order. |
| ProblemReports.MessagesAt | processor/src/main/java/org/robolectric/annotation/processing/validator/ImplementsValidator.java:391-423 | The i-th message is the text of the i-th key. |
| ProblemReports.MessagesPrint | processor/src/main/java/org/robolectric/annotation/processing/validator/ImplementsValidator.java:391-423 | Once every key is visited, the messages print all the texts. |
| ImplementsValidator.Failures | processor/src/main/java/org/robolectric/annotation/processing/validator/ImplementsValidator.java:264-269 | The reports are exactly the SDKs whose check found a problem, with that problem. There are none exactly when every check passed. |
| ImplementsValidator.Unimplemented | processor/src/main/java/org/robolectric/annotation/processing/validator/ImplementsValidator.java:297-303 | The reports are exactly the SDKs whose check passed, as "Missing @Implementation on method ...". There are none exactly when every check found a problem. |
| ImplementsValidator.MissingImplementation | processor/src/main/java/org/robolectric/annotation/processing/validator/ImplementsValidator.java:299-300 | The problem text is "Missing @Implementation on method " followed by exactly the method's simple name. |
| ImplementsValidator.MissingImplementationNamesMethod | processor/src/main/java/org/robolectric/annotation/processing/validator/ImplementsValidator.java:299-300 | Two methods get the same problem text exactly when they have the same name, so the text identifies its method. |
| ImplementsValidator.Collect | processor/src/main/java/org/robolectric/annotation/processing/validator/ImplementsValidator.java:262-273 | Adding the reports to a fresh Problems and recounting if any() prints the recount of their aggregate. Nothing is printed exactly when there is nothing to report. |
| ImplementsValidator.VerifySdkMethod | processor/src/main/java/org/robolectric/annotation/processing/validator/ImplementsValidator.java:251-275 | OFF, or a method without @Implementation, prints nothing. Otherwise it prints the grouped failures at WARNING in WARN mode and ERROR in ERROR mode. |
| ImplementsValidator.CheckForMissingImplementationAnnotation | processor/src/main/java/org/robolectric/annotation/processing/validator/ImplementsValidator.java:281-309 | OFF, or a method with @Implementation, prints nothing. Otherwise every SDK whose check passed is reported at the mode's kind. |
| ImplementsValidator.GetClassFQName | processor/src/main/java/org/robolectric/annotation/processing/validator/ImplementsValidator.java:208-220 | The loop builds the outermost qualified name followed by "$Simple" for each class or interface level. |
| ImplementsValidator.IsClassy | processor/src/main/java/org/robolectric/annotation/processing/validator/ImplementsValidator.java:218-220 | Exactly classes and interfaces are classy; packages, enums, annotation types, methods, constructors and other elements are not. |
| ImplementsValidator.ClassFQNameNested | processor/src/main/java/org/robolectric/annotation/processing/validator/ImplementsValidator.java:208-216 | Inner in Outer of package a.b is named "a.b.Outer$Inner". |
| ImplementsValidator.ClassFQNameStopsOutsideClasses | processor/src/main/java/org/robolectric/annotation/processing/validator/ImplementsValidator.java:208-220 | The walk stops at any enclosing element that is not a class or an interface, such as an enum, a method or a constructor: the element there keeps its qualified name. |
| ImplementsValidator.SuppressWarnings | processor/src/main/java/org/robolectric/annotation/processing/validator/ImplementsValidator.java:196-206 | True exactly when the warning name appears in some @SuppressWarnings value list. |
| ImplementsValidator.SdkOrNull | processor/src/main/java/org/robolectric/annotation/processing/validator/ImplementsValidator.java:366-368 | -1 maps to null and every other value to itself. |
| ImplementsValidator.CheckAttributes | processor/src/main/java/org/robolectric/annotation/processing/validator/ImplementsValidator.java:79-137 | The inner-shadow error is raised exactly for a non-static shadow inside a class. A maxSdk that is set and below 10000 means "not in SDK", with no other error. Validation goes on only when maxSdk allows it and exactly one of value and className is given. Neither attribute is an error; both attributes are an error. |
| ConscryptModeConfigurer.ToLower | robolectric/src/main/java/org/robolectric/plugins/ConscryptModeConfigurer.java:30-31 | Lower-casing keeps the length and works character by character. |
| ConscryptModeConfigurer.ContainsAt | robolectric/src/main/java/org/robolectric/plugins/ConscryptModeConfigurer.java:32 | String.contains holds exactly when the part occurs at some index. |
| ConscryptModeConfigurer.DefaultValueOff | robolectric/src/main/java/org/robolectric/plugins/ConscryptModeConfigurer.java:29-36 | OFF exactly when "mac" occurs in the lower-cased os.name and the lower-cased os.arch equals "aarch64"; ON otherwise. |
| ConscryptModeConfigurer.DefaultValueIgnoresCase | robolectric/src/main/java/org/robolectric/plugins/ConscryptModeConfigurer.java:30-31 | Properties equal up to case give the same default. |
| ConscryptModeConfigurer.DefaultValueAppleSilicon | robolectric/src/main/java/org/robolectric/plugins/ConscryptModeConfigurer.java:30-34 | "Mac OS X" on "AARCH64" gives OFF. |
| ConscryptModeConfigurer.DefaultValueWithoutProperties | robolectric/src/main/java/org/robolectric/plugins/ConscryptModeConfigurer.java:30-35 | Missing properties give ON. |
| ConscryptModeConfigurer.DefaultValueArm64 | robolectric/src/main/java/org/robolectric/plugins/ConscryptModeConfigurer.java:32 | The architecture is compared for equality: "arm64" on a Mac gives ON. |
| ConscryptModeConfigurer.DefaultValueLinux | robolectric/src/main/java/org/robolectric/plugins/ConscryptModeConfigurer.java:32-35 | An os.name without "mac" gives ON even on aarch64. |
| FakeSpannable.FakeSpannableStringBuilder.constructor | src/com/xtremelabs/droidsugar/fakes/FakeSpannableStringBuilder.java:13-16 | A new fake holds empty text and keeps the real builder. |
| FakeSpannable.FakeSpannableStringBuilder.ShadowConstructor | src/com/xtremelabs/droidsugar/fakes/FakeSpannableStringBuilder.java:18-20 | The constructor's text is appended, or "null" when the text is null. |
| FakeSpannable.FakeSpannableStringBuilder.AppendChar | src/com/xtremelabs/droidsugar/fakes/FakeSpannableStringBuilder.java:22-25 | Exactly the character is added at the end, length() grows by 1 and the real builder is returned. |
| FakeSpannable.FakeSpannableStringBuilder.Append | src/com/xtremelabs/droidsugar/fakes/FakeSpannableStringBuilder.java:27-30 | The new text is the old text followed by the argument, or by "null" for a null argument (length() then grows by 4). The earlier characters are unchanged, and the real builder is returned. |
| FakeSpannable.FakeSpannableStringBuilder.Length | src/com/xtremelabs/droidsugar/fakes/FakeSpannableStringBuilder.java:32-38 | length() always equals the length of toString(). |
| FakeSpannable.AppendScenario | src/com/xtremelabs/droidsugar/fakes/FakeSpannableStringBuilder.java:13-38 | A fake built over "ab", given 'c', "de" and a null text, reads "abcdenull" with length 9, and every append returns the same real builder. |

## Left out

- **Cross-thread machinery** (`ShadowPausedLooper`). The following are concurrency and are not modelled:
  - `CountDownLatch` and `waitTillComplete`;
  - the blocking take-loop of `PausedLooperExecutor`;
  - `HandlerExecutor` posting and its "handler thread dead" error;
  - `poll`'s wait (only its guard is modelled).

  A command carried to another thread appears as having run when the call returns.
- **Executor hand-over on the looper thread.** An unpause that the looper thread hands to its `PausedLooperExecutor` is recorded in `handedToExecutor` but never run; in the source it runs when the current command ends. An unpause handed to a `HandlerExecutor` is posted to the looper's queue as a message due now. Dispatching that message only logs it. In the source it runs the unpause, so a main looper whose `quit()` was tried from its own thread becomes unpaused at its next `idle()`. `Valid`'s "the main looper is paused" relies on this gap.
- **Clock policy.** `SystemClock.setCurrentTimeMillis` may refuse to move the clock backward. The model assigns the clock, and claims no monotonicity.
- **Handler side effects.** Idle handlers and message targets do no work of their own: a handler's answer is fixed, and a dispatched message is only logged. Messages posted during dispatch, and the Choreographer's frame messages, are not modelled.
- **Queue internals.** The internals of the message queue are not part of this model. This covers front-of-queue posting (`postAtFrontOfQueue`, `when == 0`), `isPolling`, message recycling and `Handler.dispatchMessage`. Posting is modelled by its effect on the queue.
- PausedLooper.ShadowPausedLooper.RequestQuit: the end of the looper thread's `loop()` after a quit is not modelled. Only the recorded request, the dropped messages and the refused posts are modelled. `idle`, `idleFor` and the other controls of a quit looper behave as before; in the source, an off-thread control of a quit, unpaused looper fails because its `HandlerExecutor` can no longer post. On the main looper's own thread the unpause message posted before the `IllegalStateException` is modelled, but running it is not (see the hand-over line above).
- **Unconditional exceptions.** `quitUnchecked`, `hasQuit`, `resetScheduler`, `reset`, `idleConstantly` and `getScheduler` always throw `UnsupportedOperationException`, and have nothing else to state.
- **Trivial looper methods.** `idleIfPaused` is the same as `idle` and `isPaused` reads the field; neither has a member of its own.
- **Static looper registry.** `resetLoopers`, `loopingLoopers` and `getLoopers` use the configuration registry and a weak set.
- **Time units.** `idleFor`'s `TimeUnit` conversion is not modelled: durations are whole milliseconds.
- **Parts of `visitType` that need the compiler's APIs.** These are:
  - `captureJavadoc`;
  - the type-parameter comparison;
  - `addShadowNotInSdk` and shadow picker handling;
  - `validateShadowMethods`' method loop (the `equals`/`hashCode`/`toString` exemption, the `org.robolectric` prefix test, the `@Implementation` check on constructor methods);
  - the lookup of the class named by `className`.

  The results of the last of these, and of the `@SuppressWarnings` lookup, are inputs to `CheckAttributes`. Errors are a datatype rather than message text.
- **SDK store queries.** `SdkStore.sdksMatching` and `Sdk.verifyMethod` are compiler and SDK queries. Their answers are the input sequence of `SdkResult`s.
- **Message output.** The `Messager` and the element a message is attached to are not modelled; a message is its kind and text.
- ProblemReports.Problems.Recount: the order of the messages is the `HashMap`'s iteration order, which the source does not fix. The contract therefore states which messages are printed and not their order.
- ConscryptModeConfigurer.ToLower: lower-cases only the ASCII letters A-Z, where `toLowerCase(Locale.US)` maps all of Unicode. The decision is unaffected, because no non-ASCII character lower-cases to a letter of "mac" or "aarch64".
- **Classes behind `ConscryptModeConfigurer`.** The `SingleValueConfigurer` base class and property-file loading are not part of this model.
- FakeSpannable.FakeSpannableStringBuilder.Length: counts Dafny characters, where Java counts UTF-16 code units. The two agree on text without surrogate pairs.
- **Context classes.** `ShadowViewConfiguration` does floating-point density scaling and constant getters. `ShadowTimeZoneFinder` does resource I/O and reflection. `FakeLayoutParams` only assigns two fields of an Android class that is not part of this model.
