/**
 * The looper of the paused looper mode: a looper whose posted messages run
 * only when test code asks for it (idle, idleFor, runOneTask), driven on a
 * single shared virtual clock. Which thread calls an operation is the
 * parameter `onLooperThread`; the blocking hand-over between threads is not
 * modelled, so a command that another thread hands to the looper thread and
 * waits for appears here as having run when the call returns.
 */
module PausedLooper {

  import opened Wrappers
  import opened MessageQueue

  /** The exceptions the looper's control surface throws. */
  datatype Thrown = UnsupportedOperation | IllegalState

  /** How a public operation ended: normally, or by throwing. */
  datatype Outcome = Completed | Threw(error: Thrown)

  /** The control runnables that executeOnLooper carries to the looper thread. */
  datatype Command = Idling | RunOne | PauseLooper | UnPauseLooper

  /** What executeOnLooper does with a command. */
  datatype Route =
    | RunNow          // run it on the calling thread, or on the looper thread while the caller waits
    | HandToExecutor  // queue it on the looper's executor, behind the command now running
    | Reject          // throw UnsupportedOperationException

  /** The executor that carries commands to the looper thread. */
  datatype LooperExecutor = HandlerExecutor | PausedLooperExecutor

  /** The request delegated to the real Looper's quit() or quitSafely(). */
  datatype QuitRequest = NotQuit | Quit | QuitSafely

  /**
   * The guard of executeOnLooper. On the looper's own thread every command
   * runs at once except the unpause, which goes through the executor; from any
   * other thread the main looper refuses every command.
   */
  function RouteOf(cmd: Command, onLooperThread: bool, isMainLooper: bool): (r: Route)
    ensures r == Reject <==> !onLooperThread && isMainLooper
    ensures r == HandToExecutor <==> onLooperThread && cmd == UnPauseLooper
  {
    if onLooperThread then
      (if cmd == UnPauseLooper then HandToExecutor else RunNow)
    else if isMainLooper then Reject
    else RunNow
  }

  /** Every message of an ordered queue is due at the time of its last message. */
  lemma {:induction false} AllDueAtLast(q: seq<Message>, t: int)
    requires forall i :: 0 <= i < |q| ==> q[i].when <= t
    ensures DueCount(q, t) == |q|
  {
    if q != [] {
      AllDueAtLast(q[1..], t);
    }
  }

  /** Dispatching d more messages after the first c moves both cut points of m0 by d. */
  lemma SliceAdvance(m0: seq<Message>, c: nat, d: nat)
    requires c + d <= |m0|
    ensures m0[c..][d..] == m0[c + d..]
    ensures m0[..c] + m0[c..][..d] == m0[..c + d]
  {
  }

  /**
   * Starting from messages m0, dispatch log d0, idle handlers h0 and
   * handler-call log c0, the state (messages, dispatched, handlers, calls)
   * is the one where the first c messages were dispatched in queue order
   * and nothing else; the idle handlers ran, only from the snapshot h0, if
   * anything was dispatched.
   */
  ghost predicate ProgressOf(messages: seq<Message>, dispatched: seq<Message>, handlers: seq<IdleHandler>,
                             calls: seq<IdleHandler>, m0: seq<Message>, d0: seq<Message>,
                             h0: seq<IdleHandler>, c0: seq<IdleHandler>, c: nat)
  {
    && c <= |m0|
    && messages == m0[c..]
    && dispatched == d0 + m0[..c]
    && handlers == (if c > 0 then KeepAlive(h0) else h0)
    && CallsFrom(c0, calls, h0)
  }

  /** The handler-call log extends c0, and every call since c0 went to a handler of h0. */
  ghost predicate CallsFrom(c0: seq<IdleHandler>, calls: seq<IdleHandler>, h0: seq<IdleHandler>)
  {
    c0 <= calls && forall j :: |c0| <= j < |calls| ==> calls[j] in h0
  }

  /**
   * Draining the first d of the remaining messages, and running the idle
   * handlers once if d > 0, moves the progress from c to c + d.
   */
  lemma {:induction false} ProgressDrain(m0: seq<Message>, d0: seq<Message>, h0: seq<IdleHandler>, c0: seq<IdleHandler>, c: nat,
                                         mB: seq<Message>, dB: seq<Message>, hB: seq<IdleHandler>, cB: seq<IdleHandler>,
                                         mA: seq<Message>, dA: seq<Message>, hA: seq<IdleHandler>, cA: seq<IdleHandler>, d: nat)
    requires ProgressOf(mB, dB, hB, cB, m0, d0, h0, c0, c)
    requires d <= |mB| && mA == mB[d..] && dA == dB + mB[..d]
    requires if d > 0 then hA == KeepAlive(hB) && cA == cB + hB else hA == hB && cA == cB
    ensures ProgressOf(mA, dA, hA, cA, m0, d0, h0, c0, c + d)
  {
    assert mA == m0[c + d..] && dA == d0 + m0[..c + d] by {
      SliceAdvance(m0, c, d);
      assert dA == d0 + (m0[..c] + m0[c..][..d]);
    }
    assert hA == (if c + d > 0 then KeepAlive(h0) else h0) by {
      if d > 0 {
        KeepAliveIdempotent(h0);
      }
    }
    assert CallsFrom(c0, cA, h0) by {
      if d > 0 {
        CallsFromSnapshot(c0, cB, hB, h0);
      }
    }
  }

  /** Calls since c0 that all come from h0 still do after one more run over hb, which is h0 or its survivors. */
  lemma CallsFromSnapshot(c0: seq<IdleHandler>, cB: seq<IdleHandler>, hB: seq<IdleHandler>, h0: seq<IdleHandler>)
    requires CallsFrom(c0, cB, h0)
    requires hB == h0 || hB == KeepAlive(h0)
    ensures CallsFrom(c0, cB + hB, h0)
  {
    var cA := cB + hB;
    forall j | |c0| <= j < |cA|
      ensures cA[j] in h0
    {
      if j >= |cB| {
        assert cA[j] in hB;
      } else {
        assert cA[j] == cB[j];
      }
    }
  }

  /**
   * The live handler list once the first i handlers of the snapshot have
   * run: the survivors among them, followed by the handlers not yet run.
   */
  ghost predicate LiveAfter(handlers: seq<IdleHandler>, i: nat, live: seq<IdleHandler>)
    requires i <= |handlers|
  {
    live == KeepAlive(handlers[..i]) + handlers[i..]
  }

  /**
   * After handler i of the snapshot has run, the live list holds the
   * survivors of the first i + 1 handlers followed by the rest.
   */
  lemma HandlerStep(handlers: seq<IdleHandler>, i: nat)
    requires i < |handlers|
    ensures var live := KeepAlive(handlers[..i]) + handlers[i..];
      (if handlers[i].keep then live else RemoveFirst(live, handlers[i]))
        == KeepAlive(handlers[..i + 1]) + handlers[i + 1..]
  {
    var h, pre, post := handlers[i], handlers[..i], handlers[i + 1..];
    assert handlers[..i + 1] == pre + [h];
    assert handlers[i..] == [h] + post;
    KeepAliveAppend(pre, [h]);
    var kept := KeepAlive(pre);
    if h.keep {
      assert KeepAlive([h]) == [h];
      assert kept + ([h] + post) == (kept + [h]) + post;
    } else {
      assert KeepAlive([h]) == [];
      assert KeepAlive(pre + [h]) == kept;
      RemoveFirstSkipsPrefix(kept, [h] + post, h);
      assert RemoveFirst([h] + post, h) == post;
    }
  }

  class ShadowPausedLooper {
    const isMainLooper: bool
    /** The quitAllowed flag the real Looper was built with; false for the main looper. */
    const quitAllowed: bool
    const queue: PausedMessageQueue
    const clock: SystemClock
    var isPaused: bool
    var looperExecutor: LooperExecutor
    /** Commands handed to the executor from the looper's own thread; they run after the current one. */
    var handedToExecutor: seq<Command>
    /** The messages dispatched to their targets, in dispatch order. */
    var dispatched: seq<Message>
    /** The queueIdle() calls made on idle handlers, in call order. */
    var idleHandlerCalls: seq<IdleHandler>
    var quitRequest: QuitRequest

    ghost predicate Valid()
      reads this, queue
    {
      && queue.Valid()
      && (isMainLooper ==> isPaused && !quitAllowed)
      && (!quitAllowed ==> quitRequest == NotQuit)
      && (!isMainLooper ==> (isPaused <==> looperExecutor == PausedLooperExecutor))
    }

    /** Dispatch and idle-handler state are as they were. */
    twostate predicate Untouched()
      reads this, queue
    {
      && queue.messages == old(queue.messages)
      && queue.idleHandlers == old(queue.idleHandlers)
      && dispatched == old(dispatched)
      && idleHandlerCalls == old(idleHandlerCalls)
    }

    /**
     * The idle handlers ran once from the snapshot taken before, dropping
     * those that answered false, if `ran`; otherwise they are untouched.
     */
    twostate predicate HandlersRanIf(ran: bool)
      reads this, queue
    {
      if ran then
        && queue.idleHandlers == KeepAlive(old(queue.idleHandlers))
        && idleHandlerCalls == old(idleHandlerCalls) + old(queue.idleHandlers)
      else
        && queue.idleHandlers == old(queue.idleHandlers)
        && idleHandlerCalls == old(idleHandlerCalls)
    }

    /** The pause state, both executors' work and the queue are as they were. */
    twostate predicate ControlsUnchanged()
      reads this, queue
    {
      && isPaused == old(isPaused) && looperExecutor == old(looperExecutor)
      && handedToExecutor == old(handedToExecutor)
      && queue.messages == old(queue.messages) && queue.idleHandlers == old(queue.idleHandlers)
    }

    /**
     * An unpause command went to the current executor without running: onto
     * the run queue of a PausedLooperExecutor, or, for a HandlerExecutor, as
     * a message posted to the looper's own queue for now. Nothing else
     * changed.
     */
    twostate predicate UnPauseHandedOver()
      reads this, queue, clock
    {
      && isPaused == old(isPaused) && looperExecutor == old(looperExecutor)
      && queue.idleHandlers == old(queue.idleHandlers)
      && if old(looperExecutor) == PausedLooperExecutor then
           handedToExecutor == old(handedToExecutor) + [UnPauseLooper] && queue.messages == old(queue.messages)
         else
           && handedToExecutor == old(handedToExecutor)
           && queue.messages == Insert(old(queue.messages), Message(clock.uptimeMillis, old(queue.nextSeq)))
    }

    /** Every message due at `now` was dispatched in queue order, and nothing else. */
    twostate predicate Drained(now: int)
      reads this, queue
    {
      var k := DueCount(old(queue.messages), now);
      && queue.messages == old(queue.messages)[k..]
      && dispatched == old(dispatched) + old(queue.messages)[..k]
      && IdleAt(queue.messages, now)
      && HandlersRanIf(k > 0)
    }

    /**
     * Starting from messages m0, dispatch log d0, idle handlers h0 and
     * handler-call log c0, the first c messages were dispatched in queue
     * order and nothing else; the idle handlers ran, only from the snapshot
     * h0, if anything was dispatched.
     */
    ghost predicate Progress(m0: seq<Message>, d0: seq<Message>, h0: seq<IdleHandler>, c0: seq<IdleHandler>, c: nat)
      reads this, queue
    {
      ProgressOf(queue.messages, dispatched, queue.idleHandlers, idleHandlerCalls, m0, d0, h0, c0, c)
    }

    /**
     * The clock stands at `end`, and from the state (m0, d0, h0, c0) exactly
     * the messages due at `end` were dispatched, in queue order.
     */
    ghost predicate AdvancedTo(end: int, m0: seq<Message>, d0: seq<Message>, h0: seq<IdleHandler>, c0: seq<IdleHandler>)
      reads this, queue, clock
    {
      && clock.uptimeMillis == end
      && Progress(m0, d0, h0, c0, DueCount(m0, end))
      && IdleAt(queue.messages, end)
    }

    /** __constructor__(quitAllowed): a looper other than the main one starts unpaused. */
    constructor (clock: SystemClock, quitAllowed: bool)
      ensures Valid() && fresh(queue) && this.clock == clock && this.quitAllowed == quitAllowed
      ensures !isMainLooper && !isPaused && looperExecutor == HandlerExecutor
      ensures queue.messages == [] && queue.idleHandlers == []
      ensures handedToExecutor == [] && dispatched == [] && idleHandlerCalls == [] && quitRequest == NotQuit
    {
      isMainLooper := false;
      this.quitAllowed := quitAllowed;
      queue := new PausedMessageQueue();
      this.clock := clock;
      isPaused := false;
      looperExecutor := HandlerExecutor;
      handedToExecutor, dispatched, idleHandlerCalls := [], [], [];
      quitRequest := NotQuit;
    }

    /** prepareMainLooper: the main looper is paused as soon as it exists. */
    constructor PrepareMainLooper(clock: SystemClock)
      ensures Valid() && fresh(queue) && this.clock == clock
      ensures isMainLooper && !quitAllowed && isPaused && looperExecutor == HandlerExecutor
      ensures queue.messages == [] && queue.idleHandlers == []
      ensures handedToExecutor == [] && dispatched == [] && idleHandlerCalls == [] && quitRequest == NotQuit
    {
      isMainLooper := true;
      quitAllowed := false;
      queue := new PausedMessageQueue();
      this.clock := clock;
      looperExecutor := HandlerExecutor;
      handedToExecutor, dispatched, idleHandlerCalls := [], [], [];
      quitRequest := NotQuit;
      isPaused := true;
    }

    /**
     * post(runnable, delayMillis): queues a message for now + delay (a
     * negative delay counts as 0), summed as `long`s, and answers true; once
     * the looper has quit, the message is refused and the answer is false.
     */
    method Post(delayMillis: Long) returns (posted: bool, m: Option<Message>)
      requires Valid()
      modifies queue
      ensures Valid()
      ensures posted <==> quitRequest == NotQuit
      ensures posted <==> m.Some?
      ensures !posted ==> queue.messages == old(queue.messages)
      ensures posted ==> m.value.when == Wrap(old(clock.uptimeMillis) + (if delayMillis < 0 then 0 else delayMillis))
      ensures posted ==> queue.messages == Insert(old(queue.messages), m.value)
      ensures queue.idleHandlers == old(queue.idleHandlers)
    {
      if quitRequest != NotQuit {
        return false, None;
      }
      var delay := if delayMillis < 0 then 0 else delayMillis;
      var msg := queue.EnqueueMessage(Wrap(clock.uptimeMillis + delay));
      posted, m := true, Some(msg);
    }

    /** getNextExecutableMessage: the head of the queue if it is due, and null without asking the queue otherwise. */
    method GetNextExecutableMessage() returns (msg: Option<Message>)
      requires Valid()
      modifies queue
      ensures Valid() && queue.idleHandlers == old(queue.idleHandlers)
      ensures msg.None? <==> IdleAt(old(queue.messages), clock.uptimeMillis)
      ensures msg.None? ==> queue.messages == old(queue.messages)
      ensures msg.Some? ==> msg.value.when <= clock.uptimeMillis && [msg.value] + queue.messages == old(queue.messages)
    {
      if queue.IsIdle(clock.uptimeMillis) {
        msg := None;
      } else {
        var m := queue.GetNext(clock.uptimeMillis);
        msg := Some(m);
      }
    }

    /**
     * triggerIdleHandlersIfNeeded: when a message was just read and the queue
     * is now idle, runs a snapshot of the idle handlers in order and removes
     * each one that answers false.
     */
    method TriggerIdleHandlersIfNeeded(lastMessageRead: Option<Message>)
      requires Valid()
      modifies this`idleHandlerCalls, queue
      ensures Valid()
      ensures queue.messages == old(queue.messages) && queue.nextSeq == old(queue.nextSeq)
      ensures HandlersRanIf(lastMessageRead.Some? && IdleAt(queue.messages, clock.uptimeMillis))
    {
      if lastMessageRead.None? || !queue.IsIdle(clock.uptimeMillis) {
        return;
      }
      var handlers := queue.idleHandlers;
      RunIdleHandlers(handlers);
    }

    /**
     * The loop over the snapshot `handlers` of the idle handlers: calls each
     * in order and removes from the live list those that answer false.
     */
    method RunIdleHandlers(handlers: seq<IdleHandler>)
      requires queue.idleHandlers == handlers
      modifies this`idleHandlerCalls, queue
      ensures queue.messages == old(queue.messages) && queue.nextSeq == old(queue.nextSeq)
      ensures queue.idleHandlers == KeepAlive(handlers)
      ensures idleHandlerCalls == old(idleHandlerCalls) + handlers
    {
      assert handlers[..0] == [] && handlers[0..] == handlers;
      for i := 0 to |handlers|
        invariant queue.messages == old(queue.messages) && queue.nextSeq == old(queue.nextSeq)
        invariant LiveAfter(handlers, i, queue.idleHandlers)
        invariant idleHandlerCalls == old(idleHandlerCalls) + handlers[..i]
      {
        RunIdleHandler(handlers, i);
      }
      assert handlers[..|handlers|] == handlers && handlers[|handlers|..] == [];
    }

    /**
     * One round of the loop over the snapshot `handlers`: calls handler i
     * and removes it from the live list if it answers false.
     */
    method RunIdleHandler(handlers: seq<IdleHandler>, i: nat)
      requires i < |handlers| && LiveAfter(handlers, i, queue.idleHandlers)
      modifies this`idleHandlerCalls, queue
      ensures queue.messages == old(queue.messages) && queue.nextSeq == old(queue.nextSeq)
      ensures LiveAfter(handlers, i + 1, queue.idleHandlers)
      ensures idleHandlerCalls == old(idleHandlerCalls) + [handlers[i]]
    {
      var h := handlers[i];
      // h.queueIdle()
      idleHandlerCalls := idleHandlerCalls + [h];
      HandlerStep(handlers, i);
      if !h.keep {
        queue.RemoveIdleHandler(h);
      }
    }

    /** IdlingRunnable: dispatches messages until the queue reports idle. */
    method IdlingRun()
      requires Valid()
      modifies this`dispatched, this`idleHandlerCalls, queue
      ensures Valid()
      ensures Drained(clock.uptimeMillis)
    {
      ghost var m0 := queue.messages;
      ghost var now := clock.uptimeMillis;
      ghost var k := DueCount(m0, now);
      ghost var i: nat := 0;
      while true
        invariant Valid()
        invariant i <= k && queue.messages == m0[i..]
        invariant dispatched == old(dispatched) + m0[..i]
        invariant HandlersRanIf(i == k && k > 0)
        decreases |queue.messages|
      {
        var msg := DispatchNext(m0, now, i);
        if msg.None? {
          break;
        }
        assert m0[..i + 1] == m0[..i] + [m0[i]];
        i := i + 1;
      }
    }

    /**
     * One round of IdlingRunnable's loop over the messages m0 due at `now`,
     * of which i are dispatched: reads the next due message, dispatches it
     * and triggers the idle handlers if that left the queue idle.
     */
    method DispatchNext(ghost m0: seq<Message>, ghost now: int, ghost i: nat) returns (msg: Option<Message>)
      requires Valid() && clock.uptimeMillis == now
      requires i <= DueCount(m0, now) && queue.messages == m0[i..]
      modifies this`dispatched, this`idleHandlerCalls, queue
      ensures Valid()
      ensures msg.None? <==> i == DueCount(m0, now)
      ensures msg.None? ==> Untouched() && IdleAt(queue.messages, now)
      ensures msg.Some? ==>
        && queue.messages == m0[i + 1..]
        && dispatched == old(dispatched) + [m0[i]]
        && HandlersRanIf(i + 1 == DueCount(m0, now))
    {
      msg := GetNextExecutableMessage();
      DueCountAfterDrop(m0, now, i);
      if msg.None? {
        IdleWhenNothingDue(m0[i..], now);
        return;
      }
      assert m0[i..][0] == msg.value;
      // msg.getTarget().dispatchMessage(msg)
      dispatched := dispatched + [msg.value];
      assert m0[i..][1..] == m0[i + 1..];
      TriggerIdleHandlersIfNeeded(msg);
      DueCountAfterDrop(m0, now, i + 1);
      IdleWhenNothingDue(m0[i + 1..], now);
    }

    /** RunOneRunnable: runs the head message even if it is not due, moving the clock to its time. */
    method RunOneRun()
      requires Valid()
      modifies this`dispatched, this`idleHandlerCalls, queue, clock
      ensures Valid()
      ensures old(queue.messages) == [] ==> Untouched() && clock.uptimeMillis == old(clock.uptimeMillis)
      ensures old(queue.messages) != [] ==>
        var m := old(queue.messages)[0];
        && clock.uptimeMillis == m.when
        && queue.messages == old(queue.messages)[1..]
        && dispatched == old(dispatched) + [m]
        && HandlersRanIf(IdleAt(queue.messages, m.when))
    {
      var msg := queue.GetNextIgnoringWhen();
      if msg.Some? {
        clock.uptimeMillis := msg.value.when;
        dispatched := dispatched + [msg.value];
        TriggerIdleHandlersIfNeeded(msg);
      }
    }

    /** idle(): drains the messages due now, on the looper thread. */
    method Idle(onLooperThread: bool) returns (o: Outcome)
      requires Valid()
      modifies this`dispatched, this`idleHandlerCalls, queue
      ensures Valid()
      ensures o == Completed <==> RouteOf(Idling, onLooperThread, isMainLooper) != Reject
      ensures o != Completed ==> o == Threw(UnsupportedOperation) && Untouched()
      ensures o == Completed ==> Drained(clock.uptimeMillis)
    {
      if RouteOf(Idling, onLooperThread, isMainLooper) == Reject {
        return Threw(UnsupportedOperation);
      }
      IdlingRun();
      o := Completed;
    }

    /**
     * idleFor(time): moves the clock to each next scheduled time up to
     * now + time (a `long` sum) and idles there, then sets the clock to
     * exactly now + time and idles once more.
     */
    method IdleFor(timeMillis: Long, onLooperThread: bool) returns (o: Outcome)
      requires Valid()
      modifies this`dispatched, this`idleHandlerCalls, queue, clock
      ensures Valid()
      ensures o == Completed <==> RouteOf(Idling, onLooperThread, isMainLooper) != Reject
      ensures o == Completed ==> AdvancedTo(Wrap(old(clock.uptimeMillis) + timeMillis),
          old(queue.messages), old(dispatched), old(queue.idleHandlers), old(idleHandlerCalls))
      ensures o != Completed ==>
        var end := Wrap(old(clock.uptimeMillis) + timeMillis);
        var next := old(queue.NextScheduledTaskTime());
        && o == Threw(UnsupportedOperation) && Untouched()
        && clock.uptimeMillis == (if next != 0 && next <= end then next else end)
    {
      var endingTimeMs := Wrap(clock.uptimeMillis + timeMillis);
      var nextScheduledTimeMs := queue.NextScheduledTaskTime();
      ghost var m0, d0, h0, c0 := queue.messages, dispatched, queue.idleHandlers, idleHandlerCalls;
      ghost var k := DueCount(m0, endingTimeMs);
      ghost var c: nat := 0;
      ghost var rejected := RouteOf(Idling, onLooperThread, isMainLooper) == Reject;
      assert m0[..0] == [] && m0[0..] == m0;
      while nextScheduledTimeMs != 0 && nextScheduledTimeMs <= endingTimeMs
        invariant Valid()
        invariant nextScheduledTimeMs == queue.NextScheduledTaskTime()
        invariant rejected ==> c == 0 && Untouched() && clock.uptimeMillis == old(clock.uptimeMillis)
        invariant c <= k && Progress(m0, d0, h0, c0, c)
        decreases |queue.messages|
      {
        ghost var c';
        o, c', nextScheduledTimeMs := IdleAtScheduledTime(nextScheduledTimeMs, endingTimeMs, onLooperThread, m0, d0, h0, c0, c);
        if o != Completed {
          return;
        }
        c := c';
      }
      o := IdleAtEnd(endingTimeMs, onLooperThread, m0, d0, h0, c0, c);
    }

    /** The end of idleFor: sets the clock to the ending time and idles once more. */
    method IdleAtEnd(end: Long, onLooperThread: bool, ghost m0: seq<Message>, ghost d0: seq<Message>,
                     ghost h0: seq<IdleHandler>, ghost c0: seq<IdleHandler>, ghost c: nat)
      returns (o: Outcome)
      requires Valid() && Progress(m0, d0, h0, c0, c) && c <= DueCount(m0, end)
      modifies this`dispatched, this`idleHandlerCalls, queue, clock
      ensures Valid()
      ensures o == Completed <==> RouteOf(Idling, onLooperThread, isMainLooper) != Reject
      ensures o != Completed ==> o == Threw(UnsupportedOperation) && Untouched() && clock.uptimeMillis == end
      ensures o == Completed ==> AdvancedTo(end, m0, d0, h0, c0)
    {
      clock.uptimeMillis := end;
      ghost var c';
      o, c' := IdleAccounted(onLooperThread, m0, d0, h0, c0, c);
      if o == Completed {
        DueCountAfterDrop(m0, end, c);
      }
    }

    /**
     * One round of idleFor's loop: moves the clock to the next scheduled
     * time, idles there and reads the next scheduled time again.
     */
    method IdleAtScheduledTime(next: Long, end: Long, onLooperThread: bool, ghost m0: seq<Message>, ghost d0: seq<Message>,
                               ghost h0: seq<IdleHandler>, ghost c0: seq<IdleHandler>, ghost c: nat)
      returns (o: Outcome, ghost c': nat, next': Long)
      requires Valid() && Progress(m0, d0, h0, c0, c) && c <= DueCount(m0, end)
      requires next == queue.NextScheduledTaskTime() && next != 0 && next <= end
      modifies this`dispatched, this`idleHandlerCalls, queue, clock
      ensures Valid()
      ensures o == Completed <==> RouteOf(Idling, onLooperThread, isMainLooper) != Reject
      ensures o != Completed ==> o == Threw(UnsupportedOperation) && Untouched() && clock.uptimeMillis == next
      ensures o == Completed ==>
        && c < c' <= DueCount(m0, end)
        && Progress(m0, d0, h0, c0, c')
        && next' == queue.NextScheduledTaskTime()
    {
      clock.uptimeMillis := next;
      o, c' := IdleAccounted(onLooperThread, m0, d0, h0, c0, c);
      next' := 0;
      if o == Completed {
        DueCountMonotonic(m0[c..], next, end);
        DueCountAfterDrop(m0, end, c);
        next' := queue.NextScheduledTaskTime();
      }
    }

    /** idle(), followed by the bookkeeping that lets idleFor sum up its successive calls. */
    method IdleAccounted(onLooperThread: bool, ghost m0: seq<Message>, ghost d0: seq<Message>,
                         ghost h0: seq<IdleHandler>, ghost c0: seq<IdleHandler>, ghost c: nat)
      returns (o: Outcome, ghost c': nat)
      requires Valid() && Progress(m0, d0, h0, c0, c)
      modifies this`dispatched, this`idleHandlerCalls, queue
      ensures Valid()
      ensures o == Completed <==> RouteOf(Idling, onLooperThread, isMainLooper) != Reject
      ensures o != Completed ==> o == Threw(UnsupportedOperation) && Untouched()
      ensures o == Completed ==>
        && c' == c + DueCount(m0[c..], clock.uptimeMillis)
        && Progress(m0, d0, h0, c0, c')
        && IdleAt(queue.messages, clock.uptimeMillis)
    {
      ghost var mB, dB, hB, cB := queue.messages, dispatched, queue.idleHandlers, idleHandlerCalls;
      o := Idle(onLooperThread);
      c' := c;
      if o == Completed {
        ghost var d := DueCount(mB, clock.uptimeMillis);
        c' := c + d;
        ghost var mA, dA, hA, cA := queue.messages, dispatched, queue.idleHandlers, idleHandlerCalls;
        assert mB == m0[c..];
        assert mA == mB[d..] && dA == dB + mB[..d];
        assert if d > 0 then hA == KeepAlive(hB) && cA == cB + hB else hA == hB && cA == cB;
        ProgressDrain(m0, d0, h0, c0, c, mB, dB, hB, cB, mA, dA, hA, cA, d);
      }
    }

    /** runToNextTask(): idles for the time until the head message is due. */
    method RunToNextTask(onLooperThread: bool) returns (o: Outcome)
      requires Valid()
      modifies this`dispatched, this`idleHandlerCalls, queue, clock
      ensures Valid()
      ensures o == Completed <==> RouteOf(Idling, onLooperThread, isMainLooper) != Reject
      ensures o == Completed ==> AdvancedTo(old(queue.NextScheduledTaskTime()),
          old(queue.messages), old(dispatched), old(queue.idleHandlers), old(idleHandlerCalls))
      ensures o == Completed && old(queue.messages) != [] ==> dispatched[|old(dispatched)|] == old(queue.messages)[0]
      ensures o != Completed ==> o == Threw(UnsupportedOperation) && Untouched()
    {
      var next := queue.NextScheduledTaskTime();
      var d := Wrap(next - clock.uptimeMillis);
      WrapDifference(clock.uptimeMillis, next);
      assert Wrap(clock.uptimeMillis + d) == next;
      o := IdleFor(d, onLooperThread);
    }

    /** runToEndOfTasks(): idles for the time until the last message is due, which empties the queue. */
    method RunToEndOfTasks(onLooperThread: bool) returns (o: Outcome)
      requires Valid()
      modifies this`dispatched, this`idleHandlerCalls, queue, clock
      ensures Valid()
      ensures o == Completed <==> RouteOf(Idling, onLooperThread, isMainLooper) != Reject
      ensures o == Completed ==> AdvancedTo(old(queue.LastScheduledTaskTime()),
          old(queue.messages), old(dispatched), old(queue.idleHandlers), old(idleHandlerCalls))
      ensures o == Completed ==> queue.messages == [] && dispatched == old(dispatched) + old(queue.messages)
      ensures o != Completed ==> o == Threw(UnsupportedOperation) && Untouched()
    {
      ghost var m0 := queue.messages;
      var last := queue.LastScheduledTaskTime();
      AllDueAtLast(m0, last);
      var d := Wrap(last - clock.uptimeMillis);
      WrapDifference(clock.uptimeMillis, last);
      assert Wrap(clock.uptimeMillis + d) == last;
      o := IdleFor(d, onLooperThread);
      if o == Completed {
        assert m0[..|m0|] == m0;
      }
    }

    /** runOneTask(): runs the head message, due or not, on the looper thread. */
    method RunOneTask(onLooperThread: bool) returns (o: Outcome)
      requires Valid()
      modifies this`dispatched, this`idleHandlerCalls, queue, clock
      ensures Valid()
      ensures o == Completed <==> RouteOf(RunOne, onLooperThread, isMainLooper) != Reject
      ensures o != Completed || old(queue.messages) == [] ==> Untouched() && clock.uptimeMillis == old(clock.uptimeMillis)
      ensures o != Completed ==> o == Threw(UnsupportedOperation)
      ensures o == Completed && old(queue.messages) != [] ==>
        var m := old(queue.messages)[0];
        && clock.uptimeMillis == m.when
        && queue.messages == old(queue.messages)[1..]
        && dispatched == old(dispatched) + [m]
        && HandlersRanIf(IdleAt(queue.messages, m.when))
    {
      if RouteOf(RunOne, onLooperThread, isMainLooper) == Reject {
        return Threw(UnsupportedOperation);
      }
      RunOneRun();
      o := Completed;
    }

    /**
     * pause(): does nothing on a paused looper; otherwise runs the
     * PausedLooperExecutor, which becomes the looper's executor. The main
     * looper is always paused, so executeOnLooper never refuses this command.
     */
    method Pause(onLooperThread: bool)
      requires Valid()
      modifies this`isPaused, this`looperExecutor
      ensures Valid() && isPaused
      ensures old(isPaused) ==> looperExecutor == old(looperExecutor)
      ensures !old(isPaused) ==> looperExecutor == PausedLooperExecutor
    {
      if !isPaused {
        assert RouteOf(PauseLooper, onLooperThread, isMainLooper) == RunNow;
        // PausedLooperExecutor.run()
        looperExecutor := PausedLooperExecutor;
        isPaused := true;
      }
    }

    /**
     * executeOnLooper(new UnPauseRunnable()). On the looper thread the
     * command goes to the current executor; a HandlerExecutor posts it, and
     * throws IllegalStateException when the post fails because the looper
     * has quit.
     */
    method ExecuteUnPause(onLooperThread: bool) returns (o: Outcome)
      requires Valid()
      modifies this`isPaused, this`looperExecutor, this`handedToExecutor, queue
      ensures Valid()
      ensures var r := RouteOf(UnPauseLooper, onLooperThread, isMainLooper);
        var postFails := r == HandToExecutor && old(looperExecutor) == HandlerExecutor && quitRequest != NotQuit;
        && (o == Completed <==> r != Reject && !postFails)
        && (r == Reject ==> o == Threw(UnsupportedOperation))
        && (postFails ==> o == Threw(IllegalState))
        && (o != Completed ==> ControlsUnchanged())
        && (o == Completed && r == HandToExecutor ==> UnPauseHandedOver())
        && (r == RunNow ==>
              && !isPaused && looperExecutor == HandlerExecutor && handedToExecutor == old(handedToExecutor)
              && queue.messages == old(queue.messages) && queue.idleHandlers == old(queue.idleHandlers))
    {
      var route := RouteOf(UnPauseLooper, onLooperThread, isMainLooper);
      if route == Reject {
        return Threw(UnsupportedOperation);
      } else if route == HandToExecutor {
        if looperExecutor == PausedLooperExecutor {
          handedToExecutor := handedToExecutor + [UnPauseLooper];
        } else {
          // HandlerExecutor.execute: handler.post(runnable)
          if quitRequest != NotQuit {
            return Threw(IllegalState);
          }
          var m := queue.EnqueueMessage(clock.uptimeMillis);
        }
      } else {
        // UnPauseRunnable.run()
        looperExecutor := HandlerExecutor;
        isPaused := false;
      }
      o := Completed;
    }

    /**
     * unPause(): always refused on the main looper; on another looper the
     * unpause runs at once from another thread, and is handed to the executor
     * from the looper's own thread.
     */
    method UnPause(onLooperThread: bool) returns (o: Outcome)
      requires Valid()
      modifies this`isPaused, this`looperExecutor, this`handedToExecutor, queue
      ensures Valid()
      ensures isMainLooper ==> o == Threw(UnsupportedOperation) && ControlsUnchanged()
      ensures !isMainLooper && !onLooperThread ==>
        && o == Completed && !isPaused && looperExecutor == HandlerExecutor
        && handedToExecutor == old(handedToExecutor) && queue.messages == old(queue.messages)
      ensures !isMainLooper && onLooperThread ==>
        && (o == Completed <==> old(looperExecutor) == PausedLooperExecutor || quitRequest == NotQuit)
        && (o == Completed ==> UnPauseHandedOver())
        && (o != Completed ==> o == Threw(IllegalState) && ControlsUnchanged())
    {
      if isMainLooper {
        return Threw(UnsupportedOperation);
      }
      o := ExecuteUnPause(onLooperThread);
    }

    /** setPaused(shouldPause): pause() or unPause(), answering true whenever it returns. */
    method SetPaused(shouldPause: bool, onLooperThread: bool) returns (o: Outcome, result: bool)
      requires Valid()
      modifies this`isPaused, this`looperExecutor, this`handedToExecutor, queue
      ensures Valid()
      ensures o == Completed ==> result
      ensures shouldPause ==>
        o == Completed && isPaused && handedToExecutor == old(handedToExecutor) && queue.messages == old(queue.messages)
      ensures !shouldPause ==> (o == Completed <==>
        !isMainLooper && (!onLooperThread || old(looperExecutor) == PausedLooperExecutor || quitRequest == NotQuit))
      ensures !shouldPause && !isMainLooper && !onLooperThread ==> !isPaused
      ensures !shouldPause && o == Completed && onLooperThread ==> UnPauseHandedOver()
    {
      if shouldPause {
        Pause(onLooperThread);
        o := Completed;
      } else {
        o := UnPause(onLooperThread);
      }
      result := true;
    }

    /**
     * quit() and quitSafely(): a paused looper is first unpaused through
     * executeOnLooper, then the request goes to the real looper; when that
     * unpause is refused nothing is quit. The real looper refuses to quit
     * when it was built with quitAllowed false, ignores a second request,
     * and otherwise drops every queued message (quit) or the ones not yet
     * due (quitSafely).
     */
    method RequestQuit(request: QuitRequest, onLooperThread: bool) returns (o: Outcome)
      requires Valid() && request != NotQuit
      modifies this`isPaused, this`looperExecutor, this`handedToExecutor, this`quitRequest, queue
      ensures Valid()
      ensures queue.idleHandlers == old(queue.idleHandlers)
      ensures var unpaused := !old(isPaused) || RouteOf(UnPauseLooper, onLooperThread, isMainLooper) != Reject;
        && (o == Completed <==> unpaused && quitAllowed)
        && (!unpaused ==> o == Threw(UnsupportedOperation))
        && (unpaused && !quitAllowed ==> o == Threw(IllegalState))
      ensures isMainLooper ==> quitRequest == old(quitRequest)
      ensures isMainLooper && onLooperThread ==> UnPauseHandedOver()
      ensures isMainLooper && !onLooperThread ==> ControlsUnchanged()
      ensures !isMainLooper && (o != Completed || old(quitRequest) != NotQuit) ==>
        quitRequest == old(quitRequest) && queue.messages == old(queue.messages)
      ensures !isMainLooper && o == Completed && old(quitRequest) == NotQuit ==>
        && quitRequest == request
        && queue.messages == old(queue.messages)[..if request == Quit then 0 else DueCount(old(queue.messages), clock.uptimeMillis)]
      ensures o == Threw(UnsupportedOperation) ==>
        isPaused == old(isPaused) && handedToExecutor == old(handedToExecutor)
      ensures !old(isPaused) ==>
        isPaused == old(isPaused) && looperExecutor == old(looperExecutor) && handedToExecutor == old(handedToExecutor)
      ensures old(isPaused) && RouteOf(UnPauseLooper, onLooperThread, isMainLooper) == RunNow ==> !isPaused
      ensures old(isPaused) && onLooperThread && !isMainLooper ==> handedToExecutor == old(handedToExecutor) + [UnPauseLooper]
    {
      if isPaused {
        o := ExecuteUnPause(onLooperThread);
        if o != Completed {
          return;
        }
      }
      // Looper.quit() and quitSafely() hand the request to MessageQueue.quit(safe)
      if !quitAllowed {
        return Threw(IllegalState);
      }
      o := Completed;
      if quitRequest != NotQuit {
        return;
      }
      quitRequest := request;
      if request == Quit {
        queue.RemoveFrom(0);
      } else {
        queue.RemoveFrom(DueCount(queue.messages, clock.uptimeMillis));
      }
    }

    /**
     * isIdle(): from the looper thread, or on a paused looper, the queue has
     * nothing due; from another thread the looper must also be polling.
     */
    function IsIdle(onLooperThread: bool, polling: bool): (r: bool)
      reads this, queue, clock
      requires Valid()
      ensures r ==> IdleAt(queue.messages, clock.uptimeMillis)
      ensures onLooperThread || isPaused ==> (r <==> IdleAt(queue.messages, clock.uptimeMillis))
      ensures !onLooperThread && !isPaused ==> (r <==> IdleAt(queue.messages, clock.uptimeMillis) && polling)
    {
      if onLooperThread || isPaused then queue.IsIdle(clock.uptimeMillis)
      else queue.IsIdle(clock.uptimeMillis) && polling
    }

    /** runPaused(runnable): runs it only on a paused looper's own thread. */
    function RunPaused(onLooperThread: bool): (o: Outcome)
      reads this
      ensures o == Completed <==> isPaused && onLooperThread
      ensures o != Completed ==> o == Threw(UnsupportedOperation)
    {
      if isPaused && onLooperThread then Completed else Threw(UnsupportedOperation)
    }

    /** The guard of poll(timeout): only the main looper, from the main thread. */
    function PollGuard(onLooperThread: bool): (o: Outcome)
      reads this
      ensures o == Completed <==> isMainLooper && onLooperThread
      ensures o != Completed ==> o == Threw(IllegalState)
    {
      if isMainLooper && onLooperThread then Completed else Threw(IllegalState)
    }
  }

  /**
   * A message posted for 100 ms and one posted for 50 ms; idling for 75 ms runs
   * only the second and leaves the clock at 75 with the first still queued.
   */
  method IdleForScenario() returns (ran: seq<Message>, now: int, pending: seq<Message>)
    ensures |ran| == 1 && ran[0].when == 50
    ensures now == 75
    ensures |pending| == 1 && pending[0].when == 100
  {
    var clock := new SystemClock(0);
    var looper := new ShadowPausedLooper(clock, true);
    var postedA, ma := looper.Post(100);
    var postedB, mb := looper.Post(50);
    var a, b := ma.value, mb.value;
    assert looper.queue.messages == [b, a];
    assert looper.Valid() && looper.dispatched == [] && clock.uptimeMillis == 0;
    var o := looper.IdleFor(75, true);
    assert DueCount([b, a], 75) == 1;
    assert [b, a][..1] == [b] && [b, a][1..] == [a];
    ran, now, pending := looper.dispatched, clock.uptimeMillis, looper.queue.messages;
  }

  /**
   * `long` wrap-around in post: at uptime 100, post(r, Long.MAX_VALUE) lands
   * at Long.MIN_VALUE + 99, before the clock, so the queue is not idle.
   */
  method PostOverflowScenario() returns (when: int, idle: bool)
    ensures when == MinLong + 99 && when < 100
    ensures !idle
  {
    var clock := new SystemClock(100);
    var looper := new ShadowPausedLooper(clock, true);
    WrapUnique(100 + MaxLong, MinLong + 99);
    var posted, m := looper.Post(MaxLong);
    assert looper.queue.messages == [m.value];
    when := m.value.when;
    idle := looper.queue.IsIdle(clock.uptimeMillis);
  }

  /**
   * `long` wrap-around in idleFor: at uptime 100, idleFor(Long.MAX_VALUE)
   * ends at Long.MIN_VALUE + 99, so a message posted for +50 does not run
   * and the clock is left at that past time.
   */
  method IdleForOverflowScenario() returns (ran: seq<Message>, now: int, pending: seq<Message>)
    ensures ran == []
    ensures now == MinLong + 99
    ensures |pending| == 1 && pending[0].when == 150
  {
    var clock := new SystemClock(100);
    var looper := new ShadowPausedLooper(clock, true);
    var posted, m := looper.Post(50);
    var a := m.value;
    assert looper.queue.messages == [a] && a.when == 150;
    assert looper.Valid() && looper.dispatched == [] && clock.uptimeMillis == 100;
    WrapUnique(100 + MaxLong, MinLong + 99);
    var o := looper.IdleFor(MaxLong, true);
    assert DueCount([a], MinLong + 99) == 0;
    ran, now, pending := looper.dispatched, clock.uptimeMillis, looper.queue.messages;
  }

  /**
   * One message due now and two idle handlers, the first answering false:
   * idling dispatches the message, calls both handlers in order and keeps
   * only the second.
   */
  method IdleHandlersScenario() returns (calls: seq<IdleHandler>, left: seq<IdleHandler>, ran: nat)
    ensures calls == [IdleHandler(1, false), IdleHandler(2, true)]
    ensures left == [IdleHandler(2, true)]
    ensures ran == 1
  {
    var clock := new SystemClock(10);
    var looper := new ShadowPausedLooper(clock, true);
    var posted, pm := looper.Post(0);
    var m := pm.value;
    var h1, h2 := IdleHandler(1, false), IdleHandler(2, true);
    looper.queue.AddIdleHandler(h1);
    looper.queue.AddIdleHandler(h2);
    assert looper.queue.messages == [m] && looper.queue.idleHandlers == [h1, h2];
    assert looper.Valid() && looper.clock.uptimeMillis == 10;
    var o := looper.Idle(true);
    assert DueCount([m], 10) == 1;
    assert looper.dispatched == [m] && looper.idleHandlerCalls == [h1, h2];
    assert KeepAlive([h1, h2]) == [h2] by {
      assert [h1, h2][1..] == [h2];
    }
    calls, left, ran := looper.idleHandlerCalls, looper.queue.idleHandlers, |looper.dispatched|;
  }

  /**
   * quitSafely() on a looper holding a message due now and one due later
   * keeps only the first, and a later post is refused. The main looper
   * refuses to quit, but only after its unpause was posted to its queue.
   */
  method QuitScenario() returns (kept: seq<Message>, postedAfter: bool, mainQuit: Outcome, mainQueue: seq<Message>)
    ensures |kept| == 1 && kept[0].when == 0
    ensures !postedAfter
    ensures mainQuit == Threw(IllegalState)
    ensures |mainQueue| == 1 && mainQueue[0].when == 0
  {
    var clock := new SystemClock(0);
    var looper := new ShadowPausedLooper(clock, true);
    var posted0, m0 := looper.Post(0);
    var posted1, m1 := looper.Post(100);
    assert looper.queue.messages == [m0.value, m1.value];
    assert DueCount([m0.value, m1.value], 0) == 1;
    var o := looper.RequestQuit(QuitSafely, true);
    assert [m0.value, m1.value][..1] == [m0.value];
    var m2;
    postedAfter, m2 := looper.Post(0);
    kept := looper.queue.messages;
    var main := new ShadowPausedLooper.PrepareMainLooper(clock);
    mainQuit := main.RequestQuit(Quit, true);
    mainQueue := main.queue.messages;
  }
}
