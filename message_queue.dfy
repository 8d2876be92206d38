/**
 * The message queue and the clock that a paused looper drives, as seen
 * through the operations the looper calls on them. The queue keeps its
 * messages ordered by (when, number); a message is due when its `when` is at or
 * before the current uptime.
 */
module MessageQueue {

  import opened Wrappers

  /** The bounds of Java's 64-bit `long`, and the size of its range. */
  const MinLong: int := -0x8000_0000_0000_0000
  const MaxLong: int := 0x7FFF_FFFF_FFFF_FFFF
  const TwoTo64: int := 0x1_0000_0000_0000_0000

  /** A Java `long`: uptimes, delays and durations. */
  type Long = x: int | MinLong <= x <= MaxLong

  /**
   * The result of a `long` addition or subtraction whose exact value is `x`:
   * two's-complement arithmetic keeps x modulo 2^64 inside the range.
   */
  function Wrap(x: int): (r: Long)
    ensures MinLong <= x <= MaxLong ==> r == x
    ensures (x - r) % TwoTo64 == 0
  {
    (x - MinLong) % TwoTo64 + MinLong
  }

  /** Wrap is the only `long` congruent to x modulo 2^64. */
  lemma WrapUnique(x: int, y: Long)
    requires (x - y) % TwoTo64 == 0
    ensures Wrap(x) == y
  {
    var r := Wrap(x);
    var q1, q2 := (x - y) / TwoTo64, (x - r) / TwoTo64;
    assert x - y == TwoTo64 * q1;
    assert x - r == TwoTo64 * q2;
    assert r - y == TwoTo64 * (q1 - q2);
  }

  /** Adding back a wrapped difference gives the original `long`: a + (b - a) == b. */
  lemma WrapDifference(a: Long, b: Long)
    ensures Wrap(a + Wrap(b - a)) == b
  {
    var w := Wrap(b - a);
    var q := (b - a - w) / TwoTo64;
    assert b - a - w == TwoTo64 * q;
    assert (a + w - b) == TwoTo64 * -q;
    assert (a + w - b) % TwoTo64 == 0;
    WrapUnique(a + w, b);
  }

  /** A queued message: its absolute uptime in milliseconds and its insertion number. */
  datatype Message = Message(when: Long, number: nat)

  /** An idle handler; `keep` is the answer its queueIdle() gives. */
  datatype IdleHandler = IdleHandler(id: nat, keep: bool)

  /** The order in which the queue holds its messages. */
  predicate Before(a: Message, b: Message)
  {
    a.when < b.when || (a.when == b.when && a.number < b.number)
  }

  ghost predicate Ordered(q: seq<Message>)
  {
    forall i, j :: 0 <= i < j < |q| ==> Before(q[i], q[j])
  }

  /** No message of `q` is due at `now`. */
  ghost predicate IdleAt(q: seq<Message>, now: int)
  {
    forall i :: 0 <= i < |q| ==> q[i].when > now
  }

  /** The head of an ordered queue is due no later than any other message. */
  lemma HeadIsEarliest(q: seq<Message>)
    requires Ordered(q) && q != []
    ensures forall i :: 0 <= i < |q| ==> q[0].when <= q[i].when
  {
    forall i | 0 < i < |q| ensures q[0].when <= q[i].when {
      assert Before(q[0], q[i]);
    }
  }

  /** The tail of an ordered queue is due no earlier than any other message. */
  lemma TailIsLatest(q: seq<Message>)
    requires Ordered(q) && q != []
    ensures forall i :: 0 <= i < |q| ==> q[i].when <= q[|q| - 1].when
  {
    forall i | 0 <= i < |q| - 1 ensures q[i].when <= q[|q| - 1].when {
      assert Before(q[i], q[|q| - 1]);
    }
  }

  /** The number of leading messages of `q` that are due at `now`. */
  function DueCount(q: seq<Message>, now: int): (n: nat)
    ensures n <= |q|
  {
    if q == [] || q[0].when > now then 0 else 1 + DueCount(q[1..], now)
  }

  /** In an ordered queue the messages due at `now` are exactly the first DueCount(q, now). */
  lemma {:induction false} DueCountIsDuePrefix(q: seq<Message>, now: int)
    requires Ordered(q)
    ensures forall i :: 0 <= i < |q| ==> (i < DueCount(q, now) <==> q[i].when <= now)
  {
    if q != [] && q[0].when <= now {
      assert Ordered(q[1..]) by {
        forall i, j | 0 <= i < j < |q[1..]| ensures Before(q[1..][i], q[1..][j]) {
          assert Before(q[i + 1], q[j + 1]);
        }
      }
      DueCountIsDuePrefix(q[1..], now);
      forall i | 0 < i < |q| ensures (i < DueCount(q, now) <==> q[i].when <= now) {
        assert q[1..][i - 1] == q[i];
      }
    } else if q != [] {
      forall i | 0 < i < |q| ensures q[i].when > now {
        assert Before(q[0], q[i]);
      }
    }
  }

  /** Dropping c of the leading due messages leaves the others due. */
  lemma {:induction false} DueCountAfterDrop(q: seq<Message>, now: int, c: nat)
    requires c <= DueCount(q, now)
    ensures DueCount(q[c..], now) == DueCount(q, now) - c
  {
    if c > 0 {
      DueCountAfterDrop(q[1..], now, c - 1);
      assert q[1..][c - 1..] == q[c..];
    }
  }

  /** A later clock never makes fewer leading messages due. */
  lemma {:induction false} DueCountMonotonic(q: seq<Message>, t: int, u: int)
    requires t <= u
    ensures DueCount(q, t) <= DueCount(q, u)
  {
    if q != [] && q[0].when <= t {
      DueCountMonotonic(q[1..], t, u);
    }
  }

  /** A queue with no leading due message is idle, when it is ordered. */
  lemma IdleWhenNothingDue(q: seq<Message>, now: int)
    requires Ordered(q)
    ensures IdleAt(q, now) <==> DueCount(q, now) == 0
  {
    DueCountIsDuePrefix(q, now);
  }

  /** The handlers of `hs` whose queueIdle() answers true, in their order. */
  function KeepAlive(hs: seq<IdleHandler>): (r: seq<IdleHandler>)
    ensures |r| <= |hs|
    ensures forall h :: h in r <==> h in hs && h.keep
  {
    if hs == [] then []
    else (if hs[0].keep then [hs[0]] else []) + KeepAlive(hs[1..])
  }

  lemma {:induction false} KeepAliveAppend(a: seq<IdleHandler>, b: seq<IdleHandler>)
    ensures KeepAlive(a + b) == KeepAlive(a) + KeepAlive(b)
  {
    if a != [] {
      assert (a + b)[1..] == a[1..] + b;
      KeepAliveAppend(a[1..], b);
    } else {
      assert a + b == b;
    }
  }

  /** Running the idle handlers a second time removes nothing more. */
  lemma {:induction false} KeepAliveIdempotent(hs: seq<IdleHandler>)
    ensures KeepAlive(KeepAlive(hs)) == KeepAlive(hs)
  {
    if hs != [] {
      KeepAliveIdempotent(hs[1..]);
      var head := if hs[0].keep then [hs[0]] else [];
      KeepAliveAppend(head, KeepAlive(hs[1..]));
    }
  }

  /** The position of the first occurrence of `h` in `hs`. */
  function FirstIndex(hs: seq<IdleHandler>, h: IdleHandler): (i: nat)
    requires h in hs
    ensures i < |hs| && hs[i] == h && h !in hs[..i]
  {
    if hs[0] == h then 0 else FirstIndex(hs[1..], h) + 1
  }

  /** `hs` without its first occurrence of `h` (List.remove(Object)). */
  function RemoveFirst(hs: seq<IdleHandler>, h: IdleHandler): (r: seq<IdleHandler>)
    ensures h in hs ==> |r| == |hs| - 1
    ensures h !in hs ==> r == hs
  {
    if hs == [] then []
    else if hs[0] == h then hs[1..]
    else [hs[0]] + RemoveFirst(hs[1..], h)
  }

  /**
   * Exactly the first occurrence of `h` goes; the handlers before and
   * after it keep their order.
   */
  lemma {:induction false} RemoveFirstAt(hs: seq<IdleHandler>, h: IdleHandler)
    requires h in hs
    ensures RemoveFirst(hs, h) == hs[..FirstIndex(hs, h)] + hs[FirstIndex(hs, h) + 1..]
  {
    if hs[0] != h {
      RemoveFirstAt(hs[1..], h);
      var i := FirstIndex(hs[1..], h);
      assert hs[..i + 1] == [hs[0]] + hs[1..][..i];
      assert hs[i + 2..] == hs[1..][i + 1..];
    }
  }

  lemma {:induction false} RemoveFirstSkipsPrefix(a: seq<IdleHandler>, b: seq<IdleHandler>, h: IdleHandler)
    requires h !in a
    ensures RemoveFirst(a + b, h) == a + RemoveFirst(b, h)
  {
    if a != [] {
      assert (a + b)[0] == a[0];
      assert (a + b)[1..] == a[1..] + b;
      RemoveFirstSkipsPrefix(a[1..], b, h);
    } else {
      assert a + b == b;
    }
  }

  /** `q` with `m` inserted behind every message that does not come after it. */
  function Insert(q: seq<Message>, m: Message): (r: seq<Message>)
    ensures |r| == |q| + 1
    ensures multiset(r) == multiset(q) + multiset{m}
  {
    if q == [] || m.when < q[0].when then [m] + q
    else assert q == [q[0]] + q[1..]; [q[0]] + Insert(q[1..], m)
  }

  lemma {:induction false} InsertKeepsOrder(q: seq<Message>, m: Message)
    requires Ordered(q)
    requires forall i :: 0 <= i < |q| ==> q[i].number < m.number
    ensures Ordered(Insert(q, m))
  {
    if q == [] || m.when < q[0].when {
      var r := [m] + q;
      forall i, j | 0 <= i < j < |r| ensures Before(r[i], r[j]) {
        if i > 0 {
          assert Before(q[i - 1], q[j - 1]);
        } else if j > 1 {
          assert Before(q[0], q[j - 1]);
        }
      }
    } else {
      var tail := q[1..];
      assert Ordered(tail) by {
        forall i, j | 0 <= i < j < |tail| ensures Before(tail[i], tail[j]) {
          assert Before(q[i + 1], q[j + 1]);
        }
      }
      InsertKeepsOrder(tail, m);
      var t := Insert(tail, m);
      var r := [q[0]] + t;
      forall k | 0 <= k < |t| ensures Before(q[0], t[k]) {
        assert t[k] in multiset(t);
        assert t[k] in multiset(tail) + multiset{m};
        if t[k] != m {
          assert t[k] in tail;
          var j :| 0 <= j < |tail| && tail[j] == t[k];
          assert Before(q[0], q[j + 1]);
        }
      }
      forall i, j | 0 <= i < j < |r| ensures Before(r[i], r[j]) {
        if i > 0 {
          assert Before(t[i - 1], t[j - 1]);
        } else {
          assert Before(q[0], t[j - 1]);
        }
      }
    }
  }

  /** The process-wide uptime that every looper reads. */
  class SystemClock {
    var uptimeMillis: Long

    constructor (uptimeMillis: Long)
      ensures this.uptimeMillis == uptimeMillis
    {
      this.uptimeMillis := uptimeMillis;
    }
  }

  /** The message queue of one looper, with its idle handlers. */
  class PausedMessageQueue {
    var messages: seq<Message>
    var idleHandlers: seq<IdleHandler>
    var nextSeq: nat

    ghost predicate Valid()
      reads this
    {
      Ordered(messages) && forall i :: 0 <= i < |messages| ==> messages[i].number < nextSeq
    }

    constructor ()
      ensures Valid() && messages == [] && idleHandlers == []
    {
      messages, idleHandlers, nextSeq := [], [], 0;
    }

    /** Queues a message for uptime `when`, behind every message queued for the same time. */
    method EnqueueMessage(when: Long) returns (m: Message)
      requires Valid()
      modifies this
      ensures Valid() && idleHandlers == old(idleHandlers)
      ensures m == Message(when, old(nextSeq)) && m !in old(messages)
      ensures messages == Insert(old(messages), m)
    {
      m := Message(when, nextSeq);
      InsertKeepsOrder(messages, m);
      ghost var before := messages;
      messages := Insert(messages, m);
      nextSeq := nextSeq + 1;
      forall i | 0 <= i < |messages| ensures messages[i].number < nextSeq {
        assert messages[i] in multiset(before) + multiset{m};
        if messages[i] != m {
          assert messages[i] in before;
        }
      }
    }

    /**
     * Drops every message from position k on: all of them for quit(), the
     * ones not yet due for quitSafely().
     */
    method RemoveFrom(k: nat)
      requires Valid() && k <= |messages|
      modifies this
      ensures Valid() && idleHandlers == old(idleHandlers) && nextSeq == old(nextSeq)
      ensures messages == old(messages)[..k]
    {
      messages := messages[..k];
    }

    method AddIdleHandler(h: IdleHandler)
      modifies this
      ensures idleHandlers == old(idleHandlers) + [h]
      ensures messages == old(messages) && nextSeq == old(nextSeq)
    {
      idleHandlers := idleHandlers + [h];
    }

    method RemoveIdleHandler(h: IdleHandler)
      modifies this
      ensures idleHandlers == RemoveFirst(old(idleHandlers), h)
      ensures messages == old(messages) && nextSeq == old(nextSeq)
    {
      idleHandlers := RemoveFirst(idleHandlers, h);
    }

    /** isIdle(): looking at the head is enough to know that nothing is due. */
    function IsIdle(now: int): (r: bool)
      reads this
      requires Valid()
      ensures r <==> IdleAt(messages, now)
    {
      if messages == [] then true
      else HeadIsEarliest(messages); messages[0].when > now
    }

    /** getNext(): takes the head of a queue that has a due message (it blocks otherwise). */
    method GetNext(now: int) returns (m: Message)
      requires Valid() && !IdleAt(messages, now)
      modifies this
      ensures Valid() && idleHandlers == old(idleHandlers)
      ensures m.when <= now
      ensures [m] + messages == old(messages)
    {
      assert messages != [];
      DueCountIsDuePrefix(messages, now);
      m := messages[0];
      messages := messages[1..];
    }

    /** getNextIgnoringWhen(): takes the head whether or not it is due. */
    method GetNextIgnoringWhen() returns (m: Option<Message>)
      requires Valid()
      modifies this
      ensures Valid() && idleHandlers == old(idleHandlers)
      ensures m.None? <==> old(messages) == []
      ensures m.Some? ==> [m.value] + messages == old(messages)
      ensures m.None? ==> messages == old(messages)
    {
      if messages == [] {
        m := None;
      } else {
        m := Some(messages[0]);
        messages := messages[1..];
      }
    }

    /** getNextScheduledTaskTime(): the absolute time of the head, 0 for an empty queue. */
    function NextScheduledTaskTime(): (t: Long)
      reads this
      requires Valid()
      ensures messages == [] ==> t == 0
      ensures messages != [] ==> t == messages[0].when
      ensures forall i :: 0 <= i < |messages| ==> t <= messages[i].when
    {
      if messages == [] then 0
      else HeadIsEarliest(messages); messages[0].when
    }

    /** getLastScheduledTaskTime(): the absolute time of the tail, 0 for an empty queue. */
    function LastScheduledTaskTime(): (t: Long)
      reads this
      requires Valid()
      ensures messages == [] ==> t == 0
      ensures messages != [] ==> t == messages[|messages| - 1].when
      ensures forall i :: 0 <= i < |messages| ==> messages[i].when <= t
    {
      if messages == [] then 0
      else TailIsLatest(messages); messages[|messages| - 1].when
    }
  }
}
