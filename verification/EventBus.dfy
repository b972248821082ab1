/**
 The two-tier event bus. Every subscriber has an unbounded queue for critical events and a bounded one
 for the rest; a full standard queue loses its oldest events and gains a notice that says so.
 */
module EventBus {
  import opened Common

  /** A published event, or an overflow notice; `serial` stands for the identity of the notice object. */
  datatype Event = Plain(id: nat, critical: bool) | Overflow(serial: nat, cause: nat)

  predicate IsCritical(e: Event) { e.Plain? && e.critical }

  /** What callers can publish. */
  type PlainEvent = e: Event | e.Plain? witness Plain(0, false)

  /** One subscriber: its queues, how many notices it was sent, and what left the queues. */
  datatype Sub = Sub(
    critical: seq<Event>,
    standard: seq<Event>,
    notices: nat,
    delivered: seq<Event>,
    dropped: seq<Event>
  )

  const EMPTY := Sub([], [], 0, [], [])

  datatype Op = Publish(event: PlainEvent) | Drain

  // -------------------------------------------------------------- transitions

  /** A queue with a maximal size of zero or less is unbounded. */
  predicate Full(maxsize: int, queue: seq<Event>) {
    0 < maxsize <= |queue|
  }

  function Enqueued(maxsize: int, s: Sub, e: PlainEvent): Sub {
    if e.critical then s.(critical := s.critical + [e])
    else if !Full(maxsize, s.standard) then s.(standard := s.standard + [e])
    else
      var notice := Overflow(s.notices, e.id);
      var room := s.standard[1..] + [e];
      if !Full(maxsize, room)
      then s.(standard := room + [notice], notices := s.notices + 1, dropped := s.dropped + [s.standard[0]])
      else s.(standard := room[1..] + [notice], notices := s.notices + 1,
              dropped := s.dropped + [s.standard[0], room[0]])
  }

  /** The next event of the iterator: critical first; a standard event pulled along goes to the back. */
  function Drained(s: Sub): Sub {
    if s.critical != [] then
      s.(critical := s.critical[1..],
         standard := if s.standard == [] then [] else s.standard[1..] + [s.standard[0]],
         delivered := s.delivered + [s.critical[0]])
    else if s.standard != [] then
      s.(standard := s.standard[1..], delivered := s.delivered + [s.standard[0]])
    else s
  }

  function Apply(maxsize: int, s: Sub, op: Op): Sub {
    match op
    case Publish(e) => Enqueued(maxsize, s, e)
    case Drain => Drained(s)
  }

  function Replay(maxsize: int, ops: seq<Op>): Sub {
    if ops == [] then EMPTY
    else Apply(maxsize, Replay(maxsize, ops[..|ops| - 1]), ops[|ops| - 1])
  }

  /** The events published in a history, in order. */
  function Published(ops: seq<Op>): seq<Event> {
    if ops == [] then []
    else
      var op := ops[|ops| - 1];
      Published(ops[..|ops| - 1]) + if op.Publish? then [op.event] else []
  }

  function Criticals(es: seq<Event>): seq<Event> {
    if es == [] then []
    else Criticals(es[..|es| - 1]) + if IsCritical(es[|es| - 1]) then [es[|es| - 1]] else []
  }

  function Standards(es: seq<Event>): seq<Event> {
    if es == [] then []
    else Standards(es[..|es| - 1]) + if !IsCritical(es[|es| - 1]) then [es[|es| - 1]] else []
  }

  /** All notices created so far, as a multiset of events that were never published. */
  function Notices(maxsize: int, ops: seq<Op>): multiset<Event> {
    if ops == [] then multiset{}
    else
      var before, op := ops[..|ops| - 1], ops[|ops| - 1];
      Notices(maxsize, before)
      + if op.Publish? then NewNotice(maxsize, Replay(maxsize, before), op.event) else multiset{}
  }

  // ------------------------------------------------------------------- lemmas

  lemma AppendOne(es: seq<Event>, e: Event)
    ensures Criticals(es + [e]) == Criticals(es) + if IsCritical(e) then [e] else []
    ensures Standards(es + [e]) == Standards(es) + if !IsCritical(e) then [e] else []
  {
    assert (es + [e])[..|es + [e]| - 1] == es;
  }

  ghost predicate Sorted(s: Sub) {
    && (forall i :: 0 <= i < |s.critical| ==> IsCritical(s.critical[i]))
    && (forall i :: 0 <= i < |s.standard| ==> !IsCritical(s.standard[i]))
  }

  lemma {:induction false} QueuesAreSorted(maxsize: int, ops: seq<Op>)
    ensures Sorted(Replay(maxsize, ops))
  {
    if ops != [] {
      QueuesAreSorted(maxsize, ops[..|ops| - 1]);
    }
  }

  /** A bounded standard queue never exceeds its bound. */
  lemma {:induction false} QueueIsBounded(maxsize: int, ops: seq<Op>)
    requires maxsize > 0
    ensures |Replay(maxsize, ops).standard| <= maxsize
  {
    if ops != [] {
      QueueIsBounded(maxsize, ops[..|ops| - 1]);
    }
  }

  /**
   Critical events are never lost and never overtake each other: those delivered, followed by those
   queued, are those published, in order, whatever the standard queue does.
   */
  lemma {:induction false} CriticalsInOrder(maxsize: int, ops: seq<Op>)
    ensures Criticals(Replay(maxsize, ops).delivered) + Replay(maxsize, ops).critical == Criticals(Published(ops))
  {
    if ops != [] {
      var before, op := ops[..|ops| - 1], ops[|ops| - 1];
      var s := Replay(maxsize, before);
      CriticalsInOrder(maxsize, before);
      QueuesAreSorted(maxsize, before);
      if op.Publish? {
        AppendOne(Published(before), op.event);
        EnqueueKeepsCriticals(maxsize, s, op.event);
      } else {
        assert Published(ops) == Published(before);
        DrainKeepsCriticals(s);
      }
    }
  }

  lemma EnqueueKeepsCriticals(maxsize: int, s: Sub, e: PlainEvent)
    ensures var t := Enqueued(maxsize, s, e);
            t.delivered == s.delivered && t.critical == s.critical + if IsCritical(e) then [e] else []
  {
  }

  lemma DrainKeepsCriticals(s: Sub)
    requires Sorted(s)
    ensures Criticals(Drained(s).delivered) + Drained(s).critical == Criticals(s.delivered) + s.critical
  {
    if s.critical != [] {
      AppendOne(s.delivered, s.critical[0]);
      assert s.critical == [s.critical[0]] + s.critical[1..];
    } else if s.standard != [] {
      AppendOne(s.delivered, s.standard[0]);
    }
  }

  // Conservation is counted event by event.

  function Count(es: seq<Event>, x: Event): nat { multiset(es)[x] }

  lemma CountTail(q: seq<Event>, x: Event)
    requires q != []
    ensures Count(q, x) == Count(q[1..], x) + One(q[0] == x)
  {
    assert q == [q[0]] + q[1..];
  }

  lemma CountPush(q: seq<Event>, e: Event, x: Event)
    ensures Count(q + [e], x) == Count(q, x) + One(e == x)
  {
  }

  /** What a publication adds to the queue and to the drops together: the event, and its notice if any. */
  lemma EnqueueBalance(maxsize: int, s: Sub, e: PlainEvent, x: Event)
    requires (maxsize > 0 ==> |s.standard| <= maxsize)
    ensures var t := Enqueued(maxsize, s, e);
            && Count(t.standard, x) + Count(t.dropped, x)
                 == Count(s.standard, x) + Count(s.dropped, x) + One(!e.critical && e == x)
                    + One(t.notices > s.notices && x == Overflow(s.notices, e.id))
            && |t.dropped| - |s.dropped| == 2 * (t.notices - s.notices)
            && s.notices <= t.notices <= s.notices + 1
  {
    var t := Enqueued(maxsize, s, e);
    if !e.critical {
      CountPush(s.standard, e, x);
      if Full(maxsize, s.standard) {
        var notice, room := Overflow(s.notices, e.id), s.standard[1..] + [e];
        assert |room| == maxsize;
        assert t.standard == room[1..] + [notice] && t.dropped == s.dropped + [s.standard[0]] + [room[0]];
        CountTail(s.standard, x);
        CountPush(s.standard[1..], e, x);
        CountTail(room, x);
        CountPush(room[1..], notice, x);
        CountPush(s.dropped, s.standard[0], x);
        CountPush(s.dropped + [s.standard[0]], room[0], x);
      }
    }
  }

  lemma DrainBalance(s: Sub, x: Event)
    requires Sorted(s)
    ensures var t := Drained(s);
            && Count(t.standard, x) + Count(Standards(t.delivered), x)
                 == Count(s.standard, x) + Count(Standards(s.delivered), x)
            && t.dropped == s.dropped && t.notices == s.notices
  {
    if s.standard != [] {
      CountTail(s.standard, x);
      CountPush(s.standard[1..], s.standard[0], x);
      CountPush(Standards(s.delivered), s.standard[0], x);
    }
    if s.critical != [] {
      AppendOne(s.delivered, s.critical[0]);
      assert Standards(s.delivered) + [] == Standards(s.delivered);
    } else if s.standard != [] {
      AppendOne(s.delivered, s.standard[0]);
    }
  }

  /** The books of one event: what came in, and where it is now. */
  ghost predicate Books(published: seq<Event>, notices: multiset<Event>, s: Sub, x: Event) {
    && Count(Standards(published), x) + notices[x]
         == Count(Standards(s.delivered), x) + Count(s.standard, x) + Count(s.dropped, x)
    && |s.dropped| == 2 * s.notices
    && |notices| == s.notices
  }

  function NewNotice(maxsize: int, s: Sub, e: PlainEvent): multiset<Event> {
    if Enqueued(maxsize, s, e).notices > s.notices then multiset{Overflow(s.notices, e.id)} else multiset{}
  }

  lemma PublishedOneMore(published: seq<Event>, e: PlainEvent, x: Event)
    ensures Count(Standards(published + [e]), x) == Count(Standards(published), x) + One(!e.critical && e == x)
  {
    AppendOne(published, e);
    if e.critical {
      assert Standards(published) + [] == Standards(published);
    } else {
      CountPush(Standards(published), e, x);
    }
  }

  lemma NoticesOneMore(maxsize: int, notices: multiset<Event>, s: Sub, e: PlainEvent, x: Event)
    requires s.notices <= Enqueued(maxsize, s, e).notices <= s.notices + 1
    ensures (notices + NewNotice(maxsize, s, e))[x]
         == notices[x] + One(Enqueued(maxsize, s, e).notices > s.notices && x == Overflow(s.notices, e.id))
    ensures |notices + NewNotice(maxsize, s, e)| == |notices| + Enqueued(maxsize, s, e).notices - s.notices
  {
  }

  lemma BooksAfterPublish(maxsize: int, published: seq<Event>, notices: multiset<Event>, s: Sub, e: PlainEvent,
      x: Event)
    requires Books(published, notices, s, x) && (maxsize > 0 ==> |s.standard| <= maxsize)
    ensures Books(published + [e], notices + NewNotice(maxsize, s, e), Enqueued(maxsize, s, e), x)
  {
    EnqueueBalance(maxsize, s, e, x);
    EnqueueKeepsCriticals(maxsize, s, e);
    PublishedOneMore(published, e, x);
    NoticesOneMore(maxsize, notices, s, e, x);
  }

  lemma {:induction false} EveryEventIsAccounted(maxsize: int, ops: seq<Op>, x: Event)
    ensures Books(Published(ops), Notices(maxsize, ops), Replay(maxsize, ops), x)
  {
    if ops != [] {
      var before := ops[..|ops| - 1];
      EveryEventIsAccounted(maxsize, before, x);
      match ops[|ops| - 1]
      case Publish(e) =>
        if maxsize > 0 {
          QueueIsBounded(maxsize, before);
        }
        BooksAfterPublish(maxsize, Published(before), Notices(maxsize, before), Replay(maxsize, before), e, x);
      case Drain =>
        assert Published(ops) == Published(before);
        QueuesAreSorted(maxsize, before);
        DrainBalance(Replay(maxsize, before), x);
    }
  }

  /**
   Nothing standard appears or disappears unaccounted: as multisets, published events and notices are
   the delivered, the queued and the dropped ones, and every notice stands for exactly two drops.
   */
  lemma Conservation(maxsize: int, ops: seq<Op>)
    ensures var s := Replay(maxsize, ops);
            && multiset(Standards(Published(ops))) + Notices(maxsize, ops)
                 == multiset(Standards(s.delivered)) + multiset(s.standard) + multiset(s.dropped)
            && |s.dropped| == 2 * s.notices == 2 * |Notices(maxsize, ops)|
  {
    var s := Replay(maxsize, ops);
    var put := multiset(Standards(Published(ops))) + Notices(maxsize, ops);
    var got := multiset(Standards(s.delivered)) + multiset(s.standard) + multiset(s.dropped);
    forall x: Event
      ensures put[x] == got[x]
    {
      EveryEventIsAccounted(maxsize, ops, x);
    }
    EveryEventIsAccounted(maxsize, ops, Plain(0, false));
  }

  /**
   Nothing is lost early: over any run a publication loses events if and only if it is a standard one and the
   queue is bounded and full to the bound; otherwise the event joins its own queue and the other stays.
   */
  lemma LossIff(maxsize: int, ops: seq<Op>, e: PlainEvent)
    ensures var s := Replay(maxsize, ops);
            var t := Enqueued(maxsize, s, e);
            && (t.dropped != s.dropped <==> !e.critical && maxsize > 0 && |s.standard| == maxsize)
            && (t.dropped == s.dropped ==>
                  && t.notices == s.notices
                  && t.critical == (if e.critical then s.critical + [e] else s.critical)
                  && t.standard == if e.critical then s.standard else s.standard + [e])
  {
    if maxsize > 0 {
      QueueIsBounded(maxsize, ops);
    }
  }

  /**
   What an overflow does to a queue that holds other events: it drops two, and its notice names the event
   that arrived. That event stays queued, and the notice names an event that was not dropped, if and only if
   the bound is at least two.
   */
  lemma OwnOverflowSurvivedIff(maxsize: int, s: Sub, e: PlainEvent)
    requires !e.critical && |s.standard| == maxsize > 0 && e !in s.standard
    ensures var t := Enqueued(maxsize, s, e);
            && t.standard[|t.standard| - 1] == Overflow(s.notices, e.id)
            && t.dropped == s.dropped + (if maxsize == 1 then [s.standard[0], e] else s.standard[..2])
            && (e in t.standard <==> maxsize >= 2)
            && (e !in t.dropped[|s.dropped|..] <==> maxsize >= 2)
  {
    var t, room := Enqueued(maxsize, s, e), s.standard[1..] + [e];
    var gone := if maxsize == 1 then [s.standard[0], e] else s.standard[..2];
    assert [s.standard[0], room[0]] == gone;
    assert t.dropped[|s.dropped|..] == gone;
    assert t.standard == room[1..] + [Overflow(s.notices, e.id)];
    if maxsize >= 2 {
      assert t.standard[|t.standard| - 2] == e;
    } else {
      assert room[1..] == [] && gone[1] == e;
    }
  }

  predicate HasNotice(es: seq<Event>, serial: nat) {
    exists i :: 0 <= i < |es| && es[i].Overflow? && es[i].serial == serial
  }

  /**
   Loss is never silent: the newest overflow notice is either still queued or already delivered. Only
   a newer overflow can push a notice out.
   */
  lemma {:induction false} NewestNoticeSurvives(maxsize: int, ops: seq<Op>)
    ensures var s := Replay(maxsize, ops);
            s.notices > 0 ==> HasNotice(s.standard, s.notices - 1) || HasNotice(s.delivered, s.notices - 1)
  {
    if ops != [] {
      var before, op := ops[..|ops| - 1], ops[|ops| - 1];
      var s, t := Replay(maxsize, before), Replay(maxsize, ops);
      NewestNoticeSurvives(maxsize, before);
      if t.notices > s.notices {
        NewNoticeIsQueued(maxsize, s, op);
      } else if t.notices > 0 {
        NoticeStays(maxsize, s, op, s.notices - 1);
      }
    }
  }

  lemma NewNoticeIsQueued(maxsize: int, s: Sub, op: Op)
    requires Apply(maxsize, s, op).notices > s.notices
    ensures Apply(maxsize, s, op).notices == s.notices + 1 && HasNotice(Apply(maxsize, s, op).standard, s.notices)
  {
    var t := Apply(maxsize, s, op);
    assert t.standard[|t.standard| - 1] == Overflow(s.notices, op.event.id);
  }

  /** Without an overflow, a notice that was queued or delivered stays so. */
  lemma NoticeStays(maxsize: int, s: Sub, op: Op, n: nat)
    requires HasNotice(s.standard, n) || HasNotice(s.delivered, n)
    requires Apply(maxsize, s, op).notices == s.notices
    ensures HasNotice(Apply(maxsize, s, op).standard, n) || HasNotice(Apply(maxsize, s, op).delivered, n)
  {
    var t := Apply(maxsize, s, op);
    if HasNotice(s.delivered, n) {
      var i :| 0 <= i < |s.delivered| && s.delivered[i].Overflow? && s.delivered[i].serial == n;
      assert t.delivered[i] == s.delivered[i];
    } else {
      var i :| 0 <= i < |s.standard| && s.standard[i].Overflow? && s.standard[i].serial == n;
      if op.Publish? {
        assert t.standard[i] == s.standard[i];
      } else if i > 0 {
        assert t.standard[i - 1] == s.standard[i];
      } else if s.critical != [] {
        assert t.standard[|t.standard| - 1] == s.standard[i];
      } else {
        assert t.delivered[|t.delivered| - 1] == s.standard[i];
      }
    }
  }

  /**
   Requeueing is meant to preserve the order of standard events. A drain that finds both queues nonempty
   moves the oldest standard event to the back, which leaves the order as it was if and only if it holds
   a single event.
   */
  lemma RequeueKeepsOrderIff(s: Sub)
    requires s.critical != [] && s.standard != []
    requires forall i, j :: 0 <= i < j < |s.standard| ==> s.standard[i] != s.standard[j]
    ensures Drained(s).delivered == s.delivered + [s.critical[0]] && Drained(s).critical == s.critical[1..]
    ensures Drained(s).standard == s.standard[1..] + [s.standard[0]]
    ensures Drained(s).standard == s.standard <==> |s.standard| == 1
  {
    assert s.standard == [s.standard[0]] + s.standard[1..];
    if |s.standard| > 1 {
      assert Drained(s).standard[0] == s.standard[1];
    } else {
      assert s.standard[1..] + [s.standard[0]] == s.standard;
    }
  }

  /** What entered the standard queue, in order: events as they were published, each notice after its cause. */
  function Entered(maxsize: int, ops: seq<Op>): seq<Event> {
    if ops == [] then []
    else
      var before, op := ops[..|ops| - 1], ops[|ops| - 1];
      Entered(maxsize, before) + if op.Publish? then Entering(Replay(maxsize, before), maxsize, op.event) else []
  }

  function Entering(s: Sub, maxsize: int, e: PlainEvent): seq<Event> {
    if e.critical then [] else if Full(maxsize, s.standard) then [e, Overflow(s.notices, e.id)] else [e]
  }

  /** `tail` is the end of `all`. */
  predicate Ends(tail: seq<Event>, all: seq<Event>) {
    |tail| <= |all| && tail == all[|all| - |tail|..]
  }

  /** `part` is `whole` with some elements left out. */
  predicate Within(part: seq<Event>, whole: seq<Event>) {
    part == [] ||
    (whole != [] &&
     (Within(part, whole[..|whole| - 1])
      || (part[|part| - 1] == whole[|whole| - 1] && Within(part[..|part| - 1], whole[..|whole| - 1]))))
  }

  /** No more than one standard event is queued when this drain finds a critical one. */
  predicate Harmless(maxsize: int, ops: seq<Op>, n: nat)
    requires n < |ops|
  {
    ops[n].Drain? && Replay(maxsize, ops[..n]).critical != [] ==> |Replay(maxsize, ops[..n]).standard| <= 1
  }

  /** The queue is the end of what entered it, and what was delivered entered before, in this order. */
  ghost predicate Ordered(s: Sub, entered: seq<Event>) {
    && Ends(s.standard, entered)
    && Within(Standards(s.delivered), entered[..|entered| - |s.standard|])
  }

  lemma WithinMore(part: seq<Event>, whole: seq<Event>, more: seq<Event>)
    requires Within(part, whole)
    ensures Within(part, whole + more)
    decreases |more|
  {
    if more == [] {
      assert whole + more == whole;
    } else {
      WithinMore(part, whole, more[..|more| - 1]);
      assert (whole + more)[..|whole + more| - 1] == whole + more[..|more| - 1];
    }
  }

  lemma WithinBoth(part: seq<Event>, whole: seq<Event>, e: Event)
    requires Within(part, whole)
    ensures Within(part + [e], whole + [e])
  {
    assert (part + [e])[..|part + [e]| - 1] == part && (whole + [e])[..|whole + [e]| - 1] == whole;
  }

  /** Two more at the back and two fewer at the front leave the end of what entered. */
  lemma OverflowEnds(queue: seq<Event>, entered: seq<Event>, e: Event, notice: Event)
    requires Ends(queue, entered) && queue != []
    ensures (queue[1..] + [e])[1..] + [notice]
         == (entered + [e, notice])[|entered| - |queue| + 2..]
  {
    var left := |entered| - |queue|;
    assert queue == entered[left..];
    assert (queue[1..] + [e])[1..] + [notice] == (queue + [e, notice])[2..];
    assert queue + [e, notice] == (entered + [e, notice])[left..];
  }

  lemma OverflowKeepsOrder(maxsize: int, s: Sub, e: PlainEvent, entered: seq<Event>)
    requires Ordered(s, entered) && !e.critical && |s.standard| == maxsize > 0
    ensures Ordered(Enqueued(maxsize, s, e), entered + [e, Overflow(s.notices, e.id)])
  {
    var all, left := entered + [e, Overflow(s.notices, e.id)], |entered| - |s.standard|;
    OverflowEnds(s.standard, entered, e, Overflow(s.notices, e.id));
    WithinMore(Standards(s.delivered), entered[..left], all[left..left + 2]);
    assert entered[..left] + all[left..left + 2] == all[..left + 2];
  }

  /** Entering at the back, and dropping at the front, keep the order. */
  lemma EnqueueKeepsOrder(maxsize: int, s: Sub, e: PlainEvent, entered: seq<Event>)
    requires Ordered(s, entered) && (maxsize > 0 ==> |s.standard| <= maxsize)
    ensures Ordered(Enqueued(maxsize, s, e), entered + Entering(s, maxsize, e))
  {
    var t, all := Enqueued(maxsize, s, e), entered + Entering(s, maxsize, e);
    var left := |entered| - |s.standard|;
    if e.critical {
      assert all == entered;
    } else if !Full(maxsize, s.standard) {
      assert t.standard == all[left..] && all[..left] == entered[..left];
    } else {
      OverflowKeepsOrder(maxsize, s, e, entered);
    }
  }

  lemma PopKeepsOrder(queue: seq<Event>, delivered: seq<Event>, entered: seq<Event>)
    requires Ends(queue, entered) && queue != [] && Within(delivered, entered[..|entered| - |queue|])
    ensures Ends(queue[1..], entered) && Within(delivered + [queue[0]], entered[..|entered| - |queue[1..]|])
  {
    var left := |entered| - |queue|;
    WithinBoth(delivered, entered[..left], queue[0]);
    assert queue[0] == entered[left..][0] == entered[left];
    assert entered[..left] + [queue[0]] == entered[..left + 1];
    assert queue[1..] == entered[left..][1..] == entered[left + 1..];
  }

  lemma RotatedSingle(queue: seq<Event>)
    requires |queue| == 1
    ensures queue[1..] + [queue[0]] == queue
  {
  }

  lemma CriticalDrainKeepsOrder(s: Sub, entered: seq<Event>)
    requires Sorted(s) && Ordered(s, entered) && s.critical != [] && |s.standard| <= 1
    ensures Ordered(Drained(s), entered)
  {
    AppendOne(s.delivered, s.critical[0]);
    assert Standards(s.delivered) + [] == Standards(s.delivered);
    if s.standard != [] {
      RotatedSingle(s.standard);
    }
  }

  lemma StandardDrainKeepsOrder(s: Sub, entered: seq<Event>)
    requires Sorted(s) && Ordered(s, entered) && s.critical == [] && s.standard != []
    ensures Ordered(Drained(s), entered)
  {
    AppendOne(s.delivered, s.standard[0]);
    PopKeepsOrder(s.standard, Standards(s.delivered), entered);
  }

  lemma DrainKeepsOrder(s: Sub, entered: seq<Event>)
    requires Sorted(s) && Ordered(s, entered) && (s.critical != [] ==> |s.standard| <= 1)
    ensures Ordered(Drained(s), entered)
  {
    if s.critical != [] {
      CriticalDrainKeepsOrder(s, entered);
    } else if s.standard != [] {
      StandardDrainKeepsOrder(s, entered);
    }
  }

  /**
   Standard events leave in the order of their publication, with drops but without overtaking, as long as
   every drain that finds a critical event finds at most one standard event.
   */
  lemma {:induction false} StandardEventsInOrder(maxsize: int, ops: seq<Op>)
    requires forall n :: 0 <= n < |ops| ==> Harmless(maxsize, ops, n)
    ensures Ordered(Replay(maxsize, ops), Entered(maxsize, ops))
  {
    if ops != [] {
      var m := |ops| - 1;
      var s, entered := Replay(maxsize, ops[..m]), Entered(maxsize, ops[..m]);
      forall n | 0 <= n < m
        ensures Harmless(maxsize, ops[..m], n)
      {
        assert ops[..m][..n] == ops[..n] && Harmless(maxsize, ops, n);
      }
      StandardEventsInOrder(maxsize, ops[..m]);
      match ops[m]
      case Publish(e) =>
        if maxsize > 0 {
          QueueIsBounded(maxsize, ops[..m]);
        }
        EnqueueKeepsOrder(maxsize, s, e, entered);
      case Drain =>
        assert Harmless(maxsize, ops, m);
        assert entered + [] == entered;
        QueuesAreSorted(maxsize, ops[..m]);
        DrainKeepsOrder(s, entered);
    }
  }

  /** The queue is in order after every operation of the run. */
  ghost predicate AlwaysInOrder(maxsize: int, ops: seq<Op>) {
    forall n :: 0 <= n <= |ops| ==> InOrderAfter(maxsize, ops, n)
  }

  predicate InOrderAfter(maxsize: int, ops: seq<Op>, n: nat)
    requires n <= |ops|
  {
    Ends(Replay(maxsize, ops[..n]).standard, Entered(maxsize, ops[..n]))
  }

  /** What entered the queue, the notices included, is all different. */
  ghost predicate Distinct(es: seq<Event>) {
    forall i, j :: 0 <= i < j < |es| ==> es[i] != es[j]
  }

  lemma {:induction false} EnteredGrows(maxsize: int, ops: seq<Op>, n: nat)
    requires n <= |ops|
    ensures Entered(maxsize, ops[..n]) <= Entered(maxsize, ops)
    decreases |ops|
  {
    if n == |ops| {
      assert ops[..n] == ops;
    } else {
      var before := ops[..|ops| - 1];
      EnteredGrows(maxsize, before, n);
      assert before[..n] == ops[..n];
    }
  }

  /** A rotation of two distinct events or more is not the end of what entered any more. */
  lemma RotationIsOutOfOrder(s: Sub, entered: seq<Event>)
    requires s.critical != [] && |s.standard| >= 2 && Distinct(entered) && Ends(s.standard, entered)
    ensures !Ends(Drained(s).standard, entered)
  {
    var left := |entered| - |s.standard|;
    assert entered[left..][0] == entered[left] && s.standard[1] == entered[left..][1] == entered[left + 1];
    assert Drained(s).standard[0] == s.standard[1];
  }

  /**
   The exact condition, for events that differ: the standard queue stays in the order of publication
   throughout a run if and only if every drain that finds a critical event finds at most one standard one.
   */
  lemma OrderIsKeptIff(maxsize: int, ops: seq<Op>)
    requires Distinct(Entered(maxsize, ops))
    ensures AlwaysInOrder(maxsize, ops) <==> forall n :: 0 <= n < |ops| ==> Harmless(maxsize, ops, n)
  {
    if forall n :: 0 <= n < |ops| ==> Harmless(maxsize, ops, n) {
      forall n | 0 <= n <= |ops|
        ensures InOrderAfter(maxsize, ops, n)
      {
        HarmlessPrefix(maxsize, ops, n);
        StandardEventsInOrder(maxsize, ops[..n]);
      }
    } else {
      var n :| 0 <= n < |ops| && !Harmless(maxsize, ops, n);
      if InOrderAfter(maxsize, ops, n) {
        OneHarm(maxsize, ops, n);
      }
    }
  }

  lemma HarmlessPrefix(maxsize: int, ops: seq<Op>, n: nat)
    requires n <= |ops| && forall k :: 0 <= k < |ops| ==> Harmless(maxsize, ops, k)
    ensures forall k :: 0 <= k < n ==> Harmless(maxsize, ops[..n], k)
  {
    forall k | 0 <= k < n
      ensures Harmless(maxsize, ops[..n], k)
    {
      assert ops[..n][..k] == ops[..k] && Harmless(maxsize, ops, k);
    }
  }

  lemma OneHarm(maxsize: int, ops: seq<Op>, n: nat)
    requires n < |ops| && Distinct(Entered(maxsize, ops)) && !Harmless(maxsize, ops, n) && InOrderAfter(maxsize, ops, n)
    ensures !InOrderAfter(maxsize, ops, n + 1)
  {
    var s, entered := Replay(maxsize, ops[..n]), Entered(maxsize, ops[..n]);
    assert ops[..n + 1][..n] == ops[..n] && ops[..n + 1][n] == ops[n];
    assert entered + [] == entered;
    EnteredGrows(maxsize, ops, n);
    RotationIsOutOfOrder(s, entered);
  }

  /** So a standard event can be delivered after one that was published later. */
  lemma StandardEventsCanSwap(maxsize: int, a: nat, b: nat, c: nat)
    requires maxsize <= 0 || maxsize >= 2
    ensures var first, second := Plain(a, false), Plain(b, false);
            var ops := [Publish(first), Publish(second), Publish(Plain(c, true)), Drain, Drain, Drain];
            Replay(maxsize, ops).delivered == [Plain(c, true), second, first]
  {
    var first, second, top := Plain(a, false), Plain(b, false), Plain(c, true);
    ApplyMore(maxsize, [], Publish(first));
    ApplyMore(maxsize, [] + [Publish(first)], Publish(second));
    var r2: seq<Op> := [] + [Publish(first)] + [Publish(second)];
    assert Replay(maxsize, r2) == Sub([], [first, second], 0, [], []);
    TopGoesFirst(maxsize, r2, first, second, top);
    assert r2 + [Publish(top)] + [Drain] + [Drain] + [Drain]
        == [Publish(first), Publish(second), Publish(top), Drain, Drain, Drain];
  }

  lemma TopGoesFirst(maxsize: int, ops: seq<Op>, first: PlainEvent, second: PlainEvent, top: PlainEvent)
    requires Replay(maxsize, ops) == Sub([], [first, second], 0, [], []) && top.critical
    ensures Replay(maxsize, ops + [Publish(top)] + [Drain] + [Drain] + [Drain]).delivered == [top, second, first]
  {
    ApplyMore(maxsize, ops, Publish(top));
    ApplyMore(maxsize, ops + [Publish(top)], Drain);
    var r := ops + [Publish(top)] + [Drain];
    assert Replay(maxsize, r) == Sub([], [second, first], 0, [top], []);
    ApplyMore(maxsize, r, Drain);
    ApplyMore(maxsize, r + [Drain], Drain);
  }

  lemma ApplyMore(maxsize: int, ops: seq<Op>, op: Op)
    ensures Replay(maxsize, ops + [op]) == Apply(maxsize, Replay(maxsize, ops), op)
  {
    assert (ops + [op])[..|ops + [op]| - 1] == ops;
  }

  // ------------------------------------------------------------------ objects

  /** One iterator subscriber. */
  class Subscriber {
    const maxsize: int
    var critical: seq<Event>
    var standard: seq<Event>
    var notices: nat
    var open: bool
    ghost var ops: seq<Op>

    constructor (maxsize: int)
      ensures Valid() && this.maxsize == maxsize && open && ops == []
    {
      this.maxsize := maxsize;
      critical, standard, notices, open, ops := [], [], 0, true, [];
    }

    ghost predicate Valid()
      reads this
    {
      var s := Replay(maxsize, ops);
      critical == s.critical && standard == s.standard && notices == s.notices
    }

    method Enqueue(e: PlainEvent)
      requires Valid()
      modifies this
      ensures Valid() && ops == old(ops) + [Publish(e)] && open == old(open)
    {
      ops := ops + [Publish(e)];
      assert ops[..|ops| - 1] == old(ops);
      if e.critical {
        critical := critical + [e];
        return;
      }
      if !Full(maxsize, standard) {
        standard := standard + [e];
        return;
      }
      standard := standard[1..];
      standard := standard + [e];
      var overflow := Overflow(notices, e.id);
      notices := notices + 1;
      if Full(maxsize, standard) {
        standard := standard[1..];
      }
      standard := standard + [overflow];
    }

    /** What the iterator yields next; nothing when it would wait. */
    method Next() returns (event: Option<Event>)
      requires Valid()
      modifies this
      ensures Valid() && ops == old(ops) + [Drain] && open == old(open)
      ensures event.None? <==> old(critical) == [] && old(standard) == []
      ensures event.Some? ==> Replay(maxsize, ops).delivered == Replay(maxsize, old(ops)).delivered + [event.value]
    {
      ops := ops + [Drain];
      assert ops[..|ops| - 1] == old(ops);
      if critical != [] {
        event := Some(critical[0]);
        critical := critical[1..];
        if standard != [] {
          var pulled := standard[0];
          standard := standard[1..];
          standard := standard + [pulled];
        }
      } else if standard != [] {
        event := Some(standard[0]);
        standard := standard[1..];
      } else {
        event := None;
      }
    }

    method Close()
      requires Valid()
      modifies this
      ensures Valid() && !open && ops == old(ops)
    {
      open := false;
    }
  }

  /** The bus: a list of subscribers, each with its own queues. */
  class InProcessEventBus {
    const standardMaxsize: int
    var subs: seq<Subscriber>

    constructor (standardMaxsize: int)
      ensures Valid() && this.standardMaxsize == standardMaxsize && subs == []
    {
      this.standardMaxsize := standardMaxsize;
      subs := [];
    }

    ghost predicate Valid()
      reads this, subs
    {
      && (forall i :: 0 <= i < |subs| ==> subs[i].Valid() && subs[i].maxsize == standardMaxsize)
      && (forall i, j :: 0 <= i < j < |subs| ==> subs[i] != subs[j])
    }

    method Events() returns (sub: Subscriber)
      requires Valid()
      modifies this
      ensures Valid() && fresh(sub) && subs == old(subs) + [sub]
      ensures sub.open && sub.ops == []
    {
      sub := new Subscriber(standardMaxsize);
      subs := subs + [sub];
    }

    /** Every open subscriber gets the event, whatever state the others are in. */
    method Publish(e: PlainEvent)
      requires Valid()
      modifies subs
      ensures Valid()
      ensures forall i :: 0 <= i < |subs| ==>
                && subs[i].open == old(subs[i].open)
                && subs[i].ops == old(subs[i].ops) + if subs[i].open then [Op.Publish(e)] else []
    {
      for k := 0 to |subs|
        invariant Valid()
        invariant forall i :: 0 <= i < |subs| ==> subs[i].open == old(subs[i].open)
        invariant forall i :: 0 <= i < k ==>
                    subs[i].ops == old(subs[i].ops) + if subs[i].open then [Op.Publish(e)] else []
        invariant forall i :: k <= i < |subs| ==> subs[i].ops == old(subs[i].ops)
      {
        if subs[k].open {
          subs[k].Enqueue(e);
        }
      }
    }
  }
}
