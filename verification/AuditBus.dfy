/** The live tap on the audit log: one bounded queue per subscriber, overflow dropped. */
module AuditBus {
  import opened Prelude
  import opened AuditClamp

  /** One subscriber: its queue, what it has received, and for everything published since it joined
      whether it was queued. */
  datatype Tap = Tap(queue: seq<Value>, received: seq<Value>, published: seq<Value>, queued: seq<bool>)

  /** `asyncio.Queue` is unbounded for a size of zero or less. */
  predicate Full(queue: seq<Value>, size: int) {
    size > 0 && |queue| >= size
  }

  function Offered(t: Tap, event: Value, size: int): Tap {
    Tap(if Full(t.queue, size) then t.queue else t.queue + [event], t.received,
        t.published + [event], t.queued + [!Full(t.queue, size)])
  }

  function Got(t: Tap): Tap {
    if t.queue == [] then t else t.(queue := t.queue[1..], received := t.received + [t.queue[0]])
  }

  const JOINED := Tap([], [], [], [])

  class AuditEventBus {
    const queueSize: int
    var subscribers: map<nat, seq<Value>>
    ghost var story: map<nat, Tap>

    ghost predicate Valid()
      reads this
    {
      story.Keys == subscribers.Keys && forall id :: id in story ==> story[id].queue == subscribers[id]
    }

    constructor (queueSize: int)
      ensures Valid() && story == map[] && this.queueSize == queueSize
    {
      this.queueSize := queueSize;
      subscribers, story := map[], map[];
    }

    /** Entering `subscribe`: an empty queue joins under a new name. */
    method Join(id: nat)
      requires Valid() && id !in story
      modifies this
      ensures Valid() && story == old(story)[id := JOINED]
    {
      subscribers := subscribers[id := []];
      story := story[id := JOINED];
    }

    /** Leaving it: the queue is discarded. */
    method Leave(id: nat)
      requires Valid()
      modifies this
      ensures Valid() && story == old(story) - {id}
    {
      subscribers := subscribers - {id};
      story := story - {id};
    }

    /** The next event, if one is waiting. */
    method Get(id: nat) returns (event: Option<Value>)
      requires Valid() && id in story
      modifies this
      ensures Valid() && story == old(story)[id := Got(old(story)[id])]
      ensures event == if old(story)[id].queue == [] then None else Some(old(story)[id].queue[0])
    {
      var queue := subscribers[id];
      if queue == [] {
        assert story == story[id := story[id]];
        return None;
      }
      subscribers := subscribers[id := queue[1..]];
      story := story[id := Got(story[id])];
      event := Some(queue[0]);
    }

    /** `put_nowait` on one queue. */
    method PutNowait(id: nat, event: Value) returns (dropped: bool)
      requires Valid() && id in story
      modifies this
      ensures Valid() && story == old(story)[id := Offered(old(story)[id], event, queueSize)]
      ensures dropped <==> Full(old(story)[id].queue, queueSize)
    {
      dropped := Full(subscribers[id], queueSize);
      if !dropped { subscribers := subscribers[id := subscribers[id] + [event]]; }
      story := story[id := Offered(story[id], event, queueSize)];
    }

    /** One round of `Publish`: offer the event to one queue and count a refusal. */
    method OfferOne(id: nat, event: Value, dropped: nat, ghost before: map<nat, Tap>,
                    ghost left: set<nat>)
      returns (dropped': nat)
      requires Valid() && HalfWay(before, left, story, dropped, event, queueSize) && id in left
      modifies this
      ensures Valid() && HalfWay(before, left - {id}, story, dropped', event, queueSize)
    {
      OneMoreOffered(before, left, id, story, dropped, event, queueSize);
      var refused := PutNowait(id, event);
      dropped' := if refused then dropped + 1 else dropped;
    }

    /** Every queue is offered the event, whatever the others do; full ones are counted. */
    method Publish(event: Value) returns (dropped: nat)
      requires Valid()
      modifies this
      ensures Valid() && story == OfferedTo(old(story), old(story).Keys, event, queueSize)
      ensures dropped == |Refusing(old(story), old(story).Keys, queueSize)|
    {
      dropped := 0;
      var left := subscribers.Keys;
      ghost var before := story;
      NoneOffered(before, event, queueSize);
      while left != {}
        invariant Valid() && HalfWay(before, left, story, dropped, event, queueSize)
        decreases |left|
      {
        var id :| id in left;
        dropped := OfferOne(id, event, dropped, before, left);
        left := left - {id};
      }
      assert before.Keys - {} == before.Keys;
    }
  }

  /** The subscribers named are offered the event, the others are left alone. */
  function OfferedTo(s: map<nat, Tap>, names: set<nat>, event: Value, size: int): map<nat, Tap> {
    map id | id in s :: if id in names then Offered(s[id], event, size) else s[id]
  }

  function Refusing(s: map<nat, Tap>, names: set<nat>, size: int): set<nat> {
    set id | id in names && id in s && Full(s[id].queue, size)
  }

  /** All but those in `left` have been offered the event. */
  ghost predicate HalfWay(s: map<nat, Tap>, left: set<nat>, now: map<nat, Tap>, dropped: nat, event: Value, size: int) {
    && left <= s.Keys
    && now == OfferedTo(s, s.Keys - left, event, size)
    && dropped == |Refusing(s, s.Keys - left, size)|
  }

  lemma NoneOffered(s: map<nat, Tap>, event: Value, size: int)
    ensures HalfWay(s, s.Keys, s, 0, event, size)
  {
    assert s.Keys - s.Keys == {};
    assert Refusing(s, {}, size) == {};
    assert OfferedTo(s, {}, event, size) == s;
  }

  lemma OneMoreOffered(s: map<nat, Tap>, left: set<nat>, id: nat, now: map<nat, Tap>, dropped: nat, event: Value,
                       size: int)
    requires HalfWay(s, left, now, dropped, event, size) && id in left
    ensures id in now && now[id] == s[id]
    ensures HalfWay(s, left - {id}, now[id := Offered(s[id], event, size)],
                    dropped + if Full(s[id].queue, size) then 1 else 0, event, size)
  {
    var names := s.Keys - left;
    assert s.Keys - (left - {id}) == names + {id};
    assert now[id := Offered(s[id], event, size)] == OfferedTo(s, names + {id}, event, size);
    var more := Refusing(s, names + {id}, size);
    if Full(s[id].queue, size) {
      assert more == Refusing(s, names, size) + {id};
    } else {
      assert more == Refusing(s, names, size);
    }
  }

  // ---------------------------------------------------------------- any interleaving

  datatype Op = Join(id: nat) | Leave(id: nat) | Get(id: nat) | Publish(event: Value)

  function Do(s: map<nat, Tap>, op: Op, size: int): map<nat, Tap> {
    match op
    case Join(id) => if id in s then s else s[id := JOINED]
    case Leave(id) => s - {id}
    case Get(id) => if id in s then s[id := Got(s[id])] else s
    case Publish(e) => OfferedTo(s, s.Keys, e, size)
  }

  function Run(ops: seq<Op>, size: int): map<nat, Tap> {
    if ops == [] then map[] else Do(Run(ops[..|ops| - 1], size), ops[|ops| - 1], size)
  }

  /** The events whose flag is set. */
  function Chosen(events: seq<Value>, flags: seq<bool>): seq<Value>
    requires |events| == |flags|
  {
    if events == [] then []
    else
      Chosen(events[..|events| - 1], flags[..|events| - 1]) + if flags[|events| - 1] then [events[|events| - 1]] else []
  }

  function Dropped(flags: seq<bool>): nat {
    if flags == [] then 0 else Dropped(flags[..|flags| - 1]) + if flags[|flags| - 1] then 0 else 1
  }

  /** What a subscriber has received and then what waits for it are the published events that were not
      dropped, in order; nothing else is lost; the queue keeps its bound. */
  ghost predicate Faithful(t: Tap, size: int) {
    && |t.queued| == |t.published|
    && t.received + t.queue == Chosen(t.published, t.queued)
    && |t.published| == |t.received| + |t.queue| + Dropped(t.queued)
    && (size > 0 ==> |t.queue| <= size)
  }

  lemma OfferedFaithful(t: Tap, event: Value, size: int)
    requires Faithful(t, size)
    ensures Faithful(Offered(t, event, size), size)
  {
    var u := Offered(t, event, size);
    assert u.published[..|t.published|] == t.published && u.queued[..|t.published|] == t.queued;
    assert u.published[|t.published|] == event;
    if !Full(t.queue, size) { Regroup(t.received, t.queue, [event]); }
  }

  lemma GotFaithful(t: Tap, size: int)
    requires Faithful(t, size)
    ensures Faithful(Got(t), size)
  {
    if t.queue != [] {
      assert t.queue == [t.queue[0]] + t.queue[1..];
      Regroup(t.received, [t.queue[0]], t.queue[1..]);
    }
  }

  /** In every interleaving of joins, leaves, gets and publications. */
  lemma {:induction false} RunFaithful(ops: seq<Op>, size: int, id: nat)
    requires id in Run(ops, size)
    ensures Faithful(Run(ops, size)[id], size)
  {
    var front, last := ops[..|ops| - 1], ops[|ops| - 1];
    if id in Run(front, size) { RunFaithful(front, size, id); }
    StepFaithful(Run(front, size), last, size, id);
  }

  lemma StepFaithful(s: map<nat, Tap>, op: Op, size: int, id: nat)
    requires id in Do(s, op, size) && (id in s ==> Faithful(s[id], size))
    ensures Faithful(Do(s, op, size)[id], size)
  {
    match op
    case Publish(e) => OfferedFaithful(s[id], e, size);
    case Get(other) => GotFaithful(s[id], size);
    case Leave(_) =>
    case Join(_) =>
  }

  /** A publication is dropped for a subscriber exactly when that subscriber's own backlog has reached
      the bound. */
  lemma DroppedIff(ops: seq<Op>, event: Value, size: int, id: nat)
    requires id in Run(ops, size)
    ensures var t := Run(ops, size)[id]; var u := Run(ops + [Publish(event)], size)[id];
            && u.published == t.published + [event]
            && (Dropped(u.queued) == Dropped(t.queued) + 1 <==> size > 0 && |t.queue| == size)
            && (Dropped(u.queued) == Dropped(t.queued) <==> u.queue == t.queue + [event])
  {
    assert (ops + [Publish(event)])[..|ops|] == ops;
    RunFaithful(ops, size, id);
    var t := Run(ops, size)[id];
    var u := Offered(t, event, size);
    assert u.queued[..|t.queued|] == t.queued;
  }

  /** The steps that concern one subscriber. */
  predicate Concerns(op: Op, id: nat) {
    op.Publish? || op.id == id
  }

  function About(ops: seq<Op>, id: nat): seq<Op> {
    if ops == [] then []
    else About(ops[..|ops| - 1], id) + if Concerns(ops[|ops| - 1], id) then [ops[|ops| - 1]] else []
  }

  function At(s: map<nat, Tap>, id: nat): Option<Tap> {
    if id in s then Some(s[id]) else None
  }

  /** A slow subscriber harms nobody else: each one fares as it would alone. */
  lemma {:induction false} Independent(ops: seq<Op>, size: int, id: nat)
    ensures At(Run(ops, size), id) == At(Run(About(ops, id), size), id)
  {
    if ops != [] {
      var front, last := ops[..|ops| - 1], ops[|ops| - 1];
      Independent(front, size, id);
      DoAt(Run(front, size), Run(About(front, id), size), last, size, id);
      if Concerns(last, id) {
        assert (About(front, id) + [last])[..|About(front, id)|] == About(front, id);
      } else {
        assert About(front, id) + [] == About(front, id);
      }
    }
  }

  lemma DoAt(s: map<nat, Tap>, other: map<nat, Tap>, op: Op, size: int, id: nat)
    requires At(s, id) == At(other, id)
    ensures At(Do(s, op, size), id) == if Concerns(op, id) then At(Do(other, op, size), id) else At(s, id)
  {
  }

  lemma {:induction false} AllChosen(events: seq<Value>, flags: seq<bool>)
    requires |events| == |flags| && Dropped(flags) == 0
    ensures Chosen(events, flags) == events
  {
    if events != [] { AllChosen(events[..|events| - 1], flags[..|events| - 1]); }
  }

  /** Without a bound nothing is ever dropped. */
  lemma {:induction false} UnboundedKeepsAll(ops: seq<Op>, size: int, id: nat)
    requires size <= 0 && id in Run(ops, size)
    ensures Run(ops, size)[id].received + Run(ops, size)[id].queue == Run(ops, size)[id].published
  {
    NothingDropped(ops, size, id);
    RunFaithful(ops, size, id);
    AllChosen(Run(ops, size)[id].published, Run(ops, size)[id].queued);
  }

  lemma {:induction false} NothingDropped(ops: seq<Op>, size: int, id: nat)
    requires size <= 0 && id in Run(ops, size)
    ensures Dropped(Run(ops, size)[id].queued) == 0
  {
    var front, last := ops[..|ops| - 1], ops[|ops| - 1];
    if id in Run(front, size) {
      NothingDropped(front, size, id);
      if last.Publish? {
        var t := Run(front, size)[id];
        assert Offered(t, last.event, size).queued[..|t.queued|] == t.queued;
      }
    }
  }
}
