/** Subscriptions to value changes: a queue for polling and an optional event stream. */
module Subscriptions {
  import opened Basics

  datatype Item = Item(sequenceNumber: int, elementId: string, vqt: string)

  /** What is written to a stream: the item without its sequence number. */
  datatype Event = Event(elementId: string, vqt: string)

  /** What happens to one subscription, in order. */
  datatype Op =
    | Register(elementId: string)
    | Unregister(elementId: string)
    | Change(elementId: string, vqt: string)
    | Sync(last: Option<int>)
    | OpenStream
    | CloseStream

  // ---- What a history means ----

  function RegisteredAfter(ops: seq<Op>): set<string> {
    if ops == [] then {}
    else
      var before := RegisteredAfter(ops[..|ops| - 1]);
      match ops[|ops| - 1]
      case Register(e) => before + {e}
      case Unregister(e) => before - {e}
      case _ => before
  }

  /** The changes to elements that were registered when they changed. */
  function ChangesSeen(ops: seq<Op>): seq<Event> {
    if ops == [] then []
    else
      var init := ops[..|ops| - 1];
      match ops[|ops| - 1]
      case Change(e, v) => if e in RegisteredAfter(init) then ChangesSeen(init) + [Event(e, v)] else ChangesSeen(init)
      case _ => ChangesSeen(init)
  }

  /** How many of the changes seen have been acknowledged; a number not yet given out acknowledges all so far. */
  function Acknowledged(ops: seq<Op>): nat {
    if ops == [] then 0
    else
      var init := ops[..|ops| - 1];
      match ops[|ops| - 1]
      case Sync(Some(n)) =>
        var m := if n < |ChangesSeen(init)| then n else |ChangesSeen(init)|;
        if Acknowledged(init) < m then m else Acknowledged(init)
      case _ => Acknowledged(init)
  }

  /** The items for a list of changes, numbered from one. */
  function Numbered(events: seq<Event>): (items: seq<Item>)
    ensures |items| == |events|
    ensures forall i :: 0 <= i < |items| ==> items[i] == Item(i + 1, events[i].elementId, events[i].vqt)
  {
    seq(|events|, i requires 0 <= i < |events| => Item(i + 1, events[i].elementId, events[i].vqt))
  }

  lemma {:induction false} AcknowledgedBound(ops: seq<Op>)
    ensures Acknowledged(ops) <= |ChangesSeen(ops)|
    decreases |ops|
  {
    if ops != [] {
      AcknowledgedBound(ops[..|ops| - 1]);
    }
  }

  /** What is seen stays seen: a longer history only adds changes at the end. */
  lemma {:induction false} ChangesGrow(ops: seq<Op>, more: seq<Op>)
    ensures ChangesSeen(ops) <= ChangesSeen(ops + more)
    ensures Acknowledged(ops) <= Acknowledged(ops + more)
    decreases |more|
  {
    if more == [] {
      assert ops + more == ops;
    } else {
      var init := more[..|more| - 1];
      ChangesGrow(ops, init);
      assert (ops + more)[..|ops + more| - 1] == ops + init;
    }
  }

  /** The places in the history at which a stream was opened and closed. */
  datatype Span = Span(since: nat, until: Option<nat>)

  /** What a stream should have received: the queue when it was opened, and every change seen until it was closed. */
  ghost predicate Delivered(ops: seq<Op>, span: Span, written: seq<Event>) {
    && span.since <= |ops| && (span.until.Some? ==> span.since <= span.until.value <= |ops|)
    && var all := ChangesSeen(if span.until.Some? then ops[..span.until.value] else ops);
       var from := Acknowledged(ops[..span.since]);
       from <= |all| && written == all[from..]
  }

  /** In other words: first the queue as it was at opening, then each later change, in order. */
  lemma QueueThenRest(ops: seq<Op>, span: Span, written: seq<Event>)
    requires Delivered(ops, span, written)
    ensures var end := if span.until.Some? then span.until.value else |ops|;
      var before, all := ChangesSeen(ops[..span.since]), ChangesSeen(ops[..end]);
      && Acknowledged(ops[..span.since]) <= |before| <= |all| && before == all[..|before|]
      && written == before[Acknowledged(ops[..span.since])..] + all[|before|..]
  {
    hide ChangesSeen, Acknowledged;
    var end := if span.until.Some? then span.until.value else |ops|;
    var opening, rest := ops[..span.since], ops[span.since..end];
    AcknowledgedBound(opening);
    ChangesGrow(opening, rest);
    assert opening + rest == ops[..end];
    assert ops[..|ops|] == ops;
    SplitTail(ChangesSeen(ops[..end]), ChangesSeen(opening), Acknowledged(opening));
  }

  lemma SplitTail(all: seq<Event>, before: seq<Event>, from: nat)
    requires from <= |before| && before <= all
    ensures all[from..] == before[from..] + all[|before|..]
  {
  }

  lemma ChangeDelivered(ops: seq<Op>, e: string, v: string, span: Span, written: seq<Event>)
    requires Delivered(ops, span, written)
    ensures var seen := span.until.None? && e in RegisteredAfter(ops);
      Delivered(ops + [Change(e, v)], span, if seen then written + [Event(e, v)] else written)
  {
    var after := ops + [Change(e, v)];
    assert after[..|ops|] == ops && after[..span.since] == ops[..span.since];
    if span.until.Some? {
      assert after[..span.until.value] == ops[..span.until.value];
    }
  }

  lemma ChangeSeen(ops: seq<Op>, e: string, v: string)
    ensures var after := ops + [Change(e, v)];
      && RegisteredAfter(after) == RegisteredAfter(ops) && Acknowledged(after) == Acknowledged(ops)
      && ChangesSeen(after) ==
           if e in RegisteredAfter(ops) then ChangesSeen(ops) + [Event(e, v)] else ChangesSeen(ops)
  {
    assert (ops + [Change(e, v)])[..|ops|] == ops;
  }

  /** The items with a number above `n`. */
  function Later(items: seq<Item>, n: int): seq<Item> {
    if items == [] then []
    else (if items[0].sequenceNumber > n then [items[0]] else []) + Later(items[1..], n)
  }

  lemma LaterStep(items: seq<Item>, i: nat, n: int)
    requires i < |items|
    ensures Later(items[i..], n) ==
            (if items[i].sequenceNumber > n then [items[i]] else []) + Later(items[i + 1..], n)
  {
    assert items[i..][1..] == items[i + 1..];
  }

  lemma LaterNone(n: int)
    ensures Later([], n) == []
  {
  }

  lemma {:induction false} LaterFrom(items: seq<Item>, a: nat, n: int)
    requires a <= |items| && forall i :: 0 <= i < |items| ==> items[i].sequenceNumber == i + 1
    ensures Later(items[a..], n) == items[if n < a then a else if n < |items| then n else |items|..]
    decreases |items| - a
  {
    if a < |items| {
      LaterFrom(items, a + 1, n);
      assert items[a..][0] == items[a] && items[a..][1..] == items[a + 1..];
      if n <= a {
        assert items[a..] == [items[a]] + items[a + 1..];
      }
    }
  }

  lemma SyncSeen(ops: seq<Op>, last: Option<int>)
    ensures var after := ops + [Sync(last)];
      && RegisteredAfter(after) == RegisteredAfter(ops) && ChangesSeen(after) == ChangesSeen(ops)
      && (last.None? ==> Acknowledged(after) == Acknowledged(ops))
      && (last.Some? ==>
            var a, all := Acknowledged(ops), |ChangesSeen(ops)|;
            a <= all && Acknowledged(after) == if last.value < a then a else if last.value < all then last.value else all)
  {
    assert (ops + [Sync(last)])[..|ops|] == ops;
    AcknowledgedBound(ops);
  }

  lemma OtherSeen(ops: seq<Op>, op: Op)
    requires op.OpenStream? || op.CloseStream?
    ensures var after := ops + [op];
      && RegisteredAfter(after) == RegisteredAfter(ops) && ChangesSeen(after) == ChangesSeen(ops)
      && Acknowledged(after) == Acknowledged(ops)
  {
    assert (ops + [op])[..|ops|] == ops;
  }

  lemma StillDelivered(ops: seq<Op>, op: Op, span: Span, written: seq<Event>)
    requires Delivered(ops, span, written) && !op.Change?
    ensures Delivered(ops + [op], span, written)
  {
    var after := ops + [op];
    assert after[..|ops|] == ops && after[..span.since] == ops[..span.since];
    if span.until.Some? {
      assert after[..span.until.value] == ops[..span.until.value];
    }
  }

  /** The queue flushed at opening is what the new stream should have. */
  lemma FlushDelivered(ops: seq<Op>, keys: set<string>, next: int, queue: seq<Item>, written: seq<Event>)
    requires Accounted(ops, keys, next, queue)
    requires |written| == |queue|
    requires forall k :: 0 <= k < |queue| ==> written[k] == Event(queue[k].elementId, queue[k].vqt)
    ensures Delivered(ops + [OpenStream], Span(|ops|, None), written)
  {
    OtherSeen(ops, OpenStream);
    assert (ops + [OpenStream])[..|ops|] == ops;
    assert written == ChangesSeen(ops)[Acknowledged(ops)..];
  }

  // ---- What a subscription holds ----

  /** The registered elements, the next number and the queue are what the history makes them. */
  ghost predicate Accounted(ops: seq<Op>, keys: set<string>, next: int, queue: seq<Item>) {
    && keys == RegisteredAfter(ops)
    && next == |ChangesSeen(ops)| + 1
    && Acknowledged(ops) <= |ChangesSeen(ops)|
    && queue == Numbered(ChangesSeen(ops))[Acknowledged(ops)..]
  }

  lemma StillAccounted(ops: seq<Op>, op: Op, keys: set<string>, next: int, queue: seq<Item>)
    requires Accounted(ops, keys, next, queue) && (op.OpenStream? || op.CloseStream?)
    ensures Accounted(ops + [op], keys, next, queue)
  {
    hide RegisteredAfter, ChangesSeen, Acknowledged, Numbered;
    OtherSeen(ops, op);
  }

  lemma ChangeAccounted(ops: seq<Op>, e: string, v: string, keys: set<string>, next: int, queue: seq<Item>)
    requires Accounted(ops, keys, next, queue)
    ensures e in keys <==> e in RegisteredAfter(ops)
    ensures if e in keys then Accounted(ops + [Change(e, v)], keys, next + 1, queue + [Item(next, e, v)])
            else Accounted(ops + [Change(e, v)], keys, next, queue)
  {
    hide RegisteredAfter, ChangesSeen, Acknowledged, Numbered;
    ChangeSeen(ops, e, v);
    if e in keys {
      assert Numbered(ChangesSeen(ops) + [Event(e, v)]) == Numbered(ChangesSeen(ops)) + [Item(next, e, v)];
    }
  }

  // ---- All streams of a subscription ----

  /** Every stream has received what it should have, and at most one is open. */
  ghost predicate StreamsOk(ops: seq<Op>, spans: seq<Span>, responses: seq<seq<Event>>, active: Option<nat>) {
    && |spans| == |responses|
    && (forall k :: 0 <= k < |spans| ==> Delivered(ops, spans[k], responses[k]))
    && (forall k :: 0 <= k < |spans| ==> (spans[k].until.None? <==> active == Some(k)))
    && (active.Some? ==> active.value < |responses|)
  }

  lemma NoStreams()
    ensures StreamsOk([], [], [], None)
  {
  }

  lemma ActiveIsOne(ops: seq<Op>, spans: seq<Span>, responses: seq<seq<Event>>, active: Option<nat>)
    requires StreamsOk(ops, spans, responses, active)
    ensures |spans| == |responses| && (active.Some? ==> active.value < |responses|)
  {
  }

  lemma StreamsStill(ops: seq<Op>, op: Op, spans: seq<Span>, responses: seq<seq<Event>>, active: Option<nat>)
    requires StreamsOk(ops, spans, responses, active) && !op.Change?
    ensures StreamsOk(ops + [op], spans, responses, active)
  {
    hide Delivered;
    forall k | 0 <= k < |spans| ensures Delivered(ops + [op], spans[k], responses[k]) {
      StillDelivered(ops, op, spans[k], responses[k]);
    }
  }

  lemma StreamsChanged(ops: seq<Op>, e: string, v: string, spans: seq<Span>, responses: seq<seq<Event>>,
                       active: Option<nat>)
    requires StreamsOk(ops, spans, responses, active)
    ensures var responses' :=
      if active.Some? && e in RegisteredAfter(ops)
      then responses[active.value := responses[active.value] + [Event(e, v)]] else responses;
      StreamsOk(ops + [Change(e, v)], spans, responses', active)
  {
    hide Delivered, RegisteredAfter;
    forall k | 0 <= k < |spans|
      ensures var seen := spans[k].until.None? && e in RegisteredAfter(ops);
        Delivered(ops + [Change(e, v)], spans[k], if seen then responses[k] + [Event(e, v)] else responses[k])
    {
      ChangeDelivered(ops, e, v, spans[k], responses[k]);
    }
  }

  lemma StreamOpened(ops: seq<Op>, spans: seq<Span>, responses: seq<seq<Event>>, written: seq<Event>)
    requires StreamsOk(ops, spans, responses, None)
    requires Delivered(ops + [OpenStream], Span(|ops|, None), written)
    ensures StreamsOk(ops + [OpenStream], spans + [Span(|ops|, None)], responses + [written], Some(|responses|))
  {
    hide Delivered;
    forall k | 0 <= k < |spans| ensures Delivered(ops + [OpenStream], spans[k], responses[k]) {
      StillDelivered(ops, OpenStream, spans[k], responses[k]);
    }
  }

  lemma StreamEnded(ops: seq<Op>, spans: seq<Span>, responses: seq<seq<Event>>, active: Option<nat>)
    requires StreamsOk(ops, spans, responses, active)
    ensures var spans' :=
      if active.Some? then spans[active.value := spans[active.value].(until := Some(|ops|))] else spans;
      StreamsOk(ops + [CloseStream], spans', responses, None)
  {
    hide Delivered;
    forall k | 0 <= k < |spans| ensures Delivered(ops + [CloseStream], spans[k], responses[k]) {
      StillDelivered(ops, CloseStream, spans[k], responses[k]);
    }
    if active.Some? {
      ClosedDelivered(ops, spans[active.value], responses[active.value]);
    }
  }

  lemma ClosedDelivered(ops: seq<Op>, span: Span, written: seq<Event>)
    requires Delivered(ops, span, written) && span.until.None?
    ensures Delivered(ops + [CloseStream], span.(until := Some(|ops|)), written)
  {
    var after := ops + [CloseStream];
    assert after[..|ops|] == ops && after[..span.since] == ops[..span.since];
  }

  lemma RegistrationSeen(ops: seq<Op>, op: Op)
    requires op.Register? || op.Unregister?
    ensures var after := ops + [op];
      && ChangesSeen(after) == ChangesSeen(ops) && Acknowledged(after) == Acknowledged(ops)
      && RegisteredAfter(after) ==
           if op.Register? then RegisteredAfter(ops) + {op.elementId} else RegisteredAfter(ops) - {op.elementId}
  {
    assert (ops + [op])[..|ops|] == ops;
  }

  // ---- One subscription ----

  class Subscription {
    const clientId: string
    var registered: map<string, int>
    var queue: seq<Item>
    var next: int
    /** The open stream, as an index into the responses so far. */
    var active: Option<nat>
    /** What has been written to each stream. */
    var responses: seq<seq<Event>>
    ghost var spans: seq<Span>
    ghost var ops: seq<Op>

    ghost predicate Valid()
      reads this
    {
      Accounted(ops, registered.Keys, next, queue) && StreamsOk(ops, spans, responses, active)
    }

    /**
     * Everything ever seen is the acknowledged part followed by the queue, and
     * the queue is numbered consecutively up to the last number given out.
     */
    lemma QueueIsTheRest()
      requires Valid()
      ensures Numbered(ChangesSeen(ops))[..Acknowledged(ops)] + queue == Numbered(ChangesSeen(ops))
      ensures forall i :: 0 <= i < |queue| ==> queue[i].sequenceNumber == next - |queue| + i
    {
      hide ChangesSeen, Acknowledged;
    }

    constructor (clientId: string)
      ensures Valid() && ops == [] && this.clientId == clientId && active.None?
    {
      this.clientId := clientId;
      registered, queue, next, active, responses, spans, ops := map[], [], 1, None, [], [], [];
      NoStreams();
    }

    method RegisterOne(elementId: string, maxDepth: int)
      requires Valid()
      modifies this
      ensures Valid() && ops == old(ops) + [Register(elementId)]
    {
      hide RegisteredAfter, ChangesSeen, Acknowledged, StreamsOk, Numbered;
      RegistrationSeen(ops, Register(elementId));
      StreamsStill(ops, Register(elementId), spans, responses, active);
      registered := registered[elementId := maxDepth];
      ops := ops + [Register(elementId)];
    }

    method UnregisterOne(elementId: string)
      requires Valid()
      modifies this
      ensures Valid() && ops == old(ops) + [Unregister(elementId)]
    {
      hide RegisteredAfter, ChangesSeen, Acknowledged, StreamsOk, Numbered;
      RegistrationSeen(ops, Unregister(elementId));
      StreamsStill(ops, Unregister(elementId), spans, responses, active);
      registered := registered - {elementId};
      ops := ops + [Unregister(elementId)];
    }

    method ValueChanged(elementId: string, vqt: string)
      requires Valid()
      modifies this
      ensures Valid() && ops == old(ops) + [Change(elementId, vqt)]
    {
      hide RegisteredAfter, Accounted, StreamsOk;
      ChangeAccounted(ops, elementId, vqt, registered.Keys, next, queue);
      ActiveIsOne(ops, spans, responses, active);
      StreamsChanged(ops, elementId, vqt, spans, responses, active);
      if elementId in registered {
        var item := Item(next, elementId, vqt);
        next := next + 1;
        queue := queue + [item];
        if active.Some? {
          responses := responses[active.value := responses[active.value] + [Event(elementId, vqt)]];
        }
      }
      ops := ops + [Change(elementId, vqt)];
    }

    /** Drop what is acknowledged, return what is left. */
    method SyncFrom(last: Option<int>) returns (items: seq<Item>)
      requires Valid()
      modifies this
      ensures Valid() && ops == old(ops) + [Sync(last)]
      ensures items == Numbered(ChangesSeen(ops))[Acknowledged(ops)..]
    {
      hide RegisteredAfter, ChangesSeen, Acknowledged, StreamsOk;
      SyncSeen(ops, last);
      StreamsStill(ops, Sync(last), spans, responses, active);
      if last.Some? {
        LaterFrom(Numbered(ChangesSeen(ops)), Acknowledged(ops), last.value);
        queue := Filter(queue, last.value);
      }
      ops := ops + [Sync(last)];
      items := queue;
    }

    static method Filter(queue: seq<Item>, last: int) returns (kept: seq<Item>)
      ensures kept == Later(queue, last)
    {
      hide Later;
      kept := [];
      assert queue[0..] == queue;
      for i := 0 to |queue|
        invariant Later(queue, last) == kept + Later(queue[i..], last)
      {
        LaterStep(queue, i, last);
        if queue[i].sequenceNumber > last {
          kept := kept + [queue[i]];
        }
      }
      assert queue[|queue|..] == [];
      LaterNone(last);
    }

    /** Open a stream and flush the queue to it; a second one at a time is refused. */
    method Stream() returns (ok: bool)
      requires Valid()
      modifies this
      ensures Valid()
      ensures ok == old(active.None?)
      ensures ops == if ok then old(ops) + [OpenStream] else old(ops)
      ensures ok ==> active == Some(|old(responses)|) && |responses| == |old(responses)| + 1
    {
      if active.Some? {
        return false;
      }
      hide Accounted, StreamsOk, Delivered;
      StillAccounted(ops, OpenStream, registered.Keys, next, queue);
      ActiveIsOne(ops, spans, responses, active);
      var flushed := Flush(queue);
      FlushDelivered(ops, registered.Keys, next, queue, flushed);
      StreamOpened(ops, spans, responses, flushed);
      active := Some(|responses|);
      responses, spans := responses + [flushed], spans + [Span(|ops|, None)];
      ops := ops + [OpenStream];
      ok := true;
    }

    static method Flush(queue: seq<Item>) returns (written: seq<Event>)
      ensures |written| == |queue|
      ensures forall k :: 0 <= k < |queue| ==> written[k] == Event(queue[k].elementId, queue[k].vqt)
    {
      written := [];
      for i := 0 to |queue|
        invariant |written| == i
        invariant forall k :: 0 <= k < i ==> written[k] == Event(queue[k].elementId, queue[k].vqt)
      {
        written := written + [Event(queue[i].elementId, queue[i].vqt)];
      }
    }

    method StreamClosed()
      requires Valid()
      modifies this
      ensures Valid() && active.None? && ops == old(ops) + [CloseStream]
    {
      hide Accounted, StreamsOk;
      StillAccounted(ops, CloseStream, registered.Keys, next, queue);
      ActiveIsOne(ops, spans, responses, active);
      StreamEnded(ops, spans, responses, active);
      if active.Some? {
        spans := spans[active.value := spans[active.value].(until := Some(|ops|))];
        active := None;
      }
      ops := ops + [CloseStream];
    }
  }

  // ---- All subscriptions ----

  datatype Status = Fine | NotFound | Forbidden

  class Manager {
    var subs: map<string, Subscription>

    ghost function Objects(): set<object>
      reads this
    {
      set k | k in subs :: subs[k]
    }

    /** No two subscriptions share an object, and each meets its specification. */
    ghost predicate Valid()
      reads this, Objects()
    {
      && (forall j, k :: j in subs && k in subs && j != k ==> subs[j] != subs[k])
      && (forall k :: k in subs ==> subs[k].Valid())
    }

    constructor ()
      ensures Valid() && subs == map[]
    {
      subs := map[];
    }

    method Create(clientId: string, id: string)
      requires Valid() && id !in subs
      modifies this
      ensures Valid() && id in subs && subs == old(subs)[id := subs[id]]
      ensures fresh(subs[id]) && subs[id].ops == [] && subs[id].clientId == clientId
    {
      var sub := new Subscription(clientId);
      subs := subs[id := sub];
    }

    method GetAndVerify(clientId: string, id: string) returns (st: Status)
      ensures st == if id !in subs then NotFound else if subs[id].clientId != clientId then Forbidden else Fine
    {
      if id !in subs {
        return NotFound;
      }
      st := if subs[id].clientId != clientId then Forbidden else Fine;
    }

    /** A change reaches every subscription exactly once. */
    method OnValueChange(elementId: string, vqt: string)
      requires Valid()
      modifies Objects()
      ensures Valid() && subs == old(subs)
      ensures forall k :: k in subs ==> subs[k].ops == old(subs[k].ops) + [Change(elementId, vqt)]
    {
      hide Subscription.Valid, RegisteredAfter, ChangesSeen, Acknowledged, Delivered;
      var todo := subs.Keys;
      while todo != {}
        invariant Valid() && subs == old(subs) && todo <= subs.Keys
        invariant forall k :: k in subs ==>
          subs[k].ops == if k in todo then old(subs[k].ops) else old(subs[k].ops) + [Change(elementId, vqt)]
      {
        var k :| k in todo;
        subs[k].ValueChanged(elementId, vqt);
        todo := todo - {k};
      }
    }

    /** Only what is left of one client's own subscription is handed out; nothing else is touched. */
    method Poll(clientId: string, id: string, last: Option<int>) returns (st: Status, items: seq<Item>)
      requires Valid()
      modifies Objects()
      ensures Valid() && subs == old(subs)
      ensures st == Fine <==> id in subs && subs[id].clientId == clientId
      ensures forall k :: k in subs && (k != id || st != Fine) ==> subs[k].ops == old(subs[k].ops)
      ensures st == Fine ==> subs[id].ops == old(subs[id].ops) + [Sync(last)]
      ensures st == Fine ==> items == Numbered(ChangesSeen(subs[id].ops))[Acknowledged(subs[id].ops)..]
    {
      items := [];
      st := GetAndVerify(clientId, id);
      if st == Fine {
        items := subs[id].SyncFrom(last);
      }
    }

    /** Expiry and deletion: the subscription is gone, the others are as they were. */
    method Expire(id: string)
      requires Valid()
      modifies this, if id in subs then {subs[id]} else {}
      ensures Valid() && subs == old(subs) - {id}
      ensures forall k :: k in subs ==> subs[k].ops == old(subs[k].ops)
      ensures id in old(subs) ==> old(subs)[id].active.None? && old(subs)[id].queue == []
    {
      if id in subs {
        var sub := subs[id];
        sub.StreamClosed();
        sub.queue := [];
      }
      subs := subs - {id};
    }
  }
}
