/** The Redis outbox and its publisher (app/infrastructure/capability/outbox/redis_outbox.py,
    app/core/messaging/outbox.py). */
module OutboxStore {
  import opened Wrappers

  // JSON values, as far as the outbox looks into them.
  datatype Value = Text(text: string) | Object(fields: map<string, Value>)

  datatype Event = Event(typeName: string, fields: map<string, Value>) {
    function Id(): (id: string)
      ensures forall text :: "event_id" in fields && fields["event_id"] == Text(text) ==> id == text
      ensures id != "" ==> "event_id" in fields && fields["event_id"] == Text(id)
    {
      if "event_id" in fields && fields["event_id"].Text? then fields["event_id"].text else ""
    }
  }

  /** The event classes by name; a class refuses fields that do not validate. */
  type Classes = map<string, map<string, Value> -> Option<Event>>

  type Decoder = Value -> Option<Event>

  /** The reader expects an envelope with a type and data; whatever else it meets it skips. */
  function Decode(classes: Classes, v: Value): Option<Event> {
    if v.Text? then None
    else
      var name := if "type" in v.fields then v.fields["type"] else Text("");
      var payload := if "data" in v.fields then v.fields["data"] else Object(map[]);
      if name.Object? || name.text !in classes || payload.Text? then None
      else classes[name.text](payload.fields)
  }

  function DecoderOf(classes: Classes): Decoder {
    v => Decode(classes, v)
  }

  /** What append stores: the bare fields of the event. */
  function Dump(event: Event): Value {
    Object(event.fields)
  }

  // ----- Selection and decoding -----------------------------------------------------------

  /** The ids not yet dispatched, in order. */
  function Undone(ids: seq<string>, done: set<string>): seq<string> {
    if ids == [] then []
    else
      var front, last := ids[..|ids| - 1], ids[|ids| - 1];
      if last in done then Undone(front, done) else Undone(front, done) + [last]
  }

  function Take<T>(s: seq<T>, n: int): seq<T>
    requires n >= 0
  {
    if n < |s| then s[..n] else s
  }

  /** The first limit of them. A limit below 1 still looks at one id. */
  function Selected(pending: seq<string>, done: set<string>, limit: int): seq<string> {
    if limit >= 1 then Take(Undone(pending, done), limit) else Undone(Take(pending, 1), done)
  }

  predicate Decodes(decode: Decoder, store: map<string, Value>, id: string) {
    id in store && decode(store[id]).Some?
  }

  function Decoded(decode: Decoder, store: map<string, Value>, ids: seq<string>): seq<Event> {
    if ids == [] then []
    else
      var front, last := ids[..|ids| - 1], ids[|ids| - 1];
      Decoded(decode, store, front) + if Decodes(decode, store, last) then [decode(store[last]).value] else []
  }

  lemma UndoneNext(ids: seq<string>, id: string, done: set<string>)
    ensures Undone(ids + [id], done) == if id in done then Undone(ids, done) else Undone(ids, done) + [id]
  {
    assert (ids + [id])[..|ids|] == ids;
  }

  lemma {:induction false} UndonePrefix(ids: seq<string>, k: nat, done: set<string>)
    requires k <= |ids|
    ensures Undone(ids[..k], done) <= Undone(ids, done)
  {
    if k < |ids| {
      UndonePrefix(ids[..|ids| - 1], k, done);
      assert ids[..|ids| - 1][..k] == ids[..k];
    } else {
      assert ids[..k] == ids;
    }
  }

  lemma OneMoreUndone(pending: seq<string>, i: nat, done: set<string>)
    requires 0 < i <= |pending|
    ensures |Undone(pending[..i], done)| <= |Undone(pending[..i - 1], done)| + 1
    ensures i == 1 ==> |Undone(pending[..i], done)| <= 1
  {
    assert pending[..i] == pending[..i - 1] + [pending[i - 1]];
    UndoneNext(pending[..i - 1], pending[i - 1], done);
  }

  lemma AllUpTo(pending: seq<string>, i: nat, done: set<string>)
    requires i <= |pending|
    ensures Undone(pending[..i], done) <= Undone(pending, done)
    ensures i == |pending| ==> Undone(pending[..i], done) == Undone(pending, done)
  {
    UndonePrefix(pending, i, done);
    assert pending[..|pending|] == pending;
    hide Undone;
  }

  /** Stopping after the i-th id, once limit ids have been found, yields the selection. */
  lemma StopsAt(pending: seq<string>, i: nat, done: set<string>, limit: int)
    requires i <= |pending| && (i < |pending| ==> i > 0 && |Undone(pending[..i], done)| >= limit)
    requires i > 1 ==> |Undone(pending[..i - 1], done)| < limit
    ensures Undone(pending[..i], done) == Selected(pending, done, limit)
  {
    assert Undone([], done) == [];
    hide Undone;
    if limit >= 1 {
      if i > 0 {
        OneMoreUndone(pending, i, done);
      }
      AllUpTo(pending, i, done);
    } else if i > 0 {
      assert Take(pending, 1) == pending[..1];
    }
  }

  lemma DecodedNext(decode: Decoder, store: map<string, Value>, ids: seq<string>, id: string)
    ensures Decoded(decode, store, ids + [id]) ==
            if Decodes(decode, store, id) then Decoded(decode, store, ids) + [decode(store[id]).value]
            else Decoded(decode, store, ids)
  {
    assert (ids + [id])[..|ids|] == ids;
  }

  class RedisOutbox {
    const classes: Classes
    var store: map<string, Value>
    var pending: seq<string>
    var done: set<string>

    constructor (classes: Classes)
      ensures this.classes == classes && store == map[] && pending == [] && done == {}
    {
      this.classes, store, pending, done := classes, map[], [], {};
    }

    method Append(event: Event)
      modifies this`store, this`pending
      ensures store == old(store)[event.Id() := Dump(event)] && pending == old(pending) + [event.Id()]
    {
      store := store[event.Id() := Object(event.fields)];
      pending := pending + [event.Id()];
    }

    method MarkDispatched(id: string)
      modifies this`done
      ensures done == old(done) + {id}
    {
      done := done + {id};
    }

    // The two loops of NextUndispatched: choosing ids, then loading their events.

    method FirstUndispatched(limit: int) returns (undispatched: seq<string>)
      ensures undispatched == Selected(pending, done, limit)
    {
      assert Undone([], done) == [];
      hide Undone, Selected;
      undispatched := [];
      var i := 0;
      while i < |pending|
        invariant 0 <= i <= |pending|
        invariant undispatched == Undone(pending[..i], done)
        invariant i > 1 ==> |Undone(pending[..i - 1], done)| < limit
        invariant 0 < i < |pending| ==> |undispatched| < limit
      {
        assert pending[..i + 1] == pending[..i] + [pending[i]];
        UndoneNext(pending[..i], pending[i], done);
        if pending[i] !in done {
          undispatched := undispatched + [pending[i]];
        }
        i := i + 1;
        if |undispatched| >= limit {
          break;
        }
      }
      StopsAt(pending, i, done, limit);
    }

    method Load(ids: seq<string>) returns (events: seq<Event>)
      ensures events == Decoded(DecoderOf(classes), store, ids)
    {
      hide Decode;
      events := [];
      for k := 0 to |ids|
        invariant events == Decoded(DecoderOf(classes), store, ids[..k])
      {
        assert ids[..k + 1] == ids[..k] + [ids[k]];
        DecodedNext(DecoderOf(classes), store, ids[..k], ids[k]);
        if ids[k] in store {
          var decoded := Decode(classes, store[ids[k]]);
          if decoded.Some? {
            events := events + [decoded.value];
          }
        }
      }
      assert ids[..|ids|] == ids;
    }

    method NextUndispatched(limit: int) returns (events: seq<Event>)
      ensures events == Decoded(DecoderOf(classes), store, Selected(pending, done, limit))
    {
      var undispatched := FirstUndispatched(limit);
      events := Load(undispatched);
    }
  }

  // ----- Publishing -------------------------------------------------------------------------

  datatype Fault = Fine | PublishFails | MarkFails

  /** An event the bus has accepted, and whether its id was then marked. */
  datatype Delivery = Delivery(event: Event, marked: bool)

  datatype Outbox = Outbox(
    store: map<string, Value>, pending: seq<string>, done: set<string>, published: seq<Delivery>)

  /** Publishes and marks one event; a failure leaves it for later. */
  function DeliveredOne(s: Outbox, event: Event, fault: Fault): Outbox {
    match fault
    case Fine => s.(published := s.published + [Delivery(event, true)], done := s.done + {event.Id()})
    case PublishFails => s
    case MarkFails => s.(published := s.published + [Delivery(event, false)])
  }

  function Delivered(s: Outbox, events: seq<Event>, faults: nat -> Fault): Outbox {
    if events == [] then s
    else
      var n := |events| - 1;
      DeliveredOne(Delivered(s, events[..n], faults), events[n], faults(n))
  }

  lemma DeliveredNext(s: Outbox, events: seq<Event>, event: Event, faults: nat -> Fault)
    ensures Delivered(s, events + [event], faults) == DeliveredOne(Delivered(s, events, faults), event, faults(|events|))
  {
    assert (events + [event])[..|events|] == events;
  }

  function Dispatched(decode: Decoder, s: Outbox, limit: int, faults: nat -> Fault): Outbox {
    Delivered(s, Decoded(decode, s.store, Selected(s.pending, s.done, limit)), faults)
  }

  /** `limit or batch_size` */
  function BatchLimit(limit: Option<int>, batchSize: int): int {
    if limit.None? || limit.value == 0 then batchSize else limit.value
  }

  function Marked(deliveries: seq<Delivery>): nat {
    if deliveries == [] then 0
    else Marked(deliveries[..|deliveries| - 1]) + if deliveries[|deliveries| - 1].marked then 1 else 0
  }

  lemma MarkedNext(deliveries: seq<Delivery>, d: Delivery)
    ensures Marked(deliveries + [d]) == Marked(deliveries) + if d.marked then 1 else 0
  {
    assert (deliveries + [d])[..|deliveries|] == deliveries;
  }

  lemma MarkedAfter(s: Outbox, event: Event, fault: Fault)
    ensures Marked(DeliveredOne(s, event, fault).published) == Marked(s.published) + if fault == Fine then 1 else 0
  {
    MarkedNext(s.published, Delivery(event, fault == Fine));
  }

  class OutboxPublisher {
    const outbox: RedisOutbox
    const batchSize: int
    var published: seq<Delivery>
    var counted: nat

    constructor (outbox: RedisOutbox, batchSize: int)
      ensures this.outbox == outbox && this.batchSize == batchSize && published == [] && counted == 0
    {
      this.outbox, this.batchSize, published, counted := outbox, batchSize, [], 0;
    }

    ghost function State(): Outbox
      reads this, outbox
    {
      Outbox(outbox.store, outbox.pending, outbox.done, published)
    }

    /** One pass through the try block; true if it got to the end. */
    method DispatchOne(event: Event, fault: Fault) returns (done: bool)
      modifies this`published, outbox`done
      ensures State() == DeliveredOne(old(State()), event, fault)
      ensures done <==> fault == Fine
    {
      if fault == PublishFails {
        return false;
      }
      if fault == MarkFails {
        published := published + [Delivery(event, false)];
        return false;
      }
      published := published + [Delivery(event, true)];
      outbox.MarkDispatched(event.Id());
      return true;
    }

    method DispatchPending(limit: Option<int>, faults: nat -> Fault) returns (delivered: nat)
      modifies this, outbox`done
      ensures State() == Dispatched(DecoderOf(outbox.classes), old(State()), BatchLimit(limit, batchSize), faults)
      ensures Marked(published) == Marked(old(published)) + delivered && counted == old(counted) + delivered
    {
      ghost var before := State();
      assert Delivered(before, [], faults) == before;
      var pending := outbox.NextUndispatched(if limit.None? || limit.value == 0 then batchSize else limit.value);
      hide Delivered, Marked, Decoded, Selected, DecoderOf;
      delivered := 0;
      for k := 0 to |pending|
        invariant State() == Delivered(before, pending[..k], faults)
        invariant Marked(published) == Marked(before.published) + delivered && counted == old(counted)
      {
        assert pending[..k + 1] == pending[..k] + [pending[k]];
        DeliveredNext(before, pending[..k], pending[k], faults);
        MarkedAfter(State(), pending[k], faults(k));
        var done := DispatchOne(pending[k], faults(k));
        if done {
          delivered := delivered + 1;
        }
      }
      assert pending[..|pending|] == pending;
      counted := counted + delivered;
    }
  }
}
