/** Draining the outbox in order, how often an event is published, and what append stores. */
module OutboxDrain {
  import opened Wrappers
  import opened OutboxStore
  import opened OutboxRuns

  predicate Distinct(ids: seq<string>) {
    forall i, j :: 0 <= i < j < |ids| ==> ids[i] != ids[j]
  }

  /** Successful deliveries of these events. */
  function Sent(events: seq<Event>): seq<Delivery> {
    seq(|events|, i requires 0 <= i < |events| => Delivery(events[i], true))
  }

  function IdsOf(events: seq<Event>): set<string> {
    set e | e in events :: e.Id()
  }

  function SetOf(ids: seq<string>): set<string> {
    set id | id in ids
  }

  // ----- Drain ------------------------------------------------------------------------------

  lemma {:induction false} WorkingPublishes(s: Outbox, events: seq<Event>)
    ensures Delivered(s, events, WORKING) ==
            s.(published := s.published + Sent(events), done := s.done + IdsOf(events))
  {
    if events == [] {
      assert s.published + Sent(events) == s.published && s.done + IdsOf(events) == s.done;
    } else {
      var front, last := events[..|events| - 1], events[|events| - 1];
      WorkingPublishes(s, front);
      assert Sent(events) == Sent(front) + [Delivery(last, true)];
      assert IdsOf(events) == IdsOf(front) + {last.Id()} by {
        assert forall e :: e in events <==> e in front || e == last;
      }
    }
  }

  predicate AllDecode(decode: Decoder, s: Outbox) {
    forall id :: id in s.pending ==> Decodes(decode, s.store, id)
  }

  lemma {:induction false} DecodedAll(decode: Decoder, store: map<string, Value>, ids: seq<string>)
    requires forall id :: id in ids ==> Decodes(decode, store, id) && decode(store[id]).value.Id() == id
    ensures |Decoded(decode, store, ids)| == |ids|
    ensures forall k :: 0 <= k < |ids| ==> Decoded(decode, store, ids)[k].Id() == ids[k]
  {
    if ids != [] {
      var front, last := ids[..|ids| - 1], ids[|ids| - 1];
      assert last in ids && forall id :: id in front ==> id in ids;
      assert ids == front + [last];
      hide Decoded, Decodes;
      DecodedAll(decode, store, front);
      DecodedNext(decode, store, front, last);
    } else {
      assert Decoded(decode, store, []) == [];
    }
  }

  lemma SameIds(events: seq<Event>, ids: seq<string>)
    requires |events| == |ids| && forall k :: 0 <= k < |ids| ==> events[k].Id() == ids[k]
    ensures IdsOf(events) == SetOf(ids)
  {
    forall id ensures id in IdsOf(events) <==> id in SetOf(ids) {
      if k :| 0 <= k < |ids| && ids[k] == id {
        assert events[k] in events;
      }
      if e :| e in events && e.Id() == id {
        var k :| 0 <= k < |events| && events[k] == e;
        assert ids[k] == id;
      }
    }
  }

  lemma {:induction false} DecodedConcat(decode: Decoder, store: map<string, Value>, ids: seq<string>, more: seq<string>)
    ensures Decoded(decode, store, ids + more) == Decoded(decode, store, ids) + Decoded(decode, store, more)
  {
    if more == [] {
      assert ids + more == ids;
    } else {
      var n := |more| - 1;
      assert ids + more == ids + more[..n] + [more[n]];
      DecodedNext(decode, store, ids + more[..n], more[n]);
      DecodedConcat(decode, store, ids, more[..n]);
    }
  }

  lemma {:induction false} UndoneAgain(ids: seq<string>, done: set<string>, more: set<string>)
    ensures Undone(ids, done + more) == Undone(Undone(ids, done), more)
  {
    if ids == [] {
    } else {
      var front, last := ids[..|ids| - 1], ids[|ids| - 1];
      UndoneAgain(front, done, more);
      UndoneNext(Undone(front, done), last, more);
    }
  }

  lemma {:induction false} UndoneDistinct(ids: seq<string>, done: set<string>)
    requires Distinct(ids)
    ensures Distinct(Undone(ids, done))
  {
    if ids == [] {
    } else {
      var front, last := ids[..|ids| - 1], ids[|ids| - 1];
      UndoneDistinct(front, done);
      UndoneOnly(front, done, last);
      hide Undone;
      UndoneNext(front, last, done);
      assert ids == front + [last];
    }
  }

  lemma {:induction false} AllOrNone(ids: seq<string>, done: set<string>)
    ensures (forall id :: id in ids ==> id in done) ==> Undone(ids, done) == []
    ensures (forall id :: id in ids ==> id !in done) ==> Undone(ids, done) == ids
  {
    if ids == [] {
    } else {
      var front, last := ids[..|ids| - 1], ids[|ids| - 1];
      assert forall id :: id in front ==> id in ids;
      AllOrNone(front, done);
      assert front + [last] == ids;
    }
  }

  /** Marking the first k of distinct ids leaves the rest. */
  lemma FirstDone(ids: seq<string>, k: nat)
    requires Distinct(ids) && k <= |ids|
    ensures Undone(ids, SetOf(ids[..k])) == ids[k..]
  {
    hide Undone;
    assert ids == ids[..k] + ids[k..];
    UndoneConcat(ids[..k], ids[k..], SetOf(ids[..k]));
    AllOrNone(ids[..k], SetOf(ids[..k]));
    AllOrNone(ids[k..], SetOf(ids[..k]));
  }

  function Remaining(s: Outbox): seq<string> {
    Undone(s.pending, s.done)
  }

  predicate Orderly(decode: Decoder, s: Outbox) {
    Distinct(s.pending) && AllDecode(decode, s) && Honest(decode, s)
  }

  /** One round publishes and marks the first limit entries that remain. */
  lemma RoundDrains(decode: Decoder, s: Outbox, limit: nat)
    requires limit >= 1 && Orderly(decode, s)
    ensures var s', sent := Dispatched(decode, s, limit, WORKING), Take(Remaining(s), limit);
            && s' == s.(published := s.published + Sent(Decoded(decode, s.store, sent)), done := s.done + SetOf(sent))
            && Remaining(s') == Remaining(s)[|sent|..]
  {
    var all, sent := Remaining(s), Take(Remaining(s), limit);
    forall id ensures id in all ==> id in s.pending {
      UndoneOnly(s.pending, s.done, id);
    }
    UndoneDistinct(s.pending, s.done);
    UndoneAgain(s.pending, s.done, SetOf(sent));
    hide Undone, Delivered, Decoded, Decodes;
    assert sent == all[..|sent|];
    DecodedAll(decode, s.store, sent);
    SameIds(Decoded(decode, s.store, sent), sent);
    WorkingPublishes(s, Decoded(decode, s.store, sent));
    FirstDone(all, |sent|);
  }

  function Total(limit: nat, n: nat): nat {
    if n == 0 then 0 else limit + Total(limit, n - 1)
  }

  lemma {:induction false} TotalIsProduct(limit: nat, n: nat)
    ensures Total(limit, n) == n * limit
  {
    if n == 0 {
    } else {
      TotalIsProduct(limit, n - 1);
      assert n * limit == (n - 1) * limit + limit;
    }
  }

  /** From s to s', the first m remaining entries have been published, in order. */
  predicate Drained(decode: Decoder, s: Outbox, s': Outbox, m: nat) {
    var sent := Take(Remaining(s), m);
    && s'.published == s.published + Sent(Decoded(decode, s.store, sent))
    && Remaining(s') == Remaining(s)[|sent|..] && s'.store == s.store && s'.pending == s.pending
  }

  lemma TakeMore<T>(s: seq<T>, n: nat, m: nat)
    ensures var rest := s[|Take(s, n)|..];
            && Take(s, n + m) == Take(s, n) + Take(rest, m)
            && s[|Take(s, n + m)|..] == rest[|Take(rest, m)|..]
  {}

  lemma SentConcat(events: seq<Event>, more: seq<Event>)
    ensures Sent(events + more) == Sent(events) + Sent(more)
  {}

  lemma DrainMore(decode: Decoder, s: Outbox, mid: Outbox, s': Outbox, n: nat, m: nat)
    requires Drained(decode, s, mid, n) && Drained(decode, mid, s', m)
    ensures Drained(decode, s, s', n + m)
  {
    var first, next := Take(Remaining(s), n), Take(Remaining(mid), m);
    TakeMore(Remaining(s), n, m);
    hide Remaining, Decoded, Sent, Take;
    DecodedConcat(decode, s.store, first, next);
    SentConcat(Decoded(decode, s.store, first), Decoded(decode, s.store, next));
  }

  lemma RoundDrained(decode: Decoder, s: Outbox, limit: nat)
    requires limit >= 1 && Orderly(decode, s)
    ensures Drained(decode, s, Dispatched(decode, s, limit, WORKING), limit)
    ensures Orderly(decode, Dispatched(decode, s, limit, WORKING))
  {
    RoundDrains(decode, s, limit);
    hide Remaining, Decoded, Dispatched, Decodes, Sent, Take;
  }

  lemma {:induction false} RoundsDrain(decode: Decoder, s: Outbox, limit: nat, n: nat)
    requires limit >= 1 && Orderly(decode, s)
    ensures Drained(decode, s, Rounds(decode, s, limit, n), Total(limit, n))
    decreases n
  {
    hide Dispatched, Undone, Decodes, Honest;
    if n == 0 {
      assert Decoded(decode, s.store, []) == [] && s.published + Sent([]) == s.published;
    } else {
      hide Orderly, Drained;
      var mid, end := Dispatched(decode, s, limit, WORKING), Rounds(decode, s, limit, n);
      assert end == Rounds(decode, mid, limit, n - 1) && Total(limit, n) == limit + Total(limit, n - 1);
      hide Rounds, Total;
      RoundDrained(decode, s, limit);
      RoundsDrain(decode, mid, limit, n - 1);
      DrainMore(decode, s, mid, end, limit, Total(limit, n - 1));
    }
  }

  /** After n rounds the first n * limit entries have been published, once each and in append
      order, and exactly the others remain; so the outbox is empty once n * limit reaches
      their number, and not before. */
  lemma DrainsInOrder(decode: Decoder, s: Outbox, limit: nat, n: nat, m: nat)
    requires limit >= 1 && Orderly(decode, s) && m == n * limit
    ensures var s' := Rounds(decode, s, limit, n);
            && s'.published == s.published + Sent(Decoded(decode, s.store, Take(Remaining(s), m)))
            && Remaining(s') == (if m < |Remaining(s)| then Remaining(s)[m..] else [])
            && (Remaining(s') == [] <==> m >= |Remaining(s)|)
  {
    RoundsDrain(decode, s, limit, n);
    TotalIsProduct(limit, n);
  }

  // ----- How often an event is published ----------------------------------------------------

  function Deliveries(published: seq<Delivery>, id: string, marked: bool): nat {
    if published == [] then 0
    else
      var last := published[|published| - 1];
      Deliveries(published[..|published| - 1], id, marked) + if last.event.Id() == id && last.marked == marked then 1 else 0
  }

  lemma DeliveriesNext(published: seq<Delivery>, d: Delivery, id: string, marked: bool)
    ensures Deliveries(published + [d], id, marked) ==
            Deliveries(published, id, marked) + if d.event.Id() == id && d.marked == marked then 1 else 0
  {
    assert (published + [d])[..|published|] == published;
  }

  function Publications(published: seq<Delivery>, id: string): nat {
    if published == [] then 0
    else Publications(published[..|published| - 1], id) + if published[|published| - 1].event.Id() == id then 1 else 0
  }

  lemma {:induction false} PublicationsSplit(published: seq<Delivery>, id: string)
    ensures Publications(published, id) == Deliveries(published, id, true) + Deliveries(published, id, false)
  {
    if published == [] {
    } else {
      PublicationsSplit(published[..|published| - 1], id);
    }
  }

  function Appended(ops: seq<Op>): seq<string> {
    if ops == [] then []
    else
      var last := ops[|ops| - 1];
      Appended(ops[..|ops| - 1]) + if last.Append? then [last.event.Id()] else []
  }

  /** What is stored for an event, if it decodes at all, decodes to an event of the same id. */
  ghost predicate HonestOps(decode: Decoder, ops: seq<Op>) {
    forall op :: op in ops && op.Append? && decode(Dump(op.event)).Some? ==>
      decode(Dump(op.event)).value.Id() == op.event.Id()
  }

  ghost predicate MarkedOnce(s: Outbox) {
    forall id :: Deliveries(s.published, id, true) == if id in s.done then 1 else 0
  }

  lemma OneMarkedOnce(s: Outbox, event: Event, fault: Fault)
    requires MarkedOnce(s) && event.Id() !in s.done
    ensures MarkedOnce(DeliveredOne(s, event, fault))
    ensures DeliveredOne(s, event, fault).done <= s.done + {event.Id()}
  {
    var s' := DeliveredOne(s, event, fault);
    forall id ensures Deliveries(s'.published, id, true) == if id in s'.done then 1 else 0 {
      DeliveriesNext(s.published, Delivery(event, fault == Fine), id, true);
      assert Deliveries(s.published, id, true) == if id in s.done then 1 else 0;
      hide Deliveries;
    }
  }

  predicate DistinctEvents(events: seq<Event>) {
    forall i, j :: 0 <= i < j < |events| ==> events[i].Id() != events[j].Id()
  }

  lemma {:induction false} DeliveredMarkedOnce(s: Outbox, events: seq<Event>, faults: nat -> Fault)
    requires MarkedOnce(s) && DistinctEvents(events) && forall e :: e in events ==> e.Id() !in s.done
    ensures MarkedOnce(Delivered(s, events, faults))
    ensures forall id :: id in Delivered(s, events, faults).done ==> id in s.done || exists e :: e in events && e.Id() == id
  {
    hide MarkedOnce, DeliveredOne;
    if events == [] {
    } else {
      var n := |events| - 1;
      assert forall e :: e in events[..n] ==> e in events;
      DeliveredMarkedOnce(s, events[..n], faults);
      assert events[n] in events;
      OneMarkedOnce(Delivered(s, events[..n], faults), events[n], faults(n));
    }
  }

  lemma {:induction false} DecodedDistinct(decode: Decoder, store: map<string, Value>, ids: seq<string>)
    requires Distinct(ids)
    requires forall id :: id in ids && Decodes(decode, store, id) ==> decode(store[id]).value.Id() == id
    ensures DistinctEvents(Decoded(decode, store, ids))
    ensures forall e :: e in Decoded(decode, store, ids) ==> e.Id() in ids
  {
    if ids == [] {
    } else {
      var front, last := ids[..|ids| - 1], ids[|ids| - 1];
      assert forall id :: id in front ==> id in ids;
      DecodedDistinct(decode, store, front);
      assert last !in front;
      hide Decodes;
    }
  }

  lemma DispatchMarkedOnce(decode: Decoder, s: Outbox, limit: int, faults: nat -> Fault)
    requires MarkedOnce(s) && Distinct(s.pending) && Honest(decode, s)
    ensures MarkedOnce(Dispatched(decode, s, limit, faults))
  {
    var ids := Selected(s.pending, s.done, limit);
    UndoneDistinct(s.pending, s.done);
    UndoneDistinct(Take(s.pending, 1), s.done);
    assert Distinct(ids) by {
      hide Undone;
    }
    forall id ensures id in ids ==> id in s.pending && id !in s.done {
      SelectedArePending(s.pending, s.done, limit, id);
    }
    hide Selected, Undone, MarkedOnce, Decoded, Delivered, Decodes;
    DecodedDistinct(decode, s.store, ids);
    DeliveredMarkedOnce(s, Decoded(decode, s.store, ids), faults);
  }

  lemma {:induction false} DeliveredStores(s: Outbox, events: seq<Event>, faults: nat -> Fault)
    ensures Delivered(s, events, faults).store == s.store && Delivered(s, events, faults).pending == s.pending
  {
    if events == [] {
    } else {
      DeliveredStores(s, events[..|events| - 1], faults);
    }
  }

  lemma AppendStaysHonest(decode: Decoder, s: Outbox, event: Event)
    requires Honest(decode, s) && Distinct(s.pending + [event.Id()])
    requires decode(Dump(event)).Some? ==> decode(Dump(event)).value.Id() == event.Id()
    ensures Honest(decode, After(decode, s, Append(event)))
  {
    var s', new_ := After(decode, s, Append(event)), event.Id();
    forall id | id in s'.pending && Decodes(decode, s'.store, id) ensures decode(s'.store[id]).value.Id() == id {
      if id != new_ {
        assert id in s.pending;
      }
    }
  }

  lemma {:induction false} RunsAreHonest(decode: Decoder, ops: seq<Op>)
    requires Distinct(Appended(ops)) && HonestOps(decode, ops)
    ensures var s := Run(decode, EMPTY, ops); s.pending == Appended(ops) && Honest(decode, s)
  {
    if ops == [] {
    } else {
      var front, op := ops[..|ops| - 1], ops[|ops| - 1];
      assert op in ops && forall o :: o in front ==> o in ops;
      assert Appended(front) == Appended(ops)[..|Appended(front)|];
      RunsAreHonest(decode, front);
      var s := Run(decode, EMPTY, front);
      if op.Dispatch? {
        DeliveredStores(s, Decoded(decode, s.store, Selected(s.pending, s.done, op.limit)), op.faults);
      } else {
        AppendStaysHonest(decode, s, op.event);
      }
    }
  }

  /** If event ids are appended once, then in every run, whatever fails, each id is published
      and marked at most once, exactly once if it is done; every further publication of it is
      one whose mark failed. */
  lemma {:induction false} RepeatsAreFailedMarks(decode: Decoder, ops: seq<Op>, id: string)
    requires Distinct(Appended(ops)) && HonestOps(decode, ops)
    ensures var s := Run(decode, EMPTY, ops);
            MarkedOnce(s) && Publications(s.published, id) == Deliveries(s.published, id, false) + if id in s.done then 1 else 0
  {
    PublicationsSplit(Run(decode, EMPTY, ops).published, id);
    if ops == [] {
    } else {
      var front, op := ops[..|ops| - 1], ops[|ops| - 1];
      assert op in ops && forall o :: o in front ==> o in ops;
      assert Appended(front) == Appended(ops)[..|Appended(front)|];
      RepeatsAreFailedMarks(decode, front, id);
      RunsAreHonest(decode, front);
      if op.Dispatch? {
        hide MarkedOnce, Dispatched, Honest;
        DispatchMarkedOnce(decode, Run(decode, EMPTY, front), op.limit, op.faults);
      }
    }
  }

  // ----- What append stores, and what the reader makes of it --------------------------------

  /** What the reader expects to find: the dump in a field data, beside the type. */
  function Envelope(event: Event): Value {
    Object(map["type" := Text(event.typeName), "data" := Dump(event)])
  }

  /** An envelope around what append stores reads back as the event, if its class accepts its
      own fields: the dump keeps every field. */
  lemma EnvelopeRoundTrip(classes: Classes, event: Event)
    requires event.typeName in classes && classes[event.typeName](event.fields) == Some(event)
    ensures Decode(classes, Envelope(event)) == Some(event)
  {}

  /** The dump that append stores decodes only if the event itself has a field type, naming a
      class that accepts the event's own data field. */
  lemma DumpDecodesIff(classes: Classes, event: Event)
    ensures Decode(classes, Dump(event)).Some? <==>
            && (if "type" in event.fields then event.fields["type"].Text? && event.fields["type"].text in classes
                else "" in classes)
            && var class_ := classes[if "type" in event.fields then event.fields["type"].text else ""];
               if "data" in event.fields then event.fields["data"].Object? && class_(event.fields["data"].fields).Some?
               else class_(map[]).Some?
  {}

  ghost predicate Untyped(ops: seq<Op>) {
    forall op :: op in ops && op.Append? ==> "type" !in op.event.fields
  }

  lemma {:induction false} DecodedNothing(decode: Decoder, store: map<string, Value>, ids: seq<string>)
    requires forall id :: id in store ==> decode(store[id]).None?
    ensures Decoded(decode, store, ids) == []
  {
    if ids == [] {
    } else {
      DecodedNothing(decode, store, ids[..|ids| - 1]);
    }
  }

  /** So events without a type field, which all the classes of the application are, are never
      delivered: in no run is anything published or marked. */
  lemma {:induction false} UntypedNeverDelivered(classes: Classes, ops: seq<Op>)
    requires "" !in classes && Untyped(ops)
    ensures var s := Run(DecoderOf(classes), EMPTY, ops);
            && s.published == [] && s.done == {}
            && forall id :: id in s.store ==> Decode(classes, s.store[id]).None?
  {
    if ops == [] {
    } else {
      var front, op := ops[..|ops| - 1], ops[|ops| - 1];
      assert op in ops && forall o :: o in front ==> o in ops;
      UntypedNeverDelivered(classes, front);
      var s := Run(DecoderOf(classes), EMPTY, front);
      if op.Dispatch? {
        hide Decode;
        DecodedNothing(DecoderOf(classes), s.store, Selected(s.pending, s.done, op.limit));
      }
    }
  }
}
