/** What the outbox delivers, over every run. */
module OutboxRuns {
  import opened Wrappers
  import opened OutboxStore

  datatype Op = Append(event: Event) | Dispatch(limit: int, faults: nat -> Fault)

  const EMPTY := Outbox(map[], [], {}, [])

  function After(decode: Decoder, s: Outbox, op: Op): Outbox {
    match op
    case Append(event) => s.(store := s.store[event.Id() := Dump(event)], pending := s.pending + [event.Id()])
    case Dispatch(limit, faults) => Dispatched(decode, s, limit, faults)
  }

  function Run(decode: Decoder, s: Outbox, ops: seq<Op>): Outbox {
    if ops == [] then s else After(decode, Run(decode, s, ops[..|ops| - 1]), ops[|ops| - 1])
  }

  // ----- Safety: marked only once published, stored before pending ------------------------

  predicate WasPublished(published: seq<Delivery>, id: string) {
    exists k :: 0 <= k < |published| && published[k].event.Id() == id && published[k].marked
  }

  /** Every pending id has a stored payload, and exactly the ids published and marked are done. */
  ghost predicate Accounted(s: Outbox) {
    && (forall id :: id in s.pending ==> id in s.store)
    && (forall id :: id in s.done <==> WasPublished(s.published, id))
  }

  lemma OneAccounted(s: Outbox, event: Event, fault: Fault)
    requires Accounted(s)
    ensures Accounted(DeliveredOne(s, event, fault))
  {
    var s' := DeliveredOne(s, event, fault);
    if fault != PublishFails {
      var d := s'.published[|s.published|];
      forall id ensures WasPublished(s'.published, id) <==>
                        WasPublished(s.published, id) || (d.event.Id() == id && d.marked)
      {
        if k :| 0 <= k < |s.published| && s.published[k].event.Id() == id && s.published[k].marked {
          assert s'.published[k] == s.published[k];
        }
      }
      hide WasPublished;
    }
  }

  lemma {:induction false} DeliveredAccounted(s: Outbox, events: seq<Event>, faults: nat -> Fault)
    requires Accounted(s)
    ensures Accounted(Delivered(s, events, faults))
  {
    hide Accounted;
    if events == [] {
    } else {
      DeliveredAccounted(s, events[..|events| - 1], faults);
      OneAccounted(Delivered(s, events[..|events| - 1], faults), events[|events| - 1], faults(|events| - 1));
    }
  }

  /** In every run of appends and dispatches, with any publish and mark failures: every pending
      id has its payload, and an id is done exactly when its event has been published and the
      mark that followed went through. */
  lemma {:induction false} RunsAccounted(decode: Decoder, ops: seq<Op>)
    ensures Accounted(Run(decode, EMPTY, ops))
  {
    if ops == [] {
    } else {
      var front, op := ops[..|ops| - 1], ops[|ops| - 1];
      RunsAccounted(decode, front);
      var s := Run(decode, EMPTY, front);
      if op.Dispatch? {
        hide Accounted;
        DeliveredAccounted(s, Decoded(decode, s.store, Selected(s.pending, s.done, op.limit)), op.faults);
      }
    }
  }

  // ----- What next_undispatched selects ---------------------------------------------------

  lemma {:induction false} UndoneConcat(ids: seq<string>, more: seq<string>, done: set<string>)
    ensures Undone(ids + more, done) == Undone(ids, done) + Undone(more, done)
  {
    if more == [] {
      assert ids + more == ids;
    } else {
      var n := |more| - 1;
      assert ids + more == ids + more[..n] + [more[n]];
      UndoneNext(ids + more[..n], more[n], done);
      UndoneConcat(ids, more[..n], done);
    }
  }

  lemma {:induction false} UndoneOnly(ids: seq<string>, done: set<string>, id: string)
    ensures id in Undone(ids, done) <==> id in ids && id !in done
  {
    if ids == [] {
    } else {
      UndoneOnly(ids[..|ids| - 1], done, id);
      assert ids == ids[..|ids| - 1] + [ids[|ids| - 1]];
    }
  }

  /** For a limit of at least 1, a pending id that is not done is selected exactly if fewer than
      limit such entries precede it: the first ones in append order are. */
  lemma SelectsFirst(pending: seq<string>, done: set<string>, limit: int, i: nat)
    requires limit >= 1 && i < |pending| && pending[i] !in done && pending[i] !in pending[..i]
    ensures pending[i] in Selected(pending, done, limit) <==> |Undone(pending[..i], done)| < limit
  {
    var id, before := pending[i], Undone(pending[..i], done);
    assert pending == pending[..i] + [id] + pending[i + 1..];
    UndoneConcat(pending[..i] + [id], pending[i + 1..], done);
    UndoneNext(pending[..i], id, done);
    UndoneOnly(pending[..i], done, id);
    hide Undone;
    var all := Undone(pending, done);
    assert all[..|before|] == before && all[|before|] == id;
    if |before| < limit {
      assert Take(all, limit)[|before|] == id;
    } else {
      assert forall k :: 0 <= k < limit ==> Take(all, limit)[k] == before[k];
    }
  }

  /** A limit below 1 looks at the oldest entry only, whatever the others are. */
  lemma SelectsOldest(pending: seq<string>, done: set<string>, limit: int)
    requires limit < 1
    ensures Selected(pending, done, limit) == if pending != [] && pending[0] !in done then [pending[0]] else []
  {
    if pending != [] {
      assert Take(pending, 1) == [] + [pending[0]];
      UndoneNext([], pending[0], done);
    }
  }

  /** The publisher asks for the limit it is given, or its batch size for none or 0. */
  lemma LimitOrBatchSize(limit: Option<int>, batchSize: int)
    ensures limit.None? || limit == Some(0) ==> BatchLimit(limit, batchSize) == batchSize
    ensures limit.Some? && limit != Some(0) ==> Some(BatchLimit(limit, batchSize)) == limit
  {}

  // ----- Delivery, with a working bus and no appends --------------------------------------

  const WORKING: nat -> Fault := _ => Fine

  /** Dispatch rounds without failures. */
  function Rounds(decode: Decoder, s: Outbox, limit: int, n: nat): Outbox
    decreases n
  {
    if n == 0 then s else Rounds(decode, Dispatched(decode, s, limit, WORKING), limit, n - 1)
  }

  /** An entry that decodes yields the event of its own id. */
  predicate Honest(decode: Decoder, s: Outbox) {
    forall id :: id in s.pending && Decodes(decode, s.store, id) ==> decode(s.store[id]).value.Id() == id
  }

  lemma {:induction false} WorkingMarks(s: Outbox, events: seq<Event>, id: string)
    ensures var s' := Delivered(s, events, WORKING);
            && s'.store == s.store && s'.pending == s.pending
            && (id in s'.done <==> id in s.done || exists e :: e in events && e.Id() == id)
  {
    if events == [] {
    } else {
      var front, last := events[..|events| - 1], events[|events| - 1];
      WorkingMarks(s, front, id);
      assert forall e :: e in events <==> e in front || e == last;
    }
  }

  lemma {:induction false} DecodedOnly(decode: Decoder, store: map<string, Value>, ids: seq<string>, e: Event)
    ensures e in Decoded(decode, store, ids) <==>
            exists id :: id in ids && Decodes(decode, store, id) && decode(store[id]).value == e
  {
    if ids == [] {
    } else {
      var front, last := ids[..|ids| - 1], ids[|ids| - 1];
      DecodedOnly(decode, store, front, e);
      assert forall id :: id in ids <==> id in front || id == last;
      hide Decodes;
    }
  }

  lemma SelectedArePending(pending: seq<string>, done: set<string>, limit: int, id: string)
    ensures id in Selected(pending, done, limit) ==> id in pending && id !in done
  {
    if limit >= 1 {
      UndoneOnly(pending, done, id);
    } else {
      UndoneOnly(Take(pending, 1), done, id);
    }
    hide Undone;
  }

  /** A working round marks exactly the selected entries that decode. */
  lemma RoundMarks(decode: Decoder, s: Outbox, limit: int, id: string)
    requires Honest(decode, s)
    ensures var s' := Dispatched(decode, s, limit, WORKING);
            && s'.store == s.store && s'.pending == s.pending && s.done <= s'.done
            && (id in s'.done <==>
                  id in s.done || (id in Selected(s.pending, s.done, limit) && Decodes(decode, s.store, id)))
  {
    var selected := Selected(s.pending, s.done, limit);
    var events := Decoded(decode, s.store, selected);
    forall x ensures x in selected ==> x in s.pending {
      SelectedArePending(s.pending, s.done, limit, x);
    }
    hide Selected, Decoded, Delivered;
    WorkingMarks(s, events, id);
    forall x ensures x in s.done ==> x in Delivered(s, events, WORKING).done {
      WorkingMarks(s, events, x);
    }
    forall e ensures e in events <==> exists x :: x in selected && Decodes(decode, s.store, x) && decode(s.store[x]).value == e {
      DecodedOnly(decode, s.store, selected, e);
    }
    if id in selected && Decodes(decode, s.store, id) {
      assert decode(s.store[id]).value in events;
    }
  }

  /** Entries that do not decode. */
  function Stuck(decode: Decoder, store: map<string, Value>, ids: seq<string>): nat {
    if ids == [] then 0
    else Stuck(decode, store, ids[..|ids| - 1]) + if Decodes(decode, store, ids[|ids| - 1]) then 0 else 1
  }

  lemma StuckNext(decode: Decoder, store: map<string, Value>, ids: seq<string>, id: string)
    ensures Stuck(decode, store, ids + [id]) == Stuck(decode, store, ids) + if Decodes(decode, store, id) then 0 else 1
  {
    assert (ids + [id])[..|ids|] == ids;
  }

  lemma {:induction false} StuckAtMost(decode: Decoder, store: map<string, Value>, ids: seq<string>)
    ensures Stuck(decode, store, ids) <= |ids|
  {
    if ids == [] {
    } else {
      StuckAtMost(decode, store, ids[..|ids| - 1]);
    }
  }

  /** Marking entries that decode leaves the stuck ones where they are. */
  lemma {:induction false} StuckStay(decode: Decoder, store: map<string, Value>, ids: seq<string>, done: set<string>, done': set<string>)
    requires done <= done' && forall id :: id in done' && id !in done && id in ids ==> Decodes(decode, store, id)
    ensures Stuck(decode, store, Undone(ids, done')) == Stuck(decode, store, Undone(ids, done))
  {
    hide Decodes;
    if ids == [] {
    } else {
      var front, last := ids[..|ids| - 1], ids[|ids| - 1];
      StuckStay(decode, store, front, done, done');
      StuckNext(decode, store, Undone(front, done), last);
      StuckNext(decode, store, Undone(front, done'), last);
    }
  }

  lemma {:induction false} AllStuck(decode: Decoder, store: map<string, Value>, ids: seq<string>, limit: nat)
    requires limit <= |ids| && forall k :: 0 <= k < limit ==> !Decodes(decode, store, ids[k])
    ensures Stuck(decode, store, ids) >= limit
  {
    hide Decodes;
    if ids == [] {
    } else {
      AllStuck(decode, store, ids[..|ids| - 1], if limit == |ids| then limit - 1 else limit);
    }
  }

  lemma {:induction false} FewerUndone(ids: seq<string>, done: set<string>, done': set<string>, x: string)
    requires done <= done'
    ensures |Undone(ids, done')| <= |Undone(ids, done)|
    ensures x in ids && x !in done && x in done' ==> |Undone(ids, done')| < |Undone(ids, done)|
  {
    if ids == [] {
    } else {
      FewerUndone(ids[..|ids| - 1], done, done', x);
      assert ids == ids[..|ids| - 1] + [ids[|ids| - 1]];
    }
  }

  lemma {:induction false} RoundsKeep(decode: Decoder, s: Outbox, limit: int, n: nat, id: string)
    requires Honest(decode, s) && id in s.done
    ensures id in Rounds(decode, s, limit, n).done
    decreases n
  {
    RoundMarks(decode, s, limit, id);
    hide Dispatched, Decodes;
    if n == 0 {
    } else {
      RoundsKeep(decode, Dispatched(decode, s, limit, WORKING), limit, n - 1, id);
    }
  }

  /** The not-done entries before a position. */
  function Before(s: Outbox, i: nat): seq<string>
    requires i <= |s.pending|
  {
    Undone(s.pending[..i], s.done)
  }

  /** An entry at its first position in the pending list. */
  predicate FirstAt(s: Outbox, i: nat) {
    i < |s.pending| && s.pending[i] !in s.pending[..i]
  }

  /** If the first limit entries are taken up by ones that precede i, one of them gets done. */
  lemma RoundProgresses(decode: Decoder, s: Outbox, limit: int, i: nat)
    requires limit >= 1 && Honest(decode, s) && i < |s.pending|
    requires |Before(s, i)| >= limit && Stuck(decode, s.store, Before(s, i)) < limit
    ensures var s' := Dispatched(decode, s, limit, WORKING);
            s'.pending == s.pending && |Before(s', i)| < |Before(s, i)|
  {
    var s', before := Dispatched(decode, s, limit, WORKING), Before(s, i);
    hide Decodes, Stuck, Dispatched;
    if forall k :: 0 <= k < limit ==> !Decodes(decode, s.store, before[k]) {
      AllStuck(decode, s.store, before, limit);
    }
    var k :| 0 <= k < limit && Decodes(decode, s.store, before[k]);
    var x := before[k];
    UndonePrefix(s.pending, i, s.done);
    UndoneOnly(s.pending[..i], s.done, x);
    hide Undone;
    assert Selected(s.pending, s.done, limit)[k] == x;
    RoundMarks(decode, s, limit, x);
    FewerUndone(s.pending[..i], s.done, s'.done, x);
  }

  lemma RoundKeepsStuck(decode: Decoder, s: Outbox, limit: int, i: nat)
    requires Honest(decode, s) && i <= |s.pending|
    ensures var s' := Dispatched(decode, s, limit, WORKING);
            && s'.pending == s.pending && s'.store == s.store && Honest(decode, s')
            && Stuck(decode, s.store, Before(s', i)) == Stuck(decode, s.store, Before(s, i))
  {
    var s' := Dispatched(decode, s, limit, WORKING);
    RoundMarks(decode, s, limit, "");
    forall id | id in s'.done && id !in s.done ensures Decodes(decode, s.store, id) {
      RoundMarks(decode, s, limit, id);
    }
    hide Decodes, Stuck, Dispatched, Undone;
    StuckStay(decode, s.store, s.pending[..i], s.done, s'.done);
  }

  /** Either the round delivers entry i, or fewer undone entries precede it afterwards. */
  lemma RoundHelps(decode: Decoder, s: Outbox, limit: int, i: nat)
    requires limit >= 1 && Honest(decode, s) && FirstAt(s, i) && Decodes(decode, s.store, s.pending[i])
    requires Stuck(decode, s.store, Before(s, i)) < limit
    ensures var s' := Dispatched(decode, s, limit, WORKING);
            && s'.pending == s.pending && FirstAt(s', i)
            && (s.pending[i] in s'.done || |Before(s', i)| < |Before(s, i)|)
  {
    hide Dispatched, Honest, Decodes, Stuck, Selected, Undone;
    RoundMarks(decode, s, limit, s.pending[i]);
    if s.pending[i] !in s.done {
      SelectsFirst(s.pending, s.done, limit, i);
      if |Before(s, i)| >= limit {
        RoundProgresses(decode, s, limit, i);
      }
    }
  }

  lemma FirstRound(decode: Decoder, s: Outbox, limit: int, n: nat)
    requires n > 0
    ensures Rounds(decode, s, limit, n) == Rounds(decode, Dispatched(decode, s, limit, WORKING), limit, n - 1)
  {
    hide Dispatched;
  }

  lemma {:induction false} DeliveredSoon(decode: Decoder, s: Outbox, limit: int, i: nat, n: nat)
    requires limit >= 1 && Honest(decode, s) && FirstAt(s, i) && Decodes(decode, s.store, s.pending[i])
    requires Stuck(decode, s.store, Before(s, i)) < limit && n > |Before(s, i)|
    ensures s.pending[i] in Rounds(decode, s, limit, n).done
    decreases n
  {
    var s', id := Dispatched(decode, s, limit, WORKING), s.pending[i];
    assert i < |s.pending|;
    FirstRound(decode, s, limit, n);
    hide Dispatched, Honest, Decodes, Stuck, Rounds, Before, FirstAt;
    RoundKeepsStuck(decode, s, limit, i);
    RoundHelps(decode, s, limit, i);
    if id in s'.done {
      RoundsKeep(decode, s', limit, n - 1, id);
    } else {
      DeliveredSoon(decode, s', limit, i, n - 1);
    }
  }

  lemma {:induction false} BlockedForever(decode: Decoder, s: Outbox, limit: int, i: nat, n: nat)
    requires limit >= 1 && Honest(decode, s) && FirstAt(s, i) && s.pending[i] !in s.done
    requires !Decodes(decode, s.store, s.pending[i]) || Stuck(decode, s.store, Before(s, i)) >= limit
    ensures s.pending[i] !in Rounds(decode, s, limit, n).done
    decreases n
  {
    var s', id := Dispatched(decode, s, limit, WORKING), s.pending[i];
    RoundKeepsStuck(decode, s, limit, i);
    RoundMarks(decode, s, limit, id);
    SelectsFirst(s.pending, s.done, limit, i);
    StuckAtMost(decode, s.store, Before(s, i));
    hide Dispatched, Honest, Decodes, Stuck, Selected, Undone;
    if n == 0 {
    } else {
      BlockedForever(decode, s', limit, i, n - 1);
    }
  }

  /** With a working bus and no appends, a not-done entry is eventually delivered if and only
      if it decodes and fewer than limit entries that do not decode precede it undone; and then
      within one round more than there are undone entries before it. */
  lemma DeliveredIff(decode: Decoder, s: Outbox, limit: int, i: nat)
    requires limit >= 1 && Honest(decode, s) && FirstAt(s, i) && s.pending[i] !in s.done
    ensures (exists n :: s.pending[i] in Rounds(decode, s, limit, n).done) <==>
            Decodes(decode, s.store, s.pending[i]) && Stuck(decode, s.store, Before(s, i)) < limit
    ensures Decodes(decode, s.store, s.pending[i]) && Stuck(decode, s.store, Before(s, i)) < limit ==>
            s.pending[i] in Rounds(decode, s, limit, |Before(s, i)| + 1).done
  {
    if Decodes(decode, s.store, s.pending[i]) && Stuck(decode, s.store, Before(s, i)) < limit {
      DeliveredSoon(decode, s, limit, i, |Before(s, i)| + 1);
    } else {
      forall n: nat ensures s.pending[i] !in Rounds(decode, s, limit, n).done {
        BlockedForever(decode, s, limit, i, n);
      }
    }
  }
}
