/**
 The sequential code of the client and of the resend task, over the stores and a transport that may
 refuse any message (src/client/mod.rs, src/client/property.rs, src/connection/resend.rs).
 */
module Device {
  import opened Basics
  import opened Types
  import opened RetentionIds
  import opened Retained
  import opened VolatileQueue
  import opened StoredTable
  import opened PropertyStore

  datatype Message =
    | Publish(slot: Slot, packet: Packet)
    | Plain(packet: Packet)
    | Property(key: Key, value: Option<AstarteData>)

  /** `Lost`: the transport took the message, and reported an error all the same. */
  datatype Reply = Taken | Refused | Lost

  /** One call of the transport; `receipt` says that it acknowledged the retained packet at once. */
  datatype Call = Call(message: Message, reply: Reply, receipt: bool)

  class Transport {
    var log: seq<Call>

    constructor ()
      ensures log == []
    {
      log := [];
    }

    /** The transport may answer anything. */
    method Send(m: Message) returns (call: Call)
      modifies this
      ensures call.message == m && (call.receipt ==> call.reply.Taken?)
      ensures log == old(log) + [call]
    {
      var reply: Reply := *;
      var receipt: bool := *;
      call := Call(m, reply, receipt && reply.Taken?);
      log := log + [call];
    }
  }

  /** The system clock, with no order among its readings; `horizon` is the latest time it has shown. */
  class Clock {
    var horizon: nat

    constructor ()
      ensures horizon == 0
    {
      horizon := 0;
    }

    method Now() returns (t: nat)
      modifies this
      ensures horizon == if old(horizon) < t then t else old(horizon)
    {
      t := *;
      if horizon < t {
        horizon := t;
      }
    }
  }

  function Publishes(place: Place, es: seq<Entry>): (r: seq<Message>)
    ensures |r| == |es| && forall i :: 0 <= i < |r| ==> r[i] == Publish(Slot(place, es[i].id), es[i].packet)
  {
    seq(|es|, i requires 0 <= i < |es| => Publish(Slot(place, es[i].id), es[i].packet))
  }

  /** Calls for the first messages of a batch: all taken, but for the last one when sending failed. */
  ghost predicate Calls(calls: seq<Call>, batch: seq<Message>, failed: bool) {
    if calls == [] then !failed
    else
      var n := |calls| - 1;
      && n < |batch| && calls[n].message == batch[n] && (calls[n].reply.Taken? <==> !failed)
      && (calls[n].receipt ==> calls[n].reply.Taken?)
      && Calls(calls[..n], batch, false)
  }

  lemma CallsExtend(log: seq<Call>, calls: seq<Call>, batch: seq<Message>, call: Call)
    requires Calls(calls, batch, false) && |calls| < |batch| && call.message == batch[|calls|]
    requires call.receipt ==> call.reply.Taken?
    ensures Calls(calls + [call], batch, !call.reply.Taken?)
    ensures log + calls + [call] == log + (calls + [call])
  {
    assert (calls + [call])[..|calls|] == calls;
  }

  /** The i-th call was for the i-th message, and it was taken unless it is the one that failed. */
  lemma {:induction false} CallsAt(calls: seq<Call>, batch: seq<Message>, failed: bool, i: nat)
    requires Calls(calls, batch, failed) && i < |calls|
    ensures |calls| <= |batch| && calls[i] in calls && calls[i].message == batch[i]
    ensures i < TakenCount(calls, failed) ==> calls[i].reply.Taken?
  {
    var n := |calls| - 1;
    if i < n {
      CallsAt(calls[..n], batch, false, i);
    }
  }

  /** How many of the calls were taken. */
  function TakenCount(calls: seq<Call>, failed: bool): nat {
    if failed && calls != [] then |calls| - 1 else |calls|
  }

  /** The store after a packet was flagged and handed over, and perhaps acknowledged at once. */
  function HandOne(q: seq<Entry>, id: Id, received: bool): seq<Entry> {
    var flagged := SetSent(q, id, true);
    if received then Remove(flagged, id) else flagged
  }

  /** The store after the first `i` of these entries were handed over in these calls. */
  function HandedOver(q: seq<Entry>, es: seq<Entry>, calls: seq<Call>, i: nat): seq<Entry>
    requires i <= |es| && i <= |calls|
  {
    if i == 0 then q
    else HandOne(HandedOver(q, es, calls, i - 1), es[i - 1].id, calls[i - 1].receipt)
  }

  lemma FlagFirstUnsent(q: seq<Entry>, received: bool)
    requires Distinct(q) && Unsent(q) != []
    ensures var r := HandOne(q, Unsent(q)[0].id, received);
            Distinct(r) && |r| <= |q| && Unsent(r) == Unsent(q)[1..]
    ensures SetSent(SetSent(q, Unsent(q)[0].id, true), Unsent(q)[0].id, false) == q
  {
    var id := Unsent(q)[0].id;
    FlagFirst(q, id);
    SetSentMembers(q, id, true);
    RemoveMembers(SetSent(q, id, true), id);
  }

  lemma {:induction false} FlagFirst(q: seq<Entry>, id: Id)
    requires Distinct(q) && Unsent(q) != [] && Unsent(q)[0].id == id
    ensures var r := SetSent(q, id, true);
            && Unsent(r) == Unsent(Remove(r, id)) == Unsent(q)[1..]
            && SetSent(r, id, false) == q
  {
    if q[0].sent {
      assert Unsent(q) == Unsent(q[1..]);
      assert Unsent(q)[0] in q[1..];
      DistinctTail(q);
      FlagFirst(q[1..], id);
    }
  }

  lemma {:induction false} HandedOverExtend(q: seq<Entry>, es: seq<Entry>, calls: seq<Call>, call: Call, i: nat)
    requires i <= |es| && i <= |calls|
    ensures HandedOver(q, es, calls + [call], i) == HandedOver(q, es, calls, i)
  {
    if i > 0 {
      HandedOverExtend(q, es, calls, call, i - 1);
    }
  }

  /** Handing over the first unsent packets leaves exactly the others unsent. */
  lemma {:induction false} HandOverUnsent(q: seq<Entry>, batch: seq<Entry>, calls: seq<Call>, i: nat)
    requires Distinct(q) && |batch| <= |Unsent(q)| && batch == Unsent(q)[..|batch|]
    requires i <= |batch| && i <= |calls|
    ensures var r := HandedOver(q, batch, calls, i);
            Distinct(r) && |r| <= |q| && Unsent(r) == Unsent(q)[i..]
  {
    if i > 0 {
      HandOverUnsent(q, batch, calls, i - 1);
      FlagFirstUnsent(HandedOver(q, batch, calls, i - 1), calls[i - 1].receipt);
    }
  }

  lemma NextUnsent(q: seq<Entry>, batch: seq<Entry>, calls: seq<Call>, i: nat)
    requires Distinct(q) && |batch| <= |Unsent(q)| && batch == Unsent(q)[..|batch|]
    requires i < |batch| && i <= |calls|
    ensures Unsent(HandedOver(q, batch, calls, i)) != []
    ensures Unsent(HandedOver(q, batch, calls, i))[0].id == batch[i].id
  {
    HandOverUnsent(q, batch, calls, i);
  }

  /**
   The outcome of handing over a batch of unsent packets: the calls, the result, and what is left of
   the store `q`.
   */
  ghost predicate Resent(q: seq<Entry>, batch: seq<Entry>, messages: seq<Message>, calls: seq<Call>,
                         r: Result<nat, ()>, after: seq<Entry>)
  {
    var taken := TakenCount(calls, r.Err?);
    && |calls| <= |messages| == |batch| <= |Unsent(q)| && Calls(calls, messages, r.Err?)
    && (r.Ok? ==> r.value == |batch| == |calls|)
    && after == HandedOver(q, batch, calls, taken) && Unsent(after) == Unsent(q)[taken..]
  }

  lemma ResentOk(q: seq<Entry>, batch: seq<Entry>, messages: seq<Message>, calls: seq<Call>, after: seq<Entry>)
    requires Distinct(q) && |messages| == |batch| <= |Unsent(q)| && batch == Unsent(q)[..|batch|]
    requires Calls(calls, messages, false) && |calls| == |batch| && after == HandedOver(q, batch, calls, |batch|)
    ensures Resent(q, batch, messages, calls, Ok(|batch|), after)
  {
    HandOverUnsent(q, batch, calls, |batch|);
  }

  lemma ResentErr(q: seq<Entry>, batch: seq<Entry>, messages: seq<Message>, calls: seq<Call>, call: Call,
                  after: seq<Entry>)
    requires Distinct(q) && |messages| == |batch| <= |Unsent(q)| && batch == Unsent(q)[..|batch|]
    requires Calls(calls, messages, false) && |calls| < |batch| && call.message == messages[|calls|]
    requires !call.reply.Taken? && !call.receipt && after == HandedOver(q, batch, calls, |calls|)
    ensures Resent(q, batch, messages, calls + [call], Err(()), after)
  {
    FailedBatch(q, batch, calls, call, after);
    CallsExtend([], calls, messages, call);
  }

  /** The failed call leaves the store as the calls before it did. */
  lemma FailedBatch(q: seq<Entry>, batch: seq<Entry>, calls: seq<Call>, call: Call, after: seq<Entry>)
    requires Distinct(q) && |batch| <= |Unsent(q)| && batch == Unsent(q)[..|batch|] && |calls| < |batch|
    requires after == HandedOver(q, batch, calls, |calls|)
    ensures after == HandedOver(q, batch, calls + [call], |calls|) && Unsent(after) == Unsent(q)[|calls|..]
  {
    HandOverUnsent(q, batch, calls, |calls|);
    HandedOverExtend(q, batch, calls, call, |calls|);
  }

  lemma UnsentLive(q: seq<Entry>, now: nat)
    requires Distinct(q)
    ensures Distinct(Live(q, now)) && |Unsent(Live(q, now))| <= |Unsent(q)|
    ensures forall e :: e in Unsent(Live(q, now)) <==> e in Unsent(q) && !Expired(e, now)
  {
    var p, u, both := e => !Expired(e, now), (e: Entry) => !e.sent, (e: Entry) => !Expired(e, now) && !e.sent;
    FilterDistinct(p, q);
    FilterTwice(p, u, both, q);
    FilterTwice(u, p, both, q);
  }

  class Device {
    const volatile: State
    const stored: WriteConnection?
    const props: MemoryStore
    const transport: Transport
    const clock: Clock
    const ids: Context
    const limit: nat
    var status: ConnStatus

    ghost predicate Valid()
      reads this, volatile, stored, ids
    {
      && limit > 0 && ids.Valid() && volatile.Valid() && Distinct(volatile.store)
      && limit <= USIZE_MAX && (stored != null ==> stored.Valid())
    }

    constructor (volatile: State, stored: WriteConnection?, props: MemoryStore, transport: Transport, clock: Clock,
                 ids: Context, limit: nat)
      requires 0 < limit <= USIZE_MAX && ids.Valid() && volatile.Valid() && Distinct(volatile.store)
      requires stored != null ==> stored.Valid()
      ensures Valid() && status == Disconnected && this.limit == limit
      ensures this.volatile == volatile && this.stored == stored && this.props == props
      ensures this.transport == transport && this.clock == clock && this.ids == ids
    {
      this.volatile, this.stored, this.props, this.transport, this.clock, this.ids :=
        volatile, stored, props, transport, clock, ids;
      this.limit, status := limit, Disconnected;
    }

    // ---- Resending ------------------------------------------------------------------------------

    /** Flags and sends the first unsent packets of the volatile queue. */
    method ResendVolatilePublishes() returns (r: Result<nat, ()>, ghost now: nat, ghost calls: seq<Call>)
      requires Valid()
      modifies volatile, transport, clock
      ensures Valid() && clock.horizon >= old(clock.horizon) && clock.horizon >= now
      ensures transport.log == old(transport.log) + calls
      ensures var live := Live(old(volatile.store), now);
              var batch := FirstN(Unsent(live), limit);
              Resent(live, batch, Publishes(InVolatile, batch), calls, r, volatile.store)
    {
      var t := clock.Now();
      now := t;
      UnsentLive(volatile.store, t);
      var buf, count := volatile.GetUnsent([], limit, t);
      assert buf == FirstN(Unsent(volatile.store), limit);
      r, calls := ResendVolatileBatch(buf);
    }

    /** The loop over the packets loaded. */
    method ResendVolatileBatch(buf: seq<Entry>) returns (r: Result<nat, ()>, ghost calls: seq<Call>)
      requires Valid() && |buf| <= |Unsent(volatile.store)| && buf == Unsent(volatile.store)[..|buf|]
      modifies volatile, transport
      ensures Valid() && transport.log == old(transport.log) + calls
      ensures Resent(old(volatile.store), buf, Publishes(InVolatile, buf), calls, r, volatile.store)
    {
      calls := [];
      ghost var q, messages := volatile.store, Publishes(InVolatile, buf);
      for i := 0 to |buf|
        invariant Valid() && |calls| == i && transport.log == old(transport.log) + calls
        invariant Calls(calls, messages, false)
        invariant volatile.store == HandedOver(q, buf, calls, i)
      {
        NextUnsent(q, buf, calls, i);
        var call := ResendVolatile(buf[i].id, buf[i].packet);
        CallsExtend(old(transport.log), calls, messages, call);
        if !call.reply.Taken? {
          ResentErr(q, buf, messages, calls, call, volatile.store);
          return Err(()), calls + [call];
        }
        HandedOverExtend(q, buf, calls, call, i);
        calls := calls + [call];
      }
      ResentOk(q, buf, messages, calls, volatile.store);
      return Ok(|buf|), calls;
    }

    /** Flags before sending, and takes the flag back if the transport reports an error. */
    method ResendVolatile(id: Id, packet: Packet) returns (call: Call)
      requires Valid() && Unsent(volatile.store) != [] && Unsent(volatile.store)[0].id == id
      modifies volatile, transport
      ensures Valid() && transport.log == old(transport.log) + [call]
      ensures call.message == Publish(Slot(InVolatile, id), packet) && (call.receipt ==> call.reply.Taken?)
      ensures volatile.store == if call.reply.Taken? then HandOne(old(volatile.store), id, call.receipt)
                                else old(volatile.store)
    {
      FlagFirstUnsent(volatile.store, true);
      FlagFirstUnsent(volatile.store, false);
      var _ := volatile.MarkSent(id, true);
      call := transport.Send(Publish(Slot(InVolatile, id), packet));
      if !call.reply.Taken? {
        var _ := volatile.MarkSent(id, false);
      } else if call.receipt {
        var _ := volatile.MarkReceived(id);
      }
    }

    /** The same for the publish table, in key order, with each packet as its mapping describes it. */
    method ResendStoredPublishes() returns (r: Result<nat, ()>, ghost now: nat, ghost calls: seq<Call>)
      requires Valid()
      modifies stored, transport, clock
      ensures Valid() && clock.horizon >= old(clock.horizon) && clock.horizon / SECOND >= now
      ensures transport.log == old(transport.log) + calls
      ensures stored == null ==> r == Ok(0) && calls == []
      ensures stored != null ==>
                && stored.mappings == old(stored.mappings)
                && var live := Live(old(stored.rows), now);
                   var batch := FirstN(Unsent(live), limit);
                   && (forall e :: e in batch ==> PathOf(e.packet) in stored.mappings)
                   && Resent(live, batch, Publishes(InStored, JoinAll(batch, stored.mappings)), calls, r, stored.rows)
    {
      if stored == null {
        return Ok(0), 0, [];
      }
      var t := clock.Now();
      now := t / SECOND;
      SortedDistinct(stored.rows);
      UnsentLive(stored.rows, now);
      var buf, count := stored.UnsentPublishes(limit, t / SECOND);
      ghost var batch := FirstN(Unsent(stored.rows), limit);
      r, calls := ResendStoredBatch(buf, batch);
    }

    method ResendStoredBatch(buf: seq<Entry>, ghost batch: seq<Entry>)
      returns (r: Result<nat, ()>, ghost calls: seq<Call>)
      requires Valid() && stored != null
      requires |batch| <= |Unsent(stored.rows)| && batch == Unsent(stored.rows)[..|batch|]
      requires |buf| == |batch| && forall i :: 0 <= i < |buf| ==> buf[i].id == batch[i].id
      modifies stored, transport
      ensures Valid() && transport.log == old(transport.log) + calls && stored.mappings == old(stored.mappings)
      ensures Resent(old(stored.rows), batch, Publishes(InStored, buf), calls, r, stored.rows)
    {
      calls := [];
      ghost var q, messages := stored.rows, Publishes(InStored, buf);
      SortedDistinct(stored.rows);
      for i := 0 to |buf|
        invariant Valid() && |calls| == i && transport.log == old(transport.log) + calls
        invariant stored.mappings == old(stored.mappings)
        invariant Calls(calls, messages, false)
        invariant stored.rows == HandedOver(q, batch, calls, i)
      {
        NextUnsent(q, batch, calls, i);
        var call := ResendStored(buf[i].id, buf[i].packet);
        CallsExtend(old(transport.log), calls, messages, call);
        if !call.reply.Taken? {
          ResentErr(q, batch, messages, calls, call, stored.rows);
          return Err(()), calls + [call];
        }
        HandedOverExtend(q, batch, calls, call, i);
        calls := calls + [call];
      }
      ResentOk(q, batch, messages, calls, stored.rows);
      return Ok(|buf|), calls;
    }

    method ResendStored(id: Id, packet: Packet) returns (call: Call)
      requires Valid() && stored != null && Unsent(stored.rows) != [] && Unsent(stored.rows)[0].id == id
      modifies stored, transport
      ensures Valid() && transport.log == old(transport.log) + [call] && stored.mappings == old(stored.mappings)
      ensures call.message == Publish(Slot(InStored, id), packet) && (call.receipt ==> call.reply.Taken?)
      ensures stored.rows == if call.reply.Taken? then HandOne(old(stored.rows), id, call.receipt) else old(stored.rows)
    {
      SortedDistinct(stored.rows);
      FlagFirstUnsent(stored.rows, true);
      FlagFirstUnsent(stored.rows, false);
      stored.UpdateSentFlag(id, true);
      call := transport.Send(Publish(Slot(InStored, id), packet));
      if !call.reply.Taken? {
        stored.UpdateSentFlag(id, false);
      } else if call.receipt {
        stored.MarkReceived(id);
      }
    }

    /** Sends the changed device properties, unset ones included, and settles each one sent. */
    method SendDeviceProperties() returns (r: Result<nat, ()>, ghost sent: seq<OptProp>, ghost calls: seq<Call>)
      requires limit > 0
      modifies props, transport
      ensures transport.log == old(transport.log) + calls
      ensures PropsResent(old(props.store), sent, calls, limit, r, props.store)
    {
      var batch := props.DevicePropsWithUnset(Changed, limit, 0);
      ghost var before := props.store;
      calls := [];
      for i := 0 to |batch|
        invariant |calls| == i && transport.log == old(transport.log) + calls
        invariant Calls(calls, PropertyMessages(batch), false)
        invariant props.store == Settled(before, batch, i)
      {
        SettledProps(before, batch, i);
        var p := batch[i];
        var call := transport.Send(Property(p.key, p.value));
        CallsExtend(old(transport.log), calls, PropertyMessages(batch), call);
        calls := calls + [call];
        if !call.reply.Taken? {
          return Err(()), batch, calls;
        }
        if p.value.Some? {
          var _ := props.UpdateState(p.key, Completed, p.value);
        } else {
          var _ := props.DeleteExpectedProp(p.key, None);
        }
      }
      SettledProps(before, batch, |batch|);
      return Ok(|batch|), batch, calls;
    }

    // ---- The resend task ------------------------------------------------------------------------

    ghost function Held(): Holdings
      reads volatile, stored, props
    {
      Holdings(volatile.store, if stored == null then [] else stored.rows, props.store)
    }

    method VolatileRound() returns (r: Result<nat, ()>, ghost calls: seq<Call>)
      requires Valid()
      modifies volatile, transport, clock
      ensures Valid() && transport.log == old(transport.log) + calls && clock.horizon >= old(clock.horizon)
      ensures Held() == old(Held()).(volatile := volatile.store)
      ensures Shrinks(|Unsent(old(volatile.store))|, |Unsent(volatile.store)|, limit, r)
      ensures Kept(old(Held()), Held(), calls, clock.horizon) && SendsWaiting(old(Held()), Held(), calls)
    {
      ghost var now;
      ghost var a := Held();
      r, now, calls := ResendVolatilePublishes();
      VolatileResent(a, Held(), now, limit, calls, r, clock.horizon);
    }

    method StoredRound() returns (r: Result<nat, ()>, ghost calls: seq<Call>)
      requires Valid()
      modifies stored, transport, clock
      ensures Valid() && transport.log == old(transport.log) + calls && clock.horizon >= old(clock.horizon)
      ensures Held() == old(Held()).(stored := Held().stored)
      ensures Shrinks(|Unsent(old(Held()).stored)|, |Unsent(Held().stored)|, limit, r)
      ensures Kept(old(Held()), Held(), calls, clock.horizon) && SendsWaiting(old(Held()), Held(), calls)
    {
      ghost var now;
      ghost var a := Held();
      if stored != null {
        SortedDistinct(stored.rows);
      }
      r, now, calls := ResendStoredPublishes();
      if stored != null {
        ghost var sent := JoinAll(FirstN(Unsent(Live(a.stored, now)), limit), stored.mappings);
        StoredResent(a, Held(), now, limit, sent, calls, r, clock.horizon);
      }
    }

    method PropertiesRound() returns (r: Result<nat, ()>, ghost calls: seq<Call>)
      requires Valid()
      modifies props, transport
      ensures Valid() && transport.log == old(transport.log) + calls
      ensures Held() == old(Held()).(props := props.store)
      ensures Shrinks(|InState(old(props.store), Changed)|, |InState(props.store, Changed)|, limit, r)
      ensures Kept(old(Held()), Held(), calls, clock.horizon) && SendsWaiting(old(Held()), Held(), calls)
    {
      ghost var sent;
      r, sent, calls := SendDeviceProperties();
      PropsProgress(old(props.store), sent, calls, limit, r, props.store);
      PropsWait(old(props.store), sent, calls, limit, r, props.store);
    }

    /** First half of a round: unsent volatile packets, then unsent stored packets. */
    method PublishesRound(withVolatile: bool) returns (r: Result<bool, ()>, ghost calls: seq<Call>)
      requires Valid()
      modifies volatile, stored, transport, clock
      ensures Valid() && transport.log == old(transport.log) + calls && clock.horizon >= old(clock.horizon)
      ensures PublishesDone(old(Held()), Held(), withVolatile, r)
      ensures Kept(old(Held()), Held(), calls, clock.horizon) && SendsWaiting(old(Held()), Held(), calls)
    {
      var full := false;
      calls := [];
      if withVolatile {
        var count;
        count, calls := VolatileRound();
        if count.Err? {
          return Err(()), calls;
        }
        full := count.value >= limit;
      }
      ghost var mid, h := Held(), clock.horizon;
      var count, more := StoredRound();
      KeptJoin(old(Held()), mid, Held(), calls, more, h, clock.horizon);
      SendsJoin(old(Held()), mid, Held(), calls, more);
      LogJoin(old(transport.log), calls, more);
      calls := calls + more;
      r := if count.Err? then Err(()) else Ok(full || count.value >= limit);
    }

    /** One round: unsent volatile packets, unsent stored packets, changed properties. */
    method ResendRound(withVolatile: bool) returns (clean: bool, again: bool, ghost calls: seq<Call>)
      requires Valid()
      modifies volatile, stored, props, transport, clock
      ensures Valid() && transport.log == old(transport.log) + calls && clock.horizon >= old(clock.horizon)
      ensures RoundDone(old(Held()), Held(), withVolatile, clean, again)
      ensures Kept(old(Held()), Held(), calls, clock.horizon) && SendsWaiting(old(Held()), Held(), calls)
    {
      var full;
      full, calls := PublishesRound(withVolatile);
      if full.Err? {
        return false, false, calls;
      }
      ghost var mid := Held();
      var count, more := PropertiesRound();
      KeptJoin(old(Held()), mid, Held(), calls, more, clock.horizon, clock.horizon);
      SendsJoin(old(Held()), mid, Held(), calls, more);
      LogJoin(old(transport.log), calls, more);
      calls := calls + more;
      clean, again := count.Ok?, full.value || (count.Ok? && count.value >= limit);
    }

    /**
     The resend task: rounds until one is not full, or until an error. It terminates, ends connected in
     either case, and when it ends without an error nothing is left to send: every packet that was
     unsent, and every property that was changed, has been handed over, unless the packet expired. In
     any case it sends nothing else.
     */
    method Resend(withVolatile: bool) returns (clean: bool, ghost calls: seq<Call>)
      requires Valid()
      modifies this`status, volatile, stored, props, transport, clock
      ensures Valid() && status == Connected && transport.log == old(transport.log) + calls
      ensures clock.horizon >= old(clock.horizon)
      ensures clean ==> NothingLeft(Held(), withVolatile)
      ensures clean ==> Delivered(old(Held()), withVolatile, calls, clock.horizon)
      ensures SendsWaiting(old(Held()), Held(), calls)
    {
      clean, calls := true, [];
      var remaining := true;
      ghost var before := Held();
      while remaining
        invariant Valid() && transport.log == old(transport.log) + calls && clock.horizon >= old(clock.horizon)
        invariant !remaining ==> clean && NothingLeft(Held(), withVolatile)
        invariant Kept(before, Held(), calls, clock.horizon) && SendsWaiting(before, Held(), calls)
        decreases Left(Held()), remaining
      {
        ghost var held, h, log := Held(), clock.horizon, transport.log;
        var more;
        ghost var c;
        clean, more, c := ResendRound(withVolatile);
        KeptJoin(before, held, Held(), calls, c, h, clock.horizon);
        SendsJoin(before, held, Held(), calls, c);
        LogJoin(old(transport.log), calls, c);
        calls := calls + c;
        if !clean {
          break;
        }
        remaining := more;
      }
      status := Connected;
      if clean {
        KeptAll(before, Held(), withVolatile, calls, clock.horizon);
      }
    }

    /**
     After a reconnection: without a session every flag and state is reset first, so that everything
     retained is handed over again.
     */
    method Reconnected(session: bool) returns (clean: bool, ghost calls: seq<Call>)
      requires Valid()
      modifies this`status, volatile, stored, props, transport, clock
      ensures Valid() && status == Connected && transport.log == old(transport.log) + calls
      ensures clean ==> NothingLeft(Held(), true)
      ensures clean && session ==> Delivered(old(Held()), true, calls, clock.horizon)
      ensures session ==> SendsWaiting(old(Held()), Held(), calls)
      ensures clean && !session ==> HandedAgain(old(Held()), calls, clock.horizon)
    {
      ghost var before, now := Held(), 0;
      if !session {
        if stored != null {
          var t := clock.Now();
          now := t / SECOND;
          stored.ResetAllPublishes(t / SECOND);
        }
        volatile.ResetSent();
        props.ResetState(DeviceOwned);
        ResetSentMembers(before.volatile);
      }
      ghost var reset := Held();
      clean, calls := Resend(true);
      if clean && !session {
        ResetHandsAll(before, reset, now, calls, clock.horizon);
      }
    }
  }

  // ---- What a round leaves and what it has handed over ----------------------------------------------

  ghost predicate HandedIn(calls: seq<Call>, slot: Slot) {
    exists c :: c in calls && c.reply.Taken? && c.message.Publish? && c.message.slot == slot
  }

  ghost predicate PropHandedIn(calls: seq<Call>, key: Key) {
    exists c :: c in calls && c.reply.Taken? && c.message.Property? && c.message.key == key
  }

  /** What was unsent in `q` is still unsent in `r`, or was handed over, or has expired. */
  ghost predicate Covered(place: Place, q: seq<Entry>, r: seq<Entry>, calls: seq<Call>, horizon: nat) {
    forall e :: e in Unsent(q) ==> e in Unsent(r) || HandedIn(calls, Slot(place, e.id)) || Expired(e, horizon)
  }

  ghost predicate PropsCovered(before: map<Key, Value>, after: map<Key, Value>, calls: seq<Call>) {
    forall k :: k in InState(before, Changed) ==> k in InState(after, Changed) || PropHandedIn(calls, k)
  }

  /** What the two packet stores and the property store hold. */
  datatype Holdings = Holdings(volatile: seq<Entry>, stored: seq<Entry>, props: map<Key, Value>)

  /** How much is waiting to be sent. */
  function Left(h: Holdings): nat {
    |Unsent(h.volatile)| + |Unsent(h.stored)| + |InState(h.props, Changed)|
  }

  predicate NothingLeft(h: Holdings, withVolatile: bool) {
    (withVolatile ==> Unsent(h.volatile) == []) && Unsent(h.stored) == [] && InState(h.props, Changed) == {}
  }

  ghost predicate Kept(a: Holdings, b: Holdings, calls: seq<Call>, horizon: nat) {
    && Covered(InVolatile, a.volatile, b.volatile, calls, horizon)
    && Covered(InStored, a.stored, b.stored, calls, horizon / SECOND)
    && PropsCovered(a.props, b.props, calls)
  }

  /** The message is for something that waits to be sent, and a property is sent with its stored value. */
  ghost predicate Waits(h: Holdings, m: Message) {
    match m
    case Publish(slot, _) => HasId(Unsent(if slot.place == InVolatile then h.volatile else h.stored), slot.id)
    case Plain(_) => false
    case Property(key, value) => key in InState(h.props, Changed) && value == h.props[key].value
  }

  /** Only what waits is sent, and nothing begins to wait meanwhile. */
  ghost predicate SendsWaiting(a: Holdings, b: Holdings, calls: seq<Call>) {
    && (forall c :: c in calls ==> Waits(a, c.message))
    && forall m :: Waits(b, m) ==> Waits(a, m)
  }

  lemma SendsJoin(a: Holdings, b: Holdings, c: Holdings, calls: seq<Call>, more: seq<Call>)
    requires SendsWaiting(a, b, calls) && SendsWaiting(b, c, more)
    ensures SendsWaiting(a, c, calls + more)
  {
  }

  lemma ResentWaits(place: Place, q: seq<Entry>, sent: seq<Entry>, now: nat, limit: nat, calls: seq<Call>,
                    r: Result<nat, ()>, after: seq<Entry>)
    requires Distinct(q)
    requires var live := Live(q, now);
             var batch := FirstN(Unsent(live), limit);
             && Resent(live, batch, Publishes(place, sent), calls, r, after)
             && |sent| == |batch| && forall i :: 0 <= i < |sent| ==> sent[i].id == batch[i].id
    ensures forall c :: c in calls ==> c.message.Publish? && c.message.slot.place == place
                                       && HasId(Unsent(q), c.message.slot.id)
    ensures forall id :: HasId(Unsent(after), id) ==> HasId(Unsent(q), id)
  {
    UnsentLive(q, now);
    var live := Unsent(Live(q, now));
    var batch := FirstN(live, limit);
    forall c | c in calls
      ensures c.message.Publish? && c.message.slot.place == place && HasId(Unsent(q), c.message.slot.id)
    {
      var i :| 0 <= i < |calls| && calls[i] == c;
      CallsAt(calls, Publishes(place, sent), r.Err?, i);
      assert batch[i] in live;
    }
    forall e | e in Unsent(after)
      ensures e in Unsent(q)
    {
      assert e in live;
    }
  }

  lemma VolatileResent(a: Holdings, b: Holdings, now: nat, limit: nat, calls: seq<Call>, r: Result<nat, ()>,
                       horizon: nat)
    requires Distinct(a.volatile) && limit > 0 && now <= horizon && b == a.(volatile := b.volatile)
    requires var batch := FirstN(Unsent(Live(a.volatile, now)), limit);
             Resent(Live(a.volatile, now), batch, Publishes(InVolatile, batch), calls, r, b.volatile)
    ensures Shrinks(|Unsent(a.volatile)|, |Unsent(b.volatile)|, limit, r)
    ensures Kept(a, b, calls, horizon) && SendsWaiting(a, b, calls)
  {
    var sent := FirstN(Unsent(Live(a.volatile, now)), limit);
    ResentProgress(InVolatile, a.volatile, sent, now, limit, calls, r, b.volatile, horizon);
    ResentWaits(InVolatile, a.volatile, sent, now, limit, calls, r, b.volatile);
    VolatileSends(a, b, calls);
  }

  /** Calls for unsent packets of the queue, which is all that changes. */
  lemma VolatileSends(a: Holdings, b: Holdings, calls: seq<Call>)
    requires b == a.(volatile := b.volatile)
    requires forall c :: c in calls ==> c.message.Publish? && c.message.slot.place == InVolatile
                                        && HasId(Unsent(a.volatile), c.message.slot.id)
    requires forall id :: HasId(Unsent(b.volatile), id) ==> HasId(Unsent(a.volatile), id)
    ensures SendsWaiting(a, b, calls)
  {
  }

  /** The same for the table. */
  lemma StoredSends(a: Holdings, b: Holdings, calls: seq<Call>)
    requires b == a.(stored := b.stored)
    requires forall c :: c in calls ==> c.message.Publish? && c.message.slot.place == InStored
                                        && HasId(Unsent(a.stored), c.message.slot.id)
    requires forall id :: HasId(Unsent(b.stored), id) ==> HasId(Unsent(a.stored), id)
    ensures SendsWaiting(a, b, calls)
  {
  }

  lemma StoredResent(a: Holdings, b: Holdings, now: nat, limit: nat, sent: seq<Entry>, calls: seq<Call>,
                     r: Result<nat, ()>, horizon: nat)
    requires Distinct(a.stored) && limit > 0 && now <= horizon / SECOND && b == a.(stored := b.stored)
    requires var batch := FirstN(Unsent(Live(a.stored, now)), limit);
             && Resent(Live(a.stored, now), batch, Publishes(InStored, sent), calls, r, b.stored)
             && |sent| == |batch| && forall i :: 0 <= i < |sent| ==> sent[i].id == batch[i].id
    ensures Shrinks(|Unsent(a.stored)|, |Unsent(b.stored)|, limit, r)
    ensures Kept(a, b, calls, horizon) && SendsWaiting(a, b, calls)
  {
    ResentProgress(InStored, a.stored, sent, now, limit, calls, r, b.stored, horizon / SECOND);
    ResentWaits(InStored, a.stored, sent, now, limit, calls, r, b.stored);
    StoredSends(a, b, calls);
  }

  lemma PropsWait(before: map<Key, Value>, sent: seq<OptProp>, calls: seq<Call>, limit: nat, r: Result<nat, ()>,
                  after: map<Key, Value>)
    requires PropsResent(before, sent, calls, limit, r, after)
    ensures forall c :: c in calls ==> c.message.Property? && c.message.key in InState(before, Changed)
                                       && c.message.value == before[c.message.key].value
    ensures forall k :: k in InState(after, Changed) ==>
              k in InState(before, Changed) && after[k].value == before[k].value
  {
    var taken := TakenCount(calls, r.Err?);
    SettledProps(before, sent, taken);
    forall c | c in calls
      ensures c.message.Property? && c.message.key in InState(before, Changed)
      ensures c.message.value == before[c.message.key].value
    {
      var i :| 0 <= i < |calls| && calls[i] == c;
      CallsAt(calls, PropertyMessages(sent), r.Err?, i);
      assert sent[i] in sent;
    }
  }

  /** All that waited was handed over, or has expired. */
  ghost predicate Delivered(a: Holdings, withVolatile: bool, calls: seq<Call>, horizon: nat) {
    && (withVolatile ==> forall e :: e in Unsent(a.volatile) ==>
          HandedIn(calls, Slot(InVolatile, e.id)) || Expired(e, horizon))
    && (forall e :: e in Unsent(a.stored) ==> HandedIn(calls, Slot(InStored, e.id)) || Expired(e, horizon / SECOND))
    && (forall k :: k in InState(a.props, Changed) ==> PropHandedIn(calls, k))
  }

  /** Everything retained, flagged or not, was handed over, or has expired; so was every device property. */
  ghost predicate HandedAgain(a: Holdings, calls: seq<Call>, horizon: nat) {
    && (forall e :: e in a.volatile ==> HandedIn(calls, Slot(InVolatile, e.id)) || Expired(e, horizon))
    && (forall e :: e in a.stored ==> HandedIn(calls, Slot(InStored, e.id)) || Expired(e, horizon / SECOND))
    && (forall k :: k in a.props && a.props[k].ownership == DeviceOwned ==> PropHandedIn(calls, k))
  }

  predicate PublishesDone(a: Holdings, b: Holdings, withVolatile: bool, r: Result<bool, ()>) {
    var before, after := |Unsent(a.volatile)| + |Unsent(a.stored)|, |Unsent(b.volatile)| + |Unsent(b.stored)|;
    && b.props == a.props && (!withVolatile ==> b.volatile == a.volatile)
    && after <= before && (r == Ok(true) ==> after < before)
    && (r == Ok(false) ==> (withVolatile ==> Unsent(b.volatile) == []) && Unsent(b.stored) == [])
  }

  predicate RoundDone(a: Holdings, b: Holdings, withVolatile: bool, clean: bool, again: bool) {
    && (!withVolatile ==> b.volatile == a.volatile)
    && Left(b) <= Left(a)
    && (clean && again ==> Left(b) < Left(a))
    && (clean && !again ==> NothingLeft(b, withVolatile))
  }

  lemma HandedInMore(calls: seq<Call>, more: seq<Call>)
    ensures forall slot :: HandedIn(calls, slot) || HandedIn(more, slot) ==> HandedIn(calls + more, slot)
    ensures forall k :: PropHandedIn(calls, k) || PropHandedIn(more, k) ==> PropHandedIn(calls + more, k)
  {
    assert forall c :: c in calls || c in more ==> c in calls + more;
  }

  lemma KeptJoin(a: Holdings, b: Holdings, c: Holdings, calls: seq<Call>, more: seq<Call>, h: nat, h': nat)
    requires Kept(a, b, calls, h) && Kept(b, c, more, h') && h <= h'
    ensures Kept(a, c, calls + more, h')
  {
    HandedInMore(calls, more);
  }

  lemma KeptAll(a: Holdings, b: Holdings, withVolatile: bool, calls: seq<Call>, horizon: nat)
    requires Kept(a, b, calls, horizon) && NothingLeft(b, withVolatile)
    ensures Delivered(a, withVolatile, calls, horizon)
  {
  }

  lemma ResetHandsAll(a: Holdings, reset: Holdings, now: nat, calls: seq<Call>, horizon: nat)
    requires reset.volatile == ResetSent(a.volatile)
    requires || a.stored == reset.stored == []
             || (reset.stored == ResetSent(Live(a.stored, now)) && now <= horizon / SECOND)
    requires reset.props == AfterReset(a.props, DeviceOwned)
    requires Delivered(reset, true, calls, horizon)
    ensures HandedAgain(a, calls, horizon)
  {
    ResetHands(InVolatile, a.volatile, 0, reset.volatile, a.volatile, calls, horizon);
    if a.stored != [] {
      ResetHands(InStored, a.stored, now, reset.stored, Live(a.stored, now), calls, horizon / SECOND);
    }
  }

  lemma ResetHands(place: Place, q: seq<Entry>, now: nat, reset: seq<Entry>, kept: seq<Entry>, calls: seq<Call>,
                   horizon: nat)
    requires reset == ResetSent(kept) && now <= horizon
    requires forall e :: e in q ==> e in kept || Expired(e, now)
    requires forall e :: e in Unsent(reset) ==> HandedIn(calls, Slot(place, e.id)) || Expired(e, horizon)
    ensures forall e :: e in q ==> HandedIn(calls, Slot(place, e.id)) || Expired(e, horizon)
  {
    ResetSentMembers(kept);
    forall e | e in q && !Expired(e, horizon)
      ensures HandedIn(calls, Slot(place, e.id))
    {
      var i :| 0 <= i < |kept| && kept[i] == e;
      assert reset[i] in Unsent(reset);
    }
  }

  lemma LogJoin(log: seq<Call>, a: seq<Call>, b: seq<Call>)
    ensures log + a + b == log + (a + b)
  {
  }

  /** A full batch shortens what is unsent, and one that is not full leaves nothing. */
  ghost predicate Shrinks(before: nat, after: nat, limit: nat, r: Result<nat, ()>) {
    && after <= before
    && (r.Ok? && r.value >= limit ==> after < before)
    && (r.Ok? && r.value < limit ==> after == 0)
  }

  lemma ResentProgress(place: Place, q: seq<Entry>, sent: seq<Entry>, now: nat, limit: nat, calls: seq<Call>,
                       r: Result<nat, ()>, after: seq<Entry>, horizon: nat)
    requires Distinct(q) && limit > 0 && now <= horizon
    requires var live := Live(q, now);
             var batch := FirstN(Unsent(live), limit);
             && Resent(live, batch, Publishes(place, sent), calls, r, after)
             && |sent| == |batch| && forall i :: 0 <= i < |sent| ==> sent[i].id == batch[i].id
    ensures Shrinks(|Unsent(q)|, |Unsent(after)|, limit, r)
    ensures Covered(place, q, after, calls, horizon)
  {
    UnsentLive(q, now);
    var unsent := Unsent(Live(q, now));
    assert forall e :: e in Unsent(q) && !Expired(e, horizon) ==> e in unsent;
    ResentCovers(place, q, unsent, sent, calls, r.Err?, after, horizon);
  }

  /** What the calls were not for is still unsent. */
  lemma ResentCovers(place: Place, q: seq<Entry>, unsent: seq<Entry>, sent: seq<Entry>, calls: seq<Call>, failed: bool,
                     after: seq<Entry>, horizon: nat)
    requires forall e :: e in Unsent(q) && !Expired(e, horizon) ==> e in unsent
    requires Calls(calls, Publishes(place, sent), failed) && TakenCount(calls, failed) <= |sent| <= |unsent|
    requires forall i :: 0 <= i < |sent| ==> sent[i].id == unsent[i].id
    requires Unsent(after) == unsent[TakenCount(calls, failed)..]
    ensures Covered(place, q, after, calls, horizon)
  {
    var taken := TakenCount(calls, failed);
    forall e | e in Unsent(q) && !Expired(e, horizon)
      ensures e in Unsent(after) || HandedIn(calls, Slot(place, e.id))
    {
      var i :| 0 <= i < |unsent| && unsent[i] == e;
      if i >= taken {
        assert Unsent(after)[i - taken] == e;
      } else {
        CallHandsIn(place, sent, calls, failed, i);
      }
    }
  }

  lemma CallHandsIn(place: Place, sent: seq<Entry>, calls: seq<Call>, failed: bool, i: nat)
    requires Calls(calls, Publishes(place, sent), failed) && i < TakenCount(calls, failed)
    ensures i < |sent| && HandedIn(calls, Slot(place, sent[i].id))
  {
    CallsAt(calls, Publishes(place, sent), failed, i);
  }

  lemma PropsProgress(before: map<Key, Value>, sent: seq<OptProp>, calls: seq<Call>, limit: nat,
                      r: Result<nat, ()>, after: map<Key, Value>)
    requires PropsResent(before, sent, calls, limit, r, after) && limit > 0
    ensures Shrinks(|InState(before, Changed)|, |InState(after, Changed)|, limit, r)
    ensures PropsCovered(before, after, calls)
  {
    var taken := TakenCount(calls, r.Err?);
    SettledProps(before, sent, taken);
    KeysWithin(before, sent, taken);
    SentKeysHanded(sent, calls, r.Err?, taken);
  }

  lemma {:induction false} SentKeysHanded(sent: seq<OptProp>, calls: seq<Call>, failed: bool, i: nat)
    requires Calls(calls, PropertyMessages(sent), failed) && i <= TakenCount(calls, failed) && i <= |sent|
    ensures forall k :: k in Keys(sent, i) ==> PropHandedIn(calls, k)
  {
    if i > 0 {
      SentKeysHanded(sent, calls, failed, i - 1);
      CallsAt(calls, PropertyMessages(sent), failed, i - 1);
    }
  }

  lemma {:induction false} KeysWithin(store: map<Key, Value>, ps: seq<OptProp>, i: nat)
    requires Snapshot(store, ps) && i <= |ps|
    ensures Keys(ps, i) <= InState(store, Changed)
    ensures |InState(store, Changed) - Keys(ps, i)| == |InState(store, Changed)| - i
  {
    KeysAre(ps, i);
    if i > 0 {
      KeysWithin(store, ps, i - 1);
      assert ps[i - 1] in ps;
    }
  }

  function PropertyMessages(ps: seq<OptProp>): (r: seq<Message>)
    ensures |r| == |ps| && forall i :: 0 <= i < |r| ==> r[i] == Property(ps[i].key, ps[i].value)
  {
    seq(|ps|, i requires 0 <= i < |ps| => Property(ps[i].key, ps[i].value))
  }

  /** The store after the first `i` of these properties were sent: values completed, unset ones gone. */
  function Settled(store: map<Key, Value>, ps: seq<OptProp>, i: nat): map<Key, Value>
    requires i <= |ps|
  {
    if i == 0 then store
    else SettledOne(Settled(store, ps, i - 1), ps[i - 1])
  }

  function SettledOne(store: map<Key, Value>, p: OptProp): map<Key, Value> {
    if p.value.Some? then Updated(store, p.key, Completed, p.value) else Deleted(store, p.key, None)
  }

  ghost predicate SameBut(a: map<Key, Value>, b: map<Key, Value>, keys: set<Key>) {
    forall k :: k !in keys ==> (k in a <==> k in b) && (k in a ==> a[k] == b[k])
  }

  lemma SettleOneProp(store: map<Key, Value>, p: OptProp)
    requires p.key in InState(store, Changed) && p.value == store[p.key].value
    ensures SameBut(store, SettledOne(store, p), {p.key})
    ensures InState(SettledOne(store, p), Changed) == InState(store, Changed) - {p.key}
  {
  }

  /** A snapshot of distinct changed device properties. */
  ghost predicate Snapshot(store: map<Key, Value>, ps: seq<OptProp>) {
    && (forall p :: p in ps ==> p.key in InState(store, Changed) && p.value == store[p.key].value)
    && (forall i, j :: 0 <= i < j < |ps| ==> ps[i].key != ps[j].key)
  }

  function Keys(ps: seq<OptProp>, i: nat): set<Key>
    requires i <= |ps|
  {
    if i == 0 then {} else Keys(ps, i - 1) + {ps[i - 1].key}
  }

  lemma {:induction false} KeysAre(ps: seq<OptProp>, i: nat)
    requires i <= |ps| && forall j, k :: 0 <= j < k < |ps| ==> ps[j].key != ps[k].key
    ensures |Keys(ps, i)| == i
    ensures forall j :: i <= j < |ps| ==> ps[j].key !in Keys(ps, i)
  {
    if i > 0 {
      KeysAre(ps, i - 1);
    }
  }

  /** Settling takes effect on every property sent, and on no other. */
  lemma {:induction false} SettledProps(store: map<Key, Value>, ps: seq<OptProp>, i: nat)
    requires Snapshot(store, ps) && i <= |ps|
    ensures SameBut(store, Settled(store, ps, i), Keys(ps, i))
    ensures InState(Settled(store, ps, i), Changed) == InState(store, Changed) - Keys(ps, i)
  {
    if i > 0 {
      SettledProps(store, ps, i - 1);
      KeysAre(ps, i - 1);
      assert ps[i - 1] in ps;
      SettleNext(store, Settled(store, ps, i - 1), ps[i - 1], Keys(ps, i - 1));
    }
  }

  lemma SettleNext(store: map<Key, Value>, before: map<Key, Value>, p: OptProp, keys: set<Key>)
    requires SameBut(store, before, keys) && InState(before, Changed) == InState(store, Changed) - keys
    requires p.key in InState(store, Changed) && p.value == store[p.key].value && p.key !in keys
    ensures SameBut(store, SettledOne(before, p), keys + {p.key})
    ensures InState(SettledOne(before, p), Changed) == InState(store, Changed) - (keys + {p.key})
  {
    SettleOneProp(before, p);
  }

  ghost predicate PropsResent(before: map<Key, Value>, sent: seq<OptProp>, calls: seq<Call>, limit: nat,
                              r: Result<nat, ()>, after: map<Key, Value>)
  {
    var taken := TakenCount(calls, r.Err?);
    && Snapshot(before, sent) && |sent| == Min(limit, |InState(before, Changed)|)
    && |calls| <= |sent| && Calls(calls, PropertyMessages(sent), r.Err?)
    && (r.Ok? ==> r.value == |sent| == |calls|)
    && after == Settled(before, sent, taken)
  }
}
