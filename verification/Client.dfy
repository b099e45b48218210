/** The send paths of a client handle (src/client/mod.rs, src/client/property.rs). */
module Client {
  import opened Basics
  import opened Types
  import opened RetentionIds
  import opened Retained
  import opened VolatileQueue
  import opened StoredTable
  import opened PropertyStore
  import opened Device

  datatype SendError =
    | TransportFailed
    | StoreFailed(error: StoreError)
    | NotConnected
    | MappingTypeError
    | OwnershipError
    | UnsetError

  /** The id, clock readings and choice of the database a send went with, and its calls of the transport. */
  datatype Effect = Effect(id: Id, now: nat, storeTime: nat, cascade: bool, calls: seq<Call>)

  predicate Delivers(calls: seq<Call>) {
    calls != [] && calls[0].reply.Taken?
  }

  predicate Receipts(calls: seq<Call>) {
    calls != [] && calls[0].receipt
  }

  /** The volatile queue after a send: flagged only if the transport took the packet. */
  function InQueue(q: seq<Entry>, capacity: nat, p: Packet, e: Effect): seq<Entry> {
    var after := Pushed(q, capacity, e.now, NewItem(e.id, p, Delivers(e.calls), e.storeTime));
    if Receipts(e.calls) then Remove(after, e.id) else after
  }

  /** The publish table after a send: its rows and mappings, and why storing failed if it did. */
  datatype Table = Table(rows: seq<Entry>, mappings: map<Path, Mapping>)

  ghost function StoreRow(t: Table, capacity: nat, id: Id, p: Packet, sent: bool, now: nat, cascade: bool)
    : (Table, Option<StoreError>)
  {
    match NewRow(id, p, sent)
    case Err(error) => (t, Some(error))
    case Ok(row) =>
      var room := MakeRoom(t.rows, capacity, 1, now);
      var base := BaseFor(room, t.mappings, p, cascade);
      if HasId(base, id) then (Table(room, t.mappings), Some(DuplicateId))
      else (Table(Inserted(base, row), MappingsWith(t.mappings, p)), None)
  }

  ghost function InTable(t: Table, capacity: nat, p: Packet, e: Effect): (Table, Option<StoreError>) {
    var (after, error) := StoreRow(t, capacity, e.id, p, Delivers(e.calls), e.now, e.cascade);
    (if error.None? && Receipts(e.calls) then after.(rows := Remove(after.rows, e.id)) else after, error)
  }

  /** One call for the packet, and its result. */
  predicate SentOnce(m: Message, calls: seq<Call>, r: Result<(), SendError>) {
    && |calls| == 1 && calls[0].message == m && (calls[0].receipt ==> calls[0].reply.Taken?)
    && r == if calls[0].reply.Taken? then Ok(()) else Err(TransportFailed)
  }

  predicate ForQueue(p: Packet, hasTable: bool) {
    p.retention.Volatile? || (p.retention.Stored? && !hasTable)
  }

  /** A packet that may be retained draws one id, the next one; no other draws any. */
  predicate Draws(p: Packet, before: nat, after: nat, horizon: nat, id: Id) {
    if p.retention.Discard? then after == before
    else after == Bump(before) && id.counter == before && id.timestamp <= horizon / MILLI
  }

  predicate ForTable(p: Packet, hasTable: bool) {
    p.retention.Stored? && hasTable
  }

  /** What a send answers: `error` is the failure of the table, for the packets that go there. */
  predicate Answers(status: ConnStatus, p: Packet, slot: Slot, e: Effect, error: Option<StoreError>,
                    r: Result<(), SendError>)
  {
    match status
    case Connected =>
      if error.Some? then e.calls == [] && r == Err(StoreFailed(error.value))
      else SentOnce(if p.retention.Discard? then Plain(p) else Publish(slot, p), e.calls, r)
    case Disconnected => e.calls == [] && r == if error.Some? then Err(StoreFailed(error.value)) else Ok(())
    case Closed => e.calls == [] && r == Err(NotConnected)
  }

  // ---- The two flag updates around a call ----------------------------------------------------------

  lemma UnflagPushed(q: seq<Entry>, capacity: nat, now: nat, id: Id, p: Packet, t: nat)
    requires !HasId(q, id)
    ensures SetSent(Pushed(q, capacity, now, NewItem(id, p, true, t)), id, false)
         == Pushed(q, capacity, now, NewItem(id, p, false, t))
  {
    var room := MakeRoom(q, capacity, 1, now);
    RoomWithin(q, capacity, 1, now);
    if capacity == 0 {
      SetSentAbsent(q, id, false);
    } else if !Storable(p) {
      SetSentAbsent(room, id, false);
      assert room + [] == room;
    } else {
      UnflagLast(room, NewItem(id, p, true, t));
    }
  }

  lemma UnflagLast(room: seq<Entry>, item: Entry)
    requires !HasId(room, item.id)
    ensures SetSent(room + [item], item.id, false) == room + [item.(sent := false)]
  {
    assert forall j :: 0 <= j < |room| ==> room[j] in room;
    SetSentAt(room + [item], item.id, false, |room|);
  }

  lemma UnflagInserted(base: seq<Entry>, row: Entry)
    ensures SetSent(Inserted(base, row), row.id, false) == Inserted(base, row.(sent := false))
  {
    var below := Filter((r: Entry) => Less(r.id, row.id), base);
    assert forall j :: 0 <= j < |below| ==> below[j] in below;
    SetSentAt(Inserted(base, row), row.id, false, |below|);
  }

  lemma UnflagStored(t: Table, capacity: nat, id: Id, p: Packet, now: nat, cascade: bool)
    requires StoreRow(t, capacity, id, p, true, now, cascade).1 == None
    ensures var after := StoreRow(t, capacity, id, p, true, now, cascade).0;
            StoreRow(t, capacity, id, p, false, now, cascade) == (after.(rows := SetSent(after.rows, id, false)), None)
  {
    UnflagInserted(BaseFor(MakeRoom(t.rows, capacity, 1, now), t.mappings, p, cascade), NewRow(id, p, true).value);
  }

  /** The row as the reply to the one call leaves it. */
  lemma RowAfterCall(t: Table, capacity: nat, p: Packet, e: Effect)
    requires |e.calls| == 1 && (e.calls[0].receipt ==> e.calls[0].reply.Taken?)
    requires StoreRow(t, capacity, e.id, p, true, e.now, e.cascade).1 == None
    ensures var after := StoreRow(t, capacity, e.id, p, true, e.now, e.cascade).0;
            var rows := if !e.calls[0].reply.Taken? then SetSent(after.rows, e.id, false)
                        else if e.calls[0].receipt then Remove(after.rows, e.id)
                        else after.rows;
            InTable(t, capacity, p, e) == (after.(rows := rows), None)
  {
    UnflagStored(t, capacity, e.id, p, e.now, e.cascade);
  }

  lemma PushedDistinct(q: seq<Entry>, capacity: nat, now: nat, e: Entry, sent: bool)
    requires Distinct(q) && !HasId(q, e.id)
    ensures var r := Pushed(q, capacity, now, e);
            Distinct(r) && Distinct(Remove(r, e.id)) && Distinct(SetSent(r, e.id, sent))
  {
    MakeRoomMembers(q, capacity, 1, now);
    AppendMembers(MakeRoom(q, capacity, 1, now), e);
    RemoveMembers(Pushed(q, capacity, now, e), e.id);
    SetSentMembers(Pushed(q, capacity, now, e), e.id, sent);
  }

  class DeviceClient {
    const device: Device

    constructor (device: Device)
      ensures this.device == device
    {
      this.device := device;
    }

    function HasTable(): bool {
      device.stored != null
    }

    ghost function Queue(): seq<Entry>
      reads device.volatile
    {
      device.volatile.store
    }

    ghost function TableOf(): Table
      reads device.stored
    {
      if device.stored == null then Table([], map[]) else Table(device.stored.rows, device.stored.mappings)
    }

    ghost function Capacity(): nat
      reads device.stored
    {
      if device.stored == null then 0 else device.stored.retentionCapacity
    }

    /** Room for one more row in the database. */
    ghost predicate Ready()
      reads device, device.volatile, device.stored, device.ids
    {
      device.Valid() && (device.stored != null ==> |device.stored.rows| < I64_MAX)
    }

    /** The timestamp is a reading of the clock in milliseconds. */
    method NextId() returns (id: Id, ghost now: nat)
      requires device.ids.Valid()
      modifies device.ids, device.clock
      ensures device.ids.Valid() && id == Id(now / MILLI, old(device.ids.counter))
      ensures device.ids.counter == Bump(old(device.ids.counter))
      ensures device.clock.horizon == if old(device.clock.horizon) < now then now else old(device.clock.horizon)
    {
      var t := device.clock.Now();
      now := t;
      id := device.ids.Next(t / MILLI);
    }

    method PushVolatile(id: Id, p: Packet, sent: bool) returns (ghost now: nat, ghost storeTime: nat)
      requires device.volatile.Valid()
      modifies device.volatile, device.clock
      ensures device.volatile.Valid()
      ensures Queue() == Pushed(old(Queue()), device.volatile.capacity, now, NewItem(id, p, sent, storeTime))
      ensures device.clock.horizon >= old(device.clock.horizon)
    {
      var t0 := device.clock.Now();
      var t1 := device.clock.Now();
      device.volatile.Push(id, p, sent, t0, t1);
      now, storeTime := t0, t1;
    }

    /** Flags the packet in the queue, sends it, and takes the flag back if sending failed. */
    method SendVolatile(p: Packet) returns (r: Result<(), SendError>, ghost e: Effect)
      requires Ready() && !p.retention.Discard?
      modifies device.volatile, device.transport, device.clock, device.ids
      ensures device.ids.Valid() && device.volatile.Valid()
      ensures device.transport.log == old(device.transport.log) + e.calls
      ensures SentOnce(Publish(Slot(InVolatile, e.id), p), e.calls, r)
      ensures Draws(p, old(device.ids.counter), device.ids.counter, device.clock.horizon, e.id)
      ensures !HasId(old(Queue()), e.id) ==>
                device.Valid() && Queue() == InQueue(old(Queue()), device.volatile.capacity, p, e)
    {
      ghost var q := Queue();
      var id, read := NextId();
      ghost var now, storeTime;
      now, storeTime := PushVolatile(id, p, true);
      if !HasId(q, id) {
        UnflagPushed(q, device.volatile.capacity, now, id, p, storeTime);
        PushedDistinct(q, device.volatile.capacity, now, NewItem(id, p, true, storeTime), false);
      }
      var call := device.transport.Send(Publish(Slot(InVolatile, id), p));
      e := Effect(id, now, storeTime, false, [call]);
      if call.reply.Taken? {
        if call.receipt {
          var _ := device.volatile.MarkReceived(id);
        }
        return Ok(()), e;
      }
      var _ := device.volatile.MarkSent(id, false);
      return Err(TransportFailed), e;
    }

    /** Stores the packet in the publish table, which fails for an expiry out of range or a known id. */
    method StorePublish(id: Id, p: Packet, sent: bool)
      returns (r: Option<StoreError>, ghost now: nat, ghost cascade: bool)
      requires device.stored != null && device.stored.Valid() && |device.stored.rows| < I64_MAX
      modifies device.stored, device.clock
      ensures device.stored.Valid() && Capacity() == old(Capacity())
      ensures (TableOf(), r) == StoreRow(old(TableOf()), Capacity(), id, p, sent, now, cascade)
      ensures device.clock.horizon >= old(device.clock.horizon)
    {
      var t := device.clock.Now();
      var c: bool := *;
      now, cascade := t / SECOND, c;
      var row := NewRow(id, p, sent);
      if row.Err? {
        return Some(row.error), now, cascade;
      }
      var stored := device.stored.Store(row.value, t / SECOND, c);
      r := if stored.Ok? then None else Some(stored.error);
    }

    /** The same as `SendVolatile` for the publish table; without one the packet goes to the queue. */
    method SendStored(p: Packet) returns (r: Result<(), SendError>, ghost e: Effect)
      requires Ready() && p.retention.Stored?
      modifies device.volatile, device.stored, device.transport, device.clock, device.ids
      ensures device.ids.Valid() && device.volatile.Valid() && (device.stored != null ==> device.stored.Valid())
      ensures device.transport.log == old(device.transport.log) + e.calls
      ensures Draws(p, old(device.ids.counter), device.ids.counter, device.clock.horizon, e.id)
      ensures device.stored != null ==> device.Valid() && Queue() == old(Queue())
      ensures device.stored != null ==>
                var (after, error) := InTable(old(TableOf()), old(Capacity()), p, e);
                TableOf() == after && Answers(Connected, p, Slot(InStored, e.id), e, error, r)
      ensures device.stored == null ==> SentOnce(Publish(Slot(InVolatile, e.id), p), e.calls, r)
      ensures device.stored == null && !HasId(old(Queue()), e.id) ==>
                device.Valid() && Queue() == InQueue(old(Queue()), device.volatile.capacity, p, e)
    {
      if device.stored == null {
        r, e := SendVolatile(p);
        return;
      }
      ghost var t := TableOf();
      var id, read := NextId();
      var failed;
      ghost var now, cascade;
      failed, now, cascade := StorePublish(id, p, true);
      e := Effect(id, now, 0, cascade, []);
      if failed.Some? {
        return Err(StoreFailed(failed.value)), e;
      }
      var call := device.transport.Send(Publish(Slot(InStored, id), p));
      e := e.(calls := [call]);
      RowAfterCall(t, Capacity(), p, e);
      if call.reply.Taken? {
        if call.receipt {
          device.stored.MarkReceived(id);
        }
        return Ok(()), e;
      }
      device.stored.UpdateSentFlag(id, false);
      return Err(TransportFailed), e;
    }

    /** Keeps the packet, unsent, in the store its retention asks for; drops it if it asks for none. */
    method OfflineSend(p: Packet) returns (r: Option<StoreError>, ghost e: Effect)
      requires Ready()
      modifies device.volatile, device.stored, device.clock, device.ids
      ensures device.ids.Valid() && device.volatile.Valid() && (device.stored != null ==> device.stored.Valid())
      ensures e.calls == []
      ensures Draws(p, old(device.ids.counter), device.ids.counter, device.clock.horizon, e.id)
      ensures !HasId(old(Queue()), e.id) || !ForQueue(p, HasTable()) ==> device.Valid()
      ensures Queue() == if ForQueue(p, HasTable()) then InQueue(old(Queue()), device.volatile.capacity, p, e)
                         else old(Queue())
      ensures (TableOf(), r) == if ForTable(p, HasTable()) then InTable(old(TableOf()), old(Capacity()), p, e)
                                else (old(TableOf()), None)
    {
      r, e := None, Effect(Id(0, 0), 0, 0, false, []);
      ghost var q, now, storeTime, cascade := Queue(), 0, 0, false;
      match p.retention {
        case Discard =>
        case Volatile(_) =>
          var id, read := NextId();
          now, storeTime := PushVolatile(id, p, false);
          e := Effect(id, now, storeTime, false, []);
        case Stored(_) =>
          var id, read := NextId();
          if device.stored != null {
            r, now, cascade := StorePublish(id, p, false);
          } else {
            now, storeTime := PushVolatile(id, p, false);
          }
          e := Effect(id, now, storeTime, cascade, []);
      }
      if ForQueue(p, HasTable()) && !HasId(q, e.id) {
        PushedDistinct(q, device.volatile.capacity, now, NewItem(e.id, p, false, storeTime), false);
      }
    }

    /**
     Sends a packet, or keeps it for later, by the status of the connection. On a closed connection
     the packet is kept all the same, and an error is returned.
     */
    method Send(p: Packet) returns (r: Result<(), SendError>, ghost e: Effect)
      requires Ready()
      modifies device.volatile, device.stored, device.transport, device.clock, device.ids
      ensures device.transport.log == old(device.transport.log) + e.calls
      ensures Draws(p, old(device.ids.counter), device.ids.counter, device.clock.horizon, e.id)
      ensures ForQueue(p, HasTable()) ==>
                && TableOf() == old(TableOf())
                && Answers(device.status, p, Slot(InVolatile, e.id), e, None, r)
      ensures ForQueue(p, HasTable()) && !HasId(old(Queue()), e.id) ==>
                device.Valid() && Queue() == InQueue(old(Queue()), device.volatile.capacity, p, e)
      ensures ForTable(p, HasTable()) ==>
                var (after, error) := InTable(old(TableOf()), old(Capacity()), p, e);
                && Queue() == old(Queue()) && TableOf() == after && device.Valid()
                && Answers(device.status, p, Slot(InStored, e.id), e, error, r)
      ensures p.retention.Discard? ==>
                && Queue() == old(Queue()) && TableOf() == old(TableOf()) && device.Valid()
                && Answers(device.status, p, Slot(InVolatile, e.id), e, None, r)
    {
      match device.status {
        case Connected =>
        case Disconnected =>
          var failed;
          failed, e := OfflineSend(p);
          return if failed.Some? then Err(StoreFailed(failed.value)) else Ok(()), e;
        case Closed =>
          var failed;
          failed, e := OfflineSend(p);
          return Err(NotConnected), e;
      }
      match p.retention {
        case Volatile(_) => r, e := SendVolatile(p);
        case Stored(_) => r, e := SendStored(p);
        case Discard =>
          var call := device.transport.Send(Plain(p));
          e := Effect(Id(0, 0), 0, 0, false, [call]);
          r := if call.reply.Taken? then Ok(()) else Err(TransportFailed);
      }
    }

    // ---- Properties -----------------------------------------------------------------------------

    /** The stored value, unless its major or its type is no longer that of the mapping. */
    method TryLoadProp(m: PropertyMapping) returns (value: Option<AstarteData>)
      modifies device.props
      ensures device.props.store == Loaded(old(device.props.store), m).0
      ensures value == Loaded(old(device.props.store), m).1
    {
      value := device.props.LoadProp(m.key, m.major);
      if value.Some? && !EqMappingType(value.value, m.mappingType) {
        device.props.DeleteProp(m.key);
        value := None;
      }
    }

    /**
     Stores the property, sends it, and completes it if it still has the value that was sent. A value
     that is already stored is not sent, whether or not the stored one ever was.
     */
    method SendProperty(m: PropertyMapping, data: AstarteData)
      returns (r: Result<(), SendError>, ghost calls: seq<Call>)
      modifies device.props, device.transport
      ensures device.transport.log == old(device.transport.log) + calls
      ensures PropertySet(old(device.props.store), device.props.store, device.status, m, data, calls, r)
    {
      if !m.deviceOwned {
        return Err(OwnershipError), [];
      }
      if !EqMappingType(data, m.mappingType) {
        return Err(MappingTypeError), [];
      }
      var stored := TryLoadProp(m);
      if stored == Some(data) {
        return Ok(()), [];
      }
      device.props.StoreProp(m.key, data, m.major, DeviceOwned);
      match device.status {
        case Connected =>
          var call := device.transport.Send(Property(m.key, Some(data)));
          if !call.reply.Taken? {
            return Err(TransportFailed), [call];
          }
          var _ := device.props.UpdateState(m.key, Completed, Some(data));
          return Ok(()), [call];
        case Disconnected =>
          return Ok(()), [];
        case Closed =>
          return Err(NotConnected), [];
      }
    }

    method SendUnset(m: PropertyMapping) returns (r: Result<(), SendError>, ghost calls: seq<Call>)
      modifies device.props, device.transport
      ensures device.transport.log == old(device.transport.log) + calls
      ensures PropertyUnset(old(device.props.store), device.props.store, device.status, m, calls, r)
    {
      if !m.deviceOwned {
        return Err(OwnershipError), [];
      }
      if !m.allowUnset {
        return Err(UnsetError), [];
      }
      device.props.UnsetProp(m.key);
      match device.status {
        case Connected =>
          var call := device.transport.Send(Property(m.key, None));
          if !call.reply.Taken? {
            return Err(TransportFailed), [call];
          }
          var _ := device.props.DeleteExpectedProp(m.key, None);
          return Ok(()), [call];
        case Disconnected =>
          return Ok(()), [];
        case Closed =>
          return Err(NotConnected), [];
      }
    }
  }

  /** A property mapping and the interface it belongs to. */
  datatype PropertyMapping = PropertyMapping(key: Key, major: int, mappingType: MappingType, deviceOwned: bool,
                                             allowUnset: bool)

  /** The property store after a load, and the value loaded: a stale property is deleted by it. */
  function Loaded(store: map<Key, Value>, m: PropertyMapping): (map<Key, Value>, Option<AstarteData>) {
    if m.key !in store then (store, None)
    else
      var v := store[m.key];
      if v.major != m.major || (v.value.Some? && !EqMappingType(v.value.value, m.mappingType))
      then (store - {m.key}, None)
      else (store, v.value)
  }

  /** The one call for a property, made only when connected, and what the client is told. */
  ghost predicate PropertyCalls(status: ConnStatus, m: Message, calls: seq<Call>, r: Result<(), SendError>) {
    match status
    case Connected => SentOnce(m, calls, r)
    case Disconnected => calls == [] && r == Ok(())
    case Closed => calls == [] && r == Err(NotConnected)
  }

  ghost predicate PropertySet(before: map<Key, Value>, after: map<Key, Value>, status: ConnStatus, m: PropertyMapping,
                              data: AstarteData, calls: seq<Call>, r: Result<(), SendError>)
  {
    if !m.deviceOwned then after == before && calls == [] && r == Err(OwnershipError)
    else if !EqMappingType(data, m.mappingType) then after == before && calls == [] && r == Err(MappingTypeError)
    else if Loaded(before, m).1 == Some(data) then after == before && calls == [] && r == Ok(())
    else
      && PropertyCalls(status, Property(m.key, Some(data)), calls, r)
      && var state := if Delivers(calls) then Completed else Changed;
         after == before[m.key := Value(Some(data), m.major, DeviceOwned, state)]
  }

  ghost predicate PropertyUnset(before: map<Key, Value>, after: map<Key, Value>, status: ConnStatus, m: PropertyMapping,
                                calls: seq<Call>, r: Result<(), SendError>)
  {
    if !m.deviceOwned then after == before && calls == [] && r == Err(OwnershipError)
    else if !m.allowUnset then after == before && calls == [] && r == Err(UnsetError)
    else
      && PropertyCalls(status, Property(m.key, None), calls, r)
      && after == if Delivers(calls) then before - {m.key} else AfterUnset(before, m.key)
  }

  // ---- What a send means for the packet and for the property ---------------------------------------

  /** The packet is waiting, or flagged, or gone, as the transport answered; the others are as eviction left them. */
  lemma QueuedAfterSend(q: seq<Entry>, capacity: nat, p: Packet, e: Effect)
    requires Distinct(q) && !HasId(q, e.id) && capacity > 0 && Storable(p)
    ensures var after := InQueue(q, capacity, p, e);
            && (Receipts(e.calls) ==> !HasId(after, e.id))
            && (!Receipts(e.calls) ==> NewItem(e.id, p, Delivers(e.calls), e.storeTime) in after)
            && (forall x :: x in after && x.id != e.id ==> x in q)
            && (forall x :: x in q && x !in after ==> x !in MakeRoom(q, capacity, 1, e.now))
  {
    MakeRoomMembers(q, capacity, 1, e.now);
    var item := NewItem(e.id, p, Delivers(e.calls), e.storeTime);
    AppendMembers(MakeRoom(q, capacity, 1, e.now), item);
    RemoveMembers(Pushed(q, capacity, e.now, item), e.id);
  }

  /** The mapping of the path is replaced, and the database takes its rows along. */
  predicate TakesAlong(t: Table, p: Packet, e: Effect, x: Entry) {
    e.cascade && PathOf(p) in t.mappings && !HasMapping(t.mappings, p) && PathOf(x.packet) == PathOf(p)
  }

  /** The same for the table, where a replaced mapping can also take rows along. */
  lemma StoredAfterSend(t: Table, capacity: nat, p: Packet, e: Effect)
    requires Sorted(t.rows) && InTable(t, capacity, p, e).1 == None
    ensures var after, row := InTable(t, capacity, p, e).0.rows, NewRow(e.id, p, Delivers(e.calls)).value;
            && (Receipts(e.calls) ==> !HasId(after, e.id))
            && (!Receipts(e.calls) ==> row in after)
            && (forall x :: x in after && x.id != e.id ==> x in t.rows)
            && (forall x :: x in t.rows && x !in after ==>
                  x !in MakeRoom(t.rows, capacity, 1, e.now) || TakesAlong(t, p, e, x))
            && Sorted(after)
  {
    var lt := (a, b) => Less(a, b);
    var room, row := MakeRoom(t.rows, capacity, 1, e.now), NewRow(e.id, p, Delivers(e.calls)).value;
    var base := BaseFor(room, t.mappings, p, e.cascade);
    SortedDistinct(t.rows);
    MakeRoomMembers(t.rows, capacity, 1, e.now);
    MakeRoomOrdered(lt, t.rows, capacity, 1, e.now);
    FilterOrdered(lt, (x: Entry) => PathOf(x.packet) != PathOf(p), room);
    InsertedSorted(base, row);
    SortedDistinct(Inserted(base, row));
    RemoveMembers(Inserted(base, row), e.id);
    RemoveSorted(Inserted(base, row), e.id);
    FilterOrdered(lt, (x: Entry) => x.id != e.id, Inserted(base, row));
  }

  /**
   A set on a connected device that is answered with success leaves its property to be sent, without
   having sent anything, exactly when the value was already stored and not yet sent.
   */
  lemma SilentSetIff(before: map<Key, Value>, after: map<Key, Value>, m: PropertyMapping, data: AstarteData,
                     calls: seq<Call>, r: Result<(), SendError>)
    requires PropertySet(before, after, Connected, m, data, calls, r) && r.Ok?
    ensures calls == [] <==> Loaded(before, m).1 == Some(data)
    ensures m.key in InState(after, Changed) <==> Loaded(before, m).1 == Some(data) && m.key in InState(before, Changed)
  {
    if Loaded(before, m).1 != Some(data) {
      assert Delivers(calls);
    }
  }

  /**
   An unset that was answered while offline reaches the transport with the next error-free resend exactly
   when the property was waiting to be sent before; for a completed property it never does.
   */
  lemma OfflineUnsetIsSentIff(before: map<Key, Value>, after: map<Key, Value>, m: PropertyMapping, unset: seq<Call>,
                              r: Result<(), SendError>, held: Holdings, later: Holdings, withVolatile: bool,
                              calls: seq<Call>, horizon: nat)
    requires PropertyUnset(before, after, Disconnected, m, unset, r) && r.Ok?
    requires held.props == after && Delivered(held, withVolatile, calls, horizon) && SendsWaiting(held, later, calls)
    ensures (exists c :: c in calls && c.reply.Taken? && c.message == Property(m.key, None))
       <==> m.key in InState(before, Changed)
    ensures m.key !in InState(before, Changed) ==> !PropHandedIn(calls, m.key)
  {
    if m.key in InState(before, Changed) {
      assert m.key in InState(held.props, Changed);
      var c :| c in calls && c.reply.Taken? && c.message.Property? && c.message.key == m.key;
      assert Waits(held, c.message);
    }
  }

  /**
   Setting a property again after the transport refused it is silent: the client is told it went well,
   nothing is sent, and the property stays unsent until the next resend.
   */
  lemma RetryIsSilent(s0: map<Key, Value>, s1: map<Key, Value>, s2: map<Key, Value>, m: PropertyMapping,
                      data: AstarteData, first: seq<Call>, r: Result<(), SendError>, second: seq<Call>,
                      r': Result<(), SendError>)
    requires m.deviceOwned && EqMappingType(data, m.mappingType)
    requires PropertySet(s0, s1, Connected, m, data, first, r) && PropertySet(s1, s2, Connected, m, data, second, r')
    ensures r' == Ok(()) && second == [] && s2 == s1
    ensures first != [] ==> (m.key in InState(s2, Changed) <==> r.Err?)
  {
  }
}
