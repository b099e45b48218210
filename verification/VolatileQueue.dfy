/** The in-memory queue for interfaces with volatile retention (src/retention/memory.rs). */
module VolatileQueue {
  import opened Basics
  import opened RetentionIds
  import opened Retained

  /** `ItemValue::try_from` refuses packets whose retention is `Discard`. */
  predicate Storable(p: Packet) {
    !p.retention.Discard?
  }

  function ExpiryOf(p: Packet): Option<nat> {
    match p.retention
    case Discard => None
    case Volatile(e) => e
    case Stored(e) => e
  }

  function NewItem(id: Id, p: Packet, sent: bool, storeTime: nat): Entry {
    Entry(id, sent, match ExpiryOf(p) case None => None case Some(e) => Some(storeTime + e), p)
  }

  /** The queue after a push: the newest item is kept, at the cost of expired and then of old ones. */
  function Pushed(q: seq<Entry>, capacity: nat, now: nat, e: Entry): seq<Entry> {
    if capacity == 0 then q
    else MakeRoom(q, capacity, 1, now) + if Storable(e.packet) then [e] else []
  }

  class State {
    const capacity: nat
    var store: seq<Entry>

    ghost predicate Valid()
      reads this
    {
      |store| <= capacity
    }

    constructor WithCapacity(capacity: nat)
      ensures Valid() && this.capacity == capacity && store == []
    {
      this.capacity := capacity;
      store := [];
    }

    predicate IsFull()
      reads this
    {
      |store| == capacity
    }

    /** Two clock readings: one if expired items have to be removed, one to stamp the new item. */
    method Push(id: Id, value: Packet, sent: bool, now: nat, storeTime: nat)
      requires Valid()
      modifies this
      ensures Valid()
      ensures store == Pushed(old(store), capacity, now, NewItem(id, value, sent, storeTime))
    {
      if IsFull() {
        if capacity == 0 {
          return;
        }
        RemoveExpired(now);
        if IsFull() {
          store := store[1..];
        }
      }
      if !Storable(value) {
        return;
      }
      store := store + [NewItem(id, value, sent, storeTime)];
    }

    method RemoveExpired(now: nat)
      requires Valid()
      modifies this
      ensures Valid()
      ensures store == Live(old(store), now)
    {
      var p := e => !Expired(e, now);
      var kept := [];
      for i := 0 to |store|
        invariant store == old(store)
        invariant kept == Filter(p, store[..i])
      {
        FilterSnoc(p, store, i);
        if !Expired(store[i], now) {
          kept := kept + [store[i]];
        }
      }
      assert store[..|store|] == store;
      store := kept;
    }

    method ResetSent()
      requires Valid()
      modifies this
      ensures Valid()
      ensures store == Retained.ResetSent(old(store))
    {
      var i := 0;
      while i < |store|
        invariant i <= |store| == |old(store)|
        invariant forall j :: 0 <= j < i ==> store[j] == old(store)[j].(sent := false)
        invariant forall j :: i <= j < |store| ==> store[j] == old(store)[j]
      {
        store := store[i := store[i].(sent := false)];
        i := i + 1;
      }
      ResetSentMembers(old(store));
    }

    /** Appends to `buf` the first `limit` items that are neither expired nor sent. */
    method GetUnsent(buf: seq<Entry>, limit: nat, now: nat) returns (out: seq<Entry>, count: nat)
      requires Valid()
      modifies this
      ensures Valid()
      ensures store == Live(old(store), now)
      ensures out == buf + FirstN(Unsent(store), limit) && count == |out| - |buf|
    {
      RemoveExpired(now);
      out := buf;
      var i := 0;
      while i < |store| && |out| - |buf| < limit
        invariant i <= |store| && store == Live(old(store), now)
        invariant out == buf + Unsent(store[..i]) && |out| - |buf| <= limit
      {
        UnsentSnoc(store, i);
        if !store[i].sent {
          out := out + [store[i]];
        }
        i := i + 1;
      }
      UnsentPrefix(store, i, limit);
      count := |out| - |buf|;
    }

    /** Returns the previous flag of the item, if it is still in the queue. */
    method MarkSent(id: Id, sent: bool) returns (previous: Option<bool>)
      requires Valid()
      modifies this
      ensures Valid()
      ensures store == SetSent(old(store), id, sent)
      ensures previous.Some? <==> HasId(old(store), id)
      ensures previous.Some? ==> exists e :: e in old(store) && e.id == id && e.sent == previous.value
    {
      var i := 0;
      while i < |store|
        invariant i <= |store| && store == old(store)
        invariant forall j :: 0 <= j < i ==> store[j].id != id
      {
        if store[i].id == id {
          previous := Some(store[i].sent);
          SetSentAt(store, id, sent, i);
          store := store[i := store[i].(sent := sent)];
          return;
        }
        i := i + 1;
      }
      previous := None;
      SetSentAbsent(store, id, sent);
    }

    /** Removes an acknowledged item and returns its value. */
    method MarkReceived(id: Id) returns (value: Option<Packet>)
      requires Valid()
      modifies this
      ensures Valid()
      ensures store == Remove(old(store), id)
      ensures value.Some? <==> HasId(old(store), id)
      ensures value.Some? ==> exists e :: e in old(store) && e.id == id && e.packet == value.value
    {
      var i := 0;
      while i < |store|
        invariant i <= |store| && store == old(store)
        invariant forall j :: 0 <= j < i ==> store[j].id != id
      {
        if store[i].id == id {
          value := Some(store[i].packet);
          RemoveAt(store, id, i);
          store := store[..i] + store[i + 1..];
          return;
        }
        i := i + 1;
      }
      value := None;
      RemoveAbsent(store, id);
    }

    /** Removes the items of the interface, and whatever has expired. */
    method DeleteInterface(interface: string, now: nat) returns (count: nat)
      requires Valid()
      modifies this
      ensures Valid()
      ensures store == Outside(Live(old(store), now), interface)
      ensures count == |old(store)| - |store|
    {
      var stays := (e: Entry) => !Expired(e, now) && e.packet.interface != interface;
      count := 0;
      var kept := [];
      for i := 0 to |store|
        invariant store == old(store) && count + |kept| == i
        invariant kept == Filter(stays, store[..i])
      {
        FilterSnoc(stays, store, i);
        if Expired(store[i], now) || store[i].packet.interface == interface {
          count := count + 1;
        } else {
          kept := kept + [store[i]];
        }
      }
      assert store[..|store|] == store;
      OutsideLive(store, interface, now);
      store := kept;
    }
  }

  lemma UnsentSnoc(q: seq<Entry>, i: nat)
    requires i < |q|
    ensures Unsent(q[..i + 1]) == Unsent(q[..i]) + if q[i].sent then [] else [q[i]]
  {
    FilterSnoc((e: Entry) => !e.sent, q, i);
  }

  lemma UnsentPrefix(q: seq<Entry>, i: nat, limit: nat)
    requires i <= |q| && |Unsent(q[..i])| <= limit && (i == |q| || |Unsent(q[..i])| == limit)
    ensures Unsent(q[..i]) == FirstN(Unsent(q), limit)
  {
    FilterAppend((e: Entry) => !e.sent, q[..i], q[i..]);
    assert q == q[..i] + q[i..];
  }

  lemma OutsideLive(q: seq<Entry>, interface: string, now: nat)
    ensures Outside(Live(q, now), interface)
         == Filter((e: Entry) => !Expired(e, now) && e.packet.interface != interface, q)
  {
    FilterTwice(e => !Expired(e, now), (e: Entry) => e.packet.interface != interface,
                (e: Entry) => !Expired(e, now) && e.packet.interface != interface, q);
  }

  lemma {:induction false} SetSentAt(q: seq<Entry>, id: Id, sent: bool, i: nat)
    requires i < |q| && q[i].id == id && forall j :: 0 <= j < i ==> q[j].id != id
    ensures SetSent(q, id, sent) == q[i := q[i].(sent := sent)]
  {
    if i > 0 {
      SetSentAt(q[1..], id, sent, i - 1);
    }
  }

  lemma {:induction false} SetSentAbsent(q: seq<Entry>, id: Id, sent: bool)
    requires !HasId(q, id)
    ensures SetSent(q, id, sent) == q
  {
    if q != [] {
      assert q[0] in q;
      SetSentAbsent(q[1..], id, sent);
    }
  }

  lemma {:induction false} RemoveAt(q: seq<Entry>, id: Id, i: nat)
    requires i < |q| && q[i].id == id && forall j :: 0 <= j < i ==> q[j].id != id
    ensures Remove(q, id) == q[..i] + q[i + 1..]
  {
    if i > 0 {
      RemoveAt(q[1..], id, i - 1);
    }
  }

  lemma {:induction false} RemoveAbsent(q: seq<Entry>, id: Id)
    requires !HasId(q, id)
    ensures Remove(q, id) == q
  {
    if q != [] {
      assert q[0] in q;
      RemoveAbsent(q[1..], id);
    }
  }

  // ---- The queue is a bounded FIFO ------------------------------------------------------------

  /** A push happens at a clock reading `now`. */
  datatype PushAt = PushAt(now: nat, entry: Entry)

  function PushAll(q: seq<Entry>, capacity: nat, pushes: seq<PushAt>): seq<Entry> {
    if pushes == [] then q
    else
      var n := |pushes| - 1;
      Pushed(PushAll(q, capacity, pushes[..n]), capacity, pushes[n].now, pushes[n].entry)
  }

  /** What was queued at first, followed by everything pushed. */
  function Offered(q: seq<Entry>, pushes: seq<PushAt>): seq<Entry> {
    if pushes == [] then q
    else
      var n := |pushes| - 1;
      Offered(q, pushes[..n]) + [pushes[n].entry]
  }

  /** Every push offers a storable packet, and finds nothing expired among what was offered before. */
  ghost predicate NoneExpires(q: seq<Entry>, pushes: seq<PushAt>) {
    pushes == [] ||
    var n := |pushes| - 1;
    && NoneExpires(q, pushes[..n])
    && Storable(pushes[n].entry.packet)
    && forall e :: e in Offered(q, pushes[..n]) ==> !Expired(e, pushes[n].now)
  }

  /** Any run of pushes without expiry leaves exactly the last `capacity` packets, oldest first. */
  lemma {:induction false} PushesKeepTheLatest(q: seq<Entry>, capacity: nat, pushes: seq<PushAt>)
    requires |q| <= capacity && NoneExpires(q, pushes)
    ensures PushAll(q, capacity, pushes) == LastN(Offered(q, pushes), capacity)
  {
    if pushes != [] {
      var n := |pushes| - 1;
      var p, before := pushes[n], Offered(q, pushes[..n]);
      PushesKeepTheLatest(q, capacity, pushes[..n]);
      PushKeepsTheLatest(before, capacity, p.now, p.entry);
    }
  }

  lemma PushKeepsTheLatest(before: seq<Entry>, capacity: nat, now: nat, e: Entry)
    requires Storable(e.packet) && forall x :: x in before ==> !Expired(x, now)
    ensures Pushed(LastN(before, capacity), capacity, now, e) == LastN(before + [e], capacity)
  {
    FilterAll(x => !Expired(x, now), LastN(before, capacity));
    LastNAppend(before, [e], capacity);
  }

  /**
   Without assumptions on expiry: a run of pushes never outgrows the capacity, leaves only packets
   that were queued or pushed, and keeps them in the order they came (for any order `lt` in which
   they came).
   */
  lemma {:induction false} PushesKeepOrder(lt: (Id, Id) -> bool, q: seq<Entry>, capacity: nat, pushes: seq<PushAt>)
    requires |q| <= capacity && Ordered(lt, Offered(q, pushes))
    ensures |PushAll(q, capacity, pushes)| <= capacity
    ensures Ordered(lt, PushAll(q, capacity, pushes))
    ensures forall e :: e in PushAll(q, capacity, pushes) ==> e in Offered(q, pushes)
  {
    if pushes != [] {
      var n := |pushes| - 1;
      var p, before := pushes[n], Offered(q, pushes[..n]);
      assert forall i :: 0 <= i < |before| ==> Offered(q, pushes)[i] == before[i];
      PushesKeepOrder(lt, q, capacity, pushes[..n]);
      var after := PushAll(q, capacity, pushes[..n]);
      MakeRoomOrdered(lt, after, capacity, 1, p.now);
      OrderedReplace(lt, before, MakeRoom(after, capacity, 1, p.now), [p.entry]);
    }
  }
}
