/**
 What the volatile queue and the publish table have in common: a sequence of retained packets and
 the pure effect each operation has on it.
 */
module Retained {
  import opened Basics
  import opened RetentionIds

  datatype Reliability = Unreliable | Guaranteed | Unique

  /** Expiries are durations in nanoseconds. */
  datatype Retention = Discard | Volatile(expiry: Option<nat>) | Stored(expiry: Option<nat>)

  /** A validated individual or object, ready to be sent. */
  datatype Packet = Packet(interface: string, path: string, major: int, reliability: Reliability,
                           retention: Retention, payload: seq<Byte>)

  /** `deadline` is in nanoseconds in the volatile queue and in whole seconds in the publish table. */
  datatype Entry = Entry(id: Id, sent: bool, deadline: Option<nat>, packet: Packet)

  datatype Place = InVolatile | InStored

  /** `RetentionId`: which store an id belongs to. */
  datatype Slot = Slot(place: Place, id: Id)

  predicate Expired(e: Entry, now: nat) {
    e.deadline.Some? && e.deadline.value < now
  }

  function Live(q: seq<Entry>, now: nat): seq<Entry> {
    Filter(e => !Expired(e, now), q)
  }

  function Unsent(q: seq<Entry>): seq<Entry> {
    Filter((e: Entry) => !e.sent, q)
  }

  function Outside(q: seq<Entry>, interface: string): seq<Entry> {
    Filter((e: Entry) => e.packet.interface != interface, q)
  }

  /** Sets the flag of the first entry with this id. */
  function SetSent(q: seq<Entry>, id: Id, sent: bool): (r: seq<Entry>)
    ensures |r| == |q|
  {
    if q == [] then []
    else if q[0].id == id then [q[0].(sent := sent)] + q[1..]
    else [q[0]] + SetSent(q[1..], id, sent)
  }

  /** Drops the first entry with this id. */
  function Remove(q: seq<Entry>, id: Id): (r: seq<Entry>)
    ensures |r| <= |q|
  {
    if q == [] then []
    else if q[0].id == id then q[1..]
    else [q[0]] + Remove(q[1..], id)
  }

  function ResetSent(q: seq<Entry>): (r: seq<Entry>)
    ensures |r| == |q|
  {
    if q == [] then [] else [q[0].(sent := false)] + ResetSent(q[1..])
  }

  /** Room for `incoming` more entries: untouched if there is some, else the youngest live entries. */
  function MakeRoom(q: seq<Entry>, capacity: nat, incoming: nat, now: nat): seq<Entry> {
    if |q| + incoming <= capacity then q else LastN(Live(q, now), SaturatingSub(capacity, incoming))
  }

  // ---- Identity and membership --------------------------------------------------------------

  ghost predicate Distinct(q: seq<Entry>) {
    forall i, j :: 0 <= i < j < |q| ==> q[i].id != q[j].id
  }

  ghost predicate HasId(q: seq<Entry>, id: Id) {
    exists e :: e in q && e.id == id
  }

  /** `q` retains the packet of `e`, whatever its sent flag is. */
  predicate Holds(q: seq<Entry>, e: Entry) {
    e.(sent := true) in q || e.(sent := false) in q
  }

  lemma DistinctTail(q: seq<Entry>)
    requires Distinct(q) && q != []
    ensures Distinct(q[1..]) && !HasId(q[1..], q[0].id)
    ensures forall e :: e in q <==> e == q[0] || e in q[1..]
  {
    assert q == [q[0]] + q[1..];
  }

  lemma DistinctCons(e: Entry, q: seq<Entry>)
    requires Distinct(q) && !HasId(q, e.id)
    ensures Distinct([e] + q)
  {
  }

  lemma {:induction false} FilterDistinct(p: Entry -> bool, q: seq<Entry>)
    requires Distinct(q)
    ensures Distinct(Filter(p, q))
  {
    if q != [] {
      DistinctTail(q);
      FilterDistinct(p, q[1..]);
      if p(q[0]) {
        DistinctCons(q[0], Filter(p, q[1..]));
      }
    }
  }

  lemma {:induction false} SetSentMembers(q: seq<Entry>, id: Id, sent: bool)
    requires Distinct(q)
    ensures Distinct(SetSent(q, id, sent))
    ensures forall e :: e in SetSent(q, id, sent)
                   <==> if e.id == id then e.sent == sent && Holds(q, e) else e in q
  {
    if q != [] {
      DistinctTail(q);
      SetSentMembers(q[1..], id, sent);
      var r := SetSent(q, id, sent);
      DistinctCons(r[0], r[1..]);
      assert r == [r[0]] + r[1..];
    }
  }

  lemma {:induction false} RemoveMembers(q: seq<Entry>, id: Id)
    requires Distinct(q)
    ensures Distinct(Remove(q, id))
    ensures forall e :: e in Remove(q, id) <==> e in q && e.id != id
  {
    if q != [] {
      DistinctTail(q);
      RemoveMembers(q[1..], id);
      if q[0].id != id {
        DistinctCons(q[0], Remove(q[1..], id));
      }
    }
  }

  lemma {:induction false} ResetSentAt(q: seq<Entry>, i: nat)
    requires i < |q|
    ensures ResetSent(q)[i] == q[i].(sent := false)
  {
    if i > 0 {
      ResetSentAt(q[1..], i - 1);
    }
  }

  lemma {:induction false} ResetSentHolds(q: seq<Entry>, e: Entry)
    ensures e in ResetSent(q) <==> !e.sent && Holds(q, e)
  {
    if q != [] {
      ResetSentHolds(q[1..], e);
      assert q == [q[0]] + q[1..];
    }
  }

  lemma ResetSentMembers(q: seq<Entry>)
    ensures Distinct(q) ==> Distinct(ResetSent(q))
    ensures forall e :: e in ResetSent(q) <==> !e.sent && Holds(q, e)
    ensures forall i :: 0 <= i < |q| ==> ResetSent(q)[i] == q[i].(sent := false)
  {
    forall i | 0 <= i < |q|
      ensures ResetSent(q)[i] == q[i].(sent := false)
    {
      ResetSentAt(q, i);
    }
    forall e
      ensures e in ResetSent(q) <==> !e.sent && Holds(q, e)
    {
      ResetSentHolds(q, e);
    }
  }

  lemma RoomWithin(q: seq<Entry>, capacity: nat, incoming: nat, now: nat)
    ensures forall x :: x in MakeRoom(q, capacity, incoming, now) ==> x in q
  {
    var live := Live(q, now);
    assert forall x :: x in LastN(live, SaturatingSub(capacity, incoming)) ==> x in live;
  }

  lemma MakeRoomMembers(q: seq<Entry>, capacity: nat, incoming: nat, now: nat)
    requires Distinct(q)
    ensures Distinct(MakeRoom(q, capacity, incoming, now))
    ensures forall e :: e in MakeRoom(q, capacity, incoming, now) ==> e in q
  {
    FilterDistinct(e => !Expired(e, now), q);
  }

  lemma AppendMembers(q: seq<Entry>, e: Entry)
    requires Distinct(q) && !HasId(q, e.id)
    ensures Distinct(q + [e])
    ensures forall x :: x in q + [e] <==> x in q || x == e
  {
  }

  /** Every entry is before, in the order `lt` of ids, the ones that follow it. */
  ghost predicate Ordered(lt: (Id, Id) -> bool, q: seq<Entry>) {
    forall i, j :: 0 <= i < j < |q| ==> lt(q[i].id, q[j].id)
  }

  lemma {:induction false} FilterOrdered(lt: (Id, Id) -> bool, p: Entry -> bool, q: seq<Entry>)
    requires Ordered(lt, q)
    ensures Ordered(lt, Filter(p, q))
  {
    if q != [] {
      FilterOrdered(lt, p, q[1..]);
      var r := Filter(p, q);
      forall i, j | 0 <= i < j < |r|
        ensures lt(r[i].id, r[j].id)
      {
        assert p(q[0]) ==> r[j] in Filter(p, q[1..]);
      }
    }
  }

  lemma OrderedReplace(lt: (Id, Id) -> bool, a: seq<Entry>, a': seq<Entry>, b: seq<Entry>)
    requires Ordered(lt, a + b) && Ordered(lt, a') && forall e :: e in a' ==> e in a
    ensures Ordered(lt, a' + b)
  {
    forall i, j | 0 <= i < |a'| && 0 <= j < |b|
      ensures lt(a'[i].id, b[j].id)
    {
      assert a'[i] in a;
      var k :| 0 <= k < |a| && a[k] == a'[i];
      assert (a + b)[k] == a'[i] && (a + b)[|a| + j] == b[j];
    }
    forall i, j | 0 <= i < j < |b|
      ensures lt(b[i].id, b[j].id)
    {
      assert (a + b)[|a| + i] == b[i] && (a + b)[|a| + j] == b[j];
    }
  }

  lemma MakeRoomOrdered(lt: (Id, Id) -> bool, q: seq<Entry>, capacity: nat, incoming: nat, now: nat)
    requires Ordered(lt, q)
    ensures Ordered(lt, MakeRoom(q, capacity, incoming, now))
  {
    FilterOrdered(lt, e => !Expired(e, now), q);
  }

  // ---- Eviction -----------------------------------------------------------------------------

  /**
   Eviction is minimal and oldest-first: nothing goes when there is room; otherwise everything
   expired goes, and a live entry goes only if it is older than all the kept ones and keeping one
   more would leave no room.
   */
  lemma MakeRoomMinimal(q: seq<Entry>, capacity: nat, incoming: nat, now: nat)
    ensures var r, live := MakeRoom(q, capacity, incoming, now), Live(q, now);
            && (|q| + incoming <= capacity ==> r == q)
            && (incoming <= capacity ==> |r| + incoming <= capacity)
            && (|q| + incoming > capacity ==>
                  && |r| <= |live| && r == live[|live| - |r|..]
                  && (|r| < |live| ==> r == [] || |r| + incoming == capacity)
                  && (forall e :: e in r ==> !Expired(e, now)))
  {
    var r, live := MakeRoom(q, capacity, incoming, now), Live(q, now);
    assert |q| + incoming > capacity ==> forall e :: e in r ==> e in live;
  }

  /** An entry that had to go was expired, or older than every entry that stayed in a full store. */
  lemma MakeRoomEvicts(q: seq<Entry>, capacity: nat, incoming: nat, now: nat, e: Entry)
    requires e in q && e !in MakeRoom(q, capacity, incoming, now)
    ensures |q| + incoming > capacity
    ensures || Expired(e, now)
            || (exists k :: 0 <= k < |Live(q, now)| - |MakeRoom(q, capacity, incoming, now)| && Live(q, now)[k] == e)
  {
    var r, live := MakeRoom(q, capacity, incoming, now), Live(q, now);
    assert forall k :: |live| - |r| <= k < |live| && |q| + incoming > capacity ==> live[k] == r[k - (|live| - |r|)];
    if !Expired(e, now) {
      var k :| 0 <= k < |live| && live[k] == e;
    }
  }
}
