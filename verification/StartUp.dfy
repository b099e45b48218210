/**
 Start-up leaves the stores as the protocols begin with them (src/connection/resend.rs:44-81,
 src/retention/mod.rs:284-312).
 */
module StartUp {
  import opened Basics
  import opened RetentionIds
  import opened Retained
  import opened StoredTable
  import opened PropertyStore
  import opened InstalledInterfaces
  import opened Introspection
  import Delivery
  import PropertySync

  /** The rows are in key order, within the capacity and all unsent, and each was there before. */
  lemma RowsLeftMean(w: World, size: nat, t1: nat, t2: nat)
    requires Sorted(w.rows)
    ensures var left := Started(w, size, t1, t2).rows;
            && Sorted(left) && |left| <= size
            && forall e :: e in left ==>
                 && !e.sent && Holds(w.rows, e) && !Expired(e, t2)
                 && e.packet.interface !in OutdatedNames(w.interfaces, w.mappings)
  {
    var lt, out := (a, b) => Less(a, b), OutdatedNames(w.interfaces, w.mappings);
    var kept := OutsideAll(w.rows, out);
    var room := MakeRoom(kept, size, 0, t1);
    var live := Live(room, t2);
    FilterOrdered(lt, (e: Entry) => e.packet.interface !in out, w.rows);
    MakeRoomOrdered(lt, kept, size, 0, t1);
    FilterOrdered(lt, e => !Expired(e, t2), room);
    ResetSentSorted(live);
    MakeRoomMinimal(kept, size, 0, t1);
    RoomWithin(kept, size, 0, t1);
    ResetSentMembers(live);
  }

  /**
   With an empty queue, everything retained after start-up can be sent exactly when no interface that a
   row is left for has become one of properties.
   */
  lemma StartedFitsIff(w: World, hasTable: bool, size: nat, t1: nat, t2: nat)
    requires Sound(w, hasTable) && Sorted(w.rows) && w.volatile == []
    ensures var r := Started(w, size, t1, t2);
            && Sound(r, hasTable)
            && (forall e :: e in r.rows ==>
                  UpToDate(r.interfaces, e.packet.interface, r.mappings[PathOf(e.packet)].major))
            && (Fits(r) <==> forall e :: e in r.rows ==> !r.interfaces[e.packet.interface].kind.Properties?)
  {
    var r := Started(w, size, t1, t2);
    RowsLeftMean(w, size, t1, t2);
    StartUpFits(w.interfaces, w.rows, w.mappings);
    forall e | e in r.rows
      ensures PathOf(e.packet) in r.mappings
      ensures UpToDate(r.interfaces, e.packet.interface, r.mappings[PathOf(e.packet)].major)
      ensures RowFits(r.interfaces, r.mappings, e) <==> !r.interfaces[e.packet.interface].kind.Properties?
    {
      var f :| f in w.rows && f.packet == e.packet;
      assert f in OutsideAll(w.rows, OutdatedNames(w.interfaces, w.mappings));
    }
    assert !hasTable ==> r.rows == [] && r.mappings == map[];
  }

  /** Both protocols begin in the state that start-up leaves, whatever the database held. */
  lemma StartedIsInitial(w: World, hasTable: bool, size: nat, t1: nat, t2: nat, s: Delivery.State,
                         p: PropertySync.State)
    requires Sound(w, hasTable) && Sorted(w.rows) && w.volatile == [] && size > 0
    requires var r := Started(w, size, t1, t2);
             && s.volatile == r.volatile && s.stored == r.rows && s.storedCapacity == size
             && p.store == DeviceView(r.props)
    requires s.attempts == [] && Delivery.AllIdle(s) && forall e :: e in w.rows ==> e.id in s.used
    requires p.status.Disconnected? && p.task.NoTask? && p.last == map[] && PropertySync.AllIdle(p)
    ensures Delivery.Initial(s) && Delivery.Structural(s) && PropertySync.Initial(p, |p.clients|)
  {
    RowsLeftMean(w, size, t1, t2);
    ResetRefines(w.props);
    forall e | e in s.stored
      ensures !e.sent && e.id in s.used
    {
      var f :| f in w.rows && f.id == e.id;
    }
  }
}
