/**
 The database tables behind stored retention (src/retention/sqlite/mod.rs,
 src/retention/sqlite/statements.rs), kept in primary-key order.
 */
module StoredTable {
  import opened Basics
  import opened RetentionIds
  import opened Retained

  type Path = (string, string)

  /** A row of `retention_mapping`; the expiry is a duration in nanoseconds. */
  datatype Mapping = Mapping(major: int, reliability: Reliability, expiry: Option<nat>)

  datatype StoreError = Conversion | DuplicateId

  function PathOf(p: Packet): Path {
    (p.interface, p.path)
  }

  function MappingOf(p: Packet): Mapping {
    Mapping(p.major, p.reliability, match p.retention case Stored(e) => e case _ => None)
  }

  /** What reading a stored mapping gives back: whole seconds, and no expiry beyond an `i64` of them. */
  function AsStored(m: Mapping): Mapping {
    m.(expiry := match m.expiry
                 case None => None
                 case Some(e) => if e / SECOND <= I64_MAX then Some(e / SECOND * SECOND) else None)
  }

  /** `RetentionPublish::from_info`: the conversion fails only for a packet that expires. */
  function NewRow(id: Id, p: Packet, sent: bool): Result<Entry, StoreError> {
    match MappingOf(p).expiry
    case None => Ok(Entry(id, sent, None, p))
    case Some(e) =>
      match ExpirySecs(id, e)
      case Ok(secs) => Ok(Entry(id, sent, Some(secs), p))
      case Err(_) => Err(Conversion)
  }

  ghost predicate Sorted(rows: seq<Entry>) {
    Ordered((a, b) => Less(a, b), rows)
  }

  lemma SortedDistinct(rows: seq<Entry>)
    requires Sorted(rows)
    ensures Distinct(rows)
  {
    forall i, j | 0 <= i < j < |rows|
      ensures rows[i].id != rows[j].id
    {
      assert ((a, b) => Less(a, b))(rows[i].id, rows[j].id);
    }
  }

  /** The rows with `e` at its place in key order. */
  function Inserted(rows: seq<Entry>, e: Entry): seq<Entry> {
    Filter((r: Entry) => Less(r.id, e.id), rows) + [e] + Filter((r: Entry) => Less(e.id, r.id), rows)
  }

  /** Replacing a mapping either leaves the rows of its path alone or takes them with it. */
  function Cascaded(rows: seq<Entry>, path: Path, cascade: bool): seq<Entry> {
    if cascade then Filter((r: Entry) => PathOf(r.packet) != path, rows) else rows
  }

  /** The mapping of the packet is already there, field for field. */
  predicate HasMapping(mappings: map<Path, Mapping>, p: Packet) {
    PathOf(p) in mappings && mappings[PathOf(p)] == MappingOf(p)
  }

  /** The rows a new one for `p` is inserted among. */
  function BaseFor(room: seq<Entry>, mappings: map<Path, Mapping>, p: Packet, cascade: bool): seq<Entry> {
    if HasMapping(mappings, p) then room else Cascaded(room, PathOf(p), cascade && PathOf(p) in mappings)
  }

  function MappingsWith(mappings: map<Path, Mapping>, p: Packet): map<Path, Mapping> {
    if HasMapping(mappings, p) then mappings else mappings[PathOf(p) := AsStored(MappingOf(p))]
  }

  /** The packet of a row as the join with its mapping reads it. */
  function Joined(e: Entry, m: Mapping): Entry {
    e.(packet := e.packet.(major := m.major, reliability := m.reliability, retention := Stored(m.expiry)))
  }

  function JoinAll(rows: seq<Entry>, mappings: map<Path, Mapping>): seq<Entry>
    requires forall e :: e in rows ==> PathOf(e.packet) in mappings
  {
    seq(|rows|, i requires 0 <= i < |rows| => Joined(rows[i], mappings[PathOf(rows[i].packet)]))
  }

  function StoredInterfaces(mappings: map<Path, Mapping>): set<(string, int)> {
    set k | k in mappings :: (k.0, mappings[k].major)
  }

  class WriteConnection {
    var rows: seq<Entry>
    var mappings: map<Path, Mapping>
    var retentionCapacity: nat

    /** Key order, the foreign key of the publish table, and the most rows SQLite can count. */
    ghost predicate Valid()
      reads this
    {
      && Sorted(rows) && |rows| <= I64_MAX
      && 0 < retentionCapacity <= USIZE_MAX
      && forall e :: e in rows ==> PathOf(e.packet) in mappings
    }

    ghost function Current(): Tables
      reads this
    {
      Tables(rows, mappings, retentionCapacity)
    }

    constructor (rows: seq<Entry>, mappings: map<Path, Mapping>, capacity: nat)
      requires Sorted(rows) && |rows| <= I64_MAX && 0 < capacity <= USIZE_MAX
      requires forall e :: e in rows ==> PathOf(e.packet) in mappings
      ensures Valid() && this.rows == rows && this.mappings == mappings && retentionCapacity == capacity
    {
      this.rows, this.mappings, retentionCapacity := rows, mappings, capacity;
    }

    method DeleteWhere(keep: Entry -> bool) returns (deleted: nat)
      requires Valid()
      modifies this`rows
      ensures Valid()
      ensures rows == Filter(keep, old(rows)) && deleted == |old(rows)| - |rows|
    {
      FilterOrdered((a, b) => Less(a, b), keep, rows);
      deleted := |rows| - |Filter(keep, rows)|;
      rows := Filter(keep, rows);
    }

    method DeleteExpired(now: nat) returns (deleted: nat)
      requires Valid()
      modifies this`rows
      ensures Valid()
      ensures rows == Live(old(rows), now) && deleted == |old(rows)| - |rows|
    {
      deleted := DeleteWhere(e => !Expired(e, now));
    }

    /** The `LIMIT` of the statement is an `i64`. */
    method RemoveOldest(toRemove: nat) returns (removed: nat)
      requires Valid()
      modifies this`rows
      ensures Valid()
      ensures rows == LastN(old(rows), SaturatingSub(|old(rows)|, toRemove)) && removed == |old(rows)| - |rows|
    {
      var limit := if toRemove <= I64_MAX then toRemove else I64_MAX;
      removed := if limit <= |rows| then limit else |rows|;
      rows := rows[removed..];
    }

    /** Makes room for `toStore` more rows, and returns how many were removed for it. */
    method FreeRetentionItems(toStore: nat, now: nat) returns (removed: nat)
      requires Valid() && toStore <= USIZE_MAX
      modifies this`rows
      ensures Valid()
      ensures rows == MakeRoom(old(rows), retentionCapacity, Min(toStore, USIZE_MAX - |old(rows)|), now)
      ensures removed == |old(rows)| - |rows|
    {
      var maxItems := retentionCapacity;
      var countStored := |rows|;
      var stored := SaturatingAdd(countStored, toStore);
      if stored <= maxItems {
        return 0;
      }
      var expired := DeleteExpired(now);
      stored := SaturatingSub(stored, expired);
      if stored <= maxItems {
        return expired;
      }
      var toRemove := SaturatingSub(stored, maxItems);
      removed := RemoveOldest(toRemove);
      removed := SaturatingAdd(removed, expired);
    }

    method SetMaxRetentionItems(size: nat, now: nat)
      requires Valid() && 0 < size <= USIZE_MAX
      modifies this
      ensures Valid() && retentionCapacity == size && mappings == old(mappings)
      ensures rows == MakeRoom(old(rows), size, 0, now) && |rows| <= size
      ensures Current() == AfterOp(old(Current()), SetsMax(size, now))
    {
      retentionCapacity := size;
      var removed := FreeRetentionItems(0, now);
    }

    /**
     Room is made before the transaction starts, so it stays made when the insert fails; the mapping
     is rolled back with the insert.
     */
    method Store(row: Entry, now: nat, cascade: bool) returns (r: Result<(), StoreError>)
      requires Valid() && |rows| < I64_MAX
      modifies this
      ensures Valid() && retentionCapacity == old(retentionCapacity) && |rows| <= retentionCapacity
      ensures Current() == AfterStore(old(Current()), row, now, cascade)
      ensures var room := MakeRoom(old(rows), retentionCapacity, 1, now);
              var base := BaseFor(room, old(mappings), row.packet, cascade);
              && (r.Ok? <==> !HasId(base, row.id))
              && (r.Ok? ==> rows == Inserted(base, row) && mappings == MappingsWith(old(mappings), row.packet))
              && (r.Err? ==> r == Err(DuplicateId) && rows == room && mappings == old(mappings))
    {
      var path, m := PathOf(row.packet), MappingOf(row.packet);
      var present := path in mappings && mappings[path] == m;
      var replaced := path in mappings;
      var _ := FreeRetentionItems(1, now);
      var backup, oldMappings := rows, mappings;
      if !present {
        if replaced && cascade {
          var _ := DeleteWhere((e: Entry) => PathOf(e.packet) != path);
        }
        mappings := mappings[path := AsStored(m)];
      }
      var ok := InsertRow(row);
      if ok {
        r := Ok(());
      } else {
        rows, mappings := backup, oldMappings;
        r := Err(DuplicateId);
      }
    }

    /** `INSERT OR FAIL` keyed by id. */
    method InsertRow(row: Entry) returns (ok: bool)
      requires Valid() && |rows| < I64_MAX && PathOf(row.packet) in mappings
      modifies this`rows
      ensures ok <==> !HasId(old(rows), row.id)
      ensures ok ==> Valid() && rows == Inserted(old(rows), row) && |rows| == |old(rows)| + 1
      ensures !ok ==> rows == old(rows)
    {
      var i := 0;
      while i < |rows| && Less(rows[i].id, row.id)
        invariant i <= |rows|
        invariant forall j :: 0 <= j < i ==> Less(rows[j].id, row.id)
      {
        i := i + 1;
      }
      if i < |rows| && rows[i].id == row.id {
        return false;
      }
      InsertAt(rows, row, i);
      rows := rows[..i] + [row] + rows[i..];
      return true;
    }

    method UpdateSentFlag(id: Id, sent: bool)
      requires Valid()
      modifies this`rows
      ensures Valid()
      ensures rows == SetSent(old(rows), id, sent)
    {
      SetSentSorted(rows, id, sent);
      rows := seq(|rows|, i requires 0 <= i < |rows| reads this =>
        if rows[i].id == id then rows[i].(sent := sent) else rows[i]);
    }

    method MarkReceived(id: Id)
      requires Valid()
      modifies this`rows
      ensures Valid()
      ensures rows == Remove(old(rows), id)
    {
      RemoveSorted(rows, id);
      var _ := DeleteWhere((e: Entry) => e.id != id);
    }

    /** Deletes the publishes of the interface, then its mappings. */
    method DeleteInterface(interface: string)
      requires Valid()
      modifies this`rows, this`mappings
      ensures Valid()
      ensures rows == Outside(old(rows), interface)
      ensures mappings == map k | k in old(mappings) && k.0 != interface :: old(mappings)[k]
    {
      var _ := DeleteWhere((e: Entry) => e.packet.interface != interface);
      mappings := map k | k in mappings && k.0 != interface :: mappings[k];
    }

    method ResetAllPublishes(now: nat)
      requires Valid()
      modifies this`rows
      ensures Valid()
      ensures rows == ResetSent(Live(old(rows), now))
    {
      var _ := DeleteExpired(now);
      ResetSentSorted(rows);
      rows := seq(|rows|, i requires 0 <= i < |rows| reads this => rows[i].(sent := false));
    }

    /** Deletes what has expired, then reads the first `limit` unsent rows in key order. */
    method UnsentPublishes(limit: nat, now: nat) returns (out: seq<Entry>, count: nat)
      requires Valid() && limit <= USIZE_MAX
      modifies this`rows
      ensures Valid()
      ensures rows == Live(old(rows), now)
      ensures out == JoinAll(FirstN(Unsent(rows), limit), mappings) && count == |out|
    {
      var _ := DeleteExpired(now);
      var selected := Filter((e: Entry) => !e.sent && !Expired(e, now), rows);
      FilterSame((e: Entry) => !e.sent, (e: Entry) => !e.sent && !Expired(e, now), rows);
      var cap := if limit <= I64_MAX then limit else I64_MAX;
      out := JoinAll(FirstN(selected, cap), mappings);
      count := |out|;
    }

    /** The distinct interfaces, with their majors, that have a mapping. */
    method AllInterfaces() returns (all: set<(string, int)>)
      ensures all == StoredInterfaces(mappings)
      ensures forall k :: k in mappings ==> (k.0, mappings[k].major) in all
      ensures forall x :: x in all ==> exists k :: k in mappings && x == (k.0, mappings[k].major)
    {
      all := {};
      var left := mappings.Keys;
      while left != {}
        invariant left <= mappings.Keys
        invariant all == set k | k in mappings && k !in left :: (k.0, mappings[k].major)
        decreases left
      {
        var k :| k in left;
        left := left - {k};
        all := all + {(k.0, mappings[k].major)};
      }
      assert all == StoredInterfaces(mappings);
    }
  }

  // ---- Sorted rows ----------------------------------------------------------------------------

  lemma InsertAt(rows: seq<Entry>, e: Entry, i: nat)
    requires Sorted(rows) && i <= |rows|
    requires forall j :: 0 <= j < i ==> Less(rows[j].id, e.id)
    requires i < |rows| ==> Less(e.id, rows[i].id)
    ensures !HasId(rows, e.id)
    ensures Inserted(rows, e) == rows[..i] + [e] + rows[i..] && Sorted(Inserted(rows, e))
  {
    SortedSplit(rows, e, i);
    SplitFilters(rows[..i], e, rows[i..]);
    assert rows == rows[..i] + rows[i..];
  }

  lemma SplitFilters(below: seq<Entry>, e: Entry, above: seq<Entry>)
    requires forall x :: x in below ==> Less(x.id, e.id)
    requires forall x :: x in above ==> Less(e.id, x.id)
    ensures !HasId(below + above, e.id) && Inserted(below + above, e) == below + [e] + above
  {
    FilterPrefix((r: Entry) => Less(r.id, e.id), below, above);
    FilterSuffix((r: Entry) => Less(e.id, r.id), below, above);
  }

  lemma SortedSplit(rows: seq<Entry>, e: Entry, i: nat)
    requires Sorted(rows) && i <= |rows|
    requires forall j :: 0 <= j < i ==> Less(rows[j].id, e.id)
    requires i < |rows| ==> Less(e.id, rows[i].id)
    ensures forall x :: x in rows[..i] ==> Less(x.id, e.id)
    ensures forall x :: x in rows[i..] ==> Less(e.id, x.id)
    ensures Sorted(rows[..i] + [e] + rows[i..])
  {
    var lt := (a, b) => Less(a, b);
    forall j | i <= j < |rows|
      ensures Less(e.id, rows[j].id)
    {
      if i < j {
        assert lt(rows[i].id, rows[j].id);
      }
    }
    var r := rows[..i] + [e] + rows[i..];
    forall j, k | 0 <= j < k < |r|
      ensures lt(r[j].id, r[k].id)
    {
      if j != i && k != i {
        var j', k' := if j > i then j - 1 else j, if k > i then k - 1 else k;
        assert lt(rows[j'].id, rows[k'].id);
      }
    }
  }

  lemma InsertedSorted(rows: seq<Entry>, e: Entry)
    requires Sorted(rows) && !HasId(rows, e.id)
    ensures Sorted(Inserted(rows, e))
    ensures forall x :: x in Inserted(rows, e) <==> x in rows || x == e
  {
    var lt := (a, b) => Less(a, b);
    var below, above := Filter((r: Entry) => Less(r.id, e.id), rows), Filter((r: Entry) => Less(e.id, r.id), rows);
    FilterOrdered(lt, (r: Entry) => Less(r.id, e.id), rows);
    FilterOrdered(lt, (r: Entry) => Less(e.id, r.id), rows);
    forall i | 0 <= i < |below|
      ensures Less(below[i].id, e.id)
    {
      assert below[i] in below;
    }
    forall i | 0 <= i < |above|
      ensures Less(e.id, above[i].id)
    {
      assert above[i] in above;
    }
  }

  /** Whatever live row eviction removes is older than all it keeps, and it keeps all there is room for. */
  lemma EvictsOldestFirst(rows: seq<Entry>, capacity: nat, incoming: nat, now: nat, evicted: Entry, kept: Entry)
    requires Sorted(rows) && evicted in rows && !Expired(evicted, now)
    requires evicted !in MakeRoom(rows, capacity, incoming, now) && kept in MakeRoom(rows, capacity, incoming, now)
    ensures Less(evicted.id, kept.id) && !Expired(kept, now)
    ensures |MakeRoom(rows, capacity, incoming, now)| + incoming == capacity
  {
    var lt := (a, b) => Less(a, b);
    var r, live := MakeRoom(rows, capacity, incoming, now), Live(rows, now);
    MakeRoomMinimal(rows, capacity, incoming, now);
    MakeRoomEvicts(rows, capacity, incoming, now, evicted);
    FilterOrdered(lt, e => !Expired(e, now), rows);
    var i :| 0 <= i < |live| - |r| && live[i] == evicted;
    var j :| 0 <= j < |r| && r[j] == kept;
    assert lt(live[i].id, live[|live| - |r| + j].id);
  }

  lemma SortedTail(rows: seq<Entry>)
    requires Sorted(rows) && rows != []
    ensures Sorted(rows[1..]) && !HasId(rows[1..], rows[0].id)
  {
    SortedDistinct(rows);
    DistinctTail(rows);
  }

  lemma {:induction false} SetSentEach(q: seq<Entry>, id: Id, sent: bool, i: nat)
    requires Distinct(q) && i < |q|
    ensures SetSent(q, id, sent)[i] == if q[i].id == id then q[i].(sent := sent) else q[i]
  {
    DistinctTail(q);
    if i > 0 {
      SetSentEach(q[1..], id, sent, i - 1);
    }
  }

  lemma SetSentSorted(rows: seq<Entry>, id: Id, sent: bool)
    requires Sorted(rows)
    ensures Sorted(SetSent(rows, id, sent))
    ensures forall i :: 0 <= i < |rows| ==>
              SetSent(rows, id, sent)[i] == if rows[i].id == id then rows[i].(sent := sent) else rows[i]
  {
    SortedDistinct(rows);
    forall i | 0 <= i < |rows|
      ensures SetSent(rows, id, sent)[i] == if rows[i].id == id then rows[i].(sent := sent) else rows[i]
    {
      SetSentEach(rows, id, sent, i);
    }
  }

  lemma {:induction false} RemoveSorted(rows: seq<Entry>, id: Id)
    requires Sorted(rows)
    ensures Remove(rows, id) == Filter((e: Entry) => e.id != id, rows)
  {
    if rows != [] {
      SortedTail(rows);
      RemoveSorted(rows[1..], id);
      if rows[0].id == id {
        FilterAll((e: Entry) => e.id != id, rows[1..]);
      }
    }
  }

  lemma ResetSentSorted(rows: seq<Entry>)
    requires Sorted(rows)
    ensures Sorted(ResetSent(rows))
    ensures forall i :: 0 <= i < |rows| ==> ResetSent(rows)[i] == rows[i].(sent := false)
  {
    ResetSentMembers(rows);
  }

  // ---- Capacity over runs -------------------------------------------------------------------------

  /** The tables with the capacity in force. */
  datatype Tables = Tables(rows: seq<Entry>, mappings: map<Path, Mapping>, capacity: nat)

  datatype TableOp =
    | Stores(row: Entry, now: nat, cascade: bool)
    | SetsMax(size: nat, now: nat)
    | Flags(id: Id, sent: bool)
    | Acknowledges(id: Id)
    | Purges(now: nat)
    | Resets(now: nat)
    | Deletes(interface: string)

  ghost function AfterOp(t: Tables, op: TableOp): Tables {
    match op
    case Stores(row, now, cascade) => AfterStore(t, row, now, cascade)
    case SetsMax(size, now) => t.(rows := MakeRoom(t.rows, size, 0, now), capacity := size)
    case Flags(id, sent) => t.(rows := SetSent(t.rows, id, sent))
    case Acknowledges(id) => t.(rows := Remove(t.rows, id))
    case Purges(now) => t.(rows := Live(t.rows, now))
    case Resets(now) => t.(rows := ResetSent(Live(t.rows, now)))
    case Deletes(interface) =>
      t.(rows := Outside(t.rows, interface), mappings := map k | k in t.mappings && k.0 != interface :: t.mappings[k])
  }

  /** Room is made in any case; the row and its mapping come in unless the id is taken. */
  ghost function AfterStore(t: Tables, row: Entry, now: nat, cascade: bool): Tables {
    var room := MakeRoom(t.rows, t.capacity, 1, now);
    var base := BaseFor(room, t.mappings, row.packet, cascade);
    if HasId(base, row.id) then t.(rows := room)
    else t.(rows := Inserted(base, row), mappings := MappingsWith(t.mappings, row.packet))
  }

  ghost function AfterOps(t: Tables, ops: seq<TableOp>): Tables {
    if ops == [] then t else AfterOp(AfterOps(t, ops[..|ops| - 1]), ops[|ops| - 1])
  }

  lemma InsertedLength(rows: seq<Entry>, e: Entry)
    ensures |Inserted(rows, e)| <= |rows| + 1
  {
    DisjointFilters((r: Entry) => Less(r.id, e.id), (r: Entry) => Less(e.id, r.id), rows);
  }

  lemma {:induction false} DisjointFilters(p: Entry -> bool, q: Entry -> bool, rows: seq<Entry>)
    requires forall e :: !(p(e) && q(e))
    ensures |Filter(p, rows)| + |Filter(q, rows)| <= |rows|
  {
    if rows != [] {
      DisjointFilters(p, q, rows[1..]);
    }
  }

  lemma OpKeepsCapacity(t: Tables, op: TableOp)
    requires t.capacity > 0 && (op.SetsMax? ==> op.size > 0)
    ensures var r := AfterOp(t, op);
            && r.capacity > 0
            && (|t.rows| <= t.capacity || op.Stores? || op.SetsMax? ==> |r.rows| <= r.capacity)
  {
    if op.Stores? {
      var room := MakeRoom(t.rows, t.capacity, 1, op.now);
      MakeRoomMinimal(t.rows, t.capacity, 1, op.now);
      InsertedLength(BaseFor(room, t.mappings, op.row.packet, op.cascade), op.row);
    }
  }

  ghost predicate BoundsRows(op: TableOp) {
    op.Stores? || op.SetsMax?
  }

  /**
   Over any run in which the capacity may change at any time, the rows stay within the capacity in
   force; a table that was over it at first is within it from the first store or change of capacity on.
   */
  lemma {:induction false} CapacityOverRuns(t: Tables, ops: seq<TableOp>)
    requires t.capacity > 0 && forall op :: op in ops && op.SetsMax? ==> op.size > 0
    ensures var r := AfterOps(t, ops);
            && r.capacity > 0
            && (|t.rows| <= t.capacity || (exists op :: op in ops && BoundsRows(op)) ==> |r.rows| <= r.capacity)
  {
    if ops != [] {
      var n := |ops| - 1;
      LastOp(ops);
      CapacityOverRuns(t, ops[..n]);
      OpKeepsCapacity(AfterOps(t, ops[..n]), ops[n]);
    }
  }

  lemma LastOp(ops: seq<TableOp>)
    requires ops != []
    ensures var n := |ops| - 1;
            && ops[n] in ops && (forall op :: op in ops[..n] ==> op in ops)
            && ((exists op :: op in ops && BoundsRows(op)) ==>
                  BoundsRows(ops[n]) || exists op :: op in ops[..n] && BoundsRows(op))
  {
    var n := |ops| - 1;
    assert ops == ops[..n] + [ops[n]];
  }
}
