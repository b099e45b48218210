/** Runs of sends, acknowledgements, resends and changes of the introspection. */
module IntrospectionRuns {
  import opened Basics
  import opened RetentionIds
  import opened Retained
  import opened VolatileQueue
  import opened StoredTable
  import opened PropertyStore
  import opened InstalledInterfaces
  import opened Introspection
  import Client

  datatype Setup = Setup(accepts: Accepts, hasTable: bool, volatileCapacity: nat, storedCapacity: nat)

  datatype Event =
    | Sends(packet: Packet, effect: Client.Effect)
    | Flags(slot: Slot, sent: bool)
    | Acknowledges(slot: Slot)
    | Expires(place: Place, now: nat)
    | Resets(place: Place)
    | Adds(interface: Interface, now: nat)
    | Extends(batch: seq<Interface>, cleanups: seq<Cleanup>)
    | Removes(names: set<string>, cleanups: seq<Cleanup>)

  function In(w: World, place: Place): seq<Entry> {
    if place == InVolatile then w.volatile else w.rows
  }

  function WithIn(w: World, place: Place, q: seq<Entry>): World {
    if place == InVolatile then w.(volatile := q) else w.(rows := q)
  }

  ghost function AfterSend(s: Setup, w: World, p: Packet, e: Client.Effect): World {
    if Client.ForQueue(p, s.hasTable) then w.(volatile := Client.InQueue(w.volatile, s.volatileCapacity, p, e))
    else if Client.ForTable(p, s.hasTable) then
      var t := Client.InTable(Client.Table(w.rows, w.mappings), s.storedCapacity, p, e).0;
      w.(rows := t.rows, mappings := t.mappings)
    else w
  }

  ghost function Next(s: Setup, w: World, ev: Event): World {
    match ev
    case Sends(p, e) => AfterSend(s, w, p, e)
    case Flags(slot, sent) => WithIn(w, slot.place, SetSent(In(w, slot.place), slot.id, sent))
    case Acknowledges(slot) => WithIn(w, slot.place, Remove(In(w, slot.place), slot.id))
    case Expires(place, now) => WithIn(w, place, Live(In(w, place), now))
    case Resets(place) => WithIn(w, place, ResetSent(In(w, place)))
    case Adds(i, now) =>
      (match Judge(s.accepts, w.interfaces, i)
       case Err(_) => w
       case Ok(None) => w
       case Ok(Some(v)) => AfterAdd(w, v, s.hasTable, now))
    case Extends(batch, cleanups) =>
      (match JudgeMany(s.accepts, w.interfaces, batch)
       case Err(_) => w
       case Ok(added) => AfterExtend(w, added, s.hasTable, cleanups))
    case Removes(names, cleanups) => AfterRemove(w, names, s.hasTable, cleanups)
  }

  /** Packets are validated against the installed interfaces, and cleanups cover what they have to. */
  ghost predicate Possible(s: Setup, w: World, ev: Event) {
    match ev
    case Sends(p, _) => Sendable(w.interfaces, p.interface, p.major)
    case Extends(batch, cleanups) =>
      JudgeMany(s.accepts, w.interfaces, batch).Ok? ==>
        CleansUp(cleanups, MajorChanges(JudgeMany(s.accepts, w.interfaces, batch).value))
    case Removes(names, cleanups) => names <= w.interfaces.Keys && CleansUp(cleanups, Of(w.interfaces, names))
    case _ => true
  }

  /** No interface that packets are retained for is replaced by a version of properties. */
  ghost predicate KeepsKinds(s: Setup, w: World, ev: Event) {
    match ev
    case Adds(i, _) =>
      var verdict := Judge(s.accepts, w.interfaces, i);
      verdict.Ok? && verdict.value.Some? ==> !(i.kind.Properties? && RetainsFor(w, i.name))
    case Extends(batch, cleanups) =>
      var verdict := JudgeMany(s.accepts, w.interfaces, batch);
      verdict.Ok? ==> forall n :: n in verdict.value && verdict.value[n].interface.kind.Properties? ==>
                        !Survives(w, cleanups, n)
    case _ => true
  }

  // ---- Stores only ever hold packets they were given ------------------------------------------------

  /** Every packet of `r` is a packet of `q`. */
  ghost predicate From(q: seq<Entry>, r: seq<Entry>) {
    forall e :: e in r ==> exists f :: f in q && f.packet == e.packet
  }

  lemma {:induction false} SetSentFrom(q: seq<Entry>, id: Id, sent: bool)
    ensures From(q, SetSent(q, id, sent))
  {
    if q != [] {
      assert q[0] in q;
      SetSentFrom(q[1..], id, sent);
    }
  }

  lemma {:induction false} RemoveFrom(q: seq<Entry>, id: Id)
    ensures forall e :: e in Remove(q, id) ==> e in q
  {
    if q != [] {
      RemoveFrom(q[1..], id);
    }
  }

  lemma ResetFrom(q: seq<Entry>)
    ensures From(q, ResetSent(q))
  {
    ResetSentMembers(q);
    forall e | e in ResetSent(q)
      ensures exists f :: f in q && f.packet == e.packet
    {
      var i :| 0 <= i < |q| && ResetSent(q)[i] == e;
      assert q[i] in q;
    }
  }

  lemma FromFits(s: Setup, w: World, place: Place, q: seq<Entry>)
    requires Fits(w) && Sound(w, s.hasTable) && From(In(w, place), q)
    ensures Fits(WithIn(w, place, q))
  {
  }

  lemma FromSound(s: Setup, w: World, place: Place, q: seq<Entry>)
    requires Sound(w, s.hasTable) && From(In(w, place), q)
    ensures Sound(WithIn(w, place, q), s.hasTable)
  {
    assert |q| > 0 ==> q[0] in q;
  }

  lemma SendToQueue(s: Setup, w: World, p: Packet, e: Client.Effect)
    requires Fits(w) && Sendable(w.interfaces, p.interface, p.major) && Client.ForQueue(p, s.hasTable)
    ensures Fits(AfterSend(s, w, p, e))
  {
    var item := NewItem(e.id, p, Client.Delivers(e.calls), e.storeTime);
    var after := Pushed(w.volatile, s.volatileCapacity, e.now, item);
    assert forall x :: x in after ==> x in w.volatile || x == item;
    RemoveFrom(after, e.id);
  }

  /** The table after a send: as it was, with room made, or with the new row, which may be acknowledged. */
  lemma TableCases(t: Client.Table, capacity: nat, p: Packet, e: Client.Effect)
    ensures var r := Client.InTable(t, capacity, p, e).0;
            var row, room := NewRow(e.id, p, Client.Delivers(e.calls)), MakeRoom(t.rows, capacity, 1, e.now);
            || r == t
            || r == Client.Table(room, t.mappings)
            || (row.Ok? && row.value.id == e.id && row.value.packet == p && r.mappings == MappingsWith(t.mappings, p)
                && var rows := Inserted(BaseFor(room, t.mappings, p, e.cascade), row.value);
                   r.rows == rows || r.rows == Remove(rows, e.id))
  {
  }

  lemma InsertedWithin(base: seq<Entry>, row: Entry)
    ensures forall x :: x in Inserted(base, row) || x in Remove(Inserted(base, row), row.id) ==> x in base || x == row
  {
    RemoveFrom(Inserted(base, row), row.id);
  }

  /** Every row after a store was there, or is the new one; and every path it has is mapped. */
  lemma RowsAfterSend(t: Client.Table, capacity: nat, p: Packet, e: Client.Effect)
    requires forall x :: x in t.rows ==> PathOf(x.packet) in t.mappings
    ensures var r := Client.InTable(t, capacity, p, e).0;
            && (forall x :: x in r.rows ==> x in t.rows || (x.packet == p && r.mappings == MappingsWith(t.mappings, p)))
            && (forall x :: x in r.rows ==> PathOf(x.packet) in r.mappings)
            && (r.mappings == t.mappings || r.mappings == MappingsWith(t.mappings, p))
  {
    var r, room := Client.InTable(t, capacity, p, e).0, MakeRoom(t.rows, capacity, 1, e.now);
    var base, row := BaseFor(room, t.mappings, p, e.cascade), NewRow(e.id, p, Client.Delivers(e.calls));
    TableCases(t, capacity, p, e);
    RoomWithin(t.rows, capacity, 1, e.now);
    if row.Ok? {
      InsertedWithin(base, row.value);
      RowsFrom(t, p, room, base, row.value, r);
    }
  }

  lemma RowsFrom(t: Client.Table, p: Packet, room: seq<Entry>, base: seq<Entry>, row: Entry, r: Client.Table)
    requires forall x :: x in t.rows ==> PathOf(x.packet) in t.mappings
    requires forall x :: x in room ==> x in t.rows
    requires base == room || base == Filter((x: Entry) => PathOf(x.packet) != PathOf(p), room)
    requires forall x :: x in Inserted(base, row) || x in Remove(Inserted(base, row), row.id) ==> x in base || x == row
    requires || r == t || r == Client.Table(room, t.mappings)
             || (row.packet == p && r.mappings == MappingsWith(t.mappings, p)
                 && (r.rows == Inserted(base, row) || r.rows == Remove(Inserted(base, row), row.id)))
    ensures forall x :: x in r.rows ==> x in t.rows || (x.packet == p && r.mappings == MappingsWith(t.mappings, p))
    ensures forall x :: x in r.rows ==> PathOf(x.packet) in r.mappings
  {
    forall x | x in r.rows
      ensures x in t.rows || (x.packet == p && r.mappings == MappingsWith(t.mappings, p))
      ensures PathOf(x.packet) in r.mappings
    {
      assert x in base ==> x in room;
    }
  }

  lemma SendToTable(s: Setup, w: World, p: Packet, e: Client.Effect)
    requires Fits(w) && Sound(w, s.hasTable) && Sendable(w.interfaces, p.interface, p.major)
    requires Client.ForTable(p, s.hasTable)
    ensures Fits(AfterSend(s, w, p, e)) && Sound(AfterSend(s, w, p, e), s.hasTable)
  {
    var t := Client.Table(w.rows, w.mappings);
    RowsAfterSend(t, s.storedCapacity, p, e);
    var r := Client.InTable(t, s.storedCapacity, p, e).0;
    forall x | x in r.rows
      ensures RowFits(w.interfaces, r.mappings, x)
    {
      if x in w.rows {
        assert RowFits(w.interfaces, w.mappings, x);
      }
    }
  }

  /** A send of a packet validated against the installed interfaces keeps the invariant in both stores. */
  lemma SendFits(s: Setup, w: World, p: Packet, e: Client.Effect)
    requires Fits(w) && Sound(w, s.hasTable) && Sendable(w.interfaces, p.interface, p.major)
    ensures Fits(AfterSend(s, w, p, e))
  {
    if Client.ForQueue(p, s.hasTable) {
      SendToQueue(s, w, p, e);
    } else if Client.ForTable(p, s.hasTable) {
      SendToTable(s, w, p, e);
    }
  }

  /** What the acknowledgements, expiries, flag updates and resets do: nothing new is retained. */
  lemma StoreStepFrom(s: Setup, w: World, ev: Event)
    requires ev.Flags? || ev.Acknowledges? || ev.Expires? || ev.Resets?
    ensures var place := if ev.Flags? || ev.Acknowledges? then ev.slot.place else ev.place;
            && From(In(w, place), In(Next(s, w, ev), place))
            && Next(s, w, ev) == WithIn(w, place, In(Next(s, w, ev), place))
  {
    match ev {
      case Flags(slot, sent) => SetSentFrom(In(w, slot.place), slot.id, sent);
      case Acknowledges(slot) => RemoveFrom(In(w, slot.place), slot.id);
      case Expires(place, now) =>
      case Resets(place) => ResetFrom(In(w, place));
    }
  }

  lemma StepFitsIff(s: Setup, w: World, ev: Event)
    requires RejectsDowngrades(s.accepts) && Fits(w) && Sound(w, s.hasTable) && Possible(s, w, ev)
    ensures Fits(Next(s, w, ev)) <==> KeepsKinds(s, w, ev)
  {
    if ev.Flags? || ev.Acknowledges? || ev.Expires? || ev.Resets? {
      var place := if ev.Flags? || ev.Acknowledges? then ev.slot.place else ev.place;
      StoreStepFrom(s, w, ev);
      FromFits(s, w, place, In(Next(s, w, ev), place));
    } else if ev.Sends? {
      SendFits(s, w, ev.packet, ev.effect);
    } else {
      ChangeFitsIff(s, w, ev);
    }
  }

  lemma ChangeFitsIff(s: Setup, w: World, ev: Event)
    requires RejectsDowngrades(s.accepts) && Fits(w) && Sound(w, s.hasTable) && Possible(s, w, ev)
    requires ev.Adds? || ev.Extends? || ev.Removes?
    ensures Fits(Next(s, w, ev)) <==> KeepsKinds(s, w, ev)
  {
    match ev {
      case Adds(i, now) =>
        var verdict := Judge(s.accepts, w.interfaces, i);
        if verdict.Ok? && verdict.value.Some? {
          AddFitsIff(s.accepts, w, i, verdict.value.value, s.hasTable, now);
        }
      case Extends(batch, cleanups) =>
        if JudgeMany(s.accepts, w.interfaces, batch).Ok? {
          ExtendFitsIff(s.accepts, w, batch, s.hasTable, cleanups);
        }
      case Removes(names, cleanups) => RemoveFits(w, names, s.hasTable, cleanups);
    }
  }

  lemma StepSound(s: Setup, w: World, ev: Event)
    requires Sound(w, s.hasTable)
    ensures Sound(Next(s, w, ev), s.hasTable)
  {
    if ev.Flags? || ev.Acknowledges? || ev.Expires? || ev.Resets? {
      var place := if ev.Flags? || ev.Acknowledges? then ev.slot.place else ev.place;
      StoreStepFrom(s, w, ev);
      FromSound(s, w, place, In(Next(s, w, ev), place));
    } else if ev.Sends? {
      RowsAfterSend(Client.Table(w.rows, w.mappings), s.storedCapacity, ev.packet, ev.effect);
    } else {
      ChangeSound(s, w, ev);
    }
  }

  lemma ChangeSound(s: Setup, w: World, ev: Event)
    requires Sound(w, s.hasTable) && (ev.Adds? || ev.Extends? || ev.Removes?)
    ensures Sound(Next(s, w, ev), s.hasTable)
  {
    match ev {
      case Adds(i, now) => CleanedMeans(w, i, s.hasTable, now);
      case Extends(batch, cleanups) =>
        if JudgeMany(s.accepts, w.interfaces, batch).Ok? {
          JudgedNames(s.accepts, w.interfaces, batch);
          ExtendSound(w, JudgeMany(s.accepts, w.interfaces, batch).value, s.hasTable, cleanups);
        }
      case Removes(names, cleanups) => RemoveSound(w, names, s.hasTable, cleanups);
    }
  }

  lemma ExtendSound(w: World, added: map<string, Validated>, hasTable: bool, cleanups: seq<Cleanup>)
    requires Sound(w, hasTable) && forall n :: n in added ==> added[n].interface.name == n
    ensures Sound(AfterExtend(w, added, hasTable, cleanups), hasTable)
  {
    CleanedAllMeans(w, hasTable, cleanups);
  }

  lemma RemoveSound(w: World, names: set<string>, hasTable: bool, cleanups: seq<Cleanup>)
    requires Sound(w, hasTable)
    ensures Sound(AfterRemove(w, names, hasTable, cleanups), hasTable)
  {
    CleanedAllMeans(w, hasTable, cleanups);
  }

  ghost function After(s: Setup, w: World, run: seq<Event>): World {
    if run == [] then w else Next(s, After(s, w, run[..|run| - 1]), run[|run| - 1])
  }

  ghost predicate AllPossible(s: Setup, w: World, run: seq<Event>) {
    run != [] ==>
      && AllPossible(s, w, run[..|run| - 1])
      && Possible(s, After(s, w, run[..|run| - 1]), run[|run| - 1])
  }

  /** Every state of the run, the last one included, retains only packets that can still be sent. */
  ghost predicate AlwaysFits(s: Setup, w: World, run: seq<Event>) {
    Fits(After(s, w, run)) && (run != [] ==> AlwaysFits(s, w, run[..|run| - 1]))
  }

  ghost predicate AlwaysKeepsKinds(s: Setup, w: World, run: seq<Event>) {
    run != [] ==>
      && AlwaysKeepsKinds(s, w, run[..|run| - 1])
      && KeepsKinds(s, After(s, w, run[..|run| - 1]), run[|run| - 1])
  }

  /**
   In every run, no packet is ever retained for an absent interface or another major exactly when no
   interface that packets are retained for is replaced by a version of properties.
   */
  lemma {:induction false} FitsOverRunsIff(s: Setup, w: World, run: seq<Event>)
    requires RejectsDowngrades(s.accepts) && Fits(w) && Sound(w, s.hasTable) && AllPossible(s, w, run)
    ensures Sound(After(s, w, run), s.hasTable)
    ensures AlwaysFits(s, w, run) <==> AlwaysKeepsKinds(s, w, run)
  {
    if run != [] {
      var n := |run| - 1;
      FitsOverRunsIff(s, w, run[..n]);
      StepSound(s, After(s, w, run[..n]), run[n]);
      if Fits(After(s, w, run[..n])) {
        StepFitsIff(s, After(s, w, run[..n]), run[n]);
      }
    }
  }

  // ---- A change of kind ------------------------------------------------------------------------------

  /** The new version may have any kind. */
  function ByNameAndMajor(next: Interface, previous: Interface): bool {
    next.name == previous.name && previous.major <= next.major
  }

  /**
   An offline send on a datastream, and then a version of properties with a higher major: the cleanup is
   for properties, and the packet stays in the queue of an interface it can no longer be sent on.
   */
  lemma KindChangeRun(now: nat)
    ensures var s := Setup(ByNameAndMajor, false, 1, 1);
            var datastream := Interface("i", DatastreamIndividual, 0, 1, "");
            var properties := Interface("i", Properties, 1, 0, "");
            var p := Packet("i", "/p", 0, Unreliable, Volatile(None), []);
            var item := Entry(Id(0, 0), false, None, p);
            var w := World(map["i" := datastream], [], [], map[], map[]);
            var run := [Sends(p, Client.Effect(Id(0, 0), 0, 0, false, [])), Adds(properties, now)];
            && RejectsDowngrades(s.accepts) && Fits(w) && Sound(w, false) && AllPossible(s, w, run)
            && After(s, w, run) == World(map["i" := properties], [item], [], map[], map[])
            && !Fits(After(s, w, run))
  {
    var s := Setup(ByNameAndMajor, false, 1, 1);
    var datastream := Interface("i", DatastreamIndividual, 0, 1, "");
    var properties := Interface("i", Properties, 1, 0, "");
    var p := Packet("i", "/p", 0, Unreliable, Volatile(None), []);
    var item := Entry(Id(0, 0), false, None, p);
    var w := World(map["i" := datastream], [], [], map[], map[]);
    SendsOne(s, w, p);
    ChangesKind(s, w.(volatile := [item]), item, datastream, properties, now);
    TwoEvents(s, w, Sends(p, Client.Effect(Id(0, 0), 0, 0, false, [])), Adds(properties, now));
  }

  lemma TwoEvents(s: Setup, w: World, a: Event, b: Event)
    ensures After(s, w, [a, b]) == Next(s, Next(s, w, a), b)
    ensures AllPossible(s, w, [a, b]) <==> Possible(s, w, a) && Possible(s, Next(s, w, a), b)
  {
    assert [a, b][..1] == [a] && [a][..0] == [];
    assert After(s, w, [a]) == Next(s, w, a);
    assert AllPossible(s, w, []) && (AllPossible(s, w, [a]) <==> Possible(s, w, a));
  }

  /** A version of properties over a queued packet: the cleanup is for properties. */
  lemma ChangesKind(s: Setup, w: World, item: Entry, i: Interface, i': Interface, now: nat)
    requires w == World(map[i.name := i], [item], [], map[], map[]) && item.packet.interface == i.name == i'.name
    requires i.major < i'.major && i'.kind.Properties? && s.accepts(i', i)
    ensures Next(s, w, Adds(i', now)) == w.(interfaces := map[i.name := i'])
    ensures !Fits(Next(s, w, Adds(i', now)))
  {
    assert w.interfaces[i.name := i'] == map[i.name := i'];
    assert Retaining(w.props, i.name) == map[];
    assert item in w.volatile;
    PropertiesDoNotFit(w.(interfaces := map[i.name := i']), i.name);
  }

  /** An offline send to an empty queue. */
  lemma SendsOne(s: Setup, w: World, p: Packet)
    requires w.volatile == [] && s.volatileCapacity > 0 && p.retention == Volatile(None)
    ensures Next(s, w, Sends(p, Client.Effect(Id(0, 0), 0, 0, false, [])))
         == w.(volatile := [Entry(Id(0, 0), false, None, p)])
  {
  }
}
