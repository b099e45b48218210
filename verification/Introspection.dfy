/**
 Changes to the installed interfaces, and what they leave in the stores (src/client/introspection.rs,
 src/retention/mod.rs, src/connection/resend.rs).
 */
module Introspection {
  import opened Basics
  import opened RetentionIds
  import opened Retained
  import opened VolatileQueue
  import opened StoredTable
  import opened PropertyStore
  import opened InstalledInterfaces
  import opened Device
  import Client

  datatype IntroError = Invalid | SenderFailed

  /** The installed interfaces and what the stores keep for them. */
  datatype World = World(interfaces: Installed, volatile: seq<Entry>, rows: seq<Entry>, mappings: map<Path, Mapping>,
                         props: map<Key, Value>)

  /** An interface packets can be sent on, of this major. */
  predicate Sendable(m: Installed, name: string, major: int) {
    name in m && !m[name].kind.Properties? && m[name].major == major
  }

  /** The row is joined with a mapping, and belongs to an installed datastream of the major that it reads. */
  ghost predicate RowFits(m: Installed, mappings: map<Path, Mapping>, e: Entry) {
    && PathOf(e.packet) in mappings
    && Sendable(m, e.packet.interface, mappings[PathOf(e.packet)].major)
  }

  /** Every retained packet belongs to an installed datastream of the major it is for. */
  ghost predicate Fits(w: World) {
    && (forall e :: e in w.volatile ==> Sendable(w.interfaces, e.packet.interface, e.packet.major))
    && (forall e :: e in w.rows ==> RowFits(w.interfaces, w.mappings, e))
  }

  /** A packet is retained for the interface, in the queue or in the table. */
  ghost predicate RetainsFor(w: World, name: string) {
    exists e :: (e in w.volatile || e in w.rows) && e.packet.interface == name
  }

  /** Keys are names, the foreign key of the table holds, and without a table nothing is in it. */
  ghost predicate Sound(w: World, hasTable: bool) {
    && Keyed(w.interfaces)
    && (!hasTable ==> w.rows == [] && w.mappings == map[])
    && forall e :: e in w.rows ==> PathOf(e.packet) in w.mappings
  }

  function Without<V>(m: map<(string, string), V>, name: string): map<(string, string), V> {
    map k | k in m && k.0 != name :: m[k]
  }

  /** What is left when an interface is cleaned up: its kind says which stores are. */
  function Cleaned(w: World, i: Interface, hasTable: bool, now: nat): World {
    if i.kind.Properties? then w.(props := Retaining(w.props, i.name))
    else
      var w1 := w.(volatile := Outside(Live(w.volatile, now), i.name));
      if hasTable then w1.(rows := Outside(w.rows, i.name), mappings := Without(w.mappings, i.name)) else w1
  }

  /** A cleanup of one interface, at a reading of the clock. */
  datatype Cleanup = Cleanup(interface: Interface, now: nat)

  function CleanedAll(w: World, hasTable: bool, cleanups: seq<Cleanup>): World {
    if cleanups == [] then w
    else
      var n := |cleanups| - 1;
      Cleaned(CleanedAll(w, hasTable, cleanups[..n]), cleanups[n].interface, hasTable, cleanups[n].now)
  }

  /** The cleanups made for a set of interfaces, each once, in some order. */
  ghost predicate CleansUp(cleanups: seq<Cleanup>, wanted: set<Interface>) {
    if cleanups == [] then wanted == {}
    else
      var n := |cleanups| - 1;
      cleanups[n].interface in wanted && CleansUp(cleanups[..n], wanted - {cleanups[n].interface})
  }

  lemma {:induction false} CleansUpEach(cleanups: seq<Cleanup>, wanted: set<Interface>, i: Interface)
    requires CleansUp(cleanups, wanted)
    ensures i in wanted <==> exists k :: 0 <= k < |cleanups| && cleanups[k].interface == i
  {
    if cleanups != [] {
      var n := |cleanups| - 1;
      CleansUpEach(cleanups[..n], wanted - {cleanups[n].interface}, i);
      if k :| 0 <= k < n && cleanups[..n][k].interface == i {
        assert cleanups[k].interface == i;
      }
    }
  }

  /** The added interfaces that change the major of an installed one. */
  function MajorChanges(added: map<string, Validated>): set<Interface> {
    set n | n in added && added[n].majorChange :: added[n].interface
  }

  /** The installed interfaces with these names. */
  function Of(m: Installed, names: set<string>): set<Interface> {
    set n | n in names && n in m :: m[n]
  }

  class Introspector {
    const interfaces: Interfaces
    const device: Device
    const accepts: Accepts

    ghost predicate Valid()
      reads device, device.volatile, device.stored, device.ids, interfaces
    {
      device.Valid() && interfaces.Valid()
    }

    constructor (interfaces: Interfaces, device: Device, accepts: Accepts)
      requires device.Valid() && interfaces.Valid()
      ensures Valid() && this.interfaces == interfaces && this.device == device && this.accepts == accepts
    {
      this.interfaces, this.device, this.accepts := interfaces, device, accepts;
    }

    ghost function Current(): World
      reads device.volatile, device.stored, device.props, interfaces
    {
      World(interfaces.interfaces, device.volatile.store,
            if device.stored == null then [] else device.stored.rows,
            if device.stored == null then map[] else device.stored.mappings, device.props.store)
    }

    method CleanupInterface(i: Interface) returns (ghost now: nat)
      requires Valid()
      modifies device.volatile, device.stored, device.props, device.clock
      ensures Valid() && Current() == Cleaned(old(Current()), i, device.stored != null, now)
    {
      now := 0;
      match i.kind {
        case DatastreamIndividual => now := CleanupRetention(i.name);
        case DatastreamObject => now := CleanupRetention(i.name);
        case Properties => device.props.DeleteInterface(i.name);
      }
    }

    method CleanupRetention(name: string) returns (ghost now: nat)
      requires Valid()
      modifies device.volatile, device.stored, device.clock
      ensures Valid()
      ensures device.volatile.store == Outside(Live(old(device.volatile.store), now), name)
      ensures device.stored != null ==>
                && device.stored.rows == Outside(old(device.stored.rows), name)
                && device.stored.mappings == Without(old(device.stored.mappings), name)
    {
      var t := device.clock.Now();
      now := t;
      FilterDistinct(e => !Expired(e, t), device.volatile.store);
      FilterDistinct((e: Entry) => e.packet.interface != name, Live(device.volatile.store, t));
      var _ := device.volatile.DeleteInterface(name, t);
      if device.stored != null {
        device.stored.DeleteInterface(name);
      }
    }

    /** Cleans up interfaces in whatever order a hash map yields them. */
    method CleanupMany(all: set<Interface>) returns (ghost cleanups: seq<Cleanup>)
      requires Valid()
      modifies device.volatile, device.stored, device.props, device.clock
      ensures Valid() && CleansUp(cleanups, all)
      ensures Current() == CleanedAll(old(Current()), device.stored != null, cleanups)
    {
      var left := all;
      cleanups := [];
      while left != {}
        invariant Valid() && left <= all && CleansUp(cleanups, all - left)
        invariant Current() == CleanedAll(old(Current()), device.stored != null, cleanups)
        decreases left
      {
        var i :| i in left;
        ghost var done := all - left;
        ghost var now := CleanupInterface(i);
        CleanedMore(old(Current()), device.stored != null, cleanups, Cleanup(i, now), done);
        cleanups := cleanups + [Cleanup(i, now)];
        left := left - {i};
        assert all - left == done + {i};
      }
      assert all - left == all;
    }

    /** The server is told first; it may refuse. */
    method AddInterface(i: Interface) returns (r: Result<bool, IntroError>, ghost now: nat)
      requires Valid()
      modifies device.volatile, device.stored, device.props, device.clock, interfaces
      ensures Valid()
      ensures match Judge(accepts, old(interfaces.interfaces), i)
              case Err(_) => r == Err(Invalid) && Current() == old(Current())
              case Ok(None) => r == Ok(false) && Current() == old(Current())
              case Ok(Some(v)) =>
                if r.Err? then r == Err(SenderFailed) && Current() == old(Current())
                else r == Ok(true) && Current() == AfterAdd(old(Current()), v, device.stored != null, now)
    {
      now := 0;
      var verdict := interfaces.Validate(accepts, i);
      if verdict.Err? {
        return Err(Invalid), now;
      }
      if verdict.value.None? {
        return Ok(false), now;
      }
      var v := verdict.value.value;
      var sent: bool := *;
      if !sent {
        return Err(SenderFailed), now;
      }
      if v.majorChange {
        now := CleanupInterface(v.interface);
      }
      var _ := interfaces.Add(v);
      return Ok(true), now;
    }

    method ExtendInterfaces(batch: seq<Interface>)
      returns (r: Result<set<string>, IntroError>, ghost cleanups: seq<Cleanup>)
      requires Valid()
      modifies device.volatile, device.stored, device.props, device.clock, interfaces
      ensures Valid()
      ensures match JudgeMany(accepts, old(interfaces.interfaces), batch)
              case Err(_) => r == Err(Invalid) && Current() == old(Current())
              case Ok(added) =>
                if r.Err? then r == Err(SenderFailed) && Current() == old(Current())
                else
                  && r == Ok(added.Keys) && CleansUp(cleanups, MajorChanges(added))
                  && Current() == AfterExtend(old(Current()), added, device.stored != null, cleanups)
    {
      cleanups := [];
      var verdict := interfaces.ValidateMany(accepts, batch);
      if verdict.Err? {
        return Err(Invalid), cleanups;
      }
      var added := verdict.value;
      if added == map[] {
        NothingAdded(interfaces.interfaces, added);
        return Ok({}), cleanups;
      }
      var sent: bool := *;
      if !sent {
        return Err(SenderFailed), cleanups;
      }
      cleanups := CleanupMany(MajorChanges(added));
      JudgedNames(accepts, interfaces.interfaces, batch);
      interfaces.Extend(added);
      return Ok(added.Keys), cleanups;
    }

    method RemoveInterface(name: string) returns (r: Result<bool, IntroError>, ghost now: nat)
      requires Valid()
      modifies device.volatile, device.stored, device.props, device.clock, interfaces
      ensures Valid()
      ensures if name !in old(interfaces.interfaces) then r == Ok(false) && Current() == old(Current())
              else if r.Err? then r == Err(SenderFailed) && Current() == old(Current())
              else r == Ok(true)
                   && Current() == AfterRemove(old(Current()), {name}, device.stored != null,
                                               [Cleanup(old(interfaces.interfaces)[name], now)])
    {
      now := 0;
      if name !in interfaces.interfaces {
        return Ok(false), now;
      }
      var sent: bool := *;
      if !sent {
        return Err(SenderFailed), now;
      }
      ghost var w, i := Current(), interfaces.interfaces[name];
      now := CleanupInterface(interfaces.interfaces[name]);
      CleanedMore(w, device.stored != null, [], Cleanup(i, now), {});
      assert [] + [Cleanup(i, now)] == [Cleanup(i, now)];
      var _ := interfaces.Remove(name);
      return Ok(true), now;
    }

    method RemoveInterfaces(names: seq<string>)
      returns (r: Result<set<string>, IntroError>, ghost cleanups: seq<Cleanup>)
      requires Valid()
      modifies device.volatile, device.stored, device.props, device.clock, interfaces
      ensures Valid()
      ensures var found := set n | n in names && n in old(interfaces.interfaces);
              if r.Err? then r == Err(SenderFailed) && Current() == old(Current())
              else
                && r == Ok(found)
                && CleansUp(cleanups, Of(old(interfaces.interfaces), found))
                && Current() == AfterRemove(old(Current()), found, device.stored != null, cleanups)
    {
      cleanups := [];
      var found := set n | n in names && n in interfaces.interfaces;
      if found == {} {
        return Ok({}), cleanups;
      }
      var sent: bool := *;
      if !sent {
        return Err(SenderFailed), cleanups;
      }
      cleanups := CleanupMany(Of(interfaces.interfaces, found));
      var removed := ToSeq(found);
      interfaces.RemoveMany(removed);
      return Ok(found), cleanups;
    }

    // ---- Start-up -------------------------------------------------------------------------------

    /** Deletes whatever is stored for an interface that has a mapping of another major, or is not installed. */
    method CleanupIntrospection()
      requires Valid() && device.stored != null
      modifies device.stored
      ensures Valid() && device.stored.retentionCapacity == old(device.stored.retentionCapacity)
      ensures var out := OutdatedNames(interfaces.interfaces, old(device.stored.mappings));
              && device.stored.mappings == WithoutAll(old(device.stored.mappings), out)
              && device.stored.rows == OutsideAll(old(device.stored.rows), out)
    {
      var all := device.stored.AllInterfaces();
      var todo := all;
      ghost var m, rows, mappings := interfaces.interfaces, device.stored.rows, device.stored.mappings;
      ghost var out := OutdatedIn(m, {});
      NothingOutdated(m, rows, mappings);
      assert all - todo == {};
      while todo != {}
        invariant Valid() && device.stored.retentionCapacity == old(device.stored.retentionCapacity)
        invariant todo <= all && out == OutdatedIn(m, all - todo)
        invariant device.stored.mappings == WithoutAll(mappings, out)
        invariant device.stored.rows == OutsideAll(rows, out)
        decreases todo
      {
        var x :| x in todo;
        OutdatedMore(m, all, todo, x);
        todo := todo - {x};
        if !(x.0 in interfaces.interfaces && interfaces.interfaces[x.0].major == x.1) {
          OutsideMore(rows, out, x.0);
          device.stored.DeleteInterface(x.0);
          WithoutMore(mappings, out, x.0);
          out := out + {x.0};
        }
      }
      assert all - todo == all;
    }

    /**
     Run once at start-up: drops what is outdated, applies the capacity, and has everything sent again.
     */
    method InitStore(size: nat) returns (ghost t1: nat, ghost t2: nat)
      requires Valid() && 0 < size <= USIZE_MAX
      modifies device.stored, device.props, device.clock
      ensures Valid() && Current() == Started(old(Current()), size, t1, t2)
      ensures device.stored != null ==> device.stored.retentionCapacity == size && |device.stored.rows| <= size
    {
      t1, t2 := 0, 0;
      if device.stored == null {
        StartedWithout(Current(), size, t1, t2);
      } else {
        t1, t2 := InitTable(size);
      }
      device.props.ResetState(DeviceOwned);
    }

    /** The part for the publish table. */
    method InitTable(size: nat) returns (ghost t1: nat, ghost t2: nat)
      requires Valid() && device.stored != null && 0 < size <= USIZE_MAX
      modifies device.stored, device.clock
      ensures Valid() && device.stored.retentionCapacity == size && |device.stored.rows| <= size
      ensures var out := OutdatedNames(interfaces.interfaces, old(device.stored.mappings));
              && device.stored.mappings == WithoutAll(old(device.stored.mappings), out)
              && device.stored.rows == RowsLeft(old(device.stored.rows), out, size, t1, t2)
    {
      CleanupIntrospection();
      var now := device.clock.Now();
      t1 := now / SECOND;
      device.stored.SetMaxRetentionItems(size, now / SECOND);
      now := device.clock.Now();
      t2 := now / SECOND;
      device.stored.ResetAllPublishes(now / SECOND);
    }
  }

  /** The rows that start-up leaves: none outdated, evicted or expired, and none flagged. */
  function RowsLeft(rows: seq<Entry>, out: set<string>, size: nat, t1: nat, t2: nat): seq<Entry> {
    ResetSent(Live(MakeRoom(OutsideAll(rows, out), size, 0, t1), t2))
  }

  function Started(w: World, size: nat, t1: nat, t2: nat): World {
    var out := OutdatedNames(w.interfaces, w.mappings);
    w.(rows := RowsLeft(w.rows, out, size, t1, t2), mappings := WithoutAll(w.mappings, out),
       props := AfterReset(w.props, DeviceOwned))
  }

  lemma StartedWithout(w: World, size: nat, t1: nat, t2: nat)
    requires w.rows == [] && w.mappings == map[]
    ensures Started(w, size, t1, t2) == w.(props := AfterReset(w.props, DeviceOwned))
  {
  }

  predicate UpToDate(m: Installed, name: string, major: int) {
    name in m && m[name].major == major
  }

  /** The names that one of these stored interfaces is not up to date for. */
  function OutdatedIn(m: Installed, all: set<(string, int)>): set<string> {
    set x | x in all && !UpToDate(m, x.0, x.1) :: x.0
  }

  function OutdatedNames(m: Installed, mappings: map<Path, Mapping>): set<string> {
    OutdatedIn(m, StoredInterfaces(mappings))
  }

  lemma OutdatedMore(m: Installed, all: set<(string, int)>, todo: set<(string, int)>, x: (string, int))
    requires todo <= all && x in todo
    ensures OutdatedIn(m, all - (todo - {x}))
         == OutdatedIn(m, all - todo) + if UpToDate(m, x.0, x.1) then {} else {x.0}
  {
    assert all - (todo - {x}) == (all - todo) + {x};
  }

  function WithoutAll(mappings: map<Path, Mapping>, names: set<string>): map<Path, Mapping> {
    map k | k in mappings && k.0 !in names :: mappings[k]
  }

  function OutsideAll(q: seq<Entry>, names: set<string>): seq<Entry> {
    Filter((e: Entry) => e.packet.interface !in names, q)
  }

  lemma NothingOutdated(m: Installed, q: seq<Entry>, mappings: map<Path, Mapping>)
    ensures OutsideAll(q, OutdatedIn(m, {})) == q && WithoutAll(mappings, OutdatedIn(m, {})) == mappings
  {
    FilterAll((e: Entry) => e.packet.interface !in OutdatedIn(m, {}), q);
  }

  lemma WithoutMore(mappings: map<Path, Mapping>, names: set<string>, name: string)
    ensures (map k | k in WithoutAll(mappings, names) && k.0 != name :: WithoutAll(mappings, names)[k])
         == WithoutAll(mappings, names + {name})
  {
  }

  lemma OutsideMore(q: seq<Entry>, names: set<string>, name: string)
    ensures Outside(OutsideAll(q, names), name) == OutsideAll(q, names + {name})
  {
    FilterTwice((e: Entry) => e.packet.interface !in names, (e: Entry) => e.packet.interface != name,
                (e: Entry) => e.packet.interface !in names + {name}, q);
  }

  /** The elements of a set, in some order. */
  method ToSeq(s: set<string>) returns (r: seq<string>)
    ensures forall x :: x in r <==> x in s
  {
    r := [];
    var left := s;
    while left != {}
      invariant left <= s && forall x :: x in r <==> x in s - left
      decreases left
    {
      var n :| n in left;
      r, left := r + [n], left - {n};
    }
  }

  lemma NothingAdded(m: Installed, added: map<string, Validated>)
    requires added == map[]
    ensures added.Keys == {} && Extended(m, added) == m && CleansUp([], MajorChanges(added))
  {
  }

  function AfterAdd(w: World, v: Validated, hasTable: bool, now: nat): World {
    var w1 := if v.majorChange then Cleaned(w, v.interface, hasTable, now) else w;
    w1.(interfaces := w.interfaces[v.interface.name := v.interface])
  }

  function AfterExtend(w: World, added: map<string, Validated>, hasTable: bool, cleanups: seq<Cleanup>): World {
    CleanedAll(w, hasTable, cleanups).(interfaces := Extended(w.interfaces, added))
  }

  function AfterRemove(w: World, names: set<string>, hasTable: bool, cleanups: seq<Cleanup>): World {
    CleanedAll(w, hasTable, cleanups).(interfaces := w.interfaces - names)
  }

  lemma CleanedMore(w: World, hasTable: bool, cleanups: seq<Cleanup>, c: Cleanup, done: set<Interface>)
    requires CleansUp(cleanups, done) && c.interface !in done
    ensures CleanedAll(w, hasTable, cleanups + [c])
         == Cleaned(CleanedAll(w, hasTable, cleanups), c.interface, hasTable, c.now)
    ensures CleansUp(cleanups + [c], done + {c.interface})
  {
    assert (cleanups + [c])[..|cleanups|] == cleanups;
    assert done + {c.interface} - {c.interface} == done;
  }

  lemma {:induction false} JudgedNames(accepts: Accepts, m: Installed, batch: seq<Interface>)
    requires JudgeMany(accepts, m, batch).Ok?
    ensures var c := JudgeMany(accepts, m, batch).value; forall n :: n in c ==> c[n].interface.name == n
  {
    if batch != [] {
      JudgedNames(accepts, m, batch[..|batch| - 1]);
    }
  }

  // ---- What cleanups leave --------------------------------------------------------------------------

  lemma CleanedMeans(w: World, i: Interface, hasTable: bool, now: nat)
    requires Sound(w, hasTable)
    ensures var r := Cleaned(w, i, hasTable, now);
            && Sound(r, hasTable) && r.interfaces == w.interfaces
            && (forall e :: e in r.volatile <==>
                  e in w.volatile && (i.kind.Properties? || (e.packet.interface != i.name && !Expired(e, now))))
            && (forall e :: e in r.rows <==> e in w.rows && (i.kind.Properties? || e.packet.interface != i.name))
            && r.mappings == if i.kind.Properties? then w.mappings else Without(w.mappings, i.name)
  {
    if !hasTable && !i.kind.Properties? {
      assert Without(w.mappings, i.name) == map[];
    }
  }

  ghost predicate CleansName(cleanups: seq<Cleanup>, name: string) {
    exists k :: 0 <= k < |cleanups| && cleanups[k].interface.name == name && !cleanups[k].interface.kind.Properties?
  }

  /** Some cleanup of a datastream finds the item of the queue expired. */
  ghost predicate ExpiredIn(cleanups: seq<Cleanup>, e: Entry) {
    exists k :: 0 <= k < |cleanups| && !cleanups[k].interface.kind.Properties? && Expired(e, cleanups[k].now)
  }

  lemma CleansMore(cleanups: seq<Cleanup>, name: string, e: Entry)
    requires cleanups != []
    ensures var n := |cleanups| - 1;
            var c := cleanups[n];
            && (CleansName(cleanups, name) <==>
                  CleansName(cleanups[..n], name) || (c.interface.name == name && !c.interface.kind.Properties?))
            && (ExpiredIn(cleanups, e) <==>
                  ExpiredIn(cleanups[..n], e) || (!c.interface.kind.Properties? && Expired(e, c.now)))
  {
  }

  /** Cleanups, in any order, take the packets of their datastreams and what they find expired in the queue. */
  lemma {:induction false} CleanedAllMeans(w: World, hasTable: bool, cleanups: seq<Cleanup>)
    requires Sound(w, hasTable)
    ensures var r := CleanedAll(w, hasTable, cleanups);
            && Sound(r, hasTable) && r.interfaces == w.interfaces
            && (forall e :: e in r.volatile <==>
                  e in w.volatile && !CleansName(cleanups, e.packet.interface) && !ExpiredIn(cleanups, e))
            && (forall e :: e in r.rows <==> e in w.rows && !CleansName(cleanups, e.packet.interface))
            && r.mappings == map k | k in w.mappings && !CleansName(cleanups, k.0) :: w.mappings[k]
  {
    if cleanups != [] {
      var n := |cleanups| - 1;
      var before := CleanedAll(w, hasTable, cleanups[..n]);
      CleanedAllMeans(w, hasTable, cleanups[..n]);
      CleanedMeans(before, cleanups[n].interface, hasTable, cleanups[n].now);
      forall e: Entry
        ensures e in CleanedAll(w, hasTable, cleanups).volatile <==>
                  e in w.volatile && !CleansName(cleanups, e.packet.interface) && !ExpiredIn(cleanups, e)
        ensures e in CleanedAll(w, hasTable, cleanups).rows <==>
                  e in w.rows && !CleansName(cleanups, e.packet.interface)
      {
        CleansMore(cleanups, e.packet.interface, e);
      }
      forall k | k in w.mappings
        ensures k in CleanedAll(w, hasTable, cleanups).mappings <==> !CleansName(cleanups, k.0)
      {
        var any: Entry := Entry(Id(0, 0), false, None, Packet("", "", 0, Unreliable, Discard, []));
        CleansMore(cleanups, k.0, any);
      }
    }
  }

  // ---- No packet is retained for an absent interface or an old major --------------------------------

  /** Everything retained in `r` was retained in `w`, with the mappings it had there. */
  ghost predicate Within(w: World, r: World) {
    && (forall e :: e in r.volatile ==> e in w.volatile)
    && (forall e :: e in r.rows ==> e in w.rows && PathOf(e.packet) in r.mappings)
    && (forall k :: k in r.mappings ==> k in w.mappings && r.mappings[k] == w.mappings[k])
  }

  /** The interface is a datastream of the major it had. */
  predicate SameVersion(m: Installed, m': Installed, name: string) {
    name in m ==> name in m' && !m'[name].kind.Properties? && m'[name].major == m[name].major
  }

  lemma StillFits(w: World, r: World)
    requires Fits(w) && Within(w, r)
    requires forall e :: e in r.volatile || e in r.rows ==>
               SameVersion(w.interfaces, r.interfaces, e.packet.interface)
    ensures Fits(r)
  {
  }

  lemma PropertiesDoNotFit(r: World, name: string)
    requires RetainsFor(r, name) && (name in r.interfaces ==> r.interfaces[name].kind.Properties?)
    ensures !Fits(r)
  {
  }

  /**
   Adding a version of an interface keeps everything retained sendable, unless the new version is of
   properties and something is retained for the old one: the cleanup looks at the kind of the new
   version, and so deletes properties when it should delete packets.
   */
  lemma AddFitsIff(accepts: Accepts, w: World, i: Interface, v: Validated, hasTable: bool, now: nat)
    requires RejectsDowngrades(accepts) && Fits(w) && Sound(w, hasTable)
    requires Judge(accepts, w.interfaces, i) == Ok(Some(v))
    ensures Sound(AfterAdd(w, v, hasTable, now), hasTable)
    ensures Fits(AfterAdd(w, v, hasTable, now)) <==> !(i.kind.Properties? && RetainsFor(w, i.name))
  {
    CleanedMeans(w, i, hasTable, now);
    var r := AfterAdd(w, v, hasTable, now);
    if i.kind.Properties? && RetainsFor(w, i.name) {
      var e :| (e in w.volatile || e in w.rows) && e.packet.interface == i.name;
      assert e in r.volatile || e in r.rows;
      PropertiesDoNotFit(r, i.name);
    } else {
      StillFits(w, r);
    }
  }

  /** Some packet of the interface is left by the cleanups, which were not for this interface. */
  ghost predicate Survives(w: World, cleanups: seq<Cleanup>, name: string) {
    exists e :: (e in w.rows || (e in w.volatile && !ExpiredIn(cleanups, e))) && e.packet.interface == name
  }

  /** The cleanups of a batch take a datastream away exactly when its major changes, and never properties. */
  lemma BatchCleanups(accepts: Accepts, m: Installed, batch: seq<Interface>, cleanups: seq<Cleanup>, n: string)
    requires RejectsDowngrades(accepts) && Keyed(m) && JudgeMany(accepts, m, batch).Ok?
    requires CleansUp(cleanups, MajorChanges(JudgeMany(accepts, m, batch).value))
    requires n in JudgeMany(accepts, m, batch).value
    ensures var v := JudgeMany(accepts, m, batch).value[n];
            && v.interface.name == n
            && (v.interface.kind.Properties? ==> !CleansName(cleanups, n))
            && (!v.interface.kind.Properties? && !CleansName(cleanups, n) && n in m ==> m[n].major == v.interface.major)
  {
    var added := JudgeMany(accepts, m, batch).value;
    JudgedNames(accepts, m, batch);
    JudgedAreNewer(accepts, m, batch, n);
    if added[n].majorChange {
      assert added[n].interface in MajorChanges(added);
      CleansUpEach(cleanups, MajorChanges(added), added[n].interface);
    }
    if added[n].interface.kind.Properties? && CleansName(cleanups, n) {
      var k :| 0 <= k < |cleanups| && cleanups[k].interface.name == n && !cleanups[k].interface.kind.Properties?;
      CleansUpEach(cleanups, MajorChanges(added), cleanups[k].interface);
    }
  }

  /** The same for a batch: no version of properties may come over a packet that is still there. */
  lemma ExtendFitsIff(accepts: Accepts, w: World, batch: seq<Interface>, hasTable: bool, cleanups: seq<Cleanup>)
    requires RejectsDowngrades(accepts) && Fits(w) && Sound(w, hasTable)
    requires JudgeMany(accepts, w.interfaces, batch).Ok?
    requires CleansUp(cleanups, MajorChanges(JudgeMany(accepts, w.interfaces, batch).value))
    ensures var added := JudgeMany(accepts, w.interfaces, batch).value;
            var r := AfterExtend(w, added, hasTable, cleanups);
            && Sound(r, hasTable)
            && (Fits(r) <==>
                  forall n :: n in added && added[n].interface.kind.Properties? ==> !Survives(w, cleanups, n))
  {
    var added := JudgeMany(accepts, w.interfaces, batch).value;
    var r := AfterExtend(w, added, hasTable, cleanups);
    CleanedAllMeans(w, hasTable, cleanups);
    JudgedNames(accepts, w.interfaces, batch);
    if n :| n in added && added[n].interface.kind.Properties? && Survives(w, cleanups, n) {
      BatchCleanups(accepts, w.interfaces, batch, cleanups, n);
      var e :| (e in w.rows || (e in w.volatile && !ExpiredIn(cleanups, e))) && e.packet.interface == n;
      assert e in r.volatile || e in r.rows;
      PropertiesDoNotFit(r, n);
    } else {
      forall e | e in r.volatile || e in r.rows
        ensures SameVersion(w.interfaces, r.interfaces, e.packet.interface)
      {
        var n := e.packet.interface;
        if n in added {
          BatchCleanups(accepts, w.interfaces, batch, cleanups, n);
          assert added[n].interface.kind.Properties? ==> Survives(w, cleanups, n);
        }
      }
      StillFits(w, r);
    }
  }

  lemma RemoveFits(w: World, names: set<string>, hasTable: bool, cleanups: seq<Cleanup>)
    requires Fits(w) && Sound(w, hasTable) && names <= w.interfaces.Keys
    requires CleansUp(cleanups, Of(w.interfaces, names))
    ensures Fits(AfterRemove(w, names, hasTable, cleanups))
    ensures Sound(AfterRemove(w, names, hasTable, cleanups), hasTable)
  {
    var r := AfterRemove(w, names, hasTable, cleanups);
    CleanedAllMeans(w, hasTable, cleanups);
    forall n | n in names && !w.interfaces[n].kind.Properties?
      ensures CleansName(cleanups, n)
    {
      assert w.interfaces[n] in Of(w.interfaces, names);
      CleansUpEach(cleanups, Of(w.interfaces, names), w.interfaces[n]);
      var k :| 0 <= k < |cleanups| && cleanups[k].interface == w.interfaces[n];
    }
    StillFits(w, r);
  }

  /**
   After start-up an arbitrary table holds exactly the rows of the interfaces none of whose mappings was
   outdated; each row that is left reads an installed major, so that it can be sent unless its interface
   has become one of properties.
   */
  lemma StartUpFits(m: Installed, rows: seq<Entry>, mappings: map<Path, Mapping>)
    requires forall e :: e in rows ==> PathOf(e.packet) in mappings
    ensures var out := OutdatedNames(m, mappings);
            var left, kept := OutsideAll(rows, out), WithoutAll(mappings, out);
            && (forall name :: name in out <==>
                  exists k :: k in mappings && k.0 == name && !UpToDate(m, name, mappings[k].major))
            && (forall e :: e in left <==> e in rows && e.packet.interface !in out)
            && (forall e :: e in left ==> PathOf(e.packet) in kept
                                          && UpToDate(m, e.packet.interface, kept[PathOf(e.packet)].major))
            && (forall e :: e in left ==> (RowFits(m, kept, e) <==> !m[e.packet.interface].kind.Properties?))
  {
    var out := OutdatedNames(m, mappings);
    forall k | k in mappings && k.0 !in out
      ensures UpToDate(m, k.0, mappings[k].major)
    {
      assert (k.0, mappings[k].major) in StoredInterfaces(mappings);
    }
    forall name
      ensures name in out <==> exists k :: k in mappings && k.0 == name && !UpToDate(m, name, mappings[k].major)
    {
      if k :| k in mappings && k.0 == name && !UpToDate(m, name, mappings[k].major) {
        assert (k.0, mappings[k].major) in StoredInterfaces(mappings);
      }
    }
  }
}
