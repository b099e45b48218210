/** The collection of installed interfaces (src/interfaces.rs). */
module InstalledInterfaces {
  import opened Basics

  datatype Kind = DatastreamIndividual | DatastreamObject | Properties

  /** `definition` stands for everything else the interface file says. */
  datatype Interface = Interface(name: string, kind: Kind, major: int, minor: int, definition: string)

  /** `accepts(next, previous)`: the new version may replace the installed one (`Interface::validate_with`). */
  type Accepts = (Interface, Interface) -> bool

  /** What `validate_with` promises: it compares versions of one interface, and rejects a lower major. */
  ghost predicate RejectsDowngrades(accepts: Accepts) {
    forall next, previous :: accepts(next, previous) ==> next.name == previous.name && previous.major <= next.major
  }

  datatype Validated = Validated(interface: Interface, majorChange: bool)

  type Installed = map<string, Interface>

  /** Each key is the name of its interface. */
  ghost predicate Keyed(m: Installed) {
    forall n :: n in m ==> m[n].name == n
  }

  /** The verdict on one interface: rejected, already present, or to be added. */
  function Judge(accepts: Accepts, m: Installed, i: Interface): Result<Option<Validated>, ()> {
    if i.name !in m then Ok(Some(Validated(i, false)))
    else if i == m[i.name] then Ok(None)
    else if accepts(i, m[i.name]) then Ok(Some(Validated(i, i.major > m[i.name].major)))
    else Err(())
  }

  /** The verdict on a batch: every interface is judged against what is installed before the batch. */
  function JudgeMany(accepts: Accepts, m: Installed, batch: seq<Interface>): Result<map<string, Validated>, ()> {
    if batch == [] then Ok(map[])
    else
      var n := |batch| - 1;
      match JudgeMany(accepts, m, batch[..n])
      case Err(_) => Err(())
      case Ok(c) =>
        match Judge(accepts, m, batch[n])
        case Err(_) => Err(())
        case Ok(None) => Ok(c)
        case Ok(Some(v)) => Ok(c[v.interface.name := v])
  }

  function Extended(m: Installed, added: map<string, Validated>): Installed {
    m + map n | n in added :: added[n].interface
  }

  class Interfaces {
    var interfaces: Installed

    ghost predicate Valid()
      reads this
    {
      Keyed(interfaces)
    }

    constructor (interfaces: Installed)
      requires Keyed(interfaces)
      ensures Valid() && this.interfaces == interfaces
    {
      this.interfaces := interfaces;
    }

    method Add(v: Validated) returns (previous: Option<Interface>)
      requires Valid()
      modifies this
      ensures Valid() && interfaces == old(interfaces)[v.interface.name := v.interface]
      ensures previous == if v.interface.name in old(interfaces) then Some(old(interfaces)[v.interface.name]) else None
    {
      previous := if v.interface.name in interfaces then Some(interfaces[v.interface.name]) else None;
      interfaces := interfaces[v.interface.name := v.interface];
    }

    method Validate(accepts: Accepts, i: Interface) returns (r: Result<Option<Validated>, ()>)
      ensures r == Judge(accepts, interfaces, i)
    {
      var majorChange := false;
      if i.name in interfaces {
        var prev := interfaces[i.name];
        if i == prev {
          return Ok(None);
        }
        if !accepts(i, prev) {
          return Err(());
        }
        majorChange := i.major > prev.major;
      }
      return Ok(Some(Validated(i, majorChange)));
    }

    method ValidateMany(accepts: Accepts, batch: seq<Interface>) returns (r: Result<map<string, Validated>, ()>)
      ensures r == JudgeMany(accepts, interfaces, batch)
    {
      var collected: map<string, Validated> := map[];
      for k := 0 to |batch|
        invariant JudgeMany(accepts, interfaces, batch[..k]) == Ok(collected)
      {
        assert batch[..k + 1][..k] == batch[..k];
        var verdict := Validate(accepts, batch[k]);
        if verdict.Err? {
          JudgeManyStops(accepts, interfaces, batch, k + 1);
          return Err(());
        }
        if verdict.value.Some? {
          collected := collected[batch[k].name := verdict.value.value];
        }
      }
      assert batch[..|batch|] == batch;
      return Ok(collected);
    }

    /** `HashMap::extend`: every pair is inserted, in whatever order the collection yields them. */
    method Extend(added: map<string, Validated>)
      requires Valid() && forall n :: n in added ==> added[n].interface.name == n
      modifies this
      ensures Valid() && interfaces == Extended(old(interfaces), added)
      ensures forall n :: n in added ==> n in interfaces && interfaces[n] == added[n].interface
      ensures forall n :: n !in added ==> (n in interfaces <==> n in old(interfaces))
      ensures forall n :: n !in added && n in interfaces ==> interfaces[n] == old(interfaces)[n]
    {
      var left := added.Keys;
      while left != {}
        invariant Valid() && left <= added.Keys
        invariant forall n :: n in added && n !in left ==> n in interfaces && interfaces[n] == added[n].interface
        invariant forall n :: n !in added || n in left ==> (n in interfaces <==> n in old(interfaces))
        invariant forall n :: (n !in added || n in left) && n in interfaces ==> interfaces[n] == old(interfaces)[n]
        decreases left
      {
        var n :| n in left;
        left := left - {n};
        interfaces := interfaces[n := added[n].interface];
      }
      assert interfaces.Keys == Extended(old(interfaces), added).Keys;
    }

    method Remove(name: string) returns (previous: Option<Interface>)
      requires Valid()
      modifies this
      ensures Valid() && interfaces == old(interfaces) - {name}
      ensures previous == if name in old(interfaces) then Some(old(interfaces)[name]) else None
    {
      previous := if name in interfaces then Some(interfaces[name]) else None;
      interfaces := interfaces - {name};
    }

    method RemoveMany(names: seq<string>)
      requires Valid()
      modifies this
      ensures Valid() && interfaces == old(interfaces) - (set n | n in names)
    {
      for k := 0 to |names|
        invariant Valid() && interfaces == old(interfaces) - (set n | n in names[..k])
      {
        var _ := Remove(names[k]);
        assert names[..k + 1] == names[..k] + [names[k]];
      }
      assert names[..|names|] == names;
    }
  }

  /** One rejection rejects the batch, whatever follows. */
  lemma {:induction false} JudgeManyStops(accepts: Accepts, m: Installed, batch: seq<Interface>, k: nat)
    requires k <= |batch| && JudgeMany(accepts, m, batch[..k]).Err?
    ensures JudgeMany(accepts, m, batch).Err?
  {
    if k < |batch| {
      var n := |batch| - 1;
      assert batch[..n][..k] == batch[..k];
      JudgeManyStops(accepts, m, batch[..n], k);
    } else {
      assert batch[..k] == batch;
    }
  }

  // ---- A batch is atomic, and its order does not matter -------------------------------------------

  /** Validates and adds one interface at a time, each against the result of the ones before. */
  function AddEach(accepts: Accepts, m: Installed, batch: seq<Interface>): Result<Installed, ()> {
    if batch == [] then Ok(m)
    else
      var n := |batch| - 1;
      match AddEach(accepts, m, batch[..n])
      case Err(_) => Err(())
      case Ok(m') =>
        match Judge(accepts, m', batch[n])
        case Err(_) => Err(())
        case Ok(None) => Ok(m')
        case Ok(Some(v)) => Ok(m'[v.interface.name := v.interface])
  }

  ghost predicate DistinctNames(batch: seq<Interface>) {
    forall j, k :: 0 <= j < k < |batch| ==> batch[j].name != batch[k].name
  }

  ghost predicate Accepted(accepts: Accepts, m: Installed, batch: seq<Interface>) {
    forall i :: i in batch ==> Judge(accepts, m, i).Ok?
  }

  /** What is installed once every interface of the batch is in. */
  ghost predicate HoldsBatch(m: Installed, batch: seq<Interface>, r: Installed) {
    && (forall i :: i in batch ==> i.name in r && r[i.name] == i)
    && (forall n :: (forall i :: i in batch ==> i.name != n) ==> (n in r <==> n in m) && (n in r ==> r[n] == m[n]))
  }

  /** `c` holds the verdict on every interface of the batch that is to be added, and nothing else. */
  ghost predicate Collects(accepts: Accepts, m: Installed, batch: seq<Interface>, c: map<string, Validated>) {
    && (forall n :: n in c ==> c[n].interface.name == n && c[n].interface in batch)
    && (forall i :: i in batch ==> Judge(accepts, m, i) == Ok(if i.name in c then Some(c[i.name]) else None))
  }

  lemma {:induction false} JudgeManyMeans(accepts: Accepts, m: Installed, batch: seq<Interface>)
    requires DistinctNames(batch)
    ensures JudgeMany(accepts, m, batch).Ok? <==> Accepted(accepts, m, batch)
    ensures JudgeMany(accepts, m, batch).Ok? ==> Collects(accepts, m, batch, JudgeMany(accepts, m, batch).value)
  {
    if batch != [] {
      var n := |batch| - 1;
      var first, verdict := JudgeMany(accepts, m, batch[..n]), Judge(accepts, m, batch[n]);
      JudgeManyMeans(accepts, m, batch[..n]);
      assert batch == batch[..n] + [batch[n]];
      if first.Ok? && verdict.Ok? {
        assert forall i :: i in batch[..n] ==> i.name != batch[n].name;
        CollectsMore(accepts, m, batch[..n], first.value, batch[n]);
      }
    }
  }

  lemma CollectsMore(accepts: Accepts, m: Installed, batch: seq<Interface>, c: map<string, Validated>, i: Interface)
    requires Collects(accepts, m, batch, c) && Judge(accepts, m, i).Ok? && forall j :: j in batch ==> j.name != i.name
    ensures var v := Judge(accepts, m, i).value;
            Collects(accepts, m, batch + [i], if v.Some? then c[i.name := v.value] else c)
  {
  }

  lemma ExtendedHolds(accepts: Accepts, m: Installed, batch: seq<Interface>, c: map<string, Validated>)
    requires Collects(accepts, m, batch, c)
    ensures HoldsBatch(m, batch, Extended(m, c))
  {
    forall i | i in batch
      ensures i.name in Extended(m, c) && Extended(m, c)[i.name] == i
    {
      assert Judge(accepts, m, i) == Ok(if i.name in c then Some(c[i.name]) else None);
    }
  }

  /** One interface more, judged as it would have been before the batch. */
  lemma HoldsMore(accepts: Accepts, m: Installed, batch: seq<Interface>, r: Installed, i: Interface)
    requires HoldsBatch(m, batch, r) && forall j :: j in batch ==> j.name != i.name
    ensures Judge(accepts, r, i) == Judge(accepts, m, i)
    ensures HoldsBatch(m, batch + [i], r[i.name := i])
    ensures Judge(accepts, m, i) == Ok(None) ==> r[i.name := i] == r
  {
  }

  /** What adding one at a time means, for one batch. */
  ghost predicate EachMeans(accepts: Accepts, m: Installed, batch: seq<Interface>) {
    && (AddEach(accepts, m, batch).Ok? <==> Accepted(accepts, m, batch))
    && (AddEach(accepts, m, batch).Ok? ==> HoldsBatch(m, batch, AddEach(accepts, m, batch).value))
  }

  lemma OneMoreMeans(accepts: Accepts, m: Installed, front: seq<Interface>, i: Interface)
    requires EachMeans(accepts, m, front) && forall j :: j in front ==> j.name != i.name
    ensures EachMeans(accepts, m, front + [i])
  {
    assert (front + [i])[..|front|] == front;
    assert Accepted(accepts, m, front + [i]) <==> Accepted(accepts, m, front) && Judge(accepts, m, i).Ok?;
    if AddEach(accepts, m, front).Ok? {
      HoldsMore(accepts, m, front, AddEach(accepts, m, front).value, i);
    }
  }

  lemma {:induction false} AddEachMeans(accepts: Accepts, m: Installed, batch: seq<Interface>)
    requires DistinctNames(batch)
    ensures AddEach(accepts, m, batch).Ok? <==> Accepted(accepts, m, batch)
    ensures AddEach(accepts, m, batch).Ok? ==> HoldsBatch(m, batch, AddEach(accepts, m, batch).value)
  {
    if batch != [] {
      var n := |batch| - 1;
      AddEachMeans(accepts, m, batch[..n]);
      OneMoreMeans(accepts, m, batch[..n], batch[n]);
      assert batch == batch[..n] + [batch[n]];
    }
  }

  lemma HoldsOnce(m: Installed, batch: seq<Interface>, other: seq<Interface>, r: Installed, r': Installed)
    requires HoldsBatch(m, batch, r) && HoldsBatch(m, other, r') && forall i :: i in batch <==> i in other
    ensures r == r'
  {
    forall n
      ensures (n in r <==> n in r') && (n in r ==> r[n] == r'[n])
    {
      if forall i :: i in batch ==> i.name != n {
      } else {
        var i :| i in batch && i.name == n;
      }
    }
  }

  /**
   For distinct names a batch succeeds or fails, and ends, as adding its interfaces one at a time does,
   in whatever order `other` they are added.
   */
  lemma BatchIsOneByOne(accepts: Accepts, m: Installed, batch: seq<Interface>, other: seq<Interface>)
    requires DistinctNames(batch) && DistinctNames(other) && forall i :: i in batch <==> i in other
    ensures JudgeMany(accepts, m, batch).Ok? <==> AddEach(accepts, m, other).Ok?
    ensures JudgeMany(accepts, m, batch).Ok? ==>
              Extended(m, JudgeMany(accepts, m, batch).value) == AddEach(accepts, m, other).value
  {
    JudgeManyMeans(accepts, m, batch);
    AddEachMeans(accepts, m, other);
    if JudgeMany(accepts, m, batch).Ok? {
      ExtendedHolds(accepts, m, batch, JudgeMany(accepts, m, batch).value);
      HoldsOnce(m, batch, other, Extended(m, JudgeMany(accepts, m, batch).value), AddEach(accepts, m, other).value);
    }
  }

  /** The batch succeeds or fails, and ends, as adding its interfaces one at a time does. */
  ghost predicate SameOutcome(accepts: Accepts, m: Installed, batch: seq<Interface>) {
    && (JudgeMany(accepts, m, batch).Ok? <==> AddEach(accepts, m, batch).Ok?)
    && (JudgeMany(accepts, m, batch).Ok? ==>
          Extended(m, JudgeMany(accepts, m, batch).value) == AddEach(accepts, m, batch).value)
  }

  ghost predicate Named(batch: seq<Interface>, names: seq<string>) {
    |batch| == |names| && forall k :: 0 <= k < |batch| ==> batch[k].name == names[k]
  }

  ghost predicate AllDistinct(names: seq<string>) {
    forall j, k :: 0 <= j < k < |names| ==> names[j] != names[k]
  }

  /** One version for each name, with ever lower majors. */
  function Descending(names: seq<string>): (r: seq<Interface>)
    ensures |r| == |names| && forall k :: 0 <= k < |r| ==> r[k] == Interface(names[k], Properties, |names| - k, 0, "")
  {
    seq(|names|, k requires 0 <= k < |names| => Interface(names[k], Properties, |names| - k, 0, ""))
  }

  lemma {:induction false} DescendingIsAccepted(accepts: Accepts, batch: seq<Interface>)
    ensures JudgeMany(accepts, map[], batch).Ok?
  {
    if batch != [] {
      DescendingIsAccepted(accepts, batch[..|batch| - 1]);
    }
  }

  lemma AllDistinctMore(names: seq<string>, x: string)
    ensures AllDistinct(names + [x]) <==> AllDistinct(names) && x !in names
  {
    var all := names + [x];
    assert all[|names|] == x && forall i :: 0 <= i < |names| ==> all[i] == names[i];
  }

  /** Accepted as long as no name repeats, and then above the bound. */
  ghost predicate AcceptedAbove(accepts: Accepts, front: seq<Interface>, names: seq<string>, bound: int) {
    var r := AddEach(accepts, map[], front);
    (r.Ok? <==> AllDistinct(names)) && (r.Ok? ==> Above(r.value, names, bound))
  }

  lemma OneMoreBelow(accepts: Accepts, front: seq<Interface>, names: seq<string>, i: Interface)
    requires RejectsDowngrades(accepts) && AcceptedAbove(accepts, front, names, i.major)
    ensures AcceptedAbove(accepts, front + [i], names + [i.name], i.major - 1)
  {
    assert (front + [i])[..|front|] == front;
    AllDistinctMore(names, i.name);
    if AddEach(accepts, map[], front).Ok? {
      NextIsJudged(accepts, AddEach(accepts, map[], front).value, names, i);
    }
  }

  /** Added one at a time, the versions are accepted until a name repeats. */
  lemma {:induction false} DescendingOneByOne(accepts: Accepts, names: seq<string>, k: nat)
    requires RejectsDowngrades(accepts) && k <= |names|
    ensures AcceptedAbove(accepts, Descending(names)[..k], names[..k], |names| - k)
  {
    if k > 0 {
      var n, all := k - 1, Descending(names);
      assert all[..k] == all[..n] + [all[n]] && names[..k] == names[..n] + [names[n]];
      assert all[n].name == names[n] && all[n].major == |names| - n;
      DescendingOneByOne(accepts, names, n);
      OneMoreBelow(accepts, all[..n], names[..n], all[n]);
    }
  }

  /** Exactly these names are installed, each with a major above the bound. */
  ghost predicate Above(m: Installed, names: seq<string>, bound: int) {
    (forall n :: n in m <==> n in names) && forall n :: n in m ==> m[n].major > bound
  }

  lemma NextIsJudged(accepts: Accepts, m: Installed, names: seq<string>, i: Interface)
    requires RejectsDowngrades(accepts) && Above(m, names, i.major)
    ensures Judge(accepts, m, i) == if i.name in names then Err(()) else Ok(Some(Validated(i, false)))
    ensures Above(m[i.name := i], names + [i.name], i.major - 1)
  {
  }

  /**
   All batches with these names behave as one-at-a-time adding, whatever is installed, exactly when no
   name repeats: with a repeated name a batch can install a lower major over a higher one of its own.
   */
  lemma OneByOneIffDistinct(accepts: Accepts, names: seq<string>)
    requires RejectsDowngrades(accepts)
    ensures (forall m, batch :: Named(batch, names) ==> SameOutcome(accepts, m, batch)) <==> AllDistinct(names)
  {
    if AllDistinct(names) {
      forall m, batch | Named(batch, names)
        ensures SameOutcome(accepts, m, batch)
      {
        BatchIsOneByOne(accepts, m, batch, batch);
      }
    } else {
      var batch := Descending(names);
      DescendingIsAccepted(accepts, batch);
      DescendingOneByOne(accepts, names, |names|);
      assert batch[..|names|] == batch && names[..|names|] == names;
      assert Named(batch, names) && !SameOutcome(accepts, map[], batch);
    }
  }

  // ---- Majors over a run ------------------------------------------------------------------------

  datatype Change = AddOne(interface: Interface) | AddMany(batch: seq<Interface>) | RemoveAll(names: set<string>)

  /** A change that is rejected leaves everything as it was. */
  function AfterChange(accepts: Accepts, m: Installed, c: Change): Installed {
    match c
    case AddOne(i) => AfterVerdict(m, JudgeMany(accepts, m, [i]))
    case AddMany(batch) => AfterVerdict(m, JudgeMany(accepts, m, batch))
    case RemoveAll(names) => m - names
  }

  function AfterVerdict(m: Installed, verdict: Result<map<string, Validated>, ()>): Installed {
    match verdict case Err(_) => m case Ok(c) => Extended(m, c)
  }

  function AfterRun(accepts: Accepts, m: Installed, run: seq<Change>): Installed {
    if run == [] then m else AfterChange(accepts, AfterRun(accepts, m, run[..|run| - 1]), run[|run| - 1])
  }

  lemma {:induction false} JudgedAreNewer(accepts: Accepts, m: Installed, batch: seq<Interface>, name: string)
    requires RejectsDowngrades(accepts) && Keyed(m) && JudgeMany(accepts, m, batch).Ok?
    ensures var c := JudgeMany(accepts, m, batch).value;
            name in c ==> c[name].interface.name == name && Judge(accepts, m, c[name].interface) == Ok(Some(c[name]))
                          && (name in m ==> m[name].major <= c[name].interface.major)
  {
    if batch != [] {
      JudgedAreNewer(accepts, m, batch[..|batch| - 1], name);
    }
  }

  /** As long as an interface is not removed, its major never goes down. */
  lemma {:induction false} MajorsNeverDecrease(accepts: Accepts, m: Installed, run: seq<Change>, name: string)
    requires RejectsDowngrades(accepts) && Keyed(m) && name in m
    requires forall c :: c in run && c.RemoveAll? ==> name !in c.names
    ensures Keyed(AfterRun(accepts, m, run))
    ensures name in AfterRun(accepts, m, run) && m[name].major <= AfterRun(accepts, m, run)[name].major
  {
    if run != [] {
      var n := |run| - 1;
      MajorsNeverDecrease(accepts, m, run[..n], name);
      ChangeKeeps(accepts, AfterRun(accepts, m, run[..n]), run[n], name);
    }
  }

  lemma ChangeKeeps(accepts: Accepts, m: Installed, c: Change, name: string)
    requires RejectsDowngrades(accepts) && Keyed(m) && name in m && (c.RemoveAll? ==> name !in c.names)
    ensures Keyed(AfterChange(accepts, m, c))
    ensures name in AfterChange(accepts, m, c) && m[name].major <= AfterChange(accepts, m, c)[name].major
  {
    if !c.RemoveAll? {
      var batch := if c.AddOne? then [c.interface] else c.batch;
      if JudgeMany(accepts, m, batch).Ok? {
        forall k {
          JudgedAreNewer(accepts, m, batch, k);
        }
      }
    }
  }

  // ---- The introspection sent to the server -------------------------------------------------------

  /** `order` lists the installed interfaces in some order, as the hash map iterates over them. */
  ghost predicate Lists(m: Installed, order: seq<string>) {
    (forall n :: n in m <==> n in order) && forall j, k :: 0 <= j < k < |order| ==> order[j] != order[k]
  }

  /** With the added interface chained at the end, a name is listed twice exactly when it was installed. */
  lemma ListedOnceIff(m: Installed, order: seq<string>, added: Validated)
    requires Lists(m, order)
    ensures var names := order + [added.interface.name];
            (forall j, k :: 0 <= j < k < |names| ==> names[j] != names[k]) <==> added.interface.name !in m
  {
    var names, n := order + [added.interface.name], |order|;
    if added.interface.name in m {
      var j :| 0 <= j < n && order[j] == added.interface.name;
      assert names[j] == names[n];
    }
  }
}
