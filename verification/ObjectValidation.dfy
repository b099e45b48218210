/** Validation of object aggregates (src/validate/object.rs, src/validate/mod.rs). */
module ObjectValidation {
  import opened Basics
  import opened Types
  import opened Aggregate

  /** One mapping of an object interface; `name` is the last level of its endpoint. */
  datatype ObjectMapping = ObjectMapping(name: string, mappingType: MappingType, required: bool)

  datatype ObjectError =
    | NotDeviceOwned
    | NotObjectPath
    | TimestampMismatch
    | MappingNotFound(key: string)
    | WrongType(key: string)
    | MappingRequired(name: string)

  // ---- The order of names -------------------------------------------------------------------------

  /** Lexicographic order by code points, which is the byte order of the UTF-8 encodings. */
  predicate Before(a: string, b: string) {
    b != [] && (a == [] || a[0] < b[0] || (a[0] == b[0] && Before(a[1..], b[1..])))
  }

  lemma {:induction false} Trichotomy(a: string, b: string)
    ensures a == b || Before(a, b) || Before(b, a)
    ensures !(Before(a, b) && Before(b, a)) && (a == b ==> !Before(a, b))
  {
    if a != [] && b != [] {
      Trichotomy(a[1..], b[1..]);
      assert a[0] == b[0] && a[1..] == b[1..] ==> a == [a[0]] + a[1..] == [b[0]] + b[1..] == b;
    }
  }

  lemma {:induction false} Transitive(a: string, b: string, c: string)
    requires Before(a, b) && Before(b, c)
    ensures Before(a, c)
  {
    if a != [] && a[0] == b[0] == c[0] {
      Transitive(a[1..], b[1..], c[1..]);
    }
  }

  datatype Ordering = Smaller | Same | Greater

  /** `DatastreamObjectMapping::cmp_object_field`: the mapping compared with a key. */
  function CmpObjectField(m: ObjectMapping, key: string): Ordering {
    if m.name == key then Same else if Before(m.name, key) then Smaller else Greater
  }

  /** Data may repeat a key; mappings never do. */
  ghost predicate SortedData(d: seq<Field>) {
    forall i, j :: 0 <= i < j < |d| ==> !Before(d[j].key, d[i].key)
  }

  ghost predicate SortedMappings(m: seq<ObjectMapping>) {
    forall i, j :: 0 <= i < j < |m| ==> Before(m[i].name, m[j].name)
  }

  // ---- The merging iterator -----------------------------------------------------------------------

  /** A datum, a mapping, or both when they have one name. */
  datatype Item =
    | DatumOnly(datum: Field)
    | MappingOnly(mapping: ObjectMapping)
    | Both(datum: Field, mapping: ObjectMapping)

  function NameOf(i: Item): string {
    match i case DatumOnly(d) => d.key case MappingOnly(m) => m.name case Both(d, _) => d.key
  }

  /** What the iterator yields from here on. */
  function Joined(d: seq<Field>, m: seq<ObjectMapping>): seq<Item>
    decreases |d| + |m|
  {
    if d == [] && m == [] then []
    else if d == [] then [MappingOnly(m[0])] + Joined(d, m[1..])
    else if m == [] then [DatumOnly(d[0])] + Joined(d[1..], m)
    else
      match CmpObjectField(m[0], d[0].key)
      case Smaller => [MappingOnly(m[0])] + Joined(d, m[1..])
      case Same => [Both(d[0], m[0])] + Joined(d[1..], m[1..])
      case Greater => [DatumOnly(d[0])] + Joined(d[1..], m)
  }

  /** What is left after the first item. */
  function Rest(d: seq<Field>, m: seq<ObjectMapping>): (seq<Field>, seq<ObjectMapping>)
    requires Joined(d, m) != []
  {
    var head := Joined(d, m)[0];
    (if head.MappingOnly? then d else d[1..], if head.DatumOnly? then m else m[1..])
  }

  class Iter {
    var data: seq<Field>
    var mapping: seq<ObjectMapping>

    constructor (data: seq<Field>, mapping: seq<ObjectMapping>)
      ensures this.data == data && this.mapping == mapping
    {
      this.data, this.mapping := data, mapping;
    }

    ghost function Rest(): seq<Item>
      reads this
    {
      Joined(data, mapping)
    }

    method Next() returns (item: Option<Item>)
      modifies this
      ensures item.None? <==> old(Rest()) == []
      ensures item.Some? ==> old(Rest()) == [item.value] + Rest()
      ensures item.None? ==> data == old(data) && mapping == old(mapping)
      ensures item.Some? ==> |data| + |mapping| < old(|data| + |mapping|)
    {
      if data == [] && mapping == [] {
        return None;
      } else if data == [] {
        item, mapping := Some(MappingOnly(mapping[0])), mapping[1..];
      } else if mapping == [] {
        item, data := Some(DatumOnly(data[0])), data[1..];
      } else {
        match CmpObjectField(mapping[0], data[0].key) {
          case Smaller => item, mapping := Some(MappingOnly(mapping[0])), mapping[1..];
          case Same =>
            item := Some(Both(data[0], mapping[0]));
            data, mapping := data[1..], mapping[1..];
          case Greater => item, data := Some(DatumOnly(data[0])), data[1..];
        }
      }
    }
  }

  function DataOf(items: seq<Item>): seq<Field> {
    if items == [] then []
    else (if items[0].MappingOnly? then [] else [items[0].datum]) + DataOf(items[1..])
  }

  function MappingsOf(items: seq<Item>): seq<ObjectMapping> {
    if items == [] then []
    else (if items[0].DatumOnly? then [] else [items[0].mapping]) + MappingsOf(items[1..])
  }

  /** Every datum and every mapping comes out exactly once and in its own order, whatever the input. */
  lemma {:induction false} YieldsEachOnce(d: seq<Field>, m: seq<ObjectMapping>)
    ensures DataOf(Joined(d, m)) == d && MappingsOf(Joined(d, m)) == m
    decreases |d| + |m|
  {
    var all := Joined(d, m);
    if all != [] {
      var (d', m') := Rest(d, m);
      YieldsEachOnce(d', m');
      assert all[1..] == Joined(d', m');
    }
  }

  /** `name` is not after any name that is still to come. */
  ghost predicate AtMost(name: string, d: seq<Field>, m: seq<ObjectMapping>) {
    (forall f :: f in d ==> !Before(f.key, name)) && (forall x :: x in m ==> !Before(x.name, name))
  }

  lemma {:induction false} JoinedIsFrom(d: seq<Field>, m: seq<ObjectMapping>, i: Item)
    requires i in Joined(d, m)
    ensures i.MappingOnly? || i.datum in d
    ensures i.DatumOnly? || i.mapping in m
    ensures i.Both? ==> i.datum.key == i.mapping.name
    decreases |d| + |m|
  {
    if d == [] || (m != [] && CmpObjectField(m[0], d[0].key).Smaller?) {
      if i != MappingOnly(m[0]) { JoinedIsFrom(d, m[1..], i); }
    } else if m == [] || CmpObjectField(m[0], d[0].key).Greater? {
      if i != DatumOnly(d[0]) { JoinedIsFrom(d[1..], m, i); }
    } else if i != Both(d[0], m[0]) {
      JoinedIsFrom(d[1..], m[1..], i);
    }
  }

  lemma HeadIsLeast(d: seq<Field>, m: seq<ObjectMapping>)
    requires SortedData(d) && SortedMappings(m) && (d != [] || m != [])
    ensures Joined(d, m) != [] && AtMost(NameOf(Joined(d, m)[0]), d, m)
  {
    var name := NameOf(Joined(d, m)[0]);
    if d != [] && m != [] {
      Trichotomy(m[0].name, d[0].key);
    }
    forall f | f in d
      ensures !Before(f.key, name)
    {
      Trichotomy(f.key, name);
      if name != d[0].key && Before(f.key, name) {
        Transitive(f.key, name, d[0].key);
      }
    }
    forall x | x in m
      ensures !Before(x.name, name)
    {
      Trichotomy(x.name, m[0].name);
      if name != m[0].name && Before(x.name, name) {
        Transitive(x.name, name, m[0].name);
      }
    }
  }

  /** On sorted input the names come out in order. */
  lemma {:induction false} YieldsInOrder(d: seq<Field>, m: seq<ObjectMapping>)
    requires SortedData(d) && SortedMappings(m)
    ensures forall i, j :: 0 <= i < j < |Joined(d, m)| ==> !Before(NameOf(Joined(d, m)[j]), NameOf(Joined(d, m)[i]))
    decreases |d| + |m|
  {
    var all := Joined(d, m);
    if all != [] {
      var (d', m') := Rest(d, m);
      HeadIsLeast(d, m);
      YieldsInOrder(d', m');
      forall j | 0 < j < |all|
        ensures !Before(NameOf(all[j]), NameOf(all[0]))
      {
        JoinedIsFrom(d', m', all[j]);
      }
    }
  }

  // ---- Checking -----------------------------------------------------------------------------------

  function CheckItem(i: Item): Option<ObjectError> {
    match i
    case DatumOnly(d) => Some(MappingNotFound(d.key))
    case MappingOnly(m) => if m.required then Some(MappingRequired(m.name)) else None
    case Both(d, m) => if EqMappingType(d.value, m.mappingType) then None else Some(WrongType(d.key))
  }

  function FirstError(items: seq<Item>): Option<ObjectError> {
    if items == [] then None
    else if CheckItem(items[0]).Some? then CheckItem(items[0])
    else FirstError(items[1..])
  }

  method CheckMappings(mappings: seq<ObjectMapping>, data: seq<Field>) returns (r: Option<ObjectError>)
    requires SortedData(data) && SortedMappings(mappings)
    ensures IsFirstProblem(data, mappings, r)
  {
    FirstErrorIsFirstProblem(data, mappings);
    var iter := new Iter(data, mappings);
    var item := iter.Next();
    while item.Some?
      invariant fresh(iter)
      invariant item.None? ==> FirstError(Joined(data, mappings)) == None
      invariant item.Some? ==> FirstError(Joined(data, mappings)) == FirstError([item.value] + iter.Rest())
      decreases |iter.data| + |iter.mapping|, item.Some?
    {
      match item.value {
        case DatumOnly(d) => return Some(MappingNotFound(d.key));
        case MappingOnly(m) =>
          if m.required {
            return Some(MappingRequired(m.name));
          }
        case Both(d, m) =>
          if !EqMappingType(d.value, m.mappingType) {
            return Some(WrongType(d.key));
          }
      }
      assert ([item.value] + iter.Rest())[1..] == iter.Rest();
      item := iter.Next();
    }
    return None;
  }

  function Find(m: seq<ObjectMapping>, name: string): (r: Option<ObjectMapping>)
    ensures r.Some? ==> r.value in m && r.value.name == name
    ensures r.None? ==> forall x :: x in m ==> x.name != name
  {
    if m == [] then None else if m[0].name == name then Some(m[0]) else Find(m[1..], name)
  }

  function Count(d: seq<Field>, key: string): (n: nat)
    ensures n > 0 <==> exists f :: f in d && f.key == key
  {
    if d == [] then 0 else (if d[0].key == key then 1 else 0) + Count(d[1..], key)
  }

  /** What is wrong with the fields and the mapping of one name, in the order it is looked for. */
  function Problem(d: seq<Field>, m: seq<ObjectMapping>, name: string): Option<ObjectError> {
    match Find(m, name)
    case None => if Count(d, name) > 0 then Some(MappingNotFound(name)) else None
    case Some(x) =>
      match Lookup(d, name)
      case None => if x.required then Some(MappingRequired(name)) else None
      case Some(v) =>
        if !EqMappingType(v, x.mappingType) then Some(WrongType(name))
        else if Count(d, name) > 1 then Some(MappingNotFound(name))
        else None
  }

  function ErrorName(e: ObjectError): string {
    match e
    case MappingNotFound(k) => k
    case WrongType(k) => k
    case MappingRequired(k) => k
    case _ => ""
  }

  /** The result is the problem of the least name that has one. */
  ghost predicate IsFirstProblem(d: seq<Field>, m: seq<ObjectMapping>, r: Option<ObjectError>) {
    match r
    case None => forall k :: Problem(d, m, k) == None
    case Some(e) =>
      && Problem(d, m, ErrorName(e)) == Some(e)
      && forall k :: Before(k, ErrorName(e)) ==> Problem(d, m, k) == None
  }

  lemma {:induction false} NoProblemBefore(d: seq<Field>, m: seq<ObjectMapping>, name: string, k: string)
    requires AtMost(name, d, m) && Before(k, name)
    ensures Problem(d, m, k) == None
  {
  }

  /** An item without an error takes no problem away. */
  lemma ProblemsOfRest(d: seq<Field>, m: seq<ObjectMapping>, k: string)
    requires SortedData(d) && SortedMappings(m) && Joined(d, m) != [] && CheckItem(Joined(d, m)[0]) == None
    ensures Problem(Rest(d, m).0, Rest(d, m).1, k) == Problem(d, m, k)
  {
    var head := Joined(d, m)[0];
    if k != NameOf(head) {
      HeadIsFirst(d, m);
      OtherName(d, m, Rest(d, m).0, Rest(d, m).1, k);
    } else if head.MappingOnly? {
      NotAmongData(d, m);
    } else {
      NotAmongMappings(m);
      SecondOfName(d, m);
    }
  }

  lemma OtherName(d: seq<Field>, m: seq<ObjectMapping>, d': seq<Field>, m': seq<ObjectMapping>, k: string)
    requires d' == d || (d != [] && d[0].key != k && d' == d[1..])
    requires m' == m || (m != [] && m[0].name != k && m' == m[1..])
    ensures Problem(d', m', k) == Problem(d, m, k)
  {
    if m' != m {
      OtherMapping(m, k);
    }
    if d' != d {
      OtherDatum(d, k);
    }
  }

  lemma HeadIsFirst(d: seq<Field>, m: seq<ObjectMapping>)
    requires Joined(d, m) != []
    ensures var head := Joined(d, m)[0];
            && (head.MappingOnly? || (d != [] && d[0] == head.datum && d[0].key == NameOf(head)))
            && (head.DatumOnly? || (m != [] && m[0] == head.mapping && m[0].name == NameOf(head)))
  {
  }

  lemma OtherMapping(m: seq<ObjectMapping>, k: string)
    requires m != [] && m[0].name != k
    ensures Find(m, k) == Find(m[1..], k)
  {
  }

  lemma OtherDatum(d: seq<Field>, k: string)
    requires d != [] && d[0].key != k
    ensures Lookup(d, k) == Lookup(d[1..], k) && Count(d, k) == Count(d[1..], k)
  {
  }

  lemma SecondOfName(d: seq<Field>, m: seq<ObjectMapping>)
    requires d != [] && m != [] && d[0].key == m[0].name && Find(m[1..], m[0].name) == None
    requires EqMappingType(d[0].value, m[0].mappingType)
    ensures Problem(d[1..], m[1..], m[0].name) == Problem(d, m, m[0].name)
  {
    assert Count(d, m[0].name) == 1 + Count(d[1..], m[0].name);
  }

  lemma NotAmongData(d: seq<Field>, m: seq<ObjectMapping>)
    requires SortedData(d) && SortedMappings(m) && Joined(d, m) != [] && Joined(d, m)[0].MappingOnly?
    ensures Lookup(d, m[0].name) == None && Count(d, m[0].name) == 0
    ensures Find(m[1..], m[0].name) == None
  {
    NotAmongMappings(m);
    if d != [] {
      Trichotomy(m[0].name, d[0].key);
    }
    LookupIsMap(d, m[0].name);
  }

  lemma NotAmongMappings(m: seq<ObjectMapping>)
    requires SortedMappings(m) && m != []
    ensures Find(m[1..], m[0].name) == None
  {
    forall x | x in m[1..]
      ensures x.name != m[0].name
    {
      Trichotomy(m[0].name, x.name);
    }
  }

  lemma {:induction false} FirstErrorIsFirstProblem(d: seq<Field>, m: seq<ObjectMapping>)
    requires SortedData(d) && SortedMappings(m)
    ensures IsFirstProblem(d, m, FirstError(Joined(d, m)))
    decreases |d| + |m|
  {
    if d != [] || m != [] {
      HeadIsLeast(d, m);
      var head := Joined(d, m)[0];
      if CheckItem(head).Some? {
        forall k | Before(k, NameOf(head))
          ensures Problem(d, m, k) == None
        {
          NoProblemBefore(d, m, NameOf(head), k);
        }
        HeadProblem(d, m);
      } else {
        var (d', m') := Rest(d, m);
        FirstErrorIsFirstProblem(d', m');
        forall k
          ensures Problem(d', m', k) == Problem(d, m, k)
        {
          ProblemsOfRest(d, m, k);
        }
      }
    }
  }

  lemma HeadProblem(d: seq<Field>, m: seq<ObjectMapping>)
    requires SortedData(d) && SortedMappings(m) && Joined(d, m) != [] && CheckItem(Joined(d, m)[0]).Some?
    ensures Problem(d, m, NameOf(Joined(d, m)[0])) == CheckItem(Joined(d, m)[0])
  {
    var head := Joined(d, m)[0];
    HeadIsLeast(d, m);
    if head.MappingOnly? {
      NotAmongData(d, m);
    }
    if head.DatumOnly? && m != [] {
      Trichotomy(m[0].name, d[0].key);
      forall x | x in m
        ensures x.name != d[0].key
      {
        if x != m[0] {
          Trichotomy(x.name, m[0].name);
        }
      }
    }
  }

  // ---- Acceptance ---------------------------------------------------------------------------------

  /**
   What an object must satisfy, whatever the order of its fields: keys do not repeat, each has a mapping
   of its type, and nothing required is missing.
   */
  ghost predicate Conforms(d: seq<Field>, m: seq<ObjectMapping>) {
    && DistinctKeys(d)
    && (forall f :: f in d ==> exists x :: x in m && x.name == f.key && EqMappingType(f.value, x.mappingType))
    && (forall x :: x in m && x.required ==> exists f :: f in d && f.key == x.name)
  }

  lemma {:induction false} CountRepeats(d: seq<Field>, i: nat, j: nat)
    requires i < j < |d| && d[i].key == d[j].key
    ensures Count(d, d[i].key) > 1
  {
    if i > 0 {
      CountRepeats(d[1..], i - 1, j - 1);
    } else {
      assert d[j] in d[1..];
    }
  }

  lemma {:induction false} CountDistinct(d: seq<Field>, key: string)
    requires DistinctKeys(d)
    ensures Count(d, key) <= 1
  {
    if d != [] {
      CountDistinct(d[1..], key);
      assert forall f :: f in d[1..] ==> exists i :: 0 < i < |d| && d[i] == f;
    }
  }

  lemma FindUnique(m: seq<ObjectMapping>, x: ObjectMapping)
    requires SortedMappings(m) && x in m
    ensures Find(m, x.name) == Some(x)
  {
    var y := Find(m, x.name).value;
    var i, j :| 0 <= i < |m| && 0 <= j < |m| && m[i] == x && m[j] == y;
    Trichotomy(x.name, y.name);
  }

  lemma NoProblemIff(d: seq<Field>, m: seq<ObjectMapping>)
    requires SortedMappings(m)
    ensures IsFirstProblem(d, m, None) <==> Conforms(d, m)
  {
    if Conforms(d, m) {
      forall k
        ensures Problem(d, m, k) == None
      {
        ConformingName(d, m, k);
      }
    }
    if IsFirstProblem(d, m, None) {
      NoProblemConforms(d, m);
    }
  }

  lemma ConformingName(d: seq<Field>, m: seq<ObjectMapping>, k: string)
    requires SortedMappings(m) && Conforms(d, m)
    ensures Problem(d, m, k) == None
  {
    LookupIsMap(d, k);
    CountDistinct(d, k);
    if Lookup(d, k).Some? {
      FirstField(d, k);
      var f := Field(k, Lookup(d, k).value);
      var x :| x in m && x.name == f.key && EqMappingType(f.value, x.mappingType);
      FindUnique(m, x);
    }
  }

  lemma NoProblemConforms(d: seq<Field>, m: seq<ObjectMapping>)
    requires SortedMappings(m) && IsFirstProblem(d, m, None)
    ensures Conforms(d, m)
  {
    forall i, j | 0 <= i < j < |d|
      ensures d[i].key != d[j].key
    {
      assert Problem(d, m, d[i].key) == None;
      if d[i].key == d[j].key {
        CountRepeats(d, i, j);
        LookupIsMap(d, d[i].key);
      }
    }
    forall f | f in d
      ensures exists x :: x in m && x.name == f.key && EqMappingType(f.value, x.mappingType)
    {
      assert Problem(d, m, f.key) == None;
      LookupIsMap(d, f.key);
      DistinctMap(d);
    }
    forall x | x in m && x.required
      ensures exists f :: f in d && f.key == x.name
    {
      assert Problem(d, m, x.name) == None;
      FindUnique(m, x);
      LookupIsMap(d, x.name);
    }
  }

  /** Distinctness in terms of the bag of fields, which sorting keeps. */
  lemma DistinctInBag(d: seq<Field>)
    ensures DistinctKeys(d) <==>
              && (forall f :: multiset(d)[f] <= 1)
              && (forall f, g :: f in multiset(d) && g in multiset(d) && f.key == g.key ==> f == g)
  {
    if DistinctKeys(d) {
      forall f
        ensures multiset(d)[f] <= 1
      {
        OnceInBag(d, f);
      }
    } else {
      var i, j :| 0 <= i < j < |d| && d[i].key == d[j].key;
      assert d[i] in multiset(d) && d[j] in multiset(d);
      if d[i] == d[j] {
        TwiceInBag(d, i, j);
      }
    }
  }

  lemma {:induction false} OnceInBag(d: seq<Field>, f: Field)
    requires DistinctKeys(d)
    ensures multiset(d)[f] <= 1
  {
    if d != [] {
      assert d == [d[0]] + d[1..];
      OnceInBag(d[1..], f);
      assert f in multiset(d[1..]) ==> f in d[1..];
    }
  }

  lemma TwiceInBag(d: seq<Field>, i: nat, j: nat)
    requires i < j < |d| && d[i] == d[j]
    ensures multiset(d)[d[i]] > 1
  {
    assert d == d[..i] + [d[i]] + d[i + 1..];
    assert d[j] in d[i + 1..];
    assert multiset(d) == multiset(d[..i]) + multiset{d[i]} + multiset(d[i + 1..]);
  }

  lemma ConformsInAnyOrder(d: seq<Field>, e: seq<Field>, m: seq<ObjectMapping>)
    requires multiset(d) == multiset(e)
    ensures Conforms(d, m) <==> Conforms(e, m)
  {
    DistinctInBag(d);
    DistinctInBag(e);
    assert forall f :: f in d <==> f in multiset(d);
    assert forall f :: f in e <==> f in multiset(e);
  }

  // ---- Sorting, and the whole validation ----------------------------------------------------------

  lemma InsertSorted(r: seq<Field>, x: Field, j: nat)
    requires SortedData(r) && j <= |r|
    requires forall k :: 0 <= k < j ==> !Before(x.key, r[k].key)
    requires j < |r| ==> Before(x.key, r[j].key)
    ensures SortedData(r[..j] + [x] + r[j..])
  {
    forall k | j <= k < |r|
      ensures !Before(r[k].key, x.key)
    {
      Trichotomy(x.key, r[k].key);
      Trichotomy(r[j].key, r[k].key);
      if Before(r[j].key, r[k].key) {
        Transitive(x.key, r[j].key, r[k].key);
      }
    }
  }

  /** `sort_unstable_by` on the keys. */
  method SortByKey(data: seq<Field>) returns (r: seq<Field>)
    ensures SortedData(r) && multiset(r) == multiset(data)
  {
    r := [];
    for i := 0 to |data|
      invariant SortedData(r) && multiset(r) == multiset(data[..i])
    {
      var j := 0;
      while j < |r| && !Before(data[i].key, r[j].key)
        invariant j <= |r| && forall k :: 0 <= k < j ==> !Before(data[i].key, r[k].key)
      {
        j := j + 1;
      }
      InsertSorted(r, data[i], j);
      assert data[..i + 1] == data[..i] + [data[i]];
      assert r == r[..j] + r[j..];
      r := r[..j] + [data[i]] + r[j..];
    }
    assert data[..|data|] == data;
  }

  datatype ObjectInterface = ObjectInterface(deviceOwned: bool, explicitTimestamp: bool, mappings: seq<ObjectMapping>)

  /**
   `ValidatedObject::validate`: an object is accepted exactly when it conforms, with its fields sorted;
   otherwise the error is the first problem of the sorted fields.
   */
  method Validate(interface: ObjectInterface, isObjectPath: bool, data: seq<Field>, hasTimestamp: bool)
    returns (r: Result<seq<Field>, ObjectError>)
    requires SortedMappings(interface.mappings)
    ensures var checked := interface.deviceOwned && isObjectPath && hasTimestamp == interface.explicitTimestamp;
            && (r.Ok? <==> checked && Conforms(data, interface.mappings))
            && (r.Ok? ==> SortedData(r.value) && multiset(r.value) == multiset(data))
            && (r.Err? && !checked ==> r.error == if !interface.deviceOwned then NotDeviceOwned
                                                  else if !isObjectPath then NotObjectPath else TimestampMismatch)
            && (r.Err? && checked ==> exists d :: multiset(d) == multiset(data) && SortedData(d)
                                                  && IsFirstProblem(d, interface.mappings, Some(r.error)))
  {
    if !interface.deviceOwned {
      return Err(NotDeviceOwned);
    }
    if !isObjectPath {
      return Err(NotObjectPath);
    }
    if hasTimestamp != interface.explicitTimestamp {
      return Err(TimestampMismatch);
    }
    var sorted := SortByKey(data);
    ConformsInAnyOrder(data, sorted, interface.mappings);
    NoProblemIff(sorted, interface.mappings);
    var error := CheckMappings(interface.mappings, sorted);
    if error.Some? {
      return Err(error.value);
    }
    return Ok(sorted);
  }
}
