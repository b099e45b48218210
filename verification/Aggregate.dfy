/** The association list behind an object aggregate (src/aggregate.rs). */
module Aggregate {
  import opened Basics
  import opened Types

  datatype Field = Field(key: string, value: AstarteData)

  /** The first value under a key, as `get` finds it. */
  function Lookup(s: seq<Field>, key: string): Option<AstarteData> {
    if s == [] then None
    else if s[0].key == key then Some(s[0].value)
    else Lookup(s[1..], key)
  }

  /** The object as a map; the first of several values under one key counts. */
  function ToMap(s: seq<Field>): map<string, AstarteData> {
    if s == [] then map[] else ToMap(s[1..])[s[0].key := s[0].value]
  }

  ghost predicate DistinctKeys(s: seq<Field>) {
    forall i, j :: 0 <= i < j < |s| ==> s[i].key != s[j].key
  }

  /** `PartialEq` of objects. */
  predicate Eq(a: seq<Field>, b: seq<Field>) {
    |a| == |b| && forall f :: f in a ==> Lookup(b, f.key) == Some(f.value)
  }

  class AstarteObject {
    var inner: seq<Field>

    constructor ()
      ensures inner == []
    {
      inner := [];
    }

    /** `from_iter` does not look for keys that repeat. */
    constructor FromIter(fields: seq<Field>)
      ensures inner == fields
    {
      inner := fields;
    }

    method Position(key: string) returns (i: nat)
      ensures i <= |inner| && (i < |inner| ==> inner[i].key == key)
      ensures forall j :: 0 <= j < i ==> inner[j].key != key
    {
      i := 0;
      while i < |inner| && inner[i].key != key
        invariant i <= |inner| && forall j :: 0 <= j < i ==> inner[j].key != key
      {
        i := i + 1;
      }
    }

    /** Overrides and returns the previous value, or appends. */
    method Insert(key: string, value: AstarteData) returns (previous: Option<AstarteData>)
      modifies this
      ensures ToMap(inner) == ToMap(old(inner))[key := value]
      ensures previous == if key in ToMap(old(inner)) then Some(ToMap(old(inner))[key]) else None
      ensures DistinctKeys(old(inner)) ==> DistinctKeys(inner)
      ensures |inner| == |old(inner)| + if key in ToMap(old(inner)) then 0 else 1
    {
      var i := Position(key);
      LookupAt(inner, key, i);
      if i < |inner| {
        previous := Some(inner[i].value);
        ReplaceAt(inner, key, value, i);
        inner := inner[i := Field(key, value)];
      } else {
        previous := None;
        AppendNew(inner, key, value);
        inner := inner + [Field(key, value)];
      }
    }

    method Get(name: string) returns (value: Option<AstarteData>)
      ensures value == if name in ToMap(inner) then Some(ToMap(inner)[name]) else None
    {
      var i := Position(name);
      LookupAt(inner, name, i);
      value := if i < |inner| then Some(inner[i].value) else None;
    }

    /** The last field takes the place of the removed one. */
    method Remove(name: string) returns (value: Option<AstarteData>)
      modifies this
      ensures value == if name in ToMap(old(inner)) then Some(ToMap(old(inner))[name]) else None
      ensures DistinctKeys(old(inner)) ==> DistinctKeys(inner) && ToMap(inner) == ToMap(old(inner)) - {name}
      ensures |inner| == |old(inner)| - if name in ToMap(old(inner)) then 1 else 0
    {
      var i := Position(name);
      LookupAt(inner, name, i);
      if i == |inner| {
        return None;
      }
      value := Some(inner[i].value);
      var last := |inner| - 1;
      if DistinctKeys(inner) {
        SwapRemoved(inner, i);
      }
      inner := inner[i := inner[last]][..last];
    }
  }

  // ---- The list refines a finite map --------------------------------------------------------------

  lemma {:induction false} LookupIsMap(s: seq<Field>, key: string)
    ensures Lookup(s, key) == if key in ToMap(s) then Some(ToMap(s)[key]) else None
    ensures key in ToMap(s) <==> exists f :: f in s && f.key == key
  {
    if s != [] {
      LookupIsMap(s[1..], key);
      assert s[0] in s;
      assert forall f :: f in s ==> f == s[0] || f in s[1..];
    }
  }

  lemma {:induction false} LookupAt(s: seq<Field>, key: string, i: nat)
    requires i <= |s| && (i < |s| ==> s[i].key == key) && forall j :: 0 <= j < i ==> s[j].key != key
    ensures key in ToMap(s) <==> i < |s|
    ensures i < |s| ==> ToMap(s)[key] == s[i].value
  {
    if i > 0 {
      LookupAt(s[1..], key, i - 1);
    }
  }

  lemma {:induction false} ReplaceAt(s: seq<Field>, key: string, value: AstarteData, i: nat)
    requires i < |s| && s[i].key == key && forall j :: 0 <= j < i ==> s[j].key != key
    ensures ToMap(s[i := Field(key, value)]) == ToMap(s)[key := value]
  {
    if i > 0 {
      ReplaceAt(s[1..], key, value, i - 1);
      assert s[i := Field(key, value)][1..] == s[1..][i - 1 := Field(key, value)];
    }
  }

  lemma {:induction false} AppendNew(s: seq<Field>, key: string, value: AstarteData)
    requires forall j :: 0 <= j < |s| ==> s[j].key != key
    ensures ToMap(s + [Field(key, value)]) == ToMap(s)[key := value]
  {
    if s != [] {
      AppendNew(s[1..], key, value);
      assert (s + [Field(key, value)])[1..] == s[1..] + [Field(key, value)];
    }
  }

  /** With distinct keys the map is the set of fields. */
  lemma {:induction false} DistinctMap(s: seq<Field>)
    requires DistinctKeys(s)
    ensures forall f :: f in s <==> f.key in ToMap(s) && ToMap(s)[f.key] == f.value
  {
    forall f
      ensures f in s <==> f.key in ToMap(s) && ToMap(s)[f.key] == f.value
    {
      LookupIsMap(s, f.key);
      if f.key in ToMap(s) {
        var g :| g in s && g.key == f.key;
        var i :| 0 <= i < |s| && s[i] == g;
        LookupAt(s, f.key, i);
      }
    }
  }

  lemma SwapRemoved(s: seq<Field>, i: nat)
    requires DistinctKeys(s) && i < |s|
    ensures var r := s[i := s[|s| - 1]][..|s| - 1]; DistinctKeys(r) && ToMap(r) == ToMap(s) - {s[i].key}
  {
    var n := |s| - 1;
    var r := s[i := s[n]][..n];
    DistinctMap(s);
    DistinctMap(r);
    forall f
      ensures f in r <==> f in s && f.key != s[i].key
    {
      if f in s && f.key != s[i].key {
        var j :| 0 <= j < |s| && s[j] == f;
        assert if j == n then r[i] == f else r[j] == f;
      }
    }
    SameFieldsSameMap(ToMap(r), ToMap(s) - {s[i].key});
  }

  lemma SameFieldsSameMap(m: map<string, AstarteData>, n: map<string, AstarteData>)
    requires forall f: Field :: (f.key in m && m[f.key] == f.value) <==> (f.key in n && n[f.key] == f.value)
    ensures m == n
  {
    forall k
      ensures k in m <==> k in n
      ensures k in m ==> m[k] == n[k]
    {
      if k in m {
        assert Field(k, m[k]).key in n;
      }
      if k in n {
        assert Field(k, n[k]).key in m;
      }
    }
  }

  // ---- Equality ---------------------------------------------------------------------------------

  lemma {:induction false} MapSize(s: seq<Field>)
    ensures |ToMap(s)| <= |s|
    ensures |ToMap(s)| == |s| <==> DistinctKeys(s)
  {
    if s != [] {
      MapSize(s[1..]);
      LookupIsMap(s[1..], s[0].key);
      assert ToMap(s).Keys == ToMap(s[1..]).Keys + {s[0].key};
      assert forall i :: 0 < i < |s| ==> s[i] in s[1..];
    }
  }

  /**
   The one-directional, length-guarded comparison is equality of maps as soon as the left-hand object
   has distinct keys: with as many fields on the right, no room is left there for any other key.
   */
  lemma EqIsMapEquality(a: seq<Field>, b: seq<Field>)
    requires DistinctKeys(a)
    ensures Eq(a, b) ==> DistinctKeys(b) && ToMap(a) == ToMap(b)
    ensures DistinctKeys(b) && ToMap(a) == ToMap(b) ==> Eq(a, b)
  {
    MapSize(a);
    MapSize(b);
    DistinctMap(a);
    if Eq(a, b) {
      forall k | k in ToMap(a)
        ensures k in ToMap(b) && ToMap(b)[k] == ToMap(a)[k]
      {
        assert Field(k, ToMap(a)[k]) in a;
        LookupIsMap(b, k);
      }
      assert ToMap(a).Keys <= ToMap(b).Keys;
      Pigeonhole(ToMap(a).Keys, ToMap(b).Keys);
    }
    if DistinctKeys(b) && ToMap(a) == ToMap(b) {
      forall f | f in a
        ensures Lookup(b, f.key) == Some(f.value)
      {
        LookupIsMap(b, f.key);
      }
    }
  }

  lemma Pigeonhole(s: set<string>, t: set<string>)
    requires s <= t && |t| <= |s|
    ensures s == t
  {
    assert |t| == |s| + |t - s|;
  }

  /** So equality is an equivalence on the objects that `insert` and `remove` build. */
  lemma EqIsEquivalence(a: seq<Field>, b: seq<Field>, c: seq<Field>)
    requires DistinctKeys(a) && DistinctKeys(b)
    ensures Eq(a, a) && (Eq(a, b) ==> Eq(b, a)) && (Eq(a, b) && Eq(b, c) ==> Eq(a, c))
  {
    EqIsMapEquality(a, a);
    EqIsMapEquality(a, b);
    EqIsMapEquality(b, a);
    EqIsMapEquality(b, c);
    EqIsMapEquality(a, c);
  }

  /** A key longer than every key of the object. */
  function FreshKey(s: seq<Field>): (k: string)
    ensures forall f :: f in s ==> |f.key| < |k|
  {
    if s == [] then "x"
    else
      var k := FreshKey(s[1..]);
      if |s[0].key| < |k| then k else s[0].key + "x"
  }

  /**
   For objects collected from an iterator, whose keys may repeat, equality with everything is symmetric
   exactly when the keys are distinct, or when the object is not even equal to itself.
   */
  lemma SymmetricIff(a: seq<Field>)
    ensures (forall b :: Eq(a, b) ==> Eq(b, a)) <==> DistinctKeys(a) || !Eq(a, a)
  {
    if DistinctKeys(a) {
      forall b
        ensures Eq(a, b) ==> Eq(b, a)
      {
        EqIsMapEquality(a, b);
        if Eq(a, b) {
          EqIsMapEquality(b, a);
        }
      }
    } else if Eq(a, a) {
      var i, j :| 0 <= i < j < |a| && a[i].key == a[j].key;
      var b := a[j := Field(FreshKey(a), a[j].value)];
      forall f | f in a
        ensures Lookup(b, f.key) == Some(f.value)
      {
        ReplacedLookup(a, j, b[j], f.key, i);
      }
      assert b[j] in b;
      LookupIsMap(a, FreshKey(a));
      assert Eq(a, b) && !Eq(b, a);
    } else {
      forall b
        ensures !Eq(a, b)
      {
        NotSelfEqual(a, b);
      }
    }
  }

  /** Replacing a later field by one with another key does not change what is found before it. */
  lemma {:induction false} ReplacedLookup(a: seq<Field>, j: nat, g: Field, key: string, i: nat)
    requires i < j < |a| && a[i].key == a[j].key && g.key != key
    ensures Lookup(a[j := g], key) == Lookup(a, key)
  {
    if i > 0 {
      assert a[j := g][1..] == a[1..][j - 1 := g];
      ReplacedLookup(a[1..], j - 1, g, key, i - 1);
    } else if a[0].key != key {
      assert a[j := g][1..] == a[1..][j - 1 := g];
      LookupOther(a[1..], j - 1, g, key);
    }
  }

  lemma {:induction false} LookupOther(a: seq<Field>, j: nat, g: Field, key: string)
    requires j < |a| && a[j].key != key && g.key != key
    ensures Lookup(a[j := g], key) == Lookup(a, key)
  {
    if j > 0 {
      assert a[j := g][1..] == a[1..][j - 1 := g];
      LookupOther(a[1..], j - 1, g, key);
    } else {
      assert a[j := g][1..] == a[1..];
    }
  }

  lemma NotSelfEqual(a: seq<Field>, b: seq<Field>)
    requires !Eq(a, a)
    ensures !Eq(a, b)
  {
    var f :| f in a && Lookup(a, f.key) != Some(f.value);
    LookupIsMap(a, f.key);
    FirstField(a, f.key);
  }

  lemma {:induction false} FirstField(a: seq<Field>, key: string)
    requires Lookup(a, key).Some?
    ensures Field(key, Lookup(a, key).value) in a
  {
    if a[0].key != key {
      FirstField(a[1..], key);
    }
  }
}
