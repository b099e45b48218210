/** The in-memory property store (src/store/memory.rs). */
module PropertyStore {
  import opened Basics
  import opened Types
  import PropertySync

  /** Interface and path. */
  type Key = (string, string)

  datatype Ownership = DeviceOwned | ServerOwned

  datatype PropertyState = Changed | Completed

  datatype Value = Value(value: Option<AstarteData>, major: int, ownership: Ownership, state: PropertyState)

  /** `OptStoredProp`: a property that may be unset. */
  datatype OptProp = OptProp(key: Key, value: Option<AstarteData>, major: int)

  /** Device properties in this state. */
  function InState(store: map<Key, Value>, state: PropertyState): set<Key> {
    set k | k in store && store[k].ownership == DeviceOwned && store[k].state == state
  }

  /** The device properties as the synchronisation protocol sees them. */
  function DeviceView(store: map<Key, Value>): map<Key, PropertySync.Prop> {
    map k | k in store && store[k].ownership == DeviceOwned ::
      PropertySync.Prop(store[k].value, store[k].state == Completed)
  }

  // ---- The effect of the updates on the map -----------------------------------------------------

  predicate Matches(store: map<Key, Value>, key: Key, expected: Option<AstarteData>) {
    key in store && store[key].value == expected
  }

  /** Compare and set of the state: takes effect only on the expected value. */
  function Updated(store: map<Key, Value>, key: Key, state: PropertyState, expected: Option<AstarteData>)
    : map<Key, Value>
  {
    if Matches(store, key, expected) then store[key := store[key].(state := state)] else store
  }

  function Deleted(store: map<Key, Value>, key: Key, expected: Option<AstarteData>): map<Key, Value> {
    if Matches(store, key, expected) then store - {key} else store
  }

  function AfterStore(store: map<Key, Value>, key: Key, value: AstarteData, major: int, ownership: Ownership)
    : map<Key, Value>
  {
    store[key := Value(Some(value), major, ownership, Changed)]
  }

  function Retaining(store: map<Key, Value>, interface: string): map<Key, Value> {
    map k | k in store && k.0 != interface :: store[k]
  }

  /** Unsetting keeps the state of the property. */
  function AfterUnset(store: map<Key, Value>, key: Key): map<Key, Value> {
    if key in store then store[key := store[key].(value := None)] else store
  }

  function AfterReset(store: map<Key, Value>, ownership: Ownership): map<Key, Value> {
    map k | k in store :: if store[k].ownership == ownership then store[k].(state := Changed) else store[k]
  }

  class MemoryStore {
    var store: map<Key, Value>

    constructor ()
      ensures store == map[]
    {
      store := map[];
    }

    method StoreProp(key: Key, value: AstarteData, major: int, ownership: Ownership)
      modifies this
      ensures store == AfterStore(old(store), key, value, major, ownership)
    {
      store := store[key := Value(Some(value), major, ownership, Changed)];
    }

    method UpdateState(key: Key, state: PropertyState, expected: Option<AstarteData>) returns (updated: bool)
      modifies this
      ensures updated <==> Matches(old(store), key, expected)
      ensures store == Updated(old(store), key, state, expected)
    {
      if key in store && store[key].value == expected {
        store := store[key := store[key].(state := state)];
        return true;
      }
      return false;
    }

    /** A property stored under another major is deleted, and not found. */
    method LoadProp(key: Key, major: int) returns (value: Option<AstarteData>)
      modifies this
      ensures key in old(store) && old(store)[key].major != major ==> value == None && store == old(store) - {key}
      ensures key in old(store) && old(store)[key].major == major ==>
                value == old(store)[key].value && store == old(store)
      ensures key !in old(store) ==> value == None && store == old(store)
    {
      if key !in store {
        return None;
      }
      if store[key].major != major {
        DeleteProp(key);
        return None;
      }
      return store[key].value;
    }

    method UnsetProp(key: Key)
      modifies this
      ensures store == AfterUnset(old(store), key)
    {
      if key in store {
        store := store[key := store[key].(value := None)];
      }
    }

    method DeleteProp(key: Key)
      modifies this
      ensures store == old(store) - {key}
    {
      store := map k | k in store && k != key :: store[k];
    }

    method DeleteExpectedProp(key: Key, expected: Option<AstarteData>) returns (deleted: bool)
      modifies this
      ensures deleted <==> Matches(old(store), key, expected)
      ensures store == Deleted(old(store), key, expected)
    {
      if key in store && store[key].value == expected {
        DeleteProp(key);
        return true;
      }
      return false;
    }

    /** `HashMap::retain` over the other interfaces. */
    method DeleteInterface(interface: string)
      modifies this
      ensures store == Retaining(old(store), interface)
    {
      var left := store.Keys;
      while left != {}
        invariant left <= store.Keys <= old(store).Keys
        invariant forall k :: k in store ==> store[k] == old(store)[k] && (k in left || k.0 != interface)
        invariant forall k :: k in old(store) && k !in store ==> k.0 == interface
        decreases left
      {
        var k :| k in left;
        left := left - {k};
        if k.0 == interface {
          store := store - {k};
        }
      }
    }

    /** The order of a hash map is arbitrary. */
    method DevicePropsWithUnset(state: PropertyState, limit: nat, offset: nat) returns (props: seq<OptProp>)
      ensures forall p :: p in props ==>
                p.key in InState(store, state) && p.value == store[p.key].value && p.major == store[p.key].major
      ensures forall i, j :: 0 <= i < j < |props| ==> props[i].key != props[j].key
      ensures |props| == Min(limit, SaturatingSub(|InState(store, state)|, offset))
    {
      var keys := InState(store, state);
      var all: seq<OptProp> := [];
      while keys != {}
        invariant keys <= InState(store, state)
        invariant |all| + |keys| == |InState(store, state)|
        invariant forall p :: p in all ==>
                    && p.key in InState(store, state) - keys
                    && p.value == store[p.key].value && p.major == store[p.key].major
        invariant forall i, j :: 0 <= i < j < |all| ==> all[i].key != all[j].key
        decreases keys
      {
        var k :| k in keys;
        keys := keys - {k};
        all := all + [OptProp(k, store[k].value, store[k].major)];
      }
      props := FirstN(if offset <= |all| then all[offset..] else [], limit);
    }

    method ResetState(ownership: Ownership)
      modifies this
      ensures store == AfterReset(old(store), ownership)
    {
      var left := store.Keys;
      while left != {}
        invariant left <= store.Keys == old(store).Keys
        invariant forall k :: k in left ==> store[k] == old(store)[k]
        invariant forall k :: k in store && k !in left ==> store[k] == AfterReset(old(store), ownership)[k]
        decreases left
      {
        var k :| k in left;
        left := left - {k};
        if store[k].ownership == ownership {
          store := store[k := store[k].(state := Changed)];
        }
      }
    }
  }

  // ---- The updates as steps of the synchronisation protocol ------------------------------------------

  /** Storing and unsetting a device property are the two writes of the protocol. */
  lemma WritesRefine(store: map<Key, Value>, key: Key, value: AstarteData, major: int)
    ensures DeviceView(AfterStore(store, key, value, major, DeviceOwned))
         == PropertySync.StoreAt(DeviceView(store), key, value)
    ensures DeviceView(AfterUnset(store, key)) == PropertySync.UnsetAt(DeviceView(store), key, false)
    ensures key in InState(AfterStore(store, key, value, major, DeviceOwned), Changed)
  {
  }

  /** A reset of the device properties is the reset of the protocol; one of the server's is none of it. */
  lemma ResetRefines(store: map<Key, Value>)
    ensures DeviceView(AfterReset(store, DeviceOwned)) == PropertySync.ResetAll(DeviceView(store))
    ensures DeviceView(AfterReset(store, ServerOwned)) == DeviceView(store)
    ensures InState(AfterReset(store, DeviceOwned), Completed) == {}
    ensures InState(AfterReset(store, DeviceOwned), Changed) == DeviceView(store).Keys
  {
  }

  /** Deleting properties, one or all of an interface, is a number of deletions of the protocol. */
  lemma DeletionsRefine(store: map<Key, Value>, key: Key, interface: string)
    ensures DeviceView(store - {key}) == DeviceView(store) - {key}
    ensures DeviceView(Retaining(store, interface)) == DeviceView(store) - (set k | k in store && k.0 == interface)
  {
  }

  /** The two conditional updates are the one step `Settle` of the synchronisation protocol. */
  lemma ConditionalUpdatesSettle(store: map<Key, Value>, key: Key, expected: Option<AstarteData>)
    ensures PropertySync.Settle(DeviceView(store), key, expected)
         == DeviceView(if expected.Some? then Updated(store, key, Completed, expected)
                       else Deleted(store, key, expected))
  {
  }
}
