/**
 The sequential calls for properties are runs of the synchronisation protocol: what setting, unsetting
 and resending do to the property store and to the transport is what the steps of their process do
 (src/client/property.rs, src/connection/resend.rs).
 */
module PropertyRefinement {
  import opened Basics
  import opened Types
  import opened PropertyStore
  import Sync = PropertySync
  import Client
  import Device

  /** The last message accepted for each property after these calls; a lost one was accepted too. */
  function LastAfter(last: map<Key, Sync.Message>, calls: seq<Device.Call>): map<Key, Sync.Message> {
    if calls == [] then last
    else
      var n := |calls| - 1;
      var (before, call) := (LastAfter(last, calls[..n]), calls[n]);
      if call.message.Property? && !call.reply.Refused? then before[call.message.key := call.message.value] else before
  }

  /** The protocol with the property store and the transport as these calls left them. */
  function WithProps(s: Sync.State, props: map<Key, Value>, calls: seq<Device.Call>): Sync.State {
    s.(store := DeviceView(props), last := LastAfter(s.last, calls))
  }

  lemma OneCall(last: map<Key, Sync.Message>, call: Device.Call)
    ensures LastAfter(last, [call]) ==
            if call.message.Property? && !call.reply.Refused? then last[call.message.key := call.message.value]
            else last
  {
    assert [call][..0] == [];
  }

  // ---- Clients ------------------------------------------------------------------------------------

  /** A step of this client at this property; a load deletes a property of another major or type. */
  predicate OfCall(step: Sync.Step, c: nat, k: Key) {
    match step
    case Check(c', k', _) => c' == c && k' == k
    case Unset(c', k') => c' == c && k' == k
    case Delete(k') => k' == k
    case _ => Sync.OfClient(step) && step.client == c
  }

  /** The client works on the property alone, from idle to idle. */
  ghost predicate CallReaches(s: Sync.State, rules: Sync.Rules, c: nat, k: Key, t: Sync.State) {
    exists steps: seq<Sync.Step> :: Sync.Run(s, rules, steps) == Some(t) && forall x :: x in steps ==> OfCall(x, c, k)
  }

  predicate CanCall(s: Sync.State, rules: Sync.Rules, c: nat, k: Key) {
    c < |s.clients| && s.clients[c].Idle? && Sync.MayWork(s, rules, k) && !s.unsetMarks
  }

  /** The property store of the protocol once the call was answered. */
  function Answered(t: Sync.State, store: map<Key, Sync.Prop>, k: Key, m: Sync.Message, calls: seq<Device.Call>)
    : Sync.State
  {
    t.(store := if Client.Delivers(calls) then Sync.Settle(store, k, m) else store, last := LastAfter(t.last, calls))
  }

  lemma ReplyMeans(t: Sync.State, c: nat, store: map<Key, Sync.Prop>, k: Key, m: Sync.Message, call: Device.Call)
    requires c < |t.clients| && t.clients[c].Idle? && t.status.Connected?
    requires call.message == Device.Property(k, m)
    ensures Sync.AfterReply(Sync.AfterWrite(t, c, store, k, m), c, !call.reply.Refused?, call.reply.Taken?)
         == Answered(t, store, k, m, [call])
  {
    OneCall(t.last, call);
    assert t.clients[c := Sync.Sending(k, m, false)][c := Sync.Idle] == t.clients;
  }

  lemma RepliedOfCall(steps: seq<Sync.Step>, c: nat, k: Key, accepted: bool, ok: bool)
    requires forall x :: x in steps ==> OfCall(x, c, k)
    ensures forall x :: x in Sync.Replied(steps, c, accepted, ok) ==> OfCall(x, c, k)
  {
  }

  /** The reply to the one call, if the device was connected, settles the property. */
  lemma ReplyReaches(s: Sync.State, rules: Sync.Rules, steps: seq<Sync.Step>, t: Sync.State, c: nat, k: Key,
                     m: Sync.Message, store: map<Key, Sync.Prop>, calls: seq<Device.Call>,
                     r: Result<(), Client.SendError>)
    requires c < |t.clients| && t.clients[c].Idle? && forall x :: x in steps ==> OfCall(x, c, k)
    requires Sync.Run(s, rules, steps) == Some(Sync.AfterWrite(t, c, store, k, m))
    requires Client.PropertyCalls(t.status, Device.Property(k, m), calls, r)
    ensures CallReaches(s, rules, c, k, Answered(t, store, k, m, calls))
  {
    if t.status.Connected? {
      var call := calls[0];
      assert calls == [call];
      var accepted, ok := !call.reply.Refused?, call.reply.Taken?;
      ReplyMeans(t, c, store, k, m, call);
      Sync.ReplyRun(s, rules, steps, Sync.AfterWrite(t, c, store, k, m), c, accepted, ok);
      RepliedOfCall(steps, c, k, accepted, ok);
      assert Sync.Run(s, rules, Sync.Replied(steps, c, accepted, ok)) == Some(Answered(t, store, k, m, calls));
    } else {
      assert t.clients[c := Sync.Idle] == t.clients;
    }
  }

  /** A set, whatever its outcome, is a run of its client. */
  lemma SetIsRun(s: Sync.State, rules: Sync.Rules, c: nat, before: map<Key, Value>, after: map<Key, Value>,
                 m: Client.PropertyMapping, data: AstarteData, calls: seq<Device.Call>,
                 r: Result<(), Client.SendError>)
    requires CanCall(s, rules, c, m.key) && s.store == DeviceView(before)
    requires Client.PropertySet(before, after, s.status, m, data, calls, r)
    ensures CallReaches(s, rules, c, m.key, WithProps(s, after, calls))
  {
    if after == before && calls == [] {
      assert Sync.Run(s, rules, []) == Some(WithProps(s, after, calls));
    } else {
      var t, steps := LoadRun(s, rules, before, m);
      SetView(before, m, data);
      assert !Sync.Stored(t, m.key, data);
      WrittenReaches(s, rules, steps, t, c, m.key, data, calls, r);
      assert Answered(t, Sync.StoreAt(t.store, m.key, data), m.key, Some(data), calls) == WithProps(s, after, calls);
    }
  }

  lemma SetStepsOfCall(steps: seq<Sync.Step>, c: nat, k: Key, v: AstarteData)
    requires forall x :: x in steps ==> OfCall(x, c, k)
    ensures forall x :: x in Sync.SetSteps(steps, c, k, v) ==> OfCall(x, c, k)
  {
  }

  lemma WrittenReaches(s: Sync.State, rules: Sync.Rules, steps: seq<Sync.Step>, t: Sync.State, c: nat, k: Key,
                       v: AstarteData, calls: seq<Device.Call>, r: Result<(), Client.SendError>)
    requires Sync.Run(s, rules, steps) == Some(t) && CanCall(t, rules, c, k) && !Sync.Stored(t, k, v)
    requires steps == [] || steps == [Sync.Delete(k)]
    requires Client.PropertyCalls(t.status, Device.Property(k, Some(v)), calls, r)
    ensures CallReaches(s, rules, c, k, Answered(t, Sync.StoreAt(t.store, k, v), k, Some(v), calls))
  {
    Sync.SetRun(s, rules, steps, t, c, k, v);
    SetStepsOfCall(steps, c, k, v);
    ReplyReaches(s, rules, Sync.SetSteps(steps, c, k, v), t, c, k, Some(v), Sync.StoreAt(t.store, k, v), calls, r);
  }

  /** Loading the property before a set deletes it if it is stale. */
  lemma LoadRun(s: Sync.State, rules: Sync.Rules, before: map<Key, Value>, m: Client.PropertyMapping)
    returns (t: Sync.State, steps: seq<Sync.Step>)
    requires s.store == DeviceView(before)
    ensures t == s.(store := DeviceView(Client.Loaded(before, m).0))
    ensures Sync.Run(s, rules, steps) == Some(t) && (steps == [] || steps == [Sync.Delete(m.key)])
  {
    t, steps := s, [];
    if Client.Loaded(before, m).0 != before {
      Sync.RunMore(s, rules, [], s, Sync.Delete(m.key));
      DeletionsRefine(before, m.key, "");
      t, steps := s.(store := s.store - {m.key}), [] + [Sync.Delete(m.key)];
    }
  }

  lemma SetView(before: map<Key, Value>, m: Client.PropertyMapping, data: AstarteData)
    ensures var loaded := DeviceView(Client.Loaded(before, m).0);
            var stored := Sync.StoreAt(loaded, m.key, data);
            && stored == DeviceView(before[m.key := Value(Some(data), m.major, DeviceOwned, Changed)])
            && Sync.Settle(stored, m.key, Some(data))
            == DeviceView(before[m.key := Value(Some(data), m.major, DeviceOwned, Completed)])
  {
  }

  /** An unset, whatever its outcome, is a run of its client. */
  lemma UnsetIsRun(s: Sync.State, rules: Sync.Rules, c: nat, before: map<Key, Value>, after: map<Key, Value>,
                   m: Client.PropertyMapping, calls: seq<Device.Call>, r: Result<(), Client.SendError>)
    requires CanCall(s, rules, c, m.key) && s.store == DeviceView(before)
    requires Client.PropertyUnset(before, after, s.status, m, calls, r)
    ensures CallReaches(s, rules, c, m.key, WithProps(s, after, calls))
  {
    if after == before && calls == [] {
      assert Sync.Run(s, rules, []) == Some(WithProps(s, after, calls));
    } else {
      UnsetView(before, m.key);
      UnsetReaches(s, rules, c, m.key, calls, r);
      assert Answered(s, Sync.UnsetAt(s.store, m.key, false), m.key, None, calls) == WithProps(s, after, calls);
    }
  }

  lemma UnsetReaches(s: Sync.State, rules: Sync.Rules, c: nat, k: Key, calls: seq<Device.Call>,
                     r: Result<(), Client.SendError>)
    requires CanCall(s, rules, c, k) && Client.PropertyCalls(s.status, Device.Property(k, None), calls, r)
    ensures CallReaches(s, rules, c, k, Answered(s, Sync.UnsetAt(s.store, k, false), k, None, calls))
  {
    Sync.UnsetRun(s, rules, [], s, c, k);
    UnsetStepsOfCall(c, k);
    ReplyReaches(s, rules, Sync.UnsetSteps([], c, k), s, c, k, None, Sync.UnsetAt(s.store, k, false), calls, r);
  }

  lemma UnsetStepsOfCall(c: nat, k: Key)
    ensures forall x :: x in Sync.UnsetSteps([], c, k) ==> OfCall(x, c, k)
  {
  }

  lemma UnsetView(before: map<Key, Value>, k: Key)
    ensures var unset := Sync.UnsetAt(DeviceView(before), k, false);
            unset == DeviceView(AfterUnset(before, k)) && Sync.Settle(unset, k, None) == DeviceView(before - {k})
  {
  }

  // ---- The resend task ----------------------------------------------------------------------------

  predicate OfTask(step: Sync.Step) {
    step.Load? || step.Resend? || step.TaskAccept? || step.TaskReturn? || step.Update?
  }

  ghost predicate TaskReaches(s: Sync.State, rules: Sync.Rules, t: Sync.State) {
    exists steps: seq<Sync.Step> :: Sync.Run(s, rules, steps) == Some(t) && forall x :: x in steps ==> OfTask(x)
  }

  function KeysOf(ps: seq<OptProp>): (r: seq<Key>)
    ensures |r| == |ps| && forall i :: 0 <= i < |r| ==> r[i] == ps[i].key
  {
    seq(|ps|, i requires 0 <= i < |ps| => ps[i].key)
  }

  function Buffer(ps: seq<OptProp>): (r: seq<(Key, Sync.Message)>)
    ensures |r| == |ps| && forall i :: 0 <= i < |r| ==> r[i] == (ps[i].key, ps[i].value)
  {
    seq(|ps|, i requires 0 <= i < |ps| => (ps[i].key, ps[i].value))
  }

  /** The task after these calls, the last of which may have failed. */
  function AfterCalls(s: Sync.State, before: map<Key, Value>, sent: seq<OptProp>, calls: seq<Device.Call>,
                      failed: bool): Sync.State
    requires |calls| <= |sent|
  {
    WithProps(s, Device.Settled(before, sent, Device.TakenCount(calls, failed)), calls)
      .(task := if failed then Sync.Leaving else Sync.Holding(Buffer(sent)[|calls|..]))
  }

  /** What the task loads can be loaded. */
  lemma LoadAllowed(s: Sync.State, rules: Sync.Rules, before: map<Key, Value>, sent: seq<OptProp>)
    requires s.task == Sync.Holding([]) && s.store == DeviceView(before) && Device.Snapshot(before, sent)
    ensures Sync.Allowed(s, rules, Sync.Load(KeysOf(sent))) && forall k :: k in KeysOf(sent) ==> k in s.store
  {
    var keys := KeysOf(sent);
    forall k | k in keys
      ensures k in s.store && !s.store[k].completed
    {
      var i :| 0 <= i < |keys| && keys[i] == k;
      assert sent[i] in sent;
    }
  }

  lemma LoadRuns(s: Sync.State, rules: Sync.Rules, before: map<Key, Value>, sent: seq<OptProp>)
    requires s.task == Sync.Holding([]) && s.store == DeviceView(before) && Device.Snapshot(before, sent)
    ensures Sync.Run(s, rules, [] + [Sync.Load(KeysOf(sent))]) == Some(s.(task := Sync.Holding(Buffer(sent))))
  {
    LoadAllowed(s, rules, before, sent);
    Sync.RunMore(s, rules, [], s, Sync.Load(KeysOf(sent)));
    SnapshotIs(s, before, sent);
  }

  lemma StepReaches(s: Sync.State, rules: Sync.Rules, step: Sync.Step, t: Sync.State)
    requires Sync.Run(s, rules, [] + [step]) == Some(t) && OfTask(step)
    ensures TaskReaches(s, rules, t)
  {
    assert forall x :: x in [] + [step] ==> OfTask(x);
  }

  lemma LoadReaches(s: Sync.State, rules: Sync.Rules, before: map<Key, Value>, sent: seq<OptProp>)
    requires s.task == Sync.Holding([]) && s.store == DeviceView(before) && Device.Snapshot(before, sent)
    ensures TaskReaches(s, rules, AfterCalls(s, before, sent, [], false))
  {
    LoadRuns(s, rules, before, sent);
    assert Buffer(sent) == Buffer(sent)[0..];
    StepReaches(s, rules, Sync.Load(KeysOf(sent)), AfterCalls(s, before, sent, [], false));
  }

  lemma SnapshotIs(s: Sync.State, before: map<Key, Value>, sent: seq<OptProp>)
    requires s.store == DeviceView(before) && Device.Snapshot(before, sent)
    requires forall k :: k in KeysOf(sent) ==> k in s.store
    ensures Sync.Snapshot(s, KeysOf(sent)) == Buffer(sent)
  {
    forall i | 0 <= i < |sent|
      ensures Sync.Snapshot(s, KeysOf(sent))[i] == Buffer(sent)[i]
    {
      assert sent[i] in sent && KeysOf(sent)[i] in KeysOf(sent);
    }
  }

  /** One property: sent, and settled if the transport said that it took it. */
  function PropSteps(reply: Device.Reply): seq<Sync.Step> {
    match reply
    case Taken => [] + [Sync.Resend] + [Sync.TaskAccept] + [Sync.TaskReturn(true)] + [Sync.Update]
    case Lost => [] + [Sync.Resend] + [Sync.TaskAccept] + [Sync.TaskReturn(false)]
    case Refused => [] + [Sync.Resend] + [Sync.TaskReturn(false)]
  }

  function AfterProp(t: Sync.State, reply: Device.Reply): Sync.State
    requires t.task.Holding? && t.task.buf != []
  {
    var (k, m) := t.task.buf[0];
    var t1 := if reply.Refused? then t else t.(last := t.last[k := m]);
    if reply.Taken? then t1.(store := Sync.Settle(t.store, k, m), task := Sync.Holding(t.task.buf[1..]))
    else t1.(task := Sync.Leaving)
  }

  lemma PropRun(t: Sync.State, rules: Sync.Rules, reply: Device.Reply)
    requires t.task.Holding? && t.task.buf != []
    ensures Sync.Run(t, rules, PropSteps(reply)) == Some(AfterProp(t, reply))
  {
    Sync.RunMore(t, rules, [], t, Sync.Resend);
    var t1, now := t.(task := Sync.Resending(t.task.buf, false)), [] + [Sync.Resend];
    if !reply.Refused? {
      Sync.RunMore(t, rules, now, t1, Sync.TaskAccept);
      t1, now := Sync.Apply(t1, Sync.TaskAccept), now + [Sync.TaskAccept];
    }
    Sync.RunMore(t, rules, now, t1, Sync.TaskReturn(reply.Taken?));
    if reply.Taken? {
      t1, now := Sync.Apply(t1, Sync.TaskReturn(true)), now + [Sync.TaskReturn(true)];
      Sync.RunMore(t, rules, now, t1, Sync.Update);
    }
  }

  lemma {:induction false} RunJoin(s: Sync.State, rules: Sync.Rules, a: seq<Sync.Step>, b: seq<Sync.Step>)
    requires Sync.Run(s, rules, a).Some?
    ensures Sync.Run(s, rules, a + b) == Sync.Run(Sync.Run(s, rules, a).value, rules, b)
  {
    if b == [] {
      assert a + b == a;
    } else {
      var n := |b| - 1;
      RunJoin(s, rules, a, b[..n]);
      assert (a + b)[..|a + b| - 1] == a + b[..n];
    }
  }

  lemma ReachesMore(s: Sync.State, rules: Sync.Rules, t: Sync.State, steps: seq<Sync.Step>, u: Sync.State)
    requires TaskReaches(s, rules, t) && Sync.Run(t, rules, steps) == Some(u) && forall x :: x in steps ==> OfTask(x)
    ensures TaskReaches(s, rules, u)
  {
    var a: seq<Sync.Step> :| Sync.Run(s, rules, a) == Some(t) && forall x :: x in a ==> OfTask(x);
    RunJoin(s, rules, a, steps);
    assert forall x :: x in a + steps ==> OfTask(x);
  }

  /** One call more. */
  lemma NextProp(s: Sync.State, before: map<Key, Value>, sent: seq<OptProp>, calls: seq<Device.Call>,
                 call: Device.Call)
    requires |calls| < |sent| && call.message == Device.Property(sent[|calls|].key, sent[|calls|].value)
    ensures AfterProp(AfterCalls(s, before, sent, calls, false), call.reply)
         == AfterCalls(s, before, sent, calls + [call], !call.reply.Taken?)
  {
    var n, p := |calls|, sent[|calls|];
    assert (calls + [call])[..n] == calls;
    assert Buffer(sent)[n..][0] == (p.key, p.value) && Buffer(sent)[n..][1..] == Buffer(sent)[n + 1..];
    ConditionalUpdatesSettle(Device.Settled(before, sent, n), p.key, p.value);
  }

  lemma {:induction false} BatchReaches(s: Sync.State, rules: Sync.Rules, before: map<Key, Value>,
                                        sent: seq<OptProp>, calls: seq<Device.Call>, failed: bool)
    requires s.task == Sync.Holding([]) && s.store == DeviceView(before) && Device.Snapshot(before, sent)
    requires |calls| <= |sent| && Device.Calls(calls, Device.PropertyMessages(sent), failed)
    ensures TaskReaches(s, rules, AfterCalls(s, before, sent, calls, failed))
  {
    if calls == [] {
      LoadReaches(s, rules, before, sent);
    } else {
      var n := |calls| - 1;
      BatchReaches(s, rules, before, sent, calls[..n], false);
      assert calls == calls[..n] + [calls[n]];
      BatchMore(s, rules, before, sent, calls[..n], calls[n]);
    }
  }

  lemma BatchMore(s: Sync.State, rules: Sync.Rules, before: map<Key, Value>, sent: seq<OptProp>,
                  calls: seq<Device.Call>, call: Device.Call)
    requires |calls| < |sent| && call.message == Device.Property(sent[|calls|].key, sent[|calls|].value)
    requires TaskReaches(s, rules, AfterCalls(s, before, sent, calls, false))
    ensures TaskReaches(s, rules, AfterCalls(s, before, sent, calls + [call], !call.reply.Taken?))
  {
    var t := AfterCalls(s, before, sent, calls, false);
    NextProp(s, before, sent, calls, call);
    PropRun(t, rules, call.reply);
    assert forall x :: x in PropSteps(call.reply) ==> OfTask(x);
    ReachesMore(s, rules, t, PropSteps(call.reply), AfterProp(t, call.reply));
  }

  /**
   The properties of a round, as `Device.SendDeviceProperties` promises them, are a run of the task, after
   which it can go on or end.
   */
  lemma PropsAreRun(s: Sync.State, rules: Sync.Rules, before: map<Key, Value>, sent: seq<OptProp>,
                    calls: seq<Device.Call>, limit: nat, r: Result<nat, ()>, after: map<Key, Value>)
    requires s.task == Sync.Holding([]) && s.store == DeviceView(before)
    requires Device.PropsResent(before, sent, calls, limit, r, after)
    ensures var t := WithProps(s, after, calls).(task := if r.Err? then Sync.Leaving else Sync.Holding([]));
            TaskReaches(s, rules, t) && Sync.Allowed(t, rules, Sync.FinishTask)
  {
    BatchReaches(s, rules, before, sent, calls, r.Err?);
    if r.Ok? {
      assert Buffer(sent)[|calls|..] == [];
    }
    assert AfterCalls(s, before, sent, calls, r.Err?)
        == WithProps(s, after, calls).(task := if r.Err? then Sync.Leaving else Sync.Holding([]));
  }

  // ---- From the set to the next resend --------------------------------------------------------------

  /**
   A property of the store at any moment of a run: if it is completed, its value is the last one that the
   transport accepted; otherwise the next resend that ends without an error hands over what is stored, and
   no resend hands over anything else for it.
   */
  lemma PropertyIsDelivered(s: Sync.State, handles: nat, rules: Sync.Rules, steps: seq<Sync.Step>, k: Key,
                            held: Device.Holdings, later: Device.Holdings, calls: seq<Device.Call>, horizon: nat)
    requires Sync.Safe(handles, rules, k) && Sync.Initial(s, handles) && Sync.Run(s, rules, steps).Some?
    requires var t := Sync.Run(s, rules, steps).value; k in t.store && t.store == DeviceView(held.props)
    requires Device.Delivered(held, true, calls, horizon) && Device.SendsWaiting(held, later, calls)
    ensures var t := Sync.Run(s, rules, steps).value;
            var p := t.store[k];
            && (p.completed && p.value.Some? ==> k in t.last && t.last[k] == p.value)
            && (p.completed ==> !Device.PropHandedIn(calls, k))
            && (!p.completed ==> exists c :: c in calls && c.reply.Taken? && c.message == Device.Property(k, p.value))
            && (forall c :: c in calls && c.message.Property? && c.message.key == k ==> c.message.value == p.value)
  {
    Sync.SafeRunKeepsInv(s, handles, rules, k, steps);
    var p := Sync.Run(s, rules, steps).value.store[k];
    forall c | c in calls && c.message.Property? && c.message.key == k
      ensures !p.completed && c.message.value == p.value
    {
      assert Device.Waits(held, c.message);
    }
    if !p.completed {
      assert k in InState(held.props, Changed);
      var c :| c in calls && c.reply.Taken? && c.message.Property? && c.message.key == k;
      assert c.message == Device.Property(k, p.value);
    }
  }
}
