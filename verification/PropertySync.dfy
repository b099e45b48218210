/**
 Property synchronisation as a state machine: client handles setting and unsetting device properties,
 the resend task working from its own snapshot, the event loop and the transport, interleaved at every
 `.await` (src/client/property.rs, src/connection/resend.rs, src/store/memory.rs).
 */
module PropertySync {
  import opened Basics
  import opened Types

  type Key = (string, string)

  /** A device property in the store; `None` when unset, `completed` for `PropertyState::Completed`. */
  datatype Prop = Prop(value: Option<AstarteData>, completed: bool)

  /** What is sent for a property: its new value, or `None` to unset it. */
  type Message = Option<AstarteData>

  /** Where a client handle is inside `send_property` or `send_unset`. */
  datatype ClientPc =
    | Idle
    | Storing(key: Key, value: AstarteData)
    | Written(key: Key, message: Message)
    | Sending(key: Key, message: Message, accepted: bool)
    | Finishing(key: Key, message: Message)

  /** Where the resend task is inside `send_device_properties`; the head of `buf` is the current one. */
  datatype TaskPc =
    | NoTask
    | Holding(buf: seq<(Key, Message)>)
    | Resending(buf: seq<(Key, Message)>, accepted: bool)
    | Updating(buf: seq<(Key, Message)>)
    | Leaving

  datatype State = State(
    status: ConnStatus,
    unsetMarks: bool,
    store: map<Key, Prop>,
    last: map<Key, Message>,
    clients: seq<ClientPc>,
    task: TaskPc)

  datatype Step =
    | Check(client: nat, key: Key, value: AstarteData)
    | Store(client: nat)
    | Unset(client: nat, key: Key)
    | ReadStatus(client: nat)
    | Accept(client: nat)
    | Return(client: nat, ok: bool)
    | Finish(client: nat)
    | Load(keys: seq<Key>)
    | Resend
    | TaskAccept
    | TaskReturn(ok: bool)
    | Update
    | FinishTask
    | CancelTask
    | SpawnTask
    | SetDisconnected
    | SetClosed
    | ResetState
    | Delete(key: Key)

  predicate DistinctKeys(keys: seq<Key>) {
    forall i, j :: 0 <= i < j < |keys| ==> keys[i] != keys[j]
  }

  predicate Enabled(s: State, step: Step) {
    match step
    case Check(c, _, _) => c < |s.clients| && s.clients[c].Idle?
    case Store(c) => c < |s.clients| && s.clients[c].Storing?
    case Unset(c, _) => c < |s.clients| && s.clients[c].Idle?
    case ReadStatus(c) => c < |s.clients| && s.clients[c].Written?
    case Accept(c) => c < |s.clients| && s.clients[c].Sending? && !s.clients[c].accepted
    case Return(c, ok) => c < |s.clients| && s.clients[c].Sending? && (ok ==> s.clients[c].accepted)
    case Finish(c) => c < |s.clients| && s.clients[c].Finishing?
    case Load(keys) =>
      && s.task == Holding([]) && DistinctKeys(keys)
      && forall k :: k in keys ==> k in s.store && !s.store[k].completed
    case Resend => s.task.Holding? && s.task.buf != []
    case TaskAccept => s.task.Resending? && s.task.buf != [] && !s.task.accepted
    case TaskReturn(ok) => s.task.Resending? && (ok ==> s.task.accepted)
    case Update => s.task.Updating? && s.task.buf != []
    case FinishTask => s.task == Holding([]) || s.task.Leaving?
    case CancelTask => true
    case SpawnTask => s.task.NoTask?
    case SetDisconnected => true
    case SetClosed => true
    case ResetState => s.task.NoTask?
    case Delete(_) => true
  }

  /**
   What the code does not enforce. `guarded`: the event loop spawns the task only while the status is not
   connected. `locked`: the properties that no two handles work on at the same time.
   */
  datatype Rules = Rules(guarded: bool, locked: iset<Key>)

  predicate Working(pc: ClientPc, k: Key) {
    !pc.Idle? && pc.key == k
  }

  predicate Stored(s: State, k: Key, v: AstarteData) {
    k in s.store && s.store[k].value == Some(v)
  }

  predicate MayWork(s: State, rules: Rules, k: Key) {
    k in rules.locked ==> forall c :: 0 <= c < |s.clients| ==> !Working(s.clients[c], k)
  }

  predicate Allowed(s: State, rules: Rules, step: Step) {
    && Enabled(s, step)
    && match step
       case Check(_, k, v) => Stored(s, k, v) || MayWork(s, rules, k)
       case Unset(_, k) => MayWork(s, rules, k)
       case SpawnTask => rules.guarded ==> !s.status.Connected?
       case _ => true
  }

  function WithClient(s: State, c: nat, pc: ClientPc): State
    requires c < |s.clients|
  {
    s.(clients := s.clients[c := pc])
  }

  /**
   The update after a message went out: it takes effect only if the stored value is still the one
   sent. A value becomes completed, an unset property is dropped.
   */
  function Settle(store: map<Key, Prop>, key: Key, expected: Message): map<Key, Prop> {
    if key !in store || store[key].value != expected then store
    else match expected
      case Some(_) => store[key := store[key].(completed := true)]
      case None => store - {key}
  }

  function StoreAt(store: map<Key, Prop>, key: Key, value: AstarteData): map<Key, Prop> {
    store[key := Prop(Some(value), false)]
  }

  /** `marks`: the store records an unset as a change. */
  function UnsetAt(store: map<Key, Prop>, key: Key, marks: bool): map<Key, Prop> {
    if key in store then store[key := Prop(None, store[key].completed && !marks)] else store
  }

  function ResetAll(store: map<Key, Prop>): map<Key, Prop> {
    map k | k in store :: store[k].(completed := false)
  }

  function Snapshot(s: State, keys: seq<Key>): (r: seq<(Key, Message)>)
    requires forall k :: k in keys ==> k in s.store
    ensures |r| == |keys| && forall i :: 0 <= i < |r| ==> r[i] == (keys[i], s.store[keys[i]].value)
  {
    seq(|keys|, i requires 0 <= i < |keys| => (keys[i], s.store[keys[i]].value))
  }

  function Apply(s: State, step: Step): State
    requires Enabled(s, step)
  {
    match step
    case Check(c, k, v) =>
      if Stored(s, k, v) then s else WithClient(s, c, Storing(k, v))
    case Store(c) =>
      var pc := s.clients[c];
      WithClient(s, c, Written(pc.key, Some(pc.value))).(store := StoreAt(s.store, pc.key, pc.value))
    case Unset(c, k) => WithClient(s, c, Written(k, None)).(store := UnsetAt(s.store, k, s.unsetMarks))
    case ReadStatus(c) =>
      var pc := s.clients[c];
      WithClient(s, c, if s.status.Connected? then Sending(pc.key, pc.message, false) else Idle)
    case Accept(c) =>
      var pc := s.clients[c];
      WithClient(s, c, pc.(accepted := true)).(last := s.last[pc.key := pc.message])
    case Return(c, ok) =>
      var pc := s.clients[c];
      WithClient(s, c, if ok then Finishing(pc.key, pc.message) else Idle)
    case Finish(c) =>
      var pc := s.clients[c];
      WithClient(s, c, Idle).(store := Settle(s.store, pc.key, pc.message))
    case Load(keys) => s.(task := Holding(Snapshot(s, keys)))
    case Resend => s.(task := Resending(s.task.buf, false))
    case TaskAccept =>
      var (k, m) := s.task.buf[0];
      s.(task := Resending(s.task.buf, true), last := s.last[k := m])
    case TaskReturn(ok) => s.(task := if ok then Updating(s.task.buf) else Leaving)
    case Update =>
      var (k, m) := s.task.buf[0];
      s.(task := Holding(s.task.buf[1..]), store := Settle(s.store, k, m))
    case FinishTask => s.(task := NoTask, status := Connected)
    case CancelTask => s.(task := NoTask)
    case SpawnTask => s.(task := Holding([]))
    case SetDisconnected => s.(status := Disconnected)
    case SetClosed => s.(status := Closed)
    case ResetState => s.(store := ResetAll(s.store))
    case Delete(k) => s.(store := s.store - {k})
  }

  function Run(s: State, rules: Rules, steps: seq<Step>): Option<State> {
    if steps == [] then Some(s)
    else
      var n := |steps| - 1;
      match Run(s, rules, steps[..n])
      case None => None
      case Some(t) => if Allowed(t, rules, steps[n]) then Some(Apply(t, steps[n])) else None
  }

  ghost predicate AllIdle(s: State) {
    forall c :: 0 <= c < |s.clients| ==> s.clients[c].Idle?
  }

  /** Start-up: `init_store` has reset every device property, and nothing was sent yet. */
  ghost predicate Initial(s: State, handles: nat) {
    && |s.clients| == handles && AllIdle(s)
    && s.status.Disconnected? && s.task.NoTask? && s.last == map[]
    && forall k :: k in s.store ==> !s.store[k].completed
  }

  /** If the property is completed and has a value, the last message the transport accepted sets that value. */
  ghost predicate SyncedAt(s: State, k: Key) {
    k in s.store && s.store[k].completed && s.store[k].value.Some? ==> k in s.last && s.last[k] == s.store[k].value
  }

  ghost predicate Synced(s: State) {
    forall k :: SyncedAt(s, k)
  }

  /** At most one handle works on the property. */
  ghost predicate Alone(s: State, k: Key) {
    forall c, d :: 0 <= c < d < |s.clients| ==> !(Working(s.clients[c], k) && Working(s.clients[d], k))
  }

  // ---- When store and transport stay in step ------------------------------------------------------

  function Pending(t: TaskPc): seq<(Key, Message)> {
    match t
    case Holding(buf) => buf
    case Resending(buf, _) => buf
    case Updating(buf) => buf
    case _ => []
  }

  predicate HasSent(t: TaskPc) {
    (t.Resending? && t.accepted) || t.Updating?
  }

  /** The client has seen the connection up, and has not finished. */
  predicate Online(pc: ClientPc) {
    pc.Sending? || pc.Finishing?
  }

  ghost predicate TaskInv(s: State, k: Key) {
    var buf := Pending(s.task);
    && (forall i, j :: 0 <= i < j < |buf| ==> buf[i].0 != buf[j].0)
    && ((s.task.Resending? || s.task.Updating?) ==> buf != [])
    && (HasSent(s.task) && buf[0].0 == k ==> k in s.last && s.last[k] == buf[0].1)
  }

  /** While the client is past its write, nobody else can give the property another value. */
  ghost predicate ClientInv(s: State, pc: ClientPc) {
    && (pc.Written? || Online(pc) ==> (pc.key in s.store ==> s.store[pc.key].value == pc.message))
    && (Online(pc) ==> forall e :: e in Pending(s.task) && e.0 == pc.key ==> e.1 == pc.message)
    && ((pc.Sending? && pc.accepted) || pc.Finishing? ==> pc.key in s.last && s.last[pc.key] == pc.message)
  }

  /** Synced, and nothing the task still has to send contradicts the property once it is completed. */
  ghost predicate StoreInv(s: State, k: Key) {
    k in s.store && s.store[k].completed && s.store[k].value.Some? ==>
      && k in s.last && s.last[k] == s.store[k].value
      && forall e :: e in Pending(s.task) && e.0 == k ==> e.1 == s.store[k].value
  }

  ghost predicate ClientsInv(s: State, k: Key) {
    forall c :: 0 <= c < |s.clients| && Working(s.clients[c], k) ==> ClientInv(s, s.clients[c])
  }

  /** Nobody sets properties; or the task is guarded, and one handle at most can work on this one. */
  ghost predicate Safe(handles: nat, rules: Rules, k: Key) {
    handles == 0 || (rules.guarded && (handles == 1 || k in rules.locked))
  }

  ghost predicate Inv(s: State, rules: Rules, k: Key) {
    && TaskInv(s, k) && StoreInv(s, k) && ClientsInv(s, k) && Alone(s, k) && Safe(|s.clients|, rules, k)
    && (s.clients != [] && !s.task.NoTask? ==> !s.status.Connected?)
  }

  lemma LoadKeepsInv(s: State, rules: Rules, k: Key, keys: seq<Key>)
    requires Inv(s, rules, k) && Allowed(s, rules, Load(keys))
    ensures Inv(Apply(s, Load(keys)), rules, k)
  {
    var buf := Snapshot(s, keys);
    forall e | e in buf
      ensures e.0 in s.store && e.1 == s.store[e.0].value && !s.store[e.0].completed
    {
      var i :| 0 <= i < |buf| && buf[i] == e;
      assert keys[i] in keys;
    }
  }

  lemma TaskSendKeepsInv(s: State, rules: Rules, k: Key, step: Step)
    requires Inv(s, rules, k) && Allowed(s, rules, step) && (step.Resend? || step.TaskAccept? || step.TaskReturn?)
    ensures Inv(Apply(s, step), rules, k)
  {
    assert Pending(Apply(s, step).task) == if step == TaskReturn(false) then [] else Pending(s.task);
    if step.TaskAccept? {
      assert s.task.buf[0] in Pending(s.task);
    }
  }

  /** What is left of the snapshot is about other properties. */
  lemma RestOfSnapshot(s: State, k: Key)
    requires TaskInv(s, k) && s.task.Updating?
    ensures var buf := s.task.buf;
            buf != [] && buf[0] in buf && forall e :: e in buf[1..] ==> e in buf && e.0 != buf[0].0
  {
    var buf, rest := s.task.buf, s.task.buf[1..];
    forall e | e in rest
      ensures e in buf && e.0 != buf[0].0
    {
      var i :| 0 <= i < |rest| && rest[i] == e;
      assert buf[i + 1] == e;
    }
  }

  lemma UpdateKeepsInv(s: State, rules: Rules, k: Key)
    requires Inv(s, rules, k) && Allowed(s, rules, Update)
    ensures Inv(Apply(s, Update), rules, k)
  {
    RestOfSnapshot(s, k);
    UpdateKeepsStore(s, k);
    forall c | 0 <= c < |s.clients| && Working(s.clients[c], k)
      ensures ClientInv(Apply(s, Update), s.clients[c])
    {
      UpdateKeepsClient(s, k, s.clients[c]);
    }
  }

  lemma UpdateKeepsStore(s: State, k: Key)
    requires TaskInv(s, k) && StoreInv(s, k) && s.task.Updating? && s.task.buf != []
    ensures StoreInv(Apply(s, Update), k)
  {
    RestOfSnapshot(s, k);
  }

  lemma UpdateKeepsClient(s: State, k: Key, pc: ClientPc)
    requires TaskInv(s, k) && Working(pc, k) && ClientInv(s, pc) && s.task.Updating? && s.task.buf != []
    ensures ClientInv(Apply(s, Update), pc)
  {
    RestOfSnapshot(s, k);
  }

  predicate OfClient(step: Step) {
    || step.Check? || step.Store? || step.Unset? || step.ReadStatus? || step.Accept? || step.Return? || step.Finish?
  }

  /** The property that the client is at before or after its step. */
  function KeyOf(s: State, step: Step): Key
    requires OfClient(step) && Enabled(s, step)
  {
    if step.Check? || step.Unset? then step.key else s.clients[step.client].key
  }

  /** A client step touches the property it is at and nothing else. */
  lemma ClientStepTouches(s: State, step: Step)
    requires OfClient(step) && Enabled(s, step)
    ensures var t, c, k := Apply(s, step), step.client, KeyOf(s, step);
            && c < |s.clients| == |t.clients| && t.clients == s.clients[c := t.clients[c]]
            && t.task == s.task && t.status == s.status && t.unsetMarks == s.unsetMarks
            && (s.clients[c].Idle? || s.clients[c].key == k) && (t.clients[c].Idle? || t.clients[c].key == k)
            && (forall x :: x != k ==> (x in t.store <==> x in s.store) && (x in t.last <==> x in s.last))
            && (forall x :: x != k && x in s.store ==> t.store[x] == s.store[x])
            && (forall x :: x != k && x in s.last ==> t.last[x] == s.last[x])
  {
  }

  lemma OtherClientKeepsInv(s: State, rules: Rules, k: Key, step: Step)
    requires Inv(s, rules, k) && OfClient(step) && Allowed(s, rules, step) && KeyOf(s, step) != k
    ensures Inv(Apply(s, step), rules, k)
  {
    ClientStepTouches(s, step);
    var t := Apply(s, step);
    forall c | 0 <= c < |t.clients| && Working(t.clients[c], k)
      ensures c != step.client && t.clients[c] == s.clients[c] && ClientInv(t, t.clients[c])
    {
      SameAtKey(s, t, k, t.clients[c]);
    }
    SameAtKey(s, t, k, Idle);
  }

  lemma SameAtKey(s: State, t: State, k: Key, pc: ClientPc)
    requires t.task == s.task && (k in t.store <==> k in s.store) && (k in t.last <==> k in s.last)
    requires (k in s.store ==> t.store[k] == s.store[k]) && (k in s.last ==> t.last[k] == s.last[k])
    requires TaskInv(s, k) && StoreInv(s, k) && (Working(pc, k) ==> ClientInv(s, pc))
    ensures TaskInv(t, k) && StoreInv(t, k) && (Working(pc, k) ==> ClientInv(t, pc))
  {
  }

  /** The client that takes the step is the only one at the property, after it and before it. */
  lemma OneAtWork(s: State, rules: Rules, step: Step)
    requires OfClient(step) && Allowed(s, rules, step)
    requires Alone(s, KeyOf(s, step)) && Safe(|s.clients|, rules, KeyOf(s, step))
    requires step.Check? ==> !Stored(s, step.key, step.value)
    ensures forall d :: 0 <= d < |s.clients| && d != step.client ==> !Working(s.clients[d], KeyOf(s, step))
  {
  }

  lemma ClientWriteKeepsInv(s: State, rules: Rules, step: Step)
    requires step.Check? || step.Store? || step.Unset?
    requires Allowed(s, rules, step) && Inv(s, rules, KeyOf(s, step))
    ensures Inv(Apply(s, step), rules, KeyOf(s, step))
  {
    if !(step.Check? && Stored(s, step.key, step.value)) {
      OneAtWork(s, rules, step);
      ClientStepTouches(s, step);
    }
  }

  lemma ClientSendKeepsInv(s: State, rules: Rules, step: Step)
    requires step.ReadStatus? || step.Accept? || step.Return? || step.Finish?
    requires Allowed(s, rules, step) && Inv(s, rules, KeyOf(s, step))
    ensures Inv(Apply(s, step), rules, KeyOf(s, step))
  {
    OneAtWork(s, rules, step);
    ClientStepTouches(s, step);
  }

  lemma QuietStepKeepsInv(s: State, rules: Rules, k: Key, step: Step)
    requires Inv(s, rules, k) && Allowed(s, rules, step)
    requires step.FinishTask? || step.CancelTask? || step.SpawnTask? || step.SetDisconnected? || step.SetClosed?
             || step.ResetState? || step.Delete?
    ensures Inv(Apply(s, step), rules, k)
  {
  }

  lemma StepKeepsInv(s: State, rules: Rules, k: Key, step: Step)
    requires Inv(s, rules, k) && Allowed(s, rules, step)
    ensures Inv(Apply(s, step), rules, k)
  {
    if OfClient(step) {
      if KeyOf(s, step) != k {
        OtherClientKeepsInv(s, rules, k, step);
      } else if step.Check? || step.Store? || step.Unset? {
        ClientWriteKeepsInv(s, rules, step);
      } else {
        ClientSendKeepsInv(s, rules, step);
      }
    } else {
      match step
      case Load(keys) => LoadKeepsInv(s, rules, k, keys);
      case Resend => TaskSendKeepsInv(s, rules, k, step);
      case TaskAccept => TaskSendKeepsInv(s, rules, k, step);
      case TaskReturn(_) => TaskSendKeepsInv(s, rules, k, step);
      case Update => UpdateKeepsInv(s, rules, k);
      case _ => QuietStepKeepsInv(s, rules, k, step);
    }
  }

  lemma {:induction false} SafeRunKeepsInv(s: State, handles: nat, rules: Rules, k: Key, steps: seq<Step>)
    requires Safe(handles, rules, k) && Initial(s, handles) && Run(s, rules, steps).Some?
    ensures Inv(Run(s, rules, steps).value, rules, k)
  {
    if steps != [] {
      var n := |steps| - 1;
      SafeRunKeepsInv(s, handles, rules, k, steps[..n]);
      StepKeepsInv(Run(s, rules, steps[..n]).value, rules, k, steps[n]);
    }
  }

  // ---- The calls of a client --------------------------------------------------------------------------

  lemma RunMore(s: State, rules: Rules, steps: seq<Step>, t: State, step: Step)
    requires Run(s, rules, steps) == Some(t) && Allowed(t, rules, step)
    ensures Run(s, rules, steps + [step]) == Some(Apply(t, step))
  {
    assert (steps + [step])[..|steps|] == steps;
  }

  /** The steps of a set up to the call of the transport, after the steps before it. */
  function SetSteps(steps: seq<Step>, c: nat, k: Key, v: AstarteData): seq<Step> {
    steps + [Check(c, k, v)] + [Store(c)] + [ReadStatus(c)]
  }

  function UnsetSteps(steps: seq<Step>, c: nat, k: Key): seq<Step> {
    steps + [Unset(c, k)] + [ReadStatus(c)]
  }

  /** The steps after the call: whether the transport took the message, and whether it said so. */
  function Replied(steps: seq<Step>, c: nat, accepted: bool, ok: bool): seq<Step> {
    var s1 := if accepted then steps + [Accept(c)] else steps;
    var s2 := s1 + [Return(c, ok)];
    if ok then s2 + [Finish(c)] else s2
  }

  /** The store is written, and the client calls the transport if it finds the device connected. */
  function AfterWrite(t: State, c: nat, store: map<Key, Prop>, k: Key, m: Message): State
    requires c < |t.clients|
  {
    WithClient(t, c, if t.status.Connected? then Sending(k, m, false) else Idle).(store := store)
  }

  function AfterReply(t: State, c: nat, accepted: bool, ok: bool): State
    requires c < |t.clients| && t.clients[c].Sending?
  {
    var pc := t.clients[c];
    WithClient(t, c, Idle).(last := if accepted then t.last[pc.key := pc.message] else t.last,
                            store := if ok then Settle(t.store, pc.key, pc.message) else t.store)
  }

  lemma SetRun(s: State, rules: Rules, steps: seq<Step>, t: State, c: nat, k: Key, v: AstarteData)
    requires Run(s, rules, steps) == Some(t) && c < |t.clients| && t.clients[c].Idle?
    requires MayWork(t, rules, k) && !Stored(t, k, v)
    ensures Run(s, rules, SetSteps(steps, c, k, v))
         == Some(AfterWrite(t, c, StoreAt(t.store, k, v), k, Some(v)))
  {
    RunMore(s, rules, steps, t, Check(c, k, v));
    var t1 := WithClient(t, c, Storing(k, v));
    RunMore(s, rules, steps + [Check(c, k, v)], t1, Store(c));
    var t2 := WithClient(t, c, Written(k, Some(v))).(store := StoreAt(t.store, k, v));
    assert Apply(t1, Store(c)) == t2;
    RunMore(s, rules, steps + [Check(c, k, v)] + [Store(c)], t2, ReadStatus(c));
    assert Apply(t2, ReadStatus(c)) == AfterWrite(t, c, StoreAt(t.store, k, v), k, Some(v));
  }

  lemma UnsetRun(s: State, rules: Rules, steps: seq<Step>, t: State, c: nat, k: Key)
    requires Run(s, rules, steps) == Some(t) && c < |t.clients| && t.clients[c].Idle? && MayWork(t, rules, k)
    ensures Run(s, rules, UnsetSteps(steps, c, k))
         == Some(AfterWrite(t, c, UnsetAt(t.store, k, t.unsetMarks), k, None))
  {
    RunMore(s, rules, steps, t, Unset(c, k));
    var t1 := WithClient(t, c, Written(k, None)).(store := UnsetAt(t.store, k, t.unsetMarks));
    RunMore(s, rules, steps + [Unset(c, k)], t1, ReadStatus(c));
    assert Apply(t1, ReadStatus(c)) == AfterWrite(t, c, UnsetAt(t.store, k, t.unsetMarks), k, None);
  }

  /** The transport takes the message or not, and the store is settled only on its word. */
  lemma ReplyRun(s: State, rules: Rules, steps: seq<Step>, t: State, c: nat, accepted: bool, ok: bool)
    requires Run(s, rules, steps) == Some(t) && c < |t.clients| && (ok ==> accepted)
    requires t.clients[c].Sending? && !t.clients[c].accepted
    ensures Run(s, rules, Replied(steps, c, accepted, ok)) == Some(AfterReply(t, c, accepted, ok))
  {
    var pc, t1, now := t.clients[c], t, steps;
    if accepted {
      RunMore(s, rules, now, t1, Accept(c));
      t1, now := WithClient(t, c, pc.(accepted := true)).(last := t.last[pc.key := pc.message]), now + [Accept(c)];
    }
    RunMore(s, rules, now, t1, Return(c, ok));
    if ok {
      var t2 := WithClient(t1, c, Finishing(pc.key, pc.message));
      RunMore(s, rules, now + [Return(c, ok)], t2, Finish(c));
      assert WithClient(t2, c, Idle) == WithClient(t, c, Idle).(last := t1.last);
    } else {
      assert WithClient(t1, c, Idle) == WithClient(t, c, Idle).(last := t1.last);
    }
  }

  // ---- Two handles: a run that leaves store and transport out of step -----------------------------

  /** A script, and the states it goes through from `states(0)`, step by step. */
  lemma {:induction false} ScriptRun(rules: Rules, script: seq<Step>, states: seq<State>, i: nat)
    requires |states| == |script| + 1 && i <= |script|
    requires forall j :: 0 <= j < |script| ==>
               Allowed(states[j], rules, script[j]) && Apply(states[j], script[j]) == states[j + 1]
    ensures Run(states[0], rules, script[..i]) == Some(states[i])
  {
    if i > 0 {
      ScriptRun(rules, script, states, i - 1);
      assert script[..i][..i - 1] == script[..i - 1];
    }
  }

  /** Two handles set the same property; the first value written is the last one accepted. */
  function RaceScript(k: Key, a: AstarteData, b: AstarteData): seq<Step> {
    [SpawnTask, FinishTask, Check(0, k, a), Store(0), Check(1, k, b), Store(1),
     ReadStatus(0), ReadStatus(1), Accept(1), Return(1, true), Finish(1), Accept(0)]
  }

  function RaceStates(handles: nat, k: Key, a: AstarteData, b: AstarteData): seq<State>
    requires handles >= 2
  {
    var idle := seq(handles, _ => Idle);
    var up := State(Connected, false, map[], map[], idle, NoTask);
    var sentA, sentB := Sending(k, Some(a), false), Sending(k, Some(b), false);
    var withA := up.(store := map[k := Prop(Some(a), false)]);
    var withB := up.(store := map[k := Prop(Some(b), false)]);
    var doneB := up.(store := map[k := Prop(Some(b), true)]);
    [up.(status := Disconnected),
     up.(status := Disconnected, task := Holding([])),
     up,
     up.(clients := idle[0 := Storing(k, a)]),
     withA.(clients := idle[0 := Written(k, Some(a))]),
     withA.(clients := idle[0 := Written(k, Some(a))][1 := Storing(k, b)]),
     withB.(clients := idle[0 := Written(k, Some(a))][1 := Written(k, Some(b))]),
     withB.(clients := idle[0 := sentA][1 := Written(k, Some(b))]),
     withB.(clients := idle[0 := sentA][1 := sentB]),
     withB.(clients := idle[0 := sentA][1 := sentB.(accepted := true)], last := map[k := Some(b)]),
     withB.(clients := idle[0 := sentA][1 := Finishing(k, Some(b))], last := map[k := Some(b)]),
     doneB.(clients := idle[0 := sentA], last := map[k := Some(b)]),
     doneB.(clients := idle[0 := sentA.(accepted := true)], last := map[k := Some(a)])]
  }

  lemma RaceStep(handles: nat, rules: Rules, k: Key, a: AstarteData, b: AstarteData, i: nat)
    requires handles >= 2 && a != b && k !in rules.locked && i < 12
    ensures Allowed(RaceStates(handles, k, a, b)[i], rules, RaceScript(k, a, b)[i])
    ensures Apply(RaceStates(handles, k, a, b)[i], RaceScript(k, a, b)[i]) == RaceStates(handles, k, a, b)[i + 1]
  {
    RaceStepEarly(handles, rules, k, a, b, i);
    RaceStepLate(handles, rules, k, a, b, i);
  }

  lemma RaceStepEarly(handles: nat, rules: Rules, k: Key, a: AstarteData, b: AstarteData, i: nat)
    requires handles >= 2 && a != b && k !in rules.locked && i < 12
    ensures i < 6 ==> Allowed(RaceStates(handles, k, a, b)[i], rules, RaceScript(k, a, b)[i])
    ensures i < 6 ==>
              Apply(RaceStates(handles, k, a, b)[i], RaceScript(k, a, b)[i]) == RaceStates(handles, k, a, b)[i + 1]
  {
  }

  lemma RaceStepLate(handles: nat, rules: Rules, k: Key, a: AstarteData, b: AstarteData, i: nat)
    requires handles >= 2 && a != b && k !in rules.locked && i < 12
    ensures i >= 6 ==> Allowed(RaceStates(handles, k, a, b)[i], rules, RaceScript(k, a, b)[i])
    ensures i >= 6 ==>
              Apply(RaceStates(handles, k, a, b)[i], RaceScript(k, a, b)[i]) == RaceStates(handles, k, a, b)[i + 1]
  {
  }

  lemma RaceRun(handles: nat, rules: Rules, k: Key, a: AstarteData, b: AstarteData)
    requires handles >= 2 && a != b && k !in rules.locked
    ensures Initial(RaceStates(handles, k, a, b)[0], handles)
    ensures Run(RaceStates(handles, k, a, b)[0], rules, RaceScript(k, a, b)) == Some(RaceStates(handles, k, a, b)[12])
    ensures !SyncedAt(RaceStates(handles, k, a, b)[12], k)
  {
    var script, states := RaceScript(k, a, b), RaceStates(handles, k, a, b);
    forall j | 0 <= j < 12
      ensures Allowed(states[j], rules, script[j]) && Apply(states[j], script[j]) == states[j + 1]
    {
      RaceStep(handles, rules, k, a, b, j);
    }
    ScriptRun(rules, script, states, 12);
    assert script[..12] == script;
    assert k in states[12].store;
  }

  // ---- One handle: a task spawned while connected --------------------------------------------------

  /**
   A task that has failed ends after the loss of the connection was noticed, and so sets the status to
   connected; the reconnection does not change it, and the next task is spawned. Its snapshot holds the
   first value when the client, which takes the device for connected, sends the second.
   */
  function StaleScript(k: Key, a: AstarteData, b: AstarteData): seq<Step> {
    [Check(0, k, a), Store(0), ReadStatus(0), SpawnTask, SetDisconnected, FinishTask, CancelTask, SpawnTask,
     Load([k]), Resend, Check(0, k, b), Store(0), ReadStatus(0), Accept(0), Return(0, true), Finish(0), TaskAccept]
  }

  /** The state at the end: the second value completed, and the first one accepted after it. */
  function StaleEnd(s: State, k: Key, a: AstarteData, b: AstarteData): State {
    State(Connected, s.unsetMarks, map[k := Prop(Some(b), true)], map[k := Some(a)], s.clients,
          Resending([(k, Some(a))], true))
  }

  /** The loss, and the two tasks around it. */
  function SpawnedTwice(steps: seq<Step>): seq<Step> {
    steps + [SpawnTask] + [SetDisconnected] + [FinishTask] + [CancelTask] + [SpawnTask]
  }

  lemma SpawnedTwiceRun(s: State, rules: Rules, steps: seq<Step>, t: State)
    requires Run(s, rules, steps) == Some(t) && !rules.guarded && t.task.NoTask?
    ensures Run(s, rules, SpawnedTwice(steps)) == Some(t.(status := Connected, task := Holding([])))
  {
    RunMore(s, rules, steps, t, SpawnTask);
    var t1, now := t.(task := Holding([])), steps + [SpawnTask];
    RunMore(s, rules, now, t1, SetDisconnected);
    t1, now := t1.(status := Disconnected), now + [SetDisconnected];
    RunMore(s, rules, now, t1, FinishTask);
    t1, now := t1.(task := NoTask, status := Connected), now + [FinishTask];
    RunMore(s, rules, now, t1, CancelTask);
    RunMore(s, rules, now + [CancelTask], t1, SpawnTask);
  }

  lemma LoadedRun(s: State, rules: Rules, steps: seq<Step>, t: State, k: Key)
    requires Run(s, rules, steps) == Some(t) && t.task == Holding([]) && k in t.store && !t.store[k].completed
    ensures Run(s, rules, steps + [Load([k])] + [Resend])
         == Some(t.(task := Resending([(k, t.store[k].value)], false)))
  {
    RunMore(s, rules, steps, t, Load([k]));
    assert Snapshot(t, [k]) == [(k, t.store[k].value)];
    RunMore(s, rules, steps + [Load([k])], t.(task := Holding([(k, t.store[k].value)])), Resend);
  }

  /** The script up to the second set. */
  function StalePrefix(k: Key, a: AstarteData): seq<Step> {
    SpawnedTwice(SetSteps([], 0, k, a)) + [Load([k])] + [Resend]
  }

  lemma StalePrefixRun(s: State, rules: Rules, k: Key, a: AstarteData)
    requires |s.clients| > 0 && !rules.guarded && Initial(s, |s.clients|) && s.store == map[]
    ensures Run(s, rules, StalePrefix(k, a))
         == Some(s.(status := Connected, store := map[k := Prop(Some(a), false)],
                    task := Resending([(k, Some(a))], false)))
  {
    SetRun(s, rules, [], s, 0, k, a);
    var t := s.(store := map[k := Prop(Some(a), false)]);
    assert s.clients[0 := Idle] == s.clients;
    SpawnedTwiceRun(s, rules, SetSteps([], 0, k, a), t);
    LoadedRun(s, rules, SpawnedTwice(SetSteps([], 0, k, a)), t.(status := Connected, task := Holding([])), k);
  }

  /** A second set, whose value is completed while the task is about to send the first. */
  lemma SecondSetRun(s: State, rules: Rules, steps: seq<Step>, t: State, k: Key, a: AstarteData, b: AstarteData)
    requires Run(s, rules, steps) == Some(t) && |t.clients| > 0 && AllIdle(t) && a != b
    requires t.status == Connected && t.store == map[k := Prop(Some(a), false)] && t.last == map[]
    ensures Run(s, rules, Replied(SetSteps(steps, 0, k, b), 0, true, true))
         == Some(t.(store := map[k := Prop(Some(b), true)], last := map[k := Some(b)]))
  {
    SetRun(s, rules, steps, t, 0, k, b);
    var u := AfterWrite(t, 0, StoreAt(t.store, k, b), k, Some(b));
    ReplyRun(s, rules, SetSteps(steps, 0, k, b), u, 0, true, true);
    assert u.clients[0 := Idle] == t.clients && map[][k := Some(b)] == map[k := Some(b)];
    assert Settle(StoreAt(t.store, k, b), k, Some(b)) == map[k := Prop(Some(b), true)];
  }

  lemma StaleRun(s: State, rules: Rules, k: Key, a: AstarteData, b: AstarteData)
    requires |s.clients| > 0 && !rules.guarded && Initial(s, |s.clients|) && s.store == map[] && a != b
    ensures Run(s, rules, StaleScript(k, a, b)) == Some(StaleEnd(s, k, a, b))
    ensures !SyncedAt(StaleEnd(s, k, a, b), k)
  {
    StalePrefixRun(s, rules, k, a);
    var t := s.(status := Connected, store := map[k := Prop(Some(a), false)], task := Resending([(k, Some(a))], false));
    SecondSetRun(s, rules, StalePrefix(k, a), t, k, a, b);
    var steps := Replied(SetSteps(StalePrefix(k, a), 0, k, b), 0, true, true);
    StaleAccept(s, rules, steps, t.(store := map[k := Prop(Some(b), true)], last := map[k := Some(b)]), k, a);
    StaleScriptIs(k, a, b);
    assert map[k := Some(b)][k := Some(a)] == map[k := Some(a)];
  }

  /** The task sends what it holds. */
  lemma StaleAccept(s: State, rules: Rules, steps: seq<Step>, t: State, k: Key, a: AstarteData)
    requires Run(s, rules, steps) == Some(t) && t.task == Resending([(k, Some(a))], false)
    ensures Run(s, rules, steps + [TaskAccept])
         == Some(t.(task := Resending([(k, Some(a))], true), last := t.last[k := Some(a)]))
  {
    assert t.task.buf[0] == (k, Some(a));
    RunMore(s, rules, steps, t, TaskAccept);
  }

  lemma StaleScriptIs(k: Key, a: AstarteData, b: AstarteData)
    ensures Replied(SetSteps(StalePrefix(k, a), 0, k, b), 0, true, true) + [TaskAccept] == StaleScript(k, a, b)
  {
    assert SetSteps([], 0, k, a) == [Check(0, k, a), Store(0), ReadStatus(0)];
    assert StalePrefix(k, a) == [Check(0, k, a), Store(0), ReadStatus(0), SpawnTask, SetDisconnected, FinishTask,
                                 CancelTask, SpawnTask, Load([k]), Resend];
  }

  // ---- The exact condition --------------------------------------------------------------------------

  ghost predicate AlwaysSyncedAt(handles: nat, rules: Rules, k: Key) {
    forall s, steps :: Initial(s, handles) && Run(s, rules, steps).Some? ==> SyncedAt(Run(s, rules, steps).value, k)
  }

  /**
   Store and transport agree on a property in every run exactly when nobody sets properties, or when the
   task is never spawned while the status is connected and no two handles can work on this property at
   the same time.
   */
  lemma SyncedAtIff(handles: nat, rules: Rules, k: Key)
    ensures AlwaysSyncedAt(handles, rules, k) <==> Safe(handles, rules, k)
  {
    var a, b := DBoolean(true), DBoolean(false);
    if handles > 0 && !rules.guarded {
      var s := State(Disconnected, false, map[], map[], seq(handles, _ => Idle), NoTask);
      StaleRun(s, rules, k, a, b);
      assert Run(s, rules, StaleScript(k, a, b)).Some?;
    } else if handles > 1 && k !in rules.locked {
      RaceRun(handles, rules, k, a, b);
    } else {
      forall s, steps | Initial(s, handles) && Run(s, rules, steps).Some?
        ensures SyncedAt(Run(s, rules, steps).value, k)
      {
        SafeRunKeepsInv(s, handles, rules, k, steps);
      }
    }
  }

  ghost predicate AlwaysSynced(handles: nat, rules: Rules) {
    forall s, steps :: Initial(s, handles) && Run(s, rules, steps).Some? ==> Synced(Run(s, rules, steps).value)
  }

  /** Handles that do not exclude one another keep all properties in step exactly when there is one at most. */
  lemma SyncedIffGuardedHandle(handles: nat, guarded: bool)
    ensures AlwaysSynced(handles, Rules(guarded, iset{})) <==> handles == 0 || (handles == 1 && guarded)
  {
    var rules := Rules(guarded, iset{});
    SyncedAtIff(handles, rules, ("", ""));
    if AlwaysSynced(handles, rules) {
      forall s, steps | Initial(s, handles) && Run(s, rules, steps).Some?
        ensures SyncedAt(Run(s, rules, steps).value, ("", ""))
      {
      }
    } else {
      var s, steps :| Initial(s, handles) && Run(s, rules, steps).Some? && !Synced(Run(s, rules, steps).value);
      var k :| !SyncedAt(Run(s, rules, steps).value, k);
      SyncedAtIff(handles, rules, k);
    }
  }

  // ---- Runs in which no two handles meet -------------------------------------------------------------

  /** In no state of the run do two handles work on the property. */
  ghost predicate AlwaysAlone(s: State, rules: Rules, steps: seq<Step>, k: Key)
    requires Run(s, rules, steps).Some?
  {
    Alone(Run(s, rules, steps).value, k) && (steps != [] ==> AlwaysAlone(s, rules, steps[..|steps| - 1], k))
  }

  /**
   The runs of handles that exclude one another on a property are exactly the runs in which no two of
   them ever work on it at the same time.
   */
  lemma {:induction false} LockedRunsIff(s: State, handles: nat, guarded: bool, steps: seq<Step>, k: Key)
    requires Initial(s, handles)
    ensures var free, locked := Rules(guarded, iset{}), Rules(guarded, iset{k});
            && (Run(s, locked, steps).Some? <==> Run(s, free, steps).Some? && AlwaysAlone(s, free, steps, k))
            && (Run(s, locked, steps).Some? ==> Run(s, locked, steps) == Run(s, free, steps))
  {
    if steps != [] {
      var n := |steps| - 1;
      LockedRunsIff(s, handles, guarded, steps[..n], k);
      if Run(s, Rules(guarded, iset{k}), steps[..n]).Some? {
        LockedStepIff(Run(s, Rules(guarded, iset{}), steps[..n]).value, guarded, steps[n], k);
      }
    }
  }

  lemma LockedStepIff(t: State, guarded: bool, step: Step, k: Key)
    requires Alone(t, k)
    ensures var free, locked := Rules(guarded, iset{}), Rules(guarded, iset{k});
            Allowed(t, locked, step) <==> Allowed(t, free, step) && Alone(Apply(t, step), k)
  {
    if Enabled(t, step) && OfClient(step) {
      ClientStepTouches(t, step);
      if (step.Check? || step.Unset?) && step.key == k && Apply(t, step) != t {
        LockIff(t, Apply(t, step), step.client, k);
      }
    }
  }

  /** The client comes to work on the property: it is alone if and only if no other one is there. */
  lemma LockIff(t: State, u: State, c: nat, k: Key)
    requires c < |t.clients| == |u.clients| && u.clients == t.clients[c := u.clients[c]]
    requires t.clients[c].Idle? && Working(u.clients[c], k) && Alone(t, k)
    ensures Alone(u, k) <==> forall d :: 0 <= d < |t.clients| ==> !Working(t.clients[d], k)
  {
    if d :| 0 <= d < |t.clients| && Working(t.clients[d], k) {
      assert u.clients[d] == t.clients[d];
    }
  }
}
