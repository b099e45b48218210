/**
 The sequential code of the clients and of the resend task is a run of the interleaved protocol: what
 one call does to the stores is what the steps of its process do to them when no other step comes in
 between.
 */
module Refinement {
  import opened Basics
  import opened RetentionIds
  import opened Retained
  import opened StoredTable
  import opened VolatileQueue
  import opened Delivery
  import Client
  import Device

  ghost predicate WellFormed(call: Device.Call) {
    call.receipt ==> call.reply.Taken?
  }

  /** A store holding the flagged packet, once the call for it was answered. */
  function Settled(q: seq<Entry>, id: Id, call: Device.Call): seq<Entry> {
    if !call.reply.Taken? then SetSent(q, id, false)
    else if call.receipt then Remove(q, id)
    else q
  }

  // ---- Clients ------------------------------------------------------------------------------------

  /** The steps after a push, when attempt `k` is answered by this call. */
  function Answered(steps: seq<Step>, c: nat, k: nat, call: Device.Call): seq<Step> {
    match call.reply
    case Taken =>
      var done := steps + [Deliver(k)] + [Return(c, true)];
      if call.receipt then done + [Acknowledge(k)] else done
    case Refused => steps + [Return(c, false)] + [Unflag(c)]
    case Lost => steps + [Deliver(k)] + [Return(c, false)] + [Unflag(c)]
  }

  ghost predicate SettledIn(t: Delivery.State, u: Delivery.State, slot: Slot, call: Device.Call) {
    && Queue(u, slot.place) == Settled(Queue(t, slot.place), slot.id, call)
    && (if slot.place == InVolatile then u.stored == t.stored else u.volatile == t.volatile)
  }

  lemma AnsweredRun(s: Delivery.State, steps: seq<Step>, t: Delivery.State, c: nat, k: nat, slot: Slot,
                    call: Device.Call)
    requires Run(s, steps) == Some(t) && WellFormed(call)
    requires c in t.clients && t.clients[c] == Sending(k) && k < |t.attempts|
    requires t.attempts[k].slot == slot && t.attempts[k].outcome.Open?
    ensures Run(s, Answered(steps, c, k, call)).Some?
    ensures var u := Run(s, Answered(steps, c, k, call)).value;
            SettledIn(t, u, slot, call) && u.clients == t.clients[c := Idle]
  {
    var t1, now := ReturnedRun(s, steps, t, c, k, slot, call);
    if !call.reply.Taken? {
      RunMore(s, now, t1, Unflag(c));
    } else if call.receipt {
      RunMore(s, now, t1, Acknowledge(k));
    }
  }

  /** The answer as it reaches the client: the stores are as they were. */
  lemma ReturnedRun(s: Delivery.State, steps: seq<Step>, t: Delivery.State, c: nat, k: nat, slot: Slot,
                    call: Device.Call)
    returns (u: Delivery.State, now: seq<Step>)
    requires Run(s, steps) == Some(t) && c in t.clients && t.clients[c] == Sending(k) && k < |t.attempts|
    requires t.attempts[k].slot == slot && t.attempts[k].outcome.Open?
    ensures Run(s, now) == Some(u) && now == (if call.reply.Refused? then steps else steps + [Deliver(k)])
                                             + [Return(c, call.reply.Taken?)]
    ensures u.volatile == t.volatile && u.stored == t.stored && k < |u.attempts| && u.attempts[k].slot == slot
    ensures u.clients == t.clients[c := if call.reply.Taken? then Idle else Unflagging(k)]
    ensures call.reply.Taken? ==> u.attempts[k].outcome.Accepted?
  {
    u, now := t, steps;
    if !call.reply.Refused? {
      RunMore(s, now, u, Deliver(k));
      u, now := WithOutcome(t, k, Accepted), now + [Deliver(k)];
    }
    RunMore(s, now, u, Return(c, call.reply.Taken?));
    u, now := Apply(u, Return(c, call.reply.Taken?)), now + [Return(c, call.reply.Taken?)];
  }

  /** The steps of a send: with no call when the device is offline or the packet could not be stored. */
  function SendSteps(c: nat, p: Packet, push: Step, k: nat, calls: seq<Device.Call>): seq<Step> {
    var pushed := [] + [Check(c, p)] + [push];
    if calls == [] then pushed else Answered(pushed, c, k, calls[0])
  }

  /** The client can start a send with this effect. */
  ghost predicate CanSend(s: Delivery.State, c: nat, p: Packet, e: Client.Effect) {
    && Structural(s) && c in s.clients && s.clients[c].Idle? && e.id !in s.used
    && |e.calls| <= 1 && (e.calls != [] ==> s.status.Connected? && WellFormed(e.calls[0]))
  }

  /** The client after a push: done when it was offline, else waiting for the attempt it has begun. */
  ghost predicate AfterPush(s: Delivery.State, u: Delivery.State, c: nat, slot: Slot) {
    && u.clients == s.clients[c := if s.status.Connected? then Sending(|s.attempts|) else Idle]
    && (s.status.Connected? ==> u.attempts == s.attempts + [Attempt(slot, Epoch(s, slot.place), Open)])
  }

  lemma PushVolatileRun(s: Delivery.State, c: nat, p: Packet, e: Client.Effect)
    requires c in s.clients && s.clients[c].Idle? && e.id !in s.used && GoesTo(s, p, InVolatile)
    ensures var r := Run(s, [] + [Check(c, p)] + [PushVolatile(c, e.id, e.now, e.storeTime)]);
            && r.Some? && AfterPush(s, r.value, c, Slot(InVolatile, e.id)) && r.value.stored == s.stored
            && r.value.volatile
               == Pushed(s.volatile, s.volatileCapacity, e.now, NewItem(e.id, p, s.status.Connected?, e.storeTime))
  {
    RunMore(s, [], s, Check(c, p));
    RunMore(s, [] + [Check(c, p)], Apply(s, Check(c, p)), PushVolatile(c, e.id, e.now, e.storeTime));
  }

  lemma VolatileSendIsRun(s: Delivery.State, c: nat, p: Packet, e: Client.Effect)
    requires CanSend(s, c, p, e) && GoesTo(s, p, InVolatile) && (e.calls == [] ==> !s.status.Connected?)
    ensures var r := Run(s, SendSteps(c, p, PushVolatile(c, e.id, e.now, e.storeTime), |s.attempts|, e.calls));
            && r.Some? && r.value.volatile == Client.InQueue(s.volatile, s.volatileCapacity, p, e)
            && r.value.stored == s.stored && r.value.clients == s.clients
  {
    assert !HasId(s.volatile, e.id);
    AnswerVolatile(s, c, p, e);
  }

  /** The queue once a pushed packet was answered. */
  lemma SettledQueue(q: seq<Entry>, capacity: nat, p: Packet, e: Client.Effect)
    requires !HasId(q, e.id) && |e.calls| == 1 && WellFormed(e.calls[0])
    ensures Settled(Pushed(q, capacity, e.now, NewItem(e.id, p, true, e.storeTime)), e.id, e.calls[0])
         == Client.InQueue(q, capacity, p, e)
  {
    Client.UnflagPushed(q, capacity, e.now, e.id, p, e.storeTime);
  }

  lemma AnswerVolatile(s: Delivery.State, c: nat, p: Packet, e: Client.Effect)
    requires c in s.clients && s.clients[c].Idle? && e.id !in s.used && GoesTo(s, p, InVolatile)
    requires !HasId(s.volatile, e.id) && (e.calls == [] <==> !s.status.Connected?)
    requires |e.calls| <= 1 && (e.calls != [] ==> WellFormed(e.calls[0]))
    ensures var r := Run(s, SendSteps(c, p, PushVolatile(c, e.id, e.now, e.storeTime), |s.attempts|, e.calls));
            && r.Some? && r.value.volatile == Client.InQueue(s.volatile, s.volatileCapacity, p, e)
            && r.value.stored == s.stored && r.value.clients == s.clients
  {
    var pushed := [] + [Check(c, p)] + [PushVolatile(c, e.id, e.now, e.storeTime)];
    PushVolatileRun(s, c, p, e);
    assert s.clients[c := Idle] == s.clients;
    if e.calls != [] {
      SettledQueue(s.volatile, s.volatileCapacity, p, e);
      AnsweredRun(s, pushed, Run(s, pushed).value, c, |s.attempts|, Slot(InVolatile, e.id), e.calls[0]);
    }
  }

  /** The step of the protocol leaves open when a replaced mapping takes rows along; here it is said. */
  function PushFor(c: nat, p: Packet, e: Client.Effect, mappings: map<Path, Mapping>): Step {
    PushStored(c, e.id, e.now, e.cascade && !HasMapping(mappings, p) && PathOf(p) in mappings)
  }

  lemma PushStoredRun(s: Delivery.State, c: nat, p: Packet, e: Client.Effect, mappings: map<Path, Mapping>)
    requires CanSend(s, c, p, e) && GoesTo(s, p, InStored) && NewRow(e.id, p, true).Ok?
    ensures var r := Run(s, [] + [Check(c, p)] + [PushFor(c, p, e, mappings)]);
            && r.Some? && AfterPush(s, r.value, c, Slot(InStored, e.id)) && r.value.volatile == s.volatile
            && StoreRow(s, p, e, mappings, s.status.Connected?) == (r.value.stored, None)
  {
    NewIdIsFree(s, p, e, mappings);
    CheckAndPush(s, c, p, e, mappings);
  }

  lemma CheckAndPush(s: Delivery.State, c: nat, p: Packet, e: Client.Effect, mappings: map<Path, Mapping>)
    requires c in s.clients && s.clients[c].Idle? && e.id !in s.used
    requires GoesTo(s, p, InStored) && NewRow(e.id, p, true).Ok?
    requires !HasId(BaseFor(MakeRoom(s.stored, s.storedCapacity, 1, e.now), mappings, p, e.cascade), e.id)
    ensures var r := Run(s, [] + [Check(c, p)] + [PushFor(c, p, e, mappings)]);
            && r.Some? && AfterPush(s, r.value, c, Slot(InStored, e.id)) && r.value.volatile == s.volatile
            && StoreRow(s, p, e, mappings, s.status.Connected?) == (r.value.stored, None)
  {
    var t := Apply(s, Check(c, p));
    var u := Apply(t, PushFor(c, p, e, mappings));
    RunMore(s, [], s, Check(c, p));
    RunMore(s, [] + [Check(c, p)], t, PushFor(c, p, e, mappings));
    PushedRow(t, c, p, e, mappings, s.status.Connected?);
    PushedClient(t, c, p, e, mappings, s.status.Connected?);
    assert u.clients == s.clients[c := u.clients[c]];
  }

  lemma PushedRow(t: Delivery.State, c: nat, p: Packet, e: Client.Effect, mappings: map<Path, Mapping>, online: bool)
    requires c in t.clients && t.clients[c] == Checked(p, online) && NewRow(e.id, p, true).Ok?
    requires Enabled(t, PushFor(c, p, e, mappings))
    requires !HasId(BaseFor(MakeRoom(t.stored, t.storedCapacity, 1, e.now), mappings, p, e.cascade), e.id)
    ensures StoreRow(t, p, e, mappings, online) == (Apply(t, PushFor(c, p, e, mappings)).stored, None)
  {
  }

  lemma PushedClient(t: Delivery.State, c: nat, p: Packet, e: Client.Effect, mappings: map<Path, Mapping>,
                     online: bool)
    requires c in t.clients && t.clients[c] == Checked(p, online) && NewRow(e.id, p, true).Ok?
    requires Enabled(t, PushFor(c, p, e, mappings))
    ensures var u := Apply(t, PushFor(c, p, e, mappings));
            && u.volatile == t.volatile
            && u.clients == t.clients[c := if online then Sending(|t.attempts|) else Idle]
            && (online ==> u.attempts == t.attempts + [Attempt(Slot(InStored, e.id), t.storedEpoch, Open)])
  {
  }

  /** The rows after the client stored the packet, and the error that kept it out. */
  ghost function StoreRow(s: Delivery.State, p: Packet, e: Client.Effect, mappings: map<Path, Mapping>, sent: bool)
    : (seq<Entry>, Option<StoreError>)
  {
    var r := Client.StoreRow(Client.Table(s.stored, mappings), s.storedCapacity, e.id, p, sent, e.now, e.cascade);
    (r.0.rows, r.1)
  }

  lemma StoredSendIsRun(s: Delivery.State, c: nat, p: Packet, e: Client.Effect, mappings: map<Path, Mapping>)
    requires CanSend(s, c, p, e) && GoesTo(s, p, InStored) && NewRow(e.id, p, true).Ok?
    requires e.calls == [] ==> !s.status.Connected?
    ensures var r := Run(s, SendSteps(c, p, PushFor(c, p, e, mappings), |s.attempts|, e.calls));
            var (after, error) := Client.InTable(Client.Table(s.stored, mappings), s.storedCapacity, p, e);
            && error == None && r.Some? && r.value.stored == after.rows
            && r.value.volatile == s.volatile && r.value.clients == s.clients
  {
    var pushed := [] + [Check(c, p)] + [PushFor(c, p, e, mappings)];
    PushStoredRun(s, c, p, e, mappings);
    AnswerStored(s, pushed, Run(s, pushed).value, c, p, e);
    TableSettles(Client.Table(s.stored, mappings), s.storedCapacity, p, e);
  }

  lemma AnswerStored(s: Delivery.State, pushed: seq<Step>, t: Delivery.State, c: nat, p: Packet, e: Client.Effect)
    requires Run(s, pushed) == Some(t) && AfterPush(s, t, c, Slot(InStored, e.id))
    requires c in s.clients && s.clients[c].Idle? && (e.calls == [] <==> !s.status.Connected?)
    requires |e.calls| <= 1 && (e.calls != [] ==> WellFormed(e.calls[0]))
    ensures var r := if e.calls == [] then Run(s, pushed) else Run(s, Answered(pushed, c, |s.attempts|, e.calls[0]));
            && r.Some? && r.value.volatile == t.volatile && r.value.clients == s.clients
            && r.value.stored == if e.calls == [] then t.stored else Settled(t.stored, e.id, e.calls[0])
  {
    assert s.clients[c := Idle] == s.clients;
    if e.calls != [] {
      AnsweredRun(s, pushed, t, c, |s.attempts|, Slot(InStored, e.id), e.calls[0]);
    }
  }

  /** The table after a send is the table after the push, with the answer applied. */
  lemma TableSettles(t: Client.Table, capacity: nat, p: Packet, e: Client.Effect)
    requires |e.calls| <= 1 && (e.calls != [] ==> WellFormed(e.calls[0]))
    requires Client.StoreRow(t, capacity, e.id, p, e.calls != [], e.now, e.cascade).1 == None
    ensures var pushed := Client.StoreRow(t, capacity, e.id, p, e.calls != [], e.now, e.cascade).0;
            Client.InTable(t, capacity, p, e)
            == (if e.calls == [] then pushed else pushed.(rows := Settled(pushed.rows, e.id, e.calls[0])), None)
  {
    if e.calls != [] {
      Client.UnflagStored(t, capacity, e.id, p, e.now, e.cascade);
    }
  }

  lemma NewIdIsFree(s: Delivery.State, p: Packet, e: Client.Effect, mappings: map<Path, Mapping>)
    requires Structural(s) && e.id !in s.used
    ensures !HasId(BaseFor(MakeRoom(s.stored, s.storedCapacity, 1, e.now), mappings, p, e.cascade), e.id)
  {
    SortedDistinct(s.stored);
    MakeRoomMembers(s.stored, s.storedCapacity, 1, e.now);
  }

  // ---- The resend task ----------------------------------------------------------------------------

  function ResendSteps(k: nat, call: Device.Call): seq<Step> {
    match call.reply
    case Taken =>
      var done := [] + [Mark] + [Deliver(k)] + [TaskReturn(true)];
      if call.receipt then done + [Acknowledge(k)] else done
    case Refused => [] + [Mark] + [TaskReturn(false)] + [TaskUnflag]
    case Lost => [] + [Mark] + [Deliver(k)] + [TaskReturn(false)] + [TaskUnflag]
  }

  lemma TaskAnsweredRun(s: Delivery.State, t: Delivery.State, k: nat, buf: seq<Slot>, slot: Slot, call: Device.Call)
    requires Run(s, [] + [Mark]) == Some(t) && WellFormed(call)
    requires t.task == Resending(k, buf) && k < |t.attempts|
    requires t.attempts[k].slot == slot && t.attempts[k].outcome.Open?
    ensures Run(s, ResendSteps(k, call)).Some?
    ensures var u := Run(s, ResendSteps(k, call)).value;
            && SettledIn(t, u, slot, call) && |u.attempts| == |t.attempts|
            && u.task == if call.reply.Taken? then Holding(buf) else Leaving
  {
    var t1, now := t, [] + [Mark];
    if !call.reply.Refused? {
      RunMore(s, now, t1, Deliver(k));
      t1, now := Apply(t1, Deliver(k)), now + [Deliver(k)];
    }
    RunMore(s, now, t1, TaskReturn(call.reply.Taken?));
    t1, now := Apply(t1, TaskReturn(call.reply.Taken?)), now + [TaskReturn(call.reply.Taken?)];
    if !call.reply.Taken? {
      RunMore(s, now, t1, TaskUnflag);
    } else if call.receipt {
      RunMore(s, now, t1, Acknowledge(k));
    }
  }

  /**
   One packet of the batch: handed over as `Device.HandOne` says, with the task at the next packet; or,
   on an error, the store as it was and the task on its way out.
   */
  lemma ResendIsRun(s: Delivery.State, call: Device.Call)
    requires Structural(s) && WellFormed(call) && s.task.Holding? && s.task.buf != []
    requires var slot := s.task.buf[0];
             Unsent(Queue(s, slot.place)) != [] && Unsent(Queue(s, slot.place))[0].id == slot.id
    ensures var r, slot := Run(s, ResendSteps(|s.attempts|, call)), s.task.buf[0];
            var q := Queue(s, slot.place);
            && r.Some?
            && Queue(r.value, slot.place) == (if call.reply.Taken? then Device.HandOne(q, slot.id, call.receipt) else q)
            && (if slot.place == InVolatile then r.value.stored == s.stored else r.value.volatile == s.volatile)
            && |r.value.attempts| == |s.attempts| + 1
            && r.value.task == if call.reply.Taken? then Holding(s.task.buf[1..]) else Leaving
  {
    var slot := s.task.buf[0];
    if slot.place == InStored {
      SortedDistinct(s.stored);
    }
    Device.FlagFirstUnsent(Queue(s, slot.place), false);
    RunMore(s, [], s, Mark);
    TaskAnsweredRun(s, Apply(s, Mark), |s.attempts|, s.task.buf[1..], slot, call);
  }

  // ---- Batches and rounds -------------------------------------------------------------------------

  /** A step of the task, or of the transport and the database on its behalf. */
  predicate OfTask(step: Step) {
    step.Load? || step.PurgeExpired? || step.Mark? || step.Deliver? || step.Acknowledge? || step.TaskReturn?
    || step.TaskUnflag?
  }

  /** Steps of the task alone lead from one state to the other. */
  ghost predicate TaskReaches(s: Delivery.State, t: Delivery.State) {
    exists steps: seq<Step> :: Run(s, steps) == Some(t) && forall x :: x in steps ==> OfTask(x)
  }

  lemma RunSnoc(s: Delivery.State, steps: seq<Step>, step: Step)
    ensures Run(s, steps + [step]) == match Run(s, steps)
                                      case None => None
                                      case Some(t) => if Enabled(t, step) then Some(Apply(t, step)) else None
  {
    assert (steps + [step])[..|steps|] == steps;
  }

  lemma {:induction false} RunJoin(s: Delivery.State, a: seq<Step>, b: seq<Step>)
    requires Run(s, a).Some?
    ensures Run(s, a + b) == Run(Run(s, a).value, b)
  {
    if b == [] {
      assert a + b == a;
    } else {
      var n := |b| - 1;
      assert a + b == (a + b[..n]) + [b[n]] && b == b[..n] + [b[n]];
      RunJoin(s, a, b[..n]);
      RunSnoc(s, a + b[..n], b[n]);
      RunSnoc(Run(s, a).value, b[..n], b[n]);
    }
  }

  lemma ReachesJoin(s: Delivery.State, t: Delivery.State, u: Delivery.State)
    requires TaskReaches(s, t) && TaskReaches(t, u)
    ensures TaskReaches(s, u)
  {
    var a: seq<Step> :| Run(s, a) == Some(t) && forall x :: x in a ==> OfTask(x);
    var b: seq<Step> :| Run(t, b) == Some(u) && forall x :: x in b ==> OfTask(x);
    RunJoin(s, a, b);
    assert forall x :: x in a + b ==> OfTask(x);
  }

  lemma ReachesSelf(s: Delivery.State)
    ensures TaskReaches(s, s)
  {
    assert Run(s, []) == Some(s);
  }

  lemma {:induction false} RunKeepsStructure(s: Delivery.State, steps: seq<Step>)
    requires Structural(s) && Run(s, steps).Some?
    ensures Structural(Run(s, steps).value)
  {
    if steps != [] {
      var n := |steps| - 1;
      RunKeepsStructure(s, steps[..n]);
      StepKeepsStructure(Run(s, steps[..n]).value, steps[n]);
    }
  }

  lemma ReachesStructure(s: Delivery.State, t: Delivery.State)
    requires Structural(s) && TaskReaches(s, t)
    ensures Structural(t)
  {
    var steps: seq<Step> :| Run(s, steps) == Some(t) && forall x :: x in steps ==> OfTask(x);
    RunKeepsStructure(s, steps);
  }

  /** These are the first unsent packets of the store. */
  ghost predicate FirstUnsent(q: seq<Entry>, batch: seq<Entry>) {
    Distinct(q) && |batch| <= |Unsent(q)| && batch == Unsent(q)[..|batch|]
  }

  /** The store after some calls for a batch, the last of which may have failed. */
  function AfterCalls(q: seq<Entry>, batch: seq<Entry>, calls: seq<Device.Call>, failed: bool): seq<Entry>
    requires |calls| <= |batch|
  {
    Device.HandedOver(q, batch, calls, Device.TakenCount(calls, failed))
  }

  lemma OneCallMore(q: seq<Entry>, batch: seq<Entry>, before: seq<Device.Call>, call: Device.Call)
    requires FirstUnsent(q, batch) && |before| < |batch|
    ensures var t, n := AfterCalls(q, batch, before, false), |before|;
            && Unsent(t) != [] && Unsent(t)[0].id == batch[n].id
            && AfterCalls(q, batch, before + [call], !call.reply.Taken?)
               == if call.reply.Taken? then Device.HandOne(t, batch[n].id, call.receipt) else t
  {
    var n := |before|;
    Device.NextUnsent(q, batch, before, n);
    Device.HandedOverExtend(q, batch, before, call, n);
  }

  /** One packet more. */
  lemma NextPacket(t: Delivery.State, place: Place, q: seq<Entry>, batch: seq<Entry>, before: seq<Device.Call>,
                   call: Device.Call)
    requires Structural(t) && WellFormed(call) && FirstUnsent(q, batch) && |before| < |batch|
    requires Queue(t, place) == AfterCalls(q, batch, before, false)
    requires t.task == Holding(Slots(place, batch)[|before|..])
    ensures var r := Run(t, ResendSteps(|t.attempts|, call));
            && r.Some? && Queue(r.value, place) == AfterCalls(q, batch, before + [call], !call.reply.Taken?)
            && (if place == InVolatile then r.value.stored == t.stored else r.value.volatile == t.volatile)
            && |r.value.attempts| == |t.attempts| + 1
            && r.value.task == if call.reply.Taken? then Holding(Slots(place, batch)[|before| + 1..]) else Leaving
  {
    OneCallMore(q, batch, before, call);
    NextSlot(place, batch, |before|);
    ResendIsRun(t, call);
  }

  lemma NextSlot(place: Place, batch: seq<Entry>, n: nat)
    requires n < |batch|
    ensures var buf := Slots(place, batch)[n..];
            buf != [] && buf[0] == Slot(place, batch[n].id) && buf[1..] == Slots(place, batch)[n + 1..]
  {
  }

  /** The store and the task once these calls were made. */
  ghost predicate BatchDone(s: Delivery.State, u: Delivery.State, place: Place, batch: seq<Entry>,
                            calls: seq<Device.Call>, failed: bool)
    requires |calls| <= |batch|
  {
    && Queue(u, place) == AfterCalls(Queue(s, place), batch, calls, failed)
    && (if place == InVolatile then u.stored == s.stored else u.volatile == s.volatile)
    && |u.attempts| == |s.attempts| + |calls|
    && u.task == if failed then Leaving else Holding(Slots(place, batch)[|calls|..])
  }

  /** The task hands over a batch, up to the first call that fails. */
  lemma {:induction false} BatchIsRun(s: Delivery.State, place: Place, batch: seq<Entry>, calls: seq<Device.Call>,
                                      messages: seq<Device.Message>, failed: bool) returns (u: Delivery.State)
    requires Structural(s) && FirstUnsent(Queue(s, place), batch) && s.task == Holding(Slots(place, batch))
    requires |calls| <= |messages| == |batch| && Device.Calls(calls, messages, failed)
    ensures TaskReaches(s, u) && BatchDone(s, u, place, batch, calls, failed)
  {
    if calls == [] {
      u := s;
      ReachesSelf(s);
      assert Slots(place, batch)[0..] == Slots(place, batch);
    } else {
      var n := |calls| - 1;
      var t := BatchIsRun(s, place, batch, calls[..n], messages, false);
      ReachesStructure(s, t);
      assert calls == calls[..n] + [calls[n]];
      u := BatchMore(s, t, place, batch, calls[..n], calls[n]);
      ReachesJoin(s, t, u);
    }
  }

  /** From the state `t` that the calls before the last one lead to. */
  lemma {:induction false} BatchMore(s: Delivery.State, t: Delivery.State, place: Place, batch: seq<Entry>,
                                     before: seq<Device.Call>, call: Device.Call) returns (u: Delivery.State)
    requires FirstUnsent(Queue(s, place), batch) && |before| < |batch| && WellFormed(call)
    requires Structural(t) && BatchDone(s, t, place, batch, before, false)
    ensures TaskReaches(t, u) && BatchDone(s, u, place, batch, before + [call], !call.reply.Taken?)
  {
    NextPacket(t, place, Queue(s, place), batch, before, call);
    u := Run(t, ResendSteps(|t.attempts|, call)).value;
    ResendStepsOfTask(|t.attempts|, call);
  }

  lemma ResendStepsOfTask(k: nat, call: Device.Call)
    ensures forall x :: x in ResendSteps(k, call) ==> OfTask(x)
  {
  }

  lemma LiveTwice(q: seq<Entry>, now: nat)
    ensures Live(Live(q, now), now) == Live(q, now)
  {
    FilterTwice(e => !Expired(e, now), e => !Expired(e, now), e => !Expired(e, now), q);
  }

  lemma OneStep(s: Delivery.State, step: Step)
    requires Enabled(s, step)
    ensures Run(s, [] + [step]) == Some(Apply(s, step))
  {
    RunMore(s, [], s, step);
  }

  lemma StepReaches(s: Delivery.State, step: Step, t: Delivery.State)
    requires Run(s, [] + [step]) == Some(t) && OfTask(step)
    ensures TaskReaches(s, t)
  {
    assert forall x :: x in [] + [step] ==> OfTask(x);
  }

  lemma LiveFirstUnsent(s: Delivery.State, place: Place, limit: nat, now: nat)
    requires Structural(s)
    ensures var live := Live(Queue(s, place), now); FirstUnsent(live, FirstN(Unsent(live), limit))
  {
    if place == InStored {
      SortedDistinct(s.stored);
    }
    FilterDistinct(e => !Expired(e, now), Queue(s, place));
  }

  /** Loading from a store without expired packets changes nothing but the task. */
  lemma LoadApplied(t: Delivery.State, place: Place, limit: nat, now: nat)
    requires Enabled(t, Load(place, limit, now)) && Live(Queue(t, place), now) == Queue(t, place)
    ensures Apply(t, Load(place, limit, now)) ==
            t.(task := Holding(Slots(place, FirstN(Unsent(Queue(t, place)), limit))))
  {
  }

  /** The task loads the packets of a store; the table is purged first. */
  lemma LoadIsRun(s: Delivery.State, place: Place, limit: nat, now: nat) returns (u: Delivery.State)
    requires Structural(s) && s.task == Holding([])
    ensures TaskReaches(s, u) && u.attempts == s.attempts
    ensures (if place == InVolatile then u.stored == s.stored else u.volatile == s.volatile)
    ensures var live := Live(Queue(s, place), now);
            && Queue(u, place) == live && FirstUnsent(live, FirstN(Unsent(live), limit))
            && u.task == Holding(Slots(place, FirstN(Unsent(live), limit)))
  {
    LiveTwice(Queue(s, place), now);
    LiveFirstUnsent(s, place, limit, now);
    var t := WithQueue(s, place, Live(Queue(s, place), now));
    OneStep(s, PurgeExpired(place, now));
    StepReaches(s, PurgeExpired(place, now), t);
    LoadApplied(t, place, limit, now);
    u := t.(task := Holding(Slots(place, FirstN(Unsent(Queue(t, place)), limit))));
    OneStep(t, Load(place, limit, now));
    StepReaches(t, Load(place, limit, now), u);
    ReachesJoin(s, t, u);
  }

  /** The state after the packets of one store were resent, in full or up to an error. */
  ghost predicate PublishesDone(s: Delivery.State, u: Delivery.State, place: Place, after: seq<Entry>, failed: bool) {
    && Queue(u, place) == after
    && (if place == InVolatile then u.stored == s.stored else u.volatile == s.volatile)
    && u.task == if failed then Leaving else Holding([])
  }

  /**
   Resending the packets of one store, as `Device.ResendVolatilePublishes` and
   `Device.ResendStoredPublishes` promise it, is a run of the task.
   */
  lemma PublishesAreRun(s: Delivery.State, place: Place, limit: nat, now: nat, messages: seq<Device.Message>,
                        calls: seq<Device.Call>, r: Result<nat, ()>, after: seq<Entry>)
    returns (u: Delivery.State)
    requires Structural(s) && s.task == Holding([])
    requires var live := Live(Queue(s, place), now);
             Device.Resent(live, FirstN(Unsent(live), limit), messages, calls, r, after)
    ensures TaskReaches(s, u) && Structural(u) && PublishesDone(s, u, place, after, r.Err?)
  {
    var batch := FirstN(Unsent(Live(Queue(s, place), now)), limit);
    var t := LoadIsRun(s, place, limit, now);
    ReachesStructure(s, t);
    u := BatchIsRun(t, place, batch, calls, messages, r.Err?);
    ReachesJoin(s, t, u);
    ReachesStructure(s, u);
  }

  /**
   The packets of a whole round, the queue and then the table unless the queue failed, are a run of the
   task, after which it can end or start the next round.
   */
  lemma RoundIsRun(s: Delivery.State, limit: nat, now1: nat, now2: nat, m1: seq<Device.Message>,
                   c1: seq<Device.Call>, r1: Result<nat, ()>, volatile: seq<Entry>, m2: seq<Device.Message>,
                   c2: seq<Device.Call>, r2: Result<nat, ()>, stored: seq<Entry>)
    returns (u: Delivery.State)
    requires Structural(s) && s.task == Holding([])
    requires var live := Live(s.volatile, now1);
             Device.Resent(live, FirstN(Unsent(live), limit), m1, c1, r1, volatile)
    requires var live := Live(s.stored, now2);
             if r1.Err? then stored == s.stored && r2.Err?
             else Device.Resent(live, FirstN(Unsent(live), limit), m2, c2, r2, stored)
    ensures TaskReaches(s, u) && u.volatile == volatile && u.stored == stored
    ensures u.task == (if r2.Err? then Leaving else Holding([])) && Enabled(u, FinishTask)
  {
    u := PublishesAreRun(s, InVolatile, limit, now1, m1, c1, r1, volatile);
    if r1.Ok? {
      var t := u;
      u := PublishesAreRun(t, InStored, limit, now2, m2, c2, r2, stored);
      ReachesJoin(s, t, u);
    }
  }

  // ---- From the send to the next resend -------------------------------------------------------------

  /**
   A packet retained at some moment of a run, in the queue or in the table, and whatever happens after
   it: either it has left for one of the reasons of `Leaves`, or it is flagged on the strength of an
   attempt of the session, or the next resend that ends without an error hands it over, or it expires.
   */
  lemma RetainedIsDelivered(s: Delivery.State, steps: seq<Step>, i: nat, place: Place, e: Entry,
                            held: Device.Holdings, calls: seq<Device.Call>, horizon: nat)
    requires Initial(s) && Run(s, steps).Some? && i <= |steps| && Retains(At(s, steps, i), place, e)
    requires var t := Run(s, steps).value; held.volatile == t.volatile && held.stored == t.stored
    requires Device.Delivered(held, true, calls, horizon)
    ensures var t := Run(s, steps).value;
            || (exists m :: i <= m < |steps| && LeavesAt(s, steps, m, place, e))
            || (e.(sent := true) in Queue(t, place) && exists k :: Backs(t, Slot(place, e.id), k))
            || Device.HandedIn(calls, Slot(place, e.id))
            || Expired(e, if place == InVolatile then horizon else horizon / SECOND)
  {
    var t := Run(s, steps).value;
    PacketsAreConserved(s, steps, i, place, e);
    SentFlagsAreFounded(s, steps);
    if Retains(t, place, e) {
      if e.(sent := true) in Queue(t, place) {
        assert e.(sent := true).sent;
      } else {
        assert e.(sent := false) in Unsent(Queue(t, place));
      }
    }
  }
}
