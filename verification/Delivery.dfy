/**
 The retention protocol as a state machine: any number of client handles, the background resend task,
 the event loop and the transport, interleaved at every `.await` (src/client/mod.rs,
 src/connection/resend.rs, src/connection/mod.rs).
 */
module Delivery {
  import opened Basics
  import opened RetentionIds
  import opened Retained
  import opened VolatileQueue
  import opened StoredTable

  /** `Cut`: the resend task was aborted before it finished with the packet. */
  datatype Outcome = Open | Accepted | Failed | Cut

  /** One hand-over to the transport, with the number of flag resets that came before it. */
  datatype Attempt = Attempt(slot: Slot, epoch: nat, outcome: Outcome)

  /** Where a client handle is inside `send`. */
  datatype ClientPc =
    | Idle
    | Checked(packet: Packet, online: bool)
    | Sending(attempt: nat)
    | Unflagging(attempt: nat)

  /** Where the resend task is; `buf` is what is left of the packets it loaded. */
  datatype TaskPc =
    | NoTask
    | Holding(buf: seq<Slot>)
    | Resending(attempt: nat, buf: seq<Slot>)
    | Clearing(attempt: nat)
    | Leaving

  datatype State = State(
    status: ConnStatus,
    hasStored: bool,
    volatile: seq<Entry>,
    volatileCapacity: nat,
    stored: seq<Entry>,
    storedCapacity: nat,
    used: set<Id>,
    volatileEpoch: nat,
    storedEpoch: nat,
    clients: map<nat, ClientPc>,
    task: TaskPc,
    attempts: seq<Attempt>)

  datatype Step =
    | Check(client: nat, packet: Packet)
    | PushVolatile(client: nat, id: Id, now: nat, storeTime: nat)
    | PushStored(client: nat, id: Id, now: nat, cascade: bool)
    | Discarded(client: nat)
    | Deliver(attempt: nat)
    | Return(client: nat, ok: bool)
    | Unflag(client: nat)
    | Acknowledge(attempt: nat)
    | SetDisconnected
    | SetClosed
    | CancelTask
    | ResetPlace(place: Place)
    | SpawnTask
    | Load(place: Place, limit: nat, now: nat)
    | PurgeExpired(place: Place, now: nat)
    | Mark
    | TaskReturn(ok: bool)
    | TaskUnflag
    | FinishTask
    | DeleteInterface(interface: string, now: nat)

  function Queue(s: State, place: Place): seq<Entry> {
    if place == InVolatile then s.volatile else s.stored
  }

  function WithQueue(s: State, place: Place, q: seq<Entry>): State {
    if place == InVolatile then s.(volatile := q) else s.(stored := q)
  }

  function Epoch(s: State, place: Place): nat {
    if place == InVolatile then s.volatileEpoch else s.storedEpoch
  }

  function SetFlag(s: State, slot: Slot, sent: bool): State {
    WithQueue(s, slot.place, SetSent(Queue(s, slot.place), slot.id, sent))
  }

  function WithOutcome(s: State, k: nat, o: Outcome): State
    requires k < |s.attempts|
  {
    s.(attempts := s.attempts[k := s.attempts[k].(outcome := o)])
  }

  /** Starts an attempt for a packet flagged as sent just before. */
  function Begin(s: State, slot: Slot): State {
    s.(attempts := s.attempts + [Attempt(slot, Epoch(s, slot.place), Open)])
  }

  function Client(s: State, c: nat): ClientPc {
    if c in s.clients then s.clients[c] else Idle
  }

  function WithClient(s: State, c: nat, pc: ClientPc): State {
    s.(clients := s.clients[c := pc])
  }

  /** A packet goes to the volatile queue if it asks for it, or if the store has no retention. */
  predicate GoesTo(s: State, p: Packet, place: Place) {
    if place == InVolatile then p.retention.Volatile? || (p.retention.Stored? && !s.hasStored)
    else p.retention.Stored? && s.hasStored
  }

  function Slots(place: Place, q: seq<Entry>): (r: seq<Slot>)
    ensures |r| == |q| && forall i :: 0 <= i < |r| ==> r[i] == Slot(place, q[i].id)
  {
    seq(|q|, i requires 0 <= i < |q| => Slot(place, q[i].id))
  }

  predicate AllIdle(s: State) {
    s.task.NoTask? && forall c :: c in s.clients ==> s.clients[c].Idle?
  }

  /** What a step needs to be possible. */
  predicate Enabled(s: State, step: Step) {
    match step
    case Check(c, _) => c in s.clients && s.clients[c].Idle?
    case PushVolatile(c, id, _, _) =>
      Client(s, c).Checked? && GoesTo(s, Client(s, c).packet, InVolatile) && id !in s.used
    case PushStored(c, id, _, _) =>
      Client(s, c).Checked? && GoesTo(s, Client(s, c).packet, InStored) && id !in s.used
    case Discarded(c) => Client(s, c).Checked? && Client(s, c).packet.retention.Discard?
    case Deliver(k) => k < |s.attempts| && s.attempts[k].outcome.Open?
    case Return(c, ok) =>
      && Client(s, c).Sending? && Client(s, c).attempt < |s.attempts|
      && (ok ==> s.attempts[Client(s, c).attempt].outcome.Accepted?)
    case Unflag(c) => Client(s, c).Unflagging? && Client(s, c).attempt < |s.attempts|
    case Acknowledge(k) => k < |s.attempts| && s.attempts[k].outcome.Accepted?
    case SetDisconnected => true
    case SetClosed => true
    case CancelTask => s.task.Resending? || s.task.Clearing? ==> s.task.attempt < |s.attempts|
    case ResetPlace(_) => s.task.NoTask?
    case SpawnTask => s.task.NoTask?
    case Load(_, _, _) => s.task == Holding([])
    case PurgeExpired(_, _) => true
    case Mark => s.task.Holding? && s.task.buf != []
    case TaskReturn(ok) =>
      && s.task.Resending? && s.task.attempt < |s.attempts|
      && (ok ==> s.attempts[s.task.attempt].outcome.Accepted?)
    case TaskUnflag => s.task.Clearing? && s.task.attempt < |s.attempts|
    case FinishTask => s.task == Holding([]) || s.task.Leaving?
    case DeleteInterface(_, _) => AllIdle(s)
  }

  /** An error may be reported even though the transport accepted the packet. */
  function AfterError(o: Outcome): Outcome {
    if o.Open? then Failed else o
  }

  function Apply(s: State, step: Step): State
    requires Enabled(s, step)
  {
    match step
    case Check(c, p) => WithClient(s, c, Checked(p, s.status.Connected?))
    case PushVolatile(c, id, now, storeTime) =>
      var pc := Client(s, c);
      var q := Pushed(s.volatile, s.volatileCapacity, now, NewItem(id, pc.packet, pc.online, storeTime));
      Pushing(s.(volatile := q, used := s.used + {id}), c, Slot(InVolatile, id))
    case PushStored(c, id, now, cascade) =>
      var pc := Client(s, c);
      var s1 := s.(used := s.used + {id});
      (match NewRow(id, pc.packet, pc.online)
       case Err(_) => WithClient(s1, c, Idle)
       case Ok(row) =>
         var base := Cascaded(MakeRoom(s.stored, s.storedCapacity, 1, now), PathOf(pc.packet), cascade);
         Pushing(s1.(stored := Inserted(base, row)), c, Slot(InStored, id)))
    case Discarded(c) => WithClient(s, c, Idle)
    case Deliver(k) => WithOutcome(s, k, Accepted)
    case Return(c, ok) =>
      var k := Client(s, c).attempt;
      if ok then WithClient(s, c, Idle)
      else WithClient(WithOutcome(s, k, AfterError(s.attempts[k].outcome)), c, Unflagging(k))
    case Unflag(c) => WithClient(SetFlag(s, s.attempts[Client(s, c).attempt].slot, false), c, Idle)
    case Acknowledge(k) =>
      var slot := s.attempts[k].slot;
      WithQueue(s, slot.place, Remove(Queue(s, slot.place), slot.id))
    case SetDisconnected => s.(status := Disconnected)
    case SetClosed => s.(status := Closed)
    case CancelTask =>
      var s1 := if s.task.Resending? || s.task.Clearing? then CutOff(s, s.task.attempt) else s;
      s1.(task := NoTask)
    case ResetPlace(place) =>
      var s1 := WithQueue(s, place, ResetSent(Queue(s, place)));
      if place == InVolatile then s1.(volatileEpoch := s.volatileEpoch + 1) else s1.(storedEpoch := s.storedEpoch + 1)
    case SpawnTask => s.(task := Holding([]))
    case Load(place, limit, now) =>
      var live := Live(Queue(s, place), now);
      var s1 := if place == InVolatile then WithQueue(s, place, live) else s;
      s1.(task := Holding(Slots(place, FirstN(Unsent(live), limit))))
    case PurgeExpired(place, now) => WithQueue(s, place, Live(Queue(s, place), now))
    case Mark =>
      var slot := s.task.buf[0];
      Begin(SetFlag(s, slot, true), slot).(task := Resending(|s.attempts|, s.task.buf[1..]))
    case TaskReturn(ok) =>
      var k := s.task.attempt;
      if ok then s.(task := Holding(s.task.buf))
      else WithOutcome(s, k, AfterError(s.attempts[k].outcome)).(task := Clearing(k))
    case TaskUnflag => SetFlag(s, s.attempts[s.task.attempt].slot, false).(task := Leaving)
    case FinishTask => s.(task := NoTask, status := Connected)
    case DeleteInterface(interface, now) =>
      s.(volatile := Outside(Live(s.volatile, now), interface), stored := Outside(s.stored, interface))
  }

  /** After the push a client that is online hands the packet over; one that is not is done. */
  function Pushing(s: State, c: nat, slot: Slot): State
    requires Client(s, c).Checked?
  {
    if Client(s, c).online then WithClient(Begin(s, slot), c, Sending(|s.attempts|)) else WithClient(s, c, Idle)
  }

  /** The attempt an aborted task leaves behind, whether it was waiting for it or undoing its flag. */
  function CutOff(s: State, k: nat): State
    requires k < |s.attempts|
  {
    if s.attempts[k].outcome.Accepted? then s else WithOutcome(s, k, Cut)
  }

  // ---- Runs -----------------------------------------------------------------------------------

  /** The state after a run, or `None` if some step of it is not possible when its turn comes. */
  function Run(s: State, steps: seq<Step>): Option<State> {
    if steps == [] then Some(s)
    else
      var n := |steps| - 1;
      match Run(s, steps[..n])
      case None => None
      case Some(t) => if Enabled(t, steps[n]) then Some(Apply(t, steps[n])) else None
  }

  lemma RunMore(s: State, steps: seq<Step>, t: State, step: Step)
    requires Run(s, steps) == Some(t) && Enabled(t, step)
    ensures Run(s, steps + [step]) == Some(Apply(t, step))
  {
    assert (steps + [step])[..|steps|] == steps;
  }

  /** After start-up nothing is flagged: `init_store` resets the table, and the queue is empty. */
  ghost predicate Initial(s: State) {
    && s.volatile == [] && Sorted(s.stored) && |s.stored| <= s.storedCapacity && s.storedCapacity > 0
    && (forall e :: e in s.stored ==> !e.sent && e.id in s.used)
    && s.attempts == [] && AllIdle(s)
  }

  // ---- Invariants -----------------------------------------------------------------------------

  ghost predicate Structural(s: State) {
    && Distinct(s.volatile) && |s.volatile| <= s.volatileCapacity
    && Sorted(s.stored) && |s.stored| <= s.storedCapacity && s.storedCapacity > 0
    && (forall e :: e in s.volatile ==> e.id in s.used)
    && (forall e :: e in s.stored ==> e.id in s.used)
    && (forall e, f :: e in s.volatile && f in s.stored ==> e.id != f.id)
  }

  /** Some process is about to take back the flag this attempt was made under. */
  ghost predicate TakingBack(s: State, k: nat) {
    s.task == Clearing(k) || exists c :: c in s.clients && s.clients[c] == Unflagging(k)
  }

  ghost predicate Backs(s: State, slot: Slot, k: nat) {
    && k < |s.attempts| && s.attempts[k].slot == slot && s.attempts[k].epoch == Epoch(s, slot.place)
    && (s.attempts[k].outcome.Failed? ==> TakingBack(s, k))
  }

  /**
   A packet flagged as sent has an attempt, begun after the last reset of its store, that is open,
   accepted or cut off by an abort of the task; or has failed a moment ago and is being unflagged.
   */
  ghost predicate SentFlagsBacked(s: State) {
    forall place, e :: e in Queue(s, place) && e.sent ==> exists k :: Backs(s, Slot(place, e.id), k)
  }

  // ---- Every step keeps the stores well formed ----------------------------------------------------

  lemma PushVolatileKeeps(s: State, e: Entry, now: nat)
    requires Structural(s) && e.id !in s.used
    ensures var q := Pushed(s.volatile, s.volatileCapacity, now, e);
            && Distinct(q) && |q| <= s.volatileCapacity
            && forall x :: x in q ==> x in s.volatile || x == e
  {
    MakeRoomMembers(s.volatile, s.volatileCapacity, 1, now);
    if s.volatileCapacity > 0 {
      AppendMembers(MakeRoom(s.volatile, s.volatileCapacity, 1, now), e);
    }
  }

  lemma PushStoredKeeps(s: State, row: Entry, now: nat, path: Path, cascade: bool)
    requires Structural(s) && row.id !in s.used
    ensures var q := Inserted(Cascaded(MakeRoom(s.stored, s.storedCapacity, 1, now), path, cascade), row);
            && Sorted(q) && |q| <= s.storedCapacity
            && forall x :: x in q ==> x in s.stored || x == row
  {
    var lt := (a, b) => Less(a, b);
    var room := MakeRoom(s.stored, s.storedCapacity, 1, now);
    var base := Cascaded(room, path, cascade);
    SortedDistinct(s.stored);
    MakeRoomMembers(s.stored, s.storedCapacity, 1, now);
    MakeRoomOrdered(lt, s.stored, s.storedCapacity, 1, now);
    FilterOrdered(lt, (r: Entry) => PathOf(r.packet) != path, room);
    InsertedSorted(base, row);
    InsertedLength(base, row);
  }

  /** `r` is well formed if `q` is, no longer, and has no id that `q` has not. */
  ghost predicate Edit(q: seq<Entry>, r: seq<Entry>) {
    && Distinct(r) && |r| <= |q| && (Sorted(q) ==> Sorted(r))
    && forall e :: e in r ==> HasId(q, e.id)
  }

  lemma SetSentEdits(q: seq<Entry>, id: Id, sent: bool)
    requires Distinct(q)
    ensures Edit(q, SetSent(q, id, sent))
  {
    SetSentMembers(q, id, sent);
    if Sorted(q) {
      SetSentSorted(q, id, sent);
    }
  }

  lemma RemoveEdits(q: seq<Entry>, id: Id)
    requires Distinct(q)
    ensures Edit(q, Remove(q, id))
  {
    RemoveMembers(q, id);
    if Sorted(q) {
      RemoveSorted(q, id);
      FilterOrdered((a, b) => Less(a, b), (e: Entry) => e.id != id, q);
    }
  }

  lemma ResetSentEdits(q: seq<Entry>)
    requires Distinct(q)
    ensures Edit(q, ResetSent(q))
  {
    ResetSentMembers(q);
    assert forall e :: e in ResetSent(q) ==> Holds(q, e);
  }

  lemma FilterEdits(p: Entry -> bool, q: seq<Entry>)
    requires Distinct(q)
    ensures Edit(q, Filter(p, q))
  {
    FilterDistinct(p, q);
    if Sorted(q) {
      FilterOrdered((a, b) => Less(a, b), p, q);
    }
  }

  lemma ReplaceKeeps(s: State, place: Place, r: seq<Entry>)
    requires Structural(s) && Edit(Queue(s, place), r)
    ensures Structural(WithQueue(s, place, r))
  {
  }

  lemma StepKeepsStructure(s: State, step: Step)
    requires Structural(s) && Enabled(s, step)
    ensures Structural(Apply(s, step))
  {
    match step
    case PushVolatile(_, _, _, _) => PushStepKeeps(s, step);
    case PushStored(_, _, _, _) => PushStepKeeps(s, step);
    case Unflag(_) => FlagStepKeeps(s, step);
    case TaskUnflag => FlagStepKeeps(s, step);
    case Mark => FlagStepKeeps(s, step);
    case Acknowledge(_) => FlagStepKeeps(s, step);
    case ResetPlace(_) => FlagStepKeeps(s, step);
    case Load(place, _, now) => LiveKeeps(s, place, now);
    case PurgeExpired(place, now) => LiveKeeps(s, place, now);
    case DeleteInterface(interface, now) => DeleteKeeps(s, interface, now);
    case _ => QuietStepKeeps(s, step);
  }

  lemma PushStepKeeps(s: State, step: Step)
    requires Structural(s) && Enabled(s, step) && (step.PushVolatile? || step.PushStored?)
    ensures Structural(Apply(s, step))
  {
    var p, online := Client(s, step.client).packet, Client(s, step.client).online;
    if step.PushVolatile? {
      PushVolatileKeeps(s, NewItem(step.id, p, online, step.storeTime), step.now);
    } else if NewRow(step.id, p, online).Ok? {
      PushStoredKeeps(s, NewRow(step.id, p, online).value, step.now, PathOf(p), step.cascade);
    }
  }

  lemma FlagStepKeeps(s: State, step: Step)
    requires Structural(s) && Enabled(s, step)
    requires step.Unflag? || step.TaskUnflag? || step.Mark? || step.Acknowledge? || step.ResetPlace?
    ensures Structural(Apply(s, step))
  {
    SortedDistinct(s.stored);
    match step
    case Unflag(c) => FlagKeeps(s, s.attempts[Client(s, c).attempt].slot, false);
    case TaskUnflag => FlagKeeps(s, s.attempts[s.task.attempt].slot, false);
    case Mark => FlagKeeps(s, s.task.buf[0], true);
    case Acknowledge(k) =>
      var slot := s.attempts[k].slot;
      RemoveEdits(Queue(s, slot.place), slot.id);
      ReplaceKeeps(s, slot.place, Remove(Queue(s, slot.place), slot.id));
    case ResetPlace(place) =>
      ResetSentEdits(Queue(s, place));
      ReplaceKeeps(s, place, ResetSent(Queue(s, place)));
  }

  /** The other steps leave both stores as they are. */
  lemma QuietStepKeeps(s: State, step: Step)
    requires Structural(s) && Enabled(s, step)
    requires step.Check? || step.Discarded? || step.Deliver? || step.Return? || step.SetDisconnected? || step.SetClosed?
             || step.CancelTask? || step.SpawnTask? || step.TaskReturn? || step.FinishTask?
    ensures Structural(Apply(s, step))
  {
  }

  lemma FlagKeeps(s: State, slot: Slot, sent: bool)
    requires Structural(s)
    ensures Structural(SetFlag(s, slot, sent))
  {
    SortedDistinct(s.stored);
    SetSentEdits(Queue(s, slot.place), slot.id, sent);
    ReplaceKeeps(s, slot.place, SetSent(Queue(s, slot.place), slot.id, sent));
  }

  lemma LiveKeeps(s: State, place: Place, now: nat)
    requires Structural(s)
    ensures Structural(WithQueue(s, place, Live(Queue(s, place), now)))
  {
    SortedDistinct(s.stored);
    FilterEdits(e => !Expired(e, now), Queue(s, place));
    ReplaceKeeps(s, place, Live(Queue(s, place), now));
  }

  lemma DeleteKeeps(s: State, interface: string, now: nat)
    requires Structural(s)
    ensures Structural(s.(volatile := Outside(Live(s.volatile, now), interface),
                          stored := Outside(s.stored, interface)))
  {
    SortedDistinct(s.stored);
    LiveKeeps(s, InVolatile, now);
    FilterEdits((e: Entry) => e.packet.interface != interface, Live(s.volatile, now));
    var s1 := s.(volatile := Live(s.volatile, now));
    ReplaceKeeps(s1, InVolatile, Outside(s1.volatile, interface));
    FilterEdits((e: Entry) => e.packet.interface != interface, s.stored);
    var s2 := s1.(volatile := Outside(s1.volatile, interface));
    ReplaceKeeps(s2, InStored, Outside(s.stored, interface));
  }

  // ---- Every step keeps the sent flags backed --------------------------------------------------------

  /** Every packet flagged in `place` after was flagged before. */
  ghost predicate NoNewFlags(s: State, s': State, place: Place) {
    forall e :: e in Queue(s', place) && e.sent ==> exists f :: f in Queue(s, place) && f.id == e.id && f.sent
  }

  ghost predicate KeepsBacking(s: State, s': State, slot: Slot) {
    forall k :: Backs(s, slot, k) ==> Backs(s', slot, k)
  }

  lemma BackedFrame(s: State, s': State)
    requires SentFlagsBacked(s) && NoNewFlags(s, s', InVolatile) && NoNewFlags(s, s', InStored)
    requires forall slot :: KeepsBacking(s, s', slot)
    ensures SentFlagsBacked(s')
  {
    forall place, e | e in Queue(s', place) && e.sent
      ensures exists k :: Backs(s', Slot(place, e.id), k)
    {
      assert NoNewFlags(s, s', place);
      var f :| f in Queue(s, place) && f.id == e.id && f.sent;
      var k :| Backs(s, Slot(place, f.id), k);
      assert KeepsBacking(s, s', Slot(place, e.id));
    }
  }

  /** A client that moves on lets go of no attempt but the one it was taking back. */
  lemma ClientMoves(s: State, s': State, c: nat, pc: ClientPc)
    requires s'.clients == s.clients[c := pc] && s'.task == s.task
    ensures forall j :: TakingBack(s, j) && Client(s, c) != Unflagging(j) ==> TakingBack(s', j)
    ensures forall j :: pc == Unflagging(j) ==> TakingBack(s', j)
  {
    forall j | TakingBack(s, j) && Client(s, c) != Unflagging(j)
      ensures TakingBack(s', j)
    {
      if s.task != Clearing(j) {
        var d :| d in s.clients && s.clients[d] == Unflagging(j);
        assert d in s'.clients && s'.clients[d] == Unflagging(j);
      }
    }
    assert c in s'.clients && s'.clients[c] == pc;
  }

  lemma PushVolatileBacked(s: State, c: nat, id: Id, now: nat, storeTime: nat)
    requires Structural(s) && SentFlagsBacked(s) && Enabled(s, PushVolatile(c, id, now, storeTime))
    ensures SentFlagsBacked(Apply(s, PushVolatile(c, id, now, storeTime)))
  {
    var item := NewItem(id, Client(s, c).packet, Client(s, c).online, storeTime);
    PushVolatileKeeps(s, item, now);
    PushBacked(s, Apply(s, PushVolatile(c, id, now, storeTime)), c, InVolatile, item);
  }

  lemma PushStoredBacked(s: State, c: nat, id: Id, now: nat, cascade: bool)
    requires Structural(s) && SentFlagsBacked(s) && Enabled(s, PushStored(c, id, now, cascade))
    ensures SentFlagsBacked(Apply(s, PushStored(c, id, now, cascade)))
  {
    var p := Client(s, c).packet;
    var row := NewRow(id, p, Client(s, c).online);
    var s' := Apply(s, PushStored(c, id, now, cascade));
    if row.Ok? {
      PushStoredKeeps(s, row.value, now, PathOf(p), cascade);
      PushBacked(s, s', c, InStored, row.value);
    } else {
      ClientMoves(s, s', c, Idle);
      BackedFrame(s, s');
    }
  }

  /** A packet pushed by a client that is online is backed by the attempt the client begins with it. */
  lemma PushBacked(s: State, s': State, c: nat, place: Place, e: Entry)
    requires SentFlagsBacked(s) && Client(s, c).Checked? && e.sent == Client(s, c).online
    requires s'.volatileEpoch == s.volatileEpoch && s'.storedEpoch == s.storedEpoch && s'.task == s.task
    requires forall x :: x in Queue(s', place) ==> x in Queue(s, place) || x == e
    requires forall p :: p != place ==> Queue(s', p) == Queue(s, p)
    requires if Client(s, c).online
             then s'.attempts == s.attempts + [Attempt(Slot(place, e.id), Epoch(s, place), Open)]
                  && s'.clients == s.clients[c := Sending(|s.attempts|)]
             else s'.attempts == s.attempts && s'.clients == s.clients[c := Idle]
    ensures SentFlagsBacked(s')
  {
    ClientMoves(s, s', c, s'.clients[c]);
    assert forall slot :: KeepsBacking(s, s', slot);
    forall p, x | x in Queue(s', p) && x.sent
      ensures exists k :: Backs(s', Slot(p, x.id), k)
    {
      if p == place && x == e {
        assert Backs(s', Slot(place, e.id), |s.attempts|);
      } else {
        var k :| Backs(s, Slot(p, x.id), k);
        assert KeepsBacking(s, s', Slot(p, x.id));
      }
    }
  }

  /** Taking the flag back is what lets go of a failed attempt. */
  lemma UnflagBacked(s: State, s': State, k: nat)
    requires Structural(s) && SentFlagsBacked(s) && k < |s.attempts|
    requires s' == SetFlag(s, s.attempts[k].slot, false).(clients := s'.clients, task := s'.task)
    requires forall j :: j != k && TakingBack(s, j) ==> TakingBack(s', j)
    ensures SentFlagsBacked(s')
  {
    var slot := s.attempts[k].slot;
    SortedDistinct(s.stored);
    SetSentMembers(Queue(s, slot.place), slot.id, false);
    forall p, e | e in Queue(s', p) && e.sent
      ensures exists j :: Backs(s', Slot(p, e.id), j)
    {
      assert e in Queue(s, p) && Slot(p, e.id) != slot;
      var j :| Backs(s, Slot(p, e.id), j);
      assert Backs(s', Slot(p, e.id), j);
    }
  }

  lemma MarkBacked(s: State)
    requires Structural(s) && SentFlagsBacked(s) && Enabled(s, Mark)
    ensures SentFlagsBacked(Apply(s, Mark))
  {
    var slot, s' := s.task.buf[0], Apply(s, Mark);
    SortedDistinct(s.stored);
    SetSentMembers(Queue(s, slot.place), slot.id, true);
    assert Backs(s', slot, |s.attempts|);
    forall p, e | e in Queue(s', p) && e.sent
      ensures exists j :: Backs(s', Slot(p, e.id), j)
    {
      if Slot(p, e.id) != slot {
        assert e in Queue(s, p);
        var j :| Backs(s, Slot(p, e.id), j);
        MarkKeepsBacked(s, Slot(p, e.id), j);
      }
    }
  }

  lemma MarkKeepsBacked(s: State, slot: Slot, j: nat)
    requires Enabled(s, Mark) && Backs(s, slot, j)
    ensures Backs(Apply(s, Mark), slot, j)
  {
  }

  lemma ResetBacked(s: State, place: Place)
    requires SentFlagsBacked(s) && Enabled(s, ResetPlace(place))
    ensures SentFlagsBacked(Apply(s, ResetPlace(place)))
  {
    var s' := Apply(s, ResetPlace(place));
    ResetSentMembers(Queue(s, place));
    forall p, e | e in Queue(s', p) && e.sent
      ensures exists j :: Backs(s', Slot(p, e.id), j)
    {
      assert p != place && e in Queue(s, p);
      var j :| Backs(s, Slot(p, e.id), j);
      assert Backs(s', Slot(p, e.id), j);
    }
  }

  lemma ClientStepBacked(s: State, step: Step)
    requires SentFlagsBacked(s) && Enabled(s, step) && (step.Check? || step.Discarded? || step.Return?)
    ensures SentFlagsBacked(Apply(s, step))
  {
    var s' := Apply(s, step);
    ClientMoves(s, s', step.client, s'.clients[step.client]);
    BackedFrame(s, s');
  }

  lemma TransportStepBacked(s: State, step: Step)
    requires SentFlagsBacked(s) && Enabled(s, step) && (step.Deliver? || step.CancelTask? || step.TaskReturn?)
    ensures SentFlagsBacked(Apply(s, step))
  {
    BackedFrame(s, Apply(s, step));
  }

  /** Removing packets, loading them and changing the status leave every attempt as it is. */
  lemma QuietStepBacked(s: State, s': State)
    requires SentFlagsBacked(s) && s'.attempts == s.attempts && s'.clients == s.clients
    requires s'.volatileEpoch == s.volatileEpoch && s'.storedEpoch == s.storedEpoch
    requires forall k :: s.task == Clearing(k) ==> s'.task == s.task
    requires forall e :: e in s'.volatile ==> e in s.volatile
    requires forall e :: e in s'.stored ==> e in s.stored
    ensures SentFlagsBacked(s')
  {
    assert forall k :: TakingBack(s, k) ==> TakingBack(s', k);
    BackedFrame(s, s');
  }

  lemma StepKeepsBacking(s: State, step: Step)
    requires Structural(s) && SentFlagsBacked(s) && Enabled(s, step)
    ensures SentFlagsBacked(Apply(s, step))
  {
    var s' := Apply(s, step);
    match step
    case PushVolatile(c, id, now, storeTime) => PushVolatileBacked(s, c, id, now, storeTime);
    case PushStored(c, id, now, cascade) => PushStoredBacked(s, c, id, now, cascade);
    case Check(_, _) => ClientStepBacked(s, step);
    case Discarded(_) => ClientStepBacked(s, step);
    case Return(_, _) => ClientStepBacked(s, step);
    case Deliver(_) => TransportStepBacked(s, step);
    case CancelTask => TransportStepBacked(s, step);
    case TaskReturn(_) => TransportStepBacked(s, step);
    case Unflag(c) =>
      ClientMoves(s, s', c, Idle);
      UnflagBacked(s, s', Client(s, c).attempt);
    case TaskUnflag => UnflagBacked(s, s', s.task.attempt);
    case Mark => MarkBacked(s);
    case ResetPlace(place) => ResetBacked(s, place);
    case Acknowledge(k) => RemovalBacked(s, step);
    case Load(_, _, _) => RemovalBacked(s, step);
    case PurgeExpired(_, _) => RemovalBacked(s, step);
    case DeleteInterface(_, _) => RemovalBacked(s, step);
    case _ => StatusStepBacked(s, step);
  }

  lemma RemovalBacked(s: State, step: Step)
    requires Structural(s) && SentFlagsBacked(s) && Enabled(s, step)
    requires step.Acknowledge? || step.Load? || step.PurgeExpired? || step.DeleteInterface?
    ensures SentFlagsBacked(Apply(s, step))
  {
    if step.Acknowledge? {
      var slot := s.attempts[step.attempt].slot;
      SortedDistinct(s.stored);
      RemoveMembers(Queue(s, slot.place), slot.id);
    }
    QuietStepBacked(s, Apply(s, step));
  }

  lemma StatusStepBacked(s: State, step: Step)
    requires SentFlagsBacked(s) && Enabled(s, step)
    requires step.SetDisconnected? || step.SetClosed? || step.SpawnTask? || step.FinishTask?
    ensures SentFlagsBacked(Apply(s, step))
  {
    QuietStepBacked(s, Apply(s, step));
  }

  /** In every run from start-up the stores are well formed and no sent flag is unfounded. */
  lemma {:induction false} SentFlagsAreFounded(s: State, steps: seq<Step>)
    requires Initial(s) && Run(s, steps).Some?
    ensures Structural(Run(s, steps).value) && SentFlagsBacked(Run(s, steps).value)
  {
    if steps == [] {
      SortedDistinct(s.stored);
    } else {
      var n := |steps| - 1;
      SentFlagsAreFounded(s, steps[..n]);
      StepKeepsStructure(Run(s, steps[..n]).value, steps[n]);
      StepKeepsBacking(Run(s, steps[..n]).value, steps[n]);
    }
  }

  // ---- Conservation -------------------------------------------------------------------------------------

  ghost predicate Retains(s: State, place: Place, e: Entry) {
    Holds(Queue(s, place), e)
  }

  /** `e` is in the way of one more packet: the store is full, and `e` is expired or among the oldest. */
  ghost predicate InTheWay(q: seq<Entry>, capacity: nat, now: nat, e: Entry) {
    && |q| >= capacity
    && (|| Expired(e, now)
        || exists i :: 0 <= i < |Live(q, now)| - capacity + 1 && i < |Live(q, now)| && Live(q, now)[i].id == e.id)
  }

  /** Every way a packet can leave its store. */
  ghost predicate Leaves(s: State, step: Step, place: Place, e: Entry)
    requires Enabled(s, step)
  {
    match step
    case Acknowledge(k) => s.attempts[k].slot == Slot(place, e.id)
    case PushVolatile(_, _, now, _) => place == InVolatile && InTheWay(s.volatile, s.volatileCapacity, now, e)
    case PushStored(c, id, now, cascade) =>
      && place == InStored && NewRow(id, Client(s, c).packet, Client(s, c).online).Ok?
      && (|| InTheWay(s.stored, s.storedCapacity, now, e)
          || (cascade && PathOf(e.packet) == PathOf(Client(s, c).packet)))
    case Load(p, _, now) => p == place == InVolatile && Expired(e, now)
    case PurgeExpired(p, now) => p == place && Expired(e, now)
    case DeleteInterface(interface, now) =>
      e.packet.interface == interface || (place == InVolatile && Expired(e, now))
    case _ => false
  }

  /** The only way a packet can come into a store. */
  ghost predicate Arrives(s: State, step: Step, place: Place, e: Entry)
    requires Enabled(s, step)
  {
    match step
    case PushVolatile(c, id, now, storeTime) =>
      && place == InVolatile && s.volatileCapacity > 0
      && e.(sent := Client(s, c).online) == NewItem(id, Client(s, c).packet, Client(s, c).online, storeTime)
    case PushStored(c, id, _, _) =>
      && place == InStored
      && NewRow(id, Client(s, c).packet, Client(s, c).online) == Ok(e.(sent := Client(s, c).online))
    case _ => false
  }

  lemma MakeRoomHolds(q: seq<Entry>, capacity: nat, now: nat, e: Entry)
    requires Distinct(q) && |q| <= capacity && capacity > 0
    ensures Holds(MakeRoom(q, capacity, 1, now), e) <==> Holds(q, e) && !InTheWay(q, capacity, now, e)
  {
    if |q| == capacity {
      var live := Live(q, now);
      FilterDistinct(x => !Expired(x, now), q);
      LastNHolds(live, capacity - 1, e);
      assert Holds(live, e) <==> Holds(q, e) && !Expired(e, now);
    }
  }

  lemma LastNHolds(q: seq<Entry>, n: nat, e: Entry)
    requires Distinct(q)
    ensures Holds(LastN(q, n), e) <==> Holds(q, e) && !exists i :: 0 <= i < |q| - n && i < |q| && q[i].id == e.id
  {
    var r := LastN(q, n);
    var cut := |q| - |r|;
    assert r == q[cut..];
    if Holds(q, e) {
      var f := if e.(sent := true) in q then e.(sent := true) else e.(sent := false);
      var i :| 0 <= i < |q| && q[i] == f;
      assert forall j :: 0 <= j < |q| && q[j].id == e.id ==> j == i;
      if i >= cut {
        assert r[i - cut] == f;
      }
    }
  }

  lemma PushVolatileHolds(s: State, c: nat, id: Id, now: nat, storeTime: nat, e: Entry)
    requires Structural(s) && Enabled(s, PushVolatile(c, id, now, storeTime))
    ensures Evolves(s, PushVolatile(c, id, now, storeTime), InVolatile, e)
  {
    if s.volatileCapacity > 0 {
      MakeRoomHolds(s.volatile, s.volatileCapacity, now, e);
    }
  }

  lemma PushStoredHolds(s: State, c: nat, id: Id, now: nat, cascade: bool, e: Entry)
    requires Structural(s) && Enabled(s, PushStored(c, id, now, cascade))
    ensures Evolves(s, PushStored(c, id, now, cascade), InStored, e)
  {
    var row := NewRow(id, Client(s, c).packet, Client(s, c).online);
    if row.Ok? {
      InsertedHolds(s.stored, s.storedCapacity, now, PathOf(Client(s, c).packet), cascade, row.value, e);
    }
  }

  lemma InsertedHolds(q: seq<Entry>, capacity: nat, now: nat, path: Path, cascade: bool, row: Entry, e: Entry)
    requires Sorted(q) && |q| <= capacity && capacity > 0 && !HasId(q, row.id)
    ensures Holds(Inserted(Cascaded(MakeRoom(q, capacity, 1, now), path, cascade), row), e)
       <==> (Holds(q, e) && !InTheWay(q, capacity, now, e) && !(cascade && PathOf(e.packet) == path))
            || e.(sent := row.sent) == row
  {
    var lt := (a, b) => Less(a, b);
    var room := MakeRoom(q, capacity, 1, now);
    SortedDistinct(q);
    MakeRoomHolds(q, capacity, now, e);
    MakeRoomMembers(q, capacity, 1, now);
    MakeRoomOrdered(lt, q, capacity, 1, now);
    FilterOrdered(lt, (r: Entry) => PathOf(r.packet) != path, room);
    InsertedSorted(Cascaded(room, path, cascade), row);
  }

  lemma FlagHolds(q: seq<Entry>, id: Id, sent: bool, e: Entry)
    requires Distinct(q)
    ensures Holds(SetSent(q, id, sent), e) <==> Holds(q, e)
    ensures Holds(ResetSent(q), e) <==> Holds(q, e)
    ensures Holds(Remove(q, id), e) <==> Holds(q, e) && e.id != id
  {
    SetSentMembers(q, id, sent);
    ResetSentMembers(q);
    RemoveMembers(q, id);
  }

  /** What a store retains after a step is what it retained before, less what leaves, plus what arrives. */
  ghost predicate Evolves(s: State, step: Step, place: Place, e: Entry)
    requires Enabled(s, step)
  {
    Retains(Apply(s, step), place, e)
    <==> (Retains(s, place, e) && !Leaves(s, step, place, e)) || Arrives(s, step, place, e)
  }

  lemma FlagStepConserves(s: State, step: Step, place: Place, e: Entry)
    requires Structural(s) && Enabled(s, step)
    requires step.Unflag? || step.TaskUnflag? || step.Mark? || step.Acknowledge? || step.ResetPlace?
    ensures Evolves(s, step, place, e)
  {
    if step.Acknowledge? {
      AcknowledgeConserves(s, step.attempt, place, e);
    } else if step.ResetPlace? {
      ResetConserves(s, step.place, place, e);
    } else {
      FlagUpdateConserves(s, step, place, e);
    }
  }

  lemma FlagUpdateConserves(s: State, step: Step, place: Place, e: Entry)
    requires Structural(s) && Enabled(s, step) && (step.Unflag? || step.TaskUnflag? || step.Mark?)
    ensures Evolves(s, step, place, e)
  {
    SortedDistinct(s.stored);
    var slot := if step.Unflag? then s.attempts[Client(s, step.client).attempt].slot
                else if step.TaskUnflag? then s.attempts[s.task.attempt].slot
                else s.task.buf[0];
    FlagHolds(Queue(s, place), slot.id, step.Mark?, e);
  }

  lemma AcknowledgeConserves(s: State, k: nat, place: Place, e: Entry)
    requires Structural(s) && Enabled(s, Acknowledge(k))
    ensures Evolves(s, Acknowledge(k), place, e)
  {
    SortedDistinct(s.stored);
    FlagHolds(Queue(s, place), s.attempts[k].slot.id, false, e);
  }

  lemma ResetConserves(s: State, reset: Place, place: Place, e: Entry)
    requires Structural(s) && Enabled(s, ResetPlace(reset))
    ensures Evolves(s, ResetPlace(reset), place, e)
  {
    SortedDistinct(s.stored);
    FlagHolds(Queue(s, place), e.id, false, e);
  }

  lemma StepConserves(s: State, step: Step, place: Place, e: Entry)
    requires Structural(s) && Enabled(s, step)
    ensures Evolves(s, step, place, e)
  {
    match step
    case PushVolatile(c, id, now, storeTime) => PushVolatileHolds(s, c, id, now, storeTime, e);
    case PushStored(c, id, now, cascade) => PushStoredHolds(s, c, id, now, cascade, e);
    case Unflag(c) => FlagStepConserves(s, step, place, e);
    case TaskUnflag => FlagStepConserves(s, step, place, e);
    case Mark => FlagStepConserves(s, step, place, e);
    case Acknowledge(k) => FlagStepConserves(s, step, place, e);
    case ResetPlace(_) => FlagStepConserves(s, step, place, e);
    case Load(_, _, _) => FilterStepConserves(s, step, place, e);
    case PurgeExpired(_, _) => FilterStepConserves(s, step, place, e);
    case DeleteInterface(_, _) => FilterStepConserves(s, step, place, e);
    case _ => QuietStepConserves(s, step, place, e);
  }

  lemma QuietStepConserves(s: State, step: Step, place: Place, e: Entry)
    requires Enabled(s, step)
    requires step.Check? || step.Discarded? || step.Deliver? || step.Return? || step.SetDisconnected? || step.SetClosed?
             || step.CancelTask? || step.SpawnTask? || step.TaskReturn? || step.FinishTask?
    ensures Queue(Apply(s, step), place) == Queue(s, place) && Evolves(s, step, place, e)
  {
  }

  lemma FilterStepConserves(s: State, step: Step, place: Place, e: Entry)
    requires Enabled(s, step) && (step.Load? || step.PurgeExpired? || step.DeleteInterface?)
    ensures Evolves(s, step, place, e)
  {
    FilterConserves(s, place, step.now, if step.DeleteInterface? then step.interface else "", e);
  }

  lemma FilterConserves(s: State, place: Place, now: nat, interface: string, e: Entry)
    ensures Holds(Live(Queue(s, place), now), e) <==> Retains(s, place, e) && !Expired(e, now)
    ensures Holds(Outside(Queue(s, place), interface), e) <==> Retains(s, place, e) && e.packet.interface != interface
    ensures Holds(Outside(Live(Queue(s, place), now), interface), e)
       <==> Retains(s, place, e) && !Expired(e, now) && e.packet.interface != interface
  {
  }

  /** The state before step `i` of a run. */
  function At(s: State, steps: seq<Step>, i: nat): State
    requires i <= |steps|
  {
    match Run(s, steps[..i])
    case Some(t) => t
    case None => s
  }

  ghost predicate LeavesAt(s: State, steps: seq<Step>, m: nat, place: Place, e: Entry) {
    && m < |steps| && Enabled(At(s, steps, m), steps[m]) && Leaves(At(s, steps, m), steps[m], place, e)
  }

  lemma AtPrefix(s: State, steps: seq<Step>, n: nat, i: nat)
    requires i <= n <= |steps|
    ensures At(s, steps[..n], i) == At(s, steps, i)
  {
    assert steps[..n][..i] == steps[..i];
  }

  lemma LastStepConserves(s: State, steps: seq<Step>, place: Place, e: Entry)
    requires Initial(s) && Run(s, steps).Some? && steps != []
    requires Retains(At(s, steps, |steps| - 1), place, e)
    ensures Run(s, steps[..|steps| - 1]).Some?
    ensures Retains(Run(s, steps).value, place, e) || LeavesAt(s, steps, |steps| - 1, place, e)
  {
    var n := |steps| - 1;
    SentFlagsAreFounded(s, steps[..n]);
    StepConserves(At(s, steps, n), steps[n], place, e);
  }

  /** A reason for which the packet leaves a shorter run is one in the longer. */
  lemma LeavesEarlier(s: State, steps: seq<Step>, n: nat, m: nat, place: Place, e: Entry)
    requires m < n <= |steps| && LeavesAt(s, steps[..n], m, place, e)
    ensures LeavesAt(s, steps, m, place, e)
  {
    AtPrefix(s, steps, n, m);
  }

  lemma {:induction false} PacketsStayOrLeave(s: State, steps: seq<Step>, i: nat, place: Place, e: Entry)
    returns (m: nat)
    requires Initial(s) && Run(s, steps).Some? && i <= |steps|
    requires Retains(At(s, steps, i), place, e)
    ensures Retains(Run(s, steps).value, place, e) || (i <= m < |steps| && LeavesAt(s, steps, m, place, e))
  {
    m := 0;
    if i == |steps| {
      assert steps[..i] == steps;
    } else {
      var n := |steps| - 1;
      AtPrefix(s, steps, n, i);
      assert Run(s, steps[..n]).Some?;
      m := PacketsStayOrLeave(s, steps[..n], i, place, e);
      if Retains(At(s, steps, n), place, e) {
        LastStepConserves(s, steps, place, e);
        m := n;
      } else {
        LeavesEarlier(s, steps, n, m, place, e);
      }
    }
  }

  /**
   Over any run, a packet retained at some moment is, at every later one, still retained, in one
   store and once, or has left in between for one of the reasons of `Leaves`.
   */
  lemma PacketsAreConserved(s: State, steps: seq<Step>, i: nat, place: Place, e: Entry)
    requires Initial(s) && Run(s, steps).Some? && i <= |steps|
    requires Retains(At(s, steps, i), place, e)
    ensures || (Retains(Run(s, steps).value, place, e) && Unique(Run(s, steps).value, e.id))
            || exists m :: i <= m < |steps| && LeavesAt(s, steps, m, place, e)
  {
    var m := PacketsStayOrLeave(s, steps, i, place, e);
    SentFlagsAreFounded(s, steps);
    StructureIsUnique(Run(s, steps).value, e.id);
  }

  lemma StructureIsUnique(s: State, id: Id)
    requires Structural(s)
    ensures Unique(s, id)
  {
    SortedDistinct(s.stored);
    assert forall i :: 0 <= i < |s.volatile| ==> s.volatile[i] in s.volatile;
    assert forall i :: 0 <= i < |s.stored| ==> s.stored[i] in s.stored;
  }

  /** At most one packet with this id is retained, in one of the stores. */
  ghost predicate Unique(s: State, id: Id) {
    forall p, q, i, j ::
      (0 <= i < |Queue(s, p)| && 0 <= j < |Queue(s, q)| && Queue(s, p)[i].id == id && Queue(s, q)[j].id == id)
      ==> p == q && i == j
  }

  // ---- What aborting the task costs -----------------------------------------------------------------------

  /** No attempt begun since the last reset of its store was cut off. */
  ghost predicate NothingCut(s: State) {
    forall k :: 0 <= k < |s.attempts| ==>
      var a := s.attempts[k];
      a.epoch <= Epoch(s, a.slot.place) && (a.outcome.Cut? ==> a.epoch < Epoch(s, a.slot.place))
  }

  lemma StepCutsNothing(s: State, step: Step)
    requires NothingCut(s) && Enabled(s, step) && !step.CancelTask?
    ensures NothingCut(Apply(s, step))
  {
    if step.Deliver? || step.Return? || step.TaskReturn? {
      OutcomeCutsNothing(s, step);
    } else if step.PushVolatile? || step.PushStored? || step.Mark? {
      BeginCutsNothing(s, step);
    } else {
      QuietStepCutsNothing(s, step);
    }
  }

  lemma OutcomeCutsNothing(s: State, step: Step)
    requires NothingCut(s) && Enabled(s, step) && (step.Deliver? || step.Return? || step.TaskReturn?)
    ensures NothingCut(Apply(s, step))
  {
  }

  lemma BeginCutsNothing(s: State, step: Step)
    requires NothingCut(s) && Enabled(s, step) && (step.PushVolatile? || step.PushStored? || step.Mark?)
    ensures NothingCut(Apply(s, step))
  {
  }

  lemma QuietStepCutsNothing(s: State, step: Step)
    requires NothingCut(s) && Enabled(s, step) && !step.CancelTask?
    requires !(step.Deliver? || step.Return? || step.TaskReturn?)
    requires !(step.PushVolatile? || step.PushStored? || step.Mark?)
    ensures NothingCut(Apply(s, step))
  {
    if !step.ResetPlace? {
      assert Apply(s, step).attempts == s.attempts;
    }
  }

  lemma NothingCutBacks(s: State)
    requires NothingCut(s)
    ensures forall slot, k: nat :: Backs(s, slot, k) ==> !s.attempts[k].outcome.Cut?
  {
  }

  /** The abort leaves an attempt of the current session behind, which the transport has not accepted. */
  predicate Cuts(s: State, step: Step) {
    && step.CancelTask? && (s.task.Resending? || s.task.Clearing?) && s.task.attempt < |s.attempts|
    && var a := s.attempts[s.task.attempt];
       !a.outcome.Accepted? && a.epoch == Epoch(s, a.slot.place)
  }

  lemma StepCutsIff(s: State, step: Step)
    requires NothingCut(s) && Enabled(s, step)
    ensures NothingCut(Apply(s, step)) <==> !Cuts(s, step)
  {
    if !step.CancelTask? {
      StepCutsNothing(s, step);
    } else if Cuts(s, step) {
      assert Apply(s, step).attempts[s.task.attempt].outcome.Cut?;
    }
  }

  /** No state of the run has an attempt that was cut off since the last reset of its store. */
  ghost predicate NeverCut(s: State, steps: seq<Step>) {
    NothingCut(At(s, steps, |steps|)) && (steps != [] ==> NeverCut(s, steps[..|steps| - 1]))
  }

  /** No step of the run is an abort with an attempt in hand. */
  ghost predicate NoStepCuts(s: State, steps: seq<Step>) {
    steps != [] ==>
      var n := |steps| - 1;
      NoStepCuts(s, steps[..n]) && !Cuts(At(s, steps, n), steps[n])
  }

  lemma LastState(s: State, steps: seq<Step>)
    requires Run(s, steps).Some?
    ensures At(s, steps, |steps|) == Run(s, steps).value
    ensures steps != [] ==>
              var n := |steps| - 1;
              && Run(s, steps[..n]) == Some(At(s, steps, n)) && Enabled(At(s, steps, n), steps[n])
              && Run(s, steps).value == Apply(At(s, steps, n), steps[n])
  {
    assert steps[..|steps|] == steps;
  }

  /** In every run attempts are cut off exactly by the aborts that have one in hand. */
  lemma {:induction false} CutRunsIff(s: State, steps: seq<Step>)
    requires NothingCut(s) && Run(s, steps).Some?
    ensures NeverCut(s, steps) <==> NoStepCuts(s, steps)
  {
    LastState(s, steps);
    if steps != [] {
      var n := |steps| - 1;
      CutRunsIff(s, steps[..n]);
      LastState(s, steps[..n]);
      if NeverCut(s, steps[..n]) {
        StepCutsIff(At(s, steps, n), steps[n]);
      }
    }
  }

  /**
   Without such an abort a packet flagged since the resets is backed by an attempt that is open or
   accepted, or that is being taken back.
   */
  lemma {:induction false} OnlyCancelCuts(s: State, steps: seq<Step>)
    requires Structural(s) && SentFlagsBacked(s) && NothingCut(s)
    requires Run(s, steps).Some? && NoStepCuts(s, steps)
    ensures var t := Run(s, steps).value;
            && Structural(t) && SentFlagsBacked(t) && NothingCut(t)
            && forall slot, k: nat :: Backs(t, slot, k) ==> !t.attempts[k].outcome.Cut?
  {
    LastState(s, steps);
    if steps != [] {
      var n := |steps| - 1;
      OnlyCancelCuts(s, steps[..n]);
      var before := At(s, steps, n);
      StepKeepsStructure(before, steps[n]);
      StepKeepsBacking(before, steps[n]);
      StepCutsIff(before, steps[n]);
    }
    NothingCutBacks(Run(s, steps).value);
  }

  // ---- How long a packet that was cut off stays flagged ------------------------------------------------

  ghost predicate Flagged(s: State, slot: Slot) {
    exists e :: e in Queue(s, slot.place) && e.id == slot.id && e.sent
  }

  ghost predicate Unflagged(s: State, slot: Slot) {
    exists e :: e in Queue(s, slot.place) && e.id == slot.id && !e.sent
  }

  predicate On(s: State, k: nat, slot: Slot) {
    k < |s.attempts| && s.attempts[k].slot == slot
  }

  ghost predicate ClientHas(s: State, slot: Slot) {
    exists c :: c in s.clients && (s.clients[c].Sending? || s.clients[c].Unflagging?)
                && On(s, s.clients[c].attempt, slot)
  }

  /** A client, or the task, has the packet in hand. */
  ghost predicate InHand(s: State, slot: Slot) {
    ClientHas(s, slot) || TaskHas(s, slot)
  }

  predicate TaskHas(s: State, slot: Slot) {
    match s.task
    case NoTask => false
    case Holding(buf) => slot in buf
    case Resending(k, buf) => On(s, k, slot) || slot in buf
    case Clearing(k) => On(s, k, slot)
    case Leaving => false
  }

  /** Flagged, with nobody at work on it; or no longer there. */
  ghost predicate Stranded(s: State, slot: Slot) {
    slot.id in s.used && !InHand(s, slot) && !Unflagged(s, slot)
  }

  /** An abort leaves the stores, and what the clients have in hand, and nothing with the task. */
  lemma CancelLeaves(s: State, slot: Slot)
    requires Enabled(s, CancelTask)
    ensures var s' := Apply(s, CancelTask);
            && s'.volatile == s.volatile && s'.stored == s.stored && s'.used == s.used
            && !TaskHas(s', slot) && (ClientHas(s', slot) <==> ClientHas(s, slot))
  {
    var s' := Apply(s, CancelTask);
    assert s'.clients == s.clients && forall k :: On(s', k, slot) <==> On(s, k, slot);
  }

  /** An abort strands a flagged packet that was in hand exactly when no client has it in hand. */
  lemma CancelStrands(s: State, slot: Slot)
    requires Structural(s) && Enabled(s, CancelTask) && InHand(s, slot) && Flagged(s, slot)
    ensures Flagged(Apply(s, CancelTask), slot)
    ensures Stranded(Apply(s, CancelTask), slot) <==> !ClientHas(s, slot)
  {
    CancelLeaves(s, slot);
    SortedDistinct(s.stored);
    OneFlag(Queue(s, slot.place), slot.id);
  }

  lemma OneFlag(q: seq<Entry>, id: Id)
    requires Distinct(q) && exists e :: e in q && e.id == id && e.sent
    ensures !exists e :: e in q && e.id == id && !e.sent
  {
  }

  /** An unsent entry with this id after the step was there, unsent, before it. */
  ghost predicate FreesNothing(s: State, s': State, slot: Slot) {
    forall e :: e in Queue(s', slot.place) && e.id == slot.id && !e.sent ==> e in Queue(s, slot.place)
  }

  lemma PushFreesNothing(s: State, step: Step, slot: Slot)
    requires Structural(s) && Enabled(s, step) && slot.id in s.used && (step.PushVolatile? || step.PushStored?)
    ensures FreesNothing(s, Apply(s, step), slot)
  {
    var p, online := Client(s, step.client).packet, Client(s, step.client).online;
    if step.PushVolatile? {
      PushVolatileKeeps(s, NewItem(step.id, p, online, step.storeTime), step.now);
    } else if NewRow(step.id, p, online).Ok? {
      PushStoredKeeps(s, NewRow(step.id, p, online).value, step.now, PathOf(p), step.cascade);
    }
  }

  lemma FlagFreesNothing(s: State, step: Step, slot: Slot)
    requires Structural(s) && Enabled(s, step) && !InHand(s, slot)
    requires step.Unflag? || step.TaskUnflag? || step.Mark? || step.Acknowledge?
    ensures FreesNothing(s, Apply(s, step), slot)
  {
    SortedDistinct(s.stored);
    var other := if step.Unflag? then s.attempts[Client(s, step.client).attempt].slot
                 else if step.TaskUnflag? then s.attempts[s.task.attempt].slot
                 else if step.Mark? then s.task.buf[0]
                 else s.attempts[step.attempt].slot;
    SetSentMembers(Queue(s, slot.place), other.id, step.Mark?);
    RemoveMembers(Queue(s, slot.place), other.id);
    if step.Unflag? {
      assert On(s, s.clients[step.client].attempt, other);
    }
  }

  lemma OtherFreesNothing(s: State, step: Step, slot: Slot)
    requires Enabled(s, step) && (step.ResetPlace? ==> step.place != slot.place)
    requires !(step.PushVolatile? || step.PushStored? || step.Unflag? || step.TaskUnflag? || step.Mark?
               || step.Acknowledge?)
    ensures FreesNothing(s, Apply(s, step), slot)
  {
  }

  lemma StepFreesNothing(s: State, step: Step, slot: Slot)
    requires Structural(s) && Enabled(s, step) && Stranded(s, slot) && step != ResetPlace(slot.place)
    ensures FreesNothing(s, Apply(s, step), slot)
  {
    if step.PushVolatile? || step.PushStored? {
      PushFreesNothing(s, step, slot);
    } else if step.Unflag? || step.TaskUnflag? || step.Mark? || step.Acknowledge? {
      FlagFreesNothing(s, step, slot);
    } else {
      OtherFreesNothing(s, step, slot);
    }
  }

  /** No process takes the packet in hand: the task loads only what is unsent, and clients push new ids. */
  lemma ClientStepTakesNothing(s: State, step: Step, slot: Slot)
    requires Structural(s) && Enabled(s, step) && Stranded(s, slot)
    requires step.Check? || step.Discarded? || step.Return? || step.Unflag?
    ensures !InHand(Apply(s, step), slot)
  {
    var s' := Apply(s, step);
    assert forall k :: On(s', k, slot) <==> On(s, k, slot);
    assert s'.clients == s.clients[step.client := s'.clients[step.client]] && s'.task == s.task;
  }

  lemma PushTakesNothing(s: State, step: Step, slot: Slot)
    requires Enabled(s, step) && Stranded(s, slot) && (step.PushVolatile? || step.PushStored?)
    ensures !InHand(Apply(s, step), slot)
  {
    var place := if step.PushVolatile? then InVolatile else InStored;
    PushBegins(s, step, place);
    BeginTakesNothing(s, Apply(s, step), step.client, Slot(place, step.id), slot);
  }

  /** A push touches one client, and begins at most the attempt for its own packet. */
  lemma PushBegins(s: State, step: Step, place: Place)
    requires Enabled(s, step) && if place == InVolatile then step.PushVolatile? else step.PushStored?
    ensures Apply(s, step).task == s.task
    ensures var s', k := Apply(s, step), |s.attempts|;
            || (s'.attempts == s.attempts && s'.clients == s.clients[step.client := Idle])
            || (s'.attempts == s.attempts + [Attempt(Slot(place, step.id), Epoch(s, place), Open)]
                && s'.clients == s.clients[step.client := Sending(k)])
  {
  }

  lemma BeginTakesNothing(s: State, s': State, c: nat, begun: Slot, slot: Slot)
    requires !InHand(s, slot) && begun != slot && s'.task == s.task
    requires || (s'.attempts == s.attempts && s'.clients == s.clients[c := Idle])
             || (s'.attempts == s.attempts + [Attempt(begun, Epoch(s, begun.place), Open)]
                 && s'.clients == s.clients[c := Sending(|s.attempts|)])
    ensures !InHand(s', slot)
  {
    assert forall k :: On(s', k, slot) <==> On(s, k, slot);
  }

  lemma LoadTakesNothing(s: State, place: Place, limit: nat, now: nat, slot: Slot)
    requires Structural(s) && Enabled(s, Load(place, limit, now)) && Stranded(s, slot)
    ensures !InHand(Apply(s, Load(place, limit, now)), slot)
  {
    var s' := Apply(s, Load(place, limit, now));
    var batch := FirstN(Unsent(Live(Queue(s, place), now)), limit);
    assert forall k :: On(s', k, slot) <==> On(s, k, slot);
    forall i | 0 <= i < |batch|
      ensures Slots(place, batch)[i] != slot
    {
      var e := batch[i];
      assert e in Unsent(Live(Queue(s, place), now));
      assert e in Queue(s, place) && !e.sent;
    }
  }

  lemma MarkTakesNothing(s: State, slot: Slot)
    requires Enabled(s, Mark) && Stranded(s, slot)
    ensures !InHand(Apply(s, Mark), slot)
  {
    var buf, s' := s.task.buf, Apply(s, Mark);
    assert buf[0] in buf && forall x :: x in buf[1..] ==> x in buf;
    assert forall k :: On(s', k, slot) <==> On(s, k, slot);
  }

  lemma TaskStepTakesNothing(s: State, step: Step, slot: Slot)
    requires Enabled(s, step) && Stranded(s, slot)
    requires step.TaskReturn? || step.TaskUnflag? || step.CancelTask? || step.SpawnTask? || step.FinishTask?
    ensures !InHand(Apply(s, step), slot)
  {
    assert forall k :: On(Apply(s, step), k, slot) <==> On(s, k, slot);
  }

  lemma OtherTakesNothing(s: State, step: Step, slot: Slot)
    requires Enabled(s, step) && !InHand(s, slot)
    requires step.Deliver? || step.Acknowledge? || step.SetDisconnected? || step.SetClosed? || step.ResetPlace?
             || step.PurgeExpired? || step.DeleteInterface?
    ensures !InHand(Apply(s, step), slot)
  {
    assert forall k :: On(Apply(s, step), k, slot) <==> On(s, k, slot);
  }

  lemma StepTakesNothing(s: State, step: Step, slot: Slot)
    requires Structural(s) && Enabled(s, step) && Stranded(s, slot)
    ensures !InHand(Apply(s, step), slot)
  {
    match step
    case Check(_, _) => ClientStepTakesNothing(s, step, slot);
    case Discarded(_) => ClientStepTakesNothing(s, step, slot);
    case Return(_, _) => ClientStepTakesNothing(s, step, slot);
    case Unflag(_) => ClientStepTakesNothing(s, step, slot);
    case PushVolatile(_, _, _, _) => PushTakesNothing(s, step, slot);
    case PushStored(_, _, _, _) => PushTakesNothing(s, step, slot);
    case Load(place, limit, now) => LoadTakesNothing(s, place, limit, now, slot);
    case Mark => MarkTakesNothing(s, slot);
    case TaskReturn(_) => TaskStepTakesNothing(s, step, slot);
    case TaskUnflag => TaskStepTakesNothing(s, step, slot);
    case CancelTask => TaskStepTakesNothing(s, step, slot);
    case SpawnTask => TaskStepTakesNothing(s, step, slot);
    case FinishTask => TaskStepTakesNothing(s, step, slot);
    case _ => OtherTakesNothing(s, step, slot);
  }

  lemma UsedStaysUsed(s: State, step: Step)
    requires Enabled(s, step)
    ensures s.used <= Apply(s, step).used
  {
  }

  /** A stranded packet stays stranded, or goes, until its store is reset. */
  lemma {:induction false} StrandedUntilReset(s: State, steps: seq<Step>, slot: Slot)
    requires Structural(s) && Stranded(s, slot) && Run(s, steps).Some?
    requires forall i :: 0 <= i < |steps| ==> steps[i] != ResetPlace(slot.place)
    ensures Structural(Run(s, steps).value) && Stranded(Run(s, steps).value, slot)
  {
    if steps != [] {
      var n := |steps| - 1;
      StrandedUntilReset(s, steps[..n], slot);
      var t := Run(s, steps[..n]).value;
      StepKeepsStructure(t, steps[n]);
      StepFreesNothing(t, steps[n], slot);
      StepTakesNothing(t, steps[n], slot);
      UsedStaysUsed(t, steps[n]);
    }
  }

  /** The next reset of its store frees it, if it is still retained by then. */
  lemma ResetFreesStranded(s: State, steps: seq<Step>, slot: Slot)
    requires Structural(s) && Stranded(s, slot) && Run(s, steps + [ResetPlace(slot.place)]).Some?
    requires forall i :: 0 <= i < |steps| ==> steps[i] != ResetPlace(slot.place)
    ensures Run(s, steps).Some?
    ensures var t, u := Run(s, steps).value, Run(s, steps + [ResetPlace(slot.place)]).value;
            !Unflagged(t, slot) && (Flagged(t, slot) <==> Unflagged(u, slot))
  {
    var all := steps + [ResetPlace(slot.place)];
    assert all[..|steps|] == steps && all[|steps|] == ResetPlace(slot.place);
    StrandedUntilReset(s, steps, slot);
    ResetUnflags(Run(s, steps).value, slot);
  }

  lemma ResetUnflags(t: State, slot: Slot)
    requires Enabled(t, ResetPlace(slot.place)) && !Unflagged(t, slot)
    ensures Flagged(t, slot) <==> Unflagged(Apply(t, ResetPlace(slot.place)), slot)
  {
    var q, u := Queue(t, slot.place), Apply(t, ResetPlace(slot.place));
    ResetSentMembers(q);
    assert Queue(u, slot.place) == ResetSent(q);
    if e :| e in q && e.id == slot.id && e.sent {
      assert Holds(q, e.(sent := false));
      assert e.(sent := false) in Queue(u, slot.place);
    }
    if e :| e in Queue(u, slot.place) && e.id == slot.id && !e.sent {
      assert Holds(q, e);
      assert e.(sent := true) in q || e.(sent := false) in q;
    }
  }

  // ---- A run that leaves a packet stranded --------------------------------------------------------------

  /** An offline packet is loaded and flagged; the task is aborted; the next one finds the session again. */
  function CutScript(p: Packet, id: Id): seq<Step> {
    [Check(0, p), PushVolatile(0, id, 0, 0), SpawnTask, Load(InVolatile, 1, 0), Mark, CancelTask,
     SetDisconnected, SpawnTask, Load(InVolatile, 1, 0), FinishTask]
  }

  function CutState(s: State, p: Packet, id: Id, i: nat): State {
    var slot, e := Slot(InVolatile, id), Entry(id, false, None, p);
    var queued := s.(clients := map[0 := Idle], volatile := [e], used := s.used + {id});
    var cut := queued.(volatile := [e.(sent := true)], attempts := [Attempt(slot, s.volatileEpoch, Cut)]);
    if i == 0 then s
    else if i == 1 then s.(clients := map[0 := Checked(p, false)])
    else if i == 2 then queued
    else if i == 3 then queued.(task := Holding([]))
    else if i == 4 then queued.(task := Holding([slot]))
    else if i == 5 then cut.(task := Resending(0, []), attempts := [Attempt(slot, s.volatileEpoch, Open)])
    else if i == 6 then cut
    else if i == 7 then cut.(status := Disconnected)
    else if i <= 9 then cut.(status := Disconnected, task := Holding([]))
    else cut.(status := Connected)
  }

  ghost predicate CutStart(s: State, p: Packet, id: Id) {
    && Initial(s) && s.clients == map[0 := Idle] && !s.status.Connected? && s.volatileCapacity == 1
    && p.retention == Volatile(None) && id !in s.used
  }

  /** The queue with one item, seen by each operation of the script. */
  lemma OneItem(e: Entry)
    requires e.deadline == None && !e.sent
    ensures Live([e], 0) == [e] && Live([e.(sent := true)], 0) == [e.(sent := true)]
    ensures Unsent([e]) == [e] && Unsent([e.(sent := true)]) == []
    ensures SetSent([e], e.id, true) == [e.(sent := true)]
    ensures Slots(InVolatile, [e]) == [Slot(InVolatile, e.id)] && Slots(InVolatile, []) == []
  {
  }

  lemma CutStepPush(s: State, p: Packet, id: Id, i: nat)
    requires CutStart(s, p, id) && i < 2
    ensures Enabled(CutState(s, p, id, i), CutScript(p, id)[i])
    ensures Apply(CutState(s, p, id, i), CutScript(p, id)[i]) == CutState(s, p, id, i + 1)
  {
  }

  lemma CutStepLoad(s: State, p: Packet, id: Id, i: nat)
    requires CutStart(s, p, id) && 2 <= i < 4
    ensures Enabled(CutState(s, p, id, i), CutScript(p, id)[i])
    ensures Apply(CutState(s, p, id, i), CutScript(p, id)[i]) == CutState(s, p, id, i + 1)
  {
    OneItem(Entry(id, false, None, p));
  }

  lemma CutStepCut(s: State, p: Packet, id: Id, i: nat)
    requires CutStart(s, p, id) && 4 <= i < 6
    ensures Enabled(CutState(s, p, id, i), CutScript(p, id)[i])
    ensures Apply(CutState(s, p, id, i), CutScript(p, id)[i]) == CutState(s, p, id, i + 1)
  {
    OneItem(Entry(id, false, None, p));
    assert [Slot(InVolatile, id)][1..] == [];
  }

  lemma CutStepLost(s: State, p: Packet, id: Id, i: nat)
    requires CutStart(s, p, id) && 6 <= i < 10
    ensures Enabled(CutState(s, p, id, i), CutScript(p, id)[i])
    ensures Apply(CutState(s, p, id, i), CutScript(p, id)[i]) == CutState(s, p, id, i + 1)
  {
    OneItem(Entry(id, false, None, p));
  }

  lemma {:induction false} CutRun(s: State, p: Packet, id: Id, i: nat)
    requires CutStart(s, p, id) && i <= 10
    ensures Run(s, CutScript(p, id)[..i]) == Some(CutState(s, p, id, i))
  {
    if i > 0 {
      var n := i - 1;
      CutRun(s, p, id, n);
      if n < 2 {
        CutStepPush(s, p, id, n);
      } else if n < 4 {
        CutStepLoad(s, p, id, n);
      } else if n < 6 {
        CutStepCut(s, p, id, n);
      } else {
        CutStepLost(s, p, id, n);
      }
      RunMore(s, CutScript(p, id)[..n], CutState(s, p, id, n), CutScript(p, id)[n]);
      assert CutScript(p, id)[..i] == CutScript(p, id)[..n] + [CutScript(p, id)[n]];
    }
  }

  /**
   A run that ends connected, with every client idle and no task, on a packet that never expires, is
   flagged as sent, and whose only attempt was cut off: the reconnection found its session, so nothing
   reset the flag, and the next resend did not load the packet.
   */
  lemma CutPacketStaysFlagged(s: State, p: Packet, id: Id)
    requires CutStart(s, p, id)
    ensures Run(s, CutScript(p, id)).Some? && forall i :: 0 <= i < 10 ==> !CutScript(p, id)[i].ResetPlace?
    ensures var t := Run(s, CutScript(p, id)).value;
            && t.status.Connected? && AllIdle(t)
            && t.volatile == [Entry(id, true, None, p)]
            && t.attempts == [Attempt(Slot(InVolatile, id), s.volatileEpoch, Cut)]
            && Stranded(t, Slot(InVolatile, id)) && Flagged(t, Slot(InVolatile, id))
  {
    CutRun(s, p, id, 10);
    assert CutScript(p, id)[..10] == CutScript(p, id);
    assert Entry(id, true, None, p) in [Entry(id, true, None, p)];
  }
}
