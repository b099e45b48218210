/** The pool of database connections, interleaved at every `.await` (src/store/sqlite/pool.rs). */
module ConnectionPool {
  import opened Basics

  /** Where a call of `acquire_reader` is, from the permit it got to the permit it gives back. */
  datatype Reader =
    | Permitted
    | Popped(front: Option<nat>)
    | Open(conn: nat)
    | Returning(conn: nat)
    | Done

  /** `zombies` are connections of blocking closures whose caller was dropped; `created` numbers connections. */
  datatype Pool = Pool(max: nat, permits: nat, queue: seq<nat>, tasks: map<nat, Reader>, zombies: set<nat>,
                       created: nat)

  datatype Step =
    | Acquire(task: nat)
    | Pop(task: nat)
    | Connect(task: nat, ok: bool)
    | Finish(task: nat, panics: bool)
    | PushBack(task: nat)
    | Release(task: nat)
    | Cancel(task: nat)
    | ZombieEnds(conn: nat)

  predicate Enabled(s: Pool, cancellable: bool, step: Step) {
    match step
    case Acquire(t) => t !in s.tasks && s.permits > 0
    case Pop(t) => t in s.tasks && s.tasks[t].Permitted?
    case Connect(t, ok) => t in s.tasks && s.tasks[t].Popped? && (s.tasks[t].front.Some? ==> ok)
    case Finish(t, _) => t in s.tasks && s.tasks[t].Open?
    case PushBack(t) => t in s.tasks && s.tasks[t].Returning?
    case Release(t) => t in s.tasks && s.tasks[t].Done?
    case Cancel(t) => cancellable && t in s.tasks
    case ZombieEnds(c) => c in s.zombies
  }

  /** The call is over, and its permit goes back. */
  function End(s: Pool, t: nat): Pool {
    s.(tasks := s.tasks - {t}, permits := s.permits + 1)
  }

  function At(s: Pool, t: nat, r: Reader): Pool {
    s.(tasks := s.tasks[t := r])
  }

  function Apply(s: Pool, cancellable: bool, step: Step): Pool
    requires Enabled(s, cancellable, step)
  {
    match step
    case Acquire(t) => At(s, t, Permitted).(permits := s.permits - 1)
    case Pop(t) =>
      if s.queue == [] then At(s, t, Popped(None)) else At(s, t, Popped(Some(s.queue[0]))).(queue := s.queue[1..])
    case Connect(t, ok) =>
      (match s.tasks[t].front
       case Some(c) => At(s, t, Open(c))
       case None => if ok then At(s, t, Open(s.created)).(created := s.created + 1) else End(s, t))
    case Finish(t, panics) => if panics then End(s, t) else At(s, t, Returning(s.tasks[t].conn))
    case PushBack(t) => At(s, t, Done).(queue := s.queue + [s.tasks[t].conn])
    case Release(t) => End(s, t)
    case Cancel(t) =>
      (match s.tasks[t]
       case Popped(Some(c)) => End(s, t).(zombies := s.zombies + {c})
       case Popped(None) => End(s, t).(zombies := s.zombies + {s.created}, created := s.created + 1)
       case Open(c) => End(s, t).(zombies := s.zombies + {c})
       case _ => End(s, t))
    case ZombieEnds(c) => s.(zombies := s.zombies - {c})
  }

  function Run(s: Pool, cancellable: bool, steps: seq<Step>): Option<Pool> {
    if steps == [] then Some(s)
    else
      var n := |steps| - 1;
      match Run(s, cancellable, steps[..n])
      case None => None
      case Some(t) => if Enabled(t, cancellable, steps[n]) then Some(Apply(t, cancellable, steps[n])) else None
  }

  function Initial(max: nat): Pool {
    Pool(max, max, [], map[], {}, 0)
  }

  // ---- The bound ----------------------------------------------------------------------------------

  predicate HasConnection(r: Reader) {
    match r
    case Popped(c) => c.Some?
    case Open(_) => true
    case Returning(_) => true
    case _ => false
  }

  function InUse(tasks: map<nat, Reader>): set<nat> {
    set t | t in tasks && HasConnection(tasks[t])
  }

  /** Read connections that exist: queued, in use, or held by a closure without a caller. */
  function Connections(s: Pool): nat {
    |s.queue| + |InUse(s.tasks)| + |s.zombies|
  }

  /** Between taking from the queue and giving back. */
  function Busy(tasks: map<nat, Reader>): set<nat> {
    set t | t in tasks && (HasConnection(tasks[t]) || tasks[t].Popped?)
  }

  ghost predicate Inv(s: Pool) {
    && s.permits + |s.tasks| == s.max
    && |s.queue| + |Busy(s.tasks)| <= s.max
    && s.zombies == {}
  }

  lemma BusyWithin(tasks: map<nat, Reader>)
    ensures |InUse(tasks)| <= |Busy(tasks)| <= |tasks|
  {
    Within(InUse(tasks), Busy(tasks));
    Within(Busy(tasks), tasks.Keys);
  }

  lemma Within(a: set<nat>, b: set<nat>)
    requires a <= b
    ensures |a| <= |b|
  {
    assert b == a + (b - a);
  }

  /** Moving one task changes the busy set by that task alone. */
  lemma BusyAt(tasks: map<nat, Reader>, t: nat, r: Reader)
    ensures Busy(tasks[t := r]) == if HasConnection(r) || r.Popped? then Busy(tasks) + {t} else Busy(tasks) - {t}
    ensures Busy(tasks - {t}) == Busy(tasks) - {t}
    ensures t in tasks ==> tasks[t := r].Keys == tasks.Keys && (tasks - {t}).Keys == tasks.Keys - {t}
    ensures t !in tasks ==> tasks[t := r].Keys == tasks.Keys + {t}
  {
  }

  lemma StepKeeps(s: Pool, step: Step)
    requires Inv(s) && Enabled(s, false, step)
    ensures Inv(Apply(s, false, step)) && Apply(s, false, step).max == s.max
  {
    var s' := Apply(s, false, step);
    match step {
      case Acquire(t) => BusyAt(s.tasks, t, Permitted);
      case Pop(t) =>
        BusyAt(s.tasks, t, s'.tasks[t]);
        BusyWithin(s'.tasks);
      case Connect(t, ok) => BusyAt(s.tasks, t, Open(0)); if t in s'.tasks { BusyAt(s.tasks, t, s'.tasks[t]); }
      case Finish(t, panics) => BusyAt(s.tasks, t, Returning(s.tasks[t].conn));
      case PushBack(t) => BusyAt(s.tasks, t, Done);
      case Release(t) => BusyAt(s.tasks, t, Done);
    }
  }

  lemma {:induction false} RunKeeps(max: nat, steps: seq<Step>)
    ensures var s := Run(Initial(max), false, steps);
            s.Some? ==> Inv(s.value) && s.value.max == max && Connections(s.value) <= max
  {
    if steps == [] {
      assert Busy(map[]) == {} && InUse(map[]) == {};
    } else {
      var n := |steps| - 1;
      RunKeeps(max, steps[..n]);
      var s := Run(Initial(max), false, steps[..n]);
      if s.Some? && Enabled(s.value, false, steps[n]) {
        StepKeeps(s.value, steps[n]);
        BusyWithin(Apply(s.value, false, steps[n]).tasks);
      }
    }
  }

  /** `n` calls, each dropped while its closure runs. */
  function Abandoned(n: nat): (r: seq<Step>)
    ensures |r| == 3 * n
  {
    if n == 0 then [] else Abandoned(n - 1) + [Acquire(0), Pop(0), Cancel(0)]
  }

  lemma RunMore(s: Pool, cancellable: bool, steps: seq<Step>, step: Step)
    requires Run(s, cancellable, steps).Some? && Enabled(Run(s, cancellable, steps).value, cancellable, step)
    ensures Run(s, cancellable, steps + [step]) == Some(Apply(Run(s, cancellable, steps).value, cancellable, step))
  {
    assert (steps + [step])[..|steps|] == steps;
  }

  lemma {:induction false} AbandonedPileUp(max: nat, n: nat)
    requires max > 0
    ensures var s := Run(Initial(max), true, Abandoned(n));
            s.Some? && s.value.permits == max && s.value.queue == [] && s.value.tasks == map[]
            && |s.value.zombies| == n && (forall c :: c in s.value.zombies ==> c < s.value.created)
  {
    if n > 0 {
      AbandonedPileUp(max, n - 1);
      OneMoreAbandoned(Initial(max), Abandoned(n - 1), max);
      assert Abandoned(n) == Abandoned(n - 1) + [Acquire(0)] + [Pop(0)] + [Cancel(0)];
    }
  }

  /** A caller opens a connection for the free permit it got, and is dropped. */
  lemma OneMoreAbandoned(s: Pool, steps: seq<Step>, max: nat)
    requires max > 0 && Run(s, true, steps).Some?
    requires var t := Run(s, true, steps).value; t.permits == max && t.queue == [] && t.tasks == map[]
    requires var t := Run(s, true, steps).value; forall c :: c in t.zombies ==> c < t.created
    ensures var t, u := Run(s, true, steps).value, Run(s, true, steps + [Acquire(0)] + [Pop(0)] + [Cancel(0)]);
            u.Some? && u.value.permits == max && u.value.queue == [] && u.value.tasks == map[]
            && |u.value.zombies| == |t.zombies| + 1 && (forall c :: c in u.value.zombies ==> c < u.value.created)
  {
    RunMore(s, true, steps, Acquire(0));
    RunMore(s, true, steps + [Acquire(0)], Pop(0));
    RunMore(s, true, steps + [Acquire(0)] + [Pop(0)], Cancel(0));
  }

  /**
   In every run the read connections stay within the limit, exactly when no call of `acquire_reader` is
   dropped half-way: its permit would come back while its connection is still in use.
   */
  lemma BoundedIff(max: nat, cancellable: bool)
    requires max > 0
    ensures !cancellable
       <==> forall steps: seq<Step> ::
              var s := Run(Initial(max), cancellable, steps); s.Some? ==> Connections(s.value) <= max
  {
    if !cancellable {
      forall steps: seq<Step>
        ensures var s := Run(Initial(max), cancellable, steps); s.Some? ==> Connections(s.value) <= max
      {
        RunKeeps(max, steps);
      }
    } else {
      AbandonedPileUp(max, max + 1);
      assert Connections(Run(Initial(max), cancellable, Abandoned(max + 1)).value) > max;
    }
  }

  // ---- No connection is in two places -------------------------------------------------------------

  /** The connection a task has. */
  function ConnOf(r: Reader): Option<nat> {
    match r
    case Popped(c) => c
    case Open(c) => Some(c)
    case Returning(c) => Some(c)
    case _ => None
  }

  ghost predicate Separate(s: Pool) {
    && (forall i, j :: 0 <= i < j < |s.queue| ==> s.queue[i] != s.queue[j])
    && (forall c :: c in s.queue ==> c < s.created && c !in s.zombies)
    && (forall c :: c in s.zombies ==> c < s.created)
    && (forall t :: t in s.tasks && ConnOf(s.tasks[t]).Some? ==>
          var c := ConnOf(s.tasks[t]).value; c < s.created && c !in s.queue && c !in s.zombies)
    && (forall t, u :: t in s.tasks && u in s.tasks && t != u && ConnOf(s.tasks[t]).Some? ==>
          ConnOf(s.tasks[t]) != ConnOf(s.tasks[u]))
  }

  lemma StepSeparates(s: Pool, cancellable: bool, step: Step)
    requires Separate(s) && Enabled(s, cancellable, step)
    ensures Separate(Apply(s, cancellable, step))
  {
    match step {
      case Acquire(t) => Moves(s, t, Apply(s, cancellable, step));
      case Pop(t) => PopSeparates(s, t);
      case Connect(t, ok) => Moves(s, t, Apply(s, cancellable, step));
      case Finish(t, panics) => Moves(s, t, Apply(s, cancellable, step));
      case PushBack(t) => PushSeparates(s, t);
      case Release(t) => Moves(s, t, Apply(s, cancellable, step));
      case Cancel(t) => Moves(s, t, Apply(s, cancellable, step));
      case ZombieEnds(c) =>
    }
  }

  ghost predicate SameBut(s: Pool, t: nat, s': Pool) {
    forall u :: u != t ==> (u in s'.tasks <==> u in s.tasks) && (u in s.tasks ==> s'.tasks[u] == s.tasks[u])
  }

  /** The task keeps its connection, gets a new one, drops it or leaves it to a zombie. */
  lemma Moves(s: Pool, t: nat, s': Pool)
    requires Separate(s) && SameBut(s, t, s') && s'.queue == s.queue && s.created <= s'.created
    requires var before := if t in s.tasks then ConnOf(s.tasks[t]) else None;
             var after := if t in s'.tasks then ConnOf(s'.tasks[t]) else None;
             || (s'.zombies == s.zombies && (after == before || after == None))
             || (s'.zombies == s.zombies && after == Some(s.created) && s'.created == s.created + 1)
             || (after == None && before.Some? && s'.zombies == s.zombies + {before.value})
             || (after == None && s'.zombies == s.zombies + {s.created} && s'.created == s.created + 1)
    ensures Separate(s')
  {
  }

  lemma PopSeparates(s: Pool, t: nat)
    requires Separate(s) && t in s.tasks && s.tasks[t].Permitted?
    ensures Separate(Apply(s, false, Pop(t)))
  {
    if s.queue != [] {
      var rest := s.queue[1..];
      assert forall i :: 0 <= i < |rest| ==> rest[i] == s.queue[i + 1] && rest[i] in s.queue;
      assert s.queue[0] in s.queue && s.queue[0] !in rest;
    }
  }

  lemma PushSeparates(s: Pool, t: nat)
    requires Separate(s) && t in s.tasks && s.tasks[t].Returning?
    ensures Separate(Apply(s, false, PushBack(t)))
  {
  }

  /** No two closures ever run on one connection, not even the ones left behind by dropped calls. */
  lemma {:induction false} NeverShared(max: nat, cancellable: bool, steps: seq<Step>)
    ensures var s := Run(Initial(max), cancellable, steps); s.Some? ==> Separate(s.value)
  {
    if steps != [] {
      var n := |steps| - 1;
      NeverShared(max, cancellable, steps[..n]);
      var s := Run(Initial(max), cancellable, steps[..n]);
      if s.Some? && Enabled(s.value, cancellable, steps[n]) {
        StepSeparates(s.value, cancellable, steps[n]);
      }
    }
  }

  // ---- The write connection -----------------------------------------------------------------------

  const DEFAULT_STORE_CAPACITY: nat := 1_000_000

  /** Where the call of `acquire_writer` that has the lock is; a connection is known by its capacity. */
  datatype Holder = Nobody | Locked | Took(slot: Option<nat>) | Writing(capacity: nat)

  /** `configured` is the last capacity that was set. */
  datatype Writer = Writer(slot: Option<nat>, holder: Holder, zombies: nat, configured: nat)

  datatype WriterStep =
    | Lock
    | Take
    | Ready(ok: bool)
    | Configure(capacity: nat)
    | Return(panics: bool)
    | Drop
    | LeftoverEnds

  /** `cancellable`: callers may be dropped; `panicky`: closures may panic. */
  predicate CanWrite(s: Writer, cancellable: bool, panicky: bool, step: WriterStep) {
    match step
    case Lock => s.holder.Nobody?
    case Take => s.holder.Locked?
    case Ready(ok) => s.holder.Took? && (s.holder.slot.Some? ==> ok)
    case Configure(_) => s.holder.Writing?
    case Return(panics) => s.holder.Writing? && (panics ==> panicky)
    case Drop => cancellable && !s.holder.Nobody?
    case LeftoverEnds => s.zombies > 0
  }

  function Write(s: Writer, cancellable: bool, panicky: bool, step: WriterStep): Writer
    requires CanWrite(s, cancellable, panicky, step)
  {
    match step
    case Lock => s.(holder := Locked)
    case Take => s.(holder := Took(s.slot), slot := None)
    case Ready(ok) =>
      (match s.holder.slot
       case Some(c) => s.(holder := Writing(c))
       case None => s.(holder := if ok then Writing(DEFAULT_STORE_CAPACITY) else Nobody))
    case Configure(c) => s.(holder := Writing(c), configured := c)
    case Return(panics) => s.(holder := Nobody, slot := if panics then None else Some(s.holder.capacity))
    case Drop => s.(holder := Nobody, zombies := s.zombies + if s.holder.Locked? then 0 else 1)
    case LeftoverEnds => s.(zombies := s.zombies - 1)
  }

  function Writes(cancellable: bool, panicky: bool, steps: seq<WriterStep>): Option<Writer> {
    if steps == [] then Some(Writer(None, Nobody, 0, DEFAULT_STORE_CAPACITY))
    else
      var n := |steps| - 1;
      match Writes(cancellable, panicky, steps[..n])
      case None => None
      case Some(s) =>
        if CanWrite(s, cancellable, panicky, steps[n]) then Some(Write(s, cancellable, panicky, steps[n])) else None
  }

  function Writers(s: Writer): nat {
    (if s.slot.Some? then 1 else 0) + (if s.holder.Writing? || (s.holder.Took? && s.holder.slot.Some?) then 1 else 0)
    + s.zombies
  }

  /** Any write connection at hand has the capacity that was set last. */
  predicate KeepsCapacity(s: Writer) {
    && (s.slot.Some? ==> s.slot.value == s.configured)
    && (s.holder.Writing? ==> s.holder.capacity == s.configured)
    && (s.holder.Took? && s.holder.slot.Some? ==> s.holder.slot.value == s.configured)
  }

  ghost predicate WriterInv(s: Writer) {
    && s.zombies == 0 && (s.slot.Some? ==> s.holder.Nobody? || s.holder.Locked?)
  }

  lemma {:induction false} WritersKeep(panicky: bool, steps: seq<WriterStep>)
    ensures var s := Writes(false, panicky, steps);
            s.Some? ==>
              && WriterInv(s.value)
              && (!panicky ==> KeepsCapacity(s.value))
              && (!panicky && s.value.slot.None? && !s.value.holder.Writing?
                  && (s.value.holder.Took? ==> s.value.holder.slot.None?)
                  ==> s.value.configured == DEFAULT_STORE_CAPACITY)
  {
    if steps != [] {
      WritersKeep(panicky, steps[..|steps| - 1]);
    }
  }

  lemma WritesMore(cancellable: bool, panicky: bool, steps: seq<WriterStep>, step: WriterStep)
    requires Writes(cancellable, panicky, steps).Some?
    requires CanWrite(Writes(cancellable, panicky, steps).value, cancellable, panicky, step)
    ensures Writes(cancellable, panicky, steps + [step])
         == Some(Write(Writes(cancellable, panicky, steps).value, cancellable, panicky, step))
  {
    assert (steps + [step])[..|steps|] == steps;
  }

  /** A call that gets the connection and changes the capacity to 1. */
  const SETS_ONE: seq<WriterStep> := [] + [Lock] + [Take] + [Ready(true)] + [Configure(1)]

  lemma SetsOne(cancellable: bool, panicky: bool)
    ensures Writes(cancellable, panicky, SETS_ONE) == Some(Writer(None, Writing(1), 0, 1))
  {
    WritesMore(cancellable, panicky, [], Lock);
    WritesMore(cancellable, panicky, [] + [Lock], Take);
    WritesMore(cancellable, panicky, [] + [Lock] + [Take], Ready(true));
    WritesMore(cancellable, panicky, [] + [Lock] + [Take] + [Ready(true)], Configure(1));
  }

  /** There is at most one write connection in every run exactly when no caller is dropped. */
  lemma OneWriterIff(cancellable: bool, panicky: bool)
    ensures !cancellable
       <==> forall steps: seq<WriterStep> ::
              var s := Writes(cancellable, panicky, steps); s.Some? ==> Writers(s.value) <= 1
  {
    if !cancellable {
      forall steps: seq<WriterStep>
        ensures var s := Writes(cancellable, panicky, steps); s.Some? ==> Writers(s.value) <= 1
      {
        WritersKeep(panicky, steps);
      }
    } else {
      SetsOne(cancellable, panicky);
      WritesMore(cancellable, panicky, SETS_ONE, Drop);
      Reopened(cancellable, panicky, SETS_ONE + [Drop]);
      assert Writers(Writes(cancellable, panicky, SETS_ONE + [Drop] + [Lock] + [Take] + [Ready(true)]).value) == 2;
    }
  }

  lemma Reopened(cancellable: bool, panicky: bool, steps: seq<WriterStep>)
    requires Writes(cancellable, panicky, steps).Some?
    requires var s := Writes(cancellable, panicky, steps).value; s.holder.Nobody? && s.slot.None?
    ensures Writes(cancellable, panicky, steps + [Lock] + [Take] + [Ready(true)])
         == Some(Writes(cancellable, panicky, steps).value.(holder := Writing(DEFAULT_STORE_CAPACITY)))
  {
    WritesMore(cancellable, panicky, steps, Lock);
    WritesMore(cancellable, panicky, steps + [Lock], Take);
    WritesMore(cancellable, panicky, steps + [Lock] + [Take], Ready(true));
  }

  /** The capacity that was set stays in force in every run exactly when no connection is ever lost. */
  lemma CapacityKeptIff(cancellable: bool, panicky: bool)
    ensures !cancellable && !panicky
       <==> forall steps: seq<WriterStep> ::
              var s := Writes(cancellable, panicky, steps); s.Some? ==> KeepsCapacity(s.value)
  {
    if !cancellable && !panicky {
      forall steps: seq<WriterStep>
        ensures var s := Writes(cancellable, panicky, steps); s.Some? ==> KeepsCapacity(s.value)
      {
        WritersKeep(panicky, steps);
      }
    } else {
      var lost := if cancellable then Drop else Return(true);
      SetsOne(cancellable, panicky);
      WritesMore(cancellable, panicky, SETS_ONE, lost);
      Reopened(cancellable, panicky, SETS_ONE + [lost]);
      assert !KeepsCapacity(Writes(cancellable, panicky, SETS_ONE + [lost] + [Lock] + [Take] + [Ready(true)]).value);
    }
  }
}
