/** The reader-writer lock of the extension (packages/databricks-vscode/src/locking/RWLock.ts
    on top of Mutex.ts), for any number of readers and writers in any order. Each
    step runs a handler from one await to the next. */
module RwLock {
  import opened Wrappers

  datatype Party = Reader(index: nat) | Writer(index: nat)

  /** A mutex whose `wait` has returned for `holder`, and the waiters in order. */
  datatype Lock = Lock(holder: Option<Party>, queue: seq<Party>) {

    function Wait(p: Party): Lock {
      if holder.Some? then this.(queue := queue + [p]) else this.(holder := Some(p))
    }

    function Signal(): Lock {
      if queue == [] then Lock(None, []) else Lock(Some(queue[0]), queue[1..])
    }
  }

  class Mutex {
    var waitQueue: seq<Party>
    var isLocked: bool
    /** Who has it; the source knows only that somebody does. */
    ghost var holder: Option<Party>

    ghost predicate Valid()
      reads this
    {
      (isLocked <==> holder.Some?) && (!isLocked ==> waitQueue == [])
    }

    ghost function Abstract(): Lock
      reads this
    {
      Lock(holder, waitQueue)
    }

    constructor ()
      ensures Valid() && Abstract() == Lock(None, [])
    {
      waitQueue, isLocked, holder := [], false, None;
    }

    /** Whether the caller goes on at once. */
    method Wait(p: Party) returns (granted: bool)
      requires Valid()
      modifies this
      ensures Valid() && Abstract() == old(Abstract()).Wait(p)
      ensures granted <==> old(holder).None?
    {
      granted := !isLocked;
      if isLocked {
        waitQueue := waitQueue + [p];
      } else {
        isLocked, holder := true, Some(p);
      }
    }

    /** The waiter that goes on, if there is one. */
    method Signal() returns (next: Option<Party>)
      requires Valid()
      modifies this
      ensures Valid() && Abstract() == old(Abstract()).Signal() && next == holder
    {
      if waitQueue != [] {
        next, waitQueue := Some(waitQueue[0]), waitQueue[1..];
      } else {
        next, isLocked := None, false;
      }
      holder := next;
    }
  }

  // -------------------------------------------------------------- the handlers

  /** A reader waits for the gate (`readerMutex`) on its way in, waits for the lock
      (`writerMutex`) with the gate held, is inside, waits for the gate on its way
      out, or has left. */
  datatype ReaderAt = Entering | Locking | Inside | Leaving | Left

  /** A writer passes the gate, waits for the lock, and is done. */
  datatype WriterAt = AtGate | AtLock | Closed

  /** `since` (no part of the source's state) says how many readers had come before
      each writer. */
  datatype State = State(
    gate: Lock, lock: Lock, count: nat, readers: seq<ReaderAt>, writers: seq<WriterAt>, since: seq<nat>)

  datatype Step =
    | Arrive
    | Enter(i: nat)
    | Acquire(i: nat)
    | Work(i: nat)
    | Leave(i: nat)
    | ArriveWriter
    | PassGate(w: nat)
    | WorkWriter(w: nat)

  const START := State(Lock(None, []), Lock(None, []), 0, [], [], [])

  predicate Allowed(s: State, step: Step) {
    match step
    case Arrive => true
    case Enter(i) => i < |s.readers| && s.readers[i].Entering? && s.gate.holder == Some(Reader(i))
    case Acquire(i) => i < |s.readers| && s.readers[i].Locking? && s.lock.holder == Some(Reader(i))
    case Work(i) => i < |s.readers| && s.readers[i].Inside?
    case Leave(i) => i < |s.readers| && s.readers[i].Leaving? && s.gate.holder == Some(Reader(i)) && s.count > 0
    case ArriveWriter => true
    case PassGate(w) => w < |s.writers| && s.writers[w].AtGate? && s.gate.holder == Some(Writer(w))
    case WorkWriter(w) => w < |s.writers| && s.writers[w].AtLock? && s.lock.holder == Some(Writer(w))
  }

  function Next(s: State, step: Step): State
    requires Allowed(s, step)
  {
    match step
    case Arrive => s.(readers := s.readers + [Entering], gate := s.gate.Wait(Reader(|s.readers|)))
    case Enter(i) =>
      if s.count == 0 then
        s.(count := 1, readers := s.readers[i := Locking], lock := s.lock.Wait(Reader(i)))
      else
        s.(count := s.count + 1, readers := s.readers[i := Inside], gate := s.gate.Signal())
    case Acquire(i) => s.(readers := s.readers[i := Inside], gate := s.gate.Signal())
    case Work(i) => s.(readers := s.readers[i := Leaving], gate := s.gate.Wait(Reader(i)))
    case Leave(i) =>
      s.(count := s.count - 1, readers := s.readers[i := Left],
         lock := if s.count == 1 then s.lock.Signal() else s.lock, gate := s.gate.Signal())
    case ArriveWriter =>
      s.(writers := s.writers + [AtGate], since := s.since + [|s.readers|], gate := s.gate.Wait(Writer(|s.writers|)))
    case PassGate(w) => s.(writers := s.writers[w := AtLock], gate := s.gate.Signal(), lock := s.lock.Wait(Writer(w)))
    case WorkWriter(w) => s.(writers := s.writers[w := Closed], lock := s.lock.Signal())
  }

  // --------------------------------------------------------------- invariants

  predicate IsCounted(at: ReaderAt) {
    at.Locking? || at.Inside? || at.Leaving?
  }

  function Counted(readers: seq<ReaderAt>): set<nat> {
    set i | 0 <= i < |readers| && IsCounted(readers[i])
  }

  predicate Among(lock: Lock, p: Party) {
    lock.holder == Some(p) || p in lock.queue
  }

  /** Nobody has the lock and waits for it, or waits twice; a free lock has no queue. */
  predicate WaitsOnce(lock: Lock) {
    && (lock.holder.None? ==> lock.queue == [])
    && (forall i | 0 <= i < |lock.queue| :: Some(lock.queue[i]) != lock.holder)
    && NoRepeats(lock.queue)
  }

  predicate AtGateFor(s: State, p: Party) {
    match p
    case Reader(i) => i < |s.readers| && (s.readers[i].Entering? || s.readers[i].Leaving?)
    case Writer(w) => w < |s.writers| && s.writers[w].AtGate?
  }

  predicate HoldsGate(s: State, p: Party) {
    AtGateFor(s, p) || (p.Reader? && p.index < |s.readers| && s.readers[p.index].Locking?)
  }

  predicate GateValid(s: State) {
    && WaitsOnce(s.gate)
    && (s.gate.holder.Some? ==> HoldsGate(s, s.gate.holder.value))
    && (forall j | 0 <= j < |s.gate.queue| :: AtGateFor(s, s.gate.queue[j]))
    && (forall i | 0 <= i < |s.readers| ::
          s.readers[i].Entering? || s.readers[i].Locking? || s.readers[i].Leaving? ==> Among(s.gate, Reader(i)))
    && (forall w | 0 <= w < |s.writers| && s.writers[w].AtGate? :: Among(s.gate, Writer(w)))
  }

  /** The party is no reader that came before the writer and still wants in. */
  predicate MayFollow(s: State, w: nat, p: Party)
    requires w < |s.since|
  {
    p.Reader? && p.index < |s.readers| && s.readers[p.index].Entering? ==> s.since[w] <= p.index
  }

  predicate HasEntered(at: ReaderAt) {
    at.Inside? || at.Leaving? || at.Left?
  }

  /** The readers that came before a writer stand before it at the gate. */
  predicate GateOrder(s: State)
    requires |s.since| == |s.writers|
  {
    && (forall w | 0 <= w < |s.writers| && s.gate.holder == Some(Writer(w)) ::
          forall j | 0 <= j < |s.gate.queue| :: MayFollow(s, w, s.gate.queue[j]))
    && (forall j, k | 0 <= j < k < |s.gate.queue| && s.gate.queue[j].Writer? && s.gate.queue[j].index < |s.writers| ::
          MayFollow(s, s.gate.queue[j].index, s.gate.queue[k]))
  }

  /** They are through when it is, and have left when it is done. */
  predicate ReadersFirst(s: State)
    requires |s.since| == |s.writers|
  {
    && (forall w | 0 <= w < |s.writers| :: s.since[w] <= |s.readers|)
    && (forall w | 0 <= w < |s.writers| && !s.writers[w].AtGate? ::
          forall i | 0 <= i < s.since[w] :: HasEntered(s.readers[i]))
    && (forall w | 0 <= w < |s.writers| && s.writers[w].Closed? :: forall i | 0 <= i < s.since[w] :: s.readers[i].Left?)
  }

  predicate InOrder(s: State) {
    |s.since| == |s.writers| && ReadersFirst(s) && GateOrder(s)
  }

  predicate AtLockFor(s: State, p: Party) {
    match p
    case Reader(i) => i < |s.readers| && s.readers[i].Locking?
    case Writer(w) => w < |s.writers| && s.writers[w].AtLock?
  }

  /** The readers that count have the lock together. */
  predicate IsShared(lock: Lock) {
    lock.holder.Some? && lock.holder.value.Reader?
  }

  predicate LockValid(s: State) {
    && WaitsOnce(s.lock)
    && (s.lock.holder.Some? && s.lock.holder.value.Writer? ==> AtLockFor(s, s.lock.holder.value))
    && (forall j | 0 <= j < |s.lock.queue| :: AtLockFor(s, s.lock.queue[j]))
    && (forall w | 0 <= w < |s.writers| && s.writers[w].AtLock? :: Among(s.lock, Writer(w)))
    && (forall i | 0 <= i < |s.readers| && s.readers[i].Locking? :: Among(s.lock, Reader(i)) && s.count == 1)
    && (forall i | 0 <= i < |s.readers| && (s.readers[i].Inside? || s.readers[i].Leaving?) :: IsShared(s.lock))
    && (IsShared(s.lock) ==> s.count > 0 && forall j | 0 <= j < |s.lock.queue| :: s.lock.queue[j].Writer?)
  }

  predicate Valid(s: State) {
    s.count == |Counted(s.readers)| && GateValid(s) && InOrder(s) && LockValid(s)
  }

  // ------------------------------------------------------------ the two locks

  lemma WaitAdds(lock: Lock, p: Party)
    requires WaitsOnce(lock) && !Among(lock, p)
    ensures WaitsOnce(lock.Wait(p))
    ensures forall q :: Among(lock.Wait(p), q) <==> Among(lock, q) || q == p
  {}

  lemma SignalRemoves(lock: Lock)
    requires WaitsOnce(lock) && lock.holder.Some?
    ensures WaitsOnce(lock.Signal())
    ensures forall q :: Among(lock.Signal(), q) <==> Among(lock, q) && Some(q) != lock.holder
  {
    var after := lock.Signal();
    forall q
      ensures Among(after, q) <==> Among(lock, q) && Some(q) != lock.holder
    {
      if lock.queue != [] {
        assert lock.queue == [lock.queue[0]] + lock.queue[1..];
      }
    }
  }

  // ---------------------------------------------------------------- the count

  function One(at: ReaderAt): nat {
    if IsCounted(at) then 1 else 0
  }

  lemma CountWithout(all: set<nat>, i: nat)
    ensures |all| == |all - {i}| + if i in all then 1 else 0
  {
    if i in all {
      assert all == (all - {i}) + {i};
    } else {
      assert all == all - {i};
    }
  }

  lemma CountedUpdate(readers: seq<ReaderAt>, i: nat, at: ReaderAt)
    requires i < |readers|
    ensures |Counted(readers[i := at])| == |Counted(readers)| + One(at) - One(readers[i])
  {
    var before, after := Counted(readers), Counted(readers[i := at]);
    CountWithout(before, i);
    CountWithout(after, i);
    assert before - {i} == after - {i};
  }

  lemma CountedArrival(readers: seq<ReaderAt>)
    ensures Counted(readers + [Entering]) == Counted(readers)
  {
    assert forall i | 0 <= i < |readers| :: (readers + [Entering])[i] == readers[i];
  }

  lemma StepKeepsCount(s: State, step: Step)
    requires Allowed(s, step) && s.count == |Counted(s.readers)|
    ensures Next(s, step).count == |Counted(Next(s, step).readers)|
  {
    match step
    case Arrive =>
      CountedArrival(s.readers);
    case Enter(i) =>
      CountedUpdate(s.readers, i, if s.count == 0 then Locking else Inside);
    case Acquire(i) =>
      CountedUpdate(s.readers, i, Inside);
    case Work(i) =>
      CountedUpdate(s.readers, i, Leaving);
    case Leave(i) =>
      CountedUpdate(s.readers, i, Left);
    case _ =>
  }

  lemma NoneCounted(s: State)
    requires s.count == |Counted(s.readers)|
    ensures s.count == 0 ==> forall i | 0 <= i < |s.readers| :: !IsCounted(s.readers[i])
    ensures s.count == 1 ==>
              forall i, j | 0 <= i < |s.readers| && 0 <= j < |s.readers| &&
                            IsCounted(s.readers[i]) && IsCounted(s.readers[j]) :: i == j
    ensures s.count > 0 ==> exists i | 0 <= i < |s.readers| :: IsCounted(s.readers[i])
  {
    forall i | 0 <= i < |s.readers| && IsCounted(s.readers[i])
      ensures s.count > 0 && (s.count == 1 ==> Counted(s.readers) == {i})
    {
      assert i in Counted(s.readers);
      CountWithout(Counted(s.readers), i);
      if s.count == 1 {
        assert |Counted(s.readers) - {i}| == 0;
      }
    }
    if s.count == 1 {
      forall i, j | 0 <= i < |s.readers| && IsCounted(s.readers[i]) && 0 <= j < |s.readers| && IsCounted(s.readers[j])
        ensures i == j
      {
        assert j in Counted(s.readers) && Counted(s.readers) == {i};
      }
    }
    if s.count > 0 {
      var i :| i in Counted(s.readers);
    }
  }

  // ----------------------------------------------------------------- the gate

  lemma AmongHoldsGate(s: State, p: Party)
    requires GateValid(s) && Among(s.gate, p)
    ensures HoldsGate(s, p)
  {
    if s.gate.holder != Some(p) {
      var j :| 0 <= j < |s.gate.queue| && s.gate.queue[j] == p;
    }
  }

  lemma LockingHasGate(s: State, i: nat)
    requires GateValid(s) && i < |s.readers| && s.readers[i].Locking?
    ensures s.gate.holder == Some(Reader(i))
  {
    assert Among(s.gate, Reader(i));
    assert forall j | 0 <= j < |s.gate.queue| :: AtGateFor(s, s.gate.queue[j]) && s.gate.queue[j] != Reader(i);
  }

  /** A step at whose end a party joins the gate. */
  predicate JoinsGate(step: Step) {
    step.Arrive? || step.Work? || step.ArriveWriter?
  }

  function Joiner(s: State, step: Step): Party
    requires JoinsGate(step)
  {
    match step
    case Arrive => Reader(|s.readers|)
    case Work(i) => Reader(i)
    case ArriveWriter => Writer(|s.writers|)
  }

  lemma WaitKeepsGate(s: State, step: Step)
    requires Allowed(s, step) && GateValid(s) && JoinsGate(step)
    ensures GateValid(Next(s, step))
  {
    var p := Joiner(s, step);
    if Among(s.gate, p) {
      AmongHoldsGate(s, p);
      assert false;
    }
    WaitAdds(s.gate, p);
    var after := Next(s, step);
    assert forall q | q != p && HoldsGate(s, q) :: HoldsGate(after, q);
    assert forall q | q != p && AtGateFor(s, q) :: AtGateFor(after, q);
  }

  /** The holder gives the gate to the first in the queue. */
  lemma SignalKeepsGate(s: State, step: Step)
    requires Allowed(s, step) && GateValid(s)
    requires (step.Enter? && s.count > 0) || step.Acquire? || step.Leave? || step.PassGate?
    ensures GateValid(Next(s, step))
  {
    if step.Acquire? {
      LockingHasGate(s, step.i);
    }
    SignalRemoves(s.gate);
    var after, p := Next(s, step), s.gate.holder.value;
    assert forall q | q != p && AtGateFor(s, q) :: AtGateFor(after, q);
    assert forall j | 0 <= j < |s.gate.queue| :: AtGateFor(s, s.gate.queue[j]) && s.gate.queue[j] != p;
  }

  lemma StepKeepsGate(s: State, step: Step)
    requires Allowed(s, step) && GateValid(s)
    ensures GateValid(Next(s, step))
  {
    match step
    case Arrive => WaitKeepsGate(s, step);
    case Work(_) => WaitKeepsGate(s, step);
    case ArriveWriter => WaitKeepsGate(s, step);
    case Enter(_) =>
      if s.count > 0 {
        SignalKeepsGate(s, step);
      }
    case WorkWriter(_) =>
    case _ => SignalKeepsGate(s, step);
  }

  // ---------------------------------------------------------------- the order

  /** Whoever may follow a writer still may after a step. */
  lemma StepKeepsFollowers(s: State, step: Step, w: nat, p: Party)
    requires Allowed(s, step) && InOrder(s) && w < |s.writers| && MayFollow(s, w, p)
    ensures w < |Next(s, step).since| && MayFollow(Next(s, step), w, p)
  {}

  lemma WaitKeepsGateOrder(s: State, step: Step)
    requires Allowed(s, step) && GateValid(s) && InOrder(s) && JoinsGate(step)
    ensures |Next(s, step).since| == |Next(s, step).writers| && GateOrder(Next(s, step))
  {
    var after, p := Next(s, step), Joiner(s, step);
    forall w, q | 0 <= w < |s.writers| && MayFollow(s, w, q)
      ensures MayFollow(after, w, q)
    {
      StepKeepsFollowers(s, step, w, q);
    }
    assert forall w | 0 <= w < |s.writers| :: MayFollow(after, w, p);
    assert forall j | 0 <= j < |s.gate.queue| :: AtGateFor(s, s.gate.queue[j]);
    assert step.ArriveWriter? ==> !Among(s.gate, p) || s.gate.holder.None?;
  }

  lemma OtherStepsKeepGateOrder(s: State, step: Step)
    requires Allowed(s, step) && GateValid(s) && InOrder(s) && !JoinsGate(step)
    ensures |Next(s, step).since| == |Next(s, step).writers| && GateOrder(Next(s, step))
  {
    var after := Next(s, step);
    if step.Acquire? {
      LockingHasGate(s, step.i);
    }
    forall w, q | 0 <= w < |s.writers| && MayFollow(s, w, q)
      ensures MayFollow(after, w, q)
    {
      StepKeepsFollowers(s, step, w, q);
    }
  }

  /** When a writer has the gate, the readers before it are through. */
  lemma PassedBefore(s: State, w: nat, i: nat)
    requires GateValid(s) && InOrder(s) && w < |s.writers| && s.gate.holder == Some(Writer(w)) && i < s.since[w]
    ensures HasEntered(s.readers[i])
  {
    assert Reader(i) in s.gate.queue || HasEntered(s.readers[i]);
    assert forall j | 0 <= j < |s.gate.queue| :: AtGateFor(s, s.gate.queue[j]) && MayFollow(s, w, s.gate.queue[j]);
  }

  /** When a writer has the lock, no reader is inside, and those that came before
      it have left. */
  lemma WriterExcludesReaders(s: State, w: nat)
    requires Valid(s) && Allowed(s, WorkWriter(w))
    ensures forall i | 0 <= i < |s.readers| :: !s.readers[i].Inside? && !s.readers[i].Leaving?
    ensures forall i | 0 <= i < s.since[w] :: s.readers[i].Left?
  {}

  lemma StepKeepsReadersFirst(s: State, step: Step)
    requires Allowed(s, step) && Valid(s)
    ensures |Next(s, step).since| == |Next(s, step).writers| && ReadersFirst(Next(s, step))
  {
    if step.PassGate? {
      forall i | 0 <= i < s.since[step.w]
        ensures HasEntered(s.readers[i])
      {
        PassedBefore(s, step.w, i);
      }
    } else if step.WorkWriter? {
      WriterExcludesReaders(s, step.w);
    }
  }

  lemma StepKeepsOrder(s: State, step: Step)
    requires Allowed(s, step) && Valid(s)
    ensures InOrder(Next(s, step))
  {
    StepKeepsReadersFirst(s, step);
    if JoinsGate(step) {
      WaitKeepsGateOrder(s, step);
    } else {
      OtherStepsKeepGateOrder(s, step);
    }
  }

  // ----------------------------------------------------------------- the lock

  lemma AmongLockFor(s: State, p: Party)
    requires LockValid(s) && Among(s.lock, p) && !IsShared(s.lock)
    ensures AtLockFor(s, p)
  {
    if s.lock.holder != Some(p) {
      var j :| 0 <= j < |s.lock.queue| && s.lock.queue[j] == p;
    }
  }

  /** A reader or a writer asks for the lock. */
  lemma FirstEnterKeepsLock(s: State, i: nat)
    requires Allowed(s, Enter(i)) && Valid(s) && s.count == 0
    ensures LockValid(Next(s, Enter(i)))
  {
    NoneCounted(s);
    if Among(s.lock, Reader(i)) {
      AmongLockFor(s, Reader(i));
      assert false;
    }
    WaitAdds(s.lock, Reader(i));
    var after := Next(s, Enter(i));
    assert forall q | AtLockFor(s, q) :: AtLockFor(after, q);
  }

  lemma PassGateKeepsLock(s: State, w: nat)
    requires Allowed(s, PassGate(w)) && Valid(s)
    ensures LockValid(Next(s, PassGate(w)))
  {
    var p := Writer(w);
    assert forall j | 0 <= j < |s.lock.queue| :: AtLockFor(s, s.lock.queue[j]) && s.lock.queue[j] != p;
    WaitAdds(s.lock, p);
    var after := Next(s, PassGate(w));
    assert forall q | AtLockFor(s, q) :: AtLockFor(after, q);
  }

  /** The last reader or a writer gives the lock back. */
  lemma LastLeaveKeepsLock(s: State, i: nat)
    requires Allowed(s, Leave(i)) && Valid(s) && s.count == 1
    ensures LockValid(Next(s, Leave(i)))
  {
    NoneCounted(s);
    SignalRemoves(s.lock);
    var after := Next(s, Leave(i));
    assert forall j | 0 <= j < |s.lock.queue| :: AtLockFor(s, s.lock.queue[j]) && AtLockFor(after, s.lock.queue[j]);
  }

  lemma WorkKeepsLock(s: State, w: nat)
    requires Allowed(s, WorkWriter(w)) && Valid(s)
    ensures LockValid(Next(s, WorkWriter(w)))
  {
    NoneCounted(s);
    SignalRemoves(s.lock);
    var after := Next(s, WorkWriter(w));
    assert forall j | 0 <= j < |s.lock.queue| :: AtLockFor(s, s.lock.queue[j]) && AtLockFor(after, s.lock.queue[j]);
  }

  lemma JoinsKeepLock(s: State, step: Step)
    requires Allowed(s, step) && Valid(s) && JoinsGate(step)
    ensures LockValid(Next(s, step))
  {
    var after := Next(s, step);
    assert forall q | AtLockFor(s, q) :: AtLockFor(after, q);
  }

  lemma OtherStepsKeepLock(s: State, step: Step)
    requires Allowed(s, step) && Valid(s) && (step.Enter? || step.Acquire? || step.Leave?)
    requires !(step.Enter? && s.count == 0) && !(step.Leave? && s.count == 1)
    ensures LockValid(Next(s, step))
  {
    NoneCounted(s);
    if step.Enter? {
      forall k | 0 <= k < |s.readers|
        ensures !s.readers[k].Locking?
      {
        if s.readers[k].Locking? {
          LockingHasGate(s, k);
          assert false;
        }
      }
    }
    assert forall j | 0 <= j < |s.lock.queue| :: AtLockFor(s, s.lock.queue[j]);
  }

  lemma StepKeepsLock(s: State, step: Step)
    requires Allowed(s, step) && Valid(s)
    ensures LockValid(Next(s, step))
  {
    if step.Enter? && s.count == 0 {
      FirstEnterKeepsLock(s, step.i);
    } else if step.PassGate? {
      PassGateKeepsLock(s, step.w);
    } else if step.Leave? && s.count == 1 {
      LastLeaveKeepsLock(s, step.i);
    } else if step.WorkWriter? {
      WorkKeepsLock(s, step.w);
    } else if JoinsGate(step) {
      JoinsKeepLock(s, step);
    } else {
      OtherStepsKeepLock(s, step);
    }
  }

  lemma StepKeepsValid(s: State, step: Step)
    requires Allowed(s, step) && Valid(s)
    ensures Valid(Next(s, step))
  {
    StepKeepsCount(s, step);
    StepKeepsGate(s, step);
    StepKeepsOrder(s, step);
    StepKeepsLock(s, step);
  }

  // ------------------------------------------------------------ all schedules

  ghost predicate Happens(s: State, steps: seq<Step>)
    decreases |steps|
  {
    steps == [] || (Allowed(s, steps[0]) && Happens(Next(s, steps[0]), steps[1..]))
  }

  ghost function Run(s: State, steps: seq<Step>): State
    requires Happens(s, steps)
    decreases |steps|
  {
    if steps == [] then s else Run(Next(s, steps[0]), steps[1..])
  }

  lemma {:induction false} RunKeepsValid(s: State, steps: seq<Step>)
    requires Valid(s) && Happens(s, steps)
    ensures Valid(Run(s, steps))
    decreases |steps|
  {
    if steps != [] {
      StepKeepsValid(s, steps[0]);
      RunKeepsValid(Next(s, steps[0]), steps[1..]);
    }
  }

  lemma StartIsValid()
    ensures Valid(START)
  {
    assert Counted([]) == {};
  }

  /** In every schedule of readers and writers: a writer never works while a reader
      is inside, nor while another writer may. */
  lemma WritersWorkAlone(steps: seq<Step>, w: nat)
    requires Happens(START, steps) && Allowed(Run(START, steps), WorkWriter(w))
    ensures var end := Run(START, steps);
            && (forall i: nat :: !Allowed(end, Work(i)))
            && (forall i | 0 <= i < |end.readers| :: !end.readers[i].Leaving?)
            && (forall v: nat | Allowed(end, WorkWriter(v)) :: v == w)
  {
    StartIsValid();
    RunKeepsValid(START, steps);
    WriterExcludesReaders(Run(START, steps), w);
  }

  /** In every schedule: when a writer may work, and ever after, the readers that
      came before it have worked and left. */
  lemma WriterDrainsReaders(steps: seq<Step>, w: nat)
    requires Happens(START, steps)
    ensures var end := Run(START, steps);
            |end.since| == |end.writers| &&
            (w < |end.writers| && (Allowed(end, WorkWriter(w)) || end.writers[w].Closed?) ==>
               end.since[w] <= |end.readers| && forall i | 0 <= i < end.since[w] :: end.readers[i].Left?)
  {
    StartIsValid();
    RunKeepsValid(START, steps);
    var end := Run(START, steps);
    if Allowed(end, WorkWriter(w)) {
      WriterExcludesReaders(end, w);
    }
  }

  predicate AllDone(s: State) {
    && (forall i | 0 <= i < |s.readers| :: s.readers[i].Left?)
    && (forall w | 0 <= w < |s.writers| :: s.writers[w].Closed?)
  }

  lemma LockIsNeverStuck(s: State) returns (step: Step)
    requires Valid(s) && !AllDone(s)
    ensures Allowed(s, step) && !step.Arrive? && !step.ArriveWriter?
  {
    NoneCounted(s);
    match s.gate.holder
    case Some(Writer(w)) =>
      step := PassGate(w);
    case Some(Reader(i)) =>
      assert HoldsGate(s, Reader(i));
      if s.readers[i].Locking? && s.lock.holder != Some(Reader(i)) {
        var w := LockedByWriter(s, Reader(i));
        step := WorkWriter(w);
      } else {
        step := if s.readers[i].Entering? then Enter(i) else if s.readers[i].Locking? then Acquire(i) else Leave(i);
      }
    case None =>
      assert forall p :: !Among(s.gate, p);
      if i :| 0 <= i < |s.readers| && s.readers[i].Inside? {
        step := Work(i);
      } else {
        assert forall i | 0 <= i < |s.readers| :: !Among(s.gate, Reader(i)) && s.readers[i].Left?;
        var w :| 0 <= w < |s.writers| && !s.writers[w].Closed?;
        assert !Among(s.gate, Writer(w)) && s.writers[w].AtLock?;
        var v := LockedByWriter(s, Writer(w));
        step := WorkWriter(v);
      }
  }

  /** Whoever waits for a lock that is not shared waits for a writer. */
  lemma LockedByWriter(s: State, p: Party) returns (w: nat)
    requires Valid(s) && Among(s.lock, p) && !IsShared(s.lock)
    ensures Allowed(s, WorkWriter(w))
  {
    assert s.lock.holder.Some?;
    w := s.lock.holder.value.index;
  }

  /** In every schedule, until everyone is done some handler can go on: the lock
      never blocks itself. */
  lemma NeverStuck(steps: seq<Step>)
    requires Happens(START, steps) && !AllDone(Run(START, steps))
    ensures exists step :: Allowed(Run(START, steps), step) && !step.Arrive? && !step.ArriveWriter?
  {
    StartIsValid();
    RunKeepsValid(START, steps);
    var step := LockIsNeverStuck(Run(START, steps));
  }
}
