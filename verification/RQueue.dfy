/**
 The bounded queue rqueue (util.h:77-129): a deque, a mutex and two counting semaphores,
 used by any number of threads.  Every semaphore operation, lock, unlock and deque access
 is one atomic step, and steps of different threads interleave freely.
 */
module RQueue {
  type Thread = nat

  datatype Option<+T> = None | Some(value: T)

  /** Where a thread stands inside push, pop, front or size. */
  datatype Pc<T> =
    | Idle
    | PushWait(x: T)      // about to sem_wait(_semmax)
    | PushClaimed(x: T)   // about to lock
    | PushLocked(x: T)    // about to push_back
    | PushStored          // about to unlock
    | PushUnlocked        // about to sem_post(_semcnt)
    | PopWait             // about to sem_wait(_semcnt)
    | PopClaimed          // about to lock
    | PopLocked           // about to read and remove the front
    | PopTaken(x: T)      // about to unlock
    | PopUnlocked(x: T)   // about to sem_post(_semmax)
    | FrontWait           // about to lock
    | FrontLocked         // about to read the front, NULL if there is none
    | FrontRead(r: Option<T>)
    | SizeWait
    | SizeLocked
    | SizeRead(n: nat)

  /** What the caller of an operation gets back. */
  datatype Op<T> = Push(x: T) | Pop | Front | Size

  /** pushed and popped record the stores and removals in order; broken marks a read of an empty
      deque. */
  datatype State<T> = State(
    capacity: nat, pc: seq<Pc<T>>, q: seq<T>, mutex: Option<Thread>, semcnt: nat, semmax: nat,
    pushed: seq<T>, popped: seq<T>, broken: bool)

  /** The constructor's choice of _semmax for the template argument. */
  function Capacity(queuelen: nat): (c: nat)
    ensures c > 0
  {
    if queuelen != 0 then queuelen else 65535
  }

  ghost predicate Init<T>(s: State<T>, queuelen: nat) {
    && s.capacity == Capacity(queuelen)
    && (forall t | 0 <= t < |s.pc| :: s.pc[t] == Idle)
    && s.q == [] && s.mutex == None && s.semcnt == 0 && s.semmax == s.capacity
    && s.pushed == [] && s.popped == [] && !s.broken
  }

  function StartPc<T>(op: Op<T>): Pc<T> {
    match op
    case Push(x) => PushWait(x)
    case Pop => PopWait
    case Front => FrontWait
    case Size => SizeWait
  }

  /** A thread outside every operation may call one. */
  function Call<T>(s: State<T>, t: Thread, op: Op<T>): State<T>
    requires t < |s.pc| && s.pc[t] == Idle
  {
    s.(pc := s.pc[t := StartPc(op)])
  }

  /** A thread inside an operation can move unless it waits for a semaphore or the mutex. */
  predicate Enabled<T>(s: State<T>, t: Thread)
    requires t < |s.pc|
  {
    match s.pc[t]
    case Idle => false
    case PushWait(_) => s.semmax > 0
    case PopWait => s.semcnt > 0
    case PushClaimed(_) => s.mutex == None
    case PopClaimed => s.mutex == None
    case FrontWait => s.mutex == None
    case SizeWait => s.mutex == None
    case _ => true
  }

  /** Where thread t stands after its next atomic step. */
  function NextPc<T>(s: State<T>, p: Pc<T>): Pc<T> {
    match p
    case Idle => Idle
    case PushWait(x) => PushClaimed(x)
    case PushClaimed(x) => PushLocked(x)
    case PushLocked(_) => PushStored
    case PushStored => PushUnlocked
    case PushUnlocked => Idle
    case PopWait => PopClaimed
    case PopClaimed => PopLocked
    case PopLocked => if s.q == [] then PopLocked else PopTaken(s.q[0])
    case PopTaken(x) => PopUnlocked(x)
    case PopUnlocked(_) => Idle
    case FrontWait => FrontLocked
    case FrontLocked => FrontRead(if s.q == [] then None else Some(s.q[0]))
    case FrontRead(_) => Idle
    case SizeWait => SizeLocked
    case SizeLocked => SizeRead(|s.q|)
    case SizeRead(_) => Idle
  }

  /** What the step does to the shared state. */
  function Effect<T>(s: State<T>, t: Thread, p: Pc<T>): State<T>
    requires p.PushWait? ==> s.semmax > 0
    requires p.PopWait? ==> s.semcnt > 0
  {
    match p
    case PushWait(_) => s.(semmax := s.semmax - 1)
    case PushLocked(x) => s.(q := s.q + [x], pushed := s.pushed + [x])
    case PushUnlocked => s.(semcnt := s.semcnt + 1)
    case PopWait => s.(semcnt := s.semcnt - 1)
    case PopLocked =>
      if s.q == [] then s.(broken := true)
      else s.(q := s.q[1..], popped := s.popped + [s.q[0]])
    case PopUnlocked(_) => s.(semmax := s.semmax + 1)
    case _ => s
  }

  /** Lock and unlock. */
  function MutexAfter<T>(mutex: Option<Thread>, t: Thread, p: Pc<T>): Option<Thread> {
    if Locks(p) then Some(t) else if Unlocks(p) then None else mutex
  }

  predicate Locks<T>(p: Pc<T>) {
    p.PushClaimed? || p.PopClaimed? || p.FrontWait? || p.SizeWait?
  }

  predicate Unlocks<T>(p: Pc<T>) {
    p.PushStored? || p.PopTaken? || p.FrontRead? || p.SizeRead?
  }

  /** The next atomic step of thread t. */
  function Move<T>(s: State<T>, t: Thread): State<T>
    requires t < |s.pc| && Enabled(s, t)
  {
    var p := s.pc[t];
    Effect(s, t, p).(pc := s.pc[t := NextPc(s, p)], mutex := MutexAfter(s.mutex, t, p))
  }

  // ---------- counting threads ----------

  datatype Role = ClaimedPush | UnpostedPush | ClaimedPop | UnreleasedPop | Bystander

  function RoleOf<T>(p: Pc<T>): Role {
    match p
    case PushClaimed(_) => ClaimedPush
    case PushLocked(_) => ClaimedPush
    case PushStored => UnpostedPush
    case PushUnlocked => UnpostedPush
    case PopClaimed => ClaimedPop
    case PopLocked => ClaimedPop
    case PopTaken(_) => UnreleasedPop
    case PopUnlocked(_) => UnreleasedPop
    case _ => Bystander
  }

  predicate HoldsMutex<T>(p: Pc<T>) {
    p.PushLocked? || p.PushStored? || p.PopLocked? || p.PopTaken? || p.FrontLocked? || p.FrontRead?
    || p.SizeLocked? || p.SizeRead?
  }

  function One(b: bool): nat { if b then 1 else 0 }

  /** How many threads play role r. */
  function Count<T>(pc: seq<Pc<T>>, r: Role): nat {
    if pc == [] then 0 else Count(pc[..|pc| - 1], r) + One(RoleOf(pc[|pc| - 1]) == r)
  }

  lemma {:induction false} CountAfter<T>(pc: seq<Pc<T>>, t: Thread, p: Pc<T>, r: Role)
    requires t < |pc|
    ensures Count(pc[t := p], r) + One(RoleOf(pc[t]) == r) == Count(pc, r) + One(RoleOf(p) == r)
  {
    var n := |pc| - 1;
    if t == n {
      assert pc[t := p][..n] == pc[..n];
    } else {
      assert pc[t := p][..n] == pc[..n][t := p];
      CountAfter(pc[..n], t, p, r);
    }
  }

  lemma {:induction false} CountPositive<T>(pc: seq<Pc<T>>, t: Thread)
    requires t < |pc|
    ensures Count(pc, RoleOf(pc[t])) > 0
  {
    if t < |pc| - 1 {
      CountPositive(pc[..|pc| - 1], t);
    }
  }

  lemma {:induction false} CountZero<T>(pc: seq<Pc<T>>, r: Role)
    requires forall t | 0 <= t < |pc| :: RoleOf(pc[t]) != r
    ensures Count(pc, r) == 0
  {
    if pc != [] {
      CountZero(pc[..|pc| - 1], r);
    }
  }

  // ---------- the invariant ----------

  /** Conservation: every unit of capacity is free, claimed by a push, stored, or about to be
      released; every stored element is announced, about to be announced, or claimed by a pop. */
  ghost predicate SlotsConserved<T>(s: State<T>) {
    s.semmax + Count(s.pc, ClaimedPush) + |s.q| + Count(s.pc, UnreleasedPop) == s.capacity
  }

  ghost predicate ItemsConserved<T>(s: State<T>) {
    s.semcnt + Count(s.pc, UnpostedPush) + Count(s.pc, ClaimedPop) == |s.q|
  }

  ghost predicate Exclusive<T>(s: State<T>) {
    && (forall t | 0 <= t < |s.pc| :: HoldsMutex(s.pc[t]) <==> s.mutex == Some(t))
    && (s.mutex.Some? ==> s.mutex.value < |s.pc|)
  }

  ghost predicate Inv<T>(s: State<T>) {
    s.capacity > 0 && SlotsConserved(s) && ItemsConserved(s) && Exclusive(s) && s.pushed == s.popped + s.q && !s.broken
  }

  lemma InitInv<T>(s: State<T>, queuelen: nat)
    requires Init(s, queuelen)
    ensures Inv(s)
  {
    CountZero(s.pc, ClaimedPush);
    CountZero(s.pc, UnpostedPush);
    CountZero(s.pc, ClaimedPop);
    CountZero(s.pc, UnreleasedPop);
  }

  lemma CallInv<T>(s: State<T>, t: Thread, op: Op<T>)
    requires Inv(s) && t < |s.pc| && s.pc[t] == Idle
    ensures Inv(Call(s, t, op))
  {
    var p := StartPc(op);
    CountAfter(s.pc, t, p, ClaimedPush);
    CountAfter(s.pc, t, p, UnreleasedPop);
    CountAfter(s.pc, t, p, UnpostedPush);
    CountAfter(s.pc, t, p, ClaimedPop);
  }

  /** A thread that claimed an element finds one: pop never reads an empty deque. */
  lemma ClaimedPopFindsElement<T>(s: State<T>, t: Thread)
    requires ItemsConserved(s) && t < |s.pc| && RoleOf(s.pc[t]) == ClaimedPop
    ensures s.q != []
  {
    CountPositive(s.pc, t);
  }

  lemma EffectOnSlots<T>(s: State<T>, t: Thread, p: Pc<T>)
    requires p.PushWait? ==> s.semmax > 0
    requires p.PopWait? ==> s.semcnt > 0
    requires p.PopLocked? ==> s.q != []
    ensures var s', p' := Effect(s, t, p), NextPc(s, p);
      && s'.broken == s.broken && s'.capacity == s.capacity
      && s'.semmax + |s'.q| + One(RoleOf(p') == ClaimedPush) + One(RoleOf(p') == UnreleasedPop)
           == s.semmax + |s.q| + One(RoleOf(p) == ClaimedPush) + One(RoleOf(p) == UnreleasedPop)
  {
  }

  lemma EffectOnItems<T>(s: State<T>, t: Thread, p: Pc<T>)
    requires p.PushWait? ==> s.semmax > 0
    requires p.PopWait? ==> s.semcnt > 0
    requires p.PopLocked? ==> s.q != []
    ensures var s', p' := Effect(s, t, p), NextPc(s, p);
      s'.semcnt - |s'.q| + One(RoleOf(p') == UnpostedPush) + One(RoleOf(p') == ClaimedPop)
        == s.semcnt - |s.q| + One(RoleOf(p) == UnpostedPush) + One(RoleOf(p) == ClaimedPop)
  {
  }

  lemma MoveConserves<T>(s: State<T>, t: Thread)
    requires SlotsConserved(s) && ItemsConserved(s) && t < |s.pc| && Enabled(s, t)
    ensures SlotsConserved(Move(s, t)) && ItemsConserved(Move(s, t)) && Move(s, t).broken == s.broken
  {
    var p, p' := s.pc[t], NextPc(s, s.pc[t]);
    if p.PopLocked? {
      ClaimedPopFindsElement(s, t);
    }
    EffectOnSlots(s, t, p);
    EffectOnItems(s, t, p);
    CountAfter(s.pc, t, p', ClaimedPush);
    CountAfter(s.pc, t, p', UnreleasedPop);
    CountAfter(s.pc, t, p', UnpostedPush);
    CountAfter(s.pc, t, p', ClaimedPop);
  }

  lemma MoveExcludes<T>(s: State<T>, t: Thread)
    requires Exclusive(s) && t < |s.pc| && Enabled(s, t)
    ensures Exclusive(Move(s, t))
  {
  }

  lemma MoveKeepsOrder<T>(s: State<T>, t: Thread)
    requires s.pushed == s.popped + s.q && t < |s.pc| && Enabled(s, t)
    ensures Move(s, t).pushed == Move(s, t).popped + Move(s, t).q
  {
    if s.pc[t].PopLocked? && s.q != [] {
      assert s.popped + s.q == (s.popped + [s.q[0]]) + s.q[1..];
    }
  }

  lemma MoveInv<T>(s: State<T>, t: Thread)
    requires Inv(s) && t < |s.pc| && Enabled(s, t)
    ensures Inv(Move(s, t))
  {
    MoveConserves(s, t);
    MoveExcludes(s, t);
    MoveKeepsOrder(s, t);
  }

  // ---------- runs ----------

  datatype Action<T> = Start(t: Thread, op: Op<T>) | Continue(t: Thread)

  ghost predicate CanAct<T>(s: State<T>, a: Action<T>) {
    a.t < |s.pc| && if a.Start? then s.pc[a.t] == Idle else Enabled(s, a.t)
  }

  ghost function Act<T>(s: State<T>, a: Action<T>): State<T>
    requires CanAct(s, a)
  {
    if a.Start? then Call(s, a.t, a.op) else Move(s, a.t)
  }

  /** trace is a run: it starts in an initial state and every state follows by one action. */
  ghost predicate Run<T>(trace: seq<State<T>>, actions: seq<Action<T>>, queuelen: nat) {
    && |trace| == |actions| + 1
    && Init(trace[0], queuelen)
    && forall i | 0 <= i < |actions| :: CanAct(trace[i], actions[i]) && trace[i + 1] == Act(trace[i], actions[i])
  }

  lemma {:induction false} RunInv<T>(trace: seq<State<T>>, actions: seq<Action<T>>, queuelen: nat, i: nat)
    requires Run(trace, actions, queuelen) && i < |trace|
    ensures Inv(trace[i])
  {
    if i == 0 {
      InitInv(trace[0], queuelen);
    } else {
      RunInv(trace, actions, queuelen, i - 1);
      if actions[i - 1].Start? {
        CallInv(trace[i - 1], actions[i - 1].t, actions[i - 1].op);
      } else {
        MoveInv(trace[i - 1], actions[i - 1].t);
      }
    }
  }

  lemma {:induction false} CapacityIsFixed<T>(trace: seq<State<T>>, actions: seq<Action<T>>, queuelen: nat, i: nat)
    requires Run(trace, actions, queuelen) && i < |trace|
    ensures trace[i].capacity == Capacity(queuelen)
  {
    if i > 0 {
      CapacityIsFixed(trace, actions, queuelen, i - 1);
    }
  }

  /** Safety over every run of any number of threads: no read of an empty deque, never more
      elements than the capacity, removal order is store order, at most one mutex holder. */
  lemma QueueSafety<T>(trace: seq<State<T>>, actions: seq<Action<T>>, queuelen: nat, i: nat)
    requires Run(trace, actions, queuelen) && i < |trace|
    ensures !trace[i].broken
    ensures |trace[i].q| <= if queuelen != 0 then queuelen else 65535
    ensures SlotsConserved(trace[i]) && ItemsConserved(trace[i])
    ensures trace[i].pushed == trace[i].popped + trace[i].q
    ensures forall t, u | 0 <= t < |trace[i].pc| && 0 <= u < |trace[i].pc| && HoldsMutex(trace[i].pc[t])
              && HoldsMutex(trace[i].pc[u]) ::
              t == u
  {
    RunInv(trace, actions, queuelen, i);
    CapacityIsFixed(trace, actions, queuelen, i);
  }

  // ---------- progress ----------

  ghost predicate Stuck<T>(s: State<T>) {
    forall t | 0 <= t < |s.pc| :: !Enabled(s, t)
  }

  /** When no thread can move, nobody is inside a critical section; a thread is only left
      pushing into a full queue or popping from an empty one, never both kinds at once. */
  lemma StuckMeansFullOrEmpty<T>(s: State<T>)
    requires Inv(s) && Stuck(s)
    ensures forall t | 0 <= t < |s.pc| :: s.pc[t].Idle? || s.pc[t].PushWait? || s.pc[t].PopWait?
    ensures forall t | 0 <= t < |s.pc| && s.pc[t].PushWait? :: |s.q| == s.capacity
    ensures forall t | 0 <= t < |s.pc| && s.pc[t].PopWait? :: |s.q| == 0
    ensures !exists t, u :: 0 <= t < |s.pc| && 0 <= u < |s.pc| && s.pc[t].PushWait? && s.pc[u].PopWait?
  {
    if s.mutex.Some? {
      assert HoldsMutex(s.pc[s.mutex.value]);
      assert Enabled(s, s.mutex.value);
      assert false;
    }
    forall t | 0 <= t < |s.pc|
      ensures s.pc[t].Idle? || s.pc[t].PushWait? || s.pc[t].PopWait?
    {
      assert !Enabled(s, t);
    }
    CountZero(s.pc, ClaimedPush);
    CountZero(s.pc, UnpostedPush);
    CountZero(s.pc, ClaimedPop);
    CountZero(s.pc, UnreleasedPop);
    forall t | 0 <= t < |s.pc| && s.pc[t].PushWait?
      ensures |s.q| == s.capacity
    {
      assert !Enabled(s, t);
    }
    forall t | 0 <= t < |s.pc| && s.pc[t].PopWait?
      ensures |s.q| == 0
    {
      assert !Enabled(s, t);
    }
  }

  // ---------- what the operations return ----------

  function Head<T>(q: seq<T>): Option<T> {
    if q == [] then None else Some(q[0])
  }

  /** A thread that still holds the mutex has read what the deque holds now. */
  ghost predicate ReadsOk<T>(s: State<T>) {
    forall t | 0 <= t < |s.pc| ::
      match s.pc[t]
      case FrontRead(r) => r == Head(s.q)
      case SizeRead(n) => n == |s.q|
      case _ => true
  }

  lemma MoveReads<T>(s: State<T>, t: Thread)
    requires Exclusive(s) && ReadsOk(s) && t < |s.pc| && Enabled(s, t)
    ensures ReadsOk(Move(s, t))
  {
    var s' := Move(s, t);
    forall u | 0 <= u < |s'.pc| && (s'.pc[u].FrontRead? || s'.pc[u].SizeRead?) ensures
        (s'.pc[u].FrontRead? ==> s'.pc[u].r == Head(s'.q)) && (s'.pc[u].SizeRead? ==> s'.pc[u].n == |s'.q|) {
      if u != t {
        assert HoldsMutex(s.pc[u]) && !HoldsMutex(s.pc[t]);
      }
    }
  }

  lemma {:induction false} RunReads<T>(trace: seq<State<T>>, actions: seq<Action<T>>, queuelen: nat, i: nat)
    requires Run(trace, actions, queuelen) && i < |trace|
    ensures ReadsOk(trace[i])
  {
    if i > 0 {
      RunReads(trace, actions, queuelen, i - 1);
      RunInv(trace, actions, queuelen, i - 1);
      assert CanAct(trace[i - 1], actions[i - 1]) && trace[i] == Act(trace[i - 1], actions[i - 1]);
      if actions[i - 1].Continue? {
        MoveReads(trace[i - 1], actions[i - 1].t);
      }
    }
  }

  /** front returns the first element, or NULL exactly if there is none, and size the number of
      elements: in every state of every run these are still right when the mutex is released. */
  lemma FrontAndSizeAreRight<T>(trace: seq<State<T>>, actions: seq<Action<T>>, queuelen: nat, i: nat, t: Thread)
    requires Run(trace, actions, queuelen) && i < |trace| && t < |trace[i].pc|
    ensures forall r :: trace[i].pc[t] == FrontRead(r) ==>
              r == if trace[i].q == [] then None else Some(trace[i].q[0])
    ensures forall n :: trace[i].pc[t] == SizeRead(n) ==> n == |trace[i].q|
  {
    RunReads(trace, actions, queuelen, i);
  }

  /** pop returns the element that was first when it took it. */
  lemma {:induction false} PopReturnsFirst<T>(trace: seq<State<T>>, actions: seq<Action<T>>, queuelen: nat, j: nat,
      t: Thread) returns (i: nat)
    requires Run(trace, actions, queuelen) && j < |trace| && t < |trace[j].pc|
    requires trace[j].pc[t].PopTaken? || trace[j].pc[t].PopUnlocked?
    ensures i < j && actions[i] == Continue(t) && t < |trace[i].pc| && trace[i].pc[t].PopLocked?
    ensures trace[i].q == [trace[j].pc[t].x] + trace[i + 1].q
  {
    assert CanAct(trace[j - 1], actions[j - 1]) && trace[j] == Act(trace[j - 1], actions[j - 1]);
    if actions[j - 1] == Continue(t) && trace[j - 1].pc[t].PopLocked? {
      i := j - 1;
    } else {
      i := PopReturnsFirst(trace, actions, queuelen, j - 1, t);
    }
  }

  ghost predicate Pushing<T>(p: Pc<T>, x: T) {
    p == PushWait(x) || p == PushClaimed(x) || p == PushLocked(x)
  }

  lemma {:induction false} PushCalled<T>(trace: seq<State<T>>, actions: seq<Action<T>>, queuelen: nat, j: nat,
      t: Thread, x: T) returns (i: nat)
    requires Run(trace, actions, queuelen) && j < |trace| && t < |trace[j].pc| && Pushing(trace[j].pc[t], x)
    ensures i < j && actions[i] == Start(t, Push(x))
  {
    assert CanAct(trace[j - 1], actions[j - 1]) && trace[j] == Act(trace[j - 1], actions[j - 1]);
    if actions[j - 1] == Start(t, Push(x)) {
      i := j - 1;
    } else {
      i := PushCalled(trace, actions, queuelen, j - 1, t, x);
    }
  }

  /** push stores its argument behind all others. */
  lemma PushStoresLast<T>(trace: seq<State<T>>, actions: seq<Action<T>>, queuelen: nat, j: nat, t: Thread)
      returns (i: nat, x: T)
    requires Run(trace, actions, queuelen) && j < |actions| && actions[j] == Continue(t)
    requires t < |trace[j].pc| && trace[j].pc[t].PushLocked?
    ensures i < j && actions[i] == Start(t, Push(x)) && trace[j + 1].q == trace[j].q + [x]
  {
    x := trace[j].pc[t].x;
    i := PushCalled(trace, actions, queuelen, j, t, x);
    assert CanAct(trace[j], actions[j]) && trace[j + 1] == Act(trace[j], actions[j]);
  }

  // ---------- one consumer ----------

  predicate Popping<T>(p: Pc<T>) {
    p.PopWait? || p.PopClaimed? || p.PopLocked? || p.PopTaken? || p.PopUnlocked?
  }

  /** Only thread c ever pops, as the event loops do. */
  ghost predicate OnlyPopper<T>(actions: seq<Action<T>>, c: Thread) {
    forall i | 0 <= i < |actions| && actions[i].Start? && actions[i].op.Pop? :: actions[i].t == c
  }

  lemma {:induction false} OthersDoNotPop<T>(trace: seq<State<T>>, actions: seq<Action<T>>, queuelen: nat, i: nat,
      c: Thread)
    requires Run(trace, actions, queuelen) && i < |trace| && OnlyPopper(actions, c)
    ensures forall t | 0 <= t < |trace[i].pc| && Popping(trace[i].pc[t]) :: t == c
  {
    if i > 0 {
      OthersDoNotPop(trace, actions, queuelen, i - 1, c);
      var s, a := trace[i - 1], actions[i - 1];
      assert CanAct(s, a) && trace[i] == Act(s, a);
      assert a.Continue? && Popping(NextPc(s, s.pc[a.t])) ==> Popping(s.pc[a.t]);
    }
  }

  /** Step m takes an element for thread c. */
  ghost predicate Takes<T>(trace: seq<State<T>>, actions: seq<Action<T>>, m: nat, c: Thread)
    requires m < |actions| < |trace|
  {
    actions[m] == Continue(c) && c < |trace[m].pc| && trace[m].pc[c].PopLocked?
  }

  /** An element stays first until the one consumer takes it. */
  lemma {:induction false} StaysFirst<T>(trace: seq<State<T>>, actions: seq<Action<T>>, queuelen: nat, i: nat, j: nat,
      c: Thread, x: T)
    requires Run(trace, actions, queuelen) && i <= j < |trace| && OnlyPopper(actions, c)
    requires Head(trace[i].q) == Some(x) && forall m | i <= m < j :: !Takes(trace, actions, m, c)
    ensures Head(trace[j].q) == Some(x)
  {
    if i < j {
      StaysFirst(trace, actions, queuelen, i, j - 1, c, x);
      OthersDoNotPop(trace, actions, queuelen, j - 1, c);
      assert CanAct(trace[j - 1], actions[j - 1]) && trace[j] == Act(trace[j - 1], actions[j - 1]);
      assert !Takes(trace, actions, j - 1, c);
    }
  }

  /** With one consumer, the element that front returned to it is the element that its next pop
      returns, however the pushing threads interleave in between. */
  lemma PopTakesWhatFrontShowed<T>(trace: seq<State<T>>, actions: seq<Action<T>>, queuelen: nat, i: nat, j: nat,
      c: Thread, x: T)
    requires Run(trace, actions, queuelen) && i <= j < |actions| && OnlyPopper(actions, c)
    requires c < |trace[i].pc| && trace[i].pc[c] == FrontRead(Some(x))
    requires Takes(trace, actions, j, c) && forall m | i <= m < j :: !Takes(trace, actions, m, c)
    ensures c < |trace[j + 1].pc| && trace[j + 1].pc[c] == PopTaken(x)
    ensures trace[j].q == [x] + trace[j + 1].q
  {
    FrontAndSizeAreRight(trace, actions, queuelen, i, c);
    StaysFirst(trace, actions, queuelen, i, j, c, x);
    assert CanAct(trace[j], actions[j]) && trace[j + 1] == Act(trace[j], actions[j]);
  }
}
