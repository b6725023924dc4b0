/**
 What each operation of class UDP does, as a function from the engine's state to its next
 state (udp.h:195-646).  Timer references stand for the TimeoutEvent pointers of the code:
 the timer list and the window slots share the events they point to.
 */
module UdpNode {
  import opened Seqs
  import opened UdpTypes
  import opened UdpStream

  // ---------- timer events ----------

  /** The sender has the event that ref names. */
  predicate HasTimer(ss: Sender, ref: TimerRef) {
    ref.SlotRef? ==> ref.i < |ss.window|
  }

  function TimerOf(ss: Sender, ref: TimerRef): Timer
    requires HasTimer(ss, ref)
  {
    match ref
    case SynRef(_) => ss.syn
    case SlotRef(_, i) => ss.window[i]
  }

  function WithTimer(ss: Sender, ref: TimerRef, t: Timer): Sender
    requires HasTimer(ss, ref)
  {
    match ref
    case SynRef(_) => ss.(syn := t)
    case SlotRef(_, i) => ss.(window := ss.window[i := t])
  }

  predicate RefOk(n: Node, ref: TimerRef) {
    ref.key in n.senders && HasTimer(n.senders[ref.key], ref)
  }

  function TimerAt(n: Node, ref: TimerRef): Timer
    requires RefOk(n, ref)
  {
    TimerOf(n.senders[ref.key], ref)
  }

  function SetTimer(n: Node, ref: TimerRef, t: Timer): (m: Node)
    requires RefOk(n, ref)
    ensures SameShape(n, m) && m.timers == n.timers
    ensures TimersOk(n) ==> TimersOk(m)
  {
    n.(senders := n.senders[ref.key := WithTimer(n.senders[ref.key], ref, t)])
  }

  /** m has the senders of n, with the same queues and window sizes. */
  ghost predicate SameShape(n: Node, m: Node) {
    && m.senders.Keys == n.senders.Keys
    && forall k | k in n.senders ::
         m.senders[k].dataQueue == n.senders[k].dataQueue && |m.senders[k].window| == |n.senders[k].window|
  }

  /** Where addTimeoutEvent inserts: before the first later timeout at or after position j. */
  function InsertAt(n: Node, timeout: int, j: nat): (p: nat)
    requires j <= |n.timers| && forall r | r in n.timers :: RefOk(n, r)
    ensures j <= p <= |n.timers|
    decreases |n.timers| - j
  {
    if j == |n.timers| || timeout < TimerAt(n, n.timers[j]).timeout then j else InsertAt(n, timeout, j + 1)
  }

  function Insert<T>(s: seq<T>, p: nat, x: T): seq<T>
    requires p <= |s|
  {
    s[..p] + [x] + s[p..]
  }

  predicate TimersOk(n: Node) {
    forall r | r in n.timers :: RefOk(n, r)
  }

  /** addTimeoutEvent. */
  function AddTimer(n: Node, ref: TimerRef): (m: Node)
    requires RefOk(n, ref) && TimersOk(n)
    ensures SameShape(n, m) && TimersOk(m) && m == n.(timers := m.timers)
  {
    var p := InsertAt(n, TimerAt(n, ref).timeout, 0);
    assert forall r | r in Insert(n.timers, p, ref) :: r == ref || r in n.timers;
    n.(timers := Insert(n.timers, p, ref))
  }

  function RemoveFirst<T(==)>(s: seq<T>, x: T): seq<T> {
    if s == [] then [] else if s[0] == x then s[1..] else [s[0]] + RemoveFirst(s[1..], x)
  }

  /** deleteTimeoutEvent; its failure to find the event is ignored by every caller. */
  function DeleteTimer(n: Node, ref: TimerRef): Node {
    n.(timers := RemoveFirst(n.timers, ref))
  }

  // ---------- the window ----------

  /** getWindowBySeq: the first occupied slot at or after i with this number. */
  function SlotBySeq(window: seq<Timer>, q: nat, i: nat): (r: Option<nat>)
    requires i <= |window|
    ensures r.Some? ==> i <= r.value < |window| && window[r.value].pkg.Some? && window[r.value].pkg.value.seqno == q
    ensures r.None? ==> forall j | i <= j < |window| :: window[j].pkg.Some? ==> window[j].pkg.value.seqno != q
    decreases |window| - i
  {
    if i == |window| then None
    else if window[i].pkg.Some? && window[i].pkg.value.seqno == q then Some(i)
    else SlotBySeq(window, q, i + 1)
  }

  /** The scan of checkEmptyWindow: the smallest number below INT_MAX in slots 0 .. i-1,
      INT_MAX if there is none. */
  function MinSeq(window: seq<Timer>, i: nat): nat
    requires i <= |window|
  {
    if i == 0 then INT_MAX
    else
      var m := MinSeq(window, i - 1);
      if window[i - 1].pkg.Some? && window[i - 1].pkg.value.seqno < m then window[i - 1].pkg.value.seqno else m
  }

  /** The last empty slot among 0 .. i-1. */
  function LastEmpty(window: seq<Timer>, i: nat): (r: Option<nat>)
    requires i <= |window|
    ensures r.Some? ==> r.value < i && window[r.value].pkg.None?
    ensures r.None? ==> forall j | 0 <= j < i :: window[j].pkg.Some?
  {
    if i == 0 then None
    else if window[i - 1].pkg.None? then Some(i - 1)
    else LastEmpty(window, i - 1)
  }

  function ToInt32(x: int): int
    requires 0 <= x < 0x1_0000_0000
  {
    if x <= INT_MAX then x else x - 0x1_0000_0000
  }

  /** checkEmptyWindow: a free slot for number next, unless the window is full or next is
      more than CONST_WINDOW - 1 ahead of the smallest outstanding number. */
  function EmptySlot(window: seq<Timer>, next: int): (r: Option<nat>)
    ensures r.Some? ==> r.value < |window| && window[r.value].pkg.None?
  {
    var m := MinSeq(window, |window|);
    var e := LastEmpty(window, |window|);
    if e.None? then None
    else if m != INT_MAX && ToInt32((m + WINDOW - 1) % 0x1_0000_0000) < next then None
    else e
  }

  // ---------- sending ----------

  function Log(n: Node, e: Event): Node {
    n.(log := n.log + [e])
  }

  /** sendPackage with PACKAGE_ACK: no timeout event. */
  function SendAck(n: Node, to: Addr, p: Pkg): Node {
    Log(n, Sent(to, p.(ptype := ACK)))
  }

  /** The last lines of sendPackage: address, timeout and timer list of an event. */
  function Arm(clk: Clock, n: Node, ref: TimerRef, to: Addr): (m: Node)
    requires RefOk(n, ref) && TimersOk(n)
    ensures SameShape(n, m) && TimersOk(m) && m.sendQueue == n.sendQueue
  {
    var t := TimerAt(n, ref).(toaddr := to, timeout := clk(n.ticks) + n.timeoutms);
    AddTimer(SetTimer(n, ref, t).(ticks := n.ticks + 1), ref)
  }

  /** sendPackage of the packet that event ref holds; the second component is its result.  An
      acknowledgement has no event: see SendAck. */
  function SendTimed(clk: Clock, n: Node, to: Addr, ptype: PkgType, q: nat, ref: TimerRef): (r: (Node, int))
    requires RefOk(n, ref) && TimersOk(n) && TimerAt(n, ref).pkg.Some? && ptype != ACK
    ensures SameShape(n, r.0) && TimersOk(r.0) && r.0.sendQueue == n.sendQueue
  {
    var t := TimerAt(n, ref);
    var p := t.pkg.value.(ptype := ptype, seqno := q);
    var n1 := Log(SetTimer(n, ref, t.(pkg := Some(p))), Sent(to, p));
    var key := Key(to);
    if key !in n1.senders then (n1, -1)
    else if ptype == SYN then (Arm(clk, n1, SynRef(key), to), 0)
    else if ptype == DATA then
      match SlotBySeq(n1.senders[key].window, q, 0)
      case None => (n1, -2)
      case Some(i) => (Arm(clk, n1, SlotRef(key, i), to), 0)
    else (n1, -3)
  }

  function NewSender(addr: Addr): Sender {
    Sender(addr, SYN_SENT, FIRST_SEQ, BLANK_TIMER.(pkg := Some(BLANK)), seq(5, _ => BLANK_TIMER), [])
  }

  /** getSender. */
  function GetSender(clk: Clock, n: Node, addr: Addr): (m: Node)
    requires TimersOk(n)
    ensures TimersOk(m) && Key(addr) in m.senders && n.senders.Keys <= m.senders.Keys && m.sendQueue == n.sendQueue
  {
    var key := Key(addr);
    if key in n.senders then n
    else SendTimed(clk, n.(senders := n.senders[key := NewSender(addr)]), addr, SYN, FIRST_SEQ, SynRef(key)).0
  }

  /** send(), once sendQueue has room. */
  function Submit(n: Node, to: Addr, m: Msg): Node {
    Log(n, Submitted(to, m)).(sendQueue := n.sendQueue + [SendPack(to, m)])
  }

  /** At most the head was popped. */
  predicate Popped(q: seq<SendPack>, r: seq<SendPack>) {
    r == q || (q != [] && r == q[1..])
  }

  /** n after the head of sendQueue became the fragments queued at its sender. */
  function Dequeued(n: Node): (m: Node)
    requires n.sendQueue != [] && Key(n.sendQueue[0].toaddr) in n.senders
    ensures TimersOk(n) ==> TimersOk(m)
  {
    var pack := n.sendQueue[0];
    var key := Key(pack.toaddr);
    n.(sendQueue := n.sendQueue[1..], senders := n.senders[key := n.senders[key].(dataQueue := Fragments(pack.msg))])
  }

  /** The first half of checkSendQueue: take one message if its peer has nothing queued. */
  function TakeMessage(clk: Clock, n: Node): (m: Node)
    requires TimersOk(n)
    ensures TimersOk(m) && Popped(n.sendQueue, m.sendQueue)
  {
    if n.sendQueue == [] then n
    else
      var n1 := GetSender(clk, n, n.sendQueue[0].toaddr);
      if n1.senders[Key(n.sendQueue[0].toaddr)].dataQueue != [] then n1 else Dequeued(n1)
  }

  /** The body of the inner loop of checkSendQueue: number, place and send one packet. */
  function Transmit(clk: Clock, n: Node, k: int, i: nat): (m: Node)
    requires TimersOk(n) && k in n.senders && n.senders[k].dataQueue != [] && i < |n.senders[k].window|
    ensures TimersOk(m) && m.senders.Keys == n.senders.Keys && Backlog(m, k) == Backlog(n, k) - 1
    ensures m.sendQueue == n.sendQueue
  {
    var ss := n.senders[k];
    var q := (ss.seqno + 1) % 0x1_0000_0000;
    var t := ss.window[i].(tryCount := 0, pkg := Some(ss.dataQueue[0]));
    var ss' := ss.(seqno := q, window := ss.window[i := t], dataQueue := ss.dataQueue[1..]);
    SendTimed(clk, n.(senders := n.senders[k := ss']), ss.toaddr, DATA, q, SlotRef(k, i)).0
  }

  /** How many packets wait for the sender at key k. */
  function Backlog(n: Node, k: int): nat {
    if k in n.senders then |n.senders[k].dataQueue| else 0
  }

  /** The slot the inner loop of checkSendQueue would use next, if it would go on. */
  function NextSlot(n: Node, k: int): (r: Option<nat>)
    requires k in n.senders
    ensures r.Some? ==> n.senders[k].dataQueue != [] && r.value < |n.senders[k].window|
                        && n.senders[k].window[r.value].pkg.None?
  {
    var ss := n.senders[k];
    if ss.dataQueue == [] then None
    else EmptySlot(ss.window, ToInt32((ss.seqno + 1) % 0x1_0000_0000))
  }

  /** The inner loop of checkSendQueue. */
  function Fill(clk: Clock, n: Node, k: int): (m: Node)
    requires TimersOk(n) && k in n.senders
    ensures TimersOk(m) && m.senders.Keys == n.senders.Keys && m.sendQueue == n.sendQueue
    decreases Backlog(n, k)
  {
    var slot := NextSlot(n, k);
    if slot.None? then n else Fill(clk, Transmit(clk, n, k, slot.value), k)
  }

  /** The outer loop of checkSendQueue: the senders in key order. */
  ghost function FillAll(clk: Clock, n: Node, keys: set<int>): (m: Node)
    requires TimersOk(n) && keys <= n.senders.Keys
    ensures TimersOk(m) && m.senders.Keys == n.senders.Keys && m.sendQueue == n.sendQueue
    decreases keys
  {
    if !(exists k :: k in keys) then n
    else
      var k := Least(keys);
      FillAll(clk, Fill(clk, n, k), keys - {k})
  }

  /** checkSendQueue. */
  ghost function CheckSendQueue(clk: Clock, n: Node): (m: Node)
    requires TimersOk(n)
    ensures TimersOk(m) && Popped(n.sendQueue, m.sendQueue)
  {
    var n1 := TakeMessage(clk, n);
    FillAll(clk, n1, n1.senders.Keys)
  }

  // ---------- timeouts ----------

  /** The results that stand for a dereference of a null packet pointer, and for an
      acknowledgement on the timer list; processTimeout never meets either. */
  const NULL_PACKET: int := -99
  const ACK_EVENT: int := -98

  /** processTimeout: the new state and the result. */
  function ProcessTimeout(clk: Clock, n: Node, ref: TimerRef): (r: (Node, int))
    requires RefOk(n, ref) && TimersOk(n)
    ensures TimersOk(r.0) && r.0.sendQueue == n.sendQueue
  {
    var t := TimerAt(n, ref);
    var key := Key(t.toaddr);
    if key !in n.senders then (n, -1)
    else if t.pkg.None? then (n, NULL_PACKET)
    else ProcessPacketTimeout(clk, n, ref, t, t.pkg.value, key)
  }

  function ProcessPacketTimeout(clk: Clock, n: Node, ref: TimerRef, t: Timer, p: Pkg, key: int): (r: (Node, int))
    requires RefOk(n, ref) && TimersOk(n) && t == TimerAt(n, ref) && t.pkg == Some(p) && key in n.senders
    ensures TimersOk(r.0) && r.0.sendQueue == n.sendQueue
  {
    if p.ptype == SYN && ref != SynRef(key) then (n, -1)
    else if p.ptype == FIN then (n, -1)
    else if p.ptype == ACK then (n, ACK_EVENT)
    else if p.ptype == DATA && (match SlotBySeq(n.senders[key].window, p.seqno, 0)
                                case None => true
                                case Some(i) => ref != SlotRef(key, i)) then (n, -1)
    else if t.tryCount >= MAXRETRANS then (Log(n, TimedOut(t.toaddr, p.sid, p.seqno)), 0)
    else SendTimed(clk, SetTimer(n, ref, t.(tryCount := t.tryCount + 1)), t.toaddr, p.ptype, p.seqno, ref)
  }

  // ---------- receiving ----------

  function AckOfSyn(p: Pkg): Pkg {
    p.(ptype := ACK, data := [])
  }

  /** The acknowledgement of a DATA packet carries the offset behind it. */
  function AckOfData(p: Pkg): Pkg {
    p.(ptype := ACK, offset := p.offset + |p.data|, data := [])
  }

  /** A SYN resets the receiver unless nothing has been accepted since the last SYN. */
  function OnSyn(n: Node, from: Addr, p: Pkg): Node {
    var key := Key(from);
    var keep := key in n.receivers && n.receivers[key].status == OPENING;
    var kept := if key in n.receivers && !keep then n.receivers - {Key(n.receivers[key].fromaddr)} else n.receivers;
    var n1 := if keep then n else Log(n, NewReceiver(from));
    var sessions := if keep then n.receivers[key].sessions else map[];
    var rs := Receiver(if keep then n.receivers[key].fromaddr else from, OPENING, (p.seqno + 1) % 0x1_0000_0000,
        sessions);
    SendAck(n1.(receivers := kept[key := rs]), from, AckOfSyn(p))
  }

  /** dataRecv for one receiver, with the events it raises. */
  function DataRecv(n: Node, key: int, p: Pkg): Node
    requires key in n.receivers
  {
    var rs := n.receivers[key];
    var a := Absorb(Assembly(rs.sessions, [], false), p);
    var n1 := n.(receivers := n.receivers[key := rs.(sessions := a.sessions)]);
    var n2 := if a.overrun then Log(n1, Overrun(rs.fromaddr)) else n1;
    if a.delivered == [] then n2 else Log(n2, Delivered(rs.fromaddr, a.delivered[0]))
  }

  function OnData(n: Node, from: Addr, p: Pkg): Node {
    var key := Key(from);
    if key !in n.receivers || n.receivers[key].status == SYN_SENT then n
    else
      var rs := n.receivers[key];
      if p.seqno < (rs.expectedSeq - WINDOW) % 0x1_0000_0000 || rs.expectedSeq < p.seqno then n
      else if p.seqno == rs.expectedSeq then
        var rs' := rs.(status := OPEN, expectedSeq := (p.seqno + 1) % 0x1_0000_0000);
        SendAck(DataRecv(n.(receivers := n.receivers[key := rs']), key, p), from, AckOfData(p))
      else SendAck(n, from, AckOfData(p))
  }

  function OnFin(n: Node, from: Addr, p: Pkg): Node {
    var key := Key(from);
    if key !in n.receivers then SendAck(n, from, p)
    else if p.seqno != n.receivers[key].expectedSeq then n
    else
      var n1 := SendAck(n, from, p.(data := []));
      n1.(receivers := n1.receivers - {Key(n.receivers[key].fromaddr)})
  }

  function OnAck(n: Node, from: Addr, p: Pkg): Node {
    var key := Key(from);
    if key !in n.senders then n
    else
      var ss := n.senders[key];
      if ss.status == SYN_SENT then
        if ss.syn.pkg.None? || p.seqno != ss.syn.pkg.value.seqno then n
        else
          var n1 := DeleteTimer(n, SynRef(key));
          Log(n1.(senders := n1.senders[key := ss.(status := OPEN, syn := ss.syn.(pkg := None))]), Opened(from))
      else if ss.status == OPEN then
        match SlotBySeq(ss.window, p.seqno, 0)
        case None => n
        case Some(i) =>
          var n1 := DeleteTimer(n, SlotRef(key, i));
          var n2 := n1.(senders := n1.senders[key := ss.(window := ss.window[i := ss.window[i].(pkg := None)])]);
          Log(n2, Acked(from, p, p.totallen == p.offset))
      else n
  }

  /** processReceive of a packet that passed the CRC check. */
  function ProcessReceive(n: Node, from: Addr, p: Pkg): (m: Node)
    ensures m.sendQueue == n.sendQueue
  {
    match p.ptype
    case SYN => OnSyn(n, from, p)
    case DATA => OnData(n, from, p)
    case FIN => OnFin(n, from, p)
    case ACK => OnAck(n, from, p)
    case UNSET => n
  }

  /** Whether processReceive answers the packet: a SYN always, DATA in the window of a receiver,
      a FIN that fits or finds no receiver. */
  predicate Acknowledges(n: Node, from: Addr, p: Pkg) {
    var key := Key(from);
    match p.ptype
    case SYN => true
    case DATA =>
      && key in n.receivers && n.receivers[key].status != SYN_SENT
      && (n.receivers[key].expectedSeq - WINDOW) % 0x1_0000_0000 <= p.seqno <= n.receivers[key].expectedSeq
    case FIN => key in n.receivers ==> p.seqno == n.receivers[key].expectedSeq
    case _ => false
  }

  /** The result of processReceive: that of the sendto of its answer, or 0. */
  function ReceiveResult(n: Node, from: Addr, p: Pkg, sent: int): int {
    if Acknowledges(n, from, p) then sent else 0
  }

  // ---------- the event loop ----------

  /** What an iteration finds on the socket; sent is what sendto will say to an answer. */
  datatype Input = Nothing | Packet(from: Addr, pkg: Pkg, sent: int)

  /** The timer at the head of the list is due at this clock reading. */
  predicate Due(n: Node, start: int)
    requires TimersOk(n)
  {
    n.timers != [] && TimerAt(n, n.timers[0]).timeout - start <= 0
  }

  /** The head event fires and its list node is erased. */
  function FireHead(clk: Clock, n: Node): (r: (Node, int))
    requires TimersOk(n) && n.timers != []
    ensures r.0.sendQueue == n.sendQueue
  {
    var (m, ret) := ProcessTimeout(clk, n, n.timers[0]);
    (m.(timers := if m.timers == [] then [] else m.timers[1..]), ret)
  }

  /** This iteration serves a timer. */
  ghost predicate Fires(clk: Clock, n: Node)
    requires TimersOk(n)
  {
    Due(CheckSendQueue(clk, n.(ticks := n.ticks + 1)), clk(n.ticks))
  }

  /** One iteration of loop() and its verdict: -1 leaves the loop.  A due timer is served first,
      and the socket is then left for the next iteration. */
  ghost function LoopStep(clk: Clock, n: Node, input: Input): (r: (Node, int))
    requires TimersOk(n)
    ensures Popped(n.sendQueue, r.0.sendQueue)
  {
    var n1 := CheckSendQueue(clk, n.(ticks := n.ticks + 1));
    if Due(n1, clk(n.ticks)) then
      var (m, ret) := FireHead(clk, n1);
      (m, if ret < 0 then -1 else 0)
    else
      match input
      case Nothing => (n1, 0)
      case Packet(from, p, sent) =>
        (ProcessReceive(n1, from, p), if ReceiveResult(n1, from, p, sent) < 0 then -1 else 0)
  }

  /** loop() over a sequence of inputs: a negative result ends it. */
  ghost function LoopRun(clk: Clock, n: Node, inputs: seq<Input>): (Node, int) {
    if inputs == [] then (n, 0)
    else
      var (m, ret) := LoopRun(clk, n, inputs[..|inputs| - 1]);
      if ret < 0 || !TimersOk(m) then (m, ret) else LoopStep(clk, m, inputs[|inputs| - 1])
  }

  lemma {:induction false} LoopRunEnds(clk: Clock, n: Node, inputs: seq<Input>, k: nat)
    requires k <= |inputs| && LoopRun(clk, n, inputs[..k]).1 < 0
    ensures LoopRun(clk, n, inputs) == LoopRun(clk, n, inputs[..k])
  {
    hide LoopStep;
    if k == |inputs| {
      assert inputs[..k] == inputs;
    } else {
      assert inputs[..|inputs| - 1][..k] == inputs[..k];
      LoopRunEnds(clk, n, inputs[..|inputs| - 1], k);
    }
  }
}
