/**
 A run in which one message is delivered twice: a duplicate SYN resets the receiver after it
 has delivered, and a retransmitted or duplicated DATA packet is then accepted again.
 */
module UdpWitness {
  import opened Seqs
  import opened UdpTypes
  import opened UdpStream
  import opened UdpNode
  import opened UdpSender
  import opened UdpSteps
  import opened UdpReceiver
  import opened UdpLink
  import opened UdpEngine
  import opened UdpLoop
  import opened UdpWorld

  const A: Addr := Addr(1, 1)
  const B: Addr := Addr(2, 2)
  const HELLO: Msg := Msg(7, [1])
  const FIRST_DATA: Pkg := Pkg(DATA, 1, 0, 100001, 7, [1])

  function Stopped(c: Addr): Clock {
    t => 0
  }

  function OneSecond(c: Addr): int {
    1000
  }

  const CFG: Config := Config(Stopped, OneSecond)

  // ---------- the sender: one iteration sends the SYN and the only fragment ----------

  lemma HelloFragments()
    ensures Fragments(HELLO) == [FIRST_DATA.(ptype := UNSET, seqno := 0)]
  {
    assert NumFragments(1) == 1;
    assert HELLO.bytes[0..1] == [1];
  }

  /** A's engine after send(): the sender created and its SYN sent. */
  lemma Created(clk: Clock, n: Node) returns (m: Node)
    requires n.senders == map[] && n.timers == [] && n.sendQueue == [SendPack(B, HELLO)] && clk(n.ticks) == 0
              && n.timeoutms == 1000
    requires TimersOk(n)
    ensures m == TakeMessage(clk, n) && TimersOk(m)
    ensures m.log == n.log + [Sent(B, SYN_PKG)] && m.timers == [SynRef(Key(B))]
    ensures m.senders == map[Key(B) := NewSender(B).(syn := Timer(1000, 0, B, Some(SYN_PKG)),
              dataQueue := Fragments(HELLO))]
    ensures m.ticks == n.ticks + 1 && m.timeoutms == 1000
  {
    hide Key, Fragments;
    GetSenderIs(clk, n, B);
    m := TakeMessage(clk, n);
    var w := OutCreate(OutgoingOf(n, B), B, 1000);
    var p := Put(n, B, w.sender.value, Sent(B, SYN_PKG), [], n.ticks + 1);
    assert AddTimer(p, SynRef(Key(B))).timers == [SynRef(Key(B))];
  }

  lemma Filled(clk: Clock, n: Node) returns (m: Node)
    requires TimersOk(n) && n.timers == [SynRef(Key(B))] && clk(n.ticks) == 0 && n.timeoutms == 1000
    requires n.senders == map[Key(B) := NewSender(B).(syn := Timer(1000, 0, B, Some(SYN_PKG)),
              dataQueue := Fragments(HELLO))]
    ensures m == FillAll(clk, n, n.senders.Keys) && TimersOk(m)
    ensures m.log == n.log + [Sent(B, FIRST_DATA)]
    ensures m.timers != [] && TimerAt(m, m.timers[0]).timeout == 1000
  {
    hide Key, Fragments;
    HelloFragments();
    var k := Key(B);
    var ss := n.senders[k];
    var free := NextSlot(n, k);
    assert forall i :: !Occupied(ss.window, i);
    EmptySlotMeaning(ss.window, ss.seqno + 1);
    assert !Occupied(ss.window, 0);
    TransmitIs(clk, n, k, free.value);
    m := Transmit(clk, n, k, free.value);
    assert NextPkg(ss) == FIRST_DATA;
    assert m.senders[k].dataQueue == [];
    assert NextSlot(m, k).None?;
    assert Fill(clk, n, k) == Fill(clk, m, k) == m;
    assert k in n.senders.Keys && Least(n.senders.Keys) == k;
    assert n.senders.Keys - {k} == {};
    assert FillAll(clk, m, {}) == m;
    assert FillAll(clk, n, n.senders.Keys) == m;
  }

  /** The first iteration of A's loop(), with a message queued. */
  lemma SenderIteration(clk: Clock, n: Node)
    requires n == Submit(NewNode(1000), B, HELLO) && clk(0) == clk(1) == clk(2) == 0
    ensures TimersOk(n) && LoopStep(clk, n, Nothing).0.log == [Submitted(B, HELLO), Sent(B, SYN_PKG), Sent(B,
              FIRST_DATA)]
  {
    hide TakeMessage, FillAll, Key, TimerAt;
    var n0 := n.(ticks := 1);
    var n1 := Created(clk, n0);
    var n2 := Filled(clk, n1);
    assert CheckSendQueue(clk, n0) == n2;
    assert LoopStep(clk, n, Nothing).0 == n2;
  }

  // ---------- the receiver ----------

  /** An engine that sends nothing. */
  predicate Idle(n: Node) {
    n.senders == map[] && n.timers == [] && n.sendQueue == []
  }

  lemma IdleIteration(clk: Clock, n: Node, p: Pkg)
    requires Idle(n) && FromOk(n, A) && p.ptype in {SYN, DATA}
    ensures TimersOk(n)
    ensures var o := LoopStep(clk, n, Packet(A, p, 0)).0;
            Idle(o) && FromOk(o, A) && IncomingOf(o, A) == InPacket(IncomingOf(n, A), A, p)
  {
    hide OnSyn, OnData, OnFin, OnAck, InSyn, InData, RecvView, Key;
    var n1 := n.(ticks := n.ticks + 1);
    assert CheckSendQueue(clk, n1) == n1;
    OnSynViews(n1, A, p);
    OnDataViews(n1, A, p);
    OnSynReceives(n1, A, p);
    OnDataReceives(n1, A, p);
    StillFrom(IncomingOf(n1, A), p);
  }

  lemma StillFrom(u: Incoming, p: Pkg)
    requires u.receiver.Some? ==> u.receiver.value.fromaddr == A
    ensures InPacket(u, A, p).receiver.Some? ==> InPacket(u, A, p).receiver.value.fromaddr == A
  {
    hide Absorb;
  }

  lemma AbsorbHello()
    ensures Absorb(EMPTY, FIRST_DATA) == Assembly(map[], [HELLO], false)
  {
    var buf := Blit(Zeros(1), 0, [1]);
    assert buf[..1] == [1];
  }

  /** A SYN and then the first packet deliver the message, unless nothing was accepted since the
      last SYN. */
  lemma SynThenData(u: Incoming) returns (w: Incoming)
    requires u.receiver.Some? ==> u.receiver.value.status == OPEN
    ensures w == InData(InSyn(u, A, SYN_PKG), A, FIRST_DATA)
    ensures AllDelivered(w.log) == AllDelivered(u.log) + [HELLO]
    ensures w.receiver.Some? && w.receiver.value.status == OPEN
  {
    hide AllDelivered, Absorb;
    AbsorbHello();
    var log1 := u.log + [NewReceiver(A)];
    var log2 := log1 + [Sent(A, AckOfSyn(SYN_PKG))];
    var log3 := log2 + [Delivered(A, HELLO)];
    AllDeliveredSnoc(u.log, NewReceiver(A));
    AllDeliveredSnoc(log1, Sent(A, AckOfSyn(SYN_PKG)));
    AllDeliveredSnoc(log2, Delivered(A, HELLO));
    AllDeliveredSnoc(log3, Sent(A, AckOfData(FIRST_DATA)));
    w := InData(InSyn(u, A, SYN_PKG), A, FIRST_DATA);
  }

  // ---------- the run ----------

  /** Engines a at A and b at B, new ones elsewhere. */
  function At(a: Node, b: Node): World {
    (c: Addr) => if c == A then a else if c == B then b else NewNode(1000)
  }

  /** The packets that reach B: a SYN and the data, and both once more. */
  function Arrival(i: nat): Input {
    Packet(A, if i % 2 == 0 then SYN_PKG else FIRST_DATA, 0)
  }

  /** B's engine after i arrivals. */
  ghost function Receiving(i: nat): (n: Node)
    ensures Idle(n) && FromOk(n, A) && TimersOk(n)
  {
    if i == 0 then NewNode(1000)
    else
      IdleIteration(Stopped(B), Receiving(i - 1), Arrival(i - 1).pkg);
      LoopStep(Stopped(B), Receiving(i - 1), Arrival(i - 1)).0
  }

  lemma TwoDeliveries()
    ensures AllDelivered(RecvView(Receiving(4).log, A)) == [HELLO, HELLO]
  {
    hide AllDelivered, LoopStep, InSyn, InData;
    var u0 := Incoming(None, []);
    assert IncomingOf(Receiving(0), A) == u0;
    forall i: nat | i < 4 ensures IncomingOf(Receiving(i + 1), A) == InPacket(IncomingOf(Receiving(i), A), A,
        Arrival(i).pkg) {
      IdleIteration(Stopped(B), Receiving(i), Arrival(i).pkg);
    }
    var u2 := SynThenData(u0);
    var u4 := SynThenData(u2);
    assert Receiving(1) == Receiving(0 + 1) && Receiving(2) == Receiving(1 + 1) && Receiving(3) == Receiving(2
        + 1) && Receiving(4) == Receiving(3 + 1);
    assert AllDelivered([]) == [] by { NothingYetDelivered(); }
  }

  lemma NothingYetDelivered()
    ensures AllDelivered([]) == []
  {
  }

  lemma SubmittedOnce()
    ensures Submits(SendView([Submitted(B, HELLO), Sent(B, SYN_PKG), Sent(B, FIRST_DATA)], B)) == [HELLO]
  {
    hide SendView, Submits;
    var l1 := [Submitted(B, HELLO)];
    var l2 := l1 + [Sent(B, SYN_PKG)];
    NoEvents();
    SendViewSnoc([], Submitted(B, HELLO), B);
    SendViewSnoc(l1, Sent(B, SYN_PKG), B);
    SendViewSnoc(l2, Sent(B, FIRST_DATA), B);
    SubmitsSnoc([], Submitted(B, HELLO));
    SubmitsSnoc(l1, Sent(B, SYN_PKG));
    SubmitsSnoc(l2, Sent(B, FIRST_DATA));
    assert [] + l1 == l1 && l2 + [Sent(B, FIRST_DATA)] == [Submitted(B, HELLO), Sent(B, SYN_PKG), Sent(B, FIRST_DATA)];
  }

  lemma NoEvents()
    ensures SendView([], B) == [] && Submits([]) == [] && Stream([]) == []
  {
  }

  lemma SendStep(b: Node)
    ensures Step(CFG, At(NewNode(1000), b), Send(A, B, HELLO), At(Submit(NewNode(1000), B, HELLO), b))
  {
    hide SendView, Submits, Stream;
    NoEvents();
    StreamSnoc([], HELLO);
    HelloFragments();
    assert [] + [HELLO] == [HELLO];
  }

  lemma LoopStepAt(a: Node, b: Node)
    requires TimersOk(a)
    ensures Step(CFG, At(a, b), Loop(A, Nothing), At(LoopStep(Stopped(A), a, Nothing).0, b))
  {
    hide LoopStep;
  }

  lemma ArrivalStep(a: Node, i: nat)
    requires Sent(B, SYN_PKG) in a.log && Sent(B, FIRST_DATA) in a.log
    ensures Step(CFG, At(a, Receiving(i)), Loop(B, Arrival(i)), At(a, Receiving(i + 1)))
  {
    hide LoopStep, TimersOk;
  }

  /** The message is submitted once and delivered twice. */
  lemma Redelivery() returns (ws: seq<World>, acts: seq<Action>)
    ensures Run(CFG, ws, acts)
    ensures var w := ws[|acts|];
            && Submits(SendView(w(A).log, B)) == [HELLO]
            && AllDelivered(RecvView(w(B).log, A)) == [HELLO, HELLO]
  {
    hide AllDelivered, LoopStep, SendView, Submits, RecvView, Step, Receiving;
    var a0 := NewNode(1000);
    var a1 := Submit(a0, B, HELLO);
    SenderIteration(Stopped(A), a1);
    var a2 := LoopStep(Stopped(A), a1, Nothing).0;
    assert a2.log[1] == Sent(B, SYN_PKG) && a2.log[2] == Sent(B, FIRST_DATA);
    ws := [At(a0, Receiving(0)), At(a1, Receiving(0)), At(a2, Receiving(0)), At(a2, Receiving(1)), At(a2,
        Receiving(2)), At(a2, Receiving(3)), At(a2, Receiving(4))];
    acts := [Send(A, B, HELLO), Loop(A, Nothing), Loop(B, Arrival(0)), Loop(B, Arrival(1)), Loop(B, Arrival(2)),
        Loop(B, Arrival(3))];
    NewAtStart();
    SendStep(Receiving(0));
    LoopStepAt(a1, Receiving(0));
    ArrivalStep(a2, 0);
    ArrivalStep(a2, 1);
    ArrivalStep(a2, 2);
    ArrivalStep(a2, 3);
    assert forall i | 0 <= i < |acts| :: Step(CFG, ws[i], acts[i], ws[i + 1]);
    TwoDeliveries();
    SubmittedOnce();
  }

  lemma NewAtStart()
    ensures Receiving(0) == NewNode(1000)
  {
  }
}
