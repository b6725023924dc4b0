/**
 Any number of engines that send each other packets over a network that may lose, duplicate,
 delay and reorder them, and the invariant of every run.
 */
module UdpWorld {
  import opened Seqs
  import opened UdpTypes
  import opened UdpStream
  import opened UdpNode
  import opened UdpSender
  import opened UdpSteps
  import opened UdpReceiver
  import opened UdpLink
  import opened UdpEngine
  import opened UdpLoop

  /** One engine at every address. */
  type World = Addr -> Node

  /** What each engine's clock shows, and its retransmission timeout. */
  datatype Config = Config(clk: Addr -> Clock, timeoutms: Addr -> int)

  /** A call of send(), or one iteration of loop(). */
  datatype Action = Send(at: Addr, to: Addr, msg: Msg) | Loop(at: Addr, input: Input)

  const QUEUE_CAPACITY: int := 10

  /** sendQueue has room, and the numbers do not run out. */
  predicate MaySend(n: Node, to: Addr, m: Msg) {
    |n.sendQueue| < QUEUE_CAPACITY && Numberable(Submits(SendView(n.log, to)) + [m])
  }

  /** The network may hand over anything that was ever sent to this engine, at any time, any
      number of times or never. */
  predicate MayArrive(w: World, at: Addr, input: Input) {
    input.Packet? ==> Sent(at, input.pkg) in w(input.from).log
  }

  /** Engine act.at does act; the others do nothing. */
  ghost predicate Step(cfg: Config, w: World, act: Action, w': World) {
    && (forall c: Addr | c != act.at :: w'(c) == w(c))
    && match act
       case Send(at, to, m) => MaySend(w(at), to, m) && w'(at) == Submit(w(at), to, m)
       case Loop(at, input) =>
         MayArrive(w, at, input) && TimersOk(w(at)) && w'(at) == LoopStep(cfg.clk(at), w(at), input).0
  }

  ghost predicate Run(cfg: Config, ws: seq<World>, acts: seq<Action>) {
    && |ws| == |acts| + 1
    && (forall a: Addr :: ws[0](a) == NewNode(cfg.timeoutms(a)))
    && forall i | 0 <= i < |acts| :: Step(cfg, ws[i], acts[i], ws[i + 1])
  }

  // ---------- the invariant ----------

  /** What a holds about sending to b, and b about receiving from a. */
  function Out(w: World, a: Addr, b: Addr): Outgoing {
    OutgoingOf(w(a), b)
  }

  function In(w: World, a: Addr, b: Addr): Incoming {
    IncomingOf(w(b), a)
  }

  ghost predicate WorldInv(w: World) {
    && (forall a: Addr :: NodeInv(w(a)))
    && forall a: Addr, b: Addr :: LinkInv(Out(w, a, b), In(w, a, b), a)
  }

  lemma NewLink(a: Addr)
    ensures LinkInv(Outgoing(None, [], []), Incoming(None, []), a)
  {
  }

  lemma InitInv(w: World, cfg: Config)
    requires forall a: Addr :: w(a) == NewNode(cfg.timeoutms(a))
    ensures WorldInv(w)
  {
    hide NodeInv, LinkInv;
    forall a: Addr ensures NodeInv(w(a)) {
      NewNodeInv(cfg.timeoutms(a));
    }
    forall a: Addr, b: Addr ensures LinkInv(Out(w, a, b), In(w, a, b), a) {
      NewLink(a);
    }
  }

  // ---------- packets in the log ----------

  lemma {:induction false} InSendView(log: seq<Event>, e: Event, b: Addr)
    requires e in log && SendsTo(e, b)
    ensures e in SendView(log, b)
  {
    if log[|log| - 1] != e {
      FrontLast(log);
      InSendView(log[..|log| - 1], e, b);
    }
  }

  lemma {:induction false} InRecvView(log: seq<Event>, e: Event, a: Addr)
    requires e in log && ReceivesFrom(e, a)
    ensures e in RecvView(log, a)
  {
    if log[|log| - 1] != e {
      FrontLast(log);
      InRecvView(log[..|log| - 1], e, a);
    }
  }

  lemma {:induction false} RecvViewIn(log: seq<Event>, e: Event, a: Addr)
    requires e in RecvView(log, a)
    ensures e in log
  {
    var front := log[..|log| - 1];
    if e in RecvView(front, a) {
      RecvViewIn(front, e, a);
      FrontLast(log);
    }
  }

  // ---------- one step ----------

  /** What an engine knows about receiving from c changes exactly by the packet it read. */
  ghost predicate IncomingStep(n: Node, o: Node, read: Input, c: Addr) {
    IncomingOf(o, c) ==
    if read.Packet? && read.from == c then InPacket(IncomingOf(n, c), c, read.pkg) else IncomingOf(n, c)
  }

  lemma SendOnlyIncoming(n: Node, o: Node, c: Addr)
    requires SendOnly(n, o)
    ensures IncomingOf(o, c) == IncomingOf(n, c)
  {
  }

  lemma OnAckIncoming(n: Node, from: Addr, p: Pkg, c: Addr)
    ensures IncomingOf(OnAck(n, from, p), c) == IncomingOf(n, c)
  {
    hide SlotBySeq, RecvView, RemoveFirst, Key;
    var m := OnAck(n, from, p);
    if m.log != n.log {
      var e := m.log[|n.log|];
      assert m.log == n.log + [e];
      RecvViewSnoc(n.log, e, c);
    }
  }

  lemma SplitIncoming(n: Node, o: Node, read: Input, c: Addr)
    requires Split(n, o, read)
    requires read.Packet? ==> FromOk(n, read.from) && read.pkg.ptype != FIN
    ensures IncomingStep(n, o, read, c)
  {
    hide SendOnly, OnSyn, OnData, OnFin, OnAck, InSyn, InData, IncomingOf;
    if read == Nothing {
      SendOnlyIncoming(n, o, c);
    } else {
      var m :| SendOnly(n, m) && o == ProcessReceive(m, read.from, read.pkg);
      SendOnlyIncoming(n, m, c);
      SendOnlyFrom(n, m, read.from);
      OnSynViews(m, read.from, read.pkg);
      OnDataViews(m, read.from, read.pkg);
      OnAckIncoming(m, read.from, read.pkg, c);
    }
  }

  lemma SendOnlyFrom(n: Node, m: Node, a: Addr)
    requires SendOnly(n, m)
    ensures FromOk(m, a) == FromOk(n, a)
  {
  }

  /** Engine at goes from n to o; its own senders and receivers, and the network, change as one
      iteration of loop() or one send() changes them. */
  ghost predicate LocalStep(w: World, at: Addr, o: Node, input: Input) {
    && NodeInv(o) && NodeGrows(w(at), o, AckInput(input))
    && MayArrive(w, at, input)
    && forall c: Addr :: IncomingStep(w(at), o, input, c)
  }

  /** An acknowledgement that arrives is in its sender's log. */
  lemma AckArrives(w: World, at: Addr, b: Addr, input: Input)
    requires MayArrive(w, at, input)
    ensures InputFrom(AckInput(input), b).Some? ==> Sent(at, InputFrom(AckInput(input), b).value) in In(w, at, b).log
  {
    if InputFrom(AckInput(input), b).Some? {
      InRecvView(w(b).log, Sent(at, input.pkg), at);
    }
  }

  /** The receiving end of link a -> b after the step. */
  lemma LinkReceives(w: World, at: Addr, o: Node, input: Input, a: Addr, b: Addr)
    requires WorldInv(w) && LocalStep(w, at, o, input)
    ensures var u' := if b == at then IncomingOf(o, a) else In(w, a, b);
            LinkInv(Out(w, a, b), u', a) && forall e | e in In(w, a, b).log :: e in u'.log
  {
    hide NodeInv, LinkInv, NodeGrows, InSyn, InData, SendView, RecvView;
    assert IncomingStep(w(at), o, input, a);
    if b == at && input.Packet? && input.from == a && input.pkg.ptype in {SYN, DATA} {
      InSendView(w(a).log, Sent(b, input.pkg), b);
      ReceiverMoves(Out(w, a, b), In(w, a, b), a, b, input.pkg) by {
        SenderInvAt(w(a), b);
      }
      InPacketLogs(In(w, a, b), a, input.pkg);
    }
  }

  lemma SenderInvAt(n: Node, b: Addr)
    requires NodeInv(n)
    ensures OutgoingInv(OutgoingOf(n, b), b)
  {
  }

  /** Both ends of link a -> b after the step. */
  lemma LinkStep(w: World, w': World, at: Addr, input: Input, a: Addr, b: Addr)
    requires WorldInv(w) && LocalStep(w, at, w'(at), input) && forall c: Addr | c != at :: w'(c) == w(c)
    ensures LinkInv(Out(w', a, b), In(w', a, b), a)
  {
    hide NodeInv, LinkInv, IncomingStep, SendView, RecvView, Grows, WorldInv, InputFrom, AckInput, MayArrive;
    LinkReceives(w, at, w'(at), input, a, b);
    if a == at {
      assert Grows(Out(w, a, b), Out(w', a, b), InputFrom(AckInput(input), b));
      AckArrives(w, at, b, input);
      SenderInvAt(w'(a), b);
      SenderMoves(Out(w, a, b), Out(w', a, b), In(w', a, b), a, b, InputFrom(AckInput(input), b));
    }
  }

  lemma LocalStepInv(w: World, w': World, at: Addr, input: Input)
    requires WorldInv(w) && LocalStep(w, at, w'(at), input) && forall c: Addr | c != at :: w'(c) == w(c)
    ensures WorldInv(w')
  {
    hide NodeInv, LinkInv, NodeGrows, IncomingStep, MayArrive;
    forall a: Addr, b: Addr ensures LinkInv(Out(w', a, b), In(w', a, b), a) {
      LinkStep(w, w', at, input, a, b);
    }
  }

  /** Nothing that arrives is a FIN, and receivers are filed under their own address. */
  lemma ArrivalOk(w: World, at: Addr, input: Input)
    requires WorldInv(w) && MayArrive(w, at, input) && input.Packet?
    ensures FromOk(w(at), input.from) && input.pkg.ptype != FIN
  {
    hide NodeInv, InPacket, IncomingInv, SendView, RecvView;
    var a := input.from;
    LinkAt(w, a, at);
    if input.pkg.ptype != ACK {
      InSendView(w(a).log, Sent(at, input.pkg), at);
      SenderInvAt(w(a), at);
      ReceiverMoves(Out(w, a, at), In(w, a, at), a, at, input.pkg);
    }
    FromOkAt(w, a, at);
  }

  lemma LinkAt(w: World, a: Addr, b: Addr)
    requires WorldInv(w)
    ensures LinkInv(Out(w, a, b), In(w, a, b), a) && NodeInv(w(a)) && NodeInv(w(b))
  {
  }

  lemma FromOkAt(w: World, a: Addr, b: Addr)
    requires LinkInv(Out(w, a, b), In(w, a, b), a)
    ensures FromOk(w(b), a)
  {
    hide RepliesOk, AllPrefix, Rebuild, AcksReal, Deliveries;
  }

  lemma StepInv(cfg: Config, w: World, act: Action, w': World)
    requires WorldInv(w) && Step(cfg, w, act, w')
    ensures WorldInv(w')
    ensures act.Send? ==> LocalStep(w, act.at, w'(act.at), Nothing)
    ensures act.Loop? ==> LocalStep(w, act.at, w'(act.at), ReadBy(cfg.clk(act.at), w(act.at), act.input))
  {
    hide NodeInv, LinkInv, NodeGrows, LoopStep, Submit, SendOnly, Split, Numberable, IncomingStep, Fires;
    var at := act.at;
    match act
    case Send(_, to, m) =>
      SubmitNode(w(at), to, m);
      SubmitIncoming(w(at), w'(at));
      LocalStepInv(w, w', at, Nothing);
    case Loop(_, input) =>
      var read := ReadBy(cfg.clk(at), w(at), input);
      LoopStepKeeps(cfg.clk(at), w(at), input);
      if read.Packet? {
        ArrivalOk(w, at, read);
      }
      forall c: Addr ensures IncomingStep(w(at), w'(at), read, c) {
        SplitIncoming(w(at), w'(at), read, c);
      }
      LocalStepInv(w, w', at, read);
  }

  lemma SubmitIncoming(n: Node, o: Node)
    requires SendOnly(n, o)
    ensures forall c: Addr :: IncomingStep(n, o, Nothing, c)
  {
    hide IncomingOf;
    forall c: Addr ensures IncomingStep(n, o, Nothing, c) {
      SendOnlyIncoming(n, o, c);
    }
  }

  /** Every state of every run satisfies the invariant. */
  lemma {:induction false} RunInv(cfg: Config, ws: seq<World>, acts: seq<Action>, i: nat)
    requires Run(cfg, ws, acts) && i < |ws|
    ensures WorldInv(ws[i])
  {
    hide WorldInv, Step;
    if i == 0 {
      InitInv(ws[0], cfg);
    } else {
      RunInv(cfg, ws, acts, i - 1);
      StepInv(cfg, ws[i - 1], acts[i - 1], ws[i]);
    }
  }
}
