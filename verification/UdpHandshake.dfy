/** The SYN and its answer: once the peer has read the SYN, its answer opens the sender whenever it comes. */
module UdpHandshake {
  import opened UdpTypes
  import opened UdpNode
  import opened UdpSender
  import opened UdpTimers
  import opened UdpReceiver
  import opened UdpLink
  import opened UdpEngine
  import opened UdpLoop
  import opened UdpIteration
  import opened UdpWorld
  import opened UdpStall

  // ---------- what b has logged about a stays ----------

  lemma StepReplies(cfg: Config, w: World, act: Action, w': World, a: Addr, b: Addr)
    requires WorldInv(w) && Step(cfg, w, act, w')
    ensures forall e | e in In(w, a, b).log :: e in In(w', a, b).log
  {
    hide WorldInv, Step, ReadBy, MayArrive, NodeInv, NodeGrows, IncomingOf, InPacket;
    StepInv(cfg, w, act, w');
    StepElsewhere(cfg, w, act, w', b);
    if act.at == b {
      var read := if act.Loop? then ReadAt(cfg, w, act) else Nothing;
      assert IncomingStep(w(b), w'(b), read, a);
      if read.Packet? && read.from == a {
        InPacketLogs(In(w, a, b), a, read.pkg);
      }
    }
  }

  lemma {:induction false} RepliesStay(cfg: Config, ws: seq<World>, acts: seq<Action>, i: nat, j: nat, a: Addr, b: Addr)
    requires Run(cfg, ws, acts) && i <= j < |ws|
    ensures forall e | e in In(ws[i], a, b).log :: e in In(ws[j], a, b).log
  {
    hide WorldInv, Step, In;
    if i < j {
      RepliesStay(cfg, ws, acts, i, j - 1, a, b);
      RunInv(cfg, ws, acts, j - 1);
      StepReplies(cfg, ws[j - 1], acts[j - 1], ws[j], a, b);
    }
  }

  // ---------- both ends ----------

  /** In step i, b's loop() reads a SYN from a. */
  ghost predicate ReadsSyn(cfg: Config, ws: seq<World>, acts: seq<Action>, i: nat, a: Addr, b: Addr)
    requires i < |acts| < |ws|
  {
    acts[i].Loop? && acts[i].at == b && TimersOk(ws[i](b)) &&
    var read := ReadBy(cfg.clk(b), ws[i](b), acts[i].input);
    read.Packet? && read.from == a && read.pkg.ptype == SYN
  }

  /** The only SYN that a ever sends to b has number 100000. */
  lemma SynNumber(w: World, a: Addr, b: Addr, p: Pkg)
    requires WorldInv(w) && Sent(b, p) in w(a).log && p.ptype == SYN
    ensures p.seqno == 100000 && Key(b) in w(a).senders
  {
    hide WorldInv, LinkInv, NodeInv, Taken, NumbersOk, SenderOk, QueueOk, SendView, Pending, StreamOf;
    LinkAt(w, a, b);
    SenderInvAt(w(a), b);
    InSendView(w(a).log, Sent(b, p), b);
    var v := Out(w, a, b);
    assert v.sender.Some?;
    assert EventOk(Sent(b, p), v.sender.value.seqno, StreamOf(v));
  }

  lemma AnswerLogged(n: Node, o: Node, a: Addr, read: Input) returns (ack: Pkg)
    requires Split(n, o, read) && read.Packet? && read.from == a && read.pkg.ptype == SYN
    ensures Sent(a, ack) in IncomingOf(o, a).log && ack.ptype == ACK && ack.seqno == read.pkg.seqno
  {
    hide SendOnly, OnSyn, OnData, OnFin, OnAck, RecvView;
    var m :| SendOnly(n, m) && o == ProcessReceive(m, a, read.pkg);
    SynAnswerCarries(m, a, read.pkg);
    ack := o.log[|o.log| - 1].pkg;
    assert o.log[|o.log| - 1] == Sent(a, ack);
    InRecvView(o.log, Sent(a, ack), a);
  }

  lemma StepArrives(cfg: Config, w: World, act: Action, w': World)
    requires Step(cfg, w, act, w') && act.Loop? && act.input.Packet?
    ensures Sent(act.at, act.input.pkg) in w(act.input.from).log
    ensures w'(act.at) == LoopStep(cfg.clk(act.at), w(act.at), act.input).0
  {
    hide LoopStep;
  }

  /** b answers it in that step. */
  lemma SynAnswered(cfg: Config, ws: seq<World>, acts: seq<Action>, i: nat, a: Addr, b: Addr) returns (ack: Pkg)
    requires Run(cfg, ws, acts) && i < |acts| && ReadsSyn(cfg, ws, acts, i, a, b)
    ensures Sent(a, ack) in In(ws[i + 1], a, b).log && ack.ptype == ACK && ack.seqno == 100000
    ensures Key(b) in ws[i](a).senders
  {
    hide Step, WorldInv, NodeInv, LoopStep, NodeGrows, Split, IncomingOf, Fires;
    RunInv(cfg, ws, acts, i);
    LinkAt(ws[i], b, b);
    LoopStepKeeps(cfg.clk(b), ws[i](b), acts[i].input);
    StepArrives(cfg, ws[i], acts[i], ws[i + 1]);
    SynNumber(ws[i], a, b, acts[i].input.pkg);
    ack := AnswerLogged(ws[i](b), ws[i + 1](b), a, acts[i].input);
  }

  /** An ACK with the number of the SYN opens the sender and takes the SYN off the timer list. */
  lemma AckOpens(n: Node, b: Addr, ack: Pkg)
    requires NodeInv(n) && Key(b) in n.senders && n.senders[Key(b)].status == SYN_SENT && ack.seqno == 100000
    ensures var o := OnAck(n, b, ack);
            && Key(b) in o.senders && o.senders[Key(b)].status == OPEN && SynRef(Key(b)) !in o.timers
            && forall r | r in n.timers && r != SynRef(Key(b)) :: r in o.timers
  {
    hide NodeInv, OutgoingOf, OutgoingInv, Key, DeadlineOf;
    SenderAt(n, b);
    InvParts(n);
    RemoveElements(n.timers, SynRef(Key(b)));
  }

  /** In every run: once b has read a SYN from a, it has logged an answer that, if a reads it while it
      still waits for one, leaves a's sender open and its SYN off the timer list. */
  lemma HandshakeCompletes(cfg: Config, ws: seq<World>, acts: seq<Action>, i: nat, j: nat, a: Addr, b: Addr)
      returns (ack: Pkg)
    requires Run(cfg, ws, acts) && i < j < |ws| && ReadsSyn(cfg, ws, acts, i, a, b)
    ensures Sent(a, ack) in ws[j](b).log && ack.ptype == ACK && Key(b) in ws[j](a).senders
    ensures ws[j](a).senders[Key(b)].status == SYN_SENT ==>
              var o := OnAck(ws[j](a), b, ack);
              Key(b) in o.senders && o.senders[Key(b)].status == OPEN && SynRef(Key(b)) !in o.timers
  {
    hide Step, WorldInv, NodeInv, OnAck, RecvView, ReadsSyn, Advances;
    ack := SynAnswered(cfg, ws, acts, i, a, b);
    RepliesStay(cfg, ws, acts, i + 1, j, a, b);
    RecvViewIn(ws[j](b).log, Sent(a, ack), a);
    RunAdvances(cfg, ws, acts, i, j, a, b);
    SenderStays(Out(ws[i], a, b), Out(ws[j], a, b));
    RunInv(cfg, ws, acts, j);
    LinkAt(ws[j], a, b);
    if ws[j](a).senders[Key(b)].status == SYN_SENT {
      AckOpens(ws[j](a), b, ack);
    }
  }

  /** An acknowledgement without a sender, of another number than the SYN's while that is pending, or of
      a number that is in no slot afterwards, changes nothing. */
  lemma OtherAcksIgnored(n: Node, b: Addr, ack: Pkg)
    requires NodeInv(n)
    requires Key(b) in n.senders ==>
               var ss := n.senders[Key(b)];
               if ss.status == SYN_SENT then ack.seqno != 100000
               else forall i | Occupied(ss.window, i) :: SeqAt(ss.window, i) != ack.seqno
    ensures OnAck(n, b, ack) == n
  {
    hide NodeInv, OutgoingOf, OutgoingInv, Key;
    if Key(b) in n.senders {
      SenderAt(n, b);
      InWindowMeaning(n.senders[Key(b)].window, ack.seqno);
    }
  }
}
