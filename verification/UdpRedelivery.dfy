/**
 Redelivery is always possible: from any state of any run, late duplicates of packets already sent
 can make a receiver deliver again, from the first message on, all that it has ever delivered.
 */
module UdpRedelivery {
  import opened Seqs
  import opened UdpTypes
  import opened UdpStream
  import opened UdpNode
  import opened UdpSender
  import opened UdpSteps
  import opened UdpReceiver
  import opened UdpLink
  import opened UdpEngine
  import opened UdpLoop
  import opened UdpWorld
  import opened UdpTheorems
  import opened UdpProgress
  import opened UdpStall
  import opened UdpOnce

  // ---------- going on with a run ----------

  /** An iteration of loop() in which the sendto of the answer, if any, succeeds: it returns 0. */
  predicate Iterates(act: Action) {
    act.Loop? && (act.input.Packet? ==> act.input.sent >= 0)
  }

  /** The second run goes on from the first by such iterations. */
  ghost predicate GoesOn(cfg: Config, ws: seq<World>, acts: seq<Action>, ws': seq<World>, acts': seq<Action>) {
    && Run(cfg, ws, acts) && Run(cfg, ws', acts') && ws <= ws' && acts <= acts'
    && forall i | |acts| <= i < |acts'| :: Iterates(acts'[i])
  }

  /** It goes on by iterations of b's loop() alone. */
  ghost predicate Continues(cfg: Config, ws: seq<World>, acts: seq<Action>, ws': seq<World>, acts': seq<Action>,
      b: Addr)
  {
    GoesOn(cfg, ws, acts, ws', acts') && forall i | |acts| <= i < |acts'| :: acts'[i].at == b
  }

  lemma GoesOnTrans(cfg: Config, ws: seq<World>, acts: seq<Action>, ws': seq<World>, acts': seq<Action>,
      ws'': seq<World>, acts'': seq<Action>)
    requires GoesOn(cfg, ws, acts, ws', acts') && GoesOn(cfg, ws', acts', ws'', acts'')
    ensures GoesOn(cfg, ws, acts, ws'', acts'')
  {
    hide Run;
  }

  lemma ContinuesTrans(cfg: Config, ws: seq<World>, acts: seq<Action>, ws': seq<World>, acts': seq<Action>,
      ws'': seq<World>, acts'': seq<Action>, b: Addr)
    requires Continues(cfg, ws, acts, ws', acts', b) && Continues(cfg, ws', acts', ws'', acts'', b)
    ensures Continues(cfg, ws, acts, ws'', acts'', b)
  {
    hide Run;
  }

  lemma OneStep(cfg: Config, ws: seq<World>, acts: seq<Action>, act: Action, w': World, b: Addr)
    requires Run(cfg, ws, acts) && Step(cfg, ws[|acts|], act, w') && Iterates(act) && act.at == b
    ensures Continues(cfg, ws, acts, ws + [w'], acts + [act], b)
  {
    hide Step;
    var ws', acts' := ws + [w'], acts + [act];
    forall i | 0 <= i < |acts'| ensures Step(cfg, ws'[i], acts'[i], ws'[i + 1]) {
      if i < |acts| {
        assert ws'[i] == ws[i] && ws'[i + 1] == ws[i + 1];
      }
    }
  }

  function Last(ws: seq<World>): World
    requires ws != []
  {
    ws[|ws| - 1]
  }

  ghost predicate ElsewhereSame(w: World, w': World, b: Addr) {
    forall c: Addr | c != b :: w'(c) == w(c)
  }

  /** One more iteration of b's loop(). */
  lemma Iterate(cfg: Config, ws: seq<World>, acts: seq<Action>, b: Addr, input: Input)
      returns (ws': seq<World>, acts': seq<Action>, read: Input)
    requires Run(cfg, ws, acts) && MayArrive(Last(ws), b, input) && (input.Packet? ==> input.sent >= 0)
    ensures Continues(cfg, ws, acts, ws', acts', b)
    ensures TimersOk(Last(ws)(b)) && Last(ws')(b) == LoopStep(cfg.clk(b), Last(ws)(b), input).0
    ensures read == ReadBy(cfg.clk(b), Last(ws)(b), input)
    ensures forall a: Addr :: IncomingStep(Last(ws)(b), Last(ws')(b), read, a)
    ensures ElsewhereSame(Last(ws), Last(ws'), b)
  {
    hide Run, WorldInv, LoopStep, ReadBy, IncomingStep, MayArrive, NodeInv, NodeGrows;
    RunLength(cfg, ws, acts);
    var w := Last(ws);
    RunInv(cfg, ws, acts, |acts|);
    TimersFine(w, b);
    var o := LoopStep(cfg.clk(b), w(b), input).0;
    var w': World := c => if c == b then o else w(c);
    var act := Loop(b, input);
    assert Step(cfg, w, act, w');
    OneStep(cfg, ws, acts, act, w', b);
    StepInv(cfg, w, act, w');
    ws', acts', read := ws + [w'], acts + [act], ReadBy(cfg.clk(b), w(b), input);
  }

  lemma RunLength(cfg: Config, ws: seq<World>, acts: seq<Action>)
    requires Run(cfg, ws, acts)
    ensures |ws| == |acts| + 1
  {
    hide Step;
  }

  lemma TimersFine(w: World, b: Addr)
    requires WorldInv(w)
    ensures NodeInv(w(b)) && TimersOk(w(b))
  {
    hide NodeInv, LinkInv;
    InvParts(w(b));
  }

  /** b's loop() serves the timers that are due, until none is; what it knows about receiving stays. */
  lemma {:induction false} Drain(cfg: Config, ws: seq<World>, acts: seq<Action>, b: Addr, work: nat)
      returns (ws': seq<World>, acts': seq<Action>)
    requires Run(cfg, ws, acts) && ws != [] && Work(Last(ws)(b)) <= work
    ensures Continues(cfg, ws, acts, ws', acts', b)
    ensures TimersOk(Last(ws')(b)) && !Fires(cfg.clk(b), Last(ws')(b))
    ensures forall a: Addr :: In(Last(ws'), a, b) == In(Last(ws), a, b)
    ensures ElsewhereSame(Last(ws), Last(ws'), b)
    decreases work
  {
    hide Run, WorldInv, LoopStep, IncomingStep, NodeInv, Work, Tries, Fires, IncomingOf, Continues;
    RunLength(cfg, ws, acts);
    RunInv(cfg, ws, acts, |acts|);
    TimersFine(Last(ws), b);
    ContinuesSame(cfg, ws, acts, b);
    ws', acts' := ws, acts;
    if Fires(cfg.clk(b), Last(ws)(b)) {
      var read;
      ws', acts', read := Iterate(cfg, ws, acts, b, Nothing);
      ContinuesRun(cfg, ws, acts, ws', acts', b);
      LoopStepWork(cfg.clk(b), Last(ws)(b), Nothing);
      NothingRead(Last(ws), Last(ws'), b, read);
      WorkLeft(cfg, ws', acts', b);
      var ws1, acts1 := ws', acts';
      ws', acts' := Drain(cfg, ws1, acts1, b, work - 1);
      ContinuesTrans(cfg, ws, acts, ws1, acts1, ws', acts', b);
    }
  }

  lemma ContinuesSame(cfg: Config, ws: seq<World>, acts: seq<Action>, b: Addr)
    requires Run(cfg, ws, acts)
    ensures Continues(cfg, ws, acts, ws, acts, b)
  {
    hide Run;
  }

  lemma ContinuesRun(cfg: Config, ws: seq<World>, acts: seq<Action>, ws': seq<World>, acts': seq<Action>, b: Addr)
    requires Continues(cfg, ws, acts, ws', acts', b)
    ensures Run(cfg, ws', acts') && |ws| == |acts| + 1 && |ws'| == |acts'| + 1 && |acts| <= |acts'|
    ensures ws'[|acts|] == Last(ws)
  {
    hide Step;
  }

  lemma NothingRead(w: World, w': World, b: Addr, read: Input)
    requires read == Nothing && forall a: Addr :: IncomingStep(w(b), w'(b), read, a)
    ensures forall a: Addr :: In(w', a, b) == In(w, a, b)
  {
    hide IncomingOf;
    forall a: Addr ensures In(w', a, b) == In(w, a, b) {
      assert IncomingStep(w(b), w'(b), read, a);
    }
  }

  lemma WorkLeft(cfg: Config, ws: seq<World>, acts: seq<Action>, b: Addr)
    requires Run(cfg, ws, acts)
    ensures ws != [] && Work(Last(ws)(b)) >= 0
  {
    hide Run, WorldInv, NodeInv, Work;
    RunLength(cfg, ws, acts);
    RunInv(cfg, ws, acts, |acts|);
    TimersFine(Last(ws), b);
    WorkDone(Last(ws)(b));
  }

  // ---------- packets stay available ----------

  /** Everything projected to a peer is in the log. */
  lemma {:induction false} SendViewIn(log: seq<Event>, e: Event, b: Addr)
    requires e in SendView(log, b)
    ensures e in log && SendsTo(e, b)
  {
    var front := log[..|log| - 1];
    if e in SendView(front, b) {
      SendViewIn(front, e, b);
      FrontLast(log);
    }
  }

  /** What a sent to b can be read by b: the timers that are due come first. */
  lemma Read(cfg: Config, ws: seq<World>, acts: seq<Action>, a: Addr, b: Addr, p: Pkg)
      returns (ws': seq<World>, acts': seq<Action>)
    requires Run(cfg, ws, acts) && ws != [] && Sent(b, p) in Out(Last(ws), a, b).log
    ensures Continues(cfg, ws, acts, ws', acts', b)
    ensures In(Last(ws'), a, b) == InPacket(In(Last(ws), a, b), a, p)
  {
    hide Run, LoopStep, IncomingOf, Work, Fires, Continues, InPacket, SendView;
    WorkLeft(cfg, ws, acts, b);
    var ws1, acts1 := Drain(cfg, ws, acts, b, Work(Last(ws)(b)));
    StillSent(cfg, ws, acts, ws1, acts1, a, b, p);
    ContinuesRun(cfg, ws, acts, ws1, acts1, b);
    var input := Packet(a, p, 0);
    var read;
    ws', acts', read := Iterate(cfg, ws1, acts1, b, input);
    ContinuesRun(cfg, ws1, acts1, ws', acts', b);
    assert IncomingStep(Last(ws1)(b), Last(ws')(b), read, a);
    ContinuesTrans(cfg, ws, acts, ws1, acts1, ws', acts', b);
  }

  lemma StillSent(cfg: Config, ws: seq<World>, acts: seq<Action>, ws': seq<World>, acts': seq<Action>, a: Addr, b: Addr,
      p: Pkg)
    requires Continues(cfg, ws, acts, ws', acts', b) && ws != [] && Sent(b, p) in Out(Last(ws), a, b).log
    ensures ws' != [] && Sent(b, p) in Out(Last(ws'), a, b).log && Sent(b, p) in Last(ws')(a).log
  {
    hide Run, SendView, Continues, Taken;
    ContinuesRun(cfg, ws, acts, ws', acts', b);
    RunAdvances(cfg, ws', acts', |acts|, |acts'|, a, b);
    SendViewIn(Last(ws')(a).log, Sent(b, p), b);
  }

  // ---------- what was sent ----------

  lemma {:induction false} CountedTransmission(log: seq<Event>, q: nat) returns (e: Event)
    requires Count(log, Transmission(q)) > 0
    ensures e in log && e.Sent? && e.pkg.seqno == q
  {
    if TagOf(log[|log| - 1]) == Transmission(q) {
      e := log[|log| - 1];
    } else {
      FrontLast(log);
      e := CountedTransmission(log[..|log| - 1], q);
    }
  }

  /** The packet with number FIRST_SEQ + k: the SYN, or the k-th fragment. */
  function PacketAt(stream: seq<Pkg>, k: nat): Pkg
    requires k <= |stream|
  {
    if k == 0 then SYN_PKG else Number(stream[k - 1], FIRST_SEQ + k)
  }

  /** Every number in use has been transmitted. */
  lemma WasSent(n: Node, b: Addr, k: nat)
    requires OutgoingInv(OutgoingOf(n, b), b) && Key(b) in n.senders
    requires FIRST_SEQ + k <= n.senders[Key(b)].seqno
    ensures k <= |StreamOf(OutgoingOf(n, b))|
    ensures Sent(b, PacketAt(StreamOf(OutgoingOf(n, b)), k)) in OutgoingOf(n, b).log
  {
    hide Count, Taken, StreamOf, QueueOk, WindowOk, SynOk, SendView, InWindow;
    var v := OutgoingOf(n, b);
    assert NumberOk(v.log, v.sender.value, FIRST_SEQ + k);
    var e := CountedTransmission(v.log, FIRST_SEQ + k);
    SendViewIn(n.log, e, b);
    assert EventOk(e, v.sender.value.seqno, StreamOf(v));
  }

  // ---------- the whole stream once more ----------

  /** The last reply to a is an acknowledgement with number q. */
  predicate LastReply(log: seq<Event>, a: Addr, q: nat) {
    && log != [] && log[|log| - 1].Sent? && log[|log| - 1].peer == a
    && log[|log| - 1].pkg.ptype == ACK && log[|log| - 1].pkg.seqno == q
  }

  /** A receiver's deliveries after it was started again and read the first k fragments. */
  ghost predicate Replayed(u: Incoming, log: seq<Event>, k: nat) {
    && u.receiver.Some? && u.receiver.value.expectedSeq == FIRST_SEQ + 1 + k
    && AllDelivered(u.log) == AllDelivered(log) + Deliveries(u.log)
  }

  lemma DataReply(u: Incoming, a: Addr, p: Pkg)
    requires u.receiver.Some? && u.receiver.value.status != SYN_SENT
    requires WINDOW <= p.seqno == u.receiver.value.expectedSeq < INT_MAX
    ensures LastReply(InData(u, a, p).log, a, p.seqno)
  {
    hide Absorb;
    assert (p.seqno - WINDOW) % 0x1_0000_0000 == p.seqno - WINDOW;
  }

  lemma SynReply(u: Incoming, a: Addr)
    ensures LastReply(InSyn(u, a, SYN_PKG).log, a, FIRST_SEQ)
  {
  }

  lemma SynReplays(u: Incoming, a: Addr)
    requires u.receiver.Some? && u.receiver.value.status == OPENING ==> Deliveries(u.log) == []
    ensures Replayed(InPacket(u, a, SYN_PKG), u.log, 0) && LastReply(InPacket(u, a, SYN_PKG).log, a, FIRST_SEQ)
  {
    hide AllDelivered, Deliveries, Makers, Count, AckOfSyn;
    SynGains(u, a, SYN_PKG);
    SynReply(u, a);
    assert AllDelivered(u.log) + [] == AllDelivered(u.log);
    assert (FIRST_SEQ + 1) % 0x1_0000_0000 == FIRST_SEQ + 1;
  }

  /** What the current incarnation has accepted is what it has delivered. */
  lemma Accepted(v: Outgoing, u: Incoming, a: Addr)
    requires LinkInv(v, u, a) && u.receiver.Some?
    ensures var k := u.receiver.value.expectedSeq - FIRST_SEQ - 1;
            0 <= k <= |StreamOf(v)| && Deliveries(u.log) == Rebuild(StreamOf(v), k).delivered
    ensures u.receiver.value.status != SYN_SENT
    ensures u.receiver.value.status == OPENING ==> Deliveries(u.log) == []
  {
    hide RepliesOk, AllPrefix, Deliveries, Taken, Stream, NonEmpty, AcksReal, Best;
  }

  lemma DataReplays(u: Incoming, log: seq<Event>, a: Addr, p: Pkg, k: nat)
    requires Replayed(u, log, k) && u.receiver.value.status != SYN_SENT && p.ptype == DATA
    requires p.seqno == FIRST_SEQ + 1 + k < INT_MAX
    ensures Replayed(InPacket(u, a, p), log, k + 1) && LastReply(InPacket(u, a, p).log, a, p.seqno)
  {
    hide AllDelivered, Deliveries, Makers, Count, Absorb, AckOfData;
    var ds := DataGains(u, a, p);
    DataReply(u, a, p);
    assert (p.seqno + 1) % 0x1_0000_0000 == p.seqno + 1;
    assert (p.seqno - WINDOW) % 0x1_0000_0000 == p.seqno - WINDOW;
    assert AllDelivered(log) + (Deliveries(u.log) + ds) == AllDelivered(log) + Deliveries(u.log) + ds;
  }

  /** A receiver implies a sender, which has numbered at least what any incarnation delivered. */
  lemma SenderBehind(w: World, a: Addr, b: Addr)
    requires WorldInv(w) && Key(a) in w(b).receivers
    ensures Key(b) in w(a).senders && FIRST_SEQ <= w(a).senders[Key(b)].seqno
    ensures var n := Position(w(a).senders[Key(b)].seqno);
            n <= |StreamOf(Out(w, a, b))|
            && Best(In(w, a, b).log) <= |Rebuild(StreamOf(Out(w, a, b)), n).delivered|
  {
    hide RepliesOk, AllPrefix, Deliveries, Taken, Stream, NonEmpty, AcksReal, Best, ReceiverOk, OutgoingInv, NodeInv,
        SendView, RecvView, Pending, WorldInv;
    LinkAt(w, a, b);
    SenderInvAt(w(a), b);
    assert Out(w, a, b).sender.Some?;
    ToAddr(Out(w, a, b), b);
  }

  lemma SenderBounds(w: World, a: Addr, b: Addr)
    requires WorldInv(w) && Key(b) in w(a).senders
    ensures OutgoingInv(Out(w, a, b), b) && LinkInv(Out(w, a, b), In(w, a, b), a)
    ensures w(a).senders[Key(b)].seqno < INT_MAX - 10
  {
    hide LinkInv, Taken, Stream, OutgoingInv, NodeInv, SendView, Pending, WorldInv, IncomingOf;
    LinkAt(w, a, b);
    SenderInvAt(w(a), b);
    ToAddr(Out(w, a, b), b);
  }

  /** Reading the SYN and the first k fragments again. */
  lemma {:induction false} Replay(cfg: Config, ws: seq<World>, acts: seq<Action>, a: Addr, b: Addr, k: nat)
      returns (ws': seq<World>, acts': seq<Action>)
    requires Run(cfg, ws, acts) && ws != [] && Key(b) in Last(ws)(a).senders
    requires FIRST_SEQ + k <= Last(ws)(a).senders[Key(b)].seqno
    ensures Continues(cfg, ws, acts, ws', acts', b) && ws' != []
    ensures Replayed(In(Last(ws'), a, b), In(Last(ws), a, b).log, k)
    ensures LastReply(In(Last(ws'), a, b).log, a, FIRST_SEQ + k)
  {
    hide Run, WorldInv, Step, Continues, OutgoingInv, LinkInv, InPacket, IncomingOf, OutgoingOf, StreamOf, Rebuild,
        Best, SendView, NodeInv, AllDelivered, Deliveries;
    RunLength(cfg, ws, acts);
    RunInv(cfg, ws, acts, |acts|);
    SenderBounds(Last(ws), a, b);
    WasSent(Last(ws)(a), b, k);
    var v, u := Out(Last(ws), a, b), In(Last(ws), a, b);
    var p := PacketAt(StreamOf(v), k);
    if k == 0 {
      ws', acts' := Read(cfg, ws, acts, a, b, p);
      OpeningIsNew(v, u, a);
      SynReplays(u, a);
    } else {
      var ws1, acts1 := Replay(cfg, ws, acts, a, b, k - 1);
      StillSent(cfg, ws, acts, ws1, acts1, a, b, p);
      ContinuesRun(cfg, ws, acts, ws1, acts1, b);
      StatusKnown(cfg, ws1, acts1, a, b);
      ws', acts' := Read(cfg, ws1, acts1, a, b, p);
      DataReplays(In(Last(ws1), a, b), u.log, a, p, k - 1);
      ContinuesTrans(cfg, ws, acts, ws1, acts1, ws', acts', b);
    }
    ContinuesRun(cfg, ws, acts, ws', acts', b);
  }

  lemma OpeningIsNew(v: Outgoing, u: Incoming, a: Addr)
    requires LinkInv(v, u, a)
    ensures u.receiver.Some? && u.receiver.value.status == OPENING ==> Deliveries(u.log) == []
  {
    hide LinkInv, Deliveries, StreamOf, Rebuild;
    if u.receiver.Some? {
      Accepted(v, u, a);
    }
  }

  lemma StatusKnown(cfg: Config, ws: seq<World>, acts: seq<Action>, a: Addr, b: Addr)
    requires Run(cfg, ws, acts) && ws != []
    ensures In(Last(ws), a, b).receiver.Some? ==> In(Last(ws), a, b).receiver.value.status != SYN_SENT
  {
    hide Run, WorldInv, IncomingOf;
    RunLength(cfg, ws, acts);
    RunInv(cfg, ws, acts, |acts|);
    ReceiverThere(Last(ws), a, b);
  }

  lemma {:induction false} BestPositive(log: seq<Event>)
    requires AllDelivered(log) != []
    ensures Best(log) > 0
  {
    var front := log[..|log| - 1];
    if !log[|log| - 1].Delivered? {
      BestPositive(front);
    }
  }

  lemma RepeatsThen(log: seq<Event>, log': seq<Event>)
    requires AllDelivered(log') == AllDelivered(log) + Deliveries(log')
    requires AllDelivered(log) != [] && Deliveries(log') != []
    ensures !NoRepeat(log')
  {
    hide AllDelivered, Deliveries, Indices, Makers;
    CurrentLast(log');
    NumberedByMaker(log', 0);
    assert Indices(log')[|AllDelivered(log)|] == 0;
  }

  /** From every state of every run in which b has a receiver for a, some continuation of b's loop()
      alone delivers the first r messages again, where r is no less than the most that any incarnation
      has delivered so far. */
  lemma RedeliveryPossible(cfg: Config, ws: seq<World>, acts: seq<Action>, a: Addr, b: Addr)
      returns (ws': seq<World>, acts': seq<Action>, r: nat)
    requires Run(cfg, ws, acts) && ws != [] && Key(a) in Last(ws)(b).receivers
    ensures Continues(cfg, ws, acts, ws', acts', b) && ws' != []
    ensures Best(RecvView(Last(ws)(b).log, a)) <= r <= |SubmittedTo(Last(ws), a, b)|
    ensures AllDelivered(RecvView(Last(ws')(b).log, a))
         == AllDelivered(RecvView(Last(ws)(b).log, a)) + SubmittedTo(Last(ws), a, b)[..r]
    ensures AllDelivered(RecvView(Last(ws)(b).log, a)) != [] ==> 0 < r && !NoRepeat(RecvView(Last(ws')(b).log, a))
  {
    hide Run, WorldInv, Step, Continues, OutgoingInv, LinkInv, Taken, Stream, Rebuild, Best, SendView, RecvView,
        NodeInv, AllDelivered, Deliveries, NoRepeat, NonEmpty, Submits;
    RunLength(cfg, ws, acts);
    RunInv(cfg, ws, acts, |acts|);
    SenderBehind(Last(ws), a, b);
    SenderBounds(Last(ws), a, b);
    var v, u := Out(Last(ws), a, b), In(Last(ws), a, b);
    var n := Position(v.sender.value.seqno);
    ws', acts' := Replay(cfg, ws, acts, a, b, n);
    ReplayedStream(cfg, ws, acts, ws', acts', a, b, n);
    RebuildPrefix(Taken(v), n);
    TakenAreSubmitted(v, b);
    r := |Rebuild(StreamOf(v), n).delivered|;
    if AllDelivered(u.log) != [] {
      BestPositive(u.log);
      RepeatsThen(u.log, In(Last(ws'), a, b).log);
    }
  }

  lemma ReplayedStream(cfg: Config, ws: seq<World>, acts: seq<Action>, ws': seq<World>, acts': seq<Action>, a: Addr,
      b: Addr, k: nat)
    requires Continues(cfg, ws, acts, ws', acts', b) && ws != [] && ws' != []
    requires Replayed(In(Last(ws'), a, b), In(Last(ws), a, b).log, k) && k <= |StreamOf(Out(Last(ws), a, b))|
    ensures Deliveries(In(Last(ws'), a, b).log) == Rebuild(StreamOf(Out(Last(ws), a, b)), k).delivered
  {
    hide Run, WorldInv, Step, Continues, OutgoingInv, LinkInv, Taken, Rebuild, IncomingOf, OutgoingOf, NodeInv,
        AllDelivered, Deliveries;
    var v, w := Out(Last(ws), a, b), Out(Last(ws'), a, b);
    ContinuesRun(cfg, ws, acts, ws', acts', b);
    RunAdvances(cfg, ws', acts', |acts|, |acts'|, a, b);
    RunInv(cfg, ws', acts', |acts'|);
    LinkAt(Last(ws'), a, b);
    Accepted(w, In(Last(ws'), a, b), a);
    LaterStream(v, w);
    RebuildLocal(StreamOf(v), StreamOf(w), k);
  }
}
