/**
 Completion is always possible: from every state of every run, packets that arrive after all lead to
 the delivery and the acknowledgement of everything submitted.
 */
module UdpCompletion {
  import opened Seqs
  import opened UdpTypes
  import opened UdpStream
  import opened UdpNode
  import opened UdpSender
  import opened UdpSteps
  import opened UdpReceiver
  import opened UdpLink
  import opened UdpEngine
  import opened UdpLoop
  import opened UdpIteration
  import opened UdpWorld
  import opened UdpTheorems
  import opened UdpProgress
  import opened UdpRedelivery

  // ---------- what an engine still has to do ----------

  /** The occupied slots. */
  function Slots(window: seq<Timer>): nat {
    if window == [] then 0
    else Slots(window[..|window| - 1]) + if window[|window| - 1].pkg.Some? then 1 else 0
  }

  /** Two for every packet queued, one for every packet outstanding. */
  function Owes(ss: Sender): nat {
    2 * |ss.dataQueue| + Slots(ss.window) + if ss.status == SYN_SENT then 1 else 0
  }

  /** The same for the messages in sendQueue and their peers' SYNs. */
  function Promised(q: seq<SendPack>): nat {
    if q == [] then 0 else 2 + 2 * NumFragments(|q[0].msg.bytes|) + Promised(q[1..])
  }

  ghost function Debt(n: Node): nat {
    Sum(n.senders, Owes, n.senders.Keys) + Promised(n.sendQueue)
  }

  /** The same packets are outstanding and queued. */
  predicate SameOwed(ss: Sender, ss': Sender) {
    && ss'.toaddr == ss.toaddr && ss'.status == ss.status && ss'.dataQueue == ss.dataQueue
    && |ss'.window| == |ss.window| && forall i | 0 <= i < |ss.window| :: ss'.window[i].pkg == ss.window[i].pkg
  }

  predicate Same(n: Node, m: Node) {
    && m.sendQueue == n.sendQueue && m.senders.Keys == n.senders.Keys
    && forall k | k in n.senders :: SameOwed(n.senders[k], m.senders[k])
  }

  /** Something was done, or nothing has changed. */
  ghost predicate Progresses(n: Node, m: Node) {
    Same(n, m) || Debt(m) < Debt(n)
  }

  lemma {:induction false} SameSlots(v: seq<Timer>, w: seq<Timer>)
    requires |v| == |w| && forall i | 0 <= i < |v| :: w[i].pkg == v[i].pkg
    ensures Slots(w) == Slots(v)
  {
    if v != [] {
      SameSlots(v[..|v| - 1], w[..|w| - 1]);
    }
  }

  lemma SameDebt(n: Node, m: Node)
    requires Same(n, m)
    ensures Debt(m) == Debt(n)
  {
    hide Sum, Slots;
    forall k | k in n.senders ensures Owes(m.senders[k]) == Owes(n.senders[k]) {
      SameSlots(n.senders[k].window, m.senders[k].window);
    }
    SumSame(n.senders, m.senders, Owes, n.senders.Keys);
  }

  lemma ProgressesTrans(n: Node, m: Node, o: Node)
    requires Progresses(n, m) && Progresses(m, o)
    ensures Progresses(n, o)
  {
    hide Debt;
    if Same(n, m) {
      SameDebt(n, m);
    }
    if Same(m, o) {
      SameDebt(m, o);
    }
  }

  lemma NoneDone(n: Node)
    ensures Same(n, n) && Progresses(n, n)
  {
  }

  // ---------- what each operation does to it ----------

  lemma {:induction false} SlotsUpdate(w: seq<Timer>, i: nat, t: Timer)
    requires i < |w|
    ensures Slots(w[i := t]) + (if w[i].pkg.Some? then 1 else 0) == Slots(w) + if t.pkg.Some? then 1 else 0
  {
    var n := |w| - 1;
    if i == n {
      assert w[i := t][..n] == w[..n];
    } else {
      assert w[i := t][..n] == w[..n][i := t];
      SlotsUpdate(w[..n], i, t);
    }
  }

  lemma TransmitPays(clk: Clock, n: Node, k: int, i: nat)
    requires NodeInv(n) && TimersOk(n) && k in n.senders && HasRoom(n.senders[k], i)
    ensures Debt(Transmit(clk, n, k, i)) < Debt(n)
  {
    hide NodeInv, OutgoingOf, OutgoingInv, Transmit, AddTimer, Key, Sum, Slots;
    var ss, timeout := n.senders[k], clk(n.ticks) + n.timeoutms;
    var v := OutgoingOf(n, ss.toaddr);
    SenderOfKey(n, k);
    ToAddr(v, ss.toaddr);
    NumbersBelow(v, ss.toaddr);
    TransmitIs(clk, n, k, i);
    SlotsUpdate(ss.window, i, Timer(timeout, 0, ss.toaddr, Some(NextPkg(ss))));
    SumUpdate(n.senders, Owes, k, Placed(ss, i, timeout));
  }

  lemma {:induction false} FillPays(clk: Clock, n: Node, k: int)
    requires NodeInv(n) && TimersOk(n) && k in n.senders
    ensures Progresses(n, Fill(clk, n, k))
    decreases Backlog(n, k)
  {
    hide NodeInv, Keeps, Transmit, OutgoingOf, CanTransmit, NextSlot, HasRoom, Debt, Same;
    NoneDone(n);
    var slot := NextSlot(n, k);
    if slot.Some? {
      var m := Transmit(clk, n, k, slot.value);
      NextSlotMeaning(n, k);
      RoomIsCanTransmit(n, k, slot.value);
      SenderOfKey(n, k);
      TransmitNode(clk, n, k, slot.value);
      TransmitPays(clk, n, k, slot.value);
      KeepsInv(n, m);
      FillPays(clk, m, k);
      ProgressesTrans(n, m, Fill(clk, m, k));
    }
  }

  lemma {:induction false} FillAllPays(clk: Clock, n: Node, keys: set<int>)
    requires NodeInv(n) && TimersOk(n) && keys <= n.senders.Keys
    ensures Progresses(n, FillAll(clk, n, keys))
    decreases keys
  {
    hide NodeInv, Keeps, Fill, Progresses;
    NoneDone(n);
    if exists k :: k in keys {
      var k := Least(keys);
      var m := Fill(clk, n, k);
      FillKeeps(clk, n, k);
      FillPays(clk, n, k);
      KeepsInv(n, m);
      FillAllPays(clk, m, keys - {k});
      ProgressesTrans(n, m, FillAll(clk, m, keys - {k}));
    }
  }

  lemma NewOwes(b: Addr, timeout: int)
    ensures Owes(NewSender(b).(syn := Timer(timeout, 0, b, Some(SYN_PKG)))) == 1
  {
    NoSlots(NewSender(b).window);
  }

  lemma {:induction false} NoSlots(w: seq<Timer>)
    ensures Slots(w) == 0 <==> forall i | 0 <= i < |w| :: w[i].pkg.None?
  {
    if w != [] {
      NoSlots(w[..|w| - 1]);
      assert forall i | 0 <= i < |w| - 1 :: w[..|w| - 1][i] == w[i];
    }
  }

  lemma CreatedDebt(clk: Clock, n: Node, b: Addr)
    requires NodeInv(n) && TimersOk(n)
    ensures Debt(GetSender(clk, n, b)) <= Debt(n) + 1 && GetSender(clk, n, b).sendQueue == n.sendQueue
  {
    hide NodeInv, GetSender, AddTimer, Key, Sum, OutgoingOf, Owes;
    if Key(b) in n.senders {
      SenderThere(clk, n, b);
    } else {
      var timeout := clk(n.ticks) + n.timeoutms;
      GetSenderIs(clk, n, b);
      NewOwes(b, timeout);
      SumNew(n.senders, Owes, Key(b), OutCreate(OutgoingOf(n, b), b, timeout).sender.value);
    }
  }

  lemma DequeuedDebt(n: Node)
    requires n.sendQueue != [] && Key(n.sendQueue[0].toaddr) in n.senders
    requires n.senders[Key(n.sendQueue[0].toaddr)].dataQueue == []
    ensures Debt(Dequeued(n)) == Debt(n) - 2
  {
    hide Key, Sum, Slots, Fragments;
    var k, m := Key(n.sendQueue[0].toaddr), Dequeued(n);
    SumUpdate(n.senders, Owes, k, m.senders[k]);
  }

  lemma TakeMessagePays(clk: Clock, n: Node)
    requires NodeInv(n) && TimersOk(n)
    ensures Progresses(n, TakeMessage(clk, n))
  {
    hide NodeInv, GetSender, Dequeued, Debt, Key, Submits, SendView, Same;
    NoneDone(n);
    if n.sendQueue != [] {
      var b := n.sendQueue[0].toaddr;
      var n1 := GetSender(clk, n, b);
      CreatedDebt(clk, n, b);
      GetSenderSubmits(clk, n, b);
      if n1.senders[Key(b)].dataQueue == [] {
        DequeuedDebt(n1);
      }
    }
  }

  lemma CheckSendQueuePays(clk: Clock, n: Node)
    requires NodeInv(n) && TimersOk(n)
    ensures Progresses(n, CheckSendQueue(clk, n))
  {
    hide NodeInv, Keeps, TakeMessage, FillAll, Progresses;
    var n1 := TakeMessage(clk, n);
    TakeMessageKeeps(clk, n);
    KeepsInv(n, n1);
    TakeMessagePays(clk, n);
    FillAllPays(clk, n1, n1.senders.Keys);
    ProgressesTrans(n, n1, CheckSendQueue(clk, n));
  }

  lemma RetriedSame(ss: Sender, ref: TimerRef, timeout: int)
    requires HasTimer(ss, ref)
    ensures SameOwed(ss, Retried(ss, ref, timeout))
  {
  }

  /** A timeout leaves every packet where it is. */
  lemma FireHeadSame(clk: Clock, n: Node)
    requires NodeInv(n) && TimersOk(n) && n.timers != []
    ensures Same(n, FireHead(clk, n).0)
  {
    hide NodeInv, FireHead, AddTimer, Deadline, OutgoingInv, OutgoingOf, SlotBySeq, Key, Retried;
    var ref := n.timers[0];
    if TimerAt(n, ref).tryCount < MAXRETRANS {
      var m, o := RetryForm(clk, n);
      RetriedSame(n.senders[ref.key], ref, clk(n.ticks) + n.timeoutms);
    } else {
      var e := GiveUpForm(clk, n);
    }
  }

  /** Number q is outstanding: it is that of a pending SYN, or of an occupied slot of an open sender. */
  predicate Outstanding(n: Node, b: Addr, q: nat) {
    Key(b) in n.senders &&
    var ss := n.senders[Key(b)];
    if ss.status == SYN_SENT then q == FIRST_SEQ else InWindow(ss.window, q)
  }

  lemma {:induction false} SameLookUp(v: seq<Timer>, w: seq<Timer>, q: nat, i: nat)
    requires |v| == |w| && i <= |v| && forall j | 0 <= j < |v| :: w[j].pkg == v[j].pkg
    ensures SlotBySeq(w, q, i) == SlotBySeq(v, q, i)
    decreases |v| - i
  {
    if i < |v| {
      SameLookUp(v, w, q, i + 1);
    }
  }

  lemma StillOwed(n: Node, m: Node, b: Addr, q: nat)
    requires Same(n, m) && Outstanding(n, b, q)
    ensures Outstanding(m, b, q)
  {
    SameLookUp(n.senders[Key(b)].window, m.senders[Key(b)].window, q, 0);
  }

  /** An acknowledgement settles the outstanding number it carries, if there is one. */
  lemma OnAckPays(n: Node, b: Addr, p: Pkg)
    requires NodeInv(n)
    ensures Progresses(n, OnAck(n, b, p))
    ensures Outstanding(n, b, p.seqno) ==> Debt(OnAck(n, b, p)) < Debt(n)
  {
    hide NodeInv, OutgoingOf, OutgoingInv, SlotBySeq, Key, Sum, Slots, RemoveFirst;
    NoneDone(n);
    if Key(b) in n.senders {
      var ss := n.senders[Key(b)];
      SenderAt(n, b);
      if ss.status == SYN_SENT {
        SumUpdate(n.senders, Owes, Key(b), ss.(status := OPEN, syn := ss.syn.(pkg := None)));
      } else if SlotBySeq(ss.window, p.seqno, 0).Some? {
        var i := SlotBySeq(ss.window, p.seqno, 0).value;
        SlotsUpdate(ss.window, i, ss.window[i].(pkg := None));
        SumUpdate(n.senders, Owes, Key(b), Freed(ss, i));
      }
    }
  }

  lemma ReceiveSame(n: Node, m: Node)
    requires ReceiveOnly(n, m)
    ensures Same(n, m)
  {
    hide SendView, Tries;
  }

  lemma ProcessReceivePays(n: Node, from: Addr, p: Pkg)
    requires NodeInv(n)
    ensures Progresses(n, ProcessReceive(n, from, p))
  {
    hide NodeInv, ReceiveOnly, OnSyn, OnData, OnFin, OnAck, Debt, Same;
    NoneDone(n);
    OnSynReceives(n, from, p);
    OnDataReceives(n, from, p);
    OnFinReceives(n, from, p);
    OnAckPays(n, from, p);
    if p.ptype in {SYN, DATA, FIN} {
      ReceiveSame(n, ProcessReceive(n, from, p));
    }
  }

  lemma TickSame(n: Node, m: Node)
    requires m == n.(ticks := m.ticks)
    ensures Same(n, m)
  {
  }

  lemma IterationPays(clk: Clock, n: Node, input: Input)
    requires NodeInv(n) && TimersOk(n)
    ensures Progresses(n, LoopStep(clk, n, input).0)
  {
    hide NodeInv, Keeps, CheckSendQueue, FireHead, ProcessReceive, Debt, Same;
    var n0 := n.(ticks := n.ticks + 1);
    TickSame(n, n0);
    KeepsSame(n, n0);
    KeepsInv(n, n0);
    var m := CheckSendQueue(clk, n0);
    CheckSendQueueKeeps(clk, n0);
    CheckSendQueuePays(clk, n0);
    KeepsInv(n0, m);
    ProgressesTrans(n, n0, m);
    if Due(m, clk(n.ticks)) {
      FireHeadSame(clk, m);
      ProgressesTrans(n, m, FireHead(clk, m).0);
    } else if input.Packet? {
      ProcessReceivePays(m, input.from, input.pkg);
      ProgressesTrans(n, m, ProcessReceive(m, input.from, input.pkg));
    }
  }

  /** With nothing outstanding, checkSendQueue has something to do. */
  predicate Quiet(n: Node) {
    forall k | k in n.senders :: n.senders[k].status == OPEN && Slots(n.senders[k].window) == 0
  }

  lemma QuietIsSame(n: Node, m: Node)
    requires Quiet(n) && Same(n, m)
    ensures Quiet(m)
  {
    forall k | k in m.senders ensures Slots(m.senders[k].window) == 0 {
      SameSlots(n.senders[k].window, m.senders[k].window);
    }
  }

  lemma EmptyWindowHasRoom(ss: Sender)
    requires Full(ss) && Slots(ss.window) == 0 && |ss.window| > 0
    ensures ss.dataQueue == []
  {
    NoSlots(ss.window);
    assert !HasRoom(ss, 0);
  }

  lemma WindowSize(n: Node, k: int)
    requires NodeInv(n) && k in n.senders
    ensures |n.senders[k].window| == WINDOW && n.senders[k].status in {SYN_SENT, OPEN}
  {
    hide NodeInv, OutgoingInv, OutgoingOf;
    SenderOfKey(n, k);
    ToAddr(OutgoingOf(n, n.senders[k].toaddr), n.senders[k].toaddr);
  }

  lemma QuietPays(clk: Clock, n: Node)
    requires NodeInv(n) && TimersOk(n) && Quiet(n) && Debt(n) > 0
    ensures Debt(CheckSendQueue(clk, n)) < Debt(n)
  {
    hide NodeInv, CheckSendQueue, Keeps, Same, Quiet, Full, Sum, OutgoingOf, CanTransmit, Taken, SameSubmits, Owes;
    var m := CheckSendQueue(clk, n);
    CheckSendQueuePays(clk, n);
    CheckSendQueueKeeps(clk, n);
    KeepsInv(n, m);
    if Same(n, m) {
      QuietIsSame(n, m);
      forall k | k in m.senders ensures Owes(m.senders[k]) == 0 && m.senders[k].dataQueue == [] {
        WindowsFilled(clk, n, k);
        WindowSize(m, k);
        QuietOwes(m, k);
      }
      SumZero(m.senders, Owes, m.senders.Keys);
      FirstMessageTaken(clk, n, NO_ADDR);
      NothingLeft(n, m);
      SameDebt(n, m);
      assert false;
    }
  }

  lemma QuietOwes(n: Node, k: int)
    requires Quiet(n) && k in n.senders && Full(n.senders[k]) && |n.senders[k].window| > 0
    ensures Owes(n.senders[k]) == 0 && n.senders[k].dataQueue == []
  {
    EmptyWindowHasRoom(n.senders[k]);
  }

  lemma NothingLeft(n: Node, m: Node)
    requires Same(n, m) && forall k | k in m.senders :: m.senders[k].dataQueue == []
    requires m.sendQueue == if HeadReady(n) then n.sendQueue[1..] else n.sendQueue
    ensures Promised(m.sendQueue) == 0
  {
    if n.sendQueue != [] {
      assert |m.sendQueue| == |n.sendQueue|;
      assert HeadReady(n);
    }
  }

  // ---------- runs that go on ----------

  lemma StepPays(cfg: Config, w: World, act: Action, w': World, a: Addr)
    requires WorldInv(w) && Step(cfg, w, act, w') && act.Loop?
    ensures Progresses(w(a), w'(a)) && SameSubmits(w(a), w'(a))
  {
    hide NodeInv, LinkInv, LoopStep, Progresses, SameSubmits, MayArrive;
    if act.at == a {
      IterationPays(cfg.clk(a), w(a), act.input);
      IterationSubmits(cfg.clk(a), w(a), act.input);
    } else {
      NoneDone(w(a));
      LogSame(w(a), w'(a));
    }
  }

  lemma {:induction false} RunPays(cfg: Config, ws: seq<World>, acts: seq<Action>, i: nat, j: nat, a: Addr)
    requires Run(cfg, ws, acts) && i <= j < |ws| && forall k | i <= k < j :: acts[k].Loop?
    ensures Progresses(ws[i](a), ws[j](a)) && SameSubmits(ws[i](a), ws[j](a))
  {
    hide WorldInv, Step, Progresses, SameSubmits;
    if i == j {
      NoneDone(ws[i](a));
      LogSame(ws[i](a), ws[i](a));
    } else {
      RunPays(cfg, ws, acts, i, j - 1, a);
      RunInv(cfg, ws, acts, j - 1);
      StepPays(cfg, ws[j - 1], acts[j - 1], ws[j], a);
      ProgressesTrans(ws[i](a), ws[j - 1](a), ws[j](a));
      SameSubmitsTrans(ws[i](a), ws[j - 1](a), ws[j](a));
    }
  }

  lemma GoesOnPays(cfg: Config, ws: seq<World>, acts: seq<Action>, ws': seq<World>, acts': seq<Action>, a: Addr)
    requires GoesOn(cfg, ws, acts, ws', acts')
    ensures ws != [] && ws' != [] && Progresses(Last(ws)(a), Last(ws')(a)) && SameSubmits(Last(ws)(a), Last(ws')(a))
  {
    hide Step, Progresses, SameSubmits;
    assert ws'[|acts|] == Last(ws);
    RunPays(cfg, ws', acts', |acts|, |acts'|, a);
  }

  lemma GoesOnSame(cfg: Config, ws: seq<World>, acts: seq<Action>)
    requires Run(cfg, ws, acts)
    ensures GoesOn(cfg, ws, acts, ws, acts)
  {
    hide Run;
  }

  lemma ReplyIn(log: seq<Event>, a: Addr, q: nat) returns (ack: Pkg)
    requires LastReply(log, a, q)
    ensures Sent(a, ack) in log && ack.ptype == ACK && ack.seqno == q
  {
    ack := log[|log| - 1].pkg;
    assert log[|log| - 1] == Sent(a, ack);
  }

  /** a reads an acknowledgement from b when no timer of a is due. */
  lemma ReadsAck(clk: Clock, n: Node, b: Addr, ack: Pkg)
    requires NodeInv(n) && TimersOk(n) && !Fires(clk, n) && ack.ptype == ACK
    ensures Outstanding(n, b, ack.seqno) ==> Debt(LoopStep(clk, n, Packet(b, ack, 0)).0) < Debt(n)
  {
    hide NodeInv, Keeps, CheckSendQueue, OnAck, Debt, Same, Outstanding;
    var n0 := n.(ticks := n.ticks + 1);
    TickSame(n, n0);
    KeepsSame(n, n0);
    KeepsInv(n, n0);
    var m := CheckSendQueue(clk, n0);
    CheckSendQueueKeeps(clk, n0);
    CheckSendQueuePays(clk, n0);
    KeepsInv(n0, m);
    ProgressesTrans(n, n0, m);
    assert LoopStep(clk, n, Packet(b, ack, 0)).0 == OnAck(m, b, ack);
    OnAckPays(m, b, ack);
    if Same(n, m) {
      SameDebt(n, m);
      if Outstanding(n, b, ack.seqno) {
        StillOwed(n, m, b, ack.seqno);
      }
    }
    if Same(m, OnAck(m, b, ack)) {
      SameDebt(m, OnAck(m, b, ack));
    }
  }

  lemma OutstandingNumber(w: World, a: Addr, b: Addr, q: nat)
    requires WorldInv(w) && Outstanding(w(a), b, q)
    ensures Key(b) in w(a).senders && FIRST_SEQ <= q <= w(a).senders[Key(b)].seqno
  {
    hide LinkInv, OutgoingInv, WorldInv, NodeInv, SendView, Pending, Taken, Numbered, InWindow;
    LinkAt(w, a, b);
    SenderInvAt(w(a), b);
    var v := OutgoingOf(w(a), b);
    ToAddr(v, b);
    NumbersBelow(v, b);
    if v.sender.value.status != SYN_SENT {
      InWindowMeaning(v.sender.value.window, q);
      var i :| Occupied(v.sender.value.window, i) && SeqAt(v.sender.value.window, i) == q;
      NumberedBounds(v.sender.value.window[i].pkg.value, v.sender.value.seqno, StreamOf(v));
    }
  }

  /** An outstanding number can be settled: b reads the stream up to it once more, and a reads b's last
      answer. */
  lemma Settle(cfg: Config, ws: seq<World>, acts: seq<Action>, a: Addr, b: Addr, q: nat)
      returns (ws': seq<World>, acts': seq<Action>)
    requires Run(cfg, ws, acts) && ws != [] && Outstanding(Last(ws)(a), b, q)
    ensures GoesOn(cfg, ws, acts, ws', acts') && ws' != [] && Debt(Last(ws')(a)) < Debt(Last(ws)(a))
  {
    hide Run, WorldInv, Step, GoesOn, Debt, Same, Outstanding, LoopStep, IncomingOf, IncomingStep, Fires, Replayed,
        LastReply, NodeInv, LinkInv, Work, RecvView;
    RunLength(cfg, ws, acts);
    RunInv(cfg, ws, acts, |acts|);
    OutstandingNumber(Last(ws), a, b, q);
    var ws1, acts1 := Replay(cfg, ws, acts, a, b, q - FIRST_SEQ);
    ContinuesRun(cfg, ws, acts, ws1, acts1, b);
    var ack := ReplyIn(In(Last(ws1), a, b).log, a, q);
    WorkLeft(cfg, ws1, acts1, a);
    var ws2, acts2 := Drain(cfg, ws1, acts1, a, Work(Last(ws1)(a)));
    ContinuesRun(cfg, ws1, acts1, ws2, acts2, a);
    AnswerStays(Last(ws1), Last(ws2), a, b, ack);
    var ws3, acts3, read := Iterate(cfg, ws2, acts2, a, Packet(b, ack, 0));
    ContinuesRun(cfg, ws2, acts2, ws3, acts3, a);
    GoesOnTrans(cfg, ws, acts, ws1, acts1, ws2, acts2);
    GoesOnTrans(cfg, ws, acts, ws2, acts2, ws3, acts3);
    GoesOnPays(cfg, ws, acts, ws2, acts2, a);
    GoesOnPays(cfg, ws2, acts2, ws3, acts3, a);
    RunInv(cfg, ws2, acts2, |acts2|);
    TimersFine(Last(ws2), a);
    ReadsAck(cfg.clk(a), Last(ws2)(a), b, ack);
    SettledOrPaid(Last(ws)(a), Last(ws2)(a), Last(ws3)(a), b, q);
    ws', acts' := ws3, acts3;
  }

  lemma AnswerStays(w: World, w': World, a: Addr, b: Addr, ack: Pkg)
    requires Sent(a, ack) in In(w, a, b).log && ElsewhereSame(w, w', a) && forall c: Addr :: In(w', c, a) == In(w, c, a)
    ensures Sent(a, ack) in w'(b).log
  {
    hide RecvView;
    RecvViewIn(w'(b).log, Sent(a, ack), a);
  }

  lemma SettledOrPaid(n: Node, m: Node, o: Node, b: Addr, q: nat)
    requires Outstanding(n, b, q) && Progresses(n, m) && Progresses(m, o)
    requires Outstanding(m, b, q) ==> Debt(o) < Debt(m)
    ensures Debt(o) < Debt(n)
  {
    hide Debt, Outstanding, Same;
    if Same(n, m) {
      SameDebt(n, m);
      StillOwed(n, m, b, q);
    } else if Same(m, o) {
      SameDebt(m, o);
    }
  }

  lemma OccupiedSlot(ss: Sender)
    returns (q: nat)
    requires Slots(ss.window) != 0
    ensures InWindow(ss.window, q)
  {
    hide InWindow;
    NoSlots(ss.window);
    var i :| 0 <= i < |ss.window| && ss.window[i].pkg.Some?;
    q := ss.window[i].pkg.value.seqno;
    assert Occupied(ss.window, i) && SeqAt(ss.window, i) == q;
    InWindowMeaning(ss.window, q);
  }

  /** Something is outstanding unless the engine is quiet. */
  lemma SomethingOutstanding(n: Node) returns (b: Addr, q: nat)
    requires NodeInv(n) && !Quiet(n)
    ensures Outstanding(n, b, q)
  {
    hide NodeInv, Slots, InWindow;
    var k :| k in n.senders && !(n.senders[k].status == OPEN && Slots(n.senders[k].window) == 0);
    b := n.senders[k].toaddr;
    KeyOfSender(n, k);
    WindowSize(n, k);
    if n.senders[k].status == SYN_SENT {
      q := FIRST_SEQ;
    } else {
      q := OccupiedSlot(n.senders[k]);
    }
  }

  lemma KeyOfSender(n: Node, k: int)
    requires NodeInv(n) && k in n.senders
    ensures Key(n.senders[k].toaddr) == k
  {
  }

  /** A quiet engine's next iteration does something. */
  lemma QuietIterates(clk: Clock, n: Node)
    requires NodeInv(n) && TimersOk(n) && Quiet(n) && Debt(n) > 0
    ensures Debt(LoopStep(clk, n, Nothing).0) < Debt(n)
  {
    hide NodeInv, Keeps, CheckSendQueue, FireHead, Debt, Same, Quiet;
    var n0 := n.(ticks := n.ticks + 1);
    TickSame(n, n0);
    SameDebt(n, n0);
    QuietIsSame(n, n0);
    KeepsSame(n, n0);
    KeepsInv(n, n0);
    var m := CheckSendQueue(clk, n0);
    QuietPays(clk, n0);
    CheckSendQueueKeeps(clk, n0);
    KeepsInv(n0, m);
    if Due(m, clk(n.ticks)) {
      FireHeadSame(clk, m);
      SameDebt(m, FireHead(clk, m).0);
    }
  }

  lemma {:induction false} Complete(cfg: Config, ws: seq<World>, acts: seq<Action>, a: Addr, debt: nat)
      returns (ws': seq<World>, acts': seq<Action>)
    requires Run(cfg, ws, acts) && ws != [] && Debt(Last(ws)(a)) <= debt
    ensures GoesOn(cfg, ws, acts, ws', acts') && ws' != [] && Debt(Last(ws')(a)) == 0
    decreases debt
  {
    hide Run, WorldInv, Step, GoesOn, Debt, Outstanding, LoopStep, IncomingOf, IncomingStep, NodeInv, LinkInv, Quiet;
    RunLength(cfg, ws, acts);
    RunInv(cfg, ws, acts, |acts|);
    TimersFine(Last(ws), a);
    GoesOnSame(cfg, ws, acts);
    ws', acts' := ws, acts;
    if Debt(Last(ws)(a)) > 0 {
      var ws1, acts1;
      if Quiet(Last(ws)(a)) {
        var read;
        ws1, acts1, read := Iterate(cfg, ws, acts, a, Nothing);
        QuietIterates(cfg.clk(a), Last(ws)(a));
        ContinuesGoesOn(cfg, ws, acts, ws1, acts1, a);
      } else {
        var b, q := SomethingOutstanding(Last(ws)(a));
        ws1, acts1 := Settle(cfg, ws, acts, a, b, q);
      }
      GoesOnRun(cfg, ws, acts, ws1, acts1);
      ws', acts' := Complete(cfg, ws1, acts1, a, debt - 1);
      GoesOnTrans(cfg, ws, acts, ws1, acts1, ws', acts');
    }
  }

  lemma ContinuesGoesOn(cfg: Config, ws: seq<World>, acts: seq<Action>, ws': seq<World>, acts': seq<Action>, b: Addr)
    requires Continues(cfg, ws, acts, ws', acts', b)
    ensures GoesOn(cfg, ws, acts, ws', acts')
  {
  }

  lemma GoesOnRun(cfg: Config, ws: seq<World>, acts: seq<Action>, ws': seq<World>, acts': seq<Action>)
    requires GoesOn(cfg, ws, acts, ws', acts')
    ensures Run(cfg, ws', acts') && ws' != []
  {
    hide Step;
  }

  // ---------- the theorem ----------

  /** Nothing is waiting, queued or outstanding, and no timer is listed. */
  predicate Finished(n: Node) {
    && n.sendQueue == [] && n.timers == []
    && forall k | k in n.senders ::
         && n.senders[k].status == OPEN && n.senders[k].dataQueue == []
         && forall i | 0 <= i < |n.senders[k].window| :: n.senders[k].window[i].pkg.None?
  }

  lemma NothingOwed(ss: Sender)
    requires Owes(ss) == 0
    ensures ss.status != SYN_SENT && ss.dataQueue == []
    ensures forall i | 0 <= i < |ss.window| :: ss.window[i].pkg.None?
  {
    NoSlots(ss.window);
  }

  lemma NothingListed(n: Node)
    requires NodeInv(n) && forall k | k in n.senders :: Owes(n.senders[k]) == 0
    ensures n.timers == []
  {
    hide NodeInv, OutgoingOf, OutgoingInv, DeadlineOf, Owes;
    if n.timers != [] {
      var ref := n.timers[0];
      InvParts(n);
      DeadlineIsTimeout(n, ref);
      var ss := n.senders[ref.key];
      SenderOfKey(n, ref.key);
      ToAddr(OutgoingOf(n, ss.toaddr), ss.toaddr);
      NothingOwed(ss);
      assert false;
    }
  }

  lemma DebtFree(n: Node)
    requires NodeInv(n) && Debt(n) == 0
    ensures Finished(n)
  {
    hide NodeInv, Sum, Owes;
    SumZero(n.senders, Owes, n.senders.Keys);
    forall k | k in n.senders ensures n.senders[k].status == OPEN && n.senders[k].dataQueue == []
        && forall i | 0 <= i < |n.senders[k].window| :: n.senders[k].window[i].pkg.None? {
      NothingOwed(n.senders[k]);
      WindowSize(n, k);
    }
    NothingListed(n);
  }

  /** Some incarnation of b's receiver had delivered everything that a submitted for b. */
  ghost predicate DeliveredAll(w: World, a: Addr, b: Addr) {
    var log := RecvView(w(b).log, a);
    exists k | 0 <= k <= |log| :: Deliveries(log[..k]) == SubmittedTo(w, a, b)
  }

  /** Every number used for b was acknowledged, just once. */
  ghost predicate AcknowledgedAll(n: Node, b: Addr) {
    Key(b) in n.senders ==>
      forall q: nat | 100000 < q <= n.senders[Key(b)].seqno :: Count(SendView(n.log, b), Acknowledged(q)) == 1
  }

  lemma {:induction false} NothingPending(b: Addr)
    ensures Pending([], b) == []
  {
  }

  lemma FinishedDelivered(w: World, a: Addr, b: Addr)
    requires Reachable(w) && Finished(w(a))
    ensures DeliveredAll(w, a, b)
  {
    hide Reachable, OutgoingInv, Deliveries, NodeInv, LinkInv, SendView, RecvView, Pending, Submits, NonEmpty, Stream;
    NothingPending(b);
    if Key(b) in w(a).senders {
      var k := IdleMeansDelivered(w, a, b);
      assert Deliveries(RecvView(w(b).log, a)[..k]) == SubmittedTo(w, a, b);
    } else {
      ReachableInv(w, a, b);
      AllTaken(Out(w, a, b), b);
      UntouchedBefore(Out(w, a, b), b);
      NoMessages();
      assert Deliveries(RecvView(w(b).log, a)[..0]) == [];
    }
  }

  lemma NoMessages()
    ensures NonEmpty([]) == [] && Deliveries([]) == []
  {
  }

  lemma FinishedAcknowledged(w: World, a: Addr, b: Addr)
    requires Reachable(w) && Finished(w(a))
    ensures AcknowledgedAll(w(a), b)
  {
    hide Reachable, Count, SendView, InWindow;
    if Key(b) in w(a).senders {
      var ss := w(a).senders[Key(b)];
      forall q: nat | 100000 < q <= ss.seqno ensures Count(SendView(w(a).log, b), Acknowledged(q)) == 1 {
        WindowInvariant(w, a, b, q);
        InWindowMeaning(ss.window, q);
      }
    }
  }

  /** From every state of every run there is a continuation by iterations of loop() after which
      everything that a ever submitted, for whatever peer, has been delivered and every number been
      acknowledged: its queues and windows are empty, all its senders open, its timer list empty. */
  lemma CompletionPossible(cfg: Config, ws: seq<World>, acts: seq<Action>, a: Addr)
      returns (ws': seq<World>, acts': seq<Action>)
    requires Run(cfg, ws, acts) && ws != []
    ensures GoesOn(cfg, ws, acts, ws', acts') && ws' != [] && Finished(Last(ws')(a))
    ensures forall b: Addr ::
              && SubmittedTo(Last(ws'), a, b) == SubmittedTo(Last(ws), a, b)
              && DeliveredAll(Last(ws'), a, b) && AcknowledgedAll(Last(ws')(a), b)
  {
    hide Run, WorldInv, Step, GoesOn, Debt, NodeInv, LinkInv, Finished, DeliveredAll, AcknowledgedAll, Progresses,
        SendView, Submits, NonEmpty;
    ws', acts' := Complete(cfg, ws, acts, a, Debt(Last(ws)(a)));
    GoesOnRun(cfg, ws, acts, ws', acts');
    RunLength(cfg, ws', acts');
    RunInv(cfg, ws', acts', |acts'|);
    TimersFine(Last(ws'), a);
    DebtFree(Last(ws')(a));
    GoesOnPays(cfg, ws, acts, ws', acts', a);
    LastReachable(cfg, ws', acts');
    forall b: Addr ensures
        && SubmittedTo(Last(ws'), a, b) == SubmittedTo(Last(ws), a, b)
        && DeliveredAll(Last(ws'), a, b) && AcknowledgedAll(Last(ws')(a), b) {
      FinishedDelivered(Last(ws'), a, b);
      FinishedAcknowledged(Last(ws'), a, b);
      assert Submits(SendView(Last(ws')(a).log, b)) == Submits(SendView(Last(ws)(a).log, b));
    }
  }

  lemma LastReachable(cfg: Config, ws: seq<World>, acts: seq<Action>)
    requires Run(cfg, ws, acts)
    ensures ws != [] && Reachable(Last(ws))
  {
    hide Step;
    assert ws[|acts|] == Last(ws);
  }
}
