/**
 What one iteration of loop() gets done: every window is filled as far as it goes, the first message is
 taken if it can be, the first timer is served exactly when some timer is due, and every answer carries
 the number of the packet it answers.
 */
module UdpIteration {
  import opened Seqs
  import opened UdpTypes
  import opened UdpStream
  import opened UdpNode
  import opened UdpSender
  import opened UdpSteps
  import opened UdpTimers
  import opened UdpEngine
  import opened UdpLoop

  // ---------- the windows are filled ----------

  /** The sender has a packet queued, a free slot i, and may use its next number. */
  ghost predicate HasRoom(ss: Sender, i: nat) {
    && ss.dataQueue != [] && i < |ss.window| && !Occupied(ss.window, i)
    && forall j | Occupied(ss.window, j) :: ss.seqno + 1 < SeqAt(ss.window, j) + WINDOW
  }

  ghost predicate Full(ss: Sender) {
    forall i: nat :: !HasRoom(ss, i)
  }

  lemma RoomIsCanTransmit(n: Node, k: int, i: nat)
    requires NodeInv(n) && k in n.senders
    ensures CanTransmit(OutgoingOf(n, n.senders[k].toaddr), i) <==> HasRoom(n.senders[k], i)
  {
    hide NodeInv, OutgoingInv, SendView, Pending;
    SenderOfKey(n, k);
  }

  /** Only the sender at k changes. */
  predicate OnlyAt(n: Node, m: Node, k: int) {
    m.senders.Keys == n.senders.Keys && forall j | j in n.senders && j != k :: m.senders[j] == n.senders[j]
  }

  lemma TransmitOnlyAt(clk: Clock, n: Node, k: int, i: nat)
    requires NodeInv(n) && TimersOk(n) && k in n.senders && HasRoom(n.senders[k], i)
    ensures OnlyAt(n, Transmit(clk, n, k, i), k)
    ensures Transmit(clk, n, k, i).log == n.log + [Sent(n.senders[k].toaddr, NextPkg(n.senders[k]))]
  {
    hide NodeInv, OutgoingOf, OutgoingInv, Transmit, AddTimer, Key;
    var v := OutgoingOf(n, n.senders[k].toaddr);
    SenderOfKey(n, k);
    ToAddr(v, n.senders[k].toaddr);
    NumbersBelow(v, n.senders[k].toaddr);
    TransmitIs(clk, n, k, i);
  }

  lemma {:induction false} FillEnds(clk: Clock, n: Node, k: int)
    requires NodeInv(n) && TimersOk(n) && k in n.senders
    ensures OnlyAt(n, Fill(clk, n, k), k) && Full(Fill(clk, n, k).senders[k])
    decreases Backlog(n, k)
  {
    hide NodeInv, Keeps, Transmit, OutgoingOf, CanTransmit, NextSlot, HasRoom;
    var slot := NextSlot(n, k);
    NextSlotMeaning(n, k);
    forall i: nat ensures CanTransmit(OutgoingOf(n, n.senders[k].toaddr), i) <==> HasRoom(n.senders[k], i) {
      RoomIsCanTransmit(n, k, i);
    }
    if slot.Some? {
      var m := Transmit(clk, n, k, slot.value);
      SenderOfKey(n, k);
      TransmitNode(clk, n, k, slot.value);
      TransmitOnlyAt(clk, n, k, slot.value);
      KeepsInv(n, m);
      FillEnds(clk, m, k);
    }
  }

  lemma {:induction false} FillAllEnds(clk: Clock, n: Node, keys: set<int>)
    requires NodeInv(n) && TimersOk(n) && keys <= n.senders.Keys
    ensures var m := FillAll(clk, n, keys);
            && m.senders.Keys == n.senders.Keys
            && (forall k | k in keys :: Full(m.senders[k]))
            && (forall k | k in n.senders && k !in keys :: m.senders[k] == n.senders[k])
    decreases keys
  {
    hide NodeInv, Keeps, Fill, Full;
    if exists k :: k in keys {
      var k := Least(keys);
      var m := Fill(clk, n, k);
      FillKeeps(clk, n, k);
      FillEnds(clk, n, k);
      KeepsInv(n, m);
      FillAllEnds(clk, m, keys - {k});
    }
  }

  /** After checkSendQueue no sender has a packet queued for which its window has room: it can
      transmit nothing more. */
  lemma WindowsFilled(clk: Clock, n: Node, k: int)
    requires NodeInv(n) && TimersOk(n) && k in CheckSendQueue(clk, n).senders
    ensures var m := CheckSendQueue(clk, n);
            && Full(m.senders[k])
            && forall i: nat :: !CanTransmit(OutgoingOf(m, m.senders[k].toaddr), i)
  {
    hide NodeInv, Keeps, TakeMessage, FillAll, HasRoom, CanTransmit, OutgoingOf;
    var n1, m := TakeMessage(clk, n), CheckSendQueue(clk, n);
    TakeMessageKeeps(clk, n);
    KeepsInv(n, n1);
    FillAllEnds(clk, n1, n1.senders.Keys);
    CheckSendQueueKeeps(clk, n);
    KeepsInv(n, m);
    forall i: nat ensures !CanTransmit(OutgoingOf(m, m.senders[k].toaddr), i) {
      RoomIsCanTransmit(m, k, i);
    }
  }

  /** Only packets were sent, to peers in the order of their keys, from key lo on. */
  predicate InKeyOrder(es: seq<Event>, lo: int) {
    && (forall i | 0 <= i < |es| :: es[i].Sent? && lo <= Key(es[i].peer))
    && forall i, j | 0 <= i < j < |es| :: Key(es[i].peer) <= Key(es[j].peer)
  }

  /** Only packets were sent, to peer b. */
  predicate AllTo(es: seq<Event>, b: Addr) {
    forall i | 0 <= i < |es| :: es[i].Sent? && es[i].peer == b
  }

  lemma {:induction false} FillSends(clk: Clock, n: Node, k: int) returns (es: seq<Event>)
    requires NodeInv(n) && TimersOk(n) && k in n.senders
    ensures Fill(clk, n, k).log == n.log + es && AllTo(es, n.senders[k].toaddr)
    decreases Backlog(n, k)
  {
    hide NodeInv, Keeps, Transmit, OutgoingOf, CanTransmit, NextSlot, HasRoom, OutgoingInv;
    var slot := NextSlot(n, k);
    es := [];
    if slot.Some? {
      var m := Transmit(clk, n, k, slot.value);
      NextSlotMeaning(n, k);
      RoomIsCanTransmit(n, k, slot.value);
      SenderOfKey(n, k);
      TransmitNode(clk, n, k, slot.value);
      TransmitOnlyAt(clk, n, k, slot.value);
      KeepsInv(n, m);
      TransmitTo(clk, n, k, slot.value);
      var rest := FillSends(clk, m, k);
      es := [Sent(n.senders[k].toaddr, NextPkg(n.senders[k]))] + rest;
    }
  }

  lemma TransmitTo(clk: Clock, n: Node, k: int, i: nat)
    requires NodeInv(n) && TimersOk(n) && k in n.senders && HasRoom(n.senders[k], i)
    ensures k in Transmit(clk, n, k, i).senders && Transmit(clk, n, k, i).senders[k].toaddr == n.senders[k].toaddr
  {
    hide NodeInv, OutgoingOf, OutgoingInv, Transmit, AddTimer, Key;
    var v := OutgoingOf(n, n.senders[k].toaddr);
    SenderOfKey(n, k);
    ToAddr(v, n.senders[k].toaddr);
    NumbersBelow(v, n.senders[k].toaddr);
    TransmitIs(clk, n, k, i);
  }

  lemma {:induction false} FillAllSends(clk: Clock, n: Node, keys: set<int>, lo: int) returns (es: seq<Event>)
    requires NodeInv(n) && TimersOk(n) && keys <= n.senders.Keys && forall k | k in keys :: lo <= k
    ensures FillAll(clk, n, keys).log == n.log + es && InKeyOrder(es, lo)
    decreases keys
  {
    hide NodeInv, Keeps, Fill, Key, OutgoingOf, OutgoingInv;
    es := [];
    if exists k :: k in keys {
      var k := Least(keys);
      var m := Fill(clk, n, k);
      FillKeeps(clk, n, k);
      KeepsInv(n, m);
      SenderOfKey(n, k);
      var own := FillSends(clk, n, k);
      var rest := FillAllSends(clk, m, keys - {k}, k);
      es := own + rest;
    }
  }

  /** The second half of checkSendQueue sends packets, and nothing else, peer after peer in the order of
      the keys. */
  lemma FilledInKeyOrder(clk: Clock, n: Node) returns (es: seq<Event>)
    requires NodeInv(n) && TimersOk(n)
    ensures CheckSendQueue(clk, n).log == TakeMessage(clk, n).log + es
    ensures forall i | 0 <= i < |es| :: es[i].Sent?
    ensures forall i, j | 0 <= i < j < |es| :: Key(es[i].peer) <= Key(es[j].peer)
  {
    hide NodeInv, Keeps, TakeMessage, FillAll, Key;
    var n1 := TakeMessage(clk, n);
    TakeMessageKeeps(clk, n);
    KeepsInv(n, n1);
    var lo := 0;
    if exists k :: k in n1.senders.Keys {
      lo := Least(n1.senders.Keys);
    }
    es := FillAllSends(clk, n1, n1.senders.Keys, lo);
  }

  // ---------- the first message is taken ----------

  /** Nothing new was submitted. */
  ghost predicate SameSubmits(n: Node, m: Node) {
    forall b: Addr :: Submits(SendView(m.log, b)) == Submits(SendView(n.log, b))
  }

  lemma LogSubmits(log: seq<Event>, e: Event, b: Addr)
    requires !e.Submitted?
    ensures Submits(SendView(log + [e], b)) == Submits(SendView(log, b))
  {
    hide SendView, Submits;
    SendViewSnoc(log, e, b);
    SubmitsSnoc(SendView(log, b), e);
    assert SendView(log, b) + [] == SendView(log, b) && Submits(SendView(log, b)) + [] == Submits(SendView(log, b));
  }

  lemma EventSubmits(n: Node, m: Node, e: Event)
    requires m.log == n.log + [e] && !e.Submitted?
    ensures SameSubmits(n, m)
  {
    hide SendView, Submits;
    forall b: Addr ensures Submits(SendView(m.log, b)) == Submits(SendView(n.log, b)) {
      LogSubmits(n.log, e, b);
    }
  }

  lemma {:induction false} FillSubmits(clk: Clock, n: Node, k: int)
    requires NodeInv(n) && TimersOk(n) && k in n.senders
    ensures SameSubmits(n, Fill(clk, n, k))
    decreases Backlog(n, k)
  {
    hide NodeInv, Keeps, Transmit, OutgoingOf, CanTransmit, NextSlot, HasRoom, SendView, Submits;
    var slot := NextSlot(n, k);
    if slot.Some? {
      var m := Transmit(clk, n, k, slot.value);
      NextSlotMeaning(n, k);
      RoomIsCanTransmit(n, k, slot.value);
      SenderOfKey(n, k);
      TransmitNode(clk, n, k, slot.value);
      TransmitOnlyAt(clk, n, k, slot.value);
      EventSubmits(n, m, Sent(n.senders[k].toaddr, NextPkg(n.senders[k])));
      KeepsInv(n, m);
      FillSubmits(clk, m, k);
    }
  }

  lemma {:induction false} FillAllSubmits(clk: Clock, n: Node, keys: set<int>)
    requires NodeInv(n) && TimersOk(n) && keys <= n.senders.Keys
    ensures SameSubmits(n, FillAll(clk, n, keys))
    decreases keys
  {
    hide NodeInv, Keeps, Fill, SendView, Submits;
    if exists k :: k in keys {
      var k := Least(keys);
      var m := Fill(clk, n, k);
      FillKeeps(clk, n, k);
      FillSubmits(clk, n, k);
      KeepsInv(n, m);
      FillAllSubmits(clk, m, keys - {k});
    }
  }

  /** The peer of the first message has nothing queued. */
  predicate HeadReady(n: Node) {
    n.sendQueue != [] &&
    (Key(n.sendQueue[0].toaddr) in n.senders ==> n.senders[Key(n.sendQueue[0].toaddr)].dataQueue == [])
  }

  lemma GetSenderSubmits(clk: Clock, n: Node, b: Addr)
    requires NodeInv(n) && TimersOk(n)
    ensures SameSubmits(n, GetSender(clk, n, b))
    ensures Key(b) !in n.senders ==> GetSender(clk, n, b).senders[Key(b)].dataQueue == []
    ensures Key(b) in n.senders ==> GetSender(clk, n, b) == n
  {
    hide NodeInv, SendView, Submits, AddTimer, OutgoingOf, Key, GetSender;
    if Key(b) in n.senders {
      SenderThere(clk, n, b);
    } else {
      GetSenderIs(clk, n, b);
      EventSubmits(n, GetSender(clk, n, b), Sent(b, SYN_PKG));
    }
  }

  lemma TakeMessageIs(clk: Clock, n: Node)
    requires NodeInv(n) && TimersOk(n)
    ensures SameSubmits(n, TakeMessage(clk, n))
    ensures TakeMessage(clk, n).sendQueue == if HeadReady(n) then n.sendQueue[1..] else n.sendQueue
  {
    hide NodeInv, SendView, Submits, GetSender, Key;
    if n.sendQueue != [] {
      GetSenderSubmits(clk, n, n.sendQueue[0].toaddr);
    }
  }

  /** What is not waiting any more has been taken. */
  lemma TakenIs(v: Outgoing, w: Outgoing, ms: seq<Msg>)
    requires QueueOk(v) && QueueOk(w) && Submits(w.log) == Submits(v.log) && v.pending == ms + w.pending
    ensures Taken(w) == Taken(v) + ms
  {
    hide Submits, Numberable;
    assert Taken(w) + w.pending == (Taken(v) + ms) + w.pending;
    var k := |Taken(w)|;
    assert (Taken(w) + w.pending)[..k] == Taken(w) && ((Taken(v) + ms) + w.pending)[..k] == Taken(v) + ms;
  }

  lemma QueueFine(n: Node, b: Addr)
    requires NodeInv(n)
    ensures QueueOk(OutgoingOf(n, b))
  {
    hide SenderOk, EventsOk, NumbersOk, Untouched, Scheduled, QueueOk;
    assert OutgoingInv(OutgoingOf(n, b), b);
  }

  /** checkSendQueue takes the first message exactly if its peer has nothing queued, and then its
      fragments follow, numbered or queued, those of the messages taken before; no other message is
      touched. */
  lemma FirstMessageTaken(clk: Clock, n: Node, b: Addr)
    requires NodeInv(n) && TimersOk(n)
    ensures var m := CheckSendQueue(clk, n);
            && m.sendQueue == (if HeadReady(n) then n.sendQueue[1..] else n.sendQueue)
            && Taken(OutgoingOf(m, b)) == Taken(OutgoingOf(n, b))
                 + (if HeadReady(n) && n.sendQueue[0].toaddr == b then [n.sendQueue[0].msg] else [])
            && SameSubmits(n, m)
            && OutgoingInv(OutgoingOf(m, b), b)
  {
    hide NodeInv, Keeps, TakeMessage, FillAll, SendView, Submits, QueueOk, Taken, HeadReady, Pending, OutgoingInv;
    var n1, m := TakeMessage(clk, n), CheckSendQueue(clk, n);
    TakeMessageIs(clk, n);
    TakeMessageKeeps(clk, n);
    KeepsInv(n, n1);
    FillAllSubmits(clk, n1, n1.senders.Keys);
    CheckSendQueueKeeps(clk, n);
    KeepsInv(n, m);
    QueueFine(n, b);
    QueueFine(m, b);
    InvAtPeer(m, b);
    var v, w := OutgoingOf(n, b), OutgoingOf(m, b);
    if HeadReady(n) {
      HeadThere(n);
      PendingHead(n.sendQueue, b);
    }
    var ms := if HeadReady(n) && n.sendQueue[0].toaddr == b then [n.sendQueue[0].msg] else [];
    assert v.pending == ms + w.pending;
    TakenIs(v, w, ms);
  }

  lemma HeadThere(n: Node)
    requires HeadReady(n)
    ensures n.sendQueue != []
  {
  }

  lemma InvAtPeer(n: Node, b: Addr)
    requires NodeInv(n)
    ensures OutgoingInv(OutgoingOf(n, b), b)
  {
  }

  /** So its fragments are numbered or queued behind everything taken before. */
  lemma FirstMessageSplit(clk: Clock, n: Node)
    requires NodeInv(n) && TimersOk(n) && HeadReady(n)
    ensures var m, b := CheckSendQueue(clk, n), n.sendQueue[0].toaddr;
            && m.sendQueue == n.sendQueue[1..] && Key(b) in m.senders
            && StreamOf(OutgoingOf(m, b)) == StreamOf(OutgoingOf(n, b)) + Fragments(n.sendQueue[0].msg)
            && 100000 <= m.senders[Key(b)].seqno
            && m.senders[Key(b)].seqno - 100000 <= |StreamOf(OutgoingOf(m, b))|
            && m.senders[Key(b)].dataQueue == StreamOf(OutgoingOf(m, b))[m.senders[Key(b)].seqno - 100000..]
  {
    hide NodeInv, CheckSendQueue, SendView, Submits, Taken, Stream, Fragments, HeadReady, Pending, NumbersOk, EventsOk,
        QueueOk, WindowOk, SynOk, Key, Numbered;
    HeadThere(n);
    var m, b := CheckSendQueue(clk, n), n.sendQueue[0].toaddr;
    FirstMessageTaken(clk, n, b);
    var w := OutgoingOf(m, b);
    StreamSnoc(Taken(OutgoingOf(n, b)), n.sendQueue[0].msg);
    assert w.sender.Some?;
    assert SenderOk(w.sender.value, StreamOf(w), b);
  }

  // ---------- the first timer is served exactly when some timer is due ----------

  /** The event that serving ref logs: one more transmission, or EVENT_TIMEOUT after five retries. */
  function ServingEvent(n: Node, ref: TimerRef): Event
    requires RefOk(n, ref) && TimerAt(n, ref).pkg.Some?
  {
    var t, b := TimerAt(n, ref), n.senders[ref.key].toaddr;
    if t.tryCount < 5 then Sent(b, t.pkg.value) else TimedOut(b, t.pkg.value.sid, t.pkg.value.seqno)
  }

  /** From m to o the first timer was served: one event is logged, a retransmission is due again one
      timeout after the clock's next reading, a number given up leaves the list, and all other timers,
      receivers and messages stay as they were. */
  ghost predicate FirstServed(clk: Clock, m: Node, o: Node) {
    && m.timers != [] && TimersOk(m) && TimersOk(o) &&
    var ref := m.timers[0];
    && TimerAt(m, ref).pkg.Some? && o.log == m.log + [ServingEvent(m, ref)]
    && o.receivers == m.receivers && o.sendQueue == m.sendQueue
    && (forall r | r != ref :: r in o.timers <==> r in m.timers)
    && (forall r | r in m.timers && r != ref :: TimerAt(o, r) == TimerAt(m, r))
    && (TimerAt(m, ref).tryCount >= 5 ==> ref !in o.timers)
    && (TimerAt(m, ref).tryCount < 5 ==>
          ref in o.timers
          && TimerAt(o, ref) == TimerAt(m, ref).(timeout := clk(m.ticks) + m.timeoutms,
                tryCount := TimerAt(m, ref).tryCount + 1))
  }

  lemma RetryServes(clk: Clock, n: Node)
    requires NodeInv(n) && TimersOk(n) && n.timers != [] && TimerAt(n, n.timers[0]).tryCount < MAXRETRANS
    ensures FirstServed(clk, n, FireHead(clk, n).0)
  {
    hide NodeInv, FireHead, AddTimer, Deadline, OutgoingInv, OutgoingOf, SlotBySeq, Key;
    var ref := n.timers[0];
    var m, o := RetryForm(clk, n);
    var f := FireHead(clk, n).0;
    HeadNotAgain(n);
    InsertElements(m.timers, InsertAt(m, TimerAt(m, ref).timeout, 0), ref);
    AddTimerIs(m, ref);
    forall r | r in n.timers && r != ref ensures RefOk(f, r) && TimerAt(f, r) == TimerAt(n, r) {
    }
    forall r | r in f.timers ensures RefOk(f, r) {
      if r != ref {
        assert r in n.timers;
      }
    }
  }

  lemma AddTimerIs(n: Node, ref: TimerRef)
    requires RefOk(n, ref) && TimersOk(n)
    ensures AddTimer(n, ref) == n.(timers := Insert(n.timers, InsertAt(n, TimerAt(n, ref).timeout, 0), ref))
  {
  }

  lemma HeadNotAgain(n: Node)
    requires NodeInv(n) && n.timers != []
    ensures forall r :: r in n.timers[1..] <==> r in n.timers && r != n.timers[0]
  {
    hide OutgoingInv, DeadlineOf, Sorted;
  }

  lemma GiveUpServes(clk: Clock, n: Node)
    requires NodeInv(n) && TimersOk(n) && n.timers != [] && TimerAt(n, n.timers[0]).tryCount >= MAXRETRANS
    ensures FirstServed(clk, n, FireHead(clk, n).0)
  {
    hide NodeInv, FireHead, Deadline, OutgoingInv, OutgoingOf, SlotBySeq, Key;
    var e := GiveUpForm(clk, n);
    HeadNotAgain(n);
  }

  /** The list is in the order of the timeouts. */
  lemma FirstIsLeast(n: Node)
    requires NodeInv(n) && TimersOk(n) && n.timers != []
    ensures forall r | r in n.timers :: TimerAt(n, n.timers[0]).timeout <= TimerAt(n, r).timeout
  {
    hide NodeInv, DeadlineOf, TimerAt, NoDuplicates;
    InvParts(n);
    forall r | r in n.timers ensures TimerAt(n, n.timers[0]).timeout <= TimerAt(n, r).timeout {
      var i :| 0 <= i < |n.timers| && n.timers[i] == r;
      assert n.timers[0] in n.timers;
    }
  }

  /** Some timer's timeout is at most the clock's reading. */
  predicate Overdue(n: Node, now: int)
    requires TimersOk(n)
  {
    exists r | r in n.timers :: TimerAt(n, r).timeout <= now
  }

  /** An iteration first does checkSendQueue.  If then some timer's timeout is at most the reading that
      the iteration began with, it serves the first timer, which has the least timeout, and leaves the
      socket alone.  Otherwise it serves none, and processes what it reads. */
  lemma ServesWhenOverdue(clk: Clock, n: Node, input: Input)
    requires NodeInv(n) && TimersOk(n)
    ensures var m, o := CheckSendQueue(clk, n.(ticks := n.ticks + 1)), LoopStep(clk, n, input).0;
            TimersOk(m) &&
            if Overdue(m, clk(n.ticks))
            then
              && FirstServed(clk, m, o)
              && (forall r | r in m.timers :: TimerAt(m, m.timers[0]).timeout <= TimerAt(m, r).timeout)
              && LoopStep(clk, n, input) == LoopStep(clk, n, Nothing)
            else
              o == match input case Nothing => m case Packet(from, p, _) => ProcessReceive(m, from, p)
  {
    hide NodeInv, CheckSendQueue, FireHead, ProcessReceive, FirstServed, Keeps, TimerAt;
    var n0 := n.(ticks := n.ticks + 1);
    KeepsSame(n, n0);
    KeepsInv(n, n0);
    var m := CheckSendQueue(clk, n0);
    CheckSendQueueKeeps(clk, n0);
    KeepsInv(n0, m);
    if m.timers != [] {
      FirstIsLeast(m);
      assert m.timers[0] in m.timers;
      if TimerAt(m, m.timers[0]).tryCount < MAXRETRANS {
        RetryServes(clk, m);
      } else {
        GiveUpServes(clk, m);
      }
    }
  }

  lemma ReceiverSubmits(n: Node, m: Node)
    requires ReceiveOnly(n, m)
    ensures SameSubmits(n, m)
  {
  }

  lemma OnAckSubmits(n: Node, from: Addr, p: Pkg)
    ensures SameSubmits(n, OnAck(n, from, p))
  {
    hide SlotBySeq, SendView, Submits, RemoveFirst, Key;
    var m := OnAck(n, from, p);
    if m.log != n.log {
      assert m.log == n.log + [m.log[|n.log|]];
      EventSubmits(n, m, m.log[|n.log|]);
    }
  }

  lemma ProcessReceiveSubmits(n: Node, from: Addr, p: Pkg)
    ensures SameSubmits(n, ProcessReceive(n, from, p))
  {
    hide OnSyn, OnData, OnFin, OnAck, ReceiveOnly, SendView, Submits;
    OnSynReceives(n, from, p);
    OnDataReceives(n, from, p);
    OnFinReceives(n, from, p);
    OnAckSubmits(n, from, p);
    if p.ptype in {SYN, DATA, FIN} {
      ReceiverSubmits(n, ProcessReceive(n, from, p));
    }
  }

  lemma ServedSubmits(clk: Clock, n: Node, o: Node)
    requires FirstServed(clk, n, o)
    ensures SameSubmits(n, o)
  {
    hide SendView, Submits;
    EventSubmits(n, o, ServingEvent(n, n.timers[0]));
  }

  lemma SameSubmitsTrans(n: Node, m: Node, o: Node)
    requires SameSubmits(n, m) && SameSubmits(m, o)
    ensures SameSubmits(n, o)
  {
    hide SendView, Submits;
    forall b: Addr ensures Submits(SendView(o.log, b)) == Submits(SendView(n.log, b)) {
      assert Submits(SendView(m.log, b)) == Submits(SendView(n.log, b));
    }
  }

  lemma LogSame(n: Node, m: Node)
    requires m.log == n.log
    ensures SameSubmits(n, m)
  {
  }

  /** Only send() submits messages. */
  lemma IterationSubmits(clk: Clock, n: Node, input: Input)
    requires NodeInv(n) && TimersOk(n)
    ensures SameSubmits(n, LoopStep(clk, n, input).0)
  {
    hide NodeInv, CheckSendQueue, LoopStep, ProcessReceive, FirstServed, Keeps, Overdue, Taken, SendView, Submits,
        SameSubmits, OutgoingInv, OutgoingOf, HeadReady;
    var n0, o := n.(ticks := n.ticks + 1), LoopStep(clk, n, input).0;
    KeepsSame(n, n0);
    KeepsInv(n, n0);
    LogSame(n, n0);
    var m := CheckSendQueue(clk, n0);
    FirstMessageTaken(clk, n0, NO_ADDR);
    SameSubmitsTrans(n, n0, m);
    ServesWhenOverdue(clk, n, input);
    if Overdue(m, clk(n.ticks)) {
      ServedSubmits(clk, m, o);
      SameSubmitsTrans(n, m, o);
    } else if input.Packet? {
      ProcessReceiveSubmits(m, input.from, input.pkg);
      SameSubmitsTrans(n, m, o);
    }
  }

  // ---------- every answer carries the number of its packet ----------

  /** The last thing logged is an ACK to from with the number, the session and the length of p, without
      data; its offset is the one behind the data of a DATA packet, p's own otherwise. */
  predicate AnswerTo(n: Node, o: Node, from: Addr, p: Pkg) {
    && |n.log| < |o.log| && o.log[|o.log| - 1].Sent? && o.log[|o.log| - 1].peer == from
    && var ack := o.log[|o.log| - 1].pkg;
       && ack.ptype == ACK && ack.seqno == p.seqno && ack.sid == p.sid && ack.totallen == p.totallen
       && ack.offset == (if p.ptype == DATA then p.offset + |p.data| else p.offset)
       && (p.ptype != FIN ==> ack.data == [])
  }

  lemma SynAnswerCarries(n: Node, from: Addr, p: Pkg)
    requires p.ptype == SYN
    ensures AnswerTo(n, OnSyn(n, from, p), from, p)
  {
    hide Key;
  }

  lemma DataAnswerCarries(n: Node, from: Addr, p: Pkg)
    requires p.ptype == DATA && Acknowledges(n, from, p)
    ensures AnswerTo(n, OnData(n, from, p), from, p)
  {
    hide Key, Absorb;
  }

  lemma FinAnswerCarries(n: Node, from: Addr, p: Pkg)
    requires p.ptype == FIN && Acknowledges(n, from, p)
    ensures AnswerTo(n, OnFin(n, from, p), from, p)
  {
    hide Key;
  }

  /** Every packet that is answered gets such an answer. */
  lemma AnswerCarries(n: Node, from: Addr, p: Pkg)
    requires Acknowledges(n, from, p)
    ensures AnswerTo(n, ProcessReceive(n, from, p), from, p)
  {
    hide OnSyn, OnData, OnFin, OnAck, AnswerTo, Key;
    if p.ptype == SYN {
      SynAnswerCarries(n, from, p);
    } else if p.ptype == DATA {
      DataAnswerCarries(n, from, p);
    } else {
      FinAnswerCarries(n, from, p);
    }
  }

  /** A FIN with the expected number removes the receiver, and leaves every other one; any other FIN
      changes no receiver. */
  lemma FinCloses(n: Node, from: Addr, p: Pkg)
    requires p.ptype == FIN && (Key(from) in n.receivers ==> n.receivers[Key(from)].fromaddr == from)
    ensures ProcessReceive(n, from, p).receivers ==
            if Key(from) in n.receivers && n.receivers[Key(from)].expectedSeq == p.seqno
            then map k | k in n.receivers && k != Key(from) :: n.receivers[k]
            else n.receivers
  {
    hide Key;
  }

  /** Which packets are answered: a SYN always; DATA exactly if there is a receiver that has seen a SYN
      and the number is between the expected one and five below it; a FIN if its number is the expected
      one, or there is no receiver; nothing else. */
  lemma AnsweredExactly(n: Node, from: Addr, p: Pkg)
    requires Key(from) in n.receivers ==> 5 <= n.receivers[Key(from)].expectedSeq < 0x1_0000_0000
    ensures Answered(n, ProcessReceive(n, from, p), from) <==>
            || p.ptype == SYN
            || (p.ptype == DATA && Key(from) in n.receivers && n.receivers[Key(from)].status != SYN_SENT
                && n.receivers[Key(from)].expectedSeq - 5 <= p.seqno <= n.receivers[Key(from)].expectedSeq)
            || (p.ptype == FIN && (Key(from) in n.receivers ==> p.seqno == n.receivers[Key(from)].expectedSeq))
  {
    hide ProcessReceive, Answered, Key;
    AcknowledgesIff(n, from, p);
  }
}
