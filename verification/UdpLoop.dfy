/**
 Every function of the engine keeps its invariant: getSender, checkSendQueue, processTimeout
 and processReceive, in any order, with any packets and any clock.
 */
module UdpLoop {
  import opened Seqs
  import opened UdpTypes
  import opened UdpStream
  import opened UdpNode
  import opened UdpSender
  import opened UdpSteps
  import opened UdpTimers
  import opened UdpReceiver
  import opened UdpEngine

  /** A sending-side step: the invariant is kept and only the history grows. */
  ghost predicate Keeps(n: Node, m: Node) {
    NodeInv(m) && NodeGrows(n, m, Nothing) && SendOnly(n, m)
  }

  lemma KeepsTrans(n: Node, m: Node, o: Node)
    requires Keeps(n, m) && Keeps(m, o)
    ensures Keeps(n, o)
  {
    hide NodeInv, NodeGrows;
    NodeGrowsTrans(n, m, o, Nothing, Nothing);
  }

  lemma KeepsSame(n: Node, m: Node)
    requires NodeInv(n) && m == n.(ticks := m.ticks)
    ensures Keeps(n, m)
  {
    hide OutgoingInv, Grows, Deadline, Scheduled, Taken, Submits;
    forall b: Addr ensures OutgoingOf(m, b) == OutgoingOf(n, b) && Grows(OutgoingOf(n, b), OutgoingOf(m, b), None) {
      GrowsSame(OutgoingOf(n, b), None);
    }
    assert forall r: TimerRef :: DeadlineOf(m, r) == DeadlineOf(n, r);
    ScheduleFrame(n.timers, DeadlinesOf(n), DeadlinesOf(m));
  }

  lemma InvParts(n: Node)
    requires NodeInv(n)
    ensures KeysOk(n) && SendersOk(n) && TimersOk(n)
    ensures forall r | r in n.timers :: DeadlineOf(n, r) == Some(TimerAt(n, r).timeout)
    ensures Scheduled(n.timers, DeadlinesOf(n))
  {
    hide OutgoingInv, DeadlineOf, Scheduled;
    ScheduledTimersOk(n, SynRef(0));
  }

  /** The sender of a peer, through its view. */
  lemma SenderOfKey(n: Node, k: int)
    requires NodeInv(n) && k in n.senders
    ensures Key(n.senders[k].toaddr) == k
    ensures OutgoingOf(n, n.senders[k].toaddr).sender == Some(n.senders[k])
    ensures OutgoingInv(OutgoingOf(n, n.senders[k].toaddr), n.senders[k].toaddr)
  {
    hide OutgoingInv, Scheduled;
  }

  lemma NewNodeInv(timeoutms: int)
    ensures NodeInv(NewNode(timeoutms))
  {
  }

  // ---------- getSender ----------

  /** For a new peer: a sender with its SYN sent and on the timer list. */
  lemma GetSenderIs(clk: Clock, n: Node, b: Addr)
    requires TimersOk(n) && Key(b) !in n.senders
    ensures var w := OutCreate(OutgoingOf(n, b), b, clk(n.ticks) + n.timeoutms);
            var m := Put(n, b, w.sender.value, Sent(b, SYN_PKG), n.timers, n.ticks + 1);
            TimersOk(m) && RefOk(m, SynRef(Key(b))) && GetSender(clk, n, b) == AddTimer(m, SynRef(Key(b)))
  {
    hide Key, AddTimer, SendTimed;
    SendTimedIs(clk, n, b, NewSender(b), SYN, FIRST_SEQ, SynRef(Key(b)));
  }

  lemma SenderThere(clk: Clock, n: Node, b: Addr)
    requires TimersOk(n) && Key(b) in n.senders
    ensures GetSender(clk, n, b) == n
  {
  }

  lemma CreatedKeeps(n: Node, b: Addr, w: Outgoing, timeout: int, ticks: nat)
    requires NodeInv(n) && Key(b) !in n.senders && w == OutCreate(OutgoingOf(n, b), b, timeout)
    ensures var m := Put(n, b, w.sender.value, Sent(b, SYN_PKG), n.timers, ticks);
            TimersOk(m) && RefOk(m, SynRef(Key(b))) && Keeps(n, AddTimer(m, SynRef(Key(b))))
  {
    hide Grows, NodeGrows, SendOnly, Deadline, DeadlineOf, Scheduled, ScheduledBut, OutgoingInv, SendersOk, AddTimer;
    var ref := SynRef(Key(b));
    InvParts(n);
    OutgoingAt(n, b);
    NoDeadline(n, ref);
    ScheduleNone(n.timers, DeadlinesOf(n), ref);
    CreateArms(OutgoingOf(n, b), b, timeout);
    ArmKeeps(n, b, ref, w, Sent(b, SYN_PKG), ticks);
  }

  lemma GetSenderKeeps(clk: Clock, n: Node, b: Addr)
    requires NodeInv(n) && TimersOk(n)
    ensures Keeps(n, GetSender(clk, n, b)) && GetSender(clk, n, b).sendQueue == n.sendQueue
  {
    hide Keeps, NodeInv, OutgoingOf, AddTimer;
    if Key(b) in n.senders {
      KeepsSame(n, n);
    } else {
      var timeout := clk(n.ticks) + n.timeoutms;
      GetSenderIs(clk, n, b);
      CreatedKeeps(n, b, OutCreate(OutgoingOf(n, b), b, timeout), timeout, n.ticks + 1);
    }
  }

  lemma NoDeadline(n: Node, ref: TimerRef)
    requires ref.key !in n.senders
    ensures DeadlineOf(n, ref).None?
  {
  }

  lemma OutgoingAt(n: Node, b: Addr)
    requires SendersOk(n)
    ensures OutgoingInv(OutgoingOf(n, b), b)
  {
  }

  // ---------- send() and the first half of checkSendQueue ----------

  lemma SubmitViews(n: Node, b: Addr, m: Msg)
    ensures OutgoingOf(Submit(n, b, m), b) == OutSubmit(OutgoingOf(n, b), b, m)
    ensures OthersSame(n, Submit(n, b, m), b) && SendOnly(n, Submit(n, b, m))
  {
    var o := Submit(n, b, m);
    SendViewSnoc(n.log, Submitted(b, m), b);
    PendingSnoc(n.sendQueue, SendPack(b, m), b);
    forall c: Addr | c != b ensures OutgoingOf(o, c) == OutgoingOf(n, c) {
      SendViewSnoc(n.log, Submitted(b, m), c);
      PendingSnoc(n.sendQueue, SendPack(b, m), c);
    }
    forall a: Addr ensures RecvView(o.log, a) == RecvView(n.log, a) {
      RecvViewSnoc(n.log, Submitted(b, m), a);
    }
  }

  /** send(): the message joins the queue and nothing else changes. */
  lemma SubmitNode(n: Node, b: Addr, m: Msg)
    requires NodeInv(n) && Numberable(Submits(OutgoingOf(n, b).log) + [m])
    ensures Keeps(n, Submit(n, b, m))
  {
    hide Numberable, OutgoingInv, Grows, Deadline, OutgoingOf, SendOnly, Scheduled, Submits;
    var v, o := OutgoingOf(n, b), Submit(n, b, m);
    var w := OutSubmit(v, b, m);
    SubmitViews(n, b, m);
    SubmitKeeps(v, b, m);
    forall r: TimerRef | r.key == Key(b) ensures Deadline(w, r) == Deadline(v, r) {
      SubmitDeadline(v, b, m, r);
    }
    QuietKeeps(n, o, b, w, Nothing);
  }

  lemma SubmitDeadline(v: Outgoing, b: Addr, m: Msg, r: TimerRef)
    ensures Deadline(OutSubmit(v, b, m), r) == Deadline(v, r)
  {
    if v.sender.Some? {
      DeadlineKept(v, OutSubmit(v, b, m), Submitted(b, m), r);
    }
  }

  lemma DequeuedViews(n: Node)
    requires n.sendQueue != [] && Key(n.sendQueue[0].toaddr) in n.senders
    requires n.senders[Key(n.sendQueue[0].toaddr)].dataQueue == []
    ensures var b := n.sendQueue[0].toaddr;
            && CanTake(OutgoingOf(n, b)) && OutgoingOf(Dequeued(n), b) == OutTake(OutgoingOf(n, b))
            && OthersSame(n, Dequeued(n), b) && SendOnly(n, Dequeued(n))
  {
    hide SendView, Pending, RecvView, Fragments, Key;
    var b, m := n.sendQueue[0].toaddr, Dequeued(n);
    PendingHead(n.sendQueue, b);
    assert Pending(n.sendQueue, b)[1..] == Pending(n.sendQueue[1..], b);
    forall c: Addr | c != b ensures OutgoingOf(m, c) == OutgoingOf(n, c) {
      KeyInjective(b, c);
      PendingHead(n.sendQueue, c);
    }
  }

  lemma DequeueKeeps(n: Node)
    requires NodeInv(n) && n.sendQueue != [] && Key(n.sendQueue[0].toaddr) in n.senders
    requires n.senders[Key(n.sendQueue[0].toaddr)].dataQueue == []
    ensures Keeps(n, Dequeued(n))
  {
    hide OutgoingInv, Grows, Deadline, OutgoingOf, SendOnly, Scheduled, Fragments;
    var b, m := n.sendQueue[0].toaddr, Dequeued(n);
    var v := OutgoingOf(n, b);
    DequeuedViews(n);
    TakeKeeps(v, b);
    forall r: TimerRef | r.key == Key(b) ensures Deadline(OutTake(v), r) == Deadline(v, r) {
      TakeDeadline(v, r);
    }
    QuietKeeps(n, m, b, OutTake(v), Nothing);
  }

  lemma TakeDeadline(v: Outgoing, r: TimerRef)
    requires CanTake(v)
    ensures Deadline(OutTake(v), r) == Deadline(v, r)
  {
  }

  lemma TakeMessageKeeps(clk: Clock, n: Node)
    requires NodeInv(n) && TimersOk(n)
    ensures Keeps(n, TakeMessage(clk, n))
  {
    hide NodeInv, NodeGrows, SendOnly, GetSender, Fragments, Keeps;
    if n.sendQueue == [] {
      KeepsSame(n, n);
    } else {
      var n1 := GetSender(clk, n, n.sendQueue[0].toaddr);
      GetSenderKeeps(clk, n, n.sendQueue[0].toaddr);
      KeepsInv(n, n1);
      if n1.senders[Key(n.sendQueue[0].toaddr)].dataQueue == [] {
        DequeueKeeps(n1);
        KeepsTrans(n, n1, Dequeued(n1));
      }
    }
  }

  lemma KeepsInv(n: Node, m: Node)
    requires Keeps(n, m)
    ensures NodeInv(m) && TimersOk(m)
  {
    hide NodeInv;
    InvParts(m);
  }

  // ---------- the second half of checkSendQueue ----------

  lemma NewSlotFound(window: seq<Timer>, i: nat, t: Timer, q: nat)
    requires i < |window| && t.pkg.Some? && t.pkg.value.seqno == q
    requires forall j | Occupied(window, j) && j != i :: SeqAt(window, j) != q
    ensures SlotBySeq(window[i := t], q, 0) == Some(i)
  {
    var w := window[i := t];
    var r := SlotBySeq(w, q, 0);
    assert w[i] == t;
    assert forall j | Occupied(w, j) && j != i :: Occupied(window, j) && SeqAt(window, j) == SeqAt(w, j);
    assert r.Some? && Occupied(w, r.value) && SeqAt(w, r.value) == q;
  }

  lemma NumbersBelow(v: Outgoing, b: Addr)
    requires OutgoingInv(v, b) && v.sender.Some?
    ensures forall j | Occupied(v.sender.value.window, j) :: SeqAt(v.sender.value.window, j) <= v.sender.value.seqno
    ensures |v.sender.value.window| == WINDOW
  {
    hide Numbered, OutgoingInv;
    ToAddr(v, b);
    forall j | Occupied(v.sender.value.window, j) ensures SeqAt(v.sender.value.window, j) <= v.sender.value.seqno {
      NumberedBounds(v.sender.value.window[j].pkg.value, v.sender.value.seqno, StreamOf(v));
    }
  }

  /** The inner loop stops exactly when nothing is queued or the window has no room for the next
      number. */
  lemma NextSlotMeaning(n: Node, k: int)
    requires NodeInv(n) && k in n.senders
    ensures NextSlot(n, k).Some? ==> CanTransmit(OutgoingOf(n, n.senders[k].toaddr), NextSlot(n, k).value)
    ensures NextSlot(n, k).None? ==> forall i :: !CanTransmit(OutgoingOf(n, n.senders[k].toaddr), i)
  {
    hide NodeInv, OutgoingOf, OutgoingInv, EmptySlot;
    var ss := n.senders[k];
    var v := OutgoingOf(n, ss.toaddr);
    SenderOfKey(n, k);
    NumbersBelow(v, ss.toaddr);
    ToAddr(v, ss.toaddr);
    EmptySlotMeaning(ss.window, ss.seqno + 1);
    assert (ss.seqno + 1) % 0x1_0000_0000 == ss.seqno + 1;
  }

  /** The sender with the next fragment in slot i, not numbered yet. */
  function Loaded(ss: Sender, i: nat): Sender
    requires ss.dataQueue != [] && i < |ss.window|
  {
    ss.(seqno := ss.seqno + 1, dataQueue := ss.dataQueue[1..],
        window := ss.window[i := ss.window[i].(tryCount := 0, pkg := Some(ss.dataQueue[0]))])
  }

  lemma LoadedFinds(ss: Sender, i: nat, k: int)
    requires ss.dataQueue != [] && i < |ss.window|
    requires forall j | Occupied(ss.window, j) && j != i :: SeqAt(ss.window, j) <= ss.seqno
    ensures FindsItself(Loaded(ss, i), SlotRef(k, i), DATA, ss.seqno + 1)
  {
    hide SlotBySeq;
    var sent := ss.window[i].(tryCount := 0, pkg := Some(NextPkg(ss)));
    assert Loaded(ss, i).window[i := sent] == ss.window[i := sent];
    NewSlotFound(ss.window, i, sent, ss.seqno + 1);
  }

  lemma LoadedPlaced(ss: Sender, i: nat, k: int, timeout: int)
    requires ss.dataQueue != [] && i < |ss.window|
    ensures WithTimer(Loaded(ss, i), SlotRef(k, i), Timer(timeout, 0, ss.toaddr, Some(NextPkg(ss))))
         == Placed(ss, i, timeout)
    ensures TimerOf(Loaded(ss, i), SlotRef(k, i)).pkg == Some(ss.dataQueue[0])
    ensures TimerOf(Loaded(ss, i), SlotRef(k, i)).tryCount == 0
  {
    var t := Timer(timeout, 0, ss.toaddr, Some(NextPkg(ss)));
    assert Loaded(ss, i).window[i := t] == ss.window[i := t];
  }

  lemma TransmitIs(clk: Clock, n: Node, k: int, i: nat)
    requires TimersOk(n) && k in n.senders && Key(n.senders[k].toaddr) == k
    requires n.senders[k].dataQueue != [] && i < |n.senders[k].window| && n.senders[k].seqno < INT_MAX
    requires forall j | Occupied(n.senders[k].window, j) && j != i ::
              SeqAt(n.senders[k].window, j) <= n.senders[k].seqno
    ensures var b, ref := n.senders[k].toaddr, SlotRef(k, i);
            var m := Put(n, b, Placed(n.senders[k], i, clk(n.ticks) + n.timeoutms),
                                    Sent(b, NextPkg(n.senders[k])), n.timers, n.ticks + 1);
            TimersOk(m) && RefOk(m, ref) && Transmit(clk, n, k, i) == AddTimer(m, ref)
  {
    hide Key, AddTimer, SendTimed, FindsItself, WithTimer;
    var ss, ref := n.senders[k], SlotRef(k, i);
    assert (ss.seqno + 1) % 0x1_0000_0000 == ss.seqno + 1;
    LoadedFinds(ss, i, k);
    LoadedPlaced(ss, i, k, clk(n.ticks) + n.timeoutms);
    SendTimedIs(clk, n, ss.toaddr, Loaded(ss, i), DATA, ss.seqno + 1, ref);
  }

  /** The next fragment goes out with the next number, in a free slot and on the timer list. */
  lemma TransmitNode(clk: Clock, n: Node, k: int, i: nat)
    requires NodeInv(n) && TimersOk(n) && k in n.senders && CanTransmit(OutgoingOf(n, n.senders[k].toaddr), i)
    requires OutgoingOf(n, n.senders[k].toaddr).sender == Some(n.senders[k])
    ensures Keeps(n, Transmit(clk, n, k, i))
  {
    hide Grows, NodeGrows, SendOnly, Deadline, DeadlineOf, Scheduled, ScheduledBut, OutgoingInv, SendersOk, AddTimer,
        Transmit, OutgoingOf;
    var b, ref, timeout := n.senders[k].toaddr, SlotRef(k, i), clk(n.ticks) + n.timeoutms;
    var v := OutgoingOf(n, b);
    var w := OutTransmit(v, b, i, timeout);
    InvParts(n);
    SenderOfKey(n, k);
    ToAddr(v, b);
    NumbersBelow(v, b);
    NothingHeld(v, ref);
    OwnDeadline(n, b, ref);
    ScheduleNone(n.timers, DeadlinesOf(n), ref);
    TransmitArms(v, b, i, timeout);
    ArmKeeps(n, b, ref, w, Sent(b, NextPkg(n.senders[k])), n.ticks + 1);
    TransmitIs(clk, n, k, i);
  }

  lemma {:induction false} FillKeeps(clk: Clock, n: Node, k: int)
    requires NodeInv(n) && TimersOk(n) && k in n.senders
    ensures Keeps(n, Fill(clk, n, k))
    decreases Backlog(n, k)
  {
    hide NodeInv, Keeps, Transmit, OutgoingOf, CanTransmit, NextSlot;
    var slot := NextSlot(n, k);
    if slot.None? {
      KeepsSame(n, n);
    } else {
      NextSlotMeaning(n, k);
      SenderOfKey(n, k);
      var m := Transmit(clk, n, k, slot.value);
      TransmitNode(clk, n, k, slot.value);
      KeepsInv(n, m);
      FillKeeps(clk, m, k);
      KeepsTrans(n, m, Fill(clk, m, k));
    }
  }

  lemma {:induction false} FillAllKeeps(clk: Clock, n: Node, keys: set<int>)
    requires NodeInv(n) && TimersOk(n) && keys <= n.senders.Keys
    ensures Keeps(n, FillAll(clk, n, keys))
    decreases keys
  {
    hide NodeInv, Keeps, Fill;
    if exists k :: k in keys {
      var k := Least(keys);
      var m := Fill(clk, n, k);
      FillKeeps(clk, n, k);
      KeepsInv(n, m);
      FillAllKeeps(clk, m, keys - {k});
      KeepsTrans(n, m, FillAll(clk, m, keys - {k}));
    } else {
      KeepsSame(n, n);
    }
  }

  /** checkSendQueue. */
  lemma CheckSendQueueKeeps(clk: Clock, n: Node)
    requires NodeInv(n) && TimersOk(n)
    ensures Keeps(n, CheckSendQueue(clk, n))
  {
    hide NodeInv, Keeps, TakeMessage, FillAll;
    var n1 := TakeMessage(clk, n);
    TakeMessageKeeps(clk, n);
    KeepsInv(n, n1);
    FillAllKeeps(clk, n1, n1.senders.Keys);
    KeepsTrans(n, n1, CheckSendQueue(clk, n));
  }

  // ---------- timeouts ----------

  /** The head of the list: an event of an existing sender that holds its packet, is addressed to
      that sender's peer, and is found again by its number. */
  ghost predicate HeadOk(n: Node, b: Addr, ref: TimerRef) {
    && ref.key in n.senders && ref.key == Key(b) && n.senders[ref.key].toaddr == b
    && OutgoingOf(n, b).sender == Some(n.senders[ref.key]) && OutgoingInv(OutgoingOf(n, b), b)
    && HoldsPkg(OutgoingOf(n, b), ref) && Deadline(OutgoingOf(n, b), ref).Some? && TimerAt(n, ref).toaddr == b
    && match ref
       case SynRef(_) => TimerAt(n, ref).pkg.value.ptype == SYN
       case SlotRef(_, i) =>
         && TimerAt(n, ref).pkg.value.ptype == DATA && Distinct(n.senders[ref.key].window)
         && SlotBySeq(n.senders[ref.key].window, TimerAt(n, ref).pkg.value.seqno, 0) == Some(i)
  }

  lemma HeadIsOk(n: Node, ref: TimerRef)
    requires NodeInv(n) && ref in n.timers
    ensures ref.key in n.senders && HeadOk(n, n.senders[ref.key].toaddr, ref)
  {
    hide NodeInv, OutgoingOf, OutgoingInv, Deadline, DeadlineOf, Count, Numbered, SlotBySeq;
    InvParts(n);
    DeadlineIsTimeout(n, ref);
    SenderOfKey(n, ref.key);
    var b := n.senders[ref.key].toaddr;
    var v := OutgoingOf(n, b);
    OwnDeadline(n, b, ref);
    HeldPkg(v, b, ref);
    ToAddr(v, b);
    if ref.SlotRef? {
      SlotFound(n.senders[ref.key].window, ref.i);
      NumberedBounds(n.senders[ref.key].window[ref.i].pkg.value, n.senders[ref.key].seqno, StreamOf(v));
    }
  }

  /** The list without its head schedules every other event. */
  lemma HeadDropped(n: Node)
    requires NodeInv(n) && n.timers != []
    ensures var m := n.(timers := n.timers[1..]);
            && KeysOk(m) && SendersOk(m) && ScheduledBut(m.timers, DeadlinesOf(n), n.timers[0])
            && ScheduledBut(m.timers, DeadlinesOf(m), n.timers[0])
            && (forall b: Addr :: OutgoingOf(m, b) == OutgoingOf(n, b)) && SendOnly(n, m)
  {
    hide OutgoingInv, Deadline, SendView, Pending, NoDuplicates, Sorted;
    var m := n.(timers := n.timers[1..]);
    assert forall b: Addr :: OutgoingOf(m, b) == OutgoingOf(n, b);
    ScheduleRemove(n.timers, DeadlinesOf(n), n.timers[0]);
    assert RemoveFirst(n.timers, n.timers[0]) == m.timers;
    ButFrame(m.timers, DeadlinesOf(n), DeadlinesOf(m), n.timers[0]);
  }

  /** After CONST_MAXRETRANS retries the event is given up. */
  lemma GiveUpNode(clk: Clock, n: Node)
    requires NodeInv(n) && TimersOk(n) && n.timers != [] && TimerAt(n, n.timers[0]).tryCount >= MAXRETRANS
    ensures FireHead(clk, n).1 == 0 && Keeps(n, FireHead(clk, n).0)
  {
    hide NodeInv, OutgoingInv, OutgoingOf, Deadline, DeadlineOf, SendOnly, NodeGrows, ScheduledBut, StepAt,
        SlotBySeq, Count, Key, FireHead;
    var ref := n.timers[0];
    HeadIsOk(n, ref);
    var b := n.senders[ref.key].toaddr;
    var v := OutgoingOf(n, b);
    HeadDropped(n);
    InvParts(n);
    HasDeadline(v, ref);
    GiveUpDisarms(v, b, ref);
    var e := GiveUpForm(clk, n);
    DisarmKeeps(n, b, ref, OutGiveUp(v, b, ref), e, n.timers[1..], Nothing);
    assert n.senders[Key(b) := n.senders[ref.key]] == n.senders;
  }

  /** Giving up raises EVENT_TIMEOUT and takes the event off the list. */
  lemma GiveUpForm(clk: Clock, n: Node) returns (e: Event)
    requires NodeInv(n) && TimersOk(n) && n.timers != [] && TimerAt(n, n.timers[0]).tryCount >= MAXRETRANS
    ensures var ref := n.timers[0];
            && ref.key in n.senders && HeadOk(n, n.senders[ref.key].toaddr, ref)
            && TimerAt(n, ref).tryCount == MAXRETRANS
            && e == TimedOut(n.senders[ref.key].toaddr, TimerAt(n, ref).pkg.value.sid, TimerAt(n, ref).pkg.value.seqno)
            && FireHead(clk, n) == (Log(n, e).(timers := n.timers[1..]), 0)
  {
    hide NodeInv, OutgoingInv, OutgoingOf, Deadline, DeadlineOf, SlotBySeq, Key, SendTimed, Count;
    var ref := n.timers[0];
    HeadIsOk(n, ref);
    HeldPkg(OutgoingOf(n, n.senders[ref.key].toaddr), n.senders[ref.key].toaddr, ref);
    var t := TimerAt(n, ref);
    e := TimedOut(t.toaddr, t.pkg.value.sid, t.pkg.value.seqno);
  }

  lemma HasDeadline(v: Outgoing, ref: TimerRef)
    requires Deadline(v, ref).Some?
    ensures HoldsPkg(v, ref) && Count(v.log, GaveUp(PkgOf(v, ref).seqno)) == 0
  {
  }

  lemma {:induction false} InsertAtTail(m: Node, o: Node, timeout: int, j: nat)
    requires TimersOk(m) && m.timers != [] && o == m.(timers := m.timers[1..]) && j < |m.timers|
    ensures TimersOk(o) && InsertAt(m, timeout, j + 1) == InsertAt(o, timeout, j) + 1
    decreases |m.timers| - j
  {
    assert forall r | r in o.timers :: r in m.timers;
    if j + 1 < |m.timers| {
      assert o.timers[j] == m.timers[j + 1];
      InsertAtTail(m, o, timeout, j + 1);
    }
  }

  /** Rewriting the head's timeout in place, inserting it again and erasing the old node is the
      same as erasing it first: the new node goes behind the old one. */
  lemma ReinsertHead(m: Node, o: Node, ref: TimerRef)
    requires TimersOk(m) && m.timers != [] && m.timers[0] == ref && RefOk(m, ref) && o == m.(timers := m.timers[1..])
    ensures TimersOk(o) && RefOk(o, ref)
    ensures AddTimer(m, ref).timers != [] && AddTimer(m, ref).timers[1..] == AddTimer(o, ref).timers
  {
    var timeout := TimerAt(m, ref).timeout;
    InsertAtTail(m, o, timeout, 0);
    var p := InsertAt(o, timeout, 0);
    assert InsertAt(m, timeout, 0) == p + 1;
    InsertTail(m.timers, p, ref);
  }

  lemma InsertTail(s: seq<TimerRef>, p: nat, x: TimerRef)
    requires s != [] && p < |s|
    ensures Insert(s, p + 1, x)[1..] == Insert(s[1..], p, x)
  {
  }

  /** The head's sender with one more try counted. */
  function Counted(ss: Sender, ref: TimerRef): Sender
    requires HasTimer(ss, ref)
  {
    WithTimer(ss, ref, TimerOf(ss, ref).(tryCount := TimerOf(ss, ref).tryCount + 1))
  }

  /** None of processTimeout's early exits is taken: sendPackage is called. */
  lemma RetrySends(clk: Clock, n: Node, b: Addr, ref: TimerRef)
    requires TimersOk(n) && HeadOk(n, b, ref) && TimerAt(n, ref).tryCount < MAXRETRANS
    ensures var ss, p := n.senders[ref.key], TimerAt(n, ref).pkg.value;
            var o := n.(senders := n.senders[Key(b) := Counted(ss, ref)]);
            TimersOk(o) && ProcessTimeout(clk, n, ref) == SendTimed(clk, o, b, p.ptype, p.seqno, ref)
  {
    hide Key, SendTimed, SlotBySeq, OutgoingOf, OutgoingInv, Deadline;
  }

  lemma CountedFinds(ss: Sender, ref: TimerRef)
    requires HasTimer(ss, ref) && TimerOf(ss, ref).pkg.Some?
    requires ref.SynRef? ==> TimerOf(ss, ref).pkg.value.ptype == SYN
    requires ref.SlotRef? ==> TimerOf(ss, ref).pkg.value.ptype == DATA && Distinct(ss.window)
    ensures var p := TimerOf(ss, ref).pkg.value;
            HasTimer(Counted(ss, ref), ref) && FindsItself(Counted(ss, ref), ref, p.ptype, p.seqno)
  {
    hide SlotBySeq;
    var p := TimerOf(ss, ref).pkg.value;
    assert p.(ptype := p.ptype, seqno := p.seqno) == p;
    if ref.SlotRef? {
      var t := TimerOf(Counted(ss, ref), ref);
      assert Occupied(ss.window, ref.i);
      NewSlotFound(ss.window, ref.i, t, p.seqno);
      assert Counted(ss, ref).window[ref.i := t] == ss.window[ref.i := t];
    }
  }

  lemma CountedTimer(ss: Sender, ref: TimerRef, t: Timer)
    requires HasTimer(ss, ref)
    ensures HasTimer(Counted(ss, ref), ref) && WithTimer(Counted(ss, ref), ref, t) == WithTimer(ss, ref, t)
    ensures TimerOf(Counted(ss, ref), ref) == TimerOf(ss, ref).(tryCount := TimerOf(ss, ref).tryCount + 1)
  {
  }

  /** sendPackage, called for the head of the list with its retry counted. */
  lemma RetryIs(clk: Clock, n: Node, b: Addr, ref: TimerRef)
    requires TimersOk(n) && HeadOk(n, b, ref) && TimerAt(n, ref).tryCount < MAXRETRANS
    ensures var ss := n.senders[ref.key];
            var m := Put(n, b, Retried(ss, ref, clk(n.ticks) + n.timeoutms),
                                    Sent(b, TimerOf(ss, ref).pkg.value), n.timers, n.ticks + 1);
            && TimersOk(m) && RefOk(m, ref)
            && ProcessTimeout(clk, n, ref) == (AddTimer(m, ref), 0)
  {
    hide Key, AddTimer, SendTimed, SlotBySeq, OutgoingOf, OutgoingInv, Deadline, ProcessTimeout, Counted, WithTimer,
        FindsItself;
    var ss, t := n.senders[ref.key], TimerAt(n, ref);
    var p := t.pkg.value;
    assert p.(ptype := p.ptype, seqno := p.seqno) == p;
    RetrySends(clk, n, b, ref);
    CountedFinds(ss, ref);
    CountedTimer(ss, ref, Timer(clk(n.ticks) + n.timeoutms, t.tryCount + 1, b, Some(p)));
    SendTimedIs(clk, n, b, Counted(ss, ref), p.ptype, p.seqno, ref);
  }

  lemma RetryNode(clk: Clock, n: Node)
    requires NodeInv(n) && TimersOk(n) && n.timers != [] && TimerAt(n, n.timers[0]).tryCount < MAXRETRANS
    ensures FireHead(clk, n).1 == 0 && Keeps(n, FireHead(clk, n).0)
  {
    hide NodeInv, OutgoingInv, OutgoingOf, Deadline, DeadlineOf, ScheduledBut, SendersOk, StepAt, Grows, SlotBySeq,
        Key, ProcessTimeout, AddTimer;
    var ref, timeout := n.timers[0], clk(n.ticks) + n.timeoutms;
    HeadIsOk(n, ref);
    var b := n.senders[ref.key].toaddr;
    var v := OutgoingOf(n, b);
    HeadDropped(n);
    HasDeadline(v, ref);
    ResendArms(v, b, ref, timeout);
    var m, o := RetryForm(clk, n);
    ArmKeeps(o, b, ref, OutResend(v, b, ref, timeout), Sent(b, PkgOf(v, ref)), n.ticks + 1);
    SameViewsKeep(n, o, AddTimer(m, ref));
  }

  /** A retry counts one more try, sends the same packet and moves the event to its new place. */
  lemma RetryForm(clk: Clock, n: Node) returns (m: Node, o: Node)
    requires NodeInv(n) && TimersOk(n) && n.timers != [] && TimerAt(n, n.timers[0]).tryCount < MAXRETRANS
    ensures var ref := n.timers[0];
            && o == n.(timers := n.timers[1..]) && ref.key in n.senders && HeadOk(n, n.senders[ref.key].toaddr, ref)
            && m == Put(o, n.senders[ref.key].toaddr, Retried(n.senders[ref.key], ref, clk(n.ticks) + n.timeoutms),
                        Sent(n.senders[ref.key].toaddr, TimerOf(n.senders[ref.key], ref).pkg.value),
                        o.timers, n.ticks + 1)
            && TimersOk(m) && RefOk(m, ref) && FireHead(clk, n) == (AddTimer(m, ref), 0)
  {
    hide NodeInv, OutgoingInv, OutgoingOf, Deadline, DeadlineOf, SlotBySeq, Key, ProcessTimeout, AddTimer, FireHead;
    var ref := n.timers[0];
    HeadIsOk(n, ref);
    var ss := n.senders[ref.key];
    o := n.(timers := n.timers[1..]);
    RetryIs(clk, n, ss.toaddr, ref);
    var e := Sent(ss.toaddr, TimerOf(ss, ref).pkg.value);
    var ss' := Retried(ss, ref, clk(n.ticks) + n.timeoutms);
    var m0 := Put(n, ss.toaddr, ss', e, n.timers, n.ticks + 1);
    m := Put(o, ss.toaddr, ss', e, o.timers, n.ticks + 1);
    ReinsertHead(m0, m, ref);
    FireHeadIs(clk, n, m0, m, ref);
  }

  lemma FireHeadIs(clk: Clock, n: Node, m: Node, o: Node, ref: TimerRef)
    requires TimersOk(n) && n.timers != [] && n.timers[0] == ref && TimersOk(m) && RefOk(m, ref) && TimersOk(o)
              && RefOk(o, ref)
    requires ProcessTimeout(clk, n, ref) == (AddTimer(m, ref), 0) && AddTimer(m, ref).timers != []
    requires o == m.(timers := o.timers) && AddTimer(m, ref).timers[1..] == AddTimer(o, ref).timers
    ensures FireHead(clk, n) == (AddTimer(o, ref), 0)
  {
    hide ProcessTimeout, AddTimer;
  }

  lemma SameViewsKeep(n: Node, o: Node, m: Node)
    requires (forall b: Addr :: OutgoingOf(o, b) == OutgoingOf(n, b)) && SendOnly(n, o) && Keeps(o, m)
    ensures Keeps(n, m)
  {
    hide NodeInv, OutgoingOf, Grows;
    forall b: Addr ensures Grows(OutgoingOf(n, b), OutgoingOf(m, b), None) {
      assert Grows(OutgoingOf(o, b), OutgoingOf(m, b), InputFrom(Nothing, b));
    }
  }

  /** A timeout never makes the loop return: every error exit of processTimeout, and of the
      sendPackage it calls, is dead. */
  lemma FireHeadKeeps(clk: Clock, n: Node)
    requires NodeInv(n) && TimersOk(n) && n.timers != []
    ensures FireHead(clk, n).1 == 0 && Keeps(n, FireHead(clk, n).0)
  {
    hide NodeInv, Keeps, FireHead;
    if TimerAt(n, n.timers[0]).tryCount < MAXRETRANS {
      RetryNode(clk, n);
    } else {
      GiveUpNode(clk, n);
    }
  }

  // ---------- acknowledgements ----------

  /** A sending-side step caused by the arrival of input. */
  ghost predicate Reacts(n: Node, m: Node, input: Input) {
    NodeInv(m) && NodeGrows(n, m, input) && SendOnly(n, m)
  }

  lemma SenderAt(n: Node, b: Addr)
    requires NodeInv(n) && Key(b) in n.senders
    ensures n.senders[Key(b)].toaddr == b && OutgoingOf(n, b).sender == Some(n.senders[Key(b)])
    ensures OutgoingInv(OutgoingOf(n, b), b) && SynOk(n.senders[Key(b)])
  {
    hide OutgoingInv, Scheduled;
    ToAddr(OutgoingOf(n, b), b);
  }

  lemma SynAckNode(n: Node, b: Addr, input: Input)
    requires NodeInv(n) && Key(b) in n.senders
    ensures var m := Put(n, b, OutSynAck(OutgoingOf(n, b), b).sender.value, Opened(b),
                            RemoveFirst(n.timers, SynRef(Key(b))), n.ticks);
            OutgoingOf(n, b).sender == Some(n.senders[Key(b)]) && Reacts(n, m, input)
  {
    hide NodeInv, OutgoingInv, OutgoingOf, Deadline, DeadlineOf, ScheduledBut, Scheduled, SendersOk, Grows, Key,
        RemoveFirst;
    var v, ref := OutgoingOf(n, b), SynRef(Key(b));
    SenderAt(n, b);
    InvParts(n);
    SynAckDisarms(v, b);
    ScheduleRemove(n.timers, DeadlinesOf(n), ref);
    GrowsAnyInput(v, OutSynAck(v, b), InputFrom(input, b));
    DisarmKeeps(n, b, ref, OutSynAck(v, b), Opened(b), RemoveFirst(n.timers, ref), input);
  }

  lemma GrowsAnyInput(v: Outgoing, w: Outgoing, input: Option<Pkg>)
    requires Grows(v, w, None)
    ensures Grows(v, w, input)
  {
    hide Taken;
    forall e | e in w.log ensures AckFrom(e, v.log, input) {
      assert AckFrom(e, v.log, None);
    }
  }

  /** The acknowledged slot is emptied and its event taken off the list. */
  lemma DataAckNode(n: Node, b: Addr, i: nat, p: Pkg)
    requires NodeInv(n) && Key(b) in n.senders && CanAck(OutgoingOf(n, b), i, p)
    ensures OutgoingOf(n, b).sender == Some(n.senders[Key(b)])
    ensures var m := Put(n, b, Freed(n.senders[Key(b)], i), AckEvent(b, p),
                            RemoveFirst(n.timers, SlotRef(Key(b), i)), n.ticks);
            Reacts(n, m, Packet(b, p, 0))
  {
    hide NodeInv, OutgoingInv, OutgoingOf, Deadline, DeadlineOf, ScheduledBut, Scheduled, SendersOk, Grows, Key,
        RemoveFirst;
    var v, ref := OutgoingOf(n, b), SlotRef(Key(b), i);
    SenderAt(n, b);
    InvParts(n);
    AckDisarms(v, b, i, p);
    ScheduleRemove(n.timers, DeadlinesOf(n), ref);
    DisarmKeeps(n, b, ref, OutAck(v, b, i, p), AckEvent(b, p), RemoveFirst(n.timers, ref), Packet(b, p, 0));
  }

  lemma ReactsSame(n: Node, input: Input)
    requires NodeInv(n)
    ensures Reacts(n, n, input)
  {
    hide NodeInv, Grows, OutgoingOf;
    forall b: Addr ensures Grows(OutgoingOf(n, b), OutgoingOf(n, b), InputFrom(input, b)) {
      GrowsSame(OutgoingOf(n, b), InputFrom(input, b));
    }
  }

  /** An acknowledgement, whatever it says and whoever sent it. */
  lemma OnAckKeeps(n: Node, from: Addr, p: Pkg)
    requires NodeInv(n)
    ensures Reacts(n, OnAck(n, from, p), Packet(from, p, 0))
  {
    hide NodeInv, Reacts, OutgoingOf, SlotBySeq, RemoveFirst;
    var key, input := Key(from), Packet(from, p, 0);
    ReactsSame(n, input);
    if key in n.senders {
      var ss := n.senders[key];
      SenderAt(n, from);
      if ss.status == SYN_SENT {
        SynAckNode(n, from, input);
      } else if SlotBySeq(ss.window, p.seqno, 0).Some? {
        var i := SlotBySeq(ss.window, p.seqno, 0).value;
        DataAckNode(n, from, i, p);
      }
    }
  }

  // ---------- the receiving side leaves senders alone ----------

  /** Nothing changed on the sending side. */
  ghost predicate ReceiveOnly(n: Node, m: Node) {
    && m.senders == n.senders && m.timers == n.timers && m.sendQueue == n.sendQueue
    && Tries(m.log) == Tries(n.log)
    && forall b: Addr :: SendView(m.log, b) == SendView(n.log, b)
  }

  lemma ReceiveOnlyKeeps(n: Node, m: Node, input: Input)
    requires NodeInv(n) && ReceiveOnly(n, m)
    ensures NodeInv(m) && NodeGrows(n, m, input)
  {
    hide OutgoingInv, Grows, Deadline, Scheduled, SendView, Pending;
    forall b: Addr ensures
        OutgoingOf(m, b) == OutgoingOf(n, b) && Grows(OutgoingOf(n, b), OutgoingOf(m, b), InputFrom(input, b)) {
      GrowsSame(OutgoingOf(n, b), InputFrom(input, b));
    }
    assert forall r: TimerRef :: DeadlineOf(m, r) == DeadlineOf(n, r);
    ScheduleFrame(n.timers, DeadlinesOf(n), DeadlinesOf(m));
  }

  /** An event of the receiving side. */
  predicate ReceiverEvent(e: Event) {
    e.NewReceiver? || e.Delivered? || e.Overrun? || (e.Sent? && e.pkg.ptype == ACK)
  }

  lemma LogReceives(n: Node, m: Node, e: Event)
    requires m == n.(log := n.log + [e], receivers := m.receivers) && ReceiverEvent(e)
    ensures ReceiveOnly(n, m)
  {
    TriesSnoc(n.log, e);
    forall b: Addr ensures SendView(m.log, b) == SendView(n.log, b) {
      SendViewSnoc(n.log, e, b);
    }
  }

  lemma OnSynReceives(n: Node, from: Addr, p: Pkg)
    ensures ReceiveOnly(n, OnSyn(n, from, p))
  {
    var keep := Key(from) in n.receivers && n.receivers[Key(from)].status == OPENING;
    var n1 := if keep then n else Log(n, NewReceiver(from));
    if !keep {
      LogReceives(n, n1, NewReceiver(from));
    }
    LogReceives(n1, OnSyn(n, from, p), Sent(from, AckOfSyn(p)));
  }

  lemma DataRecvReceives(n: Node, key: int, p: Pkg)
    requires key in n.receivers
    ensures ReceiveOnly(n, DataRecv(n, key, p))
  {
    hide Absorb;
    var rs := n.receivers[key];
    var a := Absorb(Assembly(rs.sessions, [], false), p);
    var n1 := n.(receivers := n.receivers[key := rs.(sessions := a.sessions)]);
    var n2 := if a.overrun then Log(n1, Overrun(rs.fromaddr)) else n1;
    if a.overrun {
      LogReceives(n1, n2, Overrun(rs.fromaddr));
    }
    if a.delivered != [] {
      LogReceives(n2, Log(n2, Delivered(rs.fromaddr, a.delivered[0])), Delivered(rs.fromaddr, a.delivered[0]));
    }
  }

  lemma OnDataReceives(n: Node, from: Addr, p: Pkg)
    ensures ReceiveOnly(n, OnData(n, from, p))
  {
    hide DataRecv;
    var key := Key(from);
    if key in n.receivers {
      var rs := n.receivers[key];
      var n1 := n.(receivers := n.receivers[key := rs.(status := OPEN, expectedSeq := (p.seqno + 1) % 0x1_0000_0000)]);
      var n2 := DataRecv(n1, key, p);
      DataRecvReceives(n1, key, p);
      LogReceives(n2, SendAck(n2, from, AckOfData(p)), Sent(from, AckOfData(p)));
      LogReceives(n, SendAck(n, from, AckOfData(p)), Sent(from, AckOfData(p)));
    }
  }

  lemma OnFinReceives(n: Node, from: Addr, p: Pkg)
    ensures ReceiveOnly(n, OnFin(n, from, p))
  {
    LogReceives(n, SendAck(n, from, p), Sent(from, p.(ptype := ACK)));
    LogReceives(n, SendAck(n, from, p.(data := [])), Sent(from, p.(data := [], ptype := ACK)));
  }

  // ---------- processReceive and loop ----------

  /** Only acknowledgements concern the sending side. */
  function AckInput(input: Input): Input {
    if input.Packet? && input.pkg.ptype == ACK then Packet(input.from, input.pkg, 0) else Nothing
  }

  lemma ProcessReceiveKeeps(n: Node, from: Addr, p: Pkg)
    requires NodeInv(n)
    ensures var m := ProcessReceive(n, from, p);
            && NodeInv(m) && NodeGrows(n, m, AckInput(Packet(from, p, 0)))
            && (p.ptype == ACK || p.ptype == UNSET ==> SendOnly(n, m))
  {
    hide NodeInv, NodeGrows, ReceiveOnly, SendOnly, OnSyn, OnData, OnFin, OnAck;
    OnSynReceives(n, from, p);
    OnDataReceives(n, from, p);
    OnFinReceives(n, from, p);
    ReactsSame(n, Nothing);
    if p.ptype == ACK {
      OnAckKeeps(n, from, p);
    } else if p.ptype != UNSET {
      ReceiveOnlyKeeps(n, ProcessReceive(n, from, p), Nothing);
    }
  }

  /** What an iteration reads from the socket: nothing if it serves a timer instead. */
  ghost function ReadBy(clk: Clock, n: Node, input: Input): Input
    requires TimersOk(n)
  {
    if Fires(clk, n) then Nothing else input
  }

  /** o comes from n by sending-side steps, and by processing what was read after such steps. */
  ghost predicate Split(n: Node, o: Node, read: Input) {
    match read
    case Nothing => SendOnly(n, o)
    case Packet(from, p, _) => exists m :: SendOnly(n, m) && o == ProcessReceive(m, from, p)
  }

  /** One iteration of loop() keeps the engine's invariant, whatever arrives and whatever the clock
      says. */
  lemma LoopStepKeeps(clk: Clock, n: Node, input: Input)
    requires NodeInv(n) && TimersOk(n)
    ensures var (o, ret) := LoopStep(clk, n, input);
            && NodeInv(o) && TimersOk(o)
            && NodeGrows(n, o, AckInput(ReadBy(clk, n, input)))
            && Split(n, o, ReadBy(clk, n, input))
  {
    hide NodeInv, NodeGrows, SendOnly, CheckSendQueue, FireHead, ProcessReceive;
    var n0 := n.(ticks := n.ticks + 1);
    KeepsSame(n, n0);
    var n1 := CheckSendQueue(clk, n0);
    CheckSendQueueKeeps(clk, n0);
    NodeGrowsTrans(n, n0, n1, Nothing, Nothing);
    SendOnlyTrans(n, n0, n1);
    var o := LoopStep(clk, n, input).0;
    if Due(n1, clk(n.ticks)) {
      FireHeadKeeps(clk, n1);
      NodeGrowsTrans(n, n1, o, Nothing, Nothing);
      SendOnlyTrans(n, n1, o);
    } else if input.Packet? {
      ProcessReceiveKeeps(n1, input.from, input.pkg);
      NodeGrowsTrans(n, n1, o, Nothing, AckInput(Packet(input.from, input.pkg, 0)));
    }
    InvParts(o);
  }

  /** An iteration returns -1 exactly if it reads a packet, answers it, and the sendto of the answer
      fails; in particular no timeout ever ends the loop. */
  lemma LoopStepReturns(clk: Clock, n: Node, input: Input)
    requires NodeInv(n) && TimersOk(n)
    ensures LoopStep(clk, n, input).1 ==
            if ReadBy(clk, n, input).Packet? && input.sent < 0 && Acknowledges(n, input.from, input.pkg) then -1 else 0
  {
    hide NodeInv, NodeGrows, CheckSendQueue, FireHead, ProcessReceive;
    var n0 := n.(ticks := n.ticks + 1);
    KeepsSame(n, n0);
    var n1 := CheckSendQueue(clk, n0);
    CheckSendQueueKeeps(clk, n0);
    if Due(n1, clk(n.ticks)) {
      FireHeadKeeps(clk, n1);
    }
  }

  /** An answer is the last thing in the log after the packet was processed. */
  predicate Answered(n: Node, o: Node, from: Addr) {
    |n.log| < |o.log| && o.log[|o.log| - 1].Sent? && o.log[|o.log| - 1].peer == from
    && o.log[|o.log| - 1].pkg.ptype == ACK
  }

  lemma SendAckAnswers(n: Node, o: Node, to: Addr, p: Pkg)
    requires |n.log| <= |o.log|
    ensures Answered(n, SendAck(o, to, p), to)
  {
  }

  lemma DataAnswered(n: Node, from: Addr, p: Pkg)
    requires p.ptype == DATA
    ensures Acknowledges(n, from, p) <==> Answered(n, OnData(n, from, p), from)
  {
    hide Key, Absorb, SendAck, Answered, AckOfData;
    SendAckAnswers(n, n, from, AckOfData(p));
    NoAnswer(n, from);
    var key := Key(from);
    if key in n.receivers {
      var rs := n.receivers[key].(status := OPEN, expectedSeq := (p.seqno + 1) % 0x1_0000_0000);
      var o := DataRecv(n.(receivers := n.receivers[key := rs]), key, p);
      SendAckAnswers(n, o, from, AckOfData(p));
    }
  }

  lemma NoAnswer(n: Node, from: Addr)
    ensures !Answered(n, n, from)
  {
  }

  lemma AckNotAnswered(n: Node, from: Addr, p: Pkg)
    ensures !Answered(n, OnAck(n, from, p), from)
  {
    hide Key, SlotBySeq, RemoveFirst;
  }

  /** Acknowledges tells exactly which packets are answered. */
  lemma AcknowledgesIff(n: Node, from: Addr, p: Pkg)
    ensures Acknowledges(n, from, p) <==> Answered(n, ProcessReceive(n, from, p), from)
  {
    hide Key, OnData, OnAck, SendAck, Answered;
    NoAnswer(n, from);
    AckNotAnswered(n, from, p);
    if p.ptype == SYN {
      SynAnswered(n, from, p);
    } else if p.ptype == DATA {
      DataAnswered(n, from, p);
    } else if p.ptype == FIN {
      FinAnswered(n, from, p);
    }
  }

  lemma SynAnswered(n: Node, from: Addr, p: Pkg)
    ensures Answered(n, OnSyn(n, from, p), from)
  {
    hide Key;
  }

  lemma FinAnswered(n: Node, from: Addr, p: Pkg)
    requires p.ptype == FIN
    ensures Acknowledges(n, from, p) <==> Answered(n, OnFin(n, from, p), from)
  {
    hide Key;
  }

  lemma SendOnlyTrans(n: Node, m: Node, o: Node)
    requires SendOnly(n, m) && SendOnly(m, o)
    ensures SendOnly(n, o)
  {
    hide RecvView;
    forall a: Addr ensures RecvView(o.log, a) == RecvView(n.log, a) {
      assert RecvView(m.log, a) == RecvView(n.log, a);
    }
  }
}
