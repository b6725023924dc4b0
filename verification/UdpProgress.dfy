/**
 Retransmission comes to an end: 7 for every queued packet and for every message and fragment that
 waits in sendQueue, plus the chances left to every event on the timer list, never grows while
 nothing is submitted, and pays for every transmission and every timeout.
 */
module UdpProgress {
  import opened Seqs
  import opened UdpTypes
  import opened UdpStream
  import opened UdpNode
  import opened UdpSender
  import opened UdpSteps
  import opened UdpTimers
  import opened UdpEngine
  import opened UdpLoop
  import opened UdpLink
  import opened UdpWorld

  // ---------- the potential ----------

  type Senders = map<int, Sender>

  /** The sum of a weight over the senders with these keys. */
  ghost function Sum(senders: Senders, weight: Sender -> nat, keys: set<int>): nat
    requires keys <= senders.Keys
    decreases keys
  {
    if exists k :: k in keys then
      var k := Least(keys);
      weight(senders[k]) + Sum(senders, weight, keys - {k})
    else 0
  }

  function QueueLength(ss: Sender): nat {
    |ss.dataQueue|
  }

  ghost function Queued(senders: Senders): nat {
    Sum(senders, QueueLength, senders.Keys)
  }

  /** The transmissions and the timeout that an event may still cause. */
  function Chances(senders: Senders, ref: TimerRef): int {
    if ref.key in senders && HasTimer(senders[ref.key], ref)
    then MAXRETRANS + 1 - TimerOf(senders[ref.key], ref).tryCount
    else 0
  }

  function TotalChances(senders: Senders, ts: seq<TimerRef>): int {
    if ts == [] then 0 else Chances(senders, ts[0]) + TotalChances(senders, ts[1..])
  }

  /** What a message in sendQueue may cost: a SYN, and its fragments. */
  function Waiting(q: seq<SendPack>): nat {
    if q == [] then 0 else 7 * (1 + NumFragments(|q[0].msg.bytes|)) + Waiting(q[1..])
  }

  ghost function Work(n: Node): int {
    7 * Queued(n.senders) + TotalChances(n.senders, n.timers) + Waiting(n.sendQueue)
  }

  /** What n has done and may still do. */
  ghost function Potential(n: Node): int {
    Work(n) + Tries(n.log)
  }

  // ---------- sums ----------

  lemma {:induction false} SumChange(s: Senders, weight: Sender -> nat, k: int, ss: Sender, keys: set<int>)
    requires k in s && keys <= s.Keys
    ensures Sum(s[k := ss], weight, keys) == Sum(s, weight, keys) + if k in keys then weight(ss) - weight(s[k]) else 0
    decreases keys
  {
    if exists j :: j in keys {
      SumChange(s, weight, k, ss, keys - {Least(keys)});
    }
  }

  /** The same for all senders. */
  lemma SumUpdate(s: Senders, weight: Sender -> nat, k: int, ss: Sender)
    requires k in s
    ensures Sum(s[k := ss], weight, s[k := ss].Keys) == Sum(s, weight, s.Keys) + weight(ss) - weight(s[k])
  {
    hide Sum;
    SumChange(s, weight, k, ss, s.Keys);
    assert s[k := ss].Keys == s.Keys;
  }

  lemma {:induction false} SumSplit(s: Senders, weight: Sender -> nat, k: int, keys: set<int>)
    requires k in keys && keys <= s.Keys
    ensures Sum(s, weight, keys) == weight(s[k]) + Sum(s, weight, keys - {k})
    decreases keys
  {
    var j := Least(keys);
    if j != k {
      SumSplit(s, weight, k, keys - {j});
      assert keys - {j} - {k} == keys - {k} - {j};
      assert IsLeast(keys - {k}, j);
      assert Least(keys - {k}) == j;
    }
  }

  lemma {:induction false} SumSame(s: Senders, t: Senders, weight: Sender -> nat, keys: set<int>)
    requires keys <= s.Keys && keys <= t.Keys && forall k | k in keys :: weight(t[k]) == weight(s[k])
    ensures Sum(t, weight, keys) == Sum(s, weight, keys)
    decreases keys
  {
    if exists k :: k in keys {
      SumSame(s, t, weight, keys - {Least(keys)});
    }
  }

  /** A new sender. */
  lemma SumNew(s: Senders, weight: Sender -> nat, k: int, ss: Sender)
    requires k !in s
    ensures Sum(s[k := ss], weight, s[k := ss].Keys) == Sum(s, weight, s.Keys) + weight(ss)
  {
    hide Sum;
    SumSplit(s[k := ss], weight, k, s[k := ss].Keys);
    assert s[k := ss].Keys - {k} == s.Keys;
    SumSame(s, s[k := ss], weight, s.Keys);
  }

  lemma {:induction false} SumZero(s: Senders, weight: Sender -> nat, keys: set<int>)
    requires keys <= s.Keys
    ensures Sum(s, weight, keys) == 0 <==> forall k | k in keys :: weight(s[k]) == 0
    decreases keys
  {
    if exists k :: k in keys {
      var k := Least(keys);
      SumZero(s, weight, keys - {k});
      assert forall j | j in keys :: j == k || j in keys - {k};
    }
  }

  lemma {:induction false} TotalSame(s: Senders, t: Senders, ts: seq<TimerRef>)
    requires forall r | r in ts :: Chances(t, r) == Chances(s, r)
    ensures TotalChances(t, ts) == TotalChances(s, ts)
  {
    if ts != [] {
      assert forall r | r in ts[1..] :: r in ts;
      TotalSame(s, t, ts[1..]);
    }
  }

  lemma {:induction false} TotalInsert(s: Senders, ts: seq<TimerRef>, p: nat, x: TimerRef)
    requires p <= |ts|
    ensures TotalChances(s, Insert(ts, p, x)) == TotalChances(s, ts) + Chances(s, x)
  {
    if p == 0 {
      assert Insert(ts, 0, x)[1..] == ts;
    } else {
      assert Insert(ts, p, x)[1..] == Insert(ts[1..], p - 1, x);
      TotalInsert(s, ts[1..], p - 1, x);
    }
  }

  lemma {:induction false} TotalRemove(s: Senders, ts: seq<TimerRef>, x: TimerRef)
    ensures TotalChances(s, RemoveFirst(ts, x)) == TotalChances(s, ts) - if x in ts then Chances(s, x) else 0
  {
    if ts != [] && ts[0] != x {
      TotalRemove(s, ts[1..], x);
      assert x in ts <==> x in ts[1..];
    }
  }

  /** A new record for key k that touches only event ref. */
  predicate TouchesOnly(was: Sender, ss: Sender, ref: TimerRef) {
    && |ss.window| == |was.window|
    && (ref.SlotRef? ==> ss.syn.tryCount == was.syn.tryCount)
    && (forall i | 0 <= i < |ss.window| && ref != SlotRef(ref.key, i) ::
          ss.window[i].tryCount == was.window[i].tryCount)
  }

  lemma ChancesElsewhere(s: Senders, ref: TimerRef, ss: Sender, r: TimerRef)
    requires ref.key in s && TouchesOnly(s[ref.key], ss, ref) && r != ref
    ensures Chances(s[ref.key := ss], r) == Chances(s, r)
  {
  }

  /** Work after the record of ref's sender changed at ref only and ref was put on the list. */
  lemma WorkArmed(n: Node, b: Addr, ref: TimerRef, ss: Sender, e: Event, ticks: nat)
    requires ref.key == Key(b) && ref.key in n.senders && TouchesOnly(n.senders[ref.key], ss, ref) && ref !in n.timers
    requires TimersOk(Put(n, b, ss, e, n.timers, ticks)) && RefOk(Put(n, b, ss, e, n.timers, ticks), ref)
    ensures var m := AddTimer(Put(n, b, ss, e, n.timers, ticks), ref);
            Work(m) == Work(n) + 7 * (|ss.dataQueue| - |n.senders[ref.key].dataQueue|) + MAXRETRANS + 1 - TimerOf(ss,
                ref).tryCount
  {
    hide Sum, TotalChances, Waiting, Insert, Key, TouchesOnly;
    var s' := n.senders[ref.key := ss];
    var p := Put(n, b, ss, e, n.timers, ticks);
    SumUpdate(n.senders, QueueLength, ref.key, ss);
    assert s'.Keys == n.senders.Keys;
    forall r | r in n.timers ensures Chances(s', r) == Chances(n.senders, r) {
      ChancesElsewhere(n.senders, ref, ss, r);
    }
    TotalSame(n.senders, s', n.timers);
    TotalInsert(s', n.timers, InsertAt(p, TimerAt(p, ref).timeout, 0), ref);
  }

  // ---------- the steps ----------

  /** m spends no more than n had, and undoes nothing. */
  ghost predicate Pays(n: Node, m: Node) {
    Potential(m) <= Potential(n) && Tries(n.log) <= Tries(m.log)
  }

  lemma TransmitWork(clk: Clock, n: Node, k: int, i: nat)
    requires NodeInv(n) && TimersOk(n) && k in n.senders && CanTransmit(OutgoingOf(n, n.senders[k].toaddr), i)
    requires OutgoingOf(n, n.senders[k].toaddr).sender == Some(n.senders[k])
    ensures Pays(n, Transmit(clk, n, k, i)) && Tries(Transmit(clk, n, k, i).log) == Tries(n.log) + 1
  {
    hide NodeInv, OutgoingOf, OutgoingInv, Sum, TotalChances, Transmit, AddTimer, Key, Tries, DeadlineOf, Work;
    var ss, ref, b := n.senders[k], SlotRef(k, i), n.senders[k].toaddr;
    var timeout, e := clk(n.ticks) + n.timeoutms, Sent(b, NextPkg(n.senders[k]));
    SenderOfKey(n, k);
    ToAddr(OutgoingOf(n, b), b);
    NumbersBelow(OutgoingOf(n, b), b);
    EmptyNotListed(n, ref);
    TransmitIs(clk, n, k, i);
    TriesSnoc(n.log, e);
    WorkArmed(n, b, ref, Placed(ss, i, timeout), e, n.ticks + 1);
  }

  /** An event without a packet is not on the list. */
  lemma EmptyNotListed(n: Node, ref: TimerRef)
    requires NodeInv(n) && RefOk(n, ref) && TimerAt(n, ref).pkg.None?
    ensures ref !in n.timers
  {
    hide NodeInv, DeadlineOf;
    InvParts(n);
    if ref in n.timers {
      DeadlineIsTimeout(n, ref);
    }
  }

  lemma {:induction false} FillWork(clk: Clock, n: Node, k: int)
    requires NodeInv(n) && TimersOk(n) && k in n.senders
    ensures Pays(n, Fill(clk, n, k))
    decreases Backlog(n, k)
  {
    hide NodeInv, Keeps, Transmit, OutgoingOf, CanTransmit, NextSlot, Potential, Tries;
    var slot := NextSlot(n, k);
    if slot.Some? {
      NextSlotMeaning(n, k);
      SenderOfKey(n, k);
      var m := Transmit(clk, n, k, slot.value);
      TransmitNode(clk, n, k, slot.value);
      TransmitWork(clk, n, k, slot.value);
      KeepsInv(n, m);
      FillWork(clk, m, k);
    }
  }

  lemma {:induction false} FillAllWork(clk: Clock, n: Node, keys: set<int>)
    requires NodeInv(n) && TimersOk(n) && keys <= n.senders.Keys
    ensures Pays(n, FillAll(clk, n, keys))
    decreases keys
  {
    hide NodeInv, Keeps, Fill, Potential, Tries;
    if exists k :: k in keys {
      var k := Least(keys);
      var m := Fill(clk, n, k);
      FillKeeps(clk, n, k);
      FillWork(clk, n, k);
      KeepsInv(n, m);
      FillAllWork(clk, m, keys - {k});
    }
  }

  /** The new sender's SYN has 6 chances left after its first transmission. */
  lemma CreatedWork(clk: Clock, n: Node, b: Addr)
    requires NodeInv(n) && TimersOk(n) && Key(b) !in n.senders
    ensures var m := GetSender(clk, n, b);
            && Work(m) == Work(n) + 6 && Tries(m.log) == Tries(n.log) + 1 && m.senders[Key(b)].dataQueue == []
  {
    hide NodeInv, Sum, TotalChances, Waiting, GetSender, AddTimer, Key, Tries, OutgoingOf;
    var w, ref, e := OutCreate(OutgoingOf(n, b), b, clk(n.ticks) + n.timeoutms), SynRef(Key(b)), Sent(b, SYN_PKG);
    var ss := w.sender.value;
    var o := n.(senders := n.senders[Key(b) := ss]);
    GetSenderIs(clk, n, b);
    TriesSnoc(n.log, e);
    SumNew(n.senders, QueueLength, Key(b), ss);
    TotalSame(n.senders, o.senders, n.timers);
    assert o.senders[Key(b) := ss] == o.senders;
    assert Put(o, b, ss, e, o.timers, n.ticks + 1) == Put(n, b, ss, e, n.timers, n.ticks + 1);
    WorkArmed(o, b, ref, ss, e, n.ticks + 1);
  }

  /** A message that leaves sendQueue is worth 7 more than its fragments. */
  lemma DequeuedWork(n: Node)
    requires n.sendQueue != [] && Key(n.sendQueue[0].toaddr) in n.senders
    requires n.senders[Key(n.sendQueue[0].toaddr)].dataQueue == []
    ensures Work(Dequeued(n)) == Work(n) - 7 && Dequeued(n).log == n.log
  {
    hide Sum, TotalChances, Fragments, Key;
    var k, m := Key(n.sendQueue[0].toaddr), Dequeued(n);
    SumUpdate(n.senders, QueueLength, k, m.senders[k]);
    assert m.senders.Keys == n.senders.Keys;
    forall r | r in n.timers ensures Chances(m.senders, r) == Chances(n.senders, r) {
      ChancesSame(n.senders, k, m.senders[k], r);
    }
    TotalSame(n.senders, m.senders, n.timers);
  }

  lemma TakeMessageWork(clk: Clock, n: Node)
    requires NodeInv(n) && TimersOk(n)
    ensures Pays(n, TakeMessage(clk, n))
  {
    hide NodeInv, Work, Tries, GetSender, Dequeued, Keeps, Key;
    if n.sendQueue != [] {
      var b := n.sendQueue[0].toaddr;
      var n1 := GetSender(clk, n, b);
      if Key(b) in n.senders {
        SenderThere(clk, n, b);
      } else {
        CreatedWork(clk, n, b);
      }
      if n1.senders[Key(b)].dataQueue == [] {
        DequeuedWork(n1);
      }
    }
  }

  /** Whatever checkSendQueue sends is paid for. */
  lemma CheckSendQueueWork(clk: Clock, n: Node)
    requires NodeInv(n) && TimersOk(n)
    ensures Pays(n, CheckSendQueue(clk, n))
  {
    hide NodeInv, FillAll, TakeMessage, Potential, Tries, Keeps;
    var n1 := TakeMessage(clk, n);
    TakeMessageKeeps(clk, n);
    KeepsInv(n, n1);
    TakeMessageWork(clk, n);
    FillAllWork(clk, n1, n1.senders.Keys);
  }

  // ---------- timeouts ----------

  lemma HeadListed(n: Node)
    requires n.timers != []
    ensures TotalChances(n.senders, n.timers) == TotalChances(n.senders, n.timers[1..]) + Chances(n.senders,
              n.timers[0])
  {
  }

  lemma HeadOnce(n: Node)
    requires NodeInv(n) && n.timers != []
    ensures n.timers[0] !in n.timers[1..]
  {
    hide OutgoingInv, DeadlineOf, Sorted;
  }

  lemma RetryWork(clk: Clock, n: Node)
    requires NodeInv(n) && TimersOk(n) && n.timers != [] && TimerAt(n, n.timers[0]).tryCount < MAXRETRANS
    ensures Pays(n, FireHead(clk, n).0) && Tries(FireHead(clk, n).0.log) == Tries(n.log) + 1
  {
    hide NodeInv, Sum, TotalChances, Waiting, FireHead, AddTimer, Key, Tries, Deadline, OutgoingInv, OutgoingOf,
        SlotBySeq;
    var ref := n.timers[0];
    HeadOnce(n);
    HeadListed(n);
    var m, o := RetryForm(clk, n);
    var ss := n.senders[ref.key];
    var e := Sent(ss.toaddr, TimerOf(ss, ref).pkg.value);
    TriesSnoc(n.log, e);
    WorkArmed(o, ss.toaddr, ref, Retried(ss, ref, clk(n.ticks) + n.timeoutms), e, n.ticks + 1);
  }

  lemma GiveUpWork(clk: Clock, n: Node)
    requires NodeInv(n) && TimersOk(n) && n.timers != [] && TimerAt(n, n.timers[0]).tryCount >= MAXRETRANS
    ensures Pays(n, FireHead(clk, n).0) && Tries(FireHead(clk, n).0.log) == Tries(n.log) + 1
  {
    hide NodeInv, Sum, TotalChances, Waiting, FireHead, Key, Tries, Deadline, OutgoingInv, OutgoingOf, SlotBySeq;
    HeadListed(n);
    var e := GiveUpForm(clk, n);
    TriesSnoc(n.log, e);
  }

  /** A timeout is one try, and is paid for. */
  lemma FireHeadWork(clk: Clock, n: Node)
    requires NodeInv(n) && TimersOk(n) && n.timers != []
    ensures Pays(n, FireHead(clk, n).0) && Tries(FireHead(clk, n).0.log) == Tries(n.log) + 1
  {
    hide NodeInv, FireHead, Pays, Tries;
    if TimerAt(n, n.timers[0]).tryCount < MAXRETRANS {
      RetryWork(clk, n);
    } else {
      GiveUpWork(clk, n);
    }
  }

  // ---------- arrivals ----------

  /** Taking ref off the list and emptying its event gives back its chances. */
  lemma WorkDisarmed(n: Node, b: Addr, ref: TimerRef, ss: Sender, e: Event)
    requires ref.key == Key(b) && ref.key in n.senders && HasTimer(ss, ref)
    requires |ss.window| == |n.senders[ref.key].window| && ss.syn.tryCount == n.senders[ref.key].syn.tryCount
    requires forall i | 0 <= i < |ss.window| :: ss.window[i].tryCount == n.senders[ref.key].window[i].tryCount
    requires ss.dataQueue == n.senders[ref.key].dataQueue && !IsTry(e)
    ensures var m := Put(n, b, ss, e, RemoveFirst(n.timers, ref), n.ticks);
            && Work(m) == Work(n) - (if ref in n.timers then Chances(n.senders, ref) else 0)
            && Tries(m.log) == Tries(n.log)
  {
    hide Sum, TotalChances, Waiting, RemoveFirst, Key, Tries;
    var s' := n.senders[ref.key := ss];
    TriesSnoc(n.log, e);
    SumUpdate(n.senders, QueueLength, ref.key, ss);
    assert s'.Keys == n.senders.Keys;
    forall r | r in RemoveFirst(n.timers, ref) ensures Chances(s', r) == Chances(n.senders, r) {
      ChancesSame(n.senders, ref.key, ss, r);
    }
    TotalSame(n.senders, s', RemoveFirst(n.timers, ref));
    TotalRemove(n.senders, n.timers, ref);
  }

  lemma ChancesSame(s: Senders, k: int, ss: Sender, r: TimerRef)
    requires k in s && |ss.window| == |s[k].window| && ss.syn.tryCount == s[k].syn.tryCount
    requires forall i | 0 <= i < |ss.window| :: ss.window[i].tryCount == s[k].window[i].tryCount
    ensures Chances(s[k := ss], r) == Chances(s, r)
  {
  }

  /** Every listed event has a chance left. */
  lemma ChanceLeft(n: Node, ref: TimerRef)
    requires NodeInv(n) && ref in n.timers
    ensures Chances(n.senders, ref) >= 1
  {
    hide NodeInv, OutgoingInv, OutgoingOf, Deadline;
    HeadIsOk(n, ref);
    HeldPkg(OutgoingOf(n, n.senders[ref.key].toaddr), n.senders[ref.key].toaddr, ref);
  }

  /** The event that an acknowledgement of number q from peer b settles. */
  function Settled(n: Node, b: Addr, q: nat): Option<TimerRef>
    requires Key(b) in n.senders
  {
    var ss := n.senders[Key(b)];
    if ss.status == SYN_SENT then
      if ss.syn.pkg.Some? && ss.syn.pkg.value.seqno == q then Some(SynRef(Key(b))) else None
    else
      match SlotBySeq(ss.window, q, 0)
      case None => None
      case Some(i) => Some(SlotRef(Key(b), i))
  }

  /** An acknowledgement costs nothing, and gives back the chances of the event it settles if that
      was still listed. */
  lemma OnAckWork(n: Node, from: Addr, p: Pkg)
    requires NodeInv(n)
    ensures Pays(n, OnAck(n, from, p))
    ensures Key(from) in n.senders && Settled(n, from, p.seqno).Some? && Settled(n, from, p.seqno).value in n.timers ==>
              Work(OnAck(n, from, p)) < Work(n)
  {
    hide NodeInv, OutgoingOf, OutgoingInv, SlotBySeq, Work, Chances, RemoveFirst, Tries;
    if Key(from) in n.senders {
      SenderAt(n, from);
      var ss := n.senders[Key(from)];
      var r := Settled(n, from, p.seqno);
      if r.Some? {
        var ref := r.value;
        if ref in n.timers {
          ChanceLeft(n, ref);
        }
        if ref.SynRef? {
          WorkDisarmed(n, from, ref, ss.(status := OPEN, syn := ss.syn.(pkg := None)), Opened(from));
        } else {
          WorkDisarmed(n, from, ref, Freed(ss, ref.i), AckEvent(from, p));
        }
      }
    }
  }

  /** The acknowledgement of an outstanding number empties its slot and no other, and takes its event
      off the list. */
  lemma AckFreesSlot(n: Node, b: Addr, p: Pkg, i: nat)
    requires NodeInv(n) && Key(b) in n.senders && n.senders[Key(b)].status == OPEN
    requires Occupied(n.senders[Key(b)].window, i) && SeqAt(n.senders[Key(b)].window, i) == p.seqno
    ensures var m := OnAck(n, b, p);
            && Key(b) in m.senders && SlotRef(Key(b), i) !in m.timers
            && m.senders[Key(b)] == Freed(n.senders[Key(b)], i)
            && forall r | r in n.timers && r != SlotRef(Key(b), i) :: r in m.timers
  {
    hide NodeInv, OutgoingOf, OutgoingInv, SlotBySeq, NodeGrows, SendOnly;
    SenderAt(n, b);
    ToAddr(OutgoingOf(n, b), b);
    SlotFound(n.senders[Key(b)].window, i);
    DataAckNode(n, b, i, p);
    InvParts(n);
    RemoveElements(n.timers, SlotRef(Key(b), i));
  }

  lemma ReceiveOnlyPays(n: Node, m: Node)
    requires ReceiveOnly(n, m)
    ensures Pays(n, m)
  {
    hide Tries, Sum, TotalChances, Waiting;
  }

  lemma ProcessReceiveWork(n: Node, from: Addr, p: Pkg)
    requires NodeInv(n)
    ensures Pays(n, ProcessReceive(n, from, p))
  {
    hide NodeInv, ReceiveOnly, OnSyn, OnData, OnFin, OnAck, Pays;
    OnSynReceives(n, from, p);
    OnDataReceives(n, from, p);
    OnFinReceives(n, from, p);
    OnAckWork(n, from, p);
    NothingPays(n);
    if p.ptype in {SYN, DATA, FIN} {
      ReceiveOnlyPays(n, ProcessReceive(n, from, p));
    }
  }

  lemma NothingPays(n: Node)
    ensures Pays(n, n)
  {
  }

  // ---------- whole iterations and runs ----------

  lemma LoopStepWork(clk: Clock, n: Node, input: Input)
    requires NodeInv(n) && TimersOk(n)
    ensures Pays(n, LoopStep(clk, n, input).0)
    ensures Fires(clk, n) ==> Tries(n.log) + 1 <= Tries(LoopStep(clk, n, input).0.log)
  {
    hide NodeInv, CheckSendQueue, FireHead, ProcessReceive, Work, Tries, Keeps;
    var n0 := n.(ticks := n.ticks + 1);
    KeepsSame(n, n0);
    KeepsInv(n, n0);
    SameWork(n, n0);
    var n1 := CheckSendQueue(clk, n0);
    CheckSendQueueKeeps(clk, n0);
    CheckSendQueueWork(clk, n0);
    KeepsInv(n0, n1);
    if Due(n1, clk(n.ticks)) {
      FireHeadWork(clk, n1);
    } else if input.Packet? {
      ProcessReceiveWork(n1, input.from, input.pkg);
    }
  }

  lemma SameWork(n: Node, m: Node)
    requires m == n.(ticks := m.ticks)
    ensures Work(m) == Work(n)
  {
  }

  /** Step act on world w is an iteration of a's loop() that serves a timer. */
  ghost predicate Serves(cfg: Config, w: World, act: Action, a: Addr) {
    act.at == a && act.Loop? && TimersOk(w(a)) && Fires(cfg.clk(a), w(a))
  }

  /** How many of the steps i .. j-1 are such iterations. */
  ghost function Served(cfg: Config, ws: seq<World>, acts: seq<Action>, a: Addr, i: nat, j: nat): nat
    requires i <= j <= |acts| < |ws|
  {
    if i == j then 0
    else Served(cfg, ws, acts, a, i, j - 1) + if Serves(cfg, ws[j - 1], acts[j - 1], a) then 1 else 0
  }

  lemma StepPays(cfg: Config, w: World, act: Action, w': World, a: Addr)
    requires WorldInv(w) && Step(cfg, w, act, w') && (act.at == a ==> act.Loop?)
    ensures Pays(w(a), w'(a))
    ensures Serves(cfg, w, act, a) ==> Tries(w(a).log) + 1 <= Tries(w'(a).log)
  {
    hide NodeInv, LinkInv, LoopStep, Work, Tries, Fires;
    if act.at == a {
      LoopStepWork(cfg.clk(a), w(a), act.input);
    }
  }

  ghost predicate NoSends(acts: seq<Action>, a: Addr, i: nat, j: nat)
    requires i <= j <= |acts|
  {
    forall k | i <= k < j :: acts[k].at == a ==> acts[k].Loop?
  }

  lemma {:induction false} RunPays(cfg: Config, ws: seq<World>, acts: seq<Action>, a: Addr, i: nat, j: nat)
    requires Run(cfg, ws, acts) && i <= j <= |acts| && NoSends(acts, a, i, j)
    ensures Pays(ws[i](a), ws[j](a))
    ensures Tries(ws[i](a).log) + Served(cfg, ws, acts, a, i, j) <= Tries(ws[j](a).log)
  {
    hide WorldInv, Step, Work, Tries, Serves;
    if i < j {
      RunPays(cfg, ws, acts, a, i, j - 1);
      RunInv(cfg, ws, acts, j - 1);
      StepPays(cfg, ws[j - 1], acts[j - 1], ws[j], a);
    }
  }

  lemma {:induction false} TotalZero(n: Node, ts: seq<TimerRef>)
    requires NodeInv(n) && forall r | r in ts :: r in n.timers
    ensures |ts| <= TotalChances(n.senders, ts)
  {
    hide NodeInv, Chances;
    if ts != [] {
      ChanceLeft(n, ts[0]);
      assert forall r | r in ts[1..] :: r in ts;
      TotalZero(n, ts[1..]);
    }
  }

  /** No work is left exactly when nothing is submitted or queued and the timer list is empty. */
  lemma WorkDone(n: Node)
    requires NodeInv(n)
    ensures Work(n) >= |n.timers|
    ensures Work(n) == 0 <==>
            n.timers == [] && n.sendQueue == [] && forall k | k in n.senders :: n.senders[k].dataQueue == []
  {
    hide NodeInv;
    SumZero(n.senders, QueueLength, n.senders.Keys);
    TotalZero(n, n.timers);
  }

  /** From any moment, and as long as nothing more is submitted, at most Work iterations serve a
      timer: the timer list drains. */
  lemma TimersDrain(cfg: Config, ws: seq<World>, acts: seq<Action>, a: Addr, i: nat, j: nat)
    requires Run(cfg, ws, acts) && i <= j <= |acts| && NoSends(acts, a, i, j)
    ensures Served(cfg, ws, acts, a, i, j) + Work(ws[j](a)) <= Work(ws[i](a))
    ensures 0 <= |ws[j](a).timers| <= Work(ws[j](a))
  {
    hide Step, WorldInv, NodeInv, Work, Tries, Served;
    RunPays(cfg, ws, acts, a, i, j);
    RunInv(cfg, ws, acts, j);
    LinkAt(ws[j], a, a);
    WorkDone(ws[j](a));
  }
}
