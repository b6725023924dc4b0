/**
 Class UDP (udp.h:195-646): its methods update the engine in place, and each is proved to take
 the engine's state to the state that UdpNode specifies.
 */
module Udp {
  import opened Seqs
  import opened UdpTypes
  import opened UdpStream
  import N = UdpNode
  import UdpEngine
  import UdpLoop

  /** Setting an event and reading the clock commute. */
  lemma SetTimerLater(n: Node, ref: TimerRef, t: Timer, ticks: nat)
    requires N.RefOk(n, ref)
    ensures N.SetTimer(n.(ticks := ticks), ref, t) == N.SetTimer(n, ref, t).(ticks := ticks)
  {
  }

  /** The first occurrence is at position p, or nowhere if that is the end. */
  lemma {:induction false} RemoveLater(s: seq<TimerRef>, p: nat, x: TimerRef)
    requires p <= |s| && x !in s[..p] && (p < |s| ==> s[p] == x)
    ensures N.RemoveFirst(s, x) == if p < |s| then s[..p] + s[p + 1..] else s
  {
    if p > 0 {
      assert s[..p][0] == s[0] && forall i | 0 <= i < p - 1 :: s[1..][i] == s[..p][i + 1];
      RemoveLater(s[1..], p - 1, x);
      assert [s[0]] + s[1..] == s;
    }
  }

  /** Setting an event makes it what was set. */
  lemma SetTimerSets(n: Node, ref: TimerRef, t: Timer)
    requires N.RefOk(n, ref)
    ensures N.RefOk(N.SetTimer(n, ref, t), ref) && N.TimerAt(N.SetTimer(n, ref, t), ref) == t
  {
  }

  class Engine {
    const clock: Clock
    const timeoutms: int
    var senders: map<int, Sender>
    var receivers: map<int, Receiver>
    var timers: seq<TimerRef>
    var sendQueue: seq<SendPack>
    var ticks: nat
    ghost var log: seq<Event>

    constructor (clock: Clock, timeoutms: int)
      ensures Valid() && this.clock == clock && Model() == NewNode(timeoutms)
      ensures UdpEngine.NodeInv(Model())
    {
      UdpLoop.NewNodeInv(timeoutms);
      this.clock, this.timeoutms := clock, timeoutms;
      senders, receivers, timers, sendQueue := map[], map[], [], [];
      ticks, log := 0, [];
    }

    ghost function Model(): Node
      reads this
    {
      Node(timeoutms, senders, receivers, timers, sendQueue, ticks, log)
    }

    /** Every pointer on the timer list points into a sender. */
    ghost predicate Valid()
      reads this
    {
      N.TimersOk(Model())
    }

    /** getMillisecond. */
    method Now() returns (now: int)
      modifies this`ticks
      ensures now == clock(old(ticks)) && ticks == old(ticks) + 1
    {
      now := clock(ticks);
      ticks := ticks + 1;
    }

    // ---------- the timer list ----------

    /** addTimeoutEvent. */
    method AddTimeoutEvent(ref: TimerRef)
      requires Valid() && N.RefOk(Model(), ref)
      modifies this`timers
      ensures Model() == N.AddTimer(old(Model()), ref) && Valid()
    {
      var timeout := N.TimerOf(senders[ref.key], ref).timeout;
      var p := 0;
      while p < |timers|
        invariant p <= |timers| && N.InsertAt(Model(), timeout, p) == N.InsertAt(Model(), timeout, 0)
      {
        assert N.RefOk(Model(), timers[p]);
        if timeout < N.TimerOf(senders[timers[p].key], timers[p]).timeout {
          break;
        }
        p := p + 1;
      }
      timers := N.Insert(timers, p, ref);
    }

    /** deleteTimeoutEvent. */
    method DeleteTimeoutEvent(ref: TimerRef) returns (ret: int)
      modifies this`timers
      ensures Model() == N.DeleteTimer(old(Model()), ref)
      ensures ret == if ref in old(timers) then 0 else -1
    {
      var p := 0;
      while p < |timers|
        invariant p <= |timers| && ref !in timers[..p]
      {
        if timers[p] == ref {
          RemoveLater(timers, p, ref);
          timers := timers[..p] + timers[p + 1..];
          return 0;
        }
        p := p + 1;
      }
      RemoveLater(timers, p, ref);
      ret := -1;
    }

    // ---------- the window ----------

    /** getWindowBySeq. */
    static method GetWindowBySeq(window: seq<Timer>, q: nat) returns (r: Option<nat>)
      ensures r == N.SlotBySeq(window, q, 0)
    {
      var i := 0;
      while i < |window|
        invariant i <= |window| && N.SlotBySeq(window, q, i) == N.SlotBySeq(window, q, 0)
      {
        if window[i].pkg.Some? && window[i].pkg.value.seqno == q {
          return Some(i);
        }
        i := i + 1;
      }
      r := None;
    }

    /** checkEmptyWindow. */
    static method CheckEmptyWindow(window: seq<Timer>, next: int) returns (r: Option<nat>)
      ensures r == N.EmptySlot(window, next)
    {
      var minSeq, empty := INT_MAX, None;
      var i := 0;
      while i < |window|
        invariant i <= |window| && minSeq == N.MinSeq(window, i) && empty == N.LastEmpty(window, i)
      {
        if window[i].pkg.None? {
          empty := Some(i);
        } else if window[i].pkg.value.seqno < minSeq {
          minSeq := window[i].pkg.value.seqno;
        }
        i := i + 1;
      }
      if empty.None? {
        return None;
      }
      if minSeq != INT_MAX && N.ToInt32((minSeq + WINDOW - 1) % 0x1_0000_0000) < next {
        return None;
      }
      r := empty;
    }

    // ---------- sending ----------

    /** sendPackage for a packet on the stack: an acknowledgement.  sent is what sendto returns. */
    method SendAck(to: Addr, p: Pkg, sent: int) returns (ret: int)
      modifies this`log
      ensures Model() == N.SendAck(old(Model()), to, p) && ret == sent
    {
      log := log + [Sent(to, p.(ptype := ACK))];
      ret := sent;
    }

    /** sendPackage for the packet of a timeout event. */
    method SendPackage(to: Addr, ptype: PkgType, q: nat, ref: TimerRef) returns (ret: int)
      requires Valid() && N.RefOk(Model(), ref) && N.TimerAt(Model(), ref).pkg.Some? && ptype != ACK
      modifies this
      ensures Valid() && (Model(), ret) == N.SendTimed(clock, old(Model()), to, ptype, q, ref)
    {
      hide N.Arm, N.AddTimer;
      var t := N.TimerOf(senders[ref.key], ref);
      var p := t.pkg.value.(ptype := ptype, seqno := q);
      SetEvent(ref, t.(pkg := Some(p)));
      log := log + [Sent(to, p)];
      var key := Key(to);
      if key !in senders {
        return -1;
      }
      var event := SynRef(key);
      if ptype == DATA {
        var i := GetWindowBySeq(senders[key].window, q);
        if i.None? {
          return -2;
        }
        event := SlotRef(key, i.value);
      } else if ptype != SYN {
        return -3;
      }
      Arm(event, to);
      ret := 0;
    }

    /** The last lines of sendPackage. */
    method Arm(ref: TimerRef, to: Addr)
      requires Valid() && N.RefOk(Model(), ref)
      modifies this
      ensures Model() == N.Arm(clock, old(Model()), ref, to) && Valid()
    {
      hide N.AddTimer, N.SetTimer, N.WithTimer;
      var now := Now();
      ghost var n, t := old(Model()), N.TimerAt(old(Model()), ref).(toaddr := to, timeout := now + timeoutms);
      SetEvent(ref, N.TimerOf(senders[ref.key], ref).(toaddr := to, timeout := now + timeoutms));
      SetTimerLater(n, ref, t, ticks);
      AddTimeoutEvent(ref);
    }

    /** Overwrite the event that ref points to. */
    method SetEvent(ref: TimerRef, t: Timer)
      requires N.RefOk(Model(), ref)
      modifies this`senders
      ensures Model() == N.SetTimer(old(Model()), ref, t)
    {
      senders := senders[ref.key := N.WithTimer(senders[ref.key], ref, t)];
    }

    /** getSender. */
    method GetSender(addr: Addr)
      requires Valid()
      modifies this
      ensures Model() == N.GetSender(clock, old(Model()), addr) && Valid()
    {
      var key := Key(addr);
      if key in senders {
        return;
      }
      senders := senders[key := N.NewSender(addr)];
      var _ := SendPackage(addr, SYN, FIRST_SEQ, SynRef(key));
    }

    /** send(): queue a message under the session id micros, the clock's reading, and return the id.
        It waits while sendQueue is full; a call that would have to wait is reported as not queued. */
    method Send(to: Addr, bytes: seq<byte>, micros: int) returns (queued: bool, sid: int)
      requires Valid()
      modifies this
      ensures Valid() && sid == micros && queued == (|old(sendQueue)| < 10)
      ensures Model() == if queued then N.Submit(old(Model()), to, Msg(sid, bytes)) else old(Model())
    {
      queued, sid := |sendQueue| < 10, micros;
      if queued {
        log := log + [Submitted(to, Msg(sid, bytes))];
        sendQueue := sendQueue + [SendPack(to, Msg(sid, bytes))];
      }
    }

    // ---------- checkSendQueue ----------

    /** The first half of checkSendQueue: split the head message into fragments. */
    method TakeMessage()
      requires Valid()
      modifies this
      ensures Model() == N.TakeMessage(clock, old(Model())) && Valid()
    {
      hide N.GetSender;
      if sendQueue == [] {
        return;
      }
      var pack := sendQueue[0];
      var key, m := Key(pack.toaddr), pack.msg;
      GetSender(pack.toaddr);
      if senders[key].dataQueue != [] {
        return;
      }
      sendQueue := sendQueue[1..];
      Split(key, m);
    }

    /** The fragment loop of checkSendQueue. */
    method Split(key: int, m: Msg)
      requires Valid() && key in senders && senders[key].dataQueue == []
      modifies this`senders
      ensures Model().senders == old(senders)[key := old(senders)[key].(dataQueue := Fragments(m))]
      ensures Model() == old(Model()).(senders := Model().senders) && Valid()
    {
      var len, offset := |m.bytes|, 0;
      ghost var i: nat := 0;
      while offset < len
        invariant 0 <= i <= NumFragments(len) && offset == Covered(len, i)
        invariant senders == old(senders)[key := old(senders)[key].(dataQueue := Fragments(m)[..i])]
        decreases len - offset
      {
        var datalen := if len - offset < MAXPKTSIZE then len - offset else MAXPKTSIZE;
        var pkg := BLANK.(sid := m.sid, totallen := len, offset := offset, data := m.bytes[offset..offset + datalen]);
        NextFragment(m, i);
        senders := senders[key := senders[key].(dataQueue := senders[key].dataQueue + [pkg])];
        offset := offset + datalen;
        i := i + 1;
      }
      AllFragments(m, i);
    }

    /** The inner loop of checkSendQueue: number and send packets while the window has room. */
    method Fill(k: int)
      requires Valid() && k in senders
      modifies this
      ensures Model() == N.Fill(clock, old(Model()), k) && Valid()
    {
      hide N.Transmit, N.EmptySlot, N.TimersOk;
      while senders[k].dataQueue != []
        invariant Valid() && k in senders && senders.Keys == old(senders.Keys)
        invariant N.Fill(clock, Model(), k) == N.Fill(clock, old(Model()), k)
        decreases |senders[k].dataQueue|
      {
        var slot := CheckEmptyWindow(senders[k].window, N.ToInt32((senders[k].seqno + 1) % 0x1_0000_0000));
        if slot.None? {
          break;
        }
        Transmit(k, slot.value);
      }
    }

    method Transmit(k: int, i: nat)
      requires Valid() && k in senders && senders[k].dataQueue != [] && i < |senders[k].window|
      modifies this
      ensures Model() == N.Transmit(clock, old(Model()), k, i) && Valid()
    {
      hide N.SendTimed;
      var ss := senders[k];
      var q := (ss.seqno + 1) % 0x1_0000_0000;
      var t := ss.window[i].(tryCount := 0, pkg := Some(ss.dataQueue[0]));
      senders := senders[k := ss.(seqno := q, window := ss.window[i := t], dataQueue := ss.dataQueue[1..])];
      var _ := SendPackage(ss.toaddr, DATA, q, SlotRef(k, i));
    }

    method CheckSendQueue()
      requires Valid()
      modifies this
      ensures Model() == N.CheckSendQueue(clock, old(Model())) && Valid()
    {
      hide N.TakeMessage, N.Fill, N.TimersOk;
      TakeMessage();
      ghost var taken := Model();
      var keys := senders.Keys;
      while exists k :: k in keys
        invariant Valid() && keys <= senders.Keys
        invariant N.FillAll(clock, Model(), keys) == N.FillAll(clock, taken, taken.senders.Keys)
        decreases keys
      {
        var some :| some in keys;
        HasLeast(keys, some);
        var k :| IsLeast(keys, k);
        Fill(k);
        keys := keys - {k};
      }
    }

    // ---------- timeouts ----------

    /** processTimeout. */
    method ProcessTimeout(ref: TimerRef) returns (ret: int)
      requires Valid() && N.RefOk(Model(), ref)
      modifies this
      ensures (Model(), ret) == N.ProcessTimeout(clock, old(Model()), ref) && Valid()
    {
      hide N.ProcessPacketTimeout, Key;
      var t := N.TimerOf(senders[ref.key], ref);
      var key := Key(t.toaddr);
      if key !in senders {
        return -1;
      }
      if t.pkg.None? {
        return N.NULL_PACKET;
      }
      ret := ProcessPacketTimeout(ref, t.pkg.value, key);
    }

    /** processTimeout, once the sender and the packet of the event are there. */
    method ProcessPacketTimeout(ref: TimerRef, p: Pkg, key: int) returns (ret: int)
      requires Valid() && N.RefOk(Model(), ref) && N.TimerAt(Model(), ref).pkg == Some(p) && key in senders
      modifies this
      ensures (Model(), ret)
           == N.ProcessPacketTimeout(clock, old(Model()), ref, N.TimerAt(old(Model()), ref), p, key)
      ensures Valid()
    {
      hide N.SendTimed, N.SlotBySeq, N.SetTimer, N.WithTimer, N.SameShape, Key;
      ghost var n := Model();
      var t := N.TimerOf(senders[ref.key], ref);
      if p.ptype == SYN && ref != SynRef(key) {
        return -1;
      }
      if p.ptype == FIN {
        return -1;
      }
      if p.ptype == ACK {
        return N.ACK_EVENT;
      }
      if p.ptype == DATA {
        var slot := GetWindowBySeq(senders[key].window, p.seqno);
        if slot.None? || ref != SlotRef(key, slot.value) {
          return -1;
        }
      }
      if t.tryCount >= MAXRETRANS {
        log := log + [TimedOut(t.toaddr, p.sid, p.seqno)];
        return 0;
      }
      SetEvent(ref, t.(tryCount := t.tryCount + 1));
      SetTimerSets(n, ref, t.(tryCount := t.tryCount + 1));
      ret := SendPackage(t.toaddr, p.ptype, p.seqno, ref);
    }

    // ---------- receiving ----------

    /** dataRecv: copy the packet into its session, and hand the session up when it is full. */
    method DataRecv(key: int, p: Pkg)
      requires key in receivers
      modifies this`receivers, this`log
      ensures Model() == N.DataRecv(old(Model()), key, p)
    {
      var rs := receivers[key];
      if p.sid !in rs.sessions && p.offset != 0 {
        assert receivers[key := rs] == receivers;
        return;
      }
      if p.sid in rs.sessions && p.offset != rs.sessions[p.sid].first {
        assert receivers[key := rs] == receivers;
        return;
      }
      var s := if p.sid in rs.sessions then rs.sessions[p.sid] else Session(0, Zeros(p.totallen));
      if |s.buf| < s.first + |p.data| {
        log := log + [Overrun(rs.fromaddr)];
        assert receivers[key := rs] == receivers;
        return;
      }
      s := Session(p.offset + |p.data|, Blit(s.buf, s.first, p.data));
      if s.first == p.totallen {
        log := log + [Delivered(rs.fromaddr, Msg(p.sid, s.buf[..s.first]))];
        receivers := receivers[key := rs.(sessions := rs.sessions - {p.sid})];
      } else {
        receivers := receivers[key := rs.(sessions := rs.sessions[p.sid := s])];
      }
    }

    /** cleanReceiver. */
    method CleanReceiver(rs: Receiver)
      modifies this`receivers
      ensures Model() == old(Model()).(receivers := old(receivers) - {Key(rs.fromaddr)})
    {
      receivers := receivers - {Key(rs.fromaddr)};
    }

    method OnSyn(from: Addr, p: Pkg, sent: int) returns (ret: int)
      modifies this`receivers, this`log
      ensures Model() == N.OnSyn(old(Model()), from, p) && ret == sent
    {
      var key := Key(from);
      var rs := Receiver(from, OPENING, 0, map[]);
      if key in receivers && receivers[key].status == OPENING {
        rs := receivers[key];
      } else {
        if key in receivers {
          CleanReceiver(receivers[key]);
        }
        log := log + [NewReceiver(from)];
      }
      receivers := receivers[key := rs.(status := OPENING, expectedSeq := (p.seqno + 1) % 0x1_0000_0000)];
      ret := SendAck(from, N.AckOfSyn(p), sent);
    }

    method OnData(from: Addr, p: Pkg, sent: int) returns (ret: int)
      requires p.ptype == DATA
      modifies this`receivers, this`log
      ensures Model() == N.OnData(old(Model()), from, p)
      ensures ret == N.ReceiveResult(old(Model()), from, p, sent)
    {
      hide N.DataRecv;
      var key := Key(from);
      if key !in receivers || receivers[key].status == SYN_SENT {
        return 0;
      }
      var rs := receivers[key];
      if p.seqno < (rs.expectedSeq - WINDOW) % 0x1_0000_0000 || rs.expectedSeq < p.seqno {
        return 0;
      }
      if p.seqno == rs.expectedSeq {
        receivers := receivers[key := rs.(status := OPEN, expectedSeq := (p.seqno + 1) % 0x1_0000_0000)];
        DataRecv(key, p);
      }
      ret := SendAck(from, N.AckOfData(p), sent);
    }

    method OnFin(from: Addr, p: Pkg, sent: int) returns (ret: int)
      requires p.ptype == FIN
      modifies this`receivers, this`log
      ensures Model() == N.OnFin(old(Model()), from, p)
      ensures ret == N.ReceiveResult(old(Model()), from, p, sent)
    {
      var key := Key(from);
      if key !in receivers {
        ret := SendAck(from, p, sent);
        return;
      }
      var rs := receivers[key];
      if p.seqno != rs.expectedSeq {
        return 0;
      }
      ret := SendAck(from, p.(data := []), sent);
      CleanReceiver(rs);
    }

    method OnAck(from: Addr, p: Pkg)
      requires Valid()
      modifies this`senders, this`timers, this`log
      ensures Model() == N.OnAck(old(Model()), from, p)
    {
      var key := Key(from);
      if key !in senders {
        return;
      }
      var ss := senders[key];
      if ss.status == SYN_SENT {
        if ss.syn.pkg.None? || p.seqno != ss.syn.pkg.value.seqno {
          return;
        }
        var _ := DeleteTimeoutEvent(SynRef(key));
        senders := senders[key := ss.(status := OPEN, syn := ss.syn.(pkg := None))];
        log := log + [Opened(from)];
      } else if ss.status == OPEN {
        var slot := GetWindowBySeq(ss.window, p.seqno);
        if slot.None? {
          return;
        }
        var i := slot.value;
        var _ := DeleteTimeoutEvent(SlotRef(key, i));
        senders := senders[key := ss.(window := ss.window[i := ss.window[i].(pkg := None)])];
        log := log + [Acked(from, p, p.totallen == p.offset)];
      }
    }

    /** processReceive, for a packet that passed the CRC check. */
    method ProcessReceive(from: Addr, p: Pkg, sent: int) returns (ret: int)
      requires Valid()
      modifies this
      ensures Model() == N.ProcessReceive(old(Model()), from, p)
      ensures ret == N.ReceiveResult(old(Model()), from, p, sent)
    {
      hide N.OnSyn, N.OnData, N.OnFin, N.OnAck;
      ret := 0;
      if p.ptype == SYN {
        ret := OnSyn(from, p, sent);
      } else if p.ptype == DATA {
        ret := OnData(from, p, sent);
      } else if p.ptype == FIN {
        ret := OnFin(from, p, sent);
      } else if p.ptype == ACK {
        OnAck(from, p);
      }
    }

    // ---------- the event loop ----------

    /** One iteration of loop(); -1 leaves the loop. */
    method LoopStep(input: N.Input) returns (ret: int)
      requires Valid()
      modifies this
      ensures (Model(), ret) == N.LoopStep(clock, old(Model()), input)
    {
      hide N.CheckSendQueue, N.ProcessTimeout, N.ProcessReceive, N.ReceiveResult;
      var start := Now();
      CheckSendQueue();
      ret := 0;
      if timers != [] {
        var head := timers[0];
        assert N.RefOk(Model(), head);
        if N.TimerOf(senders[head.key], head).timeout - start <= 0 {
          var r := ProcessTimeout(head);
          timers := if timers == [] then [] else timers[1..];
          return if r < 0 then -1 else 0;
        }
      }
      match input
      case Nothing =>
      case Packet(from, p, sent) =>
        var r := ProcessReceive(from, p, sent);
        ret := if r < 0 then -1 else 0;
    }

    /** loop(), until the inputs are used up or it returns: it goes where its iterations lead, keeps the
        engine's invariant, and returns only when the sendto of an acknowledgement fails. */
    method Loop(inputs: seq<N.Input>) returns (ret: int, served: nat)
      requires UdpEngine.NodeInv(Model())
      modifies this
      ensures UdpEngine.NodeInv(Model()) && (Model(), ret) == N.LoopRun(clock, old(Model()), inputs)
      ensures served <= |inputs| && (ret == 0 ==> served == |inputs|)
      ensures ret != 0 ==> ret == -1 && served > 0 && inputs[served - 1].Packet? && inputs[served - 1].sent < 0
    {
      hide UdpEngine.NodeInv, N.LoopStep;
      ret, served := 0, 0;
      ghost var n := Model();
      UdpLoop.InvParts(Model());
      while served < |inputs|
        invariant UdpEngine.NodeInv(Model()) && Valid() && served <= |inputs|
        invariant (Model(), 0) == N.LoopRun(clock, n, inputs[..served])
      {
        ghost var before := Model();
        var r := LoopStep(inputs[served]);
        UdpLoop.LoopStepKeeps(clock, before, inputs[served]);
        UdpLoop.LoopStepReturns(clock, before, inputs[served]);
        assert inputs[..served + 1][..served] == inputs[..served];
        served := served + 1;
        if r < 0 {
          N.LoopRunEnds(clock, n, inputs, served);
          return -1, served;
        }
      }
      assert inputs[..served] == inputs;
    }
  }

  lemma NextFragment(m: Msg, i: nat)
    requires Covered(|m.bytes|, i) < |m.bytes| && i <= NumFragments(|m.bytes|)
    ensures i < NumFragments(|m.bytes|)
    ensures FragmentAt(m, i).offset == Covered(|m.bytes|, i) && Fragments(m)[..i + 1] == Fragments(m)[..i]
              + [FragmentAt(m, i)]
  {
    NumFragmentsBounds(|m.bytes|);
  }

  lemma AllFragments(m: Msg, i: nat)
    requires i <= NumFragments(|m.bytes|) && Covered(|m.bytes|, i) == |m.bytes|
    ensures Fragments(m)[..i] == Fragments(m)
  {
    NumFragmentsBounds(|m.bytes|);
  }
}
