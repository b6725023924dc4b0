/**
 What holds inside one engine after every step, whatever packets arrive: every sender keeps
 its invariant, and the timer list is exactly the schedule of the events that have a deadline.
 */
module UdpEngine {
  import opened UdpTypes
  import opened UdpNode
  import opened UdpSender
  import opened UdpSteps
  import opened UdpTimers
  import opened UdpReceiver

  // ---------- the invariant ----------

  /** A pending SYN or an occupied slot not given up has a deadline. */
  function Deadline(v: Outgoing, ref: TimerRef): Option<int> {
    if HoldsPkg(v, ref) && Count(v.log, GaveUp(PkgOf(v, ref).seqno)) == 0
    then Some(TimerOf(v.sender.value, ref).timeout)
    else None
  }

  function DeadlineOf(n: Node, ref: TimerRef): Option<int> {
    if ref.key in n.senders then Deadline(OutgoingOf(n, n.senders[ref.key].toaddr), ref) else None
  }

  function DeadlinesOf(n: Node): Deadlines {
    ref => DeadlineOf(n, ref)
  }

  /** The key of every sender is the key of its address. */
  predicate KeysOk(n: Node) {
    forall k | k in n.senders :: Key(n.senders[k].toaddr) == k
  }

  ghost predicate SendersOk(n: Node) {
    forall b: Addr :: OutgoingInv(OutgoingOf(n, b), b)
  }

  ghost predicate NodeInv(n: Node) {
    KeysOk(n) && SendersOk(n) && Scheduled(n.timers, DeadlinesOf(n))
  }

  /** The packet, if any, that input brings from peer b. */
  function InputFrom(input: Input, b: Addr): Option<Pkg> {
    if input.Packet? && input.from == b then Some(input.pkg) else None
  }

  ghost predicate NodeGrows(n: Node, m: Node, input: Input) {
    forall b: Addr :: Grows(OutgoingOf(n, b), OutgoingOf(m, b), InputFrom(input, b))
  }

  /** Nothing changed on the receiving side. */
  ghost predicate SendOnly(n: Node, m: Node) {
    m.receivers == n.receivers && forall a: Addr :: RecvView(m.log, a) == RecvView(n.log, a)
  }

  lemma NodeGrowsTrans(n: Node, m: Node, o: Node, i: Input, j: Input)
    requires NodeGrows(n, m, i) && NodeGrows(m, o, j) && (i == Nothing || i == j)
    ensures NodeGrows(n, o, j)
  {
    hide Grows, OutgoingOf;
    forall b: Addr ensures Grows(OutgoingOf(n, b), OutgoingOf(o, b), InputFrom(j, b)) {
      assert Grows(OutgoingOf(n, b), OutgoingOf(m, b), InputFrom(i, b));
      GrowsTrans(OutgoingOf(n, b), OutgoingOf(m, b), OutgoingOf(o, b), InputFrom(i, b), InputFrom(j, b));
    }
  }

  // ---------- one event at one sender ----------

  /** n with a new record for peer b's sender, a new event about b and other timers. */
  function Put(n: Node, b: Addr, ss: Sender, e: Event, timers: seq<TimerRef>, ticks: nat): Node {
    n.(senders := n.senders[Key(b) := ss], log := n.log + [e], timers := timers, ticks := ticks)
  }

  lemma PutViews(n: Node, b: Addr, ss: Sender, e: Event, timers: seq<TimerRef>, ticks: nat)
    requires SendsTo(e, b)
    ensures var m := Put(n, b, ss, e, timers, ticks);
            && OutgoingOf(m, b) == OutgoingOf(n, b).(sender := Some(ss), log := OutgoingOf(n, b).log + [e])
            && (forall c: Addr | c != b :: OutgoingOf(m, c) == OutgoingOf(n, c))
            && SendOnly(n, m)
  {
    var m := Put(n, b, ss, e, timers, ticks);
    SendViewSnoc(n.log, e, b);
    forall c: Addr | c != b ensures OutgoingOf(m, c) == OutgoingOf(n, c) {
      KeyInjective(b, c);
      SendViewSnoc(n.log, e, c);
    }
    forall a: Addr ensures RecvView(m.log, a) == RecvView(n.log, a) {
      RecvViewSnoc(n.log, e, a);
    }
  }

  /** Peers other than b keep their senders' views, so they keep their deadlines. */
  ghost predicate OthersSame(n: Node, m: Node, b: Addr) {
    && (forall c: Addr | c != b :: OutgoingOf(m, c) == OutgoingOf(n, c))
    && (forall k | k != Key(b) :: k in m.senders <==> k in n.senders)
    && (forall k | k in n.senders && k != Key(b) :: m.senders[k] == n.senders[k])
  }

  lemma OtherDeadlines(n: Node, m: Node, b: Addr)
    requires KeysOk(n) && OthersSame(n, m, b)
    ensures forall r: TimerRef | r.key != Key(b) :: DeadlineOf(m, r) == DeadlineOf(n, r)
  {
    hide Deadline, OutgoingOf, Key;
    forall r: TimerRef | r.key != Key(b) ensures DeadlineOf(m, r) == DeadlineOf(n, r) {
      if r.key in n.senders {
        assert m.senders[r.key].toaddr != b;
      }
    }
  }

  lemma OwnDeadline(n: Node, b: Addr, r: TimerRef)
    requires r.key == Key(b) && OutgoingInv(OutgoingOf(n, b), b)
    ensures DeadlineOf(n, r) == Deadline(OutgoingOf(n, b), r)
  {
    hide Count, SendView, Pending, Taken, StreamOf;
  }

  /** If only event ref of peer b changes its deadline, the deadlines agree but for ref. */
  lemma DeadlinesAgree(n: Node, m: Node, b: Addr, ref: TimerRef)
    requires KeysOk(n) && OthersSame(n, m, b) && ref.key == Key(b)
    requires OutgoingInv(OutgoingOf(n, b), b) && OutgoingInv(OutgoingOf(m, b), b)
    requires forall r: TimerRef | r.key == Key(b) && r != ref ::
               Deadline(OutgoingOf(m, b), r) == Deadline(OutgoingOf(n, b), r)
    ensures AgreeBut(DeadlinesOf(n), DeadlinesOf(m), ref)
    ensures DeadlineOf(m, ref) == Deadline(OutgoingOf(m, b), ref)
  {
    hide Deadline, OutgoingOf, OutgoingInv, Key, DeadlineOf;
    OtherDeadlines(n, m, b);
    forall r: TimerRef | r != ref ensures DeadlineOf(m, r) == DeadlineOf(n, r) {
      if r.key == Key(b) {
        OwnDeadline(n, b, r);
        OwnDeadline(m, b, r);
      }
    }
    OwnDeadline(m, b, ref);
  }

  /** A deadline is the timeout of an event that exists. */
  lemma DeadlineIsTimeout(n: Node, r: TimerRef)
    requires KeysOk(n) && DeadlineOf(n, r).Some?
    ensures RefOk(n, r) && TimerAt(n, r).pkg.Some? && DeadlineOf(n, r).value == TimerAt(n, r).timeout
  {
    hide Count, SendView, Pending;
  }

  lemma ScheduledTimersOk(n: Node, ref: TimerRef)
    requires KeysOk(n) && (Scheduled(n.timers, DeadlinesOf(n)) || ScheduledBut(n.timers, DeadlinesOf(n), ref))
    ensures TimersOk(n)
    ensures forall r | r in n.timers :: DeadlineOf(n, r) == Some(TimerAt(n, r).timeout)
  {
    hide DeadlineOf;
    forall r | r in n.timers ensures RefOk(n, r) && DeadlineOf(n, r) == Some(TimerAt(n, r).timeout) {
      assert DeadlinesOf(n)(r).Some?;
      DeadlineIsTimeout(n, r);
    }
  }

  lemma {:induction false} InsertAtBetween(n: Node, timeout: int, j: nat)
    requires j <= |n.timers| && TimersOk(n)
    ensures var p := InsertAt(n, timeout, j);
            && (forall i | j <= i < p :: TimerAt(n, n.timers[i]).timeout <= timeout)
            && (p < |n.timers| ==> timeout < TimerAt(n, n.timers[p]).timeout)
    decreases |n.timers| - j
  {
    if j < |n.timers| && TimerAt(n, n.timers[j]).timeout <= timeout {
      InsertAtBetween(n, timeout, j + 1);
    }
  }

  /** addTimeoutEvent finds the place of the new event in a schedule. */
  lemma InsertAtSplits(n: Node, d: Deadlines, timeout: int)
    requires TimersOk(n) && Sorted(n.timers, d)
    requires forall r | r in n.timers :: d(r) == Some(TimerAt(n, r).timeout)
    ensures Splits(n.timers, d, timeout, InsertAt(n, timeout, 0))
  {
    hide TimerAt;
    InsertAtBetween(n, timeout, 0);
  }

  /** Peer b's sender makes step v -> w with event e, and no event of b but ref changes its
      deadline. */
  ghost predicate StepAt(v: Outgoing, w: Outgoing, b: Addr, ref: TimerRef, e: Event, input: Option<Pkg>) {
    && w.sender.Some? && w.log == v.log + [e] && w.pending == v.pending && SendsTo(e, b)
    && OutgoingInv(w, b) && Grows(v, w, input) && ref.key == Key(b)
    && forall r: TimerRef | r.key == Key(b) && r != ref :: Deadline(w, r) == Deadline(v, r)
  }

  lemma PutKeeps(n: Node, b: Addr, ref: TimerRef, w: Outgoing, e: Event, ts: seq<TimerRef>, ticks: nat, input: Input)
    requires KeysOk(n) && SendersOk(n) && StepAt(OutgoingOf(n, b), w, b, ref, e, InputFrom(input, b))
    ensures var m := Put(n, b, w.sender.value, e, ts, ticks);
            && KeysOk(m) && SendersOk(m) && NodeGrows(n, m, input) && SendOnly(n, m)
            && AgreeBut(DeadlinesOf(n), DeadlinesOf(m), ref) && DeadlineOf(m, ref) == Deadline(w, ref)
            && OutgoingOf(m, b) == w
  {
    hide OutgoingInv, Grows, Deadline, OutgoingOf, DeadlineOf;
    var m := Put(n, b, w.sender.value, e, ts, ticks);
    PutViews(n, b, w.sender.value, e, ts, ticks);
    OutgoingParts(n, b, w, e);
    ToAddr(w, b);
    forall c: Addr ensures
        OutgoingInv(OutgoingOf(m, c), c) && Grows(OutgoingOf(n, c), OutgoingOf(m, c), InputFrom(input, c)) {
      if c != b {
        GrowsSame(OutgoingOf(n, c), InputFrom(input, c));
      }
    }
    DeadlinesAgree(n, m, b, ref);
  }

  lemma OutgoingParts(n: Node, b: Addr, w: Outgoing, e: Event)
    requires w.sender.Some? && w.log == OutgoingOf(n, b).log + [e] && w.pending == OutgoingOf(n, b).pending
    ensures w == OutgoingOf(n, b).(sender := Some(w.sender.value), log := OutgoingOf(n, b).log + [e])
  {
  }

  /** Arming an event that has no place yet: addTimeoutEvent restores the schedule. */
  lemma ArmKeeps(n: Node, b: Addr, ref: TimerRef, w: Outgoing, e: Event, ticks: nat)
    requires KeysOk(n) && SendersOk(n) && ScheduledBut(n.timers, DeadlinesOf(n), ref)
    requires StepAt(OutgoingOf(n, b), w, b, ref, e, None) && Deadline(w, ref).Some?
    ensures var m := Put(n, b, w.sender.value, e, n.timers, ticks);
            && TimersOk(m) && RefOk(m, ref) && NodeInv(AddTimer(m, ref))
            && NodeGrows(n, AddTimer(m, ref), Nothing) && SendOnly(n, AddTimer(m, ref))
            && OutgoingOf(AddTimer(m, ref), b) == w
  {
    hide OutgoingInv, Grows, Deadline, DeadlineOf, SendersOk, Splits;
    var m := Put(n, b, w.sender.value, e, n.timers, ticks);
    PutKeeps(n, b, ref, w, e, n.timers, ticks, Nothing);
    ButFrame(n.timers, DeadlinesOf(n), DeadlinesOf(m), ref);
    ScheduledTimersOk(m, ref);
    DeadlineIsTimeout(m, ref);
    InsertAtSplits(m, DeadlinesOf(m), TimerAt(m, ref).timeout);
    ScheduleInsert(m.timers, DeadlinesOf(m), ref, InsertAt(m, TimerAt(m, ref).timeout, 0));
    TimersOnly(n, m, AddTimer(m, ref));
  }

  /** An event that loses its deadline, and its place on the list. */
  lemma DisarmKeeps(n: Node, b: Addr, ref: TimerRef, w: Outgoing, e: Event, ts: seq<TimerRef>, input: Input)
    requires KeysOk(n) && SendersOk(n) && ScheduledBut(ts, DeadlinesOf(n), ref)
    requires StepAt(OutgoingOf(n, b), w, b, ref, e, InputFrom(input, b)) && Deadline(w, ref).None?
    ensures var m := Put(n, b, w.sender.value, e, ts, n.ticks);
            NodeInv(m) && NodeGrows(n, m, input) && SendOnly(n, m) && OutgoingOf(m, b) == w
  {
    hide OutgoingInv, Grows, Deadline, DeadlineOf, SendersOk;
    var m := Put(n, b, w.sender.value, e, ts, n.ticks);
    PutKeeps(n, b, ref, w, e, ts, n.ticks, input);
    ButFrame(ts, DeadlinesOf(n), DeadlinesOf(m), ref);
    ScheduleNone(ts, DeadlinesOf(m), ref);
  }

  /** A step of peer b's sender that changes no deadline. */
  lemma QuietKeeps(n: Node, m: Node, b: Addr, w: Outgoing, input: Input)
    requires NodeInv(n) && KeysOk(m) && OthersSame(n, m, b) && m.timers == n.timers
    requires OutgoingOf(m, b) == w && OutgoingInv(w, b) && Grows(OutgoingOf(n, b), w, InputFrom(input, b))
    requires forall r: TimerRef | r.key == Key(b) :: Deadline(w, r) == Deadline(OutgoingOf(n, b), r)
    ensures NodeInv(m) && NodeGrows(n, m, input)
  {
    hide OutgoingInv, Grows, Deadline, OutgoingOf, DeadlineOf, Scheduled;
    var ref := SynRef(Key(b));
    forall c: Addr ensures
        OutgoingInv(OutgoingOf(m, c), c) && Grows(OutgoingOf(n, c), OutgoingOf(m, c), InputFrom(input, c)) {
      if c != b {
        GrowsSame(OutgoingOf(n, c), InputFrom(input, c));
      }
    }
    DeadlinesAgree(n, m, b, ref);
    OwnDeadline(n, b, ref);
    ScheduleFrame(n.timers, DeadlinesOf(n), DeadlinesOf(m));
  }

  /** Views and deadlines do not depend on the timer list. */
  lemma TimersOnly(n: Node, m: Node, o: Node)
    requires o == m.(timers := o.timers) && KeysOk(m) && SendersOk(m) && Scheduled(o.timers, DeadlinesOf(m))
    requires NodeGrows(n, m, Nothing) && SendOnly(n, m)
    ensures NodeInv(o) && NodeGrows(n, o, Nothing) && SendOnly(n, o)
    ensures forall b: Addr :: OutgoingOf(o, b) == OutgoingOf(m, b)
  {
    hide OutgoingInv, Grows, Deadline;
    assert forall b: Addr :: OutgoingOf(o, b) == OutgoingOf(m, b);
    assert forall r: TimerRef :: DeadlineOf(o, r) == DeadlineOf(m, r);
    ScheduleFrame(o.timers, DeadlinesOf(m), DeadlinesOf(o));
  }

  // ---------- deadlines of one sender ----------

  /** An event kept as it was keeps its deadline unless its own number is given up. */
  lemma DeadlineKept(v: Outgoing, w: Outgoing, e: Event, r: TimerRef)
    requires w.log == v.log + [e] && v.sender.Some? && w.sender.Some?
    requires HasTimer(v.sender.value, r) <==> HasTimer(w.sender.value, r)
    requires HasTimer(v.sender.value, r) ==> TimerOf(w.sender.value, r) == TimerOf(v.sender.value, r)
    requires HoldsPkg(v, r) ==> TagOf(e) != GaveUp(PkgOf(v, r).seqno)
    ensures Deadline(w, r) == Deadline(v, r)
  {
    if HoldsPkg(v, r) {
      CountSnoc(v.log, e, GaveUp(PkgOf(v, r).seqno));
    }
  }

  lemma CreateArms(v: Outgoing, b: Addr, timeout: int)
    requires OutgoingInv(v, b) && v.sender.None?
    ensures StepAt(v, OutCreate(v, b, timeout), b, SynRef(Key(b)), Sent(b, SYN_PKG), None)
    ensures Deadline(OutCreate(v, b, timeout), SynRef(Key(b))).Some?
  {
    hide OutgoingInv, Grows, NumbersOk, Taken, QueueOk;
    var w := OutCreate(v, b, timeout);
    CreateKeeps(v, b, timeout);
    assert Untouched(v) by { UntouchedBefore(v, b); }
    CountSnoc(v.log, Sent(b, SYN_PKG), GaveUp(FIRST_SEQ));
    NothingSent(v.log, GaveUp(FIRST_SEQ));
  }

  lemma UntouchedBefore(v: Outgoing, b: Addr)
    requires OutgoingInv(v, b) && v.sender.None?
    ensures Untouched(v)
  {
  }

  lemma TransmitArms(v: Outgoing, b: Addr, i: nat, timeout: int)
    requires OutgoingInv(v, b) && CanTransmit(v, i)
    ensures StepAt(v, OutTransmit(v, b, i, timeout), b, SlotRef(Key(b), i), Sent(b, NextPkg(v.sender.value)), None)
    ensures Deadline(OutTransmit(v, b, i, timeout), SlotRef(Key(b), i)).Some?
  {
    hide OutgoingInv, Grows, Deadline;
    var w, ss, e := OutTransmit(v, b, i, timeout), v.sender.value, Sent(b, NextPkg(v.sender.value));
    TransmitKeeps(v, b, i, timeout);
    forall r: TimerRef | r.key == Key(b) && r != SlotRef(Key(b), i) ensures Deadline(w, r) == Deadline(v, r) {
      DeadlineKept(v, w, e, r);
    }
    FreshDeadline(v, w, b, i, e);
  }

  /** A number not used before was not given up. */
  lemma FreshDeadline(v: Outgoing, w: Outgoing, b: Addr, i: nat, e: Event)
    requires OutgoingInv(v, b) && v.sender.Some? && w.log == v.log + [e] && e.Sent?
    requires HoldsPkg(w, SlotRef(Key(b), i)) && PkgOf(w, SlotRef(Key(b), i)).seqno == v.sender.value.seqno + 1
    ensures Deadline(w, SlotRef(Key(b), i)).Some?
  {
    hide Taken, StreamOf, QueueOk, SenderOk, EventsOk, Count;
    var q := v.sender.value.seqno + 1;
    assert NumberOk(v.log, v.sender.value, q);
    CountSnoc(v.log, e, GaveUp(q));
  }

  lemma ResendArms(v: Outgoing, b: Addr, ref: TimerRef, timeout: int)
    requires OutgoingInv(v, b) && CanResend(v, ref) && ref.key == Key(b)
    ensures StepAt(v, OutResend(v, b, ref, timeout), b, ref, Sent(b, PkgOf(v, ref)), None)
    ensures Deadline(OutResend(v, b, ref, timeout), ref).Some?
  {
    hide OutgoingInv, Grows, Deadline;
    var w, e := OutResend(v, b, ref, timeout), Sent(b, PkgOf(v, ref));
    ResendKeeps(v, b, ref, timeout);
    HeldPkg(v, b, ref);
    forall r: TimerRef | r.key == Key(b) && r != ref ensures Deadline(w, r) == Deadline(v, r) {
      DeadlineKept(v, w, e, r);
    }
    StillWanted(v, w, ref, e);
  }

  lemma StillWanted(v: Outgoing, w: Outgoing, ref: TimerRef, e: Event)
    requires HoldsPkg(v, ref) && Count(v.log, GaveUp(PkgOf(v, ref).seqno)) == 0
    requires w.log == v.log + [e] && e.Sent? && HoldsPkg(w, ref) && PkgOf(w, ref) == PkgOf(v, ref)
    ensures Deadline(w, ref).Some?
  {
    hide Count;
    CountSnoc(v.log, e, GaveUp(PkgOf(v, ref).seqno));
  }

  lemma GiveUpDisarms(v: Outgoing, b: Addr, ref: TimerRef)
    requires OutgoingInv(v, b) && CanGiveUp(v, ref) && ref.key == Key(b)
    ensures var e := TimedOut(b, PkgOf(v, ref).sid, PkgOf(v, ref).seqno);
            StepAt(v, OutGiveUp(v, b, ref), b, ref, e, None) && Deadline(OutGiveUp(v, b, ref), ref).None?
  {
    hide OutgoingInv, Grows, Deadline;
    var w, e := OutGiveUp(v, b, ref), TimedOut(b, PkgOf(v, ref).sid, PkgOf(v, ref).seqno);
    GiveUpKeeps(v, b, ref);
    forall r: TimerRef | r.key == Key(b) && r != ref ensures Deadline(w, r) == Deadline(v, r) {
      if HoldsPkg(v, r) {
        HeldDistinct(v, b, r, ref);
      }
      DeadlineKept(v, w, e, r);
    }
    GivenUpDeadline(v, w, ref, e);
  }

  lemma GivenUpDeadline(v: Outgoing, w: Outgoing, ref: TimerRef, e: Event)
    requires HoldsPkg(v, ref) && w == v.(log := v.log + [e]) && TagOf(e) == GaveUp(PkgOf(v, ref).seqno)
    ensures Deadline(w, ref).None?
  {
    CountSnoc(v.log, e, GaveUp(PkgOf(v, ref).seqno));
  }

  /** Two events of one sender never hold the same number. */
  lemma HeldDistinct(v: Outgoing, b: Addr, r: TimerRef, s: TimerRef)
    requires OutgoingInv(v, b) && HoldsPkg(v, r) && HoldsPkg(v, s) && r.key == s.key && r != s
    ensures PkgOf(v, r).seqno != PkgOf(v, s).seqno
  {
    hide OutgoingInv;
    HeldPkg(v, b, r);
    HeldPkg(v, b, s);
    ToAddr(v, b);
  }

  lemma SynAckDisarms(v: Outgoing, b: Addr)
    requires OutgoingInv(v, b) && v.sender.Some?
    ensures StepAt(v, OutSynAck(v, b), b, SynRef(Key(b)), Opened(b), None)
    ensures Deadline(OutSynAck(v, b), SynRef(Key(b))).None?
  {
    hide OutgoingInv, Grows, Deadline;
    var w := OutSynAck(v, b);
    SynAckKeeps(v, b);
    forall r: TimerRef | r.key == Key(b) && r != SynRef(Key(b)) ensures Deadline(w, r) == Deadline(v, r) {
      DeadlineKept(v, w, Opened(b), r);
    }
    NothingHeld(w, SynRef(Key(b)));
  }

  lemma NothingHeld(w: Outgoing, ref: TimerRef)
    requires !HoldsPkg(w, ref)
    ensures Deadline(w, ref).None?
  {
  }

  lemma AckDisarms(v: Outgoing, b: Addr, i: nat, p: Pkg)
    requires OutgoingInv(v, b) && CanAck(v, i, p)
    ensures StepAt(v, OutAck(v, b, i, p), b, SlotRef(Key(b), i), AckEvent(b, p), Some(p))
    ensures Deadline(OutAck(v, b, i, p), SlotRef(Key(b), i)).None?
  {
    hide OutgoingInv, Grows, Deadline;
    var w := OutAck(v, b, i, p);
    AckKeeps(v, b, i, p);
    forall r: TimerRef | r.key == Key(b) && r != SlotRef(Key(b), i) ensures Deadline(w, r) == Deadline(v, r) {
      DeadlineKept(v, w, AckEvent(b, p), r);
    }
    NothingHeld(w, SlotRef(Key(b), i));
  }

  // ---------- sending with a timer ----------

  /** The event of ref in record ss, about to be sent. */
  function ToSend(ss: Sender, ref: TimerRef, ptype: PkgType, q: nat): Option<Pkg>
    requires HasTimer(ss, ref)
  {
    match TimerOf(ss, ref).pkg
    case None => None
    case Some(p) => Some(p.(ptype := ptype, seqno := q))
  }

  /** sendPackage looks the event up again, by type and number, and finds the same one. */
  predicate FindsItself(ss: Sender, ref: TimerRef, ptype: PkgType, q: nat)
    requires HasTimer(ss, ref)
  {
    match ref
    case SynRef(_) => ptype == SYN
    case SlotRef(_, i) =>
      && ptype == DATA
      && SlotBySeq(ss.window[i := ss.window[i].(pkg := ToSend(ss, ref, ptype, q))], q, 0) == Some(i)
  }

  /** When the look-up succeeds, sendPackage returns 0, having sent and armed the event. */
  lemma SendTimedIs(clk: Clock, n: Node, b: Addr, ss: Sender, ptype: PkgType, q: nat, ref: TimerRef)
    requires ref.key == Key(b) && HasTimer(ss, ref) && TimerOf(ss, ref).pkg.Some? && FindsItself(ss, ref, ptype, q)
    requires TimersOk(n.(senders := n.senders[Key(b) := ss]))
    ensures var p := TimerOf(ss, ref).pkg.value.(ptype := ptype, seqno := q);
            var armed := WithTimer(ss, ref, Timer(clk(n.ticks) + n.timeoutms, TimerOf(ss, ref).tryCount, b, Some(p)));
            var m := Put(n, b, armed, Sent(b, p), n.timers, n.ticks + 1);
            && TimersOk(m) && RefOk(m, ref)
            && SendTimed(clk, n.(senders := n.senders[Key(b) := ss]), b, ptype, q, ref) == (AddTimer(m, ref), 0)
  {
    hide Key, AddTimer, SlotBySeq, SameShape;
    var n0 := n.(senders := n.senders[Key(b) := ss]);
    var t := TimerOf(ss, ref);
    var p := t.pkg.value.(ptype := ptype, seqno := q);
    var t' := Timer(clk(n.ticks) + n.timeoutms, t.tryCount, b, Some(p));
    var m := Put(n, b, WithTimer(ss, ref, t'), Sent(b, p), n.timers, n.ticks + 1);
    var ss1 := WithTimer(ss, ref, t.(pkg := Some(p)));
    var n1 := Log(SetTimer(n0, ref, t.(pkg := Some(p))), Sent(b, p));
    assert n1.senders == n.senders[Key(b) := ss1];
    assert TimerAt(n1, ref) == t.(pkg := Some(p));
    var n2 := SetTimer(n1, ref, t').(ticks := n1.ticks + 1);
    assert WithTimer(ss1, ref, t') == WithTimer(ss, ref, t');
    assert n2.senders == m.senders;
    assert n2 == m;
    assert Arm(clk, n1, ref, b) == AddTimer(m, ref);
  }
}
