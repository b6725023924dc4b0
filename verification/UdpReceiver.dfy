/** One direction of one link, seen from the receiving engine. */
module UdpReceiver {
  import opened Seqs
  import opened UdpTypes
  import opened UdpStream
  import opened UdpNode
  import opened UdpSender

  // ---------- projecting one peer out of an engine ----------

  /** Receiving-side events for peer a. */
  predicate ReceivesFrom(e: Event, a: Addr) {
    match e
    case Sent(p, pkg) => p == a && pkg.ptype == ACK
    case NewReceiver(p) => p == a
    case Delivered(p, _) => p == a
    case Overrun(p) => p == a
    case _ => false
  }

  function RecvView(log: seq<Event>, a: Addr): seq<Event> {
    if log == [] then []
    else RecvView(log[..|log| - 1], a) + if ReceivesFrom(log[|log| - 1], a) then [log[|log| - 1]] else []
  }

  lemma RecvViewSnoc(log: seq<Event>, e: Event, a: Addr)
    ensures RecvView(log + [e], a) == RecvView(log, a) + if ReceivesFrom(e, a) then [e] else []
  {
    Snoc(log, e);
  }

  /** Everything an engine holds about receiving from one peer. */
  datatype Incoming = Incoming(receiver: Option<Receiver>, log: seq<Event>)

  function IncomingOf(n: Node, a: Addr): Incoming {
    Incoming(if Key(a) in n.receivers then Some(n.receivers[Key(a)]) else None, RecvView(n.log, a))
  }

  // ---------- incarnations and what they deliver ----------

  /** The messages delivered by the current incarnation of the receiver. */
  function Deliveries(log: seq<Event>): seq<Msg> {
    if log == [] then []
    else
      var before, e := Deliveries(log[..|log| - 1]), log[|log| - 1];
      if e.NewReceiver? then [] else if e.Delivered? then before + [e.msg] else before
  }

  lemma DeliveriesSnoc(log: seq<Event>, e: Event)
    ensures Deliveries(log + [e]) ==
            if e.NewReceiver? then [] else if e.Delivered? then Deliveries(log) + [e.msg] else Deliveries(log)
  {
    Snoc(log, e);
  }

  /** The messages delivered by all incarnations together. */
  function AllDelivered(log: seq<Event>): seq<Msg> {
    if log == [] then []
    else AllDelivered(log[..|log| - 1]) + if log[|log| - 1].Delivered? then [log[|log| - 1].msg] else []
  }

  lemma AllDeliveredSnoc(log: seq<Event>, e: Event)
    ensures AllDelivered(log + [e]) == AllDelivered(log) + if e.Delivered? then [e.msg] else []
  {
    Snoc(log, e);
  }

  /** With one incarnation, all that was delivered is what that one delivered. */
  lemma {:induction false} OneIncarnation(log: seq<Event>)
    requires log != [] && log[0].NewReceiver? && Count(log, Incarnation) <= 1
    ensures AllDelivered(log) == Deliveries(log)
  {
    var front := log[..|log| - 1];
    if front != [] {
      FirstCounts(front);
      OneIncarnation(front);
    }
  }

  lemma {:induction false} FirstCounts(log: seq<Event>)
    requires log != [] && log[0].NewReceiver?
    ensures Count(log, Incarnation) >= 1
  {
    if |log| > 1 {
      FirstCounts(log[..|log| - 1]);
    }
  }

  /** The most any incarnation has delivered so far. */
  function Best(log: seq<Event>): nat {
    if log == [] then 0
    else
      var before := Best(log[..|log| - 1]);
      if before < |Deliveries(log)| then |Deliveries(log)| else before
  }

  lemma BestSnoc(log: seq<Event>, e: Event)
    ensures Best(log + [e]) == if Best(log) < |Deliveries(log + [e])| then |Deliveries(log + [e])| else Best(log)
  {
    Snoc(log, e);
  }

  lemma BestCovers(log: seq<Event>)
    ensures |Deliveries(log)| <= Best(log)
  {
  }

  /** At some moment an incarnation had delivered that much. */
  lemma {:induction false} BestReached(log: seq<Event>)
    ensures exists k | 0 <= k <= |log| :: |Deliveries(log[..k])| == Best(log)
  {
    if log == [] {
      assert log[..0] == log;
    } else if Best(log) == |Deliveries(log)| {
      TakeAll(log);
      assert |Deliveries(log[..|log|])| == Best(log);
    } else {
      var front := log[..|log| - 1];
      BestReached(front);
      var k :| 0 <= k <= |front| && |Deliveries(front[..k])| == Best(front);
      assert front[..k] == log[..k];
    }
  }

  /** Every incarnation, at every moment, has delivered a prefix of ms. */
  predicate AllPrefix(log: seq<Event>, ms: seq<Msg>) {
    Deliveries(log) <= ms && (log == [] || AllPrefix(log[..|log| - 1], ms))
  }

  lemma {:induction false} AllPrefixMeaning(log: seq<Event>, ms: seq<Msg>)
    ensures AllPrefix(log, ms) <==> forall k | 0 <= k <= |log| :: Deliveries(log[..k]) <= ms
  {
    TakeAll(log);
    if log == [] {
      assert Deliveries(log[..0]) == [];
    } else {
      var front := log[..|log| - 1];
      AllPrefixMeaning(front, ms);
      assert forall k | 0 <= k <= |front| :: front[..k] == log[..k];
      if AllPrefix(log, ms) {
        forall k | 0 <= k <= |log| ensures Deliveries(log[..k]) <= ms {
          if k <= |front| {
            assert Deliveries(front[..k]) <= ms;
          }
        }
      } else if AllPrefix(front, ms) {
        assert !(Deliveries(log[..|log|]) <= ms);
      } else {
        var k :| 0 <= k <= |front| && !(Deliveries(front[..k]) <= ms);
        assert !(Deliveries(log[..k]) <= ms);
      }
    }
  }

  lemma AllPrefixSnoc(log: seq<Event>, e: Event, ms: seq<Msg>)
    requires AllPrefix(log, ms) && Deliveries(log + [e]) <= ms
    ensures AllPrefix(log + [e], ms)
  {
    Snoc(log, e);
  }

  lemma {:induction false} AllPrefixGrows(log: seq<Event>, ms: seq<Msg>, ms': seq<Msg>)
    requires AllPrefix(log, ms) && ms <= ms'
    ensures AllPrefix(log, ms')
  {
    if log != [] {
      AllPrefixGrows(log[..|log| - 1], ms, ms');
    }
  }

  // ---------- the steps of a receiver ----------

  /** The receiver's reaction to a SYN. */
  function InSyn(u: Incoming, a: Addr, p: Pkg): Incoming {
    var keep := u.receiver.Some? && u.receiver.value.status == OPENING;
    var log := if keep then u.log else u.log + [NewReceiver(a)];
    Incoming(Some(Receiver(a, OPENING, (p.seqno + 1) % 0x1_0000_0000,
        if keep then u.receiver.value.sessions else map[])),
             log + [Sent(a, AckOfSyn(p))])
  }

  function InAccept(u: Incoming, a: Addr, p: Pkg): Incoming
    requires u.receiver.Some?
  {
    var rs := u.receiver.value;
    var x := Absorb(Assembly(rs.sessions, [], false), p);
    var log1 := if x.overrun then u.log + [Overrun(a)] else u.log;
    var log2 := if x.delivered == [] then log1 else log1 + [Delivered(a, x.delivered[0])];
    Incoming(Some(rs.(status := OPEN, expectedSeq := (p.seqno + 1) % 0x1_0000_0000, sessions := x.sessions)),
             log2 + [Sent(a, AckOfData(p))])
  }

  /** The receiver's reaction to a DATA packet: ignore it, acknowledge it again, or accept it. */
  function InData(u: Incoming, a: Addr, p: Pkg): Incoming {
    if u.receiver.None? || u.receiver.value.status == SYN_SENT then u
    else
      var next := u.receiver.value.expectedSeq;
      if p.seqno < (next - WINDOW) % 0x1_0000_0000 || next < p.seqno then u
      else if p.seqno == next then InAccept(u, a, p)
      else u.(log := u.log + [Sent(a, AckOfData(p))])
  }

  /** Every receiver answers to the address it is filed under. */
  predicate FromOk(n: Node, a: Addr) {
    Key(a) in n.receivers ==> n.receivers[Key(a)].fromaddr == a
  }

  /** Log m is log n and event e about peer a. */
  lemma RecvViewsSnoc(n: seq<Event>, e: Event, a: Addr)
    requires ReceivesFrom(e, a)
    ensures RecvView(n + [e], a) == RecvView(n, a) + [e]
    ensures forall c: Addr | c != a :: RecvView(n + [e], c) == RecvView(n, c)
  {
    RecvViewSnoc(n, e, a);
    forall c: Addr | c != a ensures RecvView(n + [e], c) == RecvView(n, c) {
      RecvViewSnoc(n, e, c);
    }
  }

  ghost predicate OtherPeersSame(n: Node, m: Node, a: Addr) {
    forall c: Addr | c != a :: IncomingOf(m, c) == IncomingOf(n, c)
  }

  lemma ReceiversElsewhere(n: Node, m: Node, a: Addr)
    requires forall k | k != Key(a) :: k in m.receivers <==> k in n.receivers
    requires forall k | k in n.receivers && k != Key(a) :: m.receivers[k] == n.receivers[k]
    requires forall c: Addr | c != a :: RecvView(m.log, c) == RecvView(n.log, c)
    ensures OtherPeersSame(n, m, a)
  {
    forall c: Addr | c != a ensures IncomingOf(m, c) == IncomingOf(n, c) {
      KeyInjective(a, c);
    }
  }

  lemma OnSynViews(n: Node, a: Addr, p: Pkg)
    requires FromOk(n, a)
    ensures IncomingOf(OnSyn(n, a, p), a) == InSyn(IncomingOf(n, a), a, p)
    ensures OtherPeersSame(n, OnSyn(n, a, p), a)
  {
    hide RecvView, Key;
    var m := OnSyn(n, a, p);
    var keep := Key(a) in n.receivers && n.receivers[Key(a)].status == OPENING;
    var log1 := if keep then n.log else n.log + [NewReceiver(a)];
    RecvViewsSnoc(n.log, NewReceiver(a), a);
    RecvViewsSnoc(log1, Sent(a, AckOfSyn(p)), a);
    ReceiversElsewhere(n, m, a);
  }

  lemma OnDataViews(n: Node, a: Addr, p: Pkg)
    requires FromOk(n, a)
    ensures IncomingOf(OnData(n, a, p), a) == InData(IncomingOf(n, a), a, p)
    ensures OtherPeersSame(n, OnData(n, a, p), a)
  {
    hide RecvView, Key, Absorb;
    var m := OnData(n, a, p);
    if Key(a) in n.receivers {
      var rs := n.receivers[Key(a)];
      var x := Absorb(Assembly(rs.sessions, [], false), p);
      var log1 := if x.overrun then n.log + [Overrun(a)] else n.log;
      var log2 := if x.delivered == [] then log1 else log1 + [Delivered(a, x.delivered[0])];
      RecvViewsSnoc(n.log, Overrun(a), a);
      if x.delivered != [] {
        RecvViewsSnoc(log1, Delivered(a, x.delivered[0]), a);
      }
      RecvViewsSnoc(log2, Sent(a, AckOfData(p)), a);
      RecvViewsSnoc(n.log, Sent(a, AckOfData(p)), a);
      ReceiversElsewhere(n, m, a);
    }
  }
}
