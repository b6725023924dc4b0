/** What the transport promises, for every run, every moment of it and every pair of engines. */
module UdpTheorems {
  import opened Seqs
  import opened UdpTypes
  import opened UdpStream
  import opened UdpNode
  import opened UdpSender
  import opened UdpSteps
  import opened UdpTimers
  import opened UdpReceiver
  import opened UdpLink
  import opened UdpEngine
  import opened UdpLoop
  import opened UdpWorld

  /** w is a state that some run reaches. */
  ghost predicate Reachable(w: World) {
    exists cfg, ws, acts, i: nat :: Run(cfg, ws, acts) && i < |ws| && ws[i] == w
  }

  lemma ReachableInv(w: World, a: Addr, b: Addr)
    requires Reachable(w)
    ensures NodeInv(w(a)) && OutgoingInv(Out(w, a, b), b) && LinkInv(Out(w, a, b), In(w, a, b), a)
  {
    hide Run, NodeInv, OutgoingInv, LinkInv;
    var cfg, ws, acts, i: nat :| Run(cfg, ws, acts) && i < |ws| && ws[i] == w;
    RunInv(cfg, ws, acts, i);
    LinkAt(w, a, b);
    SenderInvAt(w(a), b);
  }

  /** The messages that a submitted for b, without the empty ones, which have no packets. */
  function SubmittedTo(w: World, a: Addr, b: Addr): seq<Msg> {
    NonEmpty(Submits(SendView(w(a).log, b)))
  }

  lemma TakenAreSubmitted(v: Outgoing, b: Addr)
    requires OutgoingInv(v, b)
    ensures Taken(v) <= Submits(v.log) && NonEmpty(Taken(v)) <= NonEmpty(Submits(v.log))
  {
    hide WindowOk, NumbersOk, EventsOk, Stream, NonEmpty;
    StreamPrefix(Taken(v), Submits(v.log));
  }

  lemma EveryPrefix(w: World, a: Addr, b: Addr)
    requires Reachable(w)
    ensures AllPrefix(In(w, a, b).log, SubmittedTo(w, a, b))
  {
    hide OutgoingInv, RepliesOk, ReceiverOk, Taken, NonEmpty, Submits;
    var v, u := Out(w, a, b), In(w, a, b);
    ReachableInv(w, a, b);
    TakenAreSubmitted(v, b);
    if u.receiver.None? {
      NothingPrefix(SubmittedTo(w, a, b));
    } else {
      AllPrefixGrows(u.log, NonEmpty(Taken(v)), SubmittedTo(w, a, b));
    }
  }

  /** Whatever the network does, each receiver incarnation has at every moment delivered a prefix
      of the non-empty messages submitted, byte for byte and in order. */
  lemma PrefixDelivery(w: World, a: Addr, b: Addr, k: nat)
    requires Reachable(w) && k <= |RecvView(w(b).log, a)|
    ensures Deliveries(RecvView(w(b).log, a)[..k]) <= SubmittedTo(w, a, b)
  {
    hide Reachable, AllPrefix, Deliveries;
    EveryPrefix(w, a, b);
    AllPrefixMeaning(RecvView(w(b).log, a), SubmittedTo(w, a, b));
  }

  /** No receiver ever writes past a session buffer, and it has at most one session open. */
  lemma NoOverrun(w: World, a: Addr, b: Addr)
    requires Reachable(w)
    ensures Overrun(a) !in RecvView(w(b).log, a)
    ensures Key(a) in w(b).receivers ==> |w(b).receivers[Key(a)].sessions| <= 1
  {
    hide Reachable, OutgoingInv, AckOk, AllPrefix, Deliveries, Rebuild, Stream, NonEmpty, Taken;
    var v, u := Out(w, a, b), In(w, a, b);
    ReachableInv(w, a, b);
    if u.receiver.Some? {
      assert u.receiver.value == w(b).receivers[Key(a)];
      RebuildPrefix(Taken(v), Position(u.receiver.value.expectedSeq) - 1);
    }
  }

  /** An incarnation's deliveries are the last ones. */
  lemma {:induction false} DeliveriesSuffix(log: seq<Event>)
    ensures |Deliveries(log)| <= |AllDelivered(log)|
    ensures |Deliveries(log)| == |AllDelivered(log)| ==> Deliveries(log) == AllDelivered(log)
  {
    if log != [] {
      DeliveriesSuffix(log[..|log| - 1]);
    }
  }

  /** With a single incarnation every message is delivered at most once and in order. */
  lemma ExactlyOnce(w: World, a: Addr, b: Addr)
    requires Reachable(w) && Count(RecvView(w(b).log, a), Incarnation) <= 1
    ensures AllDelivered(RecvView(w(b).log, a)) <= SubmittedTo(w, a, b)
  {
    hide Reachable, OutgoingInv, RepliesOk, ReceiverOk, Taken, NonEmpty, Submits, Deliveries, AllDelivered,
        AllPrefix, Count;
    var u := In(w, a, b);
    ReachableInv(w, a, b);
    EveryPrefix(w, a, b);
    AllPrefixHolds(u.log, SubmittedTo(w, a, b));
    if u.receiver.Some? {
      OneIncarnation(u.log);
    } else {
      NothingDelivered();
    }
  }

  lemma NothingDelivered()
    ensures AllDelivered([]) == []
  {
  }

  // ---------- acknowledgements and window ----------

  /** The smallest outstanding number, or the next one to be used. */
  ghost predicate FirstOutstanding(ss: Sender, m: nat) {
    && FIRST_SEQ < m <= ss.seqno + 1
    && (m <= ss.seqno ==> InWindow(ss.window, m))
    && forall q: nat | FIRST_SEQ < q < m :: !InWindow(ss.window, q)
  }

  lemma {:induction false} CountedInLog(log: seq<Event>, q: nat) returns (e: Event)
    requires Count(log, Acknowledged(q)) > 0
    ensures e in log && e.Acked? && e.pkg.seqno == q
  {
    if TagOf(log[|log| - 1]) == Acknowledged(q) {
      e := log[|log| - 1];
    } else {
      FrontLast(log);
      e := CountedInLog(log[..|log| - 1], q);
    }
  }

  /** A number that has left the window was acknowledged by the receiver. */
  lemma LeftWindowAcked(v: Outgoing, u: Incoming, a: Addr, b: Addr, q: nat)
    requires OutgoingInv(v, b) && LinkInv(v, u, a) && v.sender.Some?
    requires FIRST_SEQ < q <= v.sender.value.seqno && !InWindow(v.sender.value.window, q)
    ensures u.receiver.Some? && Position(q) <= |StreamOf(v)|
    ensures |Rebuild(StreamOf(v), Position(q)).delivered| <= Best(u.log)
    ensures Count(u.log, Incarnation) <= 1 ==> q < u.receiver.value.expectedSeq
  {
    hide Count, InWindow, SenderOk, EventsOk, QueueOk, Rebuild, Best, AllPrefix, ReceiverOk, Taken, StreamOf,
        NonEmpty, Number;
    assert NumberOk(v.log, v.sender.value, q);
    var e := CountedInLog(v.log, q);
    assert Sent(a, e.pkg) in u.log;
    assert AckOk(e.pkg, StreamOf(v), v.sender.value.seqno, u.log, u.receiver.value.expectedSeq);
  }

  /** The windows of the two ends fit while the receiver is not reset: no outstanding number is
      more than CONST_WINDOW below expectedSeq, so the receiver never refuses a retransmission as
      too old, and expectedSeq is between the first outstanding number m and m + CONST_WINDOW. */
  lemma WindowsFit(w: World, a: Addr, b: Addr, m: nat)
    requires Reachable(w) && Count(RecvView(w(b).log, a), Incarnation) == 1
    requires Key(b) in w(a).senders && Key(a) in w(b).receivers && FirstOutstanding(w(a).senders[Key(b)], m)
    ensures m <= w(b).receivers[Key(a)].expectedSeq <= m + 5
    ensures forall i | Occupied(w(a).senders[Key(b)].window, i) ::
              w(b).receivers[Key(a)].expectedSeq <= SeqAt(w(a).senders[Key(b)].window, i) + 5
  {
    hide Reachable, Count, InWindow, RepliesOk, AllPrefix, Rebuild, Stream, NonEmpty, Taken, OutgoingInv, Numbered,
        Deliveries, SendView, RecvView;
    var v, u := Out(w, a, b), In(w, a, b);
    var ss, rs := w(a).senders[Key(b)], w(b).receivers[Key(a)];
    ReachableInv(w, a, b);
    assert v.sender == Some(ss) && u.receiver == Some(rs);
    ToAddr(v, b);
    if m <= ss.seqno {
      InWindowMeaning(ss.window, m);
    }
    if FIRST_SEQ < m - 1 {
      LeftWindowAcked(v, u, a, b, m - 1);
    }
  }

  /** While the receiver is not reset, it answers every packet of an outstanding number that is not
      beyond expectedSeq, so a lost acknowledgement is always made up for. */
  lemma RetransmissionAnswered(w: World, a: Addr, b: Addr, i: nat, m: nat)
    requires Reachable(w) && Count(RecvView(w(b).log, a), Incarnation) == 1
    requires Key(b) in w(a).senders && Key(a) in w(b).receivers && FirstOutstanding(w(a).senders[Key(b)], m)
    requires Occupied(w(a).senders[Key(b)].window, i)
    requires SeqAt(w(a).senders[Key(b)].window, i) <= w(b).receivers[Key(a)].expectedSeq
    ensures var p := w(a).senders[Key(b)].window[i].pkg.value;
            var log := RecvView(OnData(w(b), a, p).log, a);
            log != [] && log[|log| - 1] == Sent(a, AckOfData(p))
  {
    hide Reachable, Count, RepliesOk, AllPrefix, Rebuild, Stream, NonEmpty, Taken, OutgoingInv, Numbered, Deliveries,
        SendView, RecvView, OnData, FirstOutstanding, Absorb, AckOfData;
    var v, u := Out(w, a, b), In(w, a, b);
    var ss, rs := w(a).senders[Key(b)], w(b).receivers[Key(a)];
    var p := ss.window[i].pkg.value;
    ReachableInv(w, a, b);
    assert v.sender == Some(ss) && u.receiver == Some(rs);
    WindowsFit(w, a, b, m);
    ToAddr(v, b);
    assert (rs.expectedSeq - WINDOW) % 0x1_0000_0000 == rs.expectedSeq - WINDOW;
    OnDataViews(w(b), a, p);
  }

  /** EVENT_SESSION_FINISH for number q: raised at most once, and exactly by the acknowledgement of the
      last fragment of a message.  Then the fragments of the first j messages are those up to q, so
      message j - 1 is the one that q ends; it has the session id of the event; and some incarnation
      of the receiver had delivered it and everything before it. */
  lemma FinishedMeansDelivered(w: World, a: Addr, b: Addr, p: Pkg, ended: bool) returns (j: nat, k: nat)
    requires Reachable(w) && Acked(b, p, ended) in SendView(w(a).log, b)
    ensures Count(SendView(w(a).log, b), Acknowledged(p.seqno)) == 1
    ensures k <= |RecvView(w(b).log, a)| && j <= |SubmittedTo(w, a, b)|
    ensures SubmittedTo(w, a, b)[..j] <= Deliveries(RecvView(w(b).log, a)[..k])
    ensures FIRST_SEQ < p.seqno && Position(p.seqno) <= |StreamOf(Out(w, a, b))|
    ensures ended <==> IsLast(StreamOf(Out(w, a, b))[Position(p.seqno) - 1])
    ensures ended ==>
              && 0 < j && SubmittedTo(w, a, b)[j - 1].sid == p.sid
              && Stream(SubmittedTo(w, a, b)[..j]) == StreamOf(Out(w, a, b))[..Position(p.seqno)]
  {
    hide Reachable, OutgoingInv, Count, Taken, NonEmpty, Submits, Stream, SendView, RecvView, Deliveries, Best, Rebuild,
        AllPrefix, RepliesOk, ReceiverOk, IncomingInv;
    var v, u, q := Out(w, a, b), In(w, a, b), p.seqno;
    ReachableInv(w, a, b);
    RealAck(v, u, a, b, p, ended);
    var d := Rebuild(StreamOf(v), Position(q)).delivered;
    j := |d|;
    LastFragmentDelivers(Taken(v), Position(q) - 1);
    RebuildPrefix(Taken(v), Position(q));
    TakenAreSubmitted(v, b);
    assert SubmittedTo(w, a, b)[..j] == d;
    BestReached(u.log);
    k :| 0 <= k <= |u.log| && |Deliveries(u.log[..k])| == Best(u.log);
    PrefixDelivery(w, a, b, k);
  }

  lemma {:induction false} MemberCounted(log: seq<Event>, e: Event)
    requires e in log
    ensures Count(log, TagOf(e)) > 0
  {
    if log[|log| - 1] != e {
      FrontLast(log);
      MemberCounted(log[..|log| - 1], e);
    }
  }

  /** An accepted acknowledgement acknowledges a packet of the stream, for the first time. */
  lemma RealAck(v: Outgoing, u: Incoming, a: Addr, b: Addr, p: Pkg, ended: bool)
    requires OutgoingInv(v, b) && LinkInv(v, u, a) && Acked(b, p, ended) in v.log
    ensures Count(v.log, Acknowledged(p.seqno)) == 1 && FIRST_SEQ < p.seqno && Position(p.seqno) <= |StreamOf(v)|
    ensures |Rebuild(StreamOf(v), Position(p.seqno)).delivered| <= Best(u.log)
    ensures ended <==> IsLast(StreamOf(v)[Position(p.seqno) - 1])
    ensures StreamOf(v)[Position(p.seqno) - 1].sid == p.sid
  {
    hide Count, Taken, StreamOf, QueueOk, SenderOk, Numbered, InWindow, Rebuild, Best, AllPrefix, ReceiverOk, NonEmpty;
    MemberCounted(v.log, Acked(b, p, ended));
    assert v.sender.Some?;
    var ss := v.sender.value;
    assert EventOk(Acked(b, p, ended), ss.seqno, StreamOf(v));
    assert NumberOk(v.log, ss, p.seqno);
    assert Sent(a, p) in u.log;
    assert AckOk(p, StreamOf(v), ss.seqno, u.log, u.receiver.value.expectedSeq);
  }

  /** Once nothing is queued and every slot is free again, some incarnation of the receiver had
      delivered every message submitted. */
  lemma IdleMeansDelivered(w: World, a: Addr, b: Addr) returns (k: nat)
    requires Reachable(w) && Key(b) in w(a).senders && Pending(w(a).sendQueue, b) == []
    requires w(a).senders[Key(b)].dataQueue == [] && forall i :: !Occupied(w(a).senders[Key(b)].window, i)
    ensures k <= |RecvView(w(b).log, a)| && Deliveries(RecvView(w(b).log, a)[..k]) == SubmittedTo(w, a, b)
  {
    hide Reachable, OutgoingInv, Taken, NonEmpty, Submits, Stream, SendView, RecvView, Deliveries, Best, Rebuild,
        AllPrefix, RepliesOk, ReceiverOk, IncomingInv;
    var v, u := Out(w, a, b), In(w, a, b);
    var q := v.sender.value.seqno;
    ReachableInv(w, a, b);
    AllTaken(v, b);
    ToAddr(v, b);
    RebuildStream(Taken(v));
    if FIRST_SEQ < q {
      InWindowMeaning(v.sender.value.window, q);
      LeftWindowAcked(v, u, a, b, q);
    } else {
      RebuildNone(StreamOf(v));
    }
    BestReached(u.log);
    k :| 0 <= k <= |u.log| && |Deliveries(u.log[..k])| == Best(u.log);
    PrefixDelivery(w, a, b, k);
  }

  lemma AllTaken(v: Outgoing, b: Addr)
    requires OutgoingInv(v, b) && v.pending == []
    ensures Taken(v) == Submits(v.log)
  {
    hide SenderOk, NumbersOk, EventsOk;
  }

  // ---------- the sender ----------

  /** The occupied slots hold distinct numbers that span at most CONST_WINDOW - 1, and every number
      used so far is in a slot or, just once, acknowledged. */
  lemma WindowInvariant(w: World, a: Addr, b: Addr, q: nat)
    requires Reachable(w) && Key(b) in w(a).senders
    ensures var ss, log := w(a).senders[Key(b)], SendView(w(a).log, b);
            && |ss.window| == 5 && Distinct(ss.window)
            && (forall i | Occupied(ss.window, i) ::
                  100000 < SeqAt(ss.window, i) <= ss.seqno <= SeqAt(ss.window, i) + 4)
            && (100000 < q <= ss.seqno ==> Count(log, Acknowledged(q)) == if InWindow(ss.window, q) then 0 else 1)
  {
    hide Reachable, LinkInv, NodeInv, Count, Taken, EventsOk, InWindow, Numbered, SendView, QueueOk;
    var v := Out(w, a, b);
    var ss := w(a).senders[Key(b)];
    ReachableInv(w, a, b);
    assert v.sender == Some(ss);
    forall i | Occupied(ss.window, i) ensures FIRST_SEQ < SeqAt(ss.window, i) <= ss.seqno {
      NumberedBounds(ss.window[i].pkg.value, ss.seqno, StreamOf(v));
    }
    assert NumberOk(v.log, ss, q);
  }

  /** Every packet ever sent to b is the SYN or an acknowledgement, or number q carries the q-th
      fragment of everything submitted: one fragment for ever. */
  lemma NumberBoundForEver(w: World, a: Addr, b: Addr, p: Pkg)
    requires Reachable(w) && Sent(b, p) in w(a).log && p.ptype != ACK
    ensures (p.ptype == SYN && p.seqno == 100000) ||
            (&& 100000 < p.seqno <= 100000 + |Stream(Submits(SendView(w(a).log, b)))|
             && p == Stream(Submits(SendView(w(a).log, b)))[p.seqno - 100001].(ptype := DATA, seqno := p.seqno))
  {
    hide Reachable, LinkInv, NodeInv, Taken, NumbersOk, SenderOk, QueueOk, Submits, SendView, Stream, NonEmpty;
    var v := Out(w, a, b);
    ReachableInv(w, a, b);
    InSendView(w(a).log, Sent(b, p), b);
    assert v.sender.Some?;
    assert EventOk(Sent(b, p), v.sender.value.seqno, StreamOf(v));
    TakenAreSubmitted(v, b);
    StreamPrefix(Taken(v), Submits(v.log));
  }

  /** Every number is transmitted at most CONST_MAXRETRANS + 1 times and times out at most once,
      and only after its last transmission. */
  lemma TransmissionsBounded(w: World, a: Addr, b: Addr, q: nat)
    requires Reachable(w)
    ensures var log := SendView(w(a).log, b);
            && Count(log, Transmission(q)) <= 6 && Count(log, GaveUp(q)) <= 1
            && (Count(log, GaveUp(q)) == 1 ==> Count(log, Transmission(q)) == 6)
  {
    hide Reachable, LinkInv, NodeInv, Count, Taken, EventsOk, InWindow, SendView, QueueOk, SenderOk;
    var v := Out(w, a, b);
    ReachableInv(w, a, b);
    if v.sender.Some? {
      assert NumberOk(v.log, v.sender.value, q);
    } else {
      NothingSent(v.log, Transmission(q));
      NothingSent(v.log, GaveUp(q));
    }
  }

  /** ref names a pending SYN or an occupied slot whose number was not given up. */
  ghost predicate Live(n: Node, ref: TimerRef) {
    RefOk(n, ref) && TimerAt(n, ref).pkg.Some? &&
    Count(SendView(n.log, n.senders[ref.key].toaddr), GaveUp(TimerAt(n, ref).pkg.value.seqno)) == 0
  }

  /** The timer list is sorted by timeout, has no duplicates and holds exactly the live events. */
  lemma TimerListExact(w: World, a: Addr)
    requires Reachable(w)
    ensures TimersOk(w(a)) && NoDuplicates(w(a).timers)
    ensures forall ref :: ref in w(a).timers <==> Live(w(a), ref)
    ensures forall i, j | 0 <= i < j < |w(a).timers| ::
              TimerAt(w(a), w(a).timers[i]).timeout <= TimerAt(w(a), w(a).timers[j]).timeout
  {
    hide Reachable, LinkInv, OutgoingInv, Live, DeadlineOf, SendView, Pending;
    var n := w(a);
    ReachableInv(w, a, a);
    InvParts(n);
    forall ref: TimerRef ensures DeadlineOf(n, ref).Some? <==> Live(n, ref) {
      LiveHasDeadline(n, ref);
    }
  }

  lemma LiveHasDeadline(n: Node, ref: TimerRef)
    requires KeysOk(n)
    ensures DeadlineOf(n, ref).Some? <==> Live(n, ref)
  {
    hide Count, SendView, Pending;
  }

  /** In every run, an iteration of loop() returns -1 exactly if it reads a packet that it answers and
      the sendto of the answer fails: the error exits of processTimeout, and those of sendPackage that
      it reaches, are dead. */
  lemma LoopReturnsIff(cfg: Config, ws: seq<World>, acts: seq<Action>, i: nat)
    requires Run(cfg, ws, acts) && i < |acts| && acts[i].Loop?
    ensures var clk, n, input := cfg.clk(acts[i].at), ws[i](acts[i].at), acts[i].input;
            && TimersOk(n)
            && LoopStep(clk, n, input).1 ==
               if !Fires(clk, n) && input.Packet? && input.sent < 0 && Acknowledges(n, input.from, input.pkg)
               then -1 else 0
  {
    hide WorldInv, LoopStep, Fires, Acknowledges;
    RunInv(cfg, ws, acts, i);
    LinkAt(ws[i], acts[i].at, acts[i].at);
    LoopStepReturns(cfg.clk(acts[i].at), ws[i](acts[i].at), acts[i].input);
  }

  // ---------- peers do not disturb each other ----------

  lemma OnAckElsewhere(n: Node, from: Addr, p: Pkg, c: Addr)
    requires c != from
    ensures OutgoingOf(OnAck(n, from, p), c) == OutgoingOf(n, c) && IncomingOf(OnAck(n, from, p), c) == IncomingOf(n, c)
  {
    hide SlotBySeq, SendView, RecvView, RemoveFirst, Key;
    KeyInjective(c, from);
    var m := OnAck(n, from, p);
    if m.log != n.log {
      var e := m.log[|n.log|];
      assert m.log == n.log + [e];
      SendViewSnoc(n.log, e, c);
      RecvViewSnoc(n.log, e, c);
    }
  }

  /** A packet from one peer leaves the Sender and the Receiver of every other peer, and all that
      was sent to it or heard from it, as they were. */
  lemma PeersApart(n: Node, from: Addr, p: Pkg, c: Addr)
    requires FromOk(n, from) && c != from
    ensures OutgoingOf(ProcessReceive(n, from, p), c) == OutgoingOf(n, c)
    ensures IncomingOf(ProcessReceive(n, from, p), c) == IncomingOf(n, c)
  {
    hide OnSyn, OnData, OnFin, OnAck, IncomingOf, SendView, Pending, FromOk;
    OnSynViews(n, from, p);
    OnDataViews(n, from, p);
    OnFinElsewhere(n, from, p, c);
    OnAckElsewhere(n, from, p, c);
    OnSynReceives(n, from, p);
    OnDataReceives(n, from, p);
    OnFinReceives(n, from, p);
  }

  lemma OnFinElsewhere(n: Node, from: Addr, p: Pkg, c: Addr)
    requires FromOk(n, from) && c != from
    ensures IncomingOf(OnFin(n, from, p), c) == IncomingOf(n, c)
  {
    hide RecvView, Key;
    KeyInjective(c, from);
    RecvViewSnoc(n.log, Sent(from, p.(ptype := ACK)), c);
    RecvViewSnoc(n.log, Sent(from, p.(data := [], ptype := ACK)), c);
  }
}
