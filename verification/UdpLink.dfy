/**
 Both ends of one link: what the receiver at b knows about a never runs ahead of what a sent
 to b, and what a holds as acknowledged b has really accepted.
 */
module UdpLink {
  import opened UdpTypes
  import opened UdpStream
  import opened UdpNode
  import opened UdpSender
  import opened UdpSteps
  import opened UdpReceiver

  // ---------- the invariant ----------

  /** Position k of the stream is the number of fragments up to and including number q. */
  function Position(q: int): int {
    q - FIRST_SEQ
  }

  /** p acknowledges the SYN, or a packet of the stream whose message, if it ends one, some
      incarnation had delivered; the only incarnation is already past it. */
  ghost predicate AckOk(p: Pkg, stream: seq<Pkg>, upto: nat, log: seq<Event>, next: nat) {
    p == AckOfSyn(SYN_PKG) ||
    (&& FIRST_SEQ < p.seqno <= upto && Position(p.seqno) <= |stream|
     && p == AckOfData(Number(stream[Position(p.seqno) - 1], p.seqno))
     && |Rebuild(stream, Position(p.seqno)).delivered| <= Best(log)
     && (Count(log, Incarnation) <= 1 ==> p.seqno < next))
  }

  ghost predicate RepliesOk(log: seq<Event>, stream: seq<Pkg>, upto: nat, next: nat) {
    forall e | e in log :: !e.Overrun? && (e.Sent? ==> AckOk(e.pkg, stream, upto, log, next))
  }

  /** The receiver has accepted the first fragments of the stream, in order, and nothing else. */
  ghost predicate ReceiverOk(rs: Receiver, log: seq<Event>, stream: seq<Pkg>, upto: nat, a: Addr) {
    && rs.fromaddr == a && rs.status != SYN_SENT
    && FIRST_SEQ < rs.expectedSeq <= upto + 1 && Position(rs.expectedSeq) <= |stream| + 1
    && (rs.status == OPENING ==> rs.expectedSeq == FIRST_SEQ + 1)
    && Rebuild(stream, Position(rs.expectedSeq) - 1) == Assembly(rs.sessions, Deliveries(log), false)
  }

  ghost predicate IncomingInv(u: Incoming, stream: seq<Pkg>, upto: nat, msgs: seq<Msg>, a: Addr) {
    match u.receiver
    case None => u.log == []
    case Some(rs) =>
      && ReceiverOk(rs, u.log, stream, upto, a) && RepliesOk(u.log, stream, upto, rs.expectedSeq)
      && AllPrefix(u.log, msgs) && u.log != [] && u.log[0].NewReceiver?
      && Position(upto) <= |stream| && Best(u.log) <= |Rebuild(stream, Position(upto)).delivered|
  }

  /** Every acknowledgement accepted by the sender was sent by the receiver. */
  ghost predicate AcksReal(v: Outgoing, u: Incoming, a: Addr) {
    forall e | e in v.log && e.Acked? :: Sent(a, e.pkg) in u.log
  }

  /** a is the sending address, v its view of the receiver and u the receiver's view of a. */
  ghost predicate LinkInv(v: Outgoing, u: Incoming, a: Addr) {
    && (match v.sender
        case None => u == Incoming(None, [])
        case Some(ss) =>
          |StreamOf(v)| == Position(ss.seqno) + |ss.dataQueue|
          && IncomingInv(u, StreamOf(v), ss.seqno, NonEmpty(Taken(v)), a))
    && AcksReal(v, u, a)
  }

  // ---------- the sender moves ----------

  lemma {:induction false} StreamPrefix(ms: seq<Msg>, ns: seq<Msg>)
    requires ms <= ns
    ensures Stream(ms) <= Stream(ns) && NonEmpty(ms) <= NonEmpty(ns)
  {
    hide Stream, NonEmpty;
    var rest := ns[|ms|..];
    assert ns == ms + rest;
    StreamConcat(ms, rest);
    NonEmptyConcat(ms, rest);
  }

  lemma AckLater(p: Pkg, stream: seq<Pkg>, upto: nat, stream': seq<Pkg>, upto': nat, log: seq<Event>, next: nat)
    requires AckOk(p, stream, upto, log, next) && stream <= stream' && upto <= upto'
    ensures AckOk(p, stream', upto', log, next)
  {
    hide Rebuild, AckOfData, Best, Count;
    if p != AckOfSyn(SYN_PKG) {
      RebuildLocal(stream, stream', Position(p.seqno));
    }
  }

  lemma IncomingLater(u: Incoming, stream: seq<Pkg>, upto: nat, msgs: seq<Msg>, stream': seq<Pkg>, upto': nat,
      msgs': seq<Msg>, a: Addr)
    requires IncomingInv(u, stream, upto, msgs, a) && stream <= stream' && upto <= upto' && msgs <= msgs'
    requires Position(upto') <= |stream'|
    ensures IncomingInv(u, stream', upto', msgs', a)
  {
    hide Rebuild, AckOk, AllPrefix, Deliveries;
    if u.receiver.Some? {
      var rs := u.receiver.value;
      RebuildLocal(stream, stream', Position(rs.expectedSeq) - 1);
      if Position(upto) >= 0 {
        RebuildLocal(stream, stream', Position(upto));
        RebuildMonotone(stream', Position(upto), Position(upto'));
      }
      AllPrefixGrows(u.log, msgs, msgs');
      forall e | e in u.log && e.Sent? ensures AckOk(e.pkg, stream', upto', u.log, rs.expectedSeq) {
        AckLater(e.pkg, stream, upto, stream', upto', u.log, rs.expectedSeq);
      }
    }
  }

  lemma StreamLength(v: Outgoing, b: Addr)
    requires OutgoingInv(v, b) && v.sender.Some?
    ensures |StreamOf(v)| == Position(v.sender.value.seqno) + |v.sender.value.dataQueue|
  {
    hide WindowOk, StreamOf, QueueOk, EventsOk, NumbersOk;
  }

  /** No step of the sender breaks the link, if the acknowledgement it reacts to is real. */
  lemma SenderMoves(v: Outgoing, w: Outgoing, u: Incoming, a: Addr, b: Addr, input: Option<Pkg>)
    requires LinkInv(v, u, a) && OutgoingInv(w, b) && Grows(v, w, input)
    requires input.Some? ==> Sent(a, input.value) in u.log
    ensures LinkInv(w, u, a)
  {
    hide OutgoingInv, IncomingInv, Taken, StreamOf, NonEmpty;
    forall e | e in w.log && e.Acked? ensures Sent(a, e.pkg) in u.log {
      assert AckFrom(e, v.log, input);
    }
    if w.sender.Some? {
      StreamLength(w, b);
      if v.sender.Some? {
        LaterStream(v, w);
        IncomingLater(u, StreamOf(v), v.sender.value.seqno, NonEmpty(Taken(v)), StreamOf(w), w.sender.value.seqno,
            NonEmpty(Taken(w)), a);
      } else {
        NothingYet(u, StreamOf(w), w.sender.value.seqno, NonEmpty(Taken(w)), a);
      }
    }
  }

  lemma LaterStream(v: Outgoing, w: Outgoing)
    requires Taken(v) <= Taken(w)
    ensures StreamOf(v) <= StreamOf(w) && NonEmpty(Taken(v)) <= NonEmpty(Taken(w))
  {
    hide Taken;
    StreamPrefix(Taken(v), Taken(w));
  }

  lemma NothingYet(u: Incoming, stream: seq<Pkg>, upto: nat, msgs: seq<Msg>, a: Addr)
    requires u == Incoming(None, [])
    ensures IncomingInv(u, stream, upto, msgs, a)
  {
  }

  // ---------- the receiver moves ----------

  lemma AckStays(p: Pkg, stream: seq<Pkg>, upto: nat, log: seq<Event>, next: nat, e: Event, next': nat)
    requires AckOk(p, stream, upto, log, next)
    requires Count(log + [e], Incarnation) <= 1 ==> next <= next'
    ensures AckOk(p, stream, upto, log + [e], next')
  {
    hide Rebuild, AckOfData, Best;
    BestSnoc(log, e);
    CountSnoc(log, e, Incarnation);
  }

  /** One more event in the receiver's log. */
  lemma RepliesSnoc(log: seq<Event>, stream: seq<Pkg>, upto: nat, next: nat, e: Event, next': nat)
    requires RepliesOk(log, stream, upto, next) && !e.Overrun?
    requires Count(log + [e], Incarnation) <= 1 ==> next <= next'
    requires e.Sent? ==> AckOk(e.pkg, stream, upto, log + [e], next')
    ensures RepliesOk(log + [e], stream, upto, next')
  {
    hide AckOk;
    forall x | x in log + [e] && x.Sent? ensures AckOk(x.pkg, stream, upto, log + [e], next') {
      if x != e {
        assert x in log;
        AckStays(x.pkg, stream, upto, log, next, e, next');
      }
    }
  }

  lemma AcksStay(v: Outgoing, u: Incoming, u': Incoming, a: Addr)
    requires AcksReal(v, u, a) && forall e | e in u.log :: e in u'.log
    ensures AcksReal(v, u', a)
  {
  }

  /** A log event that neither delivers nor starts an incarnation. */
  predicate Plain(e: Event) {
    !e.NewReceiver? && !e.Delivered? && !e.Overrun?
  }

  lemma PlainEvent(log: seq<Event>, e: Event, msgs: seq<Msg>)
    requires Plain(e) && AllPrefix(log, msgs)
    ensures Deliveries(log + [e]) == Deliveries(log) && AllPrefix(log + [e], msgs)
    ensures Count(log + [e], Incarnation) == Count(log, Incarnation) && Best(log + [e]) == Best(log)
  {
    hide AllPrefix, Deliveries, Best;
    BestSnoc(log, e);
    BestCovers(log);
    DeliveriesSnoc(log, e);
    CountSnoc(log, e, Incarnation);
    AllPrefixHolds(log, msgs);
    AllPrefixSnoc(log, e, msgs);
  }

  lemma AllPrefixHolds(log: seq<Event>, msgs: seq<Msg>)
    requires AllPrefix(log, msgs)
    ensures Deliveries(log) <= msgs
  {
  }

  /** A new incarnation starts with nothing. */
  lemma NewIncarnation(log: seq<Event>, stream: seq<Pkg>, upto: nat, next: nat, msgs: seq<Msg>, a: Addr)
    requires AllPrefix(log, msgs) && RepliesOk(log, stream, upto, next)
    requires log == [] || log[0].NewReceiver?
    ensures RepliesOk(log + [NewReceiver(a)], stream, upto, FIRST_SEQ + 1)
    ensures AllPrefix(log + [NewReceiver(a)], msgs) && Deliveries(log + [NewReceiver(a)]) == []
    ensures Best(log + [NewReceiver(a)]) == Best(log)
  {
    hide AllPrefix, Deliveries, Best;
    var e := NewReceiver(a);
    BestSnoc(log, e);
    DeliveriesSnoc(log, e);
    AllPrefixSnoc(log, e, msgs);
    CountSnoc(log, e, Incarnation);
    if log == [] {
      assert RepliesOk(log, stream, upto, FIRST_SEQ + 1);
      RepliesSnoc(log, stream, upto, FIRST_SEQ + 1, e, FIRST_SEQ + 1);
    } else {
      FirstCounts(log);
      RepliesSnoc(log, stream, upto, next, e, FIRST_SEQ + 1);
    }
  }

  lemma FreshLog(log: seq<Event>, stream: seq<Pkg>, upto: nat, next: nat, msgs: seq<Msg>, a: Addr)
    requires AllPrefix(log, msgs) && RepliesOk(log, stream, upto, next)
    requires log == [] || log[0].NewReceiver?
    ensures var log' := log + [NewReceiver(a)] + [Sent(a, AckOfSyn(SYN_PKG))];
            && RepliesOk(log', stream, upto, FIRST_SEQ + 1) && AllPrefix(log', msgs) && Deliveries(log') == []
            && Best(log') == Best(log)
  {
    hide AllPrefix, Deliveries, AckOk;
    var log1, e := log + [NewReceiver(a)], Sent(a, AckOfSyn(SYN_PKG));
    NewIncarnation(log, stream, upto, next, msgs, a);
    PlainEvent(log1, e, msgs);
    SynAckOk(stream, upto, log1 + [e], FIRST_SEQ + 1);
    RepliesSnoc(log1, stream, upto, FIRST_SEQ + 1, e, FIRST_SEQ + 1);
  }

  lemma SynFresh(u: Incoming, stream: seq<Pkg>, upto: nat, msgs: seq<Msg>, a: Addr)
    requires IncomingInv(u, stream, upto, msgs, a) && FIRST_SEQ <= upto && Position(upto) <= |stream|
    requires u.receiver.Some? ==> u.receiver.value.status != OPENING
    ensures IncomingInv(InSyn(u, a, SYN_PKG), stream, upto, msgs, a)
  {
    hide AllPrefix, Deliveries, Rebuild, RepliesOk, Best;
    NothingPrefix(msgs);
    NoReplies(stream, upto);
    FreshLog(u.log, stream, upto, if u.receiver.Some? then u.receiver.value.expectedSeq else 0, msgs, a);
    RebuildNone(stream);
  }

  lemma NoReplies(stream: seq<Pkg>, upto: nat)
    ensures RepliesOk([], stream, upto, 0) && Best([]) == 0
  {
  }

  lemma NothingPrefix(msgs: seq<Msg>)
    ensures AllPrefix([], msgs)
  {
  }

  lemma SynAckOk(stream: seq<Pkg>, upto: nat, log: seq<Event>, next: nat)
    ensures AckOk(AckOfSyn(SYN_PKG), stream, upto, log, next)
  {
  }

  lemma SynAgain(u: Incoming, stream: seq<Pkg>, upto: nat, msgs: seq<Msg>, a: Addr)
    requires IncomingInv(u, stream, upto, msgs, a) && FIRST_SEQ <= upto
    requires u.receiver.Some? && u.receiver.value.status == OPENING
    ensures IncomingInv(InSyn(u, a, SYN_PKG), stream, upto, msgs, a)
  {
    hide AllPrefix, Deliveries, Rebuild, AckOk;
    var e := Sent(a, AckOfSyn(SYN_PKG));
    PlainEvent(u.log, e, msgs);
    SynAckOk(stream, upto, u.log + [e], FIRST_SEQ + 1);
    RepliesSnoc(u.log, stream, upto, FIRST_SEQ + 1, e, FIRST_SEQ + 1);
  }

  // ---------- data ----------

  /** Acknowledging number q when the current incarnation is past it. */
  lemma DataAckOk(stream: seq<Pkg>, upto: nat, log: seq<Event>, next: nat, q: nat)
    requires FIRST_SEQ < q < next && q <= upto && Position(next) <= |stream| + 1
    requires Rebuild(stream, Position(next) - 1).delivered == Deliveries(log)
    ensures AckOk(AckOfData(Number(stream[Position(q) - 1], q)), stream, upto, log, next)
  {
    hide Rebuild;
    RebuildMonotone(stream, Position(q), Position(next) - 1);
    BestCovers(log);
  }

  lemma DataAgain(u: Incoming, stream: seq<Pkg>, upto: nat, msgs: seq<Msg>, a: Addr, p: Pkg)
    requires IncomingInv(u, stream, upto, msgs, a) && u.receiver.Some? && Numbered(p, upto, stream)
    requires p.seqno < u.receiver.value.expectedSeq
    ensures IncomingInv(u.(log := u.log + [Sent(a, AckOfData(p))]), stream, upto, msgs, a)
  {
    hide AllPrefix, Deliveries, Rebuild, AckOk, Number, AckOfData, Best;
    var next, e := u.receiver.value.expectedSeq, Sent(a, AckOfData(p));
    AckType(p);
    PlainEvent(u.log, e, msgs);
    DataAckOk(stream, upto, u.log + [e], next, p.seqno);
    RepliesSnoc(u.log, stream, upto, next, e, next);
  }

  lemma AckType(p: Pkg)
    ensures AckOfData(p).ptype == ACK
  {
  }

  /** Accepting a packet adds what it delivers to what was delivered before. */
  lemma AbsorbOnTop(sessions: map<int, Session>, d: seq<Msg>, p: Pkg)
    ensures var x := Absorb(Assembly(sessions, [], false), p);
            && Absorb(Assembly(sessions, d, false), p) == Assembly(x.sessions, d + x.delivered, x.overrun)
            && |x.delivered| <= 1
  {
    assert d + [] == d;
  }

  lemma NextAssembly(rs: Receiver, log: seq<Event>, stream: seq<Pkg>, p: Pkg)
    requires FIRST_SEQ < rs.expectedSeq == p.seqno && Position(p.seqno) <= |stream|
              && p == Number(stream[Position(p.seqno) - 1], p.seqno)
    requires Rebuild(stream, Position(rs.expectedSeq) - 1) == Assembly(rs.sessions, Deliveries(log), false)
    ensures var x := Absorb(Assembly(rs.sessions, [], false), p);
            && Rebuild(stream, Position(p.seqno)) == Assembly(x.sessions, Deliveries(log) + x.delivered, x.overrun)
            && |x.delivered| <= 1
  {
    hide Absorb, Deliveries;
    AbsorbIgnoresNumber(Assembly(rs.sessions, Deliveries(log), false), stream[Position(p.seqno) - 1], DATA, p.seqno);
    AbsorbOnTop(rs.sessions, Deliveries(log), p);
  }

  /** Deliver x's message, if there is one. */
  lemma DeliverOne(log: seq<Event>, stream: seq<Pkg>, upto: nat, next: nat, msgs: seq<Msg>, a: Addr, d: seq<Msg>)
    requires RepliesOk(log, stream, upto, next) && AllPrefix(log, msgs) && |d| <= 1 && Deliveries(log) + d <= msgs
    ensures var log' := if d == [] then log else log + [Delivered(a, d[0])];
            && RepliesOk(log', stream, upto, next) && AllPrefix(log', msgs) && Deliveries(log') == Deliveries(log) + d
            && Count(log', Incarnation) == Count(log, Incarnation)
            && (Best(log') == Best(log) || Best(log') == |Deliveries(log) + d|)
  {
    hide AllPrefix, Deliveries, AckOk, Best;
    if d == [] {
      assert Deliveries(log) + d == Deliveries(log);
    } else {
      var e := Delivered(a, d[0]);
      assert [d[0]] == d;
      DeliveriesSnoc(log, e);
      CountSnoc(log, e, Incarnation);
      BestSnoc(log, e);
      AllPrefixSnoc(log, e, msgs);
      RepliesSnoc(log, stream, upto, next, e, next);
    }
  }

  /** The next packet of the stream is accepted: no buffer overruns, and what has been delivered
      is still a prefix of the messages. */
  lemma DataAccepted(u: Incoming, ms: seq<Msg>, upto: nat, a: Addr, p: Pkg)
    requires IncomingInv(u, Stream(ms), upto, NonEmpty(ms), a) && u.receiver.Some? && Numbered(p, upto, Stream(ms))
    requires p.seqno == u.receiver.value.expectedSeq < INT_MAX
    ensures IncomingInv(InAccept(u, a, p), Stream(ms), upto, NonEmpty(ms), a)
  {
    hide AllPrefix, Deliveries, Rebuild, RepliesOk, Absorb, Number, AckOfData, Stream, NonEmpty, Best;
    var rs, stream, q := u.receiver.value, Stream(ms), p.seqno;
    var x := Absorb(Assembly(rs.sessions, [], false), p);
    NextAssembly(rs, u.log, stream, p);
    RebuildPrefix(ms, Position(q));
    RebuildMonotone(stream, Position(q), Position(upto));
    DeliverOne(u.log, stream, upto, q, NonEmpty(ms), a, x.delivered);
    var log2 := if x.delivered == [] then u.log else u.log + [Delivered(a, x.delivered[0])];
    AcceptedLog(log2, stream, upto, q, NonEmpty(ms), a, p);
    assert (q + 1) % 0x1_0000_0000 == q + 1;
  }

  /** Acknowledging the packet just accepted. */
  lemma AcceptedLog(log: seq<Event>, stream: seq<Pkg>, upto: nat, q: nat, msgs: seq<Msg>, a: Addr, p: Pkg)
    requires RepliesOk(log, stream, upto, q) && AllPrefix(log, msgs) && Numbered(p, upto, stream) && p.seqno == q
    requires Rebuild(stream, Position(q)).delivered == Deliveries(log)
    ensures var log' := log + [Sent(a, AckOfData(p))];
            && RepliesOk(log', stream, upto, q + 1) && AllPrefix(log', msgs) && Deliveries(log') == Deliveries(log)
            && Best(log') == Best(log)
  {
    hide AllPrefix, Deliveries, Rebuild, AckOk, Number, AckOfData;
    var e := Sent(a, AckOfData(p));
    AckType(p);
    PlainEvent(log, e, msgs);
    DataAckOk(stream, upto, log + [e], q + 1, q);
    RepliesSnoc(log, stream, upto, q, e, q + 1);
  }

  /** Any packet of the stream, new or old, keeps the receiver's invariant. */
  lemma DataKeeps(u: Incoming, ms: seq<Msg>, upto: nat, a: Addr, p: Pkg)
    requires IncomingInv(u, Stream(ms), upto, NonEmpty(ms), a) && Numbered(p, upto, Stream(ms)) && upto < INT_MAX - 1
    ensures IncomingInv(InData(u, a, p), Stream(ms), upto, NonEmpty(ms), a)
  {
    hide AllPrefix, Deliveries, Rebuild, RepliesOk, Number, AckOfData, Stream, NonEmpty, InAccept;
    if u.receiver.Some? {
      if p.seqno == u.receiver.value.expectedSeq {
        DataAccepted(u, ms, upto, a, p);
      } else if p.seqno < u.receiver.value.expectedSeq {
        DataAgain(u, Stream(ms), upto, NonEmpty(ms), a, p);
      }
    }
  }

  // ---------- any packet off the network ----------

  /** What a receiver does with a packet that is not an acknowledgement. */
  function InPacket(u: Incoming, a: Addr, p: Pkg): Incoming {
    if p.ptype == SYN then InSyn(u, a, p) else if p.ptype == DATA then InData(u, a, p) else u
  }

  lemma {:induction false} InPacketLogs(u: Incoming, a: Addr, p: Pkg)
    ensures forall e | e in u.log :: e in InPacket(u, a, p).log
  {
    hide Absorb;
  }

  /** Every packet that a really sent keeps the link, however late and however often it arrives. */
  lemma ReceiverMoves(v: Outgoing, u: Incoming, a: Addr, b: Addr, p: Pkg)
    requires LinkInv(v, u, a) && OutgoingInv(v, b) && Sent(b, p) in v.log
    ensures LinkInv(v, InPacket(u, a, p), a)
    ensures p.ptype in {SYN, DATA}
  {
    hide IncomingInv, Taken, Stream, NonEmpty, InSyn, InData, WindowOk, SynOk, NumbersOk, QueueOk;
    assert v.sender.Some?;
    var ss := v.sender.value;
    assert EventOk(Sent(b, p), ss.seqno, StreamOf(v));
    InPacketLogs(u, a, p);
    AcksStay(v, u, InPacket(u, a, p), a);
    if p == SYN_PKG {
      SynKeeps(u, StreamOf(v), ss.seqno, NonEmpty(Taken(v)), a);
    } else {
      ToAddr(v, b);
      DataKeeps(u, Taken(v), ss.seqno, a, p);
    }
  }

  lemma SynKeeps(u: Incoming, stream: seq<Pkg>, upto: nat, msgs: seq<Msg>, a: Addr)
    requires IncomingInv(u, stream, upto, msgs, a) && FIRST_SEQ <= upto && Position(upto) <= |stream|
    ensures IncomingInv(InSyn(u, a, SYN_PKG), stream, upto, msgs, a)
  {
    hide IncomingInv, InSyn;
    if u.receiver.Some? && u.receiver.value.status == OPENING {
      SynAgain(u, stream, upto, msgs, a);
    } else {
      SynFresh(u, stream, upto, msgs, a);
    }
  }
}
