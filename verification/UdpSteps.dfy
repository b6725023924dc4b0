/**
 The steps of one sender towards one peer, and the proof that each keeps OutgoingInv and only
 lets the history grow.
 */
module UdpSteps {
  import opened Seqs
  import opened UdpTypes
  import opened UdpStream
  import opened UdpNode
  import opened UdpSender

  // ---------- the steps ----------

  function OutSubmit(v: Outgoing, b: Addr, m: Msg): Outgoing {
    v.(log := v.log + [Submitted(b, m)], pending := v.pending + [m])
  }

  function OutCreate(v: Outgoing, b: Addr, timeout: int): Outgoing {
    v.(sender := Some(NewSender(b).(syn := Timer(timeout, 0, b, Some(SYN_PKG)))), log := v.log + [Sent(b, SYN_PKG)])
  }

  predicate CanTake(v: Outgoing) {
    v.sender.Some? && v.pending != [] && v.sender.value.dataQueue == []
  }

  function OutTake(v: Outgoing): Outgoing
    requires CanTake(v)
  {
    v.(sender := Some(v.sender.value.(dataQueue := Fragments(v.pending[0]))), pending := v.pending[1..])
  }

  /** The next queued fragment with the next number. */
  function NextPkg(ss: Sender): Pkg
    requires ss.dataQueue != []
  {
    Number(ss.dataQueue[0], ss.seqno + 1)
  }

  function Placed(ss: Sender, i: nat, timeout: int): Sender
    requires ss.dataQueue != [] && i < |ss.window|
  {
    ss.(seqno := ss.seqno + 1, dataQueue := ss.dataQueue[1..],
        window := ss.window[i := Timer(timeout, 0, ss.toaddr, Some(NextPkg(ss)))])
  }

  ghost predicate CanTransmit(v: Outgoing, i: nat) {
    && v.sender.Some? && v.sender.value.dataQueue != []
    && i < |v.sender.value.window| && !Occupied(v.sender.value.window, i)
    && forall j | Occupied(v.sender.value.window, j) :: v.sender.value.seqno + 1 < SeqAt(v.sender.value.window, j)
        + WINDOW
  }

  function OutTransmit(v: Outgoing, b: Addr, i: nat, timeout: int): Outgoing
    requires CanTransmit(v, i)
  {
    v.(sender := Some(Placed(v.sender.value, i, timeout)), log := v.log + [Sent(b, NextPkg(v.sender.value))])
  }

  predicate HoldsPkg(v: Outgoing, ref: TimerRef) {
    v.sender.Some? && HasTimer(v.sender.value, ref) && TimerOf(v.sender.value, ref).pkg.Some?
  }

  function PkgOf(v: Outgoing, ref: TimerRef): Pkg
    requires HoldsPkg(v, ref)
  {
    TimerOf(v.sender.value, ref).pkg.value
  }

  function Retried(ss: Sender, ref: TimerRef, timeout: int): Sender
    requires HasTimer(ss, ref)
  {
    var t := TimerOf(ss, ref);
    WithTimer(ss, ref, t.(timeout := timeout, tryCount := t.tryCount + 1))
  }

  predicate CanResend(v: Outgoing, ref: TimerRef) {
    HoldsPkg(v, ref) && TimerOf(v.sender.value, ref).tryCount < MAXRETRANS && Count(v.log, GaveUp(PkgOf(v,
        ref).seqno)) == 0
  }

  function OutResend(v: Outgoing, b: Addr, ref: TimerRef, timeout: int): Outgoing
    requires CanResend(v, ref)
  {
    v.(sender := Some(Retried(v.sender.value, ref, timeout)), log := v.log + [Sent(b, PkgOf(v, ref))])
  }

  predicate CanGiveUp(v: Outgoing, ref: TimerRef) {
    HoldsPkg(v, ref) && TimerOf(v.sender.value, ref).tryCount >= MAXRETRANS && Count(v.log, GaveUp(PkgOf(v,
        ref).seqno)) == 0
  }

  function OutGiveUp(v: Outgoing, b: Addr, ref: TimerRef): Outgoing
    requires CanGiveUp(v, ref)
  {
    v.(log := v.log + [TimedOut(b, PkgOf(v, ref).sid, PkgOf(v, ref).seqno)])
  }

  function OutSynAck(v: Outgoing, b: Addr): Outgoing
    requires v.sender.Some?
  {
    var ss := v.sender.value;
    v.(sender := Some(ss.(status := OPEN, syn := ss.syn.(pkg := None))), log := v.log + [Opened(b)])
  }

  function Freed(ss: Sender, i: nat): Sender
    requires i < |ss.window|
  {
    ss.(window := ss.window[i := ss.window[i].(pkg := None)])
  }

  predicate CanAck(v: Outgoing, i: nat, p: Pkg) {
    v.sender.Some? && Occupied(v.sender.value.window, i) && SeqAt(v.sender.value.window, i) == p.seqno
  }

  function AckEvent(b: Addr, p: Pkg): Event {
    Acked(b, p, p.totallen == p.offset)
  }

  function OutAck(v: Outgoing, b: Addr, i: nat, p: Pkg): Outgoing
    requires CanAck(v, i, p)
  {
    v.(sender := Some(Freed(v.sender.value, i)), log := v.log + [AckEvent(b, p)])
  }

  // ---------- the history only grows ----------

  /** Acknowledgements come from the input. */
  predicate AckFrom(e: Event, log: seq<Event>, input: Option<Pkg>) {
    e.Acked? ==> e in log || input == Some(e.pkg)
  }

  ghost predicate Grows(v: Outgoing, w: Outgoing, input: Option<Pkg>) {
    && v.log <= w.log
    && Taken(v) <= Taken(w)
    && (v.sender.Some? && w.sender.Some? && Taken(w) != Taken(v) ==> |StreamOf(v)| <= w.sender.value.seqno - FIRST_SEQ)
    && (v.sender.Some? ==> w.sender.Some? && v.sender.value.seqno <= w.sender.value.seqno)
    && (forall e | e in w.log :: AckFrom(e, v.log, input))
  }

  lemma GrowsSame(v: Outgoing, input: Option<Pkg>)
    ensures Grows(v, v, input)
  {
  }

  lemma GrowsTrans(v: Outgoing, w: Outgoing, x: Outgoing, i: Option<Pkg>, j: Option<Pkg>)
    requires Grows(v, w, i) && Grows(w, x, j) && (i == None || i == j)
    ensures Grows(v, x, j)
  {
    hide Taken;
    forall e | e in x.log ensures AckFrom(e, v.log, j) {
      assert AckFrom(e, w.log, j);
      if e in w.log {
        assert AckFrom(e, v.log, i);
      }
    }
  }

  // ---------- what steps share ----------

  lemma TakenSame(v: Outgoing, w: Outgoing)
    requires Submits(w.log) == Submits(v.log) && w.pending == v.pending
    ensures Taken(w) == Taken(v) && StreamOf(w) == StreamOf(v) && (QueueOk(v) ==> QueueOk(w))
  {
  }

  lemma NumberedGrows(p: Pkg, upto: nat, stream: seq<Pkg>, upto': nat, stream': seq<Pkg>)
    requires Numbered(p, upto, stream) && upto <= upto' && stream <= stream'
    ensures Numbered(p, upto', stream')
  {
  }

  lemma EventsGrow(log: seq<Event>, e: Event, upto: nat, stream: seq<Pkg>, upto': nat, stream': seq<Pkg>)
    requires EventsOk(log, upto, stream) && upto <= upto' && stream <= stream' && EventOk(e, upto', stream')
    ensures EventsOk(log + [e], upto', stream')
  {
    hide Numbered;
    forall x | x in log + [e] ensures EventOk(x, upto', stream') {
      if x != e {
        assert x in log;
        assert EventOk(x, upto, stream);
        if x.Sent? && x.pkg != SYN_PKG {
          NumberedGrows(x.pkg, upto, stream, upto', stream');
        }
      }
    }
  }

  lemma CountsSnoc(log: seq<Event>, e: Event, q: nat)
    ensures Count(log + [e], Transmission(q)) == Count(log, Transmission(q))
                + if TagOf(e) == Transmission(q) then 1 else 0
    ensures Count(log + [e], GaveUp(q)) == Count(log, GaveUp(q)) + if TagOf(e) == GaveUp(q) then 1 else 0
    ensures Count(log + [e], Acknowledged(q)) == Count(log, Acknowledged(q))
                + if TagOf(e) == Acknowledged(q) then 1 else 0
  {
    CountSnoc(log, e, Transmission(q));
    CountSnoc(log, e, GaveUp(q));
    CountSnoc(log, e, Acknowledged(q));
  }

  lemma GrowsSnoc(v: Outgoing, w: Outgoing, e: Event, input: Option<Pkg>)
    requires w.log == v.log + [e] && Taken(v) == Taken(w)
    requires v.sender.Some? ==> w.sender.Some? && v.sender.value.seqno <= w.sender.value.seqno
    requires e.Acked? ==> input == Some(e.pkg)
    ensures Grows(v, w, input)
  {
    hide Taken;
    forall x | x in w.log ensures AckFrom(x, v.log, input) {
      assert x == e || x in v.log;
    }
  }

  /** The address, bounds and parts of a valid sender. */
  lemma ToAddr(w: Outgoing, b: Addr)
    requires OutgoingInv(w, b) && w.sender.Some?
    ensures w.sender.value.toaddr == b && FIRST_SEQ <= w.sender.value.seqno && w.sender.value.seqno < INT_MAX - 10
    ensures WindowOk(w.sender.value, StreamOf(w)) && SynOk(w.sender.value)
  {
    hide NumbersOk, EventsOk, Numbered, Submits;
    StreamConcat(Taken(w), w.pending);
  }

  // ---------- submission, creation, dequeueing ----------

  /** An event that counts as nothing changes no number. */
  lemma NumbersQuiet(log: seq<Event>, e: Event, ss: Sender)
    requires NumbersOk(log, ss) && TagOf(e) == Other
    ensures NumbersOk(log + [e], ss)
  {
    forall q: nat ensures NumberOk(log + [e], ss, q) {
      assert NumberOk(log, ss, q);
      CountsSnoc(log, e, q);
    }
  }

  lemma TakenTail(ms: seq<Msg>, t: seq<Msg>, p: seq<Msg>, m: Msg)
    requires ms == t + p
    ensures ms + [m] == t + (p + [m])
    ensures (ms + [m])[..|ms + [m]| - |p + [m]|] == t
  {
  }

  lemma SubmitQueue(v: Outgoing, b: Addr, m: Msg)
    requires QueueOk(v) && Numberable(Submits(v.log) + [m])
    ensures QueueOk(OutSubmit(v, b, m)) && Taken(OutSubmit(v, b, m)) == Taken(v)
  {
    hide Numberable;
    SubmitsSnoc(v.log, Submitted(b, m));
    TakenTail(Submits(v.log), Taken(v), v.pending, m);
  }

  lemma SubmitKeeps(v: Outgoing, b: Addr, m: Msg)
    requires OutgoingInv(v, b) && Numberable(Submits(v.log) + [m])
    ensures OutgoingInv(OutSubmit(v, b, m), b) && Grows(v, OutSubmit(v, b, m), None)
  {
    hide SenderOk, NumbersOk, EventsOk, Numbered, Numberable, Taken, QueueOk;
    var w, e := OutSubmit(v, b, m), Submitted(b, m);
    SubmitQueue(v, b, m);
    GrowsSnoc(v, w, e, None);
    if v.sender.Some? {
      var ss := v.sender.value;
      EventsGrow(v.log, e, ss.seqno, StreamOf(v), ss.seqno, StreamOf(v));
      NumbersQuiet(v.log, e, ss);
    }
  }

  lemma {:induction false} NothingSent(log: seq<Event>, t: Tag)
    requires forall e | e in log :: e.Submitted?
    requires t != Other
    ensures Count(log, t) == 0
  {
    if log != [] {
      FrontLast(log);
      NothingSent(log[..|log| - 1], t);
    }
  }

  lemma NumbersCreated(log: seq<Event>, b: Addr, ss: Sender)
    requires forall e | e in log :: e.Submitted?
    requires ss.seqno == FIRST_SEQ && ss.syn.tryCount == 0 && forall i :: !Occupied(ss.window, i)
    ensures NumbersOk(log + [Sent(b, SYN_PKG)], ss)
  {
    forall q: nat ensures NumberOk(log + [Sent(b, SYN_PKG)], ss, q) {
      CountsSnoc(log, Sent(b, SYN_PKG), q);
      NothingSent(log, Transmission(q));
      NothingSent(log, GaveUp(q));
      NothingSent(log, Acknowledged(q));
    }
  }

  lemma CreateKeeps(v: Outgoing, b: Addr, timeout: int)
    requires OutgoingInv(v, b) && v.sender.None?
    ensures OutgoingInv(OutCreate(v, b, timeout), b) && Grows(v, OutCreate(v, b, timeout), None)
  {
    hide NumbersOk, Taken, QueueOk, SenderOk, EventsOk;
    var w, e := OutCreate(v, b, timeout), Sent(b, SYN_PKG);
    SubmitsSnoc(v.log, e);
    TakenSame(v, w);
    GrowsSnoc(v, w, e, None);
    CreatedSender(b, timeout);
    NothingBefore(v.log, StreamOf(v));
    EventsGrow(v.log, e, FIRST_SEQ, StreamOf(v), FIRST_SEQ, StreamOf(v));
    NumbersCreated(v.log, b, w.sender.value);
  }

  lemma CreatedSender(b: Addr, timeout: int)
    ensures SenderOk(NewSender(b).(syn := Timer(timeout, 0, b, Some(SYN_PKG))), [], b)
  {
  }

  lemma NothingBefore(log: seq<Event>, stream: seq<Pkg>)
    requires forall e | e in log :: e.Submitted?
    ensures EventsOk(log, FIRST_SEQ, stream)
  {
  }

  lemma TakenHead(ms: seq<Msg>, t: seq<Msg>, p: seq<Msg>)
    requires ms == t + p && p != []
    ensures ms == (t + [p[0]]) + p[1..]
    ensures ms[..|ms| - |p[1..]|] == t + [p[0]]
  {
  }

  lemma TakeExtends(v: Outgoing)
    requires QueueOk(v) && CanTake(v)
    ensures Taken(OutTake(v)) == Taken(v) + [v.pending[0]] && QueueOk(OutTake(v))
    ensures StreamOf(OutTake(v)) == StreamOf(v) + Fragments(v.pending[0])
  {
    hide Numberable, Stream, Fragments;
    TakenHead(Submits(v.log), Taken(v), v.pending);
    StreamSnoc(Taken(v), v.pending[0]);
  }

  lemma WindowGrows(ss: Sender, stream: seq<Pkg>, ss': Sender, stream': seq<Pkg>)
    requires WindowOk(ss, stream) && stream <= stream'
    requires ss'.window == ss.window && ss'.seqno == ss.seqno && ss'.toaddr == ss.toaddr
    ensures WindowOk(ss', stream')
  {
    hide Numbered;
    forall i | Occupied(ss.window, i) ensures Numbered(ss.window[i].pkg.value, ss.seqno, stream') {
      NumberedGrows(ss.window[i].pkg.value, ss.seqno, stream, ss.seqno, stream');
    }
  }

  lemma TakeKeeps(v: Outgoing, b: Addr)
    requires OutgoingInv(v, b) && CanTake(v)
    ensures OutgoingInv(OutTake(v), b) && Grows(v, OutTake(v), None)
  {
    hide NumberOk, Taken, StreamOf, QueueOk, EventOk, WindowOk, Fragments;
    var w := OutTake(v);
    var ss := v.sender.value;
    TakeExtends(v);
    WindowGrows(ss, StreamOf(v), w.sender.value, StreamOf(w));
    TakeAllEvents(v.log, ss.seqno, StreamOf(v), StreamOf(w));
    NumbersSameWindow(v.log, ss, w.sender.value);
  }

  lemma TakeAllEvents(log: seq<Event>, upto: nat, stream: seq<Pkg>, stream': seq<Pkg>)
    requires EventsOk(log, upto, stream) && stream <= stream'
    ensures EventsOk(log, upto, stream')
  {
    forall e | e in log ensures EventOk(e, upto, stream') {
      assert EventOk(e, upto, stream);
    }
  }

  lemma NumbersSameWindow(log: seq<Event>, ss: Sender, ss': Sender)
    requires NumbersOk(log, ss)
    requires ss'.window == ss.window && ss'.seqno == ss.seqno && ss'.syn == ss.syn && ss'.status == ss.status
    ensures NumbersOk(log, ss')
  {
    forall q: nat ensures NumberOk(log, ss', q) {
      assert NumberOk(log, ss, q);
    }
  }

  // ---------- transmission ----------

  /** The first queued fragment is the next one of the stream. */
  lemma NextIsNext(ss: Sender, stream: seq<Pkg>, b: Addr)
    requires SenderOk(ss, stream, b) && ss.dataQueue != []
    ensures Numbered(NextPkg(ss), ss.seqno + 1, stream)
    ensures ss.dataQueue[1..] == stream[ss.seqno + 1 - FIRST_SEQ..]
  {
    assert ss.dataQueue[0] == stream[ss.seqno - FIRST_SEQ];
  }

  /** Slot i of the window replaced, every other one as before. */
  lemma WindowSlot(ss: Sender, stream: seq<Pkg>, ss': Sender, i: nat, t: Timer)
    requires WindowOk(ss, stream) && i < WINDOW
    requires ss'.window == ss.window[i := t] && ss.seqno <= ss'.seqno && ss'.toaddr == ss.toaddr
    requires forall j | Occupied(ss.window, j) && j != i :: ss'.seqno < SeqAt(ss.window, j) + WINDOW
    requires t.pkg.Some? ==>
               && Numbered(t.pkg.value, ss'.seqno, stream) && ss'.seqno < t.pkg.value.seqno + WINDOW
               && t.tryCount <= MAXRETRANS && t.toaddr == ss.toaddr
    requires t.pkg.Some? ==> forall j | Occupied(ss.window, j) && j != i :: SeqAt(ss.window, j) != t.pkg.value.seqno
    ensures WindowOk(ss', stream)
  {
    assert forall j | j != i :: Occupied(ss'.window, j) == Occupied(ss.window, j)
             && (Occupied(ss.window, j) ==> ss'.window[j] == ss.window[j] && SeqAt(ss'.window, j) == SeqAt(ss.window,
                 j));
  }

  lemma TransmitSender(ss: Sender, stream: seq<Pkg>, b: Addr, i: nat, timeout: int)
    requires SenderOk(ss, stream, b) && ss.dataQueue != [] && i < |ss.window| && !Occupied(ss.window, i)
    requires forall j | Occupied(ss.window, j) :: ss.seqno + 1 < SeqAt(ss.window, j) + WINDOW
    ensures SenderOk(Placed(ss, i, timeout), stream, b)
  {
    hide Numbered;
    NextIsNext(ss, stream, b);
    forall j | Occupied(ss.window, j) ensures SeqAt(ss.window, j) <= ss.seqno {
      NumberedBounds(ss.window[j].pkg.value, ss.seqno, stream);
    }
    WindowSlot(ss, stream, Placed(ss, i, timeout), i, Timer(timeout, 0, ss.toaddr, Some(NextPkg(ss))));
  }

  lemma NumberedBounds(p: Pkg, upto: nat, stream: seq<Pkg>)
    requires Numbered(p, upto, stream)
    ensures FIRST_SEQ < p.seqno <= upto && p.seqno - FIRST_SEQ <= |stream| && p.ptype == DATA
  {
  }

  lemma TransmitNumbers(log: seq<Event>, ss: Sender, stream: seq<Pkg>, b: Addr, i: nat, timeout: int)
    requires NumbersOk(log, ss) && WindowOk(ss, stream) && FIRST_SEQ <= ss.seqno
    requires ss.dataQueue != [] && i < |ss.window| && !Occupied(ss.window, i)
    ensures NumbersOk(log + [Sent(b, NextPkg(ss))], Placed(ss, i, timeout))
  {
    hide Count, InWindow, Numbered;
    var ss' := Placed(ss, i, timeout);
    forall q: nat ensures NumberOk(log + [Sent(b, NextPkg(ss))], ss', q) {
      assert NumberOk(log, ss, q);
      CountsSnoc(log, Sent(b, NextPkg(ss)), q);
      InWindowUpdate(ss.window, i, ss'.window[i], q);
      forall j | Occupied(ss'.window, j) && SeqAt(ss'.window, j) == q
        ensures Count(log + [Sent(b, NextPkg(ss))], Transmission(q)) == ss'.window[j].tryCount + 1
      {
        if j != i {
          assert Occupied(ss.window, j) && SeqAt(ss.window, j) == q;
          NumberedBounds(ss.window[j].pkg.value, ss.seqno, stream);
        }
      }
      if q == ss.seqno + 1 {
        NotInWindow(ss, stream, q);
      }
    }
  }

  /** A number beyond the last one is in no slot. */
  lemma NotInWindow(ss: Sender, stream: seq<Pkg>, q: nat)
    requires WindowOk(ss, stream) && ss.seqno < q
    ensures !InWindow(ss.window, q)
  {
    InWindowMeaning(ss.window, q);
  }

  lemma TransmitKeeps(v: Outgoing, b: Addr, i: nat, timeout: int)
    requires OutgoingInv(v, b) && CanTransmit(v, i)
    ensures OutgoingInv(OutTransmit(v, b, i, timeout), b) && Grows(v, OutTransmit(v, b, i, timeout), None)
  {
    hide NumbersOk, Taken, StreamOf, QueueOk, WindowOk, EventsOk, Numbered;
    var w := OutTransmit(v, b, i, timeout);
    var ss, stream, e := v.sender.value, StreamOf(v), Sent(b, NextPkg(v.sender.value));
    SubmitsSnoc(v.log, e);
    TakenSame(v, w);
    GrowsSnoc(v, w, e, None);
    NextIsNext(ss, stream, b);
    TransmitSender(ss, stream, b, i, timeout);
    EventsGrow(v.log, e, ss.seqno, stream, ss.seqno + 1, stream);
    TransmitNumbers(v.log, ss, stream, b, i, timeout);
  }

  // ---------- timeouts ----------

  /** Every event of a sender holds the SYN or a packet of the stream. */
  lemma HeldPkg(v: Outgoing, b: Addr, ref: TimerRef)
    requires OutgoingInv(v, b) && HoldsPkg(v, ref)
    ensures EventOk(Sent(b, PkgOf(v, ref)), v.sender.value.seqno, StreamOf(v))
    ensures FIRST_SEQ <= PkgOf(v, ref).seqno <= v.sender.value.seqno
    ensures ref.SlotRef? ==>
              && Occupied(v.sender.value.window, ref.i)
              && PkgOf(v, ref).seqno == SeqAt(v.sender.value.window, ref.i) > FIRST_SEQ
    ensures ref.SynRef? ==> v.sender.value.status == SYN_SENT && PkgOf(v, ref) == SYN_PKG
    ensures TimerOf(v.sender.value, ref).toaddr == b && TimerOf(v.sender.value, ref).tryCount <= MAXRETRANS
    ensures Count(v.log, Transmission(PkgOf(v, ref).seqno)) == TimerOf(v.sender.value, ref).tryCount + 1
  {
    hide Count, InWindow, Taken, StreamOf;
    var ss := v.sender.value;
    match ref
    case SynRef(_) =>
      assert NumberOk(v.log, ss, FIRST_SEQ);
    case SlotRef(_, i) =>
      assert Occupied(ss.window, i);
      assert NumberOk(v.log, ss, SeqAt(ss.window, i));
  }

  lemma ResendSender(ss: Sender, stream: seq<Pkg>, b: Addr, ref: TimerRef, timeout: int)
    requires SenderOk(ss, stream, b) && HasTimer(ss, ref) && TimerOf(ss, ref).pkg.Some?
              && TimerOf(ss, ref).tryCount < MAXRETRANS
    ensures SenderOk(Retried(ss, ref, timeout), stream, b)
  {
    hide Numbered;
    if ref.SlotRef? {
      assert Occupied(ss.window, ref.i);
      assert forall j | Occupied(ss.window, j) && j != ref.i :: SeqAt(ss.window, j) != SeqAt(ss.window, ref.i);
      WindowSlot(ss, stream, Retried(ss, ref, timeout), ref.i, TimerOf(Retried(ss, ref, timeout), ref));
    }
  }

  lemma ResendNumbers(log: seq<Event>, ss: Sender, b: Addr, ref: TimerRef, timeout: int)
    requires NumbersOk(log, ss) && Distinct(ss.window) && HasTimer(ss, ref)
    requires TimerOf(ss, ref).pkg.Some? && TimerOf(ss, ref).tryCount < MAXRETRANS
    requires Count(log, GaveUp(TimerOf(ss, ref).pkg.value.seqno)) == 0
    requires FIRST_SEQ <= ss.seqno && forall j | Occupied(ss.window, j) :: FIRST_SEQ < SeqAt(ss.window, j) <= ss.seqno
    requires ref.SynRef? ==> ss.syn.pkg == Some(SYN_PKG) && ss.status == SYN_SENT
    ensures NumbersOk(log + [Sent(b, TimerOf(ss, ref).pkg.value)], Retried(ss, ref, timeout))
  {
    hide Count, InWindow;
    var p, ss' := TimerOf(ss, ref).pkg.value, Retried(ss, ref, timeout);
    assert ref.SlotRef? ==> Occupied(ss.window, ref.i) && SeqAt(ss.window, ref.i) == p.seqno;
    forall q: nat ensures NumberOk(log + [Sent(b, p)], ss', q) {
      assert NumberOk(log, ss, q);
      CountsSnoc(log, Sent(b, p), q);
      if ref.SlotRef? {
        InWindowMeaning(ss.window, p.seqno);
        InWindowUpdate(ss.window, ref.i, ss'.window[ref.i], q);
      }
      forall j | Occupied(ss'.window, j) && SeqAt(ss'.window, j) == q
        ensures Count(log + [Sent(b, p)], Transmission(q)) == ss'.window[j].tryCount + 1
      {
        assert Occupied(ss.window, j) && SeqAt(ss.window, j) == q;
      }
    }
  }

  lemma ResendKeeps(v: Outgoing, b: Addr, ref: TimerRef, timeout: int)
    requires OutgoingInv(v, b) && CanResend(v, ref)
    ensures OutgoingInv(OutResend(v, b, ref, timeout), b) && Grows(v, OutResend(v, b, ref, timeout), None)
  {
    hide Taken, StreamOf, QueueOk, Numbered, EventsOk, NumbersOk;
    var w := OutResend(v, b, ref, timeout);
    var ss, stream, e := v.sender.value, StreamOf(v), Sent(b, PkgOf(v, ref));
    SubmitsSnoc(v.log, e);
    TakenSame(v, w);
    GrowsSnoc(v, w, e, None);
    HeldPkg(v, b, ref);
    ResendSender(ss, stream, b, ref, timeout);
    EventsGrow(v.log, e, ss.seqno, stream, ss.seqno, stream);
    forall j | Occupied(ss.window, j) ensures FIRST_SEQ < SeqAt(ss.window, j) <= ss.seqno {
      NumberedBounds(ss.window[j].pkg.value, ss.seqno, stream);
    }
    ResendNumbers(v.log, ss, b, ref, timeout);
  }

  lemma GiveUpNumbers(log: seq<Event>, ss: Sender, b: Addr, sid: int, g: nat)
    requires NumbersOk(log, ss) && g <= ss.seqno
             && Count(log, GaveUp(g)) == 0 && Count(log, Transmission(g)) == MAXRETRANS + 1
    ensures NumbersOk(log + [TimedOut(b, sid, g)], ss)
  {
    hide Count, InWindow;
    forall q: nat ensures NumberOk(log + [TimedOut(b, sid, g)], ss, q) {
      assert NumberOk(log, ss, q);
      CountsSnoc(log, TimedOut(b, sid, g), q);
    }
  }

  lemma GiveUpKeeps(v: Outgoing, b: Addr, ref: TimerRef)
    requires OutgoingInv(v, b) && CanGiveUp(v, ref)
    ensures OutgoingInv(OutGiveUp(v, b, ref), b) && Grows(v, OutGiveUp(v, b, ref), None)
  {
    hide Taken, StreamOf, QueueOk, SenderOk, EventsOk, NumbersOk, Numbered;
    var w := OutGiveUp(v, b, ref);
    var e := TimedOut(b, PkgOf(v, ref).sid, PkgOf(v, ref).seqno);
    SubmitsSnoc(v.log, e);
    TakenSame(v, w);
    GrowsSnoc(v, w, e, None);
    HeldPkg(v, b, ref);
    EventsGrow(v.log, e, v.sender.value.seqno, StreamOf(v), v.sender.value.seqno, StreamOf(v));
    GiveUpNumbers(v.log, v.sender.value, b, e.sid, e.seqno);
  }

  // ---------- acknowledgements ----------

  lemma SynAckNumbers(log: seq<Event>, b: Addr, ss: Sender, ss': Sender)
    requires NumbersOk(log, ss) && ss' == ss.(status := OPEN, syn := ss'.syn)
    ensures NumbersOk(log + [Opened(b)], ss')
  {
    hide Count, InWindow;
    forall q: nat ensures NumberOk(log + [Opened(b)], ss', q) {
      assert NumberOk(log, ss, q);
      CountsSnoc(log, Opened(b), q);
    }
  }

  lemma SynAckKeeps(v: Outgoing, b: Addr)
    requires OutgoingInv(v, b) && v.sender.Some?
    ensures OutgoingInv(OutSynAck(v, b), b) && Grows(v, OutSynAck(v, b), None)
  {
    hide NumbersOk, EventsOk, Numbered, Taken, StreamOf, QueueOk;
    var w, ss, e := OutSynAck(v, b), v.sender.value, Opened(b);
    SubmitsSnoc(v.log, e);
    TakenSame(v, w);
    GrowsSnoc(v, w, e, None);
    EventsGrow(v.log, e, ss.seqno, StreamOf(v), ss.seqno, StreamOf(v));
    SynAckNumbers(v.log, b, ss, w.sender.value);
  }

  lemma AckSender(ss: Sender, stream: seq<Pkg>, b: Addr, i: nat)
    requires SenderOk(ss, stream, b) && Occupied(ss.window, i)
    ensures SenderOk(Freed(ss, i), stream, b)
  {
    hide Numbered;
    WindowSlot(ss, stream, Freed(ss, i), i, ss.window[i].(pkg := None));
  }

  lemma AckNumbers(log: seq<Event>, ss: Sender, b: Addr, i: nat, p: Pkg)
    requires NumbersOk(log, ss) && Distinct(ss.window) && Occupied(ss.window, i) && SeqAt(ss.window, i) == p.seqno
    requires FIRST_SEQ < p.seqno <= ss.seqno
    ensures NumbersOk(log + [AckEvent(b, p)], Freed(ss, i))
  {
    hide Count, InWindow;
    var ss' := Freed(ss, i);
    InWindowMeaning(ss.window, p.seqno);
    forall q: nat ensures NumberOk(log + [AckEvent(b, p)], ss', q) {
      assert NumberOk(log, ss, q);
      CountsSnoc(log, AckEvent(b, p), q);
      InWindowUpdate(ss.window, i, ss'.window[i], q);
      forall j | Occupied(ss'.window, j) && SeqAt(ss'.window, j) == q
        ensures Count(log + [AckEvent(b, p)], Transmission(q)) == ss'.window[j].tryCount + 1
      {
        assert Occupied(ss.window, j) && SeqAt(ss.window, j) == q;
      }
    }
  }

  lemma AckKeeps(v: Outgoing, b: Addr, i: nat, p: Pkg)
    requires OutgoingInv(v, b) && CanAck(v, i, p)
    ensures OutgoingInv(OutAck(v, b, i, p), b) && Grows(v, OutAck(v, b, i, p), Some(p))
  {
    hide Taken, StreamOf, QueueOk, EventsOk, NumbersOk, Numbered, Count;
    var w := OutAck(v, b, i, p);
    var ss, stream, e := v.sender.value, StreamOf(v), AckEvent(b, p);
    SubmitsSnoc(v.log, e);
    TakenSame(v, w);
    GrowsSnoc(v, w, e, Some(p));
    NumberedBounds(ss.window[i].pkg.value, ss.seqno, stream);
    AckSender(ss, stream, b, i);
    EventsGrow(v.log, e, ss.seqno, stream, ss.seqno, stream);
    AckNumbers(v.log, ss, b, i, p);
  }
}
