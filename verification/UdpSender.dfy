/**
 One direction of one link, seen from the sending engine: the invariant that ties a Sender
 to the messages submitted for its peer, and its preservation by every step of the sender.
 */
module UdpSender {
  import opened Seqs
  import opened UdpTypes
  import opened UdpStream
  import opened UdpNode

  // ---------- projecting one peer out of an engine ----------

  /** Sending-side events for peer b. */
  predicate SendsTo(e: Event, b: Addr) {
    match e
    case Submitted(p, _) => p == b
    case Sent(p, pkg) => p == b && pkg.ptype != ACK
    case Opened(p) => p == b
    case Acked(p, _, _) => p == b
    case TimedOut(p, _, _) => p == b
    case _ => false
  }

  function SendView(log: seq<Event>, b: Addr): seq<Event> {
    if log == [] then []
    else SendView(log[..|log| - 1], b) + if SendsTo(log[|log| - 1], b) then [log[|log| - 1]] else []
  }

  /** The messages in sendQueue for peer b. */
  function Pending(q: seq<SendPack>, b: Addr): seq<Msg> {
    if q == [] then []
    else Pending(q[..|q| - 1], b) + if q[|q| - 1].toaddr == b then [q[|q| - 1].msg] else []
  }

  /** Everything an engine holds about sending to one peer. */
  datatype Outgoing = Outgoing(sender: Option<Sender>, log: seq<Event>, pending: seq<Msg>)

  function OutgoingOf(n: Node, b: Addr): Outgoing {
    Outgoing(if Key(b) in n.senders then Some(n.senders[Key(b)]) else None, SendView(n.log, b), Pending(n.sendQueue, b))
  }

  lemma SendViewSnoc(log: seq<Event>, e: Event, b: Addr)
    ensures SendView(log + [e], b) == SendView(log, b) + if SendsTo(e, b) then [e] else []
  {
    Snoc(log, e);
  }

  lemma PendingSnoc(q: seq<SendPack>, p: SendPack, b: Addr)
    ensures Pending(q + [p], b) == Pending(q, b) + if p.toaddr == b then [p.msg] else []
  {
    Snoc(q, p);
  }

  lemma {:induction false} PendingHead(q: seq<SendPack>, b: Addr)
    requires q != []
    ensures Pending(q, b) == (if q[0].toaddr == b then [q[0].msg] else []) + Pending(q[1..], b)
  {
    if |q| == 1 {
      assert q[1..] == [] && q[..0] == [];
    } else {
      PendingHead(q[..|q| - 1], b);
      assert q[..|q| - 1][1..] == q[1..][..|q| - 2];
    }
  }

  // ---------- history ----------

  /** The messages submitted, in order. */
  function Submits(log: seq<Event>): seq<Msg> {
    if log == [] then []
    else Submits(log[..|log| - 1]) + if log[|log| - 1].Submitted? then [log[|log| - 1].msg] else []
  }

  lemma SubmitsSnoc(log: seq<Event>, e: Event)
    ensures Submits(log + [e]) == Submits(log) + if e.Submitted? then [e.msg] else []
  {
    Snoc(log, e);
  }

  /** What an event counts as, for one peer. */
  datatype Tag = Transmission(q: nat) | GaveUp(q: nat) | Acknowledged(q: nat) | Incarnation | Other

  function TagOf(e: Event): Tag {
    match e
    case Sent(_, p) => Transmission(p.seqno)
    case TimedOut(_, _, q) => GaveUp(q)
    case Acked(_, p, _) => Acknowledged(p.seqno)
    case NewReceiver(_) => Incarnation
    case _ => Other
  }

  function Count(log: seq<Event>, t: Tag): nat {
    if log == [] then 0 else Count(log[..|log| - 1], t) + if TagOf(log[|log| - 1]) == t then 1 else 0
  }

  lemma CountSnoc(log: seq<Event>, e: Event, t: Tag)
    ensures Count(log + [e], t) == Count(log, t) + if TagOf(e) == t then 1 else 0
  {
    Snoc(log, e);
  }

  /** A transmission with a timer, or a timeout. */
  predicate IsTry(e: Event) {
    (e.Sent? && e.pkg.ptype != ACK) || e.TimedOut?
  }

  function Tries(log: seq<Event>): nat {
    if log == [] then 0 else Tries(log[..|log| - 1]) + if IsTry(log[|log| - 1]) then 1 else 0
  }

  lemma TriesSnoc(log: seq<Event>, e: Event)
    ensures Tries(log + [e]) == Tries(log) + if IsTry(e) then 1 else 0
  {
    Snoc(log, e);
  }

  // ---------- the window ----------

  predicate Occupied(window: seq<Timer>, i: int) {
    0 <= i < |window| && window[i].pkg.Some?
  }

  function SeqAt(window: seq<Timer>, i: int): nat
    requires Occupied(window, i)
  {
    window[i].pkg.value.seqno
  }

  predicate InWindow(window: seq<Timer>, q: nat) {
    SlotBySeq(window, q, 0).Some?
  }

  ghost predicate Distinct(window: seq<Timer>) {
    forall i, j | Occupied(window, i) && Occupied(window, j) && SeqAt(window, i) == SeqAt(window, j) :: i == j
  }

  lemma InWindowMeaning(window: seq<Timer>, q: nat)
    ensures InWindow(window, q) <==> exists i :: Occupied(window, i) && SeqAt(window, i) == q
  {
    var r := SlotBySeq(window, q, 0);
    if r.Some? {
      assert Occupied(window, r.value) && SeqAt(window, r.value) == q;
    }
  }

  /** Overwriting a slot takes its number out of the window and puts the new one in. */
  lemma InWindowUpdate(window: seq<Timer>, i: nat, t: Timer, q: nat)
    requires Distinct(window) && i < |window|
    ensures InWindow(window[i := t], q) <==>
            (t.pkg.Some? && t.pkg.value.seqno == q) || (InWindow(window, q) && !(Occupied(window, i)
                && SeqAt(window, i) == q))
  {
    hide InWindow;
    var w := window[i := t];
    InWindowMeaning(window, q);
    InWindowMeaning(w, q);
    assert forall j | j != i ::
        Occupied(w, j) == Occupied(window, j) && (Occupied(w, j) ==> SeqAt(w, j) == SeqAt(window, j));
    assert t.pkg.Some? ==> Occupied(w, i) && SeqAt(w, i) == t.pkg.value.seqno;
  }

  /** getWindowBySeq finds the one slot with its number. */
  lemma SlotFound(window: seq<Timer>, i: nat)
    requires Distinct(window) && Occupied(window, i)
    ensures SlotBySeq(window, SeqAt(window, i), 0) == Some(i)
  {
    var r := SlotBySeq(window, SeqAt(window, i), 0);
    if r.Some? {
      assert Occupied(window, r.value);
    }
  }

  lemma {:induction false} MinSeqLeast(window: seq<Timer>, k: nat)
    requires k <= |window|
    requires forall i | Occupied(window, i) :: SeqAt(window, i) < INT_MAX
    ensures forall i | Occupied(window, i) && i < k :: MinSeq(window, k) <= SeqAt(window, i)
    ensures MinSeq(window, k) == INT_MAX || exists i :: Occupied(window, i) && MinSeq(window, k) == SeqAt(window, i)
  {
    if k > 0 {
      MinSeqLeast(window, k - 1);
      if Occupied(window, k - 1) {
        assert SeqAt(window, k - 1) == window[k - 1].pkg.value.seqno;
      }
    }
  }

  /** checkEmptyWindow grants a free slot only while next is at most CONST_WINDOW - 1 ahead of
      every outstanding number, and refuses only when the window is full or that fails. */
  lemma EmptySlotMeaning(window: seq<Timer>, next: int)
    requires forall i | Occupied(window, i) :: SeqAt(window, i) < INT_MAX - WINDOW
    ensures EmptySlot(window, next).Some? <==>
            && (exists i :: 0 <= i < |window| && !Occupied(window, i))
            && (forall i | Occupied(window, i) :: next < SeqAt(window, i) + WINDOW)
  {
    MinSeqLeast(window, |window|);
    var m := MinSeq(window, |window|);
    if m != INT_MAX {
      assert (m + WINDOW - 1) % 0x1_0000_0000 == m + WINDOW - 1;
    }
    var e := LastEmpty(window, |window|);
    if e.Some? {
      assert !Occupied(window, e.value);
    } else {
      assert forall i | 0 <= i < |window| :: Occupied(window, i);
    }
  }

  // ---------- the invariant ----------

  const SYN_PKG: Pkg := BLANK.(ptype := SYN, seqno := FIRST_SEQ)

  /** The fragment with number q. */
  function Number(f: Pkg, q: nat): Pkg {
    f.(ptype := DATA, seqno := q)
  }

  /** p is the packet of the stream that bears its number. */
  predicate Numbered(p: Pkg, upto: nat, stream: seq<Pkg>) {
    FIRST_SEQ < p.seqno <= upto && p.seqno - FIRST_SEQ <= |stream|
    && p == Number(stream[p.seqno - FIRST_SEQ - 1], p.seqno)
  }

  /** The messages already taken off sendQueue. */
  function Taken(v: Outgoing): seq<Msg> {
    var ms := Submits(v.log);
    if |v.pending| <= |ms| then ms[..|ms| - |v.pending|] else []
  }

  /** Every fragment queued or numbered so far. */
  function StreamOf(v: Outgoing): seq<Pkg> {
    Stream(Taken(v))
  }

  /** The numbers of all these messages' fragments stay clear of INT_MAX. */
  predicate Numberable(ms: seq<Msg>) {
    |Stream(ms)| < INT_MAX - FIRST_SEQ - 10
  }

  /** Messages leave sendQueue in the order of submission. */
  predicate QueueOk(v: Outgoing) {
    Submits(v.log) == Taken(v) + v.pending && Numberable(Submits(v.log))
  }

  /** The slots hold distinct packets of the stream, within CONST_WINDOW of the last number. */
  ghost predicate WindowOk(ss: Sender, stream: seq<Pkg>) {
    && |ss.window| == WINDOW
    && Distinct(ss.window)
    && (forall i | Occupied(ss.window, i) ::
          Numbered(ss.window[i].pkg.value, ss.seqno, stream)
          && ss.seqno < SeqAt(ss.window, i) + WINDOW
          && ss.window[i].tryCount <= MAXRETRANS
          && ss.window[i].toaddr == ss.toaddr)
  }

  predicate SynOk(ss: Sender) {
    match ss.status
    case SYN_SENT => ss.syn.pkg == Some(SYN_PKG) && ss.syn.tryCount <= MAXRETRANS && ss.syn.toaddr == ss.toaddr
    case OPEN => ss.syn.pkg == None
    case OPENING => false
  }

  /** The numbered fragments followed by the queued ones are the stream. */
  ghost predicate SenderOk(ss: Sender, stream: seq<Pkg>, b: Addr) {
    && ss.toaddr == b
    && FIRST_SEQ <= ss.seqno
    && |stream| == ss.seqno - FIRST_SEQ + |ss.dataQueue|
    && ss.dataQueue == stream[ss.seqno - FIRST_SEQ..]
    && WindowOk(ss, stream)
    && SynOk(ss)
  }

  /** Only the SYN and packets of the stream are ever sent, and a session ends exactly with the
      acknowledgement that covers all of its bytes. */
  predicate EventOk(e: Event, upto: nat, stream: seq<Pkg>) {
    && (e.Sent? ==> e.pkg == SYN_PKG || Numbered(e.pkg, upto, stream))
    && (e.Acked? ==> (e.ended <==> e.pkg.totallen == e.pkg.offset))
  }

  ghost predicate EventsOk(log: seq<Event>, upto: nat, stream: seq<Pkg>) {
    forall e | e in log :: EventOk(e, upto, stream)
  }

  /** What happened to number q: at most CONST_MAXRETRANS + 1 transmissions, at least one once it is
      used, at most one timeout and one acknowledgement; it is in a slot exactly until it is
      acknowledged. */
  ghost predicate NumberOk(log: seq<Event>, ss: Sender, q: nat) {
    && Count(log, Transmission(q)) <= MAXRETRANS + 1
    && Count(log, GaveUp(q)) <= 1
    && (Count(log, GaveUp(q)) == 1 ==> Count(log, Transmission(q)) == MAXRETRANS + 1)
    && Count(log, Acknowledged(q)) <= 1
    && (ss.seqno < q ==> Count(log, Transmission(q)) == Count(log, GaveUp(q)) == Count(log, Acknowledged(q)) == 0)
    && (FIRST_SEQ <= q <= ss.seqno ==> Count(log, Transmission(q)) > 0)
    && (q <= FIRST_SEQ ==> Count(log, Acknowledged(q)) == 0)
    && (FIRST_SEQ < q <= ss.seqno ==> (InWindow(ss.window, q) <==> Count(log, Acknowledged(q)) == 0))
    && (forall i | Occupied(ss.window, i) && SeqAt(ss.window, i) == q ::
          Count(log, Transmission(q)) == ss.window[i].tryCount + 1)
    && (ss.status == SYN_SENT && q == FIRST_SEQ ==> Count(log, Transmission(q)) == ss.syn.tryCount + 1)
  }

  ghost predicate NumbersOk(log: seq<Event>, ss: Sender) {
    forall q: nat :: NumberOk(log, ss, q)
  }

  /** Before a Sender exists nothing was taken or sent. */
  predicate Untouched(v: Outgoing) {
    Taken(v) == [] && forall e | e in v.log :: e.Submitted?
  }

  ghost predicate OutgoingInv(v: Outgoing, b: Addr) {
    QueueOk(v) &&
    match v.sender
    case None => Untouched(v)
    case Some(ss) => SenderOk(ss, StreamOf(v), b) && EventsOk(v.log, ss.seqno, StreamOf(v)) && NumbersOk(v.log, ss)
  }
}
