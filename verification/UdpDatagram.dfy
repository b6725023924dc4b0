/**
 Runs over a network of datagrams that may also be corrupted: with the datalen and datacrc fields
 intact and all changes within four consecutive bytes, a corrupted datagram is a lost one, so such a
 network adds no behaviour to the one of UdpWorld.
 */
module UdpDatagram {
  import opened Lfsr
  import opened UdpTypes
  import opened UdpNode
  import opened UdpReceiver
  import opened UdpWorld
  import opened UdpTheorems
  import W = UdpWire

  // ---------- packets and datagrams ----------

  /** PACKAGE_DATA, PACKAGE_ACK, PACKAGE_SYN, PACKAGE_FIN. */
  function TypeOf(t: Lfsr.byte): PkgType {
    if t == 1 then DATA else if t == 2 then ACK else if t == 4 then SYN else if t == 5 then FIN else UNSET
  }

  function Signed(x: bv64): int {
    if x as int < 0x8000_0000_0000_0000 then x as int else x as int - 0x1_0000_0000_0000_0000
  }

  /** What processReceive sees of a datagram that passed its check. */
  function PkgOf(d: W.Packet): Pkg {
    Pkg(TypeOf(d.ptype), d.totallen as int, d.offset as int, d.seqno as int, Signed(d.sessionid), d.data)
  }

  // ---------- what arrives ----------

  /** Nothing, or a datagram of some peer: packet d as it was sealed, the bytes that recvfrom returned,
      and what the buffer held behind them. */
  datatype Arrival =
    | Quiet
    | Datagram(from: Addr, d: W.Packet, received: seq<Lfsr.byte>, stale: seq<Lfsr.byte>, sent: int)

  /** At most four consecutive bytes are wrong, and neither datalen nor datacrc. */
  ghost predicate Window(d: W.Packet, received: seq<Lfsr.byte>) {
    W.WellSized(d) && exists k :: DifferInWindow(W.Seal(d), received, k) && W.SameGuard(W.Seal(d), received)
  }

  /** The input that remains after the check of processReceive. */
  ghost function Heard(r: Arrival): Input
    requires r.Datagram? ==> Window(r.d, r.received)
  {
    match r
    case Quiet => Nothing
    case Datagram(from, d, received, stale, sent) =>
      WindowReads(d, received, stale);
      if W.Accepts(received + stale) then Packet(from, PkgOf(W.Parse(received + stale)), sent) else Nothing
  }

  lemma WindowReads(d: W.Packet, received: seq<Lfsr.byte>, stale: seq<Lfsr.byte>)
    requires Window(d, received)
    ensures |received + stale| >= W.HEADER && W.HEADER + W.DataLen(received + stale) <= |received + stale|
    ensures W.Accepts(received + stale) <==> received == W.Seal(d)
  {
    var k :| DifferInWindow(W.Seal(d), received, k) && W.SameGuard(W.Seal(d), received);
    W.CorruptedIsDropped(d, received, stale, k);
  }

  /** A datagram that was changed is not heard, and one that was not is heard as it was sent. */
  lemma HeardIs(r: Arrival)
    requires r.Datagram? && Window(r.d, r.received)
    ensures Heard(r) == if r.received == W.Seal(r.d) then Packet(r.from, PkgOf(r.d), r.sent) else Nothing
  {
    hide W.Seal, W.Accepts, W.Parse, Window;
    WindowReads(r.d, r.received, r.stale);
    if r.received == W.Seal(r.d) {
      WindowSized(r.d, r.received);
      W.SealedIsAccepted(r.d, r.stale);
    }
  }

  lemma WindowSized(d: W.Packet, received: seq<Lfsr.byte>)
    requires Window(d, received)
    ensures W.WellSized(d)
  {
  }

  // ---------- runs ----------

  /** A call of send(), or an iteration of loop() with what arrives. */
  datatype Deed = Submission(at: Addr, to: Addr, msg: Msg) | Iteration(at: Addr, arrival: Arrival)

  /** The network hands over datagrams of packets that were sent, corrupted or not. */
  ghost predicate MayCome(w: World, at: Addr, r: Arrival) {
    r.Datagram? ==> Window(r.d, r.received) && Sent(at, PkgOf(r.d)) in w(r.from).log
  }

  ghost predicate DatagramStep(cfg: Config, w: World, deed: Deed, w': World) {
    && (forall c: Addr | c != deed.at :: w'(c) == w(c))
    && match deed
       case Submission(at, to, m) => MaySend(w(at), to, m) && w'(at) == Submit(w(at), to, m)
       case Iteration(at, r) =>
         MayCome(w, at, r) && TimersOk(w(at)) && w'(at) == LoopStep(cfg.clk(at), w(at), Heard(r)).0
  }

  ghost predicate DatagramRun(cfg: Config, ws: seq<World>, deeds: seq<Deed>) {
    && |ws| == |deeds| + 1
    && (forall a: Addr :: ws[0](a) == NewNode(cfg.timeoutms(a)))
    && forall i | 0 <= i < |deeds| :: DatagramStep(cfg, ws[i], deeds[i], ws[i + 1])
  }

  ghost function ActionOf(deed: Deed): Action
    requires deed.Iteration? && deed.arrival.Datagram? ==> Window(deed.arrival.d, deed.arrival.received)
  {
    match deed
    case Submission(at, to, m) => Send(at, to, m)
    case Iteration(at, r) => Loop(at, Heard(r))
  }

  lemma DatagramStepIs(cfg: Config, w: World, deed: Deed, w': World) returns (act: Action)
    requires DatagramStep(cfg, w, deed, w')
    ensures Step(cfg, w, act, w')
  {
    hide LoopStep, Heard, Window, TimersOk, W.Seal;
    act := ActionOf(deed);
    if deed.Iteration? {
      if deed.arrival.Datagram? {
        HeardIs(deed.arrival);
      } else {
        QuietHeard();
      }
      assert MayArrive(w, deed.at, Heard(deed.arrival));
    }
  }

  lemma QuietHeard()
    ensures Heard(Quiet) == Nothing
  {
  }

  /** Every run over such a network is a run over the network of whole packets. */
  lemma {:induction false} DatagramRunIs(cfg: Config, ws: seq<World>, deeds: seq<Deed>) returns (acts: seq<Action>)
    requires DatagramRun(cfg, ws, deeds)
    ensures Run(cfg, ws, acts)
  {
    hide Step, DatagramStep;
    acts := [];
    for i := 0 to |deeds|
      invariant |acts| == i
      invariant forall j | 0 <= j < i :: Step(cfg, ws[j], acts[j], ws[j + 1])
    {
      var act := DatagramStepIs(cfg, ws[i], deeds[i], ws[i + 1]);
      acts := acts + [act];
    }
  }

  /** So each receiver incarnation has at every moment delivered a prefix of what was submitted, over
      a network that loses, duplicates, delays, reorders and corrupts datagrams. */
  lemma PrefixDespiteCorruption(cfg: Config, ws: seq<World>, deeds: seq<Deed>, i: nat, a: Addr, b: Addr, k: nat)
    requires DatagramRun(cfg, ws, deeds) && i < |ws| && k <= |RecvView(ws[i](b).log, a)|
    ensures Deliveries(RecvView(ws[i](b).log, a)[..k]) <= SubmittedTo(ws[i], a, b)
  {
    hide Run, DatagramRun, Deliveries, SubmittedTo;
    var acts := DatagramRunIs(cfg, ws, deeds);
    assert Reachable(ws[i]);
    PrefixDelivery(ws[i], a, b, k);
  }

  /** The type codes on the wire; every other code is ignored. */
  lemma TypeCodes(t: Lfsr.byte)
    ensures TypeOf(1) == DATA && TypeOf(2) == ACK && TypeOf(4) == SYN && TypeOf(5) == FIN
    ensures t != 1 && t != 2 && t != 4 && t != 5 ==> TypeOf(t) == UNSET
  {
  }
}
