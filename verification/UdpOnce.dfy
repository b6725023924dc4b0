/**
 When a message is delivered more than once: exactly when something is delivered after a SYN was
 taken in status OPEN, after a delivery; and from every state that can come about.
 */
module UdpOnce {
  import opened Seqs
  import opened UdpTypes
  import opened UdpStream
  import opened UdpNode
  import opened UdpSender
  import opened UdpReceiver
  import opened UdpLink
  import opened UdpEngine
  import opened UdpLoop
  import opened UdpWorld
  import opened UdpTheorems
  import opened UdpStall

  // ---------- which message a delivery is, and which incarnation made it ----------

  /** The place of every delivery among those of its incarnation. */
  function Indices(log: seq<Event>): seq<nat> {
    if log == [] then []
    else
      var front := log[..|log| - 1];
      Indices(front) + if log[|log| - 1].Delivered? then [|Deliveries(front)|] else []
  }

  /** The number of the incarnation that made it. */
  function Makers(log: seq<Event>): seq<nat> {
    if log == [] then []
    else
      var front := log[..|log| - 1];
      Makers(front) + if log[|log| - 1].Delivered? then [Count(front, Incarnation)] else []
  }

  /** No message is delivered twice. */
  predicate NoRepeat(log: seq<Event>) {
    var s := Indices(log);
    forall i, j | 0 <= i < j < |s| :: s[i] != s[j]
  }

  /** Only one incarnation ever delivered anything. */
  predicate OneDelivers(log: seq<Event>) {
    var s := Makers(log);
    forall i, j | 0 <= i < j < |s| :: s[i] == s[j]
  }

  lemma MakersSnoc(log: seq<Event>, e: Event)
    ensures Indices(log + [e]) == Indices(log) + if e.Delivered? then [|Deliveries(log)|] else []
    ensures Makers(log + [e]) == Makers(log) + if e.Delivered? then [Count(log, Incarnation)] else []
  {
    Snoc(log, e);
  }

  /** What the current incarnation delivered comes last, and is numbered from 0. */
  lemma {:induction false} CurrentLast(log: seq<Event>)
    ensures |Indices(log)| == |Makers(log)| == |AllDelivered(log)| >= |Deliveries(log)|
    ensures forall i | 0 <= i < |AllDelivered(log)| - |Deliveries(log)| :: Makers(log)[i] < Count(log, Incarnation)
    ensures forall i | |AllDelivered(log)| - |Deliveries(log)| <= i < |AllDelivered(log)| ::
              && Makers(log)[i] == Count(log, Incarnation)
              && Indices(log)[i] == i - |AllDelivered(log)| + |Deliveries(log)|
  {
    if log != [] {
      CurrentLast(log[..|log| - 1]);
    }
  }

  /** Where the maker changes, numbering starts again. */
  lemma {:induction false} NumberedByMaker(log: seq<Event>, i: nat)
    requires i < |Indices(log)|
    ensures |Makers(log)| == |Indices(log)|
    ensures Indices(log)[i] == if i > 0 && Makers(log)[i - 1] == Makers(log)[i] then Indices(log)[i - 1] + 1 else 0
  {
    var front := log[..|log| - 1];
    CurrentLast(log);
    CurrentLast(front);
    if i < |Indices(front)| {
      NumberedByMaker(front, i);
    }
  }

  lemma {:induction false} SameMaker(log: seq<Event>, i: nat)
    requires NoRepeat(log) && i < |Indices(log)|
    ensures |Makers(log)| == |Indices(log)| && Makers(log)[i] == Makers(log)[0]
  {
    hide Indices, Makers;
    NumberedByMaker(log, i);
    if i > 0 {
      NumberedByMaker(log, 0);
      SameMaker(log, i - 1);
    }
  }

  lemma {:induction false} CountsUp(log: seq<Event>, i: nat)
    requires OneDelivers(log) && i < |Indices(log)|
    ensures Indices(log)[i] == i
  {
    hide Indices, Makers;
    NumberedByMaker(log, i);
    if i > 0 {
      CountsUp(log, i - 1);
    }
  }

  /** Nothing is repeated exactly if one incarnation made all deliveries. */
  lemma RepeatsNeedTwo(log: seq<Event>)
    ensures NoRepeat(log) <==> OneDelivers(log)
  {
    hide Indices, Makers;
    CurrentLast(log);
    if NoRepeat(log) {
      forall i | 0 <= i < |Makers(log)| ensures Makers(log)[i] == Makers(log)[0] {
        SameMaker(log, i);
      }
    }
    if OneDelivers(log) {
      forall i | 0 <= i < |Indices(log)| ensures Indices(log)[i] == i {
        CountsUp(log, i);
      }
    }
  }

  /** Deliveries are the messages that Indices says. */
  lemma {:induction false} DeliveredAt(log: seq<Event>, ms: seq<Msg>, i: nat)
    requires AllPrefix(log, ms) && i < |AllDelivered(log)|
    ensures i < |Indices(log)| && Indices(log)[i] < |ms| && AllDelivered(log)[i] == ms[Indices(log)[i]]
  {
    var front := log[..|log| - 1];
    CurrentLast(front);
    if i < |AllDelivered(front)| {
      DeliveredAt(front, ms, i);
    } else {
      assert Deliveries(log) == Deliveries(front) + [log[|log| - 1].msg];
      assert Deliveries(log)[|Deliveries(front)|] == AllDelivered(log)[i];
    }
  }

  /** Every delivery is some message submitted; none is made twice exactly if a single incarnation
      made them all, and what was delivered is then a prefix of what was submitted. */
  lemma DeliveriesIndexed(w: World, a: Addr, b: Addr)
    requires Reachable(w)
    ensures var log := RecvView(w(b).log, a);
            && |Indices(log)| == |AllDelivered(log)|
            && (forall i | 0 <= i < |Indices(log)| ::
                  Indices(log)[i] < |SubmittedTo(w, a, b)|
                  && AllDelivered(log)[i] == SubmittedTo(w, a, b)[Indices(log)[i]])
            && (NoRepeat(log) <==> OneDelivers(log))
            && (NoRepeat(log) ==> AllDelivered(log) <= SubmittedTo(w, a, b))
  {
    hide Reachable, AllPrefix, Deliveries, AllDelivered, Indices, Makers, NoRepeat, OneDelivers, NonEmpty, SendView,
        RecvView;
    var log, ms := RecvView(w(b).log, a), SubmittedTo(w, a, b);
    EveryPrefix(w, a, b);
    CurrentLast(log);
    RepeatsNeedTwo(log);
    forall i | 0 <= i < |Indices(log)| ensures
        Indices(log)[i] < |ms| && AllDelivered(log)[i] == ms[Indices(log)[i]] {
      DeliveredAt(log, ms, i);
    }
    if NoRepeat(log) {
      InOrder(log, ms);
    }
  }

  lemma InOrder(log: seq<Event>, ms: seq<Msg>)
    requires OneDelivers(log) && |Indices(log)| == |AllDelivered(log)|
    requires forall i | 0 <= i < |Indices(log)| ::
               Indices(log)[i] < |ms| && AllDelivered(log)[i] == ms[Indices(log)[i]]
    ensures AllDelivered(log) <= ms
  {
    hide Indices, AllDelivered, OneDelivers;
    forall i | 0 <= i < |Indices(log)| ensures Indices(log)[i] == i {
      CountsUp(log, i);
    }
    var n := |AllDelivered(log)|;
    if n > 0 {
      assert Indices(log)[n - 1] == n - 1;
    }
  }

  // ---------- what one step does to a receiver's deliveries ----------

  /** log' continues log by deliveries ds, of the current incarnation, and by events that say nothing
      about deliveries. */
  predicate Gains(log: seq<Event>, log': seq<Event>, ds: seq<Msg>) {
    && |ds| <= 1
    && AllDelivered(log') == AllDelivered(log) + ds
    && Deliveries(log') == Deliveries(log) + ds
    && Count(log', Incarnation) == Count(log, Incarnation)
    && Makers(log') == Makers(log) + if ds == [] then [] else [Count(log, Incarnation)]
  }

  /** An incarnation begins, and delivers nothing yet. */
  predicate Restarts(log: seq<Event>, log': seq<Event>) {
    AllDelivered(log') == AllDelivered(log) && Deliveries(log') == [] && Makers(log') == Makers(log)
  }

  lemma NothingGained(log: seq<Event>)
    ensures Gains(log, log, [])
  {
    hide AllDelivered, Deliveries, Makers;
    assert AllDelivered(log) + [] == AllDelivered(log) && Deliveries(log) + [] == Deliveries(log);
  }

  lemma GainsSnoc(log: seq<Event>, log': seq<Event>, ds: seq<Msg>, e: Event)
    requires Gains(log, log', ds) && !e.NewReceiver? && (e.Delivered? ==> ds == [])
    ensures Gains(log, log' + [e], if e.Delivered? then [e.msg] else ds)
  {
    hide AllDelivered, Deliveries, Makers, Count;
    AllDeliveredSnoc(log', e);
    DeliveriesSnoc(log', e);
    CountSnoc(log', e, Incarnation);
    MakersSnoc(log', e);
    assert AllDelivered(log') + [] == AllDelivered(log');
  }

  /** What accepting a packet logs. */
  lemma AcceptGains(log: seq<Event>, a: Addr, overrun: bool, ds: seq<Msg>, ack: Pkg)
    requires |ds| <= 1
    ensures var log1 := if overrun then log + [Overrun(a)] else log;
            var log2 := if ds == [] then log1 else log1 + [Delivered(a, ds[0])];
            Gains(log, log2 + [Sent(a, ack)], ds)
  {
    hide Gains;
    var log1 := if overrun then log + [Overrun(a)] else log;
    NothingGained(log);
    GainsSnoc(log, log, [], Overrun(a));
    if ds == [] {
      GainsSnoc(log, log1, [], Sent(a, ack));
    } else {
      assert [ds[0]] == ds;
      GainsSnoc(log, log1, [], Delivered(a, ds[0]));
      GainsSnoc(log, log1 + [Delivered(a, ds[0])], ds, Sent(a, ack));
    }
  }

  /** A DATA packet delivers at most one message. */
  lemma DataGains(u: Incoming, a: Addr, p: Pkg) returns (ds: seq<Msg>)
    ensures Gains(u.log, InData(u, a, p).log, ds)
  {
    hide Gains, Absorb, AckOfData;
    ds := [];
    NothingGained(u.log);
    GainsSnoc(u.log, u.log, [], Sent(a, AckOfData(p)));
    if u.receiver.Some? && p.seqno == u.receiver.value.expectedSeq {
      var x := Absorb(Assembly(u.receiver.value.sessions, [], false), p);
      AbsorbOnTop(u.receiver.value.sessions, [], p);
      AcceptGains(u.log, a, x.overrun, x.delivered, AckOfData(p));
      if InData(u, a, p) == InAccept(u, a, p) {
        ds := x.delivered;
      }
    }
  }

  lemma SynGains(u: Incoming, a: Addr, p: Pkg)
    ensures if u.receiver.Some? && u.receiver.value.status == OPENING
            then Gains(u.log, InSyn(u, a, p).log, []) else Restarts(u.log, InSyn(u, a, p).log)
  {
    hide AllDelivered, Deliveries, Makers, Count, AckOfSyn;
    var log1, e := u.log + [NewReceiver(a)], Sent(a, AckOfSyn(p));
    NothingGained(u.log);
    GainsSnoc(u.log, u.log, [], e);
    AllDeliveredSnoc(u.log, NewReceiver(a));
    DeliveriesSnoc(u.log, NewReceiver(a));
    MakersSnoc(u.log, NewReceiver(a));
    NothingGained(log1);
    GainsSnoc(log1, log1, [], e);
    assert AllDelivered(log1) + [] == AllDelivered(log1) && Deliveries(log1) + [] == Deliveries(log1);
  }

  /** This packet is a SYN that finds its receiver in status OPEN, after a delivery. */
  predicate Discards(u: Incoming, p: Pkg) {
    p.ptype == SYN && u.receiver.Some? && u.receiver.value.status == OPEN && AllDelivered(u.log) != []
  }

  /** The current incarnation made all deliveries. */
  predicate Clean(log: seq<Event>) {
    AllDelivered(log) == Deliveries(log)
  }

  /** From log to log', ds was delivered; discarded says whether a SYN took the receiver away. */
  predicate Effect(log: seq<Event>, log': seq<Event>, ds: seq<Msg>, discarded: bool) {
    && |ds| <= 1 && (discarded ==> ds == [])
    && AllDelivered(log') == AllDelivered(log) + ds
    && Makers(log') == Makers(log) + (if ds == [] then [] else [Count(log, Incarnation)])
    && (Clean(log') <==> Clean(log) && !discarded)
  }

  lemma GainsEffect(log: seq<Event>, log': seq<Event>, ds: seq<Msg>)
    requires Gains(log, log', ds)
    ensures Effect(log, log', ds, false)
  {
    hide AllDelivered, Deliveries, Makers, Count;
    if AllDelivered(log') == Deliveries(log') {
      assert AllDelivered(log) == AllDelivered(log')[..|AllDelivered(log)|];
      assert Deliveries(log) == Deliveries(log')[..|Deliveries(log)|];
    }
  }

  lemma RestartsEffect(log: seq<Event>, log': seq<Event>)
    requires Restarts(log, log')
    ensures Effect(log, log', [], AllDelivered(log) != [])
  {
    hide AllDelivered, Deliveries, Makers, Count, Indices;
    CurrentLast(log);
    assert AllDelivered(log) + [] == AllDelivered(log);
  }

  lemma PacketEffect(u: Incoming, a: Addr, p: Pkg) returns (ds: seq<Msg>)
    requires u.receiver.None? ==> u.log == []
    requires u.receiver.Some? ==> u.receiver.value.status != SYN_SENT
    ensures Effect(u.log, InPacket(u, a, p).log, ds, Discards(u, p))
  {
    hide Effect, Gains, Restarts, InSyn, InData, Deliveries, Makers, Count;
    ds := [];
    NothingGained(u.log);
    GainsEffect(u.log, u.log, []);
    SynGains(u, a, p);
    if p.ptype == DATA {
      ds := DataGains(u, a, p);
      GainsEffect(u.log, InData(u, a, p).log, ds);
    } else if p.ptype == SYN {
      if u.receiver.Some? && u.receiver.value.status == OPENING {
        GainsEffect(u.log, InSyn(u, a, p).log, []);
      } else {
        RestartsEffect(u.log, InSyn(u, a, p).log);
      }
    }
  }

  /** In this step b's loop() reads such a SYN from a. */
  ghost predicate DiscardsAt(cfg: Config, w: World, act: Action, a: Addr, b: Addr) {
    act.Loop? && act.at == b && TimersOk(w(b)) &&
    var read := ReadBy(cfg.clk(b), w(b), act.input);
    read.Packet? && read.from == a && Discards(In(w, a, b), read.pkg)
  }

  lemma StepEffect(cfg: Config, w: World, act: Action, w': World, a: Addr, b: Addr) returns (ds: seq<Msg>)
    requires WorldInv(w) && Step(cfg, w, act, w')
    ensures Effect(In(w, a, b).log, In(w', a, b).log, ds, DiscardsAt(cfg, w, act, a, b))
  {
    hide WorldInv, Step, Effect, ReadBy, MayArrive, NodeInv, NodeGrows, IncomingOf, Discards, InPacket;
    var u := In(w, a, b);
    ds := [];
    NothingGained(u.log);
    GainsEffect(u.log, u.log, []);
    StepInv(cfg, w, act, w');
    StepElsewhere(cfg, w, act, w', b);
    if act.at == b {
      var read := if act.Loop? then ReadAt(cfg, w, act) else Nothing;
      assert IncomingStep(w(b), w'(b), read, a);
      if read.Packet? && read.from == a {
        ReceiverThere(w, a, b);
        ds := PacketEffect(u, a, read.pkg);
      }
    }
  }

  lemma ReceiverThere(w: World, a: Addr, b: Addr)
    requires WorldInv(w)
    ensures In(w, a, b).receiver.None? ==> In(w, a, b).log == []
    ensures In(w, a, b).receiver.Some? ==> In(w, a, b).receiver.value.status != SYN_SENT
  {
    hide WorldInv, RepliesOk, AllPrefix, Rebuild, AcksReal, Deliveries, IncomingOf, StreamOf, NodeInv;
    LinkAt(w, a, b);
  }

  // ---------- exactly once ----------

  /** Nothing was delivered since any of the first j steps that discarded a receiver. */
  ghost predicate SilentSince(cfg: Config, ws: seq<World>, acts: seq<Action>, a: Addr, b: Addr, j: nat)
    requires j <= |acts| < |ws|
  {
    forall i | 0 <= i < j && DiscardsAt(cfg, ws[i], acts[i], a, b) ::
      AllDelivered(In(ws[i], a, b).log) == AllDelivered(In(ws[j], a, b).log)
  }

  lemma AnotherMaker(log: seq<Event>, log': seq<Event>, ds: seq<Msg>)
    requires Effect(log, log', ds, false)
    ensures ds == [] ==> (OneDelivers(log') <==> OneDelivers(log))
    ensures ds != [] ==> (OneDelivers(log') <==> Clean(log))
  {
    hide AllDelivered, Deliveries, Makers, Indices, Count;
    CurrentLast(log);
    DeliveriesSuffix(log);
    assert Makers(log) + [] == Makers(log);
    if ds != [] {
      var s := Makers(log');
      assert s[|s| - 1] == Count(log, Incarnation);
      assert forall i | 0 <= i < |Makers(log)| :: s[i] == Makers(log)[i];
      if |AllDelivered(log)| > |Deliveries(log)| {
        assert s[0] < s[|s| - 1];
      }
    }
  }

  lemma NothingAtFirst(cfg: Config, ws: seq<World>, acts: seq<Action>, a: Addr, b: Addr)
    requires Run(cfg, ws, acts)
    ensures In(ws[0], a, b).log == []
    ensures AllDelivered([]) == Deliveries([]) == [] && OneDelivers([])
  {
    hide Step;
    assert ws[0](b) == NewNode(cfg.timeoutms(b));
  }

  /** The same, one step later. */
  lemma OnceStep(cfg: Config, ws: seq<World>, acts: seq<Action>, a: Addr, b: Addr, j: nat, ds: seq<Msg>)
    requires 0 < j <= |acts| < |ws|
    requires Effect(In(ws[j - 1], a, b).log, In(ws[j], a, b).log, ds, DiscardsAt(cfg, ws[j - 1], acts[j - 1], a, b))
    requires forall i | 0 <= i < j :: AllDelivered(In(ws[i], a, b).log) <= AllDelivered(In(ws[j - 1], a, b).log)
    requires Clean(In(ws[j - 1], a, b).log) <==> forall i | 0 <= i < j - 1 :: !DiscardsAt(cfg, ws[i], acts[i], a, b)
    requires OneDelivers(In(ws[j - 1], a, b).log) <==> SilentSince(cfg, ws, acts, a, b, j - 1)
    ensures OneDelivers(In(ws[j], a, b).log) <==> SilentSince(cfg, ws, acts, a, b, j)
  {
    hide DiscardsAt, AllDelivered, Deliveries, Makers, Count, In, OneDelivers, Clean;
    var log, log' := In(ws[j - 1], a, b).log, In(ws[j], a, b).log;
    var discarded := DiscardsAt(cfg, ws[j - 1], acts[j - 1], a, b);
    if ds == [] {
      SameMakers(log, log', discarded);
    } else {
      AnotherMaker(log, log', ds);
      forall i | 0 <= i < j ensures AllDelivered(In(ws[i], a, b).log) != AllDelivered(log') {
        assert AllDelivered(In(ws[i], a, b).log) <= AllDelivered(log);
      }
    }
  }

  lemma SameMakers(log: seq<Event>, log': seq<Event>, discarded: bool)
    requires Effect(log, log', [], discarded)
    ensures AllDelivered(log') == AllDelivered(log) && (OneDelivers(log') <==> OneDelivers(log))
  {
    hide AllDelivered, Deliveries, Makers, Count;
    assert Makers(log) + [] == Makers(log) && AllDelivered(log) + [] == AllDelivered(log);
  }

  lemma {:induction false} OnceSteps(cfg: Config, ws: seq<World>, acts: seq<Action>, a: Addr, b: Addr, j: nat)
    requires Run(cfg, ws, acts) && j <= |acts|
    ensures forall i | 0 <= i <= j :: AllDelivered(In(ws[i], a, b).log) <= AllDelivered(In(ws[j], a, b).log)
    ensures Clean(In(ws[j], a, b).log) <==> forall i | 0 <= i < j :: !DiscardsAt(cfg, ws[i], acts[i], a, b)
    ensures OneDelivers(In(ws[j], a, b).log) <==> SilentSince(cfg, ws, acts, a, b, j)
  {
    hide WorldInv, Step, DiscardsAt, AllDelivered, Deliveries, Makers, Count, In, OneDelivers, SilentSince;
    NothingAtFirst(cfg, ws, acts, a, b);
    if j == 0 {
      assert SilentSince(cfg, ws, acts, a, b, 0) by { SilentAtFirst(cfg, ws, acts, a, b); }
    } else {
      OnceSteps(cfg, ws, acts, a, b, j - 1);
      RunInv(cfg, ws, acts, j - 1);
      var ds := StepEffect(cfg, ws[j - 1], acts[j - 1], ws[j], a, b);
      OnceStep(cfg, ws, acts, a, b, j, ds);
    }
  }

  lemma SilentAtFirst(cfg: Config, ws: seq<World>, acts: seq<Action>, a: Addr, b: Addr)
    requires |acts| < |ws|
    ensures SilentSince(cfg, ws, acts, a, b, 0)
  {
  }

  /** Exactly once, exactly when: some message is delivered twice if and only if something is
      delivered after a step in which a SYN found the receiver OPEN, after a delivery.  Without such a
      step the deliveries are those of one incarnation; and as long as none is repeated they are a
      prefix of what was submitted. */
  lemma ExactlyOnceIff(cfg: Config, ws: seq<World>, acts: seq<Action>, a: Addr, b: Addr, j: nat)
    requires Run(cfg, ws, acts) && j <= |acts|
    ensures var log := RecvView(ws[j](b).log, a);
            && (NoRepeat(log) <==> SilentSince(cfg, ws, acts, a, b, j))
            && (AllDelivered(log) == Deliveries(log) <==>
                forall i | 0 <= i < j :: !DiscardsAt(cfg, ws[i], acts[i], a, b))
            && (NoRepeat(log) ==> AllDelivered(log) <= SubmittedTo(ws[j], a, b))
  {
    hide Step, DiscardsAt, AllDelivered, Deliveries, NoRepeat, OneDelivers, SilentSince, SubmittedTo;
    OnceSteps(cfg, ws, acts, a, b, j);
    RepeatsNeedTwo(In(ws[j], a, b).log);
    assert Reachable(ws[j]);
    DeliveriesIndexed(ws[j], a, b);
  }
}
