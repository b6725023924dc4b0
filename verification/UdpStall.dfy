/**
 A peer that stops acknowledging stalls its sender for good, and with it every message queued
 behind one of its own.
 */
module UdpStall {
  import opened UdpTypes
  import opened UdpStream
  import opened UdpNode
  import opened UdpSender
  import opened UdpSteps
  import opened UdpEngine
  import opened UdpLoop
  import opened UdpWorld

  // ---------- what holds from any moment of a run to any later one ----------

  /** Logs, messages taken and numbers only grow; a message is taken only when every fragment before
      it has its number. */
  ghost predicate Advances(v: Outgoing, w: Outgoing) {
    && v.log <= w.log && Taken(v) <= Taken(w)
    && (v.sender.Some? ==> w.sender.Some? && v.sender.value.seqno <= w.sender.value.seqno)
    && (v.sender.Some? && w.sender.Some? && Taken(w) != Taken(v) ==> |StreamOf(v)| <= w.sender.value.seqno - FIRST_SEQ)
  }

  lemma AdvancesTrans(v: Outgoing, w: Outgoing, x: Outgoing)
    requires Advances(v, w) && Advances(w, x)
    ensures Advances(v, x)
  {
    hide Taken, Stream;
  }

  lemma StepAdvances(cfg: Config, w: World, act: Action, w': World, a: Addr, b: Addr)
    requires WorldInv(w) && Step(cfg, w, act, w')
    ensures Advances(Out(w, a, b), Out(w', a, b))
  {
    hide WorldInv, Step, Taken, StreamOf, ReadBy, MayArrive, IncomingStep, NodeInv, OutgoingOf;
    StepInv(cfg, w, act, w');
    StepElsewhere(cfg, w, act, w', a);
    if act.at == a {
      var read := if act.Loop? then ReadAt(cfg, w, act) else Nothing;
      assert Grows(OutgoingOf(w(a), b), OutgoingOf(w'(a), b), InputFrom(AckInput(read), b));
    }
  }

  ghost function ReadAt(cfg: Config, w: World, act: Action): Input
    requires act.Loop? && TimersOk(w(act.at))
  {
    ReadBy(cfg.clk(act.at), w(act.at), act.input)
  }

  lemma StepElsewhere(cfg: Config, w: World, act: Action, w': World, a: Addr)
    requires Step(cfg, w, act, w')
    ensures a != act.at ==> w'(a) == w(a)
    ensures act.Loop? ==> TimersOk(w(act.at))
  {
    hide LoopStep, MaySend;
  }

  lemma {:induction false} RunAdvances(cfg: Config, ws: seq<World>, acts: seq<Action>, i: nat, j: nat, a: Addr, b: Addr)
    requires Run(cfg, ws, acts) && i <= j < |ws|
    ensures Advances(Out(ws[i], a, b), Out(ws[j], a, b))
  {
    hide WorldInv, Step, Advances, Out;
    if i == j {
      AdvancesSame(Out(ws[i], a, b));
    } else {
      RunAdvances(cfg, ws, acts, i, j - 1, a, b);
      RunInv(cfg, ws, acts, j - 1);
      StepAdvances(cfg, ws[j - 1], acts[j - 1], ws[j], a, b);
      AdvancesTrans(Out(ws[i], a, b), Out(ws[j - 1], a, b), Out(ws[j], a, b));
    }
  }

  lemma AdvancesSame(v: Outgoing)
    ensures Advances(v, v)
  {
  }

  lemma {:induction false} CountPrefix(log: seq<Event>, log': seq<Event>, t: Tag)
    requires log <= log'
    ensures Count(log, t) <= Count(log', t)
  {
    if |log| < |log'| {
      CountPrefix(log, log'[..|log'| - 1], t);
    } else {
      assert log == log';
    }
  }

  // ---------- the stall ----------

  /** Number m is outstanding, the window reaches as far beyond it as it may, and more is queued. */
  predicate Stalled(n: Node, b: Addr, m: nat) {
    Key(b) in n.senders &&
    var ss := n.senders[Key(b)];
    InWindow(ss.window, m) && ss.seqno == m + 4 && ss.dataQueue != []
  }

  /** Peer b's sender has the same numbers and the same packets queued. */
  predicate SameProgress(n: Node, o: Node, b: Addr) {
    && Key(b) in n.senders && Key(b) in o.senders
    && o.senders[Key(b)].seqno == n.senders[Key(b)].seqno && o.senders[Key(b)].dataQueue == n.senders[Key(b)].dataQueue
  }

  /** An outstanding number stays outstanding until it is acknowledged. */
  lemma StillOutstanding(v: Outgoing, w: Outgoing, b: Addr, m: nat)
    requires OutgoingInv(v, b) && OutgoingInv(w, b) && Advances(v, w) && v.sender.Some?
    requires InWindow(v.sender.value.window, m) && Count(w.log, Acknowledged(m)) == 0
    ensures w.sender.Some? && InWindow(w.sender.value.window, m)
    ensures FIRST_SEQ < m && w.sender.value.seqno < m + WINDOW
  {
    hide Count, InWindow, QueueOk, EventsOk, Taken, StreamOf, Numbered;
    InWindowMeaning(v.sender.value.window, m);
    InWindowMeaning(w.sender.value.window, m);
    var i :| Occupied(v.sender.value.window, i) && SeqAt(v.sender.value.window, i) == m;
    NumberedBounds(v.sender.value.window[i].pkg.value, v.sender.value.seqno, StreamOf(v));
    assert NumberOk(w.log, w.sender.value, m);
  }

  lemma NothingTaken(v: Outgoing, w: Outgoing, b: Addr)
    requires OutgoingInv(v, b) && OutgoingInv(w, b) && Advances(v, w) && v.sender.Some? && w.sender.Some?
    requires v.sender.value.dataQueue != [] && w.sender.value.seqno == v.sender.value.seqno
    ensures Taken(w) == Taken(v) && w.sender.value.dataQueue == v.sender.value.dataQueue
  {
    hide NumbersOk, EventsOk, QueueOk, Taken, WindowOk;
  }

  /** From a stalled state on, however the run goes on, the sender makes no progress as long as number
      m is not acknowledged. */
  lemma StalledUntilAcked(cfg: Config, ws: seq<World>, acts: seq<Action>, i: nat, j: nat, a: Addr, b: Addr, m: nat)
    requires Run(cfg, ws, acts) && i <= j < |ws| && Stalled(ws[i](a), b, m)
    requires Count(SendView(ws[j](a).log, b), Acknowledged(m)) == 0
    ensures Stalled(ws[j](a), b, m) && SameProgress(ws[i](a), ws[j](a), b)
    ensures Taken(Out(ws[j], a, b)) == Taken(Out(ws[i], a, b))
  {
    hide WorldInv, Step, Advances, OutgoingInv, InWindow, Count, Taken, SendView;
    var v, w := Out(ws[i], a, b), Out(ws[j], a, b);
    RunAdvances(cfg, ws, acts, i, j, a, b);
    InvAt(cfg, ws, acts, i, a, b);
    InvAt(cfg, ws, acts, j, a, b);
    StillOutstanding(v, w, b, m);
    Further(v, w);
    NothingTaken(v, w, b);
  }

  lemma Further(v: Outgoing, w: Outgoing)
    requires Advances(v, w) && v.sender.Some? && w.sender.Some?
    ensures v.sender.value.seqno <= w.sender.value.seqno
  {
  }

  lemma InvAt(cfg: Config, ws: seq<World>, acts: seq<Action>, i: nat, a: Addr, b: Addr)
    requires Run(cfg, ws, acts) && i < |ws|
    ensures OutgoingInv(Out(ws[i], a, b), b)
  {
    hide OutgoingInv, Step;
    RunInv(cfg, ws, acts, i);
    LinkAt(ws[i], a, b);
    SenderInvAt(ws[i](a), b);
  }

  // ---------- the queue behind it ----------

  /** Popping a message for b takes it. */
  lemma PoppedIsTaken(n: Node, o: Node, b: Addr)
    requires OutgoingInv(OutgoingOf(n, b), b) && OutgoingInv(OutgoingOf(o, b), b)
    requires OutgoingOf(n, b).log <= OutgoingOf(o, b).log
    requires n.sendQueue != [] && n.sendQueue[0].toaddr == b && o.sendQueue == n.sendQueue[1..]
    ensures Taken(OutgoingOf(o, b)) != Taken(OutgoingOf(n, b))
  {
    hide SenderOk, EventsOk, NumbersOk, Stream, SendView;
    PendingHead(n.sendQueue, b);
    SubmitsPrefix(SendView(n.log, b), SendView(o.log, b));
    assert |Submits(SendView(n.log, b))| == |Taken(OutgoingOf(n, b))| + |Pending(n.sendQueue, b)|;
    assert |Submits(SendView(o.log, b))| == |Taken(OutgoingOf(o, b))| + |Pending(o.sendQueue, b)|;
  }

  lemma {:induction false} SubmitsPrefix(log: seq<Event>, log': seq<Event>)
    requires log <= log'
    ensures |Submits(log)| <= |Submits(log')|
  {
    if |log| < |log'| {
      SubmitsPrefix(log, log'[..|log'| - 1]);
    } else {
      assert log == log';
    }
  }

  /** One step leaves sendQueue, or appends to it, or pops its head. */
  lemma StepQueue(cfg: Config, w: World, act: Action, w': World, a: Addr)
    requires Step(cfg, w, act, w')
    ensures w(a).sendQueue <= w'(a).sendQueue || (w(a).sendQueue != [] && w'(a).sendQueue == w(a).sendQueue[1..])
  {
    hide LoopStep, MaySend, MayArrive;
  }

  /** While b's sender is stalled, a message for b at the head of sendQueue blocks everything behind
      it, for whatever peer. */
  lemma {:induction false} HeadBlocks(cfg: Config, ws: seq<World>, acts: seq<Action>, i: nat, j: nat, a: Addr, b: Addr,
      m: nat)
    requires Run(cfg, ws, acts) && i <= j < |ws| && Stalled(ws[i](a), b, m)
    requires Count(SendView(ws[j](a).log, b), Acknowledged(m)) == 0
    requires ws[i](a).sendQueue != [] && ws[i](a).sendQueue[0].toaddr == b
    ensures ws[i](a).sendQueue <= ws[j](a).sendQueue
  {
    hide Stalled, SameProgress, Step, Advances, OutgoingInv, Count, Taken, SendView, Pending;
    if i < j {
      var n, o := ws[j - 1](a), ws[j](a);
      RunAdvances(cfg, ws, acts, j - 1, j, a, b);
      LogsGrow(Out(ws[j - 1], a, b), Out(ws[j], a, b));
      CountPrefix(SendView(n.log, b), SendView(o.log, b), Acknowledged(m));
      HeadBlocks(cfg, ws, acts, i, j - 1, a, b, m);
      StepQueue(cfg, ws[j - 1], acts[j - 1], ws[j], a);
      StalledUntilAcked(cfg, ws, acts, i, j - 1, a, b, m);
      StalledUntilAcked(cfg, ws, acts, i, j, a, b, m);
      InvAt(cfg, ws, acts, j - 1, a, b);
      InvAt(cfg, ws, acts, j, a, b);
      if o.sendQueue == n.sendQueue[1..] {
        PoppedIsTaken(n, o, b);
      }
    }
  }

  lemma LogsGrow(v: Outgoing, w: Outgoing)
    requires Advances(v, w)
    ensures v.log <= w.log
  {
  }

  /** A number given up is not transmitted any more, so only a late acknowledgement can end the stall. */
  lemma GivenUpIsSilent(cfg: Config, ws: seq<World>, acts: seq<Action>, i: nat, j: nat, a: Addr, b: Addr, m: nat)
    requires Run(cfg, ws, acts) && i <= j < |ws|
    requires Count(SendView(ws[i](a).log, b), GaveUp(m)) == 1
    ensures Count(SendView(ws[i](a).log, b), Transmission(m)) == 6
    ensures Count(SendView(ws[j](a).log, b), Transmission(m)) == 6
  {
    hide Advances, SendView, Count, Step, Taken, StreamOf, SenderOk, EventsOk, QueueOk;
    var v, w := Out(ws[i], a, b), Out(ws[j], a, b);
    RunAdvances(cfg, ws, acts, i, j, a, b);
    LogsGrow(v, w);
    CountPrefix(v.log, w.log, Transmission(m));
    InvAt(cfg, ws, acts, i, a, b);
    InvAt(cfg, ws, acts, j, a, b);
    if v.sender.None? {
      NothingSent(v.log, GaveUp(m));
    } else {
      assert NumberOk(v.log, v.sender.value, m);
      SenderStays(v, w);
      assert NumberOk(w.log, w.sender.value, m);
    }
  }

  lemma SenderStays(v: Outgoing, w: Outgoing)
    requires Advances(v, w) && v.sender.Some?
    ensures w.sender.Some?
  {
  }
}
