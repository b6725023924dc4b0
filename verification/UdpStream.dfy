/**
 Fragmentation (udp.h:542-569) and reassembly (udp.h:513-539), and the proof that
 reassembly undoes fragmentation for every sequence of messages and every prefix of
 their fragments.
 */
module UdpStream {
  import opened Seqs
  import opened UdpTypes

  // ---------- fragments ----------

  /** One fragment per CONST_MAXPKTSIZE bytes begun. */
  function NumFragments(len: nat): nat {
    if len == 0 then 0 else if len <= 1000 then 1 else 1 + NumFragments(len - 1000)
  }

  lemma {:induction false} NumFragmentsBounds(len: nat)
    ensures 1000 * NumFragments(len) - 1000 < len <= 1000 * NumFragments(len) || len == NumFragments(len) == 0
  {
    if len > 1000 {
      NumFragmentsBounds(len - 1000);
    }
  }

  /** Bytes of a message of length len that its first i fragments cover. */
  function Covered(len: nat, i: nat): (n: nat)
    ensures n <= len
  {
    if 1000 * i < len then 1000 * i else len
  }

  /** The i-th fragment of a message, before it is numbered. */
  function FragmentAt(m: Msg, i: nat): Pkg
    requires i < NumFragments(|m.bytes|)
  {
    NumFragmentsBounds(|m.bytes|);
    var len := |m.bytes|;
    BLANK.(totallen := len, offset := 1000 * i, sid := m.sid, data := m.bytes[1000 * i..Covered(len, i + 1)])
  }

  function Fragments(m: Msg): (fs: seq<Pkg>)
    ensures |fs| == NumFragments(|m.bytes|)
  {
    seq(NumFragments(|m.bytes|), i requires 0 <= i < NumFragments(|m.bytes|) => FragmentAt(m, i))
  }

  /** All fragments of a sequence of messages, in order. */
  function Stream(ms: seq<Msg>): seq<Pkg> {
    if ms == [] then [] else Stream(ms[..|ms| - 1]) + Fragments(ms[|ms| - 1])
  }

  /** The messages that have any fragments at all. */
  function NonEmpty(ms: seq<Msg>): seq<Msg> {
    if ms == [] then []
    else NonEmpty(ms[..|ms| - 1]) + if ms[|ms| - 1].bytes == [] then [] else [ms[|ms| - 1]]
  }

  lemma {:induction false} StreamConcat(ms: seq<Msg>, ns: seq<Msg>)
    ensures Stream(ms + ns) == Stream(ms) + Stream(ns)
  {
    if ns == [] {
      assert ms + ns == ms;
    } else {
      assert (ms + ns)[..|ms + ns| - 1] == ms + ns[..|ns| - 1];
      StreamConcat(ms, ns[..|ns| - 1]);
    }
  }

  lemma {:induction false} NonEmptyConcat(ms: seq<Msg>, ns: seq<Msg>)
    ensures NonEmpty(ms + ns) == NonEmpty(ms) + NonEmpty(ns)
  {
    if ns == [] {
      assert ms + ns == ms;
    } else {
      assert (ms + ns)[..|ms + ns| - 1] == ms + ns[..|ns| - 1];
      NonEmptyConcat(ms, ns[..|ns| - 1]);
    }
  }

  lemma NonEmptySnoc(ms: seq<Msg>, m: Msg)
    ensures NonEmpty(ms + [m]) == NonEmpty(ms) + if m.bytes == [] then [] else [m]
  {
    Snoc(ms, m);
  }

  lemma StreamSnoc(ms: seq<Msg>, m: Msg)
    ensures Stream(ms + [m]) == Stream(ms) + Fragments(m)
  {
    Snoc(ms, m);
  }

  predicate IsLast(p: Pkg) {
    p.offset + |p.data| == p.totallen
  }

  // ---------- reassembly ----------

  /** sessions holds the partly received messages; delivered the messages handed up;
      overrun tells whether a write ever went past a session buffer. */
  datatype Assembly = Assembly(sessions: map<int, Session>, delivered: seq<Msg>, overrun: bool)

  const EMPTY: Assembly := Assembly(map[], [], false)

  function Zeros(n: nat): (z: seq<byte>)
    ensures |z| == n
  {
    seq(n, _ => 0)
  }

  /** memcpy of data into buf at position at. */
  function Blit(buf: seq<byte>, at: nat, data: seq<byte>): (r: seq<byte>)
    requires at + |data| <= |buf|
    ensures |r| == |buf|
  {
    seq(|buf|, i requires 0 <= i < |buf| => if at <= i < at + |data| then data[i - at] else buf[i])
  }

  /** The session a packet continues, or a new one. */
  function SessionFor(a: Assembly, p: Pkg): Session {
    if p.sid in a.sessions then a.sessions[p.sid] else Session(0, Zeros(p.totallen))
  }

  /** dataRecv: accept one packet. */
  function Absorb(a: Assembly, p: Pkg): Assembly {
    var s := SessionFor(a, p);
    if p.offset != s.first then a
    else if |s.buf| < p.offset + |p.data| then a.(overrun := true)
    else Store(a, p, Blit(s.buf, p.offset, p.data))
  }

  function Store(a: Assembly, p: Pkg, buf: seq<byte>): Assembly
    requires p.offset + |p.data| <= |buf|
  {
    var first := p.offset + |p.data|;
    if first == p.totallen
    then a.(sessions := a.sessions - {p.sid}, delivered := a.delivered + [Msg(p.sid, buf[..first])])
    else a.(sessions := a.sessions[p.sid := Session(first, buf)])
  }

  /** Accept the first k packets in order, from nothing. */
  function Rebuild(ps: seq<Pkg>, k: nat): Assembly
    requires k <= |ps|
  {
    if k == 0 then EMPTY else Absorb(Rebuild(ps, k - 1), ps[k - 1])
  }

  /** Numbering a packet does not change how it is absorbed. */
  lemma AbsorbIgnoresNumber(a: Assembly, p: Pkg, t: PkgType, q: nat)
    ensures Absorb(a, p.(ptype := t, seqno := q)) == Absorb(a, p)
  {
  }

  lemma RebuildNone(ps: seq<Pkg>)
    ensures Rebuild(ps, 0) == EMPTY
  {
  }

  /** Only the first k packets matter. */
  lemma {:induction false} RebuildLocal(ps: seq<Pkg>, qs: seq<Pkg>, k: nat)
    requires k <= |ps| && k <= |qs| && forall i | 0 <= i < k :: ps[i] == qs[i]
    ensures Rebuild(ps, k) == Rebuild(qs, k)
  {
    if k > 0 {
      RebuildLocal(ps, qs, k - 1);
    }
  }

  // ---------- reassembly undoes fragmentation ----------

  /** The open session of a message after its first i fragments. */
  function Partial(m: Msg, i: nat): Session {
    var n := Covered(|m.bytes|, i);
    Session(n, m.bytes[..n] + Zeros(|m.bytes| - n))
  }

  /** The state of reassembly after i fragments of m, with d delivered before. */
  function Midway(d: seq<Msg>, m: Msg, i: nat): Assembly {
    if i == 0 then Assembly(map[], d, false)
    else if i < NumFragments(|m.bytes|) then Assembly(map[m.sid := Partial(m, i)], d, false)
    else Assembly(map[], d + [m], false)
  }

  lemma FragmentBounds(m: Msg, i: nat)
    requires i < NumFragments(|m.bytes|)
    ensures Covered(|m.bytes|, i) == 1000 * i < Covered(|m.bytes|, i + 1) <= |m.bytes|
    ensures Covered(|m.bytes|, i + 1) == |m.bytes| <==> i + 1 == NumFragments(|m.bytes|)
    ensures IsLast(FragmentAt(m, i)) <==> i + 1 == NumFragments(|m.bytes|)
    ensures 0 < |FragmentAt(m, i).data| <= 1000
  {
    NumFragmentsBounds(|m.bytes|);
  }

  lemma BlitFragment(m: Msg, i: nat)
    requires i < NumFragments(|m.bytes|)
    ensures FragmentAt(m, i).offset + |FragmentAt(m, i).data| <= |Partial(m, i).buf|
    ensures Blit(Partial(m, i).buf, FragmentAt(m, i).offset, FragmentAt(m, i).data) == Partial(m, i + 1).buf
  {
    FragmentBounds(m, i);
  }

  lemma AbsorbFragment(d: seq<Msg>, m: Msg, i: nat)
    requires i < NumFragments(|m.bytes|)
    ensures Absorb(Midway(d, m, i), FragmentAt(m, i)) == Midway(d, m, i + 1)
  {
    FragmentBounds(m, i);
    BlitFragment(m, i);
    var a, p := Midway(d, m, i), FragmentAt(m, i);
    if i == 0 {
      assert m.bytes[..0] + Zeros(|m.bytes|) == Zeros(|m.bytes|);
    }
    assert SessionFor(a, p) == Partial(m, i);
    StoreFragment(d, m, i);
  }

  lemma StoreFragment(d: seq<Msg>, m: Msg, i: nat)
    requires i < NumFragments(|m.bytes|)
    ensures FragmentAt(m, i).offset + |FragmentAt(m, i).data| <= |Partial(m, i + 1).buf|
    ensures Store(Midway(d, m, i), FragmentAt(m, i), Partial(m, i + 1).buf) == Midway(d, m, i + 1)
  {
    FragmentBounds(m, i);
    var a, p := Midway(d, m, i), FragmentAt(m, i);
    var n' := Covered(|m.bytes|, i + 1);
    if i + 1 == NumFragments(|m.bytes|) {
      assert Partial(m, i + 1).buf[..n'] == m.bytes;
      assert a.sessions - {m.sid} == map[];
    } else {
      assert a.sessions[m.sid := Partial(m, i + 1)] == map[m.sid := Partial(m, i + 1)];
    }
  }

  lemma {:induction false} RebuildFragments(ps: seq<Pkg>, d: seq<Msg>, m: Msg, n: nat, i: nat)
    requires n + NumFragments(|m.bytes|) <= |ps| && i <= NumFragments(|m.bytes|)
    requires forall j | 0 <= j < NumFragments(|m.bytes|) :: ps[n + j] == FragmentAt(m, j)
    requires Rebuild(ps, n) == Assembly(map[], d, false)
    ensures Rebuild(ps, n + i) == Midway(d, m, i)
  {
    hide Absorb, FragmentAt;
    if i > 0 {
      RebuildFragments(ps, d, m, n, i - 1);
      AbsorbFragment(d, m, i - 1);
      assert ps[n + (i - 1)] == FragmentAt(m, i - 1);
    }
  }

  lemma StreamParts(front: seq<Msg>, m: Msg, ms: seq<Msg>)
    requires ms != [] && front == ms[..|ms| - 1] && m == ms[|ms| - 1]
    ensures |Stream(ms)| == |Stream(front)| + NumFragments(|m.bytes|)
    ensures forall i | 0 <= i < |Stream(front)| :: Stream(ms)[i] == Stream(front)[i]
    ensures forall j | 0 <= j < NumFragments(|m.bytes|) :: Stream(ms)[|Stream(front)| + j] == FragmentAt(m, j)
  {
  }

  /** The state of reassembly i fragments into the last message. */
  lemma RebuildLast(front: seq<Msg>, m: Msg, ms: seq<Msg>, i: nat)
    requires ms != [] && front == ms[..|ms| - 1] && m == ms[|ms| - 1] && i <= NumFragments(|m.bytes|)
    requires Rebuild(Stream(front), |Stream(front)|) == Assembly(map[], NonEmpty(front), false)
    ensures |Stream(ms)| == |Stream(front)| + NumFragments(|m.bytes|)
    ensures Rebuild(Stream(ms), |Stream(front)| + i) == Midway(NonEmpty(front), m, i)
  {
    hide Rebuild, Midway, Fragments;
    StreamParts(front, m, ms);
    RebuildLocal(Stream(ms), Stream(front), |Stream(front)|);
    RebuildFragments(Stream(ms), NonEmpty(front), m, |Stream(front)|, i);
  }

  /** Round trip: feeding all fragments of any messages, whatever their session ids, rebuilds
      exactly the non-empty ones, leaves no session open and never overruns a buffer. */
  lemma {:induction false} RebuildStream(ms: seq<Msg>)
    ensures Rebuild(Stream(ms), |Stream(ms)|) == Assembly(map[], NonEmpty(ms), false)
  {
    hide Rebuild;
    RebuildNone(Stream(ms));
    if ms != [] {
      var front, m := ms[..|ms| - 1], ms[|ms| - 1];
      RebuildStream(front);
      RebuildLast(front, m, ms, NumFragments(|m.bytes|));
    }
  }

  predicate Sane(a: Assembly, ms: seq<Msg>) {
    a.delivered <= NonEmpty(ms) && |a.sessions| <= 1 && !a.overrun
  }

  lemma MidwaySane(ms: seq<Msg>, m: Msg, i: nat)
    requires 0 < i <= NumFragments(|m.bytes|)
    ensures Sane(Midway(NonEmpty(ms), m, i), ms + [m])
  {
    hide NonEmpty, Partial;
    NonEmptySnoc(ms, m);
    assert |map[m.sid := Partial(m, i)]| == 1;
  }

  /** Every prefix of the fragments: what was delivered is a prefix of the messages, at most
      one session is open, and nothing overran. */
  lemma {:induction false} RebuildPrefix(ms: seq<Msg>, k: nat)
    requires k <= |Stream(ms)|
    ensures Sane(Rebuild(Stream(ms), k), ms)
  {
    hide Rebuild, Midway, Fragments;
    RebuildNone(Stream(ms));
    if ms != [] {
      var front, m := ms[..|ms| - 1], ms[|ms| - 1];
      var n := |Stream(front)|;
      FrontLast(ms);
      NonEmptySnoc(front, m);
      if k <= n {
        RebuildPrefix(front, k);
        StreamParts(front, m, ms);
        RebuildLocal(Stream(ms), Stream(front), k);
      } else {
        RebuildStream(front);
        RebuildLast(front, m, ms, k - n);
        MidwaySane(front, m, k - n);
      }
    }
  }

  /** Delivery only grows along the stream. */
  lemma {:induction false} RebuildMonotone(ps: seq<Pkg>, j: nat, k: nat)
    requires j <= k <= |ps|
    ensures Rebuild(ps, j).delivered <= Rebuild(ps, k).delivered
  {
    if j < k {
      RebuildMonotone(ps, j, k - 1);
    }
  }

  /** Messages without bytes have no fragments. */
  lemma {:induction false} StreamNonEmpty(ms: seq<Msg>)
    ensures Stream(NonEmpty(ms)) == Stream(ms)
  {
    hide Fragments;
    if ms != [] {
      var front, m := ms[..|ms| - 1], ms[|ms| - 1];
      StreamNonEmpty(front);
      StreamSnoc(NonEmpty(front), m);
      NoFragments(m);
      if m.bytes == [] {
        assert NonEmpty(front) + [] == NonEmpty(front) && Stream(front) + [] == Stream(front);
      }
    }
  }

  lemma NoFragments(m: Msg)
    ensures m.bytes == [] ==> Fragments(m) == []
  {
  }

  /** Accepting packet p, the last of sofar, delivered one message, with p's session id, and the
      fragments of everything delivered are then sofar; or p was not a last fragment and nothing was
      delivered. */
  predicate DeliversAtLast(before: Assembly, p: Pkg, after: Assembly, sofar: seq<Pkg>) {
    if IsLast(p)
    then
      && |after.delivered| == |before.delivered| + 1 && after.delivered[|before.delivered|].sid == p.sid
      && Stream(after.delivered) == sofar
    else after.delivered == before.delivered
  }

  lemma MidwayDelivers(ms: seq<Msg>, m: Msg, i: nat)
    requires i < NumFragments(|m.bytes|)
    ensures |Stream(ms + [m])| == |Stream(ms)| + NumFragments(|m.bytes|)
    ensures DeliversAtLast(Midway(NonEmpty(ms), m, i), FragmentAt(m, i), Midway(NonEmpty(ms), m, i + 1),
                           Stream(ms + [m])[..|Stream(ms)| + i + 1])
  {
    hide Stream, NonEmpty;
    FragmentBounds(m, i);
    StreamSnoc(ms, m);
    StreamSnoc(NonEmpty(ms), m);
    StreamNonEmpty(ms);
    TakeAll(Stream(ms + [m]));
  }

  /** The last fragment of a message, and only that one, delivers it. */
  lemma {:induction false} LastFragmentDelivers(ms: seq<Msg>, k: nat)
    requires k < |Stream(ms)|
    ensures DeliversAtLast(Rebuild(Stream(ms), k), Stream(ms)[k], Rebuild(Stream(ms), k + 1), Stream(ms)[..k + 1])
  {
    hide Rebuild, Midway, Fragments, DeliversAtLast;
    var front, m := ms[..|ms| - 1], ms[|ms| - 1];
    var n := |Stream(front)|;
    StreamParts(front, m, ms);
    if k < n {
      LastFragmentDelivers(front, k);
      RebuildLocal(Stream(ms), Stream(front), k);
      RebuildLocal(Stream(ms), Stream(front), k + 1);
      assert Stream(ms)[..k + 1] == Stream(front)[..k + 1];
    } else {
      FrontLast(ms);
      RebuildStream(front);
      RebuildLast(front, m, ms, k - n);
      RebuildLast(front, m, ms, k - n + 1);
      MidwayDelivers(front, m, k - n);
      assert Stream(ms)[n + (k - n)] == FragmentAt(m, k - n);
    }
  }

  // ---------- what a fragment is ----------

  lemma {:induction false} NumFragmentsIs(len: nat)
    ensures NumFragments(len) == (len + 999) / 1000
  {
    if len > 1000 {
      NumFragmentsIs(len - 1000);
    }
  }

  /** One fragment for every 1000 bytes begun: each but the last carries 1000 bytes, from where the one
      before it ended, and all say how long the message is and which session it belongs to. */
  lemma FragmentIs(m: Msg, i: nat)
    requires i < NumFragments(|m.bytes|)
    ensures var f := FragmentAt(m, i);
            && NumFragments(|m.bytes|) == (|m.bytes| + 999) / 1000
            && f.offset == 1000 * i && f.totallen == |m.bytes| && f.sid == m.sid
            && |f.data| == (if i + 1 < NumFragments(|m.bytes|) then 1000 else |m.bytes| - 1000 * i)
            && forall j | 0 <= j < |f.data| :: f.data[j] == m.bytes[1000 * i + j]
  {
    NumFragmentsIs(|m.bytes|);
    FragmentBounds(m, i);
  }
}
