/**
 How the client reassembles V1 and V2 response frames (client.h:151-263).  The counts of octets
 left are taken before header octets are consumed, so the loop may read past the chunk; and a V2
 header can only be resumed at its 32nd octet.
 */
module Client {
  import opened Header
  import opened Frames
  import opened Seqs

  /** The arguments of onCallback. */
  datatype Callback = Callback(funcid: uint16, requestid: int64, format: uint32, timestamp: int64, retCode: int32,
      body: seq<octet>)

  predicate Json(h: seq<octet>)
    requires |h| >= V1
  {
    RespOf(h).version >= HEADER_JSON_VERSION
  }

  function HeaderLen(h: seq<octet>): nat
    requires |h| >= V1
  {
    if Json(h) then V2 else V1
  }

  function CallbackFor(h: seq<octet>, body: seq<octet>): Callback
    requires |h| >= V1 && |h| >= HeaderLen(h)
  {
    var r := RespOf(h);
    Callback(r.funcid, r.requestid, if Json(h) then FormatOf(h) else HEADER_BODYFORMAT_PROTO, r.timestamp,
        S32(r.retCode), body)
  }

  // ---------- the loop ----------

  /** One iteration ends the loop, reads past the chunk, reads header octets that have not arrived,
      spins for ever, or makes a callback and leaves some octets. */
  datatype Turn =
    | Stop(header: seq<octet>, payload: Option<seq<octet>>, ret: int)
    | Past
    | Early
    | Hang
    | Go(callback: Callback, rest: seq<octet>)

  function Min(a: int, b: int): int {
    if a < b then a else b
  }

  function BodyLen(h: seq<octet>): nat
    requires |h| >= V1
  {
    RespOf(h).bodylen
  }

  function Received(payload: Option<seq<octet>>): seq<octet> {
    if payload.Some? then payload.value else []
  }

  /** A cached state that the loop can start from. */
  predicate Startable(header: seq<octet>, payload: Option<seq<octet>>) {
    |header| <= V2 && (|header| < V1 ==> payload == None) && (|header| >= V1 ==> |Received(payload)| <= BodyLen(header))
  }

  /** How many body octets the loop copies, when it believes in left octets. */
  function Wanted(h: seq<octet>, payload: Option<seq<octet>>, left: nat): nat
    requires V1 <= |h| && |Received(payload)| <= BodyLen(h)
  {
    if BodyLen(h) > 0 then Min(BodyLen(h) - |Received(payload)|, left) else 0
  }

  /** The payload part: h is the header as far as it is there, rest what is left of the chunk, but
      the loop still believes in left octets. */
  function TakeBody(h: seq<octet>, payload: Option<seq<octet>>, rest: seq<octet>, left: nat): (t: Turn)
    requires V1 <= |h| <= V2 && |Received(payload)| <= BodyLen(h)
    ensures t.Go? ==> |t.rest| <= |rest|
    ensures t.Stop? ==> Startable(t.header, t.payload)
  {
    var m := Wanted(h, payload, left);
    if |rest| < m then Past
    else
      var p' := Received(payload) + rest[..m];
      if |p'| == BodyLen(h) then
        if |h| < HeaderLen(h) then Early else Go(CallbackFor(h, p'), rest[m..])
      else Stop(h, Some(p'), 0)
  }

  /** The header is complete up to its 32nd octet. */
  function AfterHeader(h: seq<octet>, payload: Option<seq<octet>>, rest: seq<octet>, left: nat): (t: Turn)
    requires |h| == V1 && |Received(payload)| <= BodyLen(h)
    ensures t.Go? ==> |t.rest| <= |rest|
    ensures t.Stop? ==> Startable(t.header, t.payload)
  {
    if RespOf(h).begin != HEADER_BEGIN then Stop([], None, -1)
    else if Json(h) then
      var n := Min(V2 - V1, |rest|);
      SameStart(h, rest[..n]);
      TakeBody(h + rest[..n], payload, rest[n..], |rest|)
    else TakeBody(h, payload, rest, left)
  }

  /** Octets behind the 32nd do not change the V1 fields. */
  lemma SameStart(h: seq<octet>, more: seq<octet>)
    requires |h| >= V1
    ensures RespOf(h + more) == RespOf(h)
  {
    var b := h + more;
    assert b[0..4] == h[0..4] && b[4..6] == h[4..6] && b[6..8] == h[6..8] && b[8..12] == h[8..12]
        && b[12..16] == h[12..16]
        && b[16..24] == h[16..24] && b[24..32] == h[24..32];
  }

  function Iteration(header: seq<octet>, payload: Option<seq<octet>>, chunk: seq<octet>): (t: Turn)
    requires Startable(header, payload) && chunk != []
    ensures t.Go? ==> |t.rest| < |chunk| || (|t.rest| == |chunk| && |header| == V1)
    ensures t.Stop? ==> Startable(t.header, t.payload)
  {
    if |header| > V1 then Hang
    else
      var n := Min(V1 - |header|, |chunk|);
      var h := header + chunk[..n];
      if |h| < V1 then Stop(h, payload, 0)
      else
        assert |header| == V1 ==> h == header;
        AfterHeader(h, payload, chunk[n..], |chunk|)
  }

  datatype Outcome =
    | Fed(header: seq<octet>, payload: Option<seq<octet>>, out: seq<Callback>, ret: int)
    | Broken(out: seq<Callback>)

  /** recvEvent(EVENT_DATA): Broken once an iteration reads what has not arrived, or spins. */
  function Feed(header: seq<octet>, payload: Option<seq<octet>>, chunk: seq<octet>, out: seq<Callback>): (o: Outcome)
    requires Startable(header, payload)
    ensures o.Fed? ==> Startable(o.header, o.payload)
    decreases |chunk|, |header|
  {
    if chunk == [] then Fed(header, payload, out, 0)
    else
      match Iteration(header, payload, chunk)
      case Stop(h, p, ret) => Fed(h, p, out, ret)
      case Go(cb, rest) => Feed([], None, rest, out + [cb])
      case _ => Broken(out)
  }

  // ---------- response frames ----------

  /** A response frame as genRespPack builds it, for either version of the protocol. */
  predicate GoodResponse(f: Frame) {
    && |f.header| >= V1 && |f.header| == HeaderLen(f.header)
    && RespOf(f.header).begin == HEADER_BEGIN && BodyLen(f.header) == |f.body|
  }

  predicate GoodResponses(fs: seq<Frame>) {
    forall f | f in fs :: GoodResponse(f)
  }

  /** The position right behind octet 32 can be resumed in a V2 frame with a body. */
  predicate Late(f: Frame) {
    |f.header| > V1 && f.body != []
  }

  function CallbackOf(f: Frame): Callback
    requires GoodResponse(f)
  {
    CallbackFor(f.header, f.body)
  }

  function CallbacksOf(fs: seq<Frame>): seq<Callback>
    requires GoodResponses(fs)
  {
    seq(|fs|, i requires 0 <= i < |fs| => CallbackOf(fs[i]))
  }

  // ---------- one frame ----------

  lemma TurnLittle(h: seq<octet>, c: seq<octet>)
    requires |h| + |c| < V1 && c != []
    ensures Iteration(h, None, c) == Stop(h + c, None, 0)
  {
    assert c[..|c|] == c;
  }

  /** The header of f, cut behind octet x, and the octets that follow. */
  lemma Prefixes(f: Frame)
    requires GoodResponse(f)
    ensures RespOf(f.header[..V1]) == RespOf(f.header) && Json(f.header[..V1]) == Json(f.header)
    ensures f.header == f.header[..V1] + f.header[V1..]
  {
    hide RespOf;
    assert f.header == f.header[..V1] + f.header[V1..];
    SameStart(f.header[..V1], f.header[V1..]);
  }

  /** payload is what the loop has allocated when x octets of a frame have arrived. */
  function PayloadAt(x: nat): Option<seq<octet>> {
    if x == V1 then Some([]) else None
  }

  /** The body of f, once its header is complete. */
  lemma TakeWhole(f: Frame, payload: Option<seq<octet>>, rest: seq<octet>, left: nat)
    requires GoodResponse(f) && Received(payload) == [] && f.body <= rest && |f.body| <= left
    ensures TakeBody(f.header, payload, rest, left) == Go(CallbackOf(f), rest[|f.body|..])
  {
    hide RespOf, FormatOf, CallbackFor;
    assert Wanted(f.header, payload, left) == |f.body|;
    assert Received(payload) + rest[..|f.body|] == f.body;
  }

  /** The rest of a frame, once its first 32 octets are there.  left is what the loop believes. */
  lemma BodyWhole(f: Frame, payload: Option<seq<octet>>, rest: seq<octet>, left: nat)
    requires GoodResponse(f) && Received(payload) == [] && |rest| <= left
    requires f.header[V1..] + f.body <= rest
    ensures BodyLen(f.header[..V1]) == |f.body|
    ensures AfterHeader(f.header[..V1], payload, rest, left) == Go(CallbackOf(f), rest[|Bytes(f)| - V1..])
  {
    hide RespOf, FormatOf, TakeBody, CallbackFor;
    Prefixes(f);
    var n := |f.header| - V1;
    assert rest[..n] == f.header[V1..] && f.body <= rest[n..] && rest[n..][|f.body|..] == rest[n + |f.body|..];
    if Json(f.header) {
      TakeWhole(f, payload, rest[n..], |rest|);
    } else {
      assert f.header[..V1] == f.header && rest[n..] == rest;
      TakeWhole(f, payload, rest, left);
    }
  }

  /** Less than the whole frame, but more than 32 octets, or a V1 frame or an empty V2 frame cut at
      its 32nd octet: the loop reads what is not there. */
  lemma BodyShort(f: Frame, payload: Option<seq<octet>>, rest: seq<octet>, left: nat)
    requires GoodResponse(f) && Received(payload) == [] && |rest| <= left && rest <= f.header[V1..] + f.body
    requires |rest| < |Bytes(f)| - V1
    requires Json(f.header) ==> rest != [] || f.body == []
    requires !Json(f.header) ==> |rest| < left
    ensures BodyLen(f.header[..V1]) == |f.body|
    ensures var t := AfterHeader(f.header[..V1], payload, rest, left); t == Past || t == Early
  {
    hide RespOf, FormatOf;
    Prefixes(f);
    if Json(f.header) {
      var n := Min(V2 - V1, |rest|);
      SameStart(f.header[..V1], rest[..n]);
    }
  }

  /** A V2 frame with a body, cut at its 32nd octet: nothing is read, and the loop can resume. */
  lemma BodyLate(f: Frame, left: nat)
    requires GoodResponse(f) && Late(f)
    ensures BodyLen(f.header[..V1]) == |f.body|
    ensures AfterHeader(f.header[..V1], None, [], left) == Stop(f.header[..V1], Some([]), 0)
  {
    hide RespOf, FormatOf;
    Prefixes(f);
    var none: seq<octet> := [];
    SameStart(f.header[..V1], none[..0]);
    assert f.header[..V1] + none[..0] == f.header[..V1];
  }

  /** The loop up to the 32nd octet of f. */
  lemma HeaderArrives(f: Frame, x: nat, c: seq<octet>)
    requires GoodResponse(f) && x <= V1 && c != [] && V1 <= x + |c| && (x == V1 ==> Late(f))
    requires f.header[..x] + c[..V1 - x] == f.header[..V1]
    ensures Startable(f.header[..x], PayloadAt(x)) && BodyLen(f.header[..V1]) == |f.body|
    ensures Iteration(f.header[..x], PayloadAt(x), c) == AfterHeader(f.header[..V1], PayloadAt(x), c[V1 - x..], |c|)
  {
    hide RespOf, AfterHeader;
    Prefixes(f);
  }

  /** The octets x .. y of a stream that starts with frame f. */
  lemma FrameArrives(f: Frame, tail: seq<octet>, x: nat, y: nat)
    requires |f.header| >= V1 && x <= V1 <= y <= |Bytes(f) + tail|
    ensures var w := Bytes(f) + tail;
            && w[..x] == f.header[..x] && f.header[..x] + w[x..y][..V1 - x] == f.header[..V1]
            && w[x..y][V1 - x..] == (f.header[V1..] + f.body + tail)[..y - V1]
            && |f.header[V1..] + f.body| == |Bytes(f)| - V1
  {
    var w, rest := Bytes(f) + tail, f.header[V1..] + f.body + tail;
    assert w == f.header[..V1] + rest;
    SliceSplit(w, x, V1, y);
    TakeLeft(f.header[..V1], rest, x);
    TakeLeft(f.header[..V1], rest, V1);
    SliceRight(f.header[..V1], rest, y);
    assert f.header[..V1][..x] == f.header[..x];
  }

  lemma FrameSplits(f: Frame, tail: seq<octet>, y: nat)
    requires |f.header| >= V1 && V1 <= y <= |Bytes(f) + tail|
    ensures var rest := (f.header[V1..] + f.body + tail)[..y - V1];
            && (y < |Bytes(f)| ==> rest <= f.header[V1..] + f.body)
            && (|Bytes(f)| <= y ==>
                  f.header[V1..] + f.body <= rest && rest[|Bytes(f)| - V1..] == tail[0..y - |Bytes(f)|])
  {
  }

  /** What the loop makes of frame f, from octet x to octet y. */
  lemma OneFrame(f: Frame, tail: seq<octet>, x: nat, y: nat)
    requires GoodResponse(f) && x <= V1 <= y <= |Bytes(f) + tail| && x < y && (x == V1 ==> Late(f))
    ensures var w := Bytes(f) + tail;
            && Startable(w[..x], PayloadAt(x))
            && (y == V1 && Late(f) ==> Iteration(w[..x], PayloadAt(x), w[x..y]) == Stop(w[0..y], Some([]), 0))
            && (y < |Bytes(f)| && !(y == V1 && Late(f)) ==>
                 Iteration(w[..x], PayloadAt(x), w[x..y]).Past? || Iteration(w[..x], PayloadAt(x), w[x..y]).Early?)
            && (|Bytes(f)| <= y ==>
                  Iteration(w[..x], PayloadAt(x), w[x..y]) == Go(CallbackOf(f), tail[0..y - |Bytes(f)|]))
  {
    hide RespOf, AfterHeader, Iteration, CallbackFor;
    var w := Bytes(f) + tail;
    var c := w[x..y];
    FrameArrives(f, tail, x, y);
    FrameSplits(f, tail, y);
    HeaderArrives(f, x, c);
    if |Bytes(f)| <= y {
      BodyWhole(f, PayloadAt(x), c[V1 - x..], |c|);
    } else if y == V1 && Late(f) {
      assert c[V1 - x..] == [];
      assert w[0..y] == f.header[..V1];
      BodyLate(f, |c|);
    } else {
      BodyShort(f, PayloadAt(x), c[V1 - x..], |c|);
    }
  }

  // ---------- any frames, any chunks ----------

  lemma ResponseSize(f: Frame)
    requires GoodResponse(f)
    ensures Passable(f, Late) && |f.header| >= V1
  {
  }

  lemma CallbacksSnoc(fs: seq<Frame>, late: Frame -> bool, y: nat, out: seq<Callback>)
    requires GoodResponses(fs) && fs != [] && Passable(fs[0], late) && |Bytes(fs[0])| <= y <= |Wire(fs)|
    requires PlaceAt(fs, late, y).Boundary?
    ensures |Bytes(fs[0])| + |Wire(fs[1..])| == |Wire(fs)|
    ensures GoodResponses(CompleteAt(fs, late, y)) && GoodResponses(CompleteAt(fs[1..], late, y - |Bytes(fs[0])|))
    ensures out + CallbacksOf(CompleteAt(fs, late, y)) == (out + [CallbackOf(fs[0])])
              + CallbacksOf(CompleteAt(fs[1..], late, y - |Bytes(fs[0])|))
  {
    hide CallbackOf, CallbacksOf, GoodResponse, PlaceAt, Wire, Bytes;
    NextCache(fs, late, y, []);
    NextPlace(fs, late, y);
    var rest := CompleteAt(fs[1..], late, y - |Bytes(fs[0])|);
    assert CompleteAt(fs, late, y) == [fs[0]] + rest;
    assert forall f | f in rest :: f in fs;
    CallbacksCons(fs[0], rest, out);
  }

  lemma CallbacksCons(f: Frame, fs: seq<Frame>, out: seq<Callback>)
    requires GoodResponse(f) && GoodResponses(fs)
    ensures GoodResponses([f] + fs) && out + CallbacksOf([f] + fs) == (out + [CallbackOf(f)]) + CallbacksOf(fs)
  {
    hide CallbackOf, GoodResponse;
  }

  /** The parser's state after x octets of fs, at a place where it can be resumed. */
  ghost predicate StateAt(o: Outcome, fs: seq<Frame>, x: nat, before: seq<Callback>)
    requires x <= |Wire(fs)| && GoodResponses(fs)
  {
    var done := CompleteAt(fs, Late, x);
    GoodResponses(done) &&
    o == Fed(CacheAt(fs, Late, x), PayloadAt(|CacheAt(fs, Late, x)|), before + CallbacksOf(done), 0)
  }

  lemma NothingFed(header: seq<octet>, payload: Option<seq<octet>>, out: seq<Callback>)
    requires Startable(header, payload)
    ensures Feed(header, payload, [], out) == Fed(header, payload, out, 0)
  {
  }

  lemma FirstState(fs: seq<Frame>, y: nat, before: seq<Callback>)
    requires GoodResponses(fs) && y <= |Wire(fs)| && PlaceAt(fs, Late, y) == Boundary(0, y)
    ensures StateAt(Fed(Wire(fs)[..y], PayloadAt(y), before, 0), fs, y, before)
    ensures y <= V1
  {
    hide GoodResponse;
    FirstCache(fs, Late, y, []);
    assert before + CallbacksOf([]) == before;
    assert CompleteAt(fs, Late, y) == [];
  }

  /** The first frames from octet x to octet y, x at most 32. */
  lemma {:induction false} FeedFromStart(fs: seq<Frame>, x: nat, y: nat, out: seq<Callback>)
    requires GoodResponses(fs) && x <= y <= |Wire(fs)| && PlaceAt(fs, Late, x) == Boundary(0, x)
    ensures Startable(Wire(fs)[..x], PayloadAt(x))
    ensures PlaceAt(fs, Late, y).Boundary? ==>
              StateAt(Feed(Wire(fs)[..x], PayloadAt(x), Wire(fs)[x..y], out), fs, y, out)
    ensures PlaceAt(fs, Late, y).Inside? ==> Feed(Wire(fs)[..x], PayloadAt(x), Wire(fs)[x..y], out).Broken?
    decreases |fs|
  {
    hide GoodResponse, Bytes, Iteration, CallbackFor, StateAt, RespOf, Startable;
    var c, w := Wire(fs)[x..y], Wire(fs);
    FirstState(fs, x, out);
    WireOfNone();
    if x == V1 {
      LateStart(fs);
    } else {
      ShortStart(w, x);
    }
    if x == y {
      NothingFed(w[..x], PayloadAt(x), out);
    } else if y < V1 {
      assert w[..x] + c == w[..y];
      TurnLittle(w[..x], c);
      FirstState(fs, y, out);
    } else {
      var f := fs[0];
      WireLength(fs);
      ResponseSize(f);
      OneFrame(f, Wire(fs[1..]), x, y);
      if |Bytes(f)| <= y {
        FeedFromStart(fs[1..], 0, y - |Bytes(f)|, out + [CallbackOf(f)]);
        AfterFirst(fs, y, out, Feed(w[..x], PayloadAt(x), c, out));
      } else if y == V1 && Late(f) {
        assert w[0..y] == w[..y];
        FirstState(fs, y, out);
      }
    }
  }

  lemma ShortStart(w: seq<octet>, x: nat)
    requires x < V1 && x <= |w|
    ensures Startable(w[..x], PayloadAt(x))
  {
  }

  lemma LateStart(fs: seq<Frame>)
    requires GoodResponses(fs) && V1 <= |Wire(fs)| && PlaceAt(fs, Late, V1) == Boundary(0, V1)
    ensures fs != [] && Late(fs[0]) && Startable(Wire(fs)[..V1], PayloadAt(V1))
  {
    hide RespOf;
    WireLength(fs);
    assert Wire(fs)[..V1] == fs[0].header[..V1];
    Prefixes(fs[0]);
  }

  /** Behind a complete first frame the state is that of the other frames. */
  lemma AfterFirst(fs: seq<Frame>, y: nat, out: seq<Callback>, o: Outcome)
    requires GoodResponses(fs) && fs != [] && |Bytes(fs[0])| <= y <= |Wire(fs)|
    ensures |Bytes(fs[0])| + |Wire(fs[1..])| == |Wire(fs)|
    ensures PlaceAt(fs, Late, y) == Shift(PlaceAt(fs[1..], Late, y - |Bytes(fs[0])|), 1)
    ensures PlaceAt(fs, Late, y).Boundary? ==>
              (StateAt(o, fs, y, out) <==> StateAt(o, fs[1..], y - |Bytes(fs[0])|, out + [CallbackOf(fs[0])]))
  {
    hide GoodResponse, Bytes, CallbackFor, PlaceAt, Wire, CallbacksOf;
    ResponseSize(fs[0]);
    NextPlace(fs, Late, y);
    NextCache(fs, Late, y, []);
    if PlaceAt(fs, Late, y).Boundary? {
      CallbacksSnoc(fs, Late, y, out);
    }
  }

  lemma {:induction false} FeedFrom(fs: seq<Frame>, x: nat, y: nat, out: seq<Callback>, o: Outcome)
    requires GoodResponses(fs) && x <= y <= |Wire(fs)| && PlaceAt(fs, Late, x).Boundary?
    requires StateAt(o, fs, x, out)
    ensures o.Fed? && Startable(o.header, o.payload)
    ensures PlaceAt(fs, Late, y).Boundary? ==> StateAt(Feed(o.header, o.payload, Wire(fs)[x..y], o.out), fs, y, out)
    ensures PlaceAt(fs, Late, y).Inside? ==> Feed(o.header, o.payload, Wire(fs)[x..y], o.out).Broken?
    decreases |fs|
  {
    hide GoodResponse, Bytes, Feed, Wire, CallbackFor, StateAt, Startable, PlaceAt;
    if PlaceAt(fs, Late, x) == Boundary(0, x) {
      FeedFromStart(fs, x, y, out);
      FirstState(fs, x, out);
      SameState(o, Fed(Wire(fs)[..x], PayloadAt(x), out, 0), fs, x, out);
    } else {
      NotFirst(fs, x);
      var n := |Bytes(fs[0])|;
      WireLength(fs);
      AfterFirst(fs, x, out, o);
      FeedFrom(fs[1..], x - n, y - n, out + [CallbackOf(fs[0])], o);
      AfterFirst(fs, y, out, Feed(o.header, o.payload, Wire(fs)[x..y], o.out));
      SliceTail(Bytes(fs[0]), Wire(fs[1..]), x - n, y - n);
    }
  }

  lemma NotFirst(fs: seq<Frame>, x: nat)
    requires GoodResponses(fs) && x <= |Wire(fs)| && PlaceAt(fs, Late, x).Boundary?
              && PlaceAt(fs, Late, x) != Boundary(0, x)
    ensures fs != [] && |Bytes(fs[0])| <= x
  {
    hide GoodResponse, Bytes;
  }

  lemma SameState(o: Outcome, p: Outcome, fs: seq<Frame>, x: nat, before: seq<Callback>)
    requires x <= |Wire(fs)| && GoodResponses(fs) && StateAt(o, fs, x, before) && StateAt(p, fs, x, before)
    ensures o == p
  {
  }

  /** All chunks of a connection, one recvEvent after the other. */
  function FeedAll(cs: seq<seq<octet>>): (o: Outcome)
    ensures o.Fed? ==> Startable(o.header, o.payload)
  {
    if cs == [] then Fed([], None, [], 0)
    else
      match FeedAll(cs[..|cs| - 1])
      case Fed(h, p, out, _) => Feed(h, p, cs[|cs| - 1], out)
      case Broken(out) => Broken(out)
  }

  /** For every sequence of V1 and V2 response frames and every way to cut their octets into chunks:
      the client parses them exactly when every chunk ends between frames, within the first 31
      octets of one, or right behind the 32nd octet of a V2 frame with a body.  Then the callbacks
      are those of the complete frames, once each and in order. */
  lemma {:induction false} ClientFraming(fs: seq<Frame>, cs: seq<seq<octet>>)
    requires GoodResponses(fs) && Flat(cs) <= Wire(fs)
    ensures FeedAll(cs).Fed? <==> CleanCuts(fs, Late, cs)
    ensures CleanCuts(fs, Late, cs) ==> StateAt(FeedAll(cs), fs, |Flat(cs)|, [])
  {
    hide Feed, StateAt, GoodResponse, PlaceAt;
    if cs == [] {
      AtStart(fs, Late);
      FirstState(fs, 0, []);
    } else {
      var front, c := cs[..|cs| - 1], cs[|cs| - 1];
      var x, y := |Flat(front)|, |Flat(cs)|;
      assert Flat(front) <= Wire(fs);
      ClientFraming(fs, front);
      if CleanCuts(fs, Late, front) {
        AtStart(fs, Late);
        assert c == Wire(fs)[x..y];
        CutBefore(fs, Late, front);
        FeedFrom(fs, x, y, [], FeedAll(front));
        FedState(FeedAll(cs), fs, y, []);
      }
    }
  }

  lemma FedState(o: Outcome, fs: seq<Frame>, x: nat, before: seq<Callback>)
    requires x <= |Wire(fs)| && GoodResponses(fs)
    ensures StateAt(o, fs, x, before) ==> o.Fed?
  {
  }

  /** Once all frames have arrived, the parser is back where it started. */
  lemma AllArrived(fs: seq<Frame>, cs: seq<seq<octet>>)
    requires GoodResponses(fs) && Flat(cs) == Wire(fs) && CleanCuts(fs, Late, cs)
    ensures FeedAll(cs) == Fed([], None, CallbacksOf(fs), 0)
  {
    hide FeedAll, GoodResponse, CleanCuts;
    ClientFraming(fs, cs);
    EndPlace(fs);
    assert fs[..|fs|] == fs && [] + CallbacksOf(fs) == CallbacksOf(fs);
  }

  lemma {:induction false} EndPlace(fs: seq<Frame>)
    requires GoodResponses(fs)
    ensures PlaceAt(fs, Late, |Wire(fs)|) == Boundary(|fs|, 0)
  {
    hide GoodResponse, Bytes;
    if fs != [] {
      ResponseSize(fs[0]);
      NextPlace(fs, Late, |Wire(fs)|);
      EndPlace(fs[1..]);
    }
  }

  /** Such cuts exist: a V1 response with a one-octet body, cut behind its header. */
  lemma HeaderAlone() returns (f: Frame, cs: seq<seq<octet>>)
    ensures GoodResponse(f) && Flat(cs) == Bytes(f) && cs == [f.header, f.body]
    ensures FeedAll(cs[..1]).Broken? && FeedAll(cs).Broken?
  {
    hide RespBytes, RespOf, Feed;
    var h := RespHeader(HEADER_BEGIN, HEADER_PROTOCAL_VERSION, 1001, 0, 1, 1, 0);
    f, cs := Frame(RespBytes(h), [7]), [RespBytes(h), [7]];
    RespRoundTrip(h, []);
    assert RespBytes(h) + [] == RespBytes(h);
    assert cs[..1] == [f.header] && cs[..0] == [] && Flat(cs[..0]) == [];
    assert Flat(cs[..1]) == f.header && Flat(cs) == Bytes(f);
    assert Wire([f][1..]) == [] && Wire([f]) == Bytes(f);
    assert PlaceAt([f], Late, V1) == Inside;
    ClientFraming([f], cs[..1]);
  }

  /** A V2 response without a body, cut inside its header. */
  lemma HeaderCut() returns (f: Frame, c: seq<octet>)
    ensures GoodResponse(f) && |f.header| == V2 && f.body == [] && c == f.header[..40]
    ensures FeedAll([c]).Broken?
  {
    hide RespBytes, RespOf, Feed, Extension;
    var h := RespHeader(HEADER_BEGIN, HEADER_JSON_VERSION, 1001, 0, 0, 1, 0);
    var spare: seq<octet> := seq(12, _ => 0);
    f := Frame(RespBytes(h) + Extension(HEADER_BODYFORMAT_JSON, spare), []);
    c := f.header[..40];
    RespRoundTrip(h, Extension(HEADER_BODYFORMAT_JSON, spare));
    assert [c][..0] == [] && Flat([c][..0]) == [] && Flat([c]) == c;
    assert Wire([f][1..]) == [] && Wire([f]) == Bytes(f) == f.header;
    assert PlaceAt([f], Late, 40) == Inside;
    ClientFraming([f], [c]);
  }

  /** What stands between the V1 header and the body of a response. */
  function HeaderTail(version: uint16, spare: seq<octet>): seq<octet>
    requires |spare| == 12
  {
    if version < 16 then [] else Extension(3, spare)
  }

  lemma PackIsGood(h: RespHeader, spare: seq<octet>, body: seq<octet>)
    requires h.begin == 0x4844_4352 && h.bodylen == |body| && |spare| == 12
    ensures var f := Frame(RespBytes(h) + HeaderTail(h.version, spare), body);
            && GoodResponse(f) && RespOf(f.header) == h && (h.version >= 16 ==> FormatOf(f.header) == 3)
  {
    hide RespBytes, RespOf, Extension, FormatOf;
    RespRoundTrip(h, HeaderTail(h.version, spare));
    if h.version >= 16 {
      ExtensionRoundTrip(RespBytes(h), 3, spare, []);
      assert RespBytes(h) + Extension(3, spare) + [] == RespBytes(h) + Extension(3, spare);
    }
  }

  /** A response pack of either version, received whole, is handed to the callback as it was built: body
      format 2 for V1, the one in its header for V2, and the result as a signed word. */
  lemma PackIsHeard(h: RespHeader, spare: seq<octet>, body: seq<octet>)
    requires h.begin == 0x4844_4352 && h.bodylen == |body| && |spare| == 12
    ensures FeedAll([RespBytes(h) + HeaderTail(h.version, spare) + body])
         == Fed([], None, [Callback(h.funcid, h.requestid, if h.version < 16 then 2 else 3, h.timestamp,
                                    if h.retCode < 0x8000_0000 then h.retCode else h.retCode - 0x1_0000_0000, body)], 0)
  {
    hide RespBytes, RespOf, FormatOf, FeedAll, HeaderTail, GoodResponse, PlaceAt, Extension;
    var f := Frame(RespBytes(h) + HeaderTail(h.version, spare), body);
    var cs := [Bytes(f)];
    PackIsGood(h, spare, body);
    assert cs[..0] == [] && Flat(cs[..0]) == [] && Flat(cs) == Bytes(f);
    assert Wire([f][1..]) == [] && Wire([f]) == Bytes(f);
    EndPlace([f]);
    assert CleanCuts([f], Late, cs[..0]) && CleanCuts([f], Late, cs);
    AllArrived([f], cs);
    CallbackIs(f, h);
    assert CallbacksOf([f]) == [CallbackOf(f)];
  }

  lemma CallbackIs(f: Frame, h: RespHeader)
    requires GoodResponse(f) && RespOf(f.header) == h && (h.version >= 16 ==> FormatOf(f.header) == 3)
    ensures CallbackOf(f) == Callback(h.funcid, h.requestid, if h.version < 16 then 2 else 3, h.timestamp,
                                      if h.retCode < 0x8000_0000 then h.retCode else h.retCode - 0x1_0000_0000, f.body)
  {
    hide RespOf;
  }
}
