/**
 How the server reassembles request frames (server.h:19-112).  The loop's count of octets left
 is not refreshed after header octets were consumed, so it may read past the chunk.
 */
module Server {
  import opened Header
  import opened Frames
  import opened Seqs

  /** What recvEvent made of one chunk: the connection's cache afterwards, the frames dispatched so
      far and its result; or it read past the end of the chunk. */
  datatype Outcome =
    | Fed(header: seq<octet>, payload: seq<octet>, out: seq<Frame>, ret: int)
    | OverRead(out: seq<Frame>)

  function Min(a: nat, b: nat): nat {
    if a < b then a else b
  }

  predicate BeginOk(header: seq<octet>)
    requires |header| >= V1
  {
    ReqOf(header).begin == HEADER_BEGIN
  }

  function BodyLen(header: seq<octet>): nat
    requires |header| >= V1
  {
    ReqOf(header).bodylen
  }

  /** One iteration of the loop either ends it, or dispatches a frame and leaves some octets. */
  datatype Turn = Stop(header: seq<octet>, payload: seq<octet>, ret: int) | Past | Go(frame: Frame, rest: seq<octet>)

  /** The second half of an iteration: the header is complete, rest is what is left of the chunk,
      but the loop still believes in left octets. */
  function TakeBody(h: seq<octet>, payload: seq<octet>, rest: seq<octet>, left: nat): (t: Turn)
    requires |h| == V1
    ensures t.Go? ==> |t.rest| <= |rest| && |t.frame.header| == V1
    ensures t.Stop? ==> |t.header| <= V1 && t.ret in {0, -1}
  {
    if !BeginOk(h) then Stop([], [], -1)
    else
      var m := if |payload| < BodyLen(h) then Min(BodyLen(h) - |payload|, left) else 0;
      if |rest| < m then Past
      else
        var p := payload + rest[..m];
        if |p| < BodyLen(h) then Stop(h, p, 0) else Go(Frame(h, p), rest[m..])
  }

  /** One iteration over the octets of the chunk that remain, with the header and payload octets
      cached so far. */
  function Iteration(header: seq<octet>, payload: seq<octet>, chunk: seq<octet>): (t: Turn)
    requires |header| <= V1 && chunk != []
    ensures t.Go? ==> |t.frame.header| == V1 && (|t.rest| < |chunk| || (|t.rest| == |chunk| && |header| == V1))
    ensures t.Stop? ==> |t.header| <= V1 && t.ret in {0, -1}
  {
    var n := Min(V1 - |header|, |chunk|);
    var h := header + chunk[..n];
    if |h| < V1 then Stop(h, payload, 0) else TakeBody(h, payload, chunk[n..], |chunk|)
  }

  /** recvEvent(EVENT_DATA): the whole loop. */
  function Feed(header: seq<octet>, payload: seq<octet>, chunk: seq<octet>, out: seq<Frame>): (o: Outcome)
    requires |header| <= V1
    ensures o.Fed? ==> |o.header| <= V1
    decreases |chunk|, |header|
  {
    if chunk == [] then Fed(header, payload, out, 0)
    else
      match Iteration(header, payload, chunk)
      case Stop(h, p, ret) => Fed(h, p, out, ret)
      case Past => OverRead(out)
      case Go(f, rest) => Feed([], [], rest, out + [f])
  }

  /** A request frame as genReqPack builds it for V1. */
  predicate GoodRequest(f: Frame) {
    |f.header| == V1 && BeginOk(f.header) && BodyLen(f.header) == |f.body|
  }

  predicate GoodRequests(fs: seq<Frame>) {
    forall f | f in fs :: GoodRequest(f)
  }

  /** No position inside a frame can be resumed. */
  predicate Never(f: Frame) {
    false
  }

  /** A chunk that completes a header but not the body: the loop reads past its end. */
  lemma TurnShort(h: seq<octet>, c: seq<octet>, f: Frame)
    requires GoodRequest(f) && |h| < V1 <= |h| + |c| < V1 + |f.body| && h + c[..V1 - |h|] == f.header
    ensures Iteration(h, [], c) == Past
  {
    hide TakeBody, GoodRequest;
    RequestSize(f);
    BodyShort(f, c[V1 - |h|..], |c|);
  }

  lemma BodyShort(f: Frame, rest: seq<octet>, left: nat)
    requires GoodRequest(f) && |rest| < |f.body| && |rest| < left
    ensures TakeBody(f.header, [], rest, left) == Past
  {
    hide ReqOf, BeginOk;
  }

  lemma BodyWhole(f: Frame, rest: seq<octet>, left: nat)
    requires GoodRequest(f) && f.body <= rest && |f.body| <= left
    ensures TakeBody(f.header, [], rest, left) == Go(f, rest[|f.body|..])
  {
    hide ReqOf, BeginOk;
    assert [] + f.body == f.body && Frame(f.header, f.body) == f;
  }

  /** A chunk that completes a whole frame. */
  lemma TurnWhole(h: seq<octet>, c: seq<octet>, f: Frame)
    requires GoodRequest(f) && |h| < V1 && V1 + |f.body| <= |h| + |c| && h + c[..V1 - |h|] == f.header
    requires c[V1 - |h|..][..|f.body|] == f.body
    ensures Iteration(h, [], c) == Go(f, c[V1 - |h|..][|f.body|..])
  {
    hide TakeBody, GoodRequest;
    RequestSize(f);
    BodyWhole(f, c[V1 - |h|..], |c|);
  }

  lemma TurnLittle(h: seq<octet>, c: seq<octet>)
    requires |h| + |c| < V1 && c != []
    ensures Iteration(h, [], c) == Stop(h + c, [], 0)
  {
    hide TakeBody;
    assert c[..|c|] == c;
  }

  /** The octets x .. y of a stream that starts with frame f. */
  lemma FrameArrives(f: Frame, tail: seq<octet>, x: nat, y: nat)
    requires |f.header| == V1 && x < V1 <= y <= |Bytes(f) + tail|
    ensures var w := Bytes(f) + tail;
            && w[..x] + w[x..y][..V1 - x] == f.header
            && |w[x..y][V1 - x..]| == y - V1
            && (|Bytes(f)| <= y ==>
                  && w[x..y][V1 - x..][..|f.body|] == f.body
                  && w[x..y][V1 - x..][|f.body|..] == tail[..y - |Bytes(f)|])
  {
    var w, rest := Bytes(f) + tail, f.body + tail;
    assert w == f.header + rest;
    SliceSplit(w, x, V1, y);
    TakeLeft(f.header, rest, V1);
    SliceRight(f.header, rest, y);
    if |Bytes(f)| <= y {
      assert rest[..y - V1] == f.body + tail[..y - |Bytes(f)|];
    }
  }

  /** What the loop makes of the first frame, from octet x to octet y. */
  lemma OneFrame(f: Frame, tail: seq<octet>, x: nat, y: nat)
    requires GoodRequest(f) && x < V1 <= y <= |Bytes(f) + tail|
    ensures var w := Bytes(f) + tail;
            && (y < |Bytes(f)| ==> Iteration(w[..x], [], w[x..y]) == Past)
            && (|Bytes(f)| <= y ==> Iteration(w[..x], [], w[x..y]) == Go(f, tail[0..y - |Bytes(f)|]))
  {
    hide GoodRequest, Iteration;
    var w := Bytes(f) + tail;
    RequestSize(f);
    FrameArrives(f, tail, x, y);
    if y < |Bytes(f)| {
      TurnShort(w[..x], w[x..y], f);
    } else {
      TurnWhole(w[..x], w[x..y], f);
    }
  }

  lemma {:induction false} FeedFromStart(fs: seq<Frame>, x: nat, y: nat, out: seq<Frame>)
    requires GoodRequests(fs) && x <= y <= |Wire(fs)| && x < V1
    ensures PlaceAt(fs, Never, y).Boundary? ==>
              Feed(Wire(fs)[..x], [], Wire(fs)[x..y], out)
              == Fed(CacheAt(fs, Never, y), [], out + CompleteAt(fs, Never, y), 0)
    ensures PlaceAt(fs, Never, y).Inside? ==> Feed(Wire(fs)[..x], [], Wire(fs)[x..y], out).OverRead?
  {
    hide GoodRequest, Bytes, Iteration, CacheAt, CompleteAt;
    var w := Wire(fs);
    if y < V1 {
      FeedLittle(w, x, y, out);
      FirstCache(fs, Never, y, out);
    } else {
      var f := fs[0];
      WireLength(fs);
      RequestSize(f);
      OneFrame(f, Wire(fs[1..]), x, y);
      if |Bytes(f)| <= y {
        FeedFromStart(fs[1..], 0, y - |Bytes(f)|, out + [f]);
        NextPlace(fs, Never, y);
        NextCache(fs, Never, y, out);
      }
    }
  }

  lemma FeedLittle(w: seq<octet>, x: nat, y: nat, out: seq<Frame>)
    requires x <= y < V1 && y <= |w|
    ensures Feed(w[..x], [], w[x..y], out) == Fed(w[0..y], [], out, 0)
  {
    hide Iteration;
    assert w[..x] + w[x..y] == w[0..y];
    if x < y {
      TurnLittle(w[..x], w[x..y]);
    }
  }

  lemma RequestSize(f: Frame)
    requires GoodRequest(f)
    ensures |f.header| == V1 && |Bytes(f)| == V1 + |f.body| && Frame(f.header, f.body) == f
  {
  }

  // ---------- any chunks ----------

  /** The chunks of one connection, one recvEvent after the other. */
  function FeedAll(cs: seq<seq<octet>>): (o: Outcome)
    ensures o.Fed? ==> |o.header| <= V1
  {
    if cs == [] then Fed([], [], [], 0)
    else
      match FeedAll(cs[..|cs| - 1])
      case Fed(h, p, out, _) => Feed(h, p, cs[|cs| - 1], out)
      case OverRead(out) => OverRead(out)
  }

  lemma PlaceStart(fs: seq<Frame>, x: nat)
    requires x <= |Wire(fs)| && PlaceAt(fs, Never, x).Boundary?
    ensures if x < V1 then PlaceAt(fs, Never, x) == Boundary(0, x) else fs == [] || |Bytes(fs[0])| <= x
  {
    hide Bytes, Wire;
  }

  lemma {:induction false} FeedFrom(fs: seq<Frame>, x: nat, y: nat, out: seq<Frame>)
    requires GoodRequests(fs) && x <= y <= |Wire(fs)| && PlaceAt(fs, Never, x).Boundary?
    ensures |CacheAt(fs, Never, x)| < V1
    ensures PlaceAt(fs, Never, y).Boundary? ==>
              Feed(CacheAt(fs, Never, x), [], Wire(fs)[x..y], out + CompleteAt(fs, Never, x))
              == Fed(CacheAt(fs, Never, y), [], out + CompleteAt(fs, Never, y), 0)
    ensures PlaceAt(fs, Never, y).Inside? ==>
              Feed(CacheAt(fs, Never, x), [], Wire(fs)[x..y], out + CompleteAt(fs, Never, x)).OverRead?
  {
    hide GoodRequest, Bytes, Feed, CacheAt, CompleteAt, Wire, PlaceAt;
    PlaceStart(fs, x);
    if x < V1 {
      FeedFromStart(fs, x, y, out);
      FirstCache(fs, Never, x, out);
    } else {
      WireOfNone();
      var n, rest := |Bytes(fs[0])|, fs[1..];
      WireLength(fs);
      RequestSize(fs[0]);
      NextPlace(fs, Never, x);
      NextPlace(fs, Never, y);
      NextCache(fs, Never, x, out);
      NextCache(fs, Never, y, out);
      FeedFrom(rest, x - n, y - n, out + [fs[0]]);
      assert Wire(fs)[x..y] == Wire(rest)[x - n..y - n] by {
        SliceTail(Bytes(fs[0]), Wire(rest), x - n, y - n);
      }
    }
  }

  /** For every sequence of request frames and every way to cut their octets into chunks: the
      server reads past a chunk exactly when some chunk ends behind the 32nd octet of a frame and
      before its end; otherwise it has dispatched every complete frame once and in order, and
      holds the octets of the header that is still coming. */
  lemma {:induction false} ServerFraming(fs: seq<Frame>, cs: seq<seq<octet>>)
    requires GoodRequests(fs) && Flat(cs) <= Wire(fs)
    ensures FeedAll(cs).Fed? <==> CleanCuts(fs, Never, cs)
    ensures CleanCuts(fs, Never, cs) ==>
              FeedAll(cs) == Fed(CacheAt(fs, Never, |Flat(cs)|), [], CompleteAt(fs, Never, |Flat(cs)|), 0)
  {
    hide Feed, CacheAt, CompleteAt, GoodRequest, PlaceAt;
    AtStart(fs, Never);
    if cs != [] {
      var front, c := cs[..|cs| - 1], cs[|cs| - 1];
      var x, y := |Flat(front)|, |Flat(cs)|;
      assert Flat(front) <= Wire(fs);
      ServerFraming(fs, front);
      if CleanCuts(fs, Never, front) {
        assert c == Wire(fs)[x..y];
        CutBefore(fs, Never, front);
        FeedFrom(fs, x, y, []);
        assert [] + CompleteAt(fs, Never, x) == CompleteAt(fs, Never, x)
            && [] + CompleteAt(fs, Never, y) == CompleteAt(fs, Never, y);
      }
    }
  }

  /** Such a cut exists: a one-octet request whose header and body arrive in two chunks. */
  lemma HeaderAlone() returns (f: Frame, cs: seq<seq<octet>>)
    ensures GoodRequest(f) && Flat(cs) == Bytes(f) && cs == [f.header, f.body]
    ensures FeedAll(cs[..1]).OverRead? && FeedAll(cs).OverRead?
  {
    hide ReqBytes, ReqOf, Feed;
    var h := ReqHeader(HEADER_BEGIN, HEADER_PROTOCAL_VERSION, 1001, 1, 1, 0, 0);
    f, cs := Frame(ReqBytes(h), [7]), [ReqBytes(h), [7]];
    ReqRoundTrip(h, []);
    assert ReqBytes(h) + [] == ReqBytes(h);
    assert cs[..1] == [f.header] && cs[..0] == [] && Flat(cs[..0]) == [];
    assert Flat(cs[..1]) == f.header && Flat(cs) == Bytes(f);
    assert Wire([f][1..]) == [] && Wire([f]) == Bytes(f);
    assert PlaceAt([f], Never, V1) == Inside;
    ServerFraming([f], cs[..1]);
  }

  lemma {:induction false} RequestsEnd(fs: seq<Frame>)
    requires GoodRequests(fs)
    ensures CompleteAt(fs, Never, |Wire(fs)|) == fs
  {
    hide GoodRequest;
    EndOfRequests(fs);
    assert fs[..|fs|] == fs;
  }

  lemma {:induction false} EndOfRequests(fs: seq<Frame>)
    requires GoodRequests(fs)
    ensures PlaceAt(fs, Never, |Wire(fs)|) == Boundary(|fs|, 0)
  {
    hide GoodRequest, Bytes;
    if fs != [] {
      RequestSize(fs[0]);
      NextPlace(fs, Never, |Wire(fs)|);
      EndOfRequests(fs[1..]);
    }
  }

  /** A V1 request pack, received whole, is dispatched as it was built. */
  lemma PackIsDispatched(h: ReqHeader, body: seq<octet>)
    requires h.begin == 0x4844_4352 && h.bodylen == |body|
    ensures FeedAll([ReqBytes(h) + body]) == Fed([], [], [Frame(ReqBytes(h), body)], 0) && ReqOf(ReqBytes(h)) == h
  {
    hide ReqBytes, ReqOf, FeedAll, CompleteAt, CacheAt;
    var f, cs := Frame(ReqBytes(h), body), [ReqBytes(h) + body];
    ReqRoundTrip(h, []);
    assert ReqBytes(h) + [] == ReqBytes(h);
    assert cs[..0] == [] && Flat(cs[..0]) == [] && Flat(cs) == Bytes(f);
    assert Wire([f][1..]) == [] && Wire([f]) == Bytes(f);
    RequestsEnd([f]);
    EndOfRequests([f]);
    NothingCached([f], Never);
    ServerFraming([f], cs);
  }

  lemma NothingCached(fs: seq<Frame>, late: Frame -> bool)
    requires PlaceAt(fs, late, |Wire(fs)|) == Boundary(|fs|, 0)
    ensures CacheAt(fs, late, |Wire(fs)|) == []
  {
  }
}
