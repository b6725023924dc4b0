/**
 One connection from end to end: requests are written, dispatched, responses queued, written and
 parsed, and the client's callbacks are the replies to its requests in request order, with the
 server's own callbacks in between.
 */
module EndToEnd {
  import opened Header
  import opened Frames
  import opened Protocol
  import opened Connections
  import opened LocalSocketServer
  import C = Client

  /** The callback that the client owes to an origin. */
  predicate Echoes(cb: C.Callback, o: Origin, handler: Handler) {
    match o
    case Reply(_, f) =>
      && |f.header| >= V1
      && cb.funcid == ReqOf(f.header).funcid && cb.requestid == ReqOf(f.header).requestid
      && cb.retCode == ResultOf(handler, ReqOf(f.header), f.body) && cb.body == []
    case Push(_, funcid, data) => cb.funcid == funcid && cb.requestid == 0 && cb.retCode == RET_OK && cb.body == data
  }

  /** A pack was built for this origin: a callback with a refused function id gets none. */
  predicate Built(version: uint16, o: Origin) {
    o.Push? ==> Buildable(version, o.funcid)
  }

  /** The origins with a pack for fd, in queue order. */
  function OriginsFor(version: uint16, q: seq<Origin>, fd: int): seq<Origin> {
    if q == [] then []
    else
      var o := q[|q| - 1];
      OriginsFor(version, q[..|q| - 1], fd) + if o.fd == fd && Built(version, o) then [o] else []
  }

  /** A response pack as a frame. */
  function FrameOf(b: seq<octet>): Frame {
    if |b| >= V1 && |b| >= C.HeaderLen(b) then Frame(b[..C.HeaderLen(b)], b[C.HeaderLen(b)..]) else Frame(b, [])
  }

  /** The packs for fd that are not empty, in queue order. */
  function FramesFor(packs: seq<Pack>, fd: int): seq<Frame> {
    if packs == [] then []
    else
      var p := packs[|packs| - 1];
      FramesFor(packs[..|packs| - 1], fd) + if p.fd == fd && p.bytes != [] then [FrameOf(p.bytes)] else []
  }

  lemma {:induction false} WireSnoc(fs: seq<Frame>, f: Frame)
    ensures Wire(fs + [f]) == Wire(fs) + Bytes(f)
  {
    if fs == [] {
      assert Wire([f][1..]) == [];
      assert fs + [f] == [f];
    } else {
      WireSnoc(fs[1..], f);
      assert (fs + [f])[1..] == fs[1..] + [f];
    }
  }

  lemma FrameOfBytes(b: seq<octet>)
    ensures Bytes(FrameOf(b)) == b
  {
    hide RespOf;
  }

  /** What the socket queues for fd are the frames for fd, one behind the other. */
  lemma {:induction false} FramesAreQueued(packs: seq<Pack>, fd: int)
    ensures Wire(FramesFor(packs, fd)) == L.BytesFor(PiecesOf(packs), fd)
  {
    hide FrameOf, Bytes, Wire, FramesFor, PiecesOf;
    if packs == [] {
      NothingQueued(fd);
    } else {
      var front, p := packs[..|packs| - 1], packs[|packs| - 1];
      FramesAreQueued(front, fd);
      assert packs == front + [p];
      PiecesSnoc(front, p);
      FramesSnoc(front, p, fd);
      if p.bytes != [] {
        L.BytesSnoc(PiecesOf(front), L.Piece(p.fd, p.bytes), fd);
        if p.fd == fd {
          WireSnoc(FramesFor(front, fd), FrameOf(p.bytes));
          FrameOfBytes(p.bytes);
        } else {
          assert FramesFor(front, fd) + [] == FramesFor(front, fd);
          assert L.BytesFor(PiecesOf(front), fd) + [] == L.BytesFor(PiecesOf(front), fd);
        }
      } else {
        assert FramesFor(front, fd) + [] == FramesFor(front, fd) && PiecesOf(front) + [] == PiecesOf(front);
      }
    }
  }

  lemma NothingQueued(fd: int)
    ensures Wire(FramesFor([], fd)) == L.BytesFor(PiecesOf([]), fd) == []
  {
  }

  lemma FramesSnoc(packs: seq<Pack>, p: Pack, fd: int)
    ensures FramesFor(packs + [p], fd)
         == FramesFor(packs, fd) + if p.fd == fd && p.bytes != [] then [FrameOf(p.bytes)] else []
  {
    assert (packs + [p])[..|packs|] == packs;
  }

  /** Fewer packs have fewer octets. */
  lemma {:induction false} PiecesPrefix(packs: seq<Pack>, k: nat, fd: int)
    requires k <= |packs|
    ensures L.BytesFor(PiecesOf(packs[..k]), fd) <= L.BytesFor(PiecesOf(packs), fd)
  {
    hide PiecesOf, L.BytesFor;
    if k == |packs| {
      assert packs[..k] == packs;
    } else {
      var front, p := packs[..|packs| - 1], packs[|packs| - 1];
      PiecesPrefix(front, k, fd);
      assert packs == front + [p] && front[..k] == packs[..k];
      PiecesSnoc(front, p);
      assert PiecesOf(front) + [] == PiecesOf(front);
      L.BytesSnoc(PiecesOf(front), L.Piece(p.fd, p.bytes), fd);
    }
  }

  /** A response pack is a good frame, and its callback carries the fields of the pack. */
  lemma ResponseFrame(b: seq<octet>, version: uint16, funcid: uint16, result: int32, requestid: int64, body: seq<octet>)
    requires IsResponse(b, version, funcid, result, requestid, body)
    ensures C.GoodResponse(FrameOf(b))
    ensures var cb := C.CallbackOf(FrameOf(b));
            cb.funcid == funcid && cb.requestid == requestid && cb.retCode == result && cb.body == body
  {
    hide RespOf, FormatOf;
    var f := FrameOf(b);
    assert b == f.header + f.body;
    C.SameStart(f.header, f.body);
    assert f.body == body;
  }

  lemma MadeFrame(p: Pack, o: Origin, version: uint16, handler: Handler)
    requires MadeFor(p, o, version, handler)
    ensures p.bytes != [] <==> Built(version, o)
    ensures p.bytes != [] ==> C.GoodResponse(FrameOf(p.bytes)) && Echoes(C.CallbackOf(FrameOf(p.bytes)), o, handler)
  {
    hide C.GoodResponse, C.CallbackFor, FrameOf, RespOf, ReqOf;
    match o
    case Reply(_, f) =>
      var h := ReqOf(f.header);
      ResponseFrame(p.bytes, version, h.funcid, ResultOf(handler, h, f.body), h.requestid, []);
    case Push(_, funcid, data) =>
      if Buildable(version, funcid) {
        ResponseFrame(p.bytes, version, funcid, RET_OK, 0, data);
      }
  }

  lemma {:induction false} FramesEcho(packs: seq<Pack>, q: seq<Origin>, version: uint16, handler: Handler, fd: int)
    requires AllMade(packs, q, version, handler)
    ensures C.GoodResponses(FramesFor(packs, fd)) && |FramesFor(packs, fd)| == |OriginsFor(version, q, fd)|
    ensures forall i | 0 <= i < |OriginsFor(version, q, fd)| ::
              Echoes(C.CallbackOf(FramesFor(packs, fd)[i]), OriginsFor(version, q, fd)[i], handler)
  {
    hide MadeFor, Echoes, C.GoodResponse, C.CallbackFor, FrameOf, Built;
    if q != [] {
      var n := |q| - 1;
      FramesEcho(packs[..n], q[..n], version, handler, fd);
      MadeFrame(packs[n], q[n], version, handler);
      SameFd(packs[n], q[n], version, handler);
    }
  }

  lemma SameFd(p: Pack, o: Origin, version: uint16, handler: Handler)
    requires MadeFor(p, o, version, handler)
    ensures p.fd == o.fd
  {
  }

  /** The requests that are replied to. */
  function RepliedTo(q: seq<Origin>): seq<Frame> {
    if q == [] then [] else RepliedTo(q[..|q| - 1]) + if q[|q| - 1].Reply? then [q[|q| - 1].request] else []
  }

  lemma {:induction false} RepliesAreRequests(version: uint16, q: seq<Origin>, fd: int)
    ensures RepliedTo(OriginsFor(version, q, fd)) == RequestsOf(q, fd)
  {
    if q != [] {
      RepliesAreRequests(version, q[..|q| - 1], fd);
      var before, o := OriginsFor(version, q[..|q| - 1], fd), q[|q| - 1];
      if o.fd == fd && Built(version, o) {
        assert (before + [o])[..|before|] == before;
      } else {
        assert before + [] == before;
      }
    }
  }

  lemma {:induction false} RepliedPrefix(q: seq<Origin>, k: nat)
    requires k <= |q|
    ensures RepliedTo(q[..k]) <= RepliedTo(q)
  {
    if k == |q| {
      assert q[..k] == q;
    } else {
      assert q[..|q| - 1][..k] == q[..k];
      RepliedPrefix(q[..|q| - 1], k);
    }
  }

  lemma GoodIsAnswered(version: uint16, f: Frame)
    requires S.GoodRequest(f) && version >= HEADER_PROTOCAL_VERSION && ReqOf(f.header).requestid >= 0
    ensures Answered(version, f)
  {
  }

  lemma NoneAnswered(version: uint16)
    ensures AnsweredOf(version, []) == []
  {
  }

  lemma {:induction false} NoneDropped(version: uint16, fs: seq<Frame>)
    requires S.GoodRequests(fs) && version >= HEADER_PROTOCAL_VERSION
              && forall f | f in fs :: ReqOf(f.header).requestid >= 0
    ensures AnsweredOf(version, fs) == fs
  {
    hide ReqOf, S.GoodRequest, Answered, AnsweredOf;
    if fs == [] {
      NoneAnswered(version);
    } else {
      var front, f := fs[..|fs| - 1], fs[|fs| - 1];
      assert fs == front + [f] && f in fs && forall g | g in front :: g in fs;
      NoneDropped(version, front);
      GoodIsAnswered(version, f);
      AnsweredSnoc(version, front, f);
    }
  }

  /** The complete requests among the octets that the server has received on fd. */
  ghost function Arrived(requests: seq<Frame>, server: Engine, fd: int): seq<Frame>
    reads server
    requires Flat(ChunksOf(server.served, fd)) <= Wire(requests)
  {
    CompleteAt(requests, S.Never, |Flat(ChunksOf(server.served, fd))|)
  }

  /** The replies queued for fd are to the requests that have arrived on it. */
  lemma QueuedReplies(version: uint16, evs: seq<ServerEvent>, fd: int, requests: seq<Frame>)
    requires Serve(version, evs).Running?
    requires S.GoodRequests(requests) && Flat(ChunksOf(evs, fd)) <= Wire(requests)
    ensures RepliedTo(OriginsFor(version, Serve(version, evs).queued, fd))
         == AnsweredOf(version, CompleteAt(requests, S.Never, |Flat(ChunksOf(evs, fd))|))
  {
    hide ReqOf, S.GoodRequest, S.FeedAll, Serve, CompleteAt, CleanCuts, AnsweredOf, DispatchedOn;
    ServesEach(version, evs, fd);
    S.ServerFraming(requests, ChunksOf(evs, fd));
    RepliesAreRequests(version, Serve(version, evs).queued, fd);
  }

  /** What the client's parser has made of cs, the octets it has received, which lie within the frames
      fs for its descriptor: these frames' callbacks, up to the last complete one. */
  lemma ParsedSoFar(fs: seq<Frame>, cs: seq<seq<octet>>)
    requires C.GoodResponses(fs) && Flat(cs) <= Wire(fs)
    ensures C.FeedAll(cs).Fed? <==> CleanCuts(fs, C.Late, cs)
    ensures C.FeedAll(cs).Fed? ==>
              && |C.FeedAll(cs).out| <= |fs|
              && (forall i | 0 <= i < |C.FeedAll(cs).out| :: C.FeedAll(cs).out[i] == C.CallbackOf(fs[i]))
              && (Flat(cs) == Wire(fs) ==> |C.FeedAll(cs).out| == |fs|)
  {
    hide C.FeedAll, C.GoodResponse, CleanCuts, C.CallbackFor, PlaceAt, CacheAt;
    C.ClientFraming(fs, cs);
    if Flat(cs) == Wire(fs) && C.FeedAll(cs).Fed? {
      C.AllArrived(fs, cs);
    }
  }

  /** At every moment of a connection: the client has queued request frames, part of their octets have
      reached the server, its responses are queued and handed to its socket, and part of their octets
      have reached the client.  The client's parser stays defined exactly if its chunks are cut cleanly.
      Then its callbacks are, one for one and in order, those of the first entries for fd in the
      server's queue; the replies among them answer the first of the arrived requests, in order; and
      all of these once everything has been received. */
  lemma RepliesInOrder(client: L.Engine, server: Engine, socket: L.Engine, fd: int, requests: seq<Frame>,
      cs: seq<seq<octet>>)
    requires client.Valid() && client.ownFd !in client.failed
    requires S.GoodRequests(requests) && L.BytesFor(client.queued, client.ownFd) == Wire(requests)
    requires server.Valid() && Flat(ChunksOf(server.served, fd)) <= L.BytesFor(client.accepted, client.ownFd)
    requires socket.Valid() && server.Feeds(socket) && fd !in socket.failed
    requires Flat(cs) <= L.BytesFor(socket.accepted, fd)
    ensures C.FeedAll(cs).Fed? <==> CleanCuts(FramesFor(server.made, fd), C.Late, cs)
    ensures Flat(ChunksOf(server.served, fd)) <= Wire(requests)
    ensures C.FeedAll(cs).Fed? ==>
              var origins := OriginsFor(server.version, Serve(server.version, server.served).queued, fd);
              var out, answered := C.FeedAll(cs).out, AnsweredOf(server.version, Arrived(requests, server, fd));
              && |out| <= |origins| && (forall i | 0 <= i < |out| :: Echoes(out[i], origins[i], server.handler))
              && RepliedTo(origins[..|out|]) <= answered
              && (Flat(cs) == Wire(FramesFor(server.made, fd)) ==> RepliedTo(origins[..|out|]) == answered)
  {
    hide ReqOf, S.GoodRequest, S.FeedAll, C.FeedAll, Serve, CleanCuts, Echoes, MadeFor, CompleteAt, C.CallbackFor,
        C.GoodResponse, Wire, ChunksOf, PiecesOf, L.BytesFor, L.Conserved, L.InOrder, RepliedTo, AnsweredOf, Flat;
    var q, fs := Serve(server.version, server.served).queued, FramesFor(server.made, fd);
    var origins := OriginsFor(server.version, q, fd);
    client.AcceptedIsPrefix(client.ownFd);
    socket.AcceptedIsPrefix(fd);
    PiecesPrefix(server.made, |server.made| - |server.respQueue|, fd);
    FramesAreQueued(server.made, fd);
    FramesEcho(server.made, q, server.version, server.handler, fd);
    ParsedSoFar(fs, cs);
    QueuedReplies(server.version, server.served, fd, requests);
    if C.FeedAll(cs).Fed? {
      RepliedPrefix(origins, |C.FeedAll(cs).out|);
      assert origins[..|origins|] == origins;
    }
  }

  /** Once all requests and all responses have arrived, and no request id is negative, every request
      has its one reply. */
  lemma EveryRequestAnswered(server: Engine, fd: int, requests: seq<Frame>, cs: seq<seq<octet>>)
    requires server.Valid() && S.GoodRequests(requests) && Flat(ChunksOf(server.served, fd)) == Wire(requests)
    requires Flat(cs) == Wire(FramesFor(server.made, fd)) && C.FeedAll(cs).Fed?
    requires server.version >= HEADER_PROTOCAL_VERSION && forall f | f in requests :: ReqOf(f.header).requestid >= 0
    ensures var origins := OriginsFor(server.version, Serve(server.version, server.served).queued, fd);
            && |C.FeedAll(cs).out| == |origins| && RepliedTo(origins) == requests
            && forall i | 0 <= i < |origins| :: Echoes(C.FeedAll(cs).out[i], origins[i], server.handler)
  {
    hide ReqOf, S.GoodRequest, S.FeedAll, C.FeedAll, Serve, CleanCuts, Echoes, MadeFor, CompleteAt, C.CallbackFor,
        C.GoodResponse, Wire, ChunksOf, RepliedTo, AnsweredOf, Flat;
    var q, fs := Serve(server.version, server.served).queued, FramesFor(server.made, fd);
    FramesEcho(server.made, q, server.version, server.handler, fd);
    ParsedSoFar(fs, cs);
    QueuedReplies(server.version, server.served, fd, requests);
    S.RequestsEnd(requests);
    NoneDropped(server.version, requests);
  }
}
