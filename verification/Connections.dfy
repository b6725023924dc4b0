/**
 Runs of the local-socket server over any number of connections, their chunks interleaved in
 any way with each other and with callbacks that the server makes of its own accord.
 */
module Connections {
  import opened Header
  import opened Frames
  import opened Protocol
  import S = Server

  /** The octets cached of a connection's current frame. */
  datatype RecvCache = RecvCache(header: seq<octet>, payload: seq<octet>)

  type Caches = map<int, RecvCache>

  function CacheOf(caches: Caches, fd: int): RecvCache {
    if fd in caches then caches[fd] else RecvCache([], [])
  }

  /** A cache without header octets is erased. */
  function WithCache(caches: Caches, fd: int, c: RecvCache): Caches {
    if c.header == [] then caches - {fd} else caches[fd := c]
  }

  /** Of the dispatched frames, those whose response is not dropped: processReceive returned no
      error and no negative request id. */
  predicate Answered(version: uint16, f: Frame) {
    |f.header| >= V1 && version >= HEADER_PROTOCAL_VERSION && ReqOf(f.header).requestid >= 0
  }

  function AnsweredOf(version: uint16, fs: seq<Frame>): seq<Frame> {
    if fs == [] then []
    else AnsweredOf(version, fs[..|fs| - 1]) + if Answered(version, fs[|fs| - 1]) then [fs[|fs| - 1]] else []
  }

  lemma AnsweredSnoc(version: uint16, fs: seq<Frame>, f: Frame)
    ensures AnsweredOf(version, fs + [f]) == AnsweredOf(version, fs) + if Answered(version, f) then [f] else []
  {
    assert (fs + [f])[..|fs|] == fs;
  }

  /** A chunk received on fd, or a call of onCallback for it. */
  datatype ServerEvent = Chunk(fd: int, data: seq<octet>) | Callback(fd: int, funcid: uint32, data: seq<octet>)

  /** Why a response is in respQueue. */
  datatype Origin = Reply(fd: int, request: Frame) | Push(fd: int, funcid: uint32, data: seq<octet>)

  /** The response pack that stands in respQueue for an origin. */
  ghost predicate MadeFor(p: Pack, o: Origin, version: uint16, handler: Handler) {
    p.fd == o.fd &&
    match o
    case Reply(_, f) => |f.header| >= V1 && Answers(p.bytes, version, handler, f)
    case Push(_, funcid, data) =>
      if Buildable(version, funcid) then IsResponse(p.bytes, version, funcid, RET_OK, 0, data) else p.bytes == []
  }

  /** respQueue's packs were made for these origins. */
  ghost predicate AllMade(packs: seq<Pack>, q: seq<Origin>, version: uint16, handler: Handler) {
    |packs| == |q| && forall i | 0 <= i < |q| :: MadeFor(packs[i], q[i], version, handler)
  }

  /** A complete frame that processReceive was called with. */
  datatype Dispatch = Dispatched(fd: int, request: Frame)

  /** The caches, all that was ever put into respQueue, and all that was ever dispatched. */
  datatype State = Running(caches: Caches, queued: seq<Origin>, dispatched: seq<Dispatch>) | Undefined

  function Dispatches(fd: int, fs: seq<Frame>): (r: seq<Dispatch>)
    ensures |r| == |fs|
  {
    seq(|fs|, i requires 0 <= i < |fs| => Dispatched(fd, fs[i]))
  }

  function Replies(fd: int, fs: seq<Frame>): (r: seq<Origin>)
    ensures |r| == |fs|
  {
    seq(|fs|, i requires 0 <= i < |fs| => Reply(fd, fs[i]))
  }

  predicate CachesFine(caches: Caches) {
    forall fd | fd in caches :: |caches[fd].header| <= V1
  }

  /** One chunk on fd: its frames are dispatched, and those answered get their replies queued. */
  function AfterChunk(version: uint16, s: State, fd: int, data: seq<octet>): (t: State)
    requires s.Running? && CachesFine(s.caches)
    ensures t.Running? ==> CachesFine(t.caches)
  {
    match S.Feed(CacheOf(s.caches, fd).header, CacheOf(s.caches, fd).payload, data, [])
    case OverRead(_) => Undefined
    case Fed(h, p, out, _) =>
      Running(WithCache(s.caches, fd, RecvCache(h, p)), s.queued + Replies(fd, AnsweredOf(version, out)),
              s.dispatched + Dispatches(fd, out))
  }

  /** The server after a sequence of events; Undefined once it has read past a chunk. */
  function Serve(version: uint16, evs: seq<ServerEvent>): (s: State)
    ensures s.Running? ==> CachesFine(s.caches)
  {
    if evs == [] then Running(map[], [], [])
    else
      var s := Serve(version, evs[..|evs| - 1]);
      if s == Undefined then Undefined
      else
        match evs[|evs| - 1]
        case Callback(fd, funcid, data) => Running(s.caches, s.queued + [Push(fd, funcid, data)], s.dispatched)
        case Chunk(fd, data) => AfterChunk(version, s, fd, data)
  }

  lemma ServeCallback(version: uint16, evs: seq<ServerEvent>, fd: int, funcid: uint32, data: seq<octet>)
    requires Serve(version, evs).Running?
    ensures var s := Serve(version, evs);
            Serve(version, evs + [Callback(fd, funcid, data)])
            == Running(s.caches, s.queued + [Push(fd, funcid, data)], s.dispatched)
  {
    assert (evs + [Callback(fd, funcid, data)])[..|evs|] == evs;
  }

  lemma ServeChunk(version: uint16, evs: seq<ServerEvent>, fd: int, data: seq<octet>)
    requires Serve(version, evs).Running?
    ensures Serve(version, evs + [Chunk(fd, data)]) == AfterChunk(version, Serve(version, evs), fd, data)
  {
    hide AfterChunk;
    assert (evs + [Chunk(fd, data)])[..|evs|] == evs;
  }

  // ---------- one connection ----------

  function ChunksOf(evs: seq<ServerEvent>, fd: int): seq<seq<octet>> {
    if evs == [] then []
    else
      var e := evs[|evs| - 1];
      ChunksOf(evs[..|evs| - 1], fd) + if e.Chunk? && e.fd == fd then [e.data] else []
  }

  /** The requests on fd that have a reply in the queue, in queue order. */
  function RequestsOf(q: seq<Origin>, fd: int): seq<Frame> {
    if q == [] then []
    else
      var o := q[|q| - 1];
      RequestsOf(q[..|q| - 1], fd) + if o.Reply? && o.fd == fd then [o.request] else []
  }

  lemma {:induction false} RequestsConcat(q: seq<Origin>, r: seq<Origin>, fd: int)
    ensures RequestsOf(q + r, fd) == RequestsOf(q, fd) + RequestsOf(r, fd)
  {
    if r == [] {
      assert q + r == q;
    } else {
      RequestsConcat(q, r[..|r| - 1], fd);
      assert (q + r)[..|q + r| - 1] == q + r[..|r| - 1];
    }
  }

  lemma {:induction false} RequestsOfReplies(fd: int, fs: seq<Frame>, g: int)
    ensures RequestsOf(Replies(fd, fs), g) == if g == fd then fs else []
  {
    if fs != [] {
      RequestsOfReplies(fd, fs[..|fs| - 1], g);
      assert Replies(fd, fs)[..|fs| - 1] == Replies(fd, fs[..|fs| - 1]);
    }
  }

  /** The frames dispatched on fd, in order. */
  function DispatchedOn(ds: seq<Dispatch>, fd: int): seq<Frame> {
    if ds == [] then []
    else DispatchedOn(ds[..|ds| - 1], fd) + if ds[|ds| - 1].fd == fd then [ds[|ds| - 1].request] else []
  }

  lemma DispatchedSnoc(ds: seq<Dispatch>, d: Dispatch, fd: int)
    ensures DispatchedOn(ds + [d], fd) == DispatchedOn(ds, fd) + if d.fd == fd then [d.request] else []
  {
    assert (ds + [d])[..|ds|] == ds;
  }

  lemma {:induction false} DispatchedMore(ds: seq<Dispatch>, fd: int, fs: seq<Frame>, g: int)
    ensures DispatchedOn(ds + Dispatches(fd, fs), g) == DispatchedOn(ds, g) + if g == fd then fs else []
  {
    hide DispatchedOn;
    if fs == [] {
      assert ds + Dispatches(fd, fs) == ds;
    } else {
      var front, f := fs[..|fs| - 1], fs[|fs| - 1];
      DispatchedMore(ds, fd, front, g);
      assert ds + Dispatches(fd, fs) == ds + Dispatches(fd, front) + [Dispatched(fd, f)];
      DispatchedSnoc(ds + Dispatches(fd, front), Dispatched(fd, f), g);
    }
  }

  lemma {:induction false} AnsweredConcat(version: uint16, fs: seq<Frame>, gs: seq<Frame>)
    ensures AnsweredOf(version, fs + gs) == AnsweredOf(version, fs) + AnsweredOf(version, gs)
  {
    if gs == [] {
      assert fs + gs == fs;
    } else {
      AnsweredConcat(version, fs, gs[..|gs| - 1]);
      assert (fs + gs)[..|fs + gs| - 1] == fs + gs[..|gs| - 1];
    }
  }

  /** The frames dispatched before a chunk do not matter to it. */
  lemma {:induction false} FeedOnTop(h: seq<octet>, p: seq<octet>, c: seq<octet>, before: seq<Frame>, out: seq<Frame>)
    requires |h| <= V1
    ensures match S.Feed(h, p, c, out)
            case Fed(h', p', o, r) => S.Feed(h, p, c, before + out) == S.Fed(h', p', before + o, r)
            case OverRead(o) => S.Feed(h, p, c, before + out).OverRead?
    decreases |c|, |h|
  {
    hide S.Iteration;
    if c != [] {
      var t := S.Iteration(h, p, c);
      if t.Go? {
        FeedOnTop([], [], t.rest, before, out + [t.frame]);
        assert before + out + [t.frame] == before + (out + [t.frame]);
      }
    }
  }

  lemma ChunksSnoc(evs: seq<ServerEvent>, e: ServerEvent, fd: int)
    ensures e.Chunk? && e.fd == fd ==> ChunksOf(evs + [e], fd) == ChunksOf(evs, fd) + [e.data]
    ensures !(e.Chunk? && e.fd == fd) ==> ChunksOf(evs + [e], fd) == ChunksOf(evs, fd)
  {
    assert (evs + [e])[..|evs|] == evs;
  }

  lemma FeedAllSnoc(cs: seq<seq<octet>>, c: seq<octet>)
    requires S.FeedAll(cs).Fed?
    ensures var a := S.FeedAll(cs); S.FeedAll(cs + [c]) == S.Feed(a.header, a.payload, c, a.out)
  {
    hide S.Feed;
    assert (cs + [c])[..|cs|] == cs;
  }

  lemma FeedAllFront(cs: seq<seq<octet>>, c: seq<octet>)
    ensures S.FeedAll(cs + [c]).Fed? ==> S.FeedAll(cs).Fed?
  {
    hide S.Feed;
    assert (cs + [c])[..|cs|] == cs;
  }

  /** What connection fd has been through after evs: its own chunks, and nothing else. */
  ghost predicate Own(version: uint16, evs: seq<ServerEvent>, fd: int, s: State)
    requires s.Running?
  {
    var c, o := CacheOf(s.caches, fd), S.FeedAll(ChunksOf(evs, fd));
    && o.Fed? && c == RecvCache(o.header, o.payload) && (c.header == [] ==> c.payload == [])
    && RequestsOf(s.queued, fd) == AnsweredOf(version, o.out)
    && DispatchedOn(s.dispatched, fd) == o.out
  }

  lemma CacheAfter(caches: Caches, fd: int, c: RecvCache, g: int)
    requires c.header == [] ==> c.payload == []
    ensures CacheOf(WithCache(caches, fd, c), g) == if g != fd then CacheOf(caches, g) else c
  {
  }

  /** Without header octets there are no payload octets. */
  lemma {:induction false} NoHeaderNoPayload(h: seq<octet>, p: seq<octet>, c: seq<octet>, out: seq<Frame>)
    requires |h| <= V1 && (h == [] ==> p == [])
    ensures S.Feed(h, p, c, out).Fed? && S.Feed(h, p, c, out).header == [] ==> S.Feed(h, p, c, out).payload == []
    decreases |c|, |h|
  {
    if c != [] {
      var t := S.Iteration(h, p, c);
      if t.Go? {
        NoHeaderNoPayload([], [], t.rest, out + [t.frame]);
      }
    }
  }

  lemma ChunkStep(version: uint16, evs: seq<ServerEvent>, s: State, fd: int, data: seq<octet>, g: int)
    requires s.Running? && CachesFine(s.caches) && Own(version, evs, g, s) && Own(version, evs, fd, s)
    requires S.Feed(CacheOf(s.caches, fd).header, CacheOf(s.caches, fd).payload, data, []).Fed?
    ensures var o := S.Feed(CacheOf(s.caches, fd).header, CacheOf(s.caches, fd).payload, data, []);
            var t := Running(WithCache(s.caches, fd, RecvCache(o.header, o.payload)),
                             s.queued + Replies(fd, AnsweredOf(version, o.out)),
                             s.dispatched + Dispatches(fd, o.out));
            Own(version, evs + [Chunk(fd, data)], g, t)
  {
    hide S.Feed, S.FeedAll, WithCache, AnsweredOf, RequestsOf, ChunksOf, CacheOf, Replies, Dispatches, DispatchedOn;
    var c := CacheOf(s.caches, fd);
    var o := S.Feed(c.header, c.payload, data, []);
    NoHeaderNoPayload(c.header, c.payload, data, []);
    CacheAfter(s.caches, fd, RecvCache(o.header, o.payload), g);
    RequestsConcat(s.queued, Replies(fd, AnsweredOf(version, o.out)), g);
    RequestsOfReplies(fd, AnsweredOf(version, o.out), g);
    DispatchedMore(s.dispatched, fd, o.out, g);
    ChunksSnoc(evs, Chunk(fd, data), g);
    if g == fd {
      var all := S.FeedAll(ChunksOf(evs, fd));
      FeedAllSnoc(ChunksOf(evs, fd), data);
      FeedOnTop(c.header, c.payload, data, all.out, []);
      assert all.out + [] == all.out;
      AnsweredConcat(version, all.out, o.out);
    }
  }

  lemma CallbackStep(version: uint16, evs: seq<ServerEvent>, s: State, e: ServerEvent, g: int)
    requires s.Running? && Own(version, evs, g, s) && e.Callback?
    ensures Own(version, evs + [e], g, Running(s.caches, s.queued + [Push(e.fd, e.funcid, e.data)], s.dispatched))
  {
    hide S.Feed, S.FeedAll, AnsweredOf, ChunksOf, CacheOf, DispatchedOn;
    ChunksSnoc(evs, e, g);
    assert (s.queued + [Push(e.fd, e.funcid, e.data)])[..|s.queued|] == s.queued;
  }

  /** Each connection goes through its own chunks as if it were alone, and the queue holds exactly
      the replies to what it dispatched, in order. */
  lemma {:induction false} ServesEach(version: uint16, evs: seq<ServerEvent>, g: int)
    requires Serve(version, evs).Running?
    ensures Own(version, evs, g, Serve(version, evs))
  {
    hide Own, S.Feed, AnsweredOf, Replies, WithCache, Dispatches;
    if evs == [] {
      NothingYet(version, g);
    } else {
      var front, e := evs[..|evs| - 1], evs[|evs| - 1];
      var s := Serve(version, front);
      ServesEach(version, front, g);
      assert evs == front + [e];
      match e
      case Chunk(fd, data) =>
        ServesEach(version, front, fd);
        ChunkStep(version, front, s, fd, data, g);
      case Callback(fd, funcid, data) => CallbackStep(version, front, s, e, g);
    }
  }

  lemma NothingYet(version: uint16, g: int)
    ensures Own(version, [], g, Running(map[], [], []))
  {
  }

  lemma LastChunk(version: uint16, front: seq<ServerEvent>, fd: int, data: seq<octet>)
    requires Serve(version, front).Running?
    ensures var c := CacheOf(Serve(version, front).caches, fd);
            S.FeedAll(ChunksOf(front, fd) + [data]).Fed? <==> S.Feed(c.header, c.payload, data, []).Fed?
  {
    hide S.Feed, Serve, ChunksOf, S.FeedAll;
    ServesEach(version, front, fd);
    var c, all := CacheOf(Serve(version, front).caches, fd), S.FeedAll(ChunksOf(front, fd));
    FeedAllSnoc(ChunksOf(front, fd), data);
    FeedOnTop(c.header, c.payload, data, all.out, []);
    assert all.out + [] == all.out;
  }

  ghost predicate EachFed(evs: seq<ServerEvent>) {
    forall g: int :: S.FeedAll(ChunksOf(evs, g)).Fed?
  }

  lemma EachFedSnoc(evs: seq<ServerEvent>, e: ServerEvent)
    ensures EachFed(evs + [e]) <==> EachFed(evs) && (e.Chunk? ==> S.FeedAll(ChunksOf(evs, e.fd) + [e.data]).Fed?)
  {
    hide S.Feed, S.FeedAll, ChunksOf;
    forall g: int ensures S.FeedAll(ChunksOf(evs + [e], g)).Fed? <==>
                          && S.FeedAll(ChunksOf(evs, g)).Fed?
                          && (e.Chunk? && e.fd == g ==> S.FeedAll(ChunksOf(evs, g) + [e.data]).Fed?) {
      ChunksSnoc(evs, e, g);
      if e.Chunk? && e.fd == g {
        FeedAllFront(ChunksOf(evs, g), e.data);
      }
    }
  }

  /** The server reads past a chunk exactly when one of the connections alone would. */
  lemma {:induction false} UndefinedIff(version: uint16, evs: seq<ServerEvent>)
    ensures Serve(version, evs).Running? <==> EachFed(evs)
  {
    hide S.Feed, EachFed, S.FeedAll, ChunksOf, Replies, WithCache, AnsweredOf, Dispatches;
    if evs == [] {
      EachFedAtStart();
    } else {
      var front, e := evs[..|evs| - 1], evs[|evs| - 1];
      UndefinedIff(version, front);
      assert evs == front + [e];
      EachFedSnoc(front, e);
      if Serve(version, front).Running? && e.Chunk? {
        LastChunk(version, front, e.fd, e.data);
      }
    }
  }

  lemma EachFedAtStart()
    ensures EachFed([])
  {
  }

  // ---------- the theorem ----------

  /** What the peers send: the octets on each connection come from its request frames. */
  ghost predicate Carries(evs: seq<ServerEvent>, streams: int -> seq<Frame>) {
    forall fd: int :: S.GoodRequests(streams(fd)) && Flat(ChunksOf(evs, fd)) <= Wire(streams(fd))
  }

  /** For any connections and any interleaving: the server stays defined exactly when every
      connection's chunks are cut between frames; then every connection's complete frames have been
      dispatched once and in order, and the replies to those that get one queued in that order. */
  lemma EveryConnection(version: uint16, evs: seq<ServerEvent>, streams: int -> seq<Frame>)
    requires Carries(evs, streams)
    ensures Serve(version, evs).Running? <==> forall fd: int :: CleanCuts(streams(fd), S.Never, ChunksOf(evs, fd))
    ensures Serve(version, evs).Running? ==> forall fd: int ::
              var done := CompleteAt(streams(fd), S.Never, |Flat(ChunksOf(evs, fd))|);
              && DispatchedOn(Serve(version, evs).dispatched, fd) == done
              && RequestsOf(Serve(version, evs).queued, fd) == AnsweredOf(version, done)
  {
    hide Serve, RequestsOf, ChunksOf, S.FeedAll, CleanCuts, Flat, Wire, S.GoodRequests, DispatchedOn;
    UndefinedIff(version, evs);
    forall fd: int ensures S.FeedAll(ChunksOf(evs, fd)).Fed? <==> CleanCuts(streams(fd), S.Never, ChunksOf(evs, fd)) {
      S.ServerFraming(streams(fd), ChunksOf(evs, fd));
    }
    if Serve(version, evs).Running? {
      forall fd: int ensures
          var done := CompleteAt(streams(fd), S.Never, |Flat(ChunksOf(evs, fd))|);
          && DispatchedOn(Serve(version, evs).dispatched, fd) == done
          && RequestsOf(Serve(version, evs).queued, fd) == AnsweredOf(version, done) {
        S.ServerFraming(streams(fd), ChunksOf(evs, fd));
        ServesEach(version, evs, fd);
      }
    }
  }
}
