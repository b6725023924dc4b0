/**
 Class LocalSocketServer (server.h:13-160): one cache per connection, responses queued in the
 order in which requests are dispatched and callbacks are made.
 */
module LocalSocketServer {
  import opened Header
  import opened Frames
  import opened Protocol
  import opened Connections
  import L = LocalSocket

  /** recvEvent read past the end of the received chunk. */
  const OVER_READ: int := -999

  ghost predicate CachesOk(caches: Caches) {
    forall fd | fd in caches :: 0 < |caches[fd].header| <= V1
  }

  /** The first len octets. */
  function Front(data: seq<octet>, len: int32): seq<octet>
    requires len <= |data|
  {
    if len < 0 then [] else data[..len]
  }

  /** The result of recvEvent. */
  function ReturnOf(o: S.Outcome): int {
    match o
    case Fed(_, _, _, ret) => ret
    case OverRead(_) => OVER_READ
  }

  /** What the socket queues of these packs: empty ones are refused. */
  function PiecesOf(packs: seq<Pack>): seq<L.Piece> {
    if packs == [] then []
    else
      var p := packs[|packs| - 1];
      PiecesOf(packs[..|packs| - 1]) + if p.bytes == [] then [] else [L.Piece(p.fd, p.bytes)]
  }

  lemma PiecesSnoc(packs: seq<Pack>, p: Pack)
    ensures PiecesOf(packs + [p]) == PiecesOf(packs) + if p.bytes == [] then [] else [L.Piece(p.fd, p.bytes)]
  {
    assert (packs + [p])[..|packs|] == packs;
  }

  class Engine {
    const handler: Handler
    const version: uint16
    const clock: nat -> int64
    var ticks: nat
    var caches: Caches
    var respQueue: seq<Pack>
    /** The events so far, every pack ever pushed to respQueue, and every frame ever dispatched. */
    ghost var served: seq<ServerEvent>
    ghost var made: seq<Pack>
    ghost var dispatched: seq<Dispatch>

    constructor (handler: Handler, version: uint16, clock: nat -> int64)
      ensures Valid() && caches == map[] && respQueue == [] && served == [] && made == [] && dispatched == []
    {
      this.handler, this.version, this.clock := handler, version, clock;
      ticks, caches, respQueue, served, made, dispatched := 0, map[], [], [], [], [];
    }

    /** The object is where Serve says that the events lead, and the packs made are those for the
        origins that Serve queues; respQueue holds the last of them. */
    ghost predicate Valid()
      reads this
    {
      && CachesOk(caches)
      && QueueOk()
      && Serve(version, served).Running? && Serve(version, served).caches == caches
      && Serve(version, served).dispatched == dispatched
      && AllMade(made, Serve(version, served).queued, version, handler)
    }

    /** respQueue holds the packs made last. */
    ghost predicate QueueOk()
      reads this
    {
      |respQueue| <= |made| && respQueue == made[|made| - |respQueue|..]
    }

    /** The packs popped from respQueue so far. */
    ghost function Popped(): seq<Pack>
      requires QueueOk()
      reads this
    {
      made[..|made| - |respQueue|]
    }

    /** The socket has been handed what was popped, and nothing else. */
    ghost predicate Feeds(socket: L.Engine)
      reads this, socket
    {
      QueueOk() && socket.queued == PiecesOf(Popped())
    }

    /** The oldest response leaves the queue. */
    method PopResponse() returns (pack: Pack)
      requires Valid() && respQueue != []
      modifies this`respQueue
      ensures Valid() && [pack] + respQueue == old(respQueue) && Popped() == old(Popped()) + [pack]
    {
      hide AllMade, Serve;
      pack := respQueue[0];
      respQueue := respQueue[1..];
    }

    /** One turn of localServerRespThread: the oldest response is handed to sendData. */
    method SendOldest(socket: L.Engine)
      requires Valid() && respQueue != [] && socket.Valid() && Feeds(socket)
      modifies this`respQueue, socket
      ensures Valid() && socket.Valid() && Feeds(socket) && respQueue == old(respQueue)[1..]
      ensures socket.accepted == old(socket.accepted) && socket.failed == old(socket.failed)
    {
      hide AllMade, Serve, PiecesOf;
      var pack := PopResponse();
      PiecesSnoc(old(Popped()), pack);
      var ret := socket.SendData(pack.fd, Some(pack.bytes));
    }

    method Push(pack: Pack, ghost origins: seq<Origin>, ghost origin: Origin)
      requires QueueOk()
      requires AllMade(made, origins, version, handler) && MadeFor(pack, origin, version, handler)
      modifies this`respQueue, this`made
      ensures QueueOk() && Popped() == old(Popped())
      ensures AllMade(made, origins + [origin], version, handler)
    {
      hide MadeFor;
      respQueue := respQueue + [pack];
      made := made + [pack];
    }

    /** onCallback, with the descriptor that findFdByUid finds; fd is negative if there is none.  A
        refused function id leaves an empty pack in the queue; a negative len that nothing refuses
        writes past the pack. */
    method OnCallback(fd: int, funcid: int32, data: seq<octet>, len: int32) returns (ret: int64, undefined: bool)
      requires Valid() && len <= |data|
      modifies this
      ensures undefined <==> fd >= 0 && len < 0 && Buildable(version, U32(funcid))
      ensures ret == if fd < 0 then -1 else if U32(funcid) > 65535 then -2
                     else if version < HEADER_PROTOCAL_VERSION then -1 else 0
      ensures !undefined ==> Valid() && caches == old(caches) && Popped() == old(Popped())
      ensures !undefined ==>
                served == if fd < 0 then old(served) else old(served) + [Callback(fd, U32(funcid), Front(data, len))]
    {
      hide AllMade, MadeFor, Serve, IsResponse;
      undefined := false;
      if fd < 0 {
        return -1, undefined;
      }
      var pack;
      ret, pack, undefined := ProcessSend(fd, U32(funcid), data, U32(len), version, clock(ticks));
      ticks := ticks + 1;
      if undefined {
        return;
      }
      ghost var body := Front(data, len);
      ghost var origins := Serve(version, served).queued;
      CallbackMade(pack, fd, U32(funcid), body, version, handler);
      Push(pack, origins, Origin.Push(fd, U32(funcid), body));
      ServeCallback(version, served, fd, U32(funcid), body);
      served := served + [Callback(fd, U32(funcid), body)];
    }

    /** The end of recvEvent's loop body: a complete frame is processed, its response queued unless
        the request id is negative, and its cache erased. */
    method Dispatch(fd: int, f: Frame, ghost before: seq<Origin>, ghost out: seq<Frame>)
      requires |f.header| >= V1 && QueueOk()
      requires AllMade(made, before + Replies(fd, AnsweredOf(version, out)), version, handler)
      modifies this`ticks, this`respQueue, this`made, this`caches, this`dispatched
      ensures QueueOk() && Popped() == old(Popped()) && caches == old(caches) - {fd}
      ensures dispatched == old(dispatched) + [Dispatched(fd, f)]
      ensures AllMade(made, before + Replies(fd, AnsweredOf(version, out + [f])), version, handler)
    {
      hide AllMade, Answers, ReqOf;
      var requestId, pack := ProcessReceive(fd, f, handler, version, clock(ticks));
      ticks := ticks + 1;
      AnsweredSnoc(version, out, f);
      if requestId >= 0 {
        Push(pack, before + Replies(fd, AnsweredOf(version, out)), Reply(fd, f));
        RepliesSnoc(before, fd, AnsweredOf(version, out), f);
      } else {
        assert AnsweredOf(version, out) + [] == AnsweredOf(version, out);
      }
      caches := caches - {fd};
      dispatched := dispatched + [Dispatched(fd, f)];
    }

    /** The second half of the loop body of recvEvent, up to the dispatch: more says that fd's frame
        is complete, otherwise the loop ends with result ret. */
    method ReceiveBody(fd: int, data: seq<octet>, start: nat, readLeft: nat) returns (i: nat, more: bool, ret: int)
      requires fd in caches && |caches[fd].header| == V1 && start <= |data|
      modifies this`caches
      ensures start <= i <= |data| && caches - {fd} == old(caches) - {fd}
      ensures match S.TakeBody(old(caches[fd]).header, old(caches[fd]).payload, data[start..], readLeft)
              case Stop(h, p, r) => !more && ret == r && caches == WithCache(old(caches), fd, RecvCache(h, p))
              case Past => !more && ret == OVER_READ
              case Go(f, rest) => more && fd in caches && caches[fd] == RecvCache(f.header, f.body) && rest == data[i..]
    {
      hide ReqOf;
      i, more, ret := start, false, 0;
      var header, payload := caches[fd].header, caches[fd].payload;
      if ReqOf(header).begin != HEADER_BEGIN {
        caches := caches - {fd};
        return i, false, -1;
      }
      var bodylen, shouldRead := ReqOf(header).bodylen, 0;
      if |payload| < bodylen {
        shouldRead := S.Min(bodylen - |payload|, readLeft);
        if |data| - i < shouldRead {
          return i, false, OVER_READ;
        }
      }
      assert data[i..i + shouldRead] == data[start..][..shouldRead];
      assert data[i + shouldRead..] == data[start..][shouldRead..];
      payload := payload + data[i..i + shouldRead];
      i := i + shouldRead;
      caches := caches[fd := RecvCache(header, payload)];
      more := |payload| >= bodylen;
    }

    /** The loop body of recvEvent up to the dispatch. */
    method Receive(fd: int, data: seq<octet>, start: nat) returns (i: nat, more: bool, ret: int)
      requires CachesOk(caches) && start < |data|
      modifies this`caches
      ensures start <= i <= |data| && caches - {fd} == old(caches) - {fd}
      ensures !more && ret != OVER_READ ==> CachesOk(caches)
      ensures var c := CacheOf(old(caches), fd);
              match S.Iteration(c.header, c.payload, data[start..])
              case Stop(h, p, r) => !more && ret == r && caches == WithCache(old(caches), fd, RecvCache(h, p))
              case Past => !more && ret == OVER_READ
              case Go(f, rest) => more && fd in caches && caches[fd] == RecvCache(f.header, f.body) && rest == data[i..]
    {
      hide S.TakeBody;
      i, more, ret := start, false, 0;
      var readLeft := |data| - i;
      if fd !in caches {
        caches := caches[fd := RecvCache([], [])];
      }
      var header, payload := caches[fd].header, caches[fd].payload;
      var shouldRead := S.Min(V1 - |header|, readLeft);
      assert data[i..i + shouldRead] == data[start..][..shouldRead];
      if |header| < V1 {
        header := header + data[i..i + shouldRead];
        i := i + shouldRead;
        caches := caches[fd := RecvCache(header, payload)];
        if |header| < V1 {
          return;
        }
      } else {
        assert header + data[start..][..0] == header;
      }
      assert data[i..] == data[start..][shouldRead..];
      ghost var filled := caches;
      i, more, ret := ReceiveBody(fd, data, i, readLeft);
      WithCacheSame(filled, old(caches), fd);
    }

    /** recvEvent(EVENT_DATA): the object follows Serve unless the loop reads past the chunk.  Even
        then every frame that was complete has been dispatched, and its response queued if it gets
        one; and the caches of the other connections stay as they are. */
    method RecvEvent(fd: int, data: seq<octet>) returns (ret: int)
      requires Valid()
      modifies this
      ensures caches - {fd} == old(caches) - {fd}
      ensures var c := CacheOf(old(caches), fd);
              var o := S.Feed(c.header, c.payload, data, []);
              && ret == ReturnOf(o) && dispatched == old(dispatched) + Dispatches(fd, o.out)
              && AllMade(made, Serve(version, old(served)).queued + Replies(fd, AnsweredOf(version, o.out)),
                         version, handler)
              && (o.Fed? ==> Valid() && served == old(served) + [Chunk(fd, data)])
              && (o.Fed? <==> Serve(version, old(served) + [Chunk(fd, data)]).Running?)
      ensures QueueOk() && Popped() == old(Popped())
    {
      hide AllMade, S.Iteration, Serve, AnsweredOf, Replies, WithCache, Dispatches;
      var i := 0;
      ret := 0;
      ghost var before, first := Serve(version, served).queued, CacheOf(caches, fd);
      ghost var out: seq<Frame> := [];
      NothingAnswered(before, fd, version);
      NothingDispatched(dispatched, fd);
      ServeChunk(version, served, fd, data);
      assert data[0..] == data;
      while i < |data|
        invariant i <= |data| && CachesOk(caches) && ret == 0 && served == old(served)
        invariant caches - {fd} == old(caches) - {fd}
        invariant QueueOk() && Popped() == old(Popped())
        invariant AllMade(made, before + Replies(fd, AnsweredOf(version, out)), version, handler)
        invariant dispatched == old(dispatched) + Dispatches(fd, out)
        invariant S.Feed(CacheOf(caches, fd).header, CacheOf(caches, fd).payload, data[i..], out)
               == S.Feed(first.header, first.payload, data, [])
        decreases |data| - i, |CacheOf(caches, fd).header|
      {
        WithCacheSame(caches, old(caches), fd);
        var more;
        i, more, ret := Receive(fd, data, i);
        if !more {
          if ret != OVER_READ {
            served := served + [Chunk(fd, data)];
          }
          return;
        }
        ret := 0;
        var f := Frame(caches[fd].header, caches[fd].payload);
        Dispatch(fd, f, before, out);
        DispatchesSnoc(old(dispatched), fd, out, f);
        out := out + [f];
      }
      WithOwnCache(caches, old(caches), fd);
      served := served + [Chunk(fd, data)];
    }
  }

  lemma CallbackMade(pack: Pack, fd: int, funcid: uint32, data: seq<octet>, version: uint16, handler: Handler)
    requires pack.fd == fd
    requires if Buildable(version, funcid) then IsResponse(pack.bytes, version, funcid, RET_OK, 0, data)
             else pack.bytes == []
    ensures MadeFor(pack, Origin.Push(fd, funcid, data), version, handler)
  {
  }

  lemma RepliesSnoc(before: seq<Origin>, fd: int, fs: seq<Frame>, f: Frame)
    ensures before + Replies(fd, fs + [f]) == before + Replies(fd, fs) + [Reply(fd, f)]
  {
  }

  lemma NothingAnswered(before: seq<Origin>, fd: int, version: uint16)
    ensures before + Replies(fd, AnsweredOf(version, [])) == before
  {
  }

  lemma DispatchesSnoc(before: seq<Dispatch>, fd: int, fs: seq<Frame>, f: Frame)
    ensures before + Dispatches(fd, fs + [f]) == before + Dispatches(fd, fs) + [Dispatched(fd, f)]
  {
  }

  lemma NothingDispatched(before: seq<Dispatch>, fd: int)
    ensures before + Dispatches(fd, []) == before
  {
  }

  /** Only fd's entry is replaced, so only the others matter. */
  lemma WithCacheSame(m: Caches, n: Caches, fd: int)
    requires m - {fd} == n - {fd}
    ensures forall c: RecvCache :: WithCache(m, fd, c) == WithCache(n, fd, c)
  {
    forall c: RecvCache ensures WithCache(m, fd, c) == WithCache(n, fd, c) {
      assert m[fd := c] == (m - {fd})[fd := c] && n[fd := c] == (n - {fd})[fd := c];
    }
  }

  lemma WithOwnCache(m: Caches, n: Caches, fd: int)
    requires CachesOk(m) && m - {fd} == n - {fd}
    ensures m == WithCache(n, fd, CacheOf(m, fd))
  {
    WithCacheSame(m, n, fd);
    if fd in m {
      assert m[fd := m[fd]] == m;
    } else {
      assert m - {fd} == m;
    }
  }
}
