/**
 How a dispatched request produces its one response, and how the server builds a response of
 its own accord (protocol.h:291-538).
 */
module Protocol {
  import opened Header
  import opened Frames

  const RET_OK: int32 := 0
  const ERR_FUNCTION_NOT_SUPPORT: int32 := -10002
  const ERR_CLIENT_UPGRADE_REQUIRED: int32 := -10007

  const FUNC_BASE: int := 1000

  /** The functions with a branch of their own in processReceive: FUNC_CHECK_PERMISSION up to
      FUNC_GET_PARAMETERS. */
  predicate Supported(funcid: uint16) {
    FUNC_BASE + 1 <= funcid <= FUNC_BASE + 19
  }

  /** What parsing the body and calling the HardCoder instance results in. */
  type Handler = (ReqHeader, seq<octet>) -> int32

  /** A ServerDataWorker: the remote end and the response bytes. */
  datatype Pack = Pack(fd: int, bytes: seq<octet>)

  function ResultOf(handler: Handler, h: ReqHeader, body: seq<octet>): int32 {
    if h.version < HEADER_PROTOCAL_VERSION then ERR_CLIENT_UPGRADE_REQUIRED
    else if Supported(h.funcid) then handler(h, body)
    else ERR_FUNCTION_NOT_SUPPORT
  }

  /** A request of an old version is told to upgrade, one of the 19 functions gets what its handler says,
      and any other is not supported. */
  lemma ResultCases(handler: Handler, h: ReqHeader, body: seq<octet>)
    ensures ResultOf(handler, h, body) ==
            if h.version < 4 then -10007
            else if h.funcid in {1001, 1002, 1003, 1004, 1005, 1006, 1007, 1008, 1009, 1010, 1011, 1012, 1013, 1014,
                                 1015, 1016, 1017, 1018, 1019} then handler(h, body)
            else -10002
  {
  }

  /** b is a response pack with these fields and this body. */
  predicate IsResponse(b: seq<octet>, version: uint16, funcid: uint16, result: int32, requestid: int64,
      body: seq<octet>) {
    && |b| == PackLen(version, |body|) && |body| < 0x8000_0000
    && RespOf(b) == RespHeader(HEADER_BEGIN, version, funcid, U32(result), |body|, requestid, RespOf(b).timestamp)
    && b[|b| - |body|..] == body
    && (version >= HEADER_JSON_VERSION ==> FormatOf(b) == HEADER_BODYFORMAT_JSON)
  }

  /** b answers request f: the same function and request id, and the result of its handler. */
  predicate Answers(b: seq<octet>, version: uint16, handler: Handler, f: Frame)
    requires |f.header| >= V1
  {
    var h := ReqOf(f.header);
    IsResponse(b, version, h.funcid, ResultOf(handler, h, f.body), h.requestid, [])
  }

  /** processReceive: whatever the function, one response that echoes it.  A negative result means
      that the caller drops the response. */
  method ProcessReceive(fd: int, f: Frame, handler: Handler, version: uint16, now: int64)
    returns (ret: int64, pack: Pack)
    requires |f.header| >= V1
    ensures ret == if version < HEADER_PROTOCAL_VERSION then -1 else ReqOf(f.header).requestid
    ensures version >= HEADER_PROTOCAL_VERSION ==> pack.fd == fd && Answers(pack.bytes, version, handler, f)
  {
    var h := ReqOf(f.header);
    var result := ERR_FUNCTION_NOT_SUPPORT;
    if h.version < HEADER_PROTOCAL_VERSION {
      result := ERR_CLIENT_UPGRADE_REQUIRED;
    } else if Supported(h.funcid) {
      result := handler(h, f.body);
    }
    var undefined;
    ret, pack, undefined := Respond(fd, h.funcid, result, U64(h.requestid), [], 0, version, now);
    SignRoundTrip(h.requestid);
  }

  /** A function id and a version for which genRespPack builds a pack. */
  predicate Buildable(version: uint16, funcid: uint32) {
    funcid <= 65535 && version >= HEADER_PROTOCAL_VERSION
  }

  /** processSend: a response that no request asked for, with request id 0; there is none if the
      function id or the version is refused.  len is converted to int on the way. */
  method ProcessSend(fd: int, funcid: uint32, data: seq<octet>, len: uint32, version: uint16, now: int64)
    returns (ret: int64, pack: Pack, undefined: bool)
    requires S32(len) <= |data|
    ensures undefined <==> S32(len) < 0 && Buildable(version, funcid)
    ensures ret == if funcid > 65535 then -2 else if version < HEADER_PROTOCAL_VERSION then -1 else 0
    ensures pack.fd == fd
    ensures !undefined ==>
              if Buildable(version, funcid) then IsResponse(pack.bytes, version, funcid, 0, 0, data[..len])
              else pack.bytes == []
  {
    ret, pack, undefined := Respond(fd, funcid, RET_OK, 0, data, S32(len), version, now);
  }

  lemma SignRoundTrip(x: int64)
    ensures S64(U64(x)) == x
  {
  }

  method Respond(fd: int, funcid: uint32, result: int32, requestid: uint64, data: seq<octet>, len: int32,
      version: uint16, now: int64)
    returns (ret: int64, pack: Pack, undefined: bool)
    requires len <= |data|
    ensures undefined <==> len < 0 && Buildable(version, funcid)
    ensures ret == if funcid > 65535 then -2 else if version < HEADER_PROTOCAL_VERSION then -1 else S64(requestid)
    ensures pack.fd == fd && (undefined || !Buildable(version, funcid) ==> pack.bytes == [])
    ensures !undefined && Buildable(version, funcid) ==>
              IsResponse(pack.bytes, version, funcid, result, S64(requestid), data[..len])
  {
    hide RespBytes, RespOf, Extension, FormatOf;
    var buffer;
    ret, buffer, undefined := GenRespPack(version, funcid, U32(result), requestid, data, len, now);
    if buffer == null {
      pack := Pack(fd, []);
    } else {
      pack := Pack(fd, buffer[..]);
      PackedResponse(pack.bytes, version, RespHeader(HEADER_BEGIN, version, funcid, U32(result), len,
          S64(requestid), now), data[..len]);
    }
  }

  /** A pack read back gives the header it was built from. */
  lemma PackedResponse(b: seq<octet>, version: uint16, h: RespHeader, data: seq<octet>)
    requires |b| == PackLen(version, |data|) && b == RespBytes(h) + Between(version, b) + data
    ensures RespOf(b) == h && b[|b| - |data|..] == data
    ensures version >= HEADER_JSON_VERSION ==> FormatOf(b) == HEADER_BODYFORMAT_JSON
  {
    hide RespBytes, RespOf, Extension, FormatOf;
    RespRoundTrip(h, Between(version, b) + data);
    assert b == RespBytes(h) + (Between(version, b) + data);
    if version >= HEADER_JSON_VERSION {
      ExtensionRoundTrip(RespBytes(h), HEADER_BODYFORMAT_JSON, b[40..V2], data);
    }
  }
}
