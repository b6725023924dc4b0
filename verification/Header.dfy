/**
 The packed little-endian headers of the local-socket protocol and the functions that build
 request and response packs (header.h:9-202).
 */
module Header {
  datatype Option<+T> = None | Some(value: T)

  type octet = x: int | 0 <= x < 256

  const HEADER_PROTOCAL_VERSION: int := 4
  const HEADER_JSON_VERSION: int := 16
  const HEADER_BODYFORMAT_PROTO: int := 2
  const HEADER_BODYFORMAT_JSON: int := 3
  const HEADER_BEGIN: int := 0x48444352

  /** sizeof(AMCReqHeader) == sizeof(AMCRespHeader), and the same for the V2 headers. */
  const V1: nat := 32
  const V2: nat := 52

  // ---------- little-endian fields ----------

  function Pow256(n: nat): nat {
    if n == 0 then 1 else 256 * Pow256(n - 1)
  }

  function LE(x: nat, n: nat): (b: seq<octet>)
    ensures |b| == n
  {
    if n == 0 then [] else [x % 256] + LE(x / 256, n - 1)
  }

  function Value(b: seq<octet>): nat {
    if b == [] then 0 else b[0] + 256 * Value(b[1..])
  }

  lemma {:induction false} RoundTrip(x: nat, n: nat)
    requires x < Pow256(n)
    ensures Value(LE(x, n)) == x
  {
    if n > 0 {
      RoundTrip(x / 256, n - 1);
      assert LE(x, n)[1..] == LE(x / 256, n - 1);
    }
  }

  lemma Sizes()
    ensures Pow256(2) == 0x1_0000 && Pow256(4) == 0x1_0000_0000 && Pow256(8) == 0x1_0000_0000_0000_0000
  {
    assert Pow256(1) == 256;
    assert Pow256(3) == 0x100_0000;
    assert Pow256(5) == 0x100_0000_0000;
    assert Pow256(6) == 0x1_0000_0000_0000;
    assert Pow256(7) == 0x100_0000_0000_0000;
  }

  type uint16 = x: int | 0 <= x < 0x1_0000
  type uint32 = x: int | 0 <= x < 0x1_0000_0000
  type uint64 = x: int | 0 <= x < 0x1_0000_0000_0000_0000
  type int32 = x: int | -0x8000_0000 <= x < 0x8000_0000
  type int64 = x: int | -0x8000_0000_0000_0000 <= x < 0x8000_0000_0000_0000

  /** Conversions between signed and unsigned words, as C++ does them. */
  function U32(x: int32): uint32 {
    if x < 0 then x + 0x1_0000_0000 else x
  }

  function S32(x: uint32): int32 {
    if x < 0x8000_0000 then x else x - 0x1_0000_0000
  }

  function U64(x: int64): uint64 {
    if x < 0 then x + 0x1_0000_0000_0000_0000 else x
  }

  function S64(x: uint64): int64 {
    if x < 0x8000_0000_0000_0000 then x else x - 0x1_0000_0000_0000_0000
  }

  /** Field of n octets at offset at. */
  function Field(h: seq<octet>, at: nat, n: nat): nat
    requires at + n <= |h|
  {
    Value(h[at..at + n])
  }

  // ---------- requests ----------

  datatype ReqHeader = ReqHeader(begin: uint32, version: uint16, funcid: uint16, bodylen: uint32,
                                 requestid: int64, callertid: uint32, timestamp: int64)

  function ReqBytes(h: ReqHeader): (b: seq<octet>)
    ensures |b| == V1
  {
    LE(h.begin, 4) + (LE(h.version, 2) + (LE(h.funcid, 2) + (LE(h.bodylen, 4)
      + (LE(U64(h.requestid), 8) + (LE(h.callertid, 4) + LE(U64(h.timestamp), 8))))))
  }

  /** A word read back from its field is in range. */
  lemma {:induction false} ValueBound(b: seq<octet>)
    ensures Value(b) < Pow256(|b|)
  {
    if b != [] {
      ValueBound(b[1..]);
    }
  }

  function Word(h: seq<octet>, at: nat): uint32
    requires at + 4 <= |h|
  {
    ValueBound(h[at..at + 4]);
    Sizes();
    Field(h, at, 4)
  }

  function Half(h: seq<octet>, at: nat): uint16
    requires at + 2 <= |h|
  {
    ValueBound(h[at..at + 2]);
    Sizes();
    Field(h, at, 2)
  }

  function Long(h: seq<octet>, at: nat): int64
    requires at + 8 <= |h|
  {
    ValueBound(h[at..at + 8]);
    Sizes();
    S64(Field(h, at, 8))
  }

  /** The struct AMCReqHeader at the start of a buffer. */
  function ReqOf(b: seq<octet>): ReqHeader
    requires |b| >= V1
  {
    ReqHeader(Word(b, 0), Half(b, 4), Half(b, 6), Word(b, 8), Long(b, 12), Word(b, 20), Long(b, 24))
  }

  lemma SevenParts(a: seq<octet>, b: seq<octet>, c: seq<octet>, d: seq<octet>, e: seq<octet>, f: seq<octet>,
      g: seq<octet>, rest: seq<octet>)
    ensures var i1, i2 := |a|, |a| + |b|;
            var i3, i4 := i2 + |c|, i2 + |c| + |d|;
            var i5, i6 := i4 + |e|, i4 + |e| + |f|;
            var s := (a + (b + (c + (d + (e + (f + g)))))) + rest;
            && s[0..i1] == a && s[i1..i2] == b && s[i2..i3] == c && s[i3..i4] == d && s[i4..i5] == e && s[i5..i6] == f
            && s[i6..i6 + |g|] == g
  {
  }

  /** Request headers survive packing, whatever follows them. */
  lemma ReqRoundTrip(h: ReqHeader, rest: seq<octet>)
    ensures ReqOf(ReqBytes(h) + rest) == h
  {
    hide LE, Value;
    Sizes();
    SevenParts(LE(h.begin, 4), LE(h.version, 2), LE(h.funcid, 2), LE(h.bodylen, 4), LE(U64(h.requestid), 8),
        LE(h.callertid, 4),
               LE(U64(h.timestamp), 8), rest);
    RoundTrip(h.begin, 4);
    RoundTrip(h.version, 2);
    RoundTrip(h.funcid, 2);
    RoundTrip(h.bodylen, 4);
    RoundTrip(U64(h.requestid), 8);
    RoundTrip(h.callertid, 4);
    RoundTrip(U64(h.timestamp), 8);
  }

  // ---------- responses ----------

  datatype RespHeader = RespHeader(begin: uint32, version: uint16, funcid: uint16, retCode: uint32, bodylen: uint32,
                                   requestid: int64, timestamp: int64)

  function RespBytes(h: RespHeader): (b: seq<octet>)
    ensures |b| == V1
  {
    LE(h.begin, 4) + (LE(h.version, 2) + (LE(h.funcid, 2) + (LE(h.retCode, 4)
      + (LE(h.bodylen, 4) + (LE(U64(h.requestid), 8) + LE(U64(h.timestamp), 8))))))
  }

  function RespOf(b: seq<octet>): RespHeader
    requires |b| >= V1
  {
    RespHeader(Word(b, 0), Half(b, 4), Half(b, 6), Word(b, 8), Word(b, 12), Long(b, 16), Long(b, 24))
  }

  lemma RespRoundTrip(h: RespHeader, rest: seq<octet>)
    ensures RespOf(RespBytes(h) + rest) == h
  {
    hide LE, Value;
    Sizes();
    SevenParts(LE(h.begin, 4), LE(h.version, 2), LE(h.funcid, 2), LE(h.retCode, 4), LE(h.bodylen, 4),
        LE(U64(h.requestid), 8),
               LE(U64(h.timestamp), 8), rest);
    RoundTrip(h.begin, 4);
    RoundTrip(h.version, 2);
    RoundTrip(h.funcid, 2);
    RoundTrip(h.retCode, 4);
    RoundTrip(h.bodylen, 4);
    RoundTrip(U64(h.requestid), 8);
    RoundTrip(U64(h.timestamp), 8);
  }

  /** The fields that V2 headers add: their length, the body format and three words that are
      never written. */
  function Extension(format: uint32, spare: seq<octet>): (b: seq<octet>)
    requires |spare| == 12
    ensures |b| == V2 - V1
  {
    LE(V2, 4) + (LE(format, 4) + spare)
  }

  function FormatOf(b: seq<octet>): uint32
    requires |b| >= V2
  {
    Word(b, 36)
  }

  lemma ExtensionRoundTrip(h: seq<octet>, format: uint32, spare: seq<octet>, rest: seq<octet>)
    requires |h| == V1 && |spare| == 12
    ensures FormatOf(h + Extension(format, spare) + rest) == format
  {
    hide LE, Value;
    Sizes();
    var b := h + Extension(format, spare) + rest;
    assert b[36..40] == LE(format, 4);
    RoundTrip(format, 4);
  }

  // ---------- where the fields are ----------

  /** A request header is the packed struct: begin, version, funcid, bodylen, requestid, callertid and
      timestamp at offsets 0, 4, 6, 8, 12, 20 and 24. */
  lemma ReqOffsets(h: ReqHeader)
    ensures var b := ReqBytes(h);
            && |b| == 32 && b[0..4] == LE(h.begin, 4) && b[4..6] == LE(h.version, 2) && b[6..8] == LE(h.funcid, 2)
            && b[8..12] == LE(h.bodylen, 4) && b[12..20] == LE(U64(h.requestid), 8)
            && b[20..24] == LE(h.callertid, 4) && b[24..32] == LE(U64(h.timestamp), 8)
  {
    hide LE;
    SevenParts(LE(h.begin, 4), LE(h.version, 2), LE(h.funcid, 2), LE(h.bodylen, 4), LE(U64(h.requestid), 8),
               LE(h.callertid, 4), LE(U64(h.timestamp), 8), []);
    assert ReqBytes(h) + [] == ReqBytes(h);
  }

  /** A response header: begin, version, funcid, retCode, bodylen, requestid and timestamp at offsets 0,
      4, 6, 8, 12, 16 and 24. */
  lemma RespOffsets(h: RespHeader)
    ensures var b := RespBytes(h);
            && |b| == 32 && b[0..4] == LE(h.begin, 4) && b[4..6] == LE(h.version, 2) && b[6..8] == LE(h.funcid, 2)
            && b[8..12] == LE(h.retCode, 4) && b[12..16] == LE(h.bodylen, 4)
            && b[16..24] == LE(U64(h.requestid), 8) && b[24..32] == LE(U64(h.timestamp), 8)
  {
    hide LE;
    SevenParts(LE(h.begin, 4), LE(h.version, 2), LE(h.funcid, 2), LE(h.retCode, 4), LE(h.bodylen, 4),
               LE(U64(h.requestid), 8), LE(U64(h.timestamp), 8), []);
    assert RespBytes(h) + [] == RespBytes(h);
  }

  /** Fields are stored low octet first: every pack starts with the octets "RCDH". */
  lemma Mark()
    ensures LE(HEADER_BEGIN, 4) == [0x52, 0x43, 0x44, 0x48]
  {
    assert LE(HEADER_BEGIN, 4) == [0x52] + LE(0x484443, 3) && LE(0x484443, 3) == [0x43] + LE(0x4844, 2);
    assert LE(0x4844, 2) == [0x44] + LE(0x48, 1) && LE(0x48, 1) == [0x48] + LE(0, 0);
  }

  lemma SmallWord(x: nat)
    requires x < 256
    ensures LE(x, 4) == [x, 0, 0, 0]
  {
    assert LE(x, 4) == [x] + LE(0, 3) && LE(0, 3) == [0] + LE(0, 2) && LE(0, 2) == [0] + LE(0, 1);
    assert LE(0, 1) == [0] + LE(0, 0);
  }

  /** A V2 pack carries its header length, 52, and the body format 3 at offsets 32 and 36. */
  lemma ExtensionOffsets(h: seq<octet>, spare: seq<octet>)
    requires |h| == 32 && |spare| == 12
    ensures var b := h + Extension(HEADER_BODYFORMAT_JSON, spare);
            |b| == 52 && b[32..36] == [52, 0, 0, 0] && b[36..40] == [3, 0, 0, 0] && b[40..] == spare
  {
    hide LE;
    SmallWord(52);
    SmallWord(3);
    var b := h + Extension(HEADER_BODYFORMAT_JSON, spare);
    assert b[32..36] == LE(52, 4) && b[36..40] == LE(3, 4);
  }

  // ---------- building packs ----------

  /** Write n octets of x at position at. */
  method PutField(a: array<octet>, at: nat, x: nat, n: nat)
    requires at + n <= a.Length
    modifies a
    ensures a[at..at + n] == LE(x, n)
    ensures forall i | 0 <= i < a.Length && !(at <= i < at + n) :: a[i] == old(a[i])
  {
    var rest := x;
    for k := 0 to n
      invariant a[at..at + k] + LE(rest, n - k) == LE(x, n)
      invariant forall i | 0 <= i < a.Length && !(at <= i < at + n) :: a[i] == old(a[i])
    {
      ghost var before := a[at..at + k];
      a[at + k] := rest % 256;
      assert a[at..at + k + 1] == before + [rest % 256];
      rest := rest / 256;
    }
  }

  /** memcpy of data to position at. */
  method PutBytes(a: array<octet>, at: nat, data: seq<octet>)
    requires at + |data| <= a.Length
    modifies a
    ensures a[at..at + |data|] == data
    ensures forall i | 0 <= i < a.Length && !(at <= i < at + |data|) :: a[i] == old(a[i])
  {
    for k := 0 to |data|
      invariant a[at..at + k] == data[..k]
      invariant forall i | 0 <= i < a.Length && !(at <= i < at + |data|) :: a[i] == old(a[i])
    {
      a[at + k] := data[k];
    }
  }

  /** The fields of a request header, in the order in which genReqPack assigns them. */
  method PutReqHeader(a: array<octet>, h: ReqHeader)
    requires a.Length >= V1
    modifies a
    ensures a[..V1] == ReqBytes(h)
  {
    hide LE;
    PutField(a, 0, h.begin, 4);
    PutField(a, 4, h.version, 2);
    PutField(a, 6, h.funcid, 2);
    PutField(a, 8, h.bodylen, 4);
    PutField(a, 20, h.callertid, 4);
    PutField(a, 24, U64(h.timestamp), 8);
    PutField(a, 12, U64(h.requestid), 8);
    assert a[0..4] == LE(h.begin, 4);
    assert a[4..6] == LE(h.version, 2);
    assert a[6..8] == LE(h.funcid, 2);
    assert a[8..12] == LE(h.bodylen, 4);
    assert a[20..24] == LE(h.callertid, 4);
    assert a[24..32] == LE(U64(h.timestamp), 8);
    Glue(a[..V1], a[0..4], a[4..6], a[6..8], a[8..12], a[12..20], a[20..24], a[24..32]);
  }

  lemma Glue(s: seq<octet>, a: seq<octet>, b: seq<octet>, c: seq<octet>, d: seq<octet>, e: seq<octet>, f: seq<octet>,
      g: seq<octet>)
    requires |s| == |a| + |b| + |c| + |d| + |e| + |f| + |g|
    requires s[..|a|] == a && s[|a|..][..|b|] == b && s[|a| + |b|..][..|c|] == c && s[|a| + |b| + |c|..][..|d|] == d
    requires s[|a| + |b| + |c| + |d|..][..|e|] == e && s[|a| + |b| + |c| + |d| + |e|..][..|f|] == f
    requires s[|a| + |b| + |c| + |d| + |e| + |f|..] == g
    ensures s == a + (b + (c + (d + (e + (f + g)))))
  {
  }

  /** The fields of a response header, in the order in which genRespPack assigns them. */
  method PutRespHeader(a: array<octet>, h: RespHeader)
    requires a.Length >= V1
    modifies a
    ensures a[..V1] == RespBytes(h)
  {
    hide LE;
    PutField(a, 8, h.retCode, 4);
    PutField(a, 16, U64(h.requestid), 8);
    PutField(a, 6, h.funcid, 2);
    PutField(a, 12, h.bodylen, 4);
    PutField(a, 24, U64(h.timestamp), 8);
    PutField(a, 0, h.begin, 4);
    PutField(a, 4, h.version, 2);
    assert a[8..12] == LE(h.retCode, 4);
    assert a[16..24] == LE(U64(h.requestid), 8);
    assert a[6..8] == LE(h.funcid, 2);
    assert a[12..16] == LE(h.bodylen, 4);
    assert a[24..32] == LE(U64(h.timestamp), 8);
    assert a[0..4] == LE(h.begin, 4);
    Glue(a[..V1], a[0..4], a[4..6], a[6..8], a[8..12], a[12..16], a[16..24], a[24..32]);
  }

  /** headerlen, bodyformat, and three words left as they are. */
  method PutExtension(a: array<octet>)
    requires a.Length >= V2
    modifies a
    ensures a[..V1] == old(a[..V1]) && a[V1..V2] == Extension(HEADER_BODYFORMAT_JSON, a[40..V2])
  {
    hide LE;
    PutField(a, 32, V2, 4);
    PutField(a, 36, HEADER_BODYFORMAT_JSON, 4);
    assert a[32..36] == LE(V2, 4);
    assert a[V1..V2] == a[32..36] + (a[36..40] + a[40..52]);
  }

  /** What stands between the V1 header and the body of a pack. */
  function Between(version: uint16, pack: seq<octet>): seq<octet>
    requires |pack| >= (if version >= HEADER_JSON_VERSION then V2 else V1)
  {
    if version >= HEADER_JSON_VERSION then Extension(HEADER_BODYFORMAT_JSON, pack[40..V2]) else []
  }

  function PackLen(version: uint16, dataLen: nat): nat {
    dataLen + if version >= HEADER_JSON_VERSION then V2 else V1
  }

  /** genReqPack: headerVersion is HEADER_VERSION, data None a null pointer, otherwise at least dataLen
      octets; now is the clock.  A negative dataLen that no check refuses writes past the pack. */
  method GenReqPack(headerVersion: uint16, funcid: uint32, data: Option<seq<octet>>, dataLen: int32,
                    callertid: uint32, timestamp: int64, now: int64)
    returns (ret: int64, pack: array?<octet>, undefined: bool)
    requires data.Some? ==> dataLen <= |data.value|
    ensures undefined <==> dataLen < 0 && funcid <= 65535 && headerVersion >= HEADER_PROTOCAL_VERSION
    ensures pack == null <==>
            undefined || (data.None? && dataLen > 0) || funcid > 65535 || headerVersion < HEADER_PROTOCAL_VERSION
    ensures pack == null && !undefined ==> ret == if funcid > 65535 && !(data.None? && dataLen > 0) then -2 else -1
    ensures pack != null ==> ret == now && fresh(pack) && dataLen >= 0 && pack.Length == PackLen(headerVersion, dataLen)
    ensures pack != null ==>
              pack[..] == ReqBytes(ReqHeader(HEADER_BEGIN, headerVersion, funcid, dataLen, now, callertid, timestamp))
                          + Between(headerVersion, pack[..]) + if data.Some? then data.value[..dataLen] else []
  {
    hide ReqBytes, Extension, LE;
    undefined := false;
    if dataLen > 0 && data.None? {
      return -1, null, undefined;
    }
    if funcid > 65535 {
      return -2, null, undefined;
    }
    if headerVersion < HEADER_PROTOCAL_VERSION {
      return -1, null, undefined;
    }
    if dataLen < 0 {
      return now, null, true;
    }
    var h := ReqHeader(HEADER_BEGIN, headerVersion, funcid, dataLen, now, callertid, timestamp);
    var body := if data.Some? then data.value[..dataLen] else [];
    ret := now;
    if headerVersion >= HEADER_JSON_VERSION {
      pack := new octet[dataLen + V2];
      PutReqHeader(pack, h);
      PutExtension(pack);
      FillBody(pack, V2, body);
    } else {
      pack := new octet[dataLen + V1];
      PutReqHeader(pack, h);
      FillBody(pack, V1, body);
    }
    Assembled(headerVersion, pack[..], ReqBytes(h), body);
  }

  /** memcpy of the body behind the header. */
  method FillBody(a: array<octet>, at: nat, body: seq<octet>)
    requires a.Length == at + |body|
    modifies a
    ensures a[..at] == old(a[..at]) && a[at..] == body
  {
    PutBytes(a, at, body);
  }

  lemma Assembled(version: uint16, pack: seq<octet>, h: seq<octet>, body: seq<octet>)
    requires |h| == V1 && |pack| == PackLen(version, |body|) && pack[..V1] == h
    requires version >= HEADER_JSON_VERSION ==> pack[V1..V2] == Extension(HEADER_BODYFORMAT_JSON, pack[40..V2])
    requires pack[|pack| - |body|..] == body
    ensures pack == h + Between(version, pack) + body
  {
    hide Extension;
    if version >= HEADER_JSON_VERSION {
      assert pack == pack[..V1] + pack[V1..V2] + pack[V2..];
    } else {
      assert pack == pack[..V1] + pack[V1..];
    }
  }

  /** genRespPack: data holds at least dataLen octets; a negative dataLen that no check refuses writes
      past the pack. */
  method GenRespPack(headerVersion: uint16, funcid: uint32, retCode: uint32, requestid: uint64, data: seq<octet>,
      dataLen: int32, now: int64)
    returns (ret: int64, pack: array?<octet>, undefined: bool)
    requires dataLen <= |data|
    ensures undefined <==> dataLen < 0 && funcid <= 65535 && headerVersion >= HEADER_PROTOCAL_VERSION
    ensures pack == null <==> undefined || funcid > 65535 || headerVersion < HEADER_PROTOCAL_VERSION
    ensures ret == if funcid > 65535 then -2 else if headerVersion < HEADER_PROTOCAL_VERSION then -1 else S64(requestid)
    ensures pack != null ==> fresh(pack) && dataLen >= 0 && pack.Length == PackLen(headerVersion, dataLen)
    ensures pack != null ==>
              pack[..] == RespBytes(
                            RespHeader(HEADER_BEGIN, headerVersion, funcid, retCode, dataLen, S64(requestid), now))
                          + Between(headerVersion, pack[..]) + data[..dataLen]
  {
    hide RespBytes, Extension, LE;
    undefined := false;
    if funcid > 65535 {
      return -2, null, undefined;
    }
    if headerVersion < HEADER_PROTOCAL_VERSION {
      return -1, null, undefined;
    }
    ret := S64(requestid);
    if dataLen < 0 {
      return ret, null, true;
    }
    var h := RespHeader(HEADER_BEGIN, headerVersion, funcid, retCode, dataLen, S64(requestid), now);
    if headerVersion >= HEADER_JSON_VERSION {
      pack := new octet[dataLen + V2];
      PutRespHeader(pack, h);
      PutExtension(pack);
      FillBody(pack, V2, data[..dataLen]);
    } else {
      pack := new octet[dataLen + V1];
      PutRespHeader(pack, h);
      FillBody(pack, V1, data[..dataLen]);
    }
    Assembled(headerVersion, pack[..], RespBytes(h), data[..dataLen]);
  }
}
