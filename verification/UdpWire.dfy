/**
 The bytes of a UDP packet (udp.h:79-112), how sendPackage seals them with a CRC
 (udp.h:449-457) and how processReceive checks them (udp.h:271-282).
 */
module UdpWire {
  import opened Lfsr
  import opened Crc32

  const HEADER: nat := 28
  const MAX_DATA: nat := 1000

  /** The fields of a packet apart from its CRC; datalen counts the bytes of data. */
  datatype Packet = Packet(version: byte, ptype: byte, datalen: bv16, totallen: bv32, offset: bv32,
                           seqno: bv32, sessionid: bv64, data: seq<byte>)

  predicate WellSized(p: Packet) {
    p.datalen as int == |p.data| <= MAX_DATA
  }

  function Bytes16(x: bv16): (b: seq<byte>)
    ensures |b| == 2
  {
    [(x & 0xFF) as byte, ((x >> 8) & 0xFF) as byte]
  }

  function Value16(b: seq<byte>): bv16
    requires |b| == 2
  {
    (b[0] as bv16) | ((b[1] as bv16) << 8)
  }

  function Bytes32(x: bv32): (b: seq<byte>)
    ensures |b| == 4
  {
    [(x & 0xFF) as byte, ((x >> 8) & 0xFF) as byte, ((x >> 16) & 0xFF) as byte, ((x >> 24) & 0xFF) as byte]
  }

  function Value32(b: seq<byte>): bv32
    requires |b| == 4
  {
    (b[0] as bv32) | ((b[1] as bv32) << 8) | ((b[2] as bv32) << 16) | ((b[3] as bv32) << 24)
  }

  function Bytes64(x: bv64): (b: seq<byte>)
    ensures |b| == 8
  {
    Bytes32((x & 0xFFFF_FFFF) as bv32) + Bytes32(((x >> 32) & 0xFFFF_FFFF) as bv32)
  }

  function Value64(b: seq<byte>): bv64
    requires |b| == 8
  {
    (Value32(b[..4]) as bv64) | ((Value32(b[4..]) as bv64) << 32)
  }

  lemma RoundTrip16(x: bv16)
    ensures Value16(Bytes16(x)) == x
  {
  }

  lemma RoundTrip32(x: bv32)
    ensures Value32(Bytes32(x)) == x
  {
  }

  lemma Halves64(x: bv64)
    ensures (((x & 0xFFFF_FFFF) as bv32) as bv64) | (((((x >> 32) & 0xFFFF_FFFF) as bv32) as bv64) << 32) == x
  {
  }

  lemma RoundTrip64(x: bv64)
    ensures Value64(Bytes64(x)) == x
  {
    var lo, hi := (x & 0xFFFF_FFFF) as bv32, ((x >> 32) & 0xFFFF_FFFF) as bv32;
    assert Bytes64(x)[..4] == Bytes32(lo) && Bytes64(x)[4..] == Bytes32(hi);
    RoundTrip32(lo);
    RoundTrip32(hi);
    Halves64(x);
  }

  function Concat(h: seq<byte>, dl: seq<byte>, crc: seq<byte>, t: seq<byte>, o: seq<byte>, q: seq<byte>,
                  s: seq<byte>, data: seq<byte>): (d: seq<byte>)
    ensures |d| == |h| + |dl| + |crc| + |t| + |o| + |q| + |s| + |data|
  {
    h + (dl + (crc + (t + (o + (q + (s + data))))))
  }

  lemma ConcatSlices(h: seq<byte>, dl: seq<byte>, crc: seq<byte>, t: seq<byte>, o: seq<byte>, q: seq<byte>,
                     s: seq<byte>, data: seq<byte>, stale: seq<byte>)
    requires |h| == 2 && |dl| == 2 && |crc| == |t| == |o| == |q| == 4 && |s| == 8
    ensures var buf := Concat(h, dl, crc, t, o, q, s, data) + stale;
      && buf[0] == h[0] && buf[1] == h[1] && buf[2..4] == dl && buf[4..8] == crc && buf[8..12] == t
      && buf[12..16] == o && buf[16..20] == q && buf[20..28] == s && buf[28..28 + |data|] == data
      && buf[..HEADER + |data|] == Concat(h, dl, crc, t, o, q, s, data)
      && forall z: seq<byte> | |z| == 4 ::
           buf[..4] + z + buf[8..] == Concat(h, dl, z, t, o, q, s, data) + stale
  {
  }

  /** The packed little-endian layout of the struct, with a given value in the CRC field. */
  function Layout(p: Packet, crc: bv32): (d: seq<byte>)
    ensures |d| == HEADER + |p.data|
  {
    Concat([p.version, p.ptype], Bytes16(p.datalen), Bytes32(crc), Bytes32(p.totallen), Bytes32(p.offset),
           Bytes32(p.seqno), Bytes64(p.sessionid), p.data)
  }

  /** The datagram that sendPackage hands to sendto. */
  ghost function Seal(p: Packet): seq<byte> {
    Layout(p, Crc(Layout(p, 0)))
  }

  // ---------- the receiving side ----------

  function DataLen(buf: seq<byte>): nat
    requires |buf| >= HEADER
  {
    Value16(buf[2..4]) as int
  }

  function CrcField(buf: seq<byte>): bv32
    requires |buf| >= HEADER
  {
    Value32(buf[4..8])
  }

  /** The buffer after its CRC field has been set to zero. */
  function Cleared(buf: seq<byte>): (c: seq<byte>)
    requires |buf| >= HEADER
    ensures |c| == |buf|
  {
    buf[..4] + [0, 0, 0, 0] + buf[8..]
  }

  /** The check of processReceive on its buffer: the datagram, then whatever bytes the
      buffer held before.  The length checked is the one the packet claims. */
  ghost predicate Accepts(buf: seq<byte>)
    requires |buf| >= HEADER && HEADER + DataLen(buf) <= |buf|
  {
    Crc(Cleared(buf)[..HEADER + DataLen(buf)]) == CrcField(buf)
  }

  function Parse(buf: seq<byte>): Packet
    requires |buf| >= HEADER && HEADER + DataLen(buf) <= |buf|
  {
    Packet(buf[0], buf[1], Value16(buf[2..4]), Value32(buf[8..12]), Value32(buf[12..16]), Value32(buf[16..20]),
           Value64(buf[20..28]), buf[28..28 + DataLen(buf)])
  }

  lemma LayoutFields(p: Packet, crc: bv32, stale: seq<byte>)
    requires WellSized(p)
    ensures var buf := Layout(p, crc) + stale;
      && DataLen(buf) == |p.data|
      && CrcField(buf) == crc
      && Parse(buf) == p
  {
    RoundTrip16(p.datalen);
    RoundTrip32(crc);
    RoundTrip32(p.totallen);
    RoundTrip32(p.offset);
    RoundTrip32(p.seqno);
    RoundTrip64(p.sessionid);
    ConcatSlices([p.version, p.ptype], Bytes16(p.datalen), Bytes32(crc), Bytes32(p.totallen), Bytes32(p.offset),
                 Bytes32(p.seqno), Bytes64(p.sessionid), p.data, stale);
  }

  lemma ClearedLayout(p: Packet, crc: bv32, stale: seq<byte>)
    ensures Cleared(Layout(p, crc) + stale)[..HEADER + |p.data|] == Layout(p, 0)
  {
    assert Bytes32(0) == [0, 0, 0, 0];
    ConcatSlices([p.version, p.ptype], Bytes16(p.datalen), Bytes32(crc), Bytes32(p.totallen), Bytes32(p.offset),
                 Bytes32(p.seqno), Bytes64(p.sessionid), p.data, stale);
  }

  /** Round trip: whatever the buffer held before, a sealed packet passes the check and
      parses to the packet that was sent. */
  lemma SealedIsAccepted(p: Packet, stale: seq<byte>)
    requires WellSized(p)
    ensures var buf := Seal(p) + stale; HEADER + DataLen(buf) <= |buf| && Accepts(buf) && Parse(buf) == p
  {
    LayoutFields(p, Crc(Layout(p, 0)), stale);
    ClearedLayout(p, Crc(Layout(p, 0)), stale);
  }

  /** The datalen and datacrc fields of two datagrams agree. */
  ghost predicate SameGuard(sent: seq<byte>, received: seq<byte>)
    requires |sent| == |received| >= HEADER
  {
    received[2..4] == sent[2..4] && received[4..8] == sent[4..8]
  }

  lemma HeaderIntact(sent: seq<byte>, received: seq<byte>, stale: seq<byte>)
    requires |sent| == |received| >= HEADER && SameGuard(sent, received)
    ensures DataLen(received + stale) == DataLen(sent) && CrcField(received + stale) == CrcField(sent)
    ensures Cleared(received + stale)[..|sent|] == Cleared(received)
  {
    var buf := received + stale;
    assert buf[2..4] == received[2..4];
    assert buf[4..8] == received[4..8];
  }

  lemma ClearedWindow(sent: seq<byte>, received: seq<byte>, k: nat)
    requires |sent| >= HEADER && DifferInWindow(sent, received, k) && SameGuard(sent, received)
    ensures DifferInWindow(Cleared(sent), Cleared(received), k)
    ensures Cleared(sent) == Cleared(received) <==> sent == received
  {
    if Cleared(sent) == Cleared(received) {
      forall i | 0 <= i < |sent|
        ensures received[i] == sent[i]
      {
        if 4 <= i < 8 {
          assert received[i] == received[4..8][i - 4] == sent[4..8][i - 4];
        } else {
          assert Cleared(sent)[i] == Cleared(received)[i];
        }
      }
    }
  }

  lemma AcceptedWindow(sent: seq<byte>, received: seq<byte>, stale: seq<byte>, k: nat)
    requires |sent| >= HEADER && HEADER + DataLen(sent) == |sent| && Accepts(sent)
    requires DifferInWindow(sent, received, k) && SameGuard(sent, received)
    ensures HEADER + DataLen(received + stale) <= |received + stale|
    ensures Accepts(received + stale) <==> received == sent
  {
    HeaderIntact(sent, received, stale);
    ClearedWindow(sent, received, k);
    CrcDetectsBursts(Cleared(sent), Cleared(received), k);
    assert Cleared(sent)[..|sent|] == Cleared(sent);
  }

  /** A datagram corrupted within four consecutive bytes, with datalen and datacrc intact,
      is dropped: the check passes exactly when nothing was changed at all. */
  lemma CorruptedIsDropped(p: Packet, received: seq<byte>, stale: seq<byte>, k: nat)
    requires WellSized(p) && DifferInWindow(Seal(p), received, k) && SameGuard(Seal(p), received)
    ensures HEADER + DataLen(received + stale) <= |received + stale|
    ensures Accepts(received + stale) <==> received == Seal(p)
  {
    SealedIsAccepted(p, []);
    LayoutFields(p, Crc(Layout(p, 0)), []);
    assert Seal(p) + [] == Seal(p);
    AcceptedWindow(Seal(p), received, stale, k);
  }

  lemma PatchCrc(p: Packet, crc: bv32)
    ensures Layout(p, 0)[..4] + Bytes32(crc) + Layout(p, 0)[8..] == Layout(p, crc)
  {
    ConcatSlices([p.version, p.ptype], Bytes16(p.datalen), Bytes32(0), Bytes32(p.totallen), Bytes32(p.offset),
                 Bytes32(p.seqno), Bytes64(p.sessionid), p.data, []);
    assert Layout(p, 0) + [] == Layout(p, 0);
    assert Layout(p, crc) + [] == Layout(p, crc);
  }

  // ---------- the code ----------

  /** The sealing lines of sendPackage. */
  method SealPacket(engine: Crc32Engine, p: Packet) returns (datagram: seq<byte>)
    requires engine.Valid()
    modifies engine.table
    ensures engine.Valid()
    ensures datagram == Seal(p)
  {
    datagram := Layout(p, 0);
    var crc := engine.GetCrc32(datagram);
    datagram := datagram[..4] + Bytes32(crc) + datagram[8..];
    PatchCrc(p, crc);
  }

  /** What the first lines of processReceive make of the buffer: drop it, hand a packet on, or
      compute a CRC past the end of the buffer because the packet claims more data than fit. */
  datatype Verdict = Drop | PastBuffer | Pass(packet: Packet)

  /** The first lines of processReceive: read the CRC, clear its field, compare. */
  method CheckPacket(engine: Crc32Engine, recvRet: int, buf: seq<byte>) returns (v: Verdict)
    requires engine.Valid() && |buf| >= HEADER
    modifies engine.table
    ensures engine.Valid()
    ensures v == PastBuffer <==> recvRet > 0 && |buf| < HEADER + DataLen(buf)
    ensures v.Pass? <==> recvRet > 0 && HEADER + DataLen(buf) <= |buf| && Accepts(buf)
    ensures v.Pass? ==> v.packet == Parse(buf)
  {
    var crc := CrcField(buf);
    var cleared := Cleared(buf);
    if recvRet <= 0 {
      return Drop;
    }
    if |buf| < HEADER + DataLen(buf) {
      return PastBuffer;
    }
    var actual := engine.GetCrc32(cleared[..HEADER + DataLen(buf)]);
    v := if actual == crc then Pass(Parse(buf)) else Drop;
  }

  // ---------- where the fields are ----------

  predicate Little16(a: byte, b: byte, x: bv16) {
    x == (a as bv16) | ((b as bv16) << 8)
  }

  predicate Little32(a: byte, b: byte, c: byte, d: byte, x: bv32) {
    x == (a as bv32) | ((b as bv32) << 8) | ((c as bv32) << 16) | ((d as bv32) << 24)
  }

  lemma LittleBytes16(x: bv16, d: seq<byte>, at: nat)
    requires at + 2 <= |d| && d[at..at + 2] == Bytes16(x)
    ensures Little16(d[at], d[at + 1], x)
  {
    assert d[at] == Bytes16(x)[0] && d[at + 1] == Bytes16(x)[1];
    Halves16(x);
  }

  lemma Halves16(x: bv16)
    ensures Little16(Bytes16(x)[0], Bytes16(x)[1], x)
  {
  }

  lemma LittleBytes32(x: bv32, d: seq<byte>, at: nat)
    requires at + 4 <= |d| && d[at..at + 4] == Bytes32(x)
    ensures Little32(d[at], d[at + 1], d[at + 2], d[at + 3], x)
  {
    hide Little32, Bytes32;
    var b := Bytes32(x);
    assert d[at] == b[0] && d[at + 1] == b[1] && d[at + 2] == b[2] && d[at + 3] == b[3];
    Quarters32(x);
  }

  lemma Quarters32(x: bv32)
    ensures Little32(Bytes32(x)[0], Bytes32(x)[1], Bytes32(x)[2], Bytes32(x)[3], x)
  {
  }

  /** The datagram is the packed struct: version and type, then datalen, datacrc, totallen, offset, seq
      and sessionid at offsets 2, 4, 8, 12, 16 and 20, the low byte first, then the data. */
  lemma FieldOffsets(p: Packet, crc: bv32)
    ensures var d := Layout(p, crc);
            && |d| == 28 + |p.data| && d[0] == p.version && d[1] == p.ptype
            && Little16(d[2], d[3], p.datalen) && Little32(d[4], d[5], d[6], d[7], crc)
            && Little32(d[8], d[9], d[10], d[11], p.totallen) && Little32(d[12], d[13], d[14], d[15], p.offset)
            && Little32(d[16], d[17], d[18], d[19], p.seqno)
            && Little32(d[20], d[21], d[22], d[23], (p.sessionid & 0xFFFF_FFFF) as bv32)
            && Little32(d[24], d[25], d[26], d[27], ((p.sessionid >> 32) & 0xFFFF_FFFF) as bv32)
            && d[28..] == p.data
  {
    hide Bytes16, Bytes32, Bytes64, Little16, Little32, Concat, Layout;
    var d, lo, hi := Layout(p, crc), (p.sessionid & 0xFFFF_FFFF) as bv32, ((p.sessionid >> 32) & 0xFFFF_FFFF) as bv32;
    LayoutSlices(p, crc);
    LongHalves(p.sessionid, lo, hi);
    assert d[20..24] == d[20..28][..4] && d[24..28] == d[20..28][4..];
    LittleBytes16(p.datalen, d, 2);
    LittleBytes32(crc, d, 4);
    LittleBytes32(p.totallen, d, 8);
    LittleBytes32(p.offset, d, 12);
    LittleBytes32(p.seqno, d, 16);
    LittleBytes32(lo, d, 20);
    LittleBytes32(hi, d, 24);
  }

  lemma LongHalves(x: bv64, lo: bv32, hi: bv32)
    requires lo == (x & 0xFFFF_FFFF) as bv32 && hi == ((x >> 32) & 0xFFFF_FFFF) as bv32
    ensures Bytes64(x)[..4] == Bytes32(lo) && Bytes64(x)[4..] == Bytes32(hi)
  {
    hide Bytes32;
  }

  lemma LayoutSlices(p: Packet, crc: bv32)
    ensures var d := Layout(p, crc);
            && d[0] == p.version && d[1] == p.ptype && d[2..4] == Bytes16(p.datalen) && d[4..8] == Bytes32(crc)
            && d[8..12] == Bytes32(p.totallen) && d[12..16] == Bytes32(p.offset) && d[16..20] == Bytes32(p.seqno)
            && d[20..28] == Bytes64(p.sessionid) && d[28..] == p.data
  {
    hide Bytes16, Bytes32, Bytes64, Concat;
    var d := Layout(p, crc);
    ConcatSlices([p.version, p.ptype], Bytes16(p.datalen), Bytes32(crc), Bytes32(p.totallen), Bytes32(p.offset),
                 Bytes32(p.seqno), Bytes64(p.sessionid), p.data, []);
    assert d + [] == d && d[28..28 + |p.data|] == d[28..];
  }

  /** The CRC field holds the CRC of the datagram with that field cleared. */
  lemma SealIs(p: Packet)
    ensures var d := Seal(p);
            && |d| == 28 + |p.data| && Little32(d[4], d[5], d[6], d[7], Crc(d[..4] + [0, 0, 0, 0] + d[8..]))
  {
    hide Layout, Crc, Little32;
    var d := Seal(p);
    FieldOffsets(p, Crc(Layout(p, 0)));
    ClearedLayout(p, Crc(Layout(p, 0)), []);
    assert d + [] == d;
    assert Cleared(d)[..HEADER + |p.data|] == Cleared(d);
  }
}
