/**
 Frames on a byte stream, and where a cut between two chunks may fall.  A frame is a header of
 32 octets (V1) or 52 (V2) and a body.
 */
module Frames {
  import opened Header

  datatype Frame = Frame(header: seq<octet>, body: seq<octet>)

  function Bytes(f: Frame): seq<octet> {
    f.header + f.body
  }

  function Wire(fs: seq<Frame>): seq<octet> {
    if fs == [] then [] else Bytes(fs[0]) + Wire(fs[1..])
  }

  function Flat(cs: seq<seq<octet>>): seq<octet> {
    if cs == [] then [] else Flat(cs[..|cs| - 1]) + cs[|cs| - 1]
  }

  /** Where a position of the stream lies: k frames are complete and rest octets of the next one
      are there, fewer than 33; or the position is further inside a frame. */
  datatype Place = Boundary(k: nat, rest: nat) | Inside

  function Shift(p: Place, n: nat): Place {
    match p
    case Boundary(k, rest) => Boundary(k + n, rest)
    case Inside => Inside
  }

  /** late says of which frames the position right behind octet 32 still counts as between. */
  function PlaceAt(fs: seq<Frame>, late: Frame -> bool, x: nat): (p: Place)
    requires x <= |Wire(fs)|
    ensures p.Boundary? ==> p.k <= |fs| && p.rest <= x && p.rest <= V1
  {
    if x < V1 || fs == [] || (x == V1 && late(fs[0])) then Boundary(0, x)
    else if x < |Bytes(fs[0])| then Inside
    else Shift(PlaceAt(fs[1..], late, x - |Bytes(fs[0])|), 1)
  }

  lemma WireLength(fs: seq<Frame>)
    requires fs != []
    ensures |Wire(fs)| == |Bytes(fs[0])| + |Wire(fs[1..])|
    ensures Wire(fs) == Bytes(fs[0]) + Wire(fs[1..])
  {
  }

  /** Every cut behind a chunk falls between frames. */
  ghost predicate CleanCuts(fs: seq<Frame>, late: Frame -> bool, cs: seq<seq<octet>>) {
    cs == [] ||
    (CleanCuts(fs, late, cs[..|cs| - 1]) && |Flat(cs)| <= |Wire(fs)| && PlaceAt(fs, late, |Flat(cs)|).Boundary?)
  }

  // ---------- what has arrived after x octets ----------

  /** The octets of the frame that is still coming. */
  function CacheAt(fs: seq<Frame>, late: Frame -> bool, x: nat): seq<octet>
    requires x <= |Wire(fs)|
  {
    match PlaceAt(fs, late, x)
    case Boundary(_, rest) => Wire(fs)[x - rest..x]
    case Inside => []
  }

  /** The frames complete after x octets. */
  function CompleteAt(fs: seq<Frame>, late: Frame -> bool, x: nat): seq<Frame>
    requires x <= |Wire(fs)|
  {
    match PlaceAt(fs, late, x)
    case Boundary(k, _) => fs[..k]
    case Inside => []
  }

  /** Frame f can be followed by others: all of it lies behind octet 32, or nothing does. */
  predicate Passable(f: Frame, late: Frame -> bool) {
    |Bytes(f)| >= V1 && (late(f) ==> |Bytes(f)| > V1)
  }

  lemma NextPlace(fs: seq<Frame>, late: Frame -> bool, y: nat)
    requires fs != [] && Passable(fs[0], late) && |Bytes(fs[0])| <= y <= |Wire(fs)|
    ensures |Bytes(fs[0])| + |Wire(fs[1..])| == |Wire(fs)|
    ensures PlaceAt(fs, late, y) == Shift(PlaceAt(fs[1..], late, y - |Bytes(fs[0])|), 1)
  {
    hide Bytes;
    WireLength(fs);
  }

  /** One frame further, the cache is that of the other frames, and that frame is complete. */
  lemma NextCache(fs: seq<Frame>, late: Frame -> bool, y: nat, out: seq<Frame>)
    requires fs != [] && Passable(fs[0], late) && |Bytes(fs[0])| <= y <= |Wire(fs)|
    ensures |Bytes(fs[0])| + |Wire(fs[1..])| == |Wire(fs)|
    ensures CacheAt(fs, late, y) == CacheAt(fs[1..], late, y - |Bytes(fs[0])|)
    ensures PlaceAt(fs, late, y).Boundary? ==>
              out + CompleteAt(fs, late, y) == (out + [fs[0]]) + CompleteAt(fs[1..], late, y - |Bytes(fs[0])|)
  {
    hide Bytes, PlaceAt, Wire;
    NextPlace(fs, late, y);
    WireLength(fs);
    var p := PlaceAt(fs[1..], late, y - |Bytes(fs[0])|);
    if p.Boundary? {
      SliceTail(Bytes(fs[0]), Wire(fs[1..]), y - |Bytes(fs[0])| - p.rest, y - |Bytes(fs[0])|);
      TakeOneMore(fs, p.k, out);
    }
  }

  lemma TakeOneMore(fs: seq<Frame>, k: nat, out: seq<Frame>)
    requires fs != [] && k < |fs|
    ensures out + fs[..k + 1] == (out + [fs[0]]) + fs[1..][..k]
  {
  }

  lemma SliceTail(a: seq<octet>, b: seq<octet>, i: nat, j: nat)
    requires i <= j <= |b|
    ensures (a + b)[|a| + i..|a| + j] == b[i..j]
  {
  }

  lemma WireOfNone()
    ensures Wire([]) == []
  {
  }

  /** Before the first frame is complete the cache is all that arrived. */
  lemma FirstCache(fs: seq<Frame>, late: Frame -> bool, x: nat, out: seq<Frame>)
    requires x <= |Wire(fs)| && PlaceAt(fs, late, x) == Boundary(0, x)
    ensures CacheAt(fs, late, x) == Wire(fs)[..x] && out + CompleteAt(fs, late, x) == out
  {
    assert Wire(fs)[0..x] == Wire(fs)[..x] && out + fs[..0] == out;
  }

  lemma AtStart(fs: seq<Frame>, late: Frame -> bool)
    ensures PlaceAt(fs, late, 0) == Boundary(0, 0) && CacheAt(fs, late, 0) == [] && CompleteAt(fs, late, 0) == []
  {
  }

  lemma CutBefore(fs: seq<Frame>, late: Frame -> bool, cs: seq<seq<octet>>)
    requires CleanCuts(fs, late, cs) && Flat(cs) <= Wire(fs)
    ensures PlaceAt(fs, late, |Flat(cs)|).Boundary?
  {
  }
}
