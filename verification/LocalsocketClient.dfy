/** Class LocalsocketClient (client.h:136-263): recvEvent over its header and payload buffers. */
module LocalsocketClient {
  import opened Header
  import C = Client

  /** Results that stand for undefined behaviour: reading past the chunk, making a callback with
      header octets that have not arrived, and spinning for ever. */
  const OVER_READ: int := -999
  const EARLY: int := -998
  const HANG: int := -997

  class Receiver {
    const respHeaderBuf: array<octet>
    var respHeaderOffset: nat
    var respPayload: array?<octet>
    var respPayloadOffset: nat
    var callbacks: seq<C.Callback>

    constructor ()
      ensures Valid() && fresh(respHeaderBuf) && Head() == [] && Payload() == None && callbacks == []
    {
      respHeaderBuf := new octet[V2];
      respHeaderOffset, respPayload, respPayloadOffset, callbacks := 0, null, 0, [];
    }

    ghost function Head(): seq<octet>
      requires respHeaderOffset <= respHeaderBuf.Length
      reads this, respHeaderBuf
    {
      respHeaderBuf[..respHeaderOffset]
    }

    ghost function Payload(): Option<seq<octet>>
      requires respPayload != null ==> respPayloadOffset <= respPayload.Length
      reads this, respPayload
    {
      if respPayload == null then None else Some(respPayload[..respPayloadOffset])
    }

    ghost predicate Valid()
      reads this, respHeaderBuf, respPayload
    {
      && respHeaderBuf.Length == V2 && respHeaderOffset <= V2
      && (respPayload == null ==> respPayloadOffset == 0)
      && (respPayload != null ==>
            && respPayload != respHeaderBuf && V1 <= respHeaderOffset
            && respPayload.Length == C.BodyLen(Head()) && respPayloadOffset <= respPayload.Length)
    }

    /** Between two chunks the buffers hold the parser's state. */
    ghost predicate Holds(header: seq<octet>, payload: Option<seq<octet>>)
      reads this, respHeaderBuf, respPayload
    {
      Valid() && Head() == header && Payload() == payload
    }

    /** The memcpy to respHeaderBuf. */
    method FillHeader(data: seq<octet>)
      requires Valid() && respHeaderOffset + |data| <= V2
      requires respPayload == null || V1 <= respHeaderOffset
      modifies this`respHeaderOffset, respHeaderBuf
      ensures Valid() && Head() == old(Head()) + data && Payload() == old(Payload())
    {
      hide RespOf;
      PutBytes(respHeaderBuf, respHeaderOffset, data);
      respHeaderOffset := respHeaderOffset + |data|;
      assert Head() == old(Head()) + data;
      if V1 <= old(respHeaderOffset) {
        C.SameStart(old(Head()), data);
      }
    }

    method Reset()
      requires respHeaderBuf.Length == V2
      modifies this`respHeaderOffset, this`respPayload, this`respPayloadOffset
      ensures Holds([], None)
    {
      respHeaderOffset, respPayload, respPayloadOffset := 0, null, 0;
    }

    /** Allocate the payload buffer if need be and copy body octets; ok says that they were there. */
    method ReadPayload(data: seq<octet>, start: nat, left: nat) returns (i: nat, ok: bool)
      requires Valid() && V1 <= respHeaderOffset && start <= |data|
      modifies this`respPayload, this`respPayloadOffset, respPayload
      ensures respPayload == old(respPayload) || fresh(respPayload)
      ensures var m := C.Wanted(old(Head()), old(Payload()), left);
              && ok == (m <= |data| - start)
              && (ok ==> i == start + m && Valid() && Head() == old(Head())
                         && C.Received(Payload()) == C.Received(old(Payload())) + data[start..][..m]
                         && (C.BodyLen(Head()) > 0 ==> respPayload != null))
    {
      hide RespOf;
      i, ok := start, true;
      var bodylen := C.BodyLen(respHeaderBuf[..respHeaderOffset]);
      ghost var p := C.Received(Payload());
      if bodylen > 0 {
        if respPayload == null {
          respPayload := new octet[bodylen];
        }
        var shouldRead := C.Min(bodylen - respPayloadOffset, left);
        if |data| - i < shouldRead {
          ok := false;
          return;
        }
        assert data[i..i + shouldRead] == data[start..][..shouldRead];
        PutBytes(respPayload, respPayloadOffset, data[i..i + shouldRead]);
        respPayloadOffset := respPayloadOffset + shouldRead;
        i := i + shouldRead;
        assert respPayload[..respPayloadOffset] == p + data[start..][..shouldRead];
      } else {
        assert p + data[start..][..0] == p;
      }
    }

    /** The payload part of the loop body, for either version: more says that a callback was made,
        otherwise ret is the result, or the loop goes on with nothing left. */
    method FillPayload(data: seq<octet>, start: nat, left: nat) returns (i: nat, more: bool, ret: int)
      requires Valid() && V1 <= respHeaderOffset && start <= |data|
      modifies this, respPayload
      ensures start <= i <= |data| && (respPayload == null || respPayload == old(respPayload) || fresh(respPayload))
      ensures match C.TakeBody(old(Head()), old(Payload()), data[start..], left)
              case Past => !more && ret == OVER_READ && callbacks == old(callbacks)
              case Early => !more && ret == EARLY && callbacks == old(callbacks)
              case Go(cb, rest) => more && Holds([], None) && rest == data[i..] && callbacks == old(callbacks) + [cb]
              case Stop(h, p, r) => !more && ret == r && Holds(h, p) && callbacks == old(callbacks)
              case Hang => false
    {
      hide RespOf, FormatOf, C.CallbackFor, C.Wanted;
      var ok;
      more, ret := false, 0;
      i, ok := ReadPayload(data, start, left);
      if !ok {
        return start, false, OVER_READ;
      }
      assert data[i..] == data[start..][i - start..];
      if respPayloadOffset == C.BodyLen(respHeaderBuf[..respHeaderOffset]) {
        if respHeaderOffset < C.HeaderLen(respHeaderBuf[..respHeaderOffset]) {
          ret := EARLY;
          return;
        }
        var body := if respPayload == null then [] else respPayload[..respPayloadOffset];
        callbacks := callbacks + [C.CallbackFor(respHeaderBuf[..respHeaderOffset], body)];
        Reset();
        more := true;
      }
    }

    /** The loop body once 32 octets of the header are there. */
    method AfterHeader(data: seq<octet>, start: nat, left: nat) returns (i: nat, more: bool, ret: int)
      requires Valid() && V1 == respHeaderOffset && start <= |data|
      modifies this, respHeaderBuf, respPayload
      ensures start <= i <= |data| && (respPayload == null || respPayload == old(respPayload) || fresh(respPayload))
      ensures match C.AfterHeader(old(Head()), old(Payload()), data[start..], left)
              case Past => !more && ret == OVER_READ && callbacks == old(callbacks)
              case Early => !more && ret == EARLY && callbacks == old(callbacks)
              case Go(cb, rest) => more && Holds([], None) && rest == data[i..] && callbacks == old(callbacks) + [cb]
              case Stop(h, p, r) => !more && ret == r && Holds(h, p) && callbacks == old(callbacks)
              case Hang => false
    {
      hide RespOf, FormatOf, C.TakeBody;
      i, more, ret := start, false, 0;
      if RespOf(respHeaderBuf[..V1]).begin != HEADER_BEGIN {
        Reset();
        ret := -1;
        return;
      }
      var believed := left;
      if C.Json(respHeaderBuf[..V1]) {
        believed := |data| - i;
        var shouldRead := C.Min(V2 - respHeaderOffset, believed);
        assert data[i..i + shouldRead] == data[start..][..shouldRead];
        FillHeader(data[i..i + shouldRead]);
        i := i + shouldRead;
        assert data[i..] == data[start..][shouldRead..];
      }
      i, more, ret := FillPayload(data, i, believed);
    }

    /** The whole loop body. */
    method Iterate(data: seq<octet>, start: nat) returns (i: nat, more: bool, ret: int)
      requires Valid() && start < |data|
      modifies this, respHeaderBuf, respPayload
      ensures start <= i <= |data| && (respPayload == null || respPayload == old(respPayload) || fresh(respPayload))
      ensures match C.Iteration(old(Head()), old(Payload()), data[start..])
              case Go(cb, rest) => more && Holds([], None) && rest == data[i..] && callbacks == old(callbacks) + [cb]
              case Stop(h, p, r) => !more && ret == r && Holds(h, p) && callbacks == old(callbacks)
              case Past => !more && ret == OVER_READ && callbacks == old(callbacks)
              case Early => !more && ret == EARLY && callbacks == old(callbacks)
              case Hang => !more && ret == HANG && callbacks == old(callbacks)
    {
      hide RespOf, C.AfterHeader;
      i, more, ret := start, false, 0;
      var left := |data| - i;
      if respHeaderOffset > V1 {
        ret := HANG;
        return;
      }
      var shouldRead := C.Min(V1 - respHeaderOffset, left);
      assert data[i..i + shouldRead] == data[start..][..shouldRead];
      assert respHeaderOffset == V1 ==> Head() + data[start..][..shouldRead] == Head();
      if respHeaderOffset < V1 {
        FillHeader(data[i..i + shouldRead]);
        i := i + shouldRead;
      }
      assert data[i..] == data[start..][shouldRead..];
      if respHeaderOffset == V1 {
        i, more, ret := AfterHeader(data, i, left);
      }
    }

    /** recvEvent(EVENT_DATA).  After a chunk that the parser can take, the buffers hold its state and
        the callbacks made are those of the parser, in order; the callbacks of the frames before the
        one it cannot take have been made in any case. */
    method RecvEvent(data: seq<octet>) returns (ret: int)
      requires Valid()
      modifies this, respHeaderBuf, respPayload
      ensures match C.Feed(old(Head()), old(Payload()), data, old(callbacks))
              case Fed(h, p, out, r) => ret == r && Holds(h, p) && callbacks == out
              case Broken(out) => ret in {OVER_READ, EARLY, HANG} && callbacks == out
    {
      hide C.Iteration, C.BodyLen;
      var i := 0;
      ret := 0;
      assert data[0..] == data;
      while i < |data|
        invariant i <= |data| && Valid() && ret == 0
        invariant respPayload == null || respPayload == old(respPayload) || fresh(respPayload)
        invariant C.Feed(Head(), Payload(), data[i..], callbacks)
                  == C.Feed(old(Head()), old(Payload()), data, old(callbacks))
        decreases |data| - i, respHeaderOffset
      {
        var more;
        i, more, ret := Iterate(data, i);
        if !more {
          return;
        }
        ret := 0;
      }
    }
  }
}
