/**
 The sending half of class LocalSocket (localsocket.h:119-165 and 365-378): packs are written in
 order, any part of one at a time.
 */
module LocalSocket {
  import opened Header

  datatype SendPack = SendPack(fd: int, data: seq<octet>, offset: nat)

  /** Octets for or from one descriptor. */
  datatype Piece = Piece(fd: int, data: seq<octet>)

  /** All octets of a history that belong to fd. */
  function BytesFor(log: seq<Piece>, fd: int): seq<octet> {
    if log == [] then []
    else BytesFor(log[..|log| - 1], fd) + if log[|log| - 1].fd == fd then log[|log| - 1].data else []
  }

  lemma BytesSnoc(log: seq<Piece>, p: Piece, fd: int)
    ensures BytesFor(log + [p], fd) == BytesFor(log, fd) + if p.fd == fd then p.data else []
  {
    assert (log + [p])[..|log|] == log;
  }

  /** The octets of a pack not yet written. */
  function Rest(p: SendPack): seq<octet> {
    if p.offset <= |p.data| then p.data[p.offset..] else []
  }

  /** The octets still to be written to fd. */
  function Unsent(q: seq<SendPack>, fd: int): seq<octet> {
    if q == [] then [] else (if q[0].fd == fd then Rest(q[0]) else []) + Unsent(q[1..], fd)
  }

  lemma {:induction false} UnsentSnoc(q: seq<SendPack>, p: SendPack, fd: int)
    ensures Unsent(q + [p], fd) == Unsent(q, fd) + if p.fd == fd then Rest(p) else []
  {
    hide Rest;
    if q == [] {
      assert [p][1..] == [];
    } else {
      UnsentSnoc(q[1..], p, fd);
      assert (q + [p])[1..] == q[1..] + [p];
    }
  }

  lemma UnsentCons(p: SendPack, q: seq<SendPack>, fd: int)
    ensures Unsent([p] + q, fd) == (if p.fd == fd then Rest(p) else []) + Unsent(q, fd)
  {
    assert ([p] + q)[1..] == q;
  }

  /** The packs left are the last ones queued, unfinished, and only the first is partly written. */
  ghost predicate InOrder(q: seq<SendPack>, queued: seq<Piece>, retired: nat) {
    && |queued| == retired + |q|
    && (forall i | 0 <= i < |q| :: q[i].offset < |q[i].data| && (i > 0 ==> q[i].offset == 0))
    && (forall i | 0 <= i < |q| :: queued[retired + i] == Piece(q[i].fd, q[i].data))
  }

  /** Accepted octets followed by the ones still queued are the ones ever queued. */
  ghost predicate Conserved(accepted: seq<Piece>, q: seq<SendPack>, queued: seq<Piece>, failed: set<int>) {
    forall fd | fd !in failed :: BytesFor(accepted, fd) + Unsent(q, fd) == BytesFor(queued, fd)
  }

  lemma QueueMore(accepted: seq<Piece>, q: seq<SendPack>, queued: seq<Piece>, failed: set<int>, fd: int,
      data: seq<octet>)
    requires Conserved(accepted, q, queued, failed)
    ensures Conserved(accepted, q + [SendPack(fd, data, 0)], queued + [Piece(fd, data)], failed)
  {
    hide Unsent, BytesFor;
    var p := SendPack(fd, data, 0);
    assert Rest(p) == data;
    forall g | g !in failed
      ensures BytesFor(accepted, g) + Unsent(q + [p], g) == BytesFor(queued + [Piece(fd, data)], g)
    {
      UnsentSnoc(q, p, g);
      BytesSnoc(queued, Piece(fd, data), g);
    }
  }

  lemma WriteMore(accepted: seq<Piece>, p: SendPack, q: seq<SendPack>, queued: seq<Piece>, failed: set<int>, n: nat)
    requires Conserved(accepted, [p] + q, queued, failed) && p.offset + n <= |p.data|
    ensures Conserved(accepted + [Piece(p.fd, p.data[p.offset..p.offset + n])],
                      [p.(offset := p.offset + n)] + q, queued, failed)
  {
    hide Unsent, BytesFor;
    var piece, p' := Piece(p.fd, p.data[p.offset..p.offset + n]), p.(offset := p.offset + n);
    assert Rest(p) == piece.data + Rest(p');
    forall g | g !in failed ensures BytesFor(accepted + [piece], g) + Unsent([p'] + q, g) == BytesFor(queued, g) {
      BytesSnoc(accepted, piece, g);
      UnsentCons(p, q, g);
      UnsentCons(p', q, g);
      assert BytesFor(accepted, g) + Unsent([p] + q, g) == BytesFor(queued, g);
    }
  }

  lemma DropFinished(accepted: seq<Piece>, p: SendPack, q: seq<SendPack>, queued: seq<Piece>, failed: set<int>)
    requires Conserved(accepted, [p] + q, queued, failed) && (Rest(p) == [] || p.fd in failed)
    ensures Conserved(accepted, q, queued, failed)
  {
    hide Unsent, BytesFor, Rest;
    forall g | g !in failed ensures BytesFor(accepted, g) + Unsent(q, g) == BytesFor(queued, g) {
      UnsentCons(p, q, g);
      assert (if p.fd == g then Rest(p) else []) + Unsent(q, g) == Unsent(q, g);
    }
  }

  class Engine {
    /** The listening socket of a server, the only socket of a client. */
    const ownFd: int
    var sendQueue: seq<SendPack>
    /** Everything ever queued, everything the sockets accepted, the packs retired so far, and the
        descriptors that reported an error. */
    ghost var queued: seq<Piece>
    ghost var accepted: seq<Piece>
    ghost var retired: nat
    ghost var failed: set<int>

    constructor (fd: int)
      ensures Valid() && ownFd == fd && sendQueue == [] && queued == accepted == [] && failed == {}
    {
      ownFd := fd;
      sendQueue, queued, accepted, retired, failed := [], [], [], 0, {};
    }

    /** Without an error on fd, what was accepted for it followed by what is still queued for it is
        what was ever queued for it; packs leave the queue in order and only the first one is partly
        written. */
    ghost predicate Valid()
      reads this
    {
      InOrder(sendQueue, queued, retired) && Conserved(accepted, sendQueue, queued, failed)
    }

    /** sendData, once m_sendQueue has room. */
    method SendData(fd: int, data: Option<seq<octet>>) returns (ret: int)
      requires Valid()
      modifies this
      ensures Valid() && accepted == old(accepted) && failed == old(failed) && retired == old(retired)
      ensures ret == if data == None || data.value == [] then -1 else 0
      ensures ret == -1 ==> sendQueue == old(sendQueue) && queued == old(queued)
      ensures ret == 0 ==>
                && sendQueue == old(sendQueue) + [SendPack(fd, data.value, 0)]
                && queued == old(queued) + [Piece(fd, data.value)]
    {
      if data == None || data.value == [] {
        return -1;
      }
      hide Conserved;
      QueueMore(accepted, sendQueue, queued, failed, fd, data.value);
      sendQueue := sendQueue + [SendPack(fd, data.value, 0)];
      queued := queued + [Piece(fd, data.value)];
      ret := 0;
    }

    /** send accepted wrote octets of the first pack: it is retired exactly when these were its last. */
    method Wrote(wrote: nat)
      requires Valid() && sendQueue != [] && wrote <= |sendQueue[0].data| - sendQueue[0].offset
      modifies this`sendQueue, this`accepted, this`retired
      ensures Valid()
      ensures var p := old(sendQueue)[0];
              && accepted == old(accepted) + [Piece(p.fd, p.data[p.offset..p.offset + wrote])]
              && (p.offset + wrote == |p.data| ==> sendQueue == old(sendQueue)[1..] && retired == old(retired) + 1)
              && (p.offset + wrote < |p.data| ==>
                    sendQueue == [p.(offset := p.offset + wrote)] + old(sendQueue)[1..] && retired == old(retired))
    {
      hide Conserved, Rest;
      var p, rest := sendQueue[0], sendQueue[1..];
      assert sendQueue == [p] + rest;
      var p' := p.(offset := p.offset + wrote);
      WriteMore(accepted, p, rest, queued, failed, wrote);
      accepted := accepted + [Piece(p.fd, p.data[p.offset..p'.offset])];
      if p'.offset == |p.data| {
        Finished(p');
        DropFinished(accepted, p', rest, queued, failed);
        sendQueue, retired := rest, retired + 1;
      } else {
        sendQueue := [p'] + rest;
      }
    }

    /** send failed: a server drops the pack, a client leaves the loop. */
    method SendFailed() returns (stop: bool)
      requires Valid() && sendQueue != []
      modifies this`sendQueue, this`failed, this`retired
      ensures Valid() && failed == old(failed) + {old(sendQueue)[0].fd}
      ensures stop <==> old(sendQueue)[0].fd == ownFd
      ensures sendQueue == (if stop then old(sendQueue) else old(sendQueue)[1..]) && accepted == old(accepted)
    {
      hide Conserved, Rest;
      var p, rest := sendQueue[0], sendQueue[1..];
      assert sendQueue == [p] + rest;
      StillConserved(accepted, sendQueue, queued, failed, p.fd);
      failed := failed + {p.fd};
      stop := p.fd == ownFd;
      if !stop {
        DropFinished(accepted, p, rest, queued, failed);
        sendQueue, retired := rest, retired + 1;
      }
    }

    /** The first part of an iteration of loop(): write to the first pack's descriptor if it can be
        written.  wrote is the result of send; stop says that loop() ends. */
    method WriteSome(canWrite: bool, wrote: int) returns (stop: bool)
      requires Valid()
      requires sendQueue != [] ==> wrote <= |sendQueue[0].data| - sendQueue[0].offset
      modifies this
      ensures Valid() && queued == old(queued)
      ensures stop <==> old(sendQueue) != [] && canWrite && wrote < 0 && old(sendQueue)[0].fd == ownFd
      ensures old(sendQueue) == [] || !canWrite ==> sendQueue == old(sendQueue) && accepted == old(accepted)
      ensures wrote >= 0 ==> failed == old(failed)
      ensures old(sendQueue) != [] && canWrite ==>
                var p := old(sendQueue)[0];
                if wrote < 0 then failed == old(failed) + {p.fd} && accepted == old(accepted)
                else accepted == old(accepted) + [Piece(p.fd, p.data[p.offset..p.offset + wrote])]
    {
      hide Conserved, InOrder;
      stop := false;
      if sendQueue != [] && canWrite {
        if wrote < 0 {
          stop := SendFailed();
        } else {
          Wrote(wrote);
        }
      }
    }

    /** Without an error on fd, what its peer has received is a prefix of the packs queued for it, in
        order; and all of them once nothing is left to write. */
    lemma AcceptedIsPrefix(fd: int)
      requires Valid() && fd !in failed
      ensures BytesFor(accepted, fd) <= BytesFor(queued, fd)
      ensures (forall p | p in sendQueue :: p.fd != fd) ==> BytesFor(accepted, fd) == BytesFor(queued, fd)
    {
      NothingUnsent(sendQueue, fd);
    }
  }

  lemma Finished(p: SendPack)
    requires p.offset == |p.data|
    ensures Rest(p) == []
  {
  }

  lemma StillConserved(accepted: seq<Piece>, q: seq<SendPack>, queued: seq<Piece>, failed: set<int>, fd: int)
    requires Conserved(accepted, q, queued, failed)
    ensures Conserved(accepted, q, queued, failed + {fd})
  {
  }

  lemma {:induction false} NothingUnsent(q: seq<SendPack>, fd: int)
    ensures (forall p | p in q :: p.fd != fd) ==> Unsent(q, fd) == []
  {
    hide Rest;
    if q != [] {
      assert forall p | p in q[1..] :: p in q;
      NothingUnsent(q[1..], fd);
    }
  }
}
