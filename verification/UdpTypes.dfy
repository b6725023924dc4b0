/** Entities of the reliable-UDP transport (udp.h:36-193). */
module UdpTypes {
  datatype Option<+T> = None | Some(value: T)

  type byte = bv8
  type uint16 = x: int | 0 <= x < 0x1_0000
  type uint32 = x: int | 0 <= x < 0x1_0000_0000

  const MAXRETRANS: int := 5
  const WINDOW: int := 5
  const MAXPKTSIZE: int := 1000
  const FIRST_SEQ: int := 100000
  const INT_MAX: int := 0x7FFF_FFFF
  const WORD: int := 0x1_0000_0000

  // ---------- addresses ----------

  /** A socket address: the 16-bit port and the 32-bit IP address. */
  datatype Addr = Addr(port: uint16, ip: uint32)

  /** sockaddrToint64: the key of every sender and receiver look-up. */
  function Key(a: Addr): int {
    a.port * 0x1_0000_0000 + a.ip
  }

  /** Distinct peers never share a key. */
  lemma KeyInjective(a: Addr, b: Addr)
    ensures Key(a) == Key(b) <==> a == b
  {
    if a.port < b.port {
      assert a.port * 0x1_0000_0000 + WORD <= b.port * 0x1_0000_0000;
    } else if b.port < a.port {
      assert b.port * 0x1_0000_0000 + WORD <= a.port * 0x1_0000_0000;
    }
  }

  // ---------- packets ----------

  /** UNSET is the type 0 of a freshly allocated packet and stands for every unknown type. */
  datatype PkgType = UNSET | DATA | ACK | SYN | FIN

  /** datalen is the length of data; version and CRC belong to the wire format. */
  datatype Pkg = Pkg(ptype: PkgType, totallen: nat, offset: nat, seqno: nat, sid: int, data: seq<byte>)

  const BLANK: Pkg := Pkg(UNSET, 0, 0, 0, 0, [])

  /** A message: its session id and its bytes. */
  datatype Msg = Msg(sid: int, bytes: seq<byte>)

  // ---------- sender and receiver records ----------

  datatype Timer = Timer(timeout: int, tryCount: nat, toaddr: Addr, pkg: Option<Pkg>)

  const NO_ADDR: Addr := Addr(0, 0)
  const BLANK_TIMER: Timer := Timer(0, 0, NO_ADDR, None)

  datatype Status = SYN_SENT | OPENING | OPEN

  datatype Sender = Sender(toaddr: Addr, status: Status, seqno: nat, syn: Timer, window: seq<Timer>,
      dataQueue: seq<Pkg>)

  /** first counts the bytes written so far into buf. */
  datatype Session = Session(first: nat, buf: seq<byte>)

  datatype Receiver = Receiver(fromaddr: Addr, status: Status, expectedSeq: nat, sessions: map<int, Session>)

  datatype SendPack = SendPack(toaddr: Addr, msg: Msg)

  /** A pointer into a Sender: its SYN event or one slot of its window. */
  datatype TimerRef = SynRef(key: int) | SlotRef(key: int, i: nat)

  // ---------- what an engine does that can be observed ----------

  datatype Event =
    | Submitted(peer: Addr, msg: Msg)                 // send() was called
    | Sent(peer: Addr, pkg: Pkg)                      // sendto
    | NewReceiver(peer: Addr)                         // a Receiver object was created
    | Delivered(peer: Addr, msg: Msg)                 // recvEvent(EVENT_DATA)
    | Opened(peer: Addr)                              // our SYN was acknowledged
    | Acked(peer: Addr, pkg: Pkg, ended: bool)        // an acknowledgement freed its window slot;
                                                      // ended: recvEvent(EVENT_SESSION_FINISH, pkg.sid)
    | TimedOut(peer: Addr, sid: int, seqno: nat)      // recvEvent(EVENT_TIMEOUT)
    | Overrun(peer: Addr)                             // a write past a session buffer

  /** One engine: the fields of class UDP, and the log of what it did.  ticks counts the
      clock readings taken so far. */
  datatype Node = Node(
    timeoutms: int, senders: map<int, Sender>, receivers: map<int, Receiver>, timers: seq<TimerRef>,
    sendQueue: seq<SendPack>, ticks: nat, log: seq<Event>)

  function NewNode(timeoutms: int): Node {
    Node(timeoutms, map[], map[], [], [], 0, [])
  }

  /** Any sequence of clock readings whatever. */
  type Clock = nat -> int
}
