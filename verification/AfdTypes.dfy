/** The AFD_SOCKET and what hangs off it (drivers/afd.c:108-307), as values. */
module AfdTypes {
  import opened NtKernel
  import AfdSend
  import AfdStream

  const TCP_SND_BUF := 8 * AfdStream.TCP_MSS

  /** A parked receive: its room is the segments' total, or a flat read's buffer length. */
  datatype Recv = Recv(id: nat, capacity: nat, flat: bool)

  /** A parked accept: it mints a new socket, or grafts the connection onto an existing one. */
  datatype Accept = Accept(id: nat, into: Option<nat>)

  /** An inbound connection nobody has claimed. */
  datatype Shell = Shell(
    intake: AfdStream.Intake, out: Option<AfdSend.Outgo>, soError: Status, resetLatch: bool, ports: (nat, nat))

  /** What the single completer told the Io layer. */
  datatype Completion = Completion(id: nat, status: Status, information: nat, data: seq<byte>)

  /** The latched levels: an urgent byte waits, the peer reset, and the status of a failed connect. */
  datatype Latches = Latches(oobValid: bool, resetLatch: bool, connectErr: Status)

  /** Outgoing connection attempts: the parked request, if any, whether one is under way, whether one ever was, and the
      requests that ended. */
  datatype Dial = Dial(request: Option<nat>, connecting: bool, viaConnect: bool, ended: seq<Completion>)

  /** One socket; sockets are named by their position in the table of all of them, and `listed` ones are on
      AfdSocketList, in that order. */
  datatype Sock = Sock(
    listed: bool,
    file: nat,
    datagram: bool,
    listening: bool,
    ports: (nat, nat),
    intake: AfdStream.Intake,
    box: AfdSend.Outbox,
    datagrams: seq<seq<byte>>,
    latches: Latches,
    acceptQueue: seq<Shell>,
    recvs: seq<Recv>,
    accepts: seq<Accept>,
    dial: Dial,
    recvEnded: seq<Completion>,
    acceptEnded: seq<Completion>)

  /** The readiness bits an IOCTL_AFD_POLL reads. */
  datatype Bit = ReadBit | OobBit | WriteBit | HupBit | ResetBit | CloseBit | ConnectBit | AcceptBit | ConnectErrBit

  /** One socket a poll watches. */
  datatype Entry = Entry(sock: nat, handle: nat, mask: set<Bit>)

  /** A parked IOCTL_AFD_POLL. */
  datatype Poll = Poll(id: nat, file: nat, entries: seq<Entry>, timeout: int, deadline: int, exclusive: bool)

  /** One line of a poll's answer. */
  datatype Slot = Slot(handle: nat, flags: set<Bit>, status: Status)

  /** How a parked poll ended; a torn-down one leaves its caller's buffer alone. */
  datatype PollEnd = PollEnd(id: nat, status: Status, report: Option<seq<Slot>>)

  /** AfdPollList, every socket's `mainPoll`, and the polls that ended. */
  datatype Board = Board(polls: seq<Poll>, mains: map<nat, nat>, ended: seq<PollEnd>)

  /** The single completer on the connect slot. */
  function EndDial(dial: Dial, status: Status): Dial
    requires dial.request.Some?
  {
    dial.(request := None, ended := dial.ended + [Completion(dial.request.value, status, 0, [])])
  }
}
