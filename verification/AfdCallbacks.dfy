/**
 What lwIP's callbacks record before their readiness pass (drivers/afd.c:909-1115), on sockets and on connections nobody
 has claimed yet, and what the connect verb starts (drivers/afd.c:1658-1758).
 */
module AfdCallbacks {
  import opened NtKernel
  import opened AfdTypes
  import opened AfdSend
  import opened AfdSockets
  import AfdStream

  const AFD_DGRAM_CAPACITY := 65536

  function OnData(s: Sock, data: seq<byte>): Sock { s.(intake := AfdStream.Deliver(s.intake, data)) }

  function OnFin(s: Sock): Sock { s.(intake := AfdStream.Fin(s.intake)) }

  /** lwIP frees send buffer space. */
  function OnSent(s: Sock, room: nat): Sock {
    if s.box.out.None? then s
    else s.(box := s.box.(out := Some(s.box.out.value.(room := room, starved := false))))
  }

  function DialEnds(dial: Dial, status: Status): Dial {
    var settled := dial.(connecting := false);
    if dial.request.Some? then EndDial(settled, status) else settled
  }

  /** A failed connect answers "refused" whatever happened; any other failure latches the reset. */
  function OnError(s: Sock, err: LwipErr): Sock {
    var status := if s.dial.connecting then STATUS_CONNECTION_REFUSED else StatusFromLwip(err);
    s.(intake := AfdStream.Reset(s.intake), box := s.box.(out := None, soError := status),
       latches := if s.dial.connecting then s.latches.(connectErr := status) else s.latches.(resetLatch := true),
       dial := DialEnds(s.dial, status))
  }

  function OnConnected(s: Sock): Sock {
    s.(box := s.box.(connected := true), dial := DialEnds(s.dial, STATUS_SUCCESS))
  }

  function OnInbound(s: Sock, shell: Shell): Sock { s.(acceptQueue := s.acceptQueue + [shell]) }

  function QueuedBytes(datagrams: seq<seq<byte>>): nat {
    if datagrams == [] then 0 else QueuedBytes(datagrams[..|datagrams| - 1]) + |datagrams[|datagrams| - 1]|
  }

  /** A datagram past the bound is dropped. */
  function OnDatagram(s: Sock, data: seq<byte>): Sock {
    if QueuedBytes(s.datagrams) + |data| > AFD_DGRAM_CAPACITY then s else s.(datagrams := s.datagrams + [data])
  }

  /** The bound holds over every arrival and every receive. */
  lemma DatagramBound(s: Sock, data: seq<byte>)
    requires QueuedBytes(s.datagrams) <= AFD_DGRAM_CAPACITY
    ensures QueuedBytes(OnDatagram(s, data).datagrams) <= AFD_DGRAM_CAPACITY
    ensures s.recvs != [] && Satisfiable(s) ==> QueuedBytes(RecvLeg(s).datagrams) <= AFD_DGRAM_CAPACITY
  {
    assert (s.datagrams + [data])[..|s.datagrams|] == s.datagrams;
    if s.datagrams != [] {
      BytesBehind(s.datagrams);
    }
  }

  lemma {:induction false} BytesBehind(datagrams: seq<seq<byte>>)
    requires datagrams != []
    ensures QueuedBytes(datagrams) == |datagrams[0]| + QueuedBytes(datagrams[1..])
  {
    if |datagrams| > 1 {
      var front := datagrams[..|datagrams| - 1];
      BytesBehind(front);
      assert front[1..] == datagrams[1..][..|datagrams| - 2];
    }
  }

  // ---------------------------------------------------------------- an unclaimed connection

  function ShellData(shell: Shell, data: seq<byte>): Shell { shell.(intake := AfdStream.Deliver(shell.intake, data)) }

  function ShellFin(shell: Shell): Shell { shell.(intake := AfdStream.Fin(shell.intake)) }

  function ShellSent(shell: Shell, room: nat): Shell {
    if shell.out.None? then shell else shell.(out := Some(shell.out.value.(room := room, starved := false)))
  }

  /** A shell is never connecting, so an error latches the reset. */
  function ShellError(shell: Shell, err: LwipErr): Shell {
    shell.(intake := AfdStream.Reset(shell.intake), out := None, soError := StatusFromLwip(err), resetLatch := true)
  }

  datatype ShellEvent =
    | ShellGot(chain: seq<seq<byte>>)
    | ShellClosed
    | ShellAcked(room: nat)
    | ShellFailed(err: LwipErr)

  function OnShell(shell: Shell, event: ShellEvent): Shell {
    match event
    case ShellGot(chain) => ShellData(shell, AfdStream.Flatten(chain))
    case ShellClosed => ShellFin(shell)
    case ShellAcked(room) => ShellSent(shell, room)
    case ShellFailed(err) => ShellError(shell, err)
  }

  /** Minting claims a shell whole: whatever a callback did to it before the claim, the socket is as if the callback had
      come after it. */
  lemma MintAfterCallback(shell: Shell, file: nat, data: seq<byte>, room: nat, err: LwipErr)
    ensures Minted(ShellData(shell, data), file) == OnData(Minted(shell, file), data)
    ensures Minted(ShellFin(shell), file) == OnFin(Minted(shell, file))
    ensures Minted(ShellSent(shell, room), file) == OnSent(Minted(shell, file), room)
    ensures Minted(ShellError(shell, err), file) == OnError(Minted(shell, file), err)
  {
  }

  /** For data, a FIN and freed space a graft is as if the callback had come after it, edges aside. */
  lemma GraftAfterCallback(target: Sock, shell: Shell, data: seq<byte>, room: nat)
    ensures GraftOnto(target, ShellData(shell, data)).intake.(edges := [])
         == OnData(GraftOnto(target, shell), data).intake.(edges := [])
    ensures GraftOnto(target, ShellFin(shell)).intake.(edges := [])
              == OnFin(GraftOnto(target, shell)).intake.(edges := [])
    ensures GraftOnto(target, ShellSent(shell, room)) == OnSent(GraftOnto(target, shell), room)
  {
  }

  /** A graft leaves the shell's error and reset behind: it is as if the error had come after it exactly when the
      acceptor had that error and a reset latched already, owed nothing and had no connect under way. */
  lemma GraftLosesErrorExactly(target: Sock, shell: Shell, err: LwipErr)
    ensures GraftOnto(target, ShellError(shell, err)).box.soError == target.box.soError
    ensures GraftOnto(target, ShellError(shell, err)).latches == target.latches
    ensures GraftOnto(target, ShellError(shell, err)) == OnError(GraftOnto(target, shell), err) <==>
              && target.latches.resetLatch && target.box.soError == StatusFromLwip(err) && target.intake.owed == 0
              && !target.dial.connecting && target.dial.request.None?
  {
    var before, after := GraftOnto(target, ShellError(shell, err)), OnError(GraftOnto(target, shell), err);
    assert before == after <==>
             && before.intake == after.intake && before.box == after.box && before.latches == after.latches
             && before.dial == after.dial;
  }

  // ---------------------------------------------------------------- an aborted connection

  /** On a connected stream with nothing buffered, lwIP's abort is an error to a receive answered inline and zero bytes
      with success to one that was parked first. */
  lemma AbortSplitsReceives(s: Sock, id: nat, capacity: nat)
    requires !s.datagram && s.box.connected && !s.dial.connecting && s.recvs == [] && s.intake.buffered == []
    ensures var t := OnError(s, ErrAbrt);
            && t.box.connected && Satisfiable(t)
            && RecvInline(t, capacity, false) == Some((t, STATUS_CONNECTION_REFUSED, []))
            && ParkedThenReady(t, Recv(id, capacity, false)) == (t, STATUS_SUCCESS, [])
  {
    var t := OnError(s, ErrAbrt);
    RecvPathsAgreeExactly(t, id, capacity);
    var k := RecvLegShape(WithRecv(t, Recv(id, capacity, false)));
  }

  // ---------------------------------------------------------------- the open and the connect verb

  /** A socket as its open leaves it: a stream gets lwIP's end at once, with a whole window and an empty send buffer. */
  function Opened(file: nat, datagram: bool): Sock {
    Sock(true, file, datagram, false, (0, 0),
         AfdStream.Intake(!datagram, if datagram then 0 else AfdStream.TCP_WND, [], 0, false, []),
         Outbox(if datagram then None else Some(Outgo(TCP_SND_BUF, false, 0)),
                [], 0, false, false, false, false, [], []),
         [], Latches(false, false, 0), [], [], [], Dial(None, false, false, []), [], [])
  }

  /** AfdConnect once its input is checked. `resolved` is the address parser's answer, `prepared` the Io layer's if the
      request has to park, and `err` is lwIP's. */
  function Connect(s: Sock, id: nat, resolved: Status, prepared: Status, err: LwipErr): (Sock, Status) {
    if s.datagram then
      if !NtSuccess(resolved) then (s, resolved)
      else if err != ErrOk then (s, StatusFromLwip(err))
      else (s.(box := s.box.(connected := true), dial := s.dial.(viaConnect := true)), STATUS_SUCCESS)
    else if s.dial.connecting || (s.box.connected && s.dial.viaConnect) then (s, STATUS_CONNECTION_ACTIVE)
    else if s.box.connected then (s, STATUS_SUCCESS)
    else if !NtSuccess(resolved) then (s, resolved)
    else if s.box.nonBlocking then
      var t := s.(dial := s.dial.(connecting := err == ErrOk, viaConnect := true), box := s.box.(soError := 0));
      (t, if err != ErrOk then StatusFromLwip(err) else STATUS_DEVICE_NOT_READY)
    else if !NtSuccess(prepared) then (s, prepared)
    else
      var parked := s.dial.(request := Some(id), connecting := err == ErrOk, viaConnect := true);
      (s.(dial := if err != ErrOk then EndDial(parked, StatusFromLwip(err)) else parked, box := s.box.(soError := 0)),
       STATUS_PENDING)
  }

  /** Every connect request that was parked, the finished ones first. */
  function DialHistory(s: Sock): seq<nat> {
    EndedIds(s.dial.ended) + if s.dial.request.Some? then [s.dial.request.value] else []
  }

  /** The parking assertion cannot fire: a connect is parked only when none is. */
  lemma ConnectParksAlone(s: Sock, id: nat, resolved: Status, prepared: Status, err: LwipErr, count: nat)
    requires Fit(s, count)
    ensures var (t, status) := Connect(s, id, resolved, prepared, err);
            && Fit(t, count) && (Dry(s) ==> Dry(t))
            && (status == STATUS_PENDING ==> s.dial.request.None? && DialHistory(t) == DialHistory(s) + [id])
            && (status != STATUS_PENDING ==> DialHistory(t) == DialHistory(s))
  {
    var (t, status) := Connect(s, id, resolved, prepared, err);
    if t.dial.ended != s.dial.ended {
      EndedIdsSnoc(s.dial.ended, Completion(id, StatusFromLwip(err), 0, []));
    }
  }

  /** Error and success callbacks end the parked connect request once, with the outcome; a failed connect is "refused"
      and latches no reset, any other failure latches one. */
  lemma ConnectEndsOnce(s: Sock, err: LwipErr)
    ensures DialHistory(OnError(s, err)) == DialHistory(s) && OnError(s, err).dial.request.None?
    ensures DialHistory(OnConnected(s)) == DialHistory(s) && OnConnected(s).dial.request.None?
    ensures s.dial.request.Some? ==>
              && OnConnected(s).dial.ended == s.dial.ended + [Completion(s.dial.request.value, STATUS_SUCCESS, 0, [])]
              && OnError(s, err).dial.ended
                 == s.dial.ended + [Completion(s.dial.request.value, OnError(s, err).box.soError, 0, [])]
    ensures s.dial.connecting ==>
              && OnError(s, err).box.soError == OnError(s, err).latches.connectErr == STATUS_CONNECTION_REFUSED
              && OnError(s, err).latches.resetLatch == s.latches.resetLatch
    ensures !s.dial.connecting ==>
              && OnError(s, err).latches.resetLatch && OnError(s, err).latches.connectErr == s.latches.connectErr
              && OnError(s, err).box.soError == StatusFromLwip(err)
    ensures !OnError(s, err).dial.connecting && !OnConnected(s).dial.connecting
  {
    if s.dial.request.Some? {
      EndedIdsSnoc(s.dial.ended, Completion(s.dial.request.value, OnError(s, err).box.soError, 0, []));
      EndedIdsSnoc(s.dial.ended, Completion(s.dial.request.value, STATUS_SUCCESS, 0, []));
    }
  }
}
