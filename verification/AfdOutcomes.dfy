/**
 What the socket verbs, the readiness legs and lwIP's callbacks come to, on the fields (drivers/afd.c:325-356, 909-1314,
 1658-1877, 2130-2209, 2967-3003): statuses, bytes, and which connection an accept gets.
 */
module AfdOutcomes {
  import opened NtKernel
  import opened AfdTypes
  import opened AfdSend
  import opened AfdSockets
  import opened AfdCallbacks
  import AfdStream

  // ---------------------------------------------------------------- lwIP's verdicts

  lemma LwipStatuses(err: LwipErr)
    ensures StatusFromLwip(err) == STATUS_SUCCESS <==> err == ErrOk
    ensures StatusFromLwip(err) == STATUS_INSUFFICIENT_RESOURCES <==> err == ErrMem || err == ErrBuf
    ensures StatusFromLwip(err) == STATUS_SHARING_VIOLATION <==> err == ErrUse
    ensures StatusFromLwip(err) == STATUS_INVALID_PARAMETER <==> err == ErrVal || err == ErrArg
    ensures StatusFromLwip(err) == STATUS_INVALID_ADDRESS_COMPONENT <==> err == ErrRte
    ensures StatusFromLwip(err) == STATUS_CONNECTION_RESET <==> err == ErrRst
    ensures StatusFromLwip(err) == STATUS_CONNECTION_REFUSED <==> err == ErrAbrt || err == ErrConn
    ensures StatusFromLwip(err) == STATUS_UNSUCCESSFUL <==> err == ErrOther
  {
  }

  /** A push that stopped on a refusal stopped on lwIP's last verdict, with room left. */
  lemma {:induction false} PushVerdict(lwip: nat -> LwipErr, out: Outgo, id: nat, data: seq<byte>, done: nat)
    requires done <= |data|
    ensures var p := PushRun(lwip, out, id, data, done);
            p.err != ErrOk ==> p.out.room > 0 && p.out.writes > 0 && p.err == lwip(p.out.writes - 1)
    decreases |data| - done
  {
    if done < |data| && out.room != 0 && lwip(out.writes) == ErrOk {
      var push, next := PushUnfold(lwip, out, id, data, done);
      PushVerdict(lwip, next, id, data, done + push);
    }
  }

  // ---------------------------------------------------------------- sends

  /** What a push of a send's bytes from `done` on left: how far it got, with the bytes on the wire and off lwIP's
      room. */
  ghost predicate WentOut(b: Outbox, c: Outbox, data: seq<byte>, done: nat, sent: nat) {
    && b.out.Some? && c.out.Some? && done <= sent <= |data| && c.out.value.room == b.out.value.room - (sent - done)
    && b.wire <= c.wire && Bytes(c.wire[|b.wire|..]) == data[done..sent]
  }

  /** What lwIP said last. */
  function LastVerdict(lwip: nat -> LwipErr, out: Outgo): LwipErr {
    if out.writes == 0 then ErrOk else lwip(out.writes - 1)
  }

  /** lwIP has no room or no memory at the moment. */
  predicate Full(lwip: nat -> LwipErr, c: Outbox)
    requires c.out.Some?
  {
    c.out.value.room == 0 || LastVerdict(lwip, c.out.value) == ErrMem
  }

  lemma PushOutcome(lwip: nat -> LwipErr, b: Outbox, c: Outbox, id: nat, data: seq<byte>, done: nat) returns (sent: nat)
    requires b.out.Some? && done <= |data|
    requires var p := PushRun(lwip, b.out.value, id, data, done); c.out == Some(p.out) && c.wire == b.wire + p.pieces
    ensures sent == PushRun(lwip, b.out.value, id, data, done).done && WentOut(b, c, data, done, sent)
    ensures var err := PushRun(lwip, b.out.value, id, data, done).err;
            sent < |data| ==>
              && (err == ErrOk || err == ErrMem <==> Full(lwip, c))
              && (!Full(lwip, c) ==> err == LastVerdict(lwip, c.out.value))
  {
    PushRunExact(lwip, b.out.value, id, data, done);
    PushVerdict(lwip, b.out.value, id, data, done);
    var p := PushRun(lwip, b.out.value, id, data, done);
    sent := p.done;
    assert c.wire[|b.wire|..] == p.pieces;
  }

  /** Just this send ended, with this status and count. */
  predicate OneEnded(b: Outbox, c: Outbox, id: nat, status: Status, information: nat) {
    && |c.ended| == |b.ended| + 1 && b.ended <= c.ended
    && var e := c.ended[|b.ended|]; e.id == id && e.status == status && e.information == information
  }

  lemma SendRefusals(lwip: nat -> LwipErr, b: Outbox, id: nat, data: seq<byte>, prepared: Status)
    requires b.shutdownSend || !b.connected || b.out.None?
    ensures var c := Issue(lwip, b, id, data, prepared);
            && c == b.(ended := c.ended)
            && OneEnded(b, c, id, if b.shutdownSend then STATUS_PIPE_DISCONNECTED
                                  else if b.soError != 0 then b.soError else STATUS_INVALID_CONNECTION, 0)
  {
  }

  /** A send pushes what it can: all of it ends it with success and its length; a full lwIP leaves a nonblocking one
      with its partial count, or with "would block" at zero, and parks a blocking one behind the others with its
      progress; any other verdict ends it with that verdict's status. */
  lemma SendOutcome(lwip: nat -> LwipErr, b: Outbox, id: nat, data: seq<byte>, prepared: Status) returns (sent: nat)
    requires !b.shutdownSend && b.connected && b.out.Some?
    ensures var c := Issue(lwip, b, id, data, prepared);
            && WentOut(b, c, data, 0, sent) && c == b.(out := c.out, wire := c.wire, ended := c.ended, sends := c.sends)
            && (sent == |data| ==> c.sends == b.sends && OneEnded(b, c, id, STATUS_SUCCESS, |data|))
            && (sent < |data| && !Full(lwip, c) ==>
                 c.sends == b.sends && OneEnded(b, c, id, StatusFromLwip(LastVerdict(lwip, c.out.value)), 0))
            && (sent < |data| && Full(lwip, c) && b.nonBlocking ==>
                 && c.sends == b.sends
                 && OneEnded(b, c, id, if sent > 0 then STATUS_SUCCESS else STATUS_DEVICE_NOT_READY, sent))
            && (sent < |data| && Full(lwip, c) && !b.nonBlocking && !NtSuccess(prepared) ==>
                 c.sends == b.sends && OneEnded(b, c, id, prepared, 0))
            && (sent < |data| && Full(lwip, c) && !b.nonBlocking && NtSuccess(prepared) ==>
                 c.ended == b.ended && c.sends == b.sends + [Send(id, data, sent)])
  {
    sent := PushOutcome(lwip, b, Issue(lwip, b, id, data, prepared), id, data, 0);
  }

  /** A pass over the first parked send: a lost connection ends it with the count it had, a push that gets to its end
      ends it with success, a full lwIP leaves it first in line with its progress, and any other verdict ends it with
      what went out. */
  lemma ContinueOutcome(lwip: nat -> LwipErr, b: Outbox) returns (sent: nat)
    requires b.sends != [] && SendsFit(b)
    ensures var c, s := Continue(lwip, b), b.sends[0];
            && (b.out.None? || b.dead ==>
                 && c == b.(ended := c.ended, sends := b.sends[1..])
                 && OneEnded(b, c, s.id, if b.soError != 0 then b.soError else STATUS_CONNECTION_RESET, s.done))
            && (b.out.Some? && !b.dead ==>
                 && WentOut(b, c, s.data, s.done, sent)
                 && c == b.(out := c.out, wire := c.wire, ended := c.ended, sends := c.sends)
                 && (sent == |s.data| ==>
                      c.sends == b.sends[1..] && OneEnded(b, c, s.id, STATUS_SUCCESS, |s.data|))
                 && (sent < |s.data| && !Full(lwip, c) ==>
                      && c.sends == b.sends[1..]
                      && OneEnded(b, c, s.id, StatusFromLwip(LastVerdict(lwip, c.out.value)), sent))
                 && (sent < |s.data| && Full(lwip, c) ==>
                      c.ended == b.ended && c.sends == [Send(s.id, s.data, sent)] + b.sends[1..]))
  {
    sent := 0;
    var s := b.sends[0];
    if b.out.Some? && !b.dead {
      sent := PushOutcome(lwip, b, Continue(lwip, b), s.id, s.data, s.done);
    }
  }

  // ---------------------------------------------------------------- receives

  /** The inline legs: bytes off the front of the ring unless peeking, one datagram unless peeking, and otherwise the
      end of a closed or lost stream. */
  lemma InlineOutcome(s: Sock, capacity: nat, peek: bool)
    ensures var b, r := s.intake.buffered, RecvInline(s, capacity, peek);
            var n := if |b| < capacity then |b| else capacity;
            && (!s.datagram && b != [] ==>
                 && r.Some? && r.value.1 == STATUS_SUCCESS && r.value.2 == b[..n]
                 && r.value.0 == s.(intake := r.value.0.intake)
                 && r.value.0.intake.buffered == (if peek then b else b[n..])
                 && r.value.0.intake.peerClosed == s.intake.peerClosed)
            && (!s.datagram && b == [] ==>
                 r == if s.box.soError != 0 then Some((s, s.box.soError, []))
                      else if s.intake.peerClosed then Some((s, STATUS_SUCCESS, [])) else None)
            && (s.datagram && (peek || s.datagrams == []) ==> r == None)
            && (s.datagram && !peek && s.datagrams != [] ==>
                 var d := s.datagrams[0];
                 r == Some((s.(datagrams := s.datagrams[1..]),
                            if |d| <= capacity then STATUS_SUCCESS else STATUS_BUFFER_OVERFLOW,
                            if |d| <= capacity then d else d[..capacity])))
  {
    if !s.datagram && s.intake.buffered != [] {
      AfdStream.ReadAndFlush(s.intake, capacity);
    }
    if s.datagram && s.datagrams != [] {
      assert s.datagrams[0][..|s.datagrams[0]|] == s.datagrams[0];
    }
  }

  /** The flat read: bytes, or the end of a closed, dead or lost stream, or a refusal before the connection; a refused
      connection that is still connected waits. */
  lemma FlatReadOutcome(s: Sock, length: nat)
    ensures var b, r := s.intake.buffered, FlatReadInline(s, length);
            var n := if |b| < length then |b| else length;
            && (b != [] ==>
                 && r.Some? && r.value.1 == STATUS_SUCCESS && r.value.2 == b[..n]
                 && r.value.0 == s.(intake := r.value.0.intake) && r.value.0.intake.buffered == b[n..])
            && (b == [] && (s.intake.peerClosed || s.box.dead) ==> r == Some((s, s.box.soError, [])))
            && (b == [] && !s.intake.peerClosed && !s.box.dead ==>
                 r == if s.box.soError != 0 && s.box.soError != STATUS_CONNECTION_REFUSED
                      then Some((s, s.box.soError, []))
                      else if s.box.connected then None else Some((s, STATUS_INVALID_CONNECTION, [])))
  {
    if s.intake.buffered != [] {
      AfdStream.ReadAndFlush(s.intake, length);
    }
  }

  /** The refusals in front of a receive. */
  lemma RefusalOutcome(s: Sock, mayWait: bool)
    ensures var waits := if s.datagram then s.datagrams == []
                         else |s.intake.buffered| == 0 && !s.intake.peerClosed && s.box.soError == 0 && !s.box.dead;
            RecvRefusal(s, mayWait)
            == if !s.datagram && !s.box.connected && !s.intake.peerClosed then Some(STATUS_INVALID_CONNECTION)
               else if waits && !mayWait then Some(STATUS_DEVICE_NOT_READY) else None
  {
  }

  // ---------------------------------------------------------------- what may stay parked

  /** What the requests of a drained socket wait for: a receive for data, a FIN, an error or the close, a send for
      lwIP's buffer or memory, and an accept for a connection. */
  lemma WaitsOutcome(s: Sock)
    ensures Drained(s) <==>
              && (s.recvs == [] || (if s.datagram then s.datagrams == []
                                    else s.intake.buffered == [] && !s.intake.peerClosed
                                         && s.box.soError == 0 && !s.box.dead))
              && (s.box.sends == [] || (s.box.out.Some? && !s.box.dead
                                        && (s.box.out.value.room == 0 || s.box.out.value.starved)))
              && (s.accepts == [] || s.acceptQueue == [])
  {
  }

  // ---------------------------------------------------------------- accepts

  /** The socket carries this connection: its bytes, its lwIP end, its ports. */
  predicate Carries(s: Sock, shell: Shell) {
    && s.intake.live == shell.intake.live && s.intake.window == shell.intake.window
    && s.intake.buffered == shell.intake.buffered && s.intake.peerClosed == shell.intake.peerClosed
    && s.box.out == shell.out && s.box.connected && s.ports == shell.ports
  }

  /** The first accept on the list takes the oldest connection of the queue, and completes: onto the acceptor it
      names, on a new socket with nothing parked, or not at all, with the mint's status. */
  lemma ClaimOutcome(mint: nat -> Status, socks: seq<Sock>, l: nat)
    requires l < |socks| && socks[l].accepts != [] && socks[l].acceptQueue != []
    ensures var accept, shell, after := socks[l].accepts[0], socks[l].acceptQueue[0], AcceptLeg(mint, socks, l, 0);
            var minted := accept.into.None? && NtSuccess(mint(accept.id));
            && |after| == |socks| + (if minted then 1 else 0)
            && after[l].accepts == socks[l].accepts[1..] && after[l].acceptQueue == socks[l].acceptQueue[1..]
            && after[l].acceptEnded
                 == socks[l].acceptEnded
                    + [Completion(accept.id, if accept.into.Some? || minted then STATUS_SUCCESS else mint(accept.id),
                                  0, [])]
            && (minted ==>
                 var t := after[|socks|];
                 && Carries(t, shell) && t.box.soError == shell.soError && t.latches.resetLatch == shell.resetLatch
                 && t.intake == shell.intake && t.listed && t.file == |socks|
                 && !t.datagram && !t.listening && !t.box.dead
                 && t.recvs == [] && t.accepts == [] && t.acceptQueue == [] && t.box.sends == []
                 && t.dial.request == None
                 && t.recvEnded == [] && t.acceptEnded == [] && t.box.ended == [])
            && (accept.into.Some? && accept.into.value < |socks| ==>
                 var before, t := socks[accept.into.value], after[accept.into.value];
                 && Carries(t, shell) && t.intake.owed == before.intake.owed && t.intake.edges == before.intake.edges
                 && t.box.soError == before.box.soError && t.latches == before.latches && t.dial == before.dial
                 && t.recvs == before.recvs && t.box.sends == before.box.sends)
            && forall j :: 0 <= j < |socks| && j != l && accept.into != Some(j) ==> after[j] == socks[j]
  {
    assert socks[l].accepts[..0] + socks[l].accepts[1..] == socks[l].accepts[1..];
  }

  /** Inbound connections join the end of their listener's queue and are claimed from its front, over any run of legs:
      the queue afterwards is what is left after as many claims as accepts have completed. */
  lemma {:induction false} RunClaims(w: World, socks: seq<Sock>, legs: seq<Leg>, j: nat) returns (n: nat)
    requires j < |socks|
    ensures j < |Run(w, socks, legs)| && n <= |socks[j].acceptQueue|
    ensures Run(w, socks, legs)[j].acceptQueue == socks[j].acceptQueue[n..]
    ensures |Run(w, socks, legs)[j].acceptEnded| == |socks[j].acceptEnded| + n
  {
    n := 0;
    if legs != [] {
      var mid, leg := Run(w, socks, legs[..|legs| - 1]), legs[|legs| - 1];
      n := RunClaims(w, socks, legs[..|legs| - 1], j);
      LegClaims(w, mid, leg, j);
      if leg == AcceptStep(j) && Enabled(mid, leg) {
        assert socks[j].acceptQueue[n..][1..] == socks[j].acceptQueue[n + 1..];
        n := n + 1;
      }
    }
  }

  lemma LegClaims(w: World, socks: seq<Sock>, leg: Leg, j: nat)
    requires j < |socks|
    ensures j < |Apply(w, socks, leg)|
    ensures var s, t, claims := socks[j], Apply(w, socks, leg)[j], leg == AcceptStep(j) && Enabled(socks, leg);
            && |t.acceptEnded| == |s.acceptEnded| + (if claims then 1 else 0)
            && t.acceptQueue == (if claims then s.acceptQueue[1..] else s.acceptQueue)
  {
    if Enabled(socks, leg) && leg.RecvStep? {
      var k := RecvLegShape(socks[leg.i]);
    }
  }

  // ---------------------------------------------------------------- callbacks

  /** The data callbacks touch the receive side alone; freed space, the send side alone. */
  lemma DataCallbacks(s: Sock, data: seq<byte>, room: nat)
    ensures var t := OnData(s, data);
            t == s.(intake := t.intake) && t.intake.buffered == s.intake.buffered + data
            && t.intake.owed == s.intake.owed && t.intake.peerClosed == s.intake.peerClosed
    ensures var t := OnFin(s);
            t == s.(intake := t.intake) && t.intake.peerClosed && t.intake.buffered == s.intake.buffered
            && t.intake.window == s.intake.window && t.intake.owed == s.intake.owed
    ensures s.box.out.None? ==> OnSent(s, room) == s
    ensures var t := OnSent(s, room);
            s.box.out.Some? ==>
              && t == s.(box := s.box.(out := t.box.out)) && t.box.out.Some? && t.box.out.value.room == room
              && !t.box.out.value.starved && t.box.out.value.writes == s.box.out.value.writes
  {
  }

  /** An error takes lwIP's end, its window and the debt, and leaves the buffered bytes; a connection is recorded, and
      ends the attempt. */
  lemma ConnectionCallbacks(s: Sock, err: LwipErr)
    ensures var t := OnError(s, err);
            && t.box.out == None && !t.intake.live && t.intake.window == 0 && t.intake.owed == 0
            && t.intake.buffered == s.intake.buffered && t.intake.peerClosed == s.intake.peerClosed
            && t.box.soError == (if s.dial.connecting then STATUS_CONNECTION_REFUSED else StatusFromLwip(err))
            && t.box.sends == s.box.sends && t.recvs == s.recvs && t.box.connected == s.box.connected
            && !t.dial.connecting && t.dial.request == None
    ensures var t := OnConnected(s);
            && t.box == s.box.(connected := true) && t == s.(box := t.box, dial := t.dial)
            && !t.dial.connecting && t.dial.request == None && t.dial.viaConnect == s.dial.viaConnect
  {
  }

  /** An inbound connection waits at the end of the queue; a datagram is queued whole unless the bound forbids. */
  lemma QueueCallbacks(s: Sock, shell: Shell, data: seq<byte>)
    ensures var t := OnInbound(s, shell);
            && |t.acceptQueue| == |s.acceptQueue| + 1 && t == s.(acceptQueue := t.acceptQueue)
            && s.acceptQueue <= t.acceptQueue && t.acceptQueue[|s.acceptQueue|] == shell
    ensures QueuedBytes(s.datagrams) + |data| <= 65536 ==> OnDatagram(s, data) == s.(datagrams := s.datagrams + [data])
    ensures QueuedBytes(s.datagrams) + |data| > 65536 ==> OnDatagram(s, data) == s
  {
  }

  /** What the callbacks do to a connection nobody has claimed. */
  lemma ShellCallbacks(shell: Shell, chain: seq<seq<byte>>, room: nat, err: LwipErr)
    ensures var t := OnShell(shell, ShellGot(chain));
            t == shell.(intake := t.intake) && t.intake.buffered == shell.intake.buffered + AfdStream.Flatten(chain)
    ensures var t := OnShell(shell, ShellClosed);
            t == shell.(intake := t.intake) && t.intake.peerClosed && t.intake.buffered == shell.intake.buffered
    ensures var t := OnShell(shell, ShellAcked(room));
            t == shell.(out := t.out) && (shell.out.None? ==> t.out == None)
            && (shell.out.Some? ==> t.out == Some(Outgo(room, false, shell.out.value.writes)))
    ensures var t := OnShell(shell, ShellFailed(err));
            && t.out == None && !t.intake.live && t.intake.owed == 0 && t.intake.buffered == shell.intake.buffered
            && t.soError == StatusFromLwip(err) && t.resetLatch && t.ports == shell.ports
  {
  }

  // ---------------------------------------------------------------- connect and open

  /** A datagram connect only fixes the peer. */
  lemma DatagramConnects(s: Sock, id: nat, resolved: Status, prepared: Status, err: LwipErr)
    requires s.datagram
    ensures var (t, status) := Connect(s, id, resolved, prepared, err);
            && (!NtSuccess(resolved) ==> t == s && status == resolved)
            && (NtSuccess(resolved) && err != ErrOk ==> t == s && status == StatusFromLwip(err))
            && (NtSuccess(resolved) && err == ErrOk ==>
                 && status == STATUS_SUCCESS
                 && t == s.(box := s.box.(connected := true), dial := s.dial.(viaConnect := true)))
  {
  }

  /** The answers of a stream connect that starts nothing. */
  lemma ConnectRefusals(s: Sock, id: nat, resolved: Status, prepared: Status, err: LwipErr)
    requires !s.datagram
    ensures s.dial.connecting || (s.box.connected && s.dial.viaConnect) ==>
              Connect(s, id, resolved, prepared, err) == (s, STATUS_CONNECTION_ACTIVE)
    ensures !s.dial.connecting && s.box.connected && !s.dial.viaConnect ==>
              Connect(s, id, resolved, prepared, err) == (s, STATUS_SUCCESS)
    ensures !s.dial.connecting && !s.box.connected && !NtSuccess(resolved) ==>
              Connect(s, id, resolved, prepared, err) == (s, resolved)
    ensures !s.dial.connecting && !s.box.connected && NtSuccess(resolved) && !s.box.nonBlocking
            && !NtSuccess(prepared) ==>
              Connect(s, id, resolved, prepared, err) == (s, prepared)
  {
  }

  /** A stream connect that starts: the old error is forgotten, and the attempt is under way exactly if lwIP took it. A
      nonblocking caller is told so at once, a blocking one waits, or is completed with lwIP's verdict. */
  lemma ConnectStarts(s: Sock, id: nat, resolved: Status, prepared: Status, err: LwipErr)
    requires !s.datagram && !s.dial.connecting && !s.box.connected && NtSuccess(resolved)
    requires s.box.nonBlocking || NtSuccess(prepared)
    ensures var (t, status) := Connect(s, id, resolved, prepared, err);
            && t == s.(box := s.box.(soError := 0), dial := t.dial)
            && t.dial.viaConnect && (t.dial.connecting <==> err == ErrOk)
            && (s.box.nonBlocking ==>
                 && t.dial.request == s.dial.request && t.dial.ended == s.dial.ended
                 && status == if err == ErrOk then STATUS_DEVICE_NOT_READY else StatusFromLwip(err))
            && (!s.box.nonBlocking ==>
                 && status == STATUS_PENDING
                 && t.dial.request == (if err == ErrOk then Some(id) else None)
                 && t.dial.ended == s.dial.ended
                                    + if err == ErrOk then [] else [Completion(id, StatusFromLwip(err), 0, [])])
  {
    assert s.dial.ended + [] == s.dial.ended;
  }

  /** A new socket: unconnected, nothing parked, blocking; a stream has a whole window and an empty send buffer. */
  lemma OpenFields(file: nat, datagram: bool)
    ensures var s := Opened(file, datagram);
            && s.listed && s.file == file && s.datagram == datagram && !s.listening
            && !s.box.connected && !s.box.dead && !s.box.nonBlocking && !s.box.shutdownSend && s.box.soError == 0
            && s.recvs == [] && s.accepts == [] && s.box.sends == [] && s.dial.request == None && !s.dial.connecting
            && s.intake.buffered == [] && s.intake.owed == 0 && !s.intake.peerClosed && s.datagrams == []
            && s.acceptQueue == [] && !s.dial.viaConnect && !s.latches.resetLatch && s.latches.connectErr == 0
            && (s.intake.live <==> !datagram) && (!datagram ==> s.intake.window == 11680)
            && s.box.out == if datagram then None else Some(Outgo(11680, false, 0))
  {
  }
}
