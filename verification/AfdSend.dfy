/**
 The send side of a stream socket (drivers/afd.c:1212-1248, 2130-2209, 3058-3110, 3113-3167): a send is pushed into
 lwIP as far as its buffer allows, and the rest is parked and pushed on later edges.

 `Outbox` is the value of that state together with two histories: every tcp_write that lwIP accepted, and every send
 that ended. lwIP is an arbitrary environment: `lwip(k)` is its verdict on the k-th tcp_write, and its buffer space
 comes back in arbitrary amounts.
 */
module AfdSend {
  import opened NtKernel
  import opened Lists

  datatype LwipErr =
    | ErrOk | ErrMem | ErrBuf | ErrUse | ErrVal | ErrArg | ErrRte | ErrRst | ErrAbrt | ErrConn | ErrOther

  function StatusFromLwip(err: LwipErr): Status {
    match err
    case ErrOk => STATUS_SUCCESS
    case ErrMem => STATUS_INSUFFICIENT_RESOURCES
    case ErrBuf => STATUS_INSUFFICIENT_RESOURCES
    case ErrUse => STATUS_SHARING_VIOLATION
    case ErrVal => STATUS_INVALID_PARAMETER
    case ErrArg => STATUS_INVALID_PARAMETER
    case ErrRte => STATUS_INVALID_ADDRESS_COMPONENT
    case ErrRst => STATUS_CONNECTION_RESET
    case ErrAbrt => STATUS_CONNECTION_REFUSED
    case ErrConn => STATUS_CONNECTION_REFUSED
    case ErrOther => STATUS_UNSUCCESSFUL
  }

  /** One accepted tcp_write, tagged with the send it belongs to. */
  datatype Piece = Piece(id: nat, data: seq<byte>)

  /** lwIP's send side: buffer space, whether its last verdict was "out of memory", and its call count. */
  datatype Outgo = Outgo(room: nat, starved: bool, writes: nat)

  datatype Pushed = Pushed(out: Outgo, pieces: seq<Piece>, done: nat, err: LwipErr)

  function WriteSize(length: nat, done: nat, room: nat): (push: nat)
    requires done <= length
    ensures push <= length - done && push <= room && push <= 0xffff && (push == 0 <==> done == length || room == 0)
  {
    Min(Min(length - done, room), 0xffff)
  }

  /** The (u16_t) cast. */
  function Word(n: nat): (w: nat)
    ensures n <= 0xffff ==> w == n
  {
    n % 0x1_0000
  }

  function Prefixed(piece: Piece, rest: Pushed): Pushed { rest.(pieces := [piece] + rest.pieces) }

  /** The push loop that the inline paths and the continuation share. The length reaches tcp_write through a 16-bit
      cast. */
  function PushRun(lwip: nat -> LwipErr, out: Outgo, id: nat, data: seq<byte>, done: nat): Pushed
    requires done <= |data|
    decreases |data| - done
  {
    if done == |data| || out.room == 0 then Pushed(out, [], done, ErrOk)
    else
      var push := WriteSize(|data|, done, out.room);
      var sent := data[done..done + Word(push)];
      if lwip(out.writes) != ErrOk then
        Pushed(out.(starved := lwip(out.writes) == ErrMem, writes := out.writes + 1), [], done, lwip(out.writes))
      else
        Prefixed(Piece(id, sent),
                 PushRun(lwip, Outgo(out.room - |sent|, false, out.writes + 1), id, data, done + push))
  }

  /** The stream lwIP was given. */
  function Bytes(wire: seq<Piece>): seq<byte> {
    if wire == [] then [] else wire[0].data + Bytes(wire[1..])
  }

  lemma {:induction false} BytesConcat(a: seq<Piece>, b: seq<Piece>)
    ensures Bytes(a + b) == Bytes(a) + Bytes(b)
  {
    if a == [] {
      assert a + b == b;
    } else {
      BytesConcat(a[1..], b);
      assert (a + b)[1..] == a[1..] + b && (a + b)[0] == a[0];
      Assoc(a[0].data, Bytes(a[1..]), Bytes(b));
    }
  }

  predicate AllOf(id: nat, pieces: seq<Piece>) {
    forall piece :: piece in pieces ==> piece.id == id && 0 < |piece.data| <= 0xffff
  }

  ghost predicate PushedExactly(out: Outgo, id: nat, data: seq<byte>, done: nat, p: Pushed)
    requires done <= |data|
  {
    && done <= p.done <= |data|
    && Bytes(p.pieces) == data[done..p.done] && AllOf(id, p.pieces)
    && p.out.room == out.room - (p.done - done)
    && (p.err == ErrOk ==> p.done == |data| || p.out.room == 0)
    && (p.err != ErrOk ==> p.done < |data| && (p.err == ErrMem ==> p.out.starved))
    && (p.pieces == [] <==> p.done == done)
  }

  lemma PushedOneMore(out: Outgo, id: nat, data: seq<byte>, done: nat, push: nat, next: Outgo, rest: Pushed)
    requires 0 < push <= 0xffff && done + push <= |data| && push <= out.room && next.room == out.room - push
    requires PushedExactly(next, id, data, done + push, rest)
    ensures PushedExactly(out, id, data, done, Prefixed(Piece(id, data[done..done + push]), rest))
  {
    var piece := Piece(id, data[done..done + push]);
    assert ([piece] + rest.pieces)[1..] == rest.pieces;
    Adjoin(data, done, done + push, rest.done);
  }

  lemma PushUnfold(lwip: nat -> LwipErr, out: Outgo, id: nat, data: seq<byte>, done: nat)
    returns (push: nat, next: Outgo)
    requires done < |data| && out.room != 0 && lwip(out.writes) == ErrOk
    ensures 0 < push <= 0xffff && done + push <= |data| && push <= out.room && next.room == out.room - push
    ensures PushRun(lwip, out, id, data, done)
         == Prefixed(Piece(id, data[done..done + push]), PushRun(lwip, next, id, data, done + push))
  {
    push := WriteSize(|data|, done, out.room);
    next := Outgo(out.room - push, false, out.writes + 1);
  }

  /** However lwIP cuts it, what goes out is the run from `done` on, in order, in non-empty 16-bit pieces; the push
      stops only at the end of the run, with a full buffer, or on a refusal. */
  lemma {:induction false} PushRunExact(lwip: nat -> LwipErr, out: Outgo, id: nat, data: seq<byte>, done: nat)
    requires done <= |data|
    ensures PushedExactly(out, id, data, done, PushRun(lwip, out, id, data, done))
    decreases |data| - done
  {
    if done == |data| || out.room == 0 || lwip(out.writes) != ErrOk {
    } else {
      var push, next := PushUnfold(lwip, out, id, data, done);
      PushRunExact(lwip, next, id, data, done + push);
      PushedOneMore(out, id, data, done, push, next, PushRun(lwip, next, id, data, done + push));
    }
  }

  // ---------------------------------------------------------------- one socket's sends

  /** A parked send: the run and how much of it lwIP has accepted. */
  datatype Send = Send(id: nat, data: seq<byte>, done: nat)

  /** A send that ended; `accepted` is what lwIP took of it. */
  datatype SendEnd = SendEnd(id: nat, status: Status, information: nat, data: seq<byte>, accepted: nat, blocking: bool)

  datatype Outbox = Outbox(
    out: Option<Outgo>,
    sends: seq<Send>,
    soError: Status,
    dead: bool,
    connected: bool,
    nonBlocking: bool,
    shutdownSend: bool,
    wire: seq<Piece>,
    ended: seq<SendEnd>)

  function End(b: Outbox, end: SendEnd): Outbox { b.(ended := b.ended + [end]) }

  function LostStatus(soError: Status, otherwise: Status): Status { if soError != 0 then soError else otherwise }

  /** AfdSendCommon on a stream. `prepared` is the Io layer's answer if the send has to park. */
  function Issue(lwip: nat -> LwipErr, b: Outbox, id: nat, data: seq<byte>, prepared: Status): Outbox {
    if b.shutdownSend then End(b, SendEnd(id, STATUS_PIPE_DISCONNECTED, 0, data, 0, !b.nonBlocking))
    else if !b.connected || b.out.None? then
      End(b, SendEnd(id, LostStatus(b.soError, STATUS_INVALID_CONNECTION), 0, data, 0, !b.nonBlocking))
    else
      var p := PushRun(lwip, b.out.value, id, data, 0);
      Conclude(b.(out := Some(p.out), wire := b.wire + p.pieces), id, data, p.done, p.err, prepared)
  }

  /** What an inline push comes to: done, an error, a nonblocking partial, or a park. */
  function Conclude(b: Outbox, id: nat, data: seq<byte>, done: nat, err: LwipErr, prepared: Status): Outbox {
    if done == |data| then End(b, SendEnd(id, STATUS_SUCCESS, |data|, data, done, !b.nonBlocking))
    else if err != ErrOk && err != ErrMem then
      End(b, SendEnd(id, StatusFromLwip(err), 0, data, done, !b.nonBlocking))
    else if b.nonBlocking then
      End(b, if done != 0 then SendEnd(id, STATUS_SUCCESS, done, data, done, false)
             else SendEnd(id, STATUS_DEVICE_NOT_READY, 0, data, 0, false))
    else if !NtSuccess(prepared) then End(b, SendEnd(id, prepared, 0, data, done, true))
    else b.(sends := b.sends + [Send(id, data, done)])
  }

  /** AfdContinueSendLocked on the first parked send. */
  function Continue(lwip: nat -> LwipErr, b: Outbox): Outbox
    requires b.sends != [] && b.sends[0].done <= |b.sends[0].data|
  {
    var s, rest := b.sends[0], b.(sends := b.sends[1..]);
    if b.out.None? || b.dead then
      End(rest, SendEnd(s.id, LostStatus(b.soError, STATUS_CONNECTION_RESET), s.done, s.data, s.done, true))
    else
      var p := PushRun(lwip, b.out.value, s.id, s.data, s.done);
      Resettle(b.(out := Some(p.out), wire := b.wire + p.pieces), p.done, p.err)
  }

  /** What the first parked send comes to after a push. */
  function Resettle(b: Outbox, done: nat, err: LwipErr): Outbox
    requires b.sends != []
  {
    var s, rest := b.sends[0], b.(sends := b.sends[1..]);
    if done == |s.data| then End(rest, SendEnd(s.id, STATUS_SUCCESS, |s.data|, s.data, done, true))
    else if err == ErrOk || err == ErrMem then b.(sends := [s.(done := done)] + b.sends[1..])
    else End(rest, SendEnd(s.id, StatusFromLwip(err), done, s.data, done, true))
  }

  datatype Step =
    | Issued(id: nat, data: seq<byte>, prepared: Status)
    | Continued
    | Acked(room: nat)
    | Lost(status: Status)
    | Mode(nonBlocking: bool)
    | Shutdown

  function Next(lwip: nat -> LwipErr, b: Outbox, step: Step): Outbox
    requires step.Continued? ==> b.sends != [] && b.sends[0].done <= |b.sends[0].data|
  {
    match step
    case Issued(id, data, prepared) => Issue(lwip, b, id, data, prepared)
    case Continued => Continue(lwip, b)
    case Acked(room) => if b.out.None? then b else b.(out := Some(b.out.value.(room := room, starved := false)))
    case Lost(status) => b.(out := None, soError := status)
    case Mode(nonBlocking) => b.(nonBlocking := nonBlocking)
    case Shutdown => b.(shutdownSend := true)
  }

  // ---------------------------------------------------------------- the stream is the sends, in order

  /** What lwIP took of the sends that ended. */
  function Accepted(ended: seq<SendEnd>): seq<byte> {
    if ended == [] then []
    else
      var last := ended[|ended| - 1];
      Accepted(ended[..|ended| - 1]) + if last.accepted <= |last.data| then last.data[..last.accepted] else []
  }

  function Partial(sends: seq<Send>): seq<byte> {
    if sends == [] || sends[0].done > |sends[0].data| then [] else sends[0].data[..sends[0].done]
  }

  /** What a finished send tells its caller. */
  predicate Honest(end: SendEnd) {
    && end.accepted <= |end.data|
    && (end.status == STATUS_SUCCESS ==> end.information == end.accepted)
    && (end.status == STATUS_SUCCESS && end.blocking ==> end.accepted == |end.data|)
    && end.information <= end.accepted
  }

  ghost predicate AllHonest(ended: seq<SendEnd>) { forall end :: end in ended ==> Honest(end) }

  /** At most one send is parked, and lwIP's stream is the sends that ended followed by the parked one's progress. */
  ghost predicate Tally(b: Outbox) {
    && |b.sends| <= 1
    && (b.sends != [] ==> b.sends[0].done <= |b.sends[0].data|)
    && Bytes(b.wire) == Accepted(b.ended) + Partial(b.sends)
    && AllHonest(b.ended)
  }

  /** lwIP reports an error, never success, when it drops a connection. */
  predicate Sane(b: Outbox) { b.soError <= 0 }

  lemma AcceptedSnoc(ended: seq<SendEnd>, end: SendEnd)
    requires end.accepted <= |end.data|
    ensures Accepted(ended + [end]) == Accepted(ended) + end.data[..end.accepted]
  {
    assert (ended + [end])[..|ended|] == ended;
  }

  /** The step every path shares: some pieces of one send go out, and the send either ends or stays. */
  lemma EndTally(b: Outbox, c: Outbox, end: SendEnd, pieces: seq<Piece>, before: nat)
    requires Bytes(b.wire) == Accepted(b.ended) + (if before <= |end.data| then end.data[..before] else [])
    requires AllHonest(b.ended)
    requires before <= end.accepted && Honest(end) && Bytes(pieces) == end.data[before..end.accepted]
    requires c.wire == b.wire + pieces && c.ended == b.ended + [end] && c.sends == []
    ensures Tally(c)
  {
    BytesConcat(b.wire, pieces);
    AcceptedSnoc(b.ended, end);
    Adjoin(end.data, 0, before, end.accepted);
    Assoc(Accepted(b.ended), end.data[..before], end.data[before..end.accepted]);
  }

  lemma StayTally(b: Outbox, c: Outbox, s: Send, pieces: seq<Piece>, before: nat)
    requires before <= s.done <= |s.data| && Bytes(b.wire) == Accepted(b.ended) + s.data[..before] && AllHonest(b.ended)
    requires Bytes(pieces) == s.data[before..s.done]
    requires c.wire == b.wire + pieces && c.ended == b.ended && c.sends == [s]
    ensures Tally(c)
  {
    BytesConcat(b.wire, pieces);
    Adjoin(s.data, 0, before, s.done);
    Assoc(Accepted(b.ended), s.data[..before], s.data[before..s.done]);
  }

  lemma RefusedTally(b: Outbox, end: SendEnd)
    requires Tally(b) && b.sends == [] && Honest(end) && end.accepted == 0
    ensures Tally(End(b, end))
  {
    EndTally(b, End(b, end), end, [], 0);
  }

  lemma IssueTally(lwip: nat -> LwipErr, b: Outbox, id: nat, data: seq<byte>, prepared: Status)
    requires Tally(b) && b.sends == [] && Sane(b)
    ensures Tally(Issue(lwip, b, id, data, prepared))
  {
    if b.shutdownSend || !b.connected || b.out.None? {
      var c := Issue(lwip, b, id, data, prepared);
      RefusedTally(b, c.ended[|b.ended|]);
    } else {
      InlineTally(lwip, b, id, data, prepared);
    }
  }

  lemma InlineTally(lwip: nat -> LwipErr, b: Outbox, id: nat, data: seq<byte>, prepared: Status)
    requires Tally(b) && b.sends == [] && !b.shutdownSend && b.connected && b.out.Some?
    ensures Tally(Issue(lwip, b, id, data, prepared))
  {
    var c := Issue(lwip, b, id, data, prepared);
    var p := PushRun(lwip, b.out.value, id, data, 0);
    PushRunExact(lwip, b.out.value, id, data, 0);
    if c.sends == [] {
      var end := c.ended[|b.ended|];
      assert end.accepted == p.done && Honest(end);
      EndTally(b, c, end, p.pieces, 0);
    } else {
      StayTally(b, c, Send(id, data, p.done), p.pieces, 0);
    }
  }

  lemma ResettleTally(b: Outbox, p: Pushed)
    requires Tally(b) && b.sends != [] && b.out.Some? && Sane(b)
    requires PushedExactly(b.out.value, b.sends[0].id, b.sends[0].data, b.sends[0].done, p)
    ensures Tally(Resettle(b.(out := Some(p.out), wire := b.wire + p.pieces), p.done, p.err))
  {
    var s := b.sends[0];
    var c := Resettle(b.(out := Some(p.out), wire := b.wire + p.pieces), p.done, p.err);
    if c.sends == [] {
      EndTally(b, c, c.ended[|b.ended|], p.pieces, s.done);
    } else {
      StayTally(b, c, s.(done := p.done), p.pieces, s.done);
    }
  }

  lemma ContinueTally(lwip: nat -> LwipErr, b: Outbox)
    requires Tally(b) && b.sends != [] && Sane(b)
    ensures Tally(Continue(lwip, b))
  {
    var s := b.sends[0];
    if b.out.None? || b.dead {
      var c := Continue(lwip, b);
      EndTally(b, c, c.ended[|b.ended|], [], s.done);
    } else {
      PushRunExact(lwip, b.out.value, s.id, s.data, s.done);
      ResettleTally(b, PushRun(lwip, b.out.value, s.id, s.data, s.done));
    }
  }

  /** Sends are issued while nothing is parked; a dropped connection leaves an error. */
  predicate SoloStep(b: Outbox, step: Step) {
    match step
    case Issued(_, _, _) => b.sends == []
    case Continued => b.sends != [] && b.sends[0].done <= |b.sends[0].data|
    case Lost(status) => status < 0
    case _ => true
  }

  lemma NextTally(lwip: nat -> LwipErr, b: Outbox, step: Step)
    requires Tally(b) && Sane(b) && SoloStep(b, step)
    ensures Tally(Next(lwip, b, step)) && Sane(Next(lwip, b, step))
  {
    match step {
      case Issued(id, data, prepared) => IssueTally(lwip, b, id, data, prepared);
      case Continued => ContinueTally(lwip, b);
      case _ =>
    }
  }

  /** Runs in which every send is issued while nothing is parked. */
  ghost predicate SoloRun(lwip: nat -> LwipErr, b: Outbox, steps: seq<Step>, c: Outbox)
    decreases |steps|
  {
    if steps == [] then c == b
    else
      SoloStep(b, steps[0]) && SoloRun(lwip, Next(lwip, b, steps[0]), steps[1..], c)
  }

  /** Over every such run, whatever lwIP's buffer and verdicts do: the bytes given to tcp_write are exactly the sends'
      runs in issue order, without gap or repeat, and every success reports its true length. */
  lemma {:induction false} SendSplit(lwip: nat -> LwipErr, b: Outbox, steps: seq<Step>, c: Outbox)
    requires Tally(b) && Sane(b) && SoloRun(lwip, b, steps, c)
    ensures Tally(c)
    decreases |steps|
  {
    if steps != [] {
      NextTally(lwip, b, steps[0]);
      SendSplit(lwip, Next(lwip, b, steps[0]), steps[1..], c);
    }
  }

  // ---------------------------------------------------------------- what an inline send can overtake

  /** Ids are given in issue order; the stream is in issue order when they never go down. */
  ghost predicate InOrder(wire: seq<Piece>) { forall i, j :: 0 <= i < j < |wire| ==> wire[i].id <= wire[j].id }

  ghost predicate UpTo(wire: seq<Piece>, id: nat) { forall piece :: piece in wire ==> piece.id <= id }

  /** The stream is in issue order so far, and no later send has overtaken a parked one. */
  ghost predicate Ordered(b: Outbox) { InOrder(b.wire) && forall s :: s in b.sends ==> UpTo(b.wire, s.id) }

  /** Nothing of an inline send reaches lwIP. */
  predicate Held(lwip: nat -> LwipErr, b: Outbox, data: seq<byte>) {
    || b.shutdownSend || !b.connected || b.out.None?
    || data == [] || b.out.value.room == 0 || lwip(b.out.value.writes) != ErrOk
  }

  lemma AppendOrder(wire: seq<Piece>, pieces: seq<Piece>, id: nat)
    requires InOrder(wire) && UpTo(wire, id) && AllOf(id, pieces)
    ensures InOrder(wire + pieces) && UpTo(wire + pieces, id)
  {
    var all := wire + pieces;
    assert forall k :: |wire| <= k < |all| ==> all[k] in pieces;
  }

  lemma HeldExactly(lwip: nat -> LwipErr, b: Outbox, id: nat, data: seq<byte>, prepared: Status)
    ensures Issue(lwip, b, id, data, prepared).wire == b.wire <==> Held(lwip, b, data)
  {
    if !b.shutdownSend && b.connected && b.out.Some? {
      var p := PushRun(lwip, b.out.value, id, data, 0);
      PushRunExact(lwip, b.out.value, id, data, 0);
      assert b.wire + p.pieces == b.wire <==> p.pieces == [] by {
        assert |b.wire + p.pieces| == |b.wire| + |p.pieces|;
      }
      if data != [] && b.out.value.room != 0 && lwip(b.out.value.writes) == ErrOk {
        var push, next := PushUnfold(lwip, b.out.value, id, data, 0);
      }
    }
  }

  /** An inline send does not look at the parked ones: it keeps the stream in issue order exactly when nothing is
      parked or nothing of it goes out. */
  lemma InlineOvertakesExactly(lwip: nat -> LwipErr, b: Outbox, id: nat, data: seq<byte>, prepared: Status)
    requires Ordered(b) && UpTo(b.wire, id) && forall s :: s in b.sends ==> s.id < id
    ensures Ordered(Issue(lwip, b, id, data, prepared)) <==> b.sends == [] || Held(lwip, b, data)
  {
    var c := Issue(lwip, b, id, data, prepared);
    HeldExactly(lwip, b, id, data, prepared);
    if Held(lwip, b, data) {
      IssueSends(lwip, b, id, data, prepared);
    } else {
      var pieces := PushRun(lwip, b.out.value, id, data, 0).pieces;
      PushRunExact(lwip, b.out.value, id, data, 0);
      AppendOrder(b.wire, pieces, id);
      assert c.wire == b.wire + pieces && pieces[0] in pieces && pieces[0] in c.wire;
      IssueSends(lwip, b, id, data, prepared);
      if b.sends != [] {
        assert b.sends[0] in c.sends && !UpTo(c.wire, b.sends[0].id);
      }
    }
  }

  lemma IssueSends(lwip: nat -> LwipErr, b: Outbox, id: nat, data: seq<byte>, prepared: Status)
    ensures var c := Issue(lwip, b, id, data, prepared);
            c.sends == b.sends
              || (|c.sends| == |b.sends| + 1 && c.sends[..|b.sends|] == b.sends && c.sends[|b.sends|].id == id)
    ensures forall s :: s in b.sends ==> s in Issue(lwip, b, id, data, prepared).sends
    ensures forall s :: s in Issue(lwip, b, id, data, prepared).sends ==> s in b.sends || s.id == id
  {
  }

  /** Continuing the oldest parked send keeps the order. */
  lemma ContinueKeepsOrder(lwip: nat -> LwipErr, b: Outbox)
    requires Ordered(b) && b.sends != [] && b.sends[0].done <= |b.sends[0].data|
    requires forall s :: s in b.sends ==> b.sends[0].id <= s.id
    ensures Ordered(Continue(lwip, b))
  {
    var c, s := Continue(lwip, b), b.sends[0];
    if b.out.Some? && !b.dead {
      PushRunExact(lwip, b.out.value, s.id, s.data, s.done);
      AppendOrder(b.wire, PushRun(lwip, b.out.value, s.id, s.data, s.done).pieces, s.id);
    }
    forall t | t in c.sends ensures UpTo(c.wire, t.id) {
      assert t.id == s.id || t in b.sends;
    }
  }

  // ---------------------------------------------------------------- the driver's loops

  /** lwIP's send side of one connection. */
  class TcpSender {
    const verdict: nat -> LwipErr
    var out: Outgo
    var wire: seq<Piece>

    constructor (verdict: nat -> LwipErr, room: nat)
      ensures this.verdict == verdict && out == Outgo(room, false, 0) && wire == []
    {
      this.verdict := verdict;
      out, wire := Outgo(room, false, 0), [];
    }

    method Write(id: nat, data: seq<byte>) returns (err: LwipErr)
      requires |data| <= out.room
      modifies this
      ensures err == verdict(old(out.writes))
      ensures err == ErrOk ==>
                out == Outgo(old(out.room) - |data|, false, old(out.writes) + 1) &&
                  wire == old(wire) + [Piece(id, data)]
      ensures err != ErrOk ==>
                out == old(out).(starved := err == ErrMem, writes := old(out.writes) + 1) && wire == old(wire)
    {
      err := verdict(out.writes);
      if err == ErrOk {
        wire := wire + [Piece(id, data)];
        out := Outgo(out.room - |data|, false, out.writes + 1);
      } else {
        out := out.(starved := err == ErrMem, writes := out.writes + 1);
      }
    }
  }

  /** The push loop, as the inline sends and the continuation run it. */
  method PushLoop(pcb: TcpSender, id: nat, data: seq<byte>, start: nat) returns (done: nat, err: LwipErr)
    requires start <= |data|
    modifies pcb
    ensures var p := PushRun(pcb.verdict, old(pcb.out), id, data, start);
            done == p.done && err == p.err && pcb.out == p.out && pcb.wire == old(pcb.wire) + p.pieces
  {
    done, err := start, ErrOk;
    ghost var whole, wire := PushRun(pcb.verdict, pcb.out, id, data, start), pcb.wire;
    ghost var gone: seq<Piece> := [];
    while done < |data| && pcb.out.room != 0
      invariant done <= |data| && err == ErrOk && pcb.wire == wire + gone
      invariant Pushing(pcb.verdict, whole, id, data, pcb.out, gone, done)
      decreases |data| - done
    {
      var push := WriteSize(|data|, done, pcb.out.room);
      ghost var piece := PushingNext(pcb.verdict, whole, id, data, pcb.out, gone, done);
      err := pcb.Write(id, data[done..done + Word(push)]);
      if err != ErrOk {
        return;
      }
      gone := gone + [piece];
      done := done + push;
    }
  }

  ghost function Behind(gone: seq<Piece>, rest: Pushed): Pushed { rest.(pieces := gone + rest.pieces) }

  /** The loop has `gone` behind it and the rest of the run ahead. */
  ghost predicate Pushing(lwip: nat -> LwipErr, whole: Pushed, id: nat, data: seq<byte>, out: Outgo, gone: seq<Piece>,
                          done: nat)
    requires done <= |data|
  {
    whole == Behind(gone, PushRun(lwip, out, id, data, done))
  }

  lemma PushingNext(lwip: nat -> LwipErr, whole: Pushed, id: nat, data: seq<byte>, out: Outgo, gone: seq<Piece>,
                    done: nat)
    returns (piece: Piece)
    requires done < |data| && out.room != 0 && Pushing(lwip, whole, id, data, out, gone, done)
    ensures var push := WriteSize(|data|, done, out.room);
            && 0 < push == Word(push) && piece == Piece(id, data[done..done + push])
            && (lwip(out.writes) == ErrOk ==>
                 Pushing(lwip, whole, id, data, Outgo(out.room - push, false, out.writes + 1), gone + [piece],
                         done + push))
            && (lwip(out.writes) != ErrOk ==>
                 whole == Pushed(out.(starved := lwip(out.writes) == ErrMem, writes := out.writes + 1), gone, done,
                                 lwip(out.writes)))
  {
    var push := WriteSize(|data|, done, out.room);
    piece := Piece(id, data[done..done + push]);
    var next := Outgo(out.room - push, false, out.writes + 1);
    if lwip(out.writes) == ErrOk {
      BehindMore(gone, piece, PushRun(lwip, next, id, data, done + push));
    }
  }

  lemma BehindMore(gone: seq<Piece>, piece: Piece, rest: Pushed)
    ensures Behind(gone, Prefixed(piece, rest)) == Behind(gone + [piece], rest)
  {
    assert gone + ([piece] + rest.pieces) == (gone + [piece]) + rest.pieces;
  }

  /** What a blocked synchronous writer may find when an edge wakes it. */
  datatype Wake = Wake(room: nat, shutdown: bool, lost: Option<Status>)

  /** The send half of an AFD_SOCKET. */
  class StreamSender {
    var pcb: TcpSender?
    var earlier: seq<Piece>
    var sends: seq<Send>
    var soError: Status
    var dead: bool
    var connected: bool
    var nonBlocking: bool
    var shutdownSend: bool
    var ended: seq<SendEnd>

    ghost function View(): Outbox
      reads this, pcb
    {
      Outbox(if pcb == null then None else Some(pcb.out), sends, soError, dead, connected, nonBlocking, shutdownSend,
             earlier + (if pcb == null then [] else pcb.wire), ended)
    }

    constructor (pcb: TcpSender)
      ensures this.pcb == pcb && View() == Outbox(Some(pcb.out), [], 0, false, true, false, false, pcb.wire, [])
    {
      this.pcb := pcb;
      earlier, sends, soError, ended := [], [], 0, [];
      dead, connected, nonBlocking, shutdownSend := false, true, false, false;
    }

    method Finish(end: SendEnd)
      modifies this`ended
      ensures View() == End(old(View()), end)
    {
      ended := ended + [end];
    }

    /** AfdSendCommon; AfdVfsWrite's asynchronous leg is the same without the nonblocking arm. */
    method SendCommon(id: nat, data: seq<byte>, prepared: Status)
      modifies this`sends, this`ended, pcb
      ensures pcb != null ==> View() == Issue(pcb.verdict, old(View()), id, data, prepared)
      ensures pcb == null ==> forall lwip :: View() == Issue(lwip, old(View()), id, data, prepared)
    {
      if shutdownSend {
        Finish(SendEnd(id, STATUS_PIPE_DISCONNECTED, 0, data, 0, !nonBlocking));
        return;
      }
      if !connected || pcb == null {
        Finish(SendEnd(id, LostStatus(soError, STATUS_INVALID_CONNECTION), 0, data, 0, !nonBlocking));
        return;
      }
      var done, err := PushLoop(pcb, id, data, 0);
      assert View().wire == old(View()).wire + PushRun(pcb.verdict, old(pcb.out), id, data, 0).pieces;
      Concluded(id, data, done, err, prepared);
    }

    method Concluded(id: nat, data: seq<byte>, done: nat, err: LwipErr, prepared: Status)
      modifies this`sends, this`ended
      ensures View() == Conclude(old(View()), id, data, done, err, prepared)
    {
      if done == |data| {
        Finish(SendEnd(id, STATUS_SUCCESS, |data|, data, done, !nonBlocking));
      } else if err != ErrOk && err != ErrMem {
        Finish(SendEnd(id, StatusFromLwip(err), 0, data, done, !nonBlocking));
      } else if nonBlocking {
        if done != 0 {
          Finish(SendEnd(id, STATUS_SUCCESS, done, data, done, false));
        } else {
          Finish(SendEnd(id, STATUS_DEVICE_NOT_READY, 0, data, 0, false));
        }
      } else if !NtSuccess(prepared) {
        Finish(SendEnd(id, prepared, 0, data, done, true));
      } else {
        sends := sends + [Send(id, data, done)];
      }
    }

    /** AfdContinueSendLocked. */
    method ContinueSend()
      requires sends != [] && sends[0].done <= |sends[0].data|
      modifies this`sends, this`ended, pcb
      ensures pcb != null ==> View() == Continue(pcb.verdict, old(View()))
      ensures pcb == null ==> forall lwip :: View() == Continue(lwip, old(View()))
    {
      var s := sends[0];
      if pcb == null || dead {
        sends := sends[1..];
        Finish(SendEnd(s.id, LostStatus(soError, STATUS_CONNECTION_RESET), s.done, s.data, s.done, true));
        return;
      }
      var done, err := PushLoop(pcb, s.id, s.data, s.done);
      assert View().wire == old(View()).wire + PushRun(pcb.verdict, old(pcb.out), s.id, s.data, s.done).pieces;
      Resettled(done, err);
    }

    method Resettled(done: nat, err: LwipErr)
      requires sends != []
      modifies this`sends, this`ended
      ensures View() == Resettle(old(View()), done, err)
    {
      var s := sends[0];
      if done == |s.data| {
        sends := sends[1..];
        Finish(SendEnd(s.id, STATUS_SUCCESS, |s.data|, s.data, done, true));
      } else if err == ErrOk || err == ErrMem {
        sends := [s.(done := done)] + sends[1..];
      } else {
        sends := sends[1..];
        Finish(SendEnd(s.id, StatusFromLwip(err), done, s.data, done, true));
      }
    }

    /** AfdTcpErrCallback's send half. */
    method Lose(status: Status)
      modifies this`pcb, this`earlier, this`soError
      ensures View() == old(View()).(out := None, soError := status)
    {
      if pcb != null {
        earlier := earlier + pcb.wire;
      }
      pcb := null;
      soError := status;
    }

    method PushSome(id: nat, data: seq<byte>, done: nat) returns (more: nat, err: LwipErr, ghost pieces: seq<Piece>)
      requires done <= |data| && pcb != null
      modifies pcb
      ensures View().wire == old(View()).wire + pieces
      ensures done <= more <= |data| && Bytes(pieces) == data[done..more] && AllOf(id, pieces)
      ensures err != ErrOk ==> more < |data| && StatusFromLwip(err) != STATUS_SUCCESS
    {
      ghost var p := PushRun(pcb.verdict, pcb.out, id, data, done);
      PushRunExact(pcb.verdict, pcb.out, id, data, done);
      more, err := PushLoop(pcb, id, data, done);
      pieces := p.pieces;
      assert earlier + (old(pcb.wire) + pieces) == (earlier + old(pcb.wire)) + pieces;
    }

    /** AfdVfsWrite on a synchronous handle: block until everything is queued. The stream grows by the caller's run, in
        order, up to where the call stopped; success means all of it. */
    method WriteSync(id: nat, data: seq<byte>, wakes: seq<Wake>)
      returns (status: Status, information: nat, ghost sent: nat)
      requires soError <= 0
      requires forall k :: 0 <= k < |wakes| && wakes[k].lost.Some? ==> wakes[k].lost.value < 0
      modifies this, pcb
      ensures sent <= |data|
      ensures exists pieces :: View().wire == old(View()).wire + pieces && Bytes(pieces) == data[..sent] &&
                AllOf(id, pieces)
      ensures status == STATUS_SUCCESS ==> sent == |data| && information == |data|
      ensures sent == |data| && |data| > 0 ==> status == STATUS_SUCCESS
      ensures sends == old(sends) && ended == old(ended)
    {
      var done, lap := 0, 0;
      ghost var pieces: seq<Piece> := [];
      assert View().wire == old(View()).wire + pieces;
      while true
        invariant lap <= |wakes| && done <= |data| && soError <= 0 && (done == |data| ==> data == [])
        invariant pcb == null || pcb == old(pcb)
        invariant View().wire == old(View()).wire + pieces && Bytes(pieces) == data[..done] && AllOf(id, pieces)
        invariant sends == old(sends) && ended == old(ended)
        decreases |wakes| - lap
      {
        information, sent := 0, done;
        if shutdownSend {
          return STATUS_PIPE_DISCONNECTED, 0, done;
        }
        if !connected || pcb == null {
          return LostStatus(soError, STATUS_INVALID_CONNECTION), 0, done;
        }
        ghost var wire := View().wire;
        var more, err, some := PushSome(id, data, done);
        MorePieces(id, data, pieces, some, done, more);
        assert View().wire == old(View()).wire + (pieces + some);
        pieces, done := pieces + some, more;
        if done == |data| {
          return STATUS_SUCCESS, |data|, done;
        }
        if err != ErrOk && err != ErrMem {
          return StatusFromLwip(err), 0, done;
        }
        if lap == |wakes| {
          return STATUS_CANCELLED, 0, done;
        }
        Woken(wakes[lap]);
        lap := lap + 1;
      }
    }

    method Woken(wake: Wake)
      modifies this`shutdownSend, this`pcb, this`earlier, this`soError, pcb
      ensures View().wire == old(View()).wire
      ensures pcb == null || pcb == old(pcb)
      ensures soError == if wake.lost.Some? then wake.lost.value else old(soError)
    {
      shutdownSend := shutdownSend || wake.shutdown;
      if pcb != null {
        pcb.out := pcb.out.(room := wake.room, starved := false);
      }
      if wake.lost.Some? {
        Lose(wake.lost.value);
      }
    }
  }

  lemma MorePieces(id: nat, data: seq<byte>, a: seq<Piece>, b: seq<Piece>, done: nat, more: nat)
    requires done <= more <= |data| && Bytes(a) == data[..done] && Bytes(b) == data[done..more] && AllOf(id, a)
    requires AllOf(id, b)
    ensures Bytes(a + b) == data[..more] && AllOf(id, a + b)
  {
    BytesConcat(a, b);
    Adjoin(data, 0, done, more);
  }
}
