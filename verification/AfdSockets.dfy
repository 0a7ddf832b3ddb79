/**
 What one readiness edge does to the sockets (drivers/afd.c:537-564, 662-667, 871-905, 1124-1314): the legs that
 complete a parked receive, push a parked send and hand a queued connection to a parked accept, as steps on the table
 of all sockets. The drain that chains them is in AfdDriver.
 */
module AfdSockets {
  import opened NtKernel
  import opened AfdTypes
  import opened AfdSend
  import AfdStream

  // ---------------------------------------------------------------- the receive leg

  /** AfdRecvSatisfiable. */
  predicate Satisfiable(s: Sock) {
    if s.datagram then s.datagrams != []
    else s.intake.buffered != [] || s.intake.peerClosed || s.box.soError != 0 || s.box.dead
  }

  function EndRecv(s: Sock, status: Status, data: seq<byte>): Sock
    requires s.recvs != []
  {
    s.(recvs := s.recvs[1..], recvEnded := s.recvEnded + [Completion(s.recvs[0].id, status, |data|, data)])
  }

  /** AfdCompleteRecvLocked on the first parked receive. */
  function RecvLeg(s: Sock): Sock
    requires s.recvs != [] && Satisfiable(s)
  {
    var r := s.recvs[0];
    if s.datagram then
      var d := s.datagrams[0];
      EndRecv(s.(datagrams := s.datagrams[1..]),
              if |d| > r.capacity then STATUS_BUFFER_OVERFLOW else STATUS_SUCCESS, d[..Min(|d|, r.capacity)])
    else if s.intake.buffered != [] then
      var taken := if r.flat then AfdStream.Take(s.intake, r.capacity) else AfdStream.Consume(s.intake, r.capacity);
      EndRecv(s.(intake := AfdStream.Flush(taken)), STATUS_SUCCESS,
              s.intake.buffered[..Min(|s.intake.buffered|, r.capacity)])
    else if s.box.soError != 0 && s.box.soError != STATUS_CONNECTION_REFUSED then EndRecv(s, s.box.soError, [])
    else EndRecv(s, STATUS_SUCCESS, [])
  }

  // ---------------------------------------------------------------- the send leg

  /** AfdContinueSendLocked on the first parked send. */
  function SendLeg(lwip: nat -> LwipErr, s: Sock): Sock
    requires SendsFit(s.box) && s.box.sends != []
  {
    s.(box := Continue(lwip, s.box))
  }

  ghost predicate SendsFit(b: Outbox) { forall k :: 0 <= k < |b.sends| ==> b.sends[k].done <= |b.sends[k].data| }

  /** The first parked send cannot progress until lwIP frees buffer space or memory. */
  predicate Stuck(b: Outbox) { b.out.Some? && !b.dead && (b.out.value.room == 0 || b.out.value.starved) }

  // ---------------------------------------------------------------- the accept leg

  /** AfdClaimQueuedConnection and the accept's completion. */
  function Claimed(s: Sock, k: nat, status: Status): Sock
    requires k < |s.accepts| && s.acceptQueue != []
  {
    s.(acceptQueue := s.acceptQueue[1..], accepts := s.accepts[..k] + s.accepts[k + 1..],
       acceptEnded := s.acceptEnded + [Completion(s.accepts[k].id, status, 0, [])])
  }

  function GraftOnto(target: Sock, shell: Shell): Sock {
    target.(intake := AfdStream.Graft(target.intake, shell.intake),
            box := target.box.(out := shell.out, connected := true, wire := []), ports := shell.ports)
  }

  function Minted(shell: Shell, file: nat): Sock {
    Sock(true, file, false, false, shell.ports, shell.intake,
         Outbox(shell.out, [], shell.soError, false, true, false, false, [], []), [],
         Latches(false, shell.resetLatch, 0), [], [], [],
         Dial(None, false, false, []), [], [])
  }

  /** AfdCompleteAcceptLocked on the k-th parked accept, up to the acceptor's own readiness pass. */
  function AcceptLeg(mint: nat -> Status, socks: seq<Sock>, l: nat, k: nat): seq<Sock>
    requires l < |socks| && k < |socks[l].accepts| && socks[l].acceptQueue != []
  {
    var accept, shell := socks[l].accepts[k], socks[l].acceptQueue[0];
    if accept.into.Some? then
      var claimed := socks[l := Claimed(socks[l], k, STATUS_SUCCESS)];
      if accept.into.value < |socks| then claimed[accept.into.value := GraftOnto(claimed[accept.into.value], shell)]
      else claimed
    else if NtSuccess(mint(accept.id)) then
      socks[l := Claimed(socks[l], k, STATUS_SUCCESS)] + [Minted(shell, |socks|)]
    else
      socks[l := Claimed(socks[l], k, mint(accept.id))]
  }

  // ---------------------------------------------------------------- runs of legs

  datatype Leg = RecvStep(i: nat) | SendStep(i: nat) | AcceptStep(i: nat)

  ghost predicate Enabled(socks: seq<Sock>, leg: Leg) {
    leg.i < |socks|
    && var s := socks[leg.i];
       match leg
       case RecvStep(_) => s.recvs != [] && Satisfiable(s)
       case SendStep(_) => s.box.sends != [] && SendsFit(s.box)
       case AcceptStep(_) => s.accepts != [] && s.acceptQueue != []
  }

  /** lwIP's verdicts per connection and the object manager's answers per mint. */
  datatype World = World(lwip: nat -> nat -> LwipErr, mint: nat -> Status)

  ghost function Apply(w: World, socks: seq<Sock>, leg: Leg): seq<Sock> {
    if !Enabled(socks, leg) then socks
    else
      match leg
      case RecvStep(i) => socks[i := RecvLeg(socks[i])]
      case SendStep(i) => socks[i := SendLeg(w.lwip(i), socks[i])]
      case AcceptStep(i) => AcceptLeg(w.mint, socks, i, 0)
  }

  ghost function Run(w: World, socks: seq<Sock>, legs: seq<Leg>): seq<Sock> {
    if legs == [] then socks else Apply(w, Run(w, socks, legs[..|legs| - 1]), legs[|legs| - 1])
  }

  lemma RunSnoc(w: World, socks: seq<Sock>, legs: seq<Leg>, leg: Leg)
    ensures Run(w, socks, legs + [leg]) == Apply(w, Run(w, socks, legs), leg)
  {
    assert (legs + [leg])[..|legs|] == legs;
  }

  lemma {:induction false} RunConcat(w: World, socks: seq<Sock>, a: seq<Leg>, b: seq<Leg>)
    ensures Run(w, socks, a + b) == Run(w, Run(w, socks, a), b)
  {
    if b == [] {
      assert a + b == a;
    } else {
      var front := b[..|b| - 1];
      RunConcat(w, socks, a, front);
      assert a + b == (a + front) + [b[|b| - 1]];
      RunSnoc(w, socks, a + front, b[|b| - 1]);
    }
  }

  // ---------------------------------------------------------------- what every leg keeps

  function RecvIds(q: seq<Recv>): seq<nat> { if q == [] then [] else RecvIds(q[..|q| - 1]) + [q[|q| - 1].id] }

  function AcceptIds(q: seq<Accept>): seq<nat> { if q == [] then [] else AcceptIds(q[..|q| - 1]) + [q[|q| - 1].id] }

  function SendIds(q: seq<Send>): seq<nat> { if q == [] then [] else SendIds(q[..|q| - 1]) + [q[|q| - 1].id] }

  function EndedIds(q: seq<Completion>): seq<nat> { if q == [] then [] else EndedIds(q[..|q| - 1]) + [q[|q| - 1].id] }

  function SendEndIds(q: seq<SendEnd>): seq<nat> { if q == [] then [] else SendEndIds(q[..|q| - 1]) + [q[|q| - 1].id] }

  /** Every receive, send and accept of the socket, the finished ones first. */
  function RecvHistory(s: Sock): seq<nat> { EndedIds(s.recvEnded) + RecvIds(s.recvs) }

  function SendHistory(s: Sock): seq<nat> { SendEndIds(s.box.ended) + SendIds(s.box.sends) }

  function AcceptHistory(s: Sock): seq<nat> { EndedIds(s.acceptEnded) + AcceptIds(s.accepts) }

  lemma {:induction false} RecvIdsHead(q: seq<Recv>)
    requires q != []
    ensures RecvIds(q) == [q[0].id] + RecvIds(q[1..])
  {
    if |q| > 1 {
      RecvIdsHead(q[..|q| - 1]);
      assert q[..|q| - 1][1..] == q[1..][..|q| - 2];
    }
  }

  lemma {:induction false} AcceptIdsHead(q: seq<Accept>)
    requires q != []
    ensures AcceptIds(q) == [q[0].id] + AcceptIds(q[1..])
  {
    if |q| > 1 {
      AcceptIdsHead(q[..|q| - 1]);
      assert q[..|q| - 1][1..] == q[1..][..|q| - 2];
    }
  }

  lemma {:induction false} SendIdsHead(q: seq<Send>)
    requires q != []
    ensures SendIds(q) == [q[0].id] + SendIds(q[1..])
  {
    if |q| > 1 {
      SendIdsHead(q[..|q| - 1]);
      assert q[..|q| - 1][1..] == q[1..][..|q| - 2];
    }
  }

  lemma EndedIdsSnoc(q: seq<Completion>, k: Completion)
    ensures EndedIds(q + [k]) == EndedIds(q) + [k.id]
  {
    assert (q + [k])[..|q|] == q;
  }

  lemma SendEndIdsSnoc(q: seq<SendEnd>, end: SendEnd)
    ensures SendEndIds(q + [end]) == SendEndIds(q) + [end.id]
  {
    assert (q + [end])[..|q|] == q;
  }

  /** Finished in issue order, each once, none lost. */
  predicate SameHistory(s: Sock, t: Sock) {
    RecvHistory(t) == RecvHistory(s) && SendHistory(t) == SendHistory(s) && AcceptHistory(t) == AcceptHistory(s)
    && t.dial == s.dial
  }

  /** Whatever the receive leg answers, it answers the first receive, once, and touches nothing but the data. */
  lemma RecvLegShape(s: Sock) returns (k: Completion)
    requires s.recvs != [] && Satisfiable(s)
    ensures var t := RecvLeg(s);
            t == s.(intake := t.intake, datagrams := t.datagrams, recvs := s.recvs[1..], recvEnded := s.recvEnded + [k])
    ensures k.id == s.recvs[0].id && k.information == |k.data|
    ensures s.datagram ==> RecvLeg(s).intake == s.intake
    ensures !s.datagram ==> k.data == s.intake.buffered[..Min(|s.intake.buffered|, s.recvs[0].capacity)]
  {
    var t := RecvLeg(s);
    k := t.recvEnded[|s.recvEnded|];
  }

  lemma RecvLegHistory(s: Sock)
    requires s.recvs != [] && Satisfiable(s)
    ensures SameHistory(s, RecvLeg(s))
  {
    var k := RecvLegShape(s);
    RecvIdsHead(s.recvs);
    EndedIdsSnoc(s.recvEnded, k);
    Shift(EndedIds(s.recvEnded), k.id, RecvIds(s.recvs[1..]));
  }

  lemma Shift(a: seq<nat>, x: nat, b: seq<nat>)
    ensures (a + [x]) + b == a + ([x] + b)
  {
  }

  /** The send leg either finishes the first send or moves it along. */
  lemma SendLegShape(lwip: nat -> LwipErr, b: Outbox) returns (left: Option<Send>, end: SendEnd)
    requires b.sends != [] && SendsFit(b)
    ensures var c := Continue(lwip, b);
            c == b.(out := c.out, wire := c.wire,
                    sends := if left.Some? then [left.value] + b.sends[1..] else b.sends[1..],
                    ended := if left.Some? then b.ended else b.ended + [end])
    ensures left.Some? ==>
              && left.value.id == b.sends[0].id && left.value.data == b.sends[0].data
              && b.sends[0].done <= left.value.done < |b.sends[0].data|
              && (left.value.done == b.sends[0].done ==> Stuck(Continue(lwip, b)))
    ensures left.None? ==> end.id == b.sends[0].id
  {
    var c, s := Continue(lwip, b), b.sends[0];
    left, end := None, SendEnd(0, 0, 0, [], 0, true);
    if b.out.Some? && !b.dead {
      PushRunExact(lwip, b.out.value, s.id, s.data, s.done);
    }
    if |c.sends| == |b.sends| {
      left := Some(c.sends[0]);
    } else {
      end := c.ended[|b.ended|];
    }
  }

  lemma SendLegHistory(lwip: nat -> LwipErr, s: Sock)
    requires s.box.sends != [] && SendsFit(s.box)
    ensures SameHistory(s, SendLeg(lwip, s))
  {
    var b := s.box;
    var left, end := SendLegShape(lwip, b);
    SendIdsHead(b.sends);
    if left.Some? {
      SendIdsHead([left.value] + b.sends[1..]);
      assert ([left.value] + b.sends[1..])[1..] == b.sends[1..];
    } else {
      SendEndIdsSnoc(b.ended, end);
      Shift(SendEndIds(b.ended), end.id, SendIds(b.sends[1..]));
    }
  }

  lemma ClaimedHistory(s: Sock, status: Status)
    requires s.accepts != [] && s.acceptQueue != []
    ensures SameHistory(s, Claimed(s, 0, status))
  {
    var k := Completion(s.accepts[0].id, status, 0, []);
    AcceptIdsHead(s.accepts);
    assert s.accepts[..0] + s.accepts[1..] == s.accepts[1..];
    EndedIdsSnoc(s.acceptEnded, k);
    Shift(EndedIds(s.acceptEnded), k.id, AcceptIds(s.accepts[1..]));
  }

  lemma AcceptLegHistory(mint: nat -> Status, socks: seq<Sock>, i: nat, j: nat)
    requires j < |socks| && i < |socks| && socks[i].accepts != [] && socks[i].acceptQueue != []
    ensures j < |AcceptLeg(mint, socks, i, 0)| && SameHistory(socks[j], AcceptLeg(mint, socks, i, 0)[j])
  {
    var accept, shell := socks[i].accepts[0], socks[i].acceptQueue[0];
    var status := if accept.into.Some? || NtSuccess(mint(accept.id)) then STATUS_SUCCESS else mint(accept.id);
    ClaimedHistory(socks[i], status);
    var claimed := socks[i := Claimed(socks[i], 0, status)];
    assert SameHistory(socks[j], claimed[j]);
    assert SameHistory(claimed[j], GraftOnto(claimed[j], shell));
  }

  lemma LegHistory(w: World, socks: seq<Sock>, leg: Leg, j: nat)
    requires j < |socks|
    ensures j < |Apply(w, socks, leg)| && SameHistory(socks[j], Apply(w, socks, leg)[j])
  {
    if Enabled(socks, leg) {
      match leg {
        case RecvStep(i) => RecvLegHistory(socks[i]);
        case SendStep(i) => SendLegHistory(w.lwip(i), socks[i]);
        case AcceptStep(i) => AcceptLegHistory(w.mint, socks, i, j);
      }
    }
  }

  /** Over any run of legs, grafts between sockets included: on every socket the receives, sends and accepts that
      finished did so in issue order, each exactly once, and the rest are still parked in that order. */
  lemma {:induction false} RunHistory(w: World, socks: seq<Sock>, legs: seq<Leg>, j: nat)
    requires j < |socks|
    ensures j < |Run(w, socks, legs)| && SameHistory(socks[j], Run(w, socks, legs)[j])
  {
    if legs != [] {
      RunHistory(w, socks, legs[..|legs| - 1], j);
      LegHistory(w, Run(w, socks, legs[..|legs| - 1]), legs[|legs| - 1], j);
    }
  }

  /** Legs never park an accept. */
  lemma {:induction false} RunAccepts(w: World, socks: seq<Sock>, legs: seq<Leg>, j: nat)
    requires j < |socks|
    ensures j < |Run(w, socks, legs)| && |Run(w, socks, legs)[j].accepts| <= |socks[j].accepts|
  {
    if legs != [] {
      var before := Run(w, socks, legs[..|legs| - 1]);
      RunAccepts(w, socks, legs[..|legs| - 1], j);
      LegAccepts(w, before, legs[|legs| - 1], j);
    }
  }

  lemma ClaimAccepts(mint: nat -> Status, socks: seq<Sock>, i: nat, j: nat)
    requires j < |socks| && i < |socks| && socks[i].accepts != [] && socks[i].acceptQueue != []
    ensures j < |AcceptLeg(mint, socks, i, 0)|
    ensures |AcceptLeg(mint, socks, i, 0)[j].accepts| == |socks[j].accepts| - if i == j then 1 else 0
  {
  }

  lemma LegAccepts(w: World, socks: seq<Sock>, leg: Leg, j: nat)
    requires j < |socks|
    ensures j < |Apply(w, socks, leg)|
    ensures |Apply(w, socks, leg)[j].accepts|
         == |socks[j].accepts| - if leg == AcceptStep(j) && Enabled(socks, leg) then 1 else 0
  {
    if Enabled(socks, leg) {
      match leg {
        case RecvStep(i) => var k := RecvLegShape(socks[i]);
        case SendStep(i) =>
        case AcceptStep(i) => ClaimAccepts(w.mint, socks, i, j);
      }
    }
  }

  /** A socket minted on the way has nothing parked. */
  ghost predicate Unparked(s: Sock) { s.recvs == [] && s.accepts == [] && s.box.sends == [] }

  lemma {:induction false} RunMints(w: World, socks: seq<Sock>, legs: seq<Leg>)
    ensures |socks| <= |Run(w, socks, legs)|
    ensures forall j :: |socks| <= j < |Run(w, socks, legs)| ==> Unparked(Run(w, socks, legs)[j])
  {
    if legs != [] {
      var before := Run(w, socks, legs[..|legs| - 1]);
      RunMints(w, socks, legs[..|legs| - 1]);
      LegMints(w, before, legs[|legs| - 1], |socks|);
    }
  }

  lemma LegMints(w: World, socks: seq<Sock>, leg: Leg, from: nat)
    requires from <= |socks| && forall j :: from <= j < |socks| ==> Unparked(socks[j])
    ensures |socks| <= |Apply(w, socks, leg)|
    ensures forall j :: from <= j < |Apply(w, socks, leg)| ==> Unparked(Apply(w, socks, leg)[j])
  {
    if Enabled(socks, leg) {
      match leg {
        case RecvStep(i) =>
        case SendStep(i) =>
        case AcceptStep(i) => ClaimMints(w.mint, socks, i, from);
      }
    }
  }

  lemma ClaimMints(mint: nat -> Status, socks: seq<Sock>, i: nat, from: nat)
    requires i < |socks| && socks[i].accepts != [] && socks[i].acceptQueue != []
    requires from <= |socks| && forall j :: from <= j < |socks| ==> Unparked(socks[j])
    ensures |socks| <= |AcceptLeg(mint, socks, i, 0)|
    ensures forall j :: from <= j < |AcceptLeg(mint, socks, i, 0)| ==> Unparked(AcceptLeg(mint, socks, i, 0)[j])
  {
  }

  /** The same open handle: a leg neither lists, unlists nor kills a socket. */
  predicate SameHandle(s: Sock, t: Sock) { t.listed == s.listed && t.file == s.file && t.box.dead == s.box.dead }

  lemma LegHandle(w: World, socks: seq<Sock>, leg: Leg, j: nat)
    requires j < |socks|
    ensures j < |Apply(w, socks, leg)| && SameHandle(socks[j], Apply(w, socks, leg)[j])
  {
    if Enabled(socks, leg) {
      match leg {
        case RecvStep(i) => var k := RecvLegShape(socks[i]);
        case SendStep(i) => var left, end := SendLegShape(w.lwip(i), socks[i].box);
        case AcceptStep(i) =>
      }
    }
  }

  lemma {:induction false} RunHandle(w: World, socks: seq<Sock>, legs: seq<Leg>, j: nat)
    requires j < |socks|
    ensures j < |Run(w, socks, legs)| && SameHandle(socks[j], Run(w, socks, legs)[j])
  {
    if legs != [] {
      RunHandle(w, socks, legs[..|legs| - 1], j);
      LegHandle(w, Run(w, socks, legs[..|legs| - 1]), legs[|legs| - 1], j);
    }
  }

  // ---------------------------------------------------------------- the receive order of bytes

  /** What receives were handed, in completion order. */
  function Received(ended: seq<Completion>): seq<byte> {
    if ended == [] then [] else Received(ended[..|ended| - 1]) + ended[|ended| - 1].data
  }

  /** A stream receive takes its bytes from the front of the ring: nothing is lost, repeated or reordered, and the
      window credit survives the flush. */
  lemma RecvLegBytes(s: Sock)
    requires s.recvs != [] && Satisfiable(s) && !s.datagram
    ensures Received(RecvLeg(s).recvEnded) + RecvLeg(s).intake.buffered == Received(s.recvEnded) + s.intake.buffered
    ensures AfdStream.Credit(s.intake) ==> AfdStream.Credit(RecvLeg(s).intake)
  {
    var k := RecvLegShape(s);
    RecvLegIntake(s);
    var left := RecvLeg(s).intake.buffered;
    assert (s.recvEnded + [k])[..|s.recvEnded|] == s.recvEnded;
    assert k.data + left == s.intake.buffered;
    assert (Received(s.recvEnded) + k.data) + left == Received(s.recvEnded) + (k.data + left);
  }

  lemma RecvLegIntake(s: Sock)
    requires s.recvs != [] && Satisfiable(s) && !s.datagram
    ensures RecvLeg(s).intake.buffered == s.intake.buffered[Min(|s.intake.buffered|, s.recvs[0].capacity)..]
    ensures AfdStream.Credit(s.intake) ==> AfdStream.Credit(RecvLeg(s).intake)
  {
    var capacity := s.recvs[0].capacity;
    if s.intake.buffered != [] {
      AfdStream.ReadAndFlush(s.intake, capacity);
    }
  }

  /** A datagram receive takes exactly one datagram and says when it did not fit. */
  lemma RecvLegDatagram(s: Sock)
    requires s.recvs != [] && Satisfiable(s) && s.datagram
    ensures var t := RecvLeg(s);
            && [s.datagrams[0]] + t.datagrams == s.datagrams
            && var k := t.recvEnded[|s.recvEnded|];
               && k.data <= s.datagrams[0] && k.information == |k.data| == Min(|s.datagrams[0]|, s.recvs[0].capacity)
               && k.status == if |s.datagrams[0]| > s.recvs[0].capacity then STATUS_BUFFER_OVERFLOW else STATUS_SUCCESS
  {
  }

  // ---------------------------------------------------------------- the receive loop

  /** The readiness pass's loop over the parked receives. */
  function Ready(s: Sock): Sock
    decreases |s.recvs|
  {
    if s.recvs != [] && Satisfiable(s) then Ready(RecvLeg(s)) else s
  }

  lemma {:induction false} ReadyDries(s: Sock)
    ensures RecvDry(Ready(s)) && Ready(s).datagram == s.datagram
    decreases |s.recvs|
  {
    if s.recvs != [] && Satisfiable(s) {
      ReadyDries(RecvLeg(s));
    }
  }

  /** What receives have room for, together. */
  function RoomOf(q: seq<Recv>): nat { if q == [] then 0 else q[0].capacity + RoomOf(q[1..]) }

  /** The status of a stream receive that finds no data: a refused connection counts as closed. */
  function EmptyStatus(s: Sock): Status {
    if s.box.soError == 0 || s.box.soError == STATUS_CONNECTION_REFUSED then STATUS_SUCCESS else s.box.soError
  }

  /** The answer to a receive with `before` bytes of room in front of it. */
  predicate AnswersAt(s: Sock, r: Recv, before: nat, k: Completion) {
    var b := s.intake.buffered;
    && k.id == r.id && k.information == |k.data|
    && (before < |b| ==>
         && k.status == STATUS_SUCCESS
         && k.data == b[before..if before + r.capacity < |b| then before + r.capacity else |b|])
    && (before >= |b| ==> k.status == EmptyStatus(s) && k.data == [])
  }

  ghost predicate AnswersAll(s: Sock, t: Sock) {
    && t.recvs == [] && |t.recvEnded| == |s.recvEnded| + |s.recvs| && s.recvEnded <= t.recvEnded
    && forall k :: 0 <= k < |s.recvs| ==>
         AnswersAt(s, s.recvs[k], RoomOf(s.recvs[..k]), t.recvEnded[|s.recvEnded| + k])
  }

  /** No receive of a stream waits any more. */
  predicate Closing(s: Sock) { !s.datagram && (s.intake.peerClosed || s.box.soError != 0 || s.box.dead) }

  lemma HeadAnswer(s: Sock) returns (k: Completion)
    requires !s.datagram && s.recvs != [] && Satisfiable(s)
    ensures AnswersAt(s, s.recvs[0], 0, k)
    ensures var t := RecvLeg(s); t == s.(intake := t.intake, recvs := s.recvs[1..], recvEnded := s.recvEnded + [k])
    ensures RecvLeg(s).intake.peerClosed == s.intake.peerClosed
    ensures RecvLeg(s).intake.buffered == s.intake.buffered[Min(|s.intake.buffered|, s.recvs[0].capacity)..]
  {
    k := RecvLegShape(s);
    RecvLegIntake(s);
    assert k == RecvLeg(s).recvEnded[|s.recvEnded|];
  }

  /** An answer to a later receive, seen from before the first one. */
  lemma AnswerShift(s: Sock, u: Sock, head: nat, r: Recv, before: nat, k: Completion)
    requires u.box == s.box && u.intake.buffered == s.intake.buffered[Min(|s.intake.buffered|, head)..]
    requires AnswersAt(u, r, before, k)
    ensures AnswersAt(s, r, head + before, k)
  {
    var b := s.intake.buffered;
    if head + before < |b| {
      var end := if before + r.capacity < |b| - head then before + r.capacity else |b| - head;
      assert b[head..][before..end] == b[head + before..head + end];
    }
  }

  lemma LaterRoom(q: seq<Recv>, k: nat)
    requires 0 < k <= |q|
    ensures RoomOf(q[..k]) == q[0].capacity + RoomOf(q[1..][..k - 1])
  {
    assert q[..k][1..] == q[1..][..k - 1];
  }

  /** Once a stream is closed, lost or dead, one readiness pass answers every parked receive, in order: with the next
      bytes of the ring while there are any, and then with no bytes and the status the socket's error calls for. */
  lemma {:induction false} ClosedAnswersAll(s: Sock)
    requires Closing(s)
    ensures AnswersAll(s, Ready(s))
    decreases |s.recvs|
  {
    if s.recvs != [] {
      var u, t := RecvLeg(s), Ready(s);
      var first := HeadAnswer(s);
      ClosedAnswersAll(u);
      assert t.recvEnded[|s.recvEnded|] == first;
      forall k | 0 <= k < |s.recvs|
        ensures AnswersAt(s, s.recvs[k], RoomOf(s.recvs[..k]), t.recvEnded[|s.recvEnded| + k])
      {
        if k == 0 {
          assert s.recvs[..k] == [];
        } else {
          LaterRoom(s.recvs, k);
          AnswerShift(s, u, s.recvs[0].capacity, s.recvs[k], RoomOf(u.recvs[..k - 1]),
                      t.recvEnded[|u.recvEnded| + (k - 1)]);
        }
      }
    }
  }

  /** A socket with no receive parked keeps its receive record through any run of legs. */
  lemma {:induction false} RunNoRecvs(w: World, socks: seq<Sock>, legs: seq<Leg>, j: nat)
    requires j < |socks| && socks[j].recvs == []
    ensures j < |Run(w, socks, legs)|
    ensures Run(w, socks, legs)[j].recvs == [] && Run(w, socks, legs)[j].recvEnded == socks[j].recvEnded
  {
    if legs != [] {
      RunNoRecvs(w, socks, legs[..|legs| - 1], j);
      LegNoRecvs(w, Run(w, socks, legs[..|legs| - 1]), legs[|legs| - 1], j);
    }
  }

  lemma LegNoRecvs(w: World, socks: seq<Sock>, leg: Leg, j: nat)
    requires j < |socks| && socks[j].recvs == []
    ensures j < |Apply(w, socks, leg)|
    ensures Apply(w, socks, leg)[j].recvs == [] && Apply(w, socks, leg)[j].recvEnded == socks[j].recvEnded
  {
  }

  // ---------------------------------------------------------------- the inline receive

  /** AfdRecvCommon's refusals: an unconnected stream, and a nonblocking receive that would have to wait. */
  function RecvRefusal(s: Sock, mayWait: bool): Option<Status> {
    if !s.datagram && !s.box.connected && !s.intake.peerClosed then Some(STATUS_INVALID_CONNECTION)
    else if !mayWait && !Satisfiable(s) then Some(STATUS_DEVICE_NOT_READY)
    else None
  }

  /** Nothing was taken off the ring or the queue. */
  predicate SameData(s: Sock, t: Sock) { t.intake.buffered == s.intake.buffered && t.datagrams == s.datagrams }

  /** AfdRecvCommon's inline legs: the socket after, the status and the bytes; None parks. */
  function RecvInline(s: Sock, capacity: nat, peek: bool): Option<(Sock, Status, seq<byte>)> {
    if !s.datagram && s.intake.buffered != [] then
      Some((s.(intake := AfdStream.Flush(if peek then s.intake else AfdStream.Consume(s.intake, capacity))),
            STATUS_SUCCESS, s.intake.buffered[..Min(|s.intake.buffered|, capacity)]))
    else if s.datagram && s.datagrams != [] && !peek then
      var d := s.datagrams[0];
      Some((s.(datagrams := s.datagrams[1..]),
            if |d| > capacity then STATUS_BUFFER_OVERFLOW else STATUS_SUCCESS, d[..Min(|d|, capacity)]))
    else if !s.datagram && (s.intake.peerClosed || s.box.soError != 0) then
      Some((s, if s.box.soError != 0 then s.box.soError else STATUS_SUCCESS, []))
    else None
  }

  function WithRecv(s: Sock, recv: Recv): Sock { s.(recvs := s.recvs + [recv]) }

  /** The same receive, parked and then completed by a readiness pass. */
  function ParkedThenReady(s: Sock, recv: Recv): (Sock, Status, seq<byte>)
    requires s.recvs == [] && Satisfiable(s)
  {
    var t := RecvLeg(WithRecv(s, recv));
    var k := t.recvEnded[|s.recvEnded|];
    (t.(recvs := s.recvs, recvEnded := s.recvEnded), k.status, k.data)
  }

  /** On a satisfiable socket the inline answer and the parked one are the same, except that a refused connection with
      nothing buffered is an error inline and zero bytes when parked; only a dead stream with neither a FIN nor an error
      has no inline answer at all. */
  lemma RecvPathsAgreeExactly(s: Sock, id: nat, capacity: nat)
    requires s.recvs == [] && Satisfiable(s)
    ensures RecvInline(s, capacity, false).None? <==>
              !s.datagram && s.intake.buffered == [] && !s.intake.peerClosed && s.box.soError == 0
    ensures RecvInline(s, capacity, false).Some? ==>
              (RecvInline(s, capacity, false).value == ParkedThenReady(s, Recv(id, capacity, false))
               <==> !(!s.datagram && s.intake.buffered == [] && s.box.soError == STATUS_CONNECTION_REFUSED))
  {
    var k := RecvLegShape(WithRecv(s, Recv(id, capacity, false)));
  }

  /** AfdVfsRead's test in front of a park: the status of a flat read with no data, or None to wait. */
  function FlatReadStatus(s: Sock): Option<Status> {
    if s.intake.peerClosed || s.box.dead || (s.box.soError != 0 && s.box.soError != STATUS_CONNECTION_REFUSED) then
      Some(if s.box.soError != 0 then s.box.soError else STATUS_SUCCESS)
    else if !s.box.connected then Some(STATUS_INVALID_CONNECTION)
    else None
  }

  /** AfdVfsRead's inline legs on a stream, up to its flush. */
  function FlatReadInline(s: Sock, length: nat): Option<(Sock, Status, seq<byte>)> {
    if s.intake.buffered != [] then
      Some((s.(intake := AfdStream.Flush(AfdStream.Relatch(AfdStream.Take(s.intake, length)))), STATUS_SUCCESS,
            s.intake.buffered[..Min(|s.intake.buffered|, length)]))
    else if FlatReadStatus(s).Some? then Some((s, FlatReadStatus(s).value, []))
    else None
  }

  /** The flat read answered inline and the one parked first agree on status and bytes, except on a refused connection
      with nothing buffered: inline that is an error (or, while still connected, another park), parked it is zero
      bytes. */
  lemma FlatReadPathsAgreeExactly(s: Sock, id: nat, length: nat)
    requires s.recvs == [] && Satisfiable(s) && !s.datagram
    ensures FlatReadInline(s, length).None? <==>
              && s.intake.buffered == [] && !s.intake.peerClosed && !s.box.dead && s.box.connected
              && s.box.soError == STATUS_CONNECTION_REFUSED
    ensures FlatReadInline(s, length).Some? ==>
              var (t, status, data) := FlatReadInline(s, length).value;
              var (u, parkedStatus, parkedData) := ParkedThenReady(s, Recv(id, length, true));
              && data == parkedData && t.intake.(edges := []) == u.intake.(edges := [])
              && (status == parkedStatus <==> !(s.intake.buffered == [] && s.box.soError == STATUS_CONNECTION_REFUSED))
  {
    var k := RecvLegShape(WithRecv(s, Recv(id, length, true)));
  }

  /** A drained socket that can answer inline has no receive parked, so an inline receive overtakes nothing. */
  lemma InlineRecvOvertakesNothing(s: Sock, capacity: nat, peek: bool)
    requires RecvDry(s) && RecvInline(s, capacity, peek).Some?
    ensures s.recvs == [] && RecvDry(RecvInline(s, capacity, peek).value.0)
  {
  }

  // ---------------------------------------------------------------- when a socket is drained

  predicate RecvDry(s: Sock) { s.recvs == [] || !Satisfiable(s) }

  predicate SendDry(s: Sock) { s.box.sends == [] || Stuck(s.box) }

  predicate AcceptDry(s: Sock) { s.accepts == [] || s.acceptQueue == [] }

  predicate Drained(s: Sock) { RecvDry(s) && SendDry(s) && AcceptDry(s) }

  /** No receive is parked that could be satisfied, and no accept that could be matched. */
  predicate Dry(s: Sock) { RecvDry(s) && AcceptDry(s) }

  ghost predicate AllDry(socks: seq<Sock>) { forall j :: 0 <= j < |socks| ==> Dry(socks[j]) }

  ghost predicate AllDryBut(socks: seq<Sock>, i: nat) { forall j :: 0 <= j < |socks| && j != i ==> Dry(socks[j]) }

  /** What was drained still is. */
  predicate StaysDry(s: Sock, t: Sock) {
    && (RecvDry(s) ==> RecvDry(t)) && (SendDry(s) ==> SendDry(t)) && (AcceptDry(s) ==> AcceptDry(t))
  }

  /** A connect is parked only while one is under way, and never beside a send; sends are parked only once connected and
      have not passed their end; acceptors exist. */
  ghost predicate Fit(s: Sock, count: nat) {
    && (s.dial.request.Some? ==> s.dial.connecting && s.box.sends == [])
    && (!s.box.connected ==> s.box.sends == [])
    && SendsFit(s.box)
    && (forall a :: a in s.accepts && a.into.Some? ==> a.into.value < count)
  }

  ghost predicate AllFit(socks: seq<Sock>) { forall j :: 0 <= j < |socks| ==> Fit(socks[j], |socks|) }

  /** Connections nobody has claimed, over all sockets: what the drain's recursion uses up. */
  function Unclaimed(socks: seq<Sock>): nat {
    if socks == [] then 0 else Unclaimed(socks[..|socks| - 1]) + |socks[|socks| - 1].acceptQueue|
  }

  lemma {:induction false} UnclaimedUpdate(socks: seq<Sock>, i: nat, s: Sock)
    requires i < |socks|
    ensures Unclaimed(socks[i := s]) == Unclaimed(socks) - |socks[i].acceptQueue| + |s.acceptQueue|
    ensures Unclaimed(socks) >= |socks[i].acceptQueue|
  {
    var n := |socks| - 1;
    if i < n {
      UnclaimedUpdate(socks[..n], i, s);
      assert socks[i := s][..n] == socks[..n][i := s];
    } else {
      assert socks[i := s][..n] == socks[..n];
    }
  }

  /** One claim uses up one connection. */
  lemma AcceptLegUnclaimed(mint: nat -> Status, socks: seq<Sock>, l: nat, k: nat)
    requires l < |socks| && k < |socks[l].accepts| && socks[l].acceptQueue != []
    ensures Unclaimed(AcceptLeg(mint, socks, l, k)) == Unclaimed(socks) - 1
  {
    var accept, shell := socks[l].accepts[k], socks[l].acceptQueue[0];
    var status := if accept.into.Some? || NtSuccess(mint(accept.id)) then STATUS_SUCCESS else mint(accept.id);
    var claimed := socks[l := Claimed(socks[l], k, status)];
    UnclaimedUpdate(socks, l, Claimed(socks[l], k, status));
    if accept.into.Some? {
      if accept.into.value < |socks| {
        UnclaimedUpdate(claimed, accept.into.value, GraftOnto(claimed[accept.into.value], shell));
      }
    } else if NtSuccess(mint(accept.id)) {
      assert (claimed + [Minted(shell, |socks|)])[..|claimed|] == claimed;
    }
  }

  // ---------------------------------------------------------------- the send loop's exit

  /** One pass of the send loop over the first parked send. */
  predicate Progressed(b: Outbox, c: Outbox)
    requires b.sends != []
  {
    |c.sends| < |b.sends| || (c.sends != [] && c.sends[0].done > b.sends[0].done)
  }

  /** The loop's own exit test. */
  predicate Leaves(s: Sock, t: Sock)
    requires s.box.sends != []
  {
    t.dial.request.None? && |t.box.sends| == |s.box.sends| && t.box.sends[0].done == s.box.sends[0].done
  }

  /** lwIP takes nothing of the first parked send, without refusing it. */
  predicate Blocked(lwip: nat -> LwipErr, b: Outbox)
    requires b.sends != []
  {
    && b.out.Some? && !b.dead && b.sends[0].done < |b.sends[0].data|
    && (b.out.value.room == 0 || lwip(b.out.value.writes) == ErrMem)
  }

  lemma BlockedPush(lwip: nat -> LwipErr, out: Outgo, id: nat, data: seq<byte>, done: nat)
    requires done < |data|
    ensures var p := PushRun(lwip, out, id, data, done);
            p.done == done && (p.err == ErrOk || p.err == ErrMem) <==> out.room == 0 || lwip(out.writes) == ErrMem
  {
    if out.room != 0 && lwip(out.writes) == ErrOk {
      var push, next := PushUnfold(lwip, out, id, data, done);
      PushRunExact(lwip, next, id, data, done + push);
    }
  }

  lemma BlockedExactly(lwip: nat -> LwipErr, b: Outbox)
    requires b.sends != [] && SendsFit(b)
    ensures !Progressed(b, Continue(lwip, b)) <==> Blocked(lwip, b)
  {
    var s := b.sends[0];
    if b.out.Some? && !b.dead {
      PushRunExact(lwip, b.out.value, s.id, s.data, s.done);
      if s.done < |s.data| {
        BlockedPush(lwip, b.out.value, s.id, s.data, s.done);
      }
    }
  }
}
