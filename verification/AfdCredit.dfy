/**
 The window credit over the table of all sockets and the connections queued on them (drivers/afd.c:416-516, 880-1075,
 1252-1314): what readiness legs and lwIP's callbacks keep, and the one claim that does not.
 */
module AfdCredit {
  import opened NtKernel
  import opened AfdTypes
  import opened AfdSockets
  import opened AfdCallbacks
  import AfdSend
  import AfdStream

  /** Between verbs and callbacks the credit holds, and while lwIP's end lives every debt has been returned. */
  predicate Paid(s: AfdStream.Intake) { AfdStream.Credit(s) && (s.live ==> s.owed == 0) }

  /** Nobody has read from a queued connection. */
  predicate Unread(shell: Shell) { Paid(shell.intake) && shell.intake.owed == 0 }

  ghost predicate SockPaid(s: Sock) { Paid(s.intake) && forall shell :: shell in s.acceptQueue ==> Unread(shell) }

  ghost predicate AllPaid(socks: seq<Sock>) { forall j :: 0 <= j < |socks| ==> SockPaid(socks[j]) }

  // ---------------------------------------------------------------- legs

  /** An acceptor that a connection can be grafted onto without breaking the window: it owes nothing, or the connection
      is dead and the debt fits beside what it buffered. */
  predicate CanTake(target: Sock, shell: Shell) {
    if shell.intake.live then target.intake.owed == 0
    else |shell.intake.buffered| + target.intake.owed <= AfdStream.TCP_WND
  }

  /** A leg that grafts has such an acceptor. */
  ghost predicate GraftFits(socks: seq<Sock>, leg: Leg) {
    leg.AcceptStep? && Enabled(socks, leg) ==>
      var into, shell := socks[leg.i].accepts[0].into, socks[leg.i].acceptQueue[0];
      into.Some? && into.value < |socks| ==> CanTake(socks[into.value], shell)
  }

  lemma RecvLegPaid(s: Sock)
    requires s.recvs != [] && Satisfiable(s) && SockPaid(s)
    ensures SockPaid(RecvLeg(s))
  {
    var k := RecvLegShape(s);
    if !s.datagram {
      RecvLegIntake(s);
    }
  }

  lemma GraftPaidExactly(target: Sock, shell: Shell)
    requires Unread(shell)
    ensures Paid(GraftOnto(target, shell).intake) <==> CanTake(target, shell)
  {
    AfdStream.GraftCredit(target.intake, shell.intake);
  }

  lemma OnePaid(socks: seq<Sock>, i: nat, t: Sock)
    requires i < |socks| && AllPaid(socks)
    ensures AllPaid(socks[i := t]) <==> SockPaid(t)
  {
    assert socks[i := t][i] == t;
  }

  lemma ClaimPaidExactly(mint: nat -> Status, socks: seq<Sock>, l: nat)
    requires l < |socks| && socks[l].accepts != [] && socks[l].acceptQueue != [] && AllPaid(socks)
    ensures AllPaid(AcceptLeg(mint, socks, l, 0)) <==> GraftFits(socks, AcceptStep(l))
  {
    var accept, shell := socks[l].accepts[0], socks[l].acceptQueue[0];
    var status := if accept.into.Some? || NtSuccess(mint(accept.id)) then STATUS_SUCCESS else mint(accept.id);
    var claimed := socks[l := Claimed(socks[l], 0, status)];
    assert Unread(shell);
    OnePaid(socks, l, Claimed(socks[l], 0, status));
    if accept.into.Some? {
      if accept.into.value < |socks| {
        var target := claimed[accept.into.value];
        GraftPaidExactly(target, shell);
        OnePaid(claimed, accept.into.value, GraftOnto(target, shell));
      }
    } else if NtSuccess(mint(accept.id)) {
      assert SockPaid(Minted(shell, |socks|));
    }
  }

  /** The leg's acceptor still has lwIP's end. */
  ghost predicate OntoLive(socks: seq<Sock>, leg: Leg) {
    leg.AcceptStep? && Enabled(socks, leg)
    && var into := socks[leg.i].accepts[0].into; into.Some? && into.value < |socks| && socks[into.value].intake.live
  }

  lemma LiveCanTake(socks: seq<Sock>, leg: Leg)
    requires AllPaid(socks) && OntoLive(socks, leg)
    ensures GraftFits(socks, leg)
  {
    var into, shell := socks[leg.i].accepts[0].into, socks[leg.i].acceptQueue[0];
    assert Unread(shell) && SockPaid(socks[into.value]);
  }

  /** Every leg keeps the whole table's credit, and a claim exactly if its acceptor can take the connection, as one that
      still has lwIP's end always can. */
  lemma LegPaidExactly(w: World, socks: seq<Sock>, leg: Leg)
    requires AllPaid(socks)
    ensures AllPaid(Apply(w, socks, leg)) <==> GraftFits(socks, leg)
    ensures OntoLive(socks, leg) ==> GraftFits(socks, leg)
  {
    if OntoLive(socks, leg) {
      LiveCanTake(socks, leg);
    }
    if Enabled(socks, leg) {
      match leg {
        case RecvStep(i) =>
          RecvLegPaid(socks[i]);
          OnePaid(socks, i, RecvLeg(socks[i]));
        case SendStep(i) => OnePaid(socks, i, SendLeg(w.lwip(i), socks[i]));
        case AcceptStep(i) => ClaimPaidExactly(w.mint, socks, i);
      }
    }
  }

  ghost predicate GraftsFit(w: World, socks: seq<Sock>, legs: seq<Leg>) {
    legs == [] || (GraftsFit(w, socks, legs[..|legs| - 1])
                   && GraftFits(Run(w, socks, legs[..|legs| - 1]), legs[|legs| - 1]))
  }

  /** Over every run of legs whose grafts have such acceptors, every socket and every queued connection keeps the
      credit, and no live one owes anything. */
  lemma {:induction false} RunKeepsPaid(w: World, socks: seq<Sock>, legs: seq<Leg>)
    requires AllPaid(socks) && GraftsFit(w, socks, legs)
    ensures AllPaid(Run(w, socks, legs))
  {
    if legs != [] {
      RunKeepsPaid(w, socks, legs[..|legs| - 1]);
      LegPaidExactly(w, Run(w, socks, legs[..|legs| - 1]), legs[|legs| - 1]);
    }
  }

  /** An acceptor that lost its connection with data unread, and was read from after that, cannot take a live one. */
  lemma ReadAfterLossOwes(s: Sock, err: AfdSend.LwipErr, capacity: nat, shell: Shell)
    requires SockPaid(s) && !s.datagram && s.intake.buffered != [] && capacity > 0
    ensures var read := RecvInline(OnError(s, err), capacity, false);
            read.Some? && SockPaid(read.value.0) && (shell.intake.live ==> !CanTake(read.value.0, shell))
  {
    ReadsKeepPaid(OnError(s, err), capacity, false);
  }

  // ---------------------------------------------------------------- verbs and callbacks

  lemma EdgesKeepPaid(s: Sock, data: seq<byte>, err: AfdSend.LwipErr, shell: Shell, file: nat, datagram: bool)
    requires SockPaid(s) && Unread(shell)
    ensures s.intake.live && |data| <= s.intake.window ==> SockPaid(OnData(s, data))
    ensures SockPaid(OnFin(s)) && SockPaid(OnError(s, err)) && SockPaid(OnConnected(s)) && SockPaid(OnInbound(s, shell))
    ensures SockPaid(Opened(file, datagram))
  {
  }

  lemma ReadsKeepPaid(s: Sock, capacity: nat, peek: bool)
    requires SockPaid(s)
    ensures RecvInline(s, capacity, peek).Some? ==> SockPaid(RecvInline(s, capacity, peek).value.0)
    ensures !s.datagram && FlatReadInline(s, capacity).Some? ==> SockPaid(FlatReadInline(s, capacity).value.0)
  {
    if !s.datagram && s.intake.buffered != [] {
      AfdStream.ReadAndFlush(s.intake, capacity);
    }
  }

  /** A queued connection stays unread whatever arrives for it within its window. */
  lemma ShellStaysUnread(shell: Shell, event: ShellEvent)
    requires Unread(shell)
    requires event.ShellGot? ==> shell.intake.live && |AfdStream.Flatten(event.chain)| <= shell.intake.window
    ensures Unread(OnShell(shell, event))
  {
  }
}
