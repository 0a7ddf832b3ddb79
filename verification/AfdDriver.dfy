/**
 The driver in place: one object holds the sockets, the parked polls and their ends, and its methods are the driver's
 loops (drivers/afd.c:778-905, 1252-1314, 1760-1788, 2457-2657, 2785-2923, 3567-3584), each proved against the value
 functions of the other modules.
 */
module AfdDriver {
  import opened NtKernel
  import opened Lists
  import opened AfdTypes
  import opened AfdPoll
  import opened AfdSockets
  import opened AfdCallbacks
  import opened AfdCancel
  import opened AfdCredit
  import AfdSend
  import AfdStream

  /** Only the receive side of a socket moved. */
  predicate OnlyRecv(s: Sock, t: Sock) {
    t == s.(recvs := t.recvs, recvEnded := t.recvEnded, intake := t.intake, datagrams := t.datagrams)
  }

  /** Only the send side of a socket moved. */
  predicate OnlySend(s: Sock, t: Sock) {
    t == s.(box := s.box.(out := t.box.out, sends := t.box.sends, wire := t.box.wire, ended := t.box.ended))
  }

  lemma OnlyOne(socks: seq<Sock>, i: nat, t: Sock)
    requires i < |socks| && AllFit(socks) && Fit(t, |socks|)
    ensures AllFit(socks[i := t])
  {
  }

  ghost predicate AllStayDry(before: seq<Sock>, after: seq<Sock>) {
    |before| <= |after| && forall j :: 0 <= j < |before| ==> StaysDry(before[j], after[j])
  }

  lemma StaysDryChain(a: seq<Sock>, b: seq<Sock>, c: seq<Sock>)
    requires AllStayDry(a, b) && AllStayDry(b, c)
    ensures AllStayDry(a, c)
  {
  }

  lemma AcceptLegFits(mint: nat -> Status, socks: seq<Sock>, l: nat)
    requires l < |socks| && socks[l].accepts != [] && socks[l].acceptQueue != [] && AllFit(socks)
    ensures AllFit(AcceptLeg(mint, socks, l, 0)) && |socks| <= |AcceptLeg(mint, socks, l, 0)|
  {
    var accept, shell := socks[l].accepts[0], socks[l].acceptQueue[0];
    var status := if accept.into.Some? || NtSuccess(mint(accept.id)) then STATUS_SUCCESS else mint(accept.id);
    var claimed := Claimed(socks[l], 0, status);
    assert forall a :: a in claimed.accepts ==> a in socks[l].accepts;
    assert Fit(claimed, |socks|);
    OnlyOne(socks, l, claimed);
    var after := AcceptLeg(mint, socks, l, 0);
    forall j | 0 <= j < |after| ensures Fit(after[j], |after|) {
      if j < |socks| {
        assert Fit(socks[l := claimed][j], |socks|);
      }
    }
  }

  lemma IssueFitsExactly(lwip: nat -> AfdSend.LwipErr, s: Sock, id: nat, data: seq<byte>, prepared: Status, count: nat)
    requires Fit(s, count)
    ensures var t := s.(box := AfdSend.Issue(lwip, s.box, id, data, prepared));
            (Fit(t, count) <==> t.dial.request.None? || t.box.sends == []) && (Dry(s) ==> Dry(t))
  {
    if s.box.out.Some? {
      AfdSend.PushRunExact(lwip, s.box.out.value, id, data, 0);
    }
  }

  lemma SweptSockFits(e: Engine, f: CancelFilter, status: Status, s: Sock, count: nat)
    requires Fit(s, count)
    ensures Fit(SweepSock(e, f, status, s), count)
    ensures Dry(s) ==> Dry(SweepSock(e, f, status, s))
  {
    FilterMembers(SendMiss(e, f), s.box.sends);
    FilterMembers(AcceptMiss(e, f), s.accepts);
    var t := SweepSock(e, f, status, s);
    forall k | 0 <= k < |t.box.sends| ensures t.box.sends[k].done <= |t.box.sends[k].data| {
      assert t.box.sends[k] in s.box.sends;
    }
    SweptEmpty(e, f, status, s);
  }

  ghost predicate AllSameHandle(before: seq<Sock>, after: seq<Sock>) {
    |before| <= |after| && forall j :: 0 <= j < |before| ==> SameHandle(before[j], after[j])
  }

  /** Every parked poll was issued on a file that is still open, and its deadline is a LONGLONG. */
  ghost predicate PollsFit(socks: seq<Sock>, polls: seq<Poll>) { Issued(socks, polls) && Longs(polls) }

  lemma PollsStayFit(before: seq<Sock>, after: seq<Sock>, polls: seq<Poll>, left: seq<Poll>)
    requires PollsFit(before, polls) && AllSameHandle(before, after) && forall p :: p in left ==> p in polls
    ensures PollsFit(after, left)
  {
    forall p | p in left ensures LiveFile(after, p.file) {
      var j :| 0 <= j < |before| && before[j].listed && !before[j].box.dead && before[j].file == p.file;
      assert SameHandle(before[j], after[j]);
    }
  }

  lemma OneSameHandle(socks: seq<Sock>, i: nat, t: Sock, polls: seq<Poll>, left: seq<Poll>)
    requires i < |socks| && SameHandle(socks[i], t) && PollsFit(socks, polls) && forall p :: p in left ==> p in polls
    ensures PollsFit(socks[i := t], left)
  {
    PollsStayFit(socks, socks[i := t], polls, left);
  }

  /** Legs leave parked polls the open files they were issued on. */
  lemma RunPollsFit(w: World, start: seq<Sock>, legs: seq<Leg>, polls: seq<Poll>, left: seq<Poll>)
    requires PollsFit(start, polls) && forall p :: p in left ==> p in polls
    ensures PollsFit(Run(w, start, legs), left)
  {
    RunMints(w, start, legs);
    forall j | 0 <= j < |start| ensures SameHandle(start[j], Run(w, start, legs)[j]) {
      RunHandle(w, start, legs, j);
    }
    PollsStayFit(start, Run(w, start, legs), polls, left);
  }

  /** The socket's own polls are gone, so the rest were issued on other files. */
  lemma CleanedPollsFit(e: Engine, socks: seq<Sock>, b: Board, i: nat)
    requires i < |socks| && PollsFit(socks, b.polls)
    ensures PollsFit(socks[i := CleanupSock(e, socks[i])], CleanupBoard(e, socks, b, i).polls)
  {
    var cleaned := socks[i := CleanupSock(e, socks[i])];
    CleanupLeavesNothing(e, socks, b, i);
    forall p | p in CleanupBoard(e, socks, b, i).polls ensures LiveFile(cleaned, p.file) && p.deadline <= INFINITE {
      assert p in b.polls && p.file != socks[i].file;
      var j :| 0 <= j < |socks| && socks[j].listed && !socks[j].box.dead && socks[j].file == p.file;
      assert cleaned[j] == socks[j];
    }
  }

  lemma AskedPollsFit(socks: seq<Sock>, b: Board, request: Poll, now: int, prepared: Status)
    requires PollsFit(socks, b.polls) && LiveFile(socks, request.file) && request.timeout <= INFINITE
    ensures PollsFit(socks, PollVerb(socks, b, request, now, prepared).0.polls)
  {
    if request.entries != [] {
      var displaced := Displaced(b, request);
      if displaced.Some? {
        FilterMembers(Misses(Numbered(displaced.value)), b.polls);
      }
    }
  }

  lemma SweptEmpty(e: Engine, f: CancelFilter, status: Status, s: Sock)
    ensures s.recvs == [] ==> SweepSock(e, f, status, s).recvs == []
    ensures s.box.sends == [] ==> SweepSock(e, f, status, s).box.sends == []
    ensures s.accepts == [] ==> SweepSock(e, f, status, s).accepts == []
  {
  }

  lemma SweptStaysSteady(e: Engine, f: CancelFilter, status: Status, socks: seq<Sock>, b: Board, i: nat)
    requires i < |socks| && AllFit(socks) && AllDry(socks) && Anchored(b) && PollsFit(socks, b.polls)
    ensures var swept, c := socks[i := SweepSock(e, f, status, socks[i])], SweepBoard(e, f, status, socks, b, i);
            AllFit(swept) && AllDry(swept) && Anchored(c) && PollsFit(swept, c.polls)
  {
    var t := SweepSock(e, f, status, socks[i]);
    SweptSockFits(e, f, status, socks[i], |socks|);
    OnlyOne(socks, i, t);
    EndWhereKeepsAnchors(socks, b, PollHit(e, f, socks[i].file), status, false);
    FilterMembers(Misses(PollHit(e, f, socks[i].file)), b.polls);
    OneSameHandle(socks, i, t, b.polls, SweepBoard(e, f, status, socks, b, i).polls);
  }

  /** The thread cancel's loop so far. */
  ghost predicate Sweeping(e: Engine, f: CancelFilter, start: seq<Sock>, board: Board, n: nat, socks: seq<Sock>,
                           b: Board) {
    && n <= |start| == |socks|
    && socks == SweptSocks(e, f, STATUS_CANCELLED, start, n) && b == SweptBoard(e, f, STATUS_CANCELLED, start, board, n)
  }

  lemma SweepingMore(e: Engine, f: CancelFilter, start: seq<Sock>, board: Board, n: nat, socks: seq<Sock>, b: Board)
    requires Sweeping(e, f, start, board, n, socks, b) && n < |socks|
    ensures if socks[n].listed then
              Sweeping(e, f, start, board, n + 1, socks[n := SweepSock(e, f, STATUS_CANCELLED, socks[n])],
                       SweepBoard(e, f, STATUS_CANCELLED, socks, b, n))
            else Sweeping(e, f, start, board, n + 1, socks, b)
  {
    assert socks[n] == start[n];
  }

  lemma CleanedStaysSteady(e: Engine, socks: seq<Sock>, b: Board, i: nat)
    requires i < |socks| && AllFit(socks) && AllDry(socks) && Anchored(b) && PollsFit(socks, b.polls)
    ensures var cleaned, c := socks[i := CleanupSock(e, socks[i])], CleanupBoard(e, socks, b, i);
            AllFit(cleaned) && AllDry(cleaned) && Anchored(c) && PollsFit(cleaned, c.polls)
  {
    var dead := Killed(socks, i);
    CleanupLeavesNothing(e, socks, b, i);
    OnlyOne(socks, i, CleanupSock(e, socks[i]));
    EndWhereKeepsAnchors(dead, b, IsReady(dead), STATUS_SUCCESS, true);
    EndWhereKeepsAnchors(dead, Evaluate(dead, b), PollHit(e, EVERYTHING, socks[i].file), STATUS_HANDLES_CLOSED, false);
    CleanedPollsFit(e, socks, b, i);
  }

  /** Legs leave dry sockets dry, and mint only dry ones. */
  lemma RunStaysDry(w: World, start: seq<Sock>, legs: seq<Leg>, i: nat)
    requires AllStayDry(start, Run(w, start, legs)) && AllDryBut(start, i) && i < |start|
    ensures AllDryBut(Run(w, start, legs), i)
  {
    RunMints(w, start, legs);
    var after := Run(w, start, legs);
    forall j | 0 <= j < |after| && j != i ensures Dry(after[j]) {
      if j < |start| {
        assert StaysDry(start[j], after[j]);
      } else {
        assert Unparked(after[j]);
      }
    }
  }

  /** After a readiness pass over the one socket that may not have been dry, all are. */
  lemma ReadyMakesDry(w: World, start: seq<Sock>, legs: seq<Leg>, i: nat)
    requires i < |start| && AllStayDry(start, Run(w, start, legs)) && Drained(Run(w, start, legs)[i])
    ensures AllDryBut(start, i) ==> AllDry(Run(w, start, legs))
  {
    if AllDryBut(start, i) {
      RunStaysDry(w, start, legs, i);
    }
  }

  lemma ClaimedStaysDry(s: Sock, status: Status)
    requires s.accepts != [] && s.acceptQueue != []
    ensures StaysDry(s, Claimed(s, 0, status)) && !AcceptDry(s)
  {
  }

  function Unlisted(s: Sock): Sock { s.(listed := false, datagrams := [], intake := s.intake.(buffered := [])) }

  /** Where a claim leaves each socket, but for the acceptor it grafts onto. */
  lemma AcceptLegElsewhere(mint: nat -> Status, socks: seq<Sock>, l: nat, j: nat) returns (status: Status)
    requires l < |socks| && socks[l].accepts != [] && socks[l].acceptQueue != [] && j < |socks|
    requires socks[l].accepts[0].into != Some(j)
    ensures j < |AcceptLeg(mint, socks, l, 0)|
    ensures AcceptLeg(mint, socks, l, 0)[j] == if j == l then Claimed(socks[l], 0, status) else socks[j]
  {
    var accept := socks[l].accepts[0];
    status := if accept.into.Some? || NtSuccess(mint(accept.id)) then STATUS_SUCCESS else mint(accept.id);
  }

  /** A claim leaves every socket as drained as it was, but for the acceptor it grafts onto. */
  lemma AcceptLegStaysDry(mint: nat -> Status, socks: seq<Sock>, l: nat, j: nat)
    requires l < |socks| && socks[l].accepts != [] && socks[l].acceptQueue != [] && j < |socks|
    requires socks[l].accepts[0].into != Some(j)
    ensures j < |AcceptLeg(mint, socks, l, 0)| && StaysDry(socks[j], AcceptLeg(mint, socks, l, 0)[j])
  {
    var status := AcceptLegElsewhere(mint, socks, l, j);
    if j == l {
      ClaimedStaysDry(socks[l], status);
    }
  }

  /** The acceptor's own readiness pass repairs what the graft may have undone. */
  lemma GraftThenReady(mint: nat -> Status, before: seq<Sock>, l: nat, after: seq<Sock>)
    requires l < |before| && before[l].accepts != [] && before[l].acceptQueue != []
    requires before[l].accepts[0].into.Some? && before[l].accepts[0].into.value < |before|
    requires AllStayDry(AcceptLeg(mint, before, l, 0), after)
    requires before[l].accepts[0].into.value < |after| && Drained(after[before[l].accepts[0].into.value])
    ensures AllStayDry(before, after)
  {
    var mid := AcceptLeg(mint, before, l, 0);
    forall j | 0 <= j < |before| ensures StaysDry(before[j], after[j]) {
      if before[l].accepts[0].into != Some(j) {
        AcceptLegStaysDry(mint, before, l, j);
        assert StaysDry(mid[j], after[j]);
      }
    }
  }

  lemma MintStaysDry(mint: nat -> Status, before: seq<Sock>, l: nat)
    requires l < |before| && before[l].accepts != [] && before[l].acceptQueue != [] && before[l].accepts[0].into.None?
    ensures AllStayDry(before, AcceptLeg(mint, before, l, 0))
  {
    forall j | 0 <= j < |before| ensures StaysDry(before[j], AcceptLeg(mint, before, l, 0)[j]) {
      AcceptLegStaysDry(mint, before, l, j);
    }
  }

  lemma ParkedHistory(s: Sock, accept: Accept)
    ensures AcceptHistory(s.(accepts := s.accepts + [accept])) == AcceptHistory(s) + [accept.id]
  {
    assert (s.accepts + [accept])[..|s.accepts|] == s.accepts;
    assert EndedIds(s.acceptEnded) + (AcceptIds(s.accepts) + [accept.id])
        == (EndedIds(s.acceptEnded) + AcceptIds(s.accepts)) + [accept.id];
  }

  lemma ParkedRecvHistory(s: Sock, recv: Recv)
    ensures RecvHistory(WithRecv(s, recv)) == RecvHistory(s) + [recv.id]
  {
    assert (s.recvs + [recv])[..|s.recvs|] == s.recvs;
    assert EndedIds(s.recvEnded) + (RecvIds(s.recvs) + [recv.id])
           == (EndedIds(s.recvEnded) + RecvIds(s.recvs)) + [recv.id];
  }

  /** What is left to push of the first parked send. */
  function Remaining(b: AfdSend.Outbox): int { if b.sends == [] then 0 else |b.sends[0].data| - b.sends[0].done }

  /** One pass of the send loop: it leaves a blocked send behind, or uses something up. */
  lemma SendPass(lwip: nat -> AfdSend.LwipErr, start: Sock, s: Sock)
    requires OnlySend(start, s) && s.box.sends != [] && SendsFit(s.box) && s.dial.request.None?
    ensures OnlySend(start, SendLeg(lwip, s)) && SendsFit(SendLeg(lwip, s).box)
    ensures Leaves(s, SendLeg(lwip, s)) ==> Stuck(SendLeg(lwip, s).box)
    ensures !Leaves(s, SendLeg(lwip, s)) ==>
              || |SendLeg(lwip, s).box.sends| < |s.box.sends|
              || (|SendLeg(lwip, s).box.sends| == |s.box.sends| && Remaining(SendLeg(lwip, s).box) < Remaining(s.box))
  {
    var left, end := SendLegShape(lwip, s.box);
  }

  /** The send loop so far. */
  ghost predicate Sending(w: World, start: seq<Sock>, socks: seq<Sock>, i: nat, legs: seq<Leg>) {
    && i < |start| == |socks| && socks == start[i := socks[i]] && OnlySend(start[i], socks[i])
    && Fit(socks[i], |start|) && socks == Run(w, start, legs)
  }

  lemma SendingDone(w: World, start: seq<Sock>, socks: seq<Sock>, i: nat, legs: seq<Leg>)
    requires Sending(w, start, socks, i, legs) && AllFit(start)
    ensures AllFit(socks)
  {
    OnlyOne(start, i, socks[i]);
  }

  lemma SendingMore(w: World, start: seq<Sock>, socks: seq<Sock>, i: nat, legs: seq<Leg>)
    requires Sending(w, start, socks, i, legs) && socks[i].box.sends != []
    ensures var t := SendLeg(w.lwip(i), socks[i]);
            && Sending(w, start, socks[i := t], i, legs + [SendStep(i)])
            && (Leaves(socks[i], t) ==> Stuck(t.box))
            && (!Leaves(socks[i], t) ==>
                 || |t.box.sends| < |socks[i].box.sends|
                 || (|t.box.sends| == |socks[i].box.sends| && Remaining(t.box) < Remaining(socks[i].box)))
  {
    SendPass(w.lwip(i), start[i], socks[i]);
    RunSnoc(w, start, legs, SendStep(i));
    var t := SendLeg(w.lwip(i), socks[i]);
    assert start[i := socks[i]][i := t] == start[i := t];
  }

  lemma DrainedTwoSides(start: seq<Sock>, i: nat, after: seq<Sock>)
    requires i < |start| == |after| && after == start[i := after[i]]
    requires RecvDry(after[i]) && SendDry(after[i])
    requires after[i].accepts == start[i].accepts && after[i].acceptQueue == start[i].acceptQueue
    ensures AllStayDry(start, after) && Unclaimed(after) == Unclaimed(start)
  {
    UnclaimedUpdate(start, i, after[i]);
  }

  /** What the receive loop answered, the rest of the pass leaves alone. */
  lemma AnswersStay(w: World, s: Sock, received: seq<Sock>, more: seq<Leg>, i: nat)
    requires i < |received|
    ensures i < |Run(w, received, more)|
    ensures AnswersAll(s, received[i]) ==> AnswersAll(s, Run(w, received, more)[i])
  {
    RunMints(w, received, more);
    if received[i].recvs == [] {
      RunNoRecvs(w, received, more, i);
    }
  }

  lemma SlotsSnoc(socks: seq<Sock>, entries: seq<Entry>, k: nat)
    requires k < |entries|
    ensures InlineSlots(socks, entries[..k + 1]) == InlineSlots(socks, entries[..k])
              + if Visible(socks, entries[k]) != {} then [SlotOf(socks, entries[k])] else []
    ensures ParkedSlots(socks, entries[..k + 1]) == ParkedSlots(socks, entries[..k])
              + if Visible(socks, entries[k]) != {} && !Repeated(entries, k) then [SlotOf(socks, entries[k])] else []
  {
    var longer := entries[..k + 1];
    assert longer[..k] == entries[..k];
    assert Repeated(longer, k) <==> Repeated(entries, k) by {
      assert forall m :: 0 <= m <= k ==> longer[m] == entries[m];
    }
  }

  /** The walk has looked at the first `seen` polls, and stands at index `k` of what is left. */
  ghost predicate Walked(socks: seq<Sock>, b: Board, hit: Poll -> bool, status: Status, report: bool, seen: nat, k: nat,
                         now: Board)
  {
    && seen <= |b.polls| && k <= |now.polls|
    && var done := EndWhere(socks, b.(polls := b.polls[..seen]), hit, status, report);
    && now.polls == done.polls + b.polls[seen..] && k == |done.polls|
    && now.mains == done.mains && now.ended == done.ended
  }

  lemma NextOf<T>(now: seq<T>, kept: seq<T>, all: seq<T>, seen: nat)
    requires seen <= |all| && now == kept + all[seen..] && |kept| < |now|
    ensures seen < |all| && now[|kept|] == all[seen] && all[..seen + 1] == all[..seen] + [all[seen]]
    ensures now[..|kept|] == kept && now[|kept| + 1..] == all[seen + 1..]
    ensures now == (kept + [all[seen]]) + all[seen + 1..]
  {
  }

  lemma WalkMiss(socks: seq<Sock>, b: Board, hit: Poll -> bool, status: Status, report: bool, seen: nat, k: nat,
                 now: Board)
    requires k < |now.polls| && Walked(socks, b, hit, status, report, seen, k, now) && !hit(now.polls[k])
    ensures Walked(socks, b, hit, status, report, seen + 1, k + 1, now)
  {
    var front, kept := b.polls[..seen], Filter(Misses(hit), b.polls[..seen]);
    NextOf(now.polls, kept, b.polls, seen);
    var p := b.polls[seen];
    FilterSnoc(hit, front, p);
    FilterSnoc(Misses(hit), front, p);
    assert Filter(Misses(hit), front + [p]) == kept + [p];
  }

  lemma WalkHit(socks: seq<Sock>, b: Board, hit: Poll -> bool, status: Status, report: bool, seen: nat, k: nat,
                now: Board)
    requires k < |now.polls| && Walked(socks, b, hit, status, report, seen, k, now) && hit(now.polls[k])
    ensures Walked(socks, b, hit, status, report, seen + 1, k, EndOne(socks, now, k, status, report))
  {
    NextOf(now.polls, Filter(Misses(hit), b.polls[..seen]), b.polls, seen);
    var p, front := b.polls[seen], b.polls[..seen];
    FilterSnoc(hit, front, p);
    FilterSnoc(Misses(hit), front, p);
    EndsSnoc(socks, b.ended, Filter(hit, front), p, status, report);
    ClearMainsSnoc(b.mains, Filter(hit, front), p);
  }

  lemma EndsSnoc(socks: seq<Sock>, ended: seq<PollEnd>, gone: seq<Poll>, p: Poll, status: Status, report: bool)
    ensures ended + Ends(socks, gone + [p], status, report)
         == (ended + Ends(socks, gone, status, report)) + [EndOf(socks, p, status, report)]
  {
    assert (gone + [p])[..|gone|] == gone;
  }

  lemma ClearMainsSnoc(mains: map<nat, nat>, gone: seq<Poll>, p: Poll)
    ensures ClearMains(mains, gone + [p]) == ClearMain(ClearMains(mains, gone), p)
  {
    assert (gone + [p])[..|gone|] == gone;
  }

  lemma WalkDone(socks: seq<Sock>, b: Board, hit: Poll -> bool, status: Status, report: bool, seen: nat, k: nat,
                 now: Board)
    requires k == |now.polls| && Walked(socks, b, hit, status, report, seen, k, now)
    ensures now == EndWhere(socks, b, hit, status, report)
  {
    assert b.polls[..|b.polls|] == b.polls;
  }

  class Afd {
    const world: World
    const engine: Engine
    var socks: seq<Sock>
    var polls: seq<Poll>
    var mains: map<nat, nat>
    var pollEnds: seq<PollEnd>
    var syncWait: set<nat>

    ghost function View(): Board
      reads this
    {
      Board(polls, mains, pollEnds)
    }

    /** Between any two verbs and callbacks: no socket has a receive parked that could be satisfied or an accept that
        could be matched, no socket is connecting and sending at once, mains are anchored, and every parked poll was
        issued on a file that is still open. */
    ghost predicate Steady()
      reads this
    {
      AllFit(socks) && AllDry(socks) && Anchored(View()) && PollsFit(socks, polls)
    }

    constructor (world: World, engine: Engine, socks: seq<Sock>)
      ensures this.world == world && this.engine == engine && this.socks == socks
      ensures View() == Board([], map[], []) && Anchored(View())
    {
      this.world, this.engine, this.socks := world, engine, socks;
      polls, mains, pollEnds, syncWait := [], map[], [], {};
    }

    // -------------------------------------------------------------- readiness

    method DrainRecvs(i: nat) returns (ghost legs: seq<Leg>)
      requires i < |socks| && AllFit(socks)
      modifies this`socks
      ensures |socks| == old(|socks|) && socks == old(socks)[i := socks[i]] && OnlyRecv(old(socks[i]), socks[i])
      ensures AllFit(socks) && RecvDry(socks[i]) && socks[i] == Ready(old(socks[i]))
      ensures socks == Run(world, old(socks), legs)
    {
      ghost var start := socks;
      legs := [];
      while socks[i].recvs != [] && Satisfiable(socks[i])
        invariant |socks| == |start| && socks == start[i := socks[i]] && OnlyRecv(start[i], socks[i])
        invariant Ready(start[i]) == Ready(socks[i])
        invariant socks == Run(world, start, legs)
        decreases |socks[i].recvs|
      {
        ghost var k := RecvLegShape(socks[i]);
        RunSnoc(world, start, legs, RecvStep(i));
        socks := socks[i := RecvLeg(socks[i])];
        legs := legs + [RecvStep(i)];
      }
      OnlyOne(start, i, socks[i]);
    }

    method DrainSends(i: nat) returns (ghost legs: seq<Leg>)
      requires i < |socks| && AllFit(socks)
      modifies this`socks
      ensures |socks| == old(|socks|) && socks == old(socks)[i := socks[i]] && OnlySend(old(socks[i]), socks[i])
      ensures AllFit(socks) && SendDry(socks[i])
      ensures socks == Run(world, old(socks), legs)
    {
      ghost var start := socks;
      legs := [];
      while socks[i].box.sends != []
        invariant Sending(world, start, socks, i, legs)
        decreases |socks[i].box.sends|, Remaining(socks[i].box)
      {
        var before := socks[i];
        SendingMore(world, start, socks, i, legs);
        socks := socks[i := SendLeg(world.lwip(i), before)];
        legs := legs + [SendStep(i)];
        if Leaves(before, socks[i]) {
          break; // the window is still full; the next edge retries
        }
      }
      SendingDone(world, start, socks, i, legs);
    }

    /** AfdCompleteAcceptLocked on the first parked accept. */
    method CompleteAccept(l: nat) returns (ghost legs: seq<Leg>)
      requires l < |socks| && AllFit(socks) && socks[l].accepts != [] && socks[l].acceptQueue != []
      requires Anchored(View())
      modifies this
      ensures AllFit(socks) && AllStayDry(old(socks), socks) && Unclaimed(socks) < Unclaimed(old(socks))
      ensures |socks[l].accepts| < |old(socks[l].accepts)|
      ensures socks == Run(world, old(socks), legs)
      ensures Anchored(View()) && forall p :: p in polls ==> p in old(polls)
      decreases Unclaimed(socks), 0
    {
      var accept := socks[l].accepts[0];
      AcceptLegFits(world.mint, socks, l);
      AcceptLegUnclaimed(world.mint, socks, l, 0);
      ghost var start := socks;
      RunSnoc(world, start, [], AcceptStep(l));
      LegAccepts(world, start, AcceptStep(l), l);
      socks := AcceptLeg(world.mint, socks, l, 0);
      legs := [AcceptStep(l)];
      if accept.into.Some? {
        ghost var more := SocketReady(accept.into.value);
        RunAccepts(world, AcceptLeg(world.mint, start, l, 0), more, l);
        RunConcat(world, start, legs, more);
        legs := legs + more;
        GraftThenReady(world.mint, start, l, socks);
      } else {
        MintStaysDry(world.mint, start, l);
      }
    }

    /** The drain's third loop. */
    method DrainAccepts(i: nat) returns (ghost legs: seq<Leg>)
      requires i < |socks| && AllFit(socks) && Anchored(View()) && RecvDry(socks[i]) && SendDry(socks[i])
      modifies this
      ensures AllFit(socks) && AllStayDry(old(socks), socks) && Drained(socks[i])
      ensures Unclaimed(socks) <= Unclaimed(old(socks))
      ensures socks == Run(world, old(socks), legs)
      ensures Anchored(View()) && forall p :: p in polls ==> p in old(polls)
      decreases Unclaimed(socks), 1
    {
      ghost var start := socks;
      legs := [];
      while socks[i].accepts != [] && socks[i].acceptQueue != []
        invariant i < |socks| && AllFit(socks) && AllStayDry(start, socks) && RecvDry(socks[i]) && SendDry(socks[i])
        invariant Unclaimed(socks) <= Unclaimed(start)
        invariant socks == Run(world, start, legs)
        invariant Anchored(View()) && forall p :: p in polls ==> p in old(polls)
        decreases Unclaimed(socks)
      {
        ghost var mid := socks;
        ghost var more := CompleteAccept(i);
        RunConcat(world, start, legs, more);
        legs := legs + more;
        StaysDryChain(start, mid, socks);
      }
    }

    /** The drain's first two loops. */
    method DrainData(i: nat) returns (ghost legs: seq<Leg>)
      requires i < |socks| && AllFit(socks)
      modifies this`socks
      ensures |socks| == old(|socks|) && AllFit(socks) && RecvDry(socks[i]) && SendDry(socks[i])
      ensures AllStayDry(old(socks), socks) && Unclaimed(socks) == Unclaimed(old(socks))
      ensures socks == Run(world, old(socks), legs)
      ensures Closing(old(socks[i])) ==> AnswersAll(old(socks[i]), socks[i])
    {
      ghost var start := socks;
      legs := DrainRecvs(i);
      if Closing(start[i]) {
        ClosedAnswersAll(start[i]);
      }
      ghost var mid := socks;
      ghost var more := DrainSends(i);
      RunConcat(world, start, legs, more);
      AnswersStay(world, start[i], mid, more, i);
      legs := legs + more;
      DrainedTwoSides(start, i, socks);
    }

    /** AfdSocketReady: it ends, through any chain of grafts; the socket is left with no receive it could satisfy, no
        accept it could match and no send that could progress, no other socket is less drained than before, and no
        parked poll is ready. What it did to the sockets is a run of legs; a stream that is closed, lost or dead answers
        all its receives. */
    method SocketReady(i: nat) returns (ghost legs: seq<Leg>)
      requires i < |socks| && AllFit(socks) && Anchored(View())
      modifies this
      ensures AllFit(socks) && AllStayDry(old(socks), socks) && Drained(socks[i])
      ensures AllDryBut(old(socks), i) ==> AllDry(socks)
      ensures Unclaimed(socks) <= Unclaimed(old(socks))
      ensures socks == Run(world, old(socks), legs)
      ensures Anchored(View()) && forall p :: p in polls ==> p in old(polls) && !AnyReady(socks, p.entries)
      ensures i in syncWait
      ensures Closing(old(socks[i])) ==> AnswersAll(old(socks[i]), socks[i])
      decreases Unclaimed(socks), 2
    {
      ghost var start := socks;
      legs := DrainData(i);
      ghost var mid := socks;
      ghost var more := DrainAccepts(i);
      RunConcat(world, start, legs, more);
      StaysDryChain(start, mid, socks);
      AnswersStay(world, start[i], mid, more, i);
      legs := legs + more;
      ReadyMakesDry(world, start, legs, i);
      EvaluatePolls();
      syncWait := syncWait + {i};
    }

    // -------------------------------------------------------------- lwIP's callbacks

    /** Every callback ends this way: the socket's new state, then a readiness pass over it. */
    method Edge(i: nat, t: Sock) returns (ghost legs: seq<Leg>)
      requires Steady() && i < |socks| && Fit(t, |socks|) && SameHandle(socks[i], t)
      modifies this
      ensures Steady() && i < |socks| && Drained(socks[i]) && forall p :: p in polls ==> !AnyReady(socks, p.entries)
      ensures socks == Run(world, old(socks)[i := t], legs)
      ensures Closing(t) ==> AnswersAll(t, socks[i])
      ensures AllPaid(old(socks)[i := t]) && GraftsFit(world, old(socks)[i := t], legs) ==> AllPaid(socks)
    {
      OnlyOne(socks, i, t);
      OneSameHandle(socks, i, t, polls, polls);
      socks := socks[i := t];
      ghost var start, all := socks, polls;
      legs := SocketReady(i);
      RunPollsFit(world, start, legs, all, polls);
      if AllPaid(start) && GraftsFit(world, start, legs) {
        RunKeepsPaid(world, start, legs);
      }
    }

    /** A callback on a connection still queued on its listener: the shell has nothing parked, so its readiness pass
        comes down to the polls. */
    method ShellEdge(l: nat, q: nat, event: ShellEvent)
      requires Steady() && l < |socks| && q < |socks[l].acceptQueue|
      modifies this`socks, this`polls, this`mains, this`pollEnds
      ensures Steady() && forall p :: p in polls ==> !AnyReady(socks, p.entries)
      ensures var queue := old(socks[l].acceptQueue);
              socks == old(socks)[l := old(socks[l]).(acceptQueue := queue[q := OnShell(queue[q], event)])]
    {
      var t := socks[l].(acceptQueue := socks[l].acceptQueue[q := OnShell(socks[l].acceptQueue[q], event)]);
      OnlyOne(socks, l, t);
      OneSameHandle(socks, l, t, polls, polls);
      socks := socks[l := t];
      ghost var all := polls;
      EvaluatePolls();
      PollsStayFit(socks, socks, all, polls);
    }

    /** AfdTcpRecvCallback: data, or the peer's FIN, after which no receive of a stream waits. */
    method TcpRecv(i: nat, p: Option<seq<seq<byte>>>) returns (ghost legs: seq<Leg>)
      requires Steady() && i < |socks|
      modifies this
      ensures Steady() && i < |socks| && Drained(socks[i]) && forall p :: p in polls ==> !AnyReady(socks, p.entries)
      ensures var s := old(socks[i]);
              var t := if p.None? then OnFin(s) else OnData(s, AfdStream.Flatten(p.value));
              socks == Run(world, old(socks)[i := t], legs)
      ensures p.None? && !old(socks[i]).datagram ==> AnswersAll(old(socks[i]), socks[i])
    {
      var before := socks[i];
      legs := Edge(i, if p.None? then OnFin(before) else OnData(before, AfdStream.Flatten(p.value)));
    }

    /** AfdTcpSentCallback. */
    method TcpSent(i: nat, room: nat) returns (ghost legs: seq<Leg>)
      requires Steady() && i < |socks|
      modifies this
      ensures Steady() && i < |socks| && Drained(socks[i]) && forall p :: p in polls ==> !AnyReady(socks, p.entries)
      ensures socks == Run(world, old(socks)[i := OnSent(old(socks[i]), room)], legs)
    {
      legs := Edge(i, OnSent(socks[i], room));
    }

    /** AfdTcpErrCallback. */
    method TcpError(i: nat, err: AfdSend.LwipErr) returns (ghost legs: seq<Leg>)
      requires Steady() && i < |socks|
      modifies this
      ensures Steady() && i < |socks| && Drained(socks[i]) && forall p :: p in polls ==> !AnyReady(socks, p.entries)
      ensures socks == Run(world, old(socks)[i := OnError(old(socks[i]), err)], legs)
    {
      legs := Edge(i, OnError(socks[i], err));
    }

    /** AfdTcpConnectedCallback. */
    method TcpConnected(i: nat) returns (ghost legs: seq<Leg>)
      requires Steady() && i < |socks|
      modifies this
      ensures Steady() && i < |socks| && Drained(socks[i]) && forall p :: p in polls ==> !AnyReady(socks, p.entries)
      ensures socks == Run(world, old(socks)[i := OnConnected(old(socks[i]))], legs)
    {
      legs := Edge(i, OnConnected(socks[i]));
    }

    /** AfdTcpAcceptCallback, once its shell is allocated. */
    method TcpAccept(l: nat, shell: Shell) returns (ghost legs: seq<Leg>)
      requires Steady() && l < |socks|
      modifies this
      ensures Steady() && l < |socks| && Drained(socks[l]) && forall p :: p in polls ==> !AnyReady(socks, p.entries)
      ensures socks == Run(world, old(socks)[l := OnInbound(old(socks[l]), shell)], legs)
    {
      legs := Edge(l, OnInbound(socks[l], shell));
    }

    /** AfdUdpRecvCallback, once its copy is allocated: a dropped datagram raises no edge. */
    method UdpRecv(i: nat, data: seq<byte>) returns (ghost legs: seq<Leg>)
      requires Steady() && i < |socks|
      modifies this
      ensures Steady()
      ensures socks == Run(world, old(socks)[i := OnDatagram(old(socks[i]), data)], legs)
    {
      if QueuedBytes(socks[i].datagrams) + |data| > AFD_DGRAM_CAPACITY {
        assert socks[i := socks[i]] == socks;
        return [];
      }
      legs := Edge(i, OnDatagram(socks[i], data));
    }

    // -------------------------------------------------------------- polls

    /** The search for an earlier entry with the same socket. */
    method FindDuplicate(entries: seq<Entry>, k: nat) returns (duplicate: bool)
      requires k < |entries|
      ensures duplicate == Repeated(entries, k)
    {
      duplicate := false;
      var j := 0;
      while j < k && !duplicate
        invariant 0 <= j <= k
        invariant duplicate <==> exists m :: 0 <= m < j && entries[m].sock == entries[k].sock
      {
        duplicate := entries[j].sock == entries[k].sock;
        j := j + 1;
      }
    }

    /** AfdCompletePoll's report: one slot per visible socket, duplicates skipped. */
    method ReportParked(entries: seq<Entry>) returns (slots: seq<Slot>)
      ensures slots == ParkedSlots(socks, entries)
    {
      slots := [];
      var k := 0;
      while k < |entries|
        invariant 0 <= k <= |entries|
        invariant slots == ParkedSlots(socks, entries[..k])
      {
        var duplicate := FindDuplicate(entries, k);
        if Visible(socks, entries[k]) != {} && !duplicate {
          slots := slots + [SlotOf(socks, entries[k])];
        }
        SlotsSnoc(socks, entries, k);
        k := k + 1;
      }
      assert entries[..|entries|] == entries;
    }

    /** AfdPoll's inline report. */
    method ReportInline(entries: seq<Entry>) returns (slots: seq<Slot>)
      ensures slots == InlineSlots(socks, entries)
    {
      slots := [];
      var k := 0;
      while k < |entries|
        invariant 0 <= k <= |entries|
        invariant slots == InlineSlots(socks, entries[..k])
      {
        if Visible(socks, entries[k]) != {} {
          slots := slots + [SlotOf(socks, entries[k])];
        }
        SlotsSnoc(socks, entries, k);
        k := k + 1;
      }
      assert entries[..|entries|] == entries;
    }

    /** AfdCompletePoll on the k-th parked poll. */
    method CompletePoll(k: nat, status: Status, report: bool)
      requires k < |polls|
      modifies this`polls, this`mains, this`pollEnds
      ensures View() == EndOne(socks, old(View()), k, status, report)
    {
      var poll := polls[k];
      polls := polls[..k] + polls[k + 1..];
      mains := ClearMain(mains, poll);
      if !NtSuccess(status) && status != STATUS_TIMEOUT {
        pollEnds := pollEnds + [PollEnd(poll.id, status, None)];
      } else {
        var slots: seq<Slot> := [];
        if report {
          slots := ReportParked(poll.entries);
        }
        pollEnds := pollEnds + [PollEnd(poll.id, status, Some(slots))];
      }
    }

    /** One turn of the walk below: a hit is unlinked, any other poll stepped over. */
    method VisitPoll(hit: Poll -> bool, status: Status, report: bool, ghost board: Board, ghost seen: nat, k: nat)
      returns (next: nat)
      requires k < |polls| && Walked(socks, board, hit, status, report, seen, k, View())
      modifies this`polls, this`mains, this`pollEnds
      ensures Walked(socks, board, hit, status, report, seen + 1, next, View()) && |polls| - next < |old(polls)| - k
    {
      if hit(polls[k]) {
        WalkHit(socks, board, hit, status, report, seen, k, View());
        CompletePoll(k, status, report);
        next := k;
      } else {
        WalkMiss(socks, board, hit, status, report, seen, k, View());
        next := k + 1;
      }
    }

    /** The walk over AfdPollList that evaluation, the tick, displacement and the sweep share. */
    method EndPolls(hit: Poll -> bool, status: Status, report: bool)
      modifies this`polls, this`mains, this`pollEnds
      ensures View() == EndWhere(socks, old(View()), hit, status, report)
    {
      ghost var board, seen := View(), 0;
      var k: nat := 0;
      while k < |polls|
        invariant Walked(socks, board, hit, status, report, seen, k, View())
        decreases |polls| - k
      {
        k := VisitPoll(hit, status, report, board, seen, k);
        seen := seen + 1;
      }
      WalkDone(socks, board, hit, status, report, seen, k, View());
    }

    method EvaluatePolls()
      modifies this`polls, this`mains, this`pollEnds
      ensures View() == Evaluate(socks, old(View()))
      ensures forall p :: p in polls <==> p in old(polls) && !AnyReady(socks, p.entries)
      ensures Anchored(old(View())) ==> Anchored(View())
    {
      EvaluateEndsReady(socks, View());
      if Anchored(View()) {
        EndWhereKeepsAnchors(socks, View(), IsReady(socks), STATUS_SUCCESS, true);
      }
      EndPolls(IsReady(socks), STATUS_SUCCESS, true);
    }

    /** AfdPoll, once its entries are resolved. */
    method Ask(request: Poll, now: int, prepared: Status) returns (answer: Answer)
      requires Steady() && LiveFile(socks, request.file) && request.timeout <= INFINITE
      requires forall p :: p in polls ==> p.id != request.id
      modifies this`polls, this`mains, this`pollEnds
      ensures (View(), answer) == PollVerb(socks, old(View()), request, now, prepared)
      ensures Steady()
    {
      AskedPollsFit(socks, View(), request, now, prepared);
      BecomesMainExactly(socks, View(), request, now, prepared);
      if request.entries == [] || |request.entries| > 64 {
        return Refused(STATUS_INVALID_PARAMETER);
      }
      var slots := ReportInline(request.entries);
      if slots != [] || request.timeout == 0 {
        return Inline(slots);
      }
      DisplaceMain(request);
      if !NtSuccess(prepared) {
        return Refused(prepared);
      }
      ParkPoll(request.(deadline := Deadline(request.timeout, now)));
      answer := Parked;
    }

    /** An exclusive poll ends its anchor's exclusive main. */
    method DisplaceMain(request: Poll)
      requires request.entries != []
      modifies this`polls, this`mains, this`pollEnds
      ensures View() == Displace(socks, old(View()), request)
    {
      var anchor := request.entries[0].sock;
      if request.exclusive && anchor in mains && exists p :: p in polls && p.id == mains[anchor] && p.exclusive {
        EndPolls(Numbered(mains[anchor]), STATUS_SUCCESS, false);
      }
    }

    method ParkPoll(request: Poll)
      requires request.entries != []
      modifies this`polls, this`mains
      ensures View() == Park(old(View()), request)
    {
      var anchor := request.entries[0].sock;
      polls := polls + [request];
      if anchor !in mains {
        mains := mains[anchor := request.id];
      }
    }

    /** AfdNextPollDelayMs. */
    method NextDelay(now: int) returns (delay: nat)
      requires Longs(polls)
      ensures delay == NextDelayMs(polls, now)
    {
      var nearest, k := INFINITE, 0;
      while k < |polls|
        invariant 0 <= k <= |polls| && nearest == Nearest(polls[..k])
      {
        assert polls[..k + 1][..k] == polls[..k];
        if polls[k].deadline < nearest {
          nearest := polls[k].deadline;
        }
        k := k + 1;
      }
      assert polls[..|polls|] == polls;
      NearestIsLeast(polls);
      if nearest == INFINITE {
        return 0xffff_ffff;
      }
      if nearest <= now {
        return 0;
      }
      var ms := (nearest - now) / 10000;
      delay := if ms >= 0xffff_ffff then 0xffff_fffe else ms + 1;
    }

    /** AfdPollTick. */
    method PollTick(now: int)
      modifies this`polls, this`mains, this`pollEnds
      ensures View() == Tick(socks, old(View()), now)
      ensures old(Steady()) ==> Steady()
    {
      if Steady() {
        EndWhereKeepsAnchors(socks, View(), IsDue(now), STATUS_TIMEOUT, false);
        FilterMembers(Misses(IsDue(now)), polls);
        PollsStayFit(socks, socks, polls, Filter(Misses(IsDue(now)), polls));
      }
      EndPolls(IsDue(now), STATUS_TIMEOUT, false);
    }

    // -------------------------------------------------------------- the accept verb

    /** AfdAccept's tail: park, and complete at once if a connection waits. It completes the request it just parked,
        which is the oldest one because a drained listener never has both accepts and connections waiting. */
    method AcceptVerb(l: nat, accept: Accept)
      requires l < |socks| && Steady() && (accept.into.Some? ==> accept.into.value < |socks|)
      modifies this
      ensures Steady() && l < |socks|
      ensures old(socks[l].acceptQueue) == [] ==>
                socks == old(socks)[l := old(socks[l]).(accepts := old(socks[l].accepts) + [accept])]
      ensures old(socks[l].acceptQueue) != [] ==>
                socks[l].accepts == [] && EndedIds(socks[l].acceptEnded) == AcceptHistory(old(socks[l])) + [accept.id]
    {
      var parked := socks[l].(accepts := socks[l].accepts + [accept]);
      OnlyOne(socks, l, parked);
      OneSameHandle(socks, l, parked, polls, polls);
      ParkedHistory(socks[l], accept);
      socks := socks[l := parked];
      if parked.acceptQueue != [] {
        assert parked.accepts == [accept];
        ghost var before, all := socks, polls;
        ghost var legs := CompleteAccept(l);
        RunHistory(world, before, legs, l);
        RunPollsFit(world, before, legs, all, polls);
        RunStaysDry(world, before, legs, l);
        assert StaysDry(before[l], socks[l]);
      }
    }

    // -------------------------------------------------------------- the receive verb

    /** AfdRecvCommon: refuse, answer inline, or park and let a readiness pass complete it. Either way the socket stays
        drained and receives finish in issue order; a peek that is answered takes nothing. */
    method Receive(i: nat, recv: Recv, peek: bool, mayWait: bool, prepared: Status)
      returns (answer: Option<(Status, seq<byte>)>)
      requires i < |socks| && Steady() && !recv.flat
      modifies this
      ensures i < |socks| && Steady()
      ensures RecvRefusal(old(socks[i]), mayWait).Some? ==>
                answer == Some((RecvRefusal(old(socks[i]), mayWait).value, [])) && socks == old(socks)
      ensures RecvRefusal(old(socks[i]), mayWait).None? && RecvInline(old(socks[i]), recv.capacity, peek).Some? ==>
                var (t, status, data) := RecvInline(old(socks[i]), recv.capacity, peek).value;
                answer == Some((status, data)) && socks == old(socks)[i := t]
      ensures answer.None? ==> RecvHistory(socks[i]) == RecvHistory(old(socks[i])) + [recv.id]
      ensures answer.Some? && peek ==> socks == old(socks)[i := socks[i]] && SameData(old(socks[i]), socks[i])
    {
      var refusal := RecvRefusal(socks[i], mayWait);
      if refusal.Some? {
        return Some((refusal.value, []));
      }
      var inline := RecvInline(socks[i], recv.capacity, peek);
      if inline.Some? {
        InlineRecvOvertakesNothing(socks[i], recv.capacity, peek);
        OnlyOne(socks, i, inline.value.0);
        OneSameHandle(socks, i, inline.value.0, polls, polls);
        socks := socks[i := inline.value.0];
        return Some((inline.value.1, inline.value.2));
      }
      if !NtSuccess(prepared) {
        return Some((prepared, []));
      }
      ParkReceive(i, recv);
      return None;
    }

    /** Park a receive; a readiness pass completes it at once if it can be. */
    method ParkReceive(i: nat, recv: Recv)
      requires i < |socks| && Steady()
      modifies this
      ensures i < |socks| && Steady() && RecvHistory(socks[i]) == RecvHistory(old(socks[i])) + [recv.id]
    {
      var parked := WithRecv(socks[i], recv);
      OnlyOne(socks, i, parked);
      OneSameHandle(socks, i, parked, polls, polls);
      ParkedRecvHistory(socks[i], recv);
      socks := socks[i := parked];
      if Satisfiable(parked) {
        ghost var before, all := socks, polls;
        ghost var legs := SocketReady(i);
        RunHistory(world, before, legs, i);
        RunPollsFit(world, before, legs, all, polls);
      }
    }

    // -------------------------------------------------------------- the send verb

    /** AfdSendCommon on a stream. The driver stays steady unless the send parks beside an outstanding connect, which
        only a graft onto a connecting acceptor makes possible; AfdSpin says what its readiness passes then do. */
    method Send(i: nat, id: nat, data: seq<byte>, prepared: Status)
      requires i < |socks| && Steady()
      modifies this`socks
      ensures var s := old(socks[i]);
              socks == old(socks)[i := s.(box := AfdSend.Issue(world.lwip(i), s.box, id, data, prepared))]
      ensures Steady() <==> socks[i].dial.request.None? || socks[i].box.sends == []
    {
      var t := socks[i].(box := AfdSend.Issue(world.lwip(i), socks[i].box, id, data, prepared));
      IssueFitsExactly(world.lwip(i), socks[i], id, data, prepared, |socks|);
      if Fit(t, |socks|) {
        OnlyOne(socks, i, t);
      }
      OneSameHandle(socks, i, t, polls, polls);
      socks := socks[i := t];
    }

    // -------------------------------------------------------------- open, connect

    /** AfdVfsCreate, and with it the socket verb that names its type. */
    method Open(file: nat, datagram: bool) returns (i: nat)
      requires Steady()
      modifies this`socks
      ensures Steady() && i == |old(socks)| && LiveFile(socks, file)
      ensures socks == old(socks) + [Opened(file, datagram)]
    {
      i := |socks|;
      ghost var start := socks;
      socks := socks + [Opened(file, datagram)];
      forall j | 0 <= j < |start| ensures Fit(socks[j], |socks|) && Dry(socks[j]) {
        assert Fit(start[j], |start|) && Dry(start[j]);
      }
      PollsStayFit(start, socks, polls, polls);
      assert socks[i].listed && !socks[i].box.dead && socks[i].file == file;
    }

    /** AfdConnect. */
    method ConnectVerb(i: nat, id: nat, resolved: Status, prepared: Status, err: AfdSend.LwipErr)
      returns (status: Status)
      requires i < |socks| && Steady()
      modifies this`socks
      ensures Steady()
      ensures var (t, expected) := Connect(old(socks[i]), id, resolved, prepared, err);
              socks == old(socks)[i := t] && status == expected
    {
      ConnectParksAlone(socks[i], id, resolved, prepared, err, |socks|);
      ghost var expected := Connect(socks[i], id, resolved, prepared, err).0;
      OnlyOne(socks, i, expected);
      OneSameHandle(socks, i, expected, polls, polls);
      var t;
      t, status := StartConnect(socks[i], id, resolved, prepared, err);
      socks := socks[i := t];
    }

    /** The verb's branches and flag updates. */
    method StartConnect(s: Sock, id: nat, resolved: Status, prepared: Status, err: AfdSend.LwipErr)
      returns (t: Sock, status: Status)
      ensures (t, status) == Connect(s, id, resolved, prepared, err)
    {
      t := s;
      if s.datagram {
        if !NtSuccess(resolved) {
          return t, resolved;
        }
        if err != AfdSend.ErrOk {
          return t, AfdSend.StatusFromLwip(err);
        }
        t := t.(box := t.box.(connected := true), dial := t.dial.(viaConnect := true));
        return t, STATUS_SUCCESS;
      }
      if s.dial.connecting || (s.box.connected && s.dial.viaConnect) {
        return t, STATUS_CONNECTION_ACTIVE;
      }
      if s.box.connected {
        return t, STATUS_SUCCESS;
      }
      if !NtSuccess(resolved) {
        return t, resolved;
      }
      if !s.box.nonBlocking {
        if !NtSuccess(prepared) {
          return t, prepared;
        }
        t := t.(dial := t.dial.(request := Some(id)));
      }
      t := t.(dial := t.dial.(connecting := true, viaConnect := true), box := t.box.(soError := 0));
      if err == AfdSend.ErrOk {
        status := if s.box.nonBlocking then STATUS_DEVICE_NOT_READY else STATUS_PENDING;
        return;
      }
      t := t.(dial := t.dial.(connecting := false));
      if s.box.nonBlocking {
        return t, AfdSend.StatusFromLwip(err);
      }
      t := t.(dial := EndDial(t.dial, AfdSend.StatusFromLwip(err)));
      return t, STATUS_PENDING;
    }

    // -------------------------------------------------------------- cancel and close

    /** AfdSweepRequests. */
    method Sweep(i: nat, filter: CancelFilter, status: Status) returns (cancelled: nat)
      requires i < |socks|
      modifies this`socks, this`polls, this`mains, this`pollEnds
      ensures socks == old(socks)[i := SweepSock(engine, filter, status, old(socks[i]))]
      ensures View() == SweepBoard(engine, filter, status, old(socks), old(View()), i)
      ensures cancelled == SweepCount(engine, filter, old(socks[i]), old(polls))
      ensures old(Steady()) ==> Steady()
    {
      if Steady() {
        SweptStaysSteady(engine, filter, status, socks, View(), i);
      }
      var s, own := SweepOwn(socks[i], filter, status);
      var issued := SweepIssued(socks[i].file, filter, status);
      socks := socks[i := s];
      cancelled := own + issued;
    }

    /** The sweep's three lists and the connect slot. */
    method SweepOwn(s: Sock, filter: CancelFilter, status: Status) returns (t: Sock, cancelled: nat)
      ensures t == SweepSock(engine, filter, status, s)
      ensures cancelled == SweepCount(engine, filter, s, [])
    {
      var recvs, goneRecvs := Unlink(RecvHit(engine, filter), RecvMiss(engine, filter), s.recvs);
      t := s.(recvs := recvs, recvEnded := s.recvEnded + CancelledRecvs(goneRecvs, status));
      var sends, goneSends := Unlink(SendHit(engine, filter), SendMiss(engine, filter), s.box.sends);
      t := t.(box := t.box.(sends := sends, ended := t.box.ended + CancelledSends(goneSends, status)));
      var accepts, goneAccepts := Unlink(AcceptHit(engine, filter), AcceptMiss(engine, filter), s.accepts);
      t := t.(accepts := accepts, acceptEnded := s.acceptEnded + CancelledAccepts(goneAccepts, status));
      cancelled := |goneRecvs| + |goneSends| + |goneAccepts|;
      if s.dial.request.Some? && Matches(engine(s.dial.request.value), filter) {
        t := t.(dial := EndDial(s.dial, status));
        cancelled := cancelled + 1;
      }
    }

    /** The sweep's walk over the polls issued on the file. */
    method SweepIssued(file: nat, filter: CancelFilter, status: Status) returns (cancelled: nat)
      modifies this`polls, this`mains, this`pollEnds
      ensures View() == EndWhere(socks, old(View()), PollHit(engine, filter, file), status, false)
      ensures cancelled == |Filter(PollHit(engine, filter, file), old(polls))|
    {
      ghost var hit := PollHit(engine, filter, file);
      Partition(hit, Misses(hit), polls);
      var before := |polls|;
      EndPolls(PollHit(engine, filter, file), status, false);
      cancelled := before - |polls|;
    }

    /** AfdVfsCleanup, as far as the parked work goes. */
    method Cleanup(i: nat)
      requires i < |socks|
      modifies this`socks, this`polls, this`mains, this`pollEnds
      ensures socks == old(socks)[i := CleanupSock(engine, old(socks[i]))]
      ensures View() == CleanupBoard(engine, old(socks), old(View()), i)
      ensures old(Steady()) ==> Steady()
    {
      if Steady() {
        CleanedStaysSteady(engine, socks, View(), i);
      }
      socks := socks[i := socks[i].(box := socks[i].box.(dead := true))];
      EvaluatePolls();
      var cancelled := Sweep(i, EVERYTHING, STATUS_HANDLES_CLOSED);
      socks := socks[i := Emptied(socks[i])];
    }

    /** One turn of the thread cancel's loop. */
    method SweepListed(filter: CancelFilter, ghost start: seq<Sock>, ghost board: Board, n: nat)
      returns (cancelled: nat)
      requires Sweeping(engine, filter, start, board, n, socks, View()) && n < |socks|
      modifies this`socks, this`polls, this`mains, this`pollEnds
      ensures Sweeping(engine, filter, start, board, n + 1, socks, View())
      ensures old(Steady()) ==> Steady()
    {
      SweepingMore(engine, filter, start, board, n, socks, View());
      cancelled := 0;
      if socks[n].listed {
        cancelled := Sweep(n, filter, STATUS_CANCELLED);
      }
    }

    /** AfdCancelThreadIo. */
    method CancelThreadIo(thread: nat)
      modifies this`socks, this`polls, this`mains, this`pollEnds
      ensures socks == SweptSocks(engine, ByIssuer(thread), STATUS_CANCELLED, old(socks), |old(socks)|)
      ensures View() == SweptBoard(engine, ByIssuer(thread), STATUS_CANCELLED, old(socks), old(View()), |old(socks)|)
      ensures old(Steady()) ==> Steady()
    {
      ghost var start, board, steady := socks, View(), Steady();
      var n := 0;
      while n < |socks|
        invariant Sweeping(engine, ByIssuer(thread), start, board, n, socks, View()) && (steady ==> Steady())
      {
        var cancelled := SweepListed(ByIssuer(thread), start, board, n);
        n := n + 1;
      }
    }

    /** AfdVfsClose: the socket leaves the list once its cleanup has run, with no parked poll issued on its file. */
    method Close(i: nat)
      requires i < |socks| && Steady() && socks[i].box.dead
      modifies this`socks
      ensures Steady() && socks == old(socks)[i := Unlisted(old(socks[i]))]
      ensures !socks[i].listed && socks[i].datagrams == [] && socks[i].intake.buffered == [] && socks[i].box.dead
    {
      ghost var start := socks;
      OnlyOne(socks, i, Unlisted(socks[i]));
      socks := socks[i := Unlisted(socks[i])];
      forall p | p in polls ensures LiveFile(socks, p.file) {
        var j :| 0 <= j < |start| && start[j].listed && !start[j].box.dead && start[j].file == p.file;
        assert socks[j] == start[j];
      }
    }
  }
}
