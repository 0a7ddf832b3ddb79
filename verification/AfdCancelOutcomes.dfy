/**
 Which requests a cancel or a close ends, and with what (drivers/afd.c:2779-2944, 3567-3584; kernel/io/async.c:366-392).
 */
module AfdCancelOutcomes {
  import opened NtKernel
  import opened Lists
  import opened AfdTypes
  import opened AfdPoll
  import opened AfdCancel
  import opened AfdPollOutcomes
  import AfdSend

  /** A filter's zero fields ask for nothing; each other one has to be met. */
  lemma MatchesOutcome(p: Pending, f: CancelFilter)
    ensures Matches(p, f) <==>
              && (f.issuer == 0 || f.issuer == p.issuer)
              && (f.userIosb == 0 || f.userIosb == p.userIosb)
              && (f.owner == 0 || f.owner == p.owner)
              && (f.portBoundApcNoEvent ==> p.portBoundAtIssue && p.apcContext != 0 && p.event == 0)
              && (f.exemptPortBoundApcNoEvent ==> !(p.portBoundAtIssue && p.apcContext != 0 && p.event == 0))
  {
  }

  lemma {:induction false} CancelledInOrder(recvs: seq<Recv>, accepts: seq<Accept>, status: Status)
    ensures |CancelledRecvs(recvs, status)| == |recvs| && |CancelledAccepts(accepts, status)| == |accepts|
    ensures forall k :: 0 <= k < |recvs| ==>
              CancelledRecvs(recvs, status)[k] == Completion(recvs[k].id, status, 0, [])
    ensures forall k :: 0 <= k < |accepts| ==>
              CancelledAccepts(accepts, status)[k] == Completion(accepts[k].id, status, 0, [])
    decreases |recvs| + |accepts|
  {
    if recvs != [] {
      CancelledInOrder(recvs[..|recvs| - 1], accepts, status);
    } else if accepts != [] {
      CancelledInOrder(recvs, accepts[..|accepts| - 1], status);
    }
  }

  lemma {:induction false} CancelledSendsInOrder(sends: seq<AfdSend.Send>, status: Status)
    ensures |CancelledSends(sends, status)| == |sends|
    ensures forall k :: 0 <= k < |sends| ==>
              CancelledSends(sends, status)[k]
              == AfdSend.SendEnd(sends[k].id, status, 0, sends[k].data, sends[k].done, true)
  {
    if sends != [] {
      CancelledSendsInOrder(sends[..|sends| - 1], status);
    }
  }

  /** These requests, and no others, have ended since: in this order, each once, with this status and count 0. */
  ghost predicate EndedWith(before: seq<Completion>, after: seq<Completion>, ids: seq<nat>, status: Status) {
    && |after| == |before| + |ids| && before <= after
    && forall k :: 0 <= k < |ids| ==> after[|before| + k] == Completion(ids[k], status, 0, [])
  }

  ghost predicate SendsEndedWith(before: seq<AfdSend.SendEnd>, after: seq<AfdSend.SendEnd>, gone: seq<AfdSend.Send>,
                                 status: Status) {
    && |after| == |before| + |gone| && before <= after
    && forall k :: 0 <= k < |gone| ==>
         var e := after[|before| + k];
         e.id == gone[k].id && e.status == status && e.information == 0 && e.accepted == gone[k].done
  }

  function MatchedRecvs(e: Engine, f: CancelFilter, q: seq<Recv>): seq<Recv> {
    Filter((r: Recv) => Matches(e(r.id), f), q)
  }

  function MatchedSends(e: Engine, f: CancelFilter, q: seq<AfdSend.Send>): seq<AfdSend.Send> {
    Filter((r: AfdSend.Send) => Matches(e(r.id), f), q)
  }

  function MatchedAccepts(e: Engine, f: CancelFilter, q: seq<Accept>): seq<Accept> {
    Filter((r: Accept) => Matches(e(r.id), f), q)
  }

  function IdsOfRecvs(q: seq<Recv>): seq<nat> { seq(|q|, k requires 0 <= k < |q| => q[k].id) }

  function IdsOfAccepts(q: seq<Accept>): seq<nat> { seq(|q|, k requires 0 <= k < |q| => q[k].id) }

  lemma RecvsEnd(e: Engine, f: CancelFilter, status: Status, before: seq<Completion>, q: seq<Recv>)
    ensures Filter(RecvMiss(e, f), q) == Filter((r: Recv) => !Matches(e(r.id), f), q)
    ensures EndedWith(before, before + CancelledRecvs(Filter(RecvHit(e, f), q), status),
                      IdsOfRecvs(MatchedRecvs(e, f, q)), status)
  {
    FilterSame((r: Recv) => Matches(e(r.id), f), RecvHit(e, f), q);
    FilterSame((r: Recv) => !Matches(e(r.id), f), RecvMiss(e, f), q);
    CancelledInOrder(MatchedRecvs(e, f, q), [], status);
  }

  lemma AcceptsEnd(e: Engine, f: CancelFilter, status: Status, before: seq<Completion>, q: seq<Accept>)
    ensures Filter(AcceptMiss(e, f), q) == Filter((r: Accept) => !Matches(e(r.id), f), q)
    ensures EndedWith(before, before + CancelledAccepts(Filter(AcceptHit(e, f), q), status),
                      IdsOfAccepts(MatchedAccepts(e, f, q)), status)
  {
    FilterSame((r: Accept) => Matches(e(r.id), f), AcceptHit(e, f), q);
    FilterSame((r: Accept) => !Matches(e(r.id), f), AcceptMiss(e, f), q);
    CancelledInOrder([], MatchedAccepts(e, f, q), status);
  }

  lemma SendsEnd(e: Engine, f: CancelFilter, status: Status, before: seq<AfdSend.SendEnd>, q: seq<AfdSend.Send>)
    ensures Filter(SendMiss(e, f), q) == Filter((r: AfdSend.Send) => !Matches(e(r.id), f), q)
    ensures SendsEndedWith(before, before + CancelledSends(Filter(SendHit(e, f), q), status),
                           MatchedSends(e, f, q), status)
  {
    FilterSame((r: AfdSend.Send) => Matches(e(r.id), f), SendHit(e, f), q);
    FilterSame((r: AfdSend.Send) => !Matches(e(r.id), f), SendMiss(e, f), q);
    var gone := MatchedSends(e, f, q);
    CancelledSendsInOrder(gone, status);
    var ended := CancelledSends(gone, status);
    forall k | 0 <= k < |gone| ensures (before + ended)[|before| + k] == ended[k] {
    }
  }

  /** A sweep of a socket ends exactly the matching requests of each list, in list order, each once, with the sweep's
      status and count 0; and so with the connect slot. */
  lemma SweepOutcome(e: Engine, f: CancelFilter, status: Status, s: Sock)
    ensures var t := SweepSock(e, f, status, s);
            && EndedWith(s.recvEnded, t.recvEnded, IdsOfRecvs(MatchedRecvs(e, f, s.recvs)), status)
            && SendsEndedWith(s.box.ended, t.box.ended, MatchedSends(e, f, s.box.sends), status)
            && EndedWith(s.acceptEnded, t.acceptEnded, IdsOfAccepts(MatchedAccepts(e, f, s.accepts)), status)
    ensures var t := SweepSock(e, f, status, s);
            if s.dial.request.Some? && Matches(e(s.dial.request.value), f) then
              && t.dial == s.dial.(request := None, ended := t.dial.ended)
              && EndedWith(s.dial.ended, t.dial.ended, [s.dial.request.value], status)
            else t.dial == s.dial
  {
    RecvsEnd(e, f, status, s.recvEnded, s.recvs);
    SendsEnd(e, f, status, s.box.ended, s.box.sends);
    AcceptsEnd(e, f, status, s.acceptEnded, s.accepts);
  }

  /** The others stay on their lists, in order, and nothing else of the socket changes. */
  lemma SweepKeeps(e: Engine, f: CancelFilter, status: Status, s: Sock)
    ensures var t := SweepSock(e, f, status, s);
            && t.recvs == Filter((r: Recv) => !Matches(e(r.id), f), s.recvs)
            && t.box.sends == Filter((r: AfdSend.Send) => !Matches(e(r.id), f), s.box.sends)
            && t.accepts == Filter((r: Accept) => !Matches(e(r.id), f), s.accepts)
            && t == s.(recvs := t.recvs, recvEnded := t.recvEnded, accepts := t.accepts, acceptEnded := t.acceptEnded,
                       dial := t.dial, box := s.box.(sends := t.box.sends, ended := t.box.ended))
  {
    RecvsEnd(e, f, status, [], s.recvs);
    SendsEnd(e, f, status, [], s.box.sends);
    AcceptsEnd(e, f, status, [], s.accepts);
  }

  /** The polls a sweep ends: those issued on the file that match, in list order, with no report. */
  lemma SweptPollsOutcome(e: Engine, f: CancelFilter, status: Status, socks: seq<Sock>, b: Board, i: nat)
    requires i < |socks| && status < 0
    ensures var c := SweepBoard(e, f, status, socks, b, i);
            var due := Filter((p: Poll) => p.file == socks[i].file && Matches(e(p.id), f), b.polls);
            && c.polls == Filter((p: Poll) => !(p.file == socks[i].file && Matches(e(p.id), f)), b.polls)
            && |c.ended| == |b.ended| + |due| && b.ended <= c.ended
            && (forall k :: 0 <= k < |due| ==> c.ended[|b.ended| + k] == PollEnd(due[k].id, status, None))
  {
    var hit := PollHit(e, f, socks[i].file);
    FilterSame((p: Poll) => p.file == socks[i].file && Matches(e(p.id), f), hit, b.polls);
    FilterSame((p: Poll) => !(p.file == socks[i].file && Matches(e(p.id), f)), Misses(hit), b.polls);
    EndsOutcome(socks, b, hit, status, false);
  }

  ghost predicate WasParked(e: Engine, f: CancelFilter, polls: seq<Poll>, id: nat) {
    exists p :: p in polls && p.id == id && Matches(e(p.id), f)
  }

  /** The polls that ended since were parked before, match the filter, and got this status and no report. */
  ghost predicate PollsEndedWith(e: Engine, f: CancelFilter, status: Status, b: Board, c: Board) {
    && b.ended <= c.ended && |c.ended| + |c.polls| == |b.ended| + |b.polls|
    && forall k :: |b.ended| <= k < |c.ended| ==>
         && c.ended[k].status == status && c.ended[k].report == None
         && WasParked(e, f, b.polls, c.ended[k].id)
  }

  lemma {:induction false} FilterSplits<T>(keep: T -> bool, drop: T -> bool, s: seq<T>)
    requires forall x :: x in s ==> (drop(x) <==> !keep(x))
    ensures |Filter(keep, s)| + |Filter(drop, s)| == |s|
  {
    if s != [] {
      FilterSplits(keep, drop, s[..|s| - 1]);
    }
  }

  lemma SweepEndsPolls(e: Engine, f: CancelFilter, status: Status, socks: seq<Sock>, b: Board, i: nat)
    requires i < |socks| && status < 0
    ensures PollsEndedWith(e, f, status, b, SweepBoard(e, f, status, socks, b, i))
  {
    var hit := (p: Poll) => p.file == socks[i].file && Matches(e(p.id), f);
    var miss := (p: Poll) => !(p.file == socks[i].file && Matches(e(p.id), f));
    var c, due := SweepBoard(e, f, status, socks, b, i), Filter(hit, b.polls);
    SweptPollsOutcome(e, f, status, socks, b, i);
    FilterSame((p: Poll) => p.file == socks[i].file && Matches(e(p.id), f), hit, b.polls);
    FilterSame((p: Poll) => !(p.file == socks[i].file && Matches(e(p.id), f)), miss, b.polls);
    FilterSplits(hit, miss, b.polls);
    FilterMembers(hit, b.polls);
    forall k | |b.ended| <= k < |c.ended|
      ensures c.ended[k].status == status && c.ended[k].report == None
      ensures WasParked(e, f, b.polls, c.ended[k].id)
    {
      var p := due[k - |b.ended|];
      assert c.ended[|b.ended| + (k - |b.ended|)] == PollEnd(p.id, status, None);
      assert p in due;
    }
  }

  /** So over the sockets a thread's exit walks: every poll that goes ends once, cancelled. */
  lemma {:induction false} SweptBoardOutcome(e: Engine, f: CancelFilter, status: Status, socks: seq<Sock>, b: Board,
                                             n: nat)
    requires n <= |socks| && status < 0
    ensures PollsEndedWith(e, f, status, b, SweptBoard(e, f, status, socks, b, n))
  {
    if n > 0 {
      var mid := SweptBoard(e, f, status, socks, b, n - 1);
      SweptBoardOutcome(e, f, status, socks, b, n - 1);
      SweptPolls(e, f, status, socks, b, n - 1);
      if socks[n - 1].listed {
        SweepEndsPolls(e, f, status, SweptSocks(e, f, status, socks, n - 1), mid, n - 1);
        EndedOnAndOn(e, f, status, b, mid, SweptBoard(e, f, status, socks, b, n));
      }
    }
  }

  lemma EndedOnAndOn(e: Engine, f: CancelFilter, status: Status, b: Board, mid: Board, c: Board)
    requires PollsEndedWith(e, f, status, b, mid) && PollsEndedWith(e, f, status, mid, c)
    requires forall p :: p in mid.polls ==> p in b.polls
    ensures PollsEndedWith(e, f, status, b, c)
  {
    forall k | |b.ended| <= k < |c.ended|
      ensures c.ended[k].status == status && c.ended[k].report == None
      ensures WasParked(e, f, b.polls, c.ended[k].id)
    {
      if k < |mid.ended| {
        assert c.ended[k] == mid.ended[k];
      } else {
        assert WasParked(e, f, mid.polls, c.ended[k].id);
      }
    }
  }

  // ---------------------------------------------------------------- close

  /** The close's filter is met by everything. */
  lemma EverythingMatches(e: Engine, s: Sock)
    ensures MatchedRecvs(e, EVERYTHING, s.recvs) == s.recvs
    ensures MatchedSends(e, EVERYTHING, s.box.sends) == s.box.sends
    ensures MatchedAccepts(e, EVERYTHING, s.accepts) == s.accepts
    ensures s.dial.request.Some? ==> Matches(e(s.dial.request.value), EVERYTHING)
  {
    var recv, send, accept := (r: Recv) => Matches(e(r.id), EVERYTHING),
      (r: AfdSend.Send) => Matches(e(r.id), EVERYTHING), (r: Accept) => Matches(e(r.id), EVERYTHING);
    forall r: Recv ensures recv(r) {
      MatchesOutcome(e(r.id), EVERYTHING);
    }
    forall r: AfdSend.Send ensures send(r) {
      MatchesOutcome(e(r.id), EVERYTHING);
    }
    forall r: Accept ensures accept(r) {
      MatchesOutcome(e(r.id), EVERYTHING);
    }
    FilterAll(recv, s.recvs);
    FilterAll(send, s.box.sends);
    FilterAll(accept, s.accepts);
    FilterSame(recv, (r: Recv) => Matches(e(r.id), EVERYTHING), s.recvs);
    FilterSame(send, (r: AfdSend.Send) => Matches(e(r.id), EVERYTHING), s.box.sends);
    FilterSame(accept, (r: Accept) => Matches(e(r.id), EVERYTHING), s.accepts);
    if s.dial.request.Some? {
      MatchesOutcome(e(s.dial.request.value), EVERYTHING);
    }
  }

  /** A close ends every receive, send, accept and connect of the socket, in order, with HANDLES_CLOSED. */
  lemma CleanupOutcome(e: Engine, s: Sock)
    ensures var t := CleanupSock(e, s);
            && EndedWith(s.recvEnded, t.recvEnded, IdsOfRecvs(s.recvs), STATUS_HANDLES_CLOSED)
            && SendsEndedWith(s.box.ended, t.box.ended, s.box.sends, STATUS_HANDLES_CLOSED)
            && EndedWith(s.acceptEnded, t.acceptEnded, IdsOfAccepts(s.accepts), STATUS_HANDLES_CLOSED)
            && EndedWith(s.dial.ended, t.dial.ended, if s.dial.request.Some? then [s.dial.request.value] else [],
                         STATUS_HANDLES_CLOSED)
  {
    var dead := s.(box := s.box.(dead := true));
    SweepOutcome(e, EVERYTHING, STATUS_HANDLES_CLOSED, dead);
    EverythingMatches(e, dead);
  }

  /** It drops what waits to be accepted, gives lwIP's end back, and leaves everything else. */
  lemma CleanupKeeps(e: Engine, s: Sock)
    ensures var t := CleanupSock(e, s);
            && t.box.dead && t.box.out == None && !t.intake.live && t.intake.window == 0 && t.intake.owed == 0
            && t.acceptQueue == [] && t.intake.buffered == s.intake.buffered && t.datagrams == s.datagrams
            && t.listed == s.listed && t.file == s.file && t.latches == s.latches && t.ports == s.ports
            && t.box.soError == s.box.soError && t.box.connected == s.box.connected
            && t.dial == s.dial.(request := None, ended := t.dial.ended)
  {
    SweepOutcome(e, EVERYTHING, STATUS_HANDLES_CLOSED, s.(box := s.box.(dead := true)));
    EverythingMatches(e, s);
    SweepKeeps(e, EVERYTHING, STATUS_HANDLES_CLOSED, s.(box := s.box.(dead := true)));
  }

  /** The polls a close ends: first those that are ready once the socket is dead, with success and their report, and
      then those issued on its file, with HANDLES_CLOSED and no report. */
  lemma CleanupPollsOutcome(e: Engine, socks: seq<Sock>, b: Board, i: nat)
    requires i < |socks|
    ensures var c, dead := CleanupBoard(e, socks, b, i), socks[i := socks[i].(box := socks[i].box.(dead := true))];
            var ready := Filter((p: Poll) => AnyReady(dead, p.entries), b.polls);
            var rest := Filter((p: Poll) => !AnyReady(dead, p.entries), b.polls);
            var issued := Filter((p: Poll) => p.file == socks[i].file, rest);
            && c.polls == Filter((p: Poll) => p.file != socks[i].file, rest)
            && |c.ended| == |b.ended| + |ready| + |issued| && b.ended <= c.ended
            && (forall k :: 0 <= k < |ready| ==>
                 c.ended[|b.ended| + k]
                 == PollEnd(ready[k].id, STATUS_SUCCESS, Some(ParkedSlots(dead, ready[k].entries))))
            && (forall k :: 0 <= k < |issued| ==>
                 c.ended[|b.ended| + |ready| + k] == PollEnd(issued[k].id, STATUS_HANDLES_CLOSED, None))
  {
    var dead := socks[i := socks[i].(box := socks[i].box.(dead := true))];
    var mid := Evaluate(dead, b);
    FilterSame((p: Poll) => AnyReady(dead, p.entries), IsReady(dead), b.polls);
    FilterSame((p: Poll) => !AnyReady(dead, p.entries), Misses(IsReady(dead)), b.polls);
    EvaluateEndsReady(dead, b);
    SweptPollsOutcome(e, EVERYTHING, STATUS_HANDLES_CLOSED, dead, mid, i);
    forall p: Pending ensures Matches(p, EVERYTHING) {
      MatchesOutcome(p, EVERYTHING);
    }
    FilterSame((p: Poll) => p.file == socks[i].file,
               (p: Poll) => p.file == dead[i].file && Matches(e(p.id), EVERYTHING), mid.polls);
    FilterSame((p: Poll) => p.file != socks[i].file,
               (p: Poll) => !(p.file == dead[i].file && Matches(e(p.id), EVERYTHING)), mid.polls);
  }
}
