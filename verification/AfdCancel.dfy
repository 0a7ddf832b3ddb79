/** Cancel sweeps and close (drivers/afd.c:2779-2923, 3567-3584; kernel/io/async.c:366-392). */
module AfdCancel {
  import opened NtKernel
  import opened Lists
  import opened AfdTypes
  import opened AfdPoll
  import AfdSend

  /** What the Io layer recorded when a request was issued; 0 stands for a null pointer. */
  datatype Pending = Pending(
    issuer: nat, userIosb: nat, owner: nat, portBoundAtIssue: bool, apcContext: nat, event: nat)

  datatype CancelFilter = CancelFilter(
    issuer: nat, userIosb: nat, owner: nat, portBoundApcNoEvent: bool, exemptPortBoundApcNoEvent: bool)

  /** The Io layer's record of every request, parked polls included. */
  type Engine = nat -> Pending

  predicate PortOnly(p: Pending) { p.portBoundAtIssue && p.apcContext != 0 && p.event == 0 }

  /** IopCancelFilterMatches. */
  predicate Matches(p: Pending, f: CancelFilter) {
    if f.issuer != 0 && p.issuer != f.issuer then false
    else if f.userIosb != 0 && p.userIosb != f.userIosb then false
    else if f.owner != 0 && p.owner != f.owner then false
    else if f.portBoundApcNoEvent && (!p.portBoundAtIssue || p.apcContext == 0 || p.event != 0) then false
    else if f.exemptPortBoundApcNoEvent && p.portBoundAtIssue && p.apcContext != 0 && p.event == 0 then false
    else true
  }

  const EVERYTHING := CancelFilter(0, 0, 0, false, false)

  function ByIssuer(thread: nat): CancelFilter { CancelFilter(thread, 0, 0, false, true) }

  /** The close sweep takes everything; the thread-exit sweep takes the thread's requests except those that report
      through a port alone. */
  lemma FiltersMean(p: Pending, thread: nat)
    requires thread != 0
    ensures Matches(p, EVERYTHING)
    ensures Matches(p, ByIssuer(thread)) <==> p.issuer == thread && !PortOnly(p)
  {
  }

  function RecvHit(e: Engine, f: CancelFilter): Recv -> bool { (r: Recv) => Matches(e(r.id), f) }

  function RecvMiss(e: Engine, f: CancelFilter): Recv -> bool { (r: Recv) => !Matches(e(r.id), f) }

  function SendHit(e: Engine, f: CancelFilter): AfdSend.Send -> bool { (s: AfdSend.Send) => Matches(e(s.id), f) }

  function SendMiss(e: Engine, f: CancelFilter): AfdSend.Send -> bool { (s: AfdSend.Send) => !Matches(e(s.id), f) }

  function AcceptHit(e: Engine, f: CancelFilter): Accept -> bool { (a: Accept) => Matches(e(a.id), f) }

  function AcceptMiss(e: Engine, f: CancelFilter): Accept -> bool { (a: Accept) => !Matches(e(a.id), f) }

  function PollHit(e: Engine, f: CancelFilter, file: nat): Poll -> bool {
    (p: Poll) => p.file == file && Matches(e(p.id), f)
  }

  function CancelledRecvs(q: seq<Recv>, status: Status): seq<Completion> {
    if q == [] then []
    else CancelledRecvs(q[..|q| - 1], status) + [Completion(q[|q| - 1].id, status, 0, [])]
  }

  function CancelledSends(q: seq<AfdSend.Send>, status: Status): seq<AfdSend.SendEnd> {
    if q == [] then []
    else
      var s := q[|q| - 1];
      CancelledSends(q[..|q| - 1], status) + [AfdSend.SendEnd(s.id, status, 0, s.data, s.done, true)]
  }

  function CancelledAccepts(q: seq<Accept>, status: Status): seq<Completion> {
    if q == [] then []
    else CancelledAccepts(q[..|q| - 1], status) + [Completion(q[|q| - 1].id, status, 0, [])]
  }

  function SweepRecvs(e: Engine, f: CancelFilter, status: Status, s: Sock): Sock {
    s.(recvs := Filter(RecvMiss(e, f), s.recvs),
       recvEnded := s.recvEnded + CancelledRecvs(Filter(RecvHit(e, f), s.recvs), status))
  }

  function SweepSends(e: Engine, f: CancelFilter, status: Status, s: Sock): Sock {
    s.(box := s.box.(sends := Filter(SendMiss(e, f), s.box.sends),
                     ended := s.box.ended + CancelledSends(Filter(SendHit(e, f), s.box.sends), status)))
  }

  function SweepAccepts(e: Engine, f: CancelFilter, status: Status, s: Sock): Sock {
    s.(accepts := Filter(AcceptMiss(e, f), s.accepts),
       acceptEnded := s.acceptEnded + CancelledAccepts(Filter(AcceptHit(e, f), s.accepts), status))
  }

  predicate ConnectHit(e: Engine, f: CancelFilter, s: Sock) {
    s.dial.request.Some? && Matches(e(s.dial.request.value), f)
  }

  function SweepConnect(e: Engine, f: CancelFilter, status: Status, s: Sock): Sock {
    if ConnectHit(e, f, s) then
      s.(dial := EndDial(s.dial, status))
    else s
  }

  /** AfdSweepRequests on one socket's own requests. */
  function SweepSock(e: Engine, f: CancelFilter, status: Status, s: Sock): Sock {
    SweepConnect(e, f, status, SweepAccepts(e, f, status, SweepSends(e, f, status, SweepRecvs(e, f, status, s))))
  }

  /** The polls a sweep of socket `i` ends: those issued on its file. */
  function SweepBoard(e: Engine, f: CancelFilter, status: Status, socks: seq<Sock>, b: Board, i: nat): Board
    requires i < |socks|
  {
    EndWhere(socks, b, PollHit(e, f, socks[i].file), status, false)
  }

  function SweepCount(e: Engine, f: CancelFilter, s: Sock, polls: seq<Poll>): nat {
    |Filter(RecvHit(e, f), s.recvs)| + |Filter(SendHit(e, f), s.box.sends)| + |Filter(AcceptHit(e, f), s.accepts)|
    + (if ConnectHit(e, f, s) then 1 else 0) + |Filter(PollHit(e, f, s.file), polls)|
  }

  // ---------------------------------------------------------------- what a sweep leaves

  /** Nothing parked on the socket matches. */
  ghost predicate Unmatched(e: Engine, f: CancelFilter, s: Sock) {
    && (forall r :: r in s.recvs ==> !Matches(e(r.id), f))
    && (forall r :: r in s.box.sends ==> !Matches(e(r.id), f))
    && (forall r :: r in s.accepts ==> !Matches(e(r.id), f))
    && !ConnectHit(e, f, s)
  }

  lemma {:induction false} Partition<T>(hit: T -> bool, miss: T -> bool, q: seq<T>)
    requires forall x :: miss(x) <==> !hit(x)
    ensures |Filter(hit, q)| + |Filter(miss, q)| == |q|
  {
    if q != [] {
      Partition(hit, miss, q[..|q| - 1]);
    }
  }

  lemma {:induction false} CancelledLengths(recvs: seq<Recv>, sends: seq<AfdSend.Send>, accepts: seq<Accept>,
                                            status: Status)
    ensures |CancelledRecvs(recvs, status)| == |recvs|
    ensures |CancelledSends(sends, status)| == |sends|
    ensures |CancelledAccepts(accepts, status)| == |accepts|
    decreases |recvs| + |sends| + |accepts|
  {
    if recvs != [] {
      CancelledLengths(recvs[..|recvs| - 1], sends, accepts, status);
    } else if sends != [] {
      CancelledLengths(recvs, sends[..|sends| - 1], accepts, status);
    } else if accepts != [] {
      CancelledLengths(recvs, sends, accepts[..|accepts| - 1], status);
    }
  }

  /** Everything parked on a socket. */
  function ParkedCount(s: Sock): nat {
    |s.recvs| + |s.box.sends| + |s.accepts| + if s.dial.request.Some? then 1 else 0
  }

  function EndedCount(s: Sock): nat { |s.recvEnded| + |s.box.ended| + |s.acceptEnded| + |s.dial.ended| }

  /** A sweep takes out every match and nothing else, keeping the order of the rest: its count is the number of
      requests gone from the lists, and each of them completed once. */
  lemma SweepTakesMatches(e: Engine, f: CancelFilter, status: Status, socks: seq<Sock>, b: Board, i: nat)
    requires i < |socks|
    ensures var s, t, c := socks[i], SweepSock(e, f, status, socks[i]), SweepBoard(e, f, status, socks, b, i);
            && Unmatched(e, f, t)
            && (forall r :: r in t.recvs <==> r in s.recvs && !Matches(e(r.id), f))
            && (forall r :: r in t.box.sends <==> r in s.box.sends && !Matches(e(r.id), f))
            && (forall r :: r in t.accepts <==> r in s.accepts && !Matches(e(r.id), f))
            && (forall p :: p in c.polls <==> p in b.polls && !(p.file == s.file && Matches(e(p.id), f)))
    ensures var s, t, c := socks[i], SweepSock(e, f, status, socks[i]), SweepBoard(e, f, status, socks, b, i);
            && SweepCount(e, f, s, b.polls) == ParkedCount(s) - ParkedCount(t) + |b.polls| - |c.polls|
            && SweepCount(e, f, s, b.polls) == EndedCount(t) - EndedCount(s) + |c.ended| - |b.ended|
  {
    var s := socks[i];
    FilterMembers(RecvMiss(e, f), s.recvs);
    FilterMembers(SendMiss(e, f), s.box.sends);
    FilterMembers(AcceptMiss(e, f), s.accepts);
    FilterMembers(Misses(PollHit(e, f, s.file)), b.polls);
    SweepCounts(e, f, status, socks, b, i);
  }

  lemma SweepCounts(e: Engine, f: CancelFilter, status: Status, socks: seq<Sock>, b: Board, i: nat)
    requires i < |socks|
    ensures var s, t, c := socks[i], SweepSock(e, f, status, socks[i]), SweepBoard(e, f, status, socks, b, i);
            && SweepCount(e, f, s, b.polls) == ParkedCount(s) - ParkedCount(t) + |b.polls| - |c.polls|
            && SweepCount(e, f, s, b.polls) == EndedCount(t) - EndedCount(s) + |c.ended| - |b.ended|
  {
    var s := socks[i];
    Partition(RecvHit(e, f), RecvMiss(e, f), s.recvs);
    Partition(SendHit(e, f), SendMiss(e, f), s.box.sends);
    Partition(AcceptHit(e, f), AcceptMiss(e, f), s.accepts);
    Partition(PollHit(e, f, s.file), Misses(PollHit(e, f, s.file)), b.polls);
    CancelledLengths(Filter(RecvHit(e, f), s.recvs), Filter(SendHit(e, f), s.box.sends),
                     Filter(AcceptHit(e, f), s.accepts),
                     status);
    EndsLength(socks, Filter(PollHit(e, f, s.file), b.polls), status, false);
  }

  // ---------------------------------------------------------------- close

  /** AfdVfsCleanup's effect on its socket after the sweep. */
  function Emptied(s: Sock): Sock {
    s.(acceptQueue := [], box := s.box.(out := None), intake := s.intake.(live := false, window := 0, owed := 0))
  }

  function Killed(socks: seq<Sock>, i: nat): seq<Sock>
    requires i < |socks|
  {
    socks[i := socks[i].(box := socks[i].box.(dead := true))]
  }

  function CleanupBoard(e: Engine, socks: seq<Sock>, b: Board, i: nat): Board
    requires i < |socks|
  {
    var dead := Killed(socks, i);
    SweepBoard(e, EVERYTHING, STATUS_HANDLES_CLOSED, dead, Evaluate(dead, b), i)
  }

  function CleanupSock(e: Engine, s: Sock): Sock {
    Emptied(SweepSock(e, EVERYTHING, STATUS_HANDLES_CLOSED, s.(box := s.box.(dead := true))))
  }

  predicate Watches(p: Poll, i: nat) { exists entry :: entry in p.entries && entry.sock == i }

  lemma DeadIsReady(socks: seq<Sock>, i: nat, p: Poll)
    requires i < |socks| && socks[i].box.dead && Watches(p, i)
    ensures AnyReady(socks, p.entries)
  {
    var entry :| entry in p.entries && entry.sock == i;
    assert CloseBit in Visible(socks, entry);
  }

  lemma EverythingGoes(e: Engine, s: Sock)
    ensures Filter(RecvMiss(e, EVERYTHING), s.recvs) == []
    ensures Filter(SendMiss(e, EVERYTHING), s.box.sends) == []
    ensures Filter(AcceptMiss(e, EVERYTHING), s.accepts) == []
    ensures s.dial.request.Some? ==> ConnectHit(e, EVERYTHING, s)
  {
    forall r | r in s.recvs ensures !RecvMiss(e, EVERYTHING)(r) {
      FiltersMean(e(r.id), 1);
    }
    FilterNone(RecvMiss(e, EVERYTHING), s.recvs);
    forall r | r in s.box.sends ensures !SendMiss(e, EVERYTHING)(r) {
      FiltersMean(e(r.id), 1);
    }
    FilterNone(SendMiss(e, EVERYTHING), s.box.sends);
    forall r | r in s.accepts ensures !AcceptMiss(e, EVERYTHING)(r) {
      FiltersMean(e(r.id), 1);
    }
    FilterNone(AcceptMiss(e, EVERYTHING), s.accepts);
  }

  /** A poll that outlives the close neither watched the socket nor was issued on its file. */
  lemma CleanupKeepsOthers(e: Engine, socks: seq<Sock>, b: Board, i: nat, p: Poll)
    requires i < |socks| && p in CleanupBoard(e, socks, b, i).polls
    ensures p in b.polls && !Watches(p, i) && p.file != socks[i].file
  {
    var dead := Killed(socks, i);
    var left := Evaluate(dead, b);
    assert dead[i].file == socks[i].file && dead[i].box.dead;
    FilterMembers(Misses(PollHit(e, EVERYTHING, dead[i].file)), left.polls);
    EvaluateEndsReady(dead, b);
    FiltersMean(e(p.id), 1);
    if Watches(p, i) {
      DeadIsReady(dead, i, p);
    }
  }

  /** After the handle's close nothing is parked on the socket, no poll watches it or was issued on its file, and no
      inbound connection waits. */
  lemma CleanupLeavesNothing(e: Engine, socks: seq<Sock>, b: Board, i: nat)
    requires i < |socks|
    ensures var t := CleanupSock(e, socks[i]);
            t.recvs == [] && t.box.sends == [] && t.accepts == [] && t.dial.request == None && t.acceptQueue == []
    ensures forall p :: p in CleanupBoard(e, socks, b, i).polls ==>
              p in b.polls && !Watches(p, i) && p.file != socks[i].file
  {
    EverythingGoes(e, socks[i]);
    forall p | p in CleanupBoard(e, socks, b, i).polls
      ensures p in b.polls && !Watches(p, i) && p.file != socks[i].file
    {
      CleanupKeepsOthers(e, socks, b, i, p);
    }
  }

  /** Polls watching a closing socket end with success and report the close, asked for or not. */
  lemma {:induction false} CloseIsReported(socks: seq<Sock>, entries: seq<Entry>, i: nat)
    requires i < |socks| && socks[i].box.dead && exists entry :: entry in entries && entry.sock == i
    ensures exists slot :: slot in ParkedSlots(socks, entries) && slot.flags == {CloseBit}
  {
    var n := |entries| - 1;
    var front, last := entries[..n], entries[n];
    assert entries == front + [last];
    if entry :| entry in front && entry.sock == i {
      CloseIsReported(socks, front, i);
      var slot :| slot in ParkedSlots(socks, front) && slot.flags == {CloseBit};
      assert slot in ParkedSlots(socks, entries);
    } else {
      assert last.sock == i;
      assert !Repeated(entries, n) by {
        assert forall j :: 0 <= j < n ==> entries[j] in front;
      }
      assert Visible(socks, last) == {CloseBit};
      assert SlotOf(socks, last) in ParkedSlots(socks, entries);
    }
  }

  // ---------------------------------------------------------------- thread exit

  /** The sockets, and the polls, after sweeping the first `n` entries of AfdSocketList. */
  function SweptSocks(e: Engine, f: CancelFilter, status: Status, socks: seq<Sock>, n: nat): (swept: seq<Sock>)
    requires n <= |socks|
    ensures |swept| == |socks|
    ensures forall j :: 0 <= j < |socks| ==>
              swept[j] == if j < n && socks[j].listed then SweepSock(e, f, status, socks[j]) else socks[j]
  {
    if n == 0 then socks
    else
      var before := SweptSocks(e, f, status, socks, n - 1);
      if socks[n - 1].listed then before[n - 1 := SweepSock(e, f, status, before[n - 1])] else before
  }

  function SweptBoard(e: Engine, f: CancelFilter, status: Status, socks: seq<Sock>, b: Board, n: nat): Board
    requires n <= |socks|
  {
    if n == 0 then b
    else
      var before := SweptBoard(e, f, status, socks, b, n - 1);
      if socks[n - 1].listed then
        SweepBoard(e, f, status, SweptSocks(e, f, status, socks, n - 1), before, n - 1)
      else before
  }

  ghost predicate ListedFile(socks: seq<Sock>, file: nat, n: nat)
    requires n <= |socks|
  {
    exists j :: 0 <= j < n && socks[j].listed && socks[j].file == file
  }

  lemma {:induction false} SweptPolls(e: Engine, f: CancelFilter, status: Status, socks: seq<Sock>, b: Board, n: nat)
    requires n <= |socks|
    ensures forall p :: p in SweptBoard(e, f, status, socks, b, n).polls <==>
              p in b.polls && !(ListedFile(socks, p.file, n) && Matches(e(p.id), f))
  {
    if n > 0 {
      var before := SweptBoard(e, f, status, socks, b, n - 1);
      SweptPolls(e, f, status, socks, b, n - 1);
      if socks[n - 1].listed {
        FilterMembers(Misses(PollHit(e, f, socks[n - 1].file)), before.polls);
      }
      forall p: Poll
        ensures ListedFile(socks, p.file, n)
           <==> ListedFile(socks, p.file, n - 1) || (socks[n - 1].listed && socks[n - 1].file == p.file)
      {
      }
    }
  }

  /** The file belongs to a socket that is listed and not cleaned up. */
  ghost predicate LiveFile(socks: seq<Sock>, file: nat) {
    exists j :: 0 <= j < |socks| && socks[j].listed && !socks[j].box.dead && socks[j].file == file
  }

  /** Every parked poll was issued on such a file. */
  ghost predicate Issued(socks: seq<Sock>, polls: seq<Poll>) { forall p :: p in polls ==> LiveFile(socks, p.file) }

  /** After a thread's exit no request of it is parked on any listed socket, and no poll of it is parked at all, except
      those that report through a port alone. */
  lemma ThreadExitSweeps(e: Engine, thread: nat, socks: seq<Sock>, b: Board)
    requires thread != 0 && Issued(socks, b.polls)
    ensures var swept := SweptSocks(e, ByIssuer(thread), STATUS_CANCELLED, socks, |socks|);
            forall j :: 0 <= j < |swept| && swept[j].listed ==> Unmatched(e, ByIssuer(thread), swept[j])
    ensures forall p :: p in SweptBoard(e, ByIssuer(thread), STATUS_CANCELLED, socks, b, |socks|).polls <==>
              p in b.polls && !(e(p.id).issuer == thread && !PortOnly(e(p.id)))
  {
    var f := ByIssuer(thread);
    SweptPolls(e, f, STATUS_CANCELLED, socks, b, |socks|);
    forall p: Poll ensures Matches(e(p.id), f) <==> e(p.id).issuer == thread && !PortOnly(e(p.id)) {
      FiltersMean(e(p.id), thread);
    }
    forall j | 0 <= j < |socks| && socks[j].listed
      ensures Unmatched(e, f, SweepSock(e, f, STATUS_CANCELLED, socks[j]))
    {
      SweepTakesMatches(e, f, STATUS_CANCELLED, socks, b, j);
    }
  }
}
