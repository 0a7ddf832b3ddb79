/**
 Polls (drivers/afd.c:700-869, 2457-2657): levels, the parked and the inline report, exclusive displacement and
 expiry.
 */
module AfdPoll {
  import opened NtKernel
  import opened Lists
  import opened AfdTypes
  import AfdStream

  // ---------------------------------------------------------------- levels

  /** AfdFindLoopbackPeer's search of the socket list. */
  function FindPeer(socks: seq<Sock>, i: nat, from: nat): (peer: Option<nat>)
    requires i < |socks| && from <= |socks|
    ensures peer.Some? ==> peer.value < |socks|
    decreases |socks| - from
  {
    if socks[i].datagram || socks[i].box.out.None? || !socks[i].box.connected || from == |socks| then None
    else if IsPeer(socks, i, from) then Some(from)
    else FindPeer(socks, i, from + 1)
  }

  predicate IsPeer(socks: seq<Sock>, i: nat, j: nat)
    requires i < |socks| && j < |socks|
  {
    && j != i && socks[j].listed && !socks[j].datagram && socks[j].box.out.Some? && socks[j].box.connected
    && socks[j].ports == (socks[i].ports.1, socks[i].ports.0)
  }

  function When(on: bool, bit: Bit): set<Bit> { if on then {bit} else {} }

  /** A filled send buffer, or a loopback peer whose ring is half full, keeps a socket from being writable. */
  predicate Writable(socks: seq<Sock>, i: nat)
    requires i < |socks|
  {
    socks[i].box.out.None?
    || (2 * socks[i].box.out.value.room >= TCP_SND_BUF
        && var peer := FindPeer(socks, i, 0);
           !(peer.Some? && 2 * |socks[peer.value].intake.buffered| >= AfdStream.AFD_RING_CAPACITY))
  }

  /** AfdPollLevel. */
  function Level(socks: seq<Sock>, i: nat): set<Bit>
    requires i < |socks|
  {
    var s := socks[i];
    if s.box.dead then {CloseBit}
    else if s.datagram then When(s.datagrams != [], ReadBit) + {WriteBit}
    else if s.listening then When(s.intake.buffered != [], ReadBit) + When(s.acceptQueue != [], AcceptBit)
    else
      When(s.intake.buffered != [], ReadBit)
      + When(s.box.connected, ConnectBit) + When(s.box.connected && Writable(socks, i), WriteBit)
      + When(s.latches.oobValid, OobBit)
      + When(s.intake.peerClosed && s.intake.buffered == [], HupBit)
      + When(s.latches.resetLatch, ResetBit)
      + When(s.latches.connectErr != 0, ConnectErrBit)
  }

  function Visible(socks: seq<Sock>, entry: Entry): set<Bit> {
    if entry.sock < |socks| then
      var level := Level(socks, entry.sock);
      level * entry.mask + level * {CloseBit}
    else {}
  }

  function SlotOf(socks: seq<Sock>, entry: Entry): Slot {
    var flags := Visible(socks, entry);
    Slot(entry.handle, flags, if ConnectErrBit in flags then socks[entry.sock].latches.connectErr else 0)
  }

  // ---------------------------------------------------------------- the two reports

  /** Some earlier entry names the same socket. */
  predicate Repeated(entries: seq<Entry>, k: nat)
    requires k < |entries|
  {
    exists j :: 0 <= j < k && entries[j].sock == entries[k].sock
  }

  /** AfdCompletePoll's loop: a socket listed twice reports once. */
  function ParkedSlots(socks: seq<Sock>, entries: seq<Entry>): seq<Slot> {
    if entries == [] then []
    else
      var n := |entries| - 1;
      ParkedSlots(socks, entries[..n])
      + if Visible(socks, entries[n]) != {} && !Repeated(entries, n) then [SlotOf(socks, entries[n])] else []
  }

  /** AfdPoll's inline loop. */
  function InlineSlots(socks: seq<Sock>, entries: seq<Entry>): seq<Slot> {
    if entries == [] then []
    else
      var n := |entries| - 1;
      InlineSlots(socks, entries[..n])
      + if Visible(socks, entries[n]) != {} then [SlotOf(socks, entries[n])] else []
  }

  /** Some watched bit is up. */
  predicate AnyReady(socks: seq<Sock>, entries: seq<Entry>) {
    exists entry :: entry in entries && Visible(socks, entry) != {}
  }

  ghost predicate NoVisibleRepeat(socks: seq<Sock>, entries: seq<Entry>) {
    forall k :: 0 <= k < |entries| && Visible(socks, entries[k]) != {} ==> !Repeated(entries, k)
  }

  ghost predicate DistinctSockets(entries: seq<Entry>) {
    forall j, k :: 0 <= j < k < |entries| ==> entries[j].sock != entries[k].sock
  }

  lemma {:induction false} ParkedIsShorter(socks: seq<Sock>, entries: seq<Entry>)
    ensures |ParkedSlots(socks, entries)| <= |InlineSlots(socks, entries)|
    ensures |InlineSlots(socks, entries)| <= |entries|
  {
    if entries != [] {
      ParkedIsShorter(socks, entries[..|entries| - 1]);
    }
  }

  lemma RepeatedFront(entries: seq<Entry>, k: nat)
    requires k < |entries| - 1
    ensures Repeated(entries[..|entries| - 1], k) <==> Repeated(entries, k)
  {
    var front := entries[..|entries| - 1];
    assert forall j :: 0 <= j <= k ==> front[j] == entries[j];
  }

  /** Parking a poll changes when it is answered, not what: the two reports agree exactly when every visible entry is
      the first one naming its socket. */
  lemma {:induction false} ReportsAgreeExactly(socks: seq<Sock>, entries: seq<Entry>)
    ensures ParkedSlots(socks, entries) == InlineSlots(socks, entries) <==> NoVisibleRepeat(socks, entries)
  {
    if entries != [] {
      var n := |entries| - 1;
      var front := entries[..n];
      ReportsAgreeExactly(socks, front);
      NoRepeatSplit(socks, entries);
      AgreeSplit(socks, entries);
    }
  }

  lemma AgreeSplit(socks: seq<Sock>, entries: seq<Entry>)
    requires entries != []
    ensures var n := |entries| - 1;
            ParkedSlots(socks, entries) == InlineSlots(socks, entries) <==>
              ParkedSlots(socks, entries[..n]) == InlineSlots(socks, entries[..n])
              && (Visible(socks, entries[n]) != {} ==> !Repeated(entries, n))
  {
    var n := |entries| - 1;
    var parked, inline := ParkedSlots(socks, entries[..n]), InlineSlots(socks, entries[..n]);
    ParkedIsShorter(socks, entries[..n]);
    if Visible(socks, entries[n]) != {} {
      var slot := SlotOf(socks, entries[n]);
      assert (inline + [slot])[..|inline|] == inline;
      if Repeated(entries, n) {
        assert |parked| < |inline + [slot]|;
      } else {
        assert (parked + [slot])[..|parked|] == parked;
      }
    } else {
      assert parked + [] == parked && inline + [] == inline;
    }
  }

  lemma NoRepeatSplit(socks: seq<Sock>, entries: seq<Entry>)
    requires entries != []
    ensures var n := |entries| - 1;
            NoVisibleRepeat(socks, entries) <==>
              NoVisibleRepeat(socks, entries[..n]) && (Visible(socks, entries[n]) != {} ==> !Repeated(entries, n))
  {
    var n := |entries| - 1;
    var front := entries[..n];
    forall k | 0 <= k < n ensures front[k] == entries[k] && (Repeated(front, k) <==> Repeated(entries, k)) {
      RepeatedFront(entries, k);
    }
  }

  /** An inline report names every visible entry, so it has a slot exactly when something is ready. */
  lemma {:induction false} InlineReportsReady(socks: seq<Sock>, entries: seq<Entry>)
    ensures InlineSlots(socks, entries) != [] <==> AnyReady(socks, entries)
  {
    if entries != [] {
      var n := |entries| - 1;
      InlineReportsReady(socks, entries[..n]);
      assert entries == entries[..n] + [entries[n]];
    }
  }

  /** With distinct sockets a ready parked poll reports what the inline answer would have, in at least one slot. */
  lemma ParkedReportsReady(socks: seq<Sock>, entries: seq<Entry>)
    requires DistinctSockets(entries)
    ensures ParkedSlots(socks, entries) == InlineSlots(socks, entries)
    ensures AnyReady(socks, entries) <==> ParkedSlots(socks, entries) != []
  {
    ReportsAgreeExactly(socks, entries);
    InlineReportsReady(socks, entries);
  }

  lemma FirstReportsNothing(socks: seq<Sock>, first: Entry)
    requires Visible(socks, first) == {}
    ensures ParkedSlots(socks, [first]) == [] && InlineSlots(socks, [first]) == []
  {
    var none: seq<Entry> := [first][..0];
    assert none == [] && ParkedSlots(socks, none) == [] && InlineSlots(socks, none) == [];
  }

  /** Without distinct sockets a ready parked poll can even report nothing: the first entry for the socket does not
      ask for the bit that is up, and the second is taken for a duplicate. */
  lemma ReadyPollReportsNothing(socks: seq<Sock>, i: nat, first: Entry, second: Entry)
    requires i < |socks| && first.sock == second.sock == i
    requires Visible(socks, first) == {} && Visible(socks, second) != {}
    ensures AnyReady(socks, [first, second]) && ParkedSlots(socks, [first, second]) == []
    ensures InlineSlots(socks, [first, second]) == [SlotOf(socks, second)]
  {
    var entries := [first, second];
    assert entries[0].sock == entries[1].sock && Repeated(entries, 1);
    assert entries[..1] == [first] && second in entries;
    FirstReportsNothing(socks, first);
  }

  function AfterTake(socks: seq<Sock>, i: nat, limit: nat): seq<Sock>
    requires i < |socks|
  {
    socks[i := socks[i].(intake := AfdStream.Take(socks[i].intake, limit))]
  }

  /** A parked report is empty exactly when every visible entry is taken for a duplicate. */
  lemma {:induction false} ParkedReportsNothingExactly(socks: seq<Sock>, entries: seq<Entry>)
    ensures ParkedSlots(socks, entries) == [] <==>
              forall k :: 0 <= k < |entries| && Visible(socks, entries[k]) != {} ==> Repeated(entries, k)
  {
    if entries != [] {
      var n := |entries| - 1;
      var front := entries[..n];
      ParkedReportsNothingExactly(socks, front);
      forall k | 0 <= k < n ensures front[k] == entries[k] && (Repeated(front, k) <==> Repeated(entries, k)) {
        RepeatedFront(entries, k);
      }
    }
  }

  /** The first entry that names its socket asks for a bit that is up there. */
  predicate FirstAsks(socks: seq<Sock>, entries: seq<Entry>, k: nat)
    requires k < |entries|
  {
    Visible(socks, entries[k]) != {} && !Repeated(entries, k)
  }

  /** So a ready parked poll has a slot exactly when, for some socket, the first entry naming it asks for a bit that is
      up: a caller who lists each socket's wanted bits in its first entry always gets an answer. */
  lemma ReadyPollReportsExactly(socks: seq<Sock>, entries: seq<Entry>)
    ensures ParkedSlots(socks, entries) != [] <==> exists k :: 0 <= k < |entries| && FirstAsks(socks, entries, k)
    ensures AnyReady(socks, entries) && ParkedSlots(socks, entries) == [] <==>
              (exists k :: 0 <= k < |entries| && Visible(socks, entries[k]) != {})
              && (forall k :: 0 <= k < |entries| && !Repeated(entries, k) ==> Visible(socks, entries[k]) == {})
  {
    ParkedReportsNothingExactly(socks, entries);
    if AnyReady(socks, entries) {
      var entry :| entry in entries && Visible(socks, entry) != {};
      var k :| 0 <= k < |entries| && entries[k] == entry;
      assert Visible(socks, entries[k]) != {};
    }
    if k :| 0 <= k < |entries| && FirstAsks(socks, entries, k) {
      assert Visible(socks, entries[k]) != {} && !Repeated(entries, k);
    } else {
      forall k | 0 <= k < |entries| && Visible(socks, entries[k]) != {} ensures Repeated(entries, k) {
        assert !FirstAsks(socks, entries, k);
      }
    }
  }

  /** Draining a ring changes the socket's own levels only by dropping READ and, when the peer had closed, raising the
      deferred HUP; nothing re-evaluates the polls at that point. */
  lemma DrainRaisesHup(socks: seq<Sock>, i: nat, limit: nat)
    requires i < |socks| && !socks[i].datagram && !socks[i].listening && !socks[i].box.dead
    requires socks[i].intake.buffered != []
    ensures Level(AfterTake(socks, i, limit), i) - Level(socks, i)
         == if limit >= |socks[i].intake.buffered| && socks[i].intake.peerClosed then {HupBit} else {}
  {
    var drained := AfterTake(socks, i, limit);
    SamePeer(socks, drained, i, 0);
    assert Writable(drained, i) == Writable(socks, i);
    assert HupBit !in Level(socks, i);
    assert Level(drained, i) - Level(socks, i) <= {HupBit};
  }

  lemma {:induction false} SamePeer(socks: seq<Sock>, other: seq<Sock>, i: nat, from: nat)
    requires i < |socks| == |other| && from <= |socks|
    requires forall j :: 0 <= j < |socks| && j != i ==> other[j] == socks[j]
    requires other[i] == socks[i].(intake := other[i].intake)
    ensures FindPeer(other, i, from) == FindPeer(socks, i, from)
    ensures FindPeer(socks, i, from).Some? ==> FindPeer(socks, i, from).value != i
    decreases |socks| - from
  {
    if from < |socks| {
      SamePeer(socks, other, i, from + 1);
    }
  }

  // ---------------------------------------------------------------- ending parked polls

  function Misses(hit: Poll -> bool): Poll -> bool { (p: Poll) => !hit(p) }

  /** AfdCompletePoll's anchor reset. */
  function ClearMain(mains: map<nat, nat>, poll: Poll): map<nat, nat> {
    if poll.entries != [] && poll.entries[0].sock in mains && mains[poll.entries[0].sock] == poll.id
    then mains - {poll.entries[0].sock} else mains
  }

  function ClearMains(mains: map<nat, nat>, polls: seq<Poll>): map<nat, nat> {
    if polls == [] then mains else ClearMain(ClearMains(mains, polls[..|polls| - 1]), polls[|polls| - 1])
  }

  function EndOf(socks: seq<Sock>, poll: Poll, status: Status, report: bool): PollEnd {
    PollEnd(poll.id, status,
            if !NtSuccess(status) && status != STATUS_TIMEOUT then None
            else Some(if report then ParkedSlots(socks, poll.entries) else []))
  }

  function Ends(socks: seq<Sock>, polls: seq<Poll>, status: Status, report: bool): seq<PollEnd> {
    if polls == [] then []
    else Ends(socks, polls[..|polls| - 1], status, report) + [EndOf(socks, polls[|polls| - 1], status, report)]
  }

  /** AfdCompletePoll on the k-th parked poll. */
  function EndOne(socks: seq<Sock>, b: Board, k: nat, status: Status, report: bool): Board
    requires k < |b.polls|
  {
    Board(b.polls[..k] + b.polls[k + 1..], ClearMain(b.mains, b.polls[k]),
          b.ended + [EndOf(socks, b.polls[k], status, report)])
  }

  /** Walking the list and completing every poll the test hits. */
  function EndWhere(socks: seq<Sock>, b: Board, hit: Poll -> bool, status: Status, report: bool): Board {
    Board(Filter(Misses(hit), b.polls), ClearMains(b.mains, Filter(hit, b.polls)),
          b.ended + Ends(socks, Filter(hit, b.polls), status, report))
  }

  function IsReady(socks: seq<Sock>): Poll -> bool { (p: Poll) => AnyReady(socks, p.entries) }

  /** AfdEvaluatePolls. */
  function Evaluate(socks: seq<Sock>, b: Board): Board { EndWhere(socks, b, IsReady(socks), STATUS_SUCCESS, true) }

  /** Exactly the ready polls complete, in list order, each once, and the rest stay in order. */
  lemma EvaluateEndsReady(socks: seq<Sock>, b: Board)
    ensures forall p :: p in Evaluate(socks, b).polls <==> p in b.polls && !AnyReady(socks, p.entries)
    ensures Evaluate(socks, b).polls == Filter(Misses(IsReady(socks)), b.polls)
    ensures var due, ended := Filter(IsReady(socks), b.polls), Evaluate(socks, b).ended;
            && |ended| == |b.ended| + |due| && ended[..|b.ended|] == b.ended
            && (forall k :: 0 <= k < |due| ==>
                 ended[|b.ended| + k] == PollEnd(due[k].id, STATUS_SUCCESS, Some(ParkedSlots(socks, due[k].entries))))
  {
    FilterMembers(Misses(IsReady(socks)), b.polls);
    EndsLength(socks, Filter(IsReady(socks), b.polls), STATUS_SUCCESS, true);
  }

  lemma {:induction false} EndsLength(socks: seq<Sock>, polls: seq<Poll>, status: Status, report: bool)
    ensures |Ends(socks, polls, status, report)| == |polls|
    ensures forall k :: 0 <= k < |polls| ==>
              Ends(socks, polls, status, report)[k] == EndOf(socks, polls[k], status, report)
  {
    if polls != [] {
      EndsLength(socks, polls[..|polls| - 1], status, report);
    }
  }

  // ---------------------------------------------------------------- the main poll

  ghost predicate UniqueIds(polls: seq<Poll>) {
    forall j, k :: 0 <= j < k < |polls| ==> polls[j].id != polls[k].id
  }

  /** Poll `id` is parked and its first entry is socket `s`. */
  ghost predicate AnchoredAt(polls: seq<Poll>, s: nat, id: nat) {
    exists p :: p in polls && p.id == id && p.entries != [] && p.entries[0].sock == s
  }

  /** A socket's main poll is a parked poll whose first entry is that socket. */
  ghost predicate Anchored(b: Board) {
    && UniqueIds(b.polls)
    && (forall p :: p in b.polls ==> p.entries != [])
    && (forall s :: s in b.mains ==> AnchoredAt(b.polls, s, b.mains[s]))
  }

  lemma {:induction false} ClearMainsExactly(mains: map<nat, nat>, polls: seq<Poll>)
    ensures ClearMains(mains, polls).Keys <= mains.Keys
    ensures forall s :: s in ClearMains(mains, polls) ==> ClearMains(mains, polls)[s] == mains[s]
    ensures forall s :: s in mains ==>
              (s !in ClearMains(mains, polls) <==> AnchoredAt(polls, s, mains[s]))
  {
    if polls != [] {
      var front, last := polls[..|polls| - 1], polls[|polls| - 1];
      ClearMainsExactly(mains, front);
      forall s | s in mains
        ensures AnchoredAt(polls, s, mains[s])
             <==> AnchoredAt(front, s, mains[s]) ||
                  (last.id == mains[s] && last.entries != [] && last.entries[0].sock == s)
      {
        assert polls == front + [last];
        if AnchoredAt(front, s, mains[s]) {
          var p :| p in front && p.id == mains[s] && p.entries != [] && p.entries[0].sock == s;
          assert p in polls;
        }
        if last.id == mains[s] && last.entries != [] && last.entries[0].sock == s {
          assert last in polls;
        }
      }
    }
  }

  lemma {:induction false} FilterKeepsUnique(keep: Poll -> bool, polls: seq<Poll>)
    requires UniqueIds(polls)
    ensures UniqueIds(Filter(keep, polls))
  {
    if polls != [] {
      var front, last := polls[..|polls| - 1], polls[|polls| - 1];
      FilterKeepsUnique(keep, front);
      FilterMembers(keep, front);
      var less := Filter(keep, front);
      forall k | 0 <= k < |less| ensures less[k].id != last.id {
        assert less[k] in front;
      }
    }
  }

  /** The test hits the poll that is the socket's main. */
  ghost predicate EndsMain(b: Board, hit: Poll -> bool, s: nat)
    requires s in b.mains
  {
    exists p :: p in b.polls && p.id == b.mains[s] && hit(p)
  }

  /** However polls end, what is left is anchored, and a main is lost exactly when its poll ended. */
  lemma EndWhereKeepsAnchors(socks: seq<Sock>, b: Board, hit: Poll -> bool, status: Status, report: bool)
    requires Anchored(b)
    ensures Anchored(EndWhere(socks, b, hit, status, report))
    ensures forall s :: s in EndWhere(socks, b, hit, status, report).mains ==>
              s in b.mains && EndWhere(socks, b, hit, status, report).mains[s] == b.mains[s]
    ensures forall s :: s in b.mains ==>
              (s !in EndWhere(socks, b, hit, status, report).mains <==> EndsMain(b, hit, s))
  {
    var gone := Filter(hit, b.polls);
    FilterKeepsUnique(Misses(hit), b.polls);
    FilterMembers(Misses(hit), b.polls);
    FilterMembers(hit, b.polls);
    ClearMainsExactly(b.mains, gone);
    var c := EndWhere(socks, b, hit, status, report);
    forall s | s in c.mains ensures AnchoredAt(c.polls, s, c.mains[s]) {
      var p :| p in b.polls && p.id == b.mains[s] && p.entries != [] && p.entries[0].sock == s;
      var id := b.mains[s];
      assert hit(p) ==> AnchoredAt(gone, s, id);
      assert p in c.polls;
    }
    forall s | s in b.mains ensures s !in c.mains <==> EndsMain(b, hit, s) {
      assert AnchoredAt(b.polls, s, b.mains[s]);
      OnePollPerId(b, b.mains[s]);
    }
  }

  // ---------------------------------------------------------------- the verb

  const INFINITE := 0x7fff_ffff_ffff_ffff

  /** A LONGLONG. */
  function Wrap64(n: int): (w: int)
    ensures -0x8000_0000_0000_0000 <= w <= INFINITE
    ensures -0x8000_0000_0000_0000 <= n <= INFINITE ==> w == n
  {
    var m := n % 0x1_0000_0000_0000_0000;
    if m > INFINITE then m - 0x1_0000_0000_0000_0000 else m
  }

  function Deadline(timeout: int, now: int): int {
    if timeout == INFINITE then INFINITE
    else if timeout < 0 then Wrap64(now + Wrap64(-timeout))
    else timeout
  }

  datatype Answer = Inline(slots: seq<Slot>) | Refused(status: Status) | Parked

  function Numbered(id: nat): Poll -> bool { (p: Poll) => p.id == id }

  /** The exclusive poll a new exclusive poll displaces: its anchor's main, if that one is exclusive. */
  function Displaced(b: Board, request: Poll): Option<nat>
    requires request.entries != []
  {
    var anchor := request.entries[0].sock;
    if request.exclusive && anchor in b.mains
       && (exists p :: p in b.polls && p.id == b.mains[anchor] && p.exclusive)
    then Some(b.mains[anchor]) else None
  }

  function Displace(socks: seq<Sock>, b: Board, request: Poll): Board
    requires request.entries != []
  {
    var displaced := Displaced(b, request);
    if displaced.None? then b else EndWhere(socks, b, Numbered(displaced.value), STATUS_SUCCESS, false)
  }

  function Park(b: Board, request: Poll): Board
    requires request.entries != []
  {
    var anchor := request.entries[0].sock;
    b.(polls := b.polls + [request],
       mains := if anchor in b.mains then b.mains else b.mains[anchor := request.id])
  }

  /** AfdPoll, once every entry is resolved. `prepared` is the Io layer's answer if the poll has to park. */
  function PollVerb(socks: seq<Sock>, b: Board, request: Poll, now: int, prepared: Status): (Board, Answer) {
    if request.entries == [] || |request.entries| > 64 then (b, Refused(STATUS_INVALID_PARAMETER))
    else
      var slots := InlineSlots(socks, request.entries);
      if slots != [] || request.timeout == 0 then (b, Inline(slots))
      else
        var c := Displace(socks, b, request);
        if !NtSuccess(prepared) then (c, Refused(prepared))
        else (Park(c, request.(deadline := Deadline(request.timeout, now))), Parked)
  }

  lemma ParkKeepsAnchors(b: Board, request: Poll)
    requires Anchored(b) && request.entries != [] && forall p :: p in b.polls ==> p.id != request.id
    ensures Anchored(Park(b, request))
  {
    var c := Park(b, request);
    assert request in c.polls;
    forall s | s in c.mains ensures AnchoredAt(c.polls, s, c.mains[s]) {
      if s in b.mains {
        var p :| p in b.polls && p.id == b.mains[s] && p.entries != [] && p.entries[0].sock == s;
        assert p in c.polls;
      }
    }
  }

  /** Displacement ends at most one poll: the anchor's main, when both it and the newcomer are exclusive. */
  lemma DisplaceEndsOnlyTheMain(socks: seq<Sock>, b: Board, request: Poll)
    requires Anchored(b) && request.entries != []
    ensures var c, anchor := Displace(socks, b, request), request.entries[0].sock;
            && Anchored(c)
            && (forall p :: p in b.polls ==>
                 (p !in c.polls <==> request.exclusive && p.exclusive && anchor in b.mains && b.mains[anchor] == p.id))
            && (forall p :: p in c.polls ==> p in b.polls)
            && (forall s :: s != anchor ==> (s in c.mains <==> s in b.mains))
  {
    var displaced := Displaced(b, request);
    if displaced.Some? {
      var id := displaced.value;
      EndWhereKeepsAnchors(socks, b, Numbered(id), STATUS_SUCCESS, false);
      FilterMembers(Misses(Numbered(id)), b.polls);
      OnePollPerId(b, id);
      MainsAreApart(b, request.entries[0].sock);
    }
  }

  lemma SameIndex(polls: seq<Poll>, j: nat, k: nat)
    requires UniqueIds(polls) && j < |polls| && k < |polls| && polls[j].id == polls[k].id
    ensures j == k
  {
  }

  lemma OnePollPerId(b: Board, id: nat)
    requires UniqueIds(b.polls)
    ensures forall p, q :: p in b.polls && q in b.polls && p.id == id && q.id == id ==> p == q
  {
    forall p, q | p in b.polls && q in b.polls && p.id == id && q.id == id ensures p == q {
      var j :| 0 <= j < |b.polls| && b.polls[j] == p;
      var k :| 0 <= k < |b.polls| && b.polls[k] == q;
      SameIndex(b.polls, j, k);
    }
  }

  lemma MainsAreApart(b: Board, anchor: nat)
    requires Anchored(b) && anchor in b.mains
    ensures forall s :: s in b.mains && b.mains[s] == b.mains[anchor] ==> s == anchor
  {
    OnePollPerId(b, b.mains[anchor]);
    assert AnchoredAt(b.polls, anchor, b.mains[anchor]);
    forall s | s in b.mains && b.mains[s] == b.mains[anchor] ensures s == anchor {
      assert AnchoredAt(b.polls, s, b.mains[s]);
    }
  }

  /** A poll becomes its anchor's main exactly when the anchor has none once displacement is done. */
  lemma BecomesMainExactly(socks: seq<Sock>, b: Board, request: Poll, now: int, prepared: Status)
    requires Anchored(b) && forall p :: p in b.polls ==> p.id != request.id
    ensures var (c, answer) := PollVerb(socks, b, request, now, prepared);
            && Anchored(c)
            && (answer.Parked? ==>
                 var anchor := request.entries[0].sock;
                 (anchor in c.mains && c.mains[anchor] == request.id
                  <==> anchor !in b.mains || Displaced(b, request).Some?))
  {
    if request.entries != [] {
      var c, anchor := Displace(socks, b, request), request.entries[0].sock;
      DisplaceEndsOnlyTheMain(socks, b, request);
      ParkKeepsAnchors(c, request.(deadline := Deadline(request.timeout, now)));
      if anchor in b.mains {
        assert AnchoredAt(b.polls, anchor, b.mains[anchor]);
        if Displaced(b, request).Some? {
          EndWhereKeepsAnchors(socks, b, Numbered(b.mains[anchor]), STATUS_SUCCESS, false);
          assert EndsMain(b, Numbered(b.mains[anchor]), anchor);
        }
      } else {
        DisplaceKeepsMains(socks, b, request);
      }
    }
  }

  lemma DisplaceKeepsMains(socks: seq<Sock>, b: Board, request: Poll)
    requires Anchored(b) && request.entries != []
    ensures forall s :: s in Displace(socks, b, request).mains ==>
              s in b.mains && Displace(socks, b, request).mains[s] == b.mains[s]
  {
    var displaced := Displaced(b, request);
    if displaced.Some? {
      EndWhereKeepsAnchors(socks, b, Numbered(displaced.value), STATUS_SUCCESS, false);
    }
  }

  // ---------------------------------------------------------------- expiry

  const NONE_MS := 0xffff_ffff

  /** The nearest deadline; INFINITE when none is finite. */
  function Nearest(polls: seq<Poll>): int {
    if polls == [] then INFINITE else Min(Nearest(polls[..|polls| - 1]), polls[|polls| - 1].deadline)
  }

  /** AfdNextPollDelayMs. */
  function NextDelayMs(polls: seq<Poll>, now: int): nat {
    var nearest := Nearest(polls);
    if nearest >= INFINITE then NONE_MS
    else if nearest <= now then 0
    else
      var ms := (nearest - now) / 10000;
      if ms >= 0xffff_ffff then 0xffff_fffe else ms + 1
  }

  predicate Due(poll: Poll, now: int) { poll.deadline != INFINITE && poll.deadline <= now }

  function IsDue(now: int): Poll -> bool { (p: Poll) => Due(p, now) }

  /** AfdPollTick. */
  function Tick(socks: seq<Sock>, b: Board, now: int): Board { EndWhere(socks, b, IsDue(now), STATUS_TIMEOUT, false) }

  /** Every deadline is a LONGLONG. */
  ghost predicate Longs(polls: seq<Poll>) { forall p :: p in polls ==> p.deadline <= INFINITE }

  lemma {:induction false} NearestIsLeast(polls: seq<Poll>)
    requires Longs(polls)
    ensures Nearest(polls) <= INFINITE
    ensures forall p :: p in polls ==> Nearest(polls) <= p.deadline
    ensures Nearest(polls) != INFINITE ==> exists p :: p in polls && p.deadline == Nearest(polls)
  {
    if polls != [] {
      var front, last := polls[..|polls| - 1], polls[|polls| - 1];
      assert polls == front + [last];
      NearestIsLeast(front);
      if Nearest(polls) == last.deadline {
        assert last in polls;
      } else {
        var p :| p in front && p.deadline == Nearest(front);
        assert p in polls;
      }
    }
  }

  /** The delay is 0 exactly when a poll is due; it is the "none" value exactly when no deadline is finite or the
      quotient is the one value that collides with it. */
  lemma DelaySentinelsExactly(polls: seq<Poll>, now: int)
    requires Longs(polls) && now < INFINITE
    ensures NextDelayMs(polls, now) == 0 <==> exists p :: p in polls && Due(p, now)
    ensures NextDelayMs(polls, now) == NONE_MS <==>
              (forall p :: p in polls ==> p.deadline == INFINITE)
              || (Nearest(polls) > now && Nearest(polls) != INFINITE && (Nearest(polls) - now) / 10000 == 0xffff_fffe)
  {
    NearestIsLeast(polls);
    if Nearest(polls) != INFINITE {
      var p :| p in polls && p.deadline == Nearest(polls);
      assert p.deadline <= now ==> Due(p, now);
    }
  }

  /** A poll that is due that far ahead, and the answer "no deadline". */
  lemma DelayCollides(poll: Poll, now: int)
    requires poll.deadline == now + 10000 * 0xffff_fffe && poll.deadline < INFINITE
    ensures NextDelayMs([poll], now) == NONE_MS && Nearest([poll]) == poll.deadline
  {
    NearestIsLeast([poll]);
    DelaySentinelsExactly([poll], now);
    assert (poll.deadline - now) / 10000 == 0xffff_fffe;
  }

  /** Below the colliding quotient, sleeping the delay passes the nearest deadline by more than 0 and at most 1 ms, so
      the tick after it ends that poll; above it the sleep falls short. */
  lemma DelayReachesDeadline(socks: seq<Sock>, b: Board, now: int)
    requires Longs(b.polls) && now < Nearest(b.polls) < INFINITE
    ensures var delay, gap := NextDelayMs(b.polls, now), Nearest(b.polls) - now;
            && (gap / 10000 < 0xffff_fffe ==> 0 < 10000 * delay - gap <= 10000)
            && (gap / 10000 > 0xffff_fffe ==> 10000 * delay < gap)
    ensures (Nearest(b.polls) - now) / 10000 < 0xffff_fffe ==>
              forall p :: p in b.polls && p.deadline == Nearest(b.polls) ==>
                p !in Tick(socks, b, now + 10000 * NextDelayMs(b.polls, now)).polls
  {
    var gap := Nearest(b.polls) - now;
    assert gap == 10000 * (gap / 10000) + gap % 10000;
    FilterMembers(Misses(IsDue(now + 10000 * NextDelayMs(b.polls, now))), b.polls);
  }

  /** A tick ends exactly the due polls, in list order, each with the empty head; an infinite one never. */
  lemma TickEndsDue(socks: seq<Sock>, b: Board, now: int)
    ensures forall p :: p in Tick(socks, b, now).polls <==> p in b.polls && !Due(p, now)
    ensures forall p :: p in b.polls && p.deadline == INFINITE ==> p in Tick(socks, b, now).polls
    ensures var due, ended := Filter(IsDue(now), b.polls), Tick(socks, b, now).ended;
            && (forall p :: p in due <==> p in b.polls && Due(p, now))
            && |ended| == |b.ended| + |due|
            && (forall k :: 0 <= k < |due| ==> ended[|b.ended| + k] == PollEnd(due[k].id, STATUS_TIMEOUT, Some([])))
  {
    FilterMembers(Misses(IsDue(now)), b.polls);
    FilterMembers(IsDue(now), b.polls);
    EndsLength(socks, Filter(IsDue(now), b.polls), STATUS_TIMEOUT, false);
  }

  // ---------------------------------------------------------------- whole runs

  datatype Step =
    | Asked(socks: seq<Sock>, request: Poll, now: int, prepared: Status)
    | Evaluated(socks: seq<Sock>)
    | Ticked(socks: seq<Sock>, now: int)
    | Torn(socks: seq<Sock>, hit: Poll -> bool, status: Status)

  ghost predicate Runs(b: Board, steps: seq<Step>, c: Board)
    decreases |steps|
  {
    if steps == [] then c == b
    else
      match steps[0]
      case Asked(socks, request, now, prepared) =>
        (forall p :: p in b.polls ==> p.id != request.id) &&
          Runs(PollVerb(socks, b, request, now, prepared).0, steps[1..], c)
      case Evaluated(socks) => Runs(Evaluate(socks, b), steps[1..], c)
      case Ticked(socks, now) => Runs(Tick(socks, b, now), steps[1..], c)
      case Torn(socks, hit, status) => Runs(EndWhere(socks, b, hit, status, false), steps[1..], c)
  }

  /** In every reachable state a socket's main poll is a parked poll whose first entry is that socket. */
  lemma {:induction false} RunKeepsAnchors(b: Board, steps: seq<Step>, c: Board)
    requires Anchored(b) && Runs(b, steps, c)
    ensures Anchored(c)
    decreases |steps|
  {
    if steps != [] {
      match steps[0] {
        case Asked(socks, request, now, prepared) =>
          BecomesMainExactly(socks, b, request, now, prepared);
          RunKeepsAnchors(PollVerb(socks, b, request, now, prepared).0, steps[1..], c);
        case Evaluated(socks) =>
          EndWhereKeepsAnchors(socks, b, IsReady(socks), STATUS_SUCCESS, true);
          RunKeepsAnchors(Evaluate(socks, b), steps[1..], c);
        case Ticked(socks, now) =>
          EndWhereKeepsAnchors(socks, b, IsDue(now), STATUS_TIMEOUT, false);
          RunKeepsAnchors(Tick(socks, b, now), steps[1..], c);
        case Torn(socks, hit, status) =>
          EndWhereKeepsAnchors(socks, b, hit, status, false);
          RunKeepsAnchors(EndWhere(socks, b, hit, status, false), steps[1..], c);
      }
    }
  }
}
