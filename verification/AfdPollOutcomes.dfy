/**
 What a poll sees, answers and ends with, on the fields (drivers/afd.c:700-869, 2037-2059, 2457-2657): every level bit,
 every slot, every arm of the verb, and how parked polls end.
 */
module AfdPollOutcomes {
  import opened NtKernel
  import opened Lists
  import opened AfdTypes
  import opened AfdPoll
  import AfdSend

  // ---------------------------------------------------------------- levels

  predicate LiveStream(s: Sock) { !s.datagram && s.box.out.Some? && s.box.connected }

  /** The other end of a loopback connection. */
  predicate Twins(socks: seq<Sock>, i: nat, j: nat)
    requires i < |socks| && j < |socks|
  {
    && i != j && socks[j].listed && LiveStream(socks[i]) && LiveStream(socks[j])
    && socks[i].ports.0 == socks[j].ports.1 && socks[i].ports.1 == socks[j].ports.0
  }

  /** The first such socket of the list. */
  ghost predicate FirstTwin(socks: seq<Sock>, i: nat, from: nat, j: nat)
    requires i < |socks|
  {
    from <= j < |socks| && Twins(socks, i, j) && forall k :: from <= k < j ==> !Twins(socks, i, k)
  }

  lemma {:induction false} PeerIsFirstTwin(socks: seq<Sock>, i: nat, from: nat)
    requires i < |socks| && from <= |socks|
    ensures forall j: nat :: FindPeer(socks, i, from) == Some(j) <==> FirstTwin(socks, i, from, j)
    decreases |socks| - from
  {
    if from < |socks| {
      PeerIsFirstTwin(socks, i, from + 1);
      forall j: nat ensures FindPeer(socks, i, from) == Some(j) <==> FirstTwin(socks, i, from, j) {
        if Twins(socks, i, from) {
          assert FirstTwin(socks, i, from, from);
        } else {
          assert FirstTwin(socks, i, from, j) <==> FirstTwin(socks, i, from + 1, j);
        }
      }
    }
  }

  /** The peer's ring is half full. */
  ghost predicate Congested(socks: seq<Sock>, i: nat)
    requires i < |socks|
  {
    exists j: nat :: FirstTwin(socks, i, 0, j) && 2 * |socks[j].intake.buffered| >= 23360
  }

  lemma WritableOutcome(socks: seq<Sock>, i: nat)
    requires i < |socks|
    ensures Writable(socks, i) <==>
              socks[i].box.out.None? || (2 * socks[i].box.out.value.room >= 11680 && !Congested(socks, i))
  {
    PeerIsFirstTwin(socks, i, 0);
    var peer := FindPeer(socks, i, 0);
    if peer.Some? {
      assert FirstTwin(socks, i, 0, peer.value);
      assert forall j: nat :: FirstTwin(socks, i, 0, j) ==> j == peer.value;
    }
  }

  /** Each bit of the level, by the kind of socket. */
  lemma LevelOutcome(socks: seq<Sock>, i: nat, bit: Bit)
    requires i < |socks|
    ensures var s := socks[i];
            && (s.box.dead ==> (bit in Level(socks, i) <==> bit == CloseBit))
            && (!s.box.dead && s.datagram ==>
                 (bit in Level(socks, i) <==> bit == WriteBit || (bit == ReadBit && s.datagrams != [])))
            && (!s.box.dead && !s.datagram && s.listening ==>
                 (bit in Level(socks, i) <==> (bit == ReadBit && s.intake.buffered != [])
                                              || (bit == AcceptBit && s.acceptQueue != [])))
    ensures var s := socks[i];
            !s.box.dead && !s.datagram && !s.listening ==>
              (bit in Level(socks, i) <==>
                 match bit
                 case ReadBit => s.intake.buffered != []
                 case HupBit => s.intake.peerClosed && s.intake.buffered == []
                 case ConnectBit => s.box.connected
                 case WriteBit =>
                   s.box.connected
                   && (s.box.out.None? || (2 * s.box.out.value.room >= 11680 && !Congested(socks, i)))
                 case OobBit => s.latches.oobValid
                 case ResetBit => s.latches.resetLatch
                 case ConnectErrBit => s.latches.connectErr != 0
                 case AcceptBit => false
                 case CloseBit => false)
  {
    WritableOutcome(socks, i);
  }

  // ---------------------------------------------------------------- slots

  /** An entry sees the bits of its socket that it asks for, and CLOSE always. */
  lemma VisibleOutcome(socks: seq<Sock>, entry: Entry, bit: Bit)
    requires entry.sock < |socks|
    ensures bit in Visible(socks, entry) <==> bit in Level(socks, entry.sock) && (bit in entry.mask || bit == CloseBit)
  {
  }

  /** A slot says which handle, which bits, and the failed connect's status exactly when that bit is among them. */
  predicate Reports(socks: seq<Sock>, entry: Entry, slot: Slot)
    requires entry.sock < |socks|
  {
    && slot.handle == entry.handle && slot.flags == Visible(socks, entry)
    && slot.status == if ConnectErrBit in slot.flags then socks[entry.sock].latches.connectErr else 0
  }

  /** The inline report: one slot per visible entry, in entry order. */
  lemma {:induction false} InlineOutcome(socks: seq<Sock>, entries: seq<Entry>, k: nat)
    requires k < |entries| && entries[k].sock < |socks| && Visible(socks, entries[k]) != {}
    ensures var at := |InlineSlots(socks, entries[..k])|;
            at < |InlineSlots(socks, entries)| && Reports(socks, entries[k], InlineSlots(socks, entries)[at])
    decreases |entries|
  {
    var front := entries[..|entries| - 1];
    if k < |front| {
      assert front[..k] == entries[..k];
      InlineOutcome(socks, front, k);
    } else {
      assert entries[..k] == front;
    }
  }

  /** The parked report: the same, with later entries of a socket left out. */
  lemma {:induction false} ParkedOutcome(socks: seq<Sock>, entries: seq<Entry>, k: nat)
    requires k < |entries| && entries[k].sock < |socks| && Visible(socks, entries[k]) != {}
    requires forall j :: 0 <= j < k ==> entries[j].sock != entries[k].sock
    ensures var at := |ParkedSlots(socks, entries[..k])|;
            at < |ParkedSlots(socks, entries)| && Reports(socks, entries[k], ParkedSlots(socks, entries)[at])
    decreases |entries|
  {
    var front := entries[..|entries| - 1];
    if k < |front| {
      assert front[..k] == entries[..k];
      ParkedOutcome(socks, front, k);
    } else {
      assert entries[..k] == front;
    }
  }

  /** Neither report holds anything else. */
  lemma {:induction false} NoOtherSlots(socks: seq<Sock>, entries: seq<Entry>, slot: Slot)
    requires slot in InlineSlots(socks, entries) || slot in ParkedSlots(socks, entries)
    ensures exists entry :: entry in entries && entry.sock < |socks| && Visible(socks, entry) != {}
                            && Reports(socks, entry, slot)
    decreases |entries|
  {
    var front, last := entries[..|entries| - 1], entries[|entries| - 1];
    if slot in InlineSlots(socks, front) || slot in ParkedSlots(socks, front) {
      NoOtherSlots(socks, front, slot);
      var entry :| entry in front && entry.sock < |socks| && Visible(socks, entry) != {} && Reports(socks, entry, slot);
      assert entry in entries;
    } else {
      assert last in entries && Reports(socks, last, slot);
    }
  }

  // ---------------------------------------------------------------- the verb

  /** A relative timeout counts from now, an absolute one is the deadline, and the greatest LONGLONG is never. */
  lemma DeadlineOutcome(timeout: int, now: int)
    ensures timeout == 0x7fff_ffff_ffff_ffff ==> Deadline(timeout, now) == 0x7fff_ffff_ffff_ffff
    ensures 0 <= timeout < 0x7fff_ffff_ffff_ffff ==> Deadline(timeout, now) == timeout
    ensures -0x8000_0000_0000_0000 < timeout < 0 && 0 <= now - timeout <= 0x7fff_ffff_ffff_ffff ==>
              Deadline(timeout, now) == now - timeout
  {
  }

  lemma {:induction false} SomethingInline(socks: seq<Sock>, entries: seq<Entry>)
    ensures AnyReady(socks, entries) <==> exists entry :: entry in entries && Visible(socks, entry) != {}
    ensures InlineSlots(socks, entries) != [] <==> exists entry :: entry in entries && Visible(socks, entry) != {}
  {
    if entries != [] {
      var front, last := entries[..|entries| - 1], entries[|entries| - 1];
      SomethingInline(socks, front);
      assert entries == front + [last];
      if entry :| entry in front && Visible(socks, entry) != {} {
        assert entry in entries;
      }
    }
  }

  /** A poll with a count out of range is refused; one that sees something, or does not want to wait, is answered
      inline and changes nothing; any other waits behind the polls that were there, with its deadline, once the poll
      it displaces has ended with success and no slot. */
  lemma VerbOutcome(socks: seq<Sock>, b: Board, request: Poll, now: int, prepared: Status)
    ensures var (c, answer) := PollVerb(socks, b, request, now, prepared);
            var ready := exists entry :: entry in request.entries && Visible(socks, entry) != {};
            && (|request.entries| == 0 || |request.entries| > 64 ==>
                 c == b && answer == Refused(STATUS_INVALID_PARAMETER))
            && (0 < |request.entries| <= 64 && (ready || request.timeout == 0) ==>
                 c == b && answer == Inline(InlineSlots(socks, request.entries)))
            && (0 < |request.entries| <= 64 && !ready && request.timeout != 0 ==>
                 && c.ended == b.ended + (if Displaced(b, request).Some?
                                          then Displacements(b, Displaced(b, request).value) else [])
                 && (!NtSuccess(prepared) ==> answer == Refused(prepared))
                 && (NtSuccess(prepared) ==>
                      && answer == Parked && c.polls != []
                      && var parked := c.polls[|c.polls| - 1];
                         parked == request.(deadline := Deadline(request.timeout, now))
                         && c.polls[..|c.polls| - 1]
                            == if Displaced(b, request).Some?
                               then Filter((p: Poll) => p.id != Displaced(b, request).value, b.polls) else b.polls))
  {
    SomethingInline(socks, request.entries);
    if 0 < |request.entries| {
      var displaced := Displaced(b, request);
      if displaced.Some? {
        DisplacedEnd(socks, b, displaced.value);
        FilterSame((p: Poll) => p.id != displaced.value, Misses(Numbered(displaced.value)), b.polls);
      }
    }
  }

  /** Success and an empty report for each parked poll with this id. */
  function Displacements(b: Board, id: nat): seq<PollEnd> {
    seq(|Filter(Numbered(id), b.polls)|, _ => PollEnd(id, STATUS_SUCCESS, Some([])))
  }

  lemma DisplacedEnd(socks: seq<Sock>, b: Board, id: nat)
    ensures EndWhere(socks, b, Numbered(id), STATUS_SUCCESS, false).ended == b.ended + Displacements(b, id)
  {
    var due := Filter(Numbered(id), b.polls);
    EndsLength(socks, due, STATUS_SUCCESS, false);
    FilterMembers(Numbered(id), b.polls);
    forall k | 0 <= k < |due|
      ensures Ends(socks, due, STATUS_SUCCESS, false)[k] == PollEnd(id, STATUS_SUCCESS, Some([]))
    {
      assert due[k] in due;
    }
    assert Ends(socks, due, STATUS_SUCCESS, false) == Displacements(b, id);
  }

  // ---------------------------------------------------------------- ends

  /** However polls are ended, each that is hit ends once, in list order, under its own id with the given status; a
      failing status leaves its caller's buffer alone, and any other brings the report, or the empty head. */
  lemma EndsOutcome(socks: seq<Sock>, b: Board, hit: Poll -> bool, status: Status, report: bool)
    ensures var c, due := EndWhere(socks, b, hit, status, report), Filter(hit, b.polls);
            && |c.ended| == |b.ended| + |due| && b.ended <= c.ended
            && (forall k :: 0 <= k < |due| ==>
                 var e := c.ended[|b.ended| + k];
                 && e.id == due[k].id && e.status == status
                 && (e.report.None? <==> status < 0 && status != STATUS_TIMEOUT)
                 && (e.report.Some? ==> e.report.value == if report then ParkedSlots(socks, due[k].entries) else []))
  {
    EndsLength(socks, Filter(hit, b.polls), status, report);
  }
}
