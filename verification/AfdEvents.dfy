/**
 The event-select latch (drivers/afd.c:685-698, 2351-2455, 2917-2922): edges accumulate until they are reported, an
 armed event is set while a wanted edge is outstanding, and arming implies nonblocking mode.

 Bit words are sets of bit numbers. `signaled` is the set of events currently set; nothing else sets or clears the
 armed event.
 */
module AfdEvents {
  import opened NtKernel

  const AFD_POLL_BIT_COUNT := 13

  datatype Latch = Latch(
    created: bool,
    pending: set<nat>,
    status: seq<Status>,
    event: Option<nat>,
    mask: set<nat>,
    nonBlocking: bool,
    signaled: set<nat>)

  datatype Report = Report(flags: set<nat>, status: seq<Status>)

  datatype Step =
    | Raised(bit: nat, bitStatus: Status)
    | Selected(event: Option<nat>, mask: set<nat>)
    | Got(reset: Option<nat>)
    | Blocked(on: bool)
    | Cleaned

  predicate Shaped(l: Latch) { |l.status| == AFD_POLL_BIT_COUNT }

  /** AfdRaiseEvent. */
  function Raise(l: Latch, bit: nat, bitStatus: Status): Latch
    requires Shaped(l) && bit < AFD_POLL_BIT_COUNT
  {
    l.(pending := l.pending + {bit},
       status := if bitStatus != STATUS_SUCCESS then l.status[bit := bitStatus] else l.status,
       signaled := if l.event.Some? && bit in l.mask then l.signaled + {l.event.value} else l.signaled)
  }

  /** AfdEventSelect, once its event handle is resolved. */
  function Select(l: Latch, event: Option<nat>, mask: set<nat>): (Latch, Status) {
    if !l.created || (event.None? && mask != {}) then (l, STATUS_INVALID_PARAMETER)
    else if event.None? then (l.(event := None, mask := {}), STATUS_SUCCESS)
    else
      (l.(event := event, mask := mask, nonBlocking := true,
          signaled := if l.pending * mask != {} then l.signaled + {event.value} else l.signaled), STATUS_SUCCESS)
  }

  /** AfdGetEvents; `reset` is the event its caller asks to clear. */
  function Get(l: Latch, reset: Option<nat>): (Latch, Option<Report>) {
    if !l.created then (l, None)
    else
      (l.(pending := l.pending - l.pending * l.mask,
          signaled := if reset.Some? then l.signaled - {reset.value} else l.signaled),
       Some(Report(l.pending * l.mask, l.status)))
  }

  /** AfdFionbio. */
  function Fionbio(l: Latch, on: bool): (Latch, Status) {
    if !l.created || (!on && l.mask != {}) then (l, STATUS_INVALID_PARAMETER)
    else (l.(nonBlocking := on), STATUS_SUCCESS)
  }

  function Next(l: Latch, step: Step): Latch
    requires Shaped(l)
  {
    match step
    case Raised(bit, bitStatus) => if bit < AFD_POLL_BIT_COUNT then Raise(l, bit, bitStatus) else l
    case Selected(event, mask) => Select(l, event, mask).0
    case Got(reset) => Get(l, reset).0
    case Blocked(on) => Fionbio(l, on).0
    case Cleaned => l.(event := None, mask := {})
  }

  function Fresh(): Latch {
    Latch(true, {}, seq(AFD_POLL_BIT_COUNT, _ => STATUS_SUCCESS), None, {}, false, {})
  }

  function Run(trace: seq<Step>): (l: Latch)
    ensures Shaped(l) && l.created
  {
    if trace == [] then Fresh() else Next(Run(trace[..|trace| - 1]), trace[|trace| - 1])
  }

  // ---------------------------------------------------------------- the latch, read off the trace

  /** The mask of the last accepted selection. */
  function MaskOf(trace: seq<Step>): set<nat> {
    if trace == [] then {}
    else
      match trace[|trace| - 1]
      case Selected(event, mask) =>
        if event.Some? then mask else if mask == {} then {} else MaskOf(trace[..|trace| - 1])
      case Cleaned => {}
      case _ => MaskOf(trace[..|trace| - 1])
  }

  /** The bit was raised since it was last reported; a report covers the bits of the mask at that moment. */
  predicate Outstanding(trace: seq<Step>, bit: nat) {
    trace != []
    && var front := trace[..|trace| - 1];
       match trace[|trace| - 1]
       case Raised(b, _) => (b == bit && bit < AFD_POLL_BIT_COUNT) || Outstanding(front, bit)
       case Got(_) => Outstanding(front, bit) && bit !in MaskOf(front)
       case _ => Outstanding(front, bit)
  }

  /** The last failing status the bit was raised with. */
  function LastStatus(trace: seq<Step>, bit: nat): Status {
    if trace == [] then STATUS_SUCCESS
    else
      match trace[|trace| - 1]
      case Raised(b, s) => if b == bit && s != STATUS_SUCCESS then s else LastStatus(trace[..|trace| - 1], bit)
      case _ => LastStatus(trace[..|trace| - 1], bit)
  }

  lemma {:induction false} LatchFollowsTrace(trace: seq<Step>)
    ensures Run(trace).mask == MaskOf(trace)
    ensures forall bit: nat :: bit in Run(trace).pending <==> Outstanding(trace, bit)
    ensures forall bit :: 0 <= bit < AFD_POLL_BIT_COUNT ==> Run(trace).status[bit] == LastStatus(trace, bit)
  {
    if trace != [] {
      LatchFollowsTrace(trace[..|trace| - 1]);
    }
  }

  /** Over any run, a get-events reports a bit exactly when it was raised since its last report and is in the current
      mask, with the last failing status it was raised with. */
  lemma ReportedExactly(trace: seq<Step>, reset: Option<nat>)
    ensures var report := Get(Run(trace), reset).1;
            report.Some? && |report.value.status| == AFD_POLL_BIT_COUNT
            && (forall bit: nat :: bit in report.value.flags <==> Outstanding(trace, bit) && bit in MaskOf(trace))
            && (forall bit :: 0 <= bit < AFD_POLL_BIT_COUNT ==> report.value.status[bit] == LastStatus(trace, bit))
    ensures forall bit: nat :: bit in Get(Run(trace), reset).1.value.flags ==> !Outstanding(trace + [Got(reset)], bit)
  {
    LatchFollowsTrace(trace);
    assert (trace + [Got(reset)])[..|trace|] == trace;
  }

  // ---------------------------------------------------------------- what every run keeps

  predicate Armed(l: Latch) {
    && (l.pending * l.mask != {} ==> l.event.Some? && l.event.value in l.signaled)
    && (l.mask != {} ==> l.nonBlocking && l.event.Some?)
  }

  /** A wanted edge that is outstanding keeps the armed event set, and a socket with an armed mask is nonblocking. */
  lemma {:induction false} RunStaysArmed(trace: seq<Step>)
    ensures Armed(Run(trace))
  {
    if trace != [] {
      var l := Run(trace[..|trace| - 1]);
      RunStaysArmed(trace[..|trace| - 1]);
      match trace[|trace| - 1] {
        case Raised(bit, bitStatus) =>
          if bit < AFD_POLL_BIT_COUNT {
            RaiseStaysArmed(l, bit, bitStatus);
          }
        case Got(reset) => assert (l.pending - l.pending * l.mask) * l.mask == {};
        case _ =>
      }
    }
  }

  lemma RaiseStaysArmed(l: Latch, bit: nat, bitStatus: Status)
    requires Shaped(l) && Armed(l) && bit < AFD_POLL_BIT_COUNT
    ensures Armed(Raise(l, bit, bitStatus))
  {
    if bit !in l.mask {
      assert (l.pending + {bit}) * l.mask == l.pending * l.mask;
    } else {
      assert bit in l.mask;
    }
  }

  // ---------------------------------------------------------------- the verbs' answers

  /** An edge is outstanding from now on, a failing status is kept, and the armed event is set exactly if it wants the
      bit. */
  lemma RaiseOutcome(l: Latch, bit: nat, bitStatus: Status)
    requires Shaped(l) && bit < AFD_POLL_BIT_COUNT
    ensures var m := Raise(l, bit, bitStatus);
            && m == l.(pending := m.pending, status := m.status, signaled := m.signaled)
            && (forall b :: b in m.pending <==> b in l.pending || b == bit)
            && (forall b :: 0 <= b < AFD_POLL_BIT_COUNT ==>
                 m.status[b] == if b == bit && bitStatus != STATUS_SUCCESS then bitStatus else l.status[b])
            && (forall event ::
                 event in m.signaled <==> event in l.signaled || (l.event == Some(event) && bit in l.mask))
  {
  }

  /** Selecting without an event clears the selection, and is refused if bits are asked for; with one it arms event
      and mask, makes the socket nonblocking, and sets the event at once if a wanted edge is outstanding. */
  lemma SelectOutcome(l: Latch, event: Option<nat>, mask: set<nat>)
    ensures var (m, status) := Select(l, event, mask);
            && (!l.created || (event == None && exists bit :: bit in mask) ==>
                 m == l && status == STATUS_INVALID_PARAMETER)
            && (l.created && event == None && mask == {} ==>
                 status == STATUS_SUCCESS && m == l.(event := None, mask := {}))
            && (l.created && event.Some? ==>
                 && status == STATUS_SUCCESS && m.event == event && m.mask == mask && m.nonBlocking
                 && m.pending == l.pending && m.status == l.status
                 && m.signaled
                      == l.signaled + if exists bit :: bit in l.pending && bit in mask then {event.value} else {})
  {
    if exists bit :: bit in l.pending && bit in mask {
      var bit :| bit in l.pending && bit in mask;
      assert bit in l.pending * mask;
    }
    assert l.signaled + {} == l.signaled;
  }

  /** A report takes the wanted bits off the outstanding ones and clears the event its caller names; the statuses
      stay. */
  lemma GetOutcome(l: Latch, reset: Option<nat>)
    ensures !l.created ==> Get(l, reset) == (l, None)
    ensures var (m, report) := Get(l, reset);
            l.created ==>
              && report.Some? && report.value.status == l.status
              && (forall bit :: bit in report.value.flags <==> bit in l.pending && bit in l.mask)
              && (forall bit :: bit in m.pending <==> bit in l.pending && bit !in l.mask)
              && (forall event :: event in m.signaled <==> event in l.signaled && reset != Some(event))
              && m == l.(pending := m.pending, signaled := m.signaled)
  {
  }

  /** Leaving nonblocking mode is refused while a mask is armed. */
  lemma FionbioOutcome(l: Latch, on: bool)
    ensures var (m, status) := Fionbio(l, on);
            if !l.created || (!on && exists bit :: bit in l.mask) then m == l && status == STATUS_INVALID_PARAMETER
            else m == l.(nonBlocking := on) && status == STATUS_SUCCESS
  {
  }

  // ---------------------------------------------------------------- the driver's fields

  class EventLatch {
    var created: bool
    var pendingEvents: set<nat>
    var statusPerBit: array<Status>
    var selectEvent: Option<nat>
    var selectMask: set<nat>
    var nonBlocking: bool
    var signaled: set<nat>

    ghost predicate Valid()
      reads this
    {
      statusPerBit.Length == AFD_POLL_BIT_COUNT
    }

    ghost function View(): (l: Latch)
      reads this, statusPerBit
    {
      Latch(created, pendingEvents, statusPerBit[..], selectEvent, selectMask, nonBlocking, signaled)
    }

    constructor ()
      ensures Valid() && View() == Run([])
    {
      created, pendingEvents, selectEvent, selectMask, nonBlocking, signaled := true, {}, None, {}, false, {};
      statusPerBit := new Status[AFD_POLL_BIT_COUNT](_ => STATUS_SUCCESS);
    }

    method RaiseEvent(bit: nat, bitStatus: Status)
      requires Valid() && bit < AFD_POLL_BIT_COUNT
      modifies this, statusPerBit
      ensures Valid() && statusPerBit == old(statusPerBit) && View() == Raise(old(View()), bit, bitStatus)
    {
      pendingEvents := pendingEvents + {bit};
      if bitStatus != STATUS_SUCCESS {
        statusPerBit[bit] := bitStatus;
      }
      if selectEvent.Some? && bit in selectMask {
        signaled := signaled + {selectEvent.value};
      }
    }

    method EventSelect(event: Option<nat>, mask: set<nat>) returns (status: Status)
      requires Valid()
      modifies this
      ensures Valid() && statusPerBit == old(statusPerBit) && (View(), status) == Select(old(View()), event, mask)
    {
      if !created {
        return STATUS_INVALID_PARAMETER;
      }
      if event.None? && mask != {} {
        return STATUS_INVALID_PARAMETER;
      }
      selectEvent := event;
      selectMask := if event.Some? then mask else {};
      if event.Some? {
        nonBlocking := true;
        if pendingEvents * selectMask != {} {
          signaled := signaled + {event.value};
        }
      }
      return STATUS_SUCCESS;
    }

    method GetEvents(reset: Option<nat>) returns (report: Option<Report>)
      requires Valid()
      modifies this
      ensures Valid() && statusPerBit == old(statusPerBit) && (View(), report) == Get(old(View()), reset)
    {
      if !created {
        return None;
      }
      if reset.Some? {
        signaled := signaled - {reset.value};
      }
      var flags := pendingEvents * selectMask;
      pendingEvents := pendingEvents - flags;
      var status: seq<Status> := [];
      var i := 0;
      while i < AFD_POLL_BIT_COUNT
        invariant 0 <= i <= AFD_POLL_BIT_COUNT && status == statusPerBit[..i]
      {
        status := status + [statusPerBit[i]];
        i := i + 1;
      }
      assert statusPerBit[..AFD_POLL_BIT_COUNT] == statusPerBit[..];
      return Some(Report(flags, status));
    }

    method SetNonBlocking(on: bool) returns (status: Status)
      requires Valid()
      modifies this
      ensures Valid() && statusPerBit == old(statusPerBit) && (View(), status) == Fionbio(old(View()), on)
    {
      if !created {
        return STATUS_INVALID_PARAMETER;
      }
      if !on && selectMask != {} {
        return STATUS_INVALID_PARAMETER;
      }
      nonBlocking := on;
      return STATUS_SUCCESS;
    }
  }
}
