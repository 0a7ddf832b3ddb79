/**
 The receive side of a stream socket (drivers/afd.c:416-516, 909-953, 975-1004, 1175-1191, 1252-1287, 2976-2990):
 a circular buffer that lwIP fills, the two flat readers and the scatter reader that empty it, and the window credit
 that is owed back to lwIP for every byte taken.

 `Intake` is the value of that state, with the bytes in arrival order; class `Stream` is the driver's ring over an
 array, proved against it.
 */
module AfdStream {
  import opened NtKernel

  const TCP_MSS := 1460
  const TCP_WND := 8 * TCP_MSS
  const AFD_RING_CAPACITY := 2 * TCP_WND
  const BOUNCE_SIZE := 512

  /** One user buffer: a virtual address in the owner's space and a length. */
  datatype Seg = Seg(base: nat, length: nat)

  /** The edges that consuming may raise. */
  datatype Edge = ReadEdge | HupEdge

  datatype Intake = Intake(
    live: bool,
    window: nat,
    buffered: seq<byte>,
    owed: nat,
    peerClosed: bool,
    edges: seq<Edge>)

  // ---------------------------------------------------------------- the steps

  function Flatten(chain: seq<seq<byte>>): seq<byte> {
    if chain == [] then [] else chain[0] + Flatten(chain[1..])
  }

  /** lwIP hands over data; it counted the bytes against the advertised window before the callback. */
  function Arrive(s: Intake, data: seq<byte>): Intake {
    s.(buffered := s.buffered + data, edges := s.edges + [ReadEdge])
  }

  /** The same, with lwIP's own count. */
  function Deliver(s: Intake, data: seq<byte>): Intake {
    Arrive(s.(window := s.window - Min(s.window, |data|)), data)
  }

  function Fin(s: Intake): Intake {
    s.(peerClosed := true, edges := if s.buffered == [] then s.edges + [HupEdge] else s.edges)
  }

  /** Remove a prefix and owe its window. */
  function Take(s: Intake, limit: nat): Intake {
    var n := Min(|s.buffered|, limit);
    s.(buffered := s.buffered[n..], owed := s.owed + n)
  }

  function Relatch(s: Intake): Intake {
    if s.buffered != [] then s.(edges := s.edges + [ReadEdge])
    else if s.peerClosed then s.(edges := s.edges + [HupEdge])
    else s
  }

  /** The scatter reader raises edges only when it removed something; the inline flat reader always does. */
  function Consume(s: Intake, limit: nat): Intake {
    if Min(|s.buffered|, limit) == 0 then s else Relatch(Take(s, limit))
  }

  function Flush(s: Intake): Intake {
    if s.live then s.(window := Min(s.window + s.owed, TCP_WND), owed := 0) else s
  }

  function Reset(s: Intake): Intake { s.(live := false, window := 0, owed := 0) }

  /** Claiming a queued connection for a pre-created acceptor: everything but the debt (and the edge latch) moves. */
  function Graft(target: Intake, shell: Intake): Intake {
    target.(live := shell.live, window := shell.window, buffered := shell.buffered, peerClosed := shell.peerClosed)
  }

  // ---------------------------------------------------------------- window credit

  /** What lwIP may still send, what is buffered and what is owed add up to the window it started with; once lwIP's
      end is gone no more can arrive. */
  predicate Credit(s: Intake) {
    if s.live then s.window + |s.buffered| + s.owed == TCP_WND else |s.buffered| + s.owed <= TCP_WND
  }

  /** The receive callback's panic and the push's assert, on a delivery within the advertised window. */
  lemma ArriveKeepsCredit(s: Intake, data: seq<byte>)
    requires Credit(s) && s.live && |data| <= s.window
    ensures |data| <= AFD_RING_CAPACITY - |s.buffered|
    ensures Credit(Deliver(s, data))
  {
  }

  /** A graft keeps the credit exactly when the acceptor owes what the shell owed; an unclaimed shell owes nothing, so
      the acceptor must be one that never received. */
  lemma GraftCredit(target: Intake, shell: Intake)
    requires Credit(shell)
    ensures Credit(Graft(target, shell)) <==>
              if shell.live then target.owed == shell.owed else |shell.buffered| + target.owed <= TCP_WND
  {
  }

  // ---------------------------------------------------------------- whole runs

  /** A graft needs an acceptor that never received and a shell nobody read from. */
  datatype Step =
    | Delivered(chain: seq<seq<byte>>)
    | Closed
    | Scattered(limit: nat)
    | Read(limit: nat)
    | ParkedRead(limit: nat)
    | Flushed
    | Failed
    | Grafted(shell: Intake)

  predicate Enabled(s: Intake, step: Step) {
    match step
    case Delivered(chain) => s.live && !s.peerClosed && |Flatten(chain)| <= s.window
    case Closed => s.live
    case Grafted(shell) => s.buffered == [] && s.owed == 0 && shell.owed == 0 && Credit(shell)
    case _ => true
  }

  function Next(s: Intake, step: Step): Intake {
    match step
    case Delivered(chain) => Deliver(s, Flatten(chain))
    case Closed => Fin(s)
    case Scattered(limit) => Consume(s, limit)
    case Read(limit) => if s.buffered == [] then s else Relatch(Take(s, limit))
    case ParkedRead(limit) => if s.buffered == [] then s else Take(s, limit)
    case Flushed => Flush(s)
    case Failed => Reset(s)
    case Grafted(shell) => Graft(s, shell)
  }

  /** The bytes a step hands to the application. */
  function Handed(s: Intake, step: Step): seq<byte> {
    match step
    case Scattered(limit) => s.buffered[..Min(|s.buffered|, limit)]
    case Read(limit) => s.buffered[..Min(|s.buffered|, limit)]
    case ParkedRead(limit) => s.buffered[..Min(|s.buffered|, limit)]
    case _ => []
  }

  /** The bytes a step brings in. */
  function Brought(step: Step): seq<byte> {
    match step
    case Delivered(chain) => Flatten(chain)
    case Grafted(shell) => shell.buffered
    case _ => []
  }

  ghost predicate Runs(s: Intake, steps: seq<Step>, t: Intake, brought: seq<byte>, handed: seq<byte>)
    decreases |steps|
  {
    if steps == [] then t == s && brought == [] && handed == []
    else
      Enabled(s, steps[0]) && Brought(steps[0]) <= brought && Handed(s, steps[0]) <= handed
      && Runs(Next(s, steps[0]), steps[1..], t, brought[|Brought(steps[0])|..], handed[|Handed(s, steps[0])|..])
  }

  lemma NextKeepsCredit(s: Intake, step: Step)
    requires Credit(s) && Enabled(s, step)
    ensures Credit(Next(s, step))
    ensures s.buffered + Brought(step) == Handed(s, step) + Next(s, step).buffered
  {
  }

  /** Taking by either reader and flushing the debt in the same lwIP seam. */
  lemma ReadAndFlush(s: Intake, limit: nat)
    requires s.buffered != []
    ensures Flush(Take(s, limit)).buffered == Flush(Consume(s, limit)).buffered
              == s.buffered[Min(|s.buffered|, limit)..]
    ensures Credit(s) ==> Credit(Flush(Take(s, limit))) && Credit(Flush(Consume(s, limit)))
  {
  }

  /** Over every run: the credit holds, the ring never holds more than one window (so neither the overflow panic nor
      the push's assert can fire), and the application has been handed exactly a prefix of what arrived, in order. */
  lemma {:induction false} RunKeepsCredit(s: Intake, steps: seq<Step>, t: Intake, brought: seq<byte>, handed: seq<byte>)
    requires Credit(s) && Runs(s, steps, t, brought, handed)
    ensures Credit(t) && |t.buffered| <= TCP_WND
    ensures s.buffered + brought == handed + t.buffered
    decreases |steps|
  {
    if steps != [] {
      var step, u := steps[0], Next(s, steps[0]);
      var b, h := brought[|Brought(step)|..], handed[|Handed(s, step)|..];
      NextKeepsCredit(s, step);
      RunKeepsCredit(u, steps[1..], t, b, h);
      assert brought == Brought(step) + b && handed == Handed(s, step) + h;
      Telescope(s.buffered, Brought(step), b, Handed(s, step), u.buffered, h, t.buffered);
    }
  }

  lemma Telescope<T>(a: seq<T>, b1: seq<T>, b2: seq<T>, h1: seq<T>, u: seq<T>, h2: seq<T>, t: seq<T>)
    requires a + b1 == h1 + u && u + b2 == h2 + t
    ensures a + (b1 + b2) == (h1 + h2) + t
  {
    assert a + (b1 + b2) == (h1 + u) + b2;
    assert (h1 + u) + b2 == h1 + (u + b2);
    assert h1 + (h2 + t) == (h1 + h2) + t;
  }

  /** The three readers take the same prefix and owe the same credit; they differ in the edges only, and exactly when
      something was there to take and something is left to announce. */
  lemma ReadersAgree(s: Intake, limit: nat)
    requires s.buffered != []
    ensures var parked, inline, scattered :=
              Next(s, ParkedRead(limit)), Next(s, Read(limit)), Next(s, Scattered(limit));
            && parked.(edges := []) == inline.(edges := []) == scattered.(edges := [])
            && Handed(s, ParkedRead(limit)) == Handed(s, Read(limit)) == Handed(s, Scattered(limit))
            && (inline == scattered <==> limit > 0)
            && (parked == inline <==> limit >= |s.buffered| && !s.peerClosed)
  {
    var n := Min(|s.buffered|, limit);
    var parked, inline := Next(s, ParkedRead(limit)), Next(s, Read(limit));
    if limit == 0 {
      assert s.buffered[0..] == s.buffered;
      assert |inline.edges| == |s.edges| + 1;
    }
    if n < |s.buffered| || s.peerClosed {
      assert |inline.edges| == |parked.edges| + 1;
    }
  }

  // ---------------------------------------------------------------- what each step does to the fields

  /** Data is appended, uses up window and raises READ; a FIN is latched and raises HUP only on an empty ring. */
  lemma ArrivalFields(s: Intake, data: seq<byte>)
    ensures var t := Deliver(s, data);
            && t.buffered == s.buffered + data && t.edges == s.edges + [ReadEdge]
            && t.window == (if |data| <= s.window then s.window - |data| else 0)
            && t.owed == s.owed && t.live == s.live && t.peerClosed == s.peerClosed
    ensures var t := Fin(s);
            && t.peerClosed && t.buffered == s.buffered && t.window == s.window && t.owed == s.owed && t.live == s.live
            && t.edges == (if |s.buffered| == 0 then s.edges + [HupEdge] else s.edges)
  {
  }

  /** A lost connection drops window and debt and keeps what is buffered; a flush returns the debt to a live one; a
      graft takes over everything but the debt and the edges. */
  lemma ConnectionFields(s: Intake, shell: Intake)
    ensures var t := Reset(s);
            && !t.live && t.window == 0 && t.owed == 0
            && t.buffered == s.buffered && t.peerClosed == s.peerClosed && t.edges == s.edges
    ensures s.live && s.window + s.owed <= TCP_WND ==>
              Flush(s) == s.(window := s.window + s.owed, owed := 0)
    ensures !s.live ==> Flush(s) == s
    ensures var t := Graft(s, shell);
            && t.live == shell.live && t.window == shell.window && t.buffered == shell.buffered
            && t.peerClosed == shell.peerClosed && t.owed == s.owed && t.edges == s.edges
  {
  }

  /** What a reader that relatches adds: READ while data is left, the deferred HUP once a closed stream is drained. */
  function Announced(left: nat, closed: bool): seq<Edge> {
    if left > 0 then [ReadEdge] else if closed then [HupEdge] else []
  }

  /** The scatter reader announces what it leaves if it took something, the inline flat reader always, the parked one
      never; all three take min(buffered, limit) bytes off the front and owe as many. */
  lemma ReaderFields(s: Intake, limit: nat)
    requires s.buffered != []
    ensures var n := if |s.buffered| < limit then |s.buffered| else limit;
            var left := |s.buffered| - n;
            && Next(s, Scattered(limit)) == s.(buffered := s.buffered[n..], owed := s.owed + n,
                                               edges := if n == 0 then s.edges
                                                        else s.edges + Announced(left, s.peerClosed))
            && Next(s, Read(limit)) == s.(buffered := s.buffered[n..], owed := s.owed + n,
                                          edges := s.edges + Announced(left, s.peerClosed))
            && Next(s, ParkedRead(limit)) == s.(buffered := s.buffered[n..], owed := s.owed + n)
            && Handed(s, Scattered(limit)) == Handed(s, Read(limit)) == Handed(s, ParkedRead(limit)) == s.buffered[..n]
  {
    assert s.edges + [] == s.edges && s.buffered[0..] == s.buffered;
  }

  // ---------------------------------------------------------------- scattering into user buffers

  function Total(segs: seq<Seg>): nat { if segs == [] then 0 else segs[0].length + Total(segs[1..]) }

  /** Writing a run of bytes into an address space. */
  function Store(memory: map<nat, byte>, base: nat, data: seq<byte>): map<nat, byte> {
    if data == [] then memory
    else Store(memory, base, data[..|data| - 1])[base + |data| - 1 := data[|data| - 1]]
  }

  /** Filling the segments, in order, until the data runs out. */
  function Scatter(memory: map<nat, byte>, segs: seq<Seg>, data: seq<byte>): map<nat, byte>
    decreases |segs|
  {
    if segs == [] then memory
    else
      var n := Min(segs[0].length, |data|);
      Scatter(Store(memory, segs[0].base, data[..n]), segs[1..], data[n..])
  }

  /** The address of the k-th byte of the segment list. */
  function Place(segs: seq<Seg>, k: nat): nat
    requires k < Total(segs)
  {
    if k < segs[0].length then segs[0].base + k else Place(segs[1..], k - segs[0].length)
  }

  predicate Inside(address: nat, seg: Seg) { seg.base <= address < seg.base + seg.length }

  predicate Clear(address: nat, segs: seq<Seg>) { forall seg :: seg in segs ==> !Inside(address, seg) }

  predicate Apart(a: Seg, b: Seg) {
    a.base + a.length <= b.base || b.base + b.length <= a.base
  }

  predicate Disjoint(segs: seq<Seg>) {
    segs == [] || ((forall i :: 0 < i < |segs| ==> Apart(segs[0], segs[i])) && Disjoint(segs[1..]))
  }

  /** The `done` bytes after `skip` have been written at `base`. */
  ghost predicate Stored(start: map<nat, byte>, memory: map<nat, byte>, base: nat, data: seq<byte>, skip: nat,
                         done: nat)
    requires skip + done <= |data|
  {
    memory == Store(start, base, data[skip..skip + done])
  }

  lemma StoreStep(start: map<nat, byte>, memory: map<nat, byte>, base: nat, data: seq<byte>, skip: nat, done: nat,
                  take: nat)
    requires skip + done + take <= |data| && Stored(start, memory, base, data, skip, done)
    ensures Stored(start, Store(memory, base + done, data[skip + done..skip + done + take]), base, data, skip,
                   done + take)
  {
    var a, b := data[skip..skip + done], data[skip + done..skip + done + take];
    StoreTwice(start, base, a, b);
    assert a + b == data[skip..skip + (done + take)];
  }

  lemma {:induction false} StoredAt(memory: map<nat, byte>, base: nat, data: seq<byte>, address: nat)
    ensures base <= address < base + |data| ==>
              address in Store(memory, base, data) && Store(memory, base, data)[address] == data[address - base]
    ensures !(base <= address < base + |data|) ==>
              && (address in Store(memory, base, data) <==> address in memory)
              && (address in memory ==> Store(memory, base, data)[address] == memory[address])
  {
    if data != [] {
      StoredAt(memory, base, data[..|data| - 1], address);
    }
  }

  lemma {:induction false} ScatterLeavesRest(memory: map<nat, byte>, segs: seq<Seg>, data: seq<byte>, address: nat)
    requires Clear(address, segs)
    ensures address in Scatter(memory, segs, data) <==> address in memory
    ensures address in memory ==> Scatter(memory, segs, data)[address] == memory[address]
    decreases |segs|
  {
    if segs != [] {
      var n := Min(segs[0].length, |data|);
      assert !Inside(address, segs[0]);
      assert Clear(address, segs[1..]);
      StoredAt(memory, segs[0].base, data[..n], address);
      ScatterLeavesRest(Store(memory, segs[0].base, data[..n]), segs[1..], data[n..], address);
    }
  }

  lemma ApartIsClear(segs: seq<Seg>, address: nat)
    requires Disjoint(segs) && segs != [] && Inside(address, segs[0])
    ensures Clear(address, segs[1..])
  {
    forall seg | seg in segs[1..] ensures !Inside(address, seg) {
      var i :| 0 <= i < |segs[1..]| && segs[1..][i] == seg;
      assert Apart(segs[0], segs[i + 1]);
    }
  }

  /** With buffers that do not overlap, the k-th byte read lands at the k-th byte of the segment list. */
  lemma {:induction false} ScatterLands(memory: map<nat, byte>, segs: seq<Seg>, data: seq<byte>, k: nat)
    requires Disjoint(segs) && k < Total(segs) && k < |data|
    ensures Place(segs, k) in Scatter(memory, segs, data) && Scatter(memory, segs, data)[Place(segs, k)] == data[k]
    decreases |segs|
  {
    var rest, n := segs[1..], Min(segs[0].length, |data|);
    var stored := Store(memory, segs[0].base, data[..n]);
    if k < segs[0].length {
      StoredAt(memory, segs[0].base, data[..n], segs[0].base + k);
      ApartIsClear(segs, segs[0].base + k);
      ScatterLeavesRest(stored, rest, data[n..], segs[0].base + k);
    } else {
      ScatterLands(stored, rest, data[n..], k - segs[0].length);
      assert data[n..][k - n] == data[k];
    }
  }

  lemma ScatterNothing(memory: map<nat, byte>, segs: seq<Seg>)
    ensures Scatter(memory, segs, []) == memory
    decreases |segs|
  {
    if segs != [] {
      assert Store(memory, segs[0].base, []) == memory;
      ScatterNothing(memory, segs[1..]);
    }
  }

  lemma {:induction false} StoreTwice(memory: map<nat, byte>, base: nat, a: seq<byte>, b: seq<byte>)
    ensures Store(Store(memory, base, a), base + |a|, b) == Store(memory, base, a + b)
  {
    if b == [] {
      assert a + b == a;
    } else {
      StoreTwice(memory, base, a, b[..|b| - 1]);
      assert (a + b)[..|a + b| - 1] == a + b[..|b| - 1];
    }
  }

  /** After `done` bytes went into the first `i` segments, the rest of the job is all that is missing. */
  ghost predicate ScatterLeft(start: map<nat, byte>, memory: map<nat, byte>, segs: seq<Seg>, i: nat, data: seq<byte>,
                              done: nat)
    requires i <= |segs| && done <= |data|
  {
    && (done + Total(segs[i..]) == Total(segs) || done == |data| <= Total(segs))
    && Scatter(memory, segs[i..], data[done..]) == Scatter(start, segs, data)
  }

  lemma ScatterStep(start: map<nat, byte>, memory: map<nat, byte>, segs: seq<Seg>, i: nat, data: seq<byte>, done: nat,
                    n: nat)
    requires i < |segs| && done < |data| && n == Min(segs[i].length, |data| - done)
    requires ScatterLeft(start, memory, segs, i, data, done)
    ensures ScatterLeft(start, Store(memory, segs[i].base, data[done..done + n]), segs, i + 1, data, done + n)
  {
    assert segs[i..][1..] == segs[i + 1..];
    assert data[done..][..n] == data[done..done + n] && data[done..][n..] == data[done + n..];
  }

  lemma ScatterDone(start: map<nat, byte>, memory: map<nat, byte>, segs: seq<Seg>, i: nat, data: seq<byte>, done: nat)
    requires i <= |segs| && done <= |data| && (i == |segs| || done == |data|)
    requires ScatterLeft(start, memory, segs, i, data, done)
    ensures done == Min(|data|, Total(segs)) && memory == Scatter(start, segs, data[..done])
  {
    if i < |segs| {
      ScatterNothing(memory, segs[i..]);
    }
    ScatterEnough(start, segs, data);
  }

  /** Only the bytes that have room are used. */
  lemma {:induction false} ScatterEnough(memory: map<nat, byte>, segs: seq<Seg>, data: seq<byte>)
    ensures Scatter(memory, segs, data) == Scatter(memory, segs, data[..Min(|data|, Total(segs))])
    decreases |segs|
  {
    if segs != [] {
      var enough, n := data[..Min(|data|, Total(segs))], Min(segs[0].length, |data|);
      assert Min(segs[0].length, |enough|) == n;
      assert enough[..n] == data[..n];
      assert enough[n..] == data[n..][..Min(|data[n..]|, Total(segs[1..]))];
      ScatterEnough(Store(memory, segs[0].base, data[..n]), segs[1..], data[n..]);
    }
  }

  // ---------------------------------------------------------------- the ring

  function Slot(head: nat, k: nat): (slot: nat)
    requires head < AFD_RING_CAPACITY && k < AFD_RING_CAPACITY
    ensures slot == if head + k < AFD_RING_CAPACITY then head + k else head + k - AFD_RING_CAPACITY
  {
    (head + k) % AFD_RING_CAPACITY
  }

  lemma SlotSkip(head: nat, skip: nat, k: nat)
    requires head < AFD_RING_CAPACITY && skip + k < AFD_RING_CAPACITY
    ensures ((head + skip) % AFD_RING_CAPACITY + k) % AFD_RING_CAPACITY == Slot(head, skip + k)
  {
  }

  /** lwIP's end of the connection, as far as the driver relies on it. */
  class TcpPcb {
    var window: nat

    constructor ()
      ensures window == TCP_WND
    {
      window := TCP_WND;
    }

    /** tcp_recved: the length travels in 16 bits, and the window never grows past its maximum. */
    method Recved(length: nat)
      requires length <= 0xffff
      modifies this
      ensures window == Min(old(window) + length, TCP_WND)
    {
      window := Min(window + length, TCP_WND);
    }
  }

  class AddressSpace {
    var memory: map<nat, byte>

    constructor (memory: map<nat, byte>)
      ensures this.memory == memory
    {
      this.memory := memory;
    }

    method CopyIn(base: nat, data: seq<byte>)
      modifies this
      ensures memory == Store(old(memory), base, data)
    {
      memory := Store(memory, base, data);
    }
  }

  class Stream {
    var ring: array<byte>
    var head: nat
    var count: nat
    var owed: nat
    var peerClosed: bool
    var edges: seq<Edge>
    var pcb: TcpPcb?

    ghost predicate Valid()
      reads this, ring
    {
      ring.Length == AFD_RING_CAPACITY && head < AFD_RING_CAPACITY && count <= AFD_RING_CAPACITY
    }

    ghost function Contents(): (s: seq<byte>)
      reads this, ring
      requires Valid()
    {
      seq(count, k requires 0 <= k < count && Valid() reads this, ring => ring[Slot(head, k)])
    }

    ghost function View(): Intake
      reads this, ring, pcb
      requires Valid()
    {
      Intake(pcb != null, if pcb == null then 0 else pcb.window, Contents(), owed, peerClosed, edges)
    }

    constructor (pcb: TcpPcb?)
      ensures Valid() && fresh(ring) && this.pcb == pcb
      ensures View() == Intake(pcb != null, if pcb == null then 0 else pcb.window, [], 0, false, [])
    {
      ring := new byte[AFD_RING_CAPACITY];
      head, count, owed, peerClosed, edges := 0, 0, 0, false, [];
      this.pcb := pcb;
    }

    method Push(data: seq<byte>)
      requires Valid() && |data| <= AFD_RING_CAPACITY - count
      modifies ring, this`count
      ensures Valid() && Contents() == old(Contents()) + data
    {
      var tail := (head + count) % AFD_RING_CAPACITY;
      var i := 0;
      while i < |data|
        invariant 0 <= i <= |data| && count == old(count)
        invariant forall k :: 0 <= k < count ==> ring[Slot(head, k)] == old(ring[Slot(head, k)])
        invariant forall k :: count <= k < count + i ==> ring[Slot(head, k)] == data[k - count]
      {
        SlotSkip(head, count, i);
        ring[(tail + i) % AFD_RING_CAPACITY] := data[i];
        i := i + 1;
      }
      count := count + |data|;
    }

    /** AfdTcpRecvCallback: None is the peer's FIN. A chain that does not fit panics the kernel. */
    method RecvCallback(p: Option<seq<seq<byte>>>) returns (panicked: bool)
      requires Valid()
      modifies this`count, this`peerClosed, this`edges, ring
      ensures Valid()
      ensures panicked <==> p.Some? && |Flatten(p.value)| > AFD_RING_CAPACITY - old(count)
      ensures !panicked ==> View() == if p.None? then Fin(old(View())) else Arrive(old(View()), Flatten(p.value))
      ensures p.None? ==>
                && peerClosed && Contents() == old(Contents()) && owed == old(owed)
                && edges == old(edges) + if old(count) == 0 then [HupEdge] else []
      ensures p.Some? && !panicked ==>
                && peerClosed == old(peerClosed) && owed == old(owed)
                && Contents() == old(Contents()) + Flatten(p.value)
                && edges == old(edges) + [ReadEdge]
    {
      panicked := false;
      match p
      case None =>
        peerClosed := true;
        if count == 0 {
          edges := edges + [HupEdge];
        }
      case Some(chain) =>
        if |Flatten(chain)| > AFD_RING_CAPACITY - count {
          return true;
        }
        PushChain(chain);
        edges := edges + [ReadEdge];
    }

    method PushChain(chain: seq<seq<byte>>)
      requires Valid() && |Flatten(chain)| <= AFD_RING_CAPACITY - count
      modifies this`count, ring
      ensures Valid() && Contents() == old(Contents()) + Flatten(chain)
    {
      var i := 0;
      while i < |chain|
        invariant 0 <= i <= |chain| && Valid()
        invariant Contents() + Flatten(chain[i..]) == old(Contents()) + Flatten(chain)
      {
        assert chain[i..][1..] == chain[i + 1..];
        ghost var before := Contents();
        Push(chain[i]);
        assert (before + chain[i]) + Flatten(chain[i + 1..]) == before + (chain[i] + Flatten(chain[i + 1..]));
        i := i + 1;
      }
    }

    /** lwIP's side of a delivery: never more than it advertised, and counted before the callback runs. */
    method Deliver(chain: seq<seq<byte>>)
      requires Valid() && pcb != null && Credit(View()) && |Flatten(chain)| <= pcb.window
      modifies this`count, this`peerClosed, this`edges, ring, pcb
      ensures Valid() && Credit(View()) && View() == Next(old(View()), Delivered(chain))
    {
      pcb.window := pcb.window - |Flatten(chain)|;
      var panicked := RecvCallback(Some(chain));
    }

    /** One pass through the 512-byte bounce. */
    method FillChunk(chunk: array<byte>, skip: nat, take: nat)
      requires Valid() && chunk != ring && take <= chunk.Length && skip + take <= count
      modifies chunk
      ensures Contents() == old(Contents()) && chunk[..take] == Contents()[skip..skip + take]
    {
      var cursor := (head + skip) % AFD_RING_CAPACITY;
      var b := 0;
      while b < take
        invariant 0 <= b <= take
        invariant forall k :: 0 <= k < b ==> chunk[k] == ring[Slot(head, skip + k)]
      {
        SlotSkip(head, skip, b);
        chunk[b] := ring[(cursor + b) % AFD_RING_CAPACITY];
        b := b + 1;
      }
    }

    /** The advance both flat and scatter readers end with. */
    method Advance(n: nat)
      requires Valid() && n <= count
      modifies this`head, this`count, this`owed
      ensures Valid() && View() == Take(old(View()), n)
    {
      head := (head + n) % AFD_RING_CAPACITY;
      count := count - n;
      owed := owed + n;
      forall k | 0 <= k < count ensures Slot(head, k) == old(Slot(head, n + k)) {
        SlotSkip(old(head), n, k);
      }
    }

    method ConsumeEdges()
      requires Valid()
      modifies this`edges
      ensures Valid() && View() == Relatch(old(View()))
    {
      if count != 0 {
        edges := edges + [ReadEdge];
      } else if peerClosed {
        edges := edges + [HupEdge];
      }
    }

    /** One chunk of a segment, after `done` bytes of it. */
    method CopyChunk(space: AddressSpace, chunk: array<byte>, base: nat, skip: nat, done: nat, take: nat,
                     ghost memory: map<nat, byte>)
      requires Valid() && chunk != ring && take <= chunk.Length && skip + done + take <= count
      requires Stored(memory, space.memory, base, Contents(), skip, done)
      modifies space, chunk
      ensures Contents() == old(Contents()) && Stored(memory, space.memory, base, Contents(), skip, done + take)
    {
      ghost var data, before := Contents(), space.memory;
      StoreStep(memory, before, base, data, skip, done, take);
      FillChunk(chunk, skip + done, take);
      space.CopyIn(base + done, chunk[..take]);
      assert Contents() == data && space.memory == Store(before, base + done, data[skip + done..skip + done + take]);
    }

    /** Copy one segment's share of the ring out, in chunks of at most 512 bytes. */
    method CopySegment(space: AddressSpace, chunk: array<byte>, seg: Seg, skip: nat) returns (segDone: nat)
      requires Valid() && skip <= count && chunk != ring && chunk.Length == BOUNCE_SIZE
      modifies space, chunk
      ensures segDone == Min(seg.length, count - skip)
      ensures space.memory == Store(old(space.memory), seg.base, Contents()[skip..skip + segDone])
    {
      var remaining := count - skip;
      ghost var data, memory := Contents(), space.memory;
      segDone := 0;
      while segDone < seg.length && remaining != 0
        invariant segDone <= seg.length && remaining == count - skip - segDone >= 0
        invariant Contents() == data && Stored(memory, space.memory, seg.base, data, skip, segDone)
      {
        var take := Min(Min(seg.length - segDone, BOUNCE_SIZE), remaining);
        CopyChunk(space, chunk, seg.base, skip, segDone, take, memory);
        remaining := remaining - take;
        segDone := segDone + take;
      }
    }

    /** AfdRingConsume: fill the segments, in order, with the first bytes of the ring; a peek leaves the socket as it
        was. */
    method RingConsume(space: AddressSpace, segs: seq<Seg>, peek: bool) returns (delivered: nat)
      requires Valid()
      modifies space, this`head, this`count, this`owed, this`edges
      ensures Valid() && delivered == Min(old(count), Total(segs))
      ensures space.memory == Scatter(old(space.memory), segs, old(Contents())[..delivered])
      ensures View() == if peek then old(View()) else Consume(old(View()), Total(segs))
    {
      delivered := CopySegments(space, segs);
      if !peek && delivered != 0 {
        Advance(delivered);
        ConsumeEdges();
      }
    }

    method CopySegments(space: AddressSpace, segs: seq<Seg>) returns (delivered: nat)
      requires Valid()
      modifies space
      ensures delivered == Min(count, Total(segs))
      ensures space.memory == Scatter(old(space.memory), segs, Contents()[..delivered])
    {
      var chunk := new byte[BOUNCE_SIZE];
      delivered := 0;
      var i := 0;
      ghost var data, memory := Contents(), space.memory;
      while i < |segs| && count - delivered != 0
        invariant 0 <= i <= |segs| && delivered <= |data| && Contents() == data
        invariant ScatterLeft(memory, space.memory, segs, i, data, delivered)
      {
        ghost var before := space.memory;
        var n := CopySegment(space, chunk, segs[i], delivered);
        ScatterStep(memory, before, segs, i, data, delivered, n);
        delivered := delivered + n;
        i := i + 1;
      }
      ScatterDone(memory, space.memory, segs, i, data, delivered);
    }

    /** The flat copy of a parked or an inline read. */
    method CopyFlat(buffer: array<byte>, take: nat)
      requires Valid() && buffer != ring && take <= buffer.Length && take <= count
      modifies buffer
      ensures buffer[..take] == Contents()[..take] && buffer[take..] == old(buffer[take..])
    {
      var i := 0;
      while i < take
        invariant 0 <= i <= take
        invariant forall k :: 0 <= k < i ==> buffer[k] == ring[Slot(head, k)]
        invariant buffer[take..] == old(buffer[take..])
      {
        buffer[i] := ring[(head + i) % AFD_RING_CAPACITY];
        i := i + 1;
      }
    }

    /** The AfdReqRead leg of AfdCompleteRecvLocked, up to its flush. */
    method ReadParked(buffer: array<byte>) returns (take: nat)
      requires Valid() && buffer != ring && count != 0
      modifies buffer, this`head, this`count, this`owed
      ensures Valid() && take == Min(old(count), buffer.Length)
      ensures buffer[..take] == old(Contents())[..take] && buffer[take..] == old(buffer[take..])
      ensures View() == Next(old(View()), ParkedRead(buffer.Length))
    {
      take := Min(count, buffer.Length);
      CopyFlat(buffer, take);
      Advance(take);
    }

    /** AfdVfsRead's inline loop, up to its flush. */
    method ReadInline(buffer: array<byte>) returns (take: nat)
      requires Valid() && buffer != ring && count != 0
      modifies buffer, this`head, this`count, this`owed, this`edges
      ensures Valid() && take == Min(old(count), buffer.Length)
      ensures buffer[..take] == old(Contents())[..take] && buffer[take..] == old(buffer[take..])
      ensures View() == Next(old(View()), Read(buffer.Length))
    {
      take := Min(count, buffer.Length);
      CopyFlat(buffer, take);
      Advance(take);
      ConsumeEdges();
    }

    /** AfdFlushRecved: the debt goes back in 16-bit steps. */
    method FlushRecved()
      requires Valid() && (pcb != null ==> pcb.window <= TCP_WND)
      modifies this`owed, pcb
      ensures Valid() && View() == Flush(old(View()))
    {
      if pcb != null && owed != 0 {
        var left := owed;
        owed := 0;
        while left != 0
          invariant Valid() && pcb == old(pcb) && owed == 0
          invariant Min(pcb.window + left, TCP_WND) == Min(old(pcb.window) + old(owed), TCP_WND)
          invariant pcb.window <= TCP_WND && Contents() == old(Contents())
          decreases left
        {
          var step := if left > 0xffff then 0xffff else left % 0x1_0000;
          pcb.Recved(step);
          left := left - step;
        }
      }
    }

    /** AfdTcpErrCallback, as far as the receive side goes: lwIP already freed its end. */
    method ErrCallback()
      requires Valid()
      modifies this`pcb, this`owed
      ensures Valid() && View() == Reset(old(View()))
    {
      pcb := null;
      owed := 0;
    }

    /** AfdCompleteAcceptLocked's graft of a queued shell onto this acceptor. The rings change hands; the shell is
        freed by the caller. */
    method GraftFrom(shell: Stream)
      requires Valid() && shell.Valid() && shell != this && shell.ring != ring
      modifies this, shell
      ensures Valid() && View() == Graft(old(View()), old(shell.View())) && pcb == old(shell.pcb)
      ensures ring == old(shell.ring)
    {
      pcb := shell.pcb;
      shell.pcb := null;
      var mine := ring;
      ring := shell.ring;
      head := shell.head;
      count := shell.count;
      peerClosed := shell.peerClosed;
      shell.ring := mine;
    }
  }
}
