/**
 The request broker of one console (drivers/condrv.c:227-694): clients queue verbs, one server fetches and
 answers them, blocking reads are parked and moved aside, and a client can be torn out of its wait at any time.

 `Console` is the value of a CONDRV_CONSOLE together with two histories: the verbs handed to the server and the
 completions (each one a KeSetEvent on a request's `done`). The functions say what one atomic step does to that
 value; class `CondrvConsole` is the in-place driver, proved against them.
 */
module CondrvBroker {
  import opened NtKernel
  import opened Lists

  const IOCTL_CONDRV_READ_CONSOLE := 0x504028
  const IOCTL_CONDRV_READ_FILE := 0x50402C
  const IOCTL_CONDRV_READ_INPUT := 0x504030
  const IOCTL_CONDRV_READ_CONSOLE_CONTROL := 0x504060
  const IOCTL_CONDRV_WRITE_FILE := 0x50807C
  const IOCTL_CONDRV_INIT_OUTPUT := 0x500168
  const IOCTL_CONDRV_CLOSE_OUTPUT := 0x50016C

  const CONDRV_SERVER_BUFFER_SIZE := 65536
  const MESSAGE_SIZE := 24
  const REPLY_SIZE := 24
  const CONDRV_SERVER_MAX_PAYLOAD := CONDRV_SERVER_BUFFER_SIZE - MESSAGE_SIZE

  datatype Request = Request(id: nat, code: nat, output: nat, input: seq<byte>, outputCapacity: nat)

  datatype Reply = Reply(id: nat, status: Status, read: nat, outSize: nat)

  datatype Completion = Completion(id: nat, status: Status, information: nat, data: seq<byte>)

  datatype Console = Console(
    refCount: int,
    clientCount: int,
    referenceMinted: bool,
    serverFile: Option<nat>,
    serverProcess: Option<nat>,
    signaled: bool,
    requestQueue: seq<Request>,
    readQueue: seq<Request>,
    current: Option<Request>,
    nextRequestId: nat,
    nextOutputId: nat,
    delivered: seq<Request>,
    completed: seq<Completion>,
    withdrawn: set<nat>)

  predicate IsBlockingRead(code: nat) {
    || code == IOCTL_CONDRV_READ_INPUT
    || code == IOCTL_CONDRV_READ_CONSOLE
    || code == IOCTL_CONDRV_READ_CONSOLE_CONTROL
    || code == IOCTL_CONDRV_READ_FILE
  }

  // ---------------------------------------------------------------- request lists

  function Reads(): Request -> bool { (r: Request) => IsBlockingRead(r.code) }

  function Verbs(): Request -> bool { (r: Request) => !IsBlockingRead(r.code) }

  function NotNumbered(id: nat): Request -> bool { (r: Request) => r.id != id }

  function TooLong(): Request -> bool { (r: Request) => |r.input| > CONDRV_SERVER_MAX_PAYLOAD }

  /** Ids grow strictly along the list. */
  ghost predicate Ascending(q: seq<Request>) {
    |q| <= 1 || (q[|q| - 2].id < q[|q| - 1].id && Ascending(q[..|q| - 1]))
  }

  lemma {:induction false} AscendingPairs(q: seq<Request>)
    ensures Ascending(q) <==> forall i, j :: 0 <= i < j < |q| ==> q[i].id < q[j].id
  {
    if |q| > 1 {
      var front := q[..|q| - 1];
      AscendingPairs(front);
      assert forall i :: 0 <= i < |front| ==> front[i] == q[i];
    }
  }

  /** How many entries of the list carry the id. */
  function Count(q: seq<Request>, id: nat): nat {
    if q == [] then 0 else Count(q[..|q| - 1], id) + if q[|q| - 1].id == id then 1 else 0
  }

  lemma CountSnoc(q: seq<Request>, r: Request, id: nat)
    ensures Count(q + [r], id) == Count(q, id) + if r.id == id then 1 else 0
  {
    assert (q + [r])[..|q|] == q;
  }

  lemma {:induction false} CountConcat(a: seq<Request>, b: seq<Request>, id: nat)
    ensures Count(a + b, id) == Count(a, id) + Count(b, id)
  {
    if b == [] {
      assert a + b == a;
    } else {
      var front, r := b[..|b| - 1], b[|b| - 1];
      CountConcat(a, front, id);
      assert a + b == (a + front) + [r];
      CountSnoc(a + front, r, id);
    }
  }

  lemma CountCons(q: seq<Request>, id: nat)
    requires q != []
    ensures Count(q, id) == (if q[0].id == id then 1 else 0) + Count(q[1..], id)
  {
    assert q == [q[0]] + q[1..];
    CountConcat([q[0]], q[1..], id);
    assert [q[0]][..0] == [];
  }

  lemma {:induction false} CountReadsAndVerbs(q: seq<Request>, id: nat)
    ensures Count(Filter(Reads(), q), id) + Count(Filter(Verbs(), q), id) == Count(q, id)
  {
    if q != [] {
      var front, r := q[..|q| - 1], q[|q| - 1];
      CountReadsAndVerbs(front, id);
      CountSnoc(Filter(Reads(), front), r, id);
      CountSnoc(Filter(Verbs(), front), r, id);
    }
  }

  lemma {:induction false} CountUnlinked(q: seq<Request>, gone: nat, id: nat)
    ensures Count(Filter(NotNumbered(gone), q), id) == if id == gone then 0 else Count(q, id)
  {
    if q != [] {
      var front, r := q[..|q| - 1], q[|q| - 1];
      CountUnlinked(front, gone, id);
      CountSnoc(Filter(NotNumbered(gone), front), r, id);
    }
  }

  /** A list without the id keeps all its entries. */
  lemma {:induction false} NobodyElse(q: seq<Request>, id: nat)
    requires Count(q, id) == 0
    ensures Filter(NotNumbered(id), q) == q
  {
    if q != [] {
      NobodyElse(q[..|q| - 1], id);
      assert q == q[..|q| - 1] + [q[|q| - 1]];
    }
  }

  /** A list that holds the id once loses that entry alone. */
  lemma UnlinkOne(q: seq<Request>, at: nat)
    requires at < |q| && Count(q, q[at].id) == 1
    ensures Filter(NotNumbered(q[at].id), q) == q[..at] + q[at + 1..]
  {
    var id, front, back := q[at].id, q[..at], q[at + 1..];
    assert q == front + ([q[at]] + back) && ([q[at]] + back)[1..] == back;
    CountConcat(front, [q[at]] + back, id);
    CountCons([q[at]] + back, id);
    NobodyElse(front, id);
    NobodyElse(back, id);
    FilterConcat(NotNumbered(id), front, [q[at]] + back);
    FilterCons(NotNumbered(id), q[at], back);
  }

  // ---------------------------------------------------------------- the steps

  /** The server handle is conhost's wait handle; a console whose server is gone has none to drive. */
  function Signal(c: Console, pending: bool): Console {
    if c.serverFile.None? then c else c.(signaled := pending)
  }

  datatype Admission = Refused(status: Status) | Queued(id: nat)

  /** CondrvForward up to its wait. */
  function Enqueue(c: Console, code: nat, output: nat, input: seq<byte>, capacity: nat): (Console, Admission) {
    if c.serverFile.None? then (c, Refused(STATUS_INVALID_DEVICE_STATE))
    else if |input| > CONDRV_SERVER_MAX_PAYLOAD then (c, Refused(STATUS_INVALID_BUFFER_SIZE))
    else
      var id := c.nextRequestId + 1;
      (Append(c, Request(id, code, output, input, Min(capacity, CONDRV_SERVER_MAX_PAYLOAD))), Queued(id))
  }

  function Append(c: Console, request: Request): Console {
    Signal(c.(nextRequestId := request.id, requestQueue := c.requestQueue + [request]), true)
  }

  /** How often the request numbered `id` had its `done` event set. */
  function DoneCount(completed: seq<Completion>, id: nat): nat {
    if completed == [] then 0
    else DoneCount(completed[..|completed| - 1], id) + if completed[|completed| - 1].id == id then 1 else 0
  }

  predicate IsDone(c: Console, id: nat) { DoneCount(c.completed, id) != 0 }

  /** CondrvForward's abort arms: a completed request is already unlinked, a delivered verb is `current`, and
      anything else is on one of the two lists. */
  function Abort(c: Console, id: nat): Console {
    if IsDone(c, id) then c
    else if c.current.Some? && c.current.value.id == id then
      c.(current := None, withdrawn := c.withdrawn + {id})
    else
      c.(requestQueue := Filter(NotNumbered(id), c.requestQueue), readQueue := Filter(NotNumbered(id), c.readQueue),
         withdrawn := c.withdrawn + {id})
  }

  /** While a read is outstanding and a read heads the queue, all queued reads wait behind the outstanding one. */
  function MoveAside(c: Console): Console {
    if c.readQueue != [] && c.requestQueue != [] && IsBlockingRead(c.requestQueue[0].code) then
      c.(requestQueue := Filter(Verbs(), c.requestQueue), readQueue := c.readQueue + Filter(Reads(), c.requestQueue))
    else c
  }

  /** The message a fetch hands out is the request itself: id, code, output, payload and capacity. */
  function ServerRead(c: Console, process: nat, length: nat): (Console, Status, Option<Request>) {
    if c.current.Some? then (c, STATUS_INVALID_DEVICE_STATE, None)
    else
      var pumped := c.(serverProcess := Some(process));
      if c.referenceMinted && c.clientCount == 0 then (pumped, STATUS_INVALID_HANDLE, None)
      else
        var moved := MoveAside(pumped);
        if moved.requestQueue == [] then (Signal(moved, false), STATUS_PENDING, None)
        else
          var request := moved.requestQueue[0];
          if length < MESSAGE_SIZE + |request.input| then
            (Signal(moved, true), STATUS_INVALID_BUFFER_SIZE, None)
          else
            (Deliver(moved), STATUS_SUCCESS, Some(request))
  }

  /** Hand the head of the queue to the server. */
  function Deliver(c: Console): Console
    requires c.requestQueue != []
  {
    var request := c.requestQueue[0];
    var popped := c.(requestQueue := c.requestQueue[1..], delivered := c.delivered + [request]);
    var quiet := if popped.requestQueue == [] then Signal(popped, false) else popped;
    if IsBlockingRead(request.code) then quiet.(readQueue := quiet.readQueue + [request])
    else quiet.(current := Some(request))
  }

  /** What one KeSetEvent(done) publishes to the waiting client. */
  function Finish(request: Request, status: Status, data: seq<byte>): Completion {
    var copied := Min(|data|, request.outputCapacity);
    Completion(request.id, status,
               if request.code == IOCTL_CONDRV_WRITE_FILE then |request.input| else copied, data[..copied])
  }

  function FinishAll(q: seq<Request>, status: Status): seq<Completion> {
    if q == [] then [] else [Finish(q[0], status, [])] + FinishAll(q[1..], status)
  }

  /** One reply. `payload` is what follows the reply header in a buffer of `length` bytes. */
  function ServerWrite(c: Console, length: nat, reply: Reply, payload: seq<byte>): (Console, Status)
    requires length >= REPLY_SIZE ==> |payload| == length - REPLY_SIZE
  {
    if length < REPLY_SIZE then (c, STATUS_INVALID_BUFFER_SIZE)
    else if length < REPLY_SIZE + reply.outSize then (c, STATUS_INVALID_PARAMETER)
    else
      var status := if reply.status == STATUS_PENDING then STATUS_INVALID_PARAMETER else reply.status;
      var data := payload[..reply.outSize];
      if reply.read != 0 then
        if c.readQueue == [] then (c, STATUS_INVALID_HANDLE)
        else
          var back := c.(readQueue := [], requestQueue := c.requestQueue + c.readQueue[1..],
                         completed := c.completed + [Finish(c.readQueue[0], status, data)]);
          (if back.requestQueue != [] then Signal(back, true) else back, STATUS_SUCCESS)
      else if c.current.None? then (c, STATUS_SUCCESS)
      else if c.current.value.id != reply.id then (c, STATUS_INVALID_PARAMETER)
      else
        (c.(current := None, completed := c.completed + [Finish(c.current.value, status, data)]), STATUS_SUCCESS)
  }

  function CurrentAsList(c: Console): seq<Request> {
    if c.current.Some? then [c.current.value] else []
  }

  function ServerGone(c: Console): Console {
    var failed := FinishAll(CurrentAsList(c) + c.readQueue + c.requestQueue, STATUS_INVALID_DEVICE_STATE);
    c.(serverFile := None, serverProcess := None, current := None, readQueue := [], requestQueue := [],
       completed := c.completed + failed)
  }

  // ---------------------------------------------------------------- what every step keeps

  /** How many places hold the unfinished request numbered `id`. */
  function Places(c: Console, id: nat): nat {
    Count(c.requestQueue, id) + Count(c.readQueue, id) + CurrentCount(c, id)
  }

  function CurrentCount(c: Console, id: nat): nat { if c.current.Some? && c.current.value.id == id then 1 else 0 }

  function Settled(c: Console, id: nat): nat { DoneCount(c.completed, id) + if id in c.withdrawn then 1 else 0 }

  /** Custody and exactly-once in one equation: every id ever issued is in exactly one queue slot, or is `current`,
      or was completed once, or was withdrawn by its own aborted client; no other id is anywhere. */
  ghost predicate Custody(c: Console) {
    forall id: nat :: Places(c, id) + Settled(c, id) == if 1 <= id <= c.nextRequestId then 1 else 0
  }

  /** `current` is never a blocking read, the read queue holds nothing else, and every queued payload fits. */
  ghost predicate Sorted(c: Console) {
    && (c.current.Some? ==> !IsBlockingRead(c.current.value.code))
    && Filter(Verbs(), c.readQueue) == []
    && Filter(TooLong(), c.requestQueue) == [] && Filter(TooLong(), c.readQueue) == []
  }

  /** Verbs that are not reads: those delivered so far followed by those still queued. */
  ghost function VerbOrder(c: Console): seq<Request> {
    Filter(Verbs(), c.delivered) + Filter(Verbs(), c.requestQueue)
  }

  ghost predicate AscendingTo(q: seq<Request>, n: nat) {
    Ascending(q) && (q != [] ==> q[|q| - 1].id <= n)
  }

  ghost predicate Ordered(c: Console) { AscendingTo(VerbOrder(c), c.nextRequestId) }

  predicate Abandoned(c: Console) { c.referenceMinted && c.clientCount == 0 }

  /** No lost wakeup: work, or the end of the last client, keeps a live server's handle signaled. */
  ghost predicate Awake(c: Console) {
    && (c.serverFile.Some? && (c.requestQueue != [] || Abandoned(c)) ==> c.signaled)
    && (c.serverFile.None? ==> c.requestQueue == [] && c.readQueue == [] && c.current.None?)
  }

  ghost predicate Valid(c: Console) { Custody(c) && Sorted(c) && Ordered(c) && Awake(c) }

  /** Work only moved: every id is in as many places, and settled as often, as before. */
  ghost predicate SameWork(c: Console, d: Console) {
    && d.nextRequestId == c.nextRequestId
    && forall id: nat :: Places(d, id) == Places(c, id) && Settled(d, id) == Settled(c, id)
  }

  /** What the server's verbs leave alone. */
  predicate SameClients(c: Console, d: Console) {
    && d.refCount == c.refCount && d.clientCount == c.clientCount && d.referenceMinted == c.referenceMinted
    && d.nextOutputId == c.nextOutputId && d.nextRequestId == c.nextRequestId && d.withdrawn == c.withdrawn
  }

  lemma DoneCountSnoc(completed: seq<Completion>, k: Completion, id: nat)
    ensures DoneCount(completed + [k], id) == DoneCount(completed, id) + if k.id == id then 1 else 0
  {
    assert (completed + [k])[..|completed|] == completed;
  }

  lemma {:induction false} DoneCountFail(completed: seq<Completion>, q: seq<Request>, status: Status, id: nat)
    ensures DoneCount(completed + FinishAll(q, status), id) == DoneCount(completed, id) + Count(q, id)
    decreases |q|
  {
    if q == [] {
      assert completed + FinishAll(q, status) == completed;
    } else {
      var k := Finish(q[0], status, []);
      assert completed + FinishAll(q, status) == (completed + [k]) + FinishAll(q[1..], status);
      DoneCountFail(completed + [k], q[1..], status, id);
      DoneCountSnoc(completed, k, id);
      CountCons(q, id);
    }
  }

  // ---------------------------------------------------------------- each step keeps the broker valid

  lemma AscendingSnoc(q: seq<Request>, n: nat, r: Request)
    requires AscendingTo(q, n) && r.id > n
    ensures AscendingTo(q + [r], r.id)
  {
    assert (q + [r])[..|q|] == q;
  }

  lemma AppendOrdered(c: Console, request: Request)
    requires Ordered(c) && request.id == c.nextRequestId + 1
    ensures Ordered(Append(c, request))
  {
    var before, after := VerbOrder(c), VerbOrder(Append(c, request));
    FilterSnoc(Verbs(), c.requestQueue, request);
    assert after == if IsBlockingRead(request.code) then before else before + [request];
    AscendingSnoc(before, c.nextRequestId, request);
  }

  lemma AppendPlaces(c: Console, request: Request, id: nat)
    ensures Places(Append(c, request), id) == Places(c, id) + if id == request.id then 1 else 0
    ensures Settled(Append(c, request), id) == Settled(c, id)
  {
    CountSnoc(c.requestQueue, request, id);
  }

  lemma AppendKeeps(c: Console, request: Request)
    requires Valid(c) && c.serverFile.Some?
    requires request.id == c.nextRequestId + 1 && |request.input| <= CONDRV_SERVER_MAX_PAYLOAD
    ensures Valid(Append(c, request))
    ensures forall id: nat :: Places(Append(c, request), id) == Places(c, id) + (if id == request.id then 1 else 0)
                              && Settled(Append(c, request), id) == Settled(c, id)
  {
    forall id: nat
      ensures Places(Append(c, request), id) == Places(c, id) + (if id == request.id then 1 else 0)
              && Settled(Append(c, request), id) == Settled(c, id)
    {
      AppendPlaces(c, request, id);
    }
    FilterSnoc(TooLong(), c.requestQueue, request);
    AppendOrdered(c, request);
  }

  /** A client still waiting: its request was issued and not withdrawn. */
  ghost predicate Waiting(c: Console, id: nat) { 1 <= id <= c.nextRequestId && id !in c.withdrawn }

  lemma AbortPlaces(c: Console, gone: nat, id: nat)
    requires Custody(c) && Waiting(c, gone)
    ensures Places(Abort(c, gone), id) == if id == gone then 0 else Places(c, id)
    ensures Places(Abort(c, gone), id) + Settled(Abort(c, gone), id) == Places(c, id) + Settled(c, id)
  {
    assert Places(c, gone) + Settled(c, gone) == 1;
    if IsDone(c, gone) {
      assert Places(c, gone) == 0;
    } else if c.current.Some? && c.current.value.id == gone {
      assert CurrentCount(c, gone) == 1;
    } else {
      CountUnlinked(c.requestQueue, gone, id);
      CountUnlinked(c.readQueue, gone, id);
    }
  }

  lemma {:induction false} SuffixFilterAscending(a: seq<Request>, b: seq<Request>, keep: Request -> bool, n: nat)
    requires AscendingTo(a + b, n)
    ensures AscendingTo(a + Filter(keep, b), n)
  {
    if b != [] {
      var front, r := b[..|b| - 1], b[|b| - 1];
      assert (a + b)[..|a + b| - 1] == a + front;
      var m := if a + front == [] then n else (a + front)[|a + front| - 1].id;
      SuffixFilterAscending(a, front, keep, m);
      var less := a + Filter(keep, front);
      if keep(r) {
        assert a + Filter(keep, b) == less + [r];
        assert (less + [r])[..|less|] == less;
        FilterShorter(keep, front);
      }
    }
  }

  lemma AbortOrdered(c: Console, gone: nat)
    requires Ordered(c)
    ensures Ordered(Abort(c, gone))
  {
    var verbs := Filter(Verbs(), c.requestQueue);
    if Abort(c, gone).requestQueue == c.requestQueue {
      assert VerbOrder(Abort(c, gone)) == VerbOrder(c);
    } else {
      FilterCommutes(Verbs(), NotNumbered(gone), c.requestQueue);
      assert VerbOrder(Abort(c, gone)) == Filter(Verbs(), c.delivered) + Filter(NotNumbered(gone), verbs);
      SuffixFilterAscending(Filter(Verbs(), c.delivered), verbs, NotNumbered(gone), c.nextRequestId);
    }
  }

  lemma AbortSorted(c: Console, gone: nat)
    requires Sorted(c)
    ensures Sorted(Abort(c, gone))
  {
    FilterCommutes(TooLong(), NotNumbered(gone), c.requestQueue);
    FilterCommutes(TooLong(), NotNumbered(gone), c.readQueue);
    FilterCommutes(Verbs(), NotNumbered(gone), c.readQueue);
  }

  lemma AbortKeeps(c: Console, gone: nat)
    requires Valid(c) && Waiting(c, gone)
    ensures Valid(Abort(c, gone))
    ensures forall id: nat :: Places(Abort(c, gone), id) == if id == gone then 0 else Places(c, id)
  {
    forall id: nat
      ensures Places(Abort(c, gone), id) == if id == gone then 0 else Places(c, id)
      ensures Places(Abort(c, gone), id) + Settled(Abort(c, gone), id) == Places(c, id) + Settled(c, id)
    {
      AbortPlaces(c, gone, id);
    }
    AbortOrdered(c, gone);
    AbortSorted(c, gone);
  }

  lemma MoveAsidePlaces(c: Console, id: nat)
    ensures Places(MoveAside(c), id) == Places(c, id)
  {
    CountReadsAndVerbs(c.requestQueue, id);
    CountConcat(c.readQueue, Filter(Reads(), c.requestQueue), id);
  }

  lemma VerbsOfVerbs(q: seq<Request>)
    ensures Filter(Verbs(), Filter(Verbs(), q)) == Filter(Verbs(), q)
    ensures Filter(Verbs(), Filter(Reads(), q)) == []
  {
    FilterMembers(Reads(), q);
    FilterMembers(Verbs(), q);
    FilterAll(Verbs(), Filter(Verbs(), q));
    FilterNone(Verbs(), Filter(Reads(), q));
  }

  lemma MoveAsideSorted(c: Console)
    requires Sorted(c)
    ensures Sorted(MoveAside(c))
  {
    var q := c.requestQueue;
    VerbsOfVerbs(q);
    FilterConcat(Verbs(), c.readQueue, Filter(Reads(), q));
    FilterConcat(TooLong(), c.readQueue, Filter(Reads(), q));
    FilterCommutes(TooLong(), Reads(), q);
    FilterCommutes(TooLong(), Verbs(), q);
  }

  /** The assertion of the delivery arm: a read is delivered only with no other read outstanding. */
  lemma ReadsAreDeliveredAlone(c: Console)
    requires MoveAside(c).requestQueue != []
    ensures IsBlockingRead(MoveAside(c).requestQueue[0].code) ==> MoveAside(c).readQueue == []
  {
    var verbs := Filter(Verbs(), c.requestQueue);
    FilterMembers(Verbs(), c.requestQueue);
    forall i | 0 <= i < |verbs| ensures !IsBlockingRead(verbs[i].code) { assert verbs[i] in verbs; }
  }

  lemma DeliverPlaces(c: Console, id: nat)
    requires c.requestQueue != [] && c.current.None?
    ensures Places(Deliver(c), id) == Places(c, id)
  {
    CountCons(c.requestQueue, id);
    CountSnoc(c.readQueue, c.requestQueue[0], id);
  }

  lemma DeliverSorted(c: Console)
    requires Sorted(c) && c.requestQueue != []
    ensures Sorted(Deliver(c))
  {
    var request, rest := c.requestQueue[0], c.requestQueue[1..];
    assert c.requestQueue == [request] + rest;
    FilterCons(TooLong(), request, rest);
    FilterSnoc(TooLong(), c.readQueue, request);
    FilterSnoc(Verbs(), c.readQueue, request);
  }

  lemma DeliverOrdered(c: Console)
    requires c.requestQueue != []
    ensures VerbOrder(Deliver(c)) == VerbOrder(c)
  {
    var request, rest := c.requestQueue[0], c.requestQueue[1..];
    assert c.requestQueue == [request] + rest;
    FilterCons(Verbs(), request, rest);
    FilterSnoc(Verbs(), c.delivered, request);
  }

  lemma MoveAsideCustody(c: Console)
    requires Custody(c)
    ensures Custody(MoveAside(c)) && SameWork(c, MoveAside(c))
  {
    forall id: nat ensures Places(MoveAside(c), id) == Places(c, id) { MoveAsidePlaces(c, id); }
  }

  lemma MoveAsideKeeps(c: Console)
    requires Custody(c) && Sorted(c) && Ordered(c)
    ensures Custody(MoveAside(c)) && Sorted(MoveAside(c)) && Ordered(MoveAside(c)) && SameWork(c, MoveAside(c))
  {
    MoveAsideCustody(c);
    MoveAsideSorted(c);
    VerbsOfVerbs(c.requestQueue);
    assert VerbOrder(MoveAside(c)) == VerbOrder(c);
  }

  lemma DeliverCustody(c: Console)
    requires Custody(c) && c.requestQueue != [] && c.current.None?
    ensures Custody(Deliver(c)) && SameWork(c, Deliver(c))
  {
    forall id: nat ensures Places(Deliver(c), id) == Places(c, id) { DeliverPlaces(c, id); }
  }

  lemma DeliverKeeps(c: Console)
    requires Custody(c) && Sorted(c) && Ordered(c) && c.requestQueue != [] && c.current.None?
    requires c.serverFile.Some? && c.signaled && !Abandoned(c)
    ensures Valid(Deliver(c)) && SameWork(c, Deliver(c))
  {
    DeliverCustody(c);
    DeliverSorted(c);
    DeliverOrdered(c);
    assert Awake(Deliver(c));
  }

  /** Driving the wait handle, or noting who pumps it, moves no request. */
  lemma OnlyTheHandle(c: Console, d: Console)
    requires d == c.(signaled := d.signaled, serverProcess := d.serverProcess)
    ensures Custody(c) ==> Custody(d)
    ensures Sorted(c) ==> Sorted(d)
    ensures Ordered(c) ==> Ordered(d)
    ensures SameWork(c, d)
  {
    assert VerbOrder(d) == VerbOrder(c);
    assert forall id: nat :: Places(d, id) == Places(c, id) && Settled(d, id) == Settled(c, id);
  }

  lemma SameWorkChain(c: Console, d: Console, e: Console)
    requires SameWork(c, d) && SameWork(d, e)
    ensures SameWork(c, e)
  {
  }

  /** A fetch that gets past its two refusals. */
  lemma FetchKeeps(c: Console, process: nat, length: nat)
    requires Valid(c) && c.serverFile.Some? && c.current.None? && !Abandoned(c)
    ensures Valid(ServerRead(c, process, length).0)
    ensures SameWork(c, ServerRead(c, process, length).0)
  {
    var pumped, d := c.(serverProcess := Some(process)), ServerRead(c, process, length).0;
    var moved := MoveAside(pumped);
    OnlyTheHandle(c, pumped);
    MoveAsideKeeps(pumped);
    SameWorkChain(c, pumped, moved);
    if ServerRead(c, process, length).2.Some? {
      assert d == Deliver(moved);
      DeliverKeeps(moved);
    } else {
      OnlyTheHandle(moved, d);
    }
    SameWorkChain(c, moved, d);
  }

  lemma ServerReadFrame(c: Console, process: nat, length: nat)
    ensures SameClients(c, ServerRead(c, process, length).0)
    ensures ServerRead(c, process, length).0.serverFile == c.serverFile
    ensures ServerRead(c, process, length).2.Some? <==> ServerRead(c, process, length).1 == STATUS_SUCCESS
  {
    if c.current.None? && !Abandoned(c) {
      var pumped := c.(serverProcess := Some(process));
      var moved := MoveAside(pumped);
      assert SameClients(c, moved) && moved.serverFile == c.serverFile;
      if moved.requestQueue != [] {
        assert SameClients(moved, Deliver(moved)) && Deliver(moved).serverFile == moved.serverFile;
      }
    }
  }

  lemma ServerReadKeeps(c: Console, process: nat, length: nat)
    requires Valid(c) && c.serverFile.Some?
    ensures Valid(ServerRead(c, process, length).0)
    ensures SameWork(c, ServerRead(c, process, length).0)
  {
    if c.current.Some? || Abandoned(c) {
      OnlyTheHandle(c, ServerRead(c, process, length).0);
    } else {
      FetchKeeps(c, process, length);
    }
  }

  /** One completion: the request leaves its place and is settled, once. */
  ghost predicate OneFinished(c: Console, d: Console, id: nat) {
    && d.nextRequestId == c.nextRequestId && Places(c, id) == 1
    && forall other: nat :: Places(d, other) == (if other == id then 0 else Places(c, other))
                            && Settled(d, other) == if other == id then 1 else Settled(c, other)
  }

  function ReadComplete(c: Console, k: Completion): Console
    requires c.readQueue != []
  {
    c.(readQueue := [], requestQueue := c.requestQueue + c.readQueue[1..], completed := c.completed + [k])
  }

  lemma ReadCompletePlaces(c: Console, k: Completion, id: nat)
    requires c.readQueue != [] && k.id == c.readQueue[0].id
    ensures Places(ReadComplete(c, k), id) + (if id == k.id then 1 else 0) == Places(c, id)
    ensures Settled(ReadComplete(c, k), id) == Settled(c, id) + if id == k.id then 1 else 0
  {
    CountCons(c.readQueue, id);
    CountConcat(c.requestQueue, c.readQueue[1..], id);
    DoneCountSnoc(c.completed, k, id);
  }

  lemma ReadCompleteLists(c: Console, k: Completion)
    requires Sorted(c) && Ordered(c) && c.readQueue != []
    ensures Sorted(ReadComplete(c, k)) && Ordered(ReadComplete(c, k))
  {
    var head, rest := c.readQueue[0], c.readQueue[1..];
    assert c.readQueue == [head] + rest;
    FilterCons(Verbs(), head, rest);
    FilterCons(TooLong(), head, rest);
    FilterConcat(Verbs(), c.requestQueue, rest);
    FilterConcat(TooLong(), c.requestQueue, rest);
    assert VerbOrder(ReadComplete(c, k)) == VerbOrder(c);
  }

  lemma ReadCompleteKeeps(c: Console, k: Completion)
    requires Custody(c) && c.readQueue != [] && k.id == c.readQueue[0].id
    ensures Custody(ReadComplete(c, k)) && OneFinished(c, ReadComplete(c, k), k.id)
  {
    var d := ReadComplete(c, k);
    forall id: nat
      ensures Places(d, id) + (if id == k.id then 1 else 0) == Places(c, id)
      ensures Settled(d, id) == Settled(c, id) + if id == k.id then 1 else 0
    {
      ReadCompletePlaces(c, k, id);
    }
    assert Places(c, k.id) + Settled(c, k.id) <= 1;
  }

  lemma VerbReplyKeeps(c: Console, k: Completion)
    requires Valid(c) && c.current.Some? && k.id == c.current.value.id
    ensures var d := c.(current := None, completed := c.completed + [k]); Valid(d) && OneFinished(c, d, k.id)
  {
    var d := c.(current := None, completed := c.completed + [k]);
    forall id: nat
      ensures Places(d, id) + (if id == k.id then 1 else 0) == Places(c, id)
      ensures Settled(d, id) == Settled(c, id) + if id == k.id then 1 else 0
    {
      DoneCountSnoc(c.completed, k, id);
    }
    assert Places(c, k.id) + Settled(c, k.id) <= 1;
  }

  /** Which request a reply finishes, if any. */
  function Answered(c: Console, length: nat, reply: Reply): Option<nat> {
    if length < REPLY_SIZE + reply.outSize then None
    else if reply.read != 0 then if c.readQueue == [] then None else Some(c.readQueue[0].id)
    else if c.current.Some? && c.current.value.id == reply.id then Some(reply.id) else None
  }

  lemma ServerWriteKeeps(c: Console, length: nat, reply: Reply, payload: seq<byte>)
    requires Valid(c) && c.serverFile.Some?
    requires length >= REPLY_SIZE ==> |payload| == length - REPLY_SIZE
    ensures var d := ServerWrite(c, length, reply, payload).0;
            && Valid(d) && SameClients(c, d) && d.serverFile == c.serverFile
            && (Answered(c, length, reply).None? ==> d == c)
            && (Answered(c, length, reply).Some? ==> OneFinished(c, d, Answered(c, length, reply).value))
  {
    if length >= REPLY_SIZE + reply.outSize {
      var status := if reply.status == STATUS_PENDING then STATUS_INVALID_PARAMETER else reply.status;
      var data := payload[..reply.outSize];
      if reply.read != 0 && c.readQueue != [] {
        var k := Finish(c.readQueue[0], status, data);
        ReadCompleteLists(c, k);
        ReadCompleteKeeps(c, k);
        OnlyTheHandle(ReadComplete(c, k), ServerWrite(c, length, reply, payload).0);
      } else if reply.read == 0 && c.current.Some? {
        VerbReplyKeeps(c, Finish(c.current.value, status, data));
      }
    }
  }

  lemma GonePlaces(c: Console, id: nat)
    ensures Places(ServerGone(c), id) == 0
    ensures Settled(ServerGone(c), id) == Settled(c, id) + Places(c, id)
  {
    var all := CurrentAsList(c) + c.readQueue + c.requestQueue;
    DoneCountFail(c.completed, all, STATUS_INVALID_DEVICE_STATE, id);
    CountConcat(CurrentAsList(c) + c.readQueue, c.requestQueue, id);
    CountConcat(CurrentAsList(c), c.readQueue, id);
    assert CurrentAsList(c) != [] ==> CurrentAsList(c)[..0] == [];
  }

  lemma GoneOrdered(c: Console)
    requires Ordered(c)
    ensures Ordered(ServerGone(c))
  {
    var none, sent, queued := (r: Request) => false, Filter(Verbs(), c.delivered), Filter(Verbs(), c.requestQueue);
    SuffixFilterAscending(sent, queued, none, c.nextRequestId);
    FilterNone(none, queued);
    assert sent + [] == sent;
  }

  lemma ServerGoneKeeps(c: Console)
    requires Valid(c)
    ensures Valid(ServerGone(c)) && SameClients(c, ServerGone(c))
    ensures forall id: nat :: Places(ServerGone(c), id) == 0
  {
    forall id: nat
      ensures Places(ServerGone(c), id) == 0 && Settled(ServerGone(c), id) == Settled(c, id) + Places(c, id)
    {
      GonePlaces(c, id);
    }
    GoneOrdered(c);
  }

  // ---------------------------------------------------------------- what that amounts to

  datatype Verb = Verb(code: nat, output: nat, input: seq<byte>, capacity: nat)

  /** Clients that arrive one after the other. */
  function EnqueueAll(c: Console, later: seq<Verb>): Console {
    if later == [] then c
    else
      var v := later[|later| - 1];
      Enqueue(EnqueueAll(c, later[..|later| - 1]), v.code, v.output, v.input, v.capacity).0
  }

  lemma {:induction false} EnqueueAllAppends(c: Console, later: seq<Verb>)
    requires Valid(c)
    ensures Valid(EnqueueAll(c, later))
    ensures c.requestQueue <= EnqueueAll(c, later).requestQueue
    ensures EnqueueAll(c, later).readQueue == c.readQueue && EnqueueAll(c, later).current == c.current
    ensures Abandoned(EnqueueAll(c, later)) == Abandoned(c)
  {
    if later != [] {
      var v, before := later[|later| - 1], EnqueueAll(c, later[..|later| - 1]);
      EnqueueAllAppends(c, later[..|later| - 1]);
      if Enqueue(before, v.code, v.output, v.input, v.capacity).1.Queued? {
        AppendKeeps(before, Request(before.nextRequestId + 1, v.code, v.output, v.input,
                                    Min(v.capacity, CONDRV_SERVER_MAX_PAYLOAD)));
      }
    }
  }

  lemma FirstVerb(q: seq<Request>, more: seq<Request>)
    requires Filter(Verbs(), q) != []
    ensures Filter(Verbs(), q + more) != [] && Filter(Verbs(), q + more)[0] == Filter(Verbs(), q)[0]
    ensures !IsBlockingRead(q[0].code) ==> Filter(Verbs(), q)[0] == q[0]
  {
    FilterConcat(Verbs(), q, more);
    assert q == [q[0]] + q[1..];
    FilterCons(Verbs(), q[0], q[1..]);
  }

  lemma PayloadFits(q: seq<Request>, r: Request)
    requires Filter(TooLong(), q) == [] && r in q
    ensures |r.input| <= CONDRV_SERVER_MAX_PAYLOAD
  {
    FilterMembers(TooLong(), q);
  }

  /** With a read outstanding, a full-size fetch passes over every queued read. */
  lemma FetchPassesReads(c: Console, process: nat)
    requires Valid(c) && c.current.None? && !Abandoned(c) && c.readQueue != []
    requires Filter(Verbs(), c.requestQueue) != []
    ensures ServerRead(c, process, CONDRV_SERVER_BUFFER_SIZE).1 == STATUS_SUCCESS
    ensures ServerRead(c, process, CONDRV_SERVER_BUFFER_SIZE).2 == Some(Filter(Verbs(), c.requestQueue)[0])
  {
    var oldest := Filter(Verbs(), c.requestQueue)[0];
    FirstVerb(c.requestQueue, []);
    FilterMembers(Verbs(), c.requestQueue);
    assert oldest in Filter(Verbs(), c.requestQueue);
    PayloadFits(c.requestQueue, oldest);
  }

  lemma ReadThenVerb(c: Console, process: nat, later: seq<Verb>)
    requires Valid(c) && c.serverFile.Some? && c.current.None? && !Abandoned(c)
    requires Filter(Verbs(), c.requestQueue) != [] && IsBlockingRead(c.requestQueue[0].code) && c.readQueue == []
    requires |c.requestQueue[0].input| <= CONDRV_SERVER_MAX_PAYLOAD
    ensures var d := ServerRead(c, process, CONDRV_SERVER_BUFFER_SIZE).0;
            ServerRead(EnqueueAll(d, later), process, CONDRV_SERVER_BUFFER_SIZE).2
              == Some(Filter(Verbs(), c.requestQueue)[0])
  {
    var q := c.requestQueue;
    var d := ServerRead(c, process, CONDRV_SERVER_BUFFER_SIZE).0;
    assert d.requestQueue == q[1..] && d.readQueue == [q[0]];
    ServerReadKeeps(c, process, CONDRV_SERVER_BUFFER_SIZE);
    EnqueueAllAppends(d, later);
    RestOfQueue(q, EnqueueAll(d, later).requestQueue);
    FetchPassesReads(EnqueueAll(d, later), process);
  }

  lemma RestOfQueue(q: seq<Request>, longer: seq<Request>)
    requires q != [] && IsBlockingRead(q[0].code) && q[1..] <= longer && Filter(Verbs(), q) != []
    ensures Filter(Verbs(), longer) != [] && Filter(Verbs(), longer)[0] == Filter(Verbs(), q)[0]
  {
    var more := longer[|q| - 1..];
    assert longer == q[1..] + more;
    assert q == [q[0]] + q[1..];
    FilterCons(Verbs(), q[0], q[1..]);
    FirstVerb(q[1..], more);
  }

  /** Two full-size fetches reach the oldest queued verb, however many reads stand before it or are parked, and
      whatever clients queue between the two. */
  lemma OldestVerbInTwoFetches(c: Console, process: nat, later: seq<Verb>)
    requires Valid(c) && c.serverFile.Some? && c.current.None? && !Abandoned(c)
    requires Filter(Verbs(), c.requestQueue) != []
    ensures var oldest := Filter(Verbs(), c.requestQueue)[0];
            var (d, status, message) := ServerRead(c, process, CONDRV_SERVER_BUFFER_SIZE);
            && status == STATUS_SUCCESS
            && (message == Some(oldest) ||
                ServerRead(EnqueueAll(d, later), process, CONDRV_SERVER_BUFFER_SIZE).2 == Some(oldest))
  {
    var q := c.requestQueue;
    PayloadFits(q, q[0]);
    FirstVerb(q, []);
    if c.readQueue != [] {
      FetchPassesReads(c, process);
    } else if IsBlockingRead(q[0].code) {
      ReadThenVerb(c, process, later);
    }
  }

  lemma AscendingHalves(a: seq<Request>, b: seq<Request>)
    requires Ascending(a + b)
    ensures forall i, j :: 0 <= i < j < |a| ==> a[i].id < a[j].id
    ensures forall i, j :: 0 <= i < |a| && 0 <= j < |b| ==> a[i].id < b[j].id
  {
    var whole := a + b;
    AscendingPairs(whole);
    forall i, j | 0 <= i < j < |a| ensures a[i].id < a[j].id { assert whole[i].id < whole[j].id; }
    forall i, j | 0 <= i < |a| && 0 <= j < |b| ensures a[i].id < b[j].id { assert whole[i].id < whole[|a| + j].id; }
  }

  /** Verbs reach the server in the order they were issued. */
  lemma DeliveredInOrder(c: Console)
    requires Ordered(c)
    ensures var sent, queued := Filter(Verbs(), c.delivered), Filter(Verbs(), c.requestQueue);
            && (forall i, j :: 0 <= i < j < |sent| ==> sent[i].id < sent[j].id)
            && (forall i, j :: 0 <= i < |sent| && 0 <= j < |queued| ==> sent[i].id < queued[j].id)
  {
    AscendingHalves(Filter(Verbs(), c.delivered), Filter(Verbs(), c.requestQueue));
  }
}
