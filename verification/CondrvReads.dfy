/**
 Which read a read-complete reply answers. The protocol (drivers/condrvproto.h:27-31) says: the oldest delivered one.
 That is so until a client whose delivered read has others deferred behind it is aborted; this module gives the exact
 condition.
 */
module CondrvReads {
  import opened NtKernel
  import opened Lists
  import opened CondrvBroker

  predicate Fetched(delivered: seq<Request>, id: nat) { Count(delivered, id) > 0 }

  ghost predicate Untouched(delivered: seq<Request>, q: seq<Request>) {
    forall r :: r in q ==> !Fetched(delivered, r.id)
  }

  ghost predicate NoneAhead(delivered: seq<Request>, n: nat) {
    forall id: nat :: id > n ==> !Fetched(delivered, id)
  }

  /** The head of the read queue was handed to the server. */
  predicate HeadFetched(c: Console) { c.readQueue != [] ==> Fetched(c.delivered, c.readQueue[0].id) }

  /** Nothing queued, and nothing deferred behind the head, was handed to the server. */
  ghost predicate RestUnfetched(c: Console) {
    && Untouched(c.delivered, c.requestQueue)
    && Untouched(c.delivered, Deferred(c.readQueue))
    && NoneAhead(c.delivered, c.nextRequestId)
  }

  function Deferred(q: seq<Request>): seq<Request> { if q == [] then [] else q[1..] }

  lemma {:induction false} CountAt(q: seq<Request>, i: nat)
    requires i < |q|
    ensures Count(q, q[i].id) >= 1
  {
    if i < |q| - 1 {
      CountAt(q[..|q| - 1], i);
    }
  }

  lemma {:induction false} CountTwice(q: seq<Request>, i: nat, j: nat)
    requires i < j < |q| && q[i].id == q[j].id
    ensures Count(q, q[i].id) >= 2
  {
    if j < |q| - 1 {
      CountTwice(q[..|q| - 1], i, j);
    } else {
      CountAt(q[..|q| - 1], i);
    }
  }

  lemma AppendKeepsReads(c: Console, request: Request)
    requires RestUnfetched(c) && HeadFetched(c) && request.id == c.nextRequestId + 1
    ensures RestUnfetched(Append(c, request)) && HeadFetched(Append(c, request))
  {
  }

  lemma MoveAsideKeepsReads(c: Console)
    requires RestUnfetched(c) && HeadFetched(c)
    ensures RestUnfetched(MoveAside(c)) && HeadFetched(MoveAside(c))
  {
    var d, q := MoveAside(c), c.requestQueue;
    FilterMembers(Verbs(), q);
    FilterMembers(Reads(), q);
    if d.readQueue != c.readQueue {
      assert Deferred(d.readQueue) == Deferred(c.readQueue) + Filter(Reads(), q);
    }
  }

  /** A list whose ids occur once each. */
  lemma HeadIsAlone(c: Console, q: seq<Request>)
    requires Custody(c) && q != [] && (q == c.requestQueue || q == c.readQueue)
    ensures forall r :: r in q[1..] ==> r.id != q[0].id
    ensures q == c.requestQueue ==> forall r :: r in c.readQueue ==> r.id != q[0].id
  {
    CountAt(q, 0);
    assert Places(c, q[0].id) + Settled(c, q[0].id) <= 1;
    forall r | r in q[1..] ensures r.id != q[0].id {
      var i :| 0 <= i < |q[1..]| && q[1..][i] == r;
      if q[i + 1].id == q[0].id { CountTwice(q, 0, i + 1); }
    }
    if q == c.requestQueue {
      forall r | r in c.readQueue ensures r.id != q[0].id {
        var i :| 0 <= i < |c.readQueue| && c.readQueue[i] == r;
        if r.id == q[0].id { CountAt(c.readQueue, i); }
      }
    }
  }

  lemma FetchedMore(delivered: seq<Request>, r: Request, q: seq<Request>, n: nat)
    requires Untouched(delivered, q) && NoneAhead(delivered, n) && r.id <= n && forall s :: s in q ==> s.id != r.id
    ensures Untouched(delivered + [r], q) && NoneAhead(delivered + [r], n)
    ensures forall id: nat :: Fetched(delivered + [r], id) <==> Fetched(delivered, id) || id == r.id
  {
    forall id: nat ensures Fetched(delivered + [r], id) <==> Fetched(delivered, id) || id == r.id {
      CountSnoc(delivered, r, id);
    }
  }

  lemma DeliverKeepsReads(c: Console)
    requires Custody(c) && RestUnfetched(c) && HeadFetched(c) && c.requestQueue != []
    requires IsBlockingRead(c.requestQueue[0].code) ==> c.readQueue == []
    ensures RestUnfetched(Deliver(c)) && HeadFetched(Deliver(c))
  {
    var q := c.requestQueue;
    HeadIsAlone(c, q);
    CountAt(q, 0);
    assert Places(c, q[0].id) + Settled(c, q[0].id) <= 1;
    FetchedMore(c.delivered, q[0], q[1..], c.nextRequestId);
    FetchedMore(c.delivered, q[0], Deferred(c.readQueue), c.nextRequestId);
    assert [q[0]][1..] == [];
  }

  lemma FetchKeepsReads(c: Console)
    requires Custody(c) && Sorted(c) && Ordered(c) && RestUnfetched(c) && HeadFetched(c)
    requires MoveAside(c).requestQueue != []
    ensures RestUnfetched(Deliver(MoveAside(c))) && HeadFetched(Deliver(MoveAside(c)))
  {
    MoveAsideKeepsReads(c);
    MoveAsideKeeps(c);
    ReadsAreDeliveredAlone(c);
    DeliverKeepsReads(MoveAside(c));
  }

  /** The read-order facts look at the lists, the deliveries and the last id only. */
  predicate SameLists(c: Console, d: Console) {
    && d.requestQueue == c.requestQueue && d.readQueue == c.readQueue && d.delivered == c.delivered
    && d.nextRequestId == c.nextRequestId
  }

  lemma SameListsSameReads(c: Console, d: Console)
    requires SameLists(c, d)
    ensures RestUnfetched(d) == RestUnfetched(c) && HeadFetched(d) == HeadFetched(c)
  {
  }

  lemma PumpedKeeps(c: Console, process: nat)
    requires Custody(c) && Sorted(c) && Ordered(c)
    ensures var d := c.(serverProcess := Some(process)); Custody(d) && Sorted(d) && Ordered(d)
  {
    var d := c.(serverProcess := Some(process));
    forall id: nat ensures Places(d, id) + Settled(d, id) == Places(c, id) + Settled(c, id) {
    }
  }

  /** Nothing is delivered. */
  lemma IdleReadKeepsReads(c: Console, process: nat, length: nat)
    requires RestUnfetched(c) && HeadFetched(c)
    requires var moved := MoveAside(c.(serverProcess := Some(process)));
             c.current.Some? || Abandoned(c) || moved.requestQueue == []
               || length < MESSAGE_SIZE + |moved.requestQueue[0].input|
    ensures RestUnfetched(ServerRead(c, process, length).0) && HeadFetched(ServerRead(c, process, length).0)
  {
    var pumped, d := c.(serverProcess := Some(process)), ServerRead(c, process, length).0;
    if c.current.Some? || Abandoned(c) {
      SameListsSameReads(c, d);
    } else {
      MoveAsideKeepsReads(pumped);
      SameListsSameReads(MoveAside(pumped), d);
    }
  }

  lemma ServerReadKeepsReads(c: Console, process: nat, length: nat)
    requires Custody(c) && Sorted(c) && Ordered(c) && RestUnfetched(c) && HeadFetched(c)
    ensures RestUnfetched(ServerRead(c, process, length).0) && HeadFetched(ServerRead(c, process, length).0)
  {
    var pumped := c.(serverProcess := Some(process));
    var moved := MoveAside(pumped);
    if c.current.Some? || Abandoned(c) || moved.requestQueue == []
      || length < MESSAGE_SIZE + |moved.requestQueue[0].input| {
      IdleReadKeepsReads(c, process, length);
    } else {
      PumpedKeeps(c, process);
      FetchKeepsReads(pumped);
    }
  }

  lemma ReadCompleteKeepsReads(c: Console, k: Completion)
    requires RestUnfetched(c) && HeadFetched(c) && c.readQueue != []
    ensures RestUnfetched(ReadComplete(c, k)) && HeadFetched(ReadComplete(c, k))
  {
    assert forall r :: r in c.requestQueue + c.readQueue[1..] ==> r in c.requestQueue || r in Deferred(c.readQueue);
  }

  lemma ServerWriteKeepsReads(c: Console, length: nat, reply: Reply, payload: seq<byte>)
    requires RestUnfetched(c) && HeadFetched(c) && (length >= REPLY_SIZE ==> |payload| == length - REPLY_SIZE)
    ensures RestUnfetched(ServerWrite(c, length, reply, payload).0)
    ensures HeadFetched(ServerWrite(c, length, reply, payload).0)
  {
    if length >= REPLY_SIZE + reply.outSize && reply.read != 0 && c.readQueue != [] {
      var status := if reply.status == STATUS_PENDING then STATUS_INVALID_PARAMETER else reply.status;
      ReadCompleteKeepsReads(c, Finish(c.readQueue[0], status, payload[..reply.outSize]));
    }
  }

  /** The read a reply completes is the head; the server was handed it, as the protocol promises. */
  lemma ReadReplyAnswersDelivered(c: Console, length: nat, reply: Reply, payload: seq<byte>)
    requires HeadFetched(c) && reply.read != 0 && Answered(c, length, reply).Some?
    requires length >= REPLY_SIZE ==> |payload| == length - REPLY_SIZE
    ensures var d := ServerWrite(c, length, reply, payload).0;
            |d.completed| == |c.completed| + 1 && Fetched(c.delivered, d.completed[|c.completed|].id)
  {
  }

  /** Aborting a client breaks the promise exactly when its read is the delivered one and others wait behind it. */
  lemma AbortExposesDeferredRead(c: Console, id: nat)
    requires Custody(c) && RestUnfetched(c) && HeadFetched(c) && Waiting(c, id)
    ensures HeadFetched(Abort(c, id)) <==> !(|c.readQueue| > 1 && c.readQueue[0].id == id)
    ensures HeadFetched(Abort(c, id)) ==> RestUnfetched(Abort(c, id))
  {
    var q := c.readQueue;
    FilterMembers(NotNumbered(id), c.requestQueue);
    if q == [] {
    } else if q[0].id != id {
      HeadStays(q, id);
      FilterMembers(NotNumbered(id), q[1..]);
    } else {
      HeadGoes(c, id);
    }
  }

  lemma HeadStays(q: seq<Request>, id: nat)
    requires q != [] && q[0].id != id
    ensures Filter(NotNumbered(id), q) == [q[0]] + Filter(NotNumbered(id), q[1..])
  {
    assert q == [q[0]] + q[1..];
    FilterCons(NotNumbered(id), q[0], q[1..]);
  }

  lemma HeadGoes(c: Console, id: nat)
    requires Custody(c) && c.readQueue != [] && c.readQueue[0].id == id
    ensures Abort(c, id).readQueue == c.readQueue[1..]
  {
    var q := c.readQueue;
    CountAt(q, 0);
    assert Places(c, id) + Settled(c, id) <= 1;
    HeadIsAlone(c, q);
    assert q == [q[0]] + q[1..];
    FilterCons(NotNumbered(id), q[0], q[1..]);
    FilterAll(NotNumbered(id), q[1..]);
  }

  // ---------------------------------------------------------------- runs

  datatype Step =
    | Forward(code: nat, output: nat, input: seq<byte>, capacity: nat)
    | Fetch(process: nat, length: nat)
    | Answer(length: nat, reply: Reply, payload: seq<byte>)
    | Withdraw(id: nat)
    | Teardown

  ghost predicate Enabled(c: Console, step: Step) {
    match step
    case Forward(_, _, _, _) => true
    case Fetch(_, _) => c.serverFile.Some?
    case Answer(length, reply, payload) =>
      c.serverFile.Some? && (length >= REPLY_SIZE ==> |payload| == length - REPLY_SIZE)
    case Withdraw(id) => Waiting(c, id)
    case Teardown => true
  }

  ghost function Next(c: Console, step: Step): Console
    requires Enabled(c, step)
  {
    match step
    case Forward(code, output, input, capacity) => Enqueue(c, code, output, input, capacity).0
    case Fetch(process, length) => ServerRead(c, process, length).0
    case Answer(length, reply, payload) => ServerWrite(c, length, reply, payload).0
    case Withdraw(id) => Abort(c, id)
    case Teardown => ServerGone(c)
  }

  /** The steps lead from `c` to `d`. */
  ghost predicate Leads(c: Console, steps: seq<Step>, d: Console)
    decreases |steps|
  {
    if steps == [] then c == d else Enabled(c, steps[0]) && Leads(Next(c, steps[0]), steps[1..], d)
  }

  /** No step aborts a client whose delivered read has others deferred behind it. */
  ghost predicate Gentle(c: Console, steps: seq<Step>)
    decreases |steps|
  {
    steps == [] ||
    (Enabled(c, steps[0])
     && (steps[0].Withdraw? ==> !(|c.readQueue| > 1 && c.readQueue[0].id == steps[0].id))
     && Gentle(Next(c, steps[0]), steps[1..]))
  }

  lemma EnqueueKeeps(c: Console, code: nat, output: nat, input: seq<byte>, capacity: nat)
    requires Valid(c) && RestUnfetched(c) && HeadFetched(c)
    ensures var d := Enqueue(c, code, output, input, capacity).0; Valid(d) && RestUnfetched(d) && HeadFetched(d)
  {
    if c.serverFile.Some? && |input| <= CONDRV_SERVER_MAX_PAYLOAD {
      var request := Request(c.nextRequestId + 1, code, output, input, Min(capacity, CONDRV_SERVER_MAX_PAYLOAD));
      AppendKeeps(c, request);
      AppendKeepsReads(c, request);
    }
  }

  lemma NextKeepsReads(c: Console, step: Step)
    requires Valid(c) && RestUnfetched(c) && HeadFetched(c) && Enabled(c, step)
    requires step.Withdraw? ==> !(|c.readQueue| > 1 && c.readQueue[0].id == step.id)
    ensures Valid(Next(c, step)) && RestUnfetched(Next(c, step)) && HeadFetched(Next(c, step))
  {
    match step {
      case Forward(code, output, input, capacity) => EnqueueKeeps(c, code, output, input, capacity);
      case Fetch(process, length) =>
        ServerReadKeeps(c, process, length);
        ServerReadKeepsReads(c, process, length);
      case Answer(length, reply, payload) =>
        ServerWriteKeeps(c, length, reply, payload);
        ServerWriteKeepsReads(c, length, reply, payload);
      case Withdraw(id) =>
        AbortKeeps(c, id);
        AbortExposesDeferredRead(c, id);
      case Teardown => ServerGoneKeeps(c);
    }
  }

  /** In every run in which no abort hits a delivered read that others wait behind, each read-complete reply answers a
      read the server was handed. */
  lemma {:induction false} GentleRunsKeepThePromise(c: Console, steps: seq<Step>, d: Console)
    requires Valid(c) && RestUnfetched(c) && HeadFetched(c) && Gentle(c, steps) && Leads(c, steps, d)
    ensures Valid(d) && HeadFetched(d) && RestUnfetched(d)
    ensures forall length, reply, payload | Enabled(d, Answer(length, reply, payload)) && reply.read != 0
                                            && Answered(d, length, reply).Some? ::
              Fetched(d.delivered, Next(d, Answer(length, reply, payload)).completed[|d.completed|].id)
    decreases |steps|
  {
    if steps == [] {
      forall length, reply, payload | Enabled(d, Answer(length, reply, payload)) && reply.read != 0
                                      && Answered(d, length, reply).Some?
        ensures Fetched(d.delivered, Next(d, Answer(length, reply, payload)).completed[|d.completed|].id)
      {
        ReadReplyAnswersDelivered(d, length, reply, payload);
      }
    } else {
      NextKeepsReads(c, steps[0]);
      GentleRunsKeepThePromise(Next(c, steps[0]), steps[1..], d);
    }
  }

  // ---------------------------------------------------------------- a fresh console, and a run that breaks the promise

  /** A console as Create mints it. */
  function Fresh(file: nat, process: nat): Console {
    Console(1, 0, false, Some(file), Some(process), false, [], [], None, 0, 1, [], [], {})
  }

  lemma FreshKeepsThePromise(file: nat, process: nat)
    ensures Valid(Fresh(file, process)) && HeadFetched(Fresh(file, process)) && RestUnfetched(Fresh(file, process))
  {
    var c := Fresh(file, process);
    assert forall id: nat :: Places(c, id) == 0 && Settled(c, id) == 0;
  }

  /** One blocking read after another is forwarded, the first is fetched, a second fetch moves the other behind it, and
      the first one's client is aborted. */
  function BreakingRun(process: nat): seq<Step> {
    [Forward(IOCTL_CONDRV_READ_INPUT, 0, [], 16), Forward(IOCTL_CONDRV_READ_INPUT, 0, [], 16),
     Fetch(process, CONDRV_SERVER_BUFFER_SIZE), Fetch(process, CONDRV_SERVER_BUFFER_SIZE), Withdraw(1)]
  }

  /** The read the n-th client of that run waits for. */
  function NthRead(n: nat): Request { Request(n, IOCTL_CONDRV_READ_INPUT, 0, [], 16) }

  /** Where that run ends: the second read heads the read queue, and only the first was ever delivered. */
  function Broken(file: nat, process: nat): Console {
    Fresh(file, process).(readQueue := [NthRead(2)], nextRequestId := 2, delivered := [NthRead(1)], withdrawn := {1})
  }

  lemma TwoForwarded(file: nat, process: nat) returns (one: Console, two: Console)
    ensures Next(Fresh(file, process), BreakingRun(process)[0]) == one && Next(one, BreakingRun(process)[1]) == two
    ensures two == Fresh(file, process).(requestQueue := [NthRead(1), NthRead(2)], nextRequestId := 2, signaled := true)
  {
    one := Fresh(file, process).(requestQueue := [NthRead(1)], nextRequestId := 1, signaled := true);
    two := Fresh(file, process).(requestQueue := [NthRead(1), NthRead(2)], nextRequestId := 2, signaled := true);
  }

  /** The promise is really broken: from a fresh console this run reaches a state in which the next read-complete reply
      finishes a read the server never saw. */
  lemma PromiseBreaks(file: nat, process: nat)
    ensures Leads(Fresh(file, process), BreakingRun(process), Broken(file, process))
    ensures !HeadFetched(Broken(file, process))
    ensures var reply := Reply(0, STATUS_SUCCESS, 1, 0);
            var d := Next(Broken(file, process), Answer(REPLY_SIZE, reply, []));
            |d.completed| == 1 && d.completed[0].id == 2 && !Fetched(d.delivered, 2)
  {
    var one, two := TwoForwarded(file, process);
    var fetched := two.(requestQueue := [NthRead(2)], readQueue := [NthRead(1)], delivered := [NthRead(1)]);
    var moved := fetched.(requestQueue := [], readQueue := [NthRead(1), NthRead(2)], signaled := false);
    FirstFetch(two, fetched, process);
    SecondFetch(fetched, moved, process);
    FirstAbort(moved, Broken(file, process));
    var steps := BreakingRun(process);
    var end := Broken(file, process);
    LeadsOne(moved, steps[4], end);
    LeadsCons(fetched, steps[3], moved, [steps[4]], end);
    LeadsCons(two, steps[2], fetched, [steps[3]] + [steps[4]], end);
    LeadsCons(one, steps[1], two, [steps[2]] + ([steps[3]] + [steps[4]]), end);
    LeadsCons(Fresh(file, process), steps[0], one, [steps[1]] + ([steps[2]] + ([steps[3]] + [steps[4]])), end);
    assert steps == [steps[0]] + ([steps[1]] + ([steps[2]] + ([steps[3]] + [steps[4]])));
    CountSnoc([], NthRead(1), 2);
    assert [] + [NthRead(1)] == [NthRead(1)];
  }

  lemma FirstFetch(c: Console, d: Console, process: nat)
    requires c.requestQueue == [NthRead(1), NthRead(2)] && c.readQueue == [] && c.current.None? && c.delivered == []
    requires c.serverProcess == Some(process) && c.serverFile.Some? && !Abandoned(c)
    requires d == c.(requestQueue := [NthRead(2)], readQueue := [NthRead(1)], delivered := [NthRead(1)])
    ensures Next(c, Fetch(process, CONDRV_SERVER_BUFFER_SIZE)) == d
  {
  }

  lemma SecondFetch(c: Console, d: Console, process: nat)
    requires c.requestQueue == [NthRead(2)] && c.readQueue == [NthRead(1)] && c.current.None?
    requires c.serverProcess == Some(process) && c.serverFile.Some? && !Abandoned(c)
    requires d == c.(requestQueue := [], readQueue := [NthRead(1), NthRead(2)], signaled := false)
    ensures Next(c, Fetch(process, CONDRV_SERVER_BUFFER_SIZE)) == d
  {
    FilterOne(Verbs(), NthRead(2));
    FilterOne(Reads(), NthRead(2));
  }

  lemma FirstAbort(c: Console, d: Console)
    requires c.requestQueue == [] && c.readQueue == [NthRead(1), NthRead(2)] && c.current.None? && c.completed == []
    requires c.nextRequestId == 2 && c.withdrawn == {} && d == c.(readQueue := [NthRead(2)], withdrawn := {1})
    ensures Enabled(c, Withdraw(1)) && Next(c, Withdraw(1)) == d
  {
    assert [NthRead(1), NthRead(2)] == [NthRead(1)] + [NthRead(2)];
    FilterCons(NotNumbered(1), NthRead(1), [NthRead(2)]);
    FilterOne(NotNumbered(1), NthRead(2));
  }

  lemma LeadsOne(c: Console, step: Step, d: Console)
    requires Enabled(c, step) && Next(c, step) == d
    ensures Leads(c, [step], d)
  {
    assert [step][1..] == [];
  }

  lemma LeadsCons(c: Console, step: Step, d: Console, rest: seq<Step>, e: Console)
    requires Enabled(c, step) && Next(c, step) == d && Leads(d, rest, e)
    ensures Leads(c, [step] + rest, e)
  {
    assert ([step] + rest)[1..] == rest;
  }
}
