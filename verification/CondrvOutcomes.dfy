/**
 What each broker step comes to, on the fields (drivers/condrv.c:417-694): the answer a client gets, the message the
 server gets, and what stays. The steps are those of CondrvBroker; the verbs' codes are spelled out here.
 */
module CondrvOutcomes {
  import opened NtKernel
  import opened Lists
  import opened CondrvBroker

  const BLOCKING_READS: set<nat> := {0x504028, 0x50402C, 0x504030, 0x504060}
  const WRITE_FILE := 0x50807C
  const HEADER := 24
  const PAYLOAD_CAP := 65512

  // ---------------------------------------------------------------- forward

  /** A verb without a server is refused, one with too long a payload too; any other joins the end of the queue under
      the next id, with its room clamped, and wakes the server. */
  lemma ForwardOutcome(c: Console, code: nat, output: nat, input: seq<byte>, capacity: nat)
    ensures var (d, admission) := Enqueue(c, code, output, input, capacity);
            && (c.serverFile.None? ==> d == c && admission == Refused(STATUS_INVALID_DEVICE_STATE))
            && (c.serverFile.Some? && |input| > PAYLOAD_CAP ==>
                 d == c && admission == Refused(STATUS_INVALID_BUFFER_SIZE))
            && (c.serverFile.Some? && |input| <= PAYLOAD_CAP ==>
                 && admission == Queued(c.nextRequestId + 1) && |d.requestQueue| == |c.requestQueue| + 1
                 && d == c.(requestQueue := d.requestQueue, nextRequestId := c.nextRequestId + 1, signaled := true)
                 && c.requestQueue <= d.requestQueue
                 && var r := d.requestQueue[|c.requestQueue|];
                    && r.id == c.nextRequestId + 1 && r.code == code && r.output == output && r.input == input
                    && r.outputCapacity == if capacity > PAYLOAD_CAP then PAYLOAD_CAP else capacity)
  {
  }

  // ---------------------------------------------------------------- abort

  /** One entry, the client's own, is gone from wherever it was, and nothing else moved. */
  ghost predicate OneLess(q: seq<Request>, left: seq<Request>, id: nat) {
    exists k :: 0 <= k < |q| && q[k].id == id && left == q[..k] + q[k + 1..]
  }

  lemma {:induction false} Position(q: seq<Request>, id: nat) returns (k: nat)
    requires Count(q, id) != 0
    ensures k < |q| && q[k].id == id
  {
    k := |q| - 1;
    if q[k].id != id {
      k := Position(q[..k], id);
    }
  }

  lemma UnlinkedIsOneLess(q: seq<Request>, id: nat)
    ensures Count(q, id) == 0 ==> Filter(NotNumbered(id), q) == q
    ensures Count(q, id) == 1 ==> OneLess(q, Filter(NotNumbered(id), q), id)
  {
    if Count(q, id) == 0 {
      NobodyElse(q, id);
    } else if Count(q, id) == 1 {
      var k := Position(q, id);
      UnlinkOne(q, k);
    }
  }

  /** An aborted client's request: a completed one stays completed, the delivered verb is no longer awaited, and any
      other leaves the one list it is on. */
  lemma AbortOutcome(c: Console, id: nat)
    requires Custody(c) && Waiting(c, id)
    ensures var d := Abort(c, id);
            && (IsDone(c, id) ==> d == c)
            && (!IsDone(c, id) && c.current.Some? && c.current.value.id == id ==>
                 d == c.(current := None, withdrawn := c.withdrawn + {id}))
            && (!IsDone(c, id) && !(c.current.Some? && c.current.value.id == id) ==>
                 && d == c.(requestQueue := d.requestQueue, readQueue := d.readQueue, withdrawn := c.withdrawn + {id})
                 && ((OneLess(c.requestQueue, d.requestQueue, id) && d.readQueue == c.readQueue)
                     || (d.requestQueue == c.requestQueue && OneLess(c.readQueue, d.readQueue, id))))
  {
    assert Places(c, id) + Settled(c, id) == 1;
    UnlinkedIsOneLess(c.requestQueue, id);
    UnlinkedIsOneLess(c.readQueue, id);
  }

  // ---------------------------------------------------------------- fetch

  function ReadCodes(): Request -> bool { (r: Request) => r.code in BLOCKING_READS }

  function OtherCodes(): Request -> bool { (r: Request) => r.code !in BLOCKING_READS }

  /** The two queues once blocking reads behind an outstanding one have moved aside, all of them and in order. */
  function Sides(c: Console): (seq<Request>, seq<Request>) {
    if c.readQueue != [] && c.requestQueue != [] && c.requestQueue[0].code in BLOCKING_READS then
      (Filter(OtherCodes(), c.requestQueue), c.readQueue + Filter(ReadCodes(), c.requestQueue))
    else (c.requestQueue, c.readQueue)
  }

  lemma SidesAreMoveAside(c: Console)
    ensures MoveAside(c) == c.(requestQueue := Sides(c).0, readQueue := Sides(c).1)
  {
    FilterSame(OtherCodes(), Verbs(), c.requestQueue);
    FilterSame(ReadCodes(), Reads(), c.requestQueue);
  }

  /** The fetch's refusals: a verb awaits its reply, or the last client is gone. */
  lemma FetchRefusals(c: Console, process: nat, length: nat)
    ensures c.current.Some? ==> ServerRead(c, process, length) == (c, STATUS_INVALID_DEVICE_STATE, None)
    ensures c.current.None? && c.referenceMinted && c.clientCount == 0 ==>
              ServerRead(c, process, length) == (c.(serverProcess := Some(process)), STATUS_INVALID_HANDLE, None)
  {
  }

  /** Any other fetch: nothing to hand out quiets the handle; a buffer that is too short keeps the request first in
      line and the handle signaled; otherwise the head of the queue is the message, a blocking read going on to the
      read queue and any other verb being awaited. */
  lemma FetchOutcome(c: Console, process: nat, length: nat)
    requires c.serverFile.Some? && c.current.None? && !(c.referenceMinted && c.clientCount == 0)
    ensures var (q, parked) := Sides(c);
            var (d, status, message) := ServerRead(c, process, length);
            var pumped := c.(serverProcess := Some(process), requestQueue := q, readQueue := parked);
            && (q == [] ==> status == STATUS_PENDING && message == None && d == pumped.(signaled := false))
            && (q != [] && length < HEADER + |q[0].input| ==>
                 status == STATUS_INVALID_BUFFER_SIZE && message == None && d == pumped.(signaled := true))
            && (q != [] && length >= HEADER + |q[0].input| ==>
                 && status == STATUS_SUCCESS && message == Some(q[0])
                 && d.requestQueue == q[1..] && d.delivered == c.delivered + [q[0]]
                 && (q[0].code in BLOCKING_READS ==> d.readQueue == parked + [q[0]] && d.current == None)
                 && (q[0].code !in BLOCKING_READS ==> d.readQueue == parked && d.current == Some(q[0]))
                 && (d.signaled <==> |q| > 1 && c.signaled)
                 && d == c.(serverProcess := Some(process), requestQueue := d.requestQueue, readQueue := d.readQueue,
                            current := d.current, delivered := d.delivered, signaled := d.signaled))
  {
    var pumped := c.(serverProcess := Some(process));
    SidesAreMoveAside(pumped);
    assert Sides(pumped) == Sides(c);
  }

  // ---------------------------------------------------------------- reply

  /** What a client learns of a request that came back with this status and this payload. */
  predicate Tells(k: Completion, r: Request, status: Status, payload: seq<byte>) {
    && k.id == r.id && k.status == status
    && k.data == payload[..if |payload| < r.outputCapacity then |payload| else r.outputCapacity]
    && k.information == if r.code == WRITE_FILE then |r.input| else |k.data|
  }

  function ReplyStatus(reply: Reply): Status {
    if reply.status == STATUS_PENDING then STATUS_INVALID_PARAMETER else reply.status
  }

  /** The replies that change nothing. */
  lemma ReplyRefusals(c: Console, length: nat, reply: Reply, payload: seq<byte>)
    requires length >= HEADER ==> |payload| == length - HEADER
    ensures length < HEADER ==> ServerWrite(c, length, reply, payload) == (c, STATUS_INVALID_BUFFER_SIZE)
    ensures HEADER <= length < HEADER + reply.outSize ==>
              ServerWrite(c, length, reply, payload) == (c, STATUS_INVALID_PARAMETER)
    ensures length >= HEADER + reply.outSize && reply.read != 0 && c.readQueue == [] ==>
              ServerWrite(c, length, reply, payload) == (c, STATUS_INVALID_HANDLE)
    ensures length >= HEADER + reply.outSize && reply.read == 0 && c.current.None? ==>
              ServerWrite(c, length, reply, payload) == (c, STATUS_SUCCESS)
    ensures length >= HEADER + reply.outSize && reply.read == 0 && c.current.Some? && c.current.value.id != reply.id ==>
              ServerWrite(c, length, reply, payload) == (c, STATUS_INVALID_PARAMETER)
  {
  }

  /** A read-complete reply answers the head of the read queue with its own status and as much of its payload as fits,
      and puts the reads deferred behind it back at the end of the queue. */
  lemma ReadReplyOutcome(c: Console, length: nat, reply: Reply, payload: seq<byte>)
    requires |payload| == length - HEADER && length >= HEADER + reply.outSize && reply.read != 0 && c.readQueue != []
    ensures var (d, status) := ServerWrite(c, length, reply, payload);
            && status == STATUS_SUCCESS
            && |d.completed| == |c.completed| + 1 && c.completed <= d.completed
            && Tells(d.completed[|c.completed|], c.readQueue[0], ReplyStatus(reply), payload[..reply.outSize])
            && d.readQueue == [] && d.requestQueue == c.requestQueue + c.readQueue[1..]
            && (c.serverFile.Some? && d.requestQueue != [] ==> d.signaled)
            && (c.serverFile.None? || d.requestQueue == [] ==> d.signaled == c.signaled)
            && d == c.(completed := d.completed, readQueue := d.readQueue, requestQueue := d.requestQueue,
                       signaled := d.signaled)
  {
  }

  /** A plain reply answers the verb that awaits it. */
  lemma VerbReplyOutcome(c: Console, length: nat, reply: Reply, payload: seq<byte>)
    requires |payload| == length - HEADER && length >= HEADER + reply.outSize && reply.read == 0
    requires c.current.Some? && c.current.value.id == reply.id
    ensures var (d, status) := ServerWrite(c, length, reply, payload);
            && status == STATUS_SUCCESS
            && |d.completed| == |c.completed| + 1 && c.completed <= d.completed
            && Tells(d.completed[|c.completed|], c.current.value, ReplyStatus(reply), payload[..reply.outSize])
            && d == c.(completed := d.completed, current := None)
  {
  }

  // ---------------------------------------------------------------- teardown

  lemma {:induction false} FailuresTell(q: seq<Request>, status: Status)
    ensures |FinishAll(q, status)| == |q|
    ensures forall k :: 0 <= k < |q| ==> Tells(FinishAll(q, status)[k], q[k], status, [])
    decreases |q|
  {
    if q != [] {
      FailuresTell(q[1..], status);
    }
  }

  /** When the server vanishes, the awaited verb, the read queue and the request queue fail, in that order, each with
      the status of a console without a server and no data. */
  lemma TeardownOutcome(c: Console)
    ensures var d := ServerGone(c);
            var all := (if c.current.Some? then [c.current.value] else []) + c.readQueue + c.requestQueue;
            && |d.completed| == |c.completed| + |all| && c.completed <= d.completed
            && (forall k :: 0 <= k < |all| ==>
                 Tells(d.completed[|c.completed| + k], all[k], STATUS_INVALID_DEVICE_STATE, []))
            && d == c.(serverFile := None, serverProcess := None, current := None, readQueue := [], requestQueue := [],
                       completed := d.completed)
  {
    FailuresTell(CurrentAsList(c) + c.readQueue + c.requestQueue, STATUS_INVALID_DEVICE_STATE);
  }
}
