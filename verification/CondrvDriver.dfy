/** The console object the driver updates in place, each method proved against the step function of the same name. */
module CondrvDriver {
  import opened NtKernel
  import opened Lists
  import opened CondrvBroker

  class CondrvConsole {
    var refCount: int
    var clientCount: int
    var referenceMinted: bool
    var serverFile: Option<nat>
    var serverProcess: Option<nat>
    var signaled: bool
    var requestQueue: seq<Request>
    var readQueue: seq<Request>
    var current: Option<Request>
    var nextRequestId: nat
    var nextOutputId: nat
    var delivered: seq<Request>
    var completed: seq<Completion>
    var withdrawn: set<nat>

    ghost function View(): Console
      reads this
    {
      Console(refCount, clientCount, referenceMinted, serverFile, serverProcess, signaled, requestQueue, readQueue,
              current, nextRequestId, nextOutputId, delivered, completed, withdrawn)
    }

    /** A Server open mints one console; id 1 is the screen buffer conhost pre-creates. */
    constructor (file: nat, process: nat)
      ensures View() == Console(1, 0, false, Some(file), Some(process), false, [], [], None, 0, 1, [], [], {})
    {
      refCount, clientCount, referenceMinted := 1, 0, false;
      serverFile, serverProcess, signaled := Some(file), Some(process), false;
      requestQueue, readQueue, current := [], [], None;
      nextRequestId, nextOutputId := 0, 1;
      delivered, completed, withdrawn := [], [], {};
    }

    method SignalServer(pending: bool)
      modifies this`signaled
      ensures View() == Signal(old(View()), pending)
    {
      if serverFile == None {
        return;
      }
      signaled := pending;
    }

    method CompleteRequest(request: Request, status: Status, data: seq<byte>)
      modifies this`completed
      ensures completed == old(completed) + [Finish(request, status, data)]
    {
      var copy := |data|;
      if copy > request.outputCapacity {
        copy := request.outputCapacity;
      }
      var information := if request.code == IOCTL_CONDRV_WRITE_FILE then |request.input| else copy;
      completed := completed + [Completion(request.id, status, information, data[..copy])];
    }

    method ForwardEnqueue(code: nat, output: nat, input: seq<byte>, capacity: nat) returns (admission: Admission)
      modifies this
      ensures (View(), admission) == Enqueue(old(View()), code, output, input, capacity)
    {
      if serverFile == None {
        return Refused(STATUS_INVALID_DEVICE_STATE);
      }
      if |input| > CONDRV_SERVER_MAX_PAYLOAD {
        return Refused(STATUS_INVALID_BUFFER_SIZE);
      }
      var clamped := capacity;
      if clamped > CONDRV_SERVER_MAX_PAYLOAD {
        clamped := CONDRV_SERVER_MAX_PAYLOAD;
      }
      nextRequestId := nextRequestId + 1;
      var request := Request(nextRequestId, code, output, input, clamped);
      requestQueue := requestQueue + [request];
      SignalServer(true);
      return Queued(request.id);
    }

    /** The client thread numbered by its request is torn out of the wait: a completed request is already unlinked, a
        delivered verb is `current`, and anything else is one entry of one of the two lists. */
    method ForwardAbort(id: nat)
      requires Custody(View()) && Waiting(View(), id)
      modifies this
      ensures View() == Abort(old(View()), id)
    {
      AbortFindsOne(View(), id);
      if DoneCount(completed, id) != 0 {
        return;
      }
      if current.Some? && current.value.id == id {
        current := None;
      } else {
        RemoveEntry(id);
      }
      withdrawn := withdrawn + {id};
    }

    /** RemoveEntryList on the one entry that carries the id, whichever list it is on. */
    method RemoveEntry(id: nat)
      requires Count(requestQueue, id) + Count(readQueue, id) == 1
      modifies this`requestQueue, this`readQueue
      ensures requestQueue == Filter(NotNumbered(id), old(requestQueue))
      ensures readQueue == Filter(NotNumbered(id), old(readQueue))
    {
      var at := Find(requestQueue, id);
      if at < |requestQueue| {
        UnlinkOne(requestQueue, at);
        NobodyElse(readQueue, id);
        requestQueue := requestQueue[..at] + requestQueue[at + 1..];
      } else {
        NobodyElse(requestQueue, id);
        at := Find(readQueue, id);
        UnlinkOne(readQueue, at);
        readQueue := readQueue[..at] + readQueue[at + 1..];
      }
    }

    /** The walk that shifts queued reads behind the outstanding one, entry by entry. */
    method ShiftReads()
      modifies this`requestQueue, this`readQueue
      ensures requestQueue == Filter(Verbs(), old(requestQueue))
      ensures readQueue == old(readQueue) + Filter(Reads(), old(requestQueue))
    {
      ghost var q := requestQueue;
      var seen, at := 0, 0;
      while at < |requestQueue|
        invariant 0 <= seen <= |q| && at == |Filter(Verbs(), q[..seen])|
        invariant requestQueue == Filter(Verbs(), q[..seen]) + q[seen..]
        invariant readQueue == old(readQueue) + Filter(Reads(), q[..seen])
        decreases |q| - seen
      {
        ShiftStep(q, seen);
        var request := requestQueue[at];
        if IsBlockingRead(request.code) {
          requestQueue := requestQueue[..at] + requestQueue[at + 1..];
          readQueue := readQueue + [request];
        } else {
          at := at + 1;
        }
        seen := seen + 1;
      }
      assert q[..seen] == q;
    }

    /** Take the head of a non-empty queue and hand it over, or put it back when the buffer is short. */
    method FetchHead(length: nat) returns (status: Status, message: Option<Request>)
      requires requestQueue != [] && current == None
      requires IsBlockingRead(requestQueue[0].code) ==> readQueue == []
      modifies this
      ensures length < MESSAGE_SIZE + |old(requestQueue)[0].input| ==>
                View() == Signal(old(View()), true) && status == STATUS_INVALID_BUFFER_SIZE && message == None
      ensures length >= MESSAGE_SIZE + |old(requestQueue)[0].input| ==>
                View() == Deliver(old(View())) && status == STATUS_SUCCESS && message == Some(old(requestQueue)[0])
    {
      var request := requestQueue[0];
      requestQueue := requestQueue[1..];
      if requestQueue == [] {
        SignalServer(false);
      }
      var total := MESSAGE_SIZE + |request.input|;
      if length < total {
        requestQueue := [request] + requestQueue;
        SignalServer(true);
        return STATUS_INVALID_BUFFER_SIZE, None;
      }
      if IsBlockingRead(request.code) {
        assert readQueue == [];
        readQueue := readQueue + [request];
      } else {
        current := Some(request);
      }
      delivered := delivered + [request];
      return STATUS_SUCCESS, Some(request);
    }

    method ServerRead(process: nat, length: nat) returns (status: Status, message: Option<Request>)
      modifies this
      ensures (View(), status, message) == CondrvBroker.ServerRead(old(View()), process, length)
    {
      message := None;
      if current != None {
        return STATUS_INVALID_DEVICE_STATE, None;
      }
      serverProcess := Some(process);
      if referenceMinted && clientCount == 0 {
        return STATUS_INVALID_HANDLE, None;
      }
      ghost var pumped := View();
      if readQueue != [] && requestQueue != [] {
        var head := requestQueue[0];
        if IsBlockingRead(head.code) {
          ShiftReads();
        }
      }
      assert View() == MoveAside(pumped);
      if requestQueue == [] {
        SignalServer(false);
        return STATUS_PENDING, None;
      }
      ReadsAreDeliveredAlone(pumped);
      assert IsBlockingRead(requestQueue[0].code) ==> readQueue == [];
      status, message := FetchHead(length);
    }

    /** Deferred reads go back to the tail of the queue, oldest first. */
    method RequeueReads()
      modifies this`requestQueue, this`readQueue
      ensures readQueue == [] && requestQueue == old(requestQueue + readQueue)
    {
      while readQueue != []
        invariant requestQueue + readQueue == old(requestQueue + readQueue)
        decreases |readQueue|
      {
        requestQueue, readQueue := requestQueue + [readQueue[0]], readQueue[1..];
      }
    }

    method ServerWrite(length: nat, reply: Reply, payload: seq<byte>) returns (status: Status)
      requires length >= REPLY_SIZE ==> |payload| == length - REPLY_SIZE
      modifies this
      ensures (View(), status) == CondrvBroker.ServerWrite(old(View()), length, reply, payload)
    {
      if length < REPLY_SIZE {
        return STATUS_INVALID_BUFFER_SIZE;
      }
      if length < REPLY_SIZE + reply.outSize {
        return STATUS_INVALID_PARAMETER;
      }
      var answer := reply.status;
      if answer == STATUS_PENDING {
        answer := STATUS_INVALID_PARAMETER;
      }
      if reply.read != 0 {
        if readQueue == [] {
          return STATUS_INVALID_HANDLE;
        }
        var request := readQueue[0];
        readQueue := readQueue[1..];
        CompleteRequest(request, answer, payload[..reply.outSize]);
        RequeueReads();
        if requestQueue != [] {
          SignalServer(true);
        }
        return STATUS_SUCCESS;
      }
      if current.Some? {
        if current.value.id != reply.id {
          return STATUS_INVALID_PARAMETER;
        }
        var request := current.value;
        current := None;
        CompleteRequest(request, answer, payload[..reply.outSize]);
      }
      return STATUS_SUCCESS;
    }

    /** Fail everything on one list, head first. */
    method FailAll(queue: seq<Request>)
      modifies this`completed
      ensures completed == old(completed) + FinishAll(queue, STATUS_INVALID_DEVICE_STATE)
    {
      var rest := queue;
      while rest != []
        invariant completed + FinishAll(rest, STATUS_INVALID_DEVICE_STATE)
               == old(completed) + FinishAll(queue, STATUS_INVALID_DEVICE_STATE)
      {
        CompleteRequest(rest[0], STATUS_INVALID_DEVICE_STATE, []);
        rest := rest[1..];
      }
    }

    method FailLists()
      modifies this`completed, this`readQueue, this`requestQueue
      ensures readQueue == [] && requestQueue == []
      ensures completed == old(completed) + FinishAll(old(readQueue), STATUS_INVALID_DEVICE_STATE)
                           + FinishAll(old(requestQueue), STATUS_INVALID_DEVICE_STATE)
    {
      FailAll(readQueue);
      readQueue := [];
      FailAll(requestQueue);
      requestQueue := [];
    }

    method ServerGone()
      modifies this
      ensures View() == CondrvBroker.ServerGone(old(View()))
    {
      ghost var before := View();
      GoneLog(before);
      serverFile, serverProcess := None, None;
      if current.Some? {
        CompleteRequest(current.value, STATUS_INVALID_DEVICE_STATE, []);
        current := None;
      }
      FailLists();
    }
  }

  /** Where the entry with the id stands; the length when it is not on the list. */
  method Find(q: seq<Request>, id: nat) returns (at: nat)
    ensures at <= |q| && (at < |q| ==> q[at].id == id)
    ensures at == |q| <==> Count(q, id) == 0
  {
    at := 0;
    while at < |q| && q[at].id != id
      invariant at <= |q| && Count(q[..at], id) == 0
    {
      assert q[..at + 1] == q[..at] + [q[at]];
      CountSnoc(q[..at], q[at], id);
      at := at + 1;
    }
    assert q == q[..at] + q[at..];
    CountConcat(q[..at], q[at..], id);
    if at < |q| {
      CountCons(q[at..], id);
    }
  }

  /** A request that still waits and is neither done nor `current` is on exactly one list, once. */
  lemma AbortFindsOne(c: Console, id: nat)
    requires Custody(c) && Waiting(c, id)
    ensures !IsDone(c, id) && !(c.current.Some? && c.current.value.id == id) ==>
              Count(c.requestQueue, id) + Count(c.readQueue, id) == 1
  {
    assert Places(c, id) + Settled(c, id) == 1;
  }

  /** Taking one entry out of, or leaving it in, the walked list. */
  lemma Walked<T>(before: seq<T>, x: T, rest: seq<T>)
    ensures (before + ([x] + rest))[|before|] == x
    ensures (before + ([x] + rest))[..|before|] + (before + ([x] + rest))[|before| + 1..] == before + rest
    ensures before + ([x] + rest) == (before + [x]) + rest
  {
  }

  lemma ShiftStep(q: seq<Request>, seen: nat)
    requires seen < |q|
    ensures var before, after := Filter(Verbs(), q[..seen]), Filter(Verbs(), q[..seen + 1]);
            var walked := before + q[seen..];
            && walked[|before|] == q[seen]
            && (IsBlockingRead(q[seen].code) ==>
                  && walked[..|before|] + walked[|before| + 1..] == after + q[seen + 1..] && |after| == |before|
                  && Filter(Reads(), q[..seen + 1]) == Filter(Reads(), q[..seen]) + [q[seen]])
            && (!IsBlockingRead(q[seen].code) ==>
                  && walked == after + q[seen + 1..] && |after| == |before| + 1
                  && Filter(Reads(), q[..seen + 1]) == Filter(Reads(), q[..seen]))
  {
    assert q[..seen + 1] == q[..seen] + [q[seen]] && q[seen..] == [q[seen]] + q[seen + 1..];
    FilterSnoc(Verbs(), q[..seen], q[seen]);
    FilterSnoc(Reads(), q[..seen], q[seen]);
    Walked(Filter(Verbs(), q[..seen]), q[seen], q[seen + 1..]);
  }

  lemma GoneLog(c: Console)
    ensures var status := STATUS_INVALID_DEVICE_STATE;
            CondrvBroker.ServerGone(c).completed
              == (if c.current.Some? then c.completed + [Finish(c.current.value, status, [])] else c.completed)
                 + FinishAll(c.readQueue, status) + FinishAll(c.requestQueue, status)
  {
    FinishAllConcat(CurrentAsList(c) + c.readQueue, c.requestQueue, STATUS_INVALID_DEVICE_STATE);
    FinishAllConcat(CurrentAsList(c), c.readQueue, STATUS_INVALID_DEVICE_STATE);
  }

  lemma {:induction false} FinishAllConcat(a: seq<Request>, b: seq<Request>, status: Status)
    ensures FinishAll(a + b, status) == FinishAll(a, status) + FinishAll(b, status)
  {
    if a == [] {
      assert a + b == b;
    } else {
      FinishAllConcat(a[1..], b, status);
      assert (a + b)[1..] == a[1..] + b;
    }
  }

  /** WriteFile on a console handle: WRITE_FILE verbs cut under the payload cap. `answers` are the statuses the
      forwarded verbs come back with; the list is long enough for every chunk. */
  method ConsoleWrite(buffer: seq<byte>, answers: seq<Status>)
    returns (status: Status, written: nat, chunks: seq<seq<byte>>)
    requires |answers| > |buffer|
    ensures forall i :: 0 <= i < |chunks| ==> |chunks[i]| <= CONDRV_SERVER_MAX_PAYLOAD
    ensures chunks != [] && |chunks| <= |answers|
    ensures forall i :: 0 <= i < |chunks| - 1 ==> NtSuccess(answers[i]) && |chunks[i]| == CONDRV_SERVER_MAX_PAYLOAD
    ensures Join(chunks) <= buffer
    ensures status == STATUS_SUCCESS ==>
              written == |buffer| && Join(chunks) == buffer && NtSuccess(answers[|chunks| - 1])
    ensures status != STATUS_SUCCESS ==> status == answers[|chunks| - 1] && !NtSuccess(status)
  {
    written, chunks := 0, [];
    while written < |buffer| || |buffer| == 0
      invariant 0 <= written <= |buffer| && |chunks| <= written
      invariant Join(chunks) == buffer[..written]
      invariant forall i :: 0 <= i < |chunks| ==> |chunks[i]| <= CONDRV_SERVER_MAX_PAYLOAD && NtSuccess(answers[i])
      invariant written > 0 ==> chunks != []
      invariant written < |buffer| ==> forall i :: 0 <= i < |chunks| ==> |chunks[i]| == CONDRV_SERVER_MAX_PAYLOAD
      invariant forall i :: 0 <= i < |chunks| - 1 ==> |chunks[i]| == CONDRV_SERVER_MAX_PAYLOAD
      decreases |buffer| - written
    {
      var chunk := |buffer| - written;
      if chunk > CONDRV_SERVER_MAX_PAYLOAD {
        chunk := CONDRV_SERVER_MAX_PAYLOAD;
      }
      var piece := buffer[written..written + chunk];
      JoinSnoc(chunks, piece);
      assert buffer[..written] + piece == buffer[..written + chunk];
      var answer := answers[|chunks|];
      chunks := chunks + [piece];
      if !NtSuccess(answer) {
        return answer, written, chunks;
      }
      written := written + chunk;
      if |buffer| == 0 {
        break;
      }
    }
    assert buffer[..written] == buffer;
    return STATUS_SUCCESS, written, chunks;
  }

  function Join(chunks: seq<seq<byte>>): seq<byte> {
    if chunks == [] then [] else Join(chunks[..|chunks| - 1]) + chunks[|chunks| - 1]
  }

  lemma JoinSnoc(chunks: seq<seq<byte>>, piece: seq<byte>)
    ensures Join(chunks + [piece]) == Join(chunks) + piece
  {
    assert (chunks + [piece])[..|chunks|] == chunks;
  }
}
