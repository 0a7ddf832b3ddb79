/**
 What each step of CondrvWorld comes to, arm by arm (drivers/condrv.c:371-415, 717-954, 1082-1120): the status, who is
 bound to what, which open exists afterwards, and the two counters of the console it concerns.
 */
module CondrvArms {
  import opened NtKernel
  import opened CondrvBroker
  import opened CondrvWorld
  import opened CondrvOutcomes

  const INIT_OUTPUT := 0x500168
  const CLOSE_OUTPUT := 0x50016C

  /** The console with one more client. */
  function Joined(k: Console): Console { k.(refCount := k.refCount + 1, clientCount := k.clientCount + 1) }

  /** Only the file's open is new. */
  predicate Opens(w: World, v: World, file: nat, kind: Kind, outputId: nat, console: Option<nat>) {
    v == w.(opens := w.opens[file := Open(kind, outputId, console, false)])
  }

  // ---------------------------------------------------------------- a client leaves

  /** One client and its reference are gone; the last client wakes a live server, the last reference frees the
      console. */
  predicate Left(w: World, v: World, c: nat)
    requires c in w.consoles
  {
    var k := w.consoles[c];
    if k.refCount == 1 then v.consoles == w.consoles - {c}
    else
      v.consoles == w.consoles[c := k.(refCount := k.refCount - 1, clientCount := k.clientCount - 1,
                                       signaled := k.signaled || (k.clientCount == 1 && k.serverFile.Some?))]
  }

  lemma PutTwice(consoles: map<nat, Console>, c: nat, a: Console, b: Console)
    ensures consoles[c := a][c := b] == consoles[c := b] && consoles[c := a] - {c} == consoles - {c}
  {
  }

  lemma ReleaseOutcome(w: World, c: nat)
    requires c in w.consoles
    ensures var k, v := w.consoles[c], Release(w, c);
            && v == w.(consoles := v.consoles, faulted := v.faulted)
            && v.consoles == if k.refCount == 1 then w.consoles - {c}
                             else w.consoles[c := k.(refCount := k.refCount - 1)]
  {
  }

  lemma GoneOutcome(w: World, c: nat)
    requires c in w.consoles
    ensures Left(w, ClientGone(w, c), c)
    ensures ClientGone(w, c) == w.(consoles := ClientGone(w, c).consoles, faulted := ClientGone(w, c).faulted)
  {
    var told, mid := ToldOf(w, c);
    ReleaseOutcome(mid, c);
    PutTwice(w.consoles, c, told, told.(refCount := told.refCount - 1));
  }

  lemma ToldOf(w: World, c: nat) returns (told: Console, mid: World)
    requires c in w.consoles
    ensures var k := w.consoles[c];
            told == k.(clientCount := k.clientCount - 1,
                       signaled := k.signaled || (k.clientCount == 1 && k.serverFile.Some?))
    ensures mid == w.(consoles := w.consoles[c := told], faulted := mid.faulted) && ClientGone(w, c) == Release(mid, c)
  {
    var k := w.consoles[c].(clientCount := w.consoles[c].clientCount - 1);
    told := if k.clientCount == 0 then Signal(k, true) else k;
    mid := PutConsole(w, c, told).(faulted := w.faulted || k.clientCount < 0);
  }

  /** A granted open counts its holder. */
  lemma GrantOutcome(w: World, file: nat, kind: Kind, outputId: nat, c: nat)
    requires c in w.consoles
    ensures var (v, status) := Grant(w, file, kind, outputId, c, true);
            && status == STATUS_SUCCESS
            && Opens(w.(consoles := w.consoles[c := Joined(w.consoles[c])]), v, file, kind, outputId, Some(c))
  {
  }

  /** A grant whose record cannot be allocated gives its client back: what remains is the wake of a server that has no
      other client. */
  lemma GrantFails(w: World, file: nat, kind: Kind, outputId: nat, c: nat)
    requires c in w.consoles
    ensures var k, (v, status) := w.consoles[c], Grant(w, file, kind, outputId, c, false);
            && status == STATUS_INSUFFICIENT_RESOURCES
            && v.opens == w.opens && v.bound == w.bound && v.frames == w.frames
            && (k.refCount > 0 ==>
                 v.consoles
                 == w.consoles[c := k.(signaled := k.signaled || (k.clientCount == 0 && k.serverFile.Some?))])
  {
    var k, joined := w.consoles[c], AddClient(w, c);
    GoneOutcome(joined, c);
    if k.refCount > 0 {
      PutTwice(w.consoles, c, Joined(k), k.(signaled := k.signaled || (k.clientCount == 0 && k.serverFile.Some?)));
    }
  }

  // ---------------------------------------------------------------- opens

  /** A Server open mints a console of its own: one reference, no client, nothing queued, the handle clear. */
  lemma ServerOutcome(w: World, file: nat, root: Option<nat>, process: nat, mintOk: bool, poolOk: bool)
    requires Linked(w) && (root.None? || root.value !in w.opens)
    ensures var (v, status) := Create(w, file, NameServer, root, process, mintOk, poolOk);
            && (!mintOk || !poolOk ==> v == w && status == STATUS_INSUFFICIENT_RESOURCES)
            && (mintOk && poolOk ==>
                 && status == STATUS_SUCCESS && w.nextConsole !in w.consoles
                 && Opens(w.(consoles := v.consoles, nextConsole := w.nextConsole + 1), v, file, ServerOpen, 0,
                          Some(w.nextConsole))
                 && v.consoles.Keys == w.consoles.Keys + {w.nextConsole}
                 && (forall c :: c in w.consoles ==> v.consoles[c] == w.consoles[c])
                 && var k := v.consoles[w.nextConsole];
                    && k.refCount == 1 && k.clientCount == 0 && !k.referenceMinted && !k.signaled
                    && k.serverFile == Some(file) && k.serverProcess == Some(process)
                    && k.requestQueue == [] && k.readQueue == [] && k.current == None
                    && k.nextRequestId == 0 && k.nextOutputId == 1
                    && k.delivered == [] && k.completed == [] && k.withdrawn == {})
  {
  }

  /** The other absolute names: a connection needs an unbound caller and binds nothing, Input and Output need a bound
      one and capture nothing, and no other name exists. */
  lemma AbsoluteOutcome(w: World, file: nat, name: Name, root: Option<nat>, process: nat, mintOk: bool, poolOk: bool)
    requires Linked(w) && (root.None? || root.value !in w.opens)
    ensures var (v, status) := Create(w, file, name, root, process, mintOk, poolOk);
            && (name.NameConnection? ==>
                 if process in w.bound then v == w && status == STATUS_ACCESS_DENIED
                 else if !poolOk then v == w && status == STATUS_INSUFFICIENT_RESOURCES
                 else status == STATUS_SUCCESS && Opens(w, v, file, ConnectionOpen, 0, None))
            && (name.NameInput? ==>
                 if process !in w.bound then v == w && status == STATUS_INVALID_HANDLE
                 else if !poolOk then v == w && status == STATUS_INSUFFICIENT_RESOURCES
                 else status == STATUS_SUCCESS && Opens(w, v, file, InputOpen, 0, None))
            && (name.NameOutput? ==>
                 if process !in w.bound then v == w && status == STATUS_INVALID_HANDLE
                 else if !poolOk then v == w && status == STATUS_INSUFFICIENT_RESOURCES
                 else status == STATUS_SUCCESS && Opens(w, v, file, OutputOpen, 1, None))
            && (name.NameReference? || name.NameOther? ==> v == w && status == STATUS_OBJECT_NAME_NOT_FOUND)
  {
  }

  /** Relative to a Server open there is its Reference, once. */
  lemma ServerReferenceOutcome(w: World, file: nat, name: Name, root: nat, process: nat, mintOk: bool, poolOk: bool)
    requires Linked(w) && root in w.opens && !w.opens[root].cleaned && w.opens[root].kind.ServerOpen?
    ensures var (v, status) := Create(w, file, name, Some(root), process, mintOk, poolOk);
            var c := w.opens[root].console.value;
            var k := w.consoles[c];
            && (!name.NameReference? ==> v == w && status == STATUS_OBJECT_NAME_NOT_FOUND)
            && (name.NameReference? && k.referenceMinted ==> v == w && status == STATUS_INVALID_HANDLE)
            && (name.NameReference? && !k.referenceMinted && poolOk ==>
                 && status == STATUS_SUCCESS
                 && Opens(w.(consoles := w.consoles[c := Joined(k).(referenceMinted := true)]), v, file, ConsoleOpen, 0,
                          Some(c)))
            && (name.NameReference? && !k.referenceMinted && !poolOk ==>
                 && status == STATUS_INSUFFICIENT_RESOURCES && v.opens == w.opens && v.bound == w.bound
                 && (k.refCount > 0 ==> c in v.consoles && v.consoles[c].referenceMinted
                                        && v.consoles[c].clientCount == k.clientCount
                                        && v.consoles[c].refCount == k.refCount))
  {
    var c := w.opens[root].console.value;
    var minted := w.consoles[c].(referenceMinted := true);
    GrantOutcome(PutConsole(w, c, minted), file, ConsoleOpen, 0, c);
    GrantFails(PutConsole(w, c, minted), file, ConsoleOpen, 0, c);
    PutTwice(w.consoles, c, minted, Joined(minted));
  }

  /** Relative to a connection there is a Reference to the caller's own console. */
  lemma ConnectionReferenceOutcome(w: World, file: nat, name: Name, root: nat, process: nat, mintOk: bool, poolOk: bool)
    requires Linked(w) && root in w.opens && !w.opens[root].cleaned && w.opens[root].kind.ConnectionOpen?
    ensures var (v, status) := Create(w, file, name, Some(root), process, mintOk, poolOk);
            && (!name.NameReference? ==> v == w && status == STATUS_OBJECT_NAME_NOT_FOUND)
            && (name.NameReference? && process !in w.bound ==> v == w && status == STATUS_INVALID_HANDLE)
            && (name.NameReference? && process in w.bound && poolOk ==>
                 && status == STATUS_SUCCESS
                 && var c := w.bound[process];
                    Opens(w.(consoles := w.consoles[c := Joined(w.consoles[c])]), v, file, ConsoleOpen, 0, Some(c)))
            && (name.NameReference? && process in w.bound && !poolOk ==>
                 status == STATUS_INSUFFICIENT_RESOURCES && v.opens == w.opens && v.bound == w.bound)
  {
  }

  /** Relative to a console there is a Connection, which binds the caller to it. */
  lemma ConsoleConnectionOutcome(w: World, file: nat, name: Name, root: nat, process: nat, mintOk: bool, poolOk: bool)
    requires Linked(w) && root in w.opens && !w.opens[root].cleaned && w.opens[root].kind.ConsoleOpen?
    ensures var (v, status) := Create(w, file, name, Some(root), process, mintOk, poolOk);
            var c := w.opens[root].console.value;
            && (!name.NameConnection? ==> v == w && status == STATUS_OBJECT_NAME_NOT_FOUND)
            && (name.NameConnection? && process in w.bound ==> v == w && status == STATUS_ACCESS_DENIED)
            && (name.NameConnection? && process !in w.bound && !poolOk ==>
                 v == w && status == STATUS_INSUFFICIENT_RESOURCES)
            && (name.NameConnection? && process !in w.bound && poolOk ==>
                 && status == STATUS_SUCCESS
                 && Opens(w.(consoles := w.consoles[c := Joined(w.consoles[c])], bound := w.bound[process := c]), v,
                          file, ConnectionOpen, 0, None))
  {
  }

  /** Relative to Input and Output opens there is nothing. */
  lemma NoNamesBelow(w: World, file: nat, name: Name, root: nat, process: nat, mintOk: bool, poolOk: bool)
    requires Linked(w) && root in w.opens && !w.opens[root].cleaned
    requires w.opens[root].kind.InputOpen? || w.opens[root].kind.OutputOpen?
    ensures Create(w, file, name, Some(root), process, mintOk, poolOk) == (w, STATUS_OBJECT_NAME_NOT_FOUND)
  {
  }

  // ---------------------------------------------------------------- verbs and frames

  /** A verb goes to the console its open holds, for a screen buffer or a console reference, and otherwise to the
      console the caller is bound to now. */
  lemma RouteOutcome(w: World, file: nat, process: nat)
    requires file in w.opens
    ensures var open, route := w.opens[file], Route(w, file, process);
            && (open.kind.ServerOpen? || open.kind.ConnectionOpen? ==> route == None)
            && (open.kind.InputOpen? ==>
                 route == if process in w.bound then Some((w.bound[process], VerbBound(process))) else None)
            && ((open.kind.OutputOpen? || open.kind.ConsoleOpen?) && open.console.Some? ==>
                 route == Some((open.console.value, VerbThrough(file))))
            && (open.kind.ConsoleOpen? && open.console.None? ==> route == None)
            && (open.kind.OutputOpen? && open.console.None? ==>
                 route == if process in w.bound then Some((w.bound[process], VerbBound(process))) else None)
  {
  }

  /** A dispatched verb that the broker takes leaves its client blocked under the id it was given. */
  lemma DispatchOutcome(w: World, c: nat, frame: Frame, verb: Verb, poolOk: bool)
    requires c in w.consoles && (frame.ClosingScreen? ==> frame.file in w.opens)
    requires w.consoles[c].serverFile.Some? && |verb.input| <= PAYLOAD_CAP
    ensures var v, id := Dispatch(w, c, frame, verb, poolOk), w.consoles[c].nextRequestId + 1;
            && v == w.(consoles := v.consoles, frames := w.frames[(c, id) := frame])
            && v.consoles == w.consoles[c := v.consoles[c]]
            && |v.consoles[c].requestQueue| == |w.consoles[c].requestQueue| + 1
            && var r := v.consoles[c].requestQueue[|w.consoles[c].requestQueue|];
               r.id == id && r.code == verb.code && r.output == verb.output && r.input == verb.input
  {
    ForwardOutcome(w.consoles[c], verb.code, verb.output, verb.input, verb.capacity);
  }

  /** A new screen buffer: its id is minted on the caller's console, and the server is asked to create it. */
  lemma ScreenOutcome(w: World, file: nat, process: nat, c: nat, poolOk: bool)
    requires c in w.consoles
    ensures var k, v := w.consoles[c], Screen(w, file, process, c, poolOk);
            && v.opens == w.opens && v.bound == w.bound
            && c in v.consoles && v.consoles[c].nextOutputId == k.nextOutputId + 1
            && (k.serverFile.None? ==>
                 v == w.(consoles := w.consoles[c := k.(nextOutputId := k.nextOutputId + 1)]))
            && (k.serverFile.Some? ==>
                 && v.frames == w.frames[(c, k.nextRequestId + 1) := MintingScreen(process, file, k.nextOutputId + 1)]
                 && |v.consoles[c].requestQueue| == |k.requestQueue| + 1
                 && var r := v.consoles[c].requestQueue[|k.requestQueue|];
                    r.code == INIT_OUTPUT && r.output == k.nextOutputId + 1 && r.id == k.nextRequestId + 1)
  {
    var d := w.consoles[c].(nextOutputId := w.consoles[c].nextOutputId + 1);
    ForwardOutcome(d, INIT_OUTPUT, d.nextOutputId, [], 0);
  }

  // ---------------------------------------------------------------- waking

  /** A request completed once wakes its client with that completion's status, whatever completed since. */
  lemma {:induction false} WokenWith(completed: seq<Completion>, i: nat)
    requires i < |completed| && DoneCount(completed, completed[i].id) == 1
    ensures StatusOf(completed, completed[i].id) == completed[i].status
  {
    var front, last := completed[..|completed| - 1], completed[|completed| - 1];
    if i < |front| {
      DoneBefore(front, i);
      assert last.id != completed[i].id;
      assert front[i] == completed[i];
      WokenWith(front, i);
    }
  }

  lemma {:induction false} DoneBefore(completed: seq<Completion>, i: nat)
    requires i < |completed|
    ensures DoneCount(completed, completed[i].id) > 0
  {
    if i < |completed| - 1 {
      DoneBefore(completed[..|completed| - 1], i);
    }
  }

  /** So a client whose request a reply answers wakes with the reply's status, and one whose server vanished with that
      of a console without a server. */
  lemma ReplyWakes(c: Console, length: nat, reply: Reply, payload: seq<byte>)
    requires Valid(c) && c.serverFile.Some? && |payload| == length - HEADER && length >= HEADER + reply.outSize
    requires if reply.read != 0 then c.readQueue != [] else c.current.Some? && c.current.value.id == reply.id
    ensures var answered := if reply.read != 0 then c.readQueue[0].id else reply.id;
            StatusOf(ServerWrite(c, length, reply, payload).0.completed, answered) == ReplyStatus(reply)
  {
    var d := ServerWrite(c, length, reply, payload).0;
    ServerWriteKeeps(c, length, reply, payload);
    if reply.read != 0 {
      ReadReplyOutcome(c, length, reply, payload);
    } else {
      VerbReplyOutcome(c, length, reply, payload);
    }
    var k := d.completed[|c.completed|];
    DoneBefore(d.completed, |c.completed|);
    assert Settled(d, k.id) == 1;
    WokenWith(d.completed, |c.completed|);
  }

  lemma TeardownWakes(c: Console, id: nat)
    requires Valid(c) && Places(c, id) == 1
    ensures StatusOf(ServerGone(c).completed, id) == STATUS_INVALID_DEVICE_STATE
  {
    var d := ServerGone(c);
    var all := CurrentAsList(c) + c.readQueue + c.requestQueue;
    GonePlaces(c, id);
    assert Places(c, id) + Settled(c, id) == 1;
    TeardownOutcome(c);
    CountConcat(CurrentAsList(c) + c.readQueue, c.requestQueue, id);
    CountConcat(CurrentAsList(c), c.readQueue, id);
    assert CurrentAsList(c) != [] ==> CurrentAsList(c)[..0] == [];
    var k := Position(all, id);
    assert d.completed[|c.completed| + k].id == id;
    WokenWith(d.completed, |c.completed| + k);
  }

  /** What the woken client's verb came back with: the wait's own status, or the reply's. */
  function WokenStatus(k: Console, id: nat, aborted: Option<Status>): Status {
    if aborted.Some? then aborted.value else StatusOf(k.completed, id)
  }

  /** The client is off the console. */
  function Woken(w: World, c: nat, id: nat, aborted: Option<Status>): World
    requires c in w.consoles
  {
    var k := if aborted.Some? then Abort(w.consoles[c], id) else w.consoles[c];
    w.(consoles := w.consoles[c := k], frames := w.frames - {(c, id)})
  }

  /** A verb's client only goes. */
  lemma VerbWakes(w: World, c: nat, id: nat, aborted: Option<Status>, poolOk: bool)
    requires (c, id) in w.frames && c in w.consoles
    requires w.frames[(c, id)].VerbThrough? || w.frames[(c, id)].VerbBound?
    ensures Wake(w, c, id, aborted, poolOk) == Woken(w, c, id, aborted)
  {
  }

  /** A screen buffer is opened exactly if its verb came back with success and its record could be allocated. */
  lemma ScreenWakes(w: World, c: nat, id: nat, aborted: Option<Status>, poolOk: bool)
    requires (c, id) in w.frames && c in w.consoles && w.frames[(c, id)].MintingScreen?
    ensures var frame, v, woken := w.frames[(c, id)], Wake(w, c, id, aborted, poolOk), Woken(w, c, id, aborted);
            var granted := NtSuccess(WokenStatus(w.consoles[c], id, aborted));
            && (!granted ==> v == woken)
            && (granted && poolOk ==>
                 Opens(woken.(consoles := w.consoles[c := Joined(woken.consoles[c])]), v, frame.file, OutputOpen,
                       frame.outputId, Some(c)))
            && (granted && !poolOk ==> v.opens == w.opens && v.bound == w.bound)
  {
    var frame, woken := w.frames[(c, id)], Woken(w, c, id, aborted);
    GrantOutcome(woken, frame.file, OutputOpen, frame.outputId, c);
    GrantFails(woken, frame.file, OutputOpen, frame.outputId, c);
    PutTwice(w.consoles, c, woken.consoles[c], Joined(woken.consoles[c]));
  }

  /** The client of a closed screen buffer leaves, whatever the server answered. */
  lemma ClosedScreenWakes(w: World, c: nat, id: nat, aborted: Option<Status>, poolOk: bool)
    requires (c, id) in w.frames && c in w.consoles && w.frames[(c, id)].ClosingScreen?
    requires w.frames[(c, id)].file in w.opens
    ensures var frame, v, woken := w.frames[(c, id)], Wake(w, c, id, aborted, poolOk), Woken(w, c, id, aborted);
            && Left(woken, v, c) && v.bound == w.bound && v.frames == woken.frames
            && v.opens == w.opens[frame.file := w.opens[frame.file].(console := None)]
  {
    var file := w.frames[(c, id)].file;
    GoneOutcome(Woken(w, c, id, aborted).(opens := w.opens[file := w.opens[file].(console := None)]), c);
  }

  // ---------------------------------------------------------------- cleanup, close, bind

  /** Cleanup by kind: a Server open's console loses its server, a console reference its client, a connection unbinds
      its closer from whatever it is bound to, a screen buffer asks for its destruction, and the rest only closes. */
  lemma CleanupOutcome(w: World, file: nat, process: nat)
    requires Linked(w) && file in w.opens && !w.opens[file].cleaned
    ensures var open, v := w.opens[file], Cleanup(w, file, process);
            var cleaned := w.(opens := w.opens[file := open.(cleaned := true)]);
            && (open.kind.InputOpen? ==> v == cleaned)
            && (open.kind.OutputOpen? && open.outputId <= 1 ==> v == cleaned)
            && (open.kind.ServerOpen? ==>
                 var c := open.console.value;
                 && v == cleaned.(consoles := v.consoles)
                 && v.consoles == if w.consoles[c].serverFile == Some(file)
                                  then w.consoles[c := ServerGone(w.consoles[c])] else w.consoles)
            && (open.kind.ConsoleOpen? ==>
                 && Left(w, v, open.console.value) && v.bound == w.bound
                 && v.opens == w.opens[file := open.(cleaned := true, console := None)])
            && (open.kind.ConnectionOpen? && process !in w.bound ==> v == cleaned)
            && (open.kind.ConnectionOpen? && process in w.bound ==>
                 && Left(w, v, w.bound[process]) && v.bound == w.bound - {process} && v.opens == cleaned.opens)
  {
    var open := w.opens[file];
    if open.kind.ConsoleOpen? {
      GoneOutcome(w.(opens := w.opens[file := open.(cleaned := true, console := None)]), open.console.value);
    } else if open.kind.ConnectionOpen? && process in w.bound {
      var cleaned := w.(opens := w.opens[file := open.(cleaned := true)]);
      GoneOutcome(cleaned.(bound := w.bound - {process}), w.bound[process]);
    }
  }

  /** A screen buffer's cleanup: the server is told, and its client stays until the answer; without a server it leaves
      at once. */
  lemma ScreenCleanupOutcome(w: World, file: nat, process: nat)
    requires Linked(w) && file in w.opens && !w.opens[file].cleaned
    requires w.opens[file].kind.OutputOpen? && w.opens[file].outputId > 1
    ensures var open, v := w.opens[file], Cleanup(w, file, process);
            var c, k := open.console.value, w.consoles[open.console.value];
            && v.bound == w.bound
            && (k.serverFile.Some? ==>
                 && v.opens == w.opens[file := open.(cleaned := true)]
                 && v.frames == w.frames[(c, k.nextRequestId + 1) := ClosingScreen(file)]
                 && c in v.consoles && |v.consoles[c].requestQueue| == |k.requestQueue| + 1
                 && var r := v.consoles[c].requestQueue[|k.requestQueue|];
                    r.code == CLOSE_OUTPUT && r.output == open.outputId && r.id == k.nextRequestId + 1)
            && (k.serverFile.None? ==>
                 && v.opens == w.opens[file := open.(cleaned := true, console := None)] && v.frames == w.frames
                 && Left(w, v, c))
  {
    var open := w.opens[file];
    var c := open.console.value;
    var cleaned := w.(opens := w.opens[file := open.(cleaned := true)]);
    ForwardOutcome(w.consoles[c], CLOSE_OUTPUT, open.outputId, [], 0);
    if w.consoles[c].serverFile.None? {
      var closed := cleaned.(opens := cleaned.opens[file := cleaned.opens[file].(console := None)]);
      assert closed.opens == w.opens[file := open.(cleaned := true, console := None)];
      GoneOutcome(closed, c);
    }
  }

  /** Close: the record goes, and with a Server open the reference it still held. */
  lemma CloseOutcome(w: World, file: nat)
    requires Linked(w) && file in w.opens
    ensures var open, v := w.opens[file], Close(w, file);
            && v.opens == w.opens - {file} && v.bound == w.bound && v.frames == w.frames
            && (open.console.None? ==> v.consoles == w.consoles)
            && (open.console.Some? ==>
                 var c, k := open.console.value, w.consoles[open.console.value];
                 v.consoles == if k.refCount == 1 then w.consoles - {c}
                               else w.consoles[c := k.(refCount := k.refCount - 1)])
  {
  }

  /** BIND_PID: an unbound caller adopts the console its target is bound to. */
  lemma BindOutcome(w: World, process: nat, target: nat)
    requires Linked(w)
    ensures var (v, status) := BindPid(w, process, target);
            && (process in w.bound ==> v == w && status == STATUS_INVALID_HANDLE)
            && (process !in w.bound && target !in w.bound ==> v == w && status == STATUS_ACCESS_DENIED)
            && (process !in w.bound && target in w.bound ==>
                 && status == STATUS_SUCCESS
                 && var c := w.bound[target];
                    v == w.(bound := w.bound[process := c], consoles := w.consoles[c := Joined(w.consoles[c])]))
  {
  }

  /** A dying process is unbound from whatever it was bound to. */
  lemma UnbindOutcome(w: World, process: nat)
    requires Linked(w)
    ensures process !in w.bound ==> Unbind(w, process) == w
    ensures process in w.bound ==>
              && Left(w, Unbind(w, process), w.bound[process])
              && Unbind(w, process).bound == w.bound - {process} && Unbind(w, process).opens == w.opens
  {
    if process in w.bound {
      GoneOutcome(w.(bound := w.bound - {process}), w.bound[process]);
    }
  }

  // ---------------------------------------------------------------- steps of clients and servers

  /** The console a client's verb reaches: the one its open holds, or else the one the caller is bound to. */
  function Target(w: World, file: nat, process: nat): Option<nat>
    requires file in w.opens
  {
    var open := w.opens[file];
    if open.kind.ServerOpen? || open.kind.ConnectionOpen? then None
    else if !open.kind.InputOpen? && open.console.Some? then open.console
    else if !open.kind.ConsoleOpen? && process in w.bound then Some(w.bound[process])
    else None
  }

  /** A verb that reaches a served console is queued there as its client sent it, and the client waits for that id; one
      that reaches none changes nothing. */
  lemma VerbStepOutcome(w: World, file: nat, process: nat, verb: Verb)
    requires Linked(w) && Framed(w) && Enabled(w, VerbStep(file, process, verb))
    ensures var v, c := Next(w, VerbStep(file, process, verb)), Target(w, file, process);
            && (c.None? ==> v == w)
            && (c.Some? && w.consoles[c.value].serverFile.Some? && |verb.input| <= PAYLOAD_CAP ==>
                 && v == w.(consoles := w.consoles[c.value := v.consoles[c.value]], frames := v.frames)
                 && v.frames.Keys == w.frames.Keys + {(c.value, w.consoles[c.value].nextRequestId + 1)}
                 && |v.consoles[c.value].requestQueue| == |w.consoles[c.value].requestQueue| + 1
                 && var r := v.consoles[c.value].requestQueue[|w.consoles[c.value].requestQueue|];
                    && r.id == w.consoles[c.value].nextRequestId + 1 && r.code == verb.code
                    && r.output == verb.output && r.input == verb.input)
  {
    RouteOutcome(w, file, process);
    var route := Route(w, file, process);
    if route.Some? && w.consoles[route.value.0].serverFile.Some? && |verb.input| <= PAYLOAD_CAP {
      DispatchOutcome(w, route.value.0, route.value.1, verb, true);
    }
  }

  /** A screen buffer's open asks the caller's own console; a process that goes leaves its own console. */
  lemma ProcessStepOutcome(w: World, file: nat, process: nat, poolOk: bool)
    requires Linked(w) && Framed(w)
    ensures Enabled(w, ScreenStep(file, process, poolOk)) ==>
              Next(w, ScreenStep(file, process, poolOk))
              == if process in w.bound then Screen(w, file, process, w.bound[process], poolOk) else w
    ensures Enabled(w, ProcessDeleteStep(process)) ==>
              var v := Next(w, ProcessDeleteStep(process));
              if process in w.bound then Left(w, v, w.bound[process]) && v.bound == w.bound - {process} else v == w
  {
    UnbindOutcome(w, process);
  }

  /** A fetch reaches the console of the Server open it came through and nothing else: it answers nobody, changes no
      counter and leaves the console with its server. */
  lemma FetchStepOutcome(w: World, file: nat, process: nat, length: nat)
    requires Linked(w) && Framed(w) && Enabled(w, FetchStep(file, process, length))
    ensures var v, c := Next(w, FetchStep(file, process, length)), w.opens[file].console.value;
            && c in v.consoles && v == w.(consoles := w.consoles[c := v.consoles[c]])
            && v.consoles[c].completed == w.consoles[c].completed && SameClients(w.consoles[c], v.consoles[c])
            && v.consoles[c].serverFile == w.consoles[c].serverFile
  {
    ServerReadFrame(w.consoles[w.opens[file].console.value], process, length);
  }

  /** So does a reply that answers a delivered verb, and its client's request is then done, with the reply's status. */
  lemma ReplyStepOutcome(w: World, file: nat, length: nat, reply: Reply, payload: seq<byte>)
    requires Linked(w) && Framed(w) && Enabled(w, ReplyStep(file, length, reply, payload))
    requires length >= HEADER + reply.outSize && reply.read == 0
    requires var k := w.consoles[w.opens[file].console.value];
             Valid(k) && k.serverFile.Some? && k.current.Some? && k.current.value.id == reply.id
    ensures var v, c := Next(w, ReplyStep(file, length, reply, payload)), w.opens[file].console.value;
            && c in v.consoles && v == w.(consoles := w.consoles[c := v.consoles[c]])
            && IsDone(v.consoles[c], reply.id) && StatusOf(v.consoles[c].completed, reply.id) == ReplyStatus(reply)
            && v.consoles[c].current == None
  {
    var k := w.consoles[w.opens[file].console.value];
    ReplyWakes(k, length, reply, payload);
    VerbReplyOutcome(k, length, reply, payload);
    DoneBefore(ServerWrite(k, length, reply, payload).0.completed, |k.completed|);
  }
}
