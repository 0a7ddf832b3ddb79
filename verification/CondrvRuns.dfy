/**
 Whole runs: what holds in every reachable world, and the finality of the last client's leaving
 (drivers/condrv.c:265-415, 518-694).
 */
module CondrvRuns {
  import opened NtKernel
  import opened CondrvBroker
  import opened CondrvHolders
  import opened CondrvSteps
  import opened CondrvWorld

  /** `steps` leads from `w` to `last`. */
  ghost predicate Run(w: World, steps: seq<Step>, last: World)
    decreases |steps|
  {
    if steps == [] then w == last
    else Linked(w) && Framed(w) && Enabled(w, steps[0]) && Run(Next(w, steps[0]), steps[1..], last)
  }

  lemma {:induction false} RunSound(w: World, steps: seq<Step>, last: World)
    requires Sound(w) && Run(w, steps, last)
    ensures Sound(last)
    decreases |steps|
  {
    if steps != [] {
      NextSound(w, steps[0]);
      RunSound(Next(w, steps[0]), steps[1..], last);
    }
  }

  lemma EmptyWorldSound()
    ensures Sound(EMPTY_WORLD)
  {
  }

  /** The reference audit, in every reachable world: no assertion has failed, the counters are the holders, and a
      console exists exactly while somebody holds it. */
  lemma AuditHolds(steps: seq<Step>, w: World, c: nat)
    requires Run(EMPTY_WORLD, steps, w)
    ensures !w.faulted
    ensures c in w.consoles <==> !Unheld(w.opens, w.bound, c)
    ensures c in w.consoles ==>
              && w.consoles[c].clientCount == |ClientOpens(w.opens, c)| + |BoundTo(w.bound, c)|
              && w.consoles[c].refCount == w.consoles[c].clientCount + |ServerOpens(w.opens, c)|
              && |ServerOpens(w.opens, c)| <= 1
  {
    EmptyWorldSound();
    RunSound(EMPTY_WORLD, steps, w);
    if c in w.consoles {
      assert Audited(w.consoles[c], w.opens, w.bound, c);
      HeldWhenCounted(w.opens, w.bound, c);
    }
  }

  /** Custody, order and wakeups, in every reachable world and for every console. */
  lemma BrokersHold(steps: seq<Step>, w: World, c: nat, id: nat)
    requires Run(EMPTY_WORLD, steps, w) && c in w.consoles
    ensures Valid(w.consoles[c])
    ensures (c, id) in w.frames ==> id !in w.consoles[c].withdrawn
    ensures Places(w.consoles[c], id) <= 1 && DoneCount(w.consoles[c].completed, id) <= 1
    ensures Places(w.consoles[c], id) == 1 ==> (c, id) in w.frames && !IsDone(w.consoles[c], id)
    ensures (c, id) in w.frames ==> Places(w.consoles[c], id) + DoneCount(w.consoles[c].completed, id) == 1
  {
    EmptyWorldSound();
    RunSound(EMPTY_WORLD, steps, w);
    AtMostOnce(w.consoles[c], id);
    if (c, id) in w.frames {
      assert Waiting(w.consoles[c], id);
    }
  }

  lemma AtMostOnce(c: Console, id: nat)
    requires Valid(c)
    ensures Places(c, id) + DoneCount(c.completed, id) <= 1
    ensures Waiting(c, id) ==> Places(c, id) + DoneCount(c.completed, id) == 1
  {
    assert Places(c, id) + Settled(c, id) <= 1;
  }

  /** A server whose clients are all gone has nothing left to fetch, and every fetch says so. */
  lemma AbandonedFetch(w: World, c: nat, process: nat, length: nat)
    requires Sound(w) && c in w.consoles && Abandoned(w.consoles[c])
    ensures ServerRead(w.consoles[c], process, length).1 == STATUS_INVALID_HANDLE
    ensures w.consoles[c].serverFile.Some? ==> w.consoles[c].signaled
    ensures w.consoles[c].requestQueue == [] && w.consoles[c].readQueue == []
  {
    var console := w.consoles[c];
    assert Audited(console, w.opens, w.bound, c) && Valid(console);
    forall id: nat ensures Places(console, id) == 0 {
      if Places(console, id) != 0 {
        assert (c, id) in w.frames;
        PinnedIsHeld(w.opens, w.bound, w.frames[(c, id)], c);
      }
    }
    NoPlacesIsEmpty(console);
  }

  lemma HeldPlaces(console: Console)
    ensures console.current.Some? ==> Places(console, console.current.value.id) > 0
    ensures console.requestQueue != [] ==> Places(console, console.requestQueue[|console.requestQueue| - 1].id) > 0
    ensures console.readQueue != [] ==> Places(console, console.readQueue[|console.readQueue| - 1].id) > 0
  {
  }

  lemma NoPlacesIsEmpty(console: Console)
    requires forall id: nat :: Places(console, id) == 0
    ensures console.requestQueue == [] && console.readQueue == [] && console.current.None?
  {
    HeldPlaces(console);
  }

  // ---------------------------------------------------------------- the end of the last client is final

  /** No client open and no binding holds `c`; only its Server open may. */
  ghost predicate Clientless(w: World, c: nat) {
    && (forall f :: f in w.opens && w.opens[f].console == Some(c) ==> w.opens[f].kind.ServerOpen?)
    && (forall p :: p in w.bound ==> w.bound[p] != c)
    && (c in w.consoles ==> w.consoles[c].referenceMinted) && c < w.nextConsole
  }

  lemma AbandonedIsClientless(w: World, c: nat)
    requires Sound(w) && c in w.consoles
    ensures Abandoned(w.consoles[c]) <==> Clientless(w, c)
  {
    assert Audited(w.consoles[c], w.opens, w.bound, c);
    if Abandoned(w.consoles[c]) {
      forall f | f in w.opens && w.opens[f].console == Some(c) ensures w.opens[f].kind.ServerOpen? {
        assert f !in ClientOpens(w.opens, c);
      }
      forall p | p in w.bound ensures w.bound[p] != c { assert p !in BoundTo(w.bound, c); }
    }
    assert Clientless(w, c) ==> ClientOpens(w.opens, c) == {} && BoundTo(w.bound, c) == {};
  }

  lemma GrantElsewhere(w: World, file: nat, kind: Kind, outputId: nat, b: nat, poolOk: bool, c: nat)
    requires Clientless(w, c) && b in w.consoles && b != c
    ensures Clientless(Grant(w, file, kind, outputId, b, poolOk).0, c)
  {
  }

  lemma ReferenceElsewhere(w: World, file: nat, b: nat, poolOk: bool, c: nat)
    requires Clientless(w, c) && b in w.consoles && !w.consoles[b].referenceMinted
    ensures var minted := PutConsole(w, b, w.consoles[b].(referenceMinted := true));
            Clientless(Grant(minted, file, ConsoleOpen, 0, b, poolOk).0, c)
  {
    GrantElsewhere(PutConsole(w, b, w.consoles[b].(referenceMinted := true)), file, ConsoleOpen, 0, b, poolOk, c);
  }

  lemma ConnectElsewhere(w: World, file: nat, process: nat, b: nat, c: nat)
    requires Clientless(w, c) && b in w.consoles && b != c
    ensures Clientless(GrantPlain(Bind(w, process, b), file, ConnectionOpen, 0, true).0, c)
  {
  }

  lemma PlainElsewhere(w: World, file: nat, kind: Kind, outputId: nat, poolOk: bool, c: nat)
    requires Clientless(w, c)
    ensures Clientless(GrantPlain(w, file, kind, outputId, poolOk).0, c)
  {
  }

  lemma MintElsewhere(w: World, file: nat, process: nat, c: nat)
    requires Clientless(w, c)
    ensures Clientless(MintServer(w, file, process), c)
  {
  }

  lemma CreateElsewhere(w: World, file: nat, name: Name, root: Option<nat>, process: nat, mintOk: bool, poolOk: bool,
                        c: nat)
    requires Linked(w) && Clientless(w, c) && (Root(w, root).Some? ==> !Root(w, root).value.cleaned)
    ensures Clientless(Create(w, file, name, root, process, mintOk, poolOk).0, c)
  {
    var open := Root(w, root);
    if open.None? && name.NameServer? {
      MintElsewhere(w, file, process, c);
    } else if open.Some? && open.value.kind.ServerOpen? && name.NameReference? {
      if !w.consoles[open.value.console.value].referenceMinted {
        ReferenceElsewhere(w, file, open.value.console.value, poolOk, c);
      }
    } else if open.Some? && open.value.kind.ConnectionOpen? && name.NameReference? {
      if process in w.bound {
        GrantElsewhere(w, file, ConsoleOpen, 0, w.bound[process], poolOk, c);
      }
    } else if (open.None? || open.value.kind.ConsoleOpen?) && name.NameConnection? {
      PlainElsewhere(w, file, ConnectionOpen, 0, poolOk, c);
      if open.Some? {
        ConnectElsewhere(w, file, process, open.value.console.value, c);
      }
    } else if open.None? && name.NameInput? {
      PlainElsewhere(w, file, InputOpen, 0, poolOk, c);
    } else if open.None? && name.NameOutput? {
      PlainElsewhere(w, file, OutputOpen, 1, poolOk, c);
    }
  }

  lemma ContinueElsewhere(w: World, b: nat, frame: Frame, status: Status, poolOk: bool, c: nat)
    requires Clientless(w, c) && b in w.consoles && b != c && (frame.ClosingScreen? ==> frame.file in w.opens)
    ensures Clientless(Continue(w, b, frame, status, poolOk), c)
  {
    if frame.MintingScreen? && NtSuccess(status) {
      GrantElsewhere(w, frame.file, OutputOpen, frame.outputId, b, poolOk, c);
    }
  }

  lemma DispatchElsewhere(w: World, b: nat, frame: Frame, verb: Verb, poolOk: bool, c: nat)
    requires Clientless(w, c) && b in w.consoles && b != c && (frame.ClosingScreen? ==> frame.file in w.opens)
    ensures Clientless(Dispatch(w, b, frame, verb, poolOk), c)
  {
    var admission := Enqueue(w.consoles[b], verb.code, verb.output, verb.input, verb.capacity).1;
    if admission.Refused? {
      ContinueElsewhere(w, b, frame, admission.status, poolOk, c);
    }
  }

  lemma GoneElsewhere(w: World, b: nat, c: nat)
    requires Clientless(w, c) && b in w.consoles
    ensures Clientless(ClientGone(w, b), c)
  {
  }

  lemma PutElsewhere(w: World, b: nat, d: Console, c: nat)
    requires Clientless(w, c) && b in w.consoles && d.referenceMinted == w.consoles[b].referenceMinted
    ensures Clientless(PutConsole(w, b, d), c)
  {
  }

  lemma FrameElsewhere(w: World, k: (nat, nat), c: nat)
    requires Framed(w) && k in w.frames && Clientless(w, c)
    ensures k.0 != c
  {
    assert Pinned(w.opens, w.bound, w.frames[k], k.0);
  }

  lemma WakeElsewhere(w: World, b: nat, id: nat, aborted: Option<Status>, poolOk: bool, c: nat)
    requires Framed(w) && (b, id) in w.frames && b in w.consoles && Clientless(w, c)
    requires w.frames[(b, id)].ClosingScreen? ==> w.frames[(b, id)].file in w.opens
    ensures Clientless(Wake(w, b, id, aborted, poolOk), c)
  {
    var status := if aborted.Some? then aborted.value else StatusOf(w.consoles[b].completed, id);
    var after := PutConsole(w, b, Left(w.consoles[b], id, aborted.Some?));
    FrameElsewhere(w, (b, id), c);
    PutElsewhere(w, b, Left(w.consoles[b], id, aborted.Some?), c);
    ContinueElsewhere(after.(frames := w.frames - {(b, id)}), b, w.frames[(b, id)], status, poolOk, c);
  }

  lemma CleanupElsewhere(w: World, file: nat, process: nat, c: nat)
    requires Linked(w) && file in w.opens && !w.opens[file].cleaned && Clientless(w, c)
    ensures Clientless(Cleanup(w, file, process), c)
  {
    var open := w.opens[file];
    var cleaned := w.(opens := w.opens[file := open.(cleaned := true)]);
    assert Clientless(cleaned, c);
    match open.kind
    case ServerOpen => PutElsewhere(cleaned, open.console.value, ServerGone(w.consoles[open.console.value]), c);
    case ConsoleOpen =>
      GoneElsewhere(w.(opens := w.opens[file := open.(cleaned := true, console := None)]), open.console.value, c);
    case ConnectionOpen => UnbindElsewhere(cleaned, process, c);
    case OutputOpen =>
      if open.outputId > 1 {
        DispatchElsewhere(cleaned, open.console.value, ClosingScreen(file),
          Verb(IOCTL_CONDRV_CLOSE_OUTPUT, open.outputId, [], 0), true, c);
      }
    case InputOpen =>
  }

  lemma UnbindElsewhere(w: World, process: nat, c: nat)
    requires Clientless(w, c) && (process in w.bound ==> w.bound[process] in w.consoles)
    ensures Clientless(Unbind(w, process), c)
  {
    if process in w.bound {
      GoneElsewhere(w.(bound := w.bound - {process}), w.bound[process], c);
    }
  }

  lemma ScreenElsewhere(w: World, file: nat, process: nat, b: nat, poolOk: bool, c: nat)
    requires b in w.consoles && b != c && Clientless(w, c)
    ensures Clientless(Screen(w, file, process, b, poolOk), c)
  {
    var d := w.consoles[b].(nextOutputId := w.consoles[b].nextOutputId + 1);
    PutElsewhere(w, b, d, c);
    DispatchElsewhere(PutConsole(w, b, d), b, MintingScreen(process, file, d.nextOutputId),
                      Verb(IOCTL_CONDRV_INIT_OUTPUT, d.nextOutputId, [], 0), poolOk, c);
  }

  lemma BindPidElsewhere(w: World, process: nat, target: nat, c: nat)
    requires Linked(w) && Clientless(w, c)
    ensures Clientless(BindPid(w, process, target).0, c)
  {
  }

  lemma CloseElsewhere(w: World, file: nat, c: nat)
    requires Linked(w) && Clientless(w, c) && file in w.opens
    ensures Clientless(Close(w, file), c)
  {
  }

  lemma FetchElsewhere(w: World, b: nat, process: nat, length: nat, c: nat)
    requires Clientless(w, c) && b in w.consoles
    ensures Clientless(PutConsole(w, b, ServerRead(w.consoles[b], process, length).0), c)
  {
    ServerReadFrame(w.consoles[b], process, length);
    PutElsewhere(w, b, ServerRead(w.consoles[b], process, length).0, c);
  }

  lemma ReplyElsewhere(w: World, b: nat, length: nat, reply: Reply, payload: seq<byte>, c: nat)
    requires Clientless(w, c) && b in w.consoles && (length >= REPLY_SIZE ==> |payload| == length - REPLY_SIZE)
    ensures Clientless(PutConsole(w, b, ServerWrite(w.consoles[b], length, reply, payload).0), c)
  {
    PutElsewhere(w, b, ServerWrite(w.consoles[b], length, reply, payload).0, c);
  }

  lemma NextElsewhere(w: World, s: Step, c: nat)
    requires Linked(w) && Framed(w) && Enabled(w, s) && Clientless(w, c)
    ensures Clientless(Next(w, s), c)
  {
    match s
    case CreateStep(file, name, root, process, mintOk, poolOk) =>
      CreateElsewhere(w, file, name, root, process, mintOk, poolOk, c);
    case ScreenStep(file, process, poolOk) =>
      if process in w.bound {
        ScreenElsewhere(w, file, process, w.bound[process], poolOk, c);
      }
    case VerbStep(file, process, verb) =>
      if Route(w, file, process).Some? {
        DispatchElsewhere(w, Route(w, file, process).value.0, Route(w, file, process).value.1, verb, true, c);
      }
    case WakeStep(b, id, aborted, poolOk) => WakeElsewhere(w, b, id, aborted, poolOk, c);
    case CleanupStep(file, process) => CleanupElsewhere(w, file, process, c);
    case CloseStep(file) => CloseElsewhere(w, file, c);
    case BindPidStep(process, target) => BindPidElsewhere(w, process, target, c);
    case ProcessDeleteStep(process) => UnbindElsewhere(w, process, c);
    case FetchStep(file, process, length) => FetchElsewhere(w, w.opens[file].console.value, process, length, c);
    case ReplyStep(file, length, reply, payload) =>
      ReplyElsewhere(w, w.opens[file].console.value, length, reply, payload, c);
  }

  /** Once its last client is gone a console never gets another, as long as it lives; so every fetch of every later
      world answers INVALID_HANDLE on a signaled handle. */
  lemma {:induction false} AbandonedForever(w: World, steps: seq<Step>, last: World, c: nat)
    requires Sound(w) && c in w.consoles && Abandoned(w.consoles[c]) && Run(w, steps, last) && c in last.consoles
    ensures Abandoned(last.consoles[c])
    ensures forall process, length ::
              ServerRead(last.consoles[c], process, length).1 == STATUS_INVALID_HANDLE
    ensures last.consoles[c].serverFile.Some? ==> last.consoles[c].signaled
  {
    AbandonedIsClientless(w, c);
    ClientlessRun(w, steps, last, c);
    AbandonedIsClientless(last, c);
    forall process, length ensures ServerRead(last.consoles[c], process, length).1 == STATUS_INVALID_HANDLE {
      AbandonedFetch(last, c, process, length);
    }
    AbandonedFetch(last, c, 0, 0);
  }

  lemma {:induction false} ClientlessRun(w: World, steps: seq<Step>, last: World, c: nat)
    requires Sound(w) && Clientless(w, c) && Run(w, steps, last)
    ensures Sound(last) && Clientless(last, c)
    decreases |steps|
  {
    if steps != [] {
      NextSound(w, steps[0]);
      NextElsewhere(w, steps[0], c);
      ClientlessRun(Next(w, steps[0]), steps[1..], last, c);
    }
  }
}
