/**
 Every step of every party keeps the worlds sound: each arm of Create, the client frames, Cleanup, Close, BIND_PID,
 process delete, fetch and reply (drivers/condrv.c:371-415, 717-954, 1082-1120).
 */
module CondrvSteps {
  import opened NtKernel
  import opened CondrvBroker
  import opened CondrvHolders
  import opened CondrvWorld

  lemma GrantedSound(w: World, file: nat, o: Open, c: nat)
    requires Sound(w) && FileUnused(w, file) && c in w.consoles && OpenShape(o)
    requires o.console == Some(c) && (o.kind.ConsoleOpen? || o.kind.OutputOpen?)
    ensures Sound(AddClient(Minted(w, c), c).(opens := w.opens[file := o]))
  {
    var opens := w.opens[file := o];
    PutClientRewires(w.opens, w.bound, file, o, c);
    PutPinned(w.opens, w.bound, w.frames, file, o);
    PutLinked(w.consoles, w.opens, file, o);
    AddClientSound(w, opens, w.bound, c);
    assert AddClient(Minted(w, c), c).(opens := opens) == AddClient(Minted(w, c), c).(opens := opens, bound := w.bound);
  }

  lemma PutLinked(consoles: map<nat, Console>, opens: map<nat, Open>, file: nat, o: Open)
    requires OpensLinked(consoles, opens) && OpenShape(o) && o.console.Some? && o.console.value in consoles
    ensures OpensLinked(consoles, opens[file := o])
  {
  }

  lemma PutPinned(opens: map<nat, Open>, bound: map<nat, nat>, frames: map<(nat, nat), Frame>, file: nat, o: Open)
    requires AllPinned(opens, bound, frames) && file !in opens
    requires forall k :: k in frames && frames[k].MintingScreen? ==> frames[k].file != file
    ensures AllPinned(opens[file := o], bound, frames)
  {
  }

  lemma RefusedIs(w: World, c: nat)
    requires c in w.consoles && w.consoles[c].refCount > 0 && w.consoles[c].clientCount >= 0
    ensures ClientGone(AddClient(Minted(w, c), c), c) == PutConsole(w, c, WithoutClient(WithClient(w.consoles[c])))
  {
    var more := WithClient(w.consoles[c]);
    AddClientIs(w, c);
    ReleaseKeepsOthers(PutConsole(w, c, more), c);
    assert w.consoles[c := more][c := WithoutClient(more)] == w.consoles[c := WithoutClient(more)];
  }

  /** The allocation failed: the count taken is given back, and the wait handle is told if nobody is left. */
  lemma RefusedSound(w: World, c: nat)
    requires Sound(w) && c in w.consoles
    ensures Sound(ClientGone(AddClient(Minted(w, c), c), c))
  {
    CountsOf(w, c);
    RefusedIs(w, c);
    RecountedSound(w, c, WithoutClient(WithClient(w.consoles[c])));
  }

  lemma CountsOf(w: World, c: nat)
    requires AllAudited(w.consoles, w.opens, w.bound) && AllServed(w.consoles, w.opens) && AllValid(w.consoles)
    requires c in w.consoles
    ensures w.consoles[c].refCount > 0 && w.consoles[c].clientCount >= 0
    ensures w.consoles[c].refCount == w.consoles[c].clientCount + |ServerOpens(w.opens, c)|
    ensures w.consoles[c].serverFile.Some? && Abandoned(w.consoles[c]) ==> w.consoles[c].signaled
  {
    assert Audited(w.consoles[c], w.opens, w.bound, c) && Awake(w.consoles[c]);
  }

  lemma RecountedSound(w: World, c: nat, d: Console)
    requires Sound(w) && c in w.consoles && d.refCount > 0
    requires d == w.consoles[c].(referenceMinted := true, signaled := d.signaled)
    requires (w.consoles[c].signaled ==> d.signaled) && (d.serverFile.Some? && Abandoned(d) ==> d.signaled)
    ensures Sound(PutConsole(w, c, d))
  {
    CountersKeep(w.consoles[c], d);
    RewiredSound(w, w.opens, w.bound, c, d, 0);
  }

  lemma GrantSound(w: World, file: nat, kind: Kind, outputId: nat, c: nat, poolOk: bool)
    requires Sound(w) && FileUnused(w, file) && c in w.consoles
    requires kind.ConsoleOpen? || (kind.OutputOpen? && outputId > 1)
    ensures Sound(Grant(Minted(w, c), file, kind, outputId, c, poolOk).0)
  {
    if poolOk {
      GrantedSound(w, file, Open(kind, outputId, Some(c), false), c);
    } else {
      RefusedSound(w, c);
    }
  }

  lemma GrantPlainSound(w: World, file: nat, kind: Kind, outputId: nat, poolOk: bool)
    requires Sound(w) && FileUnused(w, file)
    requires kind.ConnectionOpen? || kind.InputOpen? || (kind.OutputOpen? && outputId <= 1)
    ensures Sound(GrantPlain(w, file, kind, outputId, poolOk).0)
  {
    var o := Open(kind, outputId, None, false);
    var opens := w.opens[file := o];
    PlainRewires(w.opens, w.bound, file, o, opens);
    PutPinned(w.opens, w.bound, w.frames, file, o);
    SameHoldersSound(w, opens);
  }

  lemma BoundPinned(opens: map<nat, Open>, bound: map<nat, nat>, frames: map<(nat, nat), Frame>, process: nat, c: nat)
    requires AllPinned(opens, bound, frames) && process !in bound
    ensures AllPinned(opens, bound[process := c], frames)
  {
  }

  lemma BindIs(w: World, process: nat, c: nat)
    requires c in w.consoles && process !in w.bound && w.consoles[c].referenceMinted
    ensures Bind(w, process, c) == AddClient(Minted(w, c), c).(opens := w.opens, bound := w.bound[process := c])
  {
    MintedAgain(w, c);
  }

  lemma BindSound(w: World, process: nat, c: nat)
    requires Sound(w) && c in w.consoles && process !in w.bound && w.consoles[c].referenceMinted
    ensures Sound(Bind(w, process, c))
  {
    BindRewires(w.opens, w.bound, process, c);
    BoundPinned(w.opens, w.bound, w.frames, process, c);
    BindIs(w, process, c);
    AddClientSound(w, w.opens, w.bound[process := c], c);
  }

  lemma UnboundPinned(opens: map<nat, Open>, bound: map<nat, nat>, frames: map<(nat, nat), Frame>, process: nat)
    requires AllPinned(opens, bound, frames)
    requires forall k :: k in frames ==>
              frames[k] != VerbBound(process) && !(frames[k].MintingScreen? && frames[k].process == process)
    ensures AllPinned(opens, bound - {process}, frames)
  {
  }

  lemma UnbindSound(w: World, process: nat)
    requires Sound(w) && ProcessIdle(w, process)
    ensures Sound(Unbind(w, process))
  {
    if process in w.bound {
      UnbindRewires(w.opens, w.bound, process);
      UnboundPinned(w.opens, w.bound, w.frames, process);
      ClientGoneSound(w, w.opens, w.bound - {process}, w.bound[process]);
    }
  }

  /** A client open lets go of its console. */
  lemma DropOpenSound(w: World, file: nat, o: Open, c: nat)
    requires Sound(w) && FileIdle(w, file) && file in w.opens && w.opens[file].console == Some(c)
    requires !w.opens[file].kind.ServerOpen?
    requires o.console.None? && o.cleaned && o.kind == w.opens[file].kind && OpenShape(o)
    ensures c in w.consoles && Sound(ClientGone(w.(opens := w.opens[file := o]), c))
  {
    DropClientRewires(w.opens, w.bound, file, o, c);
    DroppedPinned(w.opens, w.bound, w.frames, file, o);
    ClientGoneSound(w, w.opens[file := o], w.bound, c);
  }

  lemma DroppedPinned(opens: map<nat, Open>, bound: map<nat, nat>, frames: map<(nat, nat), Frame>, file: nat, o: Open)
    requires AllPinned(opens, bound, frames) && file in opens
    requires forall k :: k in frames ==> frames[k] != VerbThrough(file) && frames[k] != ClosingScreen(file)
    ensures AllPinned(opens[file := o], bound, frames)
  {
  }

  /** Cleanup of an open that holds nothing yet, or goes on holding until its CLOSE_OUTPUT is answered. */
  lemma MarkedSound(w: World, file: nat)
    requires Sound(w) && FileIdle(w, file) && file in w.opens && !w.opens[file].kind.ServerOpen?
    ensures Sound(w.(opens := w.opens[file := w.opens[file].(cleaned := true)]))
  {
    var o := w.opens[file].(cleaned := true);
    var opens := w.opens[file := o];
    PlainRewires(w.opens, w.bound, file, o, opens);
    DroppedPinned(w.opens, w.bound, w.frames, file, o);
    SameHoldersSound(w, opens);
  }

  lemma ScreenMintedSound(w: World, c: nat, frame: Frame, status: Status, poolOk: bool)
    requires Sound(w) && c in w.consoles && Pinned(w.opens, w.bound, frame, c)
    requires frame.MintingScreen? && FileUnused(w, frame.file)
    ensures Sound(Continue(w, c, frame, status, poolOk))
  {
    if NtSuccess(status) {
      PinnedIsHeld(w.opens, w.bound, frame, c);
      HeldIsMinted(w, c);
      MintedAgain(w, c);
      GrantSound(w, frame.file, OutputOpen, frame.outputId, c, poolOk);
      assert Continue(w, c, frame, status, poolOk)
             == Grant(Minted(w, c), frame.file, OutputOpen, frame.outputId, c, poolOk).0;
    }
  }

  lemma ContinueSound(w: World, c: nat, frame: Frame, status: Status, poolOk: bool)
    requires Sound(w) && c in w.consoles && Pinned(w.opens, w.bound, frame, c)
    requires frame.MintingScreen? ==> FileUnused(w, frame.file)
    requires frame.ClosingScreen? ==> FileIdle(w, frame.file)
    ensures Sound(Continue(w, c, frame, status, poolOk))
  {
    if frame.MintingScreen? {
      ScreenMintedSound(w, c, frame, status, poolOk);
    } else if frame.ClosingScreen? {
      DropOpenSound(w, frame.file, w.opens[frame.file].(console := None), c);
    }
  }

  lemma HeldIsMinted(w: World, c: nat)
    requires AllAudited(w.consoles, w.opens, w.bound) && c in w.consoles
    requires |ClientOpens(w.opens, c)| + |BoundTo(w.bound, c)| > 0
    ensures w.consoles[c].referenceMinted && w.consoles[c].clientCount > 0
  {
    assert Audited(w.consoles[c], w.opens, w.bound, c);
  }

  lemma DispatchSound(w: World, c: nat, frame: Frame, verb: Verb, poolOk: bool)
    requires Sound(w) && c in w.consoles && Pinned(w.opens, w.bound, frame, c)
    requires frame.MintingScreen? ==> FileUnused(w, frame.file)
    requires frame.ClosingScreen? ==> FileIdle(w, frame.file)
    ensures Sound(Dispatch(w, c, frame, verb, poolOk))
  {
    var console := w.consoles[c];
    if Enqueue(console, verb.code, verb.output, verb.input, verb.capacity).1.Queued? {
      var request := Request(console.nextRequestId + 1, verb.code, verb.output, verb.input,
                             Min(verb.capacity, CONDRV_SERVER_MAX_PAYLOAD));
      QueuedSound(w, c, request, frame);
    } else {
      ContinueSound(w, c, frame, Enqueue(console, verb.code, verb.output, verb.input, verb.capacity).1.status, poolOk);
    }
  }

  lemma FreshConsole(file: nat, process: nat)
    ensures var c := Console(1, 0, false, Some(file), Some(process), false, [], [], None, 0, 1, [], [], {});
            Valid(c) && forall id: nat :: Places(c, id) == 0
  {
    var c := Console(1, 0, false, Some(file), Some(process), false, [], [], None, 0, 1, [], [], {});
    assert forall id: nat :: Places(c, id) == 0 && Settled(c, id) == 0;
  }

  lemma MintedHolders(w: World, file: nat, o: Open, c: nat)
    requires Linked(w) && file !in w.opens && o.kind.ServerOpen? && o.console == Some(c) && c == w.nextConsole
    ensures ClientOpens(w.opens[file := o], c) == {} && ServerOpens(w.opens[file := o], c) == {file}
    ensures BoundTo(w.bound, c) == {}
    ensures forall b :: b in w.consoles ==> ClientOpens(w.opens[file := o], b) == ClientOpens(w.opens, b)
                                            && ServerOpens(w.opens[file := o], b) == ServerOpens(w.opens, b)
  {
    forall b | b in w.consoles
      ensures ClientOpens(w.opens[file := o], b) == ClientOpens(w.opens, b)
      ensures ServerOpens(w.opens[file := o], b) == ServerOpens(w.opens, b)
    {
      PutOpenHolders(w.opens, file, o, b);
    }
    PutOpenHolders(w.opens, file, o, c);
    assert ClientOpens(w.opens, c) == {} && ServerOpens(w.opens, c) == {};
  }

  lemma MintedCounts(w: World, file: nat, o: Open, c: nat, d: Console)
    requires Linked(w) && AllAudited(w.consoles, w.opens, w.bound) && AllServed(w.consoles, w.opens)
    requires file !in w.opens && o == Open(ServerOpen, 0, Some(c), false) && c == w.nextConsole
    requires d.refCount == 1 && d.clientCount == 0 && d.nextOutputId == 1 && d.serverFile == Some(file)
    ensures AllAudited(w.consoles[c := d], w.opens[file := o], w.bound)
    ensures AllServed(w.consoles[c := d], w.opens[file := o])
  {
    var after, opens := w.consoles[c := d], w.opens[file := o];
    MintedHolders(w, file, o, c);
    forall b | b in after ensures Audited(after[b], opens, w.bound, b) && Served(after[b], opens, b) {
      if b != c { assert Audited(w.consoles[b], w.opens, w.bound, b) && Served(w.consoles[b], w.opens, b); }
    }
  }

  lemma MintedFramed(consoles: map<nat, Console>, frames: map<(nat, nat), Frame>, c: nat, d: Console)
    requires AllFramed(consoles, frames) && c !in consoles && forall id: nat :: Places(d, id) == 0
    ensures AllFramed(consoles[c := d], frames)
  {
  }

  lemma MintServerLinked(w: World, file: nat, process: nat)
    requires Linked(w) && Framed(w) && FileUnused(w, file)
    ensures Linked(MintServer(w, file, process)) && Framed(MintServer(w, file, process))
  {
    var c, o := w.nextConsole, Open(ServerOpen, 0, Some(w.nextConsole), false);
    FreshConsole(file, process);
    PutPinned(w.opens, w.bound, w.frames, file, o);
    MintedFramed(w.consoles, w.frames, c, MintServer(w, file, process).consoles[c]);
  }

  lemma MintServerCounted(w: World, file: nat, process: nat)
    requires Linked(w) && FileUnused(w, file) && AllValid(w.consoles)
    requires AllAudited(w.consoles, w.opens, w.bound) && AllServed(w.consoles, w.opens)
    ensures var v := MintServer(w, file, process);
            AllValid(v.consoles) && AllAudited(v.consoles, v.opens, v.bound) && AllServed(v.consoles, v.opens)
  {
    var c, o := w.nextConsole, Open(ServerOpen, 0, Some(w.nextConsole), false);
    var d := MintServer(w, file, process).consoles[c];
    FreshConsole(file, process);
    PutValid(w.consoles, c, d);
    MintedCounts(w, file, o, c, d);
  }

  lemma MintServerSound(w: World, file: nat, process: nat)
    requires Sound(w) && FileUnused(w, file)
    ensures Sound(MintServer(w, file, process))
  {
    MintServerLinked(w, file, process);
    MintServerCounted(w, file, process);
  }

  // Close of a Server open.

  lemma OnlyServer(opens: map<nat, Open>, c: nat, file: nat)
    requires |ServerOpens(opens, c)| <= 1 && file in ServerOpens(opens, c)
    ensures ServerOpens(opens, c) == {file}
  {
    var rest := ServerOpens(opens, c) - {file};
    assert |rest| == 0;
    assert ServerOpens(opens, c) == rest + {file};
  }

  lemma ServerClosedPinned(opens: map<nat, Open>, bound: map<nat, nat>, frames: map<(nat, nat), Frame>, file: nat)
    requires AllPinned(opens, bound, frames) && file in opens && opens[file].kind.ServerOpen?
    ensures AllPinned(opens - {file}, bound, frames)
  {
  }

  lemma ServerClosedHolders(opens: map<nat, Open>, bound: map<nat, nat>, file: nat, c: nat, opens2: map<nat, Open>)
    requires file in opens && opens[file].console == Some(c) && opens2 == opens - {file} && opens[file].kind.ServerOpen?
    ensures forall b :: b != c ==> SameHolders(opens, bound, opens2, bound, b)
    ensures ClientOpens(opens2, c) == ClientOpens(opens, c) && ServerOpens(opens2, c) == ServerOpens(opens, c) - {file}
  {
    forall b ensures b != c ==> SameHolders(opens, bound, opens2, bound, b) { DropOpenHolders(opens, file, b); }
    DropOpenHolders(opens, file, c);
  }

  lemma ServerClosedCounts(w: World, file: nat, c: nat, d: Console)
    requires AllAudited(w.consoles, w.opens, w.bound) && AllServed(w.consoles, w.opens) && c in w.consoles
    requires file in w.opens && w.opens[file].kind.ServerOpen? && w.opens[file].console == Some(c)
    requires ServerOpens(w.opens, c) == {file} && w.consoles[c].serverFile.None? && w.consoles[c].refCount > 1
    requires d == w.consoles[c].(refCount := w.consoles[c].refCount - 1)
    ensures AllAudited(w.consoles[c := d], w.opens - {file}, w.bound) && AllServed(w.consoles[c := d], w.opens - {file})
  {
    var after, opens := w.consoles[c := d], w.opens - {file};
    ServerClosedHolders(w.opens, w.bound, file, c, opens);
    forall b | b in after ensures Audited(after[b], opens, w.bound, b) && Served(after[b], opens, b) {
      assert Audited(w.consoles[b], w.opens, w.bound, b) && Served(w.consoles[b], w.opens, b);
      assert b != c ==> SameHolders(w.opens, w.bound, opens, w.bound, b);
    }
  }

  lemma ServerClosedStays(w: World, file: nat, c: nat, d: Console)
    requires Sound(w) && c in w.consoles
    requires file in w.opens && w.opens[file].kind.ServerOpen? && w.opens[file].console == Some(c)
    requires ServerOpens(w.opens, c) == {file} && w.consoles[c].serverFile.None? && w.consoles[c].refCount > 1
    requires d == w.consoles[c].(refCount := w.consoles[c].refCount - 1)
    ensures Sound(PutConsole(w, c, d).(opens := w.opens - {file}))
  {
    assert Valid(w.consoles[c]);
    CountersKeep(w.consoles[c], d);
    PutValid(w.consoles, c, d);
    PutFramed(w.consoles, w.frames, c, d);
    ServerClosedCounts(w, file, c, d);
    ServerClosedPinned(w.opens, w.bound, w.frames, file);
  }

  lemma ServerClosedLast(w: World, file: nat, c: nat)
    requires Sound(w) && c in w.consoles
    requires file in w.opens && w.opens[file].kind.ServerOpen? && w.opens[file].console == Some(c)
    requires ServerOpens(w.opens, c) == {file} && w.consoles[c].refCount == 1
    ensures Sound(w.(consoles := w.consoles - {c}, opens := w.opens - {file}))
    ensures w.consoles[c].clientCount == 0
  {
    var opens := w.opens - {file};
    assert Audited(w.consoles[c], w.opens, w.bound, c);
    ServerClosedHolders(w.opens, w.bound, file, c, opens);
    ServerClosedPinned(w.opens, w.bound, w.frames, file);
    UnheldWhenCountsVanish(opens, w.bound, c);
    FreedSound(w, c, opens, w.bound);
  }

  lemma CloseSound(w: World, file: nat)
    requires Sound(w) && file in w.opens && w.opens[file].cleaned
    requires w.opens[file].kind.ServerOpen? || w.opens[file].console.None?
    ensures Sound(Close(w, file))
  {
    if w.opens[file].kind.ServerOpen? {
      CloseServerSound(w, file, w.opens[file].console.value);
    } else {
      ClosePlainSound(w, file, w.opens - {file});
    }
  }

  lemma CloseServerSound(w: World, file: nat, c: nat)
    requires Sound(w) && file in w.opens && w.opens[file].cleaned && w.opens[file].kind.ServerOpen?
    requires w.opens[file].console == Some(c)
    ensures Sound(Close(w, file))
  {
    CountsOf(w, c);
    ServerOf(w, c, file);
    CloseServerIs(w, file, c);
    if w.consoles[c].refCount == 1 {
      ServerClosedLast(w, file, c);
    } else {
      ServerClosedStays(w, file, c, w.consoles[c].(refCount := w.consoles[c].refCount - 1));
    }
  }

  lemma CloseServerIs(w: World, file: nat, c: nat)
    requires Linked(w) && file in w.opens && w.opens[file].console == Some(c) && w.consoles[c].refCount > 0
    requires !w.faulted && w.consoles[c].serverFile.None? && Awake(w.consoles[c])
    requires w.consoles[c].refCount == w.consoles[c].clientCount + 1
    ensures var opens, d := w.opens - {file}, w.consoles[c].(refCount := w.consoles[c].refCount - 1);
            Close(w, file) == if w.consoles[c].refCount == 1 then w.(consoles := w.consoles - {c}, opens := opens)
                              else PutConsole(w, c, d).(opens := opens)
  {
  }

  lemma ServerOf(w: World, c: nat, file: nat)
    requires AllAudited(w.consoles, w.opens, w.bound) && AllServed(w.consoles, w.opens) && AllValid(w.consoles)
    requires c in w.consoles
    requires file in w.opens && w.opens[file].kind.ServerOpen? && w.opens[file].console == Some(c)
    ensures ServerOpens(w.opens, c) == {file} && Awake(w.consoles[c])
    ensures w.consoles[c].serverFile == if w.opens[file].cleaned then None else Some(file)
  {
    assert Audited(w.consoles[c], w.opens, w.bound, c) && Served(w.consoles[c], w.opens, c) && Valid(w.consoles[c]);
    assert file in ServerOpens(w.opens, c);
    OnlyServer(w.opens, c, file);
  }

  lemma ClosePlainSound(w: World, file: nat, opens: map<nat, Open>)
    requires Sound(w) && file in w.opens && w.opens[file].console.None? && !w.opens[file].kind.ServerOpen?
    requires opens == w.opens - {file}
    ensures Sound(w.(opens := opens))
  {
    forall b ensures SameHolders(w.opens, w.bound, opens, w.bound, b) { DropOpenHolders(w.opens, file, b); }
    ClosedPinned(w.opens, w.bound, w.frames, file);
    SameHoldersSound(w, opens);
  }

  lemma ClosedPinned(opens: map<nat, Open>, bound: map<nat, nat>, frames: map<(nat, nat), Frame>, file: nat)
    requires AllPinned(opens, bound, frames) && file in opens && opens[file].console.None?
    ensures AllPinned(opens - {file}, bound, frames)
  {
  }

  // Cleanup of a Server open.

  lemma MarkedLinked(consoles: map<nat, Console>, opens: map<nat, Open>, file: nat, c: nat, d: Console)
    requires OpensLinked(consoles, opens) && file in opens && opens[file].kind.ServerOpen? && c in consoles
    ensures OpensLinked(consoles[c := d], opens[file := opens[file].(cleaned := true)])
  {
  }

  lemma ServerLeftSound(w: World, file: nat, c: nat, d: Console)
    requires Sound(w) && c in w.consoles && ServerOpens(w.opens, c) == {file}
    requires file in w.opens && w.opens[file].kind.ServerOpen? && w.opens[file].console == Some(c)
    requires Valid(d) && SameClients(w.consoles[c], d) && d.serverFile.None? && forall id: nat :: Places(d, id) == 0
    ensures Sound(PutConsole(w, c, d).(opens := w.opens[file := w.opens[file].(cleaned := true)]))
  {
    MarkedLinked(w.consoles, w.opens, file, c, d);
    PutValid(w.consoles, c, d);
    PutFramed(w.consoles, w.frames, c, d);
    ServerGoneCounts(w, file, c, d);
    ServerMarkedPinned(w.opens, w.bound, w.frames, file);
  }

  lemma ServerGoneSound(w: World, file: nat, c: nat)
    requires Sound(w) && file in w.opens && !w.opens[file].cleaned && w.opens[file].kind.ServerOpen?
    requires w.opens[file].console == Some(c)
    ensures c in w.consoles && w.consoles[c].serverFile == Some(file)
    ensures var opens := w.opens[file := w.opens[file].(cleaned := true)];
            Sound(PutConsole(w, c, ServerGone(w.consoles[c])).(opens := opens))
  {
    ServerOf(w, c, file);
    ServerGoneValid(w.consoles, c);
    ServerLeftSound(w, file, c, ServerGone(w.consoles[c]));
  }

  lemma ServerGoneValid(consoles: map<nat, Console>, c: nat)
    requires AllValid(consoles) && c in consoles
    ensures Valid(ServerGone(consoles[c])) && SameClients(consoles[c], ServerGone(consoles[c]))
    ensures forall id: nat :: Places(ServerGone(consoles[c]), id) == 0
  {
    ServerGoneKeeps(consoles[c]);
  }

  lemma ServerMarkedPinned(opens: map<nat, Open>, bound: map<nat, nat>, frames: map<(nat, nat), Frame>, file: nat)
    requires AllPinned(opens, bound, frames) && file in opens && opens[file].kind.ServerOpen?
    ensures AllPinned(opens[file := opens[file].(cleaned := true)], bound, frames)
  {
  }

  lemma ServerGoneCounts(w: World, file: nat, c: nat, d: Console)
    requires AllAudited(w.consoles, w.opens, w.bound) && AllServed(w.consoles, w.opens) && c in w.consoles
    requires file in w.opens && w.opens[file].kind.ServerOpen? && w.opens[file].console == Some(c)
    requires ServerOpens(w.opens, c) == {file} && d.serverFile.None? && SameClients(w.consoles[c], d)
    ensures AllAudited(w.consoles[c := d], w.opens[file := w.opens[file].(cleaned := true)], w.bound)
    ensures AllServed(w.consoles[c := d], w.opens[file := w.opens[file].(cleaned := true)])
  {
    var o := w.opens[file].(cleaned := true);
    var after, opens := w.consoles[c := d], w.opens[file := o];
    forall b | b in after ensures Audited(after[b], opens, w.bound, b) && Served(after[b], opens, b) {
      assert Audited(w.consoles[b], w.opens, w.bound, b) && Served(w.consoles[b], w.opens, b);
      PutOpenHolders(w.opens, file, o, b);
      assert b == c <==> file in ServerOpens(w.opens, b);
    }
  }

  lemma MarkSound(w: World, file: nat, process: nat)
    requires Sound(w) && Enabled(w, CleanupStep(file, process))
    ensures Sound(Cleanup(w, file, process))
  {
    var open := w.opens[file];
    var cleaned := w.(opens := w.opens[file := open.(cleaned := true)]);
    match open.kind
    case ServerOpen => ServerGoneSound(w, file, open.console.value);
    case ConsoleOpen => DropOpenSound(w, file, open.(cleaned := true, console := None), open.console.value);
    case ConnectionOpen => MarkedSound(w, file); UnbindSound(cleaned, process);
    case OutputOpen =>
      MarkedSound(w, file);
      if open.outputId > 1 {
        DispatchSound(cleaned, open.console.value, ClosingScreen(file),
          Verb(IOCTL_CONDRV_CLOSE_OUTPUT, open.outputId, [], 0), true);
      }
    case InputOpen => MarkedSound(w, file);
  }

  lemma ReferenceSound(w: World, file: nat, root: Open, process: nat, poolOk: bool)
    requires Sound(w) && FileUnused(w, file) && (exists f :: f in w.opens && w.opens[f] == root)
    requires root.kind.ServerOpen? || (root.kind.ConnectionOpen? && process in w.bound)
    ensures var c := if root.kind.ServerOpen? then root.console.value else w.bound[process];
            Sound(Grant(Minted(w, c), file, ConsoleOpen, 0, c, poolOk).0)
  {
    GrantSound(w, file, ConsoleOpen, 0, if root.kind.ServerOpen? then root.console.value else w.bound[process], poolOk);
  }

  lemma BoundIsMinted(w: World, process: nat)
    requires Sound(w) && process in w.bound
    ensures w.bound[process] in w.consoles && w.consoles[w.bound[process]].referenceMinted
  {
    assert process in BoundTo(w.bound, w.bound[process]);
    HeldIsMinted(w, w.bound[process]);
  }

  lemma OpenIsMinted(w: World, file: nat, c: nat)
    requires Sound(w) && file in w.opens && w.opens[file].console == Some(c) && !w.opens[file].kind.ServerOpen?
    ensures c in w.consoles && w.consoles[c].referenceMinted
  {
    assert file in ClientOpens(w.opens, c);
    HeldIsMinted(w, c);
  }

  lemma ConnectSound(w: World, file: nat, root: nat, process: nat)
    requires Sound(w) && FileUnused(w, file) && process !in w.bound
    requires root in w.opens && w.opens[root].kind.ConsoleOpen? && !w.opens[root].cleaned
    ensures Sound(GrantPlain(Bind(w, process, w.opens[root].console.value), file, ConnectionOpen, 0, true).0)
  {
    OpenIsMinted(w, root, w.opens[root].console.value);
    BindSound(w, process, w.opens[root].console.value);
    GrantPlainSound(Bind(w, process, w.opens[root].console.value), file, ConnectionOpen, 0, true);
  }

  lemma CreateSound(w: World, file: nat, name: Name, root: Option<nat>, process: nat, mintOk: bool, poolOk: bool)
    requires Sound(w) && Enabled(w, CreateStep(file, name, root, process, mintOk, poolOk))
    ensures Sound(Create(w, file, name, root, process, mintOk, poolOk).0)
  {
    var open := Root(w, root);
    if open.None? && name.NameServer? {
      MintServerSound(w, file, process);
    } else if open.Some? && open.value.kind.ServerOpen? && name.NameReference? {
      ReferenceSound(w, file, open.value, process, poolOk);
    } else if open.Some? && open.value.kind.ConnectionOpen? && name.NameReference? {
      if process in w.bound {
        BoundIsMinted(w, process);
        MintedAgain(w, w.bound[process]);
        ReferenceSound(w, file, open.value, process, poolOk);
      }
    } else if (open.None? || open.value.kind.ConsoleOpen?) && name.NameConnection? {
      if process !in w.bound && poolOk && open.Some? {
        ConnectSound(w, file, root.value, process);
      } else {
        GrantPlainSound(w, file, ConnectionOpen, 0, poolOk);
      }
    } else if open.None? && name.NameInput? {
      GrantPlainSound(w, file, InputOpen, 0, poolOk);
    } else if open.None? && name.NameOutput? {
      GrantPlainSound(w, file, OutputOpen, 1, poolOk);
    }
  }

  lemma RecordSound(w: World, c: nat, d: Console)
    requires Sound(w) && c in w.consoles && d == w.consoles[c].(nextOutputId := w.consoles[c].nextOutputId + 1)
    ensures Sound(PutConsole(w, c, d)) && d.nextOutputId > 1
  {
    NextOutputFits(w, c);
    assert Valid(w.consoles[c]);
    CountersKeep(w.consoles[c], d);
    PutSound(w, c, d);
  }

  lemma ScreenDispatchSound(w: World, c: nat, process: nat, file: nat, id: nat, poolOk: bool)
    requires Sound(w) && c in w.consoles && process in w.bound && w.bound[process] == c && FileUnused(w, file) && id > 1
    ensures Sound(Dispatch(w, c, MintingScreen(process, file, id), Verb(IOCTL_CONDRV_INIT_OUTPUT, id, [], 0), poolOk))
  {
    DispatchSound(w, c, MintingScreen(process, file, id), Verb(IOCTL_CONDRV_INIT_OUTPUT, id, [], 0), poolOk);
  }

  lemma NextOutputFits(w: World, c: nat)
    requires AllAudited(w.consoles, w.opens, w.bound) && c in w.consoles
    ensures w.consoles[c].nextOutputId >= 1
  {
    assert Audited(w.consoles[c], w.opens, w.bound, c);
  }

  lemma ScreenAtSound(w: World, file: nat, process: nat, c: nat, poolOk: bool)
    requires Sound(w) && FileUnused(w, file) && process in w.bound && w.bound[process] == c && c in w.consoles
    ensures Sound(Screen(w, file, process, c, poolOk))
  {
    var d := w.consoles[c].(nextOutputId := w.consoles[c].nextOutputId + 1);
    RecordSound(w, c, d);
    ScreenDispatchSound(PutConsole(w, c, d), c, process, file, d.nextOutputId, poolOk);
  }

  lemma ScreenSound(w: World, file: nat, process: nat, poolOk: bool)
    requires Sound(w) && FileUnused(w, file) && process in w.bound
    ensures w.bound[process] in w.consoles && Sound(Screen(w, file, process, w.bound[process], poolOk))
  {
    assert BoundLinked(w.consoles, w.bound);
    ScreenAtSound(w, file, process, w.bound[process], poolOk);
  }

  lemma VerbSound(w: World, file: nat, process: nat, verb: Verb)
    requires Sound(w) && file in w.opens && !w.opens[file].cleaned
    ensures Route(w, file, process).Some? ==> Route(w, file, process).value.0 in w.consoles
    ensures Route(w, file, process).Some? ==>
              Sound(Dispatch(w, Route(w, file, process).value.0, Route(w, file, process).value.1, verb, true))
  {
    var route := Route(w, file, process);
    if route.Some? {
      DispatchSound(w, route.value.0, route.value.1, verb, true);
    }
  }

  lemma WakeSound(w: World, c: nat, id: nat, aborted: Option<Status>, poolOk: bool)
    requires Sound(w) && (c, id) in w.frames && c in w.consoles && (aborted.None? ==> IsDone(w.consoles[c], id))
    ensures w.frames[(c, id)].ClosingScreen? ==> w.frames[(c, id)].file in w.opens
    ensures Sound(Wake(w, c, id, aborted, poolOk))
  {
    var frame := w.frames[(c, id)];
    var after := PutConsole(w, c, Left(w.consoles[c], id, aborted.Some?)).(frames := w.frames - {(c, id)});
    var status := if aborted.Some? then aborted.value else StatusOf(w.consoles[c].completed, id);
    WokenSound(w, c, id, aborted.Some?);
    OthersApart(w, (c, id));
    ContinueSound(after, c, frame, status, poolOk);
  }

  lemma OthersApart(w: World, k: (nat, nat))
    requires AllPinned(w.opens, w.bound, w.frames) && k in w.frames
    ensures w.frames[k].MintingScreen? ==> FileUnused(w.(frames := w.frames - {k}), w.frames[k].file)
    ensures w.frames[k].ClosingScreen? ==> FileIdle(w.(frames := w.frames - {k}), w.frames[k].file)
  {
    var frame, rest := w.frames[k], w.frames - {k};
    forall j | j in rest
      ensures Pinned(w.opens, w.bound, rest[j], j.0) && Apart(frame, rest[j]) && Pinned(w.opens, w.bound, frame, k.0)
    {
      assert rest[j] == w.frames[j];
    }
  }

  lemma ServedSound(w: World, file: nat)
    requires Sound(w) && file in w.opens && w.opens[file].kind.ServerOpen? && !w.opens[file].cleaned
    ensures var c := w.opens[file].console.value;
            c in w.consoles && Valid(w.consoles[c]) && w.consoles[c].serverFile.Some?
  {
    ServerOf(w, w.opens[file].console.value, file);
  }

  lemma FetchedConsole(console: Console, process: nat, length: nat) returns (d: Console)
    requires Valid(console) && console.serverFile.Some?
    ensures d == ServerRead(console, process, length).0
    ensures Valid(d) && SameClients(console, d) && d.serverFile == console.serverFile && SameWork(console, d)
  {
    d := ServerRead(console, process, length).0;
    ServerReadKeeps(console, process, length);
    ServerReadFrame(console, process, length);
  }

  lemma FetchSound(w: World, c: nat, process: nat, length: nat)
    requires Sound(w) && c in w.consoles && Valid(w.consoles[c]) && w.consoles[c].serverFile.Some?
    ensures Sound(PutConsole(w, c, ServerRead(w.consoles[c], process, length).0))
  {
    var d := FetchedConsole(w.consoles[c], process, length);
    PutSound(w, c, d);
  }

  lemma ReplySound(w: World, c: nat, length: nat, reply: Reply, payload: seq<byte>)
    requires Sound(w) && c in w.consoles && Valid(w.consoles[c]) && w.consoles[c].serverFile.Some?
    requires length >= REPLY_SIZE ==> |payload| == length - REPLY_SIZE
    ensures Sound(PutConsole(w, c, ServerWrite(w.consoles[c], length, reply, payload).0))
  {
    ServerWriteKeeps(w.consoles[c], length, reply, payload);
    PutSound(w, c, ServerWrite(w.consoles[c], length, reply, payload).0);
  }

  lemma BindPidSound(w: World, process: nat, target: nat)
    requires Sound(w)
    ensures Sound(BindPid(w, process, target).0)
  {
    if process !in w.bound && target in w.bound {
      BoundIsMinted(w, target);
      BindSound(w, process, w.bound[target]);
    }
  }

  /** Every step of every driver entry keeps the whole world sound. */
  lemma NextSound(w: World, s: Step)
    requires Sound(w) && Enabled(w, s)
    ensures Sound(Next(w, s))
  {
    match s
    case CreateStep(file, name, root, process, mintOk, poolOk) =>
      CreateSound(w, file, name, root, process, mintOk, poolOk);
    case ScreenStep(file, process, poolOk) =>
      if process in w.bound {
        ScreenSound(w, file, process, poolOk);
      }
    case VerbStep(file, process, verb) => VerbSound(w, file, process, verb);
    case WakeStep(c, id, aborted, poolOk) => WakeSound(w, c, id, aborted, poolOk);
    case CleanupStep(file, process) => MarkSound(w, file, process);
    case CloseStep(file) => CloseSound(w, file);
    case BindPidStep(process, target) => BindPidSound(w, process, target);
    case ProcessDeleteStep(process) => UnbindSound(w, process);
    case FetchStep(file, process, length) =>
      ServedSound(w, file);
      FetchSound(w, w.opens[file].console.value, process, length);
    case ReplyStep(file, length, reply, payload) =>
      ServedSound(w, file);
      ReplySound(w, w.opens[file].console.value, length, reply, payload);
  }
}
