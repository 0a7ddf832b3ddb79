/**
 Who comes and who goes: what an open, a binding or a frame that begins or ends does to the counters of every console
 (drivers/condrv.c:265-415).
 */
module CondrvHolders {
  import opened NtKernel
  import opened CondrvBroker
  import opened CondrvWorld

  // ---------------------------------------------------------------- holders, counted

  lemma PinnedIsHeld(opens: map<nat, Open>, bound: map<nat, nat>, frame: Frame, c: nat)
    requires Pinned(opens, bound, frame, c)
    ensures |ClientOpens(opens, c)| + |BoundTo(bound, c)| > 0
  {
    match frame
    case VerbThrough(file) => assert file in ClientOpens(opens, c);
    case ClosingScreen(file) => assert file in ClientOpens(opens, c);
    case VerbBound(process) => assert process in BoundTo(bound, c);
    case MintingScreen(process, _, _) => assert process in BoundTo(bound, c);
  }

  lemma PutOpenHolders(opens: map<nat, Open>, f: nat, o: Open, b: nat)
    ensures ClientOpens(opens[f := o], b)
         == if o.console == Some(b) && !o.kind.ServerOpen? then ClientOpens(opens, b) + {f}
           else ClientOpens(opens, b) - {f}
    ensures ServerOpens(opens[f := o], b)
         == if o.console == Some(b) && o.kind.ServerOpen? then ServerOpens(opens, b) + {f}
           else ServerOpens(opens, b) - {f}
  {
  }

  lemma DropOpenHolders(opens: map<nat, Open>, f: nat, b: nat)
    ensures ClientOpens(opens - {f}, b) == ClientOpens(opens, b) - {f}
    ensures ServerOpens(opens - {f}, b) == ServerOpens(opens, b) - {f}
  {
  }

  lemma BoundHolders(bound: map<nat, nat>, p: nat, c: nat, b: nat)
    ensures BoundTo(bound[p := c], b) == if b == c then BoundTo(bound, b) + {p} else BoundTo(bound, b) - {p}
    ensures BoundTo(bound - {p}, b) == BoundTo(bound, b) - {p}
  {
  }

  // ---------------------------------------------------------------- one console replaced

  /** Same counters, same server, same output ids or more. */
  ghost predicate CountsKept(c: Console, d: Console) {
    && d.refCount == c.refCount && d.clientCount == c.clientCount && d.referenceMinted == c.referenceMinted
    && d.nextOutputId >= c.nextOutputId && d.serverFile == c.serverFile
  }

  lemma PutCounts(consoles: map<nat, Console>, opens: map<nat, Open>, bound: map<nat, nat>, c: nat, d: Console)
    requires c in consoles && CountsKept(consoles[c], d)
    ensures AllAudited(consoles, opens, bound) ==> AllAudited(consoles[c := d], opens, bound)
    ensures AllServed(consoles, opens) ==> AllServed(consoles[c := d], opens)
    ensures OpensLinked(consoles, opens) ==> OpensLinked(consoles[c := d], opens)
    ensures BoundLinked(consoles, bound) ==> BoundLinked(consoles[c := d], bound)
  {
  }

  lemma PutValid(consoles: map<nat, Console>, c: nat, d: Console)
    requires AllValid(consoles) && Valid(d)
    ensures AllValid(consoles[c := d])
  {
    var after := consoles[c := d];
    forall b | b in after ensures Valid(after[b]) {
      if b != c { assert b in consoles && after[b] == consoles[b]; }
    }
  }

  lemma PutFramed(consoles: map<nat, Console>, frames: map<(nat, nat), Frame>, c: nat, d: Console)
    requires AllFramed(consoles, frames) && c in consoles
    requires d.nextRequestId >= consoles[c].nextRequestId && d.withdrawn == consoles[c].withdrawn
    requires forall id: nat :: Places(d, id) != 0 ==> Places(consoles[c], id) != 0
    ensures AllFramed(consoles[c := d], frames)
  {
  }

  lemma PutSound(w: World, c: nat, d: Console)
    requires Sound(w) && c in w.consoles && Valid(d) && CountsKept(w.consoles[c], d)
    requires d.nextRequestId >= w.consoles[c].nextRequestId && d.withdrawn == w.consoles[c].withdrawn
    requires forall id: nat :: Places(d, id) != 0 ==> Places(w.consoles[c], id) != 0
    ensures Sound(PutConsole(w, c, d))
  {
    PutCounts(w.consoles, w.opens, w.bound, c, d);
    PutValid(w.consoles, c, d);
    PutFramed(w.consoles, w.frames, c, d);
  }

  // ---------------------------------------------------------------- frames begin and end

  lemma QueuedFramed(consoles: map<nat, Console>, frames: map<(nat, nat), Frame>, c: nat, request: Request,
                     frame: Frame)
    requires AllFramed(consoles, frames) && c in consoles && AllValid(consoles) && consoles[c].serverFile.Some?
    requires request.id == consoles[c].nextRequestId + 1 && |request.input| <= CONDRV_SERVER_MAX_PAYLOAD
    ensures Valid(Append(consoles[c], request))
    ensures AllFramed(consoles[c := Append(consoles[c], request)], frames[(c, request.id) := frame])
  {
    AppendKeeps(consoles[c], request);
    assert consoles[c].withdrawn == Append(consoles[c], request).withdrawn;
    assert Places(consoles[c], request.id) + Settled(consoles[c], request.id) == 0;
  }

  lemma QueuedPinned(opens: map<nat, Open>, bound: map<nat, nat>, frames: map<(nat, nat), Frame>, c: nat, id: nat,
                     frame: Frame)
    requires AllPinned(opens, bound, frames) && Pinned(opens, bound, frame, c)
    requires forall k :: k in frames ==> Apart(frames[k], frame) && Apart(frame, frames[k])
    ensures AllPinned(opens, bound, frames[(c, id) := frame])
  {
  }

  lemma QueuedSound(w: World, c: nat, request: Request, frame: Frame)
    requires Sound(w) && c in w.consoles && w.consoles[c].serverFile.Some?
    requires request.id == w.consoles[c].nextRequestId + 1 && |request.input| <= CONDRV_SERVER_MAX_PAYLOAD
    requires Pinned(w.opens, w.bound, frame, c)
    requires frame.MintingScreen? ==> FileUnused(w, frame.file)
    requires frame.ClosingScreen? ==> FileIdle(w, frame.file)
    ensures Sound(PutConsole(w, c, Append(w.consoles[c], request)).(frames := w.frames[(c, request.id) := frame]))
  {
    QueuedFramed(w.consoles, w.frames, c, request, frame);
    QueuedPinned(w.opens, w.bound, w.frames, c, request.id, frame);
    PutCounts(w.consoles, w.opens, w.bound, c, Append(w.consoles[c], request));
    PutValid(w.consoles, c, Append(w.consoles[c], request));
  }

  lemma WokenPinned(opens: map<nat, Open>, bound: map<nat, nat>, frames: map<(nat, nat), Frame>, k: (nat, nat))
    requires AllPinned(opens, bound, frames)
    ensures AllPinned(opens, bound, frames - {k})
  {
    assert forall j :: j in frames - {k} ==> (frames - {k})[j] == frames[j];
  }

  /** The console a client leaves behind when its wait ends, by completion or by abort. */
  function Left(console: Console, id: nat, aborted: bool): Console { if aborted then Abort(console, id) else console }

  lemma LeftKeeps(console: Console, id: nat, aborted: bool)
    requires Valid(console) && Waiting(console, id) && (aborted || IsDone(console, id))
    ensures Valid(Left(console, id, aborted)) && CountsKept(console, Left(console, id, aborted))
    ensures forall other: nat ::
              Places(Left(console, id, aborted), other) == if other == id then 0 else Places(console, other)
    ensures forall other: nat :: other != id && Waiting(console, other) ==> Waiting(Left(console, id, aborted), other)
  {
    if aborted {
      AbortKeeps(console, id);
    } else {
      assert Places(console, id) + Settled(console, id) == 1;
    }
  }

  lemma WokenFramed(consoles: map<nat, Console>, frames: map<(nat, nat), Frame>, c: nat, id: nat, d: Console)
    requires AllFramed(consoles, frames) && c in consoles
    requires forall other: nat :: Places(d, other) == if other == id then 0 else Places(consoles[c], other)
    requires forall other: nat :: other != id && Waiting(consoles[c], other) ==> Waiting(d, other)
    ensures AllFramed(consoles[c := d], frames - {(c, id)})
  {
  }

  lemma WokenSound(w: World, c: nat, id: nat, aborted: bool)
    requires Sound(w) && (c, id) in w.frames && (aborted || IsDone(w.consoles[c], id))
    ensures c in w.consoles
    ensures Sound(PutConsole(w, c, Left(w.consoles[c], id, aborted)).(frames := w.frames - {(c, id)}))
  {
    var d := Left(w.consoles[c], id, aborted);
    LeftKeeps(w.consoles[c], id, aborted);
    WokenFramed(w.consoles, w.frames, c, id, d);
    WokenPinned(w.opens, w.bound, w.frames, (c, id));
    PutCounts(w.consoles, w.opens, w.bound, c, d);
    PutValid(w.consoles, c, d);
  }

  // ---------------------------------------------------------------- holders come and go

  ghost predicate SameHolders(opens: map<nat, Open>, bound: map<nat, nat>, opens2: map<nat, Open>,
                              bound2: map<nat, nat>, b: nat) {
    && ClientOpens(opens2, b) == ClientOpens(opens, b) && BoundTo(bound2, b) == BoundTo(bound, b)
    && ServerOpens(opens2, b) == ServerOpens(opens, b)
  }

  /** The clients of `c` change by `delta`; every other console keeps its holders. */
  ghost predicate Rewired(opens: map<nat, Open>, bound: map<nat, nat>, opens2: map<nat, Open>, bound2: map<nat, nat>,
                          c: nat, delta: int) {
    && (forall b :: b != c ==> SameHolders(opens, bound, opens2, bound2, b))
    && ServerOpens(opens2, c) == ServerOpens(opens, c)
    && |ClientOpens(opens2, c)| + |BoundTo(bound2, c)| == |ClientOpens(opens, c)| + |BoundTo(bound, c)| + delta
  }

  ghost predicate ServersKept(opens: map<nat, Open>, opens2: map<nat, Open>) {
    forall f :: f in opens && opens[f].kind.ServerOpen? ==> f in opens2 && opens2[f] == opens[f]
  }

  /** An open on console `c` put or replaced leaves the other consoles their holders. */
  lemma PutElsewhere(opens: map<nat, Open>, bound: map<nat, nat>, f: nat, o: Open, c: nat)
    requires f in opens ==> opens[f].console == Some(c)
    requires o.console.None? || o.console == Some(c)
    ensures var opens2 := opens[f := o]; forall b :: b != c ==> SameHolders(opens, bound, opens2, bound, b)
  {
    var opens2 := opens[f := o];
    forall b ensures b != c ==> SameHolders(opens, bound, opens2, bound, b) { PutOpenHolders(opens, f, o, b); }
  }

  lemma PutClientRewires(opens: map<nat, Open>, bound: map<nat, nat>, f: nat, o: Open, c: nat)
    requires f !in opens && o.console == Some(c) && !o.kind.ServerOpen?
    ensures Rewired(opens, bound, opens[f := o], bound, c, 1) && ServersKept(opens, opens[f := o])
  {
    PutElsewhere(opens, bound, f, o, c);
    PutOpenHolders(opens, f, o, c);
  }

  lemma DropClientRewires(opens: map<nat, Open>, bound: map<nat, nat>, f: nat, o: Open, c: nat)
    requires f in opens && opens[f].console == Some(c) && !opens[f].kind.ServerOpen?
    requires o.console.None? && o.kind == opens[f].kind
    ensures Rewired(opens, bound, opens[f := o], bound, c, -1) && ServersKept(opens, opens[f := o])
  {
    assert f in ClientOpens(opens, c);
    PutElsewhere(opens, bound, f, o, c);
    PutOpenHolders(opens, f, o, c);
  }

  lemma BindRewires(opens: map<nat, Open>, bound: map<nat, nat>, p: nat, c: nat)
    requires p !in bound
    ensures Rewired(opens, bound, opens, bound[p := c], c, 1)
  {
    var bound2 := bound[p := c];
    forall b ensures b != c ==> SameHolders(opens, bound, opens, bound2, b) { BoundHolders(bound, p, c, b); }
    BoundHolders(bound, p, c, c);
  }

  lemma UnbindRewires(opens: map<nat, Open>, bound: map<nat, nat>, p: nat)
    requires p in bound
    ensures Rewired(opens, bound, opens, bound - {p}, bound[p], -1)
  {
    var c := bound[p];
    assert p in BoundTo(bound, c);
    forall b ensures b != c ==> SameHolders(opens, bound, opens, bound - {p}, b) { BoundHolders(bound, p, c, b); }
    BoundHolders(bound, p, c, c);
  }

  lemma PlainRewires(opens: map<nat, Open>, bound: map<nat, nat>, f: nat, o: Open, opens2: map<nat, Open>)
    requires !o.kind.ServerOpen? && opens2 == opens[f := o]
    requires if f in opens then opens[f].console == o.console && !opens[f].kind.ServerOpen? else o.console.None?
    ensures forall b :: SameHolders(opens, bound, opens2, bound, b)
    ensures ServersKept(opens, opens2)
  {
    forall b ensures SameHolders(opens, bound, opens2, bound, b) { PutOpenHolders(opens, f, o, b); }
  }

  /** `d` is `c` with its two counters moved together. */
  ghost predicate Counted(c: Console, d: Console, delta: int) {
    && d.refCount == c.refCount + delta && d.clientCount == c.clientCount + delta
    && (c.referenceMinted ==> d.referenceMinted) && d.nextOutputId == c.nextOutputId && d.serverFile == c.serverFile
  }

  lemma RewiredAudit(consoles: map<nat, Console>, opens: map<nat, Open>, bound: map<nat, nat>,
                     opens2: map<nat, Open>, bound2: map<nat, nat>, c: nat, d: Console, delta: int)
    requires AllAudited(consoles, opens, bound) && c in consoles && Rewired(opens, bound, opens2, bound2, c, delta)
    requires Counted(consoles[c], d, delta) && d.refCount > 0 && (delta > 0 ==> d.referenceMinted)
    ensures AllAudited(consoles[c := d], opens2, bound2)
  {
    var after := consoles[c := d];
    forall b | b in after ensures Audited(after[b], opens2, bound2, b) {
      assert Audited(consoles[b], opens, bound, b);
      if b != c { assert SameHolders(opens, bound, opens2, bound2, b); }
    }
  }

  lemma RewiredServed(consoles: map<nat, Console>, opens: map<nat, Open>, bound: map<nat, nat>,
                      opens2: map<nat, Open>, bound2: map<nat, nat>, c: nat, d: Console, delta: int)
    requires AllServed(consoles, opens) && c in consoles && Rewired(opens, bound, opens2, bound2, c, delta)
    requires d.serverFile == consoles[c].serverFile && ServersKept(opens, opens2)
    ensures AllServed(consoles[c := d], opens2)
  {
    var after := consoles[c := d];
    forall b | b in after ensures Served(after[b], opens2, b) {
      assert Served(consoles[b], opens, b);
      if b != c { assert SameHolders(opens, bound, opens2, bound2, b); }
      assert ServerOpens(opens2, b) == ServerOpens(opens, b);
    }
  }

  /** A client joins or leaves a console that stays. */
  lemma RewiredSound(w: World, opens: map<nat, Open>, bound: map<nat, nat>, c: nat, d: Console, delta: int)
    requires Sound(w) && c in w.consoles && Rewired(w.opens, w.bound, opens, bound, c, delta)
    requires ServersKept(w.opens, opens)
    requires Counted(w.consoles[c], d, delta) && d.refCount > 0 && (delta > 0 ==> d.referenceMinted) && Valid(d)
    requires d.nextRequestId == w.consoles[c].nextRequestId && d.withdrawn == w.consoles[c].withdrawn
    requires forall id: nat :: Places(d, id) == Places(w.consoles[c], id)
    requires OpensLinked(w.consoles, opens) && BoundLinked(w.consoles, bound) && AllPinned(opens, bound, w.frames)
    ensures Sound(PutConsole(w, c, d).(opens := opens, bound := bound))
  {
    RewiredAudit(w.consoles, w.opens, w.bound, opens, bound, c, d, delta);
    RewiredServed(w.consoles, w.opens, w.bound, opens, bound, c, d, delta);
    PutValid(w.consoles, c, d);
    PutFramed(w.consoles, w.frames, c, d);
  }

  lemma SameHoldersSound(w: World, opens: map<nat, Open>)
    requires Sound(w) && ServersKept(w.opens, opens)
    requires forall b :: SameHolders(w.opens, w.bound, opens, w.bound, b)
    requires OpensLinked(w.consoles, opens) && AllPinned(opens, w.bound, w.frames)
    ensures Sound(w.(opens := opens))
  {
    forall b | b in w.consoles
      ensures Audited(w.consoles[b], opens, w.bound, b) && Served(w.consoles[b], opens, b)
    {
      assert SameHolders(w.opens, w.bound, opens, w.bound, b);
      assert Audited(w.consoles[b], w.opens, w.bound, b) && Served(w.consoles[b], w.opens, b);
    }
  }

  // ---------------------------------------------------------------- the last holder goes

  /** Nobody holds `c` any more. */
  ghost predicate Unheld(opens: map<nat, Open>, bound: map<nat, nat>, c: nat) {
    && (forall f :: f in opens ==> opens[f].console != Some(c))
    && (forall p :: p in bound ==> bound[p] != c)
  }

  lemma UnheldWhenCountsVanish(opens: map<nat, Open>, bound: map<nat, nat>, c: nat)
    requires |ClientOpens(opens, c)| + |BoundTo(bound, c)| + |ServerOpens(opens, c)| == 0
    ensures Unheld(opens, bound, c)
  {
    forall f | f in opens ensures opens[f].console != Some(c) {
      assert f !in ClientOpens(opens, c) && f !in ServerOpens(opens, c);
    }
    forall p | p in bound ensures bound[p] != c { assert p !in BoundTo(bound, c); }
  }

  lemma UnheldHasNoFrames(opens: map<nat, Open>, bound: map<nat, nat>, frames: map<(nat, nat), Frame>, c: nat)
    requires AllPinned(opens, bound, frames) && Unheld(opens, bound, c)
    ensures forall k :: k in frames ==> k.0 != c
  {
  }

  lemma FreedAudited(consoles: map<nat, Console>, opens: map<nat, Open>, bound: map<nat, nat>,
                     opens2: map<nat, Open>, bound2: map<nat, nat>, c: nat)
    requires AllAudited(consoles, opens, bound) && forall b :: b != c ==> SameHolders(opens, bound, opens2, bound2, b)
    ensures AllAudited(consoles - {c}, opens2, bound2)
  {
    var after := consoles - {c};
    forall b | b in after ensures Audited(after[b], opens2, bound2, b) {
      assert SameHolders(opens, bound, opens2, bound2, b) && Audited(consoles[b], opens, bound, b);
    }
  }

  lemma FreedServed(consoles: map<nat, Console>, opens: map<nat, Open>, bound: map<nat, nat>,
                    opens2: map<nat, Open>, bound2: map<nat, nat>, c: nat)
    requires AllServed(consoles, opens) && forall b :: b != c ==> SameHolders(opens, bound, opens2, bound2, b)
    requires forall f :: f in opens && opens[f].kind.ServerOpen? && opens[f].console != Some(c) ==>
              f in opens2 && opens2[f] == opens[f]
    ensures AllServed(consoles - {c}, opens2)
  {
    var after := consoles - {c};
    forall b | b in after ensures Served(after[b], opens2, b) {
      assert SameHolders(opens, bound, opens2, bound2, b) && Served(consoles[b], opens, b);
    }
  }

  lemma FreedValid(consoles: map<nat, Console>, c: nat)
    requires AllValid(consoles)
    ensures AllValid(consoles - {c})
  {
    var after := consoles - {c};
    forall b | b in after ensures Valid(after[b]) { assert b in consoles; }
  }

  /** The record of a console nobody holds can go. */
  lemma FreedSound(w: World, c: nat, opens: map<nat, Open>, bound: map<nat, nat>)
    requires Sound(w) && c in w.consoles && Unheld(opens, bound, c)
    requires forall b :: b != c ==> SameHolders(w.opens, w.bound, opens, bound, b)
    requires forall f :: f in w.opens && w.opens[f].kind.ServerOpen? && w.opens[f].console != Some(c) ==>
              f in opens && opens[f] == w.opens[f]
    requires OpensLinked(w.consoles, opens) && BoundLinked(w.consoles, bound) && AllPinned(opens, bound, w.frames)
    ensures Sound(w.(consoles := w.consoles - {c}, opens := opens, bound := bound))
  {
    UnheldHasNoFrames(opens, bound, w.frames, c);
    FreedValid(w.consoles, c);
    FreedAudited(w.consoles, w.opens, w.bound, opens, bound, c);
    FreedServed(w.consoles, w.opens, w.bound, opens, bound, c);
    FreedFramed(w.consoles, w.frames, c);
  }

  lemma FreedFramed(consoles: map<nat, Console>, frames: map<(nat, nat), Frame>, c: nat)
    requires AllFramed(consoles, frames) && forall k :: k in frames ==> k.0 != c
    ensures AllFramed(consoles - {c}, frames)
  {
  }

  // ---------------------------------------------------------------- the counters' moves are sound

  lemma CountersKeep(c: Console, d: Console)
    requires Valid(c)
    requires d == c.(refCount := d.refCount, clientCount := d.clientCount, referenceMinted := d.referenceMinted,
                     nextOutputId := d.nextOutputId, signaled := d.signaled)
    requires d.serverFile.Some? && Abandoned(d) ==> d.signaled
    requires c.signaled ==> d.signaled
    ensures Valid(d) && forall id: nat :: Places(d, id) == Places(c, id)
  {
    assert VerbOrder(d) == VerbOrder(c);
    forall id: nat ensures Places(d, id) == Places(c, id) && Settled(d, id) == Settled(c, id) {
    }
  }

  function Minted(w: World, c: nat): World
    requires c in w.consoles
  {
    PutConsole(w, c, w.consoles[c].(referenceMinted := true))
  }

  lemma MintedAgain(w: World, c: nat)
    requires c in w.consoles && w.consoles[c].referenceMinted
    ensures Minted(w, c) == w
  {
    assert w.consoles[c := w.consoles[c]] == w.consoles;
  }

  function WithClient(c: Console): Console {
    c.(refCount := c.refCount + 1, clientCount := c.clientCount + 1, referenceMinted := true)
  }

  lemma AddClientIs(w: World, c: nat)
    requires c in w.consoles
    ensures AddClient(Minted(w, c), c) == PutConsole(w, c, WithClient(w.consoles[c]))
  {
    var d := WithClient(w.consoles[c]);
    assert Minted(w, c).consoles[c := d] == w.consoles[c := d];
  }

  /** One more client, by an open or by a binding; the first one mints the reference. */
  lemma AddClientSound(w: World, opens: map<nat, Open>, bound: map<nat, nat>, c: nat)
    requires Sound(w) && c in w.consoles
    requires Rewired(w.opens, w.bound, opens, bound, c, 1) && ServersKept(w.opens, opens)
    requires OpensLinked(w.consoles, opens) && BoundLinked(w.consoles, bound) && AllPinned(opens, bound, w.frames)
    ensures Sound(AddClient(Minted(w, c), c).(opens := opens, bound := bound))
  {
    assert Audited(w.consoles[c], w.opens, w.bound, c);
    AddClientIs(w, c);
    CountersKeep(w.consoles[c], WithClient(w.consoles[c]));
    RewiredSound(w, opens, bound, c, WithClient(w.consoles[c]), 1);
  }

  /** With nothing queued and no client left, the last release frees the console and no assertion fails. */
  lemma LastReleaseIsIdle(w: World, c: nat)
    requires c in w.consoles && !w.faulted && Awake(w.consoles[c])
    requires w.consoles[c].refCount == w.consoles[c].clientCount == 1 && w.consoles[c].serverFile.None?
    ensures ClientGone(w, c) == w.(consoles := w.consoles - {c})
  {
    var less := w.consoles[c].(clientCount := 0);
    assert w.consoles[c := less] - {c} == w.consoles - {c};
  }

  function WithoutClient(c: Console): Console {
    var less := c.(refCount := c.refCount - 1, clientCount := c.clientCount - 1);
    if less.clientCount == 0 then Signal(less, true) else less
  }

  lemma ReleaseKeepsOthers(w: World, c: nat)
    requires c in w.consoles && w.consoles[c].refCount > 1 && w.consoles[c].clientCount > 0
    ensures ClientGone(w, c) == PutConsole(w, c, WithoutClient(w.consoles[c]))
  {
    var console := w.consoles[c].(clientCount := w.consoles[c].clientCount - 1);
    var told := if console.clientCount == 0 then Signal(console, true) else console;
    assert w.consoles[c := told][c := WithoutClient(w.consoles[c])] == w.consoles[c := WithoutClient(w.consoles[c])];
  }

  /** One client less. The console goes with its last holder. */
  lemma ClientGoneSound(w: World, opens: map<nat, Open>, bound: map<nat, nat>, c: nat)
    requires Sound(w) && c in w.consoles
    requires Rewired(w.opens, w.bound, opens, bound, c, -1) && ServersKept(w.opens, opens)
    requires OpensLinked(w.consoles, opens) && BoundLinked(w.consoles, bound) && AllPinned(opens, bound, w.frames)
    ensures Sound(ClientGone(w.(opens := opens, bound := bound), c))
    ensures c !in ClientGone(w.(opens := opens, bound := bound), c).consoles <==> Unheld(opens, bound, c)
  {
    var before, moved := w.consoles[c], w.(opens := opens, bound := bound);
    assert Audited(before, w.opens, w.bound, c) && Served(before, w.opens, c) && Valid(before);
    if before.refCount == 1 {
      assert ServerOpens(w.opens, c) == {};
      LastReleaseIsIdle(moved, c);
      UnheldWhenCountsVanish(opens, bound, c);
      FreedSound(w, c, opens, bound);
    } else {
      ReleaseKeepsOthers(moved, c);
      HeldWhenCounted(opens, bound, c);
      CountersKeep(before, WithoutClient(before));
      RewiredSound(w, opens, bound, c, WithoutClient(before), -1);
    }
  }

  lemma HeldWhenCounted(opens: map<nat, Open>, bound: map<nat, nat>, c: nat)
    requires |ClientOpens(opens, c)| + |BoundTo(bound, c)| + |ServerOpens(opens, c)| > 0
    ensures !Unheld(opens, bound, c)
  {
    if ClientOpens(opens, c) != {} {
      var f :| f in ClientOpens(opens, c);
    } else if BoundTo(bound, c) != {} {
      var p :| p in BoundTo(bound, c);
    } else {
      var f :| f in ServerOpens(opens, c);
    }
  }
}
