/**
 When the readiness drain does not end (drivers/afd.c:887-897): the send loop leaves on no progress only while no
 connect is outstanding.
 */
module AfdSpin {
  import opened NtKernel
  import opened AfdTypes
  import opened AfdSend
  import opened AfdSockets
  import opened AfdCallbacks

  /** A pass neither makes progress nor leaves exactly when a connect is outstanding and the first send is blocked. */
  lemma PassIsWastedExactly(lwip: nat -> LwipErr, s: Sock)
    requires s.box.sends != [] && SendsFit(s.box)
    ensures !Progressed(s.box, SendLeg(lwip, s).box) && !Leaves(s, SendLeg(lwip, s))
       <==> s.dial.request.Some? && Blocked(lwip, s.box)
  {
    BlockedExactly(lwip, s.box);
    var left, end := SendLegShape(lwip, s.box);
  }

  /** A pass over the send side alone, which is all a pass touches. */
  ghost function Pass(lwip: nat -> LwipErr, b: Outbox): Outbox {
    if b.sends == [] || !SendsFit(b) then b else Continue(lwip, b)
  }

  function Iterate<T>(step: T -> T, x: T, n: nat): T { if n == 0 then x else step(Iterate(step, x, n - 1)) }

  lemma {:induction false} IterateAdd<T>(step: T -> T, x: T, m: nat, n: nat)
    ensures Iterate(step, Iterate(step, x, m), n) == Iterate(step, x, m + n)
  {
    if n > 0 {
      IterateAdd(step, x, m, n - 1);
    }
  }

  ghost function PassOf(lwip: nat -> LwipErr): Outbox -> Outbox { (b: Outbox) => Pass(lwip, b) }

  /** The send side after n passes. While a connect is outstanding the loop ends only when no send is parked. */
  ghost function Passes(lwip: nat -> LwipErr, b: Outbox, n: nat): Outbox { Iterate(PassOf(lwip), b, n) }

  ghost predicate Ends(lwip: nat -> LwipErr, b: Outbox) { exists n: nat :: Passes(lwip, b, n).sends == [] }

  /** The first send cannot move any more: lwIP has no room, or refuses memory from now on. */
  ghost predicate Jammed(lwip: nat -> LwipErr, b: Outbox) {
    && b.sends != [] && b.out.Some? && !b.dead && b.sends[0].done < |b.sends[0].data|
    && (b.out.value.room == 0 || forall k: nat :: k >= b.out.value.writes ==> lwip(k) == ErrMem)
  }

  /** While a connect is outstanding the loop has no way out but to run out of sends. */
  lemma NeverLeaves(lwip: nat -> LwipErr, s: Sock)
    requires s.box.sends != [] && SendsFit(s.box) && s.dial.request.Some?
    ensures !Leaves(s, SendLeg(lwip, s)) && SendLeg(lwip, s) == s.(box := Pass(lwip, s.box))
  {
    var left, end := SendLegShape(lwip, s.box);
  }

  /** A pass over a blocked send moves nothing; with no room it changes nothing at all, otherwise it uses up one
      verdict. */
  lemma BlockedPass(lwip: nat -> LwipErr, b: Outbox)
    requires b.sends != [] && SendsFit(b) && Blocked(lwip, b)
    ensures var out := b.out.value;
            Pass(lwip, b) == if out.room == 0 then b
                             else b.(out := Some(out.(starved := true, writes := out.writes + 1)))
  {
    assert b.sends == [b.sends[0]] + b.sends[1..] && b.wire + [] == b.wire;
  }

  lemma JammedPass(lwip: nat -> LwipErr, b: Outbox)
    requires SendsFit(b) && Jammed(lwip, b)
    ensures SendsFit(Pass(lwip, b)) && Jammed(lwip, Pass(lwip, b))
    ensures Pass(lwip, b).sends == b.sends && Pass(lwip, b).wire == b.wire
  {
    BlockedPass(lwip, b);
  }

  lemma PassShape(lwip: nat -> LwipErr, b: Outbox)
    requires SendsFit(b)
    ensures SendsFit(Pass(lwip, b)) && |Pass(lwip, b).sends| <= |b.sends|
  {
    if b.sends != [] {
      var left, end := SendLegShape(lwip, b);
    }
  }

  lemma {:induction false} PassesShape(lwip: nat -> LwipErr, b: Outbox, n: nat)
    requires SendsFit(b)
    ensures SendsFit(Passes(lwip, b, n)) && |Passes(lwip, b, n).sends| <= |b.sends|
  {
    if n > 0 {
      PassesShape(lwip, b, n - 1);
      PassShape(lwip, Passes(lwip, b, n - 1));
    }
  }

  lemma PassesAdd(lwip: nat -> LwipErr, b: Outbox, m: nat, n: nat)
    ensures Passes(lwip, Passes(lwip, b, m), n) == Passes(lwip, b, m + n)
  {
    IterateAdd(PassOf(lwip), b, m, n);
  }

  /** What is left to push of the first parked send. */
  function Rest(b: Outbox): int { if b.sends == [] then 0 else |b.sends[0].data| - b.sends[0].done }

  /** Something was used up: a send, or bytes of the first one. */
  ghost predicate Shrank(b: Outbox, c: Outbox) {
    SendsFit(c) && (|c.sends| < |b.sends| || (|c.sends| == |b.sends| && 0 <= Rest(c) < Rest(b)))
  }

  lemma UnblockedPass(lwip: nat -> LwipErr, b: Outbox)
    requires b.sends != [] && SendsFit(b) && !Blocked(lwip, b)
    ensures Shrank(b, Passes(lwip, b, 1))
  {
    BlockedExactly(lwip, b);
    var left, end := SendLegShape(lwip, b);
    assert Passes(lwip, b, 0) == b;
  }

  /** A retry: one verdict is used up. */
  lemma RetryPass(lwip: nat -> LwipErr, b: Outbox) returns (c: Outbox)
    requires b.sends != [] && SendsFit(b) && Blocked(lwip, b) && b.out.value.room != 0
    ensures c == b.(out := Some(b.out.value.(starved := true, writes := b.out.value.writes + 1)))
    ensures Passes(lwip, b, 1) == c
  {
    BlockedPass(lwip, b);
    c := Pass(lwip, b);
    assert Passes(lwip, b, 0) == b;
  }

  /** A blocked send with room is retried until lwIP's verdict changes, and then something is used up. */
  lemma {:induction false} RetriesUntil(lwip: nat -> LwipErr, b: Outbox, k: nat) returns (n: nat)
    requires SendsFit(b) && b.sends != [] && Blocked(lwip, b) && b.out.value.room != 0
    requires k >= b.out.value.writes && lwip(k) != ErrMem
    ensures Shrank(b, Passes(lwip, b, n))
    decreases k - b.out.value.writes
  {
    var c := RetryPass(lwip, b);
    var m := 1;
    if Blocked(lwip, c) {
      m := RetriesUntil(lwip, c, k);
    } else {
      UnblockedPass(lwip, c);
    }
    PassesAdd(lwip, b, 1, m);
    n := 1 + m;
  }

  /** Progress, unless the send is jammed. */
  lemma SomePassesProgress(lwip: nat -> LwipErr, b: Outbox) returns (n: nat)
    requires SendsFit(b) && b.sends != [] && !Jammed(lwip, b)
    ensures Shrank(b, Passes(lwip, b, n))
  {
    if Blocked(lwip, b) {
      var k: nat :| k >= b.out.value.writes && lwip(k) != ErrMem;
      n := RetriesUntil(lwip, b, k);
    } else {
      UnblockedPass(lwip, b);
      n := 1;
    }
  }

  lemma {:induction false} EndsUnlessJammed(lwip: nat -> LwipErr, b: Outbox) returns (n: nat)
    requires SendsFit(b) && forall m: nat :: !Jammed(lwip, Passes(lwip, b, m))
    ensures Passes(lwip, b, n).sends == []
    decreases |b.sends|, Rest(b)
  {
    assert !Jammed(lwip, Passes(lwip, b, 0));
    n := 0;
    if b.sends != [] {
      var first := SomePassesProgress(lwip, b);
      var c := Passes(lwip, b, first);
      forall m: nat ensures !Jammed(lwip, Passes(lwip, c, m)) {
        PassesAdd(lwip, b, first, m);
      }
      var more := EndsUnlessJammed(lwip, c);
      PassesAdd(lwip, b, first, more);
      n := first + more;
    }
  }

  /** An empty list stays empty. */
  lemma EmptyStays(lwip: nat -> LwipErr, b: Outbox, n: nat, m: nat)
    requires SendsFit(b) && n <= m && Passes(lwip, b, n).sends == []
    ensures Passes(lwip, b, m).sends == []
  {
    var c := Passes(lwip, b, n);
    PassesShape(lwip, b, n);
    PassesShape(lwip, c, m - n);
    PassesAdd(lwip, b, n, m - n);
  }

  /** A jammed send stays jammed, with nothing going out, for any number of passes. */
  lemma {:induction false} JammedGoesOn(lwip: nat -> LwipErr, b: Outbox, m: nat, n: nat)
    requires SendsFit(b) && Jammed(lwip, Passes(lwip, b, m)) && m <= n
    ensures SendsFit(Passes(lwip, b, n)) && Jammed(lwip, Passes(lwip, b, n))
    ensures Passes(lwip, b, n).sends == Passes(lwip, b, m).sends && Passes(lwip, b, n).wire == Passes(lwip, b, m).wire
    decreases n - m
  {
    if n == m {
      PassesShape(lwip, b, m);
    } else {
      JammedGoesOn(lwip, b, m, n - 1);
      JammedPass(lwip, Passes(lwip, b, n - 1));
    }
  }

  lemma JammedNeverEnds(lwip: nat -> LwipErr, b: Outbox, m: nat, n: nat)
    requires SendsFit(b) && Jammed(lwip, Passes(lwip, b, m))
    ensures Passes(lwip, b, n).sends != []
  {
    if n >= m {
      JammedGoesOn(lwip, b, m, n);
    } else if Passes(lwip, b, n).sends == [] {
      EmptyStays(lwip, b, n, m);
    }
  }

  ghost predicate EverJams(lwip: nat -> LwipErr, b: Outbox) { exists m: nat :: Jammed(lwip, Passes(lwip, b, m)) }

  lemma EndsExactly(lwip: nat -> LwipErr, b: Outbox)
    requires SendsFit(b)
    ensures !Ends(lwip, b) <==> EverJams(lwip, b)
  {
    if EverJams(lwip, b) {
      var m: nat :| Jammed(lwip, Passes(lwip, b, m));
      forall n: nat ensures Passes(lwip, b, n).sends != [] {
        JammedNeverEnds(lwip, b, m, n);
      }
    } else {
      var n := EndsUnlessJammed(lwip, b);
      assert Passes(lwip, b, n).sends == [];
    }
  }

  // ---------------------------------------------------------------- what a caller can check

  /** What is left to push of all parked sends. */
  function Unsent(sends: seq<Send>): int {
    if sends == [] then 0 else |sends[0].data| - sends[0].done + Unsent(sends[1..])
  }

  /** lwIP refuses nothing from its n-th call on. */
  ghost predicate Willing(lwip: nat -> LwipErr, n: nat) { forall k: nat :: k >= n ==> lwip(k) == ErrOk }

  lemma {:induction false} UnsentIsNonnegative(b: Outbox)
    requires SendsFit(b)
    ensures Unsent(b.sends) >= 0
    decreases |b.sends|
  {
    if b.sends != [] {
      assert b.sends[0].done <= |b.sends[0].data|;
      assert forall k :: 0 <= k < |b.sends[1..]| ==> b.sends[1..][k] == b.sends[k + 1];
      UnsentIsNonnegative(b.(sends := b.sends[1..]));
    }
  }

  lemma {:induction false} PushAccepted(lwip: nat -> LwipErr, out: Outgo, id: nat, data: seq<byte>, done: nat)
    requires done <= |data| && Willing(lwip, out.writes)
    ensures PushRun(lwip, out, id, data, done).err == ErrOk
    ensures PushRun(lwip, out, id, data, done).out.writes >= out.writes
    decreases |data| - done
  {
    if done < |data| && out.room != 0 {
      var push := WriteSize(|data|, done, out.room);
      PushAccepted(lwip, Outgo(out.room - push, false, out.writes + 1), id, data, done + push);
    }
  }

  /** A pass with a willing lwIP finishes the first send if it fits, and otherwise fills the buffer. */
  lemma WillingPass(lwip: nat -> LwipErr, b: Outbox) returns (room: nat, writes: nat)
    requires b.sends != [] && SendsFit(b) && b.out.Some? && !b.dead && Willing(lwip, b.out.value.writes)
    ensures var c, need := Pass(lwip, b), |b.sends[0].data| - b.sends[0].done;
            && SendsFit(c) && !c.dead && c.out.Some? && c.out.value.room == room && c.out.value.writes == writes
            && Willing(lwip, writes)
            && (need <= b.out.value.room ==> c.sends == b.sends[1..] && room == b.out.value.room - need)
            && (need > b.out.value.room ==> Jammed(lwip, c))
  {
    var s, out := b.sends[0], b.out.value;
    PushRunExact(lwip, out, s.id, s.data, s.done);
    PushAccepted(lwip, out, s.id, s.data, s.done);
    var p := PushRun(lwip, out, s.id, s.data, s.done);
    room, writes := p.out.room, p.out.writes;
    PassShape(lwip, b);
  }

  lemma EndsForth(lwip: nat -> LwipErr, b: Outbox, n: nat)
    requires Passes(lwip, b, n).sends == []
    ensures Ends(lwip, Pass(lwip, b))
  {
    var c := Pass(lwip, b);
    assert Passes(lwip, b, 0) == b && Passes(lwip, b, 1) == c && Passes(lwip, c, 0) == c;
    if n > 0 {
      PassesAdd(lwip, b, 1, n - 1);
      assert Passes(lwip, c, n - 1).sends == [];
    }
  }

  lemma EndsBack(lwip: nat -> LwipErr, b: Outbox, n: nat)
    requires Passes(lwip, Pass(lwip, b), n).sends == []
    ensures Ends(lwip, b)
  {
    assert Passes(lwip, b, 0) == b && Passes(lwip, b, 1) == Pass(lwip, b);
    PassesAdd(lwip, b, 1, n);
    assert Passes(lwip, b, 1 + n).sends == [];
  }

  /** One pass more or less does not change whether the loop ends. */
  lemma EndsAfterPass(lwip: nat -> LwipErr, b: Outbox)
    ensures Ends(lwip, b) <==> Ends(lwip, Pass(lwip, b))
  {
    if Ends(lwip, b) {
      var n: nat :| Passes(lwip, b, n).sends == [];
      EndsForth(lwip, b, n);
    }
    if Ends(lwip, Pass(lwip, b)) {
      var n: nat :| Passes(lwip, Pass(lwip, b), n).sends == [];
      EndsBack(lwip, b, n);
    }
  }

  /** While lwIP refuses nothing, the loop ends exactly when all that is parked fits into lwIP's buffer. */
  lemma {:induction false} EndsIfItFits(lwip: nat -> LwipErr, b: Outbox)
    requires SendsFit(b) && b.out.Some? && !b.dead && Willing(lwip, b.out.value.writes)
    ensures Ends(lwip, b) <==> Unsent(b.sends) <= b.out.value.room
    decreases |b.sends|
  {
    if b.sends == [] {
      assert Passes(lwip, b, 0).sends == [];
    } else {
      var c := Pass(lwip, b);
      var room, writes := WillingPass(lwip, b);
      EndsAfterPass(lwip, b);
      if |b.sends[0].data| - b.sends[0].done <= b.out.value.room {
        EndsIfItFits(lwip, c);
      } else {
        assert Passes(lwip, c, 0) == c && Jammed(lwip, Passes(lwip, c, 0));
        EndsExactly(lwip, c);
        assert SendsFit(b.(sends := b.sends[1..]));
        UnsentIsNonnegative(b.(sends := b.sends[1..]));
      }
    }
  }

  /** With lwIP's end gone, or the socket dead, every pass ends a send. */
  lemma {:induction false} EndsOnceGone(lwip: nat -> LwipErr, b: Outbox)
    requires SendsFit(b) && (b.out.None? || b.dead)
    ensures Ends(lwip, b)
    decreases |b.sends|
  {
    if b.sends == [] {
      assert Passes(lwip, b, 0).sends == [];
    } else {
      PassShape(lwip, b);
      EndsAfterPass(lwip, b);
      EndsOnceGone(lwip, Pass(lwip, b));
    }
  }

  /** With a connect outstanding the drain's send loop runs for ever exactly when some number of passes jams it: its
      first send then finds no room, or lwIP refuses memory from that call on. A caller can tell in advance: with lwIP's
      end gone it ends, and as long as lwIP refuses nothing it ends exactly when all that is parked fits. */
  lemma SpinsForeverExactly(lwip: nat -> LwipErr, s: Sock)
    requires SendsFit(s.box) && s.dial.request.Some?
    ensures !Ends(lwip, s.box) <==> EverJams(lwip, s.box)
    ensures s.box.out.None? || s.box.dead ==> Ends(lwip, s.box)
    ensures s.box.out.Some? && !s.box.dead && Willing(lwip, s.box.out.value.writes) ==>
              (!Ends(lwip, s.box) <==> Unsent(s.box.sends) > s.box.out.value.room)
    ensures s.box.sends != [] ==>
              !Leaves(s, SendLeg(lwip, s)) && SendLeg(lwip, s) == s.(box := Pass(lwip, s.box))
  {
    if s.box.sends != [] {
      NeverLeaves(lwip, s);
    }
    EndsExactly(lwip, s.box);
    if s.box.out.None? || s.box.dead {
      EndsOnceGone(lwip, s.box);
    } else if Willing(lwip, s.box.out.value.writes) {
      EndsIfItFits(lwip, s.box);
    }
  }

  // ---------------------------------------------------------------- a run that gets there

  /** A blocking connect is parked on a fresh stream, a connection is grafted onto that same socket, and a send longer
      than lwIP's buffer is issued on it: the connect is still outstanding, the send parks with no room left, and the
      next readiness pass never ends. */
  lemma ConnectGraftSendSpins(w: World, socks: seq<Sock>, l: nat, t: nat, connectId: nat, accept: Accept, shell: Shell,
                              sendId: nat, data: seq<byte>)
    requires l < |socks| && t < |socks| && l != t && socks[l].accepts == [accept] && accept.into == Some(t)
    requires Fit(socks[t], |socks|) && !socks[t].datagram && !socks[t].dial.connecting && !socks[t].box.connected
    requires !socks[t].box.nonBlocking && !socks[t].box.shutdownSend && !socks[t].box.dead
    requires shell.out.Some? && |data| > shell.out.value.room && forall k: nat :: w.lwip(t)(k) == ErrOk
    ensures var (dialing, status) := Connect(socks[t], connectId, STATUS_SUCCESS, STATUS_SUCCESS, ErrOk);
            var listening := OnInbound(socks[l].(acceptQueue := []), shell);
            var grafted := AcceptLeg(w.mint, socks[t := dialing][l := listening], l, 0);
            && status == STATUS_PENDING && |grafted| == |socks|
            && var s := grafted[t].(box := Issue(w.lwip(t), grafted[t].box, sendId, data, STATUS_SUCCESS));
               s.dial.request == Some(connectId) && s.box.sends != [] && SendsFit(s.box)
               && s.box.out.Some? && s.box.out.value.room == 0 && !Ends(w.lwip(t), s.box)
  {
    var (dialing, status) := Connect(socks[t], connectId, STATUS_SUCCESS, STATUS_SUCCESS, ErrOk);
    var listening := OnInbound(socks[l].(acceptQueue := []), shell);
    var grafted := AcceptLeg(w.mint, socks[t := dialing][l := listening], l, 0);
    assert grafted[t] == GraftOnto(dialing, shell);
    LongSendJams(w.lwip(t), grafted[t], sendId, data);
  }

  lemma LongSendJams(lwip: nat -> LwipErr, g: Sock, id: nat, data: seq<byte>)
    requires g.box.out.Some? && g.box.connected && !g.box.dead && !g.box.nonBlocking && !g.box.shutdownSend
    requires g.box.sends == []
    requires |data| > g.box.out.value.room && g.dial.request.Some? && forall k: nat :: lwip(k) == ErrOk
    ensures var s := g.(box := Issue(lwip, g.box, id, data, STATUS_SUCCESS));
            s.box.sends != [] && SendsFit(s.box) && s.box.out.Some? && s.box.out.value.room == 0 && !Ends(lwip, s.box)
  {
    var s := g.(box := Issue(lwip, g.box, id, data, STATUS_SUCCESS));
    PushRunExact(lwip, g.box.out.value, id, data, 0);
    PushAccepted(lwip, g.box.out.value, id, data, 0);
    assert Passes(lwip, s.box, 0) == s.box && Jammed(lwip, Passes(lwip, s.box, 0));
    SpinsForeverExactly(lwip, s);
  }
}
