/**
 When a peek leaves the data alone (drivers/afd.c:1792-1877): the peek flag reaches the inline paths only, so a peek
 that parks takes what its completion finds, like any receive.
 */
module AfdPeek {
  import opened NtKernel
  import opened AfdTypes
  import opened AfdSockets
  import opened AfdCallbacks
  import AfdStream

  /** A peek, with the readiness pass that follows its park. */
  function Peeked(s: Sock, peek: Recv, mayWait: bool): Sock {
    if RecvRefusal(s, mayWait).Some? then s
    else if RecvInline(s, peek.capacity, true).Some? then RecvInline(s, peek.capacity, true).value.0
    else Ready(WithRecv(s, peek))
  }

  function Arrives(s: Sock, data: seq<byte>): Sock { if s.datagram then OnDatagram(s, data) else OnData(s, data) }

  /** The socket after a run of arrivals, each with its readiness pass. */
  function After(s: Sock, arrivals: seq<seq<byte>>): Sock
    decreases |arrivals|
  {
    if arrivals == [] then s else After(Ready(Arrives(s, arrivals[0])), arrivals[1..])
  }

  /** After these arrivals something is missing that would be there without the peek. */
  ghost predicate Takes(s: Sock, peek: Recv, mayWait: bool, arrivals: seq<seq<byte>>) {
    !SameData(After(s, arrivals), After(Peeked(s, peek, mayWait), arrivals))
  }

  /** Whatever arrives later, ring and queue are what they would be without the peek. */
  ghost predicate LeavesData(s: Sock, peek: Recv, mayWait: bool) {
    forall arrivals :: !Takes(s, peek, mayWait, arrivals)
  }

  /** A caller's test: the driver answers a peek at once only on a stream with data, a FIN or an error. */
  predicate AnswersPeek(s: Sock) {
    !s.datagram && (s.intake.buffered != [] || s.intake.peerClosed || s.box.soError != 0)
  }

  lemma AnswersPeekExactly(s: Sock, capacity: nat)
    ensures RecvInline(s, capacity, true).Some? <==> AnswersPeek(s)
    ensures AnswersPeek(s) ==> SameData(s, RecvInline(s, capacity, true).value.0)
  {
  }

  // ---------------------------------------------------------------- a peek that takes nothing

  /** A receive that is last on the list waits until the loop is done with the others. */
  lemma {:induction false} ReadyBehind(s: Sock, last: Recv)
    ensures Ready(WithRecv(s, last)) == Ready(WithRecv(Ready(s), last))
    decreases |s.recvs|
  {
    if s.recvs != [] && Satisfiable(s) {
      assert (s.recvs + [last])[1..] == s.recvs[1..] + [last];
      assert RecvLeg(WithRecv(s, last)) == WithRecv(RecvLeg(s), last);
      ReadyBehind(RecvLeg(s), last);
    }
  }

  lemma ArrivesBehind(s: Sock, last: Recv, data: seq<byte>)
    ensures Ready(Arrives(WithRecv(s, last), data)) == Ready(WithRecv(Ready(Arrives(s, data)), last))
  {
    ReadyBehind(Arrives(s, data), last);
    assert Arrives(WithRecv(s, last), data) == WithRecv(Arrives(s, data), last);
  }

  /** Nothing parked on either socket, and the same data. */
  predicate Alike(s: Sock, t: Sock) { s.recvs == t.recvs == [] && s.datagram == t.datagram && SameData(s, t) }

  lemma {:induction false} AlikeStays(s: Sock, t: Sock, arrivals: seq<seq<byte>>)
    requires Alike(s, t)
    ensures SameData(After(s, arrivals), After(t, arrivals))
    decreases |arrivals|
  {
    if arrivals != [] {
      AlikeStays(Arrives(s, arrivals[0]), Arrives(t, arrivals[0]), arrivals[1..]);
    }
  }

  /** A stream receive without room takes nothing, wherever it stands. */
  lemma {:induction false} RoomlessTakesNothing(s: Sock, last: Recv, arrivals: seq<seq<byte>>)
    requires !s.datagram && last.capacity == 0 && RecvDry(s)
    ensures SameData(After(s, arrivals), After(WithRecv(s, last), arrivals))
    decreases |arrivals|
  {
    if arrivals != [] {
      var u := Ready(Arrives(s, arrivals[0]));
      ArrivesBehind(s, last, arrivals[0]);
      ReadyDries(Arrives(s, arrivals[0]));
      if u.recvs == [] && Satisfiable(u) {
        RecvLegIntake(WithRecv(u, last));
        AlikeStays(u, RecvLeg(WithRecv(u, last)), arrivals[1..]);
      } else {
        RoomlessTakesNothing(u, last, arrivals[1..]);
      }
    }
  }

  // ---------------------------------------------------------------- a peek that takes something

  /** Arrivals any window admits. */
  ghost predicate Small(arrivals: seq<seq<byte>>) { forall data :: data in arrivals ==> |data| <= 1 }

  /** What receives leave of a stream with at most one byte: the byte or nothing, and everything that is not data. */
  predicate Leftover(s: Sock, t: Sock) {
    && t.datagram == s.datagram && t.box == s.box && t.intake.peerClosed == s.intake.peerClosed
    && (t.intake.buffered == s.intake.buffered || t.intake.buffered == [])
  }

  lemma LegLeftover(s: Sock)
    requires !s.datagram && |s.intake.buffered| <= 1 && s.recvs != [] && Satisfiable(s)
    ensures Leftover(s, RecvLeg(s)) && |RecvLeg(s).recvs| == |s.recvs| - 1
  {
    RecvLegIntake(s);
  }

  lemma {:induction false} ReadyLeftover(s: Sock)
    requires !s.datagram && |s.intake.buffered| <= 1
    ensures Leftover(s, Ready(s))
    ensures |Ready(s).recvs| <= |s.recvs| - if s.recvs != [] && Satisfiable(s) then 1 else 0
    decreases |s.recvs|
  {
    if s.recvs != [] && Satisfiable(s) {
      LegLeftover(s);
      ReadyLeftover(RecvLeg(s));
    }
  }

  /** One byte for each receive in front of the peek, and one more, which the peek takes. */
  lemma {:induction false} StreamPeekTakes(s: Sock, peek: Recv) returns (arrivals: seq<seq<byte>>)
    requires !s.datagram && !Satisfiable(s) && peek.capacity > 0
    ensures Small(arrivals) && !SameData(After(s, arrivals), After(WithRecv(s, peek), arrivals))
    decreases |s.recvs|
  {
    var one: seq<byte> := [0];
    var u := Ready(Arrives(s, one));
    ReadyLeftover(Arrives(s, one));
    ReadyDries(Arrives(s, one));
    ArrivesBehind(s, peek, one);
    if u.intake.buffered == [] {
      var rest := StreamPeekTakes(u, peek);
      arrivals := [one] + rest;
      assert arrivals[1..] == rest;
    } else {
      RecvLegIntake(WithRecv(u, peek));
      arrivals := [one];
      assert arrivals[1..] == [];
    }
  }

  /** One datagram for each receive in front of the peek, and one more, which the peek takes. */
  lemma {:induction false} DatagramPeekTakes(s: Sock, peek: Recv) returns (arrivals: seq<seq<byte>>)
    requires s.datagram && s.datagrams == []
    ensures Small(arrivals) && !SameData(After(s, arrivals), After(WithRecv(s, peek), arrivals))
    decreases |s.recvs|
  {
    var empty: seq<byte> := [];
    var u := Ready(Arrives(s, empty));
    ArrivesBehind(s, peek, empty);
    if s.recvs == [] {
      arrivals := [empty];
      assert arrivals[1..] == [];
    } else {
      assert u == RecvLeg(Arrives(s, empty));
      var rest := DatagramPeekTakes(u, peek);
      arrivals := [empty] + rest;
      assert arrivals[1..] == rest;
    }
  }

  // ---------------------------------------------------------------- exactly when

  lemma ParkedPeekTakes(s: Sock, peek: Recv) returns (arrivals: seq<seq<byte>>)
    requires RecvDry(s) && !AnswersPeek(s) && (s.datagram || (peek.capacity > 0 && !s.box.dead))
    ensures Small(arrivals) && !SameData(After(s, arrivals), After(Ready(WithRecv(s, peek)), arrivals))
  {
    if !s.datagram {
      arrivals := StreamPeekTakes(s, peek);
    } else if s.datagrams == [] {
      arrivals := DatagramPeekTakes(s, peek);
    } else {
      arrivals := [];
    }
  }

  /** On a drained socket a peek leaves ring and queue alone, whatever arrives later, exactly when it is refused or
      answered at once, or is a stream peek with no room or on a closed handle: never on a datagram socket, and not on a
      stream with nothing to report yet. */
  lemma PeekKeepsDataExactly(s: Sock, peek: Recv, mayWait: bool)
    requires RecvDry(s)
    ensures LeavesData(s, peek, mayWait) <==>
              || RecvRefusal(s, mayWait).Some? || AnswersPeek(s)
              || (!s.datagram && (peek.capacity == 0 || s.box.dead))
    ensures LeavesData(s, peek, mayWait) || exists arrivals :: Small(arrivals) && Takes(s, peek, mayWait, arrivals)
  {
    AnswersPeekExactly(s, peek.capacity);
    if RecvRefusal(s, mayWait).None? && !AnswersPeek(s) && (s.datagram || (peek.capacity > 0 && !s.box.dead)) {
      var arrivals := ParkedPeekTakes(s, peek);
      assert Takes(s, peek, mayWait, arrivals);
    } else {
      forall arrivals ensures !Takes(s, peek, mayWait, arrivals) {
        PeekLeaves(s, peek, mayWait, arrivals);
      }
    }
  }

  lemma PeekLeaves(s: Sock, peek: Recv, mayWait: bool, arrivals: seq<seq<byte>>)
    requires RecvDry(s)
    requires RecvRefusal(s, mayWait).Some? || AnswersPeek(s) || (!s.datagram && (peek.capacity == 0 || s.box.dead))
    ensures SameData(After(s, arrivals), After(Peeked(s, peek, mayWait), arrivals))
  {
    AnswersPeekExactly(s, peek.capacity);
    if RecvRefusal(s, mayWait).None? {
      if AnswersPeek(s) {
        AlikeStays(s, Peeked(s, peek, mayWait), arrivals);
      } else if s.box.dead {
        assert Ready(WithRecv(s, peek)) == RecvLeg(WithRecv(s, peek));
        AlikeStays(s, RecvLeg(WithRecv(s, peek)), arrivals);
      } else {
        RoomlessTakesNothing(s, peek, arrivals);
      }
    }
  }
}
