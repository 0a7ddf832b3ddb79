/**
 Which rows a snapshot has and what their keys hold, byte by byte (drivers/nsi.c:125-137, 185-384; abi/nsi.h:48-66,
 228-292). The offsets are those of the key structures.
 */
module NsiRows {
  import opened NtKernel
  import opened Lists
  import opened NsiTables

  // ---------------------------------------------------------------- words

  /** The four bytes at `at` are the word, least significant first. */
  predicate WordAt(s: seq<byte>, at: nat, n: nat) {
    && at + 4 <= |s|
    && s[at] as nat + 0x100 * s[at + 1] as nat + 0x1_0000 * s[at + 2] as nat + 0x100_0000 * s[at + 3] as nat == n
  }

  predicate ZeroAt(s: seq<byte>, from: nat, to: nat) { to <= |s| && forall k :: from <= k < to ==> s[k] == 0 }

  /** The first byte of a word's image, and the rest. */
  lemma LeFirst(word: nat, high: nat, low: nat, k: nat)
    requires k > 0 && low < 256 && word == 256 * high + low
    ensures Le(word, k) == [low as byte] + Le(high, k - 1)
  {
    assert word / 256 == high && word % 256 == low;
  }

  lemma LeWord(n: nat)
    requires n < 0x1_0000_0000
    ensures WordAt(Le(n, 4), 0, n)
  {
    var one := n / 256;
    var two := one / 256;
    var three := two / 256;
    LeFirst(n, one, n % 256, 4);
    LeFirst(one, two, one % 256, 3);
    LeFirst(two, three, two % 256, 2);
    LeFirst(three, 0, three, 1);
  }

  // ---------------------------------------------------------------- keys

  /** A luid at `at`: three reserved bytes, the interface's 24-bit index, and its type, 24 for the loopback and 6 for
      Ethernet. */
  predicate LuidIs(s: seq<byte>, at: nat, netif: Netif) {
    && at + 8 <= |s| && ZeroAt(s, at, at + 3)
    && s[at + 3] as nat + 0x100 * s[at + 4] as nat + 0x1_0000 * s[at + 5] as nat == netif.index
    && s[at + 6] as nat + 0x100 * s[at + 7] as nat == if netif.loopback then 24 else 6
  }

  lemma ThreeZeros(word: nat, one: nat, two: nat, m: nat, k: nat)
    requires word == 256 * one && one == 256 * two && two == 256 * m && k >= 3
    ensures Le(word, k) == [0, 0, 0] + Le(m, k - 3)
  {
    LeFirst(word, one, 0, k);
    LeFirst(one, two, 0, k - 1);
    LeFirst(two, m, 0, k - 2);
    assert Le(word, k) == [0] + ([0] + ([0] + Le(m, k - 3)));
  }

  lemma IndexBytes(index: nat) returns (b0: nat, b1: nat, b2: nat)
    requires index < 0x100_0000
    ensures b0 < 256 && b1 < 256 && b2 < 256 && index == b0 + 0x100 * b1 + 0x1_0000 * b2
  {
    b0, b1, b2 := index % 0x100, index / 0x100 % 0x100, index / 0x1_0000;
    assert index / 0x100 == b1 + 0x100 * b2;
  }

  /** Five bytes, least significant first. */
  lemma FiveBytes(word: nat, one: nat, two: nat, b0: nat, b1: nat, b2: nat, b3: nat)
    requires b0 < 256 && b1 < 256 && b2 < 256 && b3 < 256
    requires word == 256 * one + b0 && one == 256 * two + b1 && two == 256 * b3 + b2
    ensures Le(word, 5) == [b0 as byte, b1 as byte, b2 as byte, b3 as byte, 0]
  {
    LeFirst(word, one, b0, 5);
    LeFirst(one, two, b1, 4);
    LeFirst(two, b3, b2, 3);
    LeFirst(b3, 0, b3, 2);
    LeFirst(0, 0, 0, 1);
    assert Le(0, 0) == [];
    assert Le(word, 5) == [b0 as byte] + ([b1 as byte] + ([b2 as byte] + ([b3 as byte] + [0])));
  }

  lemma LuidOutcome(netif: Netif)
    requires netif.index < 0x100_0000
    ensures LuidIs(LuidBytes(netif), 0, netif)
  {
    var kind, index := if netif.loopback then 24 else 6, netif.index;
    var b0, b1, b2 := IndexBytes(index);
    var word := kind * 0x100_0000 + index;
    FiveBytes(word, kind * 0x1_0000 + 0x100 * b2 + b1, kind * 0x100 + b2, b0, b1, b2, kind);
    ThreeZeros(Luid(netif), 0x1_0000 * word, 0x100 * word, word, 8);
    assert LuidBytes(netif) == [0, 0, 0, b0 as byte, b1 as byte, b2 as byte, kind as byte, 0];
  }

  /** An IPv4 unicast key: the luid and the address. */
  predicate V4KeyIs(key: seq<byte>, netif: Netif) {
    |key| == 16 && LuidIs(key, 0, netif) && WordAt(key, 8, netif.address) && ZeroAt(key, 12, 16)
  }

  /** An IPv6 unicast key: the luid and the sixteen bytes of the address. */
  predicate V6KeyIs(key: seq<byte>, netif: Netif, address: seq<byte>) {
    |key| == 24 && LuidIs(key, 0, netif) && key[8..24] == address
  }

  /** An IPv4 forward key: prefix, prefix length, the luid twice and the next hop. */
  predicate ForwardKeyIs(key: seq<byte>, netif: Netif, prefix: nat, prefixLength: nat, nextHop: nat) {
    && |key| == 48 && ZeroAt(key, 0, 4) && WordAt(key, 4, prefix) && key[8] as nat == prefixLength && ZeroAt(key, 9, 24)
    && LuidIs(key, 24, netif) && LuidIs(key, 32, netif) && WordAt(key, 40, nextHop) && ZeroAt(key, 44, 48)
  }

  lemma V4KeyOutcome(netif: Netif)
    requires Plausible(netif)
    ensures V4KeyIs(V4Key(netif), netif)
  {
    LuidOutcome(netif);
    LeWord(netif.address);
  }

  lemma V6KeyOutcome(netif: Netif, address: seq<byte>)
    requires Plausible(netif) && |address| == 16
    ensures V6KeyIs(V6Key(netif, address), netif, address)
  {
    LuidOutcome(netif);
  }

  lemma ForwardKeyOutcome(netif: Netif, prefix: nat, prefixLength: nat, nextHop: nat)
    requires Plausible(netif) && prefixLength <= 32 && prefix < 0x1_0000_0000 && nextHop < 0x1_0000_0000
    ensures ForwardKeyIs(ForwardKey(netif, prefix, prefixLength, nextHop), netif, prefix, prefixLength, nextHop)
  {
    LuidOutcome(netif);
    LeWord(prefix);
    LeWord(nextHop);
    LeFirst(prefixLength, 0, prefixLength, 1);
    var key, luid := ForwardKey(netif, prefix, prefixLength, nextHop), LuidBytes(netif);
    assert key[4..8] == Le(prefix, 4) && key[40..44] == Le(nextHop, 4);
    assert key[24..32] == luid && key[32..40] == luid;
    forall k | 0 <= k < 8 ensures key[24 + k] == luid[k] && key[32 + k] == luid[k] {
      assert key[24..32][k] == luid[k] && key[32..40][k] == luid[k];
    }
    forall k | 0 <= k < 4 ensures key[4 + k] == Le(prefix, 4)[k] && key[40 + k] == Le(nextHop, 4)[k] {
      assert key[4..8][k] == Le(prefix, 4)[k] && key[40..44][k] == Le(nextHop, 4)[k];
    }
  }

  /** The parts a row has besides its key. */
  predicate Holds(row: Row, p: Payload) { row.rw == p.rw && row.dynamic == p.dynamic && row.fixed == p.fixed }

  // ---------------------------------------------------------------- one row an interface

  function Addressed(): Netif -> bool { (n: Netif) => n.address != 0 }

  lemma {:induction false} AddressedRows(fill: Contents, netifs: seq<Netif>)
    requires forall i :: 0 <= i < |netifs| ==> Plausible(netifs[i])
    ensures var rows, owners := AllRows(fill, V4Unicast, netifs), Filter(Addressed(), netifs);
            |rows| == |owners|
            && forall i :: 0 <= i < |owners| ==>
                 V4KeyIs(rows[i].key, owners[i]) && Holds(rows[i], fill(V4Unicast, owners[i], 0))
  {
    if netifs != [] {
      AddressedRows(fill, netifs[..|netifs| - 1]);
      V4KeyOutcome(netifs[|netifs| - 1]);
    }
  }

  /** The IPv4 unicast table: one row for each interface with an address, in list order, up to eight, keyed by that
      interface and that address. */
  lemma V4UnicastOutcome(fill: Contents, netifs: seq<Netif>)
    requires forall i :: 0 <= i < |netifs| ==> Plausible(netifs[i])
    ensures var rows, owners := Snap(fill, V4Unicast, netifs), Filter((n: Netif) => n.address != 0, netifs);
            && |rows| == (if |owners| < 8 then |owners| else 8)
            && forall i :: 0 <= i < |rows| ==>
                 V4KeyIs(rows[i].key, owners[i]) && Holds(rows[i], fill(V4Unicast, owners[i], 0))
  {
    AddressedRows(fill, netifs);
    FilterSame((n: Netif) => n.address != 0, Addressed(), netifs);
  }

  lemma {:induction false} InterfaceRows(fill: Contents, netifs: seq<Netif>)
    requires forall i :: 0 <= i < |netifs| ==> Plausible(netifs[i])
    ensures var rows := AllRows(fill, Ifinfo, netifs);
            |rows| == |netifs|
            && forall i :: 0 <= i < |netifs| ==>
                 && |rows[i].key| == 8 && LuidIs(rows[i].key, 0, netifs[i])
                 && Holds(rows[i], fill(Ifinfo, netifs[i], 0))
  {
    if netifs != [] {
      InterfaceRows(fill, netifs[..|netifs| - 1]);
      LuidOutcome(netifs[|netifs| - 1]);
    }
  }

  /** The interface table: one row an interface, in list order, up to eight, keyed by its luid. */
  lemma IfinfoOutcome(fill: Contents, netifs: seq<Netif>)
    requires forall i :: 0 <= i < |netifs| ==> Plausible(netifs[i])
    ensures var rows := Snap(fill, Ifinfo, netifs);
            && |rows| == (if |netifs| < 8 then |netifs| else 8)
            && forall i :: 0 <= i < |rows| ==>
                 && |rows[i].key| == 8 && LuidIs(rows[i].key, 0, netifs[i])
                 && Holds(rows[i], fill(Ifinfo, netifs[i], 0))
  {
    InterfaceRows(fill, netifs);
  }

  // ---------------------------------------------------------------- IPv6 addresses

  /** An interface's valid IPv6 slots before `slots`. */
  function Valid6(netif: Netif, slots: nat): nat
    requires slots <= |netif.v6|
  {
    if slots == 0 then 0 else Valid6(netif, slots - 1) + if netif.v6[slots - 1].Some? then 1 else 0
  }

  /** Those of all interfaces. */
  function AllValid6(netifs: seq<Netif>): nat {
    if netifs == [] then 0
    else AllValid6(netifs[..|netifs| - 1]) + Valid6(netifs[|netifs| - 1], |netifs[|netifs| - 1].v6|)
  }

  /** The row at `at` is that of the interface's slot `s`. */
  predicate SlotRow(fill: Contents, rows: seq<Row>, at: nat, netif: Netif, s: nat) {
    && at < |rows| && s < |netif.v6| && netif.v6[s].Some?
    && V6KeyIs(rows[at].key, netif, netif.v6[s].value) && Holds(rows[at], fill(V6Unicast, netif, s))
  }

  lemma {:induction false} SlotRows(fill: Contents, netif: Netif, slots: nat, s: nat)
    requires Plausible(netif) && slots <= |netif.v6|
    ensures |V6Rows(fill, netif, slots)| == Valid6(netif, slots)
    ensures s < slots && netif.v6[s].Some? ==> SlotRow(fill, V6Rows(fill, netif, slots), Valid6(netif, s), netif, s)
    decreases slots
  {
    if slots > 0 {
      SlotRows(fill, netif, slots - 1, s);
      if s == slots - 1 && netif.v6[s].Some? {
        V6KeyOutcome(netif, netif.v6[s].value);
      }
    }
  }

  lemma SlotRowMoves(fill: Contents, before: seq<Row>, own: seq<Row>, at: nat, netif: Netif, s: nat)
    ensures SlotRow(fill, before, at, netif, s) ==> SlotRow(fill, before + own, at, netif, s)
    ensures SlotRow(fill, own, at, netif, s) ==> SlotRow(fill, before + own, |before| + at, netif, s)
  {
  }

  lemma {:induction false} AddressRows(fill: Contents, netifs: seq<Netif>, i: nat, s: nat)
    requires forall j :: 0 <= j < |netifs| ==> Plausible(netifs[j])
    requires i < |netifs| && s < |netifs[i].v6| && netifs[i].v6[s].Some?
    ensures SlotRow(fill, AllRows(fill, V6Unicast, netifs), AllValid6(netifs[..i]) + Valid6(netifs[i], s), netifs[i], s)
    decreases |netifs|
  {
    var front, last := netifs[..|netifs| - 1], netifs[|netifs| - 1];
    if i < |front| {
      assert front[..i] == netifs[..i] && front[i] == netifs[i];
      AddressRows(fill, front, i, s);
      SlotRowMoves(fill, AllRows(fill, V6Unicast, front), V6Rows(fill, last, |last.v6|),
                   AllValid6(netifs[..i]) + Valid6(netifs[i], s), netifs[i], s);
    } else {
      assert netifs[..i] == front;
      RowsCount6(fill, front);
      SlotRows(fill, last, |last.v6|, s);
      SlotRowMoves(fill, AllRows(fill, V6Unicast, front), V6Rows(fill, last, |last.v6|), Valid6(last, s), last, s);
    }
  }

  lemma {:induction false} RowsCount6(fill: Contents, netifs: seq<Netif>)
    requires forall j :: 0 <= j < |netifs| ==> Plausible(netifs[j])
    ensures |AllRows(fill, V6Unicast, netifs)| == AllValid6(netifs)
  {
    if netifs != [] {
      RowsCount6(fill, netifs[..|netifs| - 1]);
      SlotRows(fill, netifs[|netifs| - 1], |netifs[|netifs| - 1].v6|, 0);
    }
  }

  lemma V6UnicastCount(fill: Contents, netifs: seq<Netif>)
    requires forall j :: 0 <= j < |netifs| ==> Plausible(netifs[j])
    ensures |Snap(fill, V6Unicast, netifs)| == if AllValid6(netifs) < 8 then AllValid6(netifs) else 8
  {
    RowsCount6(fill, netifs);
  }

  /** The IPv6 unicast table: one row for each valid address slot, by interface and then by slot, up to eight, keyed
      by the interface and the address; the row of a slot stands behind those of all valid slots before it. */
  lemma V6UnicastOutcome(fill: Contents, netifs: seq<Netif>, i: nat, s: nat)
    requires forall j :: 0 <= j < |netifs| ==> Plausible(netifs[j])
    requires i < |netifs| && s < |netifs[i].v6| && netifs[i].v6[s].Some?
    ensures var rows, at := Snap(fill, V6Unicast, netifs), AllValid6(netifs[..i]) + Valid6(netifs[i], s);
            at < 8 ==> SlotRow(fill, rows, at, netifs[i], s)
  {
    RowsCount6(fill, netifs);
    AddressRows(fill, netifs, i, s);
  }

  // ---------------------------------------------------------------- routes

  /** How many routes an interface has: its own net, and a default one if it is not the loopback and has a gateway. */
  function Routes(netif: Netif): nat {
    if netif.address == 0 then 0 else if netif.loopback || netif.gateway == 0 then 1 else 2
  }

  /** The rows written when the builder comes to the i-th interface: it stops once three more might not fit. */
  function RoutesBefore(netifs: seq<Netif>): nat {
    if netifs == [] then 0
    else
      var before := RoutesBefore(netifs[..|netifs| - 1]);
      if before > 5 then before else before + Routes(netifs[|netifs| - 1])
  }

  lemma {:induction false} RouteCount(fill: Contents, netifs: seq<Netif>)
    ensures |ForwardRows(fill, netifs)| == RoutesBefore(netifs)
  {
    if netifs != [] {
      RouteCount(fill, netifs[..|netifs| - 1]);
    }
  }

  /** The routes of the i-th interface, if the builder gets to it: the row of its net with no next hop, and behind it
      the default route through its gateway, exactly if it is not the loopback and has one. */
  lemma {:induction false} V4ForwardOutcome(fill: Contents, netifs: seq<Netif>, i: nat)
    requires (forall j :: 0 <= j < |netifs| ==> Plausible(netifs[j])) && i < |netifs|
    ensures |Snap(fill, V4Forward, netifs)| == RoutesBefore(netifs)
    ensures var rows, at, n := Snap(fill, V4Forward, netifs), RoutesBefore(netifs[..i]), netifs[i];
            at <= 5 && n.address != 0 ==>
              && at + Routes(n) <= |rows|
              && ForwardKeyIs(rows[at].key, n, n.prefix, n.prefixLength, 0) && Holds(rows[at], fill(V4Forward, n, 0))
              && (!n.loopback && n.gateway != 0 ==>
                   && ForwardKeyIs(rows[at + 1].key, n, 0, 0, n.gateway)
                   && Holds(rows[at + 1], fill(V4Forward, n, 1)))
    decreases |netifs|
  {
    var front, last := netifs[..|netifs| - 1], netifs[|netifs| - 1];
    RouteCount(fill, netifs);
    RouteCount(fill, front);
    if i < |front| {
      assert front[..i] == netifs[..i];
      V4ForwardOutcome(fill, front, i);
    } else {
      assert netifs[..i] == front;
      ForwardKeyOutcome(last, last.prefix, last.prefixLength, 0);
      ForwardKeyOutcome(last, 0, 0, last.gateway);
    }
  }

  /** The IPv6 forward table is empty. */
  lemma {:induction false} V6ForwardOutcome(fill: Contents, netifs: seq<Netif>)
    ensures Snap(fill, V6Forward, netifs) == []
  {
    NoRows(fill, netifs);
  }

  lemma {:induction false} NoRows(fill: Contents, netifs: seq<Netif>)
    ensures AllRows(fill, V6Forward, netifs) == []
  {
    if netifs != [] {
      NoRows(fill, netifs[..|netifs| - 1]);
    }
  }
}
