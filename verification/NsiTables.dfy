/**
 The rows behind \Device\Nsi (drivers/nsi.c:64-451; abi/nsi.h:22-350): one snapshot of lwIP's interfaces, built into
 fixed-size key, rw, dynamic and static records. What the last three hold is a parameter; the keys are built as the
 driver builds them.
 */
module NsiTables {
  import opened NtKernel

  const NSIP_MAX_ROWS := 8
  const IF_TYPE_ETHERNET_CSMACD := 6
  const IF_TYPE_SOFTWARE_LOOPBACK := 24

  datatype Table = Ifinfo | V4Unicast | V6Unicast | V4Forward | V6Forward

  function KeySize(table: Table): nat {
    match table
    case Ifinfo => 8
    case V4Unicast => 16
    case V6Unicast => 24
    case V4Forward => 48
    case V6Forward => 72
  }

  function RwSize(table: Table): nat {
    match table
    case Ifinfo => 1092
    case V4Unicast => 28
    case V6Unicast => 28
    case _ => 32
  }

  function DynamicSize(table: Table): nat {
    match table
    case Ifinfo => 216
    case V4Unicast => 8
    case V6Unicast => 8
    case V4Forward => 20
    case V6Forward => 32
  }

  function StaticSize(table: Table): nat { if table == Ifinfo then 600 else 8 }

  datatype Module = Ndis | Ipv4 | Ipv6 | OtherModule

  /** NsipFindTable. */
  function FindTable(mod: Module, number: nat): Option<Table> {
    if mod == Ndis && number == 0 then Some(Ifinfo)
    else if mod == Ipv4 && number == 10 then Some(V4Unicast)
    else if mod == Ipv6 && number == 10 then Some(V6Unicast)
    else if mod == Ipv4 && number == 16 then Some(V4Forward)
    else if mod == Ipv6 && number == 16 then Some(V6Forward)
    else None
  }

  /** One lwIP netif: IPv4 words are in network order, `prefix` is the address under its netmask and `prefixLength` the
      netmask's leading ones, and each IPv6 slot is a 16-byte address if it is valid. */
  datatype Netif = Netif(
    index: nat, loopback: bool, address: nat, prefix: nat, prefixLength: nat, gateway: nat,
    v6: seq<Option<seq<byte>>>)

  datatype Row = Row(key: seq<byte>, rw: seq<byte>, dynamic: seq<byte>, fixed: seq<byte>)

  /** Everything a row holds besides its key. */
  datatype Payload = Payload(rw: seq<byte>, dynamic: seq<byte>, fixed: seq<byte>)

  type Contents = (Table, Netif, nat) -> Payload

  ghost predicate Sized(fill: Contents) {
    forall table, netif, part ::
      var p := fill(table, netif, part);
      |p.rw| == RwSize(table) && |p.dynamic| == DynamicSize(table) && |p.fixed| == StaticSize(table)
  }

  // ---------------------------------------------------------------- words in memory

  function Pow256(k: nat): nat { if k == 0 then 1 else 256 * Pow256(k - 1) }

  /** The k-byte little-endian image of a word. */
  function Le(n: nat, k: nat): (s: seq<byte>)
    ensures |s| == k
  {
    if k == 0 then [] else [(n % 256) as byte] + Le(n / 256, k - 1)
  }

  lemma {:induction false} LeInjective(m: nat, n: nat, k: nat)
    requires m < Pow256(k) && n < Pow256(k) && Le(m, k) == Le(n, k)
    ensures m == n
  {
    if k > 0 {
      assert Le(m, k)[0] == Le(n, k)[0] && Le(m, k)[1..] == Le(n, k)[1..];
      assert Le(m, k)[1..] == Le(m / 256, k - 1) && Le(n, k)[1..] == Le(n / 256, k - 1);
      LeInjective(m / 256, n / 256, k - 1);
    }
  }

  function Zeros(n: nat): seq<byte> { seq(n, _ => 0) }

  // ---------------------------------------------------------------- keys

  function IfType(netif: Netif): nat {
    if netif.loopback then IF_TYPE_SOFTWARE_LOOPBACK else IF_TYPE_ETHERNET_CSMACD
  }

  /** A luid packs the interface type above a 24-bit index above 24 reserved bits. */
  function Luid(netif: Netif): nat { IfType(netif) * 0x1_0000_0000_0000 + netif.index % 0x100_0000 * 0x100_0000 }

  function LuidBytes(netif: Netif): seq<byte> { Le(Luid(netif), 8) }

  function V4Key(netif: Netif): seq<byte> { LuidBytes(netif) + Le(netif.address, 4) + Zeros(4) }

  function V6Key(netif: Netif, address: seq<byte>): seq<byte> { LuidBytes(netif) + address }

  function ForwardKey(netif: Netif, prefix: nat, prefixLength: nat, nextHop: nat): seq<byte> {
    Zeros(4) + Le(prefix, 4) + Le(prefixLength, 1) + Zeros(3) + Zeros(12)
    + LuidBytes(netif) + LuidBytes(netif) + Le(nextHop, 4) + Zeros(4)
  }

  /** Where a key keeps its luid. */
  function LuidAt(table: Table): nat {
    match table
    case V4Forward => 24
    case V6Forward => 40
    case _ => 0
  }

  /** lwIP's interfaces: small distinct indices, 32-bit words, 16-byte addresses. */
  ghost predicate Plausible(netif: Netif) {
    && netif.index < 0x100_0000 && netif.address < 0x1_0000_0000 && netif.prefix < 0x1_0000_0000
    && netif.gateway < 0x1_0000_0000 && netif.prefixLength <= 32
    && (forall s :: 0 <= s < |netif.v6| && netif.v6[s].Some? ==> |netif.v6[s].value| == 16)
  }

  ghost predicate Snapshot(netifs: seq<Netif>) {
    && (forall i :: 0 <= i < |netifs| ==> Plausible(netifs[i]))
    && (forall i, j :: 0 <= i < j < |netifs| ==> netifs[i].index != netifs[j].index)
  }

  /** No interface carries one IPv6 address twice. */
  ghost predicate DistinctV6(netif: Netif) {
    forall s, t :: 0 <= s < t < |netif.v6| && netif.v6[s].Some? ==> netif.v6[t] != netif.v6[s]
  }

  // ---------------------------------------------------------------- the rows of one interface

  function MakeRow(fill: Contents, table: Table, netif: Netif, part: nat, key: seq<byte>): Row {
    var p := fill(table, netif, part);
    Row(key, p.rw, p.dynamic, p.fixed)
  }

  function V6Rows(fill: Contents, netif: Netif, slots: nat): seq<Row>
    requires slots <= |netif.v6|
  {
    if slots == 0 then []
    else
      V6Rows(fill, netif, slots - 1)
      + if netif.v6[slots - 1].Some?
        then [MakeRow(fill, V6Unicast, netif, slots - 1, V6Key(netif, netif.v6[slots - 1].value))] else []
  }

  function NetifRows(fill: Contents, table: Table, netif: Netif): seq<Row> {
    match table
    case Ifinfo => [MakeRow(fill, table, netif, 0, LuidBytes(netif))]
    case V4Unicast => if netif.address == 0 then [] else [MakeRow(fill, table, netif, 0, V4Key(netif))]
    case V6Unicast => V6Rows(fill, netif, |netif.v6|)
    case V4Forward =>
      if netif.address == 0 then []
      else
        [MakeRow(fill, table, netif, 0, ForwardKey(netif, netif.prefix, netif.prefixLength, 0))]
        + if !netif.loopback && netif.gateway != 0
          then [MakeRow(fill, table, netif, 1, ForwardKey(netif, 0, 0, netif.gateway))] else []
    case V6Forward => []
  }

  // ---------------------------------------------------------------- the snapshot

  function AllRows(fill: Contents, table: Table, netifs: seq<Netif>): seq<Row> {
    if netifs == [] then []
    else AllRows(fill, table, netifs[..|netifs| - 1]) + NetifRows(fill, table, netifs[|netifs| - 1])
  }

  /** The v4 forward builder stops at an interface once three more rows might not fit. */
  function ForwardRows(fill: Contents, netifs: seq<Netif>): seq<Row> {
    if netifs == [] then []
    else
      var before := ForwardRows(fill, netifs[..|netifs| - 1]);
      if |before| + 3 > NSIP_MAX_ROWS then before
      else before + NetifRows(fill, V4Forward, netifs[|netifs| - 1])
  }

  function First(rows: seq<Row>): seq<Row> { rows[..Min(|rows|, NSIP_MAX_ROWS)] }

  /** What a table's builder leaves in the scratch arrays. */
  function Snap(fill: Contents, table: Table, netifs: seq<Netif>): seq<Row> {
    if table == V4Forward then ForwardRows(fill, netifs) else First(AllRows(fill, table, netifs))
  }

  /** NsipBuildIfinfo and NsipBuildV4Unicast: at most one row an interface. */
  method BuildOnePerNetif(fill: Contents, table: Table, netifs: seq<Netif>) returns (rows: seq<Row>)
    requires table == Ifinfo || table == V4Unicast
    ensures rows == Snap(fill, table, netifs)
  {
    rows := [];
    var i := 0;
    while i < |netifs|
      invariant 0 <= i <= |netifs| && rows == First(AllRows(fill, table, netifs[..i]))
    {
      assert netifs[..i + 1][..i] == netifs[..i];
      if |rows| == NSIP_MAX_ROWS {
        FirstFull(fill, table, netifs, i);
        return;
      }
      var netif := netifs[i];
      if table == Ifinfo {
        rows := rows + [MakeRow(fill, Ifinfo, netif, 0, LuidBytes(netif))];
      } else if netif.address != 0 {
        rows := rows + [MakeRow(fill, V4Unicast, netif, 0, V4Key(netif))];
      }
      i := i + 1;
    }
    assert netifs[..|netifs|] == netifs;
  }

  lemma {:induction false} FirstFull(fill: Contents, table: Table, netifs: seq<Netif>, i: nat)
    requires i <= |netifs| && |AllRows(fill, table, netifs[..i])| >= NSIP_MAX_ROWS
    ensures First(AllRows(fill, table, netifs)) == First(AllRows(fill, table, netifs[..i]))
    decreases |netifs|
  {
    if i < |netifs| {
      var front := netifs[..|netifs| - 1];
      assert front[..i] == netifs[..i];
      FirstFull(fill, table, front, i);
      LongEnough(fill, table, front, i);
    } else {
      assert netifs[..i] == netifs;
    }
  }

  lemma {:induction false} LongEnough(fill: Contents, table: Table, netifs: seq<Netif>, i: nat)
    requires i <= |netifs|
    ensures |AllRows(fill, table, netifs[..i])| <= |AllRows(fill, table, netifs)|
    decreases |netifs|
  {
    if i < |netifs| {
      var front := netifs[..|netifs| - 1];
      assert front[..i] == netifs[..i];
      LongEnough(fill, table, front, i);
    } else {
      assert netifs[..i] == netifs;
    }
  }

  /** One interface's pass of NsipBuildV6Unicast. */
  method AppendV6(fill: Contents, netif: Netif, rows: seq<Row>, ghost before: seq<Row>) returns (more: seq<Row>)
    requires rows == First(before)
    ensures more == First(before + V6Rows(fill, netif, |netif.v6|))
  {
    more := rows;
    var slot := 0;
    while slot < |netif.v6|
      invariant 0 <= slot <= |netif.v6| && more == First(before + V6Rows(fill, netif, slot))
    {
      if |more| == NSIP_MAX_ROWS {
        LongerV6(fill, netif, slot);
        return;
      }
      if netif.v6[slot].Some? {
        more := more + [MakeRow(fill, V6Unicast, netif, slot, V6Key(netif, netif.v6[slot].value))];
      }
      slot := slot + 1;
    }
  }

  /** NsipBuildV6Unicast. */
  method BuildV6Unicast(fill: Contents, netifs: seq<Netif>) returns (rows: seq<Row>)
    ensures rows == Snap(fill, V6Unicast, netifs)
  {
    rows := [];
    var i := 0;
    while i < |netifs|
      invariant 0 <= i <= |netifs| && rows == First(AllRows(fill, V6Unicast, netifs[..i]))
    {
      assert netifs[..i + 1][..i] == netifs[..i];
      rows := AppendV6(fill, netifs[i], rows, AllRows(fill, V6Unicast, netifs[..i]));
      i := i + 1;
    }
    assert netifs[..|netifs|] == netifs;
  }

  lemma {:induction false} LongerV6(fill: Contents, netif: Netif, slot: nat)
    requires slot <= |netif.v6|
    ensures V6Rows(fill, netif, slot) <= V6Rows(fill, netif, |netif.v6|)
    decreases |netif.v6| - slot
  {
    if slot < |netif.v6| {
      LongerV6(fill, netif, slot + 1);
    }
  }

  /** NsipBuildV4Forward. */
  method BuildV4Forward(fill: Contents, netifs: seq<Netif>) returns (rows: seq<Row>)
    ensures rows == Snap(fill, V4Forward, netifs) && |rows| <= NSIP_MAX_ROWS
  {
    rows := [];
    var i := 0;
    while i < |netifs|
      invariant 0 <= i <= |netifs| && rows == ForwardRows(fill, netifs[..i]) && |rows| <= NSIP_MAX_ROWS
    {
      assert netifs[..i + 1][..i] == netifs[..i];
      if |rows| + 3 > NSIP_MAX_ROWS {
        ForwardFull(fill, netifs, i);
        return;
      }
      var netif := netifs[i];
      if netif.address != 0 {
        rows := rows + [MakeRow(fill, V4Forward, netif, 0, ForwardKey(netif, netif.prefix, netif.prefixLength, 0))];
        if !netif.loopback && netif.gateway != 0 {
          rows := rows + [MakeRow(fill, V4Forward, netif, 1, ForwardKey(netif, 0, 0, netif.gateway))];
        }
      }
      i := i + 1;
    }
    assert netifs[..|netifs|] == netifs;
  }

  lemma {:induction false} ForwardFull(fill: Contents, netifs: seq<Netif>, i: nat)
    requires i <= |netifs| && |ForwardRows(fill, netifs[..i])| + 3 > NSIP_MAX_ROWS
    ensures ForwardRows(fill, netifs) == ForwardRows(fill, netifs[..i])
    decreases |netifs|
  {
    if i < |netifs| {
      assert netifs[..|netifs| - 1][..i] == netifs[..i];
      ForwardFull(fill, netifs[..|netifs| - 1], i);
    } else {
      assert netifs[..i] == netifs;
    }
  }

  // ---------------------------------------------------------------- keys are unique

  predicate UniqueKeys(rows: seq<Row>) {
    forall i, j :: 0 <= i < j < |rows| ==> rows[i].key != rows[j].key
  }

  function Tag(table: Table, key: seq<byte>): seq<byte>
    requires |key| == KeySize(table)
  {
    key[LuidAt(table)..LuidAt(table) + 8]
  }

  /** Every row has the table's sizes, and its key names one of these interfaces. */
  ghost predicate Named(table: Table, rows: seq<Row>, netifs: seq<Netif>) {
    forall row :: row in rows ==>
      && |row.key| == KeySize(table) && |row.rw| == RwSize(table)
      && |row.dynamic| == DynamicSize(table) && |row.fixed| == StaticSize(table)
      && exists netif :: netif in netifs && Tag(table, row.key) == LuidBytes(netif)
  }

  lemma LuidsDiffer(a: Netif, b: Netif)
    requires a.index < 0x100_0000 && b.index < 0x100_0000 && a.index != b.index
    ensures LuidBytes(a) != LuidBytes(b)
  {
    assert Pow256(8) == 0x1_0000_0000_0000_0000 by {
      assert Pow256(2) == 0x1_0000 && Pow256(4) == 0x1_0000_0000 && Pow256(6) == 0x1_0000_0000_0000;
    }
    if LuidBytes(a) == LuidBytes(b) {
      LeInjective(Luid(a), Luid(b), 8);
    }
  }

  lemma {:induction false} V6RowsNamed(fill: Contents, netif: Netif, slots: nat)
    requires Sized(fill) && Plausible(netif) && slots <= |netif.v6|
    ensures Named(V6Unicast, V6Rows(fill, netif, slots), [netif])
    ensures forall row :: row in V6Rows(fill, netif, slots) ==>
              exists s :: 0 <= s < slots && netif.v6[s].Some? && row.key == V6Key(netif, netif.v6[s].value)
    ensures DistinctV6(netif) ==> UniqueKeys(V6Rows(fill, netif, slots))
  {
    if slots > 0 {
      V6RowsNamed(fill, netif, slots - 1);
      var before, last := V6Rows(fill, netif, slots - 1), netif.v6[slots - 1];
      if last.Some? {
        var key := V6Key(netif, last.value);
        assert key[0..8] == LuidBytes(netif);
        assert netif in [netif];
        if DistinctV6(netif) {
          forall i | 0 <= i < |before| ensures before[i].key != key {
            assert before[i] in before;
            var s :| 0 <= s < slots - 1 && netif.v6[s].Some? && before[i].key == V6Key(netif, netif.v6[s].value);
            assert V6Key(netif, netif.v6[s].value)[8..] == netif.v6[s].value && key[8..] == last.value;
          }
        }
      }
    }
  }

  lemma ForwardKeyParts(netif: Netif, prefix: nat, prefixLength: nat, nextHop: nat)
    ensures var key := ForwardKey(netif, prefix, prefixLength, nextHop);
            |key| == 48 && key[24..32] == LuidBytes(netif) && key[40..44] == Le(nextHop, 4)
  {
  }

  lemma ForwardPairDiffers(netif: Netif)
    requires Plausible(netif) && netif.gateway != 0
    ensures ForwardKey(netif, netif.prefix, netif.prefixLength, 0) != ForwardKey(netif, 0, 0, netif.gateway)
  {
    ForwardKeyParts(netif, netif.prefix, netif.prefixLength, 0);
    ForwardKeyParts(netif, 0, 0, netif.gateway);
    assert Pow256(4) == 0x1_0000_0000 by { assert Pow256(2) == 0x1_0000; }
    if Le(0, 4) == Le(netif.gateway, 4) {
      LeInjective(0, netif.gateway, 4);
    }
  }

  lemma NetifRowsNamed(fill: Contents, table: Table, netif: Netif)
    requires Sized(fill) && Plausible(netif) && (table == V6Unicast ==> DistinctV6(netif))
    ensures Named(table, NetifRows(fill, table, netif), [netif]) && UniqueKeys(NetifRows(fill, table, netif))
  {
    assert netif in [netif];
    match table {
      case Ifinfo =>
      case V4Unicast => assert V4Key(netif)[0..8] == LuidBytes(netif);
      case V6Unicast => V6RowsNamed(fill, netif, |netif.v6|);
      case V4Forward =>
        ForwardKeyParts(netif, netif.prefix, netif.prefixLength, 0);
        ForwardKeyParts(netif, 0, 0, netif.gateway);
        if netif.gateway != 0 {
          ForwardPairDiffers(netif);
        }
      case V6Forward =>
    }
  }

  /** Rows of further interfaces keep the keys apart. */
  lemma AppendUnique(table: Table, rows: seq<Row>, netifs: seq<Netif>, more: seq<Row>, netif: Netif)
    requires Named(table, rows, netifs) && UniqueKeys(rows) && Named(table, more, [netif]) && UniqueKeys(more)
    requires Snapshot(netifs + [netif])
    ensures Named(table, rows + more, netifs + [netif]) && UniqueKeys(rows + more)
  {
    var all := netifs + [netif];
    forall row | row in rows + more
      ensures |row.key| == KeySize(table) && exists n :: n in all && Tag(table, row.key) == LuidBytes(n)
    {
      if row in rows {
        var n :| n in netifs && Tag(table, row.key) == LuidBytes(n);
        assert n in all;
      } else {
        assert row in more && netif in all;
      }
    }
    forall i, j | 0 <= i < |rows| && 0 <= j < |more| ensures rows[i].key != more[j].key {
      assert rows[i] in rows && more[j] in more;
      var n :| n in netifs && Tag(table, rows[i].key) == LuidBytes(n);
      var k :| 0 <= k < |netifs| && netifs[k] == n;
      assert all[k] == n && all[|netifs|] == netif;
      LuidsDiffer(n, netif);
    }
  }

  ghost predicate V6Fine(table: Table, netifs: seq<Netif>) {
    table == V6Unicast ==> forall i :: 0 <= i < |netifs| ==> DistinctV6(netifs[i])
  }

  lemma {:induction false} AllRowsNamed(fill: Contents, table: Table, netifs: seq<Netif>)
    requires Sized(fill) && Snapshot(netifs) && V6Fine(table, netifs)
    ensures Named(table, AllRows(fill, table, netifs), netifs) && UniqueKeys(AllRows(fill, table, netifs))
  {
    if netifs != [] {
      var front, last := netifs[..|netifs| - 1], netifs[|netifs| - 1];
      AllRowsNamed(fill, table, front);
      NetifRowsNamed(fill, table, last);
      assert netifs == front + [last];
      AppendUnique(table, AllRows(fill, table, front), front, NetifRows(fill, table, last), last);
    }
  }

  lemma {:induction false} ForwardRowsNamed(fill: Contents, netifs: seq<Netif>)
    requires Sized(fill) && Snapshot(netifs)
    ensures Named(V4Forward, ForwardRows(fill, netifs), netifs) && UniqueKeys(ForwardRows(fill, netifs))
    ensures |ForwardRows(fill, netifs)| <= NSIP_MAX_ROWS - 1
  {
    if netifs != [] {
      var front, last := netifs[..|netifs| - 1], netifs[|netifs| - 1];
      ForwardRowsNamed(fill, front);
      NetifRowsNamed(fill, V4Forward, last);
      assert netifs == front + [last];
      AppendUnique(V4Forward, ForwardRows(fill, front), front, NetifRows(fill, V4Forward, last), last);
      assert Named(V4Forward, ForwardRows(fill, front), netifs) by {
        forall row | row in ForwardRows(fill, front)
          ensures exists n :: n in netifs && Tag(V4Forward, row.key) == LuidBytes(n)
        {
          var n :| n in front && Tag(V4Forward, row.key) == LuidBytes(n);
          assert n in netifs;
        }
      }
    }
  }

  /** Rows of the table's sizes, at most eight of them, with pairwise different keys: for the v6 unicast table, as long
      as no interface carries one address twice. */
  lemma SnapIsATable(fill: Contents, table: Table, netifs: seq<Netif>)
    requires Sized(fill) && Snapshot(netifs) && V6Fine(table, netifs)
    ensures Named(table, Snap(fill, table, netifs), netifs)
    ensures UniqueKeys(Snap(fill, table, netifs)) && |Snap(fill, table, netifs)| <= NSIP_MAX_ROWS
  {
    if table == V4Forward {
      ForwardRowsNamed(fill, netifs);
    } else {
      AllRowsNamed(fill, table, netifs);
      var rows := AllRows(fill, table, netifs);
      assert forall row :: row in First(rows) ==> row in rows;
    }
  }
}
