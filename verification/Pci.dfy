/**
 The PCI capability walk and the MMIO window (drivers/pci.c:7-38, 134-156, 175-193; capability lists are section 6.7
 of the PCI Local Bus Specification 3.0). Configuration space is 256 bytes; a port read returns the dword around an
 offset.
 */
module Pci {
  import opened NtKernel

  const PCI_CONFIG_STATUS := 0x06
  const PCI_CONFIG_CAP_POINTER := 0x34
  const PCI_STATUS_CAPABILITIES_LIST := 0x0010
  const LINK_LIMIT := 64

  type Config = c: seq<byte> | |c| == 256 witness seq(256, _ => 0)

  /** A port read of the dword at `at`. */
  function Dword(c: Config, at: nat): nat
    requires at < 253
  {
    c[at] as nat + 0x100 * c[at + 1] as nat + 0x1_0000 * c[at + 2] as nat + 0x100_0000 * c[at + 3] as nat
  }

  function Read8(c: Config, offset: nat): nat
    requires offset < 256
  {
    c[offset] as nat
  }

  function Read16(c: Config, offset: nat): nat
    requires offset < 255
  {
    Read8(c, offset) + 0x100 * Read8(c, offset + 1)
  }

  /** KiPciReadConfig16 and KiPciReadConfig8 shift the dword around the offset `at + low` and cut it: they read the
      bytes there. */
  lemma NarrowReads(c: Config, at: nat, low: nat)
    requires at < 253 && low < 4
    ensures low == 0 ==> Dword(c, at) % 0x1_0000 == Read16(c, at + low)
    ensures low == 2 ==> Dword(c, at) / 0x1_0000 % 0x1_0000 == Read16(c, at + low)
    ensures Dword(c, at) / Shift(low) % 0x100 == Read8(c, at + low)
  {
    Bytes(c[at] as nat, c[at + 1] as nat, c[at + 2] as nat, c[at + 3] as nat);
  }

  /** 256 to the power of `low`. */
  function Shift(low: nat): (d: nat)
    ensures d > 0
  {
    if low == 0 then 1 else if low == 1 then 0x100 else if low == 2 then 0x1_0000 else 0x100_0000
  }

  lemma Cut(m: nat, high: nat, low: nat)
    requires (m == 0x100 || m == 0x1_0000) && low < m
    ensures (m * high + low) / m == high && (m * high + low) % m == low
  {
  }

  lemma Bytes(b0: nat, b1: nat, b2: nat, b3: nat)
    requires b0 < 256 && b1 < 256 && b2 < 256 && b3 < 256
    ensures var d := b0 + 0x100 * b1 + 0x1_0000 * b2 + 0x100_0000 * b3;
            && d % 0x100 == b0 && d / 0x100 % 0x100 == b1 && d / 0x1_0000 % 0x100 == b2 && d / 0x100_0000 % 0x100 == b3
            && d % 0x1_0000 == b0 + 0x100 * b1 && d / 0x1_0000 % 0x1_0000 == b2 + 0x100 * b3
  {
    var d := b0 + 0x100 * b1 + 0x1_0000 * b2 + 0x100_0000 * b3;
    Cut(0x100, b1 + 0x100 * b2 + 0x1_0000 * b3, b0);
    Cut(0x100, b2 + 0x100 * b3, b1);
    Cut(0x100, b3, b2);
    Cut(0x1_0000, b2 + 0x100 * b3, b0 + 0x100 * b1);
    assert d / 0x100_0000 == b3 by { assert d - 0x100_0000 * b3 < 0x100_0000; }
  }

  /** The low two bits of a link are reserved. */
  function Align(n: nat): nat { n - n % 4 }

  predicate HasList(c: Config) { Read16(c, PCI_CONFIG_STATUS) / PCI_STATUS_CAPABILITIES_LIST % 2 == 1 }

  /** Where the walk starts; `previous + 1` is an 8-bit sum. */
  function StartOf(c: Config, previous: nat): (start: nat)
    requires previous < 256
    ensures start < 256 && start % 4 == 0
  {
    if previous == 0 then Align(Read8(c, PCI_CONFIG_CAP_POINTER)) else Align(Read8(c, (previous + 1) % 256))
  }

  function Follow(c: Config, offset: nat): (next: nat)
    requires offset < 256
    ensures next < 256 && next % 4 == 0
  {
    Align(Read8(c, (offset + 1) % 256))
  }

  /** The k-th node of the list from `start`; 0 ends it. */
  function Node(c: Config, start: nat, k: nat): (o: nat)
    requires start < 256 && start % 4 == 0
    ensures o < 256 && o % 4 == 0
  {
    if k == 0 then start
    else
      var p := Node(c, start, k - 1);
      if p == 0 then 0 else Follow(c, p)
  }

  predicate Matches(c: Config, id: nat, o: nat)
    requires o < 256
  {
    o != 0 && Read8(c, o) == id
  }

  // ---------------------------------------------------------------- pigeonhole

  lemma {:induction false} RangeSize(n: nat) returns (range: set<nat>)
    ensures |range| == n && forall x :: x in range <==> 1 <= x <= n
  {
    range := {};
    if n > 0 {
      range := RangeSize(n - 1);
      range := range + {n};
    }
  }

  lemma {:induction false} DistinctCount(s: seq<nat>, range: set<nat>)
    requires (forall i, j :: 0 <= i < j < |s| ==> s[i] != s[j]) && forall x :: x in s ==> x in range
    ensures |s| <= |range|
  {
    if s != [] {
      var front, last := s[..|s| - 1], s[|s| - 1];
      assert s == front + [last];
      DistinctCount(front, range - {last});
    }
  }

  /** More entries than values: two of them are equal. */
  lemma Pigeonhole(s: seq<nat>, n: nat) returns (i: nat, j: nat)
    requires |s| > n && forall x :: x in s ==> 1 <= x <= n
    ensures i < j < |s| && s[i] == s[j]
  {
    var range := RangeSize(n);
    if forall i, j :: 0 <= i < j < |s| ==> s[i] != s[j] {
      DistinctCount(s, range);
      assert false;
    } else {
      i, j :| 0 <= i < j < |s| && s[i] == s[j];
    }
  }

  lemma {:induction false} EndedStays(c: Config, start: nat, m: nat, k: nat)
    requires start < 256 && start % 4 == 0 && m <= k && Node(c, start, m) == 0
    ensures Node(c, start, k) == 0
    decreases k
  {
    if m < k {
      EndedStays(c, start, m, k - 1);
    }
  }

  /** Once a node repeats, every later node is one of the earlier ones. */
  lemma {:induction false} RepeatFolds(c: Config, start: nat, i: nat, j: nat, k: nat)
    requires start < 256 && start % 4 == 0 && i < j && Node(c, start, i) == Node(c, start, j) && k >= j
    ensures Node(c, start, k) == Node(c, start, k - (j - i))
    decreases k
  {
    if k > j {
      RepeatFolds(c, start, i, j, k - 1);
    }
  }

  lemma {:induction false} FoldsBelow(c: Config, start: nat, i: nat, j: nat, k: nat) returns (m: nat)
    requires start < 256 && start % 4 == 0 && i < j && Node(c, start, i) == Node(c, start, j)
    ensures m < j && Node(c, start, m) == Node(c, start, k)
    decreases k
  {
    if k < j {
      m := k;
    } else {
      RepeatFolds(c, start, i, j, k);
      m := FoldsBelow(c, start, i, j, k - (j - i));
    }
  }

  /** A node is a multiple of four below 256, so there are 63 besides the end: the first 64 links show every reachable
      node, however the list loops. */
  lemma ReachedWithinLimit(c: Config, start: nat, k: nat) returns (m: nat)
    requires start < 256 && start % 4 == 0
    ensures m < LINK_LIMIT && Node(c, start, m) == Node(c, start, k)
  {
    if e :| 0 <= e < LINK_LIMIT && Node(c, start, e) == 0 {
      if k < LINK_LIMIT {
        m := k;
      } else {
        EndedStays(c, start, e, k);
        m := e;
      }
    } else {
      var quarters := seq(LINK_LIMIT, n requires 0 <= n < LINK_LIMIT => Node(c, start, n) / 4);
      assert forall n :: 0 <= n < LINK_LIMIT ==> quarters[n] == Node(c, start, n) / 4;
      var i, j := Pigeonhole(quarters, 63);
      m := FoldsBelow(c, start, i, j, k);
    }
  }

  // ---------------------------------------------------------------- the walk

  /** The 64-link loop of KiPciFindCapability from `offset`. */
  function Walk(c: Config, id: nat, offset: nat, links: nat): (found: nat)
    requires offset < 256 && offset % 4 == 0
    ensures found < 256
    decreases links, offset
  {
    if offset == 0 || links == 0 then 0
    else if Read8(c, offset) == id then offset
    else Walk(c, id, Follow(c, offset), links - 1)
  }

  function FindCapability(c: Config, id: nat, previous: nat): (found: nat)
    requires previous < 256
    ensures found < 256
  {
    if !HasList(c) then 0 else Walk(c, id, StartOf(c, previous), LINK_LIMIT)
  }

  method FindCapabilityLoop(c: Config, id: nat, previous: nat) returns (found: nat)
    requires previous < 256
    ensures found == FindCapability(c, id, previous)
  {
    if !HasList(c) {
      return 0;
    }
    ghost var start := StartOf(c, previous);
    var offset, link := StartOf(c, previous), 0;
    while offset != 0 && link < LINK_LIMIT
      invariant offset < 256 && offset % 4 == 0 && link <= LINK_LIMIT
      invariant Walk(c, id, start, LINK_LIMIT) == Walk(c, id, offset, LINK_LIMIT - link)
      decreases LINK_LIMIT - link
    {
      if Read8(c, offset) == id {
        return offset;
      }
      offset := Follow(c, offset);
      link := link + 1;
    }
    return 0;
  }

  /** `found` is the first node with the id. */
  ghost predicate FirstMatch(c: Config, id: nat, start: nat, k: nat, found: nat)
    requires start < 256 && start % 4 == 0
  {
    && Node(c, start, k) == found && Matches(c, id, found)
    && forall j :: 0 <= j < k ==> Node(c, start, j) != 0 && !Matches(c, id, Node(c, start, j))
  }

  ghost predicate NoMatch(c: Config, id: nat, start: nat)
    requires start < 256 && start % 4 == 0
  {
    forall k: nat :: !Matches(c, id, Node(c, start, k))
  }

  lemma {:induction false} NodeShift(c: Config, start: nat, k: nat)
    requires start < 256 && start % 4 == 0 && start != 0
    ensures Node(c, Follow(c, start), k) == Node(c, start, k + 1)
  {
    if k > 0 {
      NodeShift(c, start, k - 1);
    } else {
      assert Node(c, start, 0) == start;
    }
  }

  lemma {:induction false} WalkStops(c: Config, id: nat, offset: nat, links: nat) returns (k: nat)
    requires offset < 256 && offset % 4 == 0
    ensures Walk(c, id, offset, links) != 0 ==> k < links && FirstMatch(c, id, offset, k, Walk(c, id, offset, links))
    ensures Walk(c, id, offset, links) == 0 ==> forall j :: 0 <= j < links ==> !Matches(c, id, Node(c, offset, j))
    decreases links
  {
    k := 0;
    if offset == 0 {
      forall j | 0 <= j < links ensures Node(c, offset, j) == 0 {
        EndedStays(c, offset, 0, j);
      }
    } else if links > 0 && Read8(c, offset) != id {
      var next := Follow(c, offset);
      var deeper := WalkStops(c, id, next, links - 1);
      forall j | 1 <= j <= links ensures Node(c, offset, j) == Node(c, next, j - 1) {
        NodeShift(c, offset, j - 1);
      }
      k := deeper + 1;
    }
  }

  /** For every configuration space, cyclic lists included: the walk returns the first reachable node with the id, and 0
      exactly when no reachable node has it. */
  lemma WalkIsComplete(c: Config, id: nat, start: nat)
    requires start < 256 && start % 4 == 0
    ensures Walk(c, id, start, LINK_LIMIT) == 0 <==> NoMatch(c, id, start)
    ensures Walk(c, id, start, LINK_LIMIT) != 0 ==>
              exists k: nat :: FirstMatch(c, id, start, k, Walk(c, id, start, LINK_LIMIT))
  {
    var found := Walk(c, id, start, LINK_LIMIT);
    var k := WalkStops(c, id, start, LINK_LIMIT);
    if found == 0 {
      forall n: nat ensures !Matches(c, id, Node(c, start, n)) {
        var m := ReachedWithinLimit(c, start, n);
      }
    } else {
      assert FirstMatch(c, id, start, k, found) && Matches(c, id, Node(c, start, k));
    }
  }

  /** The byte a search starts from: the capabilities pointer, or the link behind the previous answer. */
  function PointerAt(previous: nat): nat { if previous == 0 then 0x34 else (previous + 1) % 256 }

  /** The search itself, on the bytes: without bit 4 of the status word there is no list and the answer is 0;
      otherwise the list starts at the link at that place, low two bits cleared, and the answer is its first
      node with the id, or 0 exactly when no node has it. */
  lemma FindCapabilityOutcome(c: Config, id: nat, previous: nat)
    requires previous < 256
    ensures c[0x06] as nat / 16 % 2 == 0 ==> FindCapability(c, id, previous) == 0
    ensures c[0x06] as nat / 16 % 2 == 1 ==>
              var pointer := c[PointerAt(previous)] as nat;
              var start, found := pointer - pointer % 4, FindCapability(c, id, previous);
              && (found == 0 <==> NoMatch(c, id, start))
              && (found != 0 ==> exists k: nat :: FirstMatch(c, id, start, k, found))
  {
    StatusBit(c[0x06] as nat, c[0x07] as nat);
    WalkIsComplete(c, id, StartOf(c, previous));
  }

  lemma StatusBit(low: nat, high: nat)
    requires low < 256 && high < 256
    ensures (low + 0x100 * high) / 16 % 2 == low / 16 % 2
  {
    assert (low + 0x100 * high) / 16 == low / 16 + 16 * high;
  }

  /** The links of a list, on the bytes: each node's next byte with its low two bits cleared, and 0 ends it. */
  lemma NodesAreLinks(c: Config, start: nat, k: nat)
    requires start < 256 && start % 4 == 0
    ensures Node(c, start, 0) == start
    ensures Node(c, start, k) == 0 ==> Node(c, start, k + 1) == 0
    ensures Node(c, start, k) != 0 ==>
              var link := c[Node(c, start, k) + 1] as nat; Node(c, start, k + 1) == link - link % 4
  {
  }

  /** A list that ends, read from `offset`: its matching nodes in order. */
  function MatchesAlong(c: Config, id: nat, offset: nat, length: nat): seq<nat>
    requires offset < 256 && offset % 4 == 0
    decreases length
  {
    if offset == 0 || length == 0 then []
    else (if Read8(c, offset) == id then [offset] else []) + MatchesAlong(c, id, Follow(c, offset), length - 1)
  }

  /** What a driver sees that keeps asking from the last answer: at most `calls` answers. */
  function Resume(c: Config, id: nat, previous: nat, calls: nat): seq<nat>
    requires previous < 256
    decreases calls
  {
    var found := FindCapability(c, id, previous);
    if found == 0 || calls == 0 then [] else [found] + Resume(c, id, found, calls - 1)
  }

  /** The list's matches are `found` and then those of the `rest` nodes behind it. */
  ghost predicate GoesOn(c: Config, id: nat, offset: nat, length: nat, found: nat, rest: nat)
    requires offset < 256 && offset % 4 == 0 && found < 256
  {
    && Node(c, Follow(c, found), rest) == 0
    && MatchesAlong(c, id, offset, length) == [found] + MatchesAlong(c, id, Follow(c, found), rest)
  }

  lemma {:induction false} SkipToMatch(c: Config, id: nat, offset: nat, length: nat, links: nat) returns (rest: nat)
    requires offset < 256 && offset % 4 == 0 && Node(c, offset, length) == 0 && length <= links
    ensures Walk(c, id, offset, links) == 0 ==> MatchesAlong(c, id, offset, length) == []
    ensures Walk(c, id, offset, links) != 0 ==>
              rest < length && GoesOn(c, id, offset, length, Walk(c, id, offset, links), rest)
    decreases length
  {
    rest := 0;
    if offset != 0 && length > 0 {
      NodeShift(c, offset, length - 1);
      if Read8(c, offset) == id {
        rest := length - 1;
      } else {
        rest := SkipToMatch(c, id, Follow(c, offset), length - 1, links - 1);
      }
    }
  }

  /** Reading past the end adds nothing. */
  lemma {:induction false} MatchesPastEnd(c: Config, id: nat, offset: nat, end: nat, length: nat)
    requires offset < 256 && offset % 4 == 0 && Node(c, offset, end) == 0 && end <= length
    ensures MatchesAlong(c, id, offset, length) == MatchesAlong(c, id, offset, end)
    decreases length
  {
    if offset != 0 && end > 0 {
      NodeShift(c, offset, end - 1);
      MatchesPastEnd(c, id, Follow(c, offset), end - 1, length - 1);
    }
  }

  /** One answer takes the first match off the list, and the next question starts behind it. */
  lemma OneAnswer(c: Config, id: nat, previous: nat, length: nat) returns (rest: nat)
    requires HasList(c) && previous < 256 && length <= LINK_LIMIT && Node(c, StartOf(c, previous), length) == 0
    ensures FindCapability(c, id, previous) == 0 ==> MatchesAlong(c, id, StartOf(c, previous), length) == []
    ensures var found := FindCapability(c, id, previous);
            found != 0 ==> rest < length && GoesOn(c, id, StartOf(c, previous), length, found, rest)
  {
    var start, found := StartOf(c, previous), FindCapability(c, id, previous);
    rest := SkipToMatch(c, id, start, length, LINK_LIMIT);
  }

  lemma {:induction false} ResumeShort(c: Config, id: nat, previous: nat, length: nat, calls: nat)
    requires HasList(c) && previous < 256 && length <= LINK_LIMIT && Node(c, StartOf(c, previous), length) == 0
    requires |MatchesAlong(c, id, StartOf(c, previous), length)| <= calls
    ensures Resume(c, id, previous, calls) == MatchesAlong(c, id, StartOf(c, previous), length)
    decreases calls
  {
    var rest := OneAnswer(c, id, previous, length);
    var found := FindCapability(c, id, previous);
    if found != 0 {
      ResumeShort(c, id, found, rest, calls - 1);
    }
  }

  /** A node that came twice comes again, however far one looks. */
  lemma {:induction false} ComesAgain(c: Config, start: nat, i: nat, j: nat, k: nat) returns (m: nat)
    requires start < 256 && start % 4 == 0 && i < j && Node(c, start, i) == Node(c, start, j)
    ensures m >= k && m >= i && Node(c, start, m) == Node(c, start, i)
    decreases k
  {
    if k <= i {
      m := i;
    } else {
      m := ComesAgain(c, start, i, j, k - 1);
      if m < k {
        RepeatFolds(c, start, i, j, m + (j - i));
        m := m + (j - i);
      }
    }
  }

  /** A list that ends visits no node twice. */
  lemma EndingNodesDiffer(c: Config, start: nat, length: nat, i: nat, j: nat)
    requires start < 256 && start % 4 == 0 && Node(c, start, length) == 0 && i < j && Node(c, start, i) != 0
    ensures Node(c, start, i) != Node(c, start, j)
  {
    if Node(c, start, i) == Node(c, start, j) {
      var m := ComesAgain(c, start, i, j, length);
      EndedStays(c, start, length, m);
    }
  }

  ghost predicate Visits(c: Config, start: nat, length: nat, x: nat)
    requires start < 256 && start % 4 == 0
  {
    exists k: nat :: k < length && Node(c, start, k) == x
  }

  lemma {:induction false} MatchesAreNodes(c: Config, id: nat, offset: nat, length: nat)
    requires offset < 256 && offset % 4 == 0
    ensures forall x :: x in MatchesAlong(c, id, offset, length) ==> Visits(c, offset, length, x)
    decreases length
  {
    if offset != 0 && length > 0 {
      var next := Follow(c, offset);
      MatchesAreNodes(c, id, next, length - 1);
      forall x | x in MatchesAlong(c, id, next, length - 1) ensures Visits(c, offset, length, x) {
        var k: nat :| k < length - 1 && Node(c, next, k) == x;
        NodeShift(c, offset, k);
        assert Node(c, offset, k + 1) == x;
      }
      assert Node(c, offset, 0) == offset;
    }
  }

  predicate Distinct(s: seq<nat>) { forall i, j :: 0 <= i < j < |s| ==> s[i] != s[j] }

  lemma {:induction false} MatchesDiffer(c: Config, id: nat, offset: nat, length: nat)
    requires offset < 256 && offset % 4 == 0 && Node(c, offset, length) == 0
    ensures Distinct(MatchesAlong(c, id, offset, length))
    decreases length
  {
    if offset != 0 && length > 0 {
      var next := Follow(c, offset);
      NodeShift(c, offset, length - 1);
      MatchesDiffer(c, id, next, length - 1);
      MatchesAreNodes(c, id, next, length - 1);
      var rest := MatchesAlong(c, id, next, length - 1);
      forall i | 0 <= i < |rest| ensures rest[i] != offset {
        assert rest[i] in rest;
        var k: nat :| k < length - 1 && Node(c, next, k) == rest[i];
        NodeShift(c, offset, k);
        EndingNodesDiffer(c, offset, length, 0, k + 1);
      }
    }
  }

  /** A list that ends does so within the limit. */
  lemma EndsWithinLimit(c: Config, id: nat, start: nat, length: nat) returns (end: nat)
    requires start < 256 && start % 4 == 0 && Node(c, start, length) == 0
    ensures end <= LINK_LIMIT && Node(c, start, end) == 0
    ensures MatchesAlong(c, id, start, end) == MatchesAlong(c, id, start, length)
  {
    end := ReachedWithinLimit(c, start, length);
    if end <= length {
      MatchesPastEnd(c, id, start, end, length);
    } else {
      MatchesPastEnd(c, id, start, length, end);
    }
  }

  /** On a list that ends, however long, asking again and again yields every match in list order, no one twice. */
  lemma ResumeEnumerates(c: Config, id: nat, previous: nat, length: nat, calls: nat)
    requires HasList(c) && previous < 256 && Node(c, StartOf(c, previous), length) == 0
    requires |MatchesAlong(c, id, StartOf(c, previous), length)| <= calls
    ensures Resume(c, id, previous, calls) == MatchesAlong(c, id, StartOf(c, previous), length)
    ensures Distinct(Resume(c, id, previous, calls))
  {
    MatchesDiffer(c, id, StartOf(c, previous), length);
    var end := EndsWithinLimit(c, id, StartOf(c, previous), length);
    ResumeShort(c, id, previous, end, calls);
  }

  // ---------------------------------------------------------------- the MMIO window

  const PAGE_SIZE := 4096
  const KI_PCI_MMIO_WINDOW_BASE := 0xFFFF_A100_0000_0000
  const WORD64 := 0x1_0000_0000_0000_0000

  /** One KiPciMapMmio: the physical range asked for and the address returned. */
  datatype Grant = Grant(va: nat, physical: nat, length: nat)

  /** The window's cursor and page table, and the calls made so far. */
  datatype Window = Window(cursor: nat, pages: map<nat, nat>, grants: seq<Grant>)

  function Floor(n: nat): (f: nat)
    ensures f <= n < f + PAGE_SIZE && f % PAGE_SIZE == 0
  {
    n - n % PAGE_SIZE
  }

  function FirstPage(physical: nat): nat { Floor(physical) }

  function LastPage(physical: nat, length: nat): nat { Floor(physical + length + PAGE_SIZE - 1) }

  /** No sum of the call wraps. */
  predicate Room(w: Window, physical: nat, length: nat) {
    && physical + length + PAGE_SIZE - 1 < WORD64
    && w.cursor + (LastPage(physical, length) - FirstPage(physical)) < WORD64
  }

  /** Map the pages [page, last) at the cursor. */
  function MapPages(pages: map<nat, nat>, cursor: nat, page: nat, last: nat): map<nat, nat>
    requires page % PAGE_SIZE == 0 && last % PAGE_SIZE == 0 && page <= last
    decreases last - page
  {
    if page == last then pages
      else MapPages(pages, cursor, page, last - PAGE_SIZE)[cursor + (last - PAGE_SIZE - page) := last - PAGE_SIZE]
  }

  lemma PagesAscend(physical: nat, length: nat)
    ensures FirstPage(physical) <= LastPage(physical, length)
    ensures FirstPage(physical) % PAGE_SIZE == 0 && LastPage(physical, length) % PAGE_SIZE == 0
    ensures physical + length <= LastPage(physical, length)
  {
  }

  /** KiPciMapMmio. */
  function MapMmio(w: Window, physical: nat, length: nat): Window {
    PagesAscend(physical, length);
    var first, last := FirstPage(physical), LastPage(physical, length);
    Window(w.cursor + (last - first), MapPages(w.pages, w.cursor, first, last),
           w.grants + [Grant(w.cursor + (physical - first), physical, length)])
  }

  /** What a device access at a window address reaches. */
  ghost predicate Reaches(pages: map<nat, nat>, va: nat, physical: nat) {
    Floor(va) in pages && pages[Floor(va)] + (va - Floor(va)) == physical
  }

  ghost predicate Translates(pages: map<nat, nat>, g: Grant) {
    forall k: nat :: k < g.length ==> ByteReaches(pages, g, k)
  }

  ghost predicate ByteReaches(pages: map<nat, nat>, g: Grant, k: nat) { Reaches(pages, g.va + k, g.physical + k) }

  /** Every call's range still translates, and no two ranges meet. */
  ghost predicate Good(w: Window) {
    && w.cursor % PAGE_SIZE == 0
    && (forall va :: va in w.pages ==> va + PAGE_SIZE <= w.cursor)
    && (forall i :: 0 <= i < |w.grants| ==>
       Translates(w.pages, w.grants[i]) && w.grants[i].va + w.grants[i].length <= w.cursor)
    && (forall i, j :: 0 <= i < j < |w.grants| ==> w.grants[i].va + w.grants[i].length <= w.grants[j].va)
  }

  lemma PagesApart(va: nat, at: nat)
    requires at % PAGE_SIZE == 0
    ensures va % PAGE_SIZE == 0 && va < at + PAGE_SIZE ==> va <= at
  {
  }

  lemma {:induction false} MapPagesAt(pages: map<nat, nat>, cursor: nat, page: nat, last: nat, va: nat)
    requires page % PAGE_SIZE == 0 && last % PAGE_SIZE == 0 && cursor % PAGE_SIZE == 0 && page <= last
    ensures va < cursor ==>
              && (va in MapPages(pages, cursor, page, last) <==> va in pages)
              && (va in pages ==> MapPages(pages, cursor, page, last)[va] == pages[va])
    ensures cursor <= va < cursor + (last - page) && va % PAGE_SIZE == 0 ==>
              va in MapPages(pages, cursor, page, last) &&
                MapPages(pages, cursor, page, last)[va] == page + (va - cursor)
    ensures va in MapPages(pages, cursor, page, last) ==> va in pages || va + PAGE_SIZE <= cursor + (last - page)
    decreases last - page
  {
    if page < last {
      MapPagesAt(pages, cursor, page, last - PAGE_SIZE, va);
      var at := cursor + (last - PAGE_SIZE - page);
      PagesApart(va, at);
    }
  }

  /** Mappings below the cursor never change. */
  lemma EarlierStay(w: Window, physical: nat, length: nat, g: Grant)
    requires Good(w) && Translates(w.pages, g) && g.va + g.length <= w.cursor
    ensures Translates(MapMmio(w, physical, length).pages, g)
  {
    PagesAscend(physical, length);
    var after := MapMmio(w, physical, length).pages;
    forall k: nat | k < g.length ensures ByteReaches(after, g, k) {
      assert ByteReaches(w.pages, g, k);
      MapPagesAt(w.pages, w.cursor, FirstPage(physical), LastPage(physical, length), Floor(g.va + k));
    }
  }

  lemma NewTranslates(w: Window, physical: nat, length: nat)
    requires Good(w)
    ensures Translates(MapMmio(w, physical, length).pages,
              Grant(w.cursor + (physical - FirstPage(physical)), physical, length))
  {
    PagesAscend(physical, length);
    var first, last, after := FirstPage(physical), LastPage(physical, length), MapMmio(w, physical, length).pages;
    var g := Grant(w.cursor + (physical - first), physical, length);
    forall k: nat | k < length ensures ByteReaches(after, g, k) {
      var page := Floor(physical + k);
      MapPagesAt(w.pages, w.cursor, first, last, w.cursor + (page - first));
      FloorShift(w.cursor, physical + k, first);
    }
  }

  lemma FloorShift(cursor: nat, n: nat, first: nat)
    requires cursor % PAGE_SIZE == 0 && first % PAGE_SIZE == 0 && first <= n
    ensures Floor(cursor + (n - first)) == cursor + (Floor(n) - first)
  {
  }

  lemma MapKeepsGood(w: Window, physical: nat, length: nat)
    requires Good(w)
    ensures Good(MapMmio(w, physical, length))
  {
    PagesAscend(physical, length);
    var after := MapMmio(w, physical, length);
    forall va | va in after.pages ensures va + PAGE_SIZE <= after.cursor {
      MapPagesAt(w.pages, w.cursor, FirstPage(physical), LastPage(physical, length), va);
    }
    forall i | 0 <= i < |after.grants| ensures Translates(after.pages, after.grants[i]) {
      if i < |w.grants| {
        EarlierStay(w, physical, length, w.grants[i]);
      } else {
        NewTranslates(w, physical, length);
      }
    }
  }

  /** A sequence of calls, from a fresh window. */
  function Calls(requests: seq<(nat, nat)>): Window {
    if requests == [] then Window(KI_PCI_MMIO_WINDOW_BASE, map[], [])
    else MapMmio(Calls(requests[..|requests| - 1]), requests[|requests| - 1].0, requests[|requests| - 1].1)
  }

  /** Over any sequence of calls: each returned address translates to its physical range byte for byte, unaligned starts
      included, then and after every later call, and the returned ranges are pairwise disjoint. */
  lemma {:induction false} CallsAreGood(requests: seq<(nat, nat)>)
    ensures Good(Calls(requests)) && |Calls(requests).grants| == |requests|
    ensures forall i :: 0 <= i < |requests| ==>
              Calls(requests).grants[i].physical == requests[i].0 && Calls(requests).grants[i].length == requests[i].1
  {
    if requests != [] {
      CallsAreGood(requests[..|requests| - 1]);
      MapKeepsGood(Calls(requests[..|requests| - 1]), requests[|requests| - 1].0, requests[|requests| - 1].1);
    }
  }

  lemma WholePages(n: nat)
    ensures Floor(n) == 4096 * (n / 4096) && n - Floor(n) == n % 4096
  {
  }

  /** The window is packed from its base: each call's address is the cursor plus the physical offset within the page,
      and moves the cursor past the pages that the range touches. */
  lemma MapOutcome(w: Window, physical: nat, length: nat)
    ensures Calls([]) == Window(0xFFFF_A100_0000_0000, map[], [])
    ensures var v := MapMmio(w, physical, length);
            && v.grants == w.grants + [Grant(w.cursor + physical % 4096, physical, length)]
            && v.cursor == w.cursor + 4096 * ((physical + length + 4095) / 4096 - physical / 4096)
  {
    WholePages(physical);
    WholePages(physical + length + 4095);
  }

  class MmioWindow {
    var cursor: nat
    var pages: map<nat, nat>
    ghost var grants: seq<Grant>

    ghost function View(): Window
      reads this
    {
      Window(cursor, pages, grants)
    }

    constructor ()
      ensures View() == Calls([])
    {
      cursor, pages, grants := KI_PCI_MMIO_WINDOW_BASE, map[], [];
    }

    method Map(physical: nat, length: nat) returns (va: nat)
      requires Good(View()) && Room(View(), physical, length)
      modifies this
      ensures View() == MapMmio(old(View()), physical, length) && Good(View())
      ensures va == grants[|old(grants)|].va && Translates(pages, Grant(va, physical, length))
    {
      PagesAscend(physical, length);
      MapKeepsGood(View(), physical, length);
      NewTranslates(View(), physical, length);
      var first, last, start := FirstPage(physical), LastPage(physical, length), cursor;
      ghost var before := pages;
      var page := first;
      while page < last
        invariant first <= page <= last && page % PAGE_SIZE == 0 && cursor == start + (page - first)
        invariant pages == MapPages(before, start, first, page) && grants == old(grants)
      {
        pages := pages[cursor := page];
        cursor := cursor + PAGE_SIZE;
        page := page + PAGE_SIZE;
      }
      va := start + (physical - first);
      grants := grants + [Grant(va, physical, length)];
    }
  }
}
