/**
 The three verbs of \Device\Nsi (drivers/nsi.c:452-662) over one snapshot: a count probe or a capacity-spaced
 enumeration into the caller's buffer, and two point lookups by key.
 */
module NsiVerbs {
  import opened NtKernel
  import opened NsiTables

  const WORD32 := 0x1_0000_0000
  const GET_ALL_HEADER := 48
  const GET_PARAMETER_HEADER := 44

  datatype Enumeration = Enumeration(
    mod: Module, number: nat, keySize: nat, rwSize: nat, dynamicSize: nat, staticSize: nat, count: nat)

  /** `tail` is what follows the fixed part of the input buffer: the key, and whatever the caller appended. */
  datatype GetAllRequest = GetAllRequest(
    mod: Module, number: nat, keySize: nat, rwSize: nat, dynamicSize: nat, staticSize: nat, tail: seq<byte>)

  datatype GetParameterRequest = GetParameterRequest(
    mod: Module, number: nat, keySize: nat, paramType: nat, dataOffset: nat, tail: seq<byte>)

  /** NsipStridesValid: exact or zero. */
  predicate StridesValid(table: Table, keySize: nat, rwSize: nat, dynamicSize: nat, staticSize: nat) {
    && (keySize == 0 || keySize == KeySize(table))
    && (rwSize == 0 || rwSize == RwSize(table))
    && (dynamicSize == 0 || dynamicSize == DynamicSize(table))
    && (staticSize == 0 || staticSize == StaticSize(table))
  }

  /** The driver adds the strides in 32 bits. */
  function StrideSum(r: Enumeration): nat { (r.keySize + r.rwSize + r.dynamicSize + r.staticSize) % WORD32 }

  /** The checks of NsipEnumerateAll; None is STATUS_INVALID_PARAMETER. The length check runs on the wrapped sum, but a
      request that passes the stride check cannot have wrapped. */
  function EnumTable(request: Option<Enumeration>, outputLength: nat): Option<Table> {
    if request.None? then None
    else
      var r := request.value;
      if outputLength < 4 + Times(StrideSum(r), r.count) then None
      else
        var table := FindTable(r.mod, r.number);
        if table.None? || !StridesValid(table.value, r.keySize, r.rwSize, r.dynamicSize, r.staticSize) then None
        else table
  }

  // ---------------------------------------------------------------- buffers

  /** A memcpy into a buffer. */
  function Poke(s: seq<byte>, at: nat, data: seq<byte>): (t: seq<byte>)
    requires at + |data| <= |s|
    ensures |t| == |s|
  {
    s[..at] + data + s[at + |data|..]
  }

  lemma PokeFrame(s: seq<byte>, at: nat, data: seq<byte>, lo: nat, hi: nat)
    requires at + |data| <= |s| && lo <= hi <= |s| && (hi <= at || at + |data| <= lo)
    ensures Poke(s, at, data)[lo..hi] == s[lo..hi]
  {
  }

  lemma PokeAll(s: seq<byte>, data: seq<byte>)
    requires |s| == |data|
    ensures Poke(s, 0, data) == data
  {
  }

  /** Filling a buffer from the front, piece by piece. */
  lemma PokeNext(s: seq<byte>, front: seq<byte>, piece: seq<byte>)
    requires |front| + |piece| <= |s|
    ensures Poke(front + s[|front|..], |front|, piece) == (front + piece) + s[|front + piece|..]
  {
  }

  /** The product of a stride and a count, by repeated addition. */
  function Times(stride: nat, n: nat): nat { if n == 0 then 0 else Times(stride, n - 1) + stride }

  lemma {:induction false} TimesIsProduct(stride: nat, n: nat)
    ensures Times(stride, n) == stride * n
  {
    if n > 0 {
      TimesIsProduct(stride, n - 1);
    }
  }

  lemma {:induction false} TimesGrows(stride: nat, i: nat, n: nat)
    requires i <= n
    ensures Times(stride, i) <= Times(stride, n)
    decreases n
  {
    if i < n {
      TimesGrows(stride, i, n - 1);
    }
  }

  lemma {:induction false} TimesSum(a: nat, b: nat, n: nat)
    ensures Times(a + b, n) == Times(a, n) + Times(b, n)
  {
    if n > 0 {
      TimesSum(a, b, n - 1);
    }
  }

  ghost predicate Fits(s: seq<byte>, base: nat, stride: nat, cells: seq<seq<byte>>) {
    base + Times(stride, |cells|) <= |s| && forall i :: 0 <= i < |cells| ==> |cells[i]| == stride
  }

  /** Copying equal cells side by side. */
  function WriteCells(s: seq<byte>, base: nat, stride: nat, cells: seq<seq<byte>>): (t: seq<byte>)
    requires Fits(s, base, stride, cells)
    ensures |t| == |s|
  {
    if cells == [] then s
    else
      var n := |cells| - 1;
      Poke(WriteCells(s, base, stride, cells[..n]), base + Times(stride, n), cells[n])
  }

  /** The i-th cell of a column. */
  function Cell(s: seq<byte>, base: nat, stride: nat, i: nat): seq<byte>
    requires base + Times(stride, i + 1) <= |s|
  {
    s[base + Times(stride, i)..base + Times(stride, i + 1)]
  }

  lemma {:induction false} CellsLand(s: seq<byte>, base: nat, stride: nat, cells: seq<seq<byte>>, i: nat)
    requires Fits(s, base, stride, cells) && i < |cells|
    ensures base + Times(stride, i + 1) <= |s|
    ensures Cell(WriteCells(s, base, stride, cells), base, stride, i) == cells[i]
  {
    var n := |cells| - 1;
    TimesGrows(stride, i + 1, |cells|);
    if i < n {
      TimesGrows(stride, i + 1, n);
      CellsLand(s, base, stride, cells[..n], i);
      PokeFrame(WriteCells(s, base, stride, cells[..n]), base + Times(stride, n), cells[n],
                base + Times(stride, i), base + Times(stride, i + 1));
    }
  }

  /** A column's writes leave what lies before and behind it alone. */
  lemma {:induction false} CellsFrame(s: seq<byte>, base: nat, stride: nat, cells: seq<seq<byte>>, lo: nat, hi: nat)
    requires Fits(s, base, stride, cells) && lo <= hi <= |s| && (hi <= base || base + Times(stride, |cells|) <= lo)
    ensures WriteCells(s, base, stride, cells)[lo..hi] == s[lo..hi]
  {
    if cells != [] {
      var n := |cells| - 1;
      CellsFrame(s, base, stride, cells[..n], lo, hi);
      PokeFrame(WriteCells(s, base, stride, cells[..n]), base + Times(stride, n), cells[n], lo, hi);
    }
  }

  method CopyBytes(output: array<byte>, at: nat, data: seq<byte>)
    requires at + |data| <= output.Length
    modifies output
    ensures output[..] == Poke(old(output[..]), at, data)
  {
    var i := 0;
    while i < |data|
      invariant 0 <= i <= |data|
      invariant output[..at] == old(output[..at]) && output[at..at + i] == data[..i]
      invariant output[at + i..] == old(output[at + i..])
    {
      output[at + i] := data[i];
      i := i + 1;
    }
    assert output[..] == output[..at] + output[at..at + |data|] + output[at + |data|..];
  }

  method ClearBytes(output: array<byte>)
    modifies output
    ensures output[..] == Zeros(output.Length)
  {
    var i := 0;
    while i < output.Length
      invariant 0 <= i <= output.Length && forall k :: 0 <= k < i ==> output[k] == 0
    {
      output[i] := 0;
      i := i + 1;
    }
  }

  // ---------------------------------------------------------------- enumerate

  datatype Column = KeyColumn | RwColumn | DynamicColumn | StaticColumn

  function Part(row: Row, column: Column): seq<byte> {
    match column
    case KeyColumn => row.key
    case RwColumn => row.rw
    case DynamicColumn => row.dynamic
    case StaticColumn => row.fixed
  }

  function PartSize(table: Table, column: Column): nat {
    match column
    case KeyColumn => KeySize(table)
    case RwColumn => RwSize(table)
    case DynamicColumn => DynamicSize(table)
    case StaticColumn => StaticSize(table)
  }

  function Stride(r: Enumeration, column: Column): nat {
    match column
    case KeyColumn => r.keySize
    case RwColumn => r.rwSize
    case DynamicColumn => r.dynamicSize
    case StaticColumn => r.staticSize
  }

  /** Each column has room for `count` cells, one column behind the other after the leading DWORD. */
  function Base(r: Enumeration, column: Column): nat {
    match column
    case KeyColumn => 4
    case RwColumn => 4 + Times(r.keySize, r.count)
    case DynamicColumn => 4 + Times(r.keySize, r.count) + Times(r.rwSize, r.count)
    case StaticColumn => 4 + Times(r.keySize, r.count) + Times(r.rwSize, r.count) + Times(r.dynamicSize, r.count)
  }

  /** Where a column ends. */
  function Limit(r: Enumeration, column: Column): nat { Base(r, column) + Times(Stride(r, column), r.count) }

  ghost predicate RowsSized(table: Table, rows: seq<Row>) {
    forall i, column :: 0 <= i < |rows| ==> |Part(rows[i], column)| == PartSize(table, column)
  }

  function Cells(rows: seq<Row>, column: Column): seq<seq<byte>> {
    seq(|rows|, i requires 0 <= i < |rows| => Part(rows[i], column))
  }

  function Written(r: Enumeration, rows: seq<Row>): nat { Min(|rows|, r.count) }

  predicate ProbeOnly(r: Enumeration) { StrideSum(r) == 0 }

  /** The request passed the checks for this table and buffer. */
  predicate Admitted(r: Enumeration, table: Table, length: nat) {
    EnumTable(Some(r), length) == Some(table)
  }

  lemma ValidStridesDoNotWrap(r: Enumeration, table: Table)
    requires StridesValid(table, r.keySize, r.rwSize, r.dynamicSize, r.staticSize)
    ensures StrideSum(r) == r.keySize + r.rwSize + r.dynamicSize + r.staticSize
  {
    SizesAreSmall(table);
    SmallSum(r.keySize + r.rwSize + r.dynamicSize + r.staticSize);
  }

  lemma SizesAreSmall(table: Table)
    ensures KeySize(table) <= 72 && RwSize(table) <= 1092 && DynamicSize(table) <= 216 && StaticSize(table) <= 600
  {
  }

  lemma SmallSum(n: nat)
    requires n < WORD32
    ensures n % WORD32 == n
  {
  }

  lemma Layout(r: Enumeration, table: Table, length: nat)
    requires Admitted(r, table, length)
    ensures StrideSum(r) == r.keySize + r.rwSize + r.dynamicSize + r.staticSize
    ensures Limit(r, StaticColumn) == 4 + Times(StrideSum(r), r.count) <= length
  {
    ValidStridesDoNotWrap(r, table);
    TimesSum(r.keySize, r.rwSize, r.count);
    TimesSum(r.keySize + r.rwSize, r.dynamicSize, r.count);
    TimesSum(r.keySize + r.rwSize + r.dynamicSize, r.staticSize, r.count);
  }

  lemma StrideIsSize(r: Enumeration, table: Table, column: Column)
    requires StridesValid(table, r.keySize, r.rwSize, r.dynamicSize, r.staticSize) && Stride(r, column) != 0
    ensures Stride(r, column) == PartSize(table, column)
  {
  }

  lemma ColumnsInside(r: Enumeration, column: Column, length: nat)
    requires Limit(r, StaticColumn) <= length
    ensures Limit(r, column) <= length
  {
  }

  lemma CellsSized(table: Table, rows: seq<Row>, column: Column)
    requires RowsSized(table, rows)
    ensures forall i :: 0 <= i < |rows| ==> |Cells(rows, column)[i]| == PartSize(table, column)
  {
  }

  lemma ColumnFits(r: Enumeration, table: Table, rows: seq<Row>, s: seq<byte>, column: Column)
    requires Admitted(r, table, |s|) && RowsSized(table, rows) && Stride(r, column) != 0 && |rows| <= r.count
    ensures Fits(s, Base(r, column), Stride(r, column), Cells(rows, column))
    ensures Base(r, column) + Times(Stride(r, column), |rows|) <= Limit(r, column) <= |s|
  {
    Layout(r, table, |s|);
    ColumnsInside(r, column, |s|);
    StrideIsSize(r, table, column);
    CellsSized(table, rows, column);
    var base, stride := Base(r, column), Stride(r, column);
    TimesGrows(stride, |rows|, r.count);
  }

  function WriteColumn(r: Enumeration, table: Table, rows: seq<Row>, s: seq<byte>, column: Column): (t: seq<byte>)
    requires Admitted(r, table, |s|) && RowsSized(table, rows) && |rows| <= r.count
    ensures |t| == |s|
  {
    if Stride(r, column) == 0 then s
    else
      ColumnFits(r, table, rows, s, column);
      WriteCells(s, Base(r, column), Stride(r, column), Cells(rows, column))
  }

  lemma WriteFrame(r: Enumeration, table: Table, rows: seq<Row>, s: seq<byte>, column: Column, lo: nat, hi: nat)
    requires Admitted(r, table, |s|) && RowsSized(table, rows) && |rows| <= r.count && lo <= hi <= |s|
    requires hi <= Base(r, column) || Base(r, column) + Times(Stride(r, column), |rows|) <= lo
    ensures WriteColumn(r, table, rows, s, column)[lo..hi] == s[lo..hi]
  {
    if Stride(r, column) != 0 {
      ColumnFits(r, table, rows, s, column);
      CellsFrame(s, Base(r, column), Stride(r, column), Cells(rows, column), lo, hi);
    }
  }

  /** A cleared buffer with the leading DWORD in place. */
  function Head(r: Enumeration, rows: seq<Row>, length: nat): (s: seq<byte>)
    requires length >= 4
    ensures |s| == length
  {
    Poke(Zeros(length), 0, Le(if ProbeOnly(r) then |rows| else Written(r, rows), 4))
  }

  lemma HeadZeros(r: Enumeration, rows: seq<Row>, length: nat, lo: nat, hi: nat)
    requires 4 <= lo <= hi <= length
    ensures Head(r, rows, length)[lo..hi] == Zeros(hi - lo)
  {
    var count := Le(if ProbeOnly(r) then |rows| else Written(r, rows), 4);
    PokeFrame(Zeros(length), 0, count, lo, hi);
    assert Zeros(length)[lo..hi] == Zeros(hi - lo);
  }

  /** The columns are written in order, each over what the earlier ones left. */
  function Upto(r: Enumeration, table: Table, rows: seq<Row>, length: nat, column: Column): (s: seq<byte>)
    requires Admitted(r, table, length) && RowsSized(table, rows)
    ensures |s| == length
    decreases Rank(column)
  {
    Layout(r, table, length);
    var out := rows[..Written(r, rows)];
    var before := match column
                  case KeyColumn => Head(r, rows, length)
                  case RwColumn => Upto(r, table, rows, length, KeyColumn)
                  case DynamicColumn => Upto(r, table, rows, length, RwColumn)
                  case StaticColumn => Upto(r, table, rows, length, DynamicColumn);
    WriteColumn(r, table, out, before, column)
  }

  function Rank(column: Column): nat {
    match column
    case KeyColumn => 0
    case RwColumn => 1
    case DynamicColumn => 2
    case StaticColumn => 3
  }

  /** The output buffer of an admitted enumeration. */
  function Enumerated(r: Enumeration, table: Table, rows: seq<Row>, length: nat): (s: seq<byte>)
    requires Admitted(r, table, length) && RowsSized(table, rows)
    ensures |s| == length
  {
    Upto(r, table, rows, length, StaticColumn)
  }

  function Before(column: Column): Option<Column> {
    match column
    case KeyColumn => None
    case RwColumn => Some(KeyColumn)
    case DynamicColumn => Some(RwColumn)
    case StaticColumn => Some(DynamicColumn)
  }

  lemma LimitsAscend(r: Enumeration, column: Column, later: Column)
    requires Rank(column) < Rank(later)
    ensures Limit(r, column) <= Base(r, later)
  {
  }

  /** What a column's own pass leaves in a region, later passes keep, when the region ends before they start. */
  lemma {:induction false} LaterColumnsKeep(r: Enumeration, table: Table, rows: seq<Row>, length: nat, column: Column,
                                            later: Column, lo: nat, hi: nat)
    requires Admitted(r, table, length) && RowsSized(table, rows)
    requires Rank(column) <= Rank(later) && lo <= hi <= Limit(r, column) && hi <= length
    ensures Upto(r, table, rows, length, later)[lo..hi] == Upto(r, table, rows, length, column)[lo..hi]
    decreases Rank(later)
  {
    if column != later {
      var out, prior := rows[..Written(r, rows)], Before(later).value;
      LaterColumnsKeep(r, table, rows, length, column, prior, lo, hi);
      LimitsAscend(r, column, later);
      WriteFrame(r, table, out, Upto(r, table, rows, length, prior), later, lo, hi);
    }
  }

  /** What earlier passes leave behind their last column stays zero. */
  lemma {:induction false} ZerosAhead(r: Enumeration, table: Table, rows: seq<Row>, length: nat, column: Column,
                                      lo: nat, hi: nat)
    requires Admitted(r, table, length) && RowsSized(table, rows)
    requires Base(r, column) + Times(Stride(r, column), Written(r, rows)) <= lo <= hi <= length
    ensures Upto(r, table, rows, length, column)[lo..hi] == Zeros(hi - lo)
    decreases Rank(column)
  {
    Layout(r, table, length);
    var out := rows[..Written(r, rows)];
    if column == KeyColumn {
      var head := Head(r, rows, length);
      WriteFrame(r, table, out, head, column, lo, hi);
      HeadZeros(r, rows, length, lo, hi);
    } else {
      var prior := Before(column).value;
      LimitsAscend(r, prior, column);
      TimesGrows(Stride(r, prior), Written(r, rows), r.count);
      ZerosAhead(r, table, rows, length, prior, lo, hi);
      WriteFrame(r, table, out, Upto(r, table, rows, length, prior), column, lo, hi);
    }
  }

  /** The i-th cell of a column of an enumeration's output. */
  function CellOf(r: Enumeration, out: seq<byte>, column: Column, i: nat): seq<byte>
    requires Limit(r, column) <= |out| && i < r.count
  {
    TimesGrows(Stride(r, column), i + 1, r.count);
    Cell(out, Base(r, column), Stride(r, column), i)
  }

  lemma CellsInside(r: Enumeration, table: Table, length: nat)
    requires Admitted(r, table, length)
    ensures forall column :: Limit(r, column) <= length
  {
    Layout(r, table, length);
    forall column ensures Limit(r, column) <= length {
      ColumnsInside(r, column, length);
    }
  }

  /** Decoding an enumeration: each requested column's i-th cell is that part of the i-th row for the rows written, and
      zero for the capacity that is left. */
  lemma EnumerationDecodes(r: Enumeration, table: Table, rows: seq<Row>, length: nat, column: Column, i: nat)
    requires Admitted(r, table, length) && RowsSized(table, rows) && Stride(r, column) != 0 && i < r.count
    ensures Limit(r, column) <= length
    ensures CellOf(r, Enumerated(r, table, rows, length), column, i)
         == if i < Written(r, rows) then Part(rows[i], column) else Zeros(Stride(r, column))
  {
    CellsInside(r, table, length);
    LaterCellsKeep(r, table, rows, length, column, i);
    if i < Written(r, rows) {
      OwnColumnDecodes(r, table, rows, length, column, i);
    } else {
      OwnColumnPads(r, table, rows, length, column, i);
    }
  }

  lemma CellSpan(r: Enumeration, column: Column, i: nat) returns (lo: nat, hi: nat)
    requires i < r.count
    ensures lo == Base(r, column) + Times(Stride(r, column), i) && hi == lo + Stride(r, column) <= Limit(r, column)
    ensures forall out: seq<byte> :: Limit(r, column) <= |out| ==> CellOf(r, out, column, i) == out[lo..hi]
  {
    lo := Base(r, column) + Times(Stride(r, column), i);
    hi := lo + Stride(r, column);
    TimesGrows(Stride(r, column), i + 1, r.count);
  }

  lemma LaterCellsKeep(r: Enumeration, table: Table, rows: seq<Row>, length: nat, column: Column, i: nat)
    requires Admitted(r, table, length) && RowsSized(table, rows) && i < r.count && Limit(r, column) <= length
    ensures CellOf(r, Enumerated(r, table, rows, length), column, i)
              == CellOf(r, Upto(r, table, rows, length, column), column, i)
  {
    var lo, hi := CellSpan(r, column, i);
    LaterColumnsKeep(r, table, rows, length, column, StaticColumn, lo, hi);
  }

  lemma OwnColumnPads(r: Enumeration, table: Table, rows: seq<Row>, length: nat, column: Column, i: nat)
    requires Admitted(r, table, length) && RowsSized(table, rows) && Written(r, rows) <= i < r.count
    requires Limit(r, column) <= length
    ensures CellOf(r, Upto(r, table, rows, length, column), column, i) == Zeros(Stride(r, column))
  {
    var lo, hi := CellSpan(r, column, i);
    TimesGrows(Stride(r, column), Written(r, rows), i);
    ZerosAhead(r, table, rows, length, column, lo, hi);
  }

  lemma OwnColumnDecodes(r: Enumeration, table: Table, rows: seq<Row>, length: nat, column: Column, i: nat)
    requires Admitted(r, table, length) && RowsSized(table, rows) && Stride(r, column) != 0 && i < Written(r, rows)
    requires Limit(r, column) <= length
    ensures CellOf(r, Upto(r, table, rows, length, column), column, i) == Part(rows[i], column)
  {
    Layout(r, table, length);
    var out := rows[..Written(r, rows)];
    var before := match column
                  case KeyColumn => Head(r, rows, length)
                  case _ => Upto(r, table, rows, length, Before(column).value);
    ColumnFits(r, table, out, before, column);
    CellsLand(before, Base(r, column), Stride(r, column), Cells(out, column), i);
  }

  /** The leading DWORD: the rows written, or, with every stride zero, how many there are. */
  lemma LeadingCount(r: Enumeration, table: Table, rows: seq<Row>, length: nat)
    requires Admitted(r, table, length) && RowsSized(table, rows)
    ensures length >= 4
    ensures Enumerated(r, table, rows, length)[..4]
         == Le(if r.keySize == r.rwSize == r.dynamicSize == r.staticSize == 0 then |rows| else Min(|rows|, r.count), 4)
  {
    Layout(r, table, length);
    var out := rows[..Written(r, rows)];
    var head := Head(r, rows, length);
    LaterColumnsKeep(r, table, rows, length, KeyColumn, StaticColumn, 0, 4);
    WriteFrame(r, table, out, head, KeyColumn, 0, 4);
    assert head[0..4] == Le(if ProbeOnly(r) then |rows| else |out|, 4);
  }

  // ---------------------------------------------------------------- point lookups

  /** NsipFindRow. */
  function FindRow(rows: seq<Row>, key: seq<byte>, from: nat): (found: Option<nat>)
    requires from <= |rows|
    ensures found.Some? ==> from <= found.value < |rows| && rows[found.value].key == key
    ensures found.None? <==> forall i :: from <= i < |rows| ==> rows[i].key != key
    decreases |rows| - from
  {
    if from == |rows| then None
    else if rows[from].key == key then Some(from)
    else FindRow(rows, key, from + 1)
  }

  function Picked(size: nat, data: seq<byte>): seq<byte> { if size != 0 then data else [] }

  type Builder = Table -> seq<Row>

  /** NsipGetAllParameters: the status and what it leaves at the front of the output buffer. */
  function GetAll(request: Option<GetAllRequest>, build: Builder, outputLength: nat): (Status, seq<byte>) {
    if request.None? then (STATUS_INVALID_PARAMETER, [])
    else
      var r := request.value;
      var table := FindTable(r.mod, r.number);
      if GET_ALL_HEADER + |r.tail| < (GET_ALL_HEADER + r.keySize) % WORD32 then (STATUS_INVALID_PARAMETER, [])
      else if table.None? then (STATUS_INVALID_PARAMETER, [])
      else if r.keySize != KeySize(table.value)
        || !StridesValid(table.value, 0, r.rwSize, r.dynamicSize, r.staticSize) then
        (STATUS_INVALID_PARAMETER, [])
      else if outputLength < (r.rwSize + r.dynamicSize + r.staticSize) % WORD32 then (STATUS_INVALID_PARAMETER, [])
      else
        var rows := build(table.value);
        var found := FindRow(rows, r.tail[..r.keySize], 0);
        if found.None? then (STATUS_OBJECT_NAME_NOT_FOUND, [])
        else
          var row := rows[found.value];
          (STATUS_SUCCESS,
           Picked(r.rwSize, row.rw) + Picked(r.dynamicSize, row.dynamic) + Picked(r.staticSize, row.fixed))
  }

  function ParameterPart(row: Row, paramType: nat): seq<byte> {
    if paramType == 0 then row.rw else if paramType == 1 then row.dynamic else row.fixed
  }

  function ParameterSize(table: Table, paramType: nat): nat {
    if paramType == 0 then RwSize(table) else if paramType == 1 then DynamicSize(table) else StaticSize(table)
  }

  /** NsipGetParameter. */
  function GetParameter(request: Option<GetParameterRequest>, build: Builder, outputLength: nat): (Status, seq<byte>)
    requires forall table :: RowsSized(table, build(table))
  {
    if request.None? then (STATUS_INVALID_PARAMETER, [])
    else
      var r := request.value;
      var table := FindTable(r.mod, r.number);
      if GET_PARAMETER_HEADER + |r.tail| < (GET_PARAMETER_HEADER + r.keySize) % WORD32
        then (STATUS_INVALID_PARAMETER, [])
      else if table.None? then (STATUS_INVALID_PARAMETER, [])
      else if r.keySize != KeySize(table.value) || r.paramType > 2 then (STATUS_INVALID_PARAMETER, [])
      else
        var size := ParameterSize(table.value, r.paramType);
        if r.dataOffset > size || outputLength > size - r.dataOffset then (STATUS_INVALID_PARAMETER, [])
        else
          var rows := build(table.value);
          var found := FindRow(rows, r.tail[..r.keySize], 0);
          if found.None? then (STATUS_OBJECT_NAME_NOT_FOUND, [])
          else
            PartIsSized(table.value, rows, found.value, r.paramType);
            (STATUS_SUCCESS, ParameterPart(rows[found.value], r.paramType)[r.dataOffset..r.dataOffset + outputLength])
  }

  lemma PartIsSized(table: Table, rows: seq<Row>, i: nat, paramType: nat)
    requires RowsSized(table, rows) && i < |rows|
    ensures |ParameterPart(rows[i], paramType)| == ParameterSize(table, paramType)
  {
    assert |Part(rows[i], RwColumn)| == PartSize(table, RwColumn);
    assert |Part(rows[i], DynamicColumn)| == PartSize(table, DynamicColumn);
    assert |Part(rows[i], StaticColumn)| == PartSize(table, StaticColumn);
  }

  lemma {:induction false} FindsItself(rows: seq<Row>, i: nat, from: nat)
    requires UniqueKeys(rows) && from <= i < |rows|
    ensures FindRow(rows, rows[i].key, from) == Some(i)
    decreases i - from
  {
    if from < i {
      FindsItself(rows, i, from + 1);
    }
  }

  // ---------------------------------------------------------------- lookups agree with enumeration

  /** Some request's table rows, as the verbs see them. */
  ghost predicate Sound(build: Builder) {
    forall table :: RowsSized(table, build(table)) && UniqueKeys(build(table))
  }

  /** The i-th key cell of any enumeration that asked for keys finds the i-th row again: a get-all answers with the
      parts it asks for, in order, whatever it and the enumeration leave out, and a get-parameter answers with the slice
      it asks for. A part that the enumeration also asked for is the enumerated cell. */
  lemma LookupsAgreeWithEnumeration(r: Enumeration, table: Table, build: Builder, length: nat, i: nat, tail: seq<byte>,
                                    rw: nat, dynamic: nat, fixed: nat, outputLength: nat,
                                    paramType: nat, offset: nat, want: nat)
    requires Sound(build) && Admitted(r, table, length) && i < Written(r, build(table)) && r.keySize != 0
    requires StridesValid(table, r.keySize, rw, dynamic, fixed) && rw + dynamic + fixed <= outputLength
    requires paramType <= 2 && offset <= ParameterSize(table, paramType)
    requires want <= ParameterSize(table, paramType) - offset
    ensures forall column :: Limit(r, column) <= length
    ensures var out, row := Enumerated(r, table, build(table), length), build(table)[i];
            GetAll(Some(GetAllRequest(r.mod, r.number, r.keySize, rw, dynamic, fixed,
                                      CellOf(r, out, KeyColumn, i) + tail)),
                   build, outputLength)
            == (STATUS_SUCCESS, Picked(rw, row.rw) + Picked(dynamic, row.dynamic) + Picked(fixed, row.fixed))
    ensures var out, row := Enumerated(r, table, build(table), length), build(table)[i];
            |ParameterPart(row, paramType)| == ParameterSize(table, paramType)
            && GetParameter(Some(GetParameterRequest(r.mod, r.number, r.keySize, paramType, offset,
                                                     CellOf(r, out, KeyColumn, i) + tail)), build, want)
            == (STATUS_SUCCESS, ParameterPart(row, paramType)[offset..offset + want])
    ensures forall column :: Stride(r, column) != 0 ==>
              CellOf(r, Enumerated(r, table, build(table), length), column, i) == Part(build(table)[i], column)
  {
    var rows := build(table);
    CellsInside(r, table, length);
    forall column | Stride(r, column) != 0
      ensures CellOf(r, Enumerated(r, table, rows, length), column, i) == Part(rows[i], column)
    {
      EnumerationDecodes(r, table, rows, length, column, i);
    }
    EnumerationDecodes(r, table, rows, length, KeyColumn, i);
    GetAllByKey(r, table, build, i, tail, rw, dynamic, fixed, outputLength);
    GetParameterByKey(r, table, build, i, tail, paramType, offset, want);
  }

  lemma KeyIsRead(table: Table, rows: seq<Row>, i: nat, tail: seq<byte>)
    requires RowsSized(table, rows) && UniqueKeys(rows) && i < |rows|
    ensures |rows[i].key| == KeySize(table) && (rows[i].key + tail)[..KeySize(table)] == rows[i].key
    ensures FindRow(rows, rows[i].key, 0) == Some(i)
  {
    assert |Part(rows[i], KeyColumn)| == PartSize(table, KeyColumn);
    assert (rows[i].key + tail)[..KeySize(table)] == rows[i].key;
    FindsItself(rows, i, 0);
  }

  lemma GetAllByKey(r: Enumeration, table: Table, build: Builder, i: nat, tail: seq<byte>, rw: nat, dynamic: nat,
                    fixed: nat, outputLength: nat)
    requires Sound(build) && FindTable(r.mod, r.number) == Some(table) && i < |build(table)|
    requires r.keySize == KeySize(table)
    requires StridesValid(table, r.keySize, rw, dynamic, fixed) && rw + dynamic + fixed <= outputLength
    ensures var row := build(table)[i];
            GetAll(Some(GetAllRequest(r.mod, r.number, r.keySize, rw, dynamic, fixed, row.key + tail)), build,
              outputLength)
            == (STATUS_SUCCESS, Picked(rw, row.rw) + Picked(dynamic, row.dynamic) + Picked(fixed, row.fixed))
  {
    assert RowsSized(table, build(table)) && UniqueKeys(build(table));
    KeyIsRead(table, build(table), i, tail);
    SizesAreSmall(table);
    SmallSum(GET_ALL_HEADER + r.keySize);
    SmallSum(rw + dynamic + fixed);
  }

  lemma GetParameterByKey(r: Enumeration, table: Table, build: Builder, i: nat, tail: seq<byte>, paramType: nat,
                          offset: nat, want: nat)
    requires Sound(build) && FindTable(r.mod, r.number) == Some(table) && i < |build(table)|
    requires r.keySize == KeySize(table)
    requires paramType <= 2 && offset <= ParameterSize(table, paramType)
    requires want <= ParameterSize(table, paramType) - offset
    ensures var row := build(table)[i];
            |ParameterPart(row, paramType)| == ParameterSize(table, paramType)
            && GetParameter(Some(GetParameterRequest(r.mod, r.number, r.keySize, paramType, offset, row.key + tail)),
               build, want)
            == (STATUS_SUCCESS, ParameterPart(row, paramType)[offset..offset + want])
  {
    assert RowsSized(table, build(table)) && UniqueKeys(build(table));
    KeyIsRead(table, build(table), i, tail);
    SizesAreSmall(table);
    SmallSum(GET_PARAMETER_HEADER + r.keySize);
    PartIsSized(table, build(table), i, paramType);
  }

  /** And only enumerated keys find anything: a get-all by a key no row has says so, */
  lemma GetAllOfUnknown(request: GetAllRequest, table: Table, build: Builder, outputLength: nat)
    requires FindTable(request.mod, request.number) == Some(table) && request.keySize == KeySize(table)
    requires StridesValid(table, request.keySize, request.rwSize, request.dynamicSize, request.staticSize)
    requires |request.tail| >= request.keySize
    requires request.rwSize + request.dynamicSize + request.staticSize <= outputLength
    ensures GetAll(Some(request), build, outputLength).0 == STATUS_OBJECT_NAME_NOT_FOUND <==>
              forall i :: 0 <= i < |build(table)| ==> build(table)[i].key != request.tail[..request.keySize]
  {
    SizesAreSmall(table);
    SmallSum(GET_ALL_HEADER + request.keySize);
    SmallSum(request.rwSize + request.dynamicSize + request.staticSize);
  }

  /** and so does a get-parameter. */
  lemma GetParameterOfUnknown(request: GetParameterRequest, table: Table, build: Builder, outputLength: nat)
    requires (forall t :: RowsSized(t, build(t))) && FindTable(request.mod, request.number) == Some(table)
    requires request.keySize == KeySize(table) && request.paramType <= 2 && |request.tail| >= request.keySize
    requires request.dataOffset <= ParameterSize(table, request.paramType)
    requires outputLength <= ParameterSize(table, request.paramType) - request.dataOffset
    ensures GetParameter(Some(request), build, outputLength).0 == STATUS_OBJECT_NAME_NOT_FOUND <==>
              forall i :: 0 <= i < |build(table)| ==> build(table)[i].key != request.tail[..request.keySize]
  {
    SizesAreSmall(table);
    SmallSum(GET_PARAMETER_HEADER + request.keySize);
  }

  /** The snapshot's builders are sound, so the lookups agree on every interface list lwIP can hold. */
  lemma SnapIsSound(fill: Contents, netifs: seq<Netif>)
    requires Sized(fill) && Snapshot(netifs) && forall i :: 0 <= i < |netifs| ==> DistinctV6(netifs[i])
    ensures Sound((table: Table) => Snap(fill, table, netifs))
  {
    forall table: Table ensures RowsSized(table, Snap(fill, table, netifs)) && UniqueKeys(Snap(fill, table, netifs)) {
      SnapIsATable(fill, table, netifs);
      var rows := Snap(fill, table, netifs);
      forall i, column: Column | 0 <= i < |rows| ensures |Part(rows[i], column)| == PartSize(table, column) {
        assert rows[i] in rows;
      }
    }
  }

  /** The status of an admitted enumeration. */
  function EnumStatus(r: Enumeration, rows: seq<Row>): Status {
    if !ProbeOnly(r) && |rows| > r.count then STATUS_BUFFER_OVERFLOW else STATUS_SUCCESS
  }

  /** The caller's protocol: a zero-stride probe returns how many rows there are, whatever count it names; asking for
      that many brings all of them with success, and asking for fewer brings the first ones with BUFFER_OVERFLOW. */
  lemma ProbeThenEnumerate(probe: Enumeration, full: Enumeration, table: Table, rows: seq<Row>, length: nat,
                           column: Column, i: nat)
    requires RowsSized(table, rows) && Admitted(full, table, length) && Stride(full, column) != 0
    requires probe == Enumeration(full.mod, full.number, 0, 0, 0, 0, probe.count)
    ensures Admitted(probe, table, 4) && EnumStatus(probe, rows) == STATUS_SUCCESS
    ensures Enumerated(probe, table, rows, 4) == Le(|rows|, 4)
    ensures EnumStatus(full, rows) == STATUS_SUCCESS <==> full.count >= |rows|
    ensures i < full.count ==> Limit(full, column) <= length
    ensures i < full.count && i < |rows| ==>
              CellOf(full, Enumerated(full, table, rows, length), column, i) == Part(rows[i], column)
  {
    TimesIsProduct(0, probe.count);
    LeadingCount(probe, table, rows, 4);
    assert Enumerated(probe, table, rows, 4)[..4] == Enumerated(probe, table, rows, 4);
    Layout(full, table, length);
    SomeStride(full, column);
    if i < full.count {
      EnumerationDecodes(full, table, rows, length, column, i);
    }
  }

  lemma SomeStride(r: Enumeration, column: Column)
    requires Stride(r, column) != 0
    ensures r.keySize + r.rwSize + r.dynamicSize + r.staticSize > 0
  {
  }

  // ---------------------------------------------------------------- the verbs in place

  lemma CellsStep(s: seq<byte>, base: nat, stride: nat, cells: seq<seq<byte>>, i: nat)
    requires Fits(s, base, stride, cells) && i < |cells|
    ensures Fits(s, base, stride, cells[..i]) && Fits(s, base, stride, cells[..i + 1])
    ensures base + Times(stride, i) + |cells[i]| <= |s|
    ensures WriteCells(s, base, stride, cells[..i + 1])
         == Poke(WriteCells(s, base, stride, cells[..i]), base + Times(stride, i), cells[i])
  {
    TimesGrows(stride, i, |cells|);
    TimesGrows(stride, i + 1, |cells|);
    assert cells[..i + 1][..i] == cells[..i] && cells[..i + 1][i] == cells[i];
  }

  /** The copy loop. */
  method CopyCells(cells: seq<seq<byte>>, cursor: nat, stride: nat, output: array<byte>)
    requires Fits(output[..], cursor, stride, cells)
    modifies output
    ensures output[..] == WriteCells(old(output[..]), cursor, stride, cells)
  {
    ghost var start := output[..];
    var i := 0;
    assert cells[..0] == [];
    while i < |cells|
      invariant 0 <= i <= |cells| && Fits(start, cursor, stride, cells[..i])
      invariant output[..] == WriteCells(start, cursor, stride, cells[..i])
    {
      CellsStep(start, cursor, stride, cells, i);
      TimesIsProduct(stride, i);
      CopyBytes(output, cursor + stride * i, cells[i]);
      i := i + 1;
    }
    assert cells[..|cells|] == cells;
  }

  /** One of the four columns. */
  method CopyColumn(r: Enumeration, ghost table: Table, rows: seq<Row>, column: Column, cursor: nat,
                    output: array<byte>)
    requires Admitted(r, table, output.Length) && RowsSized(table, rows) && |rows| <= r.count
    requires cursor == Base(r, column)
    modifies output
    ensures output[..] == WriteColumn(r, table, rows, old(output[..]), column)
  {
    if Stride(r, column) != 0 {
      ColumnFits(r, table, rows, output[..], column);
      CopyCells(Cells(rows, column), cursor, Stride(r, column), output);
    }
  }

  /** NsipEnumerateAll: a refused request leaves the buffer alone. */
  method EnumerateAll(request: Option<Enumeration>, build: Builder, output: array<byte>)
    returns (status: Status, info: nat)
    requires forall table :: RowsSized(table, build(table))
    modifies output
    ensures var table := EnumTable(request, output.Length);
            table.None? ==> status == STATUS_INVALID_PARAMETER && output[..] == old(output[..])
    ensures var table := EnumTable(request, output.Length);
            table.Some? ==>
              && output[..] == Enumerated(request.value, table.value, build(table.value), output.Length)
              && status == EnumStatus(request.value, build(table.value))
              && info == Limit(request.value, StaticColumn) <= output.Length
  {
    info := 0;
    if request.None? {
      return STATUS_INVALID_PARAMETER, 0;
    }
    var r := request.value;
    TimesIsProduct(StrideSum(r), r.count);
    if output.Length < 4 + StrideSum(r) * r.count {
      return STATUS_INVALID_PARAMETER, 0;
    }
    var table := FindTable(r.mod, r.number);
    if table.None? || !StridesValid(table.value, r.keySize, r.rwSize, r.dynamicSize, r.staticSize) {
      return STATUS_INVALID_PARAMETER, 0;
    }
    Layout(r, table.value, output.Length);
    var rows := build(table.value);
    FillOutput(r, table.value, rows, output);
    info := 4 + StrideSum(r) * r.count;
    status := if !ProbeOnly(r) && |rows| > r.count then STATUS_BUFFER_OVERFLOW else STATUS_SUCCESS;
  }

  method FillOutput(r: Enumeration, ghost table: Table, rows: seq<Row>, output: array<byte>)
    requires Admitted(r, table, output.Length) && RowsSized(table, rows)
    modifies output
    ensures output[..] == Enumerated(r, table, rows, output.Length)
  {
    Layout(r, table, output.Length);
    var written := rows[..Min(|rows|, r.count)];
    ClearBytes(output);
    CopyBytes(output, 0, Le(if ProbeOnly(r) then |rows| else |written|, 4));
    var cursor := 4;
    CopyColumn(r, table, written, KeyColumn, cursor, output);
    TimesIsProduct(r.keySize, r.count);
    cursor := cursor + r.keySize * r.count;
    CopyColumn(r, table, written, RwColumn, cursor, output);
    TimesIsProduct(r.rwSize, r.count);
    cursor := cursor + r.rwSize * r.count;
    CopyColumn(r, table, written, DynamicColumn, cursor, output);
    TimesIsProduct(r.dynamicSize, r.count);
    cursor := cursor + r.dynamicSize * r.count;
    CopyColumn(r, table, written, StaticColumn, cursor, output);
  }

  method FindRowByKey(rows: seq<Row>, key: seq<byte>) returns (found: Option<nat>)
    ensures found == FindRow(rows, key, 0)
  {
    var i := 0;
    while i < |rows|
      invariant 0 <= i <= |rows| && FindRow(rows, key, 0) == FindRow(rows, key, i)
    {
      if rows[i].key == key {
        return Some(i);
      }
      i := i + 1;
    }
    return None;
  }

  /** NsipGetAllParameters on the caller's buffer. */
  method GetAllParameters(request: Option<GetAllRequest>, build: Builder, output: array<byte>)
    returns (status: Status, info: nat)
    requires forall table :: RowsSized(table, build(table))
    modifies output
    ensures var (expected, data) := GetAll(request, build, output.Length);
            status == expected && info == |data| <= output.Length
            && output[..] == data + old(output[..])[|data|..]
  {
    info := 0;
    if request.None? {
      return STATUS_INVALID_PARAMETER, 0;
    }
    var r := request.value;
    var table := FindTable(r.mod, r.number);
    if GET_ALL_HEADER + |r.tail| < (GET_ALL_HEADER + r.keySize) % WORD32 || table.None?
       || r.keySize != KeySize(table.value) || !StridesValid(table.value, 0, r.rwSize, r.dynamicSize, r.staticSize)
       || output.Length < (r.rwSize + r.dynamicSize + r.staticSize) % WORD32 {
      return STATUS_INVALID_PARAMETER, 0;
    }
    var rows := build(table.value);
    var found := FindRowByKey(rows, r.tail[..r.keySize]);
    if found.None? {
      return STATUS_OBJECT_NAME_NOT_FOUND, 0;
    }
    var row := rows[found.value];
    RowIsSized(table.value, rows, found.value);
    CopyRow(r, row, output);
    info := r.rwSize + r.dynamicSize + r.staticSize;
    status := STATUS_SUCCESS;
  }

  lemma RowIsSized(table: Table, rows: seq<Row>, i: nat)
    requires RowsSized(table, rows) && i < |rows|
    ensures |rows[i].rw| == RwSize(table) && |rows[i].dynamic| == DynamicSize(table)
    ensures |rows[i].fixed| == StaticSize(table)
  {
    PartIsSized(table, rows, i, 0);
    PartIsSized(table, rows, i, 1);
    PartIsSized(table, rows, i, 2);
  }

  method CopyRow(r: GetAllRequest, row: Row, output: array<byte>)
    requires r.rwSize != 0 ==> r.rwSize == |row.rw|
    requires r.dynamicSize != 0 ==> r.dynamicSize == |row.dynamic|
    requires r.staticSize != 0 ==> r.staticSize == |row.fixed|
    requires r.rwSize + r.dynamicSize + r.staticSize <= output.Length
    modifies output
    ensures var data := Picked(r.rwSize, row.rw) + Picked(r.dynamicSize, row.dynamic) + Picked(r.staticSize, row.fixed);
            |data| == r.rwSize + r.dynamicSize + r.staticSize && output[..] == data + old(output[..])[|data|..]
  {
    ghost var start, rw, dynamic := output[..], Picked(r.rwSize, row.rw), Picked(r.dynamicSize, row.dynamic);
    assert start == [] + start[0..];
    var cursor := 0;
    CopyPart(output, cursor, r.rwSize, row.rw, start, []);
    cursor := cursor + r.rwSize;
    assert [] + rw == rw;
    CopyPart(output, cursor, r.dynamicSize, row.dynamic, start, rw);
    cursor := cursor + r.dynamicSize;
    CopyPart(output, cursor, r.staticSize, row.fixed, start, rw + dynamic);
  }

  /** One optional piece of a row, behind what is already there. */
  method CopyPart(output: array<byte>, cursor: nat, size: nat, data: seq<byte>, ghost start: seq<byte>,
                  ghost front: seq<byte>)
    requires (size != 0 ==> size == |data|) && |start| == output.Length && cursor == |front|
    requires cursor + size <= output.Length && output[..] == front + start[|front|..]
    modifies output
    ensures |Picked(size, data)| == size
    ensures output[..] == (front + Picked(size, data)) + start[|front + Picked(size, data)|..]
  {
    PokeNext(start, front, Picked(size, data));
    if size != 0 {
      CopyBytes(output, cursor, data);
    } else {
      assert front + Picked(size, data) == front;
    }
  }

  /** NsipGetParameter on the caller's buffer. */
  method GetOneParameter(request: Option<GetParameterRequest>, build: Builder, output: array<byte>)
    returns (status: Status, info: nat)
    requires forall table :: RowsSized(table, build(table))
    modifies output
    ensures var (expected, data) := GetParameter(request, build, output.Length);
            status == expected && info == |data| && output[..] == if status == STATUS_SUCCESS then data
              else old(output[..])
  {
    info := 0;
    if request.None? {
      return STATUS_INVALID_PARAMETER, 0;
    }
    var r := request.value;
    var table := FindTable(r.mod, r.number);
    if GET_PARAMETER_HEADER + |r.tail| < (GET_PARAMETER_HEADER + r.keySize) % WORD32 || table.None?
       || r.keySize != KeySize(table.value) || r.paramType > 2 {
      return STATUS_INVALID_PARAMETER, 0;
    }
    var size := ParameterSize(table.value, r.paramType);
    if r.dataOffset > size || output.Length > size - r.dataOffset {
      return STATUS_INVALID_PARAMETER, 0;
    }
    var rows := build(table.value);
    var found := FindRowByKey(rows, r.tail[..r.keySize]);
    if found.None? {
      return STATUS_OBJECT_NAME_NOT_FOUND, 0;
    }
    PartIsSized(table.value, rows, found.value, r.paramType);
    var data := ParameterPart(rows[found.value], r.paramType)[r.dataOffset..r.dataOffset + output.Length];
    assert GetParameter(request, build, output.Length) == (STATUS_SUCCESS, data);
    PokeAll(output[..], data);
    CopyBytes(output, 0, data);
    return STATUS_SUCCESS, output.Length;
  }
}
