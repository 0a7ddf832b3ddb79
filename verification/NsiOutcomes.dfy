/**
 The verbs of \Device\Nsi on the bytes (drivers/nsi.c:411-662): which requests are refused, and where in the caller's
 buffer each part of each row lands.
 */
module NsiOutcomes {
  import opened NtKernel
  import opened NsiTables
  import opened NsiRows
  import opened NsiVerbs

  // ---------------------------------------------------------------- the directory

  /** The table's row sizes, in bytes. */
  predicate Sizes(table: Table, key: nat, rw: nat, dynamic: nat, fixed: nat) {
    KeySize(table) == key && RwSize(table) == rw && DynamicSize(table) == dynamic && StaticSize(table) == fixed
  }

  /** Five tables: interfaces, IPv4 and IPv6 addresses, IPv4 and IPv6 routes. */
  lemma DirectoryOutcome(mod: Module, number: nat)
    ensures FindTable(Ndis, 0) == Some(Ifinfo) && Sizes(Ifinfo, 8, 1092, 216, 600)
    ensures FindTable(Ipv4, 10) == Some(V4Unicast) && Sizes(V4Unicast, 16, 28, 8, 8)
    ensures FindTable(Ipv6, 10) == Some(V6Unicast) && Sizes(V6Unicast, 24, 28, 8, 8)
    ensures FindTable(Ipv4, 16) == Some(V4Forward) && Sizes(V4Forward, 48, 32, 20, 8)
    ensures FindTable(Ipv6, 16) == Some(V6Forward) && Sizes(V6Forward, 72, 32, 32, 8)
    ensures (mod, number) !in {(Ndis, 0), (Ipv4, 10), (Ipv6, 10), (Ipv4, 16), (Ipv6, 16)} ==>
              FindTable(mod, number) == None
  {
  }

  predicate ExactOrZero(size: nat, exact: nat) { size == 0 || size == exact }

  // ---------------------------------------------------------------- enumerate

  /** An enumeration is refused exactly when its input is too short, its table does not exist, a stride is neither
      zero nor the table's, or its buffer has no room for the count and that many rows of the strides, added in 32
      bits. */
  lemma EnumRefusals(request: Option<Enumeration>, outputLength: nat)
    ensures EnumTable(request, outputLength).None? <==>
              || request.None?
              || var r := request.value;
                 || outputLength < 4 + (r.keySize + r.rwSize + r.dynamicSize + r.staticSize) % 0x1_0000_0000 * r.count
                 || FindTable(r.mod, r.number).None?
                 || var table := FindTable(r.mod, r.number).value;
                    !(ExactOrZero(r.keySize, KeySize(table)) && ExactOrZero(r.rwSize, RwSize(table))
                      && ExactOrZero(r.dynamicSize, DynamicSize(table)) && ExactOrZero(r.staticSize, StaticSize(table)))
    ensures EnumTable(request, outputLength).Some? ==>
              EnumTable(request, outputLength) == FindTable(request.value.mod, request.value.number)
  {
    if request.Some? {
      TimesIsProduct(StrideSum(request.value), request.value.count);
    }
  }

  /** The piece of the buffer behind `at`. */
  predicate PieceAt(out: seq<byte>, at: int, data: seq<byte>) {
    0 <= at <= |out| - |data| && out[at..at + |data|] == data
  }

  /** A row's part in one of the four columns: where the column starts, how far apart its cells are, and the part. */
  function Place(r: Enumeration, row: Row, column: Column): (int, nat, seq<byte>) {
    match column
    case KeyColumn => (4, r.keySize, row.key)
    case RwColumn => (4 + r.keySize * r.count, r.rwSize, row.rw)
    case DynamicColumn => (4 + r.keySize * r.count + r.rwSize * r.count, r.dynamicSize, row.dynamic)
    case StaticColumn =>
      (4 + r.keySize * r.count + r.rwSize * r.count + r.dynamicSize * r.count, r.staticSize, row.fixed)
  }

  lemma PlaceIsBase(r: Enumeration, row: Row, column: Column)
    ensures Place(r, row, column) == (Base(r, column), Stride(r, column), Part(row, column))
  {
    TimesIsProduct(r.keySize, r.count);
    TimesIsProduct(r.rwSize, r.count);
    TimesIsProduct(r.dynamicSize, r.count);
  }

  lemma CellBytes(r: Enumeration, table: Table, rows: seq<Row>, length: nat, column: Column, i: nat, offset: int)
    requires Admitted(r, table, length) && RowsSized(table, rows) && i < |rows| && i < r.count
    requires Stride(r, column) != 0 && offset == Stride(r, column) * i
    ensures PieceAt(Enumerated(r, table, rows, length), Base(r, column) + offset, Part(rows[i], column))
  {
    EnumerationDecodes(r, table, rows, length, column, i);
    var lo, hi := CellSpan(r, column, i);
    TimesIsProduct(Stride(r, column), i);
    StrideIsValid(r, table, length, column);
    assert |Part(rows[i], column)| == PartSize(table, column);
  }

  /** An enumeration's output: behind the leading word a column of keys, one of rw parts, one of dynamic and one of
      static parts, each as long as the caller's count, and each left out at stride zero. */
  lemma EnumerationBytes(r: Enumeration, table: Table, rows: seq<Row>, length: nat, column: Column, i: nat)
    requires Admitted(r, table, length) && RowsSized(table, rows) && i < |rows| && i < r.count
    ensures var (base, stride, part) := Place(r, rows[i], column);
            stride != 0 ==> PieceAt(Enumerated(r, table, rows, length), base + stride * i, part)
  {
    PlaceIsBase(r, rows[i], column);
    if Stride(r, column) != 0 {
      CellBytes(r, table, rows, length, column, i, Stride(r, column) * i);
    }
  }

  lemma StrideIsValid(r: Enumeration, table: Table, length: nat, column: Column)
    requires Admitted(r, table, length) && Stride(r, column) != 0
    ensures Stride(r, column) == PartSize(table, column)
  {
    StrideIsSize(r, table, column);
  }

  /** The leading word is how many rows were written, or, when every stride is zero, how many there are. */
  lemma LeadingWord(r: Enumeration, table: Table, rows: seq<Row>, length: nat)
    requires Admitted(r, table, length) && RowsSized(table, rows) && |rows| < 0x1_0000_0000
    ensures WordAt(Enumerated(r, table, rows, length), 0,
                   if r.keySize + r.rwSize + r.dynamicSize + r.staticSize == 0 || |rows| < r.count then |rows|
                   else r.count)
  {
    var out := Enumerated(r, table, rows, length);
    LeadingCount(r, table, rows, length);
    LeWord(if r.keySize + r.rwSize + r.dynamicSize + r.staticSize == 0 || |rows| < r.count then |rows| else r.count);
    assert out[..4][0] == out[0] && out[..4][1] == out[1] && out[..4][2] == out[2] && out[..4][3] == out[3];
  }

  /** The length the verb reports: the strides' room for the caller's count. */
  lemma TotalLength(r: Enumeration, table: Table, length: nat, sum: nat)
    requires Admitted(r, table, length) && sum == r.keySize + r.rwSize + r.dynamicSize + r.staticSize
    ensures Limit(r, StaticColumn) == 4 + sum * r.count && Limit(r, StaticColumn) <= length
  {
    Layout(r, table, length);
    TimesIsProduct(sum, r.count);
  }

  /** Behind it, everything is zero. */
  lemma NothingBehind(r: Enumeration, table: Table, rows: seq<Row>, length: nat)
    requires Admitted(r, table, length) && RowsSized(table, rows)
    ensures Limit(r, StaticColumn) <= length
    ensures ZeroAt(Enumerated(r, table, rows, length), Limit(r, StaticColumn), length)
  {
    Layout(r, table, length);
    TimesGrows(r.staticSize, Written(r, rows), r.count);
    ZeroTail(r, table, rows, length, Limit(r, StaticColumn));
  }

  lemma ZeroTail(r: Enumeration, table: Table, rows: seq<Row>, length: nat, end: nat)
    requires Admitted(r, table, length) && RowsSized(table, rows) && end <= length
    requires Base(r, StaticColumn) + Times(r.staticSize, Written(r, rows)) <= end
    ensures ZeroAt(Enumerated(r, table, rows, length), end, length)
  {
    var out := Enumerated(r, table, rows, length);
    ZerosAhead(r, table, rows, length, StaticColumn, end, length);
    forall k | end <= k < length ensures out[k] == 0 {
      assert out[end..length][k - end] == 0;
    }
  }

  // ---------------------------------------------------------------- point lookups

  /** A get-all is refused exactly when its input is too short for the key it names, its table does not exist, its key
      size is not the table's, a stride is neither zero nor the table's, or its buffer is too short for the strides.
      */
  lemma GetAllRefusals(request: Option<GetAllRequest>, build: Builder, outputLength: nat)
    ensures GetAll(request, build, outputLength).0 == STATUS_INVALID_PARAMETER <==>
              || request.None?
              || var r := request.value;
                 || 48 + |r.tail| < (48 + r.keySize) % 0x1_0000_0000
                 || FindTable(r.mod, r.number).None?
                 || var table := FindTable(r.mod, r.number).value;
                    || r.keySize != KeySize(table)
                    || !ExactOrZero(r.rwSize, RwSize(table)) || !ExactOrZero(r.dynamicSize, DynamicSize(table))
                    || !ExactOrZero(r.staticSize, StaticSize(table))
                    || outputLength < r.rwSize + r.dynamicSize + r.staticSize
    ensures GetAll(request, build, outputLength).0
              in {STATUS_INVALID_PARAMETER, STATUS_OBJECT_NAME_NOT_FOUND, STATUS_SUCCESS}
    ensures GetAll(request, build, outputLength).0 != STATUS_SUCCESS ==> GetAll(request, build, outputLength).1 == []
  {
    if request.Some? && FindTable(request.value.mod, request.value.number).Some? {
      SizesAreSmall(FindTable(request.value.mod, request.value.number).value);
    }
  }

  /** A get-parameter is refused exactly when its input is too short for the key it names, its table does not exist,
      its key size is not the table's, its part does not exist, or the slice it asks for does not lie inside the part.
      */
  lemma GetParameterRefusals(request: Option<GetParameterRequest>, build: Builder, outputLength: nat)
    requires forall table :: RowsSized(table, build(table))
    ensures GetParameter(request, build, outputLength).0 == STATUS_INVALID_PARAMETER <==>
              || request.None?
              || var r := request.value;
                 || 44 + |r.tail| < (44 + r.keySize) % 0x1_0000_0000
                 || FindTable(r.mod, r.number).None?
                 || var table := FindTable(r.mod, r.number).value;
                    || r.keySize != KeySize(table) || r.paramType > 2
                    || r.dataOffset + outputLength > (if r.paramType == 0 then RwSize(table)
                                                      else if r.paramType == 1 then DynamicSize(table)
                                                      else StaticSize(table))
    ensures GetParameter(request, build, outputLength).0
              in {STATUS_INVALID_PARAMETER, STATUS_OBJECT_NAME_NOT_FOUND, STATUS_SUCCESS}
    ensures GetParameter(request, build, outputLength).0 != STATUS_SUCCESS ==>
              GetParameter(request, build, outputLength).1 == []
  {
  }

  /** The parts of a row a get-parameter slices: 0 is rw, 1 dynamic, 2 static. */
  lemma PartsOutcome(row: Row)
    ensures ParameterPart(row, 0) == row.rw && ParameterPart(row, 1) == row.dynamic
    ensures ParameterPart(row, 2) == row.fixed
    ensures forall size: nat, data :: Picked(size, data) == if size == 0 then [] else data
  {
  }
}
