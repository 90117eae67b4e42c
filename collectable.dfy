/** The `Collectable` trait of `src/collectable.rs`: values read from
    consecutive 0-based columns of the current row while a shared `&mut`
    column counter is advanced. */
module Collecting {
  import opened Sqlite
  import opened Statements

  /** The types that implement `Collectable`: `()`, `c_int`, `c_double`,
      `String`, `Box<[u8]>` and 3-tuples of collectables. */
  datatype Shape =
    | UnitShape
    | IntShape
    | DoubleShape
    | TextShape
    | BlobShape
    | Triple(s0: Shape, s1: Shape, s2: Shape)

  /** A collected value; `String` is carried as its bytes. */
  datatype Collected =
    | UnitValue
    | IntValue(i32: Int32)
    | DoubleValue(f64: Double)
    | TextValue(utf8: seq<Byte>)
    | BlobValue(blob: seq<Byte>)
    | TripleValue(v0: Collected, v1: Collected, v2: Collected)

  predicate IsScalarShape(s: Shape) {
    s.IntShape? || s.DoubleShape? || s.TextShape? || s.BlobShape?
  }

  /** The scalar types of a shape in declaration order. */
  function Leaves(s: Shape): (ls: seq<Shape>)
    ensures forall k :: 0 <= k < |ls| ==> IsScalarShape(ls[k])
  {
    match s
    case UnitShape => []
    case Triple(a, b, c) => Leaves(a) + Leaves(b) + Leaves(c)
    case _ => [s]
  }

  /** The number of columns a shape reads. */
  function Width(s: Shape): nat {
    |Leaves(s)|
  }

  /** The scalar values of a collected value in declaration order. */
  function Flatten(v: Collected): seq<Collected> {
    match v
    case UnitValue => []
    case TripleValue(a, b, c) => Flatten(a) + Flatten(b) + Flatten(c)
    case _ => [v]
  }

  /** Copies what a text or blob accessor returned: nothing for a byte count
      of 0 (the pointer may then be null), else exactly `count` bytes. */
  function ReadBytes(r: RawBytes): (bytes: seq<Byte>)
    requires Readable(r)
    ensures |bytes| == r.count
    ensures forall k :: 0 <= k < |bytes| ==> r.buffer.Some? && bytes[k] == r.buffer.value[k]
  {
    if r.count == 0 then [] else r.buffer.value[..r.count]
  }

  /** The value a scalar impl makes of one column. */
  function ReadScalar(cell: ReadableCell, s: Shape): Collected
    requires IsScalarShape(s)
  {
    match s
    case IntShape => IntValue(cell.asInt)
    case DoubleShape => DoubleValue(cell.asDouble)
    case TextShape => TextValue(ReadBytes(cell.asText))
    case BlobShape => BlobValue(ReadBytes(cell.asBlob))
  }

  /** A collected value together with the column counter afterwards. */
  datatype Collection = Collection(value: Collected, next: int)

  /** `Collectable::collect` of shape `s` from column `column` of `row`. */
  function CollectSpec(row: seq<ReadableCell>, s: Shape, column: int): Collection
  {
    match s
    case UnitShape => Collection(UnitValue, column)
    case Triple(a, b, c) =>
      var r0 := CollectSpec(row, a, column);
      var r1 := CollectSpec(row, b, r0.next);
      var r2 := CollectSpec(row, c, r1.next);
      Collection(TripleValue(r0.value, r1.value, r2.value), r2.next)
    case _ => Collection(ReadScalar(CellAt(row, column), s), column + 1)
  }

  /** `Collectable::collect`: reads a value of shape `s` from the current row
      of `st`, starting at `column`, and returns it with the advanced counter. */
  method Collect(st: Statement, s: Shape, column: int) returns (v: Collected, next: int)
    ensures Collection(v, next)
         == CollectSpec(st.engine.oracle.currentRow(st.engine.log, st.stmt), s, column)
  {
    match s
    case UnitShape =>
      v, next := UnitValue, column;
    case IntShape =>
      var i := st.engine.ColumnInt(st.stmt, column);
      next := column + 1;
      v := IntValue(i);
    case DoubleShape =>
      var d := st.engine.ColumnDouble(st.stmt, column);
      next := column + 1;
      v := DoubleValue(d);
    case TextShape =>
      var raw := st.engine.ColumnText(st.stmt, column);
      next := column + 1;
      v := TextValue(ReadBytes(raw));
    case BlobShape =>
      var raw := st.engine.ColumnBlob(st.stmt, column);
      next := column + 1;
      v := BlobValue(ReadBytes(raw));
    case Triple(a, b, c) =>
      var v0, v1, v2;
      v0, next := Collect(st, a, column);
      v1, next := Collect(st, b, next);
      v2, next := Collect(st, c, next);
      v := TripleValue(v0, v1, v2);
  }

  /** `vals` are the scalars of types `ls` read from consecutive columns
      starting at `column`. */
  predicate ReadsFrom(row: seq<ReadableCell>, vals: seq<Collected>, ls: seq<Shape>, column: int) {
    && |vals| == |ls|
    && forall k :: 0 <= k < |ls| ==>
         IsScalarShape(ls[k]) && vals[k] == ReadScalar(CellAt(row, column + k), ls[k])
  }

  lemma ReadsFromAppend(row: seq<ReadableCell>, v1: seq<Collected>, l1: seq<Shape>,
                        v2: seq<Collected>, l2: seq<Shape>, column: int)
    requires ReadsFrom(row, v1, l1, column) && ReadsFrom(row, v2, l2, column + |l1|)
    ensures ReadsFrom(row, v1 + v2, l1 + l2, column)
  {
    forall k | |l1| <= k < |l1| + |l2|
      ensures (v1 + v2)[k] == v2[k - |l1|] && (l1 + l2)[k] == l2[k - |l1|]
    {
    }
  }

  /** Collecting reads the shape's scalars from consecutive columns in
      declaration order: the k-th scalar comes from column `column + k`, and
      the counter ends advanced by the shape's width. */
  lemma {:induction false} CollectReadsLeavesInOrder(row: seq<ReadableCell>, s: Shape, column: int)
    ensures CollectSpec(row, s, column).next == column + Width(s)
    ensures ReadsFrom(row, Flatten(CollectSpec(row, s, column).value), Leaves(s), column)
  {
    match s
    case UnitShape =>
    case Triple(a, b, c) =>
      var r0 := CollectSpec(row, a, column);
      var r1 := CollectSpec(row, b, r0.next);
      var r2 := CollectSpec(row, c, r1.next);
      CollectReadsLeavesInOrder(row, a, column);
      CollectReadsLeavesInOrder(row, b, r0.next);
      CollectReadsLeavesInOrder(row, c, r1.next);
      ReadsFromAppend(row, Flatten(r0.value), Leaves(a), Flatten(r1.value), Leaves(b), column);
      ReadsFromAppend(row, Flatten(r0.value) + Flatten(r1.value), Leaves(a) + Leaves(b),
                      Flatten(r2.value), Leaves(c), column);
    case _ =>
  }

  /** `()` reads nothing and leaves the counter unchanged. */
  lemma UnitCollectsNothing(row: seq<ReadableCell>, column: int)
    ensures CollectSpec(row, UnitShape, column) == Collection(UnitValue, column)
  {
  }

  /** `c_int` and `c_double` read column `column` and advance by one. */
  lemma NumberCollect(row: seq<ReadableCell>, column: int)
    ensures CollectSpec(row, IntShape, column)
         == Collection(IntValue(CellAt(row, column).asInt), column + 1)
    ensures CollectSpec(row, DoubleShape, column)
         == Collection(DoubleValue(CellAt(row, column).asDouble), column + 1)
  {
  }

  /** `String` and `Box<[u8]>`: a column with a byte count of 0 (including a
      NULL column, whose pointer is null) yields an empty value, and the
      counter still advances by one; otherwise the result is exactly the
      column's bytes. */
  lemma BytesCollect(row: seq<ReadableCell>, column: int, buffer: seq<Byte>)
    ensures CellAt(row, column).asText.count == 0 ==>
      CollectSpec(row, TextShape, column) == Collection(TextValue([]), column + 1)
    ensures CellAt(row, column).asBlob.count == 0 ==>
      CollectSpec(row, BlobShape, column) == Collection(BlobValue([]), column + 1)
    ensures CellAt(row, column).asText == RawBytes(Some(buffer + [0]), |buffer|) ==>
      CollectSpec(row, TextShape, column) == Collection(TextValue(buffer), column + 1)
    ensures CellAt(row, column).asBlob == RawBytes(Some(buffer), |buffer|) ==>
      CollectSpec(row, BlobShape, column) == Collection(BlobValue(buffer), column + 1)
  {
    if CellAt(row, column).asText == RawBytes(Some(buffer + [0]), |buffer|) {
      assert (buffer + [0])[..|buffer|] == buffer;
    }
    if CellAt(row, column).asBlob == RawBytes(Some(buffer), |buffer|) {
      assert buffer[..|buffer|] == buffer;
    }
  }

  /** A 3-tuple of scalars reads columns `column`, `column + 1`, `column + 2`
      in declaration order and ends the counter at `column + 3`. */
  lemma ScalarTripleCollect(row: seq<ReadableCell>, a: Shape, b: Shape, c: Shape, column: int)
    requires IsScalarShape(a) && IsScalarShape(b) && IsScalarShape(c)
    ensures CollectSpec(row, Triple(a, b, c), column)
         == Collection(TripleValue(ReadScalar(CellAt(row, column), a),
                                   ReadScalar(CellAt(row, column + 1), b),
                                   ReadScalar(CellAt(row, column + 2), c)), column + 3)
  {
  }

  /** The shapes the older revision in `src/lib.rs` implements: the same
      impls without `Box<[u8]>`. */
  predicate LibShape(s: Shape) {
    match s
    case BlobShape => false
    case Triple(a, b, c) => LibShape(a) && LibShape(b) && LibShape(c)
    case _ => true
  }
}
