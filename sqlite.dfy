/** The foreign SQLite C library, seen from the wrapper as an oracle.
    The wrapper never looks inside the engine: it issues calls and reads back
    status codes, handles and the columns of the current row. Here every call
    that can change the engine's state is appended to a log; column reads are
    not. A status code or a handle is a fixed function of the log so far and
    the call being made, and the current row of a statement a fixed function
    of the log so far and the statement's handle. Nothing about how SQLite
    computes those answers is modelled. */
module Sqlite {

  // Result codes and open flags of the SQLite C interface
  // ("Result and Error Codes", "Flags For File Open Operations").
  const SQLITE_OK: nat := 0
  const SQLITE_ROW: nat := 100
  const SQLITE_DONE: nat := 101
  const SQLITE_OPEN_READWRITE: nat := 0x0000_0002
  const SQLITE_OPEN_CREATE: nat := 0x0000_0004

  /** C `int` (`c_int`): 32-bit two's complement. */
  type Int32 = x: int | -0x8000_0000 <= x < 0x8000_0000
  /** `sqlite3_int64`. */
  type Int64 = x: int | -0x8000_0000_0000_0000 <= x < 0x8000_0000_0000_0000
  newtype Byte = b: int | 0 <= b < 256

  /** A C `double` carried opaquely by its 64 bits; no arithmetic is done on it. */
  datatype Double = Double(bits: bv64)

  datatype Option<T> = None | Some(value: T)

  /** A native `sqlite3*` or `sqlite3_stmt*`; `Null` is the null pointer. */
  datatype Handle = Null | Live(id: nat)

  /** One call into the C library, with the arguments the wrapper passes. */
  datatype Call =
    | OpenV2(filename: seq<Byte>, flags: Int32)                   // sqlite3_open_v2
    | Close(db: Handle)                                           // sqlite3_close
    | PrepareV2(db: Handle, sql: seq<Byte>, nByte: int)           // sqlite3_prepare_v2
    | BindInt(stmt: Handle, pos: int, i32: Int32)                 // sqlite3_bind_int
    | BindInt64(stmt: Handle, pos: int, i64: Int64)               // sqlite3_bind_int64
    | BindDouble(stmt: Handle, pos: int, f64: Double)             // sqlite3_bind_double
    | BindText(stmt: Handle, pos: int, text: seq<Byte>, n: int)   // sqlite3_bind_text, SQLITE_TRANSIENT
    | BindBlob(stmt: Handle, pos: int, blob: seq<Byte>, n: int)   // sqlite3_bind_blob, SQLITE_TRANSIENT
    | Step(stmt: Handle)                                          // sqlite3_step
    | Reset(stmt: Handle)                                         // sqlite3_reset
    | Finalize(stmt: Handle)                                      // sqlite3_finalize

  predicate IsBindCall(c: Call) {
    c.BindInt? || c.BindInt64? || c.BindDouble? || c.BindText? || c.BindBlob?
  }

  /** What `sqlite3_column_text`/`sqlite3_column_blob` return (a possibly null
      pointer to a buffer) together with `sqlite3_column_bytes`. */
  datatype RawBytes = RawBytes(buffer: Option<seq<Byte>>, count: nat)

  /** The engine's guarantee: a non-zero byte count comes with a buffer that
      holds at least that many bytes (a text buffer also holds its NUL). */
  predicate Readable(r: RawBytes) {
    r.count == 0 || (r.buffer.Some? && r.count <= |r.buffer.value|)
  }

  /** One column of the current row, as each `sqlite3_column_*` accessor
      reports it (the engine's type conversions are already applied). */
  datatype Cell = Cell(asInt: Int32, asDouble: Double, asText: RawBytes, asBlob: RawBytes)

  const NullCell: Cell := Cell(0, Double(0), RawBytes(None, 0), RawBytes(None, 0))

  type ReadableCell = c: Cell | Readable(c.asText) && Readable(c.asBlob) witness NullCell

  /** Column `column` of `row`. The C interface leaves the result of a column
      index outside the row undefined; the model reads it as an SQL NULL
      (0, 0.0, a null pointer and a byte count of 0). Rows may have any
      length, so this choice fixes only what such a read returns. */
  function CellAt(row: seq<ReadableCell>, column: int): (c: ReadableCell)
    ensures 0 <= column < |row| ==> c == row[column]
    ensures !(0 <= column < |row|) ==> c == NullCell
  {
    if 0 <= column < |row| then row[column] else NullCell
  }

  /** The engine's answers: the status code of a call, the handle that
      `sqlite3_open_v2`/`sqlite3_prepare_v2` write to their out-parameter,
      and the current row of a statement; each may depend on all earlier calls. */
  datatype Oracle = Oracle(
    answer: (seq<Call>, Call) -> Int32,
    handleFor: (seq<Call>, Call) -> Handle,
    currentRow: (seq<Call>, Handle) -> seq<ReadableCell>)

  /** The C library: the log of the calls made to it so far. */
  class Engine {
    const oracle: Oracle
    var log: seq<Call>

    constructor (oracle: Oracle)
      ensures this.oracle == oracle && log == []
    {
      this.oracle := oracle;
      log := [];
    }

    /** Makes the call `c` and returns the engine's status code for it. */
    method Invoke(c: Call) returns (code: Int32)
      modifies this
      ensures log == old(log) + [c]
      ensures code == oracle.answer(old(log), c)
    {
      code := oracle.answer(log, c);
      log := log + [c];
    }

    /** Makes the call `c`, which also produces a handle through a pointer
        out-parameter. */
    method InvokeForHandle(c: Call) returns (code: Int32, h: Handle)
      modifies this
      ensures log == old(log) + [c]
      ensures code == oracle.answer(old(log), c)
      ensures h == oracle.handleFor(old(log), c)
    {
      code, h := oracle.answer(log, c), oracle.handleFor(log, c);
      log := log + [c];
    }

    /** `sqlite3_column_int`, `sqlite3_column_double`, `sqlite3_column_text`
        and `sqlite3_column_blob` with `sqlite3_column_bytes`: reads of the
        current row; they change nothing in the engine and are not logged. */
    method ColumnInt(stmt: Handle, column: int) returns (i: Int32)
      ensures i == CellAt(oracle.currentRow(log, stmt), column).asInt
    {
      i := CellAt(oracle.currentRow(log, stmt), column).asInt;
    }

    method ColumnDouble(stmt: Handle, column: int) returns (d: Double)
      ensures d == CellAt(oracle.currentRow(log, stmt), column).asDouble
    {
      d := CellAt(oracle.currentRow(log, stmt), column).asDouble;
    }

    method ColumnText(stmt: Handle, column: int) returns (r: RawBytes)
      ensures r == CellAt(oracle.currentRow(log, stmt), column).asText && Readable(r)
    {
      r := CellAt(oracle.currentRow(log, stmt), column).asText;
    }

    method ColumnBlob(stmt: Handle, column: int) returns (r: RawBytes)
      ensures r == CellAt(oracle.currentRow(log, stmt), column).asBlob && Readable(r)
    {
      r := CellAt(oracle.currentRow(log, stmt), column).asBlob;
    }
  }
}
