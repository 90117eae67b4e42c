# rsqlite typed marshalling, modelled in Dafny

rsqlite is a thin Rust wrapper over the SQLite C library. Its core is a
typed marshalling layer with four parts:

- `Bindable` values write themselves to 1-based statement parameters.
- `Collectable` types read themselves from 0-based columns of the current row.
- `Iterable` callbacks get their arguments collected from a row.
- `Database`/`Statement` drive the C handles: open, prepare, bind, step, reset, finalize, close.

Errors come back as `RsqliteError`, classified from SQLite result codes.

The C library is not modelled. It is an oracle (`Sqlite.Oracle`) behind the
class `Sqlite.Engine`, which keeps a log of the calls that can change the
engine's state: open, close, prepare, the binds, step, reset and finalize.
The column accessors are reads and are not logged. The engine's answers are
fixed functions of the log so far:

- the status code of a call is a function of the log and that call;
- the handle that open or prepare writes out is a function of the log and that call;
- the current row of a statement is a function of the log and the statement's handle.

Every operation is then specified by the logged calls it makes and by the
result it returns; what it reads from the current row is a function of the
log at the time of the read.

Files and modules:

| file | module | models |
|---|---|---|
| `sqlite.dfy` | `Sqlite` | the C interface: result codes, calls, handles, rows, the engine |
| `error.dfy` | `Errors` | `src/error.rs`: `RsqliteError` and `From<c_int>` |
| `statement.dfy` | `Statements` | `Statement` and its `Drop` |
| `bindable.dfy` | `Binding` | `src/bindable.rs`: binding through a shared `&mut` index |
| `collectable.dfy` | `Collecting` | `src/collectable.rs` and the `Collectable` impls of `src/lib.rs` |
| `iterable.dfy` | `Iterating` | `src/iterable.rs` |
| `lib.dfy` | `Library` | `src/lib.rs`: `Database`, and the binder that returns the next index |

Representation choices:

- Rust's generic impls become data. `Binding.Bindable` is a value of a type that implements `Bindable`. `Collecting.Shape` is a type that implements `Collectable`, and `Collecting.Collected` is a value of such a type.
- A `Bindable` tuple of arity n is a sequence of n elements, and so is a callback's argument list; the collector's only tuple, the 3-tuple, is a three-field constructor. Binders and collectors dispatch on the datatype.
- The `&mut c_int` index or column counter is an input and an output of the method. Callers thread it along as Rust does.
- `ecode & 255` on a two's-complement `c_int` is Dafny's Euclidean `ecode % 256`. This holds for negative codes too.
- A column index outside the row reads as SQL NULL. The C interface leaves such a read undefined, and rows may have any length, so this choice only fixes what an out-of-range read returns. It lets the collectors do without a precondition on the column.

Behaviour of the source worth noting:

- `execute` never resets its statement.
- `execute` and `collect` do not reset after a bind error, because the `?` returns before the step.
- Nothing validates column counts against the statement.
- `Iterable::iterate` collects one row and calls the callback once. It does not loop over the rows.

## Model

| member | source | states |
|---|---|---|
| Errors.FromCode | src/error.rs:63-95 | total on every `c_int`, negatives included; never `InvalidCString`; `Unknown` exactly when the low byte is not one of the 24 listed primaries, and then it carries the unmasked code; a named variant's primary code equals the low byte |
| Errors.LowByte | src/error.rs:66 | `ecode & 255` lies in 0..255 and differs from `ecode` by a multiple of 256 |
| Errors.SameLowByteSameClass | src/error.rs:66-93 | classification depends only on the low 8 bits: two codes with the same low byte get the same named variant, or both get `Unknown` of their own code |
| Errors.ExtendedConstraintIsConstraint | src/error.rs:66-91 | the extended code `19 | 8 << 8` classifies as `Constraint` |
| Errors.PrimaryRoundTrip | src/error.rs:67-91 | every named variant is what its own primary code classifies as |
| Errors.PrimaryCodeInjective | src/error.rs:67-91 | distinct named variants stand for distinct primary codes |
| Errors.ListedCodesClassifyInjectively | src/error.rs:68-91 | each of the 24 listed primaries gives a named variant, and different primaries give different variants |
| Errors.UnlistedCodesAreUnknown | src/error.rs:92 | 0, 16, 24, 100 (ROW), 101 (DONE) and -1 give `Unknown` of the code itself |
| Binding.ScalarCall | src/bindable.rs:28-96 | every scalar makes one bind call on the statement at the given position: `i32`, `c_double` and `sqlite3_int64` pass their own value to the matching bind call, text and blob calls pass the bytes and their exact length |
| Binding.Bind | src/bindable.rs:7-110 | binding through the `&mut` index leaves the result, the index and the call log exactly as the reference definition `BindSpec` says; the tuple loop stops at the first error |
| Binding.RunCallsStatuses | src/bindable.rs:104-106 | in a run of calls that stops at the first refusal, every call before the last was accepted, and a refused run reports the last call's status |
| Binding.BindSeqStopsAtError | src/bindable.rs:105 | once a prefix of a tuple fails, binding the whole tuple gives that prefix's result, index and log: later elements are never bound |
| Binding.PlanPositions | src/bindable.rs:98-110 | a value's planned calls are one bind call per position, the k-th at `index + k`, as many as the value's width |
| Binding.BindFollowsPlan | src/bindable.rs:14-110 | binding any nested value is making its flat plan of calls and stopping at the first refused one; the error is that call's status classified, and the index has moved past every call made, the refused one included |
| Binding.BindLeavesPlanPrefix | src/bindable.rs:98-110 | binding any value leaves a prefix of its planned calls in the log and the index just past it: the whole plan on success, and otherwise a non-empty prefix ending with the refused call, whose status classified is the error |
| Binding.UnitBindsNothing | src/bindable.rs:23-27 | `()` makes no call and leaves the index unchanged |
| Binding.ScalarBind | src/bindable.rs:28-96 | a scalar makes one call at `index` and always advances the index by one; it succeeds iff the status is SQLITE_OK, and otherwise the error is the status classified |
| Binding.RefBindsAsTarget | src/bindable.rs:14-21 | `&T` binds exactly as `T` does |
| Binding.ScalarTupleBind | src/bindable.rs:104-107 | a tuple of scalars puts element k at `index + k`; on success all n calls were made and the index ends at `index + n`; on failure only a prefix of the calls was made, the index is past the refused one, and the error is the refused call's status classified |
| Binding.ByteExactBind | src/bindable.rs:58-96 | binding text or a blob appends exactly one call carrying the input bytes and their length; an empty input binds as a zero-length value, not NULL |
| Collecting.ReadBytes | src/collectable.rs:34-65 | a byte count of 0 yields an empty value; otherwise the result is exactly `count` bytes of the column's buffer |
| Collecting.Collect | src/collectable.rs:6-79 | collecting through the `&mut` column counter returns the value and counter that the reference definition `CollectSpec` gives for the current row |
| Collecting.CollectReadsLeavesInOrder | src/collectable.rs:67-79 | a nested shape reads its scalars from consecutive columns in declaration order, the k-th from `column + k`; the counter ends advanced by the shape's width |
| Collecting.UnitCollectsNothing | src/collectable.rs:15-17 | `()` reads nothing and leaves the counter unchanged |
| Collecting.NumberCollect | src/collectable.rs:19-33 | `c_int` and `c_double` read column `column` and advance the counter by one |
| Collecting.BytesCollect | src/collectable.rs:34-65 | `String` and `Box<[u8]>` give an empty value for a byte count of 0, and exactly the column's bytes otherwise; the counter advances by one either way |
| Collecting.ScalarTripleCollect | src/collectable.rs:67-79 | a 3-tuple of scalars reads columns `column`, `column + 1` and `column + 2` in order, and the counter ends at `column + 3` |
| Iterating.Callback.Call | src/iterable.rs:14-18 | calling an `FnMut` records the call and returns what its captured state and the arguments determine |
| Iterating.Iterate | src/iterable.rs:7-22 | collects the arguments left to right from the running index, calls the callback exactly once with them, returns its result, and leaves the index where the collection ended |
| Iterating.ArgsAdvanceByWidth | src/iterable.rs:18 | one value per argument type, and the index advances by the total width of the argument types |
| Iterating.ArgsFromConsecutiveColumns | src/iterable.rs:18 | argument k is what collecting its type gives from its start column |
| Iterating.StartsArePrefixWidths | src/iterable.rs:18 | argument k starts at `index` plus the widths of the arguments before it |
| Iterating.ScalarArgs | src/iterable.rs:18 | with scalar argument types, argument k comes from column `index + k` and the index ends at `index + n` |
| Iterating.ArgsMatchTriple | src/iterable.rs:26 | a three-argument callback receives exactly what the 3-tuple `Collectable` impl collects, and the index ends where that impl ends it |
| Library.CString | src/lib.rs:95 | succeeds iff the text has no NUL, giving the text followed by a NUL; otherwise the error is `InvalidCString` at the first NUL |
| Library.Database.OpenWithFlags | src/lib.rs:94-106 | makes the calls and returns the result that `OpenSpec` gives; on success a fresh `Database` holds the engine's handle |
| Library.Database.Open | src/lib.rs:78-81 | is `OpenWithFlags` with `DefaultOpenFlags` |
| Library.DefaultFlagsAreReadWriteCreate | src/lib.rs:79 | the default flags are SQLITE_OPEN_READWRITE plus SQLITE_OPEN_CREATE, which is 6 |
| Library.Database.Prepare | src/lib.rs:117-130 | makes the calls and returns the result that `PrepareSpec` gives; on success a fresh `Statement` holds the engine's handle |
| Library.NulFailsEarly | src/lib.rs:95-153 | a path or SQL text with a NUL makes open, prepare, execute and collect fail with `InvalidCString` at the first NUL, before any backend call |
| Library.OpenPrepareDecideOnStatus | src/lib.rs:94-130 | open and prepare succeed iff the engine answers SQLITE_OK, and then return its handle; otherwise the error is the status classified, and the handle is closed or finalized |
| Library.BindNext | src/lib.rs:188-253 | the return-next-index binder leaves the result and the log that `BindNextSpec` gives |
| Library.RevisionsAgree | src/lib.rs:198-252 | this revision makes the same calls as the `&mut` binder; it returns `Ok(next)` exactly where that one succeeds with its index at `next`, and fails with the same error otherwise |
| Library.BindNextFollowsPlan | src/lib.rs:241-253 | the return-next-index binder makes the planned calls up to the first refused one; with none refused it returns `index` plus the value's width, and otherwise the refused status classified |
| Library.BindAppendsBindCalls | src/lib.rs:203-239 | binding appends nothing to the log except bind calls |
| Library.Database.Execute | src/lib.rs:136-146 | makes the calls and returns the result that `ExecuteSpec` gives |
| Library.ExecuteCallSequence | src/lib.rs:136-146 | `execute` prepares, then binds from position 1 up to the first refusal, then steps once if nothing was refused, then finalizes; it succeeds iff that step answers DONE |
| Library.ExecuteFinalizesOnce | src/lib.rs:136-146 | `execute` only appends to the log; with valid SQL the last call finalizes the prepared handle, and no earlier new call finalizes, resets or closes anything |
| Library.Database.Collect | src/lib.rs:148-165 | makes the calls and returns the result that `CollectQuerySpec` gives |
| Library.CollectCallSequence | src/lib.rs:148-165 | `collect` prepares, binds from position 1 up to the first refusal, then steps, resets and finalizes; a row is collected from column 0 of the row produced by that step |
| Library.CollectFinalizesOnce | src/lib.rs:148-165 | `collect` only appends to the log; with valid SQL the last call finalizes the prepared handle, and before the last two calls nothing new finalizes, resets or closes |
| Library.CollectResetsIffStepped | src/lib.rs:155-162 | `collect`'s second-to-last logged call is a reset exactly when the last logged call before it is the step |
| Library.CollectReadsFromColumnZero | src/lib.rs:155-158 | a successful `collect` had its step answered ROW, and its value is the shape's scalars read from consecutive columns of that row starting at 0 |
| Library.RowAndDoneSwapRoles | src/lib.rs:136-165 | after accepted bindings, a ROW step makes `execute` fail with `Unknown(100)` while `collect` succeeds; a DONE step makes `execute` succeed while `collect` fails with `Unknown(101)` |
| Library.BindNextIgnoresReset | src/lib.rs:188-253 | binding never depends on how the engine answers resets |
| Library.ResetStatusIgnored | src/lib.rs:162 | engines that differ only in their answers to resets give `collect` the same result and the same calls |
| Library.Database.Drop | src/lib.rs:168-176 | closes the handle with one call, then sets the field to null |
| Statements.Statement.Drop | src/lib.rs:178-186 | finalizes the handle with one call, then sets the field to null |

## Left out

- The column accessors. `sqlite3_column_int`, `sqlite3_column_double`, `sqlite3_column_text`, `sqlite3_column_blob` and `sqlite3_column_bytes` are modelled as reads that change no engine state, so they are not logged. Any order between them is not captured, including a text or blob pointer being read before the byte count.
- The SQLite engine. What status a call gets, which handle open and prepare produce, and what the current row holds are arbitrary functions of the call history. Type conversions between storage classes are not modelled.
- Floating point. `c_double` is carried as 64 opaque bits and no arithmetic is done on it.
- Raw pointers and `unsafe` slice copies. A column's text or blob is an optional buffer with a byte count. The engine guarantees the buffer holds that many bytes. The SQLITE_TRANSIENT destructor is implied by copying the bytes into the call.
- UTF-8 validity. `&str` and `String` are byte sequences; `from_utf8_unchecked` is not checked.
- `usize` to `c_int` length casts. Lengths and positions are unbounded integers, so a value too long for a `c_int` is not truncated.
- The running bind index and column counter are unbounded. A `c_int` overflow after 2^31 positions is not modelled.
- Binding.Bind: requires arity 1 to 13 for every tuple inside the value. The Rust type system enforces this for the source's impls.
- Library.BindNext: requires `LibSupported`, meaning `()`, `i32`, `c_double`, `&str`, `&T` and 3-tuples. These are the only impls in `src/lib.rs`.
- Library.Database.Collect: requires a shape without `Box<[u8]>`, which `src/lib.rs` does not implement.
- Iterating.Callback.Call: the callback's effects are limited to its own captured state, and its answers depend only on the argument lists it was called with before. A Rust `FnMut` may also capture a `&Database` and run SQL, or read state shared with other code; neither is modelled.
- Iterating.Iterate: requires 1 to 12 arguments, the arities the `iterable!` impls cover. Their type-parameter names skip `T3`, but the arities are contiguous, so the gap has no effect.
- Ownership. Rust runs each `Drop` exactly once when its owner goes out of scope. The model instead calls `Drop` on every path where the source drops the value. It does not model a value being moved out.
- Reusing a statement after reset, and the caller's duty to reset before rebinding. The source never reuses a statement.
- The human-readable messages of `RsqliteError` are not modelled. `InvalidCString` carries only the position of the first NUL.
- `src/main.rs` is not part of this model. It is a demo entry point that repeats `open_with_flags`.
