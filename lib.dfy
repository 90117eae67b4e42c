/** `src/lib.rs`: the `Database` handle with `open`, `prepare`, `execute`
    and `collect`, and this revision's own `Bindable` impls, which return the
    next index instead of advancing it through `&mut`. Its `Collectable`
    impls are those of `src/collectable.rs` without `Box<[u8]>`. */
module Library {
  import opened Sqlite
  import opened Errors
  import opened Statements
  import opened Binding
  import opened Collecting

  /** SQLITE_OPEN_READWRITE | SQLITE_OPEN_CREATE. */
  const DefaultOpenFlags: Int32 := (SQLITE_OPEN_READWRITE as bv32 | SQLITE_OPEN_CREATE as bv32) as int

  /** The position of the first NUL byte of `s`. */
  function FirstNul(s: seq<Byte>): (k: nat)
    requires 0 in s
    ensures k < |s| && s[k] == 0 && 0 !in s[..k]
  {
    if s[0] == 0 then 0
    else
      var k := FirstNul(s[1..]);
      assert s[1..][..k] == s[1..k + 1];
      1 + k
  }

  /** `CString::new`: the NUL-terminated copy of `s`, or `InvalidCString`
      naming the first interior NUL. */
  function CString(s: seq<Byte>): (r: Result<seq<Byte>>)
    ensures r.Ok? <==> 0 !in s
    ensures r.Ok? ==> |r.value| == |s| + 1 && r.value[..|s|] == s && r.value[|s|] == 0
    ensures r.Err? ==> (r.error.InvalidCString? && r.error.nulPosition < |s|
                        && s[r.error.nulPosition] == 0 && 0 !in s[..r.error.nulPosition])
  {
    if 0 in s then Err(InvalidCString(FirstNul(s))) else Ok(s + [0])
  }

  /** What opening or preparing returns, and the log afterwards. */
  datatype HandleRun = HandleRun(result: Result<Handle>, log: seq<Call>)

  /** `Database::open_with_flags`. On a non-OK code the `Database` built
      around the returned handle is dropped, which closes that handle. */
  function OpenSpec(o: Oracle, path: seq<Byte>, flags: Int32, log: seq<Call>): HandleRun {
    match CString(path)
    case Err(e) => HandleRun(Err(e), log)
    case Ok(cpath) =>
      var c := OpenV2(cpath, flags);
      var code, h := o.answer(log, c), o.handleFor(log, c);
      if code == SQLITE_OK then HandleRun(Ok(h), log + [c])
      else HandleRun(Err(FromCode(code)), log + [c, Close(h)])
  }

  /** `Database::prepare`. The SQL is passed with its NUL, and its length
      counts the NUL; on a non-OK code the `Statement` built around the
      returned handle is dropped, which finalizes that handle. */
  function PrepareSpec(o: Oracle, db: Handle, sql: seq<Byte>, log: seq<Call>): HandleRun {
    match CString(sql)
    case Err(e) => HandleRun(Err(e), log)
    case Ok(csql) =>
      var c := PrepareV2(db, csql, |csql|);
      var code, h := o.answer(log, c), o.handleFor(log, c);
      if code == SQLITE_OK then HandleRun(Ok(h), log + [c])
      else HandleRun(Err(FromCode(code)), log + [c, Finalize(h)])
  }

  /** The values this revision's `Bindable` impls cover: `()`, `i32`,
      `c_double`, `&str`, `&T` and 3-tuples. */
  predicate LibSupported(v: Bindable)
    decreases v
  {
    match v
    case Unit => true
    case I32(_) => true
    case F64(_) => true
    case Str(_) => true
    case I64(_) => false
    case Bytes(_) => false
    case Ref(t) => LibSupported(t)
    case Tuple(es) => |es| == 3 && LibSupported(es[0]) && LibSupported(es[1]) && LibSupported(es[2])
  }

  /** The next index (or the error) and the log afterwards. */
  datatype NextRun = NextRun(result: Result<int>, log: seq<Call>)

  /** This revision's `Bindable::bind`: returns `Ok(index + 1)` after an
      accepted scalar, `Ok(index)` for `()`, and threads the returned index
      through the elements of a 3-tuple with `?`. */
  function BindNextSpec(o: Oracle, v: Bindable, h: Handle, index: int, log: seq<Call>): NextRun
    requires LibSupported(v)
    decreases v
  {
    match v
    case Unit => NextRun(Ok(index), log)
    case Ref(t) => BindNextSpec(o, t, h, index, log)
    case Tuple(es) =>
      var r0 := BindNextSpec(o, es[0], h, index, log);
      if r0.result.Err? then r0
      else
        var r1 := BindNextSpec(o, es[1], h, r0.result.value, r0.log);
        if r1.result.Err? then r1
        else BindNextSpec(o, es[2], h, r1.result.value, r1.log)
    case _ =>
      var c := ScalarCall(v, h, index);
      var code := o.answer(log, c);
      NextRun(if code == SQLITE_OK then Ok(index + 1) else Err(FromCode(code)), log + [c])
  }

  /** This revision's `Bindable::bind` on statement `st`. */
  method BindNext(v: Bindable, st: Statement, index: int) returns (r: Result<int>)
    requires LibSupported(v)
    modifies st.engine
    ensures NextRun(r, st.engine.log) == BindNextSpec(st.engine.oracle, v, st.stmt, index, old(st.engine.log))
    decreases v
  {
    match v
    case Unit =>
      r := Ok(index);
    case Ref(t) =>
      r := BindNext(t, st, index);
    case Tuple(es) =>
      r := BindNext(es[0], st, index);
      if r.Err? { return; }
      r := BindNext(es[1], st, r.value);
      if r.Err? { return; }
      r := BindNext(es[2], st, r.value);
    case I32(_) | F64(_) | Str(_) =>
      var code := st.engine.Invoke(ScalarCall(v, st.stmt, index));
      r := if code == SQLITE_OK then Ok(index + 1) else Err(FromCode(code));
    case I64(_) | Bytes(_) =>
      assert false;
  }

  /** The two revisions of the binder make the same calls; where the older
      one returns `Ok(next)` the newer one succeeds with its index at `next`,
      and both fail with the same error. Only the newer one moves the index
      past a refused call. */
  lemma {:induction false} RevisionsAgree(o: Oracle, v: Bindable, h: Handle, index: int, log: seq<Call>)
    requires LibSupported(v)
    ensures var a := BindNextSpec(o, v, h, index, log);
            var b := BindSpec(o, v, h, index, log);
            && a.log == b.log
            && a.result == (if b.outcome.Ok? then Ok(b.next) else Err(b.outcome.error))
    decreases v
  {
    match v
    case Unit =>
    case Ref(t) => RevisionsAgree(o, t, h, index, log);
    case Tuple(es) =>
      assert es[..3] == es && es[..3][..2] == es[..2] && es[..2][..1] == es[..1] && es[..1][..0] == [];
      var b0 := BindSpec(o, es[0], h, index, log);
      RevisionsAgree(o, es[0], h, index, log);
      assert BindSeqSpec(o, es[..1], h, index, log) == b0;
      if b0.outcome.Err? {
        assert BindSeqSpec(o, es[..2], h, index, log) == b0;
        assert BindSeqSpec(o, es, h, index, log) == b0;
      } else {
        var b1 := BindSpec(o, es[1], h, b0.next, b0.log);
        RevisionsAgree(o, es[1], h, b0.next, b0.log);
        assert BindSeqSpec(o, es[..2], h, index, log) == b1;
        if b1.outcome.Err? {
          assert BindSeqSpec(o, es, h, index, log) == b1;
        } else {
          RevisionsAgree(o, es[2], h, b1.next, b1.log);
          assert BindSeqSpec(o, es, h, index, log) == BindSpec(o, es[2], h, b1.next, b1.log);
        }
      }
    case _ =>
  }

  /** What `execute` returns and the log afterwards. */
  datatype ExecRun = ExecRun(result: Result<()>, log: seq<Call>)

  /** `Database::execute`: prepare, bind from position 1, step once; DONE is
      success and any other code, a row included, is an error. The statement
      is finalized when it goes out of scope; it is never reset. */
  function ExecuteSpec(o: Oracle, db: Handle, sql: seq<Byte>, args: Bindable, log: seq<Call>): ExecRun
    requires LibSupported(args)
  {
    var p := PrepareSpec(o, db, sql, log);
    if p.result.Err? then ExecRun(Err(p.result.error), p.log)
    else
      var h := p.result.value;
      var b := BindNextSpec(o, args, h, 1, p.log);
      if b.result.Err? then ExecRun(Err(b.result.error), b.log + [Finalize(h)])
      else
        var code := o.answer(b.log, Step(h));
        ExecRun(if code == SQLITE_DONE then Ok(()) else Err(FromCode(code)),
                b.log + [Step(h), Finalize(h)])
  }

  /** What `collect` returns and the log afterwards. */
  datatype QueryRun = QueryRun(result: Result<Collected>, log: seq<Call>)

  /** `Database::collect`: prepare, bind from position 1, step once; a row
      is collected from column 0, any other code (DONE included) is an
      error. Once stepped, the statement is reset whatever the outcome and
      the reset's status is dropped; then it is finalized. */
  function CollectQuerySpec(o: Oracle, db: Handle, sql: seq<Byte>, args: Bindable, s: Shape, log: seq<Call>): QueryRun
    requires LibSupported(args)
  {
    var p := PrepareSpec(o, db, sql, log);
    if p.result.Err? then QueryRun(Err(p.result.error), p.log)
    else
      var h := p.result.value;
      var b := BindNextSpec(o, args, h, 1, p.log);
      if b.result.Err? then QueryRun(Err(b.result.error), b.log + [Finalize(h)])
      else
        var stepped := b.log + [Step(h)];
        var code := o.answer(b.log, Step(h));
        QueryRun(if code == SQLITE_ROW then Ok(CollectSpec(o.currentRow(stepped, h), s, 0).value)
                 else Err(FromCode(code)),
                 stepped + [Reset(h), Finalize(h)])
  }

  /** `Database`: owns one `sqlite3*`. */
  class Database {
    const engine: Engine
    var db: Handle

    constructor (engine: Engine, db: Handle)
      ensures this.engine == engine && this.db == db
    {
      this.engine := engine;
      this.db := db;
    }

    /** `Database::open_with_flags`. */
    static method OpenWithFlags(engine: Engine, path: seq<Byte>, flags: Int32) returns (r: Result<Database>)
      modifies engine
      ensures var spec := OpenSpec(engine.oracle, path, flags, old(engine.log));
              && engine.log == spec.log
              && (r.Ok? <==> spec.result.Ok?)
              && (r.Ok? ==> fresh(r.value) && r.value.engine == engine && r.value.db == spec.result.value)
              && (r.Err? ==> r.error == spec.result.error)
    {
      var cpath := CString(path);
      if cpath.Err? {
        return Err(cpath.error);
      }
      var code, h := engine.InvokeForHandle(OpenV2(cpath.value, flags));
      var database := new Database(engine, h);
      if code == SQLITE_OK {
        r := Ok(database);
      } else {
        database.Drop();
        r := Err(FromCode(code));
      }
    }

    /** `Database::open`: `open_with_flags` with read-write and create. */
    static method Open(engine: Engine, path: seq<Byte>) returns (r: Result<Database>)
      modifies engine
      ensures var spec := OpenSpec(engine.oracle, path, DefaultOpenFlags, old(engine.log));
              && engine.log == spec.log
              && (r.Ok? <==> spec.result.Ok?)
              && (r.Ok? ==> fresh(r.value) && r.value.engine == engine && r.value.db == spec.result.value)
              && (r.Err? ==> r.error == spec.result.error)
    {
      r := OpenWithFlags(engine, path, DefaultOpenFlags);
    }

    /** `Database::prepare`. */
    method Prepare(sql: seq<Byte>) returns (r: Result<Statement>)
      modifies engine
      ensures var spec := PrepareSpec(engine.oracle, db, sql, old(engine.log));
              && engine.log == spec.log
              && (r.Ok? <==> spec.result.Ok?)
              && (r.Ok? ==> fresh(r.value) && r.value.engine == engine && r.value.stmt == spec.result.value)
              && (r.Err? ==> r.error == spec.result.error)
    {
      var csql := CString(sql);
      if csql.Err? {
        return Err(csql.error);
      }
      var code, h := engine.InvokeForHandle(PrepareV2(db, csql.value, |csql.value|));
      var statement := new Statement(engine, h);
      if code == SQLITE_OK {
        r := Ok(statement);
      } else {
        statement.Drop();
        r := Err(FromCode(code));
      }
    }

    /** `Database::execute`. */
    method Execute(sql: seq<Byte>, args: Bindable) returns (r: Result<()>)
      requires LibSupported(args)
      modifies engine
      ensures var spec := ExecuteSpec(engine.oracle, db, sql, args, old(engine.log));
              r == spec.result && engine.log == spec.log
    {
      var p := Prepare(sql);
      if p.Err? {
        return Err(p.error);
      }
      var statement := p.value;
      var b := BindNext(args, statement, 1);
      if b.Err? {
        statement.Drop();
        return Err(b.error);
      }
      var code := engine.Invoke(Step(statement.stmt));
      r := if code == SQLITE_DONE then Ok(()) else Err(FromCode(code));
      statement.Drop();
    }

    /** `Database::collect`: `s` is the `Collectable` type asked for. */
    method Collect(sql: seq<Byte>, args: Bindable, s: Shape) returns (r: Result<Collected>)
      requires LibSupported(args) && LibShape(s)
      modifies engine
      ensures var spec := CollectQuerySpec(engine.oracle, db, sql, args, s, old(engine.log));
              r == spec.result && engine.log == spec.log
    {
      var p := Prepare(sql);
      if p.Err? {
        return Err(p.error);
      }
      var statement := p.value;
      var b := BindNext(args, statement, 1);
      if b.Err? {
        statement.Drop();
        return Err(b.error);
      }
      var code := engine.Invoke(Step(statement.stmt));
      if code == SQLITE_ROW {
        var v, _ := Collecting.Collect(statement, s, 0);
        r := Ok(v);
      } else {
        r := Err(FromCode(code));
      }
      var _ := engine.Invoke(Reset(statement.stmt));
      statement.Drop();
    }

    /** `Drop for Database`: closes the handle once, then nulls the field. */
    method Drop()
      modifies this, engine
      ensures engine.log == old(engine.log) + [Close(old(db))]
      ensures db == Null
    {
      var _ := engine.Invoke(Close(db));
      db := Null;
    }
  }

  /** The default flags are read-write and create, nothing else. */
  lemma DefaultFlagsAreReadWriteCreate()
    ensures DefaultOpenFlags == SQLITE_OPEN_READWRITE + SQLITE_OPEN_CREATE == 6
  {
  }

  /** A path or SQL text with an interior NUL fails before any backend call,
      reporting the first NUL. */
  lemma NulFailsEarly(o: Oracle, db: Handle, text: seq<Byte>, flags: Int32, args: Bindable, s: Shape, log: seq<Call>)
    requires LibSupported(args) && 0 in text
    ensures var e := InvalidCString(FirstNul(text));
      && OpenSpec(o, text, flags, log) == HandleRun(Err(e), log)
      && PrepareSpec(o, db, text, log) == HandleRun(Err(e), log)
      && ExecuteSpec(o, db, text, args, log) == ExecRun(Err(e), log)
      && CollectQuerySpec(o, db, text, args, s, log) == QueryRun(Err(e), log)
  {
  }

  /** With a valid C string, opening and preparing succeed iff the engine
      answers SQLITE_OK, returning the handle it produced; otherwise the error
      is that status classified and the produced handle is released. */
  lemma OpenPrepareDecideOnStatus(o: Oracle, db: Handle, text: seq<Byte>, flags: Int32, log: seq<Call>)
    requires 0 !in text
    ensures var c := OpenV2(text + [0], flags);
            var r := OpenSpec(o, text, flags, log);
            && (r.result.Ok? <==> o.answer(log, c) == SQLITE_OK)
            && (r.result.Ok? ==> r.result.value == o.handleFor(log, c) && r.log == log + [c])
            && (r.result.Err? ==> r.result.error == FromCode(o.answer(log, c))
                                  && r.log == log + [c, Close(o.handleFor(log, c))])
    ensures var c := PrepareV2(db, text + [0], |text| + 1);
            var r := PrepareSpec(o, db, text, log);
            && (r.result.Ok? <==> o.answer(log, c) == SQLITE_OK)
            && (r.result.Ok? ==> r.result.value == o.handleFor(log, c) && r.log == log + [c])
            && (r.result.Err? ==> r.result.error == FromCode(o.answer(log, c))
                                  && r.log == log + [c, Finalize(o.handleFor(log, c))])
  {
  }

  /** This revision's binder makes its value's planned calls, stopping after
      the first refused one; when none is refused the returned index is past
      all of them. */
  lemma BindNextFollowsPlan(o: Oracle, v: Bindable, h: Handle, index: int, log: seq<Call>)
    requires LibSupported(v)
    ensures var run := RunCalls(o, Plan(v, h, index), log);
            var a := BindNextSpec(o, v, h, index, log);
            && a.log == run.log
            && (run.refused.Some? ==> a.result == Err(FromCode(run.refused.value)))
            && (run.refused.None? ==> a.result == Ok(index + Binding.Width(v)))
  {
    RevisionsAgree(o, v, h, index, log);
    BindFollowsPlan(o, v, h, index, log);
    PlanPositions(v, h, index);
  }

  /** The calls `execute` makes: the prepare; if it is accepted, the bind
      calls from position 1 up to the first refused one; if none is refused,
      one step; and then the finalize of the prepared handle. */
  lemma ExecuteCallSequence(o: Oracle, db: Handle, sql: seq<Byte>, args: Bindable, log: seq<Call>)
    requires LibSupported(args) && 0 !in sql
    ensures var c := PrepareV2(db, sql + [0], |sql| + 1);
            var h := o.handleFor(log, c);
            var e := ExecuteSpec(o, db, sql, args, log);
            if o.answer(log, c) != SQLITE_OK then
              e == ExecRun(Err(FromCode(o.answer(log, c))), log + [c, Finalize(h)])
            else
              var run := RunCalls(o, Plan(args, h, 1), log + [c]);
              if run.refused.Some? then
                e == ExecRun(Err(FromCode(run.refused.value)), run.log + [Finalize(h)])
              else
                var code := o.answer(run.log, Step(h));
                e == ExecRun(if code == SQLITE_DONE then Ok(()) else Err(FromCode(code)),
                             run.log + [Step(h), Finalize(h)])
  {
    var c := PrepareV2(db, sql + [0], |sql| + 1);
    if o.answer(log, c) == SQLITE_OK {
      BindNextFollowsPlan(o, args, o.handleFor(log, c), 1, log + [c]);
    }
  }

  /** The calls `collect` makes: as for `execute`, except that a step is
      followed by a reset before the finalize, and a row is collected from
      column 0 of the row the step produced. */
  lemma CollectCallSequence(o: Oracle, db: Handle, sql: seq<Byte>, args: Bindable, s: Shape, log: seq<Call>)
    requires LibSupported(args) && 0 !in sql
    ensures var c := PrepareV2(db, sql + [0], |sql| + 1);
            var h := o.handleFor(log, c);
            var q := CollectQuerySpec(o, db, sql, args, s, log);
            if o.answer(log, c) != SQLITE_OK then
              q == QueryRun(Err(FromCode(o.answer(log, c))), log + [c, Finalize(h)])
            else
              var run := RunCalls(o, Plan(args, h, 1), log + [c]);
              if run.refused.Some? then
                q == QueryRun(Err(FromCode(run.refused.value)), run.log + [Finalize(h)])
              else
                var code := o.answer(run.log, Step(h));
                var row := o.currentRow(run.log + [Step(h)], h);
                q == QueryRun(if code == SQLITE_ROW then Ok(CollectSpec(row, s, 0).value) else Err(FromCode(code)),
                              run.log + [Step(h), Reset(h), Finalize(h)])
  {
    var c := PrepareV2(db, sql + [0], |sql| + 1);
    if o.answer(log, c) == SQLITE_OK {
      BindNextFollowsPlan(o, args, o.handleFor(log, c), 1, log + [c]);
    }
  }

  /** What binding appends to the log is bind calls only. */
  lemma {:induction false} BindAppendsBindCalls(o: Oracle, v: Bindable, h: Handle, index: int, log: seq<Call>)
    ensures var run := RunCalls(o, Plan(v, h, index), log);
            forall k :: |log| <= k < |run.log| ==> IsBindCall(run.log[k])
  {
    var plan := Plan(v, h, index);
    var run := RunCalls(o, plan, log);
    PlanPositions(v, h, index);
    forall k | |log| <= k < |run.log|
      ensures IsBindCall(run.log[k])
    {
      assert run.log[k] == plan[k - |log|];
    }
  }

  /** `execute` only appends to the log; once the SQL is a valid C string
      the prepared handle is finalized exactly once, by the last call, and
      nothing in between finalizes, resets or closes anything. */
  lemma {:induction false} ExecuteFinalizesOnce(o: Oracle, db: Handle, sql: seq<Byte>, args: Bindable, log: seq<Call>)
    requires LibSupported(args) && 0 !in sql
    ensures var h := o.handleFor(log, PrepareV2(db, sql + [0], |sql| + 1));
            var e := ExecuteSpec(o, db, sql, args, log);
            && |e.log| >= |log| + 2 && e.log[..|log|] == log
            && e.log[|e.log| - 1] == Finalize(h)
            && forall k :: |log| <= k < |e.log| - 1 ==>
                 !e.log[k].Finalize? && !e.log[k].Reset? && !e.log[k].Close?
  {
    var c := PrepareV2(db, sql + [0], |sql| + 1);
    ExecuteCallSequence(o, db, sql, args, log);
    if o.answer(log, c) == SQLITE_OK {
      BindAppendsBindCalls(o, args, o.handleFor(log, c), 1, log + [c]);
    }
  }

  /** `collect` only appends to the log; once the SQL is a valid C string
      the prepared handle is finalized exactly once, by the last call, and
      nothing before the last two calls finalizes, resets or closes
      anything. */
  lemma {:induction false} CollectFinalizesOnce(o: Oracle, db: Handle, sql: seq<Byte>, args: Bindable, s: Shape, log: seq<Call>)
    requires LibSupported(args) && 0 !in sql
    ensures var h := o.handleFor(log, PrepareV2(db, sql + [0], |sql| + 1));
            var q := CollectQuerySpec(o, db, sql, args, s, log);
            && |q.log| >= |log| + 2 && q.log[..|log|] == log
            && q.log[|q.log| - 1] == Finalize(h)
            && !q.log[|q.log| - 2].Finalize? && !q.log[|q.log| - 2].Close?
            && forall k :: |log| <= k < |q.log| - 2 ==>
                 !q.log[k].Finalize? && !q.log[k].Reset? && !q.log[k].Close?
  {
    var c := PrepareV2(db, sql + [0], |sql| + 1);
    CollectCallSequence(o, db, sql, args, s, log);
    if o.answer(log, c) == SQLITE_OK {
      BindAppendsBindCalls(o, args, o.handleFor(log, c), 1, log + [c]);
    }
  }

  /** `collect` resets its statement, as its second-to-last logged call,
      exactly when the last logged call before that is the step. Column reads
      in between are not logged. */
  lemma {:induction false} CollectResetsIffStepped(o: Oracle, db: Handle, sql: seq<Byte>, args: Bindable, s: Shape, log: seq<Call>)
    requires LibSupported(args) && 0 !in sql
    ensures var h := o.handleFor(log, PrepareV2(db, sql + [0], |sql| + 1));
            var q := CollectQuerySpec(o, db, sql, args, s, log);
            && |q.log| >= |log| + 2
            && (q.log[|q.log| - 2].Reset? <==> |q.log| >= |log| + 3 && q.log[|q.log| - 3] == Step(h))
  {
    var c := PrepareV2(db, sql + [0], |sql| + 1);
    var h := o.handleFor(log, c);
    CollectCallSequence(o, db, sql, args, s, log);
    if o.answer(log, c) == SQLITE_OK {
      var run := RunCalls(o, Plan(args, h, 1), log + [c]);
      BindAppendsBindCalls(o, args, h, 1, log + [c]);
      if run.refused.Some? {
        assert IsBindCall(run.log[|run.log| - 1]);
        assert |run.log| - 2 == |log| || IsBindCall(run.log[|run.log| - 2]);
      }
    }
  }

  /** A successful `collect` is one whose step produced a row; its value is
      the shape's scalars read from consecutive columns of that row starting
      at column 0. */
  lemma {:induction false} CollectReadsFromColumnZero(o: Oracle, db: Handle, sql: seq<Byte>, args: Bindable, s: Shape, log: seq<Call>)
    requires LibSupported(args)
    ensures var q := CollectQuerySpec(o, db, sql, args, s, log);
            q.result.Ok? ==>
              && |q.log| >= 3 && q.log[|q.log| - 3].Step?
              && var stepped := q.log[..|q.log| - 2];
                 var h := q.log[|q.log| - 3].stmt;
                 && o.answer(q.log[..|q.log| - 3], Step(h)) == SQLITE_ROW
                 && ReadsFrom(o.currentRow(stepped, h), Flatten(q.result.value), Leaves(s), 0)
  {
    var q := CollectQuerySpec(o, db, sql, args, s, log);
    if q.result.Ok? {
      var p := PrepareSpec(o, db, sql, log);
      var h := p.result.value;
      var b := BindNextSpec(o, args, h, 1, p.log);
      var stepped := b.log + [Step(h)];
      assert q.log == stepped + [Reset(h), Finalize(h)];
      assert q.log[..|q.log| - 2] == stepped && q.log[..|q.log| - 3] == b.log;
      CollectReadsLeavesInOrder(o.currentRow(stepped, h), s, 0);
    }
  }

  /** When the bindings are accepted, a step that yields a row makes
      `execute` fail with `Unknown(100)` while `collect` succeeds, and a step
      that finishes makes `execute` succeed while `collect` fails with
      `Unknown(101)`. */
  lemma RowAndDoneSwapRoles(o: Oracle, db: Handle, sql: seq<Byte>, args: Bindable, s: Shape, log: seq<Call>)
    requires LibSupported(args) && 0 !in sql
    requires o.answer(log, PrepareV2(db, sql + [0], |sql| + 1)) == SQLITE_OK
    requires var h := o.handleFor(log, PrepareV2(db, sql + [0], |sql| + 1));
             RunCalls(o, Plan(args, h, 1), log + [PrepareV2(db, sql + [0], |sql| + 1)]).refused.None?
    ensures var c := PrepareV2(db, sql + [0], |sql| + 1);
            var h := o.handleFor(log, c);
            var code := o.answer(RunCalls(o, Plan(args, h, 1), log + [c]).log, Step(h));
            && (code == SQLITE_ROW ==>
                  ExecuteSpec(o, db, sql, args, log).result == Err(Unknown(100))
                  && CollectQuerySpec(o, db, sql, args, s, log).result.Ok?)
            && (code == SQLITE_DONE ==>
                  ExecuteSpec(o, db, sql, args, log).result == Ok(())
                  && CollectQuerySpec(o, db, sql, args, s, log).result == Err(Unknown(101)))
  {
    ExecuteCallSequence(o, db, sql, args, log);
    CollectCallSequence(o, db, sql, args, s, log);
    UnlistedCodesAreUnknown();
  }

  /** Two backends that answer alike except, possibly, for resets. */
  ghost predicate SameExceptReset(o1: Oracle, o2: Oracle) {
    && o1.handleFor == o2.handleFor
    && o1.currentRow == o2.currentRow
    && forall l: seq<Call>, c: Call :: !c.Reset? ==> o1.answer(l, c) == o2.answer(l, c)
  }

  /** Binding never looks at a reset's status. */
  lemma {:induction false} BindNextIgnoresReset(o1: Oracle, o2: Oracle, v: Bindable, h: Handle, index: int, log: seq<Call>)
    requires LibSupported(v) && SameExceptReset(o1, o2)
    ensures BindNextSpec(o1, v, h, index, log) == BindNextSpec(o2, v, h, index, log)
    decreases v
  {
    match v
    case Unit =>
    case Ref(t) => BindNextIgnoresReset(o1, o2, t, h, index, log);
    case Tuple(es) =>
      var r0 := BindNextSpec(o1, es[0], h, index, log);
      BindNextIgnoresReset(o1, o2, es[0], h, index, log);
      if r0.result.Ok? {
        var r1 := BindNextSpec(o1, es[1], h, r0.result.value, r0.log);
        BindNextIgnoresReset(o1, o2, es[1], h, r0.result.value, r0.log);
        if r1.result.Ok? {
          BindNextIgnoresReset(o1, o2, es[2], h, r1.result.value, r1.log);
        }
      }
    case _ =>
  }

  /** The status of the reset in `collect` is discarded: backends that
      differ only in how they answer resets give the same result and the
      same calls. */
  lemma {:induction false} ResetStatusIgnored(o1: Oracle, o2: Oracle, db: Handle, sql: seq<Byte>, args: Bindable, s: Shape, log: seq<Call>)
    requires LibSupported(args) && SameExceptReset(o1, o2)
    ensures CollectQuerySpec(o1, db, sql, args, s, log) == CollectQuerySpec(o2, db, sql, args, s, log)
  {
    var p := PrepareSpec(o1, db, sql, log);
    assert p == PrepareSpec(o2, db, sql, log);
    if p.result.Ok? {
      BindNextIgnoresReset(o1, o2, args, p.result.value, 1, p.log);
    }
  }
}
