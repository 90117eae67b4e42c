/** The `Bindable` trait of `src/bindable.rs`: values written to 1-based
    parameter positions of a statement while a running index is advanced
    through `&mut`. */
module Binding {
  import opened Sqlite
  import opened Errors
  import opened Statements

  /** The types that implement `Bindable`. Text is carried as its UTF-8 bytes. */
  datatype Bindable =
    | Unit                          // ()
    | I32(i32: Int32)               // i32
    | F64(f64: Double)              // c_double
    | I64(i64: Int64)               // sqlite3_int64
    | Str(utf8: seq<Byte>)          // &str
    | Bytes(blob: seq<Byte>)        // &[u8]
    | Ref(target: Bindable)         // &T
    | Tuple(elems: seq<Bindable>)   // (T0, ..., Tn) from `bindable_tuple!`

  const MaxTupleArity: nat := 13

  predicate IsScalar(v: Bindable) {
    v.I32? || v.F64? || v.I64? || v.Str? || v.Bytes?
  }

  /** The values the impls cover: tuples of arity 1 to 13, nested freely. */
  predicate Supported(v: Bindable)
    decreases v
  {
    match v
    case Ref(t) => Supported(t)
    case Tuple(es) => 1 <= |es| <= MaxTupleArity && forall k :: 0 <= k < |es| ==> Supported(es[k])
    case _ => true
  }

  /** The one backend call a scalar makes at position `pos`. Text and blobs
      pass their exact byte length and are copied (SQLITE_TRANSIENT). */
  function ScalarCall(v: Bindable, h: Handle, pos: int): (c: Call)
    requires IsScalar(v)
    ensures IsBindCall(c) && c.stmt == h && c.pos == pos
    ensures v.I32? ==> c.BindInt? && c.i32 == v.i32
    ensures v.F64? ==> c.BindDouble? && c.f64 == v.f64
    ensures v.I64? ==> c.BindInt64? && c.i64 == v.i64
    ensures v.Str? ==> c.BindText? && c.text == v.utf8 && c.n == |v.utf8|
    ensures v.Bytes? ==> c.BindBlob? && c.blob == v.blob && c.n == |v.blob|
  {
    match v
    case I32(i) => BindInt(h, pos, i)
    case F64(d) => BindDouble(h, pos, d)
    case I64(l) => BindInt64(h, pos, l)
    case Str(s) => BindText(h, pos, s, |s|)
    case Bytes(b) => BindBlob(h, pos, b, |b|)
  }

  /** The number of parameter positions a value occupies. */
  function Width(v: Bindable): nat
    decreases v
  {
    match v
    case Unit => 0
    case Ref(t) => Width(t)
    case Tuple(es) => WidthSeq(es)
    case _ => 1
  }

  function WidthSeq(es: seq<Bindable>): nat
    decreases es
  {
    if es == [] then 0 else WidthSeq(es[..|es| - 1]) + Width(es[|es| - 1])
  }

  /** The bind calls a value makes when nothing is refused: its scalars in
      declaration order, flattened through references and nested tuples. */
  function Plan(v: Bindable, h: Handle, index: int): seq<Call>
    decreases v
  {
    match v
    case Unit => []
    case Ref(t) => Plan(t, h, index)
    case Tuple(es) => PlanSeq(es, h, index)
    case _ => [ScalarCall(v, h, index)]
  }

  function PlanSeq(es: seq<Bindable>, h: Handle, index: int): seq<Call>
    decreases es
  {
    if es == [] then []
    else
      var front := PlanSeq(es[..|es| - 1], h, index);
      front + Plan(es[|es| - 1], h, index + |front|)
  }

  /** The outcome of a sequence of calls made one after another until the
      engine refuses one: the refusing code, if any, and the log afterwards. */
  datatype Run = Run(refused: Option<Int32>, log: seq<Call>)

  /** Makes `calls` in order from `log` and stops right after the first call
      whose status is not SQLITE_OK. */
  function RunCalls(o: Oracle, calls: seq<Call>, log: seq<Call>): (r: Run)
    ensures |log| <= |r.log| <= |log| + |calls|
    ensures r.log == log + calls[..|r.log| - |log|]
    ensures r.refused.None? ==> r.log == log + calls
    ensures r.refused.Some? ==> |r.log| > |log| && r.refused.value != SQLITE_OK
    decreases calls
  {
    if calls == [] then Run(None, log)
    else
      var code := o.answer(log, calls[0]);
      if code != SQLITE_OK then Run(Some(code), log + [calls[0]])
      else
        var rest := RunCalls(o, calls[1..], log + [calls[0]]);
        assert [calls[0]] + calls[1..][..|rest.log| - |log| - 1] == calls[..|rest.log| - |log|];
        rest
  }

  /** Every call of a run but a refused last one was accepted, and a refused
      run ends with the call that the engine refused. */
  lemma {:induction false} RunCallsStatuses(o: Oracle, calls: seq<Call>, log: seq<Call>)
    ensures var r := RunCalls(o, calls, log);
      && (r.refused.Some? ==> r.refused.value == o.answer(r.log[..|r.log| - 1], r.log[|r.log| - 1]))
      && (forall k :: |log| <= k < |r.log| && (r.refused.None? || k < |r.log| - 1)
            ==> o.answer(r.log[..k], r.log[k]) == SQLITE_OK)
    decreases calls
  {
    if calls != [] && o.answer(log, calls[0]) == SQLITE_OK {
      var log' := log + [calls[0]];
      RunCallsStatuses(o, calls[1..], log');
      var r := RunCalls(o, calls, log);
      assert r.log[..|log|] == log;
      assert r.log[..|log'|] == log';
    }
  }

  /** What a bind leaves behind: the result it returns, the value of the
      shared index afterwards and the log of backend calls. */
  datatype BindRun = BindRun(outcome: Result<()>, next: int, log: seq<Call>)

  /** The status check every scalar impl makes. */
  function StatusToResult(code: Int32): (r: Result<()>)
    ensures r.Ok? <==> code == SQLITE_OK
    ensures r.Err? ==> r.error == FromCode(code)
  {
    if code == SQLITE_OK then Ok(()) else Err(FromCode(code))
  }

  /** `Bindable::bind` of `src/bindable.rs` from `index`, on a statement `h`. */
  function BindSpec(o: Oracle, v: Bindable, h: Handle, index: int, log: seq<Call>): BindRun
    decreases v
  {
    match v
    case Unit => BindRun(Ok(()), index, log)
    case Ref(t) => BindSpec(o, t, h, index, log)
    case Tuple(es) => BindSeqSpec(o, es, h, index, log)
    case _ =>
      var c := ScalarCall(v, h, index);
      BindRun(StatusToResult(o.answer(log, c)), index + 1, log + [c])
  }

  /** The elements of a tuple, left to right, stopping at the first error. */
  function BindSeqSpec(o: Oracle, es: seq<Bindable>, h: Handle, index: int, log: seq<Call>): BindRun
    decreases es
  {
    if es == [] then BindRun(Ok(()), index, log)
    else
      var front := BindSeqSpec(o, es[..|es| - 1], h, index, log);
      if front.outcome.Err? then front
      else BindSpec(o, es[|es| - 1], h, front.next, front.log)
  }

  /** `Bindable::bind`: binds `v` to statement `st` starting at parameter
      `index` and returns the result together with the advanced index. */
  method Bind(v: Bindable, st: Statement, index: int) returns (r: Result<()>, next: int)
    requires Supported(v)
    modifies st.engine
    ensures BindRun(r, next, st.engine.log)
         == BindSpec(st.engine.oracle, v, st.stmt, index, old(st.engine.log))
    decreases v
  {
    match v
    case Unit =>
      r, next := Ok(()), index;
    case Ref(t) =>
      r, next := Bind(t, st, index);
    case Tuple(es) =>
      ghost var log0 := st.engine.log;
      next := index;
      var k := 0;
      while k < |es|
        invariant 0 <= k <= |es|
        invariant BindSeqSpec(st.engine.oracle, es[..k], st.stmt, index, log0)
               == BindRun(Ok(()), next, st.engine.log)
      {
        assert es[..k + 1][..k] == es[..k] && es[..k + 1][k] == es[k];
        ghost var prev := BindRun(Ok(()), next, st.engine.log);
        var rk;
        rk, next := Bind(es[k], st, next);
        assert BindSeqSpec(st.engine.oracle, es[..k + 1], st.stmt, index, log0)
            == BindSpec(st.engine.oracle, es[k], st.stmt, prev.next, prev.log);
        if rk.Err? {
          r := rk;
          assert es[..k + 1] == es[..|es|][..k + 1];
          BindSeqStopsAtError(st.engine.oracle, es, st.stmt, index, log0, k + 1);
          return;
        }
        assert rk.value == ();
        k := k + 1;
      }
      assert es[..k] == es;
      r := Ok(());
    case _ =>
      var c := ScalarCall(v, st.stmt, index);
      var code := st.engine.Invoke(c);
      next := index + 1;
      r := StatusToResult(code);
  }

  /** Once a prefix of a tuple has failed, the rest is not bound. */
  lemma {:induction false} BindSeqStopsAtError(o: Oracle, es: seq<Bindable>, h: Handle, index: int, log: seq<Call>, k: nat)
    requires k <= |es|
    requires BindSeqSpec(o, es[..k], h, index, log).outcome.Err?
    ensures BindSeqSpec(o, es, h, index, log) == BindSeqSpec(o, es[..k], h, index, log)
    decreases |es| - k
  {
    if k < |es| {
      var es' := es[..|es| - 1];
      assert es'[..k] == es[..k];
      BindSeqStopsAtError(o, es', h, index, log, k);
    } else {
      assert es[..k] == es;
    }
  }

  /** The plan has one call per position, the k-th at position `index + k`,
      every one a bind call on `h`. */
  lemma {:induction false} PlanPositions(v: Bindable, h: Handle, index: int)
    ensures |Plan(v, h, index)| == Width(v)
    ensures forall k :: 0 <= k < |Plan(v, h, index)| ==>
      IsBindCall(Plan(v, h, index)[k]) && Plan(v, h, index)[k].stmt == h
      && Plan(v, h, index)[k].pos == index + k
    decreases v
  {
    match v
    case Unit =>
    case Ref(t) => PlanPositions(t, h, index);
    case Tuple(es) => PlanSeqPositions(es, h, index);
    case _ =>
  }

  lemma {:induction false} PlanSeqPositions(es: seq<Bindable>, h: Handle, index: int)
    ensures |PlanSeq(es, h, index)| == WidthSeq(es)
    ensures forall k :: 0 <= k < |PlanSeq(es, h, index)| ==>
      IsBindCall(PlanSeq(es, h, index)[k]) && PlanSeq(es, h, index)[k].stmt == h
      && PlanSeq(es, h, index)[k].pos == index + k
    decreases es
  {
    if es != [] {
      var front := PlanSeq(es[..|es| - 1], h, index);
      PlanSeqPositions(es[..|es| - 1], h, index);
      PlanPositions(es[|es| - 1], h, index + |front|);
    }
  }

  /** Running a concatenation runs the first part, then, unless it was
      refused, the second part from where the first left the log. */
  lemma {:induction false} RunCallsAppend(o: Oracle, a: seq<Call>, b: seq<Call>, log: seq<Call>)
    ensures RunCalls(o, a + b, log)
         == (var ra := RunCalls(o, a, log); if ra.refused.Some? then ra else RunCalls(o, b, ra.log))
    decreases a
  {
    if a != [] {
      assert (a + b)[0] == a[0] && (a + b)[1..] == a[1..] + b;
      RunCallsAppend(o, a[1..], b, log + [a[0]]);
    } else {
      assert a + b == b;
    }
  }

  /** The result a run of calls amounts to for a binder. */
  function RunResult(r: Run): (res: Result<()>)
    ensures res.Ok? <==> r.refused.None?
  {
    if r.refused.Some? then Err(FromCode(r.refused.value)) else Ok(())
  }

  /** Binding any value, however nested, is the same as making its planned
      calls one by one and stopping at the first refused one: the error is
      that call's, and the index has advanced past every call made, the
      refused one included. */
  lemma {:induction false} BindFollowsPlan(o: Oracle, v: Bindable, h: Handle, index: int, log: seq<Call>)
    ensures var run := RunCalls(o, Plan(v, h, index), log);
            BindSpec(o, v, h, index, log)
            == BindRun(RunResult(run), index + (|run.log| - |log|), run.log)
    decreases v
  {
    match v
    case Unit =>
    case Ref(t) => BindFollowsPlan(o, t, h, index, log);
    case Tuple(es) => BindSeqFollowsPlan(o, es, h, index, log);
    case _ =>
  }

  lemma {:induction false} BindSeqFollowsPlan(o: Oracle, es: seq<Bindable>, h: Handle, index: int, log: seq<Call>)
    ensures var run := RunCalls(o, PlanSeq(es, h, index), log);
            BindSeqSpec(o, es, h, index, log)
            == BindRun(RunResult(run), index + (|run.log| - |log|), run.log)
    decreases es
  {
    if es != [] {
      var init, last := es[..|es| - 1], es[|es| - 1];
      var frontPlan := PlanSeq(init, h, index);
      var lastPlan := Plan(last, h, index + |frontPlan|);
      assert PlanSeq(es, h, index) == frontPlan + lastPlan;
      var front := BindSeqSpec(o, init, h, index, log);
      BindSeqFollowsPlan(o, init, h, index, log);
      var ra := RunCalls(o, frontPlan, log);
      assert front == BindRun(RunResult(ra), index + (|ra.log| - |log|), ra.log);
      RunCallsAppend(o, frontPlan, lastPlan, log);
      if ra.refused.None? {
        assert |ra.log| - |log| == |frontPlan|;
        BindFollowsPlan(o, last, h, index + |frontPlan|, ra.log);
        var rb := RunCalls(o, lastPlan, ra.log);
        assert BindSeqSpec(o, es, h, index, log) == BindSpec(o, last, h, front.next, front.log);
        assert RunCalls(o, PlanSeq(es, h, index), log) == rb;
      }
    }
  }

  /** Binding `()` makes no call and leaves the index where it was. */
  lemma UnitBindsNothing(o: Oracle, h: Handle, index: int, log: seq<Call>)
    ensures BindSpec(o, Unit, h, index, log) == BindRun(Ok(()), index, log)
  {
  }

  /** A scalar makes exactly one call, at `index`, and advances the index by
      one whether or not the engine accepts it; it succeeds iff the status is
      SQLITE_OK, and otherwise fails with that status classified. */
  lemma ScalarBind(o: Oracle, v: Bindable, h: Handle, index: int, log: seq<Call>)
    requires IsScalar(v)
    ensures var b := BindSpec(o, v, h, index, log);
            var code := o.answer(log, ScalarCall(v, h, index));
            && b.log == log + [ScalarCall(v, h, index)]
            && b.next == index + 1
            && (b.outcome.Ok? <==> code == SQLITE_OK)
            && (code != SQLITE_OK ==> b.outcome == Err(FromCode(code)))
  {
  }

  /** `&T` binds exactly as `T` does. */
  lemma RefBindsAsTarget(o: Oracle, t: Bindable, h: Handle, index: int, log: seq<Call>)
    ensures BindSpec(o, Ref(t), h, index, log) == BindSpec(o, t, h, index, log)
  {
  }

  /** Binding any value leaves a prefix of its plan in the log and the index
      just past it: the whole plan on success, and otherwise a non-empty
      prefix ending with the refused call, whose status is the error. */
  lemma {:induction false} BindLeavesPlanPrefix(o: Oracle, v: Bindable, h: Handle, index: int, log: seq<Call>)
    ensures var b := BindSpec(o, v, h, index, log);
            var plan := Plan(v, h, index);
            && |log| <= |b.log| <= |log| + |plan|
            && b.log == log + plan[..|b.log| - |log|]
            && b.next == index + (|b.log| - |log|)
            && (b.outcome.Ok? ==> b.log == log + plan)
            && (b.outcome.Err? ==>
                  (|b.log| > |log|
                   && b.outcome.error == FromCode(o.answer(b.log[..|b.log| - 1], b.log[|b.log| - 1]))))
  {
    BindFollowsPlan(o, v, h, index, log);
    RunCallsStatuses(o, Plan(v, h, index), log);
  }

  /** A tuple of scalars starting at `index` puts element k at position
      `index + k`; when every element is accepted the index ends at
      `index + n`. When element j is the first refused one, elements after j
      are never bound and the error is element j's. */
  lemma {:induction false} ScalarTupleBind(o: Oracle, es: seq<Bindable>, h: Handle, index: int, log: seq<Call>)
    requires forall k :: 0 <= k < |es| ==> IsScalar(es[k])
    ensures PlanSeq(es, h, index) == seq(|es|, k requires 0 <= k < |es| => ScalarCall(es[k], h, index + k))
    ensures var b := BindSpec(o, Tuple(es), h, index, log);
            && |log| <= |b.log| <= |log| + |es|
            && b.log == log + PlanSeq(es, h, index)[..|b.log| - |log|]
            && (b.outcome.Ok? ==> b.next == index + |es| && b.log == log + PlanSeq(es, h, index))
            && (b.outcome.Err? ==> b.next == index + (|b.log| - |log|) <= index + |es|)
            && (b.outcome.Err? ==>
                  (|b.log| > |log|
                   && b.outcome.error == FromCode(o.answer(b.log[..|b.log| - 1], b.log[|b.log| - 1]))))
  {
    ScalarPlanSeq(es, h, index);
    BindLeavesPlanPrefix(o, Tuple(es), h, index, log);
  }

  lemma {:induction false} ScalarPlanSeq(es: seq<Bindable>, h: Handle, index: int)
    requires forall k :: 0 <= k < |es| ==> IsScalar(es[k])
    ensures PlanSeq(es, h, index) == seq(|es|, k requires 0 <= k < |es| => ScalarCall(es[k], h, index + k))
    decreases es
  {
    if es != [] {
      ScalarPlanSeq(es[..|es| - 1], h, index);
    }
  }

  /** Text and blobs are bound byte-exact: binding one makes a single call
      that passes exactly its bytes and their length, so an empty value binds
      as a zero-length value, not as NULL. */
  lemma ByteExactBind(o: Oracle, v: Bindable, h: Handle, index: int, log: seq<Call>)
    requires v.Str? || v.Bytes?
    ensures BindSpec(o, v, h, index, log).log
         == log + [if v.Str? then BindText(h, index, v.utf8, |v.utf8|) else BindBlob(h, index, v.blob, |v.blob|)]
    ensures v.Str? && v.utf8 == [] ==> BindSpec(o, v, h, index, log).log == log + [BindText(h, index, [], 0)]
    ensures v.Bytes? && v.blob == [] ==> BindSpec(o, v, h, index, log).log == log + [BindBlob(h, index, [], 0)]
  {
  }
}
