/** The `Iterable` trait of `src/iterable.rs`: a callback of 1 to 12 typed
    arguments is called once with arguments collected left to right from a
    running column index. */
module Iterating {
  import opened Sqlite
  import opened Statements
  import opened Collecting

  /** The `iterable!` impls cover arities 1 through 12. */
  const MaxCallbackArity: nat := 12

  /** An `FnMut` callback. Its captured state is determined by the argument
      lists it has been called with, so what it returns is a function of
      those earlier calls and the current arguments. */
  class Callback<R> {
    const respond: (seq<seq<Collected>>, seq<Collected>) -> R
    var calls: seq<seq<Collected>>

    constructor (respond: (seq<seq<Collected>>, seq<Collected>) -> R)
      ensures this.respond == respond && calls == []
    {
      this.respond := respond;
      calls := [];
    }

    method Call(args: seq<Collected>) returns (r: R)
      modifies this
      ensures calls == old(calls) + [args]
      ensures r == respond(old(calls), args)
    {
      r := respond(calls, args);
      calls := calls + [args];
    }
  }

  /** Collected arguments and the running index afterwards. */
  datatype Args = Args(values: seq<Collected>, next: int)

  /** The arguments of types `shapes`, collected left to right from `index`. */
  function CollectArgs(row: seq<ReadableCell>, shapes: seq<Shape>, index: int): Args
  {
    if shapes == [] then Args([], index)
    else
      var front := CollectArgs(row, shapes[..|shapes| - 1], index);
      var last := CollectSpec(row, shapes[|shapes| - 1], front.next);
      Args(front.values + [last.value], last.next)
  }

  /** The total width of a list of argument types. */
  function WidthSum(shapes: seq<Shape>): nat {
    if shapes == [] then 0 else WidthSum(shapes[..|shapes| - 1]) + Width(shapes[|shapes| - 1])
  }

  /** `Iterable::iterate`: collects the callback's arguments from the current
      row of `st` starting at `index`, then calls it once and returns what it
      returns. */
  method Iterate<R>(cb: Callback<R>, st: Statement, shapes: seq<Shape>, index: int)
    returns (r: R, next: int)
    requires 1 <= |shapes| <= MaxCallbackArity
    modifies cb
    ensures var a := CollectArgs(st.engine.oracle.currentRow(st.engine.log, st.stmt), shapes, index);
            && next == a.next
            && cb.calls == old(cb.calls) + [a.values]
            && r == cb.respond(old(cb.calls), a.values)
  {
    ghost var row := st.engine.oracle.currentRow(st.engine.log, st.stmt);
    var args: seq<Collected> := [];
    next := index;
    var k := 0;
    while k < |shapes|
      invariant 0 <= k <= |shapes|
      invariant CollectArgs(row, shapes[..k], index) == Args(args, next)
      invariant cb.calls == old(cb.calls)
    {
      assert shapes[..k + 1][..k] == shapes[..k];
      var v;
      v, next := Collect(st, shapes[k], next);
      args := args + [v];
      k := k + 1;
    }
    assert shapes[..k] == shapes;
    assert CollectArgs(row, shapes, index) == Args(args, next);
    r := cb.Call(args);
    assert row == st.engine.oracle.currentRow(st.engine.log, st.stmt);
  }

  /** The column each argument starts at: `index` plus the widths of the
      arguments before it. */
  function Starts(shapes: seq<Shape>, index: int): (s: seq<int>)
    ensures |s| == |shapes|
  {
    if shapes == [] then []
    else
      var init := shapes[..|shapes| - 1];
      Starts(init, index) + [index + WidthSum(init)]
  }

  /** Argument k of `values` is what collecting type `shapes[k]` gives from
      its start column. */
  predicate CollectedInTurn(row: seq<ReadableCell>, values: seq<Collected>, shapes: seq<Shape>, index: int) {
    && |values| == |shapes|
    && forall k :: 0 <= k < |shapes| ==>
         values[k] == CollectSpec(row, shapes[k], Starts(shapes, index)[k]).value
  }

  /** The index ends advanced by the total width of the argument types. */
  lemma {:induction false} ArgsAdvanceByWidth(row: seq<ReadableCell>, shapes: seq<Shape>, index: int)
    ensures |CollectArgs(row, shapes, index).values| == |shapes|
    ensures CollectArgs(row, shapes, index).next == index + WidthSum(shapes)
  {
    if shapes != [] {
      var n := |shapes| - 1;
      ArgsAdvanceByWidth(row, shapes[..n], index);
      CollectReadsLeavesInOrder(row, shapes[n], CollectArgs(row, shapes[..n], index).next);
    }
  }

  /** Argument k is collected from column `index` plus the widths of the
      arguments before it. */
  lemma {:induction false} ArgsFromConsecutiveColumns(row: seq<ReadableCell>, shapes: seq<Shape>, index: int)
    ensures CollectedInTurn(row, CollectArgs(row, shapes, index).values, shapes, index)
  {
    if shapes != [] {
      var n := |shapes| - 1;
      var init := shapes[..n];
      ArgsFromConsecutiveColumns(row, init, index);
      ArgsAdvanceByWidth(row, init, index);
      var front := CollectArgs(row, init, index);
      var last := CollectSpec(row, shapes[n], front.next);
      var values := front.values + [last.value];
      var starts := Starts(shapes, index);
      assert CollectArgs(row, shapes, index).values == values;
      assert starts == Starts(init, index) + [index + WidthSum(init)];
      forall k | 0 <= k < n
        ensures values[k] == CollectSpec(row, shapes[k], starts[k]).value
      {
        assert init[k] == shapes[k];
        assert values[k] == front.values[k];
        assert starts[k] == Starts(init, index)[k];
      }
    }
  }

  /** The start column of argument k is `index` plus the widths of the
      arguments before it. */
  lemma {:induction false} StartsArePrefixWidths(shapes: seq<Shape>, index: int, k: nat)
    requires k < |shapes|
    ensures Starts(shapes, index)[k] == index + WidthSum(shapes[..k])
  {
    var n := |shapes| - 1;
    if k < n {
      StartsArePrefixWidths(shapes[..n], index, k);
      assert shapes[..n][..k] == shapes[..k];
    }
  }

  /** With scalar argument types, argument k comes from column `index + k`. */
  lemma {:induction false} ScalarArgs(row: seq<ReadableCell>, shapes: seq<Shape>, index: int)
    requires forall k :: 0 <= k < |shapes| ==> IsScalarShape(shapes[k])
    ensures var a := CollectArgs(row, shapes, index);
      && a.next == index + |shapes|
      && a.values == seq(|shapes|, k requires 0 <= k < |shapes| => ReadScalar(CellAt(row, index + k), shapes[k]))
  {
    if shapes != [] {
      ScalarArgs(row, shapes[..|shapes| - 1], index);
    }
  }

  /** Calling a three-argument callback collects exactly what the 3-tuple
      impl of `Collectable` collects. */
  lemma ArgsMatchTriple(row: seq<ReadableCell>, a: Shape, b: Shape, c: Shape, index: int)
    ensures var t := CollectSpec(row, Triple(a, b, c), index);
            CollectArgs(row, [a, b, c], index) == Args([t.value.v0, t.value.v1, t.value.v2], t.next)
  {
    var t0 := CollectSpec(row, a, index);
    var t1 := CollectSpec(row, b, t0.next);
    var t2 := CollectSpec(row, c, t1.next);
    assert [a, b, c][..2] == [a, b] && [a, b][..1] == [a] && [a][..0] == [];
    assert CollectArgs(row, [a], index) == Args([t0.value], t0.next);
    assert CollectArgs(row, [a, b], index) == Args([t0.value, t1.value], t1.next);
    assert CollectArgs(row, [a, b, c], index) == Args([t0.value, t1.value, t2.value], t2.next);
  }
}
