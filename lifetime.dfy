/** The life of the flag `bool *isFlushed` that the values of one chain share,
    as a function of the order in which those values are destroyed
    (`~logger`, logger.cpp). Zap.Logger.Destroy is specified by Closes and
    AfterDestroy. */
module Lifetime {

  /** The shared cell: its boolean, and whether it has not been deleted yet. */
  datatype Cell = Cell(value: bool, live: bool)

  /** Destroying a sequence of values either reads the cell after its delete
      (undefined behaviour) or ends with some number of closings written and
      the cell in a final state. */
  datatype Outcome = UseAfterDelete | Done(closings: nat, cell: Cell)

  /** A destructor that finds the shared flag false writes the closing. */
  predicate Closes(cell: Cell) {
    !cell.value
  }

  /** After the destructor of a value with arg_count `argCount` the flag is
      true, and it is deleted exactly when that value is the one with
      arg_count 1. */
  function AfterDestroy(argCount: int, cell: Cell): Cell {
    Cell(true, cell.live && argCount != 1)
  }

  /** Destroy, one after another, values whose arg_counts are `order`, all
      sharing one flag that starts as `cell`. */
  function Run(order: seq<int>, cell: Cell): Outcome
    decreases |order|
  {
    if order == [] then Done(0, cell)
    else if !cell.live then UseAfterDelete
    else
      match Run(order[1..], AfterDestroy(order[0], cell))
      case UseAfterDelete => UseAfterDelete
      case Done(n, last) => Done(n + (if Closes(cell) then 1 else 0), last)
  }

  /** One more destructor, run after the outcome `o`. */
  function Step(o: Outcome, argCount: int): Outcome {
    match o
    case UseAfterDelete => UseAfterDelete
    case Done(n, last) =>
      if !last.live then UseAfterDelete
      else Done(n + (if Closes(last) then 1 else 0), AfterDestroy(argCount, last))
  }

  /** Destroying one more value extends the run by one Step. */
  lemma {:induction false} RunSnoc(order: seq<int>, argCount: int, cell: Cell)
    ensures Run(order + [argCount], cell) == Step(Run(order, cell), argCount)
    decreases |order|
  {
    if order == [] {
      assert order + [argCount] == [argCount];
    } else {
      assert (order + [argCount])[1..] == order[1..] + [argCount];
      if cell.live {
        RunSnoc(order[1..], argCount, AfterDestroy(order[0], cell));
      }
    }
  }

  /** For any non-empty order of destruction starting from a live flag: no
      destructor reads the flag after its delete if and only if the value with
      arg_count 1 is not destroyed before the last position; then exactly one
      closing is written if the flag started false (none if it was already
      true), the flag ends true, and it ends deleted exactly when the last
      value destroyed was the one with arg_count 1. */
  lemma {:induction false} RunSafeIff(order: seq<int>, v: bool)
    requires order != []
    ensures Run(order, Cell(v, true)).Done? <==> 1 !in order[..|order| - 1]
    ensures Run(order, Cell(v, true)).Done? ==>
              Run(order, Cell(v, true)) == Done(if v then 0 else 1, Cell(true, order[|order| - 1] != 1))
    decreases |order|
  {
    var rest := order[1..];
    if rest == [] {
      assert order[..|order| - 1] == [];
    } else {
      assert order[..|order| - 1] == [order[0]] + rest[..|rest| - 1];
      if order[0] == 1 {
        assert Run(rest, Cell(true, false)) == UseAfterDelete;
      } else {
        RunSafeIff(rest, true);
      }
    }
  }

  /** The arg_counts of an N-value chain, last created first: N, N-1, ..., 1. */
  function Countdown(n: nat): (order: seq<int>)
    ensures |order| == n
  {
    if n == 0 then [] else [n as int] + Countdown(n - 1)
  }

  lemma {:induction false} CountdownAt(n: nat, i: nat)
    requires i < n
    ensures Countdown(n)[i] == n - i
  {
    if i > 0 {
      CountdownAt(n - 1, i - 1);
    }
  }

  lemma {:induction false} CountdownMultiplicity(n: nat, x: int)
    ensures multiset(Countdown(n))[x] == if 1 <= x <= n then 1 else 0
  {
    if n > 0 {
      assert multiset(Countdown(n)) == multiset{n as int} + multiset(Countdown(n - 1)) by {
        assert Countdown(n) == [n as int] + Countdown(n - 1);
      }
      CountdownMultiplicity(n - 1, x);
    }
  }

  /** The order C++ uses for the temporaries of one full expression
      (last created first) is safe and writes the closing exactly once. */
  lemma ReverseOrderSafe(n: nat)
    requires n >= 2
    ensures Run(Countdown(n), Cell(false, true)) == Done(1, Cell(true, false))
  {
    var order := Countdown(n);
    var earlier := order[..n - 1];
    assert 1 !in earlier by {
      forall i | 0 <= i < |earlier| ensures earlier[i] != 1 {
        CountdownAt(n, i);
      }
    }
    RunSafeIff(order, false);
  }

  /** Among all orders in which the N >= 2 values of a chain can be destroyed
      (every arg_count 1..N exactly once), the flag is never read after its
      delete exactly when the value with arg_count 1 goes last, whatever the
      order of the others; and then exactly one closing is written. */
  lemma AnyOrderSafeIff(order: seq<int>, n: nat)
    requires n >= 2
    requires multiset(order) == multiset(Countdown(n))
    ensures |order| == n
    ensures Run(order, Cell(false, true)).Done? <==> order[n - 1] == 1
    ensures Run(order, Cell(false, true)).Done? ==> Run(order, Cell(false, true)) == Done(1, Cell(true, false))
  {
    assert |order| == |multiset(order)| == |multiset(Countdown(n))| == n;
    CountdownMultiplicity(n, 1);
    assert order == order[..n - 1] + [order[n - 1]];
    assert multiset(order) == multiset(order[..n - 1]) + multiset{order[n - 1]};
    RunSafeIff(order, false);
    if order[n - 1] == 1 {
      assert multiset(order[..n - 1])[1] == 0;
    } else {
      assert multiset(order[..n - 1])[1] == 1;
    }
  }
}
