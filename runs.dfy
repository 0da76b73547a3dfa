/**
 * A finite run of a Python generator: the items it yielded, in order, and
 * how it ended.  Items yielded before an exception stay visible to the
 * consumer, so an error ends a run without discarding its prefix.
 */
module Runs {
  import opened Errors

  datatype End =
    | Exhausted      // the generator fell off its end
    | BudgetReached  // iter_arrays returned early because ntodo <= 0
    | Raised(error: Error)

  datatype Run<T> = Run(items: seq<T>, end: End)

  /** The run that first yields `xs` and then behaves as `r`. */
  function Prepend<T>(xs: seq<T>, r: Run<T>): Run<T> {
    Run(xs + r.items, r.end)
  }

  lemma PrependNil<T>(r: Run<T>)
    ensures Prepend([], r) == r
  {
    assert [] + r.items == r.items;
  }

  lemma PrependTwice<T>(xs: seq<T>, ys: seq<T>, r: Run<T>)
    ensures Prepend(xs, Prepend(ys, r)) == Prepend(xs + ys, r)
  {
    assert xs + (ys + r.items) == (xs + ys) + r.items;
  }
}
