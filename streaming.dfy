/**
 * The budgeted batch iterator iter_arrays: it walks the normalised file list,
 * resolves the tree path once and reuses it, forwards every batch of every
 * file, and with a budget stops the whole run right after the batch that
 * brings the remaining count `ntodo` to zero or below.
 */
module Streaming {
  import opened Wrappers
  import opened Errors
  import opened Runs
  import opened Records
  import opened TreeLocator
  import opened Sources

  /**
   * Everything outside the core: what uproot.open finds at each path, what
   * t.iterate(entrystop=...) yields for a file, a tree path and a stop hint,
   * and seutils' protocol test and wildcard listing.
   */
  datatype World<V> = World(
    files: map<string, seq<Entry>>,
    source: (string, string, Option<int>) -> seq<Batch<V>>,
    hasProtocol: string -> bool,
    lsWildcard: string -> seq<string>)

  /** `if not (nmax)`: None and 0 both take the unbounded branch. */
  predicate Budgeted(nmax: Option<int>) {
    nmax.Some? && nmax.value != 0
  }

  /**
   * Opening a file and fixing its tree: find_tree on the file when no path
   * is known yet, else the lookup f[treepath].
   */
  function ResolveTree<V>(w: World<V>, file: string, treepath: Option<string>): Result<string, Error> {
    if file !in w.files then Failure(CannotOpen(file))
    else
      match treepath
      case None =>
        (match FindTree(w.files[file])
         case None => Failure(NoTree(file))
         case Some(p) => Success(p))
      case Some(p) =>
        if HasTreePath(w.files[file], p) then Success(p) else Failure(MissingTree(file, p))
  }

  /**
   * The bounded loop over one file's batches: `ntodo -= numentries(arrays)`,
   * yield, and stop when `ntodo <= 0`.  Returns the file's part of the run
   * (Exhausted: go on with the next file) and the remaining budget.
   */
  function Consume<V>(bs: seq<Batch<V>>, ntodo: int): (Run<Batch<V>>, int)
    decreases |bs|
  {
    if bs == [] then (Run([], Exhausted), ntodo)
    else
      match NumEntries(bs[0])
      case None => (Run([], Raised(NoEntryCount)), ntodo)
      case Some(n) =>
        if ntodo - n <= 0 then (Run([bs[0]], BudgetReached), ntodo - n)
        else
          var rest := Consume(bs[1..], ntodo - n);
          (Prepend([bs[0]], rest.0), rest.1)
  }

  /** The run the generator produces over `files`, with the state it carries across files. */
  function FilesRun<V>(w: World<V>, files: seq<string>, nmax: Option<int>, treepath: Option<string>, ntodo: int): Run<Batch<V>>
    decreases |files|
  {
    if files == [] then Run([], Exhausted)
    else
      match ResolveTree(w, files[0], treepath)
      case Failure(e) => Run([], Raised(e))
      case Success(p) =>
        if !Budgeted(nmax) then
          Prepend(w.source(files[0], p, nmax), FilesRun(w, files[1..], nmax, Some(p), ntodo))
        else
          var c := Consume(w.source(files[0], p, Some(ntodo)), ntodo);
          if c.0.end.Exhausted? then Prepend(c.0.items, FilesRun(w, files[1..], nmax, Some(p), c.1))
          else c.0
  }

  /** iter_arrays(rootfiles, nmax, treepath): the budget starts at nmax, once. */
  function ArraysRun<V>(w: World<V>, src: SourceRef, nmax: Option<int>, treepath: Option<string>): Run<Batch<V>> {
    FilesRun(w, FileList(FormatRootfiles(src, w.hasProtocol, w.lsWildcard)), nmax, treepath, nmax.GetOr(0))
  }

  /** The batches of every file, in file order, all read at tree path `p` with stop hint `stop`. */
  function Forwarded<V>(w: World<V>, files: seq<string>, p: string, stop: Option<int>): seq<Batch<V>>
    decreases |files|
  {
    if files == [] then [] else w.source(files[0], p, stop) + Forwarded(w, files[1..], p, stop)
  }

  function ShiftConsume<V>(xs: seq<Batch<V>>, c: (Run<Batch<V>>, int)): (Run<Batch<V>>, int) {
    (Prepend(xs, c.0), c.1)
  }

  lemma FilesRunStep<V>(w: World<V>, files: seq<string>, nmax: Option<int>, treepath: Option<string>, ntodo: int)
    requires files != []
    ensures ResolveTree(w, files[0], treepath).Failure? ==>
      FilesRun(w, files, nmax, treepath, ntodo) == Run([], Raised(ResolveTree(w, files[0], treepath).error))
    ensures ResolveTree(w, files[0], treepath).Success? && !Budgeted(nmax) ==>
      var p := ResolveTree(w, files[0], treepath).value;
      FilesRun(w, files, nmax, treepath, ntodo) ==
        Prepend(w.source(files[0], p, nmax), FilesRun(w, files[1..], nmax, Some(p), ntodo))
    ensures ResolveTree(w, files[0], treepath).Success? && Budgeted(nmax) ==>
      var p := ResolveTree(w, files[0], treepath).value;
      var c := Consume(w.source(files[0], p, Some(ntodo)), ntodo);
      FilesRun(w, files, nmax, treepath, ntodo) ==
        if c.0.end.Exhausted? then Prepend(c.0.items, FilesRun(w, files[1..], nmax, Some(p), c.1)) else c.0
  {
  }

  lemma ConsumeStep<V>(bs: seq<Batch<V>>, ntodo: int)
    requires bs != []
    ensures NumEntries(bs[0]).None? ==> Consume(bs, ntodo) == (Run([], Raised(NoEntryCount)), ntodo)
    ensures NumEntries(bs[0]).Some? ==>
      var left := ntodo - NumEntries(bs[0]).value;
      Consume(bs, ntodo) ==
        if left <= 0 then (Run([bs[0]], BudgetReached), left)
        else ShiftConsume([bs[0]], Consume(bs[1..], left))
  {
  }

  /** iter_arrays, as the generator runs it. */
  method IterArrays<V>(w: World<V>, src: SourceRef, nmax: Option<int>, treepath0: Option<string>)
    returns (run: Run<Batch<V>>)
    ensures run == ArraysRun(w, src, nmax, treepath0)
  {
    var files := FileList(FormatRootfiles(src, w.hasProtocol, w.lsWildcard));
    ghost var spec := FilesRun(w, files, nmax, treepath0, nmax.GetOr(0));
    var ntodo := nmax.GetOr(0);
    var treepath := treepath0;
    var out: seq<Batch<V>> := [];
    var i := 0;
    while i < |files|
      invariant 0 <= i <= |files|
      invariant spec == Prepend(out, FilesRun(w, files[i..], nmax, treepath, ntodo))
    {
      var rootfile := files[i];
      assert files[i..][0] == rootfile && files[i..][1..] == files[i + 1..];
      var resolved := ResolveTree(w, rootfile, treepath);
      FilesRunStep(w, files[i..], nmax, treepath, ntodo);
      if resolved.Failure? {
        assert out + [] == out;
        return Run(out, Raised(resolved.error));
      }
      treepath := Some(resolved.value);
      if !Budgeted(nmax) {
        PrependTwice(out, w.source(rootfile, resolved.value, nmax), FilesRun(w, files[i + 1..], nmax, treepath, ntodo));
        out := out + w.source(rootfile, resolved.value, nmax);
      } else {
        var batches := w.source(rootfile, resolved.value, Some(ntodo));
        ghost var start := ntodo;
        ghost var before := out;
        ghost var yielded: seq<Batch<V>> := [];
        var j := 0;
        assert batches[j..] == batches;
        PrependNil(Consume(batches, start).0);
        while j < |batches|
          invariant 0 <= j <= |batches|
          invariant out == before + yielded
          invariant Consume(batches, start) == ShiftConsume(yielded, Consume(batches[j..], ntodo))
        {
          var arrays := batches[j];
          assert batches[j..][0] == arrays && batches[j..][1..] == batches[j + 1..];
          var n := NumEntries(arrays);
          ConsumeStep(batches[j..], ntodo);
          if n.None? {
            assert yielded + [] == yielded;
            return Run(out, Raised(NoEntryCount));
          }
          PrependTwice(yielded, [arrays], Consume(batches[j + 1..], ntodo - n.value).0);
          ntodo := ntodo - n.value;
          out := out + [arrays];
          yielded := yielded + [arrays];
          if ntodo <= 0 {
            return Run(out, BudgetReached);
          }
          j := j + 1;
        }
        assert batches[j..] == [];
        assert yielded + [] == yielded;
        assert Consume(batches, start) == (Run(yielded, Exhausted), ntodo);
        PrependTwice(before, yielded, FilesRun(w, files[i + 1..], nmax, treepath, ntodo));
      }
      i := i + 1;
    }
    return Run(out, Exhausted);
  }

  /**
   * One file's bounded loop: ntodo falls by exactly the entry count of each
   * yielded batch; the batches yielded are an unsplit prefix of the file's;
   * the loop stops on the budget exactly when it yielded something and
   * ntodo reached zero or below; every batch before the last left a positive
   * budget; and the loop raises only on a batch without columns, which it
   * does not yield.
   */
  lemma ConsumeAccounting<V>(bs: seq<Batch<V>>, ntodo: int)
    ensures var c := Consume(bs, ntodo); c.1 == ntodo - Total(c.0.items)
    ensures var c := Consume(bs, ntodo); |c.0.items| <= |bs| && c.0.items == bs[..|c.0.items|]
    ensures var c := Consume(bs, ntodo); c.0.end.Exhausted? ==> c.0.items == bs
    ensures var c := Consume(bs, ntodo);
      c.0.end.Raised? ==> c.0.end.error == NoEntryCount && |c.0.items| < |bs| && NumEntries(bs[|c.0.items|]).None?
    ensures var c := Consume(bs, ntodo); BudgetKept(c.0.items, c.0.end, ntodo)
  {
    ConsumeShape(bs, ntodo);
    ConsumeBudget(bs, ntodo);
  }

  lemma {:induction false} ConsumeShape<V>(bs: seq<Batch<V>>, ntodo: int)
    ensures var c := Consume(bs, ntodo);
      && |c.0.items| <= |bs| && c.0.items == bs[..|c.0.items|]
      && (c.0.end.Exhausted? ==> c.0.items == bs)
      && (c.0.end.Raised? ==> c.0.end.error == NoEntryCount && |c.0.items| < |bs| && NumEntries(bs[|c.0.items|]).None?)
    decreases |bs|
  {
    if bs != [] && NumEntries(bs[0]).Some? {
      var left := ntodo - NumEntries(bs[0]).value;
      if left > 0 {
        ConsumeShape(bs[1..], left);
        assert bs == [bs[0]] + bs[1..];
      }
    }
  }

  lemma {:induction false} ConsumeBudget<V>(bs: seq<Batch<V>>, ntodo: int)
    ensures var c := Consume(bs, ntodo); c.1 == ntodo - Total(c.0.items) && BudgetKept(c.0.items, c.0.end, ntodo)
    decreases |bs|
  {
    if bs != [] && NumEntries(bs[0]).Some? {
      var n := NumEntries(bs[0]).value;
      var left := ntodo - n;
      assert Total([bs[0]]) == n by {
        assert [bs[0]][..0] == [];
      }
      if left > 0 {
        var rest := Consume(bs[1..], left);
        ConsumeBudget(bs[1..], left);
        TotalAppend([bs[0]], rest.0.items);
        BudgetKeptAppend([bs[0]], rest.0.items, rest.0.end, ntodo, left);
      }
    }
  }

  lemma TotalPrefixOfAppend<V>(xs: seq<Batch<V>>, ys: seq<Batch<V>>, k: nat)
    requires |xs| <= k <= |xs| + |ys|
    ensures Total((xs + ys)[..k]) == Total(xs) + Total(ys[..k - |xs|])
  {
    assert (xs + ys)[..k] == xs + ys[..k - |xs|];
    TotalAppend(xs, ys[..k - |xs|]);
  }

  /**
   * The budget across files: it is initialised once and carried, not reset,
   * so over the whole run every batch before the last left the total below
   * the starting budget, and the run ended on the budget exactly when it
   * yielded something and the total reached the budget.
   */
  lemma {:induction false} FilesRunBudget<V>(w: World<V>, files: seq<string>, nmax: Option<int>, treepath: Option<string>, ntodo: int)
    requires Budgeted(nmax)
    ensures var r := FilesRun(w, files, nmax, treepath, ntodo);
      BudgetKept(r.items, r.end, ntodo)
    decreases |files|
  {
    if files != [] {
      FilesRunStep(w, files, nmax, treepath, ntodo);
      if ResolveTree(w, files[0], treepath).Success? {
        var p := ResolveTree(w, files[0], treepath).value;
        var c := Consume(w.source(files[0], p, Some(ntodo)), ntodo);
        ConsumeAccounting(w.source(files[0], p, Some(ntodo)), ntodo);
        if c.0.end.Exhausted? {
          var rest := FilesRun(w, files[1..], nmax, Some(p), c.1);
          FilesRunBudget(w, files[1..], nmax, Some(p), c.1);
          BudgetKeptAppend(c.0.items, rest.items, rest.end, ntodo, c.1);
        }
      }
    }
  }

  /**
   * What the budget guarantees of a run that started with `ntodo` to do:
   * every batch before the last left the total below `ntodo`, the run ended on
   * the budget exactly when it yielded something and the total reached
   * `ntodo`, and every batch yielded had an entry count.
   */
  ghost predicate BudgetKept<V>(items: seq<Batch<V>>, end: End, ntodo: int) {
    && (forall k | 0 < k < |items| :: Total(items[..k]) < ntodo)
    && (end.BudgetReached? <==> (items != [] && Total(items) >= ntodo))
    && (forall k | 0 <= k < |items| :: NumEntries(items[k]).Some?)
  }

  lemma BudgetKeptAppend<V>(xs: seq<Batch<V>>, ys: seq<Batch<V>>, end: End, ntodo: int, left: int)
    requires left == ntodo - Total(xs)
    requires xs != [] ==> left > 0
    requires forall k | 0 < k < |xs| :: Total(xs[..k]) < ntodo
    requires forall k | 0 <= k < |xs| :: NumEntries(xs[k]).Some?
    requires BudgetKept(ys, end, left)
    ensures BudgetKept(xs + ys, end, ntodo)
  {
    TotalAppend(xs, ys);
    PrefixesAppend(xs, ys, ntodo, left);
    CountsAppend(xs, ys);
  }

  lemma PrefixesAppend<V>(xs: seq<Batch<V>>, ys: seq<Batch<V>>, ntodo: int, left: int)
    requires left == ntodo - Total(xs)
    requires xs != [] ==> left > 0
    requires forall k | 0 < k < |xs| :: Total(xs[..k]) < ntodo
    requires forall k | 0 < k < |ys| :: Total(ys[..k]) < left
    ensures forall k | 0 < k < |xs + ys| :: Total((xs + ys)[..k]) < ntodo
  {
    var zs := xs + ys;
    forall k | 0 < k < |zs|
      ensures Total(zs[..k]) < ntodo
    {
      if k < |xs| {
        assert zs[..k] == xs[..k];
      } else {
        TotalPrefixOfAppend(xs, ys, k);
        if k == |xs| {
          assert ys[..0] == [];
        }
      }
    }
  }

  lemma CountsAppend<V>(xs: seq<Batch<V>>, ys: seq<Batch<V>>)
    requires forall k | 0 <= k < |xs| :: NumEntries(xs[k]).Some?
    requires forall k | 0 <= k < |ys| :: NumEntries(ys[k]).Some?
    ensures forall k | 0 <= k < |xs + ys| :: NumEntries((xs + ys)[k]).Some?
  {
    var zs := xs + ys;
    forall k | 0 <= k < |zs|
      ensures NumEntries(zs[k]).Some?
    {
      if k >= |xs| { assert zs[k] == ys[k - |xs|]; }
    }
  }

  /**
   * Bounded mode of iter_arrays(rootfiles, nmax): batches before the last
   * total strictly less than nmax; a run that stopped on the budget yielded
   * at least nmax records, overshooting by less than its last batch; a run
   * that did not stop on the budget yielded less than nmax.
   */
  lemma BudgetBounds<V>(w: World<V>, src: SourceRef, nmax: Option<int>, treepath: Option<string>)
    requires Budgeted(nmax)
    ensures var r := ArraysRun(w, src, nmax, treepath);
      forall k | 0 < k < |r.items| :: Total(r.items[..k]) < nmax.value
    ensures var r := ArraysRun(w, src, nmax, treepath);
      r.end.BudgetReached? ==> r.items != [] && nmax.value <= Total(r.items)
    ensures var r := ArraysRun(w, src, nmax, treepath);
      r.end.BudgetReached? && nmax.value > 0 ==> Total(r.items) < nmax.value + Count(r.items[|r.items| - 1])
    ensures var r := ArraysRun(w, src, nmax, treepath);
      !r.end.BudgetReached? && r.items != [] ==> Total(r.items) < nmax.value
  {
    var files := FileList(FormatRootfiles(src, w.hasProtocol, w.lsWildcard));
    FilesRunBudget(w, files, nmax, treepath, nmax.value);
    var r := ArraysRun(w, src, nmax, treepath);
    if r.items != [] {
      var m := |r.items| - 1;
      TotalPrefixStep(r.items, m);
      assert r.items[..m + 1] == r.items;
      if m == 0 {
        assert r.items[..0] == [];
      }
    }
  }

  /**
   * Unbounded mode: when nmax is None or 0 and every file holds the tree
   * path in use (the supplied one, or the one found in the first file), the
   * run is every batch of every file, in file order, and nothing else.
   */
  lemma {:induction false} UnboundedForwardsEverything<V>(w: World<V>, files: seq<string>, nmax: Option<int>,
                                                          treepath: Option<string>, ntodo: int, p: string)
    requires !Budgeted(nmax)
    requires treepath.Some? ==> treepath.value == p
    requires treepath.None? && files != [] ==> files[0] in w.files && FindTree(w.files[files[0]]) == Some(p)
    requires forall i | 0 <= i < |files| :: files[i] in w.files && HasTreePath(w.files[files[i]], p)
    ensures FilesRun(w, files, nmax, treepath, ntodo) == Run(Forwarded(w, files, p, nmax), Exhausted)
    decreases |files|
  {
    if files != [] {
      FilesRunStep(w, files, nmax, treepath, ntodo);
      UnboundedForwardsEverything(w, files[1..], nmax, Some(p), ntodo, p);
    }
  }

  /**
   * A tree path found in the first file is reused verbatim: the run is the
   * one the caller would get by passing that path as `treepath`.
   */
  lemma FirstTreePathReused<V>(w: World<V>, files: seq<string>, nmax: Option<int>, ntodo: int, p: string)
    requires files != [] && files[0] in w.files && FindTree(w.files[files[0]]) == Some(p)
    ensures FilesRun(w, files, nmax, None, ntodo) == FilesRun(w, files, nmax, Some(p), ntodo)
  {
    FindTreeSound(w.files[files[0]]);
    FilesRunStep(w, files, nmax, None, ntodo);
    FilesRunStep(w, files, nmax, Some(p), ntodo);
  }

  /**
   * Reuse, not rediscovery: a later file that lacks the first file's tree
   * path ends the run with a lookup error even if it holds other trees.  In
   * bounded mode this needs the first file's loop to run to its end, neither
   * using up the budget nor meeting a batch without columns, for otherwise
   * the second file is never opened.
   */
  lemma ReusedPathMissingRaises<V>(w: World<V>, f0: string, f1: string, more: seq<string>, nmax: Option<int>, ntodo: int, p: string)
    requires f0 in w.files && FindTree(w.files[f0]) == Some(p)
    requires f1 in w.files && !HasTreePath(w.files[f1], p)
    requires Budgeted(nmax) ==> Consume(w.source(f0, p, Some(ntodo)), ntodo).0.end.Exhausted?
    ensures var hint := if Budgeted(nmax) then Some(ntodo) else nmax;
      FilesRun(w, [f0, f1] + more, nmax, None, ntodo) == Run(w.source(f0, p, hint), Raised(MissingTree(f1, p)))
  {
    var files := [f0, f1] + more;
    FilesRunStep(w, files, nmax, None, ntodo);
    assert files[1..] == [f1] + more;
    if Budgeted(nmax) {
      var c := Consume(w.source(f0, p, Some(ntodo)), ntodo);
      ConsumeShape(w.source(f0, p, Some(ntodo)), ntodo);
      FilesRunStep(w, files[1..], nmax, Some(p), c.1);
    } else {
      FilesRunStep(w, files[1..], nmax, Some(p), ntodo);
    }
  }

  /**
   * Bounded mode, whole run: when the source yields the same batches
   * whatever the stop hint and every file holds the tree path in use, the
   * run yields a prefix of every file's batches in file order, all of them
   * when it ends normally, and on an error stops right before the first
   * batch without columns.
   */
  lemma {:induction false} BoundedForwardsPrefix<V>(w: World<V>, files: seq<string>, nmax: Option<int>,
                                                    treepath: Option<string>, ntodo: int, p: string)
    requires Budgeted(nmax)
    requires treepath.Some? ==> treepath.value == p
    requires treepath.None? && files != [] ==> files[0] in w.files && FindTree(w.files[files[0]]) == Some(p)
    requires forall i | 0 <= i < |files| :: files[i] in w.files && HasTreePath(w.files[files[i]], p)
    requires forall i, stop | 0 <= i < |files| :: w.source(files[i], p, stop) == w.source(files[i], p, None)
    ensures var r := FilesRun(w, files, nmax, treepath, ntodo); var all := Forwarded(w, files, p, None);
      && |r.items| <= |all| && r.items == all[..|r.items|]
      && (r.end.Exhausted? ==> r.items == all)
      && (r.end.Raised? ==> r.end.error == NoEntryCount && |r.items| < |all| && NumEntries(all[|r.items|]).None?)
    decreases |files|
  {
    if files != [] {
      FilesRunStep(w, files, nmax, treepath, ntodo);
      ResolveFirstFile(w, files, treepath, p);
      var bs := w.source(files[0], p, None);
      assert w.source(files[0], p, Some(ntodo)) == bs;
      var c := Consume(bs, ntodo);
      ConsumeShape(bs, ntodo);
      var rest := Forwarded(w, files[1..], p, None);
      assert Forwarded(w, files, p, None) == bs + rest;
      if c.0.end.Exhausted? {
        HintIgnoredTail(w, files, p);
        BoundedForwardsPrefix(w, files[1..], nmax, Some(p), c.1, p);
        PrefixShift(bs, rest, FilesRun(w, files[1..], nmax, Some(p), c.1).items);
      } else {
        PrefixExtend(bs, rest, |c.0.items|);
      }
    }
  }

  lemma HintIgnoredTail<V>(w: World<V>, files: seq<string>, p: string)
    requires files != []
    requires forall i, stop | 0 <= i < |files| :: w.source(files[i], p, stop) == w.source(files[i], p, None)
    ensures forall i, stop | 0 <= i < |files[1..]| :: w.source(files[1..][i], p, stop) == w.source(files[1..][i], p, None)
  {
    forall i, stop | 0 <= i < |files[1..]|
      ensures w.source(files[1..][i], p, stop) == w.source(files[1..][i], p, None)
    {
      assert files[1..][i] == files[i + 1];
    }
  }

  /** A prefix of `ys` after `xs` is a prefix of `xs + ys`, and the element after it is the one after it in `ys`. */
  lemma PrefixShift<T>(xs: seq<T>, ys: seq<T>, zs: seq<T>)
    requires |zs| <= |ys| && zs == ys[..|zs|]
    ensures |xs + zs| <= |xs + ys| && xs + zs == (xs + ys)[..|xs + zs|]
    ensures |zs| < |ys| ==> (xs + ys)[|xs + zs|] == ys[|zs|]
    ensures zs == ys ==> xs + zs == xs + ys
  {
    assert (xs + ys)[..|xs + zs|] == xs + ys[..|zs|];
  }

  /** A prefix of `xs` is a prefix of `xs + ys`, followed there by the same element. */
  lemma PrefixExtend<T>(xs: seq<T>, ys: seq<T>, k: nat)
    requires k <= |xs|
    ensures (xs + ys)[..k] == xs[..k]
    ensures k < |xs| ==> (xs + ys)[k] == xs[k]
  {
  }

  /** With the path known or found in the first file, resolving the first file gives that path. */
  lemma ResolveFirstFile<V>(w: World<V>, files: seq<string>, treepath: Option<string>, p: string)
    requires files != []
    requires treepath.Some? ==> treepath.value == p
    requires treepath.None? ==> files[0] in w.files && FindTree(w.files[files[0]]) == Some(p)
    requires files[0] in w.files && HasTreePath(w.files[files[0]], p)
    ensures ResolveTree(w, files[0], treepath) == Success(p)
  {
  }

  /**
   * Stopping is final: once the run over `files` ends on the budget or on an
   * error, files after them are never opened and change nothing.
   */
  lemma {:induction false} StopIsFinal<V>(w: World<V>, files: seq<string>, more: seq<string>, nmax: Option<int>,
                                          treepath: Option<string>, ntodo: int)
    requires !FilesRun(w, files, nmax, treepath, ntodo).end.Exhausted?
    ensures FilesRun(w, files + more, nmax, treepath, ntodo) == FilesRun(w, files, nmax, treepath, ntodo)
    decreases |files|
  {
    FilesRunStep(w, files, nmax, treepath, ntodo);
    var all := files + more;
    assert all[0] == files[0] && all[1..] == files[1..] + more;
    FilesRunStep(w, all, nmax, treepath, ntodo);
    match ResolveTree(w, files[0], treepath) {
      case Failure(_) =>
      case Success(p) =>
        if !Budgeted(nmax) {
          StopIsFinal(w, files[1..], more, nmax, Some(p), ntodo);
        } else {
          var c := Consume(w.source(files[0], p, Some(ntodo)), ntodo);
          if c.0.end.Exhausted? {
            StopIsFinal(w, files[1..], more, nmax, Some(p), c.1);
          }
        }
    }
  }
}
