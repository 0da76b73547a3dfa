/**
 * The weighted splitter iter_arrays_weighted: a total N is shared out over
 * groups of files in proportion to their weights (cross sections), each
 * share is rounded on its own, and every group with a non-zero share is run
 * through iter_arrays with that share as its budget.
 */
module Weighted {
  import opened Wrappers
  import opened Errors
  import opened Runs
  import opened Records
  import opened Sources
  import opened Streaming

  /** Python 3's round() of a number to an int: to the nearest, ties to even. */
  function RoundHalfEven(x: real): (r: int)
    ensures -0.5 <= r as real - x <= 0.5
    ensures (r as real - x == 0.5 || x - r as real == 0.5) ==> r % 2 == 0
  {
    var f := x.Floor;
    var d := x - f as real;
    if d < 0.5 then f
    else if d > 0.5 then f + 1
    else if f % 2 == 0 then f
    else f + 1
  }

  /** sum() of the weights. */
  function Sum(xs: seq<real>): real {
    if xs == [] then 0.0 else xs[0] + Sum(xs[1..])
  }

  /** sum() of the integer sub-budgets. */
  function SumInt(ns: seq<int>): int {
    if ns == [] then 0 else ns[0] + SumInt(ns[1..])
  }

  /** ns_float: each weight as a fraction of the sum, times N. */
  function Targets(n: int, xs: seq<real>): (ts: seq<real>)
    requires xs == [] || Sum(xs) != 0.0
    ensures |ts| == |xs|
  {
    seq(|xs|, i requires 0 <= i < |xs| => xs[i] / Sum(xs) * n as real)
  }

  /** ns: every target rounded on its own; nothing makes them add up to N. */
  function SubBudgets(n: int, xs: seq<real>): (ns: seq<int>)
    requires xs == [] || Sum(xs) != 0.0
    ensures |ns| == |xs|
  {
    var ts := Targets(n, xs);
    seq(|xs|, i requires 0 <= i < |xs| => RoundHalfEven(ts[i]))
  }

  /** The loop over zip(ns, rootfiles): zero shares are skipped, the others delegated in order. */
  function GroupsRun<V>(w: World<V>, ns: seq<int>, groups: seq<SourceRef>, treepath: Option<string>): Run<Batch<V>>
    requires |ns| == |groups|
    decreases |ns|
  {
    if ns == [] then Run([], Exhausted)
    else if ns[0] == 0 then GroupsRun(w, ns[1..], groups[1..], treepath)
    else
      var r := ArraysRun(w, groups[0], Some(ns[0]), treepath);
      if r.end.Raised? then r else Prepend(r.items, GroupsRun(w, ns[1..], groups[1..], treepath))
  }

  /**
   * iter_arrays_weighted(N, crosssections, rootfiles): the length check comes
   * first and raises before any group is opened; then the division by the sum
   * of the weights, which raises when that sum is zero.
   */
  function WeightedRun<V>(w: World<V>, n: int, xs: seq<real>, groups: seq<SourceRef>, treepath: Option<string>): Run<Batch<V>> {
    if |xs| != |groups| then Run([], Raised(LengthMismatch))
    else if xs != [] && Sum(xs) == 0.0 then Run([], Raised(ZeroDivision))
    else GroupsRun(w, SubBudgets(n, xs), groups, treepath)
  }

  /**
   * The two checks come before any group is opened: when the lengths differ,
   * or the weights are non-empty and sum to zero, the run raises at once with
   * nothing yielded, whatever the files hold, whatever the groups name and
   * whatever N and the tree path are.
   */
  lemma WeightedChecksFirst<V>(w: World<V>, w': World<V>, n: int, n': int, xs: seq<real>,
                               groups: seq<SourceRef>, groups': seq<SourceRef>,
                               treepath: Option<string>, treepath': Option<string>)
    requires |groups'| == |groups|
    ensures |xs| != |groups| ==>
      WeightedRun(w, n, xs, groups, treepath) == WeightedRun(w', n', xs, groups', treepath') == Run([], Raised(LengthMismatch))
    ensures |xs| == |groups| && xs != [] && Sum(xs) == 0.0 ==>
      WeightedRun(w, n, xs, groups, treepath) == WeightedRun(w', n', xs, groups', treepath') == Run([], Raised(ZeroDivision))
  {
  }

  /** iter_arrays_weighted, as the generator runs it. */
  method IterArraysWeighted<V>(w: World<V>, n: int, xs: seq<real>, groups: seq<SourceRef>, treepath: Option<string>)
    returns (run: Run<Batch<V>>)
    ensures run == WeightedRun(w, n, xs, groups, treepath)
  {
    if |xs| != |groups| {
      return Run([], Raised(LengthMismatch));
    }
    var norm := Sum(xs);
    if xs != [] && norm == 0.0 {
      return Run([], Raised(ZeroDivision));
    }
    var ns := SubBudgets(n, xs);
    ghost var spec := GroupsRun(w, ns, groups, treepath);
    var out: seq<Batch<V>> := [];
    var i := 0;
    assert ns[i..] == ns && groups[i..] == groups;
    PrependNil(spec);
    while i < |ns|
      invariant 0 <= i <= |ns|
      invariant spec == Prepend(out, GroupsRun(w, ns[i..], groups[i..], treepath))
    {
      assert ns[i..][0] == ns[i] && ns[i..][1..] == ns[i + 1..];
      assert groups[i..][0] == groups[i] && groups[i..][1..] == groups[i + 1..];
      if ns[i] == 0 {
        i := i + 1;
        continue;
      }
      var r := IterArrays(w, groups[i], Some(ns[i]), treepath);
      if r.end.Raised? {
        return Prepend(out, r);
      }
      PrependTwice(out, r.items, GroupsRun(w, ns[i + 1..], groups[i + 1..], treepath));
      out := out + r.items;
      i := i + 1;
    }
    assert out + [] == out;
    return Run(out, Exhausted);
  }

  /** The ties-to-even rule pins round() down: only one integer meets its two properties. */
  lemma RoundHalfEvenUnique(x: real, r: int)
    requires -0.5 <= r as real - x <= 0.5
    requires (r as real - x == 0.5 || x - r as real == 0.5) ==> r % 2 == 0
    ensures r == RoundHalfEven(x)
  {
  }

  lemma {:induction false} SumScaled(xs: seq<real>, ts: seq<real>, c: real)
    requires |ts| == |xs|
    requires forall i | 0 <= i < |xs| :: ts[i] == xs[i] * c
    ensures Sum(ts) == Sum(xs) * c
    decreases |xs|
  {
    if xs != [] {
      SumScaled(xs[1..], ts[1..], c);
    }
  }

  /** The targets of ns_float add up to N exactly. */
  lemma TargetsSum(n: int, xs: seq<real>)
    requires xs != [] && Sum(xs) != 0.0
    ensures Sum(Targets(n, xs)) == n as real
  {
    var norm := Sum(xs);
    var c := n as real / norm;
    var ts := Targets(n, xs);
    forall i | 0 <= i < |xs| ensures ts[i] == xs[i] * c {
      assert ts[i] == xs[i] / norm * n as real;
    }
    SumScaled(xs, ts, c);
    assert norm * (n as real / norm) == n as real;
  }

  lemma {:induction false} RoundingErrorsAdd(ns: seq<int>, ts: seq<real>)
    requires |ns| == |ts|
    requires forall i | 0 <= i < |ns| :: -0.5 <= ns[i] as real - ts[i] <= 0.5
    ensures -(|ns| as real) / 2.0 <= SumInt(ns) as real - Sum(ts) <= |ns| as real / 2.0
    decreases |ns|
  {
    if ns != [] {
      RoundingErrorsAdd(ns[1..], ts[1..]);
      assert -0.5 <= ns[0] as real - ts[0] <= 0.5;
    }
  }

  /**
   * The sub-budgets are not renormalised: their sum may miss N, but by no
   * more than half a record per group, and each is within half a record of
   * its exact share.
   */
  lemma SubBudgetsNearTarget(n: int, xs: seq<real>)
    requires xs != [] && Sum(xs) != 0.0
    ensures forall i | 0 <= i < |xs| :: -0.5 <= SubBudgets(n, xs)[i] as real - Targets(n, xs)[i] <= 0.5
    ensures -(|xs| as real) / 2.0 <= SumInt(SubBudgets(n, xs)) as real - n as real <= |xs| as real / 2.0
  {
    var ts := Targets(n, xs);
    var ns := SubBudgets(n, xs);
    forall i | 0 <= i < |xs|
      ensures -0.5 <= ns[i] as real - ts[i] <= 0.5
    {
      assert ns[i] == RoundHalfEven(ts[i]);
    }
    RoundingErrorsAdd(ns, ts);
    TargetsSum(n, xs);
  }

  /** Three equal weights and N = 100: each group gets 33, and the total done is 99, not 100. */
  lemma EqualThirdsOfHundred()
    ensures SubBudgets(100, [1.0, 1.0, 1.0]) == [33, 33, 33]
    ensures SumInt(SubBudgets(100, [1.0, 1.0, 1.0])) == 99
  {
    var xs := [1.0, 1.0, 1.0];
    assert Sum(xs) == 3.0;
    var t := 1.0 / 3.0 * 100.0;
    assert t == 100.0 / 3.0;
    assert 33.0 <= t < 34.0;
    assert t.Floor == 33;
    assert RoundHalfEven(t) == 33;
    var ns := SubBudgets(100, xs);
    assert ns[0] == 33 && ns[1] == 33 && ns[2] == 33;
  }

  /**
   * A group with a zero share is never opened: whatever files it names, the
   * run is the same.
   */
  lemma {:induction false} ZeroShareGroupsUnread<V>(w: World<V>, ns: seq<int>, groups: seq<SourceRef>, others: seq<SourceRef>,
                                                    treepath: Option<string>)
    requires |ns| == |groups| == |others|
    requires forall i | 0 <= i < |ns| && ns[i] != 0 :: groups[i] == others[i]
    ensures GroupsRun(w, ns, groups, treepath) == GroupsRun(w, ns, others, treepath)
    decreases |ns|
  {
    if ns != [] {
      ZeroShareGroupsUnread(w, ns[1..], groups[1..], others[1..], treepath);
    }
  }

  /** The group-by-group segments: nothing for a zero share, else that group's own bounded run. */
  function Segments<V>(w: World<V>, ns: seq<int>, groups: seq<SourceRef>, treepath: Option<string>): (segs: seq<seq<Batch<V>>>)
    requires |ns| == |groups|
    ensures |segs| == |ns|
  {
    seq(|ns|, i requires 0 <= i < |ns| =>
      if ns[i] == 0 then [] else ArraysRun(w, groups[i], Some(ns[i]), treepath).items)
  }

  function Concat<T>(segs: seq<seq<T>>): seq<T> {
    if segs == [] then [] else segs[0] + Concat(segs[1..])
  }

  /**
   * When no group raises, the weighted run is the concatenation, in weight
   * order, of each non-zero group's own iter_arrays run with its share as
   * nmax; each group starts from a fresh budget and a fresh tree path.
   */
  lemma {:induction false} GroupsAreConcatenated<V>(w: World<V>, ns: seq<int>, groups: seq<SourceRef>, treepath: Option<string>)
    requires |ns| == |groups|
    requires forall i | 0 <= i < |ns| && ns[i] != 0 :: !ArraysRun(w, groups[i], Some(ns[i]), treepath).end.Raised?
    ensures GroupsRun(w, ns, groups, treepath) == Run(Concat(Segments(w, ns, groups, treepath)), Exhausted)
    decreases |ns|
  {
    if ns != [] {
      GroupsAreConcatenated(w, ns[1..], groups[1..], treepath);
      assert Segments(w, ns, groups, treepath)[1..] == Segments(w, ns[1..], groups[1..], treepath);
    }
  }

  /**
   * `yield from` passes a group's exception through: when group k is the
   * first non-zero group whose iter_arrays run raises, the weighted run is
   * the earlier groups' batches, then that group's, and ends with its error.
   */
  lemma {:induction false} GroupRaiseEndsRun<V>(w: World<V>, ns: seq<int>, groups: seq<SourceRef>, treepath: Option<string>, k: nat)
    requires |ns| == |groups| && k < |ns| && ns[k] != 0
    requires ArraysRun(w, groups[k], Some(ns[k]), treepath).end.Raised?
    requires forall i | 0 <= i < k && ns[i] != 0 :: !ArraysRun(w, groups[i], Some(ns[i]), treepath).end.Raised?
    ensures var r := ArraysRun(w, groups[k], Some(ns[k]), treepath);
      GroupsRun(w, ns, groups, treepath) == Run(Concat(Segments(w, ns, groups, treepath)[..k]) + r.items, r.end)
    decreases k
  {
    if k == 0 {
      GroupRaiseHere(w, ns, groups, treepath);
    } else {
      NoRaiseBeforeTail(w, ns, groups, treepath, k);
      assert ns[1..][k - 1] == ns[k] && groups[1..][k - 1] == groups[k];
      GroupRaiseEndsRun(w, ns[1..], groups[1..], treepath, k - 1);
      GroupRaiseLater(w, ns, groups, treepath, k);
    }
  }

  lemma GroupRaiseHere<V>(w: World<V>, ns: seq<int>, groups: seq<SourceRef>, treepath: Option<string>)
    requires |ns| == |groups| && ns != [] && ns[0] != 0
    requires ArraysRun(w, groups[0], Some(ns[0]), treepath).end.Raised?
    ensures var r := ArraysRun(w, groups[0], Some(ns[0]), treepath);
      GroupsRun(w, ns, groups, treepath) == Run(Concat(Segments(w, ns, groups, treepath)[..0]) + r.items, r.end)
  {
    var r := ArraysRun(w, groups[0], Some(ns[0]), treepath);
    GroupsRunStep(w, ns, groups, treepath);
    SegmentsStep(w, ns, groups, treepath, 0);
    assert GroupsRun(w, ns, groups, treepath) == r;
    assert [] + r.items == r.items;
  }

  /** One step of GroupRaiseEndsRun: the equation for the groups after the first gives the one for all. */
  lemma GroupRaiseLater<V>(w: World<V>, ns: seq<int>, groups: seq<SourceRef>, treepath: Option<string>, k: nat)
    requires |ns| == |groups| && 0 < k < |ns|
    requires ns[0] != 0 ==> !ArraysRun(w, groups[0], Some(ns[0]), treepath).end.Raised?
    requires var r := ArraysRun(w, groups[k], Some(ns[k]), treepath);
      GroupsRun(w, ns[1..], groups[1..], treepath) ==
        Run(Concat(Segments(w, ns[1..], groups[1..], treepath)[..k - 1]) + r.items, r.end)
    ensures var r := ArraysRun(w, groups[k], Some(ns[k]), treepath);
      GroupsRun(w, ns, groups, treepath) == Run(Concat(Segments(w, ns, groups, treepath)[..k]) + r.items, r.end)
  {
    GroupsRunStep(w, ns, groups, treepath);
    SegmentsStep(w, ns, groups, treepath, k);
    var h := if ns[0] == 0 then [] else ArraysRun(w, groups[0], Some(ns[0]), treepath).items;
    var rest := GroupsRun(w, ns[1..], groups[1..], treepath);
    if ns[0] == 0 {
      PrependNil(rest);
    }
    ShiftRaise(GroupsRun(w, ns, groups, treepath), rest, h,
               Concat(Segments(w, ns[1..], groups[1..], treepath)[..k - 1]),
               Concat(Segments(w, ns, groups, treepath)[..k]),
               ArraysRun(w, groups[k], Some(ns[k]), treepath));
  }

  lemma ShiftRaise<T>(whole: Run<T>, rest: Run<T>, h: seq<T>, earlier: seq<T>, c: seq<T>, r: Run<T>)
    requires whole == Prepend(h, rest)
    requires rest == Run(earlier + r.items, r.end)
    requires c == h + earlier
    ensures whole == Run(c + r.items, r.end)
  {
    assert h + (earlier + r.items) == (h + earlier) + r.items;
  }

  lemma GroupsRunStep<V>(w: World<V>, ns: seq<int>, groups: seq<SourceRef>, treepath: Option<string>)
    requires |ns| == |groups| && ns != []
    ensures var r := ArraysRun(w, groups[0], Some(ns[0]), treepath);
      GroupsRun(w, ns, groups, treepath) ==
        if ns[0] == 0 then GroupsRun(w, ns[1..], groups[1..], treepath)
        else if r.end.Raised? then r
        else Prepend(r.items, GroupsRun(w, ns[1..], groups[1..], treepath))
  {
  }

  lemma SegmentsStep<V>(w: World<V>, ns: seq<int>, groups: seq<SourceRef>, treepath: Option<string>, k: nat)
    requires |ns| == |groups| && k < |ns|
    ensures var segs := Segments(w, ns, groups, treepath);
      && Concat(segs[..0]) == []
      && (k > 0 ==>
            Concat(segs[..k]) ==
              (if ns[0] == 0 then [] else ArraysRun(w, groups[0], Some(ns[0]), treepath).items)
              + Concat(Segments(w, ns[1..], groups[1..], treepath)[..k - 1]))
  {
    var segs := Segments(w, ns, groups, treepath);
    assert segs[..0] == [];
    if k > 0 {
      var tail := Segments(w, ns[1..], groups[1..], treepath);
      assert segs[..k][0] == segs[0];
      assert segs[..k][1..] == tail[..k - 1];
    }
  }

  lemma NoRaiseBeforeTail<V>(w: World<V>, ns: seq<int>, groups: seq<SourceRef>, treepath: Option<string>, k: nat)
    requires |ns| == |groups| && 0 < k < |ns|
    requires forall i | 0 <= i < k && ns[i] != 0 :: !ArraysRun(w, groups[i], Some(ns[i]), treepath).end.Raised?
    ensures forall i | 0 <= i < k - 1 && ns[1..][i] != 0 :: !ArraysRun(w, groups[1..][i], Some(ns[1..][i]), treepath).end.Raised?
  {
    forall i | 0 <= i < k - 1 && ns[1..][i] != 0
      ensures !ArraysRun(w, groups[1..][i], Some(ns[1..][i]), treepath).end.Raised?
    {
      assert ns[1..][i] == ns[i + 1] && groups[1..][i] == groups[i + 1];
    }
  }

  /**
   * Groups after the one that raises are never opened: replacing them
   * changes nothing.
   */
  lemma LaterGroupsUnopened<V>(w: World<V>, ns: seq<int>, groups: seq<SourceRef>, others: seq<SourceRef>,
                               treepath: Option<string>, k: nat)
    requires |ns| == |groups| == |others| && k < |ns| && ns[k] != 0
    requires others[..k + 1] == groups[..k + 1]
    requires ArraysRun(w, groups[k], Some(ns[k]), treepath).end.Raised?
    requires forall i | 0 <= i < k && ns[i] != 0 :: !ArraysRun(w, groups[i], Some(ns[i]), treepath).end.Raised?
    ensures GroupsRun(w, ns, others, treepath) == GroupsRun(w, ns, groups, treepath)
  {
    forall i | 0 <= i <= k ensures others[i] == groups[i] {
      assert others[i] == others[..k + 1][i];
    }
    GroupRaiseEndsRun(w, ns, groups, treepath, k);
    GroupRaiseEndsRun(w, ns, others, treepath, k);
    assert Segments(w, ns, others, treepath)[..k] == Segments(w, ns, groups, treepath)[..k];
  }
}
