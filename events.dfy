/**
 * The record iterator: iter_events flattens the batches of iter_arrays into
 * events, batch by batch and position by position, and get_event_rootfile
 * takes the j-th of them.
 */
module Events {
  import opened Wrappers
  import opened Errors
  import opened Runs
  import opened Records
  import opened Sources
  import opened Streaming

  /**
   * The inner loop `for i in range(n): yield get_event(arrays, i)` from
   * position i on: it raises IndexError at the first position that some
   * column does not reach.
   */
  function EventsFrom<V>(b: Batch<V>, i: nat, n: nat): Run<Event<V>>
    decreases n - i
  {
    if i >= n then Run([], Exhausted)
    else if !Covers(b, i) then Run([], Raised(IndexOutOfRange))
    else Prepend([GetEvent(b, i)], EventsFrom(b, i + 1, n))
  }

  /** The events of one batch; range(numentries(arrays)) raises when there is no column. */
  function BatchEvents<V>(b: Batch<V>): Run<Event<V>> {
    match NumEntries(b)
    case None => Run([], Raised(NoEntryCount))
    case Some(n) => EventsFrom(b, 0, n)
  }

  /** The outer loop over a batch run that ended with `end`. */
  function Flatten<V>(bs: seq<Batch<V>>, end: End): Run<Event<V>>
    decreases |bs|
  {
    if bs == [] then Run([], end)
    else
      var r := BatchEvents(bs[0]);
      if r.end.Raised? then r else Prepend(r.items, Flatten(bs[1..], end))
  }

  /** iter_events(rootfiles, nmax, treepath). */
  function EventsRun<V>(w: World<V>, src: SourceRef, nmax: Option<int>, treepath: Option<string>): Run<Event<V>> {
    var a := ArraysRun(w, src, nmax, treepath);
    Flatten(a.items, a.end)
  }

  /** iter_events, as the generator runs it. */
  method IterEvents<V>(w: World<V>, src: SourceRef, nmax: Option<int>, treepath: Option<string>)
    returns (run: Run<Event<V>>)
    ensures run == EventsRun(w, src, nmax, treepath)
  {
    var arrays := IterArrays(w, src, nmax, treepath);
    var bs := arrays.items;
    var out: seq<Event<V>> := [];
    var k := 0;
    assert bs[k..] == bs;
    PrependNil(Flatten(bs, arrays.end));
    while k < |bs|
      invariant 0 <= k <= |bs|
      invariant EventsRun(w, src, nmax, treepath) == Prepend(out, Flatten(bs[k..], arrays.end))
    {
      var b := bs[k];
      assert bs[k..][0] == b && bs[k..][1..] == bs[k + 1..];
      var n := NumEntries(b);
      if n.None? {
        assert out + [] == out;
        return Run(out, Raised(NoEntryCount));
      }
      ghost var before := out;
      ghost var done: seq<Event<V>> := [];
      var i := 0;
      PrependNil(EventsFrom(b, 0, n.value));
      while i < n.value
        invariant 0 <= i <= n.value
        invariant out == before + done
        invariant EventsFrom(b, 0, n.value) == Prepend(done, EventsFrom(b, i, n.value))
      {
        if !(forall j | 0 <= j < |b| :: i < |b[j].values|) {
          assert done + [] == done;
          PrependTwice(before, done, Run([], Raised(IndexOutOfRange)));
          return Run(out, Raised(IndexOutOfRange));
        }
        PrependTwice(done, [GetEvent(b, i)], EventsFrom(b, i + 1, n.value));
        out := out + [GetEvent(b, i)];
        done := done + [GetEvent(b, i)];
        i := i + 1;
      }
      assert done + [] == done;
      PrependTwice(before, done, Flatten(bs[k + 1..], arrays.end));
      k := k + 1;
    }
    assert bs[k..] == [];
    assert out + [] == out;
    return Run(out, arrays.end);
  }

  /**
   * get_event_rootfile(rootfile, j): the j-th event when the iteration
   * reaches it; otherwise the error that ended the iteration, or nothing
   * (None) when it ended normally first.
   */
  method GetEventRootfile<V>(w: World<V>, src: SourceRef, j: int, nmax: Option<int>, treepath: Option<string>)
    returns (r: Result<Option<Event<V>>, Error>)
    ensures var e := EventsRun(w, src, nmax, treepath);
      0 <= j < |e.items| ==> r == Success(Some(e.items[j]))
    ensures var e := EventsRun(w, src, nmax, treepath);
      !(0 <= j < |e.items|) && e.end.Raised? ==> r == Failure(e.end.error)
    ensures var e := EventsRun(w, src, nmax, treepath);
      !(0 <= j < |e.items|) && !e.end.Raised? ==> r == Success(None)
  {
    var events := IterEvents(w, src, nmax, treepath);
    var i := 0;
    while i < |events.items|
      invariant 0 <= i <= |events.items|
      invariant !(0 <= j < i)
    {
      if i == j {
        return Success(Some(events.items[i]));
      }
      i := i + 1;
    }
    if events.end.Raised? {
      return Failure(events.end.error);
    }
    return Success(None);
  }

  lemma {:induction false} EventsFromCovered<V>(b: Batch<V>, i: nat, n: nat)
    requires i <= n
    requires forall p | i <= p < n :: Covers(b, p)
    ensures EventsFrom(b, i, n).end == Exhausted
    ensures |EventsFrom(b, i, n).items| == n - i
    ensures forall q | 0 <= q < n - i :: EventsFrom(b, i, n).items[q] == GetEvent(b, i + q)
    decreases n - i
  {
    if i < n {
      EventsFromCovered(b, i + 1, n);
      var rest := EventsFrom(b, i + 1, n);
      forall q | 0 <= q < n - i
        ensures EventsFrom(b, i, n).items[q] == GetEvent(b, i + q)
      {
        if q > 0 { assert EventsFrom(b, i, n).items[q] == rest.items[q - 1]; }
      }
    }
  }

  /**
   * A batch from a reader that keeps its columns of one length yields exactly
   * numentries events, event i holding every column's i-th value, and the
   * events rebuild the batch they came from (so re-measuring gives the
   * original count).
   */
  lemma BatchEventsRoundTrip<V>(b: Batch<V>)
    requires WellFormed(b)
    ensures BatchEvents(b).end == Exhausted
    ensures |BatchEvents(b).items| == Count(b)
    ensures forall i | 0 <= i < Count(b) :: BatchEvents(b).items[i] == GetEvent(b, i)
    ensures forall i | 0 <= i < |BatchEvents(b).items| :: |BatchEvents(b).items[i]| == |Names(b)|
    ensures forall i, j | 0 <= i < Count(b) && 0 <= j < |b| :: BatchEvents(b).items[i][j] == (b[j].name, b[j].values[i])
    ensures Rebuild(Names(b), BatchEvents(b).items) == b
    ensures NumEntries(Rebuild(Names(b), BatchEvents(b).items)) == NumEntries(b)
  {
    var n := |b[0].values|;
    EventsFromCovered(b, 0, n);
    var evs := BatchEvents(b).items;
    var rb := Rebuild(Names(b), evs);
    forall i, j | 0 <= i < n && 0 <= j < |b|
      ensures evs[i][j] == (b[j].name, b[j].values[i])
    {
      assert evs[i] == GetEvent(b, i);
    }
    forall c | 0 <= c < |b|
      ensures rb[c] == b[c]
    {
      assert |rb[c].values| == |b[c].values|;
      forall i | 0 <= i < n
        ensures rb[c].values[i] == b[c].values[i]
      {
        assert evs[i] == GetEvent(b, i);
      }
    }
  }

  /**
   * Batch-then-position order: over well-formed batches the events are
   * every batch's events in turn, the i-th event of batch k standing at
   * position Total(bs[..k]) + i, and the run ends as the batch run did.
   */
  lemma FlattenOrder<V>(bs: seq<Batch<V>>, end: End)
    requires forall k | 0 <= k < |bs| :: WellFormed(bs[k])
    ensures Flatten(bs, end).end == end
    ensures |Flatten(bs, end).items| == Total(bs)
    ensures forall k, i | 0 <= k < |bs| && 0 <= i < Count(bs[k]) ::
      && Covers(bs[k], i)
      && Total(bs[..k]) + i < |Flatten(bs, end).items|
      && Flatten(bs, end).items[Total(bs[..k]) + i] == GetEvent(bs[k], i)
  {
    FlattenLength(bs, end);
    forall k, i | 0 <= k < |bs| && 0 <= i < Count(bs[k])
      ensures Covers(bs[k], i)
      ensures Total(bs[..k]) + i < |Flatten(bs, end).items|
      ensures Flatten(bs, end).items[Total(bs[..k]) + i] == GetEvent(bs[k], i)
    {
      FlattenAt(bs, end, k, i);
    }
  }

  lemma {:induction false} FlattenLength<V>(bs: seq<Batch<V>>, end: End)
    requires forall k | 0 <= k < |bs| :: WellFormed(bs[k])
    ensures Flatten(bs, end).end == end
    ensures |Flatten(bs, end).items| == Total(bs)
    decreases |bs|
  {
    if bs != [] {
      var b := bs[0];
      BatchEventsRoundTrip(b);
      FlattenLength(bs[1..], end);
      assert bs == [b] + bs[1..];
      TotalCons(b, bs[1..], |bs|);
      assert ([b] + bs[1..])[..|bs|] == bs;
      assert bs[1..][..|bs| - 1] == bs[1..];
    }
  }

  lemma {:induction false} FlattenAt<V>(bs: seq<Batch<V>>, end: End, k: nat, i: nat)
    requires forall q | 0 <= q < |bs| :: WellFormed(bs[q])
    requires k < |bs| && i < Count(bs[k])
    ensures Covers(bs[k], i)
    ensures Total(bs[..k]) + i < |Flatten(bs, end).items|
    ensures Flatten(bs, end).items[Total(bs[..k]) + i] == GetEvent(bs[k], i)
    decreases k
  {
    var b := bs[0];
    BatchEventsRoundTrip(b);
    var here := BatchEvents(b).items;
    var rest := Flatten(bs[1..], end);
    assert Flatten(bs, end).items == here + rest.items;
    assert bs == [b] + bs[1..];
    if k == 0 {
      assert bs[..0] == [];
      FlattenLength(bs[1..], end);
    } else {
      FlattenAt(bs[1..], end, k - 1, i);
      TotalCons(b, bs[1..], k);
    }
  }

  lemma TotalCons<V>(b: Batch<V>, rest: seq<Batch<V>>, k: nat)
    requires 0 < k <= |rest| + 1
    ensures Total(([b] + rest)[..k]) == Count(b) + Total(rest[..k - 1])
  {
    assert ([b] + rest)[..k] == [b] + rest[..k - 1];
    TotalAppend([b], rest[..k - 1]);
    assert [b][..0] == [];
  }
}
