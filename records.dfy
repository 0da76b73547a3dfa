/**
 * Column batches and the records (events) read out of them.  A batch is the
 * dictionary a tree's iterate() yields: column names in insertion order, each
 * with its sequence of values.  An event is the dictionary get_event builds:
 * the same names, each with the value at one position.
 */
module Records {
  import opened Wrappers

  datatype Column<V> = Column(name: string, values: seq<V>)
  type Batch<V> = seq<Column<V>>
  type Event<V> = seq<(string, V)>

  /** numentries: the length of the first column; None for a batch without columns. */
  function NumEntries<V>(b: Batch<V>): Option<nat> {
    if b == [] then None else Some(|b[0].values|)
  }

  /** The entry count as the budget arithmetic consumes it. */
  function Count<V>(b: Batch<V>): nat {
    NumEntries(b).GetOr(0)
  }

  /** The number of records in a sequence of batches. */
  function Total<V>(bs: seq<Batch<V>>): nat {
    if bs == [] then 0 else Total(bs[..|bs| - 1]) + Count(bs[|bs| - 1])
  }

  /** Every column of `b` holds exactly `n` values. */
  predicate Uniform<V>(b: Batch<V>, n: nat) {
    forall j | 0 <= j < |b| :: |b[j].values| == n
  }

  /** No two columns share a name, as the keys of a dictionary do not. */
  predicate DistinctNames<V>(b: Batch<V>) {
    forall j, k | 0 <= j < k < |b| :: b[j].name != b[k].name
  }

  /** A well-formed batch: at least one column, all of one length, under distinct names. */
  predicate WellFormed<V>(b: Batch<V>) {
    b != [] && Uniform(b, |b[0].values|) && DistinctNames(b)
  }

  /** Every column of `b` has a value at position `i`. */
  predicate Covers<V>(b: Batch<V>, i: nat) {
    forall j | 0 <= j < |b| :: i < |b[j].values|
  }

  /** get_event: every column name paired with that column's i-th value, in column order. */
  function GetEvent<V>(b: Batch<V>, i: nat): Event<V>
    requires Covers(b, i)
  {
    seq(|b|, j requires 0 <= j < |b| => (b[j].name, b[j].values[i]))
  }

  /** The column names of a batch, in order. */
  function Names<V>(b: Batch<V>): (ns: seq<string>)
    ensures |ns| == |b|
  {
    seq(|b|, j requires 0 <= j < |b| => b[j].name)
  }

  /** Reassembles a batch from events that all carry the columns `names`, in that order. */
  function Rebuild<V>(names: seq<string>, events: seq<Event<V>>): (b: Batch<V>)
    requires forall i | 0 <= i < |events| :: |events[i]| == |names|
    ensures |b| == |names|
    ensures forall j | 0 <= j < |b| :: |b[j].values| == |events|
  {
    seq(|names|, j requires 0 <= j < |names| =>
      Column(names[j], seq(|events|, i requires 0 <= i < |events| => events[i][j].1)))
  }

  lemma {:induction false} TotalAppend<V>(xs: seq<Batch<V>>, ys: seq<Batch<V>>)
    ensures Total(xs + ys) == Total(xs) + Total(ys)
    decreases |ys|
  {
    if ys == [] {
      assert xs + ys == xs;
    } else {
      var zs := xs + ys;
      assert zs[..|zs| - 1] == xs + ys[..|ys| - 1];
      assert zs[|zs| - 1] == ys[|ys| - 1];
      TotalAppend(xs, ys[..|ys| - 1]);
    }
  }

  lemma TotalPrefixStep<V>(bs: seq<Batch<V>>, k: nat)
    requires k < |bs|
    ensures Total(bs[..k + 1]) == Total(bs[..k]) + Count(bs[k])
  {
    assert bs[..k + 1][..k] == bs[..k];
  }
}
