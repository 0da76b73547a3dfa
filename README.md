# uptools record streaming, modelled in Dafny

This project models the record-streaming core of `uptools/__init__.py`. That core has five parts:

- the budgeted batch iterator `iter_arrays`;
- the weighted splitter `iter_arrays_weighted`;
- the tree locator `_iter_trees` / `find_tree`;
- the record flattening `numentries`, `get_event`, `iter_events` and `get_event_rootfile`;
- the source normalisation `format_rootfiles`.

Each generator is modelled as a `Run`. A run holds the items the generator yields, in order, and how it ended: `Exhausted`, `BudgetReached` (the early `return` of `iter_arrays`) or `Raised(e)`. The items yielded before an exception stay part of the run, as they do for a lazy consumer.

Everything the core calls but does not define is a field of a `World` value. That covers:

- what `uproot.open` finds at each path: a directory tree of `Tree`, `Dir` and `Other` entries;
- what `t.iterate(entrystop=...)` yields, as a function of the file, the tree path and the stop hint;
- `seutils.path.has_protocol` and `seutils.ls_wildcard`.

The three generators `iter_arrays`, `iter_arrays_weighted` and `iter_events` are imperative in the source. Each is modelled as a method with loops (`IterArrays`, `IterArraysWeighted`, `IterEvents`) that is proved equal to a specification function (`ArraysRun`, `WeightedRun`, `EventsRun`). None of the three is itself recursive: `ArraysRun` calls the recursive `FilesRun`, `EventsRun` the recursive `Flatten`, and `WeightedRun` makes its two checks and then calls the recursive `GroupsRun`. The plain function `get_event_rootfile` is the method `GetEventRootfile`, whose contract describes its result in terms of `EventsRun`. The lemmas state the properties of these functions.

Files, one module each:

- `wrappers.dfy`: `Option`, `Result`.
- `errors.dfy`: the exceptions.
- `runs.dfy`: `Run`, `End`.
- `records.dfy`: batches, `numentries`, `get_event`.
- `tree_locator.dfy`: the tree locator.
- `sources.dfy`: `format_rootfiles`.
- `streaming.dfy`: `iter_arrays`.
- `weighted.dfy`: `iter_arrays_weighted`.
- `events.dfy`: `iter_events`, `get_event_rootfile`.

Behaviour of the code that is easy to miss:

- `iter_arrays` treats `nmax=0` like `None` (`if not (nmax)`), so 0 is no budget, although its docstring (uptools/__init__.py:86) promises at most `nmax` entries. The `entrystop` hint still receives the 0.
- `format_rootfiles` does no local globbing. A string not ending in `.root` is returned unchanged, and iteration then walks it character by character. `FormatRootfilesNormalises` states this.
- A batch without columns has no entry count (`numentries` returns `None`). Bounded iteration then raises on `ntodo -= None`, and `iter_events` raises on `range(None)`. Both are modelled as `Raised(NoEntryCount)`.
- `iter_arrays_weighted` raises division by zero when the weights are non-empty and sum to zero.

## Model

| member | source | states |
|---|---|---|
| Streaming.IterArrays | uptools/__init__.py:83-104 | The generator's loops compute exactly `ArraysRun`. The budget starts at `nmax` once and is carried across files. Unbounded when `nmax` is None or 0. The tree path is resolved on the first file and reused. Each batch is yielded after `ntodo` falls by its count, and the run stops at `ntodo <= 0`. |
| Streaming.ConsumeAccounting | uptools/__init__.py:100-104 | Within one file, `ntodo` falls by exactly the entry counts of the yielded batches. The yielded batches are an unsplit prefix of the file's batches. The loop stops on the budget exactly when it yielded something and `ntodo <= 0`, and every earlier batch left the budget positive. It raises only on a batch without columns, which it does not yield. |
| Streaming.FilesRunBudget | uptools/__init__.py:89-104 | Across files, the budget is not reset. Every batch before the last keeps the running total below the starting budget. The run ends on the budget iff it yielded something and the total reached the budget. |
| Streaming.BudgetBounds | uptools/__init__.py:97-104 | In bounded mode, records before the last batch total strictly less than `nmax`. A run stopped on the budget yielded at least `nmax`, overshooting by at most its last batch's count minus one when `nmax > 0`. Any other non-empty run yielded less than `nmax`. |
| Streaming.UnboundedForwardsEverything | uptools/__init__.py:89-98 | With `nmax` None or 0 and the tree path present in every file, the run is the in-order concatenation of every batch of every file, read at the one shared tree path, and ends normally. |
| Streaming.FirstTreePathReused | uptools/__init__.py:92-96 | A path found by `find_tree` on the first file gives the same run as passing that path as `treepath`. |
| Streaming.ReusedPathMissingRaises | uptools/__init__.py:92-104 | The path is reused, not rediscovered. A later file lacking the first file's tree path raises a lookup error after all of the first file's batches, even if that file holds other trees. In bounded mode this holds whenever the first file's loop runs to its end, that is, when it neither uses up the budget nor meets a batch without columns; otherwise the second file is never opened. |
| Streaming.BoundedForwardsPrefix | uptools/__init__.py:89-104 | In bounded mode, with a source that ignores the stop hint and the tree path present in every file, the run yields a prefix of every file's batches in file order. It yields all of them when it ends normally. On an error it stops right before the first batch without columns. |
| Streaming.StopIsFinal | uptools/__init__.py:103-104 | Once the run stops on the budget or raises, files after it are never opened and change nothing. |
| TreeLocator.StripCycle | uptools/__init__.py:34 | The result is a prefix of the key, holds no `;`, and is the whole key or stops right before its first `;`. |
| TreeLocator.StripCycleUnique | uptools/__init__.py:34 | Those three properties determine the stripped key uniquely. |
| TreeLocator.StripCycleIdempotent | uptools/__init__.py:34 | Stripping twice is stripping once. |
| TreeLocator.TreesInLocated | uptools/__init__.py:29-38 | The depth-first search yields exactly the located paths: `prefix`, then stripped directory keys each followed by `/`, then a stripped tree key. `Other` entries contribute nothing. Sound and complete. |
| TreeLocator.FindTreeSound | uptools/__init__.py:41-51 | `find_tree` fails iff no tree is located anywhere in the hierarchy. What it returns is a located path that the lookup `f[path]` finds again. |
| TreeLocator.FindTreeEntryOrder | uptools/__init__.py:33-38 | At the top of a file, for a listing split into two parts, the search finds a tree in the earlier part before anything later, and reaches the later part only if the earlier part holds no tree at any depth. |
| TreeLocator.TreesInFirst | uptools/__init__.py:29-38 | At every level, the first path of the search is the one reached through the first entry to locate anything at all. When that entry is a directory, the same holds inside it, all the way down. This is the independent predicate `FirstLocated`: depth-first search in entry order. |
| TreeLocator.FindTreeFirst | uptools/__init__.py:41-51 | What `find_tree` returns is the `FirstLocated` path of the file's top-level listing. |
| Sources.FormatRootfilesNormalises | uptools/__init__.py:71-80 | Normalising is idempotent. A list, and a string not ending in `.root`, come back unchanged; iteration then walks the list element by element and such a string one character at a time. Only such a string stays a string. A `.root` string becomes the wildcard listing when it has a protocol and a `*`, and the one-element list otherwise. |
| Events.BatchEventsRoundTrip | uptools/__init__.py:54-60 | For a batch whose columns share one length under distinct names, `numentries` events are yielded. Event i has one entry per column, in column order, pairing the column's name with its i-th value. The events rebuild the original batch, and re-measuring gives the original count. |
| Events.FlattenOrder | uptools/__init__.py:127-130 | Over well-formed batches, event i of batch k stands at position `Total(bs[..k]) + i`. That is batch-then-position order, with as many events as records, and the run ends as the batch run ended. |
| Events.IterEvents | uptools/__init__.py:127-130 | The nested loops compute `EventsRun`, the flattening of `iter_arrays`'s run. They raise on a batch without columns or on a column shorter than the first. |
| Events.GetEventRootfile | uptools/__init__.py:133-139 | Returns the j-th event when the iteration reaches it. Otherwise it returns the error that ended the iteration, or None when the iteration ended normally, including for negative j. |
| Weighted.WeightedChecksFirst | uptools/__init__.py:113-118 | Unequal lengths of weights and groups raise before any group is opened or anything is yielded: the run is the same for any files, groups, N and tree path. So does a zero weight sum over non-empty weights, which raises division by zero. |
| Weighted.IterArraysWeighted | uptools/__init__.py:107-124 | The generator computes `WeightedRun`: zero sub-budgets are skipped with `continue`, and every other group is delegated, in weight order, to `iter_arrays` with its sub-budget as `nmax`. |
| Weighted.RoundHalfEven | uptools/__init__.py:119 | `round()` gives an integer within one half of its argument, and an even one on a tie. |
| Weighted.RoundHalfEvenUnique | uptools/__init__.py:119 | Those two properties determine `round()` uniquely. |
| Weighted.TargetsSum | uptools/__init__.py:117-118 | The exact shares `xs/norm*N` add up to N. |
| Weighted.SubBudgetsNearTarget | uptools/__init__.py:117-120 | Each sub-budget is within one half of its share. The sum of the sub-budgets is not forced to N, but misses it by at most half a record per group. |
| Weighted.EqualThirdsOfHundred | uptools/__init__.py:117-120 | N = 100 with three equal weights gives sub-budgets 33, 33, 33, which sum to 99. |
| Weighted.ZeroShareGroupsUnread | uptools/__init__.py:121-123 | Groups with a zero sub-budget are never opened: replacing their files changes nothing. |
| Weighted.GroupsAreConcatenated | uptools/__init__.py:121-124 | When no group raises, the output is the in-order concatenation of each non-zero group's own `iter_arrays` run with its sub-budget as `nmax`, each with a fresh budget and tree path, and ends normally. |
| Weighted.GroupRaiseEndsRun | uptools/__init__.py:121-124 | `yield from` passes a group's exception through. When group k is the first non-zero group whose run raises, the weighted run is the earlier groups' batches, then that group's batches, and ends with that group's error. |
| Weighted.LaterGroupsUnopened | uptools/__init__.py:121-124 | Groups after the one that raises are never opened: replacing them changes nothing. |

## Left out

- Storage and logging: `uproot.open`, `t.iterate`, `seutils.*` and the logger (`setup_logger`, `debug`, the "Using tree" and "Requested ..., doing ..." lines) are not modelled. The first three are uninterpreted fields of `World`; log output is not modelled.
- `get_event` called directly, with its default argument, a negative index (which Python counts from the end) or a position some column lacks, is not modelled. `iter_events` only calls it with 0 <= i < numentries.
- The `entrystop` hint is passed to the batch source and carries no guarantee, because the source's chunking is external.
- A read error inside `t.iterate` after some batches is not modelled. The batch source is a plain sequence, so only failures to open a file (`CannotOpen`), to find a tree (`NoTree`) or to look up the tree path (`MissingTree`) can end a run early, besides the errors raised on a batch itself (no columns, or a column too short for `iter_events`).
- Keyword arguments other than `nmax` and `treepath` (for example `decode`) go to the batch reader. They are folded into the `World`'s source function.
- `f[treepath]` is modelled as "the path is one of the file's depth-first tree paths". uproot's own lookup, including cycle numbers and non-tree objects at that path, is not visible.
- Keys are text. `key.decode()` on malformed bytes is not modelled.
- Weights and shares are exact reals. Floating-point rounding, NaN and infinities are not modelled. N is an integer.
- `rootfiles` other than a string or a list (other iterables, generators) is not modelled. A failure of `ls_wildcard` when seutils is unavailable is not modelled.
- Runs are computed whole rather than step by step. A consumer that abandons a generator part-way sees a prefix of the modelled run. Laziness beyond that (when files are opened relative to the consumer) is not modelled.
- `numentries_rootfile`, `Bunch`, `Vectors`, `FourVectorArray`, `setup.py` and `test/test_uptools.py` are not part of this model. They are a thin file-access wrapper, awkward-array and numpy semantics that cannot be seen here, packaging, and a test that needs a real ROOT file.
