/** Running one request per item, a fixed number of requests at a time
    (services/geminiService.ts, processInBatches).

    The batches are modelled one after another and the items of a batch in
    index order: the program waits for the whole batch before starting the
    next one, and its results are placed by index, so the wall-clock order in
    which the requests of one batch finish is not observable in the results.
    A task is a function of the item and its index; `None` stands for a
    rejected promise. The progress callback is modelled by the list of the
    events it would receive. */
module Batches {
  import opened Wrappers
  import opened JsText

  /** One call of the progress callback: `(completed, total)`. */
  datatype Progress = Progress(completed: int, total: int)

  /** The outcome of a run: the results (None when the run rejected), the
      progress events reported, and the index at which the last batch that
      was started begins. */
  datatype Run<R> = Run(results: Option<seq<R>>, progress: seq<Progress>, lastBatch: nat)

  /** Reference semantics: the task applied to items `lo..hi` one at a time,
      all-or-nothing, results in item order. */
  function MapRange<T, R>(items: seq<T>, fn: (T, nat) -> Option<R>, lo: nat, hi: nat): Option<seq<R>>
    requires lo <= hi <= |items|
    decreases hi - lo
  {
    if lo == hi then Some([])
    else match fn(items[lo], lo)
      case None => None
      case Some(v) =>
        match MapRange(items, fn, lo + 1, hi)
        case None => None
        case Some(vs) => Some([v] + vs)
  }

  /** The progress events of the items `lo..hi` of one batch: each item whose
      task succeeds reports its 1-based position and the total. */
  function BatchProgress<T, R>(items: seq<T>, fn: (T, nat) -> Option<R>, lo: nat, hi: nat): seq<Progress>
    requires lo <= hi <= |items|
    decreases hi - lo
  {
    if lo == hi then []
    else
      var rest := BatchProgress(items, fn, lo + 1, hi);
      if fn(items[lo], lo).Some? then [Progress(lo + 1, |items|)] + rest else rest
  }

  /** The loop from the batch starting at `i` on. The batch is
      `items.slice(i, i + batchSize)`; the next batch starts only when this
      one succeeded and `i + batchSize` is still inside the list. */
  function RunFrom<T, R>(items: seq<T>, batchSize: nat, fn: (T, nat) -> Option<R>, i: nat): (run: Run<R>)
    requires batchSize > 0 && i < |items|
    ensures run.results == MapRange(items, fn, i, |items|)
    ensures i <= run.lastBatch < |items|
    ensures run.results.Some? ==> |items| <= run.lastBatch + batchSize
    ensures run.results.None? ==>
      && MapRange(items, fn, i, run.lastBatch).Some?
      && MapRange(items, fn, run.lastBatch, Min(run.lastBatch + batchSize, |items|)).None?
    ensures run.progress == BatchProgress(items, fn, i, Min(run.lastBatch + batchSize, |items|))
    decreases |items| - i
  {
    var hi := Min(i + batchSize, |items|);
    var progress := BatchProgress(items, fn, i, hi);
    match MapRange(items, fn, i, hi)
    case None =>
      MapRangeSplit(items, fn, i, hi, |items|);
      Run(None, progress, i)
    case Some(batch) =>
      if i + batchSize >= |items| then
        Run(Some(batch), progress, i)
      else
        var rest := RunFrom(items, batchSize, fn, i + batchSize);
        MapRangeSplit(items, fn, i, hi, |items|);
        MapRangeSplit(items, fn, i, hi, rest.lastBatch);
        BatchProgressSplit(items, fn, i, hi, Min(rest.lastBatch + batchSize, |items|));
        Run(if rest.results.Some? then Some(batch + rest.results.value) else None,
            progress + rest.progress, rest.lastBatch)
  }

  /** `processInBatches(items, batchSize, fn, onProgress)`. With an empty list
      the loop body never runs; otherwise the loop advances only when
      `batchSize` is positive. Batching does not change the outcome: it is
      the reference all-or-nothing mapping, so the run succeeds exactly when
      every task does, and then returns one result per item, in item order. */
  function ProcessInBatches<T, R>(items: seq<T>, batchSize: nat, fn: (T, nat) -> Option<R>): (run: Run<R>)
    requires batchSize > 0 || |items| == 0
    ensures run.results == MapRange(items, fn, 0, |items|)
    ensures run.results.Some? <==> forall j :: 0 <= j < |items| ==> fn(items[j], j).Some?
    ensures run.results.Some? ==> |run.results.value| == |items|
    ensures run.results.Some? ==> forall j :: 0 <= j < |items| ==> run.results.value[j] == fn(items[j], j).value
  {
    MapRangeMeaning(items, fn, 0, |items|);
    if |items| == 0 then Run(Some([]), [], 0) else RunFrom(items, batchSize, fn, 0)
  }

  /** The items whose tasks were started: all batches up to and including
      the last one started. */
  function Dispatched<R>(run: Run<R>, batchSize: nat, n: nat): nat
  {
    if n == 0 then 0 else Min(run.lastBatch + batchSize, n)
  }

  /** `k` is reached from 0 in steps of `batchSize`: where the loop puts the
      start of a batch. */
  predicate BatchStart(k: nat, batchSize: nat)
    decreases k
  {
    k == 0 || (0 < batchSize <= k && BatchStart(k - batchSize, batchSize))
  }

  /** Starting from a batch start, every later batch also starts at one. */
  lemma {:induction false} BatchesAligned<T, R>(items: seq<T>, batchSize: nat, fn: (T, nat) -> Option<R>, i: nat)
    requires batchSize > 0 && i < |items|
    requires BatchStart(i, batchSize)
    ensures BatchStart(RunFrom(items, batchSize, fn, i).lastBatch, batchSize)
    decreases |items| - i
  {
    var run := RunFrom(items, batchSize, fn, i);
    if run.lastBatch != i {
      assert BatchStart(i + batchSize, batchSize) by {
        assert i + batchSize - batchSize == i;
      }
      BatchesAligned(items, batchSize, fn, i + batchSize);
    }
  }

  /** A rejected task makes the whole run reject, and no batch after the one
      holding the first rejected task is started: every item before that
      batch succeeded, the batch itself holds a rejected task, it starts at
      a multiple of the batch size, and nothing after it was reported. */
  lemma FailedRunStopsAtFailingBatch<T, R>(items: seq<T>, batchSize: nat, fn: (T, nat) -> Option<R>)
    requires batchSize > 0
    requires ProcessInBatches(items, batchSize, fn).results.None?
    ensures var run := ProcessInBatches(items, batchSize, fn);
      var last := run.lastBatch;
      && last < |items|
      && BatchStart(last, batchSize)
      && (forall j :: 0 <= j < last ==> fn(items[j], j).Some?)
      && (exists j :: last <= j < Min(last + batchSize, |items|) && fn(items[j], j).None?)
      && (forall e :: e in run.progress ==> e.completed <= Min(last + batchSize, |items|))
  {
    var run := ProcessInBatches(items, batchSize, fn);
    BatchesAligned(items, batchSize, fn, 0);
    var last := run.lastBatch;
    var hi := Min(last + batchSize, |items|);
    MapRangeMeaning(items, fn, 0, last);
    MapRangeMeaning(items, fn, last, hi);
    BatchProgressBounds(items, fn, 0, hi);
  }

  /** Every progress event reports the total item count and a 1-based item
      position in 1..N whose task succeeded, positions strictly increase,
      and they never go past the items that were dispatched. */
  lemma ProgressReports<T, R>(items: seq<T>, batchSize: nat, fn: (T, nat) -> Option<R>)
    requires batchSize > 0 || |items| == 0
    ensures var run := ProcessInBatches(items, batchSize, fn);
      && (forall e :: e in run.progress ==> e.total == |items|)
      && (forall e :: e in run.progress ==> 1 <= e.completed <= Dispatched(run, batchSize, |items|) <= |items|)
      && (forall e :: e in run.progress ==> fn(items[e.completed - 1], e.completed - 1).Some?)
      && (forall a, b :: 0 <= a < b < |run.progress| ==> run.progress[a].completed < run.progress[b].completed)
  {
    var run := ProcessInBatches(items, batchSize, fn);
    if |items| > 0 {
      BatchProgressBounds(items, fn, 0, Min(run.lastBatch + batchSize, |items|));
    }
  }

  /** A run that succeeds calls the progress callback exactly once per item,
      with `(j + 1, N)` for item `j`, in item order. */
  lemma SuccessfulRunReportsEveryItem<T, R>(items: seq<T>, batchSize: nat, fn: (T, nat) -> Option<R>)
    requires batchSize > 0 || |items| == 0
    requires ProcessInBatches(items, batchSize, fn).results.Some?
    ensures ProcessInBatches(items, batchSize, fn).progress == seq(|items|, j => Progress(j + 1, |items|))
  {
    var run := ProcessInBatches(items, batchSize, fn);
    if |items| > 0 {
      assert Min(run.lastBatch + batchSize, |items|) == |items|;
      BatchProgressAllSucceed(items, fn, 0, |items|);
    }
  }

  /** All-or-nothing mapping over a range is the same as mapping its two
      halves. */
  lemma {:induction false} MapRangeSplit<T, R>(items: seq<T>, fn: (T, nat) -> Option<R>, lo: nat, mid: nat, hi: nat)
    requires lo <= mid <= hi <= |items|
    ensures var whole := MapRange(items, fn, lo, hi);
      var left := MapRange(items, fn, lo, mid);
      var right := MapRange(items, fn, mid, hi);
      whole == (if left.Some? && right.Some? then Some(left.value + right.value) else None)
    decreases mid - lo
  {
    if lo < mid {
      MapRangeSplit(items, fn, lo + 1, mid, hi);
      match fn(items[lo], lo) {
        case None =>
        case Some(v) =>
          match MapRange(items, fn, lo + 1, mid) {
            case None =>
            case Some(vs) =>
              match MapRange(items, fn, mid, hi) {
                case None =>
                case Some(ws) => assert [v] + (vs + ws) == ([v] + vs) + ws;
              }
          }
      }
    } else {
      match MapRange(items, fn, mid, hi) {
        case None =>
        case Some(ws) => assert [] + ws == ws;
      }
    }
  }

  /** The reference mapping succeeds exactly when every task in the range
      succeeds, and then holds one result per item, each the value of that
      item's task, in item order. */
  lemma {:induction false} MapRangeMeaning<T, R>(items: seq<T>, fn: (T, nat) -> Option<R>, lo: nat, hi: nat)
    requires lo <= hi <= |items|
    ensures var r := MapRange(items, fn, lo, hi);
      r.Some? <==> forall j :: lo <= j < hi ==> fn(items[j], j).Some?
    ensures var r := MapRange(items, fn, lo, hi);
      r.Some? ==> |r.value| == hi - lo && forall j :: lo <= j < hi ==> r.value[j - lo] == fn(items[j], j).value
    decreases hi - lo
  {
    if lo < hi {
      MapRangeMeaning(items, fn, lo + 1, hi);
    }
  }

  /** The progress of a range is the progress of its two halves in order. */
  lemma {:induction false} BatchProgressSplit<T, R>(items: seq<T>, fn: (T, nat) -> Option<R>, lo: nat, mid: nat, hi: nat)
    requires lo <= mid <= hi <= |items|
    ensures BatchProgress(items, fn, lo, hi) == BatchProgress(items, fn, lo, mid) + BatchProgress(items, fn, mid, hi)
    decreases mid - lo
  {
    if lo < mid {
      BatchProgressSplit(items, fn, lo + 1, mid, hi);
    }
  }

  /** What one range's progress events say: each names a 1-based position
      inside the range whose task succeeded, the total item count, and the
      positions strictly increase. */
  lemma {:induction false} BatchProgressBounds<T, R>(items: seq<T>, fn: (T, nat) -> Option<R>, lo: nat, hi: nat)
    requires lo <= hi <= |items|
    ensures var p := BatchProgress(items, fn, lo, hi);
      forall e :: e in p ==> e.total == |items| && lo < e.completed <= hi && fn(items[e.completed - 1], e.completed - 1).Some?
    ensures var p := BatchProgress(items, fn, lo, hi);
      forall a, b :: 0 <= a < b < |p| ==> p[a].completed < p[b].completed
    decreases hi - lo
  {
    if lo < hi {
      BatchProgressBounds(items, fn, lo + 1, hi);
      var rest := BatchProgress(items, fn, lo + 1, hi);
      if fn(items[lo], lo).Some? {
        var p := [Progress(lo + 1, |items|)] + rest;
        forall a, b | 0 <= a < b < |p| ensures p[a].completed < p[b].completed {
          if a > 0 {
            assert p[a] == rest[a - 1] && p[b] == rest[b - 1];
          } else {
            assert p[b] == rest[b - 1] && p[b] in rest;
          }
        }
      }
    }
  }

  /** When every task of a range succeeds, the range reports each of its
      positions once, in order. */
  lemma {:induction false} BatchProgressAllSucceed<T, R>(items: seq<T>, fn: (T, nat) -> Option<R>, lo: nat, hi: nat)
    requires lo <= hi <= |items|
    requires forall j :: lo <= j < hi ==> fn(items[j], j).Some?
    ensures BatchProgress(items, fn, lo, hi) == seq(hi - lo, k => Progress(lo + k + 1, |items|))
    decreases hi - lo
  {
    if lo < hi {
      BatchProgressAllSucceed(items, fn, lo + 1, hi);
      var n := |items|;
      var whole := seq(hi - lo, k => Progress(lo + k + 1, n));
      var rest := seq(hi - (lo + 1), k => Progress(lo + 1 + k + 1, n));
      assert fn(items[lo], lo).Some?;
      assert forall k :: 0 <= k < |rest| ==> whole[k + 1] == rest[k];
      assert whole == [Progress(lo + 1, n)] + rest;
    }
  }
}
