/** Building the outline of a novel (services/geminiService.ts,
    summarizeChunk and generateOutline). The language-model requests are
    parameters: `Summarizer` answers a summary request for one piece, and
    `Outliner` answers the outline request built from the context and the
    episode count, already parsed into episode records. Either returns None
    when the request rejects (for the outline request this includes an
    empty reply and a reply that does not parse). */
module OutlineService {
  import opened Wrappers
  import opened JsText
  import opened Types
  import Chunker
  import Batches

  /** Summary requests in flight at once. */
  const CONCURRENCY_LIMIT: nat := 3
  /** Separator between the piece summaries in the outline context. */
  const SUMMARY_SEPARATOR := "\n\n"

  const STATUS_WHOLE_TEXT := "正在分析小说全篇内容..."
  const STATUS_BUILDING := "正在构建剧集结构，生成分集大纲..."

  type Summarizer = (string, nat) -> Option<string>
  type Outliner = (string, int) -> Option<seq<EpisodeOutline>>

  /** The head shared by both replies for piece `index`: the piece's 1-based
      number in brackets. */
  function SummaryLabel(index: nat): string
  {
    "[第 " + Decimal(index + 1) + " 部分"
  }

  const SUMMARY_TAIL := "摘要]: "
  const SKIPPED_TAIL := "分析跳过]"

  /** `summarizeChunk(text, index)`: never fails. A reply becomes the
      labelled summary (an empty reply gives an empty summary); a rejected
      request becomes the "skipped" placeholder for that piece. */
  function SummarizeChunk(summarize: Summarizer, text: string, index: nat): (r: string)
    ensures SummaryLabel(index) <= r
    ensures summarize(text, index).None? <==> r == SummaryLabel(index) + SKIPPED_TAIL
    ensures summarize(text, index).Some? ==> r == SummaryLabel(index) + SUMMARY_TAIL + summarize(text, index).value
  {
    match summarize(text, index)
    case Some(reply) =>
      var r := SummaryLabel(index) + SUMMARY_TAIL + reply;
      assert r[|SummaryLabel(index)|] == '摘';
      assert (SummaryLabel(index) + SKIPPED_TAIL)[|SummaryLabel(index)|] == '分';
      r
    case None => SummaryLabel(index) + SKIPPED_TAIL
  }

  /** The number in a summary's label is the piece's 1-based position. */
  lemma SummaryLabelNumber(index: nat)
    ensures var head := SummaryLabel(index);
      && head[..3] == "[第 "
      && head[|head| - 3..] == " 部分"
      && head[3..|head| - 3] == Decimal(index + 1)
      && DecimalValue(head[3..|head| - 3]) == index + 1
  {
    DecimalRoundTrip(index + 1);
  }

  /** Different pieces get different labels. */
  lemma SummaryLabelsDistinct(i: nat, j: nat)
    requires SummaryLabel(i) == SummaryLabel(j)
    ensures i == j
  {
    SummaryLabelNumber(i);
    SummaryLabelNumber(j);
  }

  /** The summary task handed to the batch runner. */
  function SummaryTask(summarize: Summarizer): (T: (string, nat) -> Option<string>)
    ensures forall text, index :: T(text, index) == Some(SummarizeChunk(summarize, text, index))
  {
    (text: string, index: nat) => Some(SummarizeChunk(summarize, text, index))
  }

  /** The summaries of all pieces, as the batch runner produces them. */
  function SummaryRun(novel: string, summarize: Summarizer): Batches.Run<string>
  {
    Batches.ProcessInBatches(Chunker.Chunks(novel), CONCURRENCY_LIMIT, SummaryTask(summarize))
  }

  /** Since no summary task fails, the run over the pieces always succeeds,
      with summary `k` made from piece `k` labelled `k + 1`. */
  lemma SummaryRunSucceeds(novel: string, summarize: Summarizer)
    ensures var run := SummaryRun(novel, summarize);
      var chunks := Chunker.Chunks(novel);
      && run.results.Some?
      && |run.results.value| == |chunks|
      && forall k :: 0 <= k < |chunks| ==> run.results.value[k] == SummarizeChunk(summarize, chunks[k], k)
  {
  }

  /** The context the outline request is built from: the novel itself when
      it fits one piece, otherwise the piece summaries joined by a blank
      line. */
  function OutlineContext(novel: string, summarize: Summarizer): (ctx: string)
    ensures |novel| <= Chunker.CHUNK_SIZE ==> ctx == novel
    ensures |novel| > Chunker.CHUNK_SIZE ==>
      var chunks := Chunker.Chunks(novel);
      ctx == Join(seq(|chunks|, k requires 0 <= k < |chunks| => SummarizeChunk(summarize, chunks[k], k)), SUMMARY_SEPARATOR)
  {
    if |novel| > Chunker.CHUNK_SIZE then
      SummaryRunSucceeds(novel, summarize);
      var run := SummaryRun(novel, summarize);
      var chunks := Chunker.Chunks(novel);
      assert run.results.value == seq(|chunks|, k requires 0 <= k < |chunks| => SummarizeChunk(summarize, chunks[k], k));
      Join(run.results.value, SUMMARY_SEPARATOR)
    else
      novel
  }

  /** The status line shown before the summaries start. */
  function PiecesStatus(count: nat): string
  {
    "正在并行分析小说内容 (共 " + Decimal(count) + " 部分)..."
  }

  /** The status line for one progress event of the summary run. */
  function ProgressStatus(completed: nat, total: nat): string
  {
    "正在分析小说剧情... (" + Decimal(completed) + "/" + Decimal(total) + ")"
  }

  /** The outcome of `generateOutline`: the status lines passed to the
      caller's callback, in order, and the outline (None when it rejects). */
  datatype OutlineRun = OutlineRun(statuses: seq<string>, outline: Option<seq<EpisodeOutline>>)

  /** The status lines the summary run reports. */
  function ProgressStatuses(progress: seq<Batches.Progress>): seq<string>
  {
    seq(|progress|, k requires 0 <= k < |progress| =>
      ProgressStatus(Max(progress[k].completed, 0), Max(progress[k].total, 0)))
  }

  /** The status lines `generateOutline` reports, in order. */
  function OutlineStatuses(novel: string, summarize: Summarizer): (statuses: seq<string>)
    ensures |novel| <= Chunker.CHUNK_SIZE ==> statuses == [STATUS_WHOLE_TEXT, STATUS_BUILDING]
    ensures |novel| > Chunker.CHUNK_SIZE ==>
      var n := |Chunker.Chunks(novel)|;
      && |statuses| == n + 2
      && statuses[0] == PiecesStatus(n)
      && (forall k :: 1 <= k <= n ==> statuses[k] == ProgressStatus(k, n))
      && statuses[n + 1] == STATUS_BUILDING
  {
    if |novel| > Chunker.CHUNK_SIZE then
      var chunks := Chunker.Chunks(novel);
      var run := SummaryRun(novel, summarize);
      SummaryRunReportsEveryPiece(novel, summarize);
      [PiecesStatus(|chunks|)] + ProgressStatuses(run.progress) + [STATUS_BUILDING]
    else
      [STATUS_WHOLE_TEXT, STATUS_BUILDING]
  }

  /** The summary run reports progress once per piece, in order. */
  lemma SummaryRunReportsEveryPiece(novel: string, summarize: Summarizer)
    ensures var run := SummaryRun(novel, summarize);
      var n := |Chunker.Chunks(novel)|;
      run.progress == seq(n, j => Batches.Progress(j + 1, n))
  {
    var chunks := Chunker.Chunks(novel);
    SummaryRunSucceeds(novel, summarize);
    Batches.SuccessfulRunReportsEveryItem(chunks, CONCURRENCY_LIMIT, SummaryTask(summarize));
  }

  /** `generateOutline(novel, episodeCount, onProgress)`: the status lines
      it reports and the outline the request builds from the context. */
  function GenerateOutline(novel: string, episodeCount: int, summarize: Summarizer, outliner: Outliner): (run: OutlineRun)
    ensures run.outline == outliner(OutlineContext(novel, summarize), episodeCount)
    ensures run.statuses == OutlineStatuses(novel, summarize)
    ensures |run.statuses| >= 2 && run.statuses[|run.statuses| - 1] == STATUS_BUILDING
  {
    OutlineRun(OutlineStatuses(novel, summarize), outliner(OutlineContext(novel, summarize), episodeCount))
  }
}
