/** The application's handlers (index.tsx). Each `setState(prev => …)`
    updater is a function from the previous state to the next; a handler is
    the composition of its updaters, with each awaited request answered by
    the services passed in. */
module App {
  import opened Wrappers
  import opened JsText
  import opened Types
  import OutlineService
  import ScriptService
  import EpisodeCount

  const STATUS_READING := "正在读取小说内容..."
  const OUTLINE_ERROR := "生成大纲失败。小说篇幅可能过长，或者网络繁忙，请稍后再试。"
  const EXPORT_ERROR := "导出 Word 文档失败，请重试。"
  /** The document name used when the file has none. */
  const DEFAULT_NAME := "小说"
  const TXT := ".txt"
  const EXPORT_SUFFIX := "_短剧分集大纲.docx"

  /** The external requests: the two outline requests, the script request,
      and building the Word document (false when it throws). */
  datatype Services = Services(
    summarize: OutlineService.Summarizer,
    outliner: OutlineService.Outliner,
    writer: ScriptService.ScriptWriter,
    buildDocx: (seq<EpisodeOutline>, string) -> bool)

  /** The state the application starts in. */
  function InitialState(): AppState
  {
    AppState(Upload, None, None, 40, [], map[], false, "", None)
  }

  // ---------------------------------------------------------------------------
  // handleFileUpload

  /** The first updater: record the file and the count, start loading, clear
      the error. Step, outline and scripts are left alone. */
  function UploadStarted(s: AppState, content: string, name: string, count: int): (r: AppState)
    ensures r.fileContent == Some(content) && r.fileName == Some(name) && r.episodeCount == count
    ensures r.isGeneratingOutline && r.loadingStatus == STATUS_READING && r.error.None?
    ensures r.step == s.step && r.outline == s.outline && r.scripts == s.scripts
  {
    s.(fileContent := Some(content), fileName := Some(name), episodeCount := count,
       isGeneratingOutline := true, loadingStatus := STATUS_READING, error := None)
  }

  /** The progress updaters: each status line replaces the loading status and
      nothing else; the last one is what remains shown. */
  function StatusesReported(s: AppState, statuses: seq<string>): (r: AppState)
    ensures r.(loadingStatus := s.loadingStatus) == s
    ensures |statuses| > 0 ==> r.loadingStatus == statuses[|statuses| - 1]
    decreases |statuses|
  {
    if |statuses| == 0 then s
    else StatusesReported(s.(loadingStatus := statuses[0]), statuses[1..])
  }

  /** The success updater: show the outline screen with the new outline and
      stop loading; nothing else changes. */
  function OutlineReady(s: AppState, outline: seq<EpisodeOutline>): (r: AppState)
    ensures r.step == Outline && r.outline == outline
    ensures !r.isGeneratingOutline && r.loadingStatus == ""
    ensures r.(step := s.step, outline := s.outline, isGeneratingOutline := s.isGeneratingOutline,
               loadingStatus := s.loadingStatus) == s
  {
    s.(step := Outline, outline := outline, isGeneratingOutline := false, loadingStatus := "")
  }

  /** The failure updater: stop loading and show the fixed error; the step
      and everything else stay as they were. */
  function OutlineFailed(s: AppState): (r: AppState)
    ensures r.error == Some(OUTLINE_ERROR) && !r.isGeneratingOutline && r.loadingStatus == ""
    ensures r.(error := s.error, isGeneratingOutline := s.isGeneratingOutline,
               loadingStatus := s.loadingStatus) == s
  {
    s.(isGeneratingOutline := false, loadingStatus := "", error := Some(OUTLINE_ERROR))
  }

  /** `handleFileUpload(content, name, episodeCount)` run to completion. On
      success the outline screen shows the new outline without error; on
      failure the previous step and outline stay and the error is shown. In
      both cases the file and count are recorded, loading has stopped, and
      the scripts are untouched. */
  function HandleFileUpload(s: AppState, content: string, name: string, count: int, services: Services): (r: AppState)
    ensures r.fileContent == Some(content) && r.fileName == Some(name) && r.episodeCount == count
    ensures !r.isGeneratingOutline && r.loadingStatus == "" && r.scripts == s.scripts
    ensures var result := OutlineService.GenerateOutline(content, count, services.summarize, services.outliner).outline;
      && (result.Some? ==> r.step == Outline && r.outline == result.value && r.error.None?)
      && (result.None? ==> r.step == s.step && r.outline == s.outline && r.error == Some(OUTLINE_ERROR))
  {
    var run := OutlineService.GenerateOutline(content, count, services.summarize, services.outliner);
    var loading := StatusesReported(UploadStarted(s, content, name, count), run.statuses);
    match run.outline
    case Some(outline) => OutlineReady(loading, outline)
    case None => OutlineFailed(loading)
  }

  // ---------------------------------------------------------------------------
  // handleGenerateScript

  /** The guard: an episode is selected and the file content is not empty
      (`!state.fileContent` holds for null and for ""). */
  predicate CanGenerate(s: AppState, selected: Option<EpisodeOutline>)
  {
    selected.Some? && s.fileContent.Some? && s.fileContent.value != ""
  }

  /** `scripts[epNum] := script` and nothing else: the entry for `epNum` is
      the new one, every other key keeps its presence and its entry, and the
      rest of the state is unchanged. */
  ghost predicate ScriptSet(s: AppState, r: AppState, epNum: int, script: GeneratedScript)
  {
    && epNum in r.scripts && r.scripts[epNum] == script
    && (forall k :: k != epNum ==> (k in r.scripts <==> k in s.scripts))
    && (forall k :: k != epNum && k in s.scripts ==> r.scripts[k] == s.scripts[k])
    && r.(scripts := s.scripts) == s
  }

  /** The first updater: mark the episode's script as being generated. */
  function ScriptStarted(s: AppState, epNum: int): (r: AppState)
    ensures ScriptSet(s, r, epNum, GeneratedScript(epNum, "", true))
  {
    s.(scripts := s.scripts[epNum := GeneratedScript(epNum, "", true)])
  }

  /** The completion updater: store the script and clear the flag. */
  function ScriptFinished(s: AppState, epNum: int, content: string): (r: AppState)
    ensures ScriptSet(s, r, epNum, GeneratedScript(epNum, content, false))
  {
    s.(scripts := s.scripts[epNum := GeneratedScript(epNum, content, false)])
  }

  /** `outline.findIndex(e => e.episodeNumber === n)`, searching from
      `from`, with None for -1. */
  function FindEpisode(outline: seq<EpisodeOutline>, n: int, from: nat): (r: Option<nat>)
    requires from <= |outline|
    ensures r.Some? ==> from <= r.value < |outline| && outline[r.value].episodeNumber == n
    ensures r.Some? ==> forall j :: from <= j < r.value ==> outline[j].episodeNumber != n
    ensures r.None? ==> forall j :: from <= j < |outline| ==> outline[j].episodeNumber != n
    decreases |outline| - from
  {
    if from == |outline| then None
    else if outline[from].episodeNumber == n then Some(from)
    else FindEpisode(outline, n, from + 1)
  }

  /** `outline.find(e => e.episodeNumber === epNum - 1)?.synopsis`: the
      synopsis of the first entry numbered `epNum - 1`, if there is one. */
  function PreviousSynopsis(outline: seq<EpisodeOutline>, epNum: int): (r: Option<string>)
    ensures r.None? <==> forall i :: 0 <= i < |outline| ==> outline[i].episodeNumber != epNum - 1
    ensures r.Some? ==>
      exists i :: && 0 <= i < |outline|
                  && outline[i].episodeNumber == epNum - 1
                  && outline[i].synopsis == r.value
                  && forall j :: 0 <= j < i ==> outline[j].episodeNumber != epNum - 1
  {
    match FindEpisode(outline, epNum - 1, 0)
    case None => None
    case Some(i) => Some(outline[i].synopsis)
  }

  /** `handleGenerateScript()` run to completion for the selected episode.
      Without a selection or without file content nothing changes. Otherwise
      exactly the episode's entry of `scripts` changes: it holds the finished
      script, built from the novel, the episode, the episode count and the
      previous episode's synopsis. */
  function HandleGenerateScript(s: AppState, selected: Option<EpisodeOutline>, services: Services): (r: AppState)
    requires s.episodeCount > 0
    ensures !CanGenerate(s, selected) ==> r == s
    ensures CanGenerate(s, selected) ==>
      var ep := selected.value;
      var script := ScriptService.GenerateEpisodeScript(s.fileContent.value, ep, s.episodeCount,
        PreviousSynopsis(s.outline, ep.episodeNumber), services.writer);
      ScriptSet(s, r, ep.episodeNumber, GeneratedScript(ep.episodeNumber, script, false)) && script != ""
  {
    if !CanGenerate(s, selected) then s
    else
      var ep := selected.value;
      var epNum := ep.episodeNumber;
      var started := ScriptStarted(s, epNum);
      var script := ScriptService.GenerateEpisodeScript(s.fileContent.value, ep, s.episodeCount,
        PreviousSynopsis(s.outline, epNum), services.writer);
      ScriptFinished(started, epNum, script)
  }

  // ---------------------------------------------------------------------------
  // handleExportDocx

  /** `state.fileName?.replace('.txt', '') || '小说'`: the name with its first
      ".txt" removed, or the default name when there is no name or nothing
      is left. */
  function ExportBaseName(fileName: Option<string>): (base: string)
    ensures base != ""
    ensures fileName.None? ==> base == DEFAULT_NAME
    ensures fileName.Some? && IndexOf(fileName.value, TXT, 0).None? ==>
      base == (if fileName.value == "" then DEFAULT_NAME else fileName.value)
    ensures fileName.Some? && IndexOf(fileName.value, TXT, 0).Some? ==>
      var name := fileName.value;
      var i := IndexOf(name, TXT, 0).value;
      base == (if |name| == |TXT| then DEFAULT_NAME else name[..i] + name[i + |TXT|..])
  {
    match fileName
    case None => DEFAULT_NAME
    case Some(name) =>
      var stripped := ReplaceFirst(name, TXT, "");
      ReplaceFirstRestores(name, TXT, "");
      if stripped == "" then DEFAULT_NAME else stripped
  }

  /** A plain ".txt" file name is exported under its stem. */
  lemma TxtFileExportsUnderStem(stem: string)
    requires stem != ""
    requires forall j :: 0 <= j < |stem| ==> !OccursAt(stem + TXT, TXT, j)
    ensures ExportBaseName(Some(stem + TXT)) == stem
  {
    var name := stem + TXT;
    assert OccursAt(name, TXT, |stem|) by {
      assert name[|stem|..|stem| + |TXT|] == TXT;
    }
    var r := IndexOf(name, TXT, 0);
    assert r.Some? && r.value == |stem|;
    assert name[..|stem|] == stem;
  }

  /** The outcome of an export: the state afterwards and the name of the
      download offered, if any. */
  datatype ExportOutcome = ExportOutcome(state: AppState, download: Option<string>)

  /** `handleExportDocx()`: nothing happens without an outline; otherwise the
      document is offered as "<base>_短剧分集大纲.docx", or, when building it
      fails, the export error is shown and nothing else changes. */
  function HandleExportDocx(s: AppState, services: Services): (out: ExportOutcome)
    ensures |s.outline| == 0 ==> out == ExportOutcome(s, None)
    ensures |s.outline| > 0 && services.buildDocx(s.outline, ExportBaseName(s.fileName)) ==>
      out.state == s && out.download == Some(ExportBaseName(s.fileName) + EXPORT_SUFFIX)
    ensures |s.outline| > 0 && !services.buildDocx(s.outline, ExportBaseName(s.fileName)) ==>
      out.download.None? && out.state.error == Some(EXPORT_ERROR) && out.state.(error := s.error) == s
  {
    if |s.outline| == 0 then ExportOutcome(s, None)
    else
      var base := ExportBaseName(s.fileName);
      if services.buildDocx(s.outline, base) then ExportOutcome(s, Some(base + EXPORT_SUFFIX))
      else ExportOutcome(s.(error := Some(EXPORT_ERROR)), None)
  }

  // ---------------------------------------------------------------------------
  // the session: the form's count, the selected episode and the state

  /** What the user does. */
  datatype UiEvent =
    | CountInput(parsed: Option<int>)
    | FileChosen(content: string, name: string)
    | EpisodeSelected(episode: Option<EpisodeOutline>)
    | GenerateClicked
    | ExportClicked

  /** Everything the page holds: the application state, the upload form's
      count and the selected episode. */
  datatype Session = Session(app: AppState, formCount: int, selected: Option<EpisodeOutline>)

  function InitialSession(): Session
  {
    Session(InitialState(), EpisodeCount.INITIAL_COUNT, None)
  }

  /** What holds between handlers: both counts are in 1..100, every script
      is stored under its own episode number, and no outline is loading. */
  ghost predicate Valid(ss: Session)
  {
    && EpisodeCount.InRange(ss.formCount)
    && EpisodeCount.InRange(ss.app.episodeCount)
    && (forall k :: k in ss.app.scripts ==> ss.app.scripts[k].episodeNumber == k)
    && !ss.app.isGeneratingOutline
  }

  /** One event, its handler run to completion. Typing a count runs the
      count field's handler and touches only the form's count; selecting
      touches only the selection; choosing a file runs the upload with the
      form's count; the buttons run their handlers on the application state
      and touch nothing else. */
  function Step(ss: Session, ev: UiEvent, services: Services): (r: Session)
    requires ss.app.episodeCount > 0
    ensures ev.CountInput? ==>
      r.formCount == EpisodeCount.HandleCountChange(ss.formCount, ev.parsed)
      && r.app == ss.app && r.selected == ss.selected
    ensures ev.EpisodeSelected? ==> r.app == ss.app && r.formCount == ss.formCount && r.selected == ev.episode
    ensures ev.FileChosen? ==>
      r.app == HandleFileUpload(ss.app, ev.content, ev.name, ss.formCount, services)
      && r.app.episodeCount == ss.formCount && r.app.fileContent == Some(ev.content)
      && r.formCount == ss.formCount && r.selected == ss.selected
    ensures ev.GenerateClicked? ==> r.app == HandleGenerateScript(ss.app, ss.selected, services)
    ensures ev.ExportClicked? ==> r.app == HandleExportDocx(ss.app, services).state
    ensures ev.GenerateClicked? || ev.ExportClicked? ==> r.formCount == ss.formCount && r.selected == ss.selected
  {
    match ev
    case CountInput(parsed) => ss.(formCount := EpisodeCount.HandleCountChange(ss.formCount, parsed))
    case FileChosen(content, name) => ss.(app := HandleFileUpload(ss.app, content, name, ss.formCount, services))
    case EpisodeSelected(episode) => ss.(selected := episode)
    case GenerateClicked => ss.(app := HandleGenerateScript(ss.app, ss.selected, services))
    case ExportClicked => ss.(app := HandleExportDocx(ss.app, services).state)
  }

  /** Every handler keeps the session valid. */
  lemma StepKeepsValid(ss: Session, ev: UiEvent, services: Services)
    requires Valid(ss)
    ensures Valid(Step(ss, ev, services))
  {
    var r := Step(ss, ev, services);
    if ev.GenerateClicked? && CanGenerate(ss.app, ss.selected) {
      var epNum := ss.selected.value.episodeNumber;
      forall k | k in r.app.scripts ensures r.app.scripts[k].episodeNumber == k {
        if k != epNum {
          assert k in ss.app.scripts;
        }
      }
    }
  }

  /** A series of events, one after another. */
  function RunEvents(ss: Session, events: seq<UiEvent>, services: Services): (r: Session)
    requires Valid(ss)
    ensures Valid(r)
    decreases |events|
  {
    if |events| == 0 then ss
    else
      StepKeepsValid(ss, events[0], services);
      RunEvents(Step(ss, events[0], services), events[1..], services)
  }

  /** The page starts valid, so every state it can reach is valid: in
      particular the episode count given to the script request is never 0. */
  lemma InitialSessionValid()
    ensures Valid(InitialSession())
  {
  }
}
