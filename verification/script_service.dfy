/** Writing the script of one episode (services/geminiService.ts,
    generateEpisodeScript). The request is a parameter: `ScriptWriter`
    answers it from the episode, the excerpt of the novel around it and the
    previous episode's synopsis, with the reply text ("" when the reply has
    none) or None when the request rejects. */
module ScriptService {
  import opened Wrappers
  import opened JsText
  import opened Types
  import ContextWindow

  /** What the script becomes when the reply carries no text. */
  const SCRIPT_EMPTY := "生成剧本失败，请重试。"
  /** What the script becomes when the request rejects. */
  const SCRIPT_ERROR := "错误：无法生成剧本，请稍后重试。"

  type ScriptWriter = (EpisodeOutline, string, Option<string>) -> Option<string>

  /** `novelText.slice(start, end)` for the selected window. */
  function ContextText(novel: string, episodeNumber: int, totalEpisodes: int): (ctx: string)
    requires totalEpisodes > 0
    ensures var w := ContextWindow.SelectWindow(|novel|, episodeNumber, totalEpisodes);
      ctx == novel[w.start..w.end]
  {
    var w := ContextWindow.SelectWindow(|novel|, episodeNumber, totalEpisodes);
    Slice(novel, w.start, w.end)
  }

  /** A novel no longer than the smallest window goes with every script
      request whole. */
  lemma ShortNovelSentWhole(novel: string, episodeNumber: int, totalEpisodes: int)
    requires totalEpisodes > 0
    requires |novel| as real <= ContextWindow.MIN_WINDOW
    requires 0 <= episodeNumber <= totalEpisodes
    ensures ContextText(novel, episodeNumber, totalEpisodes) == novel
  {
    ContextWindow.ShortTextSentWhole(|novel|, episodeNumber, totalEpisodes);
  }

  /** `generateEpisodeScript(novelText, episode, totalEpisodes,
      prevEpisodeSummary)`: never fails and never returns an empty script.
      The reply's text is the script; an empty reply and a rejected request
      each become their fixed message. */
  function GenerateEpisodeScript(novel: string, episode: EpisodeOutline, totalEpisodes: int,
                                 previous: Option<string>, write: ScriptWriter): (script: string)
    requires totalEpisodes > 0
    ensures script != ""
    ensures var reply := write(episode, ContextText(novel, episode.episodeNumber, totalEpisodes), previous);
      && (reply.None? ==> script == SCRIPT_ERROR)
      && (reply == Some("") ==> script == SCRIPT_EMPTY)
      && (reply.Some? && reply.value != "" ==> script == reply.value)
  {
    match write(episode, ContextText(novel, episode.episodeNumber, totalEpisodes), previous)
    case None => SCRIPT_ERROR
    case Some(text) => if text == "" then SCRIPT_EMPTY else text
  }
}
