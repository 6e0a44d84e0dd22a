/** The application's records (types.ts). Numbers that the program treats as
    integers are `int`; `Record<number, GeneratedScript>` is a map keyed by
    episode number; `string | null` is `Option<string>`. */
module Types {
  import opened Wrappers

  /** Which screen the application shows. `Scripting` is declared by the
      program but no handler ever selects it. */
  datatype Step = Upload | Outline | Scripting

  /** One episode of the outline, as the language model returns it. */
  datatype EpisodeOutline = EpisodeOutline(episodeNumber: int, title: string, synopsis: string)

  /** The script of one episode; `isGenerating` is true while the request is
      outstanding. */
  datatype GeneratedScript = GeneratedScript(episodeNumber: int, content: string, isGenerating: bool)

  /** The whole state of the single-page application. */
  datatype AppState = AppState(
    step: Step,
    fileContent: Option<string>,
    fileName: Option<string>,
    episodeCount: int,
    outline: seq<EpisodeOutline>,
    scripts: map<int, GeneratedScript>,
    isGeneratingOutline: bool,
    loadingStatus: string,
    error: Option<string>)
}
