/** Choosing the part of the novel sent with a script request
    (services/geminiService.ts, the offset arithmetic of
    generateEpisodeScript). The program computes in floating point; the
    model computes in exact reals, with `Floor` for `Math.floor` and the
    truncation `slice` applies to a fractional offset. */
module ContextWindow {
  import opened JsText

  /** The smallest window, in characters. */
  const MIN_WINDOW: real := 150000.0

  /** `Math.max(150000, totalLength / 5)`. */
  function WindowSize(totalLength: nat): (w: real)
    ensures w >= MIN_WINDOW && w >= totalLength as real / 5.0
    ensures w == MIN_WINDOW || w == totalLength as real / 5.0
  {
    RMax(MIN_WINDOW, totalLength as real / 5.0)
  }

  /** Where the episode is estimated to sit in the text: its share of the
      episodes times the text length. */
  function Center(totalLength: nat, episodeNumber: int, totalEpisodes: int): real
    requires totalEpisodes > 0
  {
    (episodeNumber as real / totalEpisodes as real) * totalLength as real
  }

  /** The start before any adjustment: half a window before the centre. */
  function NaiveStart(totalLength: nat, episodeNumber: int, totalEpisodes: int): int
    requires totalEpisodes > 0
  {
    (Center(totalLength, episodeNumber, totalEpisodes) - WindowSize(totalLength) / 2.0).Floor
  }

  /** The end before any adjustment: half a window after the centre. */
  function NaiveEnd(totalLength: nat, episodeNumber: int, totalEpisodes: int): int
    requires totalEpisodes > 0
  {
    (Center(totalLength, episodeNumber, totalEpisodes) + WindowSize(totalLength) / 2.0).Floor
  }

  /** A pair of offsets as the program holds them (possibly fractional). */
  datatype Offsets = Offsets(start: real, end: real)

  /** The program's two adjustments: a window that starts before the text
      is moved to start at 0; then a window that ends after the text is
      moved to end at its end. */
  function Adjusted(totalLength: nat, episodeNumber: int, totalEpisodes: int): Offsets
    requires totalEpisodes > 0
  {
    var L := totalLength as real;
    var W := WindowSize(totalLength);
    var start := NaiveStart(totalLength, episodeNumber, totalEpisodes);
    var end := NaiveEnd(totalLength, episodeNumber, totalEpisodes);
    var first := if start < 0 then Offsets(0.0, RMin(L, W)) else Offsets(start as real, end as real);
    if first.end > L then Offsets(RMax(0.0, L - W), L) else first
  }

  /** The character offsets of the context: `novelText.slice(start, end)`. */
  datatype Window = Window(start: int, end: int)

  /** The window actually cut out of the text. For any episode number it lies
      inside the text. */
  function SelectWindow(totalLength: nat, episodeNumber: int, totalEpisodes: int): (w: Window)
    requires totalEpisodes > 0
    ensures 0 <= w.start <= w.end <= totalLength
  {
    var o := Adjusted(totalLength, episodeNumber, totalEpisodes);
    NaiveOrdered(totalLength, episodeNumber, totalEpisodes);
    Window(Trunc(o.start), Trunc(o.end))
  }

  /** The naive start never lies after the naive end. */
  lemma NaiveOrdered(totalLength: nat, episodeNumber: int, totalEpisodes: int)
    requires totalEpisodes > 0
    ensures NaiveStart(totalLength, episodeNumber, totalEpisodes) <= NaiveEnd(totalLength, episodeNumber, totalEpisodes)
  {
  }

  /** A window that would start before the text becomes `[0, min(L, W)]`. */
  lemma StartBeforeText(totalLength: nat, episodeNumber: int, totalEpisodes: int)
    requires totalEpisodes > 0
    requires NaiveStart(totalLength, episodeNumber, totalEpisodes) < 0
    ensures SelectWindow(totalLength, episodeNumber, totalEpisodes)
      == Window(0, Min(totalLength, WindowSize(totalLength).Floor))
  {
  }

  /** A window that would end after the text becomes `[max(0, L - W), L]`,
      whether or not it would also have started before the text. */
  lemma EndAfterText(totalLength: nat, episodeNumber: int, totalEpisodes: int)
    requires totalEpisodes > 0
    requires NaiveEnd(totalLength, episodeNumber, totalEpisodes) > totalLength
    ensures SelectWindow(totalLength, episodeNumber, totalEpisodes)
      == Window(Max(0, (totalLength as real - WindowSize(totalLength)).Floor), totalLength)
  {
    var L := totalLength as real;
    var W := WindowSize(totalLength);
    var c := Center(totalLength, episodeNumber, totalEpisodes);
    if NaiveStart(totalLength, episodeNumber, totalEpisodes) < 0 {
      // both ends stick out: the text is shorter than the window
      assert c - W / 2.0 < 0.0;
      assert c + W / 2.0 >= (totalLength + 1) as real;
      assert L < W;
    }
  }

  /** A window that fits is left where it is, so it is centred on the
      estimate as closely as whole offsets allow. */
  lemma WindowInside(totalLength: nat, episodeNumber: int, totalEpisodes: int)
    requires totalEpisodes > 0
    requires NaiveStart(totalLength, episodeNumber, totalEpisodes) >= 0
    requires NaiveEnd(totalLength, episodeNumber, totalEpisodes) <= totalLength
    ensures var w := SelectWindow(totalLength, episodeNumber, totalEpisodes);
      var c := Center(totalLength, episodeNumber, totalEpisodes);
      var half := WindowSize(totalLength) / 2.0;
      && c - half - 1.0 < w.start as real <= c - half
      && c + half - 1.0 < w.end as real <= c + half
  {
  }

  /** The window is never wider than W by a whole character, and when the
      text is at least W long it is never narrower by one either. */
  lemma WindowWidth(totalLength: nat, episodeNumber: int, totalEpisodes: int)
    requires totalEpisodes > 0
    ensures var w := SelectWindow(totalLength, episodeNumber, totalEpisodes);
      (w.end - w.start) as real < WindowSize(totalLength) + 1.0
    ensures var w := SelectWindow(totalLength, episodeNumber, totalEpisodes);
      WindowSize(totalLength) <= totalLength as real ==> (w.end - w.start) as real > WindowSize(totalLength) - 1.0
  {
    var L := totalLength as real;
    var W := WindowSize(totalLength);
    if NaiveStart(totalLength, episodeNumber, totalEpisodes) < 0 {
      StartBeforeText(totalLength, episodeNumber, totalEpisodes);
    } else if NaiveEnd(totalLength, episodeNumber, totalEpisodes) > totalLength {
      EndAfterText(totalLength, episodeNumber, totalEpisodes);
    } else {
      WindowInside(totalLength, episodeNumber, totalEpisodes);
    }
  }

  /** For an episode number between 0 and the episode count, the estimate
      lies inside the text. */
  lemma CenterInText(totalLength: nat, episodeNumber: int, totalEpisodes: int)
    requires totalEpisodes > 0
    requires 0 <= episodeNumber <= totalEpisodes
    ensures 0.0 <= Center(totalLength, episodeNumber, totalEpisodes) <= totalLength as real
  {
    var p := episodeNumber as real / totalEpisodes as real;
    var L := totalLength as real;
    assert 0.0 <= p <= 1.0;
    assert p * L <= 1.0 * L;
  }

  /** For an episode number between 0 and the episode count, the estimated
      position lies inside the window. */
  lemma CenterInWindow(totalLength: nat, episodeNumber: int, totalEpisodes: int)
    requires totalEpisodes > 0
    requires 0 <= episodeNumber <= totalEpisodes
    ensures var w := SelectWindow(totalLength, episodeNumber, totalEpisodes);
      var c := Center(totalLength, episodeNumber, totalEpisodes);
      w.start as real <= c <= w.end as real
  {
    var L := totalLength as real;
    var W := WindowSize(totalLength);
    var c := Center(totalLength, episodeNumber, totalEpisodes);
    CenterInText(totalLength, episodeNumber, totalEpisodes);
    if NaiveStart(totalLength, episodeNumber, totalEpisodes) < 0 {
      StartBeforeText(totalLength, episodeNumber, totalEpisodes);
    } else if NaiveEnd(totalLength, episodeNumber, totalEpisodes) > totalLength {
      EndAfterText(totalLength, episodeNumber, totalEpisodes);
    } else {
      WindowInside(totalLength, episodeNumber, totalEpisodes);
    }
  }

  /** A text no longer than the smallest window is sent whole, for every
      episode number between 0 and the episode count. */
  lemma ShortTextSentWhole(totalLength: nat, episodeNumber: int, totalEpisodes: int)
    requires totalEpisodes > 0
    requires totalLength as real <= MIN_WINDOW
    requires 0 <= episodeNumber <= totalEpisodes
    ensures SelectWindow(totalLength, episodeNumber, totalEpisodes) == Window(0, totalLength)
  {
    var L := totalLength as real;
    var W := WindowSize(totalLength);
    var c := Center(totalLength, episodeNumber, totalEpisodes);
    assert W == MIN_WINDOW;
    CenterInText(totalLength, episodeNumber, totalEpisodes);
    if NaiveStart(totalLength, episodeNumber, totalEpisodes) < 0 {
      StartBeforeText(totalLength, episodeNumber, totalEpisodes);
    } else if NaiveEnd(totalLength, episodeNumber, totalEpisodes) > totalLength {
      EndAfterText(totalLength, episodeNumber, totalEpisodes);
    } else {
      WindowInside(totalLength, episodeNumber, totalEpisodes);
    }
  }

  /** Worked cases for a text of a million characters (W = 200000) and one
      of a hundred: the middle of two episodes, the very start, the very
      end, and a text shorter than the window. */
  lemma Examples()
    ensures SelectWindow(1000000, 1, 2) == Window(400000, 600000)
    ensures SelectWindow(1000000, 0, 2) == Window(0, 200000)
    ensures SelectWindow(1000000, 2, 2) == Window(800000, 1000000)
    ensures SelectWindow(100, 1, 2) == Window(0, 100)
  {
  }
}
