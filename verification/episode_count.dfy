/** The episode-count field of the upload form (components/FileUpload.tsx).
    `parseInt` is abstracted to its result: Some(v) for a number, None for
    NaN. */
module EpisodeCount {
  import opened Wrappers

  /** The count the form starts with. */
  const INITIAL_COUNT: int := 40
  const MIN_COUNT: int := 1
  const MAX_COUNT: int := 100

  predicate InRange(n: int)
  {
    MIN_COUNT <= n <= MAX_COUNT
  }

  /** Whether an input replaces the count. */
  predicate Accepted(parsed: Option<int>)
  {
    parsed.Some? && 0 < parsed.value <= 100
  }

  /** `handleCountChange`: a parsed value replaces the count exactly when it
      lies in 1..100; NaN and out-of-range values leave it as it was. */
  function HandleCountChange(count: int, parsed: Option<int>): (r: int)
    ensures parsed.Some? && InRange(parsed.value) ==> r == parsed.value
    ensures parsed.None? || !InRange(parsed.value) ==> r == count
    ensures InRange(count) ==> InRange(r)
  {
    if Accepted(parsed) then parsed.value else count
  }

  /** The count after a series of inputs, one `handleCountChange` each. */
  function CountAfter(count: int, inputs: seq<Option<int>>): int
    decreases |inputs|
  {
    if |inputs| == 0 then count else CountAfter(HandleCountChange(count, inputs[0]), inputs[1..])
  }

  /** The last input in the series that lies in 1..100, if any. */
  function LastAccepted(inputs: seq<Option<int>>): (r: Option<int>)
    ensures r.Some? ==> InRange(r.value)
  {
    if |inputs| == 0 then None
    else if Accepted(inputs[|inputs| - 1]) then inputs[|inputs| - 1]
    else LastAccepted(inputs[..|inputs| - 1])
  }

  lemma {:induction false} CountAfterAppend(count: int, inputs: seq<Option<int>>, x: Option<int>)
    ensures CountAfter(count, inputs + [x]) == HandleCountChange(CountAfter(count, inputs), x)
    decreases |inputs|
  {
    if |inputs| > 0 {
      assert (inputs + [x])[1..] == inputs[1..] + [x];
      CountAfterAppend(HandleCountChange(count, inputs[0]), inputs[1..], x);
    }
  }

  /** After any series of inputs the count is the last accepted input, or
      the starting count when none was accepted. */
  lemma {:induction false} CountIsLastAccepted(count: int, inputs: seq<Option<int>>)
    ensures CountAfter(count, inputs) == LastAccepted(inputs).GetOr(count)
    decreases |inputs|
  {
    if |inputs| > 0 {
      var init := inputs[..|inputs| - 1];
      assert inputs == init + [inputs[|inputs| - 1]];
      CountAfterAppend(count, init, inputs[|inputs| - 1]);
      CountIsLastAccepted(count, init);
    }
  }

  /** The form starts in range and only in-range values are ever stored, so
      the count stays in 1..100 whatever is typed. */
  lemma CountStaysInRange(inputs: seq<Option<int>>)
    ensures InRange(INITIAL_COUNT)
    ensures InRange(CountAfter(INITIAL_COUNT, inputs))
  {
    CountIsLastAccepted(INITIAL_COUNT, inputs);
  }
}
