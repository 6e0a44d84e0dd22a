/** The few JavaScript string and number primitives the application relies
    on, written out so that their edge cases are explicit: `slice` with
    clamped and negative offsets, `Array.prototype.join`, `String.prototype.replace`
    with a string pattern (first occurrence only), decimal rendering of a
    number in a template literal, and the truncation `slice` applies to a
    fractional offset. */
module JsText {
  import opened Wrappers

  function Min(a: int, b: int): int { if a <= b then a else b }

  function Max(a: int, b: int): int { if a <= b then b else a }

  function RMin(a: real, b: real): real { if a <= b then a else b }

  function RMax(a: real, b: real): real { if a <= b then b else a }

  // ---------------------------------------------------------------------------
  // slice

  /** How `slice` turns one integer argument into an index of a string of
      length `len`: a negative argument counts from the end, and the result
      is clamped into [0, len]. */
  function RelativeIndex(len: nat, k: int): (r: nat)
    ensures r <= len
    ensures 0 <= k <= len ==> r == k
    ensures k > len ==> r == len
    ensures k < 0 ==> r == Max(len + k, 0)
  {
    if k < 0 then (if len + k < 0 then 0 else len + k)
    else if k > len then len
    else k
  }

  /** `s.slice(a, b)` for integer arguments. */
  function Slice(s: string, a: int, b: int): (r: string)
    ensures |r| <= |s|
    ensures 0 <= a <= b <= |s| ==> r == s[a..b]
    ensures 0 <= a <= |s| <= b ==> r == s[a..]
    ensures 0 <= b <= a ==> r == ""
  {
    var lo := RelativeIndex(|s|, a);
    var hi := RelativeIndex(|s|, b);
    if lo < hi then s[lo..hi] else ""
  }

  /** The integer a fractional offset denotes when it is given to `slice`
      (ToIntegerOrInfinity truncates toward zero). */
  function Trunc(x: real): (r: int)
    ensures x >= 0.0 ==> r == x.Floor
    ensures r as real <= x + 1.0 && x - 1.0 <= r as real
  {
    if x < 0.0 then -((-x).Floor) else x.Floor
  }

  // ---------------------------------------------------------------------------
  // concatenation and join

  /** The concatenation of all parts, in order. */
  function Flatten(parts: seq<string>): string
  {
    if |parts| == 0 then "" else Flatten(parts[..|parts| - 1]) + parts[|parts| - 1]
  }

  /** `parts.join(sep)`. */
  function Join(parts: seq<string>, sep: string): string
  {
    if |parts| == 0 then ""
    else if |parts| == 1 then parts[0]
    else Join(parts[..|parts| - 1], sep) + sep + parts[|parts| - 1]
  }

  /** Where part `k` starts inside `Join(parts, sep)`: after the join of the
      parts before it and one more separator. */
  function PartOffset(parts: seq<string>, sep: string, k: nat): nat
    requires k <= |parts|
  {
    if k == 0 then 0 else |Join(parts[..k], sep)| + |sep|
  }

  /** Joining a prefix of the parts gives a prefix of the joined string. */
  lemma {:induction false} JoinPrefix(parts: seq<string>, sep: string, m: nat)
    requires 1 <= m <= |parts|
    ensures Join(parts[..m], sep) <= Join(parts, sep)
  {
    var n := |parts|;
    if m < n {
      var init := parts[..n - 1];
      JoinPrefix(init, sep, m);
      assert init[..m] == parts[..m];
      assert parts[..n] == parts;
    } else {
      assert parts[..m] == parts;
    }
  }

  /** Part `k` of a join: the join of the first k+1 parts ends with it. */
  lemma JoinLast(parts: seq<string>, sep: string, k: nat)
    requires k < |parts|
    ensures var upto := Join(parts[..k + 1], sep);
      PartOffset(parts, sep, k) + |parts[k]| == |upto|
      && upto[PartOffset(parts, sep, k)..] == parts[k]
  {
    var upto := Join(parts[..k + 1], sep);
    if k == 0 {
      assert upto == parts[0];
    } else {
      assert parts[..k + 1][..k] == parts[..k];
      assert upto == Join(parts[..k], sep) + sep + parts[k];
    }
  }

  /** The joined string holds the parts in order: part `k` sits at
      `PartOffset(k)`. */
  lemma JoinPart(parts: seq<string>, sep: string, k: nat)
    requires k < |parts|
    ensures var j := Join(parts, sep);
      var o := PartOffset(parts, sep, k);
      o + |parts[k]| <= |j| && j[o..o + |parts[k]|] == parts[k]
  {
    var o := PartOffset(parts, sep, k);
    var upto := Join(parts[..k + 1], sep);
    JoinPrefix(parts, sep, k + 1);
    JoinLast(parts, sep, k);
    assert upto[o..o + |parts[k]|] == parts[k];
  }

  /** Between part `k` and part `k + 1` there is exactly one separator. */
  lemma JoinSeparator(parts: seq<string>, sep: string, k: nat)
    requires k + 1 < |parts|
    ensures var j := Join(parts, sep);
      var o := PartOffset(parts, sep, k) + |parts[k]|;
      o + |sep| == PartOffset(parts, sep, k + 1) <= |j| && j[o..o + |sep|] == sep
  {
    var o := PartOffset(parts, sep, k) + |parts[k]|;
    var upto := Join(parts[..k + 1], sep);
    var next := Join(parts[..k + 2], sep);
    JoinLast(parts, sep, k);
    JoinPrefix(parts, sep, k + 2);
    assert parts[..k + 2][..k + 1] == parts[..k + 1];
    assert next == upto + sep + parts[k + 1];
    assert next[o..o + |sep|] == sep;
  }

  // ---------------------------------------------------------------------------
  // replace (string pattern, first occurrence)

  predicate OccursAt(s: string, pat: string, i: int)
  {
    0 <= i && i + |pat| <= |s| && s[i..i + |pat|] == pat
  }

  /** `s.indexOf(pat, from)`, with None for -1. */
  function IndexOf(s: string, pat: string, from: nat): (r: Option<nat>)
    ensures r.Some? ==> from <= r.value && OccursAt(s, pat, r.value)
    ensures r.Some? ==> forall j :: from <= j < r.value ==> !OccursAt(s, pat, j)
    ensures r.None? ==> forall j :: from <= j ==> !OccursAt(s, pat, j)
    decreases |s| - from
  {
    if from + |pat| > |s| then None
    else if s[from..from + |pat|] == pat then Some(from)
    else IndexOf(s, pat, from + 1)
  }

  /** `s.replace(pat, rep)` where `pat` is a string: only the first occurrence
      is replaced. */
  function ReplaceFirst(s: string, pat: string, rep: string): string
  {
    match IndexOf(s, pat, 0)
    case None => s
    case Some(i) => s[..i] + rep + s[i + |pat|..]
  }

  /** Replacing the first occurrence is undone by putting the pattern back at
      that spot; with no occurrence nothing changes. */
  lemma ReplaceFirstRestores(s: string, pat: string, rep: string)
    ensures IndexOf(s, pat, 0).None? ==> ReplaceFirst(s, pat, rep) == s
    ensures IndexOf(s, pat, 0).Some? ==>
      var i := IndexOf(s, pat, 0).value;
      var r := ReplaceFirst(s, pat, rep);
      |r| == |s| - |pat| + |rep| && r[..i] + pat + r[i + |rep|..] == s
  {
    if IndexOf(s, pat, 0).Some? {
      var i := IndexOf(s, pat, 0).value;
      var r := ReplaceFirst(s, pat, rep);
      assert r[..i] == s[..i];
      assert r[i + |rep|..] == s[i + |pat|..];
      assert s == s[..i] + s[i..i + |pat|] + s[i + |pat|..];
    }
  }

  // ---------------------------------------------------------------------------
  // decimal rendering of a non-negative integer (`${n}`)

  predicate IsDigit(c: char) { '0' <= c <= '9' }

  function DigitChar(d: nat): (c: char)
    requires d < 10
    ensures IsDigit(c)
  {
    "0123456789"[d]
  }

  function DigitValue(c: char): nat
    requires IsDigit(c)
  {
    (c as int - '0' as int) as nat
  }

  /** The text a template literal produces for `n`. */
  function Decimal(n: nat): (s: string)
    ensures |s| >= 1
    ensures forall k :: 0 <= k < |s| ==> IsDigit(s[k])
    ensures |s| > 1 ==> s[0] != '0'
  {
    if n < 10 then [DigitChar(n)] else Decimal(n / 10) + [DigitChar(n % 10)]
  }

  /** The number a string of digits denotes. */
  function DecimalValue(s: string): nat
    requires forall k :: 0 <= k < |s| ==> IsDigit(s[k])
  {
    if |s| == 0 then 0 else 10 * DecimalValue(s[..|s| - 1]) + DigitValue(s[|s| - 1])
  }

  /** Reading back the rendered number gives the number. */
  lemma {:induction false} DecimalRoundTrip(n: nat)
    ensures DecimalValue(Decimal(n)) == n
  {
    var s := Decimal(n);
    if n >= 10 {
      DecimalRoundTrip(n / 10);
      assert s[..|s| - 1] == Decimal(n / 10);
    }
    assert DigitValue(DigitChar(n % 10)) == n % 10 by {
      assert "0123456789"[n % 10] as int - '0' as int == n % 10;
    }
  }

  /** Different numbers render differently. */
  lemma DecimalInjective(m: nat, n: nat)
    requires Decimal(m) == Decimal(n)
    ensures m == n
  {
    DecimalRoundTrip(m);
    DecimalRoundTrip(n);
  }
}
