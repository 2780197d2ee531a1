/**
 * `Date.iso8601Date(from:)`: parse an ISO 8601 / RFC 3339 date-time (as in
 * section 5.6 of RFC 3339) by trying seven patterns from the most to the
 * least precise, cutting the string down before each less precise attempt.
 * The parse by one pattern is `DateFormatter`'s, outside the model.
 */
module Dates {
  import opened Primitives

  /** The patterns, most precise first. */
  const Formats: seq<string> := [
    "yyyy-MM-dd'T'HH:mm:ssZZZZZ",
    "yyyy-MM-dd'T'HH:mm:ss",
    "yyyy-MM-dd'T'HH:mm",
    "yyyy-MM-dd'T'HH",
    "yyyy-MM-dd",
    "yyyy-MM",
    "yyyy"
  ]

  /** The pattern lengths, counting the quotes around `T`. */
  lemma FormatLengths()
    ensures |Formats| == 7
    ensures |Formats[0]| == 26 && |Formats[1]| == 21 && |Formats[2]| == 18 && |Formats[3]| == 15
    ensures |Formats[4]| == 10 && |Formats[5]| == 7 && |Formats[6]| == 4
  {
  }

  /**
   * The cut before attempt `next` after a failed attempt: a string longer
   * than the next pattern is cut to the pattern's length minus 2; a string
   * no longer than it is kept.
   */
  function Shorten(working: string, next: nat): (shorter: string)
    requires 1 <= next < |Formats|
    ensures shorter <= working
    ensures |working| > |Formats[next]| ==> |shorter| == |Formats[next]| - 2
    ensures |working| <= |Formats[next]| ==> shorter == working
  {
    if |working| > |Formats[next]| then working[..|Formats[next]| - 2] else working
  }

  /**
   * The string handed to attempt `k` once attempts `0` to `k - 1` have all
   * failed. It is always a prefix of the input.
   */
  function Working(s: string, k: nat): (working: string)
    requires k < |Formats|
    ensures working <= s
  {
    if k == 0 then s else Shorten(Working(s, k - 1), k)
  }

  /**
   * The working string never grows, and it is cut only when it is longer
   * than the next pattern, to that pattern's length minus 2, which always
   * lies within the string.
   */
  lemma TruncationRule(s: string, k: nat)
    requires 1 <= k < |Formats|
    ensures |Working(s, k)| <= |Working(s, k - 1)|
    ensures |Working(s, k - 1)| > |Formats[k]| ==>
      0 <= |Formats[k]| - 2 <= |Working(s, k - 1)| && Working(s, k) == Working(s, k - 1)[..|Formats[k]| - 2]
    ensures |Working(s, k - 1)| <= |Formats[k]| ==> Working(s, k) == Working(s, k - 1)
  {
  }

  /**
   * `iso8601Date(from:)`: at most seven attempts, in order. The result is
   * the first successful parse of the working string by its pattern, and
   * `nil` exactly when every attempt fails.
   */
  method Iso8601Date<D>(s: string, date: (string, string) -> Option<D>) returns (r: Option<D>)
    ensures r.None? <==> forall k :: 0 <= k < |Formats| ==> date(Formats[k], Working(s, k)).None?
    ensures r.Some? ==> exists k :: 0 <= k < |Formats| && r == date(Formats[k], Working(s, k)) &&
                                    (forall j :: 0 <= j < k ==> date(Formats[j], Working(s, j)).None?)
  {
    var working := s;
    for index := 0 to |Formats|
      invariant index < |Formats| ==> working == Working(s, index)
      invariant forall j :: 0 <= j < index ==> date(Formats[j], Working(s, j)).None?
    {
      var parsed := date(Formats[index], working);
      if parsed.Some? {
        return parsed;
      }
      if index + 1 == |Formats| {
        return None;
      }
      if |working| > |Formats[index + 1]| {
        working := working[..|Formats[index + 1]| - 2];
      }
    }
    return None;
  }

  /**
   * As written, the cut is 2 short for the patterns without quotes: any
   * input of 11 or more characters that reaches the `yyyy-MM-dd` attempt
   * reaches it with only 8 characters, `yyyy-MM` with 5 and `yyyy` with 2.
   */
  lemma DatePatternsSeeShortPrefixes(s: string)
    requires |s| >= 11
    ensures |Working(s, 4)| == 8 && |Working(s, 5)| == 5 && |Working(s, 6)| == 2
  {
    FormatLengths();
    assert 11 <= |Working(s, 1)|;
    assert 11 <= |Working(s, 2)|;
    assert 11 <= |Working(s, 3)| <= 15;
  }

  /** With a space for the `T`, the date part never reaches its pattern whole. */
  lemma DatePatternsExample()
    ensures Working("2016-11-04 10:00", 4) == "2016-11-"
    ensures Working("2016-11-04 10:00", 6) == "20"
  {
    DatePatternsSeeShortPrefixes("2016-11-04 10:00");
  }

  /** The number of characters each pattern matches: its length less the two quotes around `T`, if any. */
  const Widths: seq<nat> := [24, 19, 16, 13, 10, 7, 4]

  /** Only the patterns with a time part quote the `T`. */
  lemma WidthsDiscountQuotes(k: nat)
    requires k < |Formats|
    ensures |Widths| == |Formats|
    ensures k < 4 ==> Formats[k][10] == '\'' && Formats[k][12] == '\'' && Widths[k] == |Formats[k]| - 2
    ensures k >= 4 ==> Widths[k] == |Formats[k]| && '\'' !in Formats[k]
  {
  }

  /** The cut as evidently intended: to the width of the next pattern, compared against that same width. */
  function WorkingIntended(s: string, k: nat): (working: string)
    requires k < |Formats|
    ensures working <= s
  {
    if k == 0 then s
    else
      var previous := WorkingIntended(s, k - 1);
      if |previous| > Widths[k] then previous[..Widths[k]] else previous
  }

  /** With the intended cut, attempt `k` sees the input's prefix as long as its pattern matches. */
  lemma {:induction false} WorkingIntendedFitsPattern(s: string, k: nat)
    requires 1 <= k < |Formats|
    ensures WorkingIntended(s, k) == s[..if |s| < Widths[k] then |s| else Widths[k]]
  {
    if k > 1 {
      WorkingIntendedFitsPattern(s, k - 1);
    }
  }

  /** On the example, the intended cut hands `yyyy-MM-dd` the whole date. */
  lemma DatePatternsIntendedExample()
    ensures WorkingIntended("2016-11-04 10:00", 4) == "2016-11-04"
  {
    WorkingIntendedFitsPattern("2016-11-04 10:00", 4);
  }
}
