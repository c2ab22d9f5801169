/**
 * Plate-text comparison and the quality gate (src/modules/validation.js):
 * Levenshtein distance over a dynamic-programming table, a normalised
 * similarity score, and a weighted four-criterion quality evaluation.
 */
module Validation {
  import opened TextProcessor

  /** The characters the regular-expression class `\s` (and `String.prototype.trim`) treat as white space. */
  predicate IsJsWhitespace(c: char) {
    (9 <= c as int <= 13) || c as int == 32 || c as int == 0xA0 || c as int == 0x1680 ||
    (0x2000 <= c as int <= 0x200A) || c as int == 0x2028 || c as int == 0x2029 ||
    c as int == 0x202F || c as int == 0x205F || c as int == 0x3000 || c as int == 0xFEFF
  }

  /** `text.replace(/\s+/g, '')`: every white-space character removed, the rest kept in order. */
  function RemoveWhitespace(text: string): (r: string)
    ensures |r| <= |text|
    ensures forall i :: 0 <= i < |r| ==> !IsJsWhitespace(r[i])
    ensures forall c :: c in text && !IsJsWhitespace(c) ==> c in r
    ensures forall c :: c in r ==> c in text
  {
    if text == [] then []
    else if IsJsWhitespace(text[0]) then RemoveWhitespace(text[1..])
    else [text[0]] + RemoveWhitespace(text[1..])
  }

  /**
   * The removal works character by character, in order: it distributes over
   * concatenation, so each character of `a + b` is dropped or kept where it stands.
   */
  lemma {:induction false} RemoveWhitespaceAppend(a: string, b: string)
    ensures RemoveWhitespace(a + b) == RemoveWhitespace(a) + RemoveWhitespace(b)
    decreases |a|
  {
    if a == [] {
      assert a + b == b;
    } else {
      assert (a + b)[0] == a[0] && (a + b)[1..] == a[1..] + b;
      RemoveWhitespaceAppend(a[1..], b);
    }
  }

  /** A single white-space character is dropped and any other character is kept. */
  lemma RemoveWhitespaceOfChar(c: char)
    ensures RemoveWhitespace([c]) == if IsJsWhitespace(c) then [] else [c]
  {
  }

  /** Text without white space is left unchanged. */
  lemma {:induction false} RemoveWhitespaceKeepsClean(text: string)
    requires forall i :: 0 <= i < |text| ==> !IsJsWhitespace(text[i])
    ensures RemoveWhitespace(text) == text
  {
    if text != [] {
      RemoveWhitespaceKeepsClean(text[1..]);
    }
  }

  function UpperChar(c: char): (u: char)
    ensures 'a' <= c <= 'z' ==> 'A' <= u <= 'Z' && u as int == c as int - 32
    ensures !('a' <= c <= 'z') ==> u == c
  {
    if 'a' <= c <= 'z' then (c as int - 32) as char else c
  }

  /** `toUpperCase` on the ASCII letters: lower-case letters map to upper case, everything else stays. */
  function ToUpper(text: string): (r: string)
    ensures |r| == |text|
    ensures forall i :: 0 <= i < |text| ==> r[i] == UpperChar(text[i])
  {
    seq(|text|, i requires 0 <= i < |text| => UpperChar(text[i]))
  }

  /** The normalisation inside `calculateTextSimilarity`: strip white space, then upper-case. */
  function Normalize(text: string): (r: string)
    ensures |r| <= |text|
    ensures forall i :: 0 <= i < |r| ==> !('a' <= r[i] <= 'z') && !IsJsWhitespace(r[i])
  {
    ToUpper(RemoveWhitespace(text))
  }

  /** Upper-casing distributes over concatenation. */
  lemma ToUpperAppend(a: string, b: string)
    ensures ToUpper(a + b) == ToUpper(a) + ToUpper(b)
  {
    assert forall i :: 0 <= i < |a| ==> (a + b)[i] == a[i];
    assert forall i :: |a| <= i < |a| + |b| ==> (a + b)[i] == b[i - |a|];
  }

  /**
   * Normalisation works character by character, in order: it distributes
   * over concatenation, drops a white-space character and upper-cases any
   * other. Together these fix `Normalize` on every text.
   */
  lemma NormalizeAppend(a: string, b: string)
    ensures Normalize(a + b) == Normalize(a) + Normalize(b)
  {
    RemoveWhitespaceAppend(a, b);
    ToUpperAppend(RemoveWhitespace(a), RemoveWhitespace(b));
  }

  lemma NormalizeOfChar(c: char)
    ensures Normalize([c]) == if IsJsWhitespace(c) then [] else [UpperChar(c)]
  {
    RemoveWhitespaceOfChar(c);
  }

  function Min3(a: nat, b: nat, c: nat): nat {
    if a <= b && a <= c then a else if b <= c then b else c
  }

  function MaxLen(a: nat, b: nat): nat {
    if a >= b then a else b
  }

  /**
   * The edit distance the table computes: cell (i, j) is the distance
   * between the first i characters of `a` and the first j of `b`.
   */
  function EditDistance(a: string, b: string): nat
    decreases |a| + |b|
  {
    if |a| == 0 then |b|
    else if |b| == 0 then |a|
    else
      var cost := if a[|a| - 1] == b[|b| - 1] then 0 else 1;
      Min3(EditDistance(a[..|a| - 1], b) + 1,
           EditDistance(a, b[..|b| - 1]) + 1,
           EditDistance(a[..|a| - 1], b[..|b| - 1]) + cost)
  }

  lemma {:induction false} EditDistanceSymmetric(a: string, b: string)
    ensures EditDistance(a, b) == EditDistance(b, a)
    decreases |a| + |b|
  {
    if |a| > 0 && |b| > 0 {
      EditDistanceSymmetric(a[..|a| - 1], b);
      EditDistanceSymmetric(a, b[..|b| - 1]);
      EditDistanceSymmetric(a[..|a| - 1], b[..|b| - 1]);
    }
  }

  /** The distance lies between the length difference and the longer length. */
  lemma {:induction false} EditDistanceBounds(a: string, b: string)
    ensures EditDistance(a, b) <= MaxLen(|a|, |b|)
    ensures EditDistance(a, b) >= |a| - |b| && EditDistance(a, b) >= |b| - |a|
    decreases |a| + |b|
  {
    if |a| > 0 && |b| > 0 {
      EditDistanceBounds(a[..|a| - 1], b);
      EditDistanceBounds(a, b[..|b| - 1]);
      EditDistanceBounds(a[..|a| - 1], b[..|b| - 1]);
    }
  }

  /** The distance is zero exactly for equal strings. */
  lemma {:induction false} EditDistanceZeroIffEqual(a: string, b: string)
    ensures EditDistance(a, b) == 0 <==> a == b
    decreases |a| + |b|
  {
    if |a| > 0 && |b| > 0 {
      var a', b' := a[..|a| - 1], b[..|b| - 1];
      EditDistanceZeroIffEqual(a', b');
      if a == b {
        assert a' == b';
      }
    }
  }

  /** The first column and the first row of the table hold the distances to the empty prefix. */
  lemma EditDistanceToEmpty(a: string)
    ensures EditDistance(a, []) == |a| && EditDistance([], a) == |a|
  {
  }

  /**
   * `levenshteinDistance`: fills the (|s1|+1) x (|s2|+1) table row by row,
   * after setting the first column to i and the first row to j.
   */
  method LevenshteinDistance(s1: string, s2: string) returns (distance: nat)
    ensures distance == EditDistance(s1, s2)
  {
    var d := new nat[|s1| + 1, |s2| + 1]((i, j) => 0);
    for i := 0 to |s1| + 1
      invariant forall k :: 0 <= k < i ==> d[k, 0] == k
    {
      d[i, 0] := i;
    }
    for j := 0 to |s2| + 1
      invariant forall k :: 1 <= k <= |s1| ==> d[k, 0] == k
      invariant forall k :: 0 <= k < j ==> d[0, k] == k
    {
      d[0, j] := j;
    }
    forall c | 0 <= c <= |s2| ensures d[0, c] == EditDistance(s1[..0], s2[..c]) {
      EditDistanceToEmpty(s2[..c]);
    }
    for i := 1 to |s1| + 1
      invariant forall k :: i <= k <= |s1| ==> d[k, 0] == k
      invariant forall c :: 0 <= c <= |s2| ==> d[i - 1, c] == EditDistance(s1[..i - 1], s2[..c])
    {
      EditDistanceToEmpty(s1[..i]);
      assert s2[..0] == [];
      FillRow(d, s1, s2, i);
    }
    assert s1[..|s1|] == s1 && s2[..|s2|] == s2;
    distance := d[|s1|, |s2|];
  }

  /** The inner loop of `levenshteinDistance`: row i from row i - 1 and the first column. */
  method FillRow(d: array2<nat>, s1: string, s2: string, i: nat)
    requires d.Length0 == |s1| + 1 && d.Length1 == |s2| + 1 && 1 <= i <= |s1|
    requires forall c :: 0 <= c <= |s2| ==> d[i - 1, c] == EditDistance(s1[..i - 1], s2[..c])
    requires d[i, 0] == EditDistance(s1[..i], s2[..0])
    modifies d
    ensures forall c :: 0 <= c <= |s2| ==> d[i, c] == EditDistance(s1[..i], s2[..c])
    ensures forall r :: 0 <= r < d.Length0 ==> d[r, 0] == old(d[r, 0])
  {
    var prev := i - 1;
    ghost var want := seq(|s2| + 1, c requires 0 <= c <= |s2| => EditDistance(s1[..i], s2[..c]));
    for j := 1 to |s2| + 1
      invariant forall c :: 0 <= c < j ==> d[i, c] == want[c]
      invariant forall r :: 0 <= r < d.Length0 ==> d[r, 0] == old(d[r, 0])
      invariant forall c :: 0 <= c < d.Length1 ==> d[prev, c] == old(d[prev, c])
    {
      var cost := if s1[i - 1] == s2[j - 1] then 0 else 1;
      var above, left, diagonal := d[prev, j], d[i, j - 1], d[prev, j - 1];
      CellValue(s1, s2, i, j, above, left, diagonal);
      d[i, j] := Min3(above + 1, left + 1, diagonal + cost);
    }
  }

  /** A table cell computed from its three neighbours holds the distance of its two prefixes. */
  lemma CellValue(s1: string, s2: string, i: nat, j: nat, above: nat, left: nat, diagonal: nat)
    requires 1 <= i <= |s1| && 1 <= j <= |s2|
    requires above == EditDistance(s1[..i - 1], s2[..j]) && left == EditDistance(s1[..i], s2[..j - 1])
    requires diagonal == EditDistance(s1[..i - 1], s2[..j - 1])
    ensures Min3(above + 1, left + 1, diagonal + (if s1[i - 1] == s2[j - 1] then 0 else 1)) == EditDistance(s1[..i], s2[..j])
  {
    EditDistanceStep(s1, s2, i, j);
  }

  /** One table cell's recurrence, stated on the prefixes of the two strings. */
  lemma EditDistanceStep(s1: string, s2: string, i: nat, j: nat)
    requires 1 <= i <= |s1| && 1 <= j <= |s2|
    ensures EditDistance(s1[..i], s2[..j]) ==
      Min3(EditDistance(s1[..i - 1], s2[..j]) + 1,
           EditDistance(s1[..i], s2[..j - 1]) + 1,
           EditDistance(s1[..i - 1], s2[..j - 1]) + (if s1[i - 1] == s2[j - 1] then 0 else 1))
  {
    assert s1[..i][..i - 1] == s1[..i - 1];
    assert s2[..j][..j - 1] == s2[..j - 1];
  }

  /** A similarity value; 0/0 in the source yields NaN, which is not a real number. */
  datatype Similarity = Score(value: real) | NotANumber

  /** What `calculateTextSimilarity` returns: 1 for identical text, otherwise 1 - distance / longer normalised length. */
  function TextSimilarity(text1: string, text2: string): Similarity {
    if text1 == text2 then Score(1.0)
    else
      var n1, n2 := Normalize(text1), Normalize(text2);
      var maxLength := MaxLen(|n1|, |n2|);
      if maxLength == 0 then NotANumber
      else Score(1.0 - EditDistance(n1, n2) as real / maxLength as real)
  }

  method CalculateTextSimilarity(text1: string, text2: string) returns (similarity: Similarity)
    ensures similarity == TextSimilarity(text1, text2)
  {
    if text1 == text2 {
      return Score(1.0);
    }
    var normText1 := Normalize(text1);
    var normText2 := Normalize(text2);
    var distance := LevenshteinDistance(normText1, normText2);
    var maxLength := MaxLen(|normText1|, |normText2|);
    if maxLength == 0 {
      return NotANumber;
    }
    return Score(1.0 - distance as real / maxLength as real);
  }

  /** Identical texts, the empty text included, score exactly 1. */
  lemma SimilarityOfIdentical(text: string)
    ensures TextSimilarity(text, text) == Score(1.0)
  {
  }

  lemma SimilaritySymmetric(text1: string, text2: string)
    ensures TextSimilarity(text1, text2) == TextSimilarity(text2, text1)
  {
    EditDistanceSymmetric(Normalize(text1), Normalize(text2));
  }

  /** Every numeric similarity lies in [0, 1]. */
  lemma SimilarityInUnitInterval(text1: string, text2: string)
    ensures TextSimilarity(text1, text2).Score? ==>
      0.0 <= TextSimilarity(text1, text2).value <= 1.0
  {
    var n1, n2 := Normalize(text1), Normalize(text2);
    EditDistanceBounds(n1, n2);
    if text1 != text2 && MaxLen(|n1|, |n2|) > 0 {
      RatioScore(EditDistance(n1, n2), MaxLen(|n1|, |n2|));
    }
  }

  /** 1 - e/m for 0 <= e <= m lies in [0, 1] and is 1 exactly when e is 0. */
  lemma RatioScore(e: nat, m: nat)
    requires 0 < m && e <= m
    ensures 0.0 <= 1.0 - e as real / m as real <= 1.0
    ensures 1.0 - e as real / m as real == 1.0 <==> e == 0
  {
    assert e as real / m as real * m as real == e as real;
  }

  /** The result is NaN exactly when two different texts both normalise to the empty string. */
  lemma SimilarityNaNIff(text1: string, text2: string)
    ensures TextSimilarity(text1, text2).NotANumber? <==>
      text1 != text2 && Normalize(text1) == [] && Normalize(text2) == []
  {
  }

  /** The score is exactly 1 iff the texts are identical or normalise to the same non-empty text. */
  lemma SimilarityOneIff(text1: string, text2: string)
    ensures TextSimilarity(text1, text2) == Score(1.0) <==>
      text1 == text2 || (Normalize(text1) == Normalize(text2) && Normalize(text1) != [])
  {
    var n1, n2 := Normalize(text1), Normalize(text2);
    if text1 != text2 && MaxLen(|n1|, |n2|) > 0 {
      var e, m := EditDistance(n1, n2), MaxLen(|n1|, |n2|);
      assert TextSimilarity(text1, text2) == Score(1.0 - e as real / m as real);
      EditDistanceZeroIffEqual(n1, n2);
      EditDistanceBounds(n1, n2);
      RatioScore(e, m);
    }
  }

  // ---------------------------------------------------------------- quality

  datatype Reason = LengthInadequate | LowOverallConfidence | VeryLowCharacterConfidence | InconsistentFormat

  datatype Criterion = Criterion(check: bool, weight: real, reason: Reason)

  /** The result of `evaluatePlateQuality`. */
  datatype QualityReport = QualityReport(score: real, isValid: bool, reasons: seq<Reason>)

  /** Score threshold for a valid plate. */
  const ValidScore: real := 0.7

  /** `text.trim()`: leading and trailing white space removed. */
  function Trim(text: string): (r: string)
    ensures |r| <= |text|
    ensures r == [] || (!IsJsWhitespace(r[0]) && !IsJsWhitespace(r[|r| - 1]))
    decreases |text|
  {
    if text == [] then []
    else if IsJsWhitespace(text[0]) then Trim(text[1..])
    else if IsJsWhitespace(text[|text| - 1]) then Trim(text[..|text| - 1])
    else text
  }

  /** `r` is `text[p..q]`, and everything outside that slice is white space. */
  predicate TrimmedAt(text: string, r: string, p: nat, q: nat) {
    p <= q <= |text| && r == text[p..q] &&
    (forall i :: 0 <= i < p ==> IsJsWhitespace(text[i])) &&
    (forall i :: q <= i < |text| ==> IsJsWhitespace(text[i]))
  }

  /** Dropping a leading white-space character shifts the kept slice by one. */
  lemma TrimmedAtLeading(text: string, r: string, p: nat, q: nat)
    requires text != [] && IsJsWhitespace(text[0])
    requires TrimmedAt(text[1..], r, p, q)
    ensures TrimmedAt(text, r, p + 1, q + 1)
  {
    var t := text[1..];
    assert t[p..q] == text[p + 1..q + 1];
    forall i | 0 < i < p + 1 ensures IsJsWhitespace(text[i]) {
      assert text[i] == t[i - 1];
    }
    forall i | q + 1 <= i < |text| ensures IsJsWhitespace(text[i]) {
      assert text[i] == t[i - 1];
    }
  }

  /** Dropping a trailing white-space character keeps the slice where it is. */
  lemma TrimmedAtTrailing(text: string, r: string, p: nat, q: nat)
    requires text != [] && IsJsWhitespace(text[|text| - 1])
    requires TrimmedAt(text[..|text| - 1], r, p, q)
    ensures TrimmedAt(text, r, p, q)
  {
    var t := text[..|text| - 1];
    assert t[p..q] == text[p..q];
    forall i | 0 <= i < p ensures IsJsWhitespace(text[i]) {
      assert text[i] == t[i];
    }
    forall i | q <= i < |text| - 1 ensures IsJsWhitespace(text[i]) {
      assert text[i] == t[i];
    }
  }

  /** Trimming keeps one contiguous slice of the text and removes only white space around it. */
  lemma {:induction false} TrimKeepsMiddle(text: string)
    ensures exists p: nat, q: nat :: TrimmedAt(text, Trim(text), p, q)
    decreases |text|
  {
    if text == [] {
      assert TrimmedAt(text, Trim(text), 0, 0);
    } else if IsJsWhitespace(text[0]) {
      TrimKeepsMiddle(text[1..]);
      var p: nat, q: nat :| TrimmedAt(text[1..], Trim(text[1..]), p, q);
      TrimmedAtLeading(text, Trim(text[1..]), p, q);
      assert TrimmedAt(text, Trim(text), p + 1, q + 1);
    } else if IsJsWhitespace(text[|text| - 1]) {
      TrimKeepsMiddle(text[..|text| - 1]);
      var p: nat, q: nat :| TrimmedAt(text[..|text| - 1], Trim(text[..|text| - 1]), p, q);
      TrimmedAtTrailing(text, Trim(text[..|text| - 1]), p, q);
      assert TrimmedAt(text, Trim(text), p, q);
    } else {
      assert text[0..|text|] == text;
      assert TrimmedAt(text, Trim(text), 0, |text|);
    }
  }

  /** `[A-Z0-9]` under the `i` flag: an ASCII letter of either case or a digit. */
  predicate IsAlnum(c: char) {
    ('A' <= c <= 'Z') || ('a' <= c <= 'z') || ('0' <= c <= '9')
  }

  /** `[\s-]`: a white-space character or a hyphen. */
  predicate IsSeparator(c: char) {
    IsJsWhitespace(c) || c == '-'
  }

  predicate AllAlnum(s: string) {
    forall i :: 0 <= i < |s| ==> IsAlnum(s[i])
  }

  predicate AlnumRun(s: string) {
    2 <= |s| <= 4 && AllAlnum(s)
  }

  /** A first run of exactly k characters, then an optional separator and a second run. */
  predicate SplitsAt(s: string, k: nat) {
    k <= |s| && AlnumRun(s[..k]) &&
    (AlnumRun(s[k..]) || (k < |s| && IsSeparator(s[k]) && AlnumRun(s[k + 1..])))
  }

  /** `/^[A-Z0-9]{2,4}[\s-]?[A-Z0-9]{2,4}$/i`: the first run takes 2, 3 or 4 characters. */
  predicate MatchesPlateFormat(s: string) {
    SplitsAt(s, 2) || SplitsAt(s, 3) || SplitsAt(s, 4)
  }

  /**
   * The format, described without the split: 4 to 8 alphanumerics, or two
   * runs of 2 to 4 alphanumerics around one separator.
   */
  lemma MatchesPlateFormatIff(s: string)
    ensures MatchesPlateFormat(s) <==>
      (4 <= |s| <= 8 && AllAlnum(s)) ||
      (exists k :: 2 <= k <= 4 && k < |s| && IsSeparator(s[k]) && AlnumRun(s[..k]) && AlnumRun(s[k + 1..]))
  {
    if 4 <= |s| <= 8 && AllAlnum(s) {
      var k := if |s| <= 6 then 2 else |s| - 4;
      assert AlnumRun(s[..k]) && AlnumRun(s[k..]);
      assert SplitsAt(s, k);
    }
    if MatchesPlateFormat(s) {
      var k :| 2 <= k <= 4 && SplitsAt(s, k);
      if AlnumRun(s[k..]) {
        var p, q := s[..k], s[k..];
        assert SplitsAt(s, k) && AlnumRun(p) && AlnumRun(q);
        forall i | 0 <= i < |s| ensures IsAlnum(s[i]) {
          if i < k { assert s[i] == p[i]; } else { assert s[i] == q[i - k]; }
        }
      }
    }
  }

  /** A separator is never alphanumeric, so a format match never holds one at its ends. */
  lemma MatchedTextIsBoundedByAlnum(s: string)
    requires MatchesPlateFormat(s)
    ensures 4 <= |s| <= 9 && IsAlnum(s[0]) && IsAlnum(s[|s| - 1])
  {
    var k :| 2 <= k <= 4 && SplitsAt(s, k);
    assert SplitsAt(s, k) && AlnumRun(s[..k]);
    assert s[0] == s[..k][0];
    if AlnumRun(s[k..]) {
      assert s[|s| - 1] == s[k..][|s| - k - 1];
    } else {
      assert k < |s| && AlnumRun(s[k + 1..]);
      assert s[|s| - 1] == s[k + 1..][|s| - k - 2];
    }
  }

  /** `Math.min(...confidence) >= 0.5`; the minimum of no values is +Infinity, so an empty list passes. */
  predicate MinConfidenceAtLeast(confidence: seq<real>, bound: real) {
    forall i :: 0 <= i < |confidence| ==> confidence[i] >= bound
  }

  /** The four criteria in the order the source lists them. */
  function Criteria(plateText: PlateReading, confidenceMean: real): seq<Criterion> {
    var text := plateText.text;
    [Criterion(4 <= |text| <= 10, 0.2, LengthInadequate),
     Criterion(confidenceMean >= 0.7, 0.3, LowOverallConfidence),
     Criterion(MinConfidenceAtLeast(plateText.confidence, 0.5), 0.25, VeryLowCharacterConfidence),
     Criterion(MatchesPlateFormat(Trim(text)), 0.25, InconsistentFormat)]
  }

  /** Sum of the weights of the satisfied criteria. */
  function ScoreOf(criteria: seq<Criterion>): real {
    if criteria == [] then 0.0
    else
      var last := criteria[|criteria| - 1];
      ScoreOf(criteria[..|criteria| - 1]) + (if last.check then last.weight else 0.0)
  }

  /** Reasons of the failed criteria, in order. */
  function FailedReasons(criteria: seq<Criterion>): seq<Reason> {
    if criteria == [] then []
    else
      var last := criteria[|criteria| - 1];
      FailedReasons(criteria[..|criteria| - 1]) + (if last.check then [] else [last.reason])
  }

  /** `evaluatePlateQuality`: a forEach over the criteria that adds the weight or records the reason. */
  method EvaluatePlateQuality(plateText: PlateReading, confidenceMean: real) returns (report: QualityReport)
    ensures var criteria := Criteria(plateText, confidenceMean);
      report == QualityReport(ScoreOf(criteria), ScoreOf(criteria) >= ValidScore, FailedReasons(criteria))
  {
    var criteria := Criteria(plateText, confidenceMean);
    var score := 0.0;
    var failedReasons: seq<Reason> := [];
    for i := 0 to |criteria|
      invariant score == ScoreOf(criteria[..i])
      invariant failedReasons == FailedReasons(criteria[..i])
    {
      var criterion := criteria[i];
      assert criteria[..i + 1][..i] == criteria[..i];
      if criterion.check {
        score := score + criterion.weight;
      } else {
        failedReasons := failedReasons + [criterion.reason];
      }
    }
    assert criteria[..|criteria|] == criteria;
    return QualityReport(score, score >= ValidScore, failedReasons);
  }

  /**
   * The score written out: 0.2 for a length in [4, 10], 0.3 for a mean of at
   * least 0.7, 0.25 when no character is below 0.5, 0.25 for the format;
   * the reasons are the failed criteria in that order.
   */
  lemma QualityScoreExplicit(plateText: PlateReading, confidenceMean: real)
    ensures var text, criteria := plateText.text, Criteria(plateText, confidenceMean);
      ScoreOf(criteria) ==
        (if 4 <= |text| <= 10 then 0.2 else 0.0) +
        (if confidenceMean >= 0.7 then 0.3 else 0.0) +
        (if MinConfidenceAtLeast(plateText.confidence, 0.5) then 0.25 else 0.0) +
        (if MatchesPlateFormat(Trim(text)) then 0.25 else 0.0) &&
      FailedReasons(criteria) ==
        (if 4 <= |text| <= 10 then [] else [LengthInadequate]) +
        (if confidenceMean >= 0.7 then [] else [LowOverallConfidence]) +
        (if MinConfidenceAtLeast(plateText.confidence, 0.5) then [] else [VeryLowCharacterConfidence]) +
        (if MatchesPlateFormat(Trim(text)) then [] else [InconsistentFormat])
  {
    ScoreOfFour(Criteria(plateText, confidenceMean));
  }

  function Gained(c: Criterion): real {
    if c.check then c.weight else 0.0
  }

  function Lost(c: Criterion): seq<Reason> {
    if c.check then [] else [c.reason]
  }

  /** Extending the processed prefix by one criterion adds its weight or its reason. */
  lemma PrefixStep(c: seq<Criterion>, i: nat)
    requires i < |c|
    ensures ScoreOf(c[..i + 1]) == ScoreOf(c[..i]) + Gained(c[i])
    ensures FailedReasons(c[..i + 1]) == FailedReasons(c[..i]) + Lost(c[i])
  {
    assert c[..i + 1][..i] == c[..i];
  }

  /** Score and reasons of a four-criterion list, criterion by criterion. */
  lemma ScoreOfFour(c: seq<Criterion>)
    requires |c| == 4
    ensures ScoreOf(c) == Gained(c[0]) + Gained(c[1]) + Gained(c[2]) + Gained(c[3])
    ensures FailedReasons(c) == Lost(c[0]) + Lost(c[1]) + Lost(c[2]) + Lost(c[3])
  {
    PrefixStep(c, 0);
    PrefixStep(c, 1);
    PrefixStep(c, 2);
    PrefixStep(c, 3);
    assert c[..0] == [] && c[..4] == c;
  }
}
