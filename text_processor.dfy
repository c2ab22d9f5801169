/**
 * Decoding of the plate recognizer's output (src/worker/ocr/textProcessor.js):
 * a flat probability buffer is cut into one row per character slot, each row
 * is decoded by arg-max, the indices are mapped through the alphabet and a
 * trailing run of the pad character is removed.
 */
module TextProcessor {
  import opened Wrappers
  import opened Layout

  /** Pad character used when the configuration gives none (`config.pad_char || '-'`). */
  const DefaultPadChar: char := '-'

  /** The recognizer configuration: slots per plate, the alphabet, and the optional pad character. */
  datatype OcrConfig = OcrConfig(maxPlateSlots: nat, alphabet: string, padChar: Option<char>)

  /** The error `reshapeOutput` throws: expected and received buffer lengths. */
  datatype SizeError = SizeMismatch(expected: nat, received: nat)

  /** Decoded text with one confidence per slot (`{text, confidence}`). */
  datatype PlateReading = PlateReading(text: string, confidence: seq<real>)

  /** `postprocessOutput` returns the bare text, or the text with confidences when asked to. */
  datatype OcrOutput = TextOnly(text: string) | WithConfidence(reading: PlateReading)

  function EffectivePadChar(config: OcrConfig): char {
    match config.padChar
    case Some(c) => c
    case None => DefaultPadChar
  }

  /** Row i of the reshaped buffer: the `alphabetLength` values starting at i * alphabetLength. */
  function Rows(output: seq<real>, slots: nat, alphabetLength: nat): (rows: seq<seq<real>>)
    requires |output| == slots * alphabetLength
    ensures |rows| == slots
    ensures forall i :: 0 <= i < slots ==> |rows[i]| == alphabetLength
    ensures forall i :: 0 <= i < slots ==>
      i * alphabetLength + alphabetLength <= |output| &&
      rows[i] == output[i * alphabetLength .. i * alphabetLength + alphabetLength]
  {
    RowsUpTo(output, slots, alphabetLength, slots)
  }

  /** The first n rows of the buffer. */
  function RowsUpTo(output: seq<real>, slots: nat, alphabetLength: nat, n: nat): (rows: seq<seq<real>>)
    requires |output| == slots * alphabetLength && n <= slots
    ensures |rows| == n
    ensures forall i :: 0 <= i < n ==>
      i * alphabetLength + alphabetLength <= |output| &&
      rows[i] == output[i * alphabetLength .. i * alphabetLength + alphabetLength]
  {
    if n == 0 then []
    else
      RowFits(n - 1, slots, alphabetLength);
      RowsUpTo(output, slots, alphabetLength, n - 1) +
        [output[(n - 1) * alphabetLength .. (n - 1) * alphabetLength + alphabetLength]]
  }

  /** `reshapeOutput`: throws on a length mismatch, otherwise slices the buffer into rows. */
  method ReshapeOutput(output: seq<real>, slots: nat, alphabetLength: nat)
    returns (r: Result<seq<seq<real>>, SizeError>)
    ensures r.Failure? <==> |output| != slots * alphabetLength
    ensures r.Failure? ==> r.error == SizeMismatch(slots * alphabetLength, |output|)
    ensures r.Success? ==> r.value == Rows(output, slots, alphabetLength)
  {
    var totalElements := slots * alphabetLength;
    if |output| != totalElements {
      return Failure(SizeMismatch(totalElements, |output|));
    }
    var reshaped: seq<seq<real>> := [];
    var i := 0;
    while i < slots
      invariant 0 <= i <= slots
      invariant |reshaped| == i
      invariant forall k :: 0 <= k < i ==> reshaped[k] == Rows(output, slots, alphabetLength)[k]
    {
      RowFits(i, slots, alphabetLength);
      var start := i * alphabetLength;
      var end := start + alphabetLength;
      reshaped := reshaped + [output[start..end]];
      i := i + 1;
    }
    return Success(reshaped);
  }

  /** Index kept by the scan of `row[0..n)` that replaces the best only on a strictly greater value. */
  function ArgMaxPrefix(row: seq<real>, n: nat): (k: nat)
    requires 1 <= n <= |row|
    ensures k < n
  {
    if n == 1 then 0
    else
      var k := ArgMaxPrefix(row, n - 1);
      if row[n - 1] > row[k] then n - 1 else k
  }

  function ArgMax(row: seq<real>): nat
    requires |row| > 0
  {
    ArgMaxPrefix(row, |row|)
  }

  /** The value at the arg-max, i.e. the row maximum. */
  function RowMax(row: seq<real>): real
    requires |row| > 0
  {
    row[ArgMax(row)]
  }

  /** `k` holds the maximum of `row[0..n)` and no earlier index does. */
  predicate IsFirstMaxOf(row: seq<real>, n: nat, k: nat)
    requires n <= |row|
  {
    k < n && (forall j :: 0 <= j < n ==> row[j] <= row[k]) && (forall j :: 0 <= j < k ==> row[j] < row[k])
  }

  lemma {:induction false} ArgMaxPrefixIsFirstMax(row: seq<real>, n: nat)
    requires 1 <= n <= |row|
    ensures IsFirstMaxOf(row, n, ArgMaxPrefix(row, n))
  {
    if n > 1 {
      ArgMaxPrefixIsFirstMax(row, n - 1);
    }
  }

  /** The arg-max is the first index holding the row maximum. */
  lemma ArgMaxIsFirstMax(row: seq<real>)
    requires |row| > 0
    ensures IsFirstMaxOf(row, |row|, ArgMax(row))
    ensures forall j :: 0 <= j < |row| ==> row[j] <= RowMax(row)
  {
    ArgMaxPrefixIsFirstMax(row, |row|);
  }

  /** The rows `getMaxIndices` and `getMaxValues` accept: as many as slots, each as long as the alphabet. */
  predicate WellShaped(predictions: seq<seq<real>>, slots: nat, alphabetLength: nat) {
    |predictions| == slots && forall i :: 0 <= i < slots ==> |predictions[i]| == alphabetLength
  }

  /** `getMaxIndices`: the arg-max of every row. */
  method GetMaxIndices(predictions: seq<seq<real>>, slots: nat, alphabetLength: nat) returns (indices: seq<nat>)
    requires alphabetLength >= 1 && WellShaped(predictions, slots, alphabetLength)
    ensures |indices| == slots
    ensures forall i :: 0 <= i < slots ==> indices[i] == ArgMax(predictions[i])
  {
    indices := [];
    var i := 0;
    while i < slots
      invariant 0 <= i <= slots
      invariant |indices| == i
      invariant forall k :: 0 <= k < i ==> indices[k] == ArgMax(predictions[k])
    {
      var slotPredictions := predictions[i];
      var maxIndex := 0;
      var maxValue := slotPredictions[0];
      var j := 1;
      while j < alphabetLength
        invariant 1 <= j <= alphabetLength
        invariant maxIndex == ArgMaxPrefix(slotPredictions, j)
        invariant maxValue == slotPredictions[maxIndex]
      {
        if slotPredictions[j] > maxValue {
          maxValue := slotPredictions[j];
          maxIndex := j;
        }
        j := j + 1;
      }
      indices := indices + [maxIndex];
      i := i + 1;
    }
  }

  /** `getMaxValues`: the maximum of every row. */
  method GetMaxValues(predictions: seq<seq<real>>, slots: nat, alphabetLength: nat) returns (values: seq<real>)
    requires alphabetLength >= 1 && WellShaped(predictions, slots, alphabetLength)
    ensures |values| == slots
    ensures forall i :: 0 <= i < slots ==> values[i] == RowMax(predictions[i])
  {
    values := [];
    var i := 0;
    while i < slots
      invariant 0 <= i <= slots
      invariant |values| == i
      invariant forall k :: 0 <= k < i ==> values[k] == RowMax(predictions[k])
    {
      var slotPredictions := predictions[i];
      var maxValue := slotPredictions[0];
      var j := 1;
      while j < alphabetLength
        invariant 1 <= j <= alphabetLength
        invariant maxValue == slotPredictions[ArgMaxPrefix(slotPredictions, j)]
      {
        if slotPredictions[j] > maxValue {
          maxValue := slotPredictions[j];
        }
        j := j + 1;
      }
      values := values + [maxValue];
      i := i + 1;
    }
  }

  /** `indices.map(index => alphabet[index])`, joined into a string. */
  function MapIndicesToChars(indices: seq<nat>, alphabet: string): (chars: string)
    requires forall i :: 0 <= i < |indices| ==> indices[i] < |alphabet|
    ensures |chars| == |indices|
    ensures forall i :: 0 <= i < |indices| ==> chars[i] == alphabet[indices[i]]
  {
    if indices == [] then [] else [alphabet[indices[0]]] + MapIndicesToChars(indices[1..], alphabet)
  }

  /** `cleanPlateText`: replace the match of `pad+$` (the maximal trailing run of `padChar`) by nothing. */
  function CleanPlateText(plateText: string, padChar: char): (r: string)
    ensures |r| <= |plateText| && r == plateText[..|r|]
    ensures forall k :: |r| <= k < |plateText| ==> plateText[k] == padChar
    ensures r == [] || r[|r| - 1] != padChar
  {
    if |plateText| > 0 && plateText[|plateText| - 1] == padChar then
      CleanPlateText(plateText[..|plateText| - 1], padChar)
    else plateText
  }

  /** Cleaning an already cleaned text changes nothing. */
  lemma CleanPlateTextIdempotent(plateText: string, padChar: char)
    ensures CleanPlateText(CleanPlateText(plateText, padChar), padChar) == CleanPlateText(plateText, padChar)
  {
  }

  /** Text that does not end with the pad character is left as it is, interior pads included. */
  lemma CleanPlateTextKeepsUnpadded(plateText: string, padChar: char)
    requires plateText == [] || plateText[|plateText| - 1] != padChar
    ensures CleanPlateText(plateText, padChar) == plateText
  {
  }

  /** The per-slot arg-max indices of the reshaped buffer. */
  function SlotIndices(rows: seq<seq<real>>, alphabetLength: nat): (indices: seq<nat>)
    requires alphabetLength >= 1 && forall i :: 0 <= i < |rows| ==> |rows[i]| == alphabetLength
    ensures |indices| == |rows|
    ensures forall i :: 0 <= i < |rows| ==> indices[i] == ArgMax(rows[i]) && indices[i] < alphabetLength
  {
    seq(|rows|, i requires 0 <= i < |rows| => ArgMax(rows[i]))
  }

  function SlotMaxima(rows: seq<seq<real>>): (values: seq<real>)
    requires forall i :: 0 <= i < |rows| ==> |rows[i]| > 0
    ensures |values| == |rows|
    ensures forall i :: 0 <= i < |rows| ==> values[i] == RowMax(rows[i])
  {
    seq(|rows|, i requires 0 <= i < |rows| => RowMax(rows[i]))
  }

  /** The buffer length `reshapeOutput` accepts for this configuration. */
  predicate SizeMatches(output: seq<real>, config: OcrConfig) {
    |output| == config.maxPlateSlots * |config.alphabet|
  }

  /** The reshaped buffer, one row per slot. */
  function SlotRows(output: seq<real>, config: OcrConfig): (rows: seq<seq<real>>)
    requires SizeMatches(output, config)
    ensures WellShaped(rows, config.maxPlateSlots, |config.alphabet|)
  {
    Rows(output, config.maxPlateSlots, |config.alphabet|)
  }

  /** The joined characters before cleaning: one alphabet entry per slot. */
  function PlateChars(output: seq<real>, config: OcrConfig): (chars: string)
    requires |config.alphabet| >= 1 && SizeMatches(output, config)
    ensures |chars| == config.maxPlateSlots
    ensures forall i :: 0 <= i < |chars| ==> chars[i] in config.alphabet
  {
    var rows := SlotRows(output, config);
    MapIndicesToChars(SlotIndices(rows, |config.alphabet|), config.alphabet)
  }

  /** What `postprocessOutput` returns, or the size error it throws. */
  function Decode(output: seq<real>, config: OcrConfig, returnConfidence: bool): Result<OcrOutput, SizeError>
    requires |config.alphabet| >= 1
  {
    if !SizeMatches(output, config) then
      Failure(SizeMismatch(config.maxPlateSlots * |config.alphabet|, |output|))
    else
      var cleaned := CleanPlateText(PlateChars(output, config), EffectivePadChar(config));
      if returnConfidence then Success(WithConfidence(PlateReading(cleaned, SlotMaxima(SlotRows(output, config)))))
      else Success(TextOnly(cleaned))
  }

  function DecodedText(o: OcrOutput): string {
    match o
    case TextOnly(t) => t
    case WithConfidence(reading) => reading.text
  }

  /** A buffer of the wrong length is rejected, with both lengths, before anything is decoded. */
  lemma DecodeRejectsWrongSize(output: seq<real>, config: OcrConfig, returnConfidence: bool)
    requires |config.alphabet| >= 1
    ensures Decode(output, config, returnConfidence).Failure? <==> !SizeMatches(output, config)
    ensures Decode(output, config, returnConfidence).Failure? ==>
      Decode(output, config, returnConfidence).error == SizeMismatch(config.maxPlateSlots * |config.alphabet|, |output|)
  {
  }

  /** Character i of the joined text is the alphabet entry at the first maximum of row i. */
  lemma PlateCharsAreFirstMaxima(output: seq<real>, config: OcrConfig)
    requires |config.alphabet| >= 1 && SizeMatches(output, config)
    ensures var rows, chars := SlotRows(output, config), PlateChars(output, config);
      forall i :: 0 <= i < config.maxPlateSlots ==>
        IsFirstMaxOf(rows[i], |config.alphabet|, ArgMax(rows[i])) && chars[i] == config.alphabet[ArgMax(rows[i])]
  {
    var rows := SlotRows(output, config);
    forall i | 0 <= i < config.maxPlateSlots
      ensures IsFirstMaxOf(rows[i], |config.alphabet|, ArgMax(rows[i]))
    {
      ArgMaxIsFirstMax(rows[i]);
    }
  }

  /**
   * A decoded text is the joined slot characters with only a trailing run of
   * the pad character removed: at most one character per slot, each from the
   * alphabet, and it never ends with the pad character.
   */
  lemma DecodedTextProperties(output: seq<real>, config: OcrConfig, returnConfidence: bool)
    requires |config.alphabet| >= 1 && SizeMatches(output, config)
    ensures Decode(output, config, returnConfidence).Success?
    ensures var text, chars := DecodedText(Decode(output, config, returnConfidence).value), PlateChars(output, config);
      |text| <= config.maxPlateSlots &&
      text == chars[..|text|] &&
      (forall i :: 0 <= i < |text| ==> text[i] in config.alphabet) &&
      (forall i :: |text| <= i < |chars| ==> chars[i] == EffectivePadChar(config)) &&
      (text == [] || text[|text| - 1] != EffectivePadChar(config))
  {
    var chars := PlateChars(output, config);
    var text := DecodedText(Decode(output, config, returnConfidence).value);
    assert text == CleanPlateText(chars, EffectivePadChar(config));
    forall i | 0 <= i < |text| ensures text[i] in config.alphabet {
      assert text[i] == chars[i];
    }
  }

  /**
   * With confidences requested, there is one per slot, including the slots of
   * the removed pad run, and each is the maximum of its row.
   */
  lemma DecodedConfidenceProperties(output: seq<real>, config: OcrConfig)
    requires |config.alphabet| >= 1 && SizeMatches(output, config)
    ensures Decode(output, config, true).Success? && Decode(output, config, true).value.WithConfidence?
    ensures var confidence, rows := Decode(output, config, true).value.reading.confidence, SlotRows(output, config);
      |confidence| == config.maxPlateSlots &&
      forall i :: 0 <= i < config.maxPlateSlots ==>
        confidence[i] == rows[i][ArgMax(rows[i])] &&
        forall j :: 0 <= j < |config.alphabet| ==> rows[i][j] <= confidence[i]
  {
    var rows := SlotRows(output, config);
    var cleaned := CleanPlateText(PlateChars(output, config), EffectivePadChar(config));
    assert Decode(output, config, true) == Success(WithConfidence(PlateReading(cleaned, SlotMaxima(rows))));
    SlotMaximaBound(rows);
  }

  /** Every per-slot maximum bounds its whole row. */
  lemma SlotMaximaBound(rows: seq<seq<real>>)
    requires forall i :: 0 <= i < |rows| ==> |rows[i]| > 0
    ensures forall i, j :: 0 <= i < |rows| && 0 <= j < |rows[i]| ==> rows[i][j] <= SlotMaxima(rows)[i]
  {
    forall i | 0 <= i < |rows| ensures forall j :: 0 <= j < |rows[i]| ==> rows[i][j] <= RowMax(rows[i]) {
      ArgMaxIsFirstMax(rows[i]);
    }
  }

  /**
   * `postprocessOutput`: reshape (throwing on a size mismatch), decode each
   * slot by arg-max, map through the alphabet, clean, and add the per-slot
   * maxima when confidences are requested.
   */
  method PostprocessOutput(modelOutput: seq<real>, config: OcrConfig, returnConfidence: bool)
    returns (r: Result<OcrOutput, SizeError>)
    requires |config.alphabet| >= 1
    ensures r == Decode(modelOutput, config, returnConfidence)
  {
    var maxPlateSlots := config.maxPlateSlots;
    var alphabetLength := |config.alphabet|;
    var padChar := EffectivePadChar(config);
    var reshaped := ReshapeOutput(modelOutput, maxPlateSlots, alphabetLength);
    if reshaped.Failure? {
      return Failure(reshaped.error);
    }
    var predictions := reshaped.value;
    var predictionIndices := GetMaxIndices(predictions, maxPlateSlots, alphabetLength);
    assert predictionIndices == SlotIndices(predictions, alphabetLength);
    assert MapIndicesToChars(predictionIndices, config.alphabet) == PlateChars(modelOutput, config);
    var plateText := MapIndicesToChars(predictionIndices, config.alphabet);
    var cleanedPlateText := CleanPlateText(plateText, padChar);
    if returnConfidence {
      var confidenceValues := GetMaxValues(predictions, maxPlateSlots, alphabetLength);
      assert confidenceValues == SlotMaxima(predictions);
      return Success(WithConfidence(PlateReading(cleanedPlateText, confidenceValues)));
    }
    return Success(TextOnly(cleanedPlateText));
  }
}
