# alpr_web pipeline core in Dafny

This project models the logic that sits between the two neural networks and
the user interface of the alpr_web browser licence-plate reader, and proves
properties of that model.

- **BoundingBox** (`bounding_box.dfy`): rectangle intersection, union and
  IoU, and the greedy non-maximum suppression loop. A box is suppressed by
  the current keeper when the two share a label and their IoU is at least
  0.7.
- **DetectionProcessor** (`detection_processor.dfy`): parsing of the
  detector's flat strided buffer into raw detections, and the
  post-processing chain:
  - keep raw detections with confidence above 0.6;
  - rescale from the 384-pixel model space and clamp into the image;
  - recompute the area and drop degenerate boxes and boxes of area 25 or less;
  - sort stably by descending confidence;
  - apply NMS.
- **TextProcessor** (`text_processor.dfy`): decoding of the plate
  recognizer's output:
  - a length-checked reshape of the flat buffer into one row per character slot;
  - a per-row arg-max (first maximum) and maximum;
  - mapping through the alphabet;
  - removal of a trailing run of the pad character.
- **Validation** (`validation.dfy`):
  - Levenshtein distance filled row by row into a two-dimensional array;
  - the normalised text similarity, with `0/0` modelled as `NotANumber`;
  - the weighted four-criterion quality evaluation.
- **PlateStorage** (`plate_storage.dfy`): the detection aggregator, a class
  `PlateStore` holding:
  - the detection history;
  - the plate groups;
  - the per-text camera-mode consecutive counters;
  - the selected plate index;
  - the statistics.

  Detection records are objects (`PlateRecord`), because the history, the
  groups and the counters share them and `getBestPlateDetections` writes
  onto them. The JavaScript object `plateGroups` is a sequence of groups in
  key order:
  - assigning to an existing key keeps its place;
  - assigning to a new key appends it;
  - `delete` removes it.

  So a promoted group moves to the end, as in the source. When a promoted
  text is already the key of another group, the assignment overwrites that
  group, and the model does the same.

  The store invariant `PlateStore.Valid` has five parts:
  - keys are unique;
  - in every group, the total equals the number of variants and the sum of the per-text counts;
  - every per-text count is the number of variants carrying that text;
  - the key is a most frequent text, and groups under different keys share no record;
  - every consecutive counter counts exactly its own records, and the unique-plate count equals the number of groups.

Shared definitions: `wrappers.dfy` (Option/Result) and `layout.dfy` (the
row-offset arithmetic of strided buffers).

Clock, identifiers and I/O become parameters:
- `now` is the millisecond clock, and one value stands for both clock reads of a detection;
- `id` is the generated record id;
- the cropped image is an opaque `ImageRef`;
- `appState.currentMode` is a `Mode` parameter.

Reals stand for JavaScript numbers. For the quality score, the doubles
the source adds up (0.2, 0.3, 0.25 and 0.25, in that order) land on the
same side of 0.7 as the exact sums, for every subset of criteria.

## Model

| member | source | states |
|---|---|---|
| BoundingBox.BoxWithArea | src/worker/detector/detectionProcessor.js:65-73 | the box object keeps the given corners, label and confidence, and its `area` is `(x2-x1)*(y2-y1)` of those corners |
| BoundingBox.Intersection | src/worker/detector/boundingBoxUtils.js:60-70 | the overlap area is never negative, is 0 when the boxes do not overlap on some axis, and is positive when they overlap on both |
| BoundingBox.Iou | src/worker/detector/boundingBoxUtils.js:34-39 | a zero union gives IoU 0 |
| BoundingBox.IntersectionSymmetric | src/worker/detector/boundingBoxUtils.js:60-70 | intersection does not depend on argument order |
| BoundingBox.UnionSymmetric | src/worker/detector/boundingBoxUtils.js:49-51 | union does not depend on argument order |
| BoundingBox.IouSymmetric | src/worker/detector/boundingBoxUtils.js:34-39 | IoU does not depend on argument order |
| BoundingBox.IntersectionAtMostArea | src/worker/detector/boundingBoxUtils.js:60-70 | for boxes whose area matches their corners, a positive overlap is at most either box's area |
| BoundingBox.IouInUnitInterval | src/worker/detector/boundingBoxUtils.js:34-39 | for boxes whose area matches their corners, IoU lies in [0, 1] |
| BoundingBox.IouWithItself | src/worker/detector/boundingBoxUtils.js:34-39 | a box with positive width and height has IoU exactly 1 with itself |
| BoundingBox.WellFormedIsSelfSuppressing | src/worker/detector/boundingBoxUtils.js:20 | a box with positive width and height is filtered out by its own round, which is why the loop shrinks |
| BoundingBox.SuppressesSymmetric | src/worker/detector/boundingBoxUtils.js:20 | the suppression test is symmetric |
| BoundingBox.DifferentLabelsNeverSuppress | src/worker/detector/boundingBoxUtils.js:20 | boxes with different labels never suppress each other |
| BoundingBox.Survivors | src/worker/detector/boundingBoxUtils.js:20 | the filter keeps exactly the boxes that the keeper does not suppress, and never grows the list |
| BoundingBox.SurvivorsSubsequence | src/worker/detector/boundingBoxUtils.js:20 | the filter keeps input order |
| BoundingBox.SurvivorsKeepAll | src/worker/detector/boundingBoxUtils.js:20 | a filter that suppresses nothing returns its input |
| BoundingBox.SurvivorsOfHead | src/worker/detector/boundingBoxUtils.js:18-20 | when every box suppresses itself, each round removes the keeper, strictly shrinks the list and keeps the boxes self-suppressing |
| BoundingBox.NmsIsSubsequence | src/worker/detector/boundingBoxUtils.js:16-24 | the NMS result is a subsequence of the input, in input order, and begins with the input's first box |
| BoundingBox.NmsNoRedundantPair | src/worker/detector/boundingBoxUtils.js:18-21 | no two kept boxes share a label and have IoU at least 0.7 |
| BoundingBox.NmsDropsOnlySuppressed | src/worker/detector/boundingBoxUtils.js:16-24 | every input box is kept or is suppressed by some kept box |
| BoundingBox.NmsIdentity | src/worker/detector/boundingBoxUtils.js:16-24 | a list in which no box suppresses a later one is returned unchanged |
| BoundingBox.NmsIdempotent | src/worker/detector/boundingBoxUtils.js:16-24 | NMS applied to its own output returns that output |
| BoundingBox.NmsKeepsDistinctLabels | src/worker/detector/boundingBoxUtils.js:16-24 | boxes with pairwise different labels all survive |
| BoundingBox.NonMaxSuppression | src/worker/detector/boundingBoxUtils.js:16-24 | the while loop (push the head, filter the rest) returns the NMS result described by the lemmas above |
| DetectionProcessor.JsRound | src/worker/detector/detectionProcessor.js:123 | `Math.round`: the nearest integer, with halves rounded up |
| DetectionProcessor.ClassLabel | src/worker/detector/detectionProcessor.js:123-131 | the label is the class name at the rounded id exactly when that id is in range, and undefined otherwise |
| DetectionProcessor.ParseOutput | src/worker/detector/detectionProcessor.js:111-144 | one detection per row; row i takes its class from offset 0, its corners from offsets 1-4 and its confidence from offset 6 of index i*stride |
| DetectionProcessor.ProcessModelOutput | src/worker/detector/detectionProcessor.js:111-144 | the indexed loop that pushes one result per row builds exactly that parse |
| DetectionProcessor.ConfidentResults | src/worker/detector/detectionProcessor.js:42-46 | exactly the raw detections with confidence strictly above 0.6 survive |
| DetectionProcessor.Clamp | src/worker/detector/detectionProcessor.js:60-63 | the clamped value lies in [0, limit] and values already inside are unchanged |
| DetectionProcessor.ScaledCoordinate | src/worker/detector/detectionProcessor.js:51-63 | a coordinate scaled by imageDim/384 and clamped lies inside the image |
| DetectionProcessor.ToImageSpace | src/worker/detector/detectionProcessor.js:47-74 | the mapped box lies inside the image, its area is computed from the clamped corners, and it keeps the label and confidence of its row |
| DetectionProcessor.ScaledBoxes | src/worker/detector/detectionProcessor.js:47-74 | the `.map` maps each detection, position by position |
| DetectionProcessor.LargeBoxes | src/worker/detector/detectionProcessor.js:76 | exactly the boxes with x2 > x1, y2 > y1 and area > 25 survive |
| DetectionProcessor.InsertByConfidence | src/worker/detector/detectionProcessor.js:78 | insertion adds exactly the one box |
| DetectionProcessor.InsertKeepsSorted | src/worker/detector/detectionProcessor.js:78 | insertion keeps the descending confidence order |
| DetectionProcessor.SortByConfidence | src/worker/detector/detectionProcessor.js:78 | the sort returns a permutation of its input in descending confidence |
| DetectionProcessor.CandidateProvenance | src/worker/detector/detectionProcessor.js:45-78 | the boxes handed to NMS are no more than the raw rows and sorted by confidence; each has positive width, height and area above 25, lies inside the image, and is the image-space box of a raw row with confidence above 0.6 |
| DetectionProcessor.CandidatesSelfSuppressing | src/worker/detector/detectionProcessor.js:76-81 | the filtered boxes meet the NMS loop's termination condition |
| DetectionProcessor.SubsequenceStaysSorted | src/worker/detector/detectionProcessor.js:78-81 | NMS keeps the confidence order because its output is a subsequence |
| DetectionProcessor.PostProcessProperties | src/worker/detector/detectionProcessor.js:45-81 | the post-processed boxes are no more than the raw rows, sorted by confidence, inside the image, each from a confident raw row with its label and confidence, and free of redundant pairs |
| DetectionProcessor.ProcessOutputBoxes | src/worker/detector/detectionProcessor.js:36-98 | parse, then filter, scale, clamp, size filter, sort and NMS, as specified by the functions above |
| TextProcessor.Rows | src/worker/ocr/textProcessor.js:80-84 | row i is exactly the buffer's elements [i*A, (i+1)*A) |
| TextProcessor.ReshapeOutput | src/worker/ocr/textProcessor.js:70-87 | fails, with the expected and received lengths, exactly when the length is not slots*A; otherwise returns those rows |
| TextProcessor.ArgMaxPrefixIsFirstMax | src/worker/ocr/textProcessor.js:103-112 | the strict `>` scan keeps the first index that holds the maximum |
| TextProcessor.ArgMaxIsFirstMax | src/worker/ocr/textProcessor.js:101-116 | the arg-max of a row is its first maximum and bounds every entry |
| TextProcessor.GetMaxIndices | src/worker/ocr/textProcessor.js:98-118 | the nested loop returns, for every slot, the first index of that row's maximum |
| TextProcessor.GetMaxValues | src/worker/ocr/textProcessor.js:129-147 | the nested loop returns, for every slot, the row's maximum value |
| TextProcessor.MapIndicesToChars | src/worker/ocr/textProcessor.js:157-159 | character i is the alphabet entry at index i |
| TextProcessor.CleanPlateText | src/worker/ocr/textProcessor.js:169-174 | the result is a prefix of the input, the removed suffix consists only of the pad character, and the result does not end with it |
| TextProcessor.CleanPlateTextIdempotent | src/worker/ocr/textProcessor.js:173 | cleaning twice equals cleaning once |
| TextProcessor.CleanPlateTextKeepsUnpadded | src/worker/ocr/textProcessor.js:173 | text that does not end with the pad character is unchanged |
| TextProcessor.SlotIndices | src/worker/ocr/textProcessor.js:34 | one index per slot, the row's arg-max, inside the alphabet |
| TextProcessor.SlotMaxima | src/worker/ocr/textProcessor.js:50 | one value per slot, the row's maximum |
| TextProcessor.SlotRows | src/worker/ocr/textProcessor.js:30 | a correctly sized buffer reshapes into slots rows of alphabet length |
| TextProcessor.PlateChars | src/worker/ocr/textProcessor.js:34-42 | the joined text has one character per slot, each from the alphabet |
| TextProcessor.DecodeRejectsWrongSize | src/worker/ocr/textProcessor.js:72-77 | decoding fails exactly on a wrong-sized buffer, reporting both lengths |
| TextProcessor.PlateCharsAreFirstMaxima | src/worker/ocr/textProcessor.js:34-42 | character i is the alphabet entry at the first maximum of row i |
| TextProcessor.DecodedTextProperties | src/worker/ocr/textProcessor.js:38-57 | a correctly sized buffer decodes: the text is a prefix of the slot characters, has at most one character per slot, each from the alphabet; only pad characters were cut, and it does not end with the pad character (default `-`) |
| TextProcessor.DecodedConfidenceProperties | src/worker/ocr/textProcessor.js:47-54 | with confidences requested there is one per slot, even for cut pad slots, and each is the row's value at its arg-max and bounds the whole row |
| TextProcessor.SlotMaximaBound | src/worker/ocr/textProcessor.js:129-147 | each slot maximum bounds every entry of its row |
| TextProcessor.PostprocessOutput | src/worker/ocr/textProcessor.js:21-58 | returns the decoding above, or the size error that `reshapeOutput` throws |
| Validation.RemoveWhitespace | src/modules/validation.js:17 | `/\s+/g` removal: no white space remains, every other character is kept, and nothing is added |
| Validation.RemoveWhitespaceAppend | src/modules/validation.js:17 | the removal distributes over concatenation, so it keeps the non-white-space characters in their order and multiplicity |
| Validation.RemoveWhitespaceOfChar | src/modules/validation.js:17 | a single white-space character is dropped and any other character is kept |
| Validation.RemoveWhitespaceKeepsClean | src/modules/validation.js:17 | text without white space is unchanged |
| Validation.UpperChar | src/modules/validation.js:17 | a lower-case ASCII letter becomes its own upper-case letter (code point minus 32), and other characters stay |
| Validation.ToUpper | src/modules/validation.js:17 | upper-casing is character by character and keeps the length |
| Validation.Normalize | src/modules/validation.js:17-19 | normalised text holds no white space and no lower-case ASCII letter |
| Validation.ToUpperAppend | src/modules/validation.js:17 | upper-casing distributes over concatenation |
| Validation.NormalizeAppend | src/modules/validation.js:17-19 | normalisation distributes over concatenation |
| Validation.NormalizeOfChar | src/modules/validation.js:17-19 | a single character is dropped when it is white space and upper-cased otherwise; with `NormalizeAppend` this fixes the result as the upper-cased non-white-space characters of the input, in order |
| Validation.EditDistanceSymmetric | src/modules/validation.js:35-56 | the distance is symmetric |
| Validation.EditDistanceBounds | src/modules/validation.js:35-56 | the distance lies between the length difference and the longer length |
| Validation.EditDistanceZeroIffEqual | src/modules/validation.js:35-56 | the distance is 0 exactly for equal strings |
| Validation.EditDistanceToEmpty | src/modules/validation.js:40-41 | the first column and the first row of the table are i and j |
| Validation.LevenshteinDistance | src/modules/validation.js:35-56 | the table-filling loops return the edit distance |
| Validation.FillRow | src/modules/validation.js:45-52 | filling row i from a correct row i-1 makes every cell (i, c) the distance of the prefixes, with column 0 untouched |
| Validation.CellValue | src/modules/validation.js:46-51 | the minimum of delete+1, insert+1 and substitute+cost over correct neighbours is the prefix distance |
| Validation.CalculateTextSimilarity | src/modules/validation.js:12-27 | the method returns `TextSimilarity`: 1 for identical text, otherwise 1 - distance / longer normalised length |
| Validation.SimilarityOfIdentical | src/modules/validation.js:14 | identical strings, two empty ones included, score exactly 1 |
| Validation.SimilaritySymmetric | src/modules/validation.js:12-27 | similarity is symmetric |
| Validation.SimilarityInUnitInterval | src/modules/validation.js:22-26 | every numeric similarity lies in [0, 1] |
| Validation.SimilarityNaNIff | src/modules/validation.js:23-26 | the result is NaN exactly when two different strings both normalise to the empty string |
| Validation.SimilarityOneIff | src/modules/validation.js:14-26 | the score is 1 exactly when the strings are identical or normalise to the same non-empty text |
| Validation.Trim | src/modules/validation.js:90 | trimmed text neither starts nor ends with white space |
| Validation.TrimmedAtLeading | src/modules/validation.js:90 | dropping a leading white-space character shifts the kept slice by one |
| Validation.TrimmedAtTrailing | src/modules/validation.js:90 | dropping a trailing white-space character keeps the slice where it is |
| Validation.TrimKeepsMiddle | src/modules/validation.js:90 | the trimmed text is one contiguous slice `text[p..q]` of the input, and everything before and after it is white space |
| Validation.MatchesPlateFormatIff | src/modules/validation.js:90 | the format holds exactly for 4-8 alphanumerics, or two runs of 2-4 alphanumerics around one space or hyphen |
| Validation.MatchedTextIsBoundedByAlnum | src/modules/validation.js:90 | a matching text has 4-9 characters and starts and ends alphanumeric |
| Validation.EvaluatePlateQuality | src/modules/validation.js:63-113 | the forEach returns the sum of satisfied weights, the failed reasons in criterion order, and validity exactly when the score is at least 0.7 |
| Validation.QualityScoreExplicit | src/modules/validation.js:68-106 | the score is 0.2, 0.3, 0.25 and 0.25 for length in [4, 10], mean at least 0.7, no character below 0.5 and the format; the reasons list the failed ones in that order |
| Validation.PrefixStep | src/modules/validation.js:100-106 | one more criterion adds its weight or appends its reason |
| PlateStorage.PlateRecord.constructor | src/modules/plateStorage.js:26-36 | a new record carries the detection's data, the id and time given, `occurrences` 1 and `isFiltered` false |
| PlateStorage.CounterStep | src/modules/plateStorage.js:79-87 | after a timeout the count restarts at 1 with only this record; otherwise it grows by one and keeps the earlier records; the timestamp becomes `now` |
| PlateStorage.CounterRunCountsAll | src/modules/plateStorage.js:67-87 | from a fresh counter, detections whose gaps stay within 5000 ms are all counted and all kept |
| PlateStorage.StopsFromTenthDetection | src/modules/plateStorage.js:90-93 | within the window, the stop signal holds from the tenth detection on, and never before |
| PlateStorage.TimeoutRestartsCount | src/modules/plateStorage.js:79-82 | a gap above 5000 ms after a truthy timestamp restarts the count, which is then below the threshold |
| PlateStorage.CounterAfterConsistent | src/modules/plateStorage.js:63-96 | advancing a counter keeps every counter's count equal to its number of records, all of its own text |
| PlateStorage.IndexOfKey | src/modules/plateStorage.js:161 | finds the position of a key, or reports it absent |
| PlateStorage.SetKeyProperties | src/modules/plateStorage.js:146-153 | assigning a group under its key keeps keys unique, replaces any group of that key, keeps every other group, and appends when the key is new |
| PlateStorage.DeleteKeyProperties | src/modules/plateStorage.js:177 | `delete` keeps keys unique and removes exactly the groups of that key |
| PlateStorage.FindText | src/modules/plateStorage.js:120-121 | `findIndex`: the first entry with the text, or none exactly when the text is absent |
| PlateStorage.NewGroup | src/modules/plateStorage.js:145-153 | a new singleton group satisfies the group invariant |
| PlateStorage.AddVariant | src/modules/plateStorage.js:112-134 | a merge keeps the key and the mean, appends the record and adds one to the total |
| PlateStorage.MergedTallies | src/modules/plateStorage.js:116-134 | a merge keeps the total, the variant count and the per-text counts in agreement |
| PlateStorage.BumpedAt | src/modules/plateStorage.js:127-128 | an existing text's entry gains one occurrence |
| PlateStorage.BumpExistingTextAbsent | src/modules/plateStorage.js:129-133 | a new text is appended with one occurrence |
| PlateStorage.MostFrequentIndex | src/modules/plateStorage.js:166-169 | the `reduce` with strict `>` from `{occurrences: 0}` finds the first entry of maximal positive count, or none when every count is 0 |
| PlateStorage.CalculateGroupConfidence | src/modules/plateStorage.js:194-199 | the mean confidence of the variants, and 0 for no variants |
| PlateStorage.GroupConfidenceBounds | src/modules/plateStorage.js:194-199 | the mean lies between the smallest and largest variant confidence |
| PlateStorage.GroupConfidenceOfOne | src/modules/plateStorage.js:151 | the mean of one record is that record's confidence, the value a new group starts with |
| PlateStorage.Promoted | src/modules/plateStorage.js:176-185 | the re-keyed group keeps its totals, variants and texts, gets a new key and a recomputed mean |
| PlateStorage.PromotesIff | src/modules/plateStorage.js:166-173 | promotion happens exactly when the key has a count and some text strictly outnumbers it; ties keep the key |
| PlateStorage.NotPromotedKeyIsTop | src/modules/plateStorage.js:172-173 | a key that is not replaced is a most frequent text |
| PlateStorage.PromotedKeyIsTop | src/modules/plateStorage.js:176-185 | a promoted group satisfies the group invariant under its new key |
| PlateStorage.FirstMatch | src/modules/plateStorage.js:107-110 | the first group, in key order, whose key has similarity at least 0.8 with the text; none when no key is similar |
| PlateStorage.NoMatchMeansNewKey | src/modules/plateStorage.js:145-146 | a text similar to no key is not a key yet |
| PlateStorage.GroupedWithoutMatch | src/modules/plateStorage.js:145-153 | without a match a singleton group is appended |
| PlateStorage.GroupedIntoMatch | src/modules/plateStorage.js:112-137 | a merge without promotion replaces the matched group in place and leaves its mean unchanged |
| PlateStorage.GroupedAndPromoted | src/modules/plateStorage.js:176-185 | a merge with promotion deletes the old key and stores the promoted group under its new key |
| PlateStorage.GroupedPreservesInv | src/modules/plateStorage.js:102-187 | grouping a record that is in no group keeps keys unique, every group's tallies and key correct and groups disjoint, and files the record in some group |
| PlateStorage.InsertKeepsRanked | src/modules/plateStorage.js:225-232 | the insertion step keeps groups ranked |
| PlateStorage.SortGroups | src/modules/plateStorage.js:225-232 | a permutation of the groups in which none ranks above an earlier one (more occurrences, then a higher mean) |
| PlateStorage.SortedMembers | src/modules/plateStorage.js:222-232 | sorting neither adds nor loses groups |
| PlateStorage.BestVariantIndex | src/modules/plateStorage.js:237-238 | the first variant of highest confidence, the head of the stable descending sort |
| PlateStorage.BestOf | src/modules/plateStorage.js:235-245 | one best variant per group, in order |
| PlateStorage.JsSlice | src/modules/plateStorage.js:248 | `slice(0, limit)`: a prefix of length limit, of all when limit is larger, and of length+limit for a negative limit |
| PlateStorage.BestDetectionsShape | src/modules/plateStorage.js:220-249 | the result holds at most `limit` records and no more than the groups, all of them when limit covers the groups; entry k is the best variant of the k-th ranked group; entries are distinct records |
| PlateStorage.SortedGroupsDistinct | src/modules/plateStorage.js:222-232 | under unique keys the ranked sequence repeats no group |
| PlateStorage.BestVariantsDistinct | src/modules/plateStorage.js:235-245 | groups that share no record have different best variants |
| PlateStorage.StampBestVariants | src/modules/plateStorage.js:235-245 | the `map` returns the ranked best variants and stamps each with its group's total and as main variant |
| PlateStorage.BestPlateDetections | src/modules/plateStorage.js:220-249 | returns the first `limit` best variants in rank order and stamps the best variant of every group |
| PlateStorage.FindSimilarGroup | src/modules/plateStorage.js:107-142 | the `for...in` scan with `break` finds the first similar key |
| PlateStorage.PlateStore.constructor | src/modules/config.js:36-46 | the initial state is empty, with plate index 0 and zero statistics, and is valid |
| PlateStorage.PlateStore.AddPlateDetection | src/modules/plateStorage.js:19-56 | keeps the store valid. Creates the record as above, not marked as a main variant. In camera mode it advances that text's counter, and otherwise leaves the counters alone. It reports a stop exactly when that counter reaches 10, and then history, groups and statistics are unchanged. Otherwise it appends the record to the history, groups it, files it in some group and refreshes the unique count |
| PlateStorage.PlateStore.ProcessForCameraMode | src/modules/plateStorage.js:63-96 | creates the counter on first sight, advances it by `CounterStep`, reports whether it reached 10, and changes nothing else |
| PlateStorage.PlateStore.GroupSimilarDetections | src/modules/plateStorage.js:102-154 | the groups become the grouping of the record, and nothing else changes |
| PlateStorage.PlateStore.UpdateMainVariant | src/modules/plateStorage.js:160-187 | re-keys the group of that key when another text outnumbers it, and nothing else changes |
| PlateStorage.PlateStore.UpdateDetectionStats | src/modules/plateStorage.js:204-206 | the unique-plate count becomes the number of groups, and nothing else changes |
| PlateStorage.PlateStore.GetBestPlateDetections | src/modules/plateStorage.js:220-249 | from a valid store: returns the first `limit` best variants in rank order, stamps every group's best variant with its total and as main variant, and keeps the store valid |
| PlateStorage.PlateStore.ClearPlateStorage | src/modules/plateStorage.js:254-267 | empties history, groups and counters, sets plate index 0, zeroes the statistics (so the unique count equals the number of groups, 0) and leaves the store valid |

## Left out

- IEEE-754 rounding and NaN or infinite values are not modelled: coordinates, confidences, IoU, similarity and scores are exact reals.
- NonMaxSuppression: requires every box to suppress itself (its IoU with itself is at least 0.7), which is what makes the loop terminate. The source loops forever on any box whose IoU with itself is below 0.7: one with zero union area, an inverted box (its own intersection is then 0), or one whose `area` does not match its corners. The only caller passes only boxes of positive extent whose area is computed from the corners (`CandidatesSelfSuppressing`).
- ProcessOutputBoxes: the crop step (`cropImage` on the rounded box) is image work and is not modelled. The result is the NMS output without the cropped image.
- `run_model`, every ONNX Runtime session, the Web Worker messaging and the OffscreenCanvas image processing are foreign or asynchronous code and are not part of this model.
- DetectionProcessor.ParseOutput: requires a stride of at least 7 and a buffer of exactly `dims[0] * dims[1]` values. The tensor always has that shape; reads past the end (which give `undefined` in JavaScript) are not modelled.
- TextProcessor.PostprocessOutput: requires a non-empty alphabet. With an empty one the source reads `undefined` entries, which this model does not represent.
- TextProcessor.MapIndicesToChars: requires every index to lie inside the alphabet, which the arg-max always ensures. An out-of-range index would give `undefined` in the source.
- TextProcessor.CleanPlateText: models a single pad character. A multi-character `pad_char` (a repeated group in the regular expression) is not modelled.
- src/worker/ocr/ocrProcessor.js, which turns the size error into an empty reading, is not part of this model. `PostprocessOutput` returns the error itself.
- Validation.ToUpper: upper-cases only ASCII letters. `toUpperCase` on other scripts (case mappings, length changes) is not modelled; JavaScript strings are UTF-16 code units and Dafny strings are characters.
- Validation.FillRow: its frame states that row i is filled and column 0 is untouched, not that every other cell is unchanged. The outer loop needs only row i-1, which it re-establishes.
- Validation.EvaluatePlateQuality: an empty confidence list passes the minimum-confidence test (`Math.min()` is `+Infinity`). NaN confidences are not modelled.
- PlateStorage: JavaScript orders integer-like keys (such as "1234") numerically before the others. The model keeps pure insertion order, so the first-match scan is faithful only when no key is an integer-like string.
- PlateStorage: a key that a record inherits from `Object.prototype` (such as "constructor") is not modelled. Plate texts are alphanumeric.
- PlateStorage: every group has its `variants` and `variantTexts` lists, as the source always creates them, so the source's branches that create missing lists are not modelled. `isMainVariant` is a boolean that starts false, standing for the absent property.
- PlateStorage.PlateStore.AddPlateDetection: the id (from `Date.now()` and `Math.random()`), the `new Date()` timestamp and the `Date.now()` of the counter are parameters; one `now` stands for both clock reads.
- PlateStorage.PlateStore.UpdateDetectionStats: the DOM update of the statistics element is not modelled.
- src/modules/detector.js, which decides when to call the aggregator (a mean confidence of at least 0.7, the quality check, and stopping the camera on a stop signal), is not part of this model.
- PlateStorage.BestVariantIndex: models the head of the stable descending sort of variants as the first variant of highest confidence; the copied and sorted array itself is not built.
- PlateStorage.SortGroups: the model is an insertion sort that keeps equal groups in their input order, which is how JavaScript's stable sort orders them; that stability is not stated as a separate lemma. The comparator's NaN results are not modelled.
- PlateStorage.JsSlice: `limit` is an integer. Fractional limits, `Infinity` and the default of 10 for an omitted limit are not modelled.
- PlateStorage.PlateStore.GetBestPlateDetections: requires the store to be valid; the source has no precondition, and every store the other operations produce is valid.
