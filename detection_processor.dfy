/**
 * Post-processing of the plate detector's output tensor
 * (src/worker/detector/detectionProcessor.js): parse the strided rows, keep
 * confident rows, rescale from the 384-pixel model space to the image, clamp,
 * drop degenerate or tiny boxes, sort by confidence and run NMS.
 */
module DetectionProcessor {
  import opened BoundingBox
  import opened Layout

  /** Side of the square model input (`modelInputShape[2]`). */
  const ModelSize: real := 384.0
  /** Rows must be strictly more confident than this. */
  const ConfidenceThreshold: real := 0.6
  /** Boxes must be strictly larger than 5 x 5 pixels. */
  const MinArea: real := 25.0
  /** Offsets inside one row of the output tensor. */
  const ClassOffset: nat := 0
  const ConfidenceOffset: nat := 6

  /** Corners in model space, as `bounding_box` holds them. */
  datatype Corners = Corners(x1: real, y1: real, x2: real, y2: real)

  /** One parsed row of the detector output. */
  datatype RawDetection = RawDetection(classLabel: Label, confidence: real, boundingBox: Corners)

  /** JavaScript `Math.round`: halves round towards positive infinity. */
  function JsRound(v: real): (r: int)
    ensures r as real - 0.5 <= v < r as real + 0.5
  {
    (v + 0.5).Floor
  }

  /** `yolo_classes[Math.round(v)]`; an index outside the list reads as undefined. */
  function ClassLabel(classes: seq<string>, v: real): (l: Label)
    ensures l.ClassName? <==> 0 <= JsRound(v) < |classes|
    ensures l.ClassName? ==> l.name == classes[JsRound(v)]
  {
    var id := JsRound(v);
    if 0 <= id < |classes| then ClassName(classes[id]) else Undefined
  }

  function ParseRow(data: seq<real>, start: nat, classes: seq<string>): RawDetection
    requires start + 7 <= |data|
  {
    RawDetection(ClassLabel(classes, data[start + ClassOffset]), data[start + ConfidenceOffset],
                 Corners(data[start + 1], data[start + 2], data[start + 3], data[start + 4]))
  }

  /** The rows of a `[numDetections, valuesPerDetection]` tensor, row i starting at i * stride. */
  function ParseOutput(data: seq<real>, numDetections: nat, stride: nat, classes: seq<string>): (r: seq<RawDetection>)
    requires stride >= 7 && |data| == numDetections * stride
    ensures |r| == numDetections
    ensures forall i :: 0 <= i < numDetections ==>
      i * stride + 6 < |data| &&
      r[i].classLabel == ClassLabel(classes, data[i * stride]) &&
      r[i].boundingBox == Corners(data[i * stride + 1], data[i * stride + 2], data[i * stride + 3], data[i * stride + 4]) &&
      r[i].confidence == data[i * stride + 6]
  {
    seq(numDetections, i requires 0 <= i < numDetections =>
      RowFits(i, numDetections, stride);
      ParseRow(data, i * stride, classes))
  }

  /**
   * `processModelOutput`: one result per tensor row. The tensor's data
   * length is the product of its dimensions, and a row holds at least the
   * seven values read here.
   */
  method ProcessModelOutput(data: seq<real>, numDetections: nat, stride: nat, classes: seq<string>)
    returns (results: seq<RawDetection>)
    requires stride >= 7 && |data| == numDetections * stride
    ensures results == ParseOutput(data, numDetections, stride, classes)
  {
    results := [];
    var i := 0;
    while i < numDetections
      invariant 0 <= i <= numDetections
      invariant |results| == i
      invariant forall k :: 0 <= k < i ==> results[k] == ParseOutput(data, numDetections, stride, classes)[k]
    {
      RowFits(i, numDetections, stride);
      var start := i * stride;
      var classId := ClassLabel(classes, data[start]);
      var detection := RawDetection(classId, data[start + 6],
                                    Corners(data[start + 1], data[start + 2], data[start + 3], data[start + 4]));
      results := results + [detection];
      i := i + 1;
    }
  }

  /** `.filter(result => result.confidence > confThresh)` */
  function ConfidentResults(raws: seq<RawDetection>): (r: seq<RawDetection>)
    ensures |r| <= |raws|
    ensures forall d :: d in r <==> d in raws && d.confidence > ConfidenceThreshold
  {
    if raws == [] then []
    else (if raws[0].confidence > ConfidenceThreshold then [raws[0]] else []) + ConfidentResults(raws[1..])
  }

  /** `Math.max(0, Math.min(limit, v))` */
  function Clamp(v: real, limit: real): (r: real)
    requires limit >= 0.0
    ensures 0.0 <= r <= limit
    ensures 0.0 <= v <= limit ==> r == v
  {
    Max(0.0, Min(limit, v))
  }

  /** A model-space coordinate times `imageDim / MODEL_SIZE`. */
  function Rescale(v: real, imageDim: nat): real {
    v * (imageDim as real / ModelSize)
  }

  /** One coordinate scaled to the image and clamped into it. */
  function ScaledCoordinate(v: real, imageDim: nat): (r: real)
    ensures 0.0 <= r <= imageDim as real
  {
    Clamp(Rescale(v, imageDim), imageDim as real)
  }

  /** The `.map` step: scale each axis by imageDim / 384, clamp into the image, recompute the area. */
  function ToImageSpace(d: RawDetection, width: nat, height: nat): (b: Box)
    ensures 0.0 <= b.x1 <= width as real && 0.0 <= b.x2 <= width as real
    ensures 0.0 <= b.y1 <= height as real && 0.0 <= b.y2 <= height as real
    ensures AreaConsistent(b)
    ensures b.classLabel == d.classLabel && b.confidence == d.confidence
  {
    var x1 := ScaledCoordinate(d.boundingBox.x1, width);
    var y1 := ScaledCoordinate(d.boundingBox.y1, height);
    var x2 := ScaledCoordinate(d.boundingBox.x2, width);
    var y2 := ScaledCoordinate(d.boundingBox.y2, height);
    BoxWithArea(x1, y1, x2, y2, d.classLabel, d.confidence)
  }

  function ScaledBoxes(raws: seq<RawDetection>, width: nat, height: nat): (r: seq<Box>)
    ensures |r| == |raws|
    ensures forall i :: 0 <= i < |raws| ==> r[i] == ToImageSpace(raws[i], width, height)
  {
    if raws == [] then [] else [ToImageSpace(raws[0], width, height)] + ScaledBoxes(raws[1..], width, height)
  }

  /** `box.x2 > box.x1 && box.y2 > box.y1 && box.area > dimThresh` */
  predicate LargeEnough(b: Box) {
    b.x2 > b.x1 && b.y2 > b.y1 && b.area > MinArea
  }

  function LargeBoxes(boxes: seq<Box>): (r: seq<Box>)
    ensures |r| <= |boxes|
    ensures forall b :: b in r <==> b in boxes && LargeEnough(b)
  {
    if boxes == [] then []
    else (if LargeEnough(boxes[0]) then [boxes[0]] else []) + LargeBoxes(boxes[1..])
  }

  predicate SortedByConfidence(boxes: seq<Box>) {
    forall i, j :: 0 <= i < j < |boxes| ==> boxes[i].confidence >= boxes[j].confidence
  }

  /** Insert `b` before the first box that is not more confident, so that ties keep input order. */
  function InsertByConfidence(b: Box, sorted: seq<Box>): (r: seq<Box>)
    ensures multiset(r) == multiset(sorted) + multiset{b}
    ensures |r| == |sorted| + 1 && forall x :: x in r <==> x == b || x in sorted
  {
    if sorted == [] || b.confidence >= sorted[0].confidence then [b] + sorted
    else
      assert sorted == [sorted[0]] + sorted[1..];
      [sorted[0]] + InsertByConfidence(b, sorted[1..])
  }

  lemma {:induction false} InsertKeepsSorted(b: Box, sorted: seq<Box>)
    requires SortedByConfidence(sorted)
    ensures SortedByConfidence(InsertByConfidence(b, sorted))
  {
    if sorted != [] && b.confidence < sorted[0].confidence {
      var rest := InsertByConfidence(b, sorted[1..]);
      InsertKeepsSorted(b, sorted[1..]);
      var r := [sorted[0]] + rest;
      forall i, j | 0 <= i < j < |r| ensures r[i].confidence >= r[j].confidence {
        if i == 0 {
          assert r[j] in rest;
        } else {
          assert r[i] == rest[i - 1] && r[j] == rest[j - 1];
        }
      }
    }
  }

  /** `.sort((box1, box2) => box2.confidence - box1.confidence)`, a stable descending sort. */
  function SortByConfidence(boxes: seq<Box>): (r: seq<Box>)
    ensures SortedByConfidence(r)
    ensures multiset(r) == multiset(boxes)
    ensures |r| == |boxes| && forall x :: x in r <==> x in boxes
  {
    if boxes == [] then []
    else
      assert boxes == [boxes[0]] + boxes[1..];
      var rest := SortByConfidence(boxes[1..]);
      InsertKeepsSorted(boxes[0], rest);
      InsertByConfidence(boxes[0], rest)
  }

  /** The boxes handed to NMS. */
  function CandidateBoxes(raws: seq<RawDetection>, width: nat, height: nat): seq<Box> {
    SortByConfidence(LargeBoxes(ScaledBoxes(ConfidentResults(raws), width, height)))
  }

  /** Every candidate came from a confident row, is well formed and larger than 5 x 5. */
  lemma CandidateProvenance(raws: seq<RawDetection>, width: nat, height: nat)
    ensures |CandidateBoxes(raws, width, height)| <= |raws|
    ensures SortedByConfidence(CandidateBoxes(raws, width, height))
    ensures forall b :: b in CandidateBoxes(raws, width, height) ==>
      WellFormed(b) && b.area > MinArea &&
      0.0 <= b.x1 && b.x2 <= width as real && 0.0 <= b.y1 && b.y2 <= height as real &&
      exists d :: d in raws && d.confidence > ConfidenceThreshold && b == ToImageSpace(d, width, height)
  {
    var confident := ConfidentResults(raws);
    var scaled := ScaledBoxes(confident, width, height);
    var large := LargeBoxes(scaled);
    var sorted := SortByConfidence(large);
    forall b | b in sorted
      ensures WellFormed(b) && b.area > MinArea
      ensures 0.0 <= b.x1 && b.x2 <= width as real && 0.0 <= b.y1 && b.y2 <= height as real
      ensures exists d :: d in raws && d.confidence > ConfidenceThreshold && b == ToImageSpace(d, width, height)
    {
      assert b in large;
      var i :| 0 <= i < |scaled| && scaled[i] == b;
      assert confident[i] in raws;
    }
  }

  lemma CandidatesSelfSuppressing(raws: seq<RawDetection>, width: nat, height: nat)
    ensures AllSelfSuppressing(CandidateBoxes(raws, width, height))
  {
    var c := CandidateBoxes(raws, width, height);
    CandidateProvenance(raws, width, height);
    forall i | 0 <= i < |c| ensures SelfSuppressing(c[i]) {
      assert c[i] in c;
      WellFormedIsSelfSuppressing(c[i]);
    }
  }

  /** `process_output_boxes` up to, not including, the crop of each final box. */
  function PostProcess(raws: seq<RawDetection>, width: nat, height: nat): seq<Box> {
    CandidatesSelfSuppressing(raws, width, height);
    Nms(CandidateBoxes(raws, width, height))
  }

  lemma {:induction false} SubsequenceStaysSorted(a: seq<Box>, b: seq<Box>)
    requires IsSubsequence(a, b) && SortedByConfidence(b)
    ensures SortedByConfidence(a)
    decreases |b|
  {
    if a != [] {
      if a[0] == b[0] && IsSubsequence(a[1..], b[1..]) {
        SubsequenceStaysSorted(a[1..], b[1..]);
        SubsequenceMembers(a[1..], b[1..]);
        forall i, j | 0 <= i < j < |a| ensures a[i].confidence >= a[j].confidence {
          if i == 0 {
            assert a[j] in a[1..];
            assert a[j] in b[1..];
          } else {
            assert a[i] == a[1..][i - 1] && a[j] == a[1..][j - 1];
          }
        }
      } else {
        SubsequenceStaysSorted(a, b[1..]);
      }
    }
  }

  /**
   * What the final boxes satisfy: no more boxes than rows; each is the scaled
   * and clamped image of a row with confidence > 0.6, keeping its label and
   * confidence, inside the image, well formed and larger than 5 x 5; they
   * come in descending confidence; no two of them share a label with IoU >= 0.7.
   */
  lemma PostProcessProperties(raws: seq<RawDetection>, width: nat, height: nat)
    ensures |PostProcess(raws, width, height)| <= |raws|
    ensures SortedByConfidence(PostProcess(raws, width, height))
    ensures forall b :: b in PostProcess(raws, width, height) ==>
      WellFormed(b) && b.area > MinArea &&
      0.0 <= b.x1 && b.x2 <= width as real && 0.0 <= b.y1 && b.y2 <= height as real &&
      exists d :: d in raws && d.confidence > ConfidenceThreshold && b == ToImageSpace(d, width, height)
    ensures NoRedundantPair(PostProcess(raws, width, height))
  {
    var c := CandidateBoxes(raws, width, height);
    CandidateProvenance(raws, width, height);
    CandidatesSelfSuppressing(raws, width, height);
    NmsIsSubsequence(c);
    SubsequenceMembers(Nms(c), c);
    SubsequenceStaysSorted(Nms(c), c);
    NmsNoRedundantPair(c);
  }

  /**
   * `process_output_boxes` on a raw tensor, without the crop step: parse the
   * rows, build the candidates and run the NMS loop.
   */
  method ProcessOutputBoxes(data: seq<real>, numDetections: nat, stride: nat, classes: seq<string>,
                            width: nat, height: nat) returns (boxes: seq<Box>)
    requires stride >= 7 && |data| == numDetections * stride
    ensures boxes == PostProcess(ParseOutput(data, numDetections, stride, classes), width, height)
  {
    var results := ProcessModelOutput(data, numDetections, stride, classes);
    var candidates := CandidateBoxes(results, width, height);
    CandidatesSelfSuppressing(results, width, height);
    boxes := NonMaxSuppression(candidates);
  }
}
