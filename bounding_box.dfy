/**
 * Rectangle geometry (intersection, union, IoU) and the label-scoped greedy
 * non-maximum suppression of src/worker/detector/boundingBoxUtils.js.
 */
module BoundingBox {

  /** A class name looked up in the detector's class list; `Undefined` is what
      JavaScript yields for an index outside that list. */
  datatype Label = ClassName(name: string) | Undefined

  /** A detection rectangle as NMS sees it. `area` is a stored field: the
      geometry functions trust it rather than recomputing it. */
  datatype Box = Box(x1: real, y1: real, x2: real, y2: real, area: real, classLabel: Label, confidence: real)

  const IouThreshold: real := 0.7

  function Max(a: real, b: real): real { if a >= b then a else b }
  function Min(a: real, b: real): real { if a <= b then a else b }

  /** `area` agrees with the corners, as it does for every box the detector post-processing builds. */
  predicate AreaConsistent(b: Box) {
    b.area == (b.x2 - b.x1) * (b.y2 - b.y1)
  }

  /** A box over the given corners whose area is computed from them. */
  function BoxWithArea(x1: real, y1: real, x2: real, y2: real, cls: Label, confidence: real): (b: Box)
    ensures b.x1 == x1 && b.y1 == y1 && b.x2 == x2 && b.y2 == y2
    ensures b.classLabel == cls && b.confidence == confidence
    ensures AreaConsistent(b)
  {
    Box(x1, y1, x2, y2, (x2 - x1) * (y2 - y1), cls, confidence)
  }

  /** A non-degenerate box with a consistent area. */
  predicate WellFormed(b: Box) {
    b.x1 < b.x2 && b.y1 < b.y2 && AreaConsistent(b)
  }

  /** Overlap area: the clipped width times the clipped height. */
  function Intersection(a: Box, b: Box): (r: real)
    ensures r >= 0.0
    ensures Min(a.x2, b.x2) <= Max(a.x1, b.x1) || Min(a.y2, b.y2) <= Max(a.y1, b.y1) ==> r == 0.0
    ensures Min(a.x2, b.x2) > Max(a.x1, b.x1) && Min(a.y2, b.y2) > Max(a.y1, b.y1) ==> r > 0.0
  {
    var width := Max(0.0, Min(a.x2, b.x2) - Max(a.x1, b.x1));
    var height := Max(0.0, Min(a.y2, b.y2) - Max(a.y1, b.y1));
    width * height
  }

  /** Sum of the stored areas minus the overlap. */
  function Union(a: Box, b: Box): real {
    a.area + b.area - Intersection(a, b)
  }

  /** Intersection over union, 0 when the union is 0. */
  function Iou(a: Box, b: Box): (r: real)
    ensures Union(a, b) == 0.0 ==> r == 0.0
  {
    var u := Union(a, b);
    if u == 0.0 then 0.0 else Intersection(a, b) / u
  }

  lemma IntersectionSymmetric(a: Box, b: Box)
    ensures Intersection(a, b) == Intersection(b, a)
  {
  }

  lemma UnionSymmetric(a: Box, b: Box)
    ensures Union(a, b) == Union(b, a)
  {
    IntersectionSymmetric(a, b);
  }

  lemma IouSymmetric(a: Box, b: Box)
    ensures Iou(a, b) == Iou(b, a)
  {
    IntersectionSymmetric(a, b);
  }

  lemma MulMonotone(p: real, q: real, s: real, t: real)
    requires 0.0 <= p <= s && 0.0 <= q <= t
    ensures p * q <= s * t
  {
    assert p * q <= s * q;
    assert s * q <= s * t;
  }

  /** A positive overlap is bounded by each box's own (consistent) area. */
  lemma IntersectionAtMostArea(a: Box, b: Box)
    requires AreaConsistent(a) && AreaConsistent(b)
    requires Intersection(a, b) > 0.0
    ensures Intersection(a, b) <= a.area && Intersection(a, b) <= b.area
  {
    var w := Min(a.x2, b.x2) - Max(a.x1, b.x1);
    var h := Min(a.y2, b.y2) - Max(a.y1, b.y1);
    assert w > 0.0 && h > 0.0;
    assert Intersection(a, b) == w * h;
    MulMonotone(w, h, a.x2 - a.x1, a.y2 - a.y1);
    MulMonotone(w, h, b.x2 - b.x1, b.y2 - b.y1);
  }

  lemma RatioAtMostOne(x: real, y: real)
    requires 0.0 < x <= y
    ensures 0.0 < x / y <= 1.0
  {
    assert x / y * y == x;
  }

  /** For boxes whose area matches their corners, IoU lies in [0, 1]. */
  lemma IouInUnitInterval(a: Box, b: Box)
    requires AreaConsistent(a) && AreaConsistent(b)
    ensures 0.0 <= Iou(a, b) <= 1.0
  {
    var i := Intersection(a, b);
    if i > 0.0 {
      IntersectionAtMostArea(a, b);
      var u := Union(a, b);
      assert u >= i;
      RatioAtMostOne(i, u);
    }
  }

  /** A well-formed box overlaps itself completely. */
  lemma IouWithItself(b: Box)
    requires WellFormed(b)
    ensures Iou(b, b) == 1.0
  {
    var w, h := b.x2 - b.x1, b.y2 - b.y1;
    assert w * h > 0.0;
    assert Intersection(b, b) == b.area;
    assert Union(b, b) == b.area;
    assert Iou(b, b) == b.area / b.area;
  }

  /** The NMS filter drops `box` for `keeper` exactly when this holds
      (the negation of the kept test `iou < 0.7 || label !== label`). */
  predicate Suppresses(keeper: Box, box: Box) {
    Iou(keeper, box) >= IouThreshold && keeper.classLabel == box.classLabel
  }

  /** A keeper that removes itself from the remaining list: what makes each NMS round shrink. */
  predicate SelfSuppressing(b: Box) {
    Suppresses(b, b)
  }

  predicate AllSelfSuppressing(boxes: seq<Box>) {
    forall i :: 0 <= i < |boxes| ==> SelfSuppressing(boxes[i])
  }

  lemma WellFormedIsSelfSuppressing(b: Box)
    requires WellFormed(b)
    ensures SelfSuppressing(b)
  {
    IouWithItself(b);
  }

  lemma SuppressesSymmetric(a: Box, b: Box)
    ensures Suppresses(a, b) == Suppresses(b, a)
  {
    IouSymmetric(a, b);
  }

  /** Scenario: boxes of different classes never suppress each other, whatever their overlap. */
  lemma DifferentLabelsNeverSuppress(a: Box, b: Box)
    requires a.classLabel != b.classLabel
    ensures !Suppresses(a, b) && !Suppresses(b, a)
  {
  }

  /** `a` is `b` with some elements left out, the rest kept in order. */
  predicate IsSubsequence<T(==)>(a: seq<T>, b: seq<T>)
    decreases |b|
  {
    if a == [] then true
    else if b == [] then false
    else (a[0] == b[0] && IsSubsequence(a[1..], b[1..])) || IsSubsequence(a, b[1..])
  }

  lemma {:induction false} SubsequenceMembers<T>(a: seq<T>, b: seq<T>)
    requires IsSubsequence(a, b)
    ensures forall x :: x in a ==> x in b
    ensures |a| <= |b|
    decreases |b|
  {
    if a != [] {
      if a[0] == b[0] && IsSubsequence(a[1..], b[1..]) {
        SubsequenceMembers(a[1..], b[1..]);
        assert a == [a[0]] + a[1..];
        assert b == [b[0]] + b[1..];
      } else {
        SubsequenceMembers(a, b[1..]);
        assert b == [b[0]] + b[1..];
      }
    }
  }

  lemma {:induction false} SubsequenceTransitive<T>(a: seq<T>, b: seq<T>, c: seq<T>)
    requires IsSubsequence(a, b) && IsSubsequence(b, c)
    ensures IsSubsequence(a, c)
    decreases |c|
  {
    if a != [] {
      if b[0] == c[0] && IsSubsequence(b[1..], c[1..]) {
        if a[0] == b[0] && IsSubsequence(a[1..], b[1..]) {
          SubsequenceTransitive(a[1..], b[1..], c[1..]);
        } else {
          SubsequenceTransitive(a, b[1..], c[1..]);
        }
      } else {
        SubsequenceTransitive(a, b, c[1..]);
      }
    }
  }

  lemma {:induction false} SubsequenceReflexive<T>(a: seq<T>)
    ensures IsSubsequence(a, a)
  {
    if a != [] {
      SubsequenceReflexive(a[1..]);
    }
  }

  /** `boxes.filter(box => iou(keeper, box) < 0.7 || keeper.label !== box.label)`. */
  function Survivors(keeper: Box, boxes: seq<Box>): (r: seq<Box>)
    ensures |r| <= |boxes|
    ensures forall x :: x in r <==> x in boxes && !Suppresses(keeper, x)
  {
    if boxes == [] then []
    else (if Suppresses(keeper, boxes[0]) then [] else [boxes[0]]) + Survivors(keeper, boxes[1..])
  }

  lemma {:induction false} SurvivorsSubsequence(keeper: Box, boxes: seq<Box>)
    ensures IsSubsequence(Survivors(keeper, boxes), boxes)
  {
    if boxes != [] {
      SurvivorsSubsequence(keeper, boxes[1..]);
      var rest := Survivors(keeper, boxes[1..]);
      if Suppresses(keeper, boxes[0]) {
        assert Survivors(keeper, boxes) == rest;
        if rest != [] {
          assert IsSubsequence(rest, boxes[1..]);
        }
      } else {
        assert Survivors(keeper, boxes) == [boxes[0]] + rest;
        assert ([boxes[0]] + rest)[1..] == rest;
      }
    }
  }

  lemma {:induction false} SurvivorsKeepAll(keeper: Box, boxes: seq<Box>)
    requires forall i :: 0 <= i < |boxes| ==> !Suppresses(keeper, boxes[i])
    ensures Survivors(keeper, boxes) == boxes
  {
    if boxes != [] {
      SurvivorsKeepAll(keeper, boxes[1..]);
      assert boxes == [boxes[0]] + boxes[1..];
    }
  }

  /** The keeper removes itself, so the first round's survivors are those of the tail. */
  lemma SurvivorsOfHead(boxes: seq<Box>)
    requires boxes != [] && AllSelfSuppressing(boxes)
    ensures Survivors(boxes[0], boxes) == Survivors(boxes[0], boxes[1..])
    ensures |Survivors(boxes[0], boxes)| < |boxes|
    ensures AllSelfSuppressing(Survivors(boxes[0], boxes))
  {
    var r := Survivors(boxes[0], boxes);
    forall i | 0 <= i < |r| ensures SelfSuppressing(r[i]) {
      assert r[i] in boxes;
    }
  }

  /** What `nonMaxSuppression` returns: the head is kept, its survivors are processed again. */
  function Nms(boxes: seq<Box>): seq<Box>
    requires AllSelfSuppressing(boxes)
    decreases |boxes|
  {
    if boxes == [] then []
    else
      var rest := Survivors(boxes[0], boxes);
      SurvivorsOfHead(boxes);
      [boxes[0]] + Nms(rest)
  }

  /** NMS keeps a subsequence of its input, in input order, starting with the input's first box. */
  lemma {:induction false} NmsIsSubsequence(boxes: seq<Box>)
    requires AllSelfSuppressing(boxes)
    ensures IsSubsequence(Nms(boxes), boxes)
    ensures boxes != [] ==> Nms(boxes) != [] && Nms(boxes)[0] == boxes[0]
    decreases |boxes|
  {
    if boxes != [] {
      var rest := Survivors(boxes[0], boxes);
      SurvivorsOfHead(boxes);
      NmsIsSubsequence(rest);
      SurvivorsSubsequence(boxes[0], boxes[1..]);
      SubsequenceTransitive(Nms(rest), rest, boxes[1..]);
      assert ([boxes[0]] + Nms(rest))[1..] == Nms(rest);
    }
  }

  /** No two boxes at different positions of the list suppress one another. */
  predicate NoRedundantPair(boxes: seq<Box>) {
    forall i, j :: 0 <= i < |boxes| && 0 <= j < |boxes| && i != j ==> !Suppresses(boxes[i], boxes[j])
  }

  /** A box that suppresses none of a redundancy-free list, nor is suppressed by it, can head it. */
  lemma ConsNoRedundantPair(h: Box, t: seq<Box>)
    requires NoRedundantPair(t)
    requires forall x :: x in t ==> !Suppresses(h, x) && !Suppresses(x, h)
    ensures NoRedundantPair([h] + t)
  {
    var r := [h] + t;
    forall i, j | 0 <= i < |r| && 0 <= j < |r| && i != j ensures !Suppresses(r[i], r[j]) {
      if i == 0 {
        assert r[j] == t[j - 1];
      } else if j == 0 {
        assert r[i] == t[i - 1];
      } else {
        assert r[i] == t[i - 1] && r[j] == t[j - 1];
      }
    }
  }

  /** No kept box would have suppressed another kept box, in either direction. */
  lemma {:induction false} NmsNoRedundantPair(boxes: seq<Box>)
    requires AllSelfSuppressing(boxes)
    ensures NoRedundantPair(Nms(boxes))
    decreases |boxes|
  {
    if boxes != [] {
      var rest := Survivors(boxes[0], boxes);
      SurvivorsOfHead(boxes);
      NmsNoRedundantPair(rest);
      NmsIsSubsequence(rest);
      SubsequenceMembers(Nms(rest), rest);
      forall x | x in Nms(rest) ensures !Suppresses(boxes[0], x) && !Suppresses(x, boxes[0]) {
        assert x in rest;
        SuppressesSymmetric(x, boxes[0]);
      }
      ConsNoRedundantPair(boxes[0], Nms(rest));
    }
  }

  /** Every input box is either kept or suppressed by a kept box with its label and IoU >= 0.7. */
  lemma {:induction false} NmsDropsOnlySuppressed(boxes: seq<Box>)
    requires AllSelfSuppressing(boxes)
    ensures forall x :: x in boxes ==> x in Nms(boxes) || exists k :: k in Nms(boxes) && Suppresses(k, x)
    decreases |boxes|
  {
    if boxes != [] {
      var rest := Survivors(boxes[0], boxes);
      SurvivorsOfHead(boxes);
      NmsDropsOnlySuppressed(rest);
      var r := Nms(boxes);
      assert r == [boxes[0]] + Nms(rest);
      forall x | x in boxes
        ensures x in r || exists k :: k in r && Suppresses(k, x)
      {
        if Suppresses(boxes[0], x) {
          assert boxes[0] in r;
        } else {
          assert x in rest;
          if x !in Nms(rest) {
            var k :| k in Nms(rest) && Suppresses(k, x);
            assert k in r;
          }
        }
      }
    }
  }

  /** A list in which no box suppresses a later one passes NMS unchanged. */
  lemma {:induction false} NmsIdentity(boxes: seq<Box>)
    requires AllSelfSuppressing(boxes)
    requires forall i, j :: 0 <= i < j < |boxes| ==> !Suppresses(boxes[i], boxes[j])
    ensures Nms(boxes) == boxes
    decreases |boxes|
  {
    if boxes != [] {
      SurvivorsOfHead(boxes);
      SurvivorsKeepAll(boxes[0], boxes[1..]);
      NmsIdentity(boxes[1..]);
      assert boxes == [boxes[0]] + boxes[1..];
    }
  }

  /** NMS applied to its own output changes nothing. */
  lemma NmsIdempotent(boxes: seq<Box>)
    requires AllSelfSuppressing(boxes)
    ensures AllSelfSuppressing(Nms(boxes))
    ensures Nms(Nms(boxes)) == Nms(boxes)
  {
    NmsIsSubsequence(boxes);
    SubsequenceMembers(Nms(boxes), boxes);
    NmsNoRedundantPair(boxes);
    var r := Nms(boxes);
    assert forall i :: 0 <= i < |r| ==> r[i] in boxes;
    NmsIdentity(r);
  }

  /** Scenario: boxes of pairwise different classes all survive, even when they coincide. */
  lemma NmsKeepsDistinctLabels(boxes: seq<Box>)
    requires AllSelfSuppressing(boxes)
    requires forall i, j :: 0 <= i < j < |boxes| ==> boxes[i].classLabel != boxes[j].classLabel
    ensures Nms(boxes) == boxes
  {
    NmsIdentity(boxes);
  }

  /**
   * The while loop of `nonMaxSuppression`: keep the head, filter the rest
   * against it, repeat. Every box must remove itself as keeper, which holds
   * for well-formed boxes (see WellFormedIsSelfSuppressing); otherwise the
   * source loops forever.
   */
  method NonMaxSuppression(boxes: seq<Box>) returns (result: seq<Box>)
    requires AllSelfSuppressing(boxes)
    ensures result == Nms(boxes)
  {
    result := [];
    var remaining := boxes;
    while |remaining| > 0
      invariant AllSelfSuppressing(remaining)
      invariant result + Nms(remaining) == Nms(boxes)
      decreases |remaining|
    {
      var keeper := remaining[0];
      result := result + [keeper];
      SurvivorsOfHead(remaining);
      remaining := Survivors(keeper, remaining);
    }
  }
}
