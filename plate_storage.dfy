/**
 * The detection aggregator (src/modules/plateStorage.js): the history of
 * recognised plates, their grouping by text similarity with variant
 * counting and promotion of the most frequent variant, the camera-mode
 * consecutive-detection counter that stops the camera, the ranked top-k
 * query and the reset.
 *
 * `appState.plateGroups` is a JavaScript object keyed by each group's main
 * text; it is modelled as a sequence of groups in the object's key order.
 * Assigning to an existing key keeps its place, assigning to a new key
 * appends it, and `delete` removes it.
 */
module PlateStorage {
  import opened Wrappers
  import opened BoundingBox
  import opened TextProcessor
  import opened Validation

  /** Similarity at or above which a new text joins an existing group. */
  const SimilarityThreshold: real := 0.8
  /** Largest gap, in milliseconds, between two detections that still counts as consecutive. */
  const ConsecutiveDetectionTimeout: int := 5000
  /** Consecutive detections of one text after which camera capture stops. */
  const ConsecutiveDetectionsRequired: nat := 10

  /** The cropped plate image, an opaque canvas reference. */
  datatype ImageRef = ImageRef(handle: nat)

  /** What the detector hands to `addPlateDetection`. */
  datatype PlateData = PlateData(text: string, confidence: real, croppedImage: ImageRef,
                                 boundingBox: Box, plateText: PlateReading)

  /** The capture mode of the page (`appState.currentMode`, null before a mode is chosen). */
  datatype Mode = ImageMode | VideoMode | CameraMode | NoMode

  /**
   * A detection record. The history, the groups and the consecutive
   * counters share these objects, and `getBestPlateDetections` writes
   * `occurrences` and `isMainVariant` on them, so they are objects here too.
   */
  class PlateRecord {
    const id: string
    const text: string
    const confidence: real
    const timestamp: int
    const croppedImage: ImageRef
    const originalBoundingBox: Box
    const isFiltered: bool
    const plateText: PlateReading
    var occurrences: nat
    /** Never set on creation; absent reads as false. */
    var isMainVariant: bool

    constructor (id: string, data: PlateData, now: int)
      ensures this.id == id && text == data.text && confidence == data.confidence
      ensures timestamp == now && croppedImage == data.croppedImage
      ensures originalBoundingBox == data.boundingBox && plateText == data.plateText
      ensures occurrences == 1 && !isFiltered && !isMainVariant
    {
      this.id := id;
      text := data.text;
      confidence := data.confidence;
      timestamp := now;
      croppedImage := data.croppedImage;
      originalBoundingBox := data.boundingBox;
      occurrences := 1;
      isFiltered := false;
      plateText := data.plateText;
      isMainVariant := false;
    }
  }

  /** One entry of a group's `variantTexts`: a text and how often it was seen. */
  datatype VariantText = VariantText(text: string, occurrences: nat)

  /** A plate group; the key it is stored under is always its `mainText`. */
  datatype PlateGroup = PlateGroup(mainText: string, totalOccurrences: nat, variants: seq<PlateRecord>,
                                   variantTexts: seq<VariantText>, confidenceMean: real)

  /** Per-text state of the camera-mode counter. */
  datatype ConsecutiveState = ConsecutiveState(count: nat, lastTimestamp: Option<int>, detections: seq<PlateRecord>)

  datatype VideoStats = VideoStats(totalFrames: nat, processedFrames: nat, uniquePlatesCount: nat)

  /** `addPlateDetection` returns `true` to stop the camera, or the new record. */
  datatype AddOutcome = StopCamera | Added(record: PlateRecord)

  // ------------------------------------------------------------- camera mode

  /** The counter a text starts with: `{count: 0, lastTimestamp: null, detections: []}`. */
  const FreshCounter: ConsecutiveState := ConsecutiveState(0, None, [])

  /** `current.lastTimestamp` is truthy: present and not 0. */
  predicate HasLastTimestamp(st: ConsecutiveState) {
    st.lastTimestamp.Some? && st.lastTimestamp.value != 0
  }

  /** The gap since the last detection of this text exceeds the timeout. */
  predicate TimedOut(st: ConsecutiveState, now: int) {
    HasLastTimestamp(st) && now - st.lastTimestamp.value > ConsecutiveDetectionTimeout
  }

  /** One detection of a text: reset after a timeout, then count it and remember the time. */
  function CounterStep(st: ConsecutiveState, now: int, record: PlateRecord): (r: ConsecutiveState)
    ensures r.lastTimestamp == Some(now)
    ensures TimedOut(st, now) ==> r.count == 1 && r.detections == [record]
    ensures !TimedOut(st, now) ==> r.count == st.count + 1 && r.detections == st.detections + [record]
  {
    var current := if TimedOut(st, now) then ConsecutiveState(0, st.lastTimestamp, []) else st;
    ConsecutiveState(current.count + 1, Some(now), current.detections + [record])
  }

  /** The counter of a text, created on its first detection, after one more detection. */
  function CounterAfter(counters: map<string, ConsecutiveState>, text: string, now: int, record: PlateRecord): ConsecutiveState {
    CounterStep(if text in counters then counters[text] else FreshCounter, now, record)
  }

  /** The counter after a run of detections at the given times. */
  function CounterRun(st: ConsecutiveState, times: seq<int>, records: seq<PlateRecord>): ConsecutiveState
    requires |times| == |records|
    decreases |times|
  {
    if times == [] then st
    else CounterStep(CounterRun(st, times[..|times| - 1], records[..|records| - 1]), times[|times| - 1], records[|records| - 1])
  }

  /** Detection times at which no timeout can fire: every gap is within the timeout. */
  predicate WithinWindow(times: seq<int>) {
    forall k :: 1 <= k < |times| ==> times[k] - times[k - 1] <= ConsecutiveDetectionTimeout
  }

  /**
   * Starting from a fresh counter, a run whose gaps all stay within the
   * timeout counts every detection and keeps every record.
   */
  lemma {:induction false} CounterRunCountsAll(times: seq<int>, records: seq<PlateRecord>)
    requires |times| == |records| && WithinWindow(times)
    ensures CounterRun(FreshCounter, times, records).count == |times|
    ensures CounterRun(FreshCounter, times, records).detections == records
    ensures times != [] ==> CounterRun(FreshCounter, times, records).lastTimestamp == Some(times[|times| - 1])
    decreases |times|
  {
    if times != [] {
      var n := |times|;
      var ts, rs := times[..n - 1], records[..n - 1];
      assert WithinWindow(ts) by {
        forall k | 1 <= k < |ts| ensures ts[k] - ts[k - 1] <= ConsecutiveDetectionTimeout {
          assert ts[k] == times[k] && ts[k - 1] == times[k - 1];
        }
      }
      CounterRunCountsAll(ts, rs);
      var st := CounterRun(FreshCounter, ts, rs);
      if n > 1 {
        assert st.lastTimestamp == Some(times[n - 2]);
      }
      assert !TimedOut(st, times[n - 1]);
      assert records == rs + [records[n - 1]];
    }
  }

  /**
   * Camera capture stops on the tenth detection of a run within the
   * timeout, not before, and on every later detection of the same run.
   */
  lemma StopsFromTenthDetection(times: seq<int>, records: seq<PlateRecord>, k: nat)
    requires |times| == |records| && WithinWindow(times) && k <= |times|
    ensures CounterRun(FreshCounter, times[..k], records[..k]).count >= ConsecutiveDetectionsRequired <==> k >= 10
  {
    assert WithinWindow(times[..k]) by {
      forall j | 1 <= j < k ensures times[..k][j] - times[..k][j - 1] <= ConsecutiveDetectionTimeout {
        assert times[..k][j] == times[j] && times[..k][j - 1] == times[j - 1];
      }
    }
    CounterRunCountsAll(times[..k], records[..k]);
  }

  /** A detection that comes more than 5000 ms after the last one starts the count again at one. */
  lemma TimeoutRestartsCount(st: ConsecutiveState, now: int, record: PlateRecord)
    requires st.lastTimestamp.Some? && st.lastTimestamp.value != 0
    requires now - st.lastTimestamp.value > ConsecutiveDetectionTimeout
    ensures CounterStep(st, now, record).count == 1
    ensures CounterStep(st, now, record).count < ConsecutiveDetectionsRequired
    ensures CounterStep(st, now, record).detections == [record]
  {
  }

  // ------------------------------------------------------------- group keys

  function Keys(groups: seq<PlateGroup>): (keys: seq<string>)
    ensures |keys| == |groups| && forall i :: 0 <= i < |groups| ==> keys[i] == groups[i].mainText
  {
    if groups == [] then [] else [groups[0].mainText] + Keys(groups[1..])
  }

  /** No two groups are stored under the same key. */
  predicate UniqueKeys(groups: seq<PlateGroup>) {
    forall i, j :: 0 <= i < |groups| && 0 <= j < |groups| && groups[i].mainText == groups[j].mainText ==> i == j
  }

  /** Position of the group stored under `key`. */
  function IndexOfKey(groups: seq<PlateGroup>, key: string): (r: Option<nat>)
    ensures r.Some? ==>
              r.value < |groups| && groups[r.value].mainText == key &&
              forall j :: 0 <= j < r.value ==> groups[j].mainText != key
    ensures r.None? ==> forall j :: 0 <= j < |groups| ==> groups[j].mainText != key
  {
    if groups == [] then None
    else if groups[0].mainText == key then Some(0)
    else match IndexOfKey(groups[1..], key)
      case None => None
      case Some(k) => Some(k + 1)
  }

  /** `plateGroups[g.mainText] = g`: an existing key keeps its place, a new key goes last. */
  function SetKey(groups: seq<PlateGroup>, g: PlateGroup): seq<PlateGroup> {
    match IndexOfKey(groups, g.mainText)
    case Some(i) => groups[i := g]
    case None => groups + [g]
  }

  /** `delete plateGroups[key]`. */
  function DeleteKey(groups: seq<PlateGroup>, key: string): seq<PlateGroup> {
    match IndexOfKey(groups, key)
    case Some(i) => groups[..i] + groups[i + 1..]
    case None => groups
  }

  /** Removing position i leaves the other groups in order. */
  lemma DeleteAtIndices(groups: seq<PlateGroup>, i: nat)
    requires i < |groups|
    ensures var r := groups[..i] + groups[i + 1..];
      |r| == |groups| - 1 &&
      (forall k :: 0 <= k < i ==> r[k] == groups[k]) &&
      (forall k :: i <= k < |r| ==> r[k] == groups[k + 1])
  {
  }

  /** After `SetKey` the group is stored under its key, exactly once, and the other keys are kept. */
  lemma SetKeyProperties(groups: seq<PlateGroup>, g: PlateGroup)
    requires UniqueKeys(groups)
    ensures UniqueKeys(SetKey(groups, g))
    ensures g in SetKey(groups, g)
    ensures forall x :: x in SetKey(groups, g) ==> x == g || (x in groups && x.mainText != g.mainText)
    ensures forall x :: x in groups && x.mainText != g.mainText ==> x in SetKey(groups, g)
    ensures (forall x :: x in groups ==> x.mainText != g.mainText) ==> SetKey(groups, g) == groups + [g]
  {
    match IndexOfKey(groups, g.mainText)
    case Some(i) =>
      var r := groups[i := g];
      assert r[i] == g;
      forall k, j | 0 <= k < |r| && 0 <= j < |r| && r[k].mainText == r[j].mainText ensures k == j {
        if k != i && j != i { assert groups[k].mainText == groups[j].mainText; }
      }
      forall x | x in r ensures x == g || (x in groups && x.mainText != g.mainText) {
        var k :| 0 <= k < |r| && r[k] == x;
        if k != i { assert x == groups[k]; }
      }
      forall x | x in groups && x.mainText != g.mainText ensures x in r {
        var k :| 0 <= k < |groups| && groups[k] == x;
        assert r[k] == x;
      }
    case None =>
  }

  /** After `DeleteKey` no group is stored under the key, and the other groups are kept. */
  lemma DeleteKeyProperties(groups: seq<PlateGroup>, key: string)
    requires UniqueKeys(groups)
    ensures UniqueKeys(DeleteKey(groups, key))
    ensures forall x :: x in DeleteKey(groups, key) <==> x in groups && x.mainText != key
  {
    match IndexOfKey(groups, key)
    case Some(i) =>
      DeleteAtIndices(groups, i);
      var r := groups[..i] + groups[i + 1..];
      forall x | x in r ensures x in groups && x.mainText != key {
        var k :| 0 <= k < |r| && r[k] == x;
        if k < i { assert x == groups[k]; } else { assert x == groups[k + 1]; }
      }
      forall x | x in groups && x.mainText != key ensures x in r {
        var k :| 0 <= k < |groups| && groups[k] == x;
        if k < i { assert r[k] == x; } else { assert k != i && r[k - 1] == x; }
      }
    case None =>
  }

  /** `plateGroups[key] = g` for a key already present: the group is replaced where it stands. */
  lemma ReplaceAtKey(groups: seq<PlateGroup>, i: nat, g: PlateGroup)
    requires UniqueKeys(groups) && i < |groups| && g.mainText == groups[i].mainText
    ensures UniqueKeys(groups[i := g])
    ensures IndexOfKey(groups[i := g], g.mainText) == Some(i)
    ensures forall x :: x in groups[i := g] <==> x == g || (x in groups && x.mainText != g.mainText)
  {
    var r := groups[i := g];
    assert r[i] == g;
    forall k, j | 0 <= k < |r| && 0 <= j < |r| && r[k].mainText == r[j].mainText ensures k == j {
      if k != i && j != i { assert groups[k].mainText == groups[j].mainText; }
    }
    forall x | x in r ensures x == g || (x in groups && x.mainText != g.mainText) {
      var k :| 0 <= k < |r| && r[k] == x;
      if k != i { assert x == groups[k]; }
    }
    forall x | x in groups && x.mainText != g.mainText ensures x in r {
      var k :| 0 <= k < |groups| && groups[k] == x;
      assert r[k] == x;
    }
  }

  // ------------------------------------------------------------- variants

  function Texts(vts: seq<VariantText>): (ts: seq<string>)
    ensures |ts| == |vts| && forall k :: 0 <= k < |vts| ==> ts[k] == vts[k].text
  {
    if vts == [] then [] else [vts[0].text] + Texts(vts[1..])
  }

  predicate DistinctTexts(vts: seq<VariantText>) {
    forall i, j :: 0 <= i < |vts| && 0 <= j < |vts| && vts[i].text == vts[j].text ==> i == j
  }

  /** `variantTexts.findIndex(v => v.text === text)`, with -1 as None. */
  function FindText(vts: seq<VariantText>, t: string): (r: Option<nat>)
    ensures r.Some? ==>
              r.value < |vts| && vts[r.value].text == t &&
              forall j :: 0 <= j < r.value ==> vts[j].text != t
    ensures r.None? <==> t !in Texts(vts)
  {
    if vts == [] then None
    else if vts[0].text == t then Some(0)
    else match FindText(vts[1..], t)
      case None => None
      case Some(k) => Some(k + 1)
  }

  /** In a list of distinct texts, the entry holding a text is the one `FindText` finds. */
  lemma FindTextUnique(vts: seq<VariantText>, k: nat)
    requires DistinctTexts(vts) && k < |vts|
    ensures FindText(vts, vts[k].text) == Some(k)
  {
  }

  /** How many of the records carry text t. */
  function CountText(variants: seq<PlateRecord>, t: string): nat {
    if variants == [] then 0
    else CountText(variants[..|variants| - 1], t) + (if variants[|variants| - 1].text == t then 1 else 0)
  }

  lemma {:induction false} CountTextAbsent(variants: seq<PlateRecord>, t: string)
    requires forall a :: 0 <= a < |variants| ==> variants[a].text != t
    ensures CountText(variants, t) == 0
  {
    if variants != [] {
      CountTextAbsent(variants[..|variants| - 1], t);
    }
  }

  lemma CountTextAppend(variants: seq<PlateRecord>, r: PlateRecord, t: string)
    ensures CountText(variants + [r], t) == CountText(variants, t) + (if r.text == t then 1 else 0)
  {
    assert (variants + [r])[..|variants|] == variants;
  }

  function SumOccurrences(vts: seq<VariantText>): nat {
    if vts == [] then 0 else SumOccurrences(vts[..|vts| - 1]) + vts[|vts| - 1].occurrences
  }

  lemma {:induction false} SumOccurrencesBump(vts: seq<VariantText>, k: nat)
    requires k < |vts|
    ensures SumOccurrences(vts[k := VariantText(vts[k].text, vts[k].occurrences + 1)]) == SumOccurrences(vts) + 1
  {
    var b := vts[k := VariantText(vts[k].text, vts[k].occurrences + 1)];
    var n := |vts|;
    if k < n - 1 {
      assert b[..n - 1] == vts[..n - 1][k := VariantText(vts[k].text, vts[k].occurrences + 1)];
      SumOccurrencesBump(vts[..n - 1], k);
    } else {
      assert b[..n - 1] == vts[..n - 1];
    }
  }

  lemma SumOccurrencesAppend(vts: seq<VariantText>, v: VariantText)
    ensures SumOccurrences(vts + [v]) == SumOccurrences(vts) + v.occurrences
  {
    assert (vts + [v])[..|vts|] == vts;
  }

  /** Each entry's count is at least 1 and is the number of variants carrying its text. */
  predicate Counted(variants: seq<PlateRecord>, vts: seq<VariantText>) {
    forall k :: 0 <= k < |vts| ==> 1 <= vts[k].occurrences && vts[k].occurrences == CountText(variants, vts[k].text)
  }

  /** Every variant's text has an entry. */
  predicate Covered(variants: seq<PlateRecord>, vts: seq<VariantText>) {
    forall a :: 0 <= a < |variants| ==> variants[a].text in Texts(vts)
  }

  /**
   * The tallies of a group agree: the total is the number of variants, and
   * also the sum of the per-text counts; the texts are distinct and each
   * count is the number of variants carrying that text.
   */
  predicate Tallied(g: PlateGroup) {
    |g.variants| >= 1 && g.totalOccurrences == |g.variants| && SumOccurrences(g.variantTexts) == |g.variants| &&
    DistinctTexts(g.variantTexts) && Counted(g.variants, g.variantTexts) && Covered(g.variants, g.variantTexts)
  }

  /** The count recorded for a group's key (`find(v => v.text === groupKey)?.occurrences`). */
  function KeyCount(vts: seq<VariantText>, key: string): Option<nat> {
    match FindText(vts, key)
    case Some(k) => Some(vts[k].occurrences)
    case None => None
  }

  /** The group's key is one of its texts, and no text was seen more often. */
  predicate KeyIsTop(g: PlateGroup) {
    KeyCount(g.variantTexts, g.mainText).Some? &&
    forall k :: 0 <= k < |g.variantTexts| ==> g.variantTexts[k].occurrences <= KeyCount(g.variantTexts, g.mainText).value
  }

  predicate GroupInv(g: PlateGroup) {
    Tallied(g) && KeyIsTop(g)
  }

  /** The group a text starts when it matches none. */
  function NewGroup(r: PlateRecord): (g: PlateGroup)
    ensures GroupInv(g)
  {
    assert [r][..0] == [];
    PlateGroup(r.text, 1, [r], [VariantText(r.text, 1)], r.confidence)
  }

  /** Count one more sighting of text t: bump its entry, or add one with count 1. */
  function BumpVariantText(vts: seq<VariantText>, t: string): seq<VariantText> {
    var found := FindText(vts, t);
    if found.Some? then vts[found.value := VariantText(t, vts[found.value].occurrences + 1)] else vts + [VariantText(t, 1)]
  }

  /** The merge of a record into a group (src/modules/plateStorage.js:112-134). */
  function AddVariant(g: PlateGroup, r: PlateRecord): (merged: PlateGroup)
    ensures merged.mainText == g.mainText && merged.confidenceMean == g.confidenceMean
    ensures merged.variants == g.variants + [r] && merged.totalOccurrences == g.totalOccurrences + 1
  {
    PlateGroup(g.mainText, g.totalOccurrences + 1, g.variants + [r], BumpVariantText(g.variantTexts, r.text), g.confidenceMean)
  }

  /** What counting one more record with text `r.text` does to well-kept tallies. */
  predicate BumpedWell(variants: seq<PlateRecord>, vts: seq<VariantText>, r: PlateRecord, nv: seq<VariantText>) {
    SumOccurrences(nv) == SumOccurrences(vts) + 1 && DistinctTexts(nv) &&
    Counted(variants + [r], nv) && Covered(variants + [r], nv) &&
    forall x :: x in Texts(vts) ==> x in Texts(nv)
  }

  /** Merging keeps the tallies in agreement and keeps the key among the texts. */
  lemma AddVariantTallied(g: PlateGroup, r: PlateRecord)
    requires Tallied(g)
    ensures Tallied(AddVariant(g, r))
    ensures KeyCount(g.variantTexts, g.mainText).Some? ==> KeyCount(AddVariant(g, r).variantTexts, g.mainText).Some?
  {
    var vts := g.variantTexts;
    var nv := BumpVariantText(vts, r.text);
    match FindText(vts, r.text) {
    case Some(k0) =>
      BumpedAt(vts, r.text, k0);
      BumpExistingText(g.variants, vts, r, k0, nv);
    case None =>
      BumpExistingTextAbsent(vts, r.text);
      BumpNewText(g.variants, vts, r, nv);
    }
    MergedTallies(g, r);
  }

  /** Well-kept bumped tallies make the merged group tallied. */
  lemma MergedTallies(g: PlateGroup, r: PlateRecord)
    requires Tallied(g) && BumpedWell(g.variants, g.variantTexts, r, BumpVariantText(g.variantTexts, r.text))
    ensures Tallied(AddVariant(g, r))
    ensures KeyCount(g.variantTexts, g.mainText).Some? ==> KeyCount(AddVariant(g, r).variantTexts, g.mainText).Some?
  {
  }

  lemma BumpedAt(vts: seq<VariantText>, t: string, k0: nat)
    requires FindText(vts, t) == Some(k0)
    ensures k0 < |vts| && vts[k0].text == t
    ensures BumpVariantText(vts, t) == vts[k0 := VariantText(t, vts[k0].occurrences + 1)]
  {
  }

  lemma BumpExistingTextAbsent(vts: seq<VariantText>, t: string)
    requires FindText(vts, t).None?
    ensures t !in Texts(vts)
    ensures BumpVariantText(vts, t) == vts + [VariantText(t, 1)]
  {
  }

  lemma BumpExistingText(variants: seq<PlateRecord>, vts: seq<VariantText>, r: PlateRecord, k0: nat, nv: seq<VariantText>)
    requires DistinctTexts(vts) && Counted(variants, vts) && Covered(variants, vts)
    requires k0 < |vts| && vts[k0].text == r.text && nv == vts[k0 := VariantText(r.text, vts[k0].occurrences + 1)]
    ensures BumpedWell(variants, vts, r, nv)
  {
    BumpKeepsTexts(vts, k0, r.text, nv);
    SumOccurrencesBump(vts, k0);
    BumpCounts(variants, vts, r, k0, nv);
    TextsCover(variants, r, vts, nv);
  }

  lemma BumpNewText(variants: seq<PlateRecord>, vts: seq<VariantText>, r: PlateRecord, nv: seq<VariantText>)
    requires DistinctTexts(vts) && Counted(variants, vts) && Covered(variants, vts)
    requires r.text !in Texts(vts) && nv == vts + [VariantText(r.text, 1)]
    ensures BumpedWell(variants, vts, r, nv)
  {
    AppendKeepsTexts(vts, r.text, nv);
    SumOccurrencesAppend(vts, VariantText(r.text, 1));
    AppendCounts(variants, vts, r, nv);
    TextsCover(variants, r, vts, nv);
  }

  /** Every old variant's text is still listed, and so is the new record's. */
  lemma TextsCover(variants: seq<PlateRecord>, r: PlateRecord, vts: seq<VariantText>, nv: seq<VariantText>)
    requires Covered(variants, vts)
    requires forall x :: x in Texts(vts) ==> x in Texts(nv)
    requires r.text in Texts(nv)
    ensures Covered(variants + [r], nv)
  {
    forall a | 0 <= a < |variants + [r]| ensures (variants + [r])[a].text in Texts(nv) {
      if a < |variants| { assert (variants + [r])[a] == variants[a]; }
    }
  }

  /** Bumping an entry's count leaves the list of texts as it was. */
  lemma BumpKeepsTexts(vts: seq<VariantText>, k0: nat, t: string, nv: seq<VariantText>)
    requires k0 < |vts| && vts[k0].text == t && nv == vts[k0 := VariantText(t, vts[k0].occurrences + 1)]
    ensures Texts(nv) == Texts(vts) && (DistinctTexts(vts) ==> DistinctTexts(nv))
  {
    assert forall k :: 0 <= k < |nv| ==> nv[k].text == vts[k].text;
  }

  /** Appending an entry for a text not yet listed adds it at the end and keeps the texts distinct. */
  lemma AppendKeepsTexts(vts: seq<VariantText>, t: string, nv: seq<VariantText>)
    requires t !in Texts(vts) && nv == vts + [VariantText(t, 1)]
    ensures Texts(nv) == Texts(vts) + [t] && (DistinctTexts(vts) ==> DistinctTexts(nv))
  {
    assert Texts(nv) == Texts(vts) + [t];
    if DistinctTexts(vts) {
      forall i, j | 0 <= i < |nv| && 0 <= j < |nv| && nv[i].text == nv[j].text ensures i == j {
        if i < |vts| { assert Texts(vts)[i] == nv[i].text; }
        if j < |vts| { assert Texts(vts)[j] == nv[j].text; }
      }
    }
  }

  /** After a bump every entry still counts its text among the variants, the record included. */
  lemma BumpCounts(variants: seq<PlateRecord>, vts: seq<VariantText>, r: PlateRecord, k0: nat, nv: seq<VariantText>)
    requires DistinctTexts(vts) && k0 < |vts| && vts[k0].text == r.text && Counted(variants, vts)
    requires nv == vts[k0 := VariantText(r.text, vts[k0].occurrences + 1)]
    ensures Counted(variants + [r], nv)
  {
    forall k | 0 <= k < |nv| ensures 1 <= nv[k].occurrences == CountText(variants + [r], nv[k].text) {
      BumpCountAt(variants, r, vts, k0, k);
    }
  }

  /** After appending an entry for a new text every entry counts its text among the variants. */
  lemma AppendCounts(variants: seq<PlateRecord>, vts: seq<VariantText>, r: PlateRecord, nv: seq<VariantText>)
    requires r.text !in Texts(vts) && Covered(variants, vts) && Counted(variants, vts)
    requires nv == vts + [VariantText(r.text, 1)]
    ensures Counted(variants + [r], nv)
  {
    forall k | 0 <= k < |nv| ensures 1 <= nv[k].occurrences == CountText(variants + [r], nv[k].text) {
      if k < |vts| {
        assert vts[k].text in Texts(vts);
        AppendCountAt(variants, r, vts, k);
      } else {
        forall a | 0 <= a < |variants| ensures variants[a].text != r.text {
          assert variants[a].text in Texts(vts);
        }
        CountTextAbsent(variants, r.text);
        CountTextAppend(variants, r, r.text);
      }
    }
  }

  /** After bumping entry k0 for the record's text, entry k still counts its text among the variants. */
  lemma BumpCountAt(variants: seq<PlateRecord>, r: PlateRecord, vts: seq<VariantText>, k0: nat, k: nat)
    requires k0 < |vts| && k < |vts| && vts[k0].text == r.text && (k != k0 ==> vts[k].text != r.text)
    requires 1 <= vts[k].occurrences == CountText(variants, vts[k].text)
    ensures var nv := vts[k0 := VariantText(r.text, vts[k0].occurrences + 1)];
      1 <= nv[k].occurrences == CountText(variants + [r], nv[k].text)
  {
    CountTextAppend(variants, r, vts[k].text);
  }

  /** A record with a new text leaves the counts of the existing entries as they were. */
  lemma AppendCountAt(variants: seq<PlateRecord>, r: PlateRecord, vts: seq<VariantText>, k: nat)
    requires k < |vts| && vts[k].text != r.text
    requires 1 <= vts[k].occurrences == CountText(variants, vts[k].text)
    ensures var nv := vts + [VariantText(r.text, 1)];
      1 <= nv[k].occurrences == CountText(variants + [r], nv[k].text)
  {
    CountTextAppend(variants, r, vts[k].text);
  }

  // ------------------------------------------------------------- promotion

  /**
   * The `reduce` of `updateMainVariant`: starting from `{occurrences: 0}`, a
   * later entry replaces the current one only with strictly more
   * occurrences, so the result is the first most frequent entry, or none
   * when every count is 0.
   */
  function MostFrequentIndex(vts: seq<VariantText>): (r: Option<nat>)
    ensures r.Some? ==>
              r.value < |vts| && vts[r.value].occurrences > 0 &&
              (forall k :: 0 <= k < |vts| ==> vts[k].occurrences <= vts[r.value].occurrences) &&
              (forall k :: 0 <= k < r.value ==> vts[k].occurrences < vts[r.value].occurrences)
    ensures r.None? ==> forall k :: 0 <= k < |vts| ==> vts[k].occurrences == 0
  {
    if vts == [] then None
    else
      var n := |vts|;
      var m := MostFrequentIndex(vts[..n - 1]);
      var best := match m case Some(i) => vts[i].occurrences case None => 0;
      if vts[n - 1].occurrences > best then Some(n - 1) else m
  }

  /** The mean confidence of the variants; 0 for none (`calculateGroupConfidence`). */
  function CalculateGroupConfidence(variants: seq<PlateRecord>): (mean: real)
    ensures |variants| == 0 ==> mean == 0.0
    ensures |variants| > 0 ==> mean * |variants| as real == SumConfidence(variants)
  {
    if |variants| == 0 then 0.0 else SumConfidence(variants) / |variants| as real
  }

  function SumConfidence(variants: seq<PlateRecord>): real {
    if variants == [] then 0.0 else SumConfidence(variants[..|variants| - 1]) + variants[|variants| - 1].confidence
  }

  lemma {:induction false} SumConfidenceBounds(variants: seq<PlateRecord>, lo: real, hi: real)
    requires forall a :: 0 <= a < |variants| ==> lo <= variants[a].confidence <= hi
    ensures lo * |variants| as real <= SumConfidence(variants) <= hi * |variants| as real
  {
    if variants != [] {
      SumConfidenceBounds(variants[..|variants| - 1], lo, hi);
    }
  }

  /** The mean lies between the smallest and the largest confidence. */
  lemma GroupConfidenceBounds(variants: seq<PlateRecord>, lo: real, hi: real)
    requires |variants| > 0
    requires forall a :: 0 <= a < |variants| ==> lo <= variants[a].confidence <= hi
    ensures lo <= CalculateGroupConfidence(variants) <= hi
  {
    SumConfidenceBounds(variants, lo, hi);
    var n := |variants| as real;
    var mean := CalculateGroupConfidence(variants);
    assert mean * n >= lo * n;
    assert mean * n <= hi * n;
  }

  /** A single variant's mean is its own confidence, which a new group starts with. */
  lemma GroupConfidenceOfOne(r: PlateRecord)
    ensures CalculateGroupConfidence([r]) == NewGroup(r).confidenceMean
  {
    assert [r][..0] == [];
    assert SumConfidence([r]) == r.confidence;
  }

  /**
   * The promotion test of `updateMainVariant`: the most frequent text is
   * not the key and strictly outnumbers the key's own count (a key missing
   * from the texts compares against undefined, which is never exceeded).
   */
  predicate Promotes(g: PlateGroup) {
    var vts := g.variantTexts;
    match MostFrequentIndex(vts)
    case None => false
    case Some(m) =>
      vts[m].text != g.mainText && KeyCount(vts, g.mainText).Some? && vts[m].occurrences > KeyCount(vts, g.mainText).value
  }

  /** The re-keyed group: same totals, variants and texts under the most frequent text, with a fresh mean. */
  function Promoted(g: PlateGroup): (p: PlateGroup)
    requires Promotes(g)
    ensures p.totalOccurrences == g.totalOccurrences && p.variants == g.variants && p.variantTexts == g.variantTexts
    ensures p.confidenceMean == CalculateGroupConfidence(g.variants)
    ensures p.mainText != g.mainText
  {
    var m := MostFrequentIndex(g.variantTexts).value;
    PlateGroup(g.variantTexts[m].text, g.totalOccurrences, g.variants, g.variantTexts, CalculateGroupConfidence(g.variants))
  }

  /** Promotion happens exactly when some text strictly outnumbers the key; ties keep the key. */
  lemma PromotesIff(g: PlateGroup)
    requires DistinctTexts(g.variantTexts)
    ensures Promotes(g) <==>
      KeyCount(g.variantTexts, g.mainText).Some? &&
      exists k :: 0 <= k < |g.variantTexts| && g.variantTexts[k].occurrences > KeyCount(g.variantTexts, g.mainText).value
  {
    var vts := g.variantTexts;
    if KeyCount(vts, g.mainText).Some? {
      var c := KeyCount(vts, g.mainText).value;
      var kk := FindText(vts, g.mainText).value;
      if exists k :: 0 <= k < |vts| && vts[k].occurrences > c {
        var k :| 0 <= k < |vts| && vts[k].occurrences > c;
        var m := MostFrequentIndex(vts);
        assert m.Some?;
        assert vts[m.value].text != g.mainText;
      }
    }
  }

  /** A group that is not promoted keeps a key that no text outnumbers. */
  lemma NotPromotedKeyIsTop(g: PlateGroup)
    requires DistinctTexts(g.variantTexts) && KeyCount(g.variantTexts, g.mainText).Some? && !Promotes(g)
    ensures KeyIsTop(g)
  {
    PromotesIff(g);
  }

  /** A promoted group's new key is its most frequent text. */
  lemma PromotedKeyIsTop(g: PlateGroup)
    requires Tallied(g) && Promotes(g)
    ensures GroupInv(Promoted(g))
  {
    var p := Promoted(g);
    var m := MostFrequentIndex(g.variantTexts).value;
    TalliedIgnoresKey(g, p);
    FindTextUnique(g.variantTexts, m);
    assert KeyCount(p.variantTexts, p.mainText) == Some(g.variantTexts[m].occurrences);
  }

  /** The tallies do not depend on the key or the mean. */
  lemma TalliedIgnoresKey(g: PlateGroup, h: PlateGroup)
    requires Tallied(g)
    requires h.totalOccurrences == g.totalOccurrences && h.variants == g.variants && h.variantTexts == g.variantTexts
    ensures Tallied(h)
  {
  }

  /** `updateMainVariant(groupKey)`: re-key the group under its most frequent text when that text outnumbers the key. */
  function MainVariantUpdated(groups: seq<PlateGroup>, key: string): seq<PlateGroup> {
    match IndexOfKey(groups, key)
    case None => groups
    case Some(i) =>
      if Promotes(groups[i]) then SetKey(DeleteKey(groups, key), Promoted(groups[i])) else groups
  }

  // ------------------------------------------------------------- grouping

  /** `calculateTextSimilarity(text, mainText) >= SIMILARITY_THRESHOLD`; NaN compares false. */
  predicate Similar(text: string, key: string) {
    var s := TextSimilarity(text, key);
    s.Score? && s.value >= SimilarityThreshold
  }

  /** Position of the first group, in key order, whose key is similar to the text. */
  function FirstMatch(groups: seq<PlateGroup>, text: string): (r: Option<nat>)
    ensures r.Some? ==>
              r.value < |groups| && Similar(text, groups[r.value].mainText) &&
              forall j :: 0 <= j < r.value ==> !Similar(text, groups[j].mainText)
    ensures r.None? ==> forall j :: 0 <= j < |groups| ==> !Similar(text, groups[j].mainText)
  {
    FirstWhere(Keys(groups), SimilarTo(text), 0)
  }

  /** The test `similarity >= SIMILARITY_THRESHOLD` against a fixed text. */
  function SimilarTo(text: string): (test: string -> bool)
    ensures forall key :: test(key) == Similar(text, key)
  {
    key => Similar(text, key)
  }

  /** The first key at or after position `from` that satisfies the test. */
  function FirstWhere(keys: seq<string>, test: string -> bool, from: nat): (r: Option<nat>)
    requires from <= |keys|
    ensures r.Some? ==>
              from <= r.value < |keys| && test(keys[r.value]) &&
              forall j :: from <= j < r.value ==> !test(keys[j])
    ensures r.None? ==> forall j :: from <= j < |keys| ==> !test(keys[j])
    decreases |keys| - from
  {
    if from == |keys| then None
    else if test(keys[from]) then Some(from)
    else FirstWhere(keys, test, from + 1)
  }

  /** `groupSimilarDetections`: merge into the first similar group and update its main variant, or start a group. */
  function Grouped(groups: seq<PlateGroup>, r: PlateRecord): seq<PlateGroup> {
    match FirstMatch(groups, r.text)
    case None => SetKey(groups, NewGroup(r))
    case Some(i) => MainVariantUpdated(groups[i := AddVariant(groups[i], r)], groups[i].mainText)
  }

  /** No record is a variant of both groups. */
  predicate ShareNoRecord(a: PlateGroup, b: PlateGroup) {
    forall rec :: rec in a.variants ==> rec !in b.variants
  }

  /** Groups under different keys share no record. */
  predicate DisjointGroups(groups: seq<PlateGroup>) {
    forall x, y :: x in groups && y in groups && x.mainText != y.mainText ==> ShareNoRecord(x, y)
  }

  predicate AllGroupsInv(groups: seq<PlateGroup>) {
    forall g :: g in groups ==> GroupInv(g)
  }

  /** The record belongs to no group yet. */
  predicate Unfiled(groups: seq<PlateGroup>, r: PlateRecord) {
    forall g :: g in groups ==> r !in g.variants
  }

  /** A text that matches no group cannot be the key of one: every text is similar to itself. */
  lemma NoMatchMeansNewKey(groups: seq<PlateGroup>, text: string)
    requires FirstMatch(groups, text).None?
    ensures forall g :: g in groups ==> g.mainText != text
  {
    SimilarityOfIdentical(text);
  }

  /** Without a similar group, a new singleton group is added last. */
  lemma GroupedWithoutMatch(groups: seq<PlateGroup>, r: PlateRecord)
    requires UniqueKeys(groups) && FirstMatch(groups, r.text).None?
    ensures Grouped(groups, r) == groups + [NewGroup(r)]
  {
    NoMatchMeansNewKey(groups, r.text);
    SetKeyProperties(groups, NewGroup(r));
  }

  /**
   * With a similar group at position i that is not promoted, the record joins
   * that group in place and its mean confidence is left as it was.
   */
  lemma GroupedIntoMatch(groups: seq<PlateGroup>, r: PlateRecord, i: nat)
    requires UniqueKeys(groups) && FirstMatch(groups, r.text) == Some(i)
    requires !Promotes(AddVariant(groups[i], r))
    ensures Grouped(groups, r) == groups[i := AddVariant(groups[i], r)]
    ensures Grouped(groups, r)[i].confidenceMean == groups[i].confidenceMean
  {
    ReplaceAtKey(groups, i, AddVariant(groups[i], r));
  }

  /** Re-keying: delete the old key, then store the group under its new key. */
  lemma RekeyProperties(groups: seq<PlateGroup>, key: string, p: PlateGroup)
    requires UniqueKeys(groups) && p.mainText != key
    ensures var res := SetKey(DeleteKey(groups, key), p);
      UniqueKeys(res) && p in res &&
      forall x :: x in res ==> x == p || (x in groups && x.mainText != key && x.mainText != p.mainText)
  {
    DeleteKeyProperties(groups, key);
    SetKeyProperties(DeleteKey(groups, key), p);
  }

  /**
   * With a similar group at position i that is promoted, the group is
   * re-keyed: its old key disappears and the group (same totals, variants
   * and texts, fresh mean) is stored under its most frequent text, replacing
   * any group already there.
   */
  lemma GroupedAndPromoted(groups: seq<PlateGroup>, r: PlateRecord, i: nat)
    requires UniqueKeys(groups) && FirstMatch(groups, r.text) == Some(i)
    requires Promotes(AddVariant(groups[i], r))
    ensures Grouped(groups, r) ==
      SetKey(DeleteKey(groups[i := AddVariant(groups[i], r)], groups[i].mainText), Promoted(AddVariant(groups[i], r)))
    ensures Promoted(AddVariant(groups[i], r)) in Grouped(groups, r)
    ensures forall g :: g in Grouped(groups, r) ==> g.mainText != groups[i].mainText
  {
    var merged := AddVariant(groups[i], r);
    ReplaceAtKey(groups, i, merged);
    RekeyProperties(groups[i := merged], groups[i].mainText, Promoted(merged));
  }

  /** A group set made of one new group and old groups disjoint from it keeps the invariants. */
  lemma InvOfReplacement(groups: seq<PlateGroup>, res: seq<PlateGroup>, p: PlateGroup)
    requires AllGroupsInv(groups) && DisjointGroups(groups) && GroupInv(p)
    requires forall x :: x in res ==> x == p || (x in groups && x.mainText != p.mainText && ShareNoRecord(p, x))
    ensures AllGroupsInv(res) && DisjointGroups(res)
  {
  }

  /** The merged group shares no record with any other group of the old set. */
  lemma MergedIsDisjoint(groups: seq<PlateGroup>, i: nat, r: PlateRecord)
    requires i < |groups| && DisjointGroups(groups) && Unfiled(groups, r)
    ensures forall y :: y in groups && y.mainText != groups[i].mainText ==> ShareNoRecord(AddVariant(groups[i], r), y)
  {
    assert groups[i] in groups;
  }

  lemma InvWithoutMatch(groups: seq<PlateGroup>, r: PlateRecord)
    requires UniqueKeys(groups) && AllGroupsInv(groups) && DisjointGroups(groups) && Unfiled(groups, r)
    requires FirstMatch(groups, r.text).None?
    ensures var res := Grouped(groups, r);
      UniqueKeys(res) && AllGroupsInv(res) && DisjointGroups(res) && NewGroup(r) in res
  {
    GroupedWithoutMatch(groups, r);
    NoMatchMeansNewKey(groups, r.text);
    SetKeyProperties(groups, NewGroup(r));
    InvOfReplacement(groups, Grouped(groups, r), NewGroup(r));
  }

  lemma InvMergedInPlace(groups: seq<PlateGroup>, r: PlateRecord, i: nat)
    requires UniqueKeys(groups) && AllGroupsInv(groups) && DisjointGroups(groups) && Unfiled(groups, r)
    requires i < |groups| && !Promotes(AddVariant(groups[i], r))
    ensures var res := groups[i := AddVariant(groups[i], r)];
      UniqueKeys(res) && AllGroupsInv(res) && DisjointGroups(res)
  {
    var merged := AddVariant(groups[i], r);
    var res := groups[i := merged];
    assert GroupInv(merged) by {
      assert groups[i] in groups;
      MergedGroupInv(groups[i], r);
    }
    assert UniqueKeys(res) &&
      forall x :: x in res ==> x == merged || (x in groups && x.mainText != merged.mainText && ShareNoRecord(merged, x))
    by {
      ReplaceAtKey(groups, i, merged);
      MergedIsDisjoint(groups, i, r);
    }
    InvOfReplacement(groups, res, merged);
  }

  /** The merged group stays a group in good order whether or not it is promoted. */
  lemma MergedGroupInv(g: PlateGroup, r: PlateRecord)
    requires GroupInv(g)
    ensures var merged := AddVariant(g, r);
      Tallied(merged) && (if Promotes(merged) then GroupInv(Promoted(merged)) else GroupInv(merged))
  {
    var merged := AddVariant(g, r);
    AddVariantTallied(g, r);
    if Promotes(merged) {
      PromotedKeyIsTop(merged);
    } else {
      NotPromotedKeyIsTop(merged);
    }
  }

  /**
   * Re-keying the merged group at position i under p's key leaves p and
   * groups of the old set that are stored under neither key, none of which
   * shares a record with p.
   */
  lemma RekeyedShape(groups: seq<PlateGroup>, i: nat, merged: PlateGroup, p: PlateGroup)
    requires UniqueKeys(groups) && i < |groups| && merged.mainText == groups[i].mainText
    requires p.mainText != merged.mainText && p.variants == merged.variants
    requires forall y :: y in groups && y.mainText != merged.mainText ==> ShareNoRecord(merged, y)
    ensures var res := SetKey(DeleteKey(groups[i := merged], merged.mainText), p);
      UniqueKeys(res) && p in res &&
      forall x :: x in res ==> x == p || (x in groups && x.mainText != p.mainText && ShareNoRecord(p, x))
  {
    ReplaceAtKey(groups, i, merged);
    RekeyProperties(groups[i := merged], merged.mainText, p);
  }

  lemma InvMergedAndPromoted(groups: seq<PlateGroup>, r: PlateRecord, i: nat)
    requires UniqueKeys(groups) && AllGroupsInv(groups) && DisjointGroups(groups) && Unfiled(groups, r)
    requires i < |groups| && Promotes(AddVariant(groups[i], r))
    ensures var merged := AddVariant(groups[i], r);
      var res := SetKey(DeleteKey(groups[i := merged], groups[i].mainText), Promoted(merged));
      UniqueKeys(res) && AllGroupsInv(res) && DisjointGroups(res)
  {
    var merged := AddVariant(groups[i], r);
    var p := Promoted(merged);
    assert groups[i] in groups;
    MergedGroupInv(groups[i], r);
    MergedIsDisjoint(groups, i, r);
    RekeyedShape(groups, i, merged, p);
    InvOfReplacement(groups, SetKey(DeleteKey(groups[i := merged], merged.mainText), p), p);
  }

  /**
   * Grouping a record that belongs to no group keeps the keys unique, the
   * tallies of every group in agreement with each key one of its most
   * frequent texts, and the groups disjoint; the record ends up in a group.
   */
  lemma GroupedPreservesInv(groups: seq<PlateGroup>, r: PlateRecord)
    requires UniqueKeys(groups) && AllGroupsInv(groups) && DisjointGroups(groups) && Unfiled(groups, r)
    ensures var res := Grouped(groups, r);
      UniqueKeys(res) && AllGroupsInv(res) && DisjointGroups(res) && exists g :: g in res && r in g.variants
  {
    match FirstMatch(groups, r.text)
    case None =>
      InvWithoutMatch(groups, r);
      assert r in NewGroup(r).variants;
    case Some(i) =>
      var merged := AddVariant(groups[i], r);
      if Promotes(merged) {
        GroupedAndPromoted(groups, r, i);
        InvMergedAndPromoted(groups, r, i);
        assert r in Promoted(merged).variants;
      } else {
        GroupedIntoMatch(groups, r, i);
        InvMergedInPlace(groups, r, i);
        assert Grouped(groups, r)[i] == merged;
        assert r in merged.variants;
      }
  }

  // ------------------------------------------------------------- ranking

  /** The comparator of `getBestPlateDetections`: more occurrences first, then a higher mean confidence. */
  predicate RanksBefore(a: PlateGroup, b: PlateGroup) {
    a.totalOccurrences > b.totalOccurrences ||
    (a.totalOccurrences == b.totalOccurrences && a.confidenceMean > b.confidenceMean)
  }

  /** No group ranks before one that precedes it. */
  predicate Ranked(groups: seq<PlateGroup>) {
    forall i, j :: 0 <= i < j < |groups| ==> !RanksBefore(groups[j], groups[i])
  }

  /** Insert a group ahead of the first group that does not rank before it. */
  function InsertGroup(g: PlateGroup, sorted: seq<PlateGroup>): (r: seq<PlateGroup>)
    ensures multiset(r) == multiset(sorted) + multiset{g}
    ensures |r| == |sorted| + 1
  {
    if sorted == [] || !RanksBefore(sorted[0], g) then [g] + sorted
    else
      assert sorted == [sorted[0]] + sorted[1..];
      [sorted[0]] + InsertGroup(g, sorted[1..])
  }

  /** No group of the sequence ranks before x. */
  predicate NoneRanksBefore(groups: seq<PlateGroup>, x: PlateGroup) {
    forall k :: 0 <= k < |groups| ==> !RanksBefore(groups[k], x)
  }

  /** A group that no group of a ranked sequence outranks can lead it. */
  lemma ConsRanked(x: PlateGroup, groups: seq<PlateGroup>)
    requires Ranked(groups) && NoneRanksBefore(groups, x)
    ensures Ranked([x] + groups)
  {
    var r := [x] + groups;
    forall i, j | 0 <= i < j < |r| ensures !RanksBefore(r[j], r[i]) {
      assert r[j] == groups[j - 1];
      if i > 0 {
        assert r[i] == groups[i - 1];
      }
    }
  }

  /** Inserting a group that does not outrank x keeps x unoutranked. */
  lemma {:induction false} InsertBelow(x: PlateGroup, g: PlateGroup, sorted: seq<PlateGroup>)
    requires NoneRanksBefore(sorted, x) && !RanksBefore(g, x)
    ensures NoneRanksBefore(InsertGroup(g, sorted), x)
  {
    if sorted != [] && RanksBefore(sorted[0], g) {
      var t := sorted[1..];
      assert NoneRanksBefore(t, x) by {
        forall k | 0 <= k < |t| ensures !RanksBefore(t[k], x) {
          assert t[k] == sorted[k + 1];
        }
      }
      InsertBelow(x, g, t);
      var r := [sorted[0]] + InsertGroup(g, t);
      forall k | 0 <= k < |r| ensures !RanksBefore(r[k], x) {
        if k > 0 {
          assert r[k] == InsertGroup(g, t)[k - 1];
        }
      }
    }
  }

  lemma {:induction false} InsertKeepsRanked(g: PlateGroup, sorted: seq<PlateGroup>)
    requires Ranked(sorted)
    ensures Ranked(InsertGroup(g, sorted))
  {
    if sorted == [] || !RanksBefore(sorted[0], g) {
      assert NoneRanksBefore(sorted, g) by {
        forall k | 0 <= k < |sorted| ensures !RanksBefore(sorted[k], g) {
          if k > 0 {
            assert !RanksBefore(sorted[k], sorted[0]);
          }
        }
      }
      ConsRanked(g, sorted);
    } else {
      var t := sorted[1..];
      assert Ranked(t) && NoneRanksBefore(t, sorted[0]) by {
        forall i, j | 0 <= i < j < |t| ensures !RanksBefore(t[j], t[i]) {
          assert t[i] == sorted[i + 1] && t[j] == sorted[j + 1];
        }
        forall k | 0 <= k < |t| ensures !RanksBefore(t[k], sorted[0]) {
          assert t[k] == sorted[k + 1];
        }
      }
      InsertKeepsRanked(g, t);
      InsertBelow(sorted[0], g, t);
      ConsRanked(sorted[0], InsertGroup(g, t));
    }
  }

  /**
   * `Object.values(plateGroups).sort(...)`: a stable sort by the comparator,
   * so groups of equal rank stay in key order.
   */
  function SortGroups(groups: seq<PlateGroup>): (r: seq<PlateGroup>)
    ensures Ranked(r)
    ensures multiset(r) == multiset(groups)
    ensures |r| == |groups|
  {
    if groups == [] then []
    else
      assert groups == [groups[0]] + groups[1..];
      var rest := SortGroups(groups[1..]);
      InsertKeepsRanked(groups[0], rest);
      InsertGroup(groups[0], rest)
  }

  /** The sorted groups are the groups: each position of one holds a member of the other. */
  lemma SortedMembers(groups: seq<PlateGroup>)
    ensures forall k :: 0 <= k < |SortGroups(groups)| ==> SortGroups(groups)[k] in groups
    ensures forall k :: 0 <= k < |groups| ==> groups[k] in SortGroups(groups)
    ensures NonEmptyGroups(groups) ==> NonEmptyGroups(SortGroups(groups))
  {
    var r := SortGroups(groups);
    forall k | 0 <= k < |r| ensures r[k] in groups {
      assert r[k] in multiset(r);
    }
    forall k | 0 <= k < |groups| ensures groups[k] in r {
      assert groups[k] in multiset(groups);
    }
  }

  /**
   * The first variant of highest confidence: what a stable descending sort
   * by confidence puts first (`sortedVariants[0]`).
   */
  function BestVariantIndex(variants: seq<PlateRecord>): (k: nat)
    requires |variants| > 0
    ensures k < |variants|
    ensures forall j :: 0 <= j < |variants| ==> variants[j].confidence <= variants[k].confidence
    ensures forall j :: 0 <= j < k ==> variants[j].confidence < variants[k].confidence
  {
    var n := |variants|;
    if n == 1 then 0
    else
      var k := BestVariantIndex(variants[..n - 1]);
      if variants[n - 1].confidence > variants[k].confidence then n - 1 else k
  }

  function BestVariant(g: PlateGroup): (rec: PlateRecord)
    requires |g.variants| > 0
    ensures rec in g.variants
  {
    g.variants[BestVariantIndex(g.variants)]
  }

  /** Every group has a variant. */
  predicate NonEmptyGroups(groups: seq<PlateGroup>) {
    forall g :: g in groups ==> |g.variants| > 0
  }

  /** `sortedGroups.map(group => bestVariant)`. */
  function BestOf(groups: seq<PlateGroup>): (best: seq<PlateRecord>)
    requires NonEmptyGroups(groups)
    ensures |best| == |groups| && forall k :: 0 <= k < |groups| ==> best[k] == BestVariant(groups[k])
  {
    if groups == [] then [] else BestOf(groups[..|groups| - 1]) + [BestVariant(groups[|groups| - 1])]
  }

  /**
   * `xs.slice(0, end)` for an integer end: a negative end counts back from
   * the length, an end past the length stops at it.
   */
  function JsSlice<T>(xs: seq<T>, end: int): (r: seq<T>)
    ensures |r| <= |xs| && r == xs[..|r|]
    ensures 0 <= end ==> |r| == if end < |xs| then end else |xs|
    ensures end < 0 ==> |r| == if |xs| + end > 0 then |xs| + end else 0
  {
    var relEnd := if end < 0 then (if |xs| + end > 0 then |xs| + end else 0) else (if end < |xs| then end else |xs|);
    xs[..relEnd]
  }

  /**
   * What `getBestPlateDetections(limit)` returns: the k-th record is the best
   * variant of the k-th group in rank order, no record appears twice, there
   * are never more records than groups, for a non-negative limit at most
   * `limit`, and for a limit of at least the number of groups one per group.
   */
  lemma BestDetectionsShape(groups: seq<PlateGroup>, limit: int)
    requires UniqueKeys(groups) && DisjointGroups(groups) && NonEmptyGroups(groups)
    ensures NonEmptyGroups(SortGroups(groups))
    ensures var best := JsSlice(BestOf(SortGroups(groups)), limit);
      |best| <= |groups| && (0 <= limit ==> |best| <= limit) && (limit >= |groups| ==> |best| == |groups|) &&
      (forall k :: 0 <= k < |best| ==> best[k] == BestVariant(SortGroups(groups)[k])) &&
      (forall k, l :: 0 <= k < l < |best| ==> best[k] != best[l])
  {
    SortedMembers(groups);
    var all := BestOf(SortGroups(groups));
    var best := JsSlice(all, limit);
    BestOfSortedDistinct(groups, all);
    forall k, l | 0 <= k < l < |best| ensures best[k] != best[l] {
      assert best[k] == all[k] && best[l] == all[l];
    }
  }

  /** Every group in rank order contributes its own record. */
  lemma BestOfSortedDistinct(groups: seq<PlateGroup>, all: seq<PlateRecord>)
    requires UniqueKeys(groups) && DisjointGroups(groups) && NonEmptyGroups(groups)
    requires NonEmptyGroups(SortGroups(groups)) && all == BestOf(SortGroups(groups))
    ensures forall k, l :: 0 <= k < l < |all| ==> all[k] != all[l]
  {
    var sorted := SortGroups(groups);
    SortedMembers(groups);
    forall k, l | 0 <= k < l < |all| ensures all[k] != all[l] {
      SortedGroupsDistinct(groups, k, l);
      assert sorted[k] in groups && sorted[l] in groups;
      BestVariantsDistinct(groups, sorted[k], sorted[l]);
    }
  }

  /** Groups with unique keys are distinct values, so their sort holds no repeats. */
  lemma SortedGroupsDistinct(groups: seq<PlateGroup>, k: nat, l: nat)
    requires UniqueKeys(groups) && k < l < |groups|
    ensures SortGroups(groups)[k] != SortGroups(groups)[l]
  {
    var sorted := SortGroups(groups);
    if sorted[k] == sorted[l] {
      UniqueKeysNoRepeats(groups, sorted[k]);
      MultisetAtTwoPositions(sorted, k, l);
      assert false;
    }
  }

  /** Under unique keys, a group occurs at most once. */
  lemma UniqueKeysNoRepeats(groups: seq<PlateGroup>, g: PlateGroup)
    requires UniqueKeys(groups)
    ensures multiset(groups)[g] <= 1
  {
    if groups != [] {
      var t := groups[1..];
      assert groups == [groups[0]] + t;
      assert UniqueKeys(t) by {
        forall i, j | 0 <= i < |t| && 0 <= j < |t| && t[i].mainText == t[j].mainText ensures i == j {
          assert groups[i + 1] == t[i] && groups[j + 1] == t[j];
        }
      }
      UniqueKeysNoRepeats(t, g);
      if groups[0] == g {
        forall j | 0 <= j < |t| ensures t[j] != g {
          assert groups[j + 1] == t[j];
        }
      }
    }
  }

  /** A value at two positions occurs at least twice. */
  lemma {:induction false} MultisetAtTwoPositions<T>(s: seq<T>, k: nat, l: nat)
    requires k < l < |s| && s[k] == s[l]
    ensures multiset(s)[s[k]] >= 2
  {
    var pre, mid, post := s[..k], s[k + 1..l], s[l + 1..];
    assert s == pre + [s[k]] + mid + [s[l]] + post;
  }

  /** Distinct groups stored under unique keys have distinct best variants. */
  lemma BestVariantsDistinct(groups: seq<PlateGroup>, g: PlateGroup, h: PlateGroup)
    requires UniqueKeys(groups) && DisjointGroups(groups) && NonEmptyGroups(groups)
    requires g in groups && h in groups && g != h
    ensures BestVariant(g) != BestVariant(h)
  {
    var i :| 0 <= i < |groups| && groups[i] == g;
    var j :| 0 <= j < |groups| && groups[j] == h;
    assert g.mainText != h.mainText;
    assert ShareNoRecord(g, h);
  }

  /** A counter whose count is the number of its records, all of its own text. */
  predicate CounterConsistent(text: string, st: ConsecutiveState) {
    st.count == |st.detections| && forall rec :: rec in st.detections ==> rec.text == text
  }

  predicate CountersConsistent(counters: map<string, ConsecutiveState>) {
    forall t :: t in counters ==> CounterConsistent(t, counters[t])
  }

  /** A detection keeps the counter of its own text consistent. */
  lemma CounterAfterConsistent(counters: map<string, ConsecutiveState>, now: int, record: PlateRecord)
    requires CountersConsistent(counters)
    ensures CountersConsistent(counters[record.text := CounterAfter(counters, record.text, now, record)])
  {
  }

  /**
   * The `map` of `getBestPlateDetections`: for each group in rank order, take
   * its best variant, stamp it with the group's total and as main variant,
   * and collect it. The groups' best variants are distinct records.
   */
  method StampBestVariants(sortedGroups: seq<PlateGroup>, ghost all: seq<PlateRecord>) returns (bestDetections: seq<PlateRecord>)
    requires NonEmptyGroups(sortedGroups) && all == BestOf(sortedGroups)
    requires forall k, l :: 0 <= k < l < |all| ==> all[k] != all[l]
    modifies all
    ensures bestDetections == all
    ensures forall j :: 0 <= j < |all| ==> all[j].occurrences == sortedGroups[j].totalOccurrences && all[j].isMainVariant
  {
      bestDetections := [];
      for k := 0 to |sortedGroups|
        invariant bestDetections == all[..k]
        invariant forall j :: 0 <= j < k ==> all[j].occurrences == sortedGroups[j].totalOccurrences && all[j].isMainVariant
      {
        var group := sortedGroups[k];
        var bestVariant := BestVariant(group);
        assert bestVariant == all[k];
        bestVariant.occurrences := group.totalOccurrences;
        bestVariant.isMainVariant := true;
        bestDetections := bestDetections + [bestVariant];
      }
  }

  /** Stamping the best variant of every sorted group stamps that of every group. */
  lemma StampedEveryGroup(groups: seq<PlateGroup>, sorted: seq<PlateGroup>, all: seq<PlateRecord>)
    requires NonEmptyGroups(groups) && NonEmptyGroups(sorted) && |all| == |sorted|
    requires forall j :: 0 <= j < |sorted| ==> all[j] == BestVariant(sorted[j])
    requires forall k :: 0 <= k < |groups| ==> groups[k] in sorted
    requires forall j :: 0 <= j < |all| ==> all[j].occurrences == sorted[j].totalOccurrences && all[j].isMainVariant
    ensures forall k :: 0 <= k < |groups| ==>
      BestVariant(groups[k]).occurrences == groups[k].totalOccurrences && BestVariant(groups[k]).isMainVariant
  {
    forall k | 0 <= k < |groups|
      ensures BestVariant(groups[k]).occurrences == groups[k].totalOccurrences && BestVariant(groups[k]).isMainVariant
    {
      var j :| 0 <= j < |sorted| && sorted[j] == groups[k];
      assert all[j] == BestVariant(groups[k]);
    }
  }

  /** Every group of a valid store has a variant to pick. */
  lemma InvGroupsNonEmpty(groups: seq<PlateGroup>)
    requires AllGroupsInv(groups)
    ensures NonEmptyGroups(groups)
  {
  }

  /** The best variants in rank order are the best variants in key order. */
  lemma SortedBestsInFrame(groups: seq<PlateGroup>, all: seq<PlateRecord>)
    requires NonEmptyGroups(groups) && NonEmptyGroups(SortGroups(groups)) && all == BestOf(SortGroups(groups))
    ensures forall rec :: rec in all ==> rec in BestOf(groups)
  {
    var sorted := SortGroups(groups);
    SortedMembers(groups);
    forall rec | rec in all ensures rec in BestOf(groups) {
      var j :| 0 <= j < |all| && all[j] == rec;
      var m :| 0 <= m < |groups| && groups[m] == sorted[j];
      assert BestOf(groups)[m] == rec;
    }
  }

  /** `getBestPlateDetections` on the groups in key order. */
  method BestPlateDetections(groups: seq<PlateGroup>, limit: int) returns (best: seq<PlateRecord>)
    requires UniqueKeys(groups) && DisjointGroups(groups) && NonEmptyGroups(groups)
    modifies BestOf(groups)
    ensures NonEmptyGroups(SortGroups(groups)) && best == JsSlice(BestOf(SortGroups(groups)), limit)
    ensures forall k :: 0 <= k < |groups| ==>
      BestVariant(groups[k]).occurrences == groups[k].totalOccurrences && BestVariant(groups[k]).isMainVariant
  {
    var sortedGroups := SortGroups(groups);
    SortedMembers(groups);
    ghost var all := BestOf(sortedGroups);
    BestOfSortedDistinct(groups, all);
    SortedBestsInFrame(groups, all);
    var bestDetections := StampBestVariants(sortedGroups, all);
    StampedEveryGroup(groups, sortedGroups, all);
    best := JsSlice(bestDetections, limit);
  }

  /**
   * The `for...in` scan of `groupSimilarDetections`: the first key, in
   * order, whose similarity with the text reaches the threshold.
   */
  method FindSimilarGroup(groups: seq<PlateGroup>, text: string) returns (found: Option<nat>)
    ensures found == FirstMatch(groups, text)
  {
    found := None;
    for i := 0 to |groups|
      invariant found.None?
      invariant FirstMatch(groups, text) == FirstWhere(Keys(groups), SimilarTo(text), i)
    {
      var similarity := CalculateTextSimilarity(text, groups[i].mainText);
      if similarity.Score? && similarity.value >= SimilarityThreshold {
        found := Some(i);
        break;
      }
    }
  }

  // ------------------------------------------------------------- the store

  /**
   * The aggregator's part of `appState`: the history, the groups, the
   * camera-mode counters, the selected plate and the statistics.
   */
  class PlateStore {
    var detectedPlates: seq<PlateRecord>
    var plateGroups: seq<PlateGroup>
    var cameraConsecutiveDetections: map<string, ConsecutiveState>
    var activePlateIndex: int
    var videoStats: VideoStats

    /**
     * Keys are unique, every group's tallies agree and its key is a most
     * frequent text, groups share no record, every counter counts its own
     * records, and the unique-plate count is the number of groups.
     */
    ghost predicate Valid()
      reads this
    {
      UniqueKeys(plateGroups) && AllGroupsInv(plateGroups) && DisjointGroups(plateGroups) &&
      CountersConsistent(cameraConsecutiveDetections) && videoStats.uniquePlatesCount == |plateGroups|
    }

    /** The initial state in `appState`. */
    constructor ()
      ensures Valid()
      ensures detectedPlates == [] && plateGroups == [] && cameraConsecutiveDetections == map[]
      ensures activePlateIndex == 0 && videoStats == VideoStats(0, 0, 0)
    {
      detectedPlates := [];
      plateGroups := [];
      cameraConsecutiveDetections := map[];
      activePlateIndex := 0;
      videoStats := VideoStats(0, 0, 0);
    }

    /**
     * Record a detection of `data` at time `now` under the fresh `id`. In
     * camera mode the consecutive counter of its text is advanced first, and
     * when it reaches the threshold the call reports a stop and changes
     * nothing else; otherwise the record joins the history and its group and
     * the unique-plate count is refreshed.
     */
    method AddPlateDetection(data: PlateData, mode: Mode, id: string, now: int)
      returns (outcome: AddOutcome, ghost record: PlateRecord)
      requires Valid()
      modifies this
      ensures Valid()
      ensures fresh(record) && record.id == id && record.text == data.text && record.confidence == data.confidence
      ensures record.timestamp == now && record.croppedImage == data.croppedImage
      ensures record.originalBoundingBox == data.boundingBox && record.plateText == data.plateText
      ensures record.occurrences == 1 && !record.isFiltered && !record.isMainVariant
      ensures mode == CameraMode ==>
        cameraConsecutiveDetections ==
          old(cameraConsecutiveDetections)[data.text := CounterAfter(old(cameraConsecutiveDetections), data.text, now, record)]
      ensures mode != CameraMode ==> cameraConsecutiveDetections == old(cameraConsecutiveDetections)
      ensures outcome.StopCamera? <==>
        mode == CameraMode && CounterAfter(old(cameraConsecutiveDetections), data.text, now, record).count >= ConsecutiveDetectionsRequired
      ensures outcome.StopCamera? ==>
        detectedPlates == old(detectedPlates) && plateGroups == old(plateGroups) && videoStats == old(videoStats)
      ensures outcome.Added? ==>
        outcome.record == record && detectedPlates == old(detectedPlates) + [record] &&
        plateGroups == Grouped(old(plateGroups), record) &&
        videoStats == old(videoStats).(uniquePlatesCount := |plateGroups|) &&
        exists g :: g in plateGroups && record in g.variants
      ensures activePlateIndex == old(activePlateIndex)
    {
      var detection := new PlateRecord(id, data, now);
      record := detection;
      if mode == CameraMode {
        var shouldStop := ProcessForCameraMode(detection, now);
        CounterAfterConsistent(old(cameraConsecutiveDetections), now, detection);
        if shouldStop {
          return StopCamera, record;
        }
      }
      assert Unfiled(plateGroups, detection);
      GroupedPreservesInv(plateGroups, detection);
      detectedPlates := detectedPlates + [detection];
      GroupSimilarDetections(detection);
      UpdateDetectionStats();
      outcome := Added(detection);
    }

    /** Advance the counter of the record's text; report whether it reached the threshold. */
    method ProcessForCameraMode(record: PlateRecord, now: int) returns (shouldStop: bool)
      modifies this
      ensures cameraConsecutiveDetections ==
        old(cameraConsecutiveDetections)[record.text := CounterAfter(old(cameraConsecutiveDetections), record.text, now, record)]
      ensures shouldStop <==> cameraConsecutiveDetections[record.text].count >= ConsecutiveDetectionsRequired
      ensures detectedPlates == old(detectedPlates) && plateGroups == old(plateGroups)
      ensures activePlateIndex == old(activePlateIndex) && videoStats == old(videoStats)
    {
      var text := record.text;
      if text !in cameraConsecutiveDetections {
        cameraConsecutiveDetections := cameraConsecutiveDetections[text := FreshCounter];
      }
      var current := cameraConsecutiveDetections[text];
      if HasLastTimestamp(current) && now - current.lastTimestamp.value > ConsecutiveDetectionTimeout {
        current := current.(count := 0, detections := []);
      }
      current := current.(count := current.count + 1, lastTimestamp := Some(now), detections := current.detections + [record]);
      cameraConsecutiveDetections := cameraConsecutiveDetections[text := current];
      shouldStop := current.count >= ConsecutiveDetectionsRequired;
    }

    /**
     * Scan the keys in order for the first one similar to the record's text;
     * merge the record into that group and update its main variant, or start
     * a new group.
     */
    method GroupSimilarDetections(record: PlateRecord)
      modifies this
      ensures plateGroups == Grouped(old(plateGroups), record)
      ensures detectedPlates == old(detectedPlates) && cameraConsecutiveDetections == old(cameraConsecutiveDetections)
      ensures activePlateIndex == old(activePlateIndex) && videoStats == old(videoStats)
    {
      var groups := plateGroups;
      var found := FindSimilarGroup(groups, record.text);
      match found
      case None =>
        plateGroups := SetKey(groups, NewGroup(record));
      case Some(k) =>
        var mainText := groups[k].mainText;
        plateGroups := groups[k := AddVariant(groups[k], record)];
        UpdateMainVariant(mainText);
    }

    /** Re-key the group under `groupKey` when another of its texts strictly outnumbers the key. */
    method UpdateMainVariant(groupKey: string)
      modifies this
      ensures plateGroups == MainVariantUpdated(old(plateGroups), groupKey)
      ensures detectedPlates == old(detectedPlates) && cameraConsecutiveDetections == old(cameraConsecutiveDetections)
      ensures activePlateIndex == old(activePlateIndex) && videoStats == old(videoStats)
    {
      plateGroups := MainVariantUpdated(plateGroups, groupKey);
    }

    /** The count part of `updateDetectionStats`: the number of unique plates is the number of groups. */
    method UpdateDetectionStats()
      modifies this
      ensures videoStats == old(videoStats).(uniquePlatesCount := |plateGroups|)
      ensures detectedPlates == old(detectedPlates) && plateGroups == old(plateGroups)
      ensures cameraConsecutiveDetections == old(cameraConsecutiveDetections) && activePlateIndex == old(activePlateIndex)
    {
      videoStats := videoStats.(uniquePlatesCount := |plateGroups|);
    }

    /**
     * Rank the groups, stamp every group's best variant with the group's
     * total and as its main variant, and return the first `limit` of them.
     */
    method GetBestPlateDetections(limit: int) returns (best: seq<PlateRecord>)
      requires Valid()
      modifies BestOf(plateGroups)
      ensures Valid()
      ensures NonEmptyGroups(plateGroups) && NonEmptyGroups(SortGroups(plateGroups)) && best == JsSlice(BestOf(SortGroups(plateGroups)), limit)
      ensures forall k :: 0 <= k < |plateGroups| ==>
        BestVariant(plateGroups[k]).occurrences == plateGroups[k].totalOccurrences && BestVariant(plateGroups[k]).isMainVariant
    {
      InvGroupsNonEmpty(plateGroups);
      best := BestPlateDetections(plateGroups, limit);
    }

    /** Empty the history, the groups and the counters, select the first plate and zero the statistics. */
    method ClearPlateStorage()
      modifies this
      ensures Valid()
      ensures detectedPlates == [] && plateGroups == [] && cameraConsecutiveDetections == map[]
      ensures activePlateIndex == 0 && videoStats == VideoStats(0, 0, 0)
    {
      detectedPlates := [];
      plateGroups := [];
      cameraConsecutiveDetections := map[];
      activePlateIndex := 0;
      videoStats := VideoStats(0, 0, 0);
      UpdateDetectionStats();
    }
  }
}
