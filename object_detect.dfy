/** Detection bookkeeping and object selection (object_detect.py): the record
    of the latest detections, the choice of one of them by a spoken request,
    and the tracker's replacement of the selected box. The detection model,
    non-maximum suppression and the visual tracker are foreign code; their
    results are inputs here. */
module ObjectDetect {
  import opened Wrappers
  import opened Text
  import opened Config
  import opened Guidance

  // ---------------------------------------------------------------------------
  // Matching a request against a name

  /** `contains_word`: the lower-cased name occurs in the lower-cased request. */
  function ContainsWord(detectedObject: string, userRequest: string): (b: bool)
    ensures b <==> IsSubstring(Lower(detectedObject), Lower(userRequest))
  {
    ContainsIsSubstring(Lower(userRequest), Lower(detectedObject));
    Contains(Lower(userRequest), Lower(detectedObject))
  }

  /** Lower-casing either side first changes nothing. */
  lemma ContainsWordIgnoresCase(detectedObject: string, userRequest: string)
    ensures ContainsWord(Lower(detectedObject), userRequest) == ContainsWord(detectedObject, userRequest)
    ensures ContainsWord(detectedObject, Lower(userRequest)) == ContainsWord(detectedObject, userRequest)
  {
    LowerIdempotent(detectedObject);
    LowerIdempotent(userRequest);
  }

  /** The selection vector: which detected names the request mentions. */
  function Matches(names: seq<string>, request: string): (m: seq<bool>)
    ensures |m| == |names|
  {
    seq(|names|, i requires 0 <= i < |names| => ContainsWord(names[i], request))
  }

  /** Python's `sum` of a list of booleans. */
  function CountTrue(s: seq<bool>): (n: nat)
    ensures n <= |s|
  {
    if s == [] then 0 else (if s[0] then 1 else 0) + CountTrue(s[1..])
  }

  /** The sum is the number of true entries. */
  lemma {:induction false} CountTrueCounts(s: seq<bool>)
    ensures CountTrue(s) == multiset(s)[true]
  {
    if s != [] {
      CountTrueCounts(s[1..]);
      assert s == [s[0]] + s[1..];
    }
  }

  /** No true entry exactly when the count is zero. */
  lemma {:induction false} CountTrueZero(s: seq<bool>)
    ensures CountTrue(s) == 0 <==> forall i :: 0 <= i < |s| ==> !s[i]
  {
    if s != [] {
      CountTrueZero(s[1..]);
      assert forall i :: 1 <= i < |s| ==> s[i] == s[1..][i - 1];
    }
  }

  /** With a count of one, any two true entries are the same entry. */
  lemma {:induction false} CountTrueOne(s: seq<bool>, i: nat, j: nat)
    requires CountTrue(s) == 1
    requires i < |s| && j < |s| && s[i] && s[j]
    ensures i == j
  {
    if i != j {
      if s[0] {
        var k := if i == 0 then j else i;
        assert s[1..][k - 1];
        CountTrueZero(s[1..]);
      } else {
        CountTrueOne(s[1..], i - 1, j - 1);
      }
    }
  }

  /** `where(s)[0]`: the first true position, or |s| if there is none. */
  function FirstTrue(s: seq<bool>): (i: nat)
    ensures i <= |s|
    ensures i < |s| ==> s[i]
    ensures forall j :: 0 <= j < i ==> !s[j]
  {
    if s == [] then 0 else if s[0] then 0 else 1 + FirstTrue(s[1..])
  }

  // ---------------------------------------------------------------------------
  // Class ids to names

  /** A list index outside the list (Python's IndexError). */
  datatype IndexError = IndexError(index: int)

  /** `coco_names[id - 1]` with Python's indexing: a negative position counts
      from the end. */
  function ClassName(cocoNames: seq<string>, id: int): (r: Result<string, IndexError>)
    ensures r.Success? <==> 1 - |cocoNames| <= id <= |cocoNames|
    ensures r.Success? ==> r.value == cocoNames[(id - 1) % |cocoNames|]
    ensures r.Failure? ==> r.error == IndexError(id - 1)
  {
    var i := id - 1;
    if 0 <= i < |cocoNames| then Success(cocoNames[i])
    else if -|cocoNames| <= i < 0 then Success(cocoNames[|cocoNames| + i])
    else Failure(IndexError(i))
  }

  /** `[coco_names[i - 1] for i in flat_list]`: one name per id, in order;
      it fails on the first id whose position is outside the list. */
  function IdsToNames(cocoNames: seq<string>, ids: seq<int>): (r: Result<seq<string>, IndexError>)
    ensures r.Success? <==> forall k :: 0 <= k < |ids| ==> 1 - |cocoNames| <= ids[k] <= |cocoNames|
    ensures r.Success? ==> |r.value| == |ids|
    ensures r.Success? ==> forall k :: 0 <= k < |ids| && ids[k] >= 1 ==> r.value[k] == cocoNames[ids[k] - 1]
    ensures r.Success? ==> forall k :: 0 <= k < |ids| && ids[k] < 1 ==> r.value[k] == cocoNames[|cocoNames| + ids[k] - 1]
  {
    if ids == [] then Success([])
    else
      match ClassName(cocoNames, ids[0])
      case Failure(e) => Failure(e)
      case Success(name) =>
        match IdsToNames(cocoNames, ids[1..])
        case Failure(e) =>
          assert !(1 - |cocoNames| <= ids[1..][FirstBadId(cocoNames, ids[1..])] <= |cocoNames|);
          Failure(e)
        case Success(rest) => Success([name] + rest)
  }

  /** The position of an id that is out of range, if some id is. */
  function FirstBadId(cocoNames: seq<string>, ids: seq<int>): (k: nat)
    ensures k <= |ids|
    ensures k < |ids| ==> !(1 - |cocoNames| <= ids[k] <= |cocoNames|)
    ensures k == |ids| ==> forall j :: 0 <= j < |ids| ==> 1 - |cocoNames| <= ids[j] <= |cocoNames|
  {
    if ids == [] then 0
    else if !(1 - |cocoNames| <= ids[0] <= |cocoNames|) then 0
    else 1 + FirstBadId(cocoNames, ids[1..])
  }

  // ---------------------------------------------------------------------------
  // Loading the class names

  /** Why start-up of the detection module ends the program. */
  datatype LoadError = ClassNamesNotLoaded(count: nat)

  /** The class-name file: its text without trailing newlines, split on
      newlines; the program exits unless there are exactly
      NumCocoClassNames names. */
  function LoadClassNames(text: string): (r: Result<seq<string>, LoadError>)
    ensures r.Success? <==> multiset(RStrip(text, '\n'))['\n'] + 1 == NumCocoClassNames
    ensures r.Success? ==> |r.value| == NumCocoClassNames
    ensures r.Success? ==> Join(r.value, '\n') == RStrip(text, '\n')
    ensures r.Success? ==> forall k :: 0 <= k < |r.value| ==> '\n' !in r.value[k]
  {
    var names := Split(RStrip(text, '\n'), '\n');
    JoinSplit(RStrip(text, '\n'), '\n');
    SplitCount(RStrip(text, '\n'), '\n');
    if |names| != NumCocoClassNames then Failure(ClassNamesNotLoaded(|names|)) else Success(names)
  }

  // ---------------------------------------------------------------------------
  // The detections record

  /** What the detection model and non-maximum suppression return for one
      frame: a class id, a confidence and a box per detection, and the
      positions NMS keeps. */
  datatype SsdOutput = SsdOutput(ids: seq<int>, prob: seq<real>, boxes: seq<Box>, kept: seq<nat>)
  {
    predicate WellFormed() {
      |prob| == |ids| && |boxes| == |ids|
    }
  }

  /** The opaque visual tracker, as far as the core sees it: the box it was
      last initialised with, if any. */
  datatype Tracker = Unseeded | Seeded(box: Box)

  /** `int(v)` on a float: truncation toward zero (TruncateTowardZero). */
  function Truncate(v: real): int
  {
    if v >= 0.0 then v.Floor else -((-v).Floor)
  }

  /** Truncate drops the fractional part: the result is the whole number
      nearest zero within one unit of v, with v's sign. */
  lemma TruncateTowardZero(v: real)
    ensures v >= 0.0 ==> 0 <= Truncate(v) && Truncate(v) as real <= v < Truncate(v) as real + 1.0
    ensures v < 0.0 ==> Truncate(v) <= 0 && Truncate(v) as real - 1.0 < v <= Truncate(v) as real
  {
  }

  /** A snapshot of the detections record without the tracker and the box
      it updates. */
  datatype Snapshot = Snapshot(cocoNames: seq<string>, detectedIds: seq<int>, detectedNames: seq<string>,
                               detections: seq<nat>, prob: seq<real>, boundBox: seq<Box>,
                               selectedObject: Option<string>, selectedObjectIdx: Option<nat>,
                               guideTracking: int)

  /** The record of detection results and of the user's selection. An empty
      selection (Python's `[]` or `()`) is None. */
  class Detections {
    var cocoNames: seq<string>
    var detectedIds: seq<int>
    var detectedNames: seq<string>
    var detections: seq<nat>
    var prob: seq<real>
    var boundBox: seq<Box>
    var selectedObject: Option<string>
    var selectedObjectIdx: Option<nat>
    var selectedBoundBox: Option<Box>
    var tracker: Tracker
    var guideTracking: int

    /** Every detected id has a name and a box. */
    ghost predicate Valid()
      reads this
    {
      |detectedNames| == |detectedIds| && |boundBox| == |detectedIds|
    }

    /** The detection results, the user's selection and the tracking flag:
      everything but the tracker and the selected box it updates. */
    ghost function Detected(): Snapshot
      reads this
    {
      Snapshot(cocoNames, detectedIds, detectedNames, detections, prob, boundBox, selectedObject, selectedObjectIdx,
               guideTracking)
    }

    /** No detections and no selection. */
    ghost predicate Cleared()
      reads this
    {
      && detectedIds == [] && detectedNames == [] && prob == [] && boundBox == [] && detections == []
      && selectedObject == None && selectedObjectIdx == None && selectedBoundBox == None
    }

    /** `Detections()`: everything empty, the tracker not yet initialised. */
    constructor ()
      ensures Valid() && Cleared()
      ensures cocoNames == [] && tracker == Unseeded && guideTracking == 0
    {
      cocoNames := [];
      detectedIds := [];
      detectedNames := [];
      detections := [];
      prob := [];
      boundBox := [];
      selectedObject := None;
      selectedObjectIdx := None;
      selectedBoundBox := None;
      tracker := Unseeded;
      guideTracking := 0;
    }

    /** `clear_previous_detections`: empties every detection and selection
      field and keeps the class names, the tracker and the tracking flag. */
    method ClearPreviousDetections()
      modifies this
      ensures Valid() && Cleared()
      ensures cocoNames == old(cocoNames) && tracker == old(tracker) && guideTracking == old(guideTracking)
    {
      detectedIds := [];
      detectedNames := [];
      prob := [];
      boundBox := [];
      detections := [];
      selectedObject := None;
      selectedObjectIdx := None;
      selectedBoundBox := None;
    }

    /** `get_detections`: stores the model's ids, confidences, boxes and kept
      positions, then names each id. An id outside the class list raises
      IndexError, and the names are then left as they were. */
    method GetDetections(out: SsdOutput) returns (r: Result<(), IndexError>)
      requires out.WellFormed()
      modifies this
      ensures detectedIds == out.ids && prob == out.prob && boundBox == out.boxes && detections == out.kept
      ensures r.Success? <==> IdsToNames(cocoNames, out.ids).Success?
      ensures r.Success? ==> detectedNames == IdsToNames(cocoNames, out.ids).value && Valid()
      ensures r.Failure? ==> detectedNames == old(detectedNames)
      ensures cocoNames == old(cocoNames) && tracker == old(tracker) && guideTracking == old(guideTracking)
      ensures selectedObject == old(selectedObject) && selectedObjectIdx == old(selectedObjectIdx)
      ensures selectedBoundBox == old(selectedBoundBox)
    {
      detectedIds := out.ids;
      prob := out.prob;
      boundBox := out.boxes;
      detections := out.kept;
      match IdsToNames(cocoNames, out.ids)
      case Failure(e) =>
        r := Failure(e);
      case Success(names) =>
        detectedNames := names;
        r := Success(());
    }

    /** `validate_object_selection`: 0 when no detected name is in the
      request, 2 when more than one is (a name detected twice counts twice),
      and 1 when exactly one is, in which case that detection becomes the
      selection. Only a 1 changes anything. */
    method ValidateObjectSelection(request: string) returns (code: int)
      requires Valid()
      modifies this
      ensures Valid()
      ensures code == 0 <==> CountTrue(Matches(detectedNames, request)) == 0
      ensures code == 2 <==> CountTrue(Matches(detectedNames, request)) > 1
      ensures code == 1 <==> CountTrue(Matches(detectedNames, request)) == 1
      ensures code != 1 ==>
        && selectedObject == old(selectedObject) && selectedObjectIdx == old(selectedObjectIdx)
        && selectedBoundBox == old(selectedBoundBox)
      ensures code == 1 ==>
        exists i :: 0 <= i < |detectedNames| && ContainsWord(detectedNames[i], request)
          && selectedObjectIdx == Some(i) && selectedObject == Some(detectedNames[i])
          && selectedBoundBox == Some(boundBox[i])
      ensures cocoNames == old(cocoNames) && detectedIds == old(detectedIds)
      ensures detectedNames == old(detectedNames) && detections == old(detections)
      ensures prob == old(prob) && boundBox == old(boundBox)
      ensures tracker == old(tracker) && guideTracking == old(guideTracking)
    {
      var selection := new bool[|detectedIds|];
      for idx := 0 to |detectedNames|
        modifies selection
        invariant forall j :: 0 <= j < idx ==> selection[j] == ContainsWord(detectedNames[j], request)
      {
        selection[idx] := ContainsWord(detectedNames[idx], request);
      }
      assert selection[..] == Matches(detectedNames, request);
      var total := CountTrue(selection[..]);
      if total == 0 {
        code := 0;
      } else if total > 1 {
        code := 2;
      } else {
        var i := FirstTrue(selection[..]);
        if i == selection.Length {
          CountTrueZero(selection[..]);
        }
        selectedObjectIdx := Some(i);
        selectedObject := Some(detectedNames[i]);
        selectedBoundBox := Some(boundBox[i]);
        code := 1;
      }
    }

    /** With one match, the stored selection is the only detection the request
      names. */
    lemma SelectionIsUnique(request: string, i: nat, j: nat)
      requires Valid()
      requires CountTrue(Matches(detectedNames, request)) == 1
      requires i < |detectedNames| && ContainsWord(detectedNames[i], request)
      requires j < |detectedNames| && ContainsWord(detectedNames[j], request)
      ensures i == j
    {
      CountTrueOne(Matches(detectedNames, request), i, j);
    }

    /** `initialise_tracker`: seeds the tracker with the selected box. */
    method InitialiseTracker()
      requires selectedBoundBox.Some?
      modifies this
      ensures selectedBoundBox == old(selectedBoundBox)
      ensures tracker == Seeded(selectedBoundBox.value)
      ensures selectedObject == old(selectedObject)
      ensures selectedObjectIdx == old(selectedObjectIdx) && cocoNames == old(cocoNames)
      ensures detectedIds == old(detectedIds) && detectedNames == old(detectedNames)
      ensures detections == old(detections) && prob == old(prob) && boundBox == old(boundBox)
      ensures guideTracking == old(guideTracking)
    {
      tracker := Seeded(selectedBoundBox.value);
    }

    /** `track`: the selected box becomes the tracker's box truncated to whole
      pixels, whether or not the tracker reports success; nothing else
      changes. */
    method Track(success: bool, bbox: (real, real, real, real))
      modifies this
      ensures selectedBoundBox == Some(Box(Truncate(bbox.0), Truncate(bbox.1), Truncate(bbox.2), Truncate(bbox.3)))
      ensures selectedObject == old(selectedObject) && selectedObjectIdx == old(selectedObjectIdx)
      ensures cocoNames == old(cocoNames) && detectedIds == old(detectedIds)
      ensures detectedNames == old(detectedNames) && detections == old(detections)
      ensures prob == old(prob) && boundBox == old(boundBox)
      ensures tracker == old(tracker) && guideTracking == old(guideTracking)
    {
      selectedBoundBox := Some(Box(Truncate(bbox.0), Truncate(bbox.1), Truncate(bbox.2), Truncate(bbox.3)));
    }
  }
}
