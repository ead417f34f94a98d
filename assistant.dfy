/** The voice-command loop of the assistant (main.py): the start-up checks,
    the outer loop that waits for the wake word "Surah", and the inner loop
    that serves one command per request while the assistant is awake. What
    the assistant says is a list of outputs: `Phrase(key)` for an entry of
    its response dictionary, `Speech(text)` for any other text. */
module Assistant {
  import opened Wrappers
  import opened Config
  import opened Text
  import opened Guidance
  import opened ObjectDetect
  import opened VideoThread

  // ---------------------------------------------------------------------------
  // Start-up

  /** The setting that names each guidance mode. */
  function ModeName(mode: GuidanceMode): string {
    match mode
    case Glove => "glove"
    case Voice => "voice"
    case Beep => "beep"
    case NoGuidance => "none"
  }

  /** Why the program ends abnormally: a failed start-up check, or an id
      without a class name met by a scan. */
  datatype ProgramError =
    | ClassNames(loadError: LoadError)
    | InvalidGuidanceMode(setting: string)
    | Crashed(indexError: IndexError)

  /** `guidance_mode in guidance_options`: the mode a setting names, or the
      error that ends the program. */
  function CheckGuidanceMode(setting: string): (r: Result<GuidanceMode, ProgramError>)
    ensures r.Success? <==> setting in GuidanceOptions
    ensures r.Success? ==> ModeName(r.value) == setting
    ensures r.Failure? ==> r.error == InvalidGuidanceMode(setting)
  {
    if setting == "glove" then Success(Glove)
    else if setting == "voice" then Success(Voice)
    else if setting == "beep" then Success(Beep)
    else if setting == "none" then Success(NoGuidance)
    else Failure(InvalidGuidanceMode(setting))
  }

  /** Every mode's setting is accepted and names that mode again. */
  lemma ModeNameAccepted(mode: GuidanceMode)
    ensures ModeName(mode) in GuidanceOptions
    ensures CheckGuidanceMode(ModeName(mode)) == Success(mode)
  {
    assert GuidanceOptions[0] == "glove" && GuidanceOptions[1] == "voice";
    assert GuidanceOptions[2] == "beep" && GuidanceOptions[3] == "none";
  }

  /** The start-up order of the program: importing the detection module loads
      the class names first, and only then is the guidance mode checked. */
  function Startup(namesText: string, setting: string): (r: Result<(seq<string>, GuidanceMode), ProgramError>)
    ensures r.Success? <==> LoadClassNames(namesText).Success? && setting in GuidanceOptions
    ensures r.Success? ==> r.value.0 == LoadClassNames(namesText).value && ModeName(r.value.1) == setting
    ensures LoadClassNames(namesText).Failure? ==> r == Failure(ClassNames(LoadClassNames(namesText).error))
  {
    match LoadClassNames(namesText)
    case Failure(e) => Failure(ClassNames(e))
    case Success(names) =>
      match CheckGuidanceMode(setting)
      case Failure(e) => Failure(e)
      case Success(mode) => Success((names, mode))
  }

  /** The assistant's two flags: `operational` keeps the outer loop going
      and `awake` the inner one. */
  class VoiceAssistant {
    var operational: bool
    var awake: bool

    /** A new assistant is operational and asleep. */
    constructor ()
      ensures operational && !awake
    {
      operational := true;
      awake := false;
    }

    /** The outer loop's handling of one request: "exit" ends the program
      after this request and "Surah" wakes the assistant. The two tests are
      independent, so one request can do both; both are case-sensitive. */
    method Listen(request: string) returns (said: seq<Output>)
      modifies this
      ensures said == WakeWords(request).said
      ensures operational == (old(operational) && !WakeWords(request).exits)
      ensures awake == (old(awake) || WakeWords(request).wakes)
    {
      said := [];
      if Contains(request, "exit") {
        said := said + [Phrase("exit")];
        operational := false;
      }
      if Contains(request, "Surah") {
        said := said + [Phrase("surah")];
        awake := true;
      }
    }
  }

  /** What the outer loop makes of a request. */
  datatype Wake = Wake(exits: bool, wakes: bool, said: seq<Output>)

  /** The outer loop's reading of a request: whether it holds "exit" and
      whether it holds "Surah", and the replies, goodbye before greeting. */
  function WakeWords(request: string): (w: Wake)
    ensures w.exits <==> IsSubstring("exit", request)
    ensures w.wakes <==> IsSubstring("Surah", request)
    ensures w.said == (if w.exits then [Phrase("exit")] else []) + (if w.wakes then [Phrase("surah")] else [])
  {
    ContainsIsSubstring(request, "exit");
    ContainsIsSubstring(request, "Surah");
    var exits := Contains(request, "exit");
    var wakes := Contains(request, "Surah");
    Wake(exits, wakes, (if exits then [Phrase("exit")] else []) + (if wakes then [Phrase("surah")] else []))
  }

  /** "exit Surah" both ends the outer loop and wakes the assistant, so the
      inner loop still runs before the program ends. */
  lemma ExitAndWake()
    ensures WakeWords("exit Surah").exits && WakeWords("exit Surah").wakes
    ensures WakeWords("exit Surah").said == [Phrase("exit"), Phrase("surah")]
  {
    assert OccursAt("exit", "exit Surah", 0);
    assert OccursAt("Surah", "exit Surah", 5);
  }

  /** The wake word is case-sensitive: "surah" does not wake the assistant. */
  lemma WakeWordIsCaseSensitive()
    ensures !WakeWords("surah").wakes && !WakeWords("surah").exits
  {
    NotContained("surah", "Surah");
    NotContained("surah", "exit");
  }

  // ---------------------------------------------------------------------------
  // The inner loop's commands

  /** The commands of the inner loop, in the order they are tested, and the
      fallback for a request that names none. */
  datatype Intent =
    | Introduce | ScanObjects | ListObjects | SelectObject | StillAwake | GoToSleep | ExitProgram
    | Unrecognised

  /** The words that select each command, in the order they are tested. */
  const Keywords: seq<string> := ["introduce yourself", "scan", "list", "select", "awake", "sleep", "exit"]

  /** A command's position in the testing order; Unrecognised comes last. */
  function Rank(intent: Intent): nat {
    match intent
    case Introduce => 0
    case ScanObjects => 1
    case ListObjects => 2
    case SelectObject => 3
    case StillAwake => 4
    case GoToSleep => 5
    case ExitProgram => 6
    case Unrecognised => 7
  }

  /** The if/elif chain of the inner loop: the first command whose words the
      request contains, case-sensitively, or Unrecognised when it contains
      none. */
  function Classify(request: string): (intent: Intent)
    ensures intent != Unrecognised ==> Rank(intent) < |Keywords| && Contains(request, Keywords[Rank(intent)])
    ensures forall k :: 0 <= k < Rank(intent) && k < |Keywords| ==> !Contains(request, Keywords[k])
  {
    if Contains(request, "introduce yourself") then Introduce
    else if Contains(request, "scan") then ScanObjects
    else if Contains(request, "list") then ListObjects
    else if Contains(request, "select") then SelectObject
    else if Contains(request, "awake") then StillAwake
    else if Contains(request, "sleep") then GoToSleep
    else if Contains(request, "exit") then ExitProgram
    else Unrecognised
  }

  /** First match decides: any command that is matched by the request with
      no earlier command matched is the one Classify picks. */
  lemma ClassifyIsFirstMatch(request: string, intent: Intent)
    requires intent != Unrecognised ==> Rank(intent) < |Keywords| && Contains(request, Keywords[Rank(intent)])
    requires forall k :: 0 <= k < Rank(intent) && k < |Keywords| ==> !Contains(request, Keywords[k])
    ensures Classify(request) == intent
  {
    var found := Classify(request);
    assert found != Unrecognised ==> Contains(request, Keywords[Rank(found)]);
    assert intent != Unrecognised ==> Contains(request, Keywords[Rank(intent)]);
  }

  /** A word whose first letter is absent from the request is not in it. */
  lemma NotContained(request: string, word: string)
    requires |word| > 0 && word[0] !in request
    ensures !Contains(request, word)
  {
    ContainsIsSubstring(request, word);
    forall i | 0 <= i <= |request| - |word|
      ensures !OccursAt(word, request, i)
    {
      assert request[i..i + |word|][0] == request[i] && request[i] in request;
    }
  }

  /** The command ends the inner loop. */
  predicate Ends(intent: Intent) {
    intent == GoToSleep || intent == ExitProgram
  }

  // ---------------------------------------------------------------------------
  // Serving one request

  /** What one call of the listener hands the loops: the recognised text
      ("" when nothing was recognised) and whether the listener already
      said it did not catch the request. */
  datatype Heard = Heard(text: string, unheard: bool)

  /** One guidance session: the first frame, the clock reading at its start
      and the camera and hand-tracking readings of its passes. */
  datatype Session = Session(first: Frame, now: real, ticks: seq<Tick>)

  /** One request of the inner loop with what the camera would give if the
      request asks for it: the detection model's output for a scan and the
      readings of a guidance session for a selection. */
  datatype Turn = Turn(heard: Heard, camera: SsdOutput, session: Session)

  /** Each name spoken on its own, in order. */
  function Spoken(names: seq<string>): (r: seq<Output>)
    ensures |r| == |names| && forall i :: 0 <= i < |names| ==> r[i] == Speech(names[i])
  {
    if names == [] then [] else [Speech(names[0])] + Spoken(names[1..])
  }

  /** The report after a scan: "no detections" when nothing was detected,
      otherwise every detected name between an opening and a closing
      phrase. */
  function ScanReport(ids: seq<int>, names: seq<string>): (r: seq<Output>)
    ensures |ids| == 0 ==> r == [Phrase("no_detections")]
    ensures |ids| > 0 ==>
      && |r| == |names| + 2 && r[0] == Phrase("detections")
      && r[|r| - 1] == Phrase("detections_complete") && r[1..|r| - 1] == Spoken(names)
  {
    if |ids| == 0 then [Phrase("no_detections")]
    else [Phrase("detections")] + Spoken(names) + [Phrase("detections_complete")]
  }

  /** The scan command: the previous detections and selection are cleared,
      the model's output is stored and named, and the names are reported.
      An id without a class name raises IndexError, which ends the
      program. */
  method Scan(det: Detections, camera: SsdOutput) returns (said: seq<Output>, r: Result<(), IndexError>)
    requires camera.WellFormed()
    modifies det
    ensures det.detectedIds == camera.ids && det.boundBox == camera.boxes
    ensures det.prob == camera.prob && det.detections == camera.kept
    ensures det.selectedObject == None && det.selectedObjectIdx == None && det.selectedBoundBox == None
    ensures det.cocoNames == old(det.cocoNames) && det.tracker == old(det.tracker)
    ensures det.guideTracking == old(det.guideTracking)
    ensures Rescanned(camera, old(det.Detected()), det.Detected())
    ensures r.Success? <==> IdsToNames(det.cocoNames, camera.ids).Success?
    ensures r.Success? ==> det.Valid() && det.detectedNames == IdsToNames(det.cocoNames, camera.ids).value
    ensures r.Success? ==> said == [Phrase("scan")] + ScanReport(camera.ids, det.detectedNames)
    ensures r.Failure? ==> said == [Phrase("scan")] && det.detectedNames == []
  {
    said := [Phrase("scan")];
    det.ClearPreviousDetections();
    r := det.GetDetections(camera);
    if r.Success? {
      said := said + ScanReport(det.detectedIds, det.detectedNames);
    }
  }

  /** The select command. Without a scan there is nothing to select from.
      Otherwise the request is validated against the detected names: no
      match and several matches are refused; one match is announced and the
      guidance loop runs on the session, after which the camera is reset.
      Validation is called a second time when the first call finds a match,
      and gives the same answer. */
  method Select(det: Detections, mode: GuidanceMode, request: string, session: Session)
    returns (said: seq<Output>, ghost passes: seq<Pass>)
    requires det.Valid()
    modifies det
    ensures det.Valid()
    ensures det.cocoNames == old(det.cocoNames) && det.detectedIds == old(det.detectedIds)
    ensures det.detectedNames == old(det.detectedNames) && det.boundBox == old(det.boundBox)
    ensures det.detections == old(det.detections) && det.prob == old(det.prob)
    ensures det.guideTracking == old(det.guideTracking)
    ensures old(det.detectedIds) == [] ==> said == [Phrase("no_scan")] && passes == []
    ensures old(det.detectedIds) == [] || CountTrue(Matches(det.detectedNames, request)) != 1 ==>
      && det.Detected() == old(det.Detected())
      && det.selectedBoundBox == old(det.selectedBoundBox) && det.tracker == old(det.tracker)
    ensures old(det.detectedIds) != [] && CountTrue(Matches(det.detectedNames, request)) == 0 ==>
      said == [Phrase("invalid_selection")] && passes == []
    ensures old(det.detectedIds) != [] && CountTrue(Matches(det.detectedNames, request)) > 1 ==>
      said == [Phrase("multiple_selection")] && passes == []
    ensures old(det.detectedIds) != [] && CountTrue(Matches(det.detectedNames, request)) == 1 ==>
      && (exists i :: 0 <= i < |det.detectedNames| && ContainsWord(det.detectedNames[i], request)
            && det.selectedObjectIdx == Some(i) && det.selectedObject == Some(det.detectedNames[i])
            && (|passes| > 0 ==> det.tracker == Seeded(det.boundBox[i]))
            && (|passes| == 0 ==> det.selectedBoundBox == Some(det.boundBox[i])))
      && (|passes| > 0 ==> det.selectedBoundBox == Some(passes[|passes| - 1].target))
      && (|passes| == 0 ==> det.tracker == old(det.tracker))
      && SelectedOne(request, passes, old(det.Detected()), old(det.tracker),
                     det.Detected(), det.selectedBoundBox, det.tracker)
      && GuidanceRan(session.ticks, mode, passes)
      && said == [Speech(det.selectedObject.value + " selected."), Phrase("selection_made")]
                 + SaidAll(passes, mode) + [Phrase("guide_comp"), Phrase("reset_cam"), Phrase("reset_comp")]
  {
    passes := [];
    if |det.detectedIds| == 0 {
      said := [Phrase("no_scan")];
      return;
    }
    var code := Validate(det, request);
    if code == 0 {
      said := [Phrase("invalid_selection")];
    } else if code == 2 {
      said := [Phrase("multiple_selection")];
    } else {
      said := [Speech(det.selectedObject.value + " selected."), Phrase("selection_made")];
      var guided;
      guided, passes := Guide(det, mode, session);
      said := said + guided;
    }
  }

  /** The validation of a selection as the select command makes it: a first
      call, and when that finds a match a second call whose answer is used.
      The second call answers as the first, so the result is the number of
      matches capped at 2, and a selection is made exactly when there is one
      match. */
  method Validate(det: Detections, request: string) returns (code: int)
    requires det.Valid()
    modifies det
    ensures det.Valid()
    ensures code == 0 <==> CountTrue(Matches(det.detectedNames, request)) == 0
    ensures code == 2 <==> CountTrue(Matches(det.detectedNames, request)) > 1
    ensures code == 1 <==> CountTrue(Matches(det.detectedNames, request)) == 1
    ensures det.cocoNames == old(det.cocoNames) && det.detectedIds == old(det.detectedIds)
    ensures det.detectedNames == old(det.detectedNames) && det.boundBox == old(det.boundBox)
    ensures code != 1 ==>
      && det.Detected() == old(det.Detected())
      && det.selectedBoundBox == old(det.selectedBoundBox) && det.tracker == old(det.tracker)
    ensures det.detections == old(det.detections) && det.prob == old(det.prob)
    ensures det.tracker == old(det.tracker) && det.guideTracking == old(det.guideTracking)
    ensures code == 1 ==>
      exists i :: 0 <= i < |det.detectedNames| && ContainsWord(det.detectedNames[i], request)
        && det.selectedObjectIdx == Some(i) && det.selectedObject == Some(det.detectedNames[i])
        && det.selectedBoundBox == Some(det.boundBox[i])
  {
    code := det.ValidateObjectSelection(request);
    if code != 0 {
      code := det.ValidateObjectSelection(request);
    }
  }

  /** A guidance session on the selected object followed by the camera
      reset, with what both say. */
  method Guide(det: Detections, mode: GuidanceMode, session: Session) returns (said: seq<Output>, ghost passes: seq<Pass>)
    requires det.selectedBoundBox.Some?
    modifies det
    ensures det.Detected() == old(det.Detected())
    ensures GuidanceRan(session.ticks, mode, passes)
    ensures said == SaidAll(passes, mode) + [Phrase("guide_comp"), Phrase("reset_cam"), Phrase("reset_comp")]
    ensures |passes| > 0 ==> det.tracker == Seeded(old(det.selectedBoundBox).value)
    ensures |passes| > 0 ==> det.selectedBoundBox == Some(passes[|passes| - 1].target)
    ensures |passes| == 0 ==> det.tracker == old(det.tracker) && det.selectedBoundBox == old(det.selectedBoundBox)
  {
    var frames, acquired, guided;
    passes, frames, acquired, guided := ThreadVideoShow(det, mode, session.first, session.now, session.ticks);
    said := guided + [Phrase("reset_cam"), Phrase("reset_comp")];
  }

  /** A scan's effect on the detections record: the camera's detections,
      named (no names when an id has none), replace the old ones and the
      selection is cleared; the class names and the tracking flag are kept. */
  ghost predicate Rescanned(camera: SsdOutput, before: Snapshot, after: Snapshot) {
    var names := IdsToNames(before.cocoNames, camera.ids);
    after == before.(detectedIds := camera.ids, detectedNames := if names.Success? then names.value else [],
                     detections := camera.kept, prob := camera.prob, boundBox := camera.boxes,
                     selectedObject := None, selectedObjectIdx := None)
  }

  /** The effect of a select that matches one detected name: that name and
      its index are selected and nothing else in the record changes. When
      guidance ran, the tracker is seeded from the name's box and the
      selected box is the last pass's target; otherwise the name's box is
      the selected box and the tracker is kept. */
  ghost predicate SelectedOne(request: string, passes: seq<Pass>, before: Snapshot, beforeTracker: Tracker,
                              after: Snapshot, afterBox: Option<Box>, afterTracker: Tracker)
  {
    exists i :: 0 <= i < |before.detectedNames| && i < |before.boundBox|
      && ContainsWord(before.detectedNames[i], request)
      && after == before.(selectedObject := Some(before.detectedNames[i]), selectedObjectIdx := Some(i))
      && (|passes| > 0 ==> afterTracker == Seeded(before.boundBox[i])
                           && afterBox == Some(passes[|passes| - 1].target))
      && (|passes| == 0 ==> afterTracker == beforeTracker && afterBox == Some(before.boundBox[i]))
  }

  /** What serving a request of the given intent does to the detections
      record: `before` and `after` are the record on either side, each with
      its selected box and tracker beside it. A scan rescans and clears the
      selected box, keeping the tracker; a select with exactly one match
      selects it; every other request, a select before any scan and a
      refused select leave the record, the selected box and the tracker as
      they were. */
  ghost predicate DetectionsAfter(intent: Intent, request: string, camera: SsdOutput, passes: seq<Pass>,
                                  before: Snapshot, beforeBox: Option<Box>, beforeTracker: Tracker,
                                  after: Snapshot, afterBox: Option<Box>, afterTracker: Tracker)
  {
    if intent == ScanObjects then
      Rescanned(camera, before, after) && afterBox == None && afterTracker == beforeTracker
    else if intent == SelectObject && before.detectedIds != []
            && CountTrue(Matches(before.detectedNames, request)) == 1 then
      SelectedOne(request, passes, before, beforeTracker, after, afterBox, afterTracker)
    else
      after == before && afterBox == beforeBox && afterTracker == beforeTracker
  }

  /** One request of the inner loop: the command the request names is
      served and answered. Sleep ends the inner loop; exit ends both loops;
      an unrecognised request is answered only when the listener has not
      already said it did not catch it. A scan that meets an id without a
      class name fails, and the failure ends the program. */
  method Serve(va: VoiceAssistant, det: Detections, mode: GuidanceMode, turn: Turn)
    returns (said: seq<Output>, r: Result<(), IndexError>, ghost passes: seq<Pass>)
    requires det.Valid() && turn.camera.WellFormed()
    modifies va, det
    ensures var intent := Classify(turn.heard.text);
      && (va.awake <==> old(va.awake) && !Ends(intent))
      && (va.operational <==> old(va.operational) && intent != ExitProgram)
      && (r.Failure? ==> intent == ScanObjects)
      && (r.Success? ==> det.Valid())
      && (intent == Introduce ==> said == [Phrase("intro")])
      && (intent == ListObjects ==> said == [Phrase("detections_memory")] + Spoken(det.detectedNames))
      && (intent == StillAwake ==> said == [Phrase("awake")])
      && (intent == GoToSleep ==> said == [Phrase("sleep")])
      && (intent == ExitProgram ==> said == [Phrase("exit")])
      && (intent == Unrecognised ==> said == if turn.heard.unheard then [] else [Phrase("unknown")])
    ensures DetectionsAfter(Classify(turn.heard.text), turn.heard.text, turn.camera, passes,
                            old(det.Detected()), old(det.selectedBoundBox), old(det.tracker),
                            det.Detected(), det.selectedBoundBox, det.tracker)
    ensures Classify(turn.heard.text) == ScanObjects ==>
      && (r.Success? <==> IdsToNames(det.cocoNames, turn.camera.ids).Success?)
      && said == if r.Success? then [Phrase("scan")] + ScanReport(turn.camera.ids, det.detectedNames)
                 else [Phrase("scan")]
    ensures Classify(turn.heard.text) == SelectObject ==>
      && (old(det.detectedIds) == [] ==> said == [Phrase("no_scan")])
      && (old(det.detectedIds) != [] && CountTrue(Matches(det.detectedNames, turn.heard.text)) == 0 ==>
            said == [Phrase("invalid_selection")])
      && (old(det.detectedIds) != [] && CountTrue(Matches(det.detectedNames, turn.heard.text)) > 1 ==>
            said == [Phrase("multiple_selection")])
      && (old(det.detectedIds) != [] && CountTrue(Matches(det.detectedNames, turn.heard.text)) == 1 ==>
            && GuidanceRan(turn.session.ticks, mode, passes)
            && said == [Speech(det.selectedObject.value + " selected."), Phrase("selection_made")]
                       + SaidAll(passes, mode) + [Phrase("guide_comp"), Phrase("reset_cam"), Phrase("reset_comp")])
  {
    var request := turn.heard.text;
    r, passes := Success(()), [];
    match Classify(request)
    case Introduce =>
      said := [Phrase("intro")];
    case ScanObjects =>
      said, r := Scan(det, turn.camera);
    case ListObjects =>
      said := [Phrase("detections_memory")] + Spoken(det.detectedNames);
    case SelectObject =>
      said, passes := Select(det, mode, request, turn.session);
    case StillAwake =>
      said := [Phrase("awake")];
    case GoToSleep =>
      said := [Phrase("sleep")];
      va.awake := false;
    case ExitProgram =>
      said := [Phrase("exit")];
      va.awake := false;
      va.operational := false;
    case Unrecognised =>
      said := if turn.heard.unheard then [] else [Phrase("unknown")];
  }

  // ---------------------------------------------------------------------------
  // The two loops

  /** The position of the first request from `k` on that ends the inner
      loop, or the number of requests when none does. */
  function FirstEnd(turns: seq<Turn>, k: nat): (j: nat)
    requires k <= |turns|
    ensures k <= j <= |turns|
    ensures forall m :: k <= m < j ==> !Ends(Classify(turns[m].heard.text))
    ensures j < |turns| ==> Ends(Classify(turns[j].heard.text))
    decreases |turns| - k
  {
    if k == |turns| then k
    else if Ends(Classify(turns[k].heard.text)) then k
    else FirstEnd(turns, k + 1)
  }

  /** All camera outputs are as the detection model gives them. */
  predicate CamerasWellFormed(turns: seq<Turn>) {
    forall k :: 0 <= k < |turns| ==> turns[k].camera.WellFormed()
  }

  /** The inner loop from request `start` on, while the assistant is awake:
      it serves requests up to and including the first that ends it (or
      until the requests run out) and leaves the program running unless that
      request was exit. A failed scan stops it at once. */
  method Converse(va: VoiceAssistant, det: Detections, mode: GuidanceMode, turns: seq<Turn>, start: nat)
    returns (said: seq<Output>, next: nat, r: Result<(), IndexError>)
    requires va.awake && start <= |turns| && det.Valid() && CamerasWellFormed(turns)
    modifies va, det
    ensures start <= next <= |turns|
    ensures r.Success? ==> det.Valid()
    ensures r.Success? ==> next == if FirstEnd(turns, start) < |turns| then FirstEnd(turns, start) + 1 else |turns|
    ensures r.Success? ==> (va.awake <==> FirstEnd(turns, start) == |turns|)
    ensures r.Success? ==>
      (va.operational <==>
         old(va.operational)
         && (FirstEnd(turns, start) == |turns| || Classify(turns[FirstEnd(turns, start)].heard.text) != ExitProgram))
    ensures r.Failure? ==> start < next && Classify(turns[next - 1].heard.text) == ScanObjects
  {
    said, next, r := [], start, Success(());
    ghost var stop := FirstEnd(turns, start);
    while va.awake && next < |turns|
      invariant start <= next <= |turns| && det.Valid()
      invariant va.awake ==> next <= stop
      invariant !va.awake ==> next == stop + 1
      invariant va.operational <==>
        old(va.operational) && (va.awake || Classify(turns[stop].heard.text) != ExitProgram)
      decreases |turns| - next
    {
      var i := next;
      ghost var served;
      var reply, outcome;
      reply, outcome, served := ServeNext(va, det, mode, turns[i]);
      said, next := said + reply, i + 1;
      if outcome.Failure? {
        assert Classify(turns[next - 1].heard.text) == ScanObjects;
        r := outcome;
        return;
      }
    }
  }

  /** Serve, seen from the inner loop: what the request does to the two
      flags and to the detections record, and that only a scan can fail. */
  method ServeNext(va: VoiceAssistant, det: Detections, mode: GuidanceMode, turn: Turn)
    returns (said: seq<Output>, r: Result<(), IndexError>, ghost passes: seq<Pass>)
    requires det.Valid() && turn.camera.WellFormed()
    modifies va, det
    ensures va.awake <==> old(va.awake) && !Ends(Classify(turn.heard.text))
    ensures va.operational <==> old(va.operational) && Classify(turn.heard.text) != ExitProgram
    ensures r.Failure? ==> Classify(turn.heard.text) == ScanObjects
    ensures r.Success? ==> det.Valid()
    ensures DetectionsAfter(Classify(turn.heard.text), turn.heard.text, turn.camera, passes,
                            old(det.Detected()), old(det.selectedBoundBox), old(det.tracker),
                            det.Detected(), det.selectedBoundBox, det.tracker)
  {
    said, r, passes := Serve(va, det, mode, turn);
  }

  /** The program after start-up: the outer loop reads a request while the
      assistant is operational, handles "exit" and "Surah", and runs the
      inner loop on the following requests while the assistant is awake.
      It stops when the assistant is no longer operational, when the
      requests run out, or when a scan fails. */
  method Run(va: VoiceAssistant, det: Detections, mode: GuidanceMode, turns: seq<Turn>)
    returns (said: seq<Output>, next: nat, r: Result<(), IndexError>)
    requires !va.awake && det.Valid() && CamerasWellFormed(turns)
    modifies va, det
    ensures next <= |turns|
    ensures r.Success? ==> !va.operational || next == |turns|
    ensures r.Success? && next < |turns| ==> !va.awake
    ensures r.Success? ==> det.Valid()
    ensures r.Failure? ==> 0 < next && Classify(turns[next - 1].heard.text) == ScanObjects
  {
    said, next, r := [], 0, Success(());
    while va.operational && next < |turns|
      invariant next <= |turns| && det.Valid()
      invariant next < |turns| ==> !va.awake
      invariant r.Success?
      decreases |turns| - next
    {
      var greeting := va.Listen(turns[next].heard.text);
      said := said + greeting;
      next := next + 1;
      if va.awake {
        var more;
        more, next, r := Converse(va, det, mode, turns, next);
        said := said + more;
        if r.Failure? {
          return;
        }
      }
    }
  }

  /** The whole program: start-up, the start-up phrase, and the loops. It
      fails when start-up fails, saying nothing, or when a scan fails. */
  method Program(namesText: string, setting: string, turns: seq<Turn>)
    returns (said: seq<Output>, r: Result<(), ProgramError>)
    requires CamerasWellFormed(turns)
    ensures Startup(namesText, setting).Failure? ==> r == Failure(Startup(namesText, setting).error) && said == []
    ensures Startup(namesText, setting).Success? ==> |said| >= 1 && said[0] == Phrase("startup")
    ensures r.Failure? && Startup(namesText, setting).Success? ==> r.error.Crashed?
  {
    var va := new VoiceAssistant();
    var det := new Detections();
    det.cocoNames := Split(RStrip(namesText, '\n'), '\n');
    match Startup(namesText, setting)
    case Failure(e) =>
      said, r := [], Failure(e);
    case Success(loaded) =>
      var more, next, outcome := Run(va, det, loaded.1, turns);
      said := [Phrase("startup")] + more;
      r := if outcome.Success? then Success(()) else Failure(Crashed(outcome.error));
  }
}
