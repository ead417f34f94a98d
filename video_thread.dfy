/** The per-frame cadence and termination of the guidance loop
    (video_thread.py). Capture, drawing and display are replaced by what they
    deliver: one Tick of inputs per pass of the loop. */
module VideoThread {
  import opened Wrappers
  import opened Config
  import opened Guidance
  import opened ObjectDetect

  /** A camera frame; its pixels are not modelled. */
  datatype Frame = Frame(id: nat)

  /** `CountsPerSec`: a start time and a count of occurrences. */
  class CountsPerSec {
    var startTime: Option<real>
    var numOccurrences: nat

    constructor ()
      ensures startTime == None && numOccurrences == 0
    {
      startTime := None;
      numOccurrences := 0;
    }

    /** `start`: records the clock reading `now`; the count is kept. */
    method Start(now: real)
      modifies this
      ensures startTime == Some(now) && numOccurrences == old(numOccurrences)
    {
      startTime := Some(now);
    }

    /** `increment`: one more occurrence. */
    method Increment()
      modifies this
      ensures numOccurrences == old(numOccurrences) + 1 && startTime == old(startTime)
    {
      numOccurrences := numOccurrences + 1;
    }
  }

  /** `VideoShow`: the frame the display shows and its stop flag. */
  class VideoShow {
    var frame: Frame
    var stopped: bool

    constructor (frame: Frame)
      ensures this.frame == frame && !stopped
    {
      this.frame := frame;
      stopped := false;
    }

    /** `stop`: raises the stop flag. */
    method Stop()
      modifies this
      ensures stopped && frame == old(frame)
    {
      stopped := true;
    }

    /** `show`: while not stopped, shows the frame and polls the keyboard;
      `quitKeys[i]` says whether the i-th poll read "q". A poll without "q"
      stores None, which reads as false. Returns how many times the frame was
      shown: none once stopped, else up to and including the first "q". */
    method Show(quitKeys: seq<bool>) returns (shown: nat)
      modifies this
      ensures frame == old(frame)
      ensures old(stopped) ==> shown == 0 && stopped
      ensures !old(stopped) ==>
        shown == (if FirstTrue(quitKeys) < |quitKeys| then FirstTrue(quitKeys) + 1 else |quitKeys|)
      ensures !old(stopped) ==> (stopped <==> FirstTrue(quitKeys) < |quitKeys|)
    {
      shown := 0;
      while !stopped && shown < |quitKeys|
        invariant shown <= |quitKeys| && frame == old(frame)
        invariant old(stopped) ==> shown == 0 && stopped
        invariant !old(stopped) ==> shown <= FirstTrue(quitKeys) + 1
        invariant !old(stopped) ==> (stopped <==> shown > 0 && quitKeys[shown - 1])
        decreases |quitKeys| - shown
      {
        stopped := quitKeys[shown];
        shown := shown + 1;
      }
    }
  }

  /** What the world supplies on one pass of the guidance loop: whether the
      camera read succeeded and the frame it gave, whether the display thread
      has seen "q", the landmarks the hand model would find in this frame, the
      tracker's update (success flag and float box), and whether a spoken
      response is still playing (the response file exists). */
  datatype Tick = Tick(
    grabbed: bool,
    frame: Frame,
    quitPressed: bool,
    landmarks: HandLandmarks,
    trackSuccess: bool,
    trackBox: (real, real, real, real),
    speechBusy: bool)

  /** The loop goes on with a tick: the frame was read and the display has
      not seen "q". */
  predicate Runs(t: Tick) {
    t.grabbed && !t.quitPressed
  }

  /** One processed pass: its count, whether the tracker was initialised and
      the hands detected on it, the tracked target box, the nearest landmark
      (when there were landmarks) and whether guidance feedback was given. */
  datatype Pass = Pass(
    count: nat,
    trackerInitialised: bool,
    handsDetected: bool,
    target: Box,
    closest: Option<Closest>,
    feedbackGiven: bool)

  /** The box `track` stores from a tracker update. */
  function TrackedBox(b: (real, real, real, real)): Box {
    Box(Truncate(b.0), Truncate(b.1), Truncate(b.2), Truncate(b.3))
  }

  /** The landmarks in use on pass k: those of the latest pass with an even
      count, since hand detection only runs on those. */
  function LandmarksInUse(ticks: seq<Tick>, k: nat): seq<Landmark>
    requires k < |ticks|
  {
    if k % 2 == 0 then ticks[k].landmarks else ticks[k - 1].landmarks
  }

  /** The pass the loop makes on `tick` when its count is k and `lms` are the
      hand landmarks in use: the tracker is initialised on count 0, hands are
      detected on even counts, the target is the tracker's box, the nearest
      landmark is sought whenever there are landmarks, and feedback (with
      `guide_hand` still 1) is given on counts that are multiples of 10 while
      no speech is playing. */
  function PassFor(k: nat, tick: Tick, lms: seq<Landmark>): (p: Pass)
    ensures p.count == k && p.target == TrackedBox(tick.trackBox)
    ensures p.feedbackGiven ==> p.handsDetected && p.closest.Some?
  {
    var target := TrackedBox(tick.trackBox);
    var closest := NearestIn(lms, target);
    assert k % 10 == 0 ==> k % 2 == 0 by {
      if k % 10 == 0 {
        MultipleOfTenIsEven(k);
      }
    }
    Pass(k, k == 0, k % 2 == 0, target, closest, closest.Some? && k % 10 == 0 && !tick.speechBusy)
  }

  /** The first n passes the loop makes on `ticks`, when none is cut short. */
  function ExpectedPasses(ticks: seq<Tick>, n: nat): (r: seq<Pass>)
    requires n <= |ticks|
    ensures |r| == n
  {
    if n == 0 then [] else ExpectedPasses(ticks, n - 1) + [PassFor(n - 1, ticks[n - 1], LandmarksInUse(ticks, n - 1))]
  }

  /** Pass k of the expected passes is PassFor on the k-th tick with the
      landmarks in use then. */
  lemma {:induction false} ExpectedPassAt(ticks: seq<Tick>, n: nat, k: nat)
    requires k < n <= |ticks|
    ensures ExpectedPasses(ticks, n)[k] == PassFor(k, ticks[k], LandmarksInUse(ticks, k))
  {
    var prefix := ExpectedPasses(ticks, n - 1);
    var last := PassFor(n - 1, ticks[n - 1], LandmarksInUse(ticks, n - 1));
    assert ExpectedPasses(ticks, n) == prefix + [last];
    if k < n - 1 {
      ExpectedPassAt(ticks, n - 1, k);
      assert (prefix + [last])[k] == prefix[k];
    }
  }

  /** Whether pass p reached the target: feedback was given in an active mode
      with the nearest landmark inside the tolerance. */
  predicate Acquires(p: Pass, mode: GuidanceMode) {
    p.feedbackGiven && p.closest.Some? && mode != NoGuidance && p.closest.value.distance < TargetTolerance
  }

  /** What a pass says: the outputs of `guidance_feedback` (with `guide_hand`
      still 1) on its nearest landmark and target, when feedback was given. */
  function Said(p: Pass, mode: GuidanceMode): seq<Output> {
    if p.feedbackGiven && p.closest.Some?
    then GuidanceFeedback(mode, p.closest.value.landmark, p.closest.value.distance, p.target, 1).outputs
    else []
  }

  /** Everything the passes say, in order. */
  function SaidAll(passes: seq<Pass>, mode: GuidanceMode): seq<Output>
  {
    if passes == [] then [] else SaidAll(passes[..|passes| - 1], mode) + Said(passes[|passes| - 1], mode)
  }

  /** One more pass adds what it says. */
  lemma SaidAllStep(passes: seq<Pass>, p: Pass, mode: GuidanceMode)
    ensures SaidAll(passes + [p], mode) == SaidAll(passes, mode) + Said(p, mode)
  {
    assert (passes + [p])[..|passes|] == passes;
  }

  /** On an odd count the landmarks of the previous pass stay in use. */
  lemma LandmarksCarried(ticks: seq<Tick>, k: nat)
    requires 0 < k < |ticks| && k % 2 == 1
    ensures LandmarksInUse(ticks, k) == LandmarksInUse(ticks, k - 1) == ticks[k - 1].landmarks
  {
  }

  lemma MultipleOfTenIsEven(k: nat)
    requires k % 10 == 0
    ensures k % 2 == 0
  {
    var m := 5 * (k / 10);
    assert k == 2 * m;
  }

  /** The cadence of a pass: feedback is given exactly when there are
      landmarks, the count is a multiple of 10 and no speech is playing; such
      a pass is always a hand-detection pass, so the landmarks it uses are
      fresh; and the landmark it reports is the nearest one. */
  lemma PassCadence(k: nat, tick: Tick, lms: seq<Landmark>)
    ensures var p := PassFor(k, tick, lms);
      && (p.trackerInitialised <==> k == 0)
      && (p.closest.Some? <==> |lms| > 0)
      && (p.feedbackGiven <==> |lms| > 0 && k % 10 == 0 && !tick.speechBusy)
      && (p.feedbackGiven ==> p.handsDetected)
      && (p.closest.Some? ==> IsClosest(p.closest.value, lms, p.target))
  {
    NearestInIsClosest(lms, TrackedBox(tick.trackBox));
    if k % 10 == 0 {
      MultipleOfTenIsEven(k);
    }
  }

  /** A pass that reaches the target says "acquired" and nothing else, and
      its nearest landmark lies inside the tolerance band on both axes. */
  lemma AcquiringPass(k: nat, tick: Tick, lms: seq<Landmark>, mode: GuidanceMode)
    requires Acquires(PassFor(k, tick, lms), mode)
    ensures var p := PassFor(k, tick, lms);
      && Said(p, mode) == [Phrase("acquired")]
      && DirToTarget(p.closest.value.landmark, p.target) == (XInside, YInside)
  {
    var target := TrackedBox(tick.trackBox);
    NearestInIsClosest(lms, target);
    var c := NearestIn(lms, target).value;
    AcquiredImpliesInside(c.landmark, target);
  }

  /** The body of one processed pass of `thread_video_show`, with `guide_hand`
      still 1: tracker set-up on count 0, hand detection on even counts (the
      previous `results` are kept otherwise), tracking, and feedback when due.
      Returns the pass, the hand results now held, the new `guide_hand` and
      the outputs produced. */
  method GuidancePass(det: Detections, mode: GuidanceMode, tick: Tick, count: nat, results: HandLandmarks)
    returns (p: Pass, held: HandLandmarks, guideHand: int, outputs: seq<Output>)
    requires det.selectedBoundBox.Some?
    modifies det
    ensures held == if count % 2 == 0 then tick.landmarks else results
    ensures p == PassFor(count, tick, held)
    ensures guideHand == (if Acquires(p, mode) then 0 else 1)
    ensures outputs == Said(p, mode)
    ensures det.tracker == (if count == 0 then Seeded(old(det.selectedBoundBox).value) else old(det.tracker))
    ensures det.selectedBoundBox == Some(p.target)
    ensures det.Detected() == old(det.Detected())
  {
    // selected object start
    var initialised := false;
    if count == 0 {
      det.InitialiseTracker();
      initialised := true;
    }
    // hand detection on even counts
    held := results;
    var detected := false;
    if count % 2 == 0 {
      held := tick.landmarks;
      detected := true;
    }
    // target tracking
    det.Track(tick.trackSuccess, tick.trackBox);
    var target := det.selectedBoundBox.value;
    // guidance
    var closest: Option<Closest> := None;
    var given := false;
    guideHand, outputs := 1, [];
    if |held| > 0 {
      var nearest := CalcMinDist(held, target);
      closest := Some(nearest.value);
      if count % 10 == 0 && !tick.speechBusy {
        var step := GuidanceFeedback(mode, nearest.value.landmark, nearest.value.distance, target, 1);
        guideHand, outputs := step.guideHand, step.outputs;
        given := true;
      }
    } else {
      NearestInIsClosest(held, target);
    }
    p := Pass(count, initialised, detected, target, closest, given);
  }

  /** The state of the guidance loop after `passes`: they are the expected
      passes on the first ticks, each made on a frame that was read while the
      display ran; `results` are the landmarks in use on the last pass; and
      `guide_hand` is 0 exactly when the last pass reached the target, which
      no earlier pass did. */
  ghost predicate Progress(ticks: seq<Tick>, mode: GuidanceMode, passes: seq<Pass>, results: seq<Landmark>,
                           guideHand: int)
  {
    && |passes| <= |ticks|
    && passes == ExpectedPasses(ticks, |passes|)
    && (|passes| > 0 ==> results == LandmarksInUse(ticks, |passes| - 1))
    && (guideHand == 0 || guideHand == 1)
    && (guideHand == 0 <==> |passes| > 0 && Acquires(passes[|passes| - 1], mode))
    && (forall k {:trigger Acquires(passes[k], mode)} :: 0 <= k < |passes| - 1 ==> !Acquires(passes[k], mode))
    && (forall k {:trigger Runs(ticks[k])} :: 0 <= k < |passes| ==> Runs(ticks[k]))
  }

  /** One more pass, made on the next tick while `guide_hand` was 1, keeps
      Progress. */
  lemma ProgressStep(ticks: seq<Tick>, mode: GuidanceMode, passes: seq<Pass>, results: seq<Landmark>,
                     p: Pass, held: seq<Landmark>, guideHand: int)
    requires Progress(ticks, mode, passes, results, 1)
    requires |passes| < |ticks| && Runs(ticks[|passes|])
    requires var i := |passes|; held == if i % 2 == 0 then ticks[i].landmarks else results
    requires p == PassFor(|passes|, ticks[|passes|], held)
    requires guideHand == (if Acquires(p, mode) then 0 else 1)
    ensures Progress(ticks, mode, passes + [p], held, guideHand)
  {
    var i := |passes|;
    var next := passes + [p];
    if i % 2 == 1 {
      LandmarksCarried(ticks, i);
    }
    ExpectedStep(ticks, i, held);
    assert next == ExpectedPasses(ticks, i + 1);
    NoEarlierAcquisition(passes, p, mode);
    assert next[i] == p;
    assert forall k {:trigger Runs(ticks[k])} :: 0 <= k < i + 1 ==> Runs(ticks[k]);
  }

  /** The expected passes grow by one pass at a time. */
  lemma ExpectedStep(ticks: seq<Tick>, i: nat, held: seq<Landmark>)
    requires i < |ticks| && held == LandmarksInUse(ticks, i)
    ensures ExpectedPasses(ticks, i + 1) == ExpectedPasses(ticks, i) + [PassFor(i, ticks[i], held)]
  {
  }

  lemma NoEarlierAcquisition(passes: seq<Pass>, p: Pass, mode: GuidanceMode)
    requires forall k :: 0 <= k < |passes| ==> !Acquires(passes[k], mode)
    ensures forall k :: 0 <= k < |passes| ==> !Acquires((passes + [p])[k], mode)
  {
    assert forall k :: 0 <= k < |passes| ==> (passes + [p])[k] == passes[k];
  }

  /** One iteration of the guidance loop on the next tick, while
      `guide_hand` is 1: the frame goes to the display, the pass is made with
      the current count, the count goes up by one, and the loop's account of
      what has happened so far stays true. */
  method LoopPass(det: Detections, video: VideoShow, cps: CountsPerSec, mode: GuidanceMode, ticks: seq<Tick>,
                  ghost passes: seq<Pass>, results: HandLandmarks, outputs: seq<Output>)
    returns (p: Pass, held: HandLandmarks, guideHand: int, said: seq<Output>)
    requires Progress(ticks, mode, passes, results, 1) && outputs == SaidAll(passes, mode)
    requires cps.numOccurrences == |passes| < |ticks| && Runs(ticks[|passes|])
    requires det.selectedBoundBox.Some?
    requires |passes| > 0 ==> det.selectedBoundBox == Some(passes[|passes| - 1].target)
    modifies det, video, cps
    ensures video.frame == ticks[|passes|].frame && video.stopped == old(video.stopped)
    ensures cps.numOccurrences == |passes| + 1 && cps.startTime == old(cps.startTime)
    ensures Progress(ticks, mode, passes + [p], held, guideHand)
    ensures outputs + said == SaidAll(passes + [p], mode)
    ensures det.tracker == (if |passes| == 0 then Seeded(old(det.selectedBoundBox).value) else old(det.tracker))
    ensures det.selectedBoundBox == Some(p.target)
    ensures det.Detected() == old(det.Detected())
  {
    var count := cps.numOccurrences;
    video.frame := ticks[count].frame;
    p, held, guideHand, said := GuidancePass(det, mode, ticks[count], count, results);
    ProgressStep(ticks, mode, passes, results, p, held, guideHand);
    SaidAllStep(passes, p, mode);
    cps.Increment();
  }

  /** `thread_video_show`: the guidance loop. It runs while `guide_hand` is 1;
      a failed read or a stopped display stops the display and leaves the
      loop without counting the pass; running out of ticks counts as a failed
      read. Pass k is PassFor on the k-th tick with the landmarks in use; the
      loop ends at the first pass that reaches the target. What it says is
      what its passes say, followed by "guidance complete". */
  method ThreadVideoShow(det: Detections, mode: GuidanceMode, first: Frame, now: real, ticks: seq<Tick>)
    returns (passes: seq<Pass>, frames: nat, acquired: bool, outputs: seq<Output>)
    requires det.selectedBoundBox.Some?
    modifies det
    ensures frames == |passes| <= |ticks|
    ensures forall k {:trigger Runs(ticks[k])} :: 0 <= k < |passes| ==> Runs(ticks[k])
    ensures passes == ExpectedPasses(ticks, |passes|)
    ensures acquired <==> |passes| > 0 && Acquires(passes[|passes| - 1], mode)
    ensures forall k {:trigger Acquires(passes[k], mode)} :: 0 <= k < |passes| - 1 ==> !Acquires(passes[k], mode)
    ensures !acquired ==> |passes| == |ticks| || !Runs(ticks[|passes|])
    ensures outputs == SaidAll(passes, mode) + [Phrase("guide_comp")]
    ensures |passes| > 0 ==> det.tracker == Seeded(old(det.selectedBoundBox).value)
    ensures |passes| > 0 ==> det.selectedBoundBox == Some(passes[|passes| - 1].target)
    ensures |passes| == 0 ==> det.tracker == old(det.tracker) && det.selectedBoundBox == old(det.selectedBoundBox)
    ensures det.Detected() == old(det.Detected())
  {
    var video := new VideoShow(first);
    var cps := new CountsPerSec();
    cps.Start(now);
    var guideHand := 1;
    var results: HandLandmarks := [];
    ghost var selection := det.selectedBoundBox.value;
    passes, outputs := [], [];
    while guideHand == 1
      invariant Progress(ticks, mode, passes, results, guideHand)
      invariant outputs == SaidAll(passes, mode)
      invariant cps.numOccurrences == |passes|
      invariant |passes| == 0 ==> det.selectedBoundBox == Some(selection) && det.tracker == old(det.tracker)
      invariant |passes| > 0 ==> det.tracker == Seeded(selection)
      invariant |passes| > 0 ==> det.selectedBoundBox == Some(passes[|passes| - 1].target)
      invariant det.selectedBoundBox.Some?
      invariant det.Detected() == old(det.Detected())
      decreases |ticks| - |passes|
    {
      var i := cps.numOccurrences;
      if i == |ticks| || !ticks[i].grabbed || ticks[i].quitPressed {
        video.Stop();
        break;
      }
      var pass, held, said;
      pass, held, guideHand, said := LoopPass(det, video, cps, mode, ticks, passes, results, outputs);
      passes, results, outputs := passes + [pass], held, outputs + said;
    }
    frames := cps.numOccurrences;
    acquired := guideHand == 0;
    outputs := outputs + [Phrase("guide_comp")];
  }

  /** What one run of the guidance loop on `ticks` amounts to: the expected
      passes, each on a tick that was read while the display ran, none but
      the last reaching the target, and a reason to stop after the last: it
      reached the target, or the next tick is missing or does not run. */
  ghost predicate GuidanceRan(ticks: seq<Tick>, mode: GuidanceMode, passes: seq<Pass>) {
    && |passes| <= |ticks|
    && passes == ExpectedPasses(ticks, |passes|)
    && (forall k {:trigger Runs(ticks[k])} :: 0 <= k < |passes| ==> Runs(ticks[k]))
    && (forall k {:trigger Acquires(passes[k], mode)} :: 0 <= k < |passes| - 1 ==> !Acquires(passes[k], mode))
    && (|passes| == |ticks| || !Runs(ticks[|passes|]) || (|passes| > 0 && Acquires(passes[|passes| - 1], mode)))
  }

  /** Up to any point before its end, a run kept going: the tick there ran
      and the pass before it did not reach the target. */
  lemma StillRunning(ticks: seq<Tick>, mode: GuidanceMode, passes: seq<Pass>, n: nat)
    requires GuidanceRan(ticks, mode, passes) && n <= |ticks|
    ensures n < |passes| ==> Runs(ticks[n]) && (n > 0 ==> !Acquires(ExpectedPasses(ticks, n)[n - 1], mode))
  {
    if 0 < n < |passes| {
      ExpectedPassAt(ticks, |passes|, n - 1);
      ExpectedPassAt(ticks, n, n - 1);
      assert ExpectedPasses(ticks, n)[n - 1] == passes[n - 1];
    }
  }

  /** The ticks decide the run: two runs on the same ticks are the same
      passes. */
  lemma GuidanceRanUnique(ticks: seq<Tick>, mode: GuidanceMode, a: seq<Pass>, b: seq<Pass>)
    requires GuidanceRan(ticks, mode, a) && GuidanceRan(ticks, mode, b)
    ensures a == b
  {
    StillRunning(ticks, mode, a, |b|);
    StillRunning(ticks, mode, b, |a|);
  }
}
