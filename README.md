# heySurah — a verified model of the assistant's core

heySurah is a voice-driven assistant for people with impaired vision. It
wakes on the word "Surah". It scans the camera image with an SSD object
detector and reads out the objects it found. It lets the user select one of
them by name. It then guides the user's hand to that object: each video frame
it tracks the object and finds the hand landmark nearest to it. Every tenth
frame it gives feedback in one of three ways: vibration pulses on a glove,
spoken directions, or a beep whose pitch rises as the hand gets closer.
Guidance stops when the nearest landmark comes within 40 pixels of the
object's centre.

The project models that core in Dafny, one module per source file:

| module | file | models |
|---|---|---|
| `Wrappers` | — | `Option` and `Result` |
| `Text` | — | the Python string operations the core relies on: `lower`, `in`, `str(int)`, `rstrip`, `split` |
| `Config` | `config.py` | the guidance options, the 40 px tolerance, the beep duration, the 91 class names, the pulse lengths |
| `Guidance` | `guidance_system.py` | the glove codes, the distance to the target, the nearest landmark, the direction votes and the three kinds of feedback |
| `ObjectDetect` | `object_detect.py` | the `Detections` object: clearing it, reading the SSD output into it, choosing a selection, the tracker, and the class-name file check |
| `VideoThread` | `video_thread.py` | the frame counter, the display object, and the guidance loop with its gating by frame count |
| `Assistant` | `main.py` | the start-up checks, the outer wake/exit loop and the inner command dispatch |

Parts the source updates in place are written as classes with `modifies`
frames:
- `Detections`;
- `CountsPerSec`;
- `VideoShow`;
- the assistant's `operational`/`awake` flags (`VoiceAssistant`).

Each state-changing method states its new state, except the two loops of
`main.py` (`Converse` and `Run`, see "## Left out"). Pure computations are
functions with lemmas.

Distances follow the code exactly. `numpy.sqrt` and Python 3's `round`
(round half to even) are computed on integers. The landmark and the doubled
box centre give a squared distance S. The rounded distance r is the unique
natural number with (2r-1)² ≤ S ≤ (2r+1)², taking the even value on a tie
(`Guidance.RoundedHalfRootSpec`, `Guidance.RoundedHalfRootUnique`).

`Guidance.AcquisitionExample` proves an example. The landmark (120, 120)
is at distance 7 from the centre (125, 125) of the box (100, 100, 50, 50).
That is inside the acquisition radius, so every guidance mode reports the
target acquired.

## Model

| member | source | states |
|---|---|---|
| `Guidance.CodeTable` | guidance_system.py:26-27 | every glove location has a key, and its 4-bit motor code reads back to that location through the key table and through the motors it sets |
| `Guidance.DiagonalCodes` | guidance_system.py:26-27 | each diagonal code sets exactly the union of the motors of its two neighbouring directions (tr = fw+r, br = r+bw, bl = bw+l, tl = fw+l) |
| `Guidance.CodesDistinct` | guidance_system.py:26-27 | no two locations share a motor code |
| `Guidance.Buzz` | guidance_system.py:21-29 | `buzz` fails with a key error exactly for an unknown location key; otherwise the command starts with that location's motor code and parses back to the key and the duration |
| `Guidance.Command` | guidance_system.py:28 | the command string: the location's code, `buzz`, the duration in decimal and `.`. It has no contract of its own; `BuzzReadsBack` proves it parses back |
| `Guidance.BuzzReadsBack` | guidance_system.py:26-28 | the command written for a location is the code, then `buzz`, then the decimal duration, then `.`, and parsing it yields the location key and duration again |
| `Guidance.KeyOfLocationOfKey` | guidance_system.py:26-27 | a key that the table accepts is the key of the location it names |
| `Guidance.IsqrtBounds` | guidance_system.py:37-42 | the integer square root r with remainder m satisfies r² + m = n < (r+1)² |
| `Guidance.RoundedHalfRootSpec` | guidance_system.py:37-42 | the computed distance is round-half-to-even of √S/2: within ½ of it, and even on a tie |
| `Guidance.RoundedHalfRootUnique` | guidance_system.py:37-42 | exactly one natural number meets that rounding specification |
| `Guidance.RoundedOrder` | guidance_system.py:37-42 | numbers meeting the rounding specification for S₁ ≤ S₂ are ordered the same way |
| `Guidance.RoundedHalfRootMonotone` | guidance_system.py:37-42 | the rounded distance never decreases as the squared distance grows |
| `Guidance.LandmarkDistance` | guidance_system.py:41-42 | a landmark's distance is sqrt((lx−cx)² + (ly−cy)²) to the unrounded box centre, rounded half to even, as the rounding specification above defines it |
| `Guidance.CentreDistanceZero` | guidance_system.py:37-42 | a landmark exactly at the box centre is at distance 0 |
| `Guidance.ClosestUnique` | guidance_system.py:46-50 | the nearest landmark, with its distance, is uniquely determined: the lowest index among the minimal distances |
| `Guidance.NearestInIsClosest` | guidance_system.py:37-52 | the reference definition of the nearest landmark exists iff there are landmarks, and it has the minimal distance at the first index reaching it |
| `Guidance.MinOf` | guidance_system.py:46 | `min` over the distance array returns an element that is no larger than any other |
| `Guidance.IndexOf` | guidance_system.py:50 | `dists.index(min_dist)` returns the first position holding the value |
| `Guidance.CalcMinDist` | guidance_system.py:33-56 | fails with `NoLandmarks` exactly on an empty list, since `min` of an empty list raises. Otherwise it takes the reference nearest landmark. If that landmark's position is 21 or more, it fails with `UnnamedLandmark`, since the `mp_dict` lookup at line 52 raises a `KeyError`. Otherwise it returns that landmark and its distance. One hand's landmarks (1 to 21) always succeed |
| `Guidance.RoundedCentre` | guidance_system.py:62-63 | the target centre is the rounded half-sum (2v+w)/2, with ties going to the even number |
| `Guidance.DirToTarget` | guidance_system.py:59-81 | x votes right when the landmark is more than 40 px left of the rounded centre, left when more than 40 px right of it, and inside within the band, edges included; y votes backwards or forwards the same way |
| `Guidance.AcquiredImpliesInside` | guidance_system.py:59-81 | a landmark closer than 40 px votes inside on both axes |
| `Guidance.InsideWithoutAcquisition` | guidance_system.py:59-81 | the converse fails: a landmark 40 px off on both axes votes inside on both but is not acquired |
| `Guidance.VotePhrases` | guidance_system.py:149-150 | every vote's key is in the guidance dictionary, and the dictionary maps it to that vote's phrase |
| `Guidance.VoteBuzz` | guidance_system.py:95-104 | every off-centre vote's key is a valid `buzz` location, so glove mode never raises a key error |
| `Guidance.GuidanceFeedback` | guidance_system.py:84-131 | under 40 px and with guidance on: says "acquired" and sets `guide_hand` to 0; otherwise glove mode pulses the off-centre axes, voice mode says one sentence, beep mode sounds 3000−3·distance Hz for 200 ms; with guidance off nothing is output and `guide_hand` is unchanged |
| `Guidance.GlovePulses` | guidance_system.py:103-104 | one glove write per axis whose vote is off-centre, and nothing else |
| `Guidance.GlovePulsesDecode` | guidance_system.py:95-104 | glove feedback pulses exactly the axes whose vote is off-centre, x then y, with the pulse length of the mode |
| `Guidance.PulsesReadBack` | guidance_system.py:95-104 | each emitted glove command parses back to the location key and duration that `buzz` was called with |
| `Guidance.VoicePhrase` | guidance_system.py:115-120 | with x inside, the phrase is the y vote's phrase. An off-centre x vote's phrase ends the sentence, and an off-centre y vote's phrase begins it |
| `Guidance.VoicePhraseFromDict` | guidance_system.py:107-120 | the voice sentence is built from the guidance dictionary's entries for the two votes |
| `Guidance.VoiceInsideBothAxes` | guidance_system.py:107-120 | when both axes vote inside but the hand is not yet acquired, the sentence is "y coordinate acquired": the y phrase replaces the x one |
| `Guidance.AcquisitionExample` | guidance_system.py:33-104 | landmark (120, 120) against box (100, 100, 50, 50) is at distance 7, and every guidance mode reports "acquired" |
| `Text.LowerChar` | object_detect.py:13 | an ASCII capital maps to the small letter at the same position in the alphabet; every other character is unchanged |
| `Text.Lower` | object_detect.py:13 | `lower` keeps the length and lower-cases each character |
| `Text.LowerIdempotent` | object_detect.py:13 | lowering twice is lowering once |
| `Text.ContainsIsSubstring` | object_detect.py:13 | the executable substring search agrees with the definition of `in` on strings |
| `Text.DigitChar` | guidance_system.py:28 | every digit value maps to a decimal digit character |
| `Text.NatToDecimal` | guidance_system.py:28 | `str` of a natural number is a non-empty string of digits without a leading zero |
| `Text.NatDecimalRoundTrip` | guidance_system.py:28 | reading the decimal string back gives the number |
| `Text.IntDecimalRoundTrip` | guidance_system.py:28 | `str` of any integer, sign included, parses back to that integer |
| `Text.RStrip` | object_detect.py:145 | `rstrip('\n')` returns a prefix that does not end in a newline, and everything it removed is a newline |
| `Text.Split` | object_detect.py:145 | `split('\n')` returns at least one part, and no part holds a newline |
| `Text.SplitCount` | object_detect.py:145 | the number of parts is one more than the number of separators |
| `Text.JoinSplit` | object_detect.py:145 | joining the parts with the separator gives back the original string |
| `ObjectDetect.ContainsWord` | object_detect.py:8-13 | true iff the detected name, lower-cased, occurs in the request, lower-cased |
| `ObjectDetect.ContainsWordIgnoresCase` | object_detect.py:8-13 | lower-casing either argument first does not change the answer |
| `ObjectDetect.Matches` | object_detect.py:76-78 | the match list has one entry per detected name |
| `ObjectDetect.CountTrue` | object_detect.py:80-83 | `sum` of a list of booleans is at most its length |
| `ObjectDetect.CountTrueCounts` | object_detect.py:80-83 | `sum` of a list of booleans is the number of its true entries |
| `ObjectDetect.CountTrueZero` | object_detect.py:80-81 | no match counted iff no entry matches |
| `ObjectDetect.CountTrueOne` | object_detect.py:86-89 | when exactly one entry matches, any two matching positions are the same |
| `ObjectDetect.FirstTrue` | object_detect.py:86 | `numpy.where(...)[0]` taken as the first true position: it is true and nothing before it is |
| `ObjectDetect.ClassName` | object_detect.py:59 | `coco_names[id - 1]` succeeds iff 1−n ≤ id ≤ n, and is then the name at position (id−1) mod n, which is Python's negative indexing. Otherwise it raises an index error at position id−1 |
| `ObjectDetect.IdsToNames` | object_detect.py:58-59 | mapping ids to names succeeds iff every id indexes `coco_names[i-1]` under Python's indexing (1−n … n); ids ≥ 1 name entry i−1 and the others wrap from the end |
| `ObjectDetect.FirstBadId` | object_detect.py:58-59 | finds the first id that would raise an index error, or reports that none does |
| `ObjectDetect.LoadClassNames` | object_detect.py:143-150 | the file is accepted iff it holds exactly 91 lines once trailing newlines are stripped; then the names are those lines, joined they give the text back, and none holds a newline |
| `ObjectDetect.TruncateTowardZero` | object_detect.py:101 | `int()` of a tracker coordinate truncates toward zero for both signs |
| `ObjectDetect.Detections.constructor` | object_detect.py:21-34 | a new results object is empty, has no class names and no selection, and has an unseeded tracker |
| `ObjectDetect.Detections.ClearPreviousDetections` | object_detect.py:36-45 | empties all detection and selection fields, keeping the class names and the tracker |
| `ObjectDetect.Detections.GetDetections` | object_detect.py:47-59 | stores ids, boxes, scores and kept indices from the SSD output; succeeds iff every id maps to a class name, and then the names are those of the ids |
| `ObjectDetect.Detections.ValidateObjectSelection` | object_detect.py:73-89 | returns 0, 1 or 2 as no, exactly one, or several detected names occur in the request; with 1 the selection becomes that detection's name, index and bounding box; otherwise the selection is unchanged |
| `ObjectDetect.Detections.SelectionIsUnique` | object_detect.py:80-89 | with one match, the selection is the only detection the request names |
| `ObjectDetect.Detections.InitialiseTracker` | object_detect.py:91-95 | the tracker is seeded with the selected bounding box; nothing else changes |
| `ObjectDetect.Detections.Track` | object_detect.py:97-101 | the selected bounding box becomes the tracker's box, truncated to integers; nothing else changes |
| `VideoThread.CountsPerSec.constructor` | video_thread.py:30-32 | a new counter has no start time and no occurrences |
| `VideoThread.CountsPerSec.Start` | video_thread.py:34-36 | records the start time and keeps the count |
| `VideoThread.CountsPerSec.Increment` | video_thread.py:38-39 | adds one occurrence and keeps the start time |
| `VideoThread.VideoShow.constructor` | video_thread.py:53-58 | holds the given frame and is not stopped |
| `VideoThread.VideoShow.Stop` | video_thread.py:71-73 | sets `stopped` and keeps the frame |
| `VideoThread.VideoShow.Show` | video_thread.py:65-69 | a stopped display shows nothing; otherwise it shows the frame once per poll up to and including the first "q", and is stopped iff a "q" came |
| `VideoThread.PassFor` | video_thread.py:111-150 | the pass for count k is numbered k and targets the tracker's box. A pass that gives feedback has detected hands and found a nearest landmark |
| `VideoThread.ExpectedPasses` | video_thread.py:102-155 | the first n passes the loop makes are n passes, one per tick |
| `VideoThread.ExpectedPassAt` | video_thread.py:111-150 | the k-th expected pass is the pass for tick k, using the hand landmarks held at k |
| `VideoThread.SaidAllStep` | video_thread.py:143-150 | the output of a run is the output of its passes in order |
| `VideoThread.LandmarksCarried` | video_thread.py:119-122 | on an odd count the hand landmarks in use are the previous frame's |
| `VideoThread.MultipleOfTenIsEven` | video_thread.py:119-143 | every feedback count (a multiple of 10) is a hand-detection count (even) |
| `VideoThread.PassCadence` | video_thread.py:111-150 | the tracker is set up only on count 0; a nearest landmark exists iff hands are held; feedback is given iff hands are held, the count is a multiple of 10 and no speech is playing; the feedback uses freshly detected hands and the nearest landmark |
| `VideoThread.AcquiringPass` | video_thread.py:143-150 | a pass that reaches the target says only "acquired", and its landmark votes inside on both axes |
| `VideoThread.GuidancePass` | video_thread.py:111-150 | one loop pass: tracker seeded on count 0, hands re-detected on even counts, the object tracked, feedback given when due; `guide_hand` becomes 0 iff the pass acquires; the detection results are unchanged |
| `VideoThread.ProgressStep` | video_thread.py:102-155 | a pass that runs extends the loop's invariant by one pass |
| `VideoThread.ExpectedStep` | video_thread.py:102-155 | the expected passes for i+1 ticks are those for i ticks plus the pass for tick i |
| `VideoThread.NoEarlierAcquisition` | video_thread.py:102-150 | adding a pass after non-acquiring ones leaves no acquisition before it |
| `VideoThread.LoopPass` | video_thread.py:103-155 | one iteration: the display gets the frame, the pass runs and the counter goes up by one |
| `VideoThread.ThreadVideoShow` | video_thread.py:76-167 | the loop processes ticks while they read and no "q" came, and stops at the first acquisition; each processed pass is the expected one; output is every pass's feedback, then "guide_comp". After a pass, the tracker is seeded with the selected box and the selected box is the last pass's target. Without a pass, both are unchanged. The detection results and the tracking flag are unchanged |
| `VideoThread.StillRunning` | video_thread.py:102-109 | every pass of a finished run read its tick and came after no acquisition |
| `VideoThread.GuidanceRanUnique` | video_thread.py:102-155 | for given ticks and mode the passes of a run are determined |
| `Assistant.CheckGuidanceMode` | main.py:10-16 | start-up accepts the configured mode iff it is one of glove, voice, beep, none, and otherwise fails naming the setting |
| `Assistant.ModeNameAccepted` | main.py:10-16 | each guidance mode's name is accepted and reads back as that mode |
| `Assistant.Startup` | main.py:10-16 | start-up succeeds iff the class-name file is valid and the mode is accepted; a bad file fails first |
| `Assistant.VoiceAssistant.constructor` | voice_assistant.py:65-68 | the assistant starts operational and asleep |
| `Assistant.VoiceAssistant.Listen` | main.py:35-45 | "exit" in the request clears `operational`; "Surah" wakes the assistant; the replies follow in that order |
| `Assistant.WakeWords` | main.py:35-45 | exits iff the request contains "exit"; wakes iff it contains "Surah"; replies exit first, then the wake phrase |
| `Assistant.ExitAndWake` | main.py:35-45 | "exit Surah" both ends the program and wakes the assistant, with both replies |
| `Assistant.WakeWordIsCaseSensitive` | main.py:42 | lower-case "surah" neither wakes nor exits |
| `Assistant.Classify` | main.py:56-152 | the command is the first keyword the request contains, in the order introduce yourself, scan, list, select, awake, sleep, exit; unrecognised iff none |
| `Assistant.ClassifyIsFirstMatch` | main.py:56-152 | any intent whose keyword occurs, with no earlier keyword occurring, is the one chosen |
| `Assistant.NotContained` | main.py:42 | a word whose first letter is not in the request does not occur in it |
| `Assistant.Spoken` | main.py:88-89 | each object name is spoken in order |
| `Assistant.ScanReport` | main.py:72-80 | no ids gives "no_detections"; otherwise the detections phrase, each name, and "detections_complete" |
| `Assistant.Scan` | main.py:61-81 | clears the results, reads the SSD output, and reports it; fails iff an id has no class name. The record is `Rescanned`: the camera's ids, boxes, scores and kept indices with their names (none on failure), no selection, and the class names, tracker and tracking flag kept |
| `Assistant.Select` | main.py:94-126 | with no scan, says "no_scan"; no match says "invalid_selection"; several say "multiple_selection"; one match selects detection i (its name and index), announces it and guides to it. The tracker is seeded with box i and the last pass's target is the selected box, or box i stays selected and the tracker is kept when no pass ran (`SelectedOne`). The class names, detections and tracking flag never change; a refused select or one before any scan changes nothing |
| `Assistant.Validate` | main.py:102-110 | the two `validate_object_selection` calls give the code of a single call. On 1 the selection is the matching detection's name, index and box; otherwise nothing changes |
| `Assistant.Guide` | main.py:116-126 | guidance runs over the session's ticks, then the camera-reset phrases follow. After a pass, the tracker is seeded with the selected box; without one, the tracker and selection are unchanged. The detection results are unchanged |
| `Assistant.Serve` | main.py:54-152 | each request gets its command's reply; "sleep" and "exit" end the inner loop; "exit" also clears `operational`; an unheard request gets no reply. `DetectionsAfter` states the whole new detections record for every command: a scan rescans, a select with one match selects detection i and seeds the tracker from box i, and every other request, a select before a scan and a refused select leave the record, the selected box and the tracker unchanged |
| `Assistant.FirstEnd` | main.py:48-145 | finds the first request from k on that ends the inner loop, or the end of input |
| `Assistant.Converse` | main.py:48-152 | the inner loop serves requests up to and including the first "sleep" or "exit"; it stays awake only if none came; `operational` is cleared iff that request is "exit"; a failure comes from a scan |
| `Assistant.ServeNext` | main.py:54-152 | one inner-loop request changes the flags as its command says, only a scan fails, and the detections record changes as `DetectionsAfter` states for that command |
| `Assistant.Run` | main.py:27-152 | the outer loop runs until `operational` is cleared or the input ends; a failure comes from a scan; after a run without failure the detections record is still consistent |
| `Assistant.Program` | main.py:1-27 | a failed start-up says nothing and reports its error; otherwise the assistant first says its start-up phrase; a later failure is a crash |

## Left out

- Camera capture, OpenCV drawing and windows, the SSD network itself and MediaPipe hand detection are outside the model. Their results are inputs: the SSD output of a scan, and for each guidance frame the frame, the tracker's box and whether tracking succeeded, and the hand landmarks already in pixels.
- Speech recognition and text-to-speech (`voice_assistant.py`, apart from the two flags) are outside the model. A request is its recognised text plus an "unheard" flag; replies are phrase keys or spoken text. The "unheard" flag is a free input: the model does not tie it to a failed recognition. When the listener cannot make out a request while awake, it speaks the "unheard" phrase itself (voice_assistant.py:119-121); that reply never appears in the model's outputs. The threaded and unthreaded `respond` variants are not told apart.
- Serial I/O to the glove is outside the model: a pulse is a glove-command output. Opening the glove at import and exiting when that fails (guidance_system.py:137-145) are left out, and so is `close_glove`.
- `winsound.Beep` is a tone output. The operating system's 37–32767 Hz limit, which only distances above 987 px would break, is not modelled.
- Frame rate (`CountsPerSec.fps`, `put_iterations_per_sec`) is left out: it uses wall-clock time and floating point. The start time is kept as an input value.
- Threads are left out: the display thread, the tracker thread `track_thread` and speech running beside the loop. Tracking is a direct call. The display's quit key and whether speech is still playing are per-frame inputs. The wait for the last speech file to drain (video_thread.py:164-165) and the simulated "q" key press are left out.
- `assign_base_cam` (the camera reset in main.py) is I/O. Only its spoken phrases are modelled.
- A frame's hand landmarks are at most 21 (type `HandLandmarks`). This holds because the hand model runs with `max_hands` = 1 and reports 21 landmarks per hand. So the guidance loop never meets the `KeyError` that `calc_min_dist` raises for a nearest position of 21 or more. `Guidance.CalcMinDist` models that error for longer lists.
- Python's `str.lower` lower-cases all of Unicode; `Text.Lower` lower-cases ASCII letters only.
- The program's loops run on a finite list of requests and a finite list of frames. Running out of requests ends the loop; in the source they would wait for more input. Running out of frames counts as a failed camera read.
- `Converse`: states how the inner loop ends and what it does to the flags, not the full list of replies, and not the detections record's final state beyond `Valid()`; each reply and each request's change to the record is stated by `Serve` and `ServeNext`.
- `Run`: states only where the outer loop stops and the source of a failure, not the replies of each turn and not the detections record's final state beyond `Valid()` after a run without failure.
- `Program`: states the start-up outcome and the first reply, not the full conversation.
- `hand_track.py` is not part of this model beyond the landmarks it yields.
- Printing and logging are left out.
