/** Guidance geometry and feedback encoding (guidance_system.py): the glove's
    command strings, the distance from a hand landmark to the target, the
    per-axis direction votes and the choice of feedback in each mode. */
module Guidance {
  import opened Wrappers
  import opened Text
  import opened Config

  /** A bounding box `(x, y, w, h)` in whole pixels. */
  datatype Box = Box(x: int, y: int, w: int, h: int)

  /** A hand landmark `[id, x, y]` in whole pixels. */
  datatype Landmark = Landmark(id: int, x: int, y: int)

  /** The landmarks the hand model reports for one frame: at most
      `max_hands` hands of 21 landmarks each. */
  type HandLandmarks = s: seq<Landmark> | |s| <= MaxHands * LandmarksPerHand

  /** What the assistant emits: a phrase of the voice assistant's response
      table (by its key), a spoken text, a command written to the glove, or a
      tone of the given frequency and duration. */
  datatype Output =
    | Phrase(key: string)
    | Speech(text: string)
    | GloveWrite(command: string)
    | Tone(freq: int, durationMs: int)

  // ---------------------------------------------------------------------------
  // Glove location codes and commands

  /** The eight locations of the glove's table, keyed "fw", "r", "bw", "l",
      "tr", "br", "bl", "tl". */
  datatype Location = Fw | R | Bw | L | Tr | Br | Bl | Tl

  function KeyOf(loc: Location): string {
    match loc
    case Fw => "fw"
    case R => "r"
    case Bw => "bw"
    case L => "l"
    case Tr => "tr"
    case Br => "br"
    case Bl => "bl"
    case Tl => "tl"
  }

  /** Looking a key up in the table: None is Python's KeyError. */
  function LocationOfKey(key: string): Option<Location> {
    if key == "fw" then Some(Fw)
    else if key == "r" then Some(R)
    else if key == "bw" then Some(Bw)
    else if key == "l" then Some(L)
    else if key == "tr" then Some(Tr)
    else if key == "br" then Some(Br)
    else if key == "bl" then Some(Bl)
    else if key == "tl" then Some(Tl)
    else None
  }

  /** The code the table gives each location: four 0/1 flags for the
      forward, right, backward and left motors. */
  function Code(loc: Location): string {
    match loc
    case Fw => "1000"
    case R => "0100"
    case Bw => "0010"
    case L => "0001"
    case Tr => "1100"
    case Br => "0110"
    case Bl => "0011"
    case Tl => "1001"
  }

  /** Which of the four motors a code runs. */
  datatype Motors = Motors(fw: bool, r: bool, bw: bool, l: bool)

  predicate IsCode(code: string) {
    |code| == 4 && forall i :: 0 <= i < 4 ==> code[i] == '0' || code[i] == '1'
  }

  /** The glove's reading of a four-character code. */
  function ReadMotors(code: string): Option<Motors> {
    if IsCode(code) then Some(Motors(code[0] == '1', code[1] == '1', code[2] == '1', code[3] == '1'))
    else None
  }

  /** The location whose code runs exactly these motors, if any. */
  function LocationOfMotors(m: Motors): Option<Location> {
    match m
    case Motors(true, false, false, false) => Some(Fw)
    case Motors(false, true, false, false) => Some(R)
    case Motors(false, false, true, false) => Some(Bw)
    case Motors(false, false, false, true) => Some(L)
    case Motors(true, true, false, false) => Some(Tr)
    case Motors(false, true, true, false) => Some(Br)
    case Motors(false, false, true, true) => Some(Bl)
    case Motors(true, false, false, true) => Some(Tl)
    case _ => None
  }

  /** Motor-wise union: a motor runs if it runs in either. */
  function Union(a: Motors, b: Motors): Motors {
    Motors(a.fw || b.fw, a.r || b.r, a.bw || b.bw, a.l || b.l)
  }

  /** The location of a code, as the glove decodes it. */
  function LocationOfCode(code: string): Option<Location> {
    match ReadMotors(code)
    case None => None
    case Some(m) => LocationOfMotors(m)
  }

  /** The table is one-to-one: every key names a distinct location, and every
      code is well formed and decodes back to its own location (so the eight
      codes are pairwise distinct). */
  lemma CodeTable(loc: Location)
    ensures LocationOfKey(KeyOf(loc)) == Some(loc)
    ensures IsCode(Code(loc))
    ensures LocationOfCode(Code(loc)) == Some(loc)
  {
  }

  /** Each diagonal runs the union of the motors of its two cardinals. */
  lemma DiagonalCodes()
    ensures ReadMotors(Code(Tr)) == Some(Union(ReadMotors(Code(Fw)).value, ReadMotors(Code(R)).value))
    ensures ReadMotors(Code(Br)) == Some(Union(ReadMotors(Code(R)).value, ReadMotors(Code(Bw)).value))
    ensures ReadMotors(Code(Bl)) == Some(Union(ReadMotors(Code(Bw)).value, ReadMotors(Code(L)).value))
    ensures ReadMotors(Code(Tl)) == Some(Union(ReadMotors(Code(Fw)).value, ReadMotors(Code(L)).value))
  {
  }

  /** Distinct locations have distinct codes. */
  lemma CodesDistinct(a: Location, b: Location)
    requires Code(a) == Code(b)
    ensures a == b
  {
    CodeTable(a);
    CodeTable(b);
  }

  /** The glove's reading of a command: a code, "buzz", a signed decimal
      duration and a full stop; the location is given back by its key. */
  function ParseCommand(cmd: string): Option<(string, int)>
  {
    if |cmd| < 10 || cmd[4..8] != "buzz" || cmd[|cmd| - 1] != '.' then None
    else
      match (LocationOfCode(cmd[..4]), ParseInt(cmd[8..|cmd| - 1]))
      case (Some(loc), Some(dur)) => Some((KeyOf(loc), dur))
      case _ => None
  }

  /** A lookup of a key absent from the location table. */
  datatype KeyError = KeyError(key: string)

  /** The command for a location of the table and a duration: the
      location's code, "buzz", the duration in decimal and a full stop. */
  function Command(l: Location, dur: int): string {
    Code(l) + "buzz" + IntToDecimal(dur) + "."
  }

  /** `buzz(loc, dur)`: the command written to the glove, or KeyError for a
      key the table lacks. The command starts with the location's code and
      reads back as `(loc, dur)`. */
  function Buzz(loc: string, dur: int := DefaultPulse): (r: Result<string, KeyError>)
    ensures r.Failure? <==> LocationOfKey(loc).None?
    ensures r.Success? ==> |r.value| >= 10 && r.value[..4] == Code(LocationOfKey(loc).value)
    ensures r.Success? ==> ParseCommand(r.value) == Some((loc, dur))
  {
    match LocationOfKey(loc)
    case None => Failure(KeyError(loc))
    case Some(l) =>
      BuzzReadsBack(loc, l, dur);
      Success(Command(l, dur))
  }

  lemma BuzzReadsBack(loc: string, l: Location, dur: int)
    requires LocationOfKey(loc) == Some(l)
    ensures var cmd := Command(l, dur);
      |cmd| >= 10 && cmd[..4] == Code(l) && ParseCommand(cmd) == Some((loc, dur))
  {
    CodeTable(l);
    var cmd := Command(l, dur);
    var digits := IntToDecimal(dur);
    assert |digits| >= 1;
    assert cmd[..4] == Code(l);
    assert cmd[4..8] == "buzz";
    assert cmd[8..|cmd| - 1] == digits;
    IntDecimalRoundTrip(dur);
    KeyOfLocationOfKey(loc, l);
  }

  /** A key the table knows is the key of the location it names. */
  lemma KeyOfLocationOfKey(key: string, l: Location)
    requires LocationOfKey(key) == Some(l)
    ensures KeyOf(l) == key
  {
  }

  // ---------------------------------------------------------------------------
  // Distances

  /** The integer square root of n and the remainder it leaves, from those
      of n / 4: with h the root of n / 4, n - (2h)^2 is four times its
      remainder plus n % 4, and the root is 2h + 1 when that leaves room for
      (2h + 1)^2 = (2h)^2 + 4h + 1. IsqrtBounds states what it computes. */
  function Isqrt(n: nat): (nat, nat)
  {
    if n < 4 then (if n == 0 then (0, 0) else (1, n - 1))
    else
      var (h, rest) := Isqrt(n / 4);
      var t := 4 * rest + n % 4;
      if t >= 4 * h + 1 then (2 * h + 1, t - (4 * h + 1)) else (2 * h, t)
  }

  /** Isqrt(n) is the largest whole number whose square is at most n, and the
      remainder is what n exceeds that square by. */
  lemma {:induction false} IsqrtBounds(n: nat)
    ensures var (r, rem) := Isqrt(n);
      r * r + rem == n && r * r <= n < (r + 1) * (r + 1)
  {
    if n >= 4 {
      IsqrtBounds(n / 4);
      var (h, rest) := Isqrt(n / 4);
      SquareStep(n, h, rest);
    } else if n > 0 {
      assert Isqrt(n) == (1, n - 1);
    }
  }

  lemma SquareStep(n: nat, h: nat, rest: nat)
    requires h * h + rest == n / 4 < (h + 1) * (h + 1)
    ensures var t := 4 * rest + n % 4;
      && (2 * h) * (2 * h) + t == n
      && (t >= 4 * h + 1 ==> (2 * h + 1) * (2 * h + 1) + (t - (4 * h + 1)) == n && n < (2 * h + 2) * (2 * h + 2))
      && (t < 4 * h + 1 ==> n < (2 * h + 1) * (2 * h + 1))
  {
    var q := n / 4;
    assert n == 4 * q + n % 4;
    assert (2 * h) * (2 * h) == 4 * (h * h);
    assert (2 * h + 1) * (2 * h + 1) == 4 * (h * h) + 4 * h + 1;
    assert (2 * h + 2) * (2 * h + 2) == 4 * ((h + 1) * (h + 1));
  }

  /** `int(round(sqrt(s) / 2, 0))` with round-half-to-even, for a whole `s`:
      one plus the integer root, halved, except at an exact odd root, where
      sqrt(s) / 2 lies halfway and the even neighbour is taken.
      RoundedHalfRootSpec states what it computes. */
  function RoundedHalfRoot(s: nat): nat
  {
    var (k, rem) := Isqrt(s);
    var n := (k + 1) / 2;
    if rem == 0 && k % 2 == 1 && n % 2 == 1 then n - 1 else n
  }

  /** What it means to round sqrt(s) / 2 half to even. */
  ghost predicate IsRoundedHalfRoot(s: nat, r: nat) {
    && (r == 0 || (2 * r - 1) * (2 * r - 1) <= s)
    && s <= (2 * r + 1) * (2 * r + 1)
    && (s == (2 * r + 1) * (2 * r + 1) ==> r % 2 == 0)
    && (r > 0 && s == (2 * r - 1) * (2 * r - 1) ==> r % 2 == 0)
  }

  /** RoundedHalfRoot(s) is an integer nearest to sqrt(s) / 2 (it lies within
      half a unit of it), and at a tie it is the even one. */
  lemma RoundedHalfRootSpec(s: nat)
    ensures IsRoundedHalfRoot(s, RoundedHalfRoot(s))
  {
    IsqrtBounds(s);
    var (k, rem) := Isqrt(s);
    HalfRootFromRoot(s, k, rem);
  }

  lemma HalfRootFromRoot(s: nat, k: nat, rem: nat)
    requires k * k + rem == s < (k + 1) * (k + 1)
    ensures var n := (k + 1) / 2;
      IsRoundedHalfRoot(s, if rem == 0 && k % 2 == 1 && n % 2 == 1 then n - 1 else n)
  {
    var n := (k + 1) / 2;
    HalvedSuccessor(k);
    if k % 2 == 1 {
      if rem == 0 && n % 2 == 1 {
        HalfRootAtOddRoot(s, k, n - 1);
      } else {
        HalfRootBelowEvenSquare(s, k, n);
      }
    } else {
      HalfRootFromEvenRoot(s, k, n);
    }
  }

  lemma HalvedSuccessor(k: nat)
    ensures k % 2 == 1 ==> k == 2 * ((k + 1) / 2) - 1
    ensures k % 2 == 0 ==> k == 2 * ((k + 1) / 2)
  {
  }

  lemma HalfRootAtOddRoot(s: nat, k: nat, r: nat)
    requires k * k == s && k == 2 * r + 1 && r % 2 == 0
    ensures IsRoundedHalfRoot(s, r)
  {
    if r > 0 {
      SquaresOrdered(2 * r - 1, k);
    }
  }

  lemma HalfRootBelowEvenSquare(s: nat, k: nat, n: nat)
    requires k * k <= s < (k + 1) * (k + 1)
    requires k == 2 * n - 1
    requires s != k * k || n % 2 == 0
    ensures IsRoundedHalfRoot(s, n)
  {
    SquaresOrdered(k + 1, 2 * n + 1);
  }

  lemma HalfRootFromEvenRoot(s: nat, k: nat, n: nat)
    requires k * k <= s < (k + 1) * (k + 1)
    requires k == 2 * n
    ensures IsRoundedHalfRoot(s, n)
  {
    if n > 0 {
      SquaresOrdered(2 * n - 1, k);
    }
  }

  /** The characterisation pins down one value: round-half-to-even of
      sqrt(s) / 2 is unique. */
  lemma RoundedHalfRootUnique(s: nat, r: nat)
    requires IsRoundedHalfRoot(s, r)
    ensures r == RoundedHalfRoot(s)
  {
    RoundedHalfRootSpec(s);
    RoundedOrder(s, s, r, RoundedHalfRoot(s));
    RoundedOrder(s, s, RoundedHalfRoot(s), r);
  }

  /** Rounded values of ordered radicands are ordered: two adjacent
      candidates would have to share the odd square between them, where only
      the even one may round. */
  lemma RoundedOrder(s1: nat, s2: nat, r1: nat, r2: nat)
    requires s1 <= s2 && IsRoundedHalfRoot(s1, r1) && IsRoundedHalfRoot(s2, r2)
    ensures r1 <= r2
  {
    if r1 > r2 + 1 {
      SquaresOrdered(2 * r2 + 1, 2 * r1 - 1);
    } else if r1 == r2 + 1 {
      SameSquare(2 * r2 + 1, 2 * r1 - 1);
    }
  }

  lemma SameSquare(a: int, b: int)
    requires a == b
    ensures a * a == b * b
  {
  }

  /** Squares of non-negative numbers follow their order. */
  lemma SquaresOrdered(a: int, b: int)
    requires 0 <= a <= b
    ensures a * a <= b * b
    ensures a < b ==> a * a < b * b
  {
    assert a * a <= a * b <= b * b;
    if a < b {
      assert a * b < b * b;
    }
  }

  /** Rounded distances never reverse the order of squared distances. */
  lemma RoundedHalfRootMonotone(s1: nat, s2: nat)
    requires s1 <= s2
    ensures RoundedHalfRoot(s1) <= RoundedHalfRoot(s2)
  {
    RoundedHalfRootSpec(s1);
    RoundedHalfRootSpec(s2);
    RoundedOrder(s1, s2, RoundedHalfRoot(s1), RoundedHalfRoot(s2));
  }

  /** The squared distance from the landmark to the box centre, times four:
      the centre `(x + w / 2, y + h / 2)` is taken as `(2x + w, 2y + h)` over
      two, so the value is exact also for odd sizes. */
  function ScaledSquaredDistance(lm: Landmark, box: Box): nat
  {
    var dx := 2 * lm.x - (2 * box.x + box.w);
    var dy := 2 * lm.y - (2 * box.y + box.h);
    assert dx * dx >= 0 && dy * dy >= 0;
    dx * dx + dy * dy
  }

  /** `int(round(sqrt((lx - cx)**2 + (ly - cy)**2), 0))` for the unrounded
      centre `(cx, cy)` of the box. */
  function LandmarkDistance(lm: Landmark, box: Box): (d: nat)
    ensures IsRoundedHalfRoot(ScaledSquaredDistance(lm, box), d)
  {
    RoundedHalfRootSpec(ScaledSquaredDistance(lm, box));
    RoundedHalfRoot(ScaledSquaredDistance(lm, box))
  }

  /** A landmark exactly at the box centre is at distance 0. */
  lemma CentreDistanceZero(lm: Landmark, box: Box)
    requires 2 * lm.x == 2 * box.x + box.w && 2 * lm.y == 2 * box.y + box.h
    ensures LandmarkDistance(lm, box) == 0
  {
    assert ScaledSquaredDistance(lm, box) == 0;
    RoundedHalfRootUnique(0, 0);
  }

  /** Failures of `calc_min_dist`: `min` of an empty list raises, and so
      does the `mp_dict` lookup of a nearest position that has no landmark
      name. */
  datatype DistanceError = NoLandmarks | UnnamedLandmark(index: nat)

  /** The nearest landmark, its position in the list and its distance. */
  datatype Closest = Closest(landmark: Landmark, index: nat, distance: nat)

  /** `c` is the landmark of the list nearest the box centre, at its rounded
      distance, and the first one in list order at that distance. */
  ghost predicate IsClosest(c: Closest, landmarks: seq<Landmark>, selection: Box) {
    && c.index < |landmarks|
    && c.landmark == landmarks[c.index]
    && c.distance == LandmarkDistance(landmarks[c.index], selection)
    && (forall j {:trigger LandmarkDistance(landmarks[j], selection)} ::
          0 <= j < |landmarks| ==> c.distance <= LandmarkDistance(landmarks[j], selection))
    && (forall j {:trigger LandmarkDistance(landmarks[j], selection)} ::
          0 <= j < c.index ==> c.distance < LandmarkDistance(landmarks[j], selection))
  }

  /** At most one entry of a list is the nearest in the sense of IsClosest. */
  lemma ClosestUnique(c1: Closest, c2: Closest, landmarks: seq<Landmark>, selection: Box)
    requires IsClosest(c1, landmarks, selection) && IsClosest(c2, landmarks, selection)
    ensures c1 == c2
  {
    assert c1.distance <= LandmarkDistance(landmarks[c2.index], selection);
    assert c2.distance <= LandmarkDistance(landmarks[c1.index], selection);
  }

  /** Reference definition of the nearest landmark: a left-to-right scan that
      replaces the running choice only by a strictly nearer landmark. */
  function NearestIn(landmarks: seq<Landmark>, selection: Box): Option<Closest>
    decreases |landmarks|
  {
    if |landmarks| == 0 then None
    else
      var last := |landmarks| - 1;
      var rest := NearestIn(landmarks[..last], selection);
      var d := LandmarkDistance(landmarks[last], selection);
      if rest.Some? && rest.value.distance <= d then rest
      else Some(Closest(landmarks[last], last, d))
  }

  /** The scan finds the nearest landmark, first in list order among ties. */
  lemma {:induction false} NearestInIsClosest(landmarks: seq<Landmark>, selection: Box)
    ensures NearestIn(landmarks, selection).Some? <==> |landmarks| > 0
    ensures |landmarks| > 0 ==> IsClosest(NearestIn(landmarks, selection).value, landmarks, selection)
    decreases |landmarks|
  {
    if |landmarks| > 0 {
      var last := |landmarks| - 1;
      var prefix := landmarks[..last];
      NearestInIsClosest(prefix, selection);
      assert forall j :: 0 <= j < last ==> prefix[j] == landmarks[j];
      var d := LandmarkDistance(landmarks[last], selection);
      if last > 0 {
        var c := NearestIn(prefix, selection).value;
        assert LandmarkDistance(landmarks[c.index], selection) == c.distance;
        forall j | 0 <= j < last
          ensures c.distance <= LandmarkDistance(landmarks[j], selection)
        {
          assert LandmarkDistance(prefix[j], selection) >= c.distance;
        }
      }
    }
  }

  /** `min(a)`: the least element of a non-empty list (Python raises on an
      empty one, which CalcMinDist rules out first). */
  method MinOf(a: array<nat>) returns (least: nat)
    requires a.Length > 0
    ensures least in a[..]
    ensures forall j :: 0 <= j < a.Length ==> least <= a[j]
  {
    least := a[0];
    ghost var at := 0;
    for k := 1 to a.Length
      invariant 0 <= at < k && a[at] == least
      invariant forall j :: 0 <= j < k ==> least <= a[j]
    {
      if a[k] < least {
        least := a[k];
        at := k;
      }
    }
    assert a[..][at] == least;
  }

  /** `a.index(x)` for an x the list holds: its first position. */
  method IndexOf(a: array<nat>, x: nat) returns (i: nat)
    requires x in a[..]
    ensures i < a.Length && a[i] == x
    ensures forall j :: 0 <= j < i ==> a[j] != x
  {
    ghost var at :| 0 <= at < a.Length && a[..][at] == x;
    i := 0;
    while a[i] != x
      invariant 0 <= i <= at
      invariant forall j :: 0 <= j < i ==> a[j] != x
      decreases at - i
    {
      i := i + 1;
    }
  }

  /** `calc_min_dist`: fills the list of rounded distances, takes its minimum
      and the first position holding it, and looks that position up in
      `mp_dict` to log the landmark's name. The result is the reference
      nearest landmark, or the error the list raises: empty, or nearest at a
      position `mp_dict` does not name. One hand's landmarks never raise. */
  method CalcMinDist(landmarks: seq<Landmark>, selection: Box) returns (r: Result<Closest, DistanceError>)
    ensures r == Failure(NoLandmarks) <==> |landmarks| == 0
    ensures |landmarks| > 0 ==>
      var c := NearestIn(landmarks, selection).value;
      r == if c.index < LandmarksPerHand then Success(c) else Failure(UnnamedLandmark(c.index))
    ensures r.Success? ==> IsClosest(r.value, landmarks, selection) && r.value.index < LandmarksPerHand
    ensures 0 < |landmarks| <= LandmarksPerHand ==> r.Success?
  {
    NearestInIsClosest(landmarks, selection);
    var dists := new nat[|landmarks|];
    for idx := 0 to |landmarks|
      invariant forall j :: 0 <= j < idx ==> dists[j] == LandmarkDistance(landmarks[j], selection)
    {
      dists[idx] := LandmarkDistance(landmarks[idx], selection);
    }
    if dists.Length == 0 {
      return Failure(NoLandmarks);
    }
    var least := MinOf(dists);
    var i := IndexOf(dists, least);
    ClosestUnique(Closest(landmarks[i], i, least), NearestIn(landmarks, selection).value, landmarks, selection);
    if i >= LandmarksPerHand {
      return Failure(UnnamedLandmark(i));
    }
    r := Success(Closest(landmarks[i], i, least));
  }

  // ---------------------------------------------------------------------------
  // Direction votes

  /** The x-axis vote of `dir_to_target`: "r", "l" or "x" (inside tolerance). */
  datatype XVote = Right | Left | XInside

  /** The y-axis vote of `dir_to_target`: "bw", "fw" or "y" (inside tolerance). */
  datatype YVote = Backward | Forward | YInside

  function XKey(v: XVote): string {
    match v
    case Right => "r"
    case Left => "l"
    case XInside => "x"
  }

  function YKey(v: YVote): string {
    match v
    case Backward => "bw"
    case Forward => "fw"
    case YInside => "y"
  }

  /** `int(round(v + size / 2, 0))`: the box centre on one axis, rounded half
      to even. It lies within half a pixel of the true centre, and at a tie
      it is even. */
  function RoundedCentre(v: int, size: int): (c: int)
    ensures 2 * c - 1 <= 2 * v + size <= 2 * c + 1
    ensures (2 * v + size) % 2 == 1 ==> c % 2 == 0
  {
    var twice := 2 * v + size;
    if twice % 2 == 0 then twice / 2
    else if (twice / 2) % 2 == 0 then twice / 2
    else twice / 2 + 1
  }

  /** `dir_to_target`: on each axis, the side the hand must move to, or
      "inside" when the landmark is within the tolerance band around the
      rounded centre (the band's edges count as inside). */
  function DirToTarget(lm: Landmark, target: Box): (r: (XVote, YVote))
    ensures var tx := RoundedCentre(target.x, target.w);
      && (r.0 == Right <==> tx - lm.x > TargetTolerance)
      && (r.0 == Left <==> lm.x - tx > TargetTolerance)
      && (r.0 == XInside <==> -TargetTolerance <= lm.x - tx <= TargetTolerance)
    ensures var ty := RoundedCentre(target.y, target.h);
      && (r.1 == Backward <==> ty - lm.y > TargetTolerance)
      && (r.1 == Forward <==> lm.y - ty > TargetTolerance)
      && (r.1 == YInside <==> -TargetTolerance <= lm.y - ty <= TargetTolerance)
  {
    var tx := RoundedCentre(target.x, target.w);
    var ty := RoundedCentre(target.y, target.h);
    var a := if lm.x < tx - TargetTolerance then Right
             else if lm.x > tx + TargetTolerance then Left
             else XInside;
    var b := if lm.y < ty - TargetTolerance then Backward
             else if lm.y > ty + TargetTolerance then Forward
             else YInside;
    (a, b)
  }

  /** A landmark whose distance is under the tolerance is inside the band on
      both axes, although the distance is measured to the unrounded centre and
      the votes to the rounded one. */
  lemma AcquiredImpliesInside(lm: Landmark, target: Box)
    requires LandmarkDistance(lm, target) < TargetTolerance
    ensures DirToTarget(lm, target) == (XInside, YInside)
  {
    var dx := 2 * lm.x - (2 * target.x + target.w);
    var dy := 2 * lm.y - (2 * target.y + target.h);
    assert ScaledSquaredDistance(lm, target) == dx * dx + dy * dy;
    OffsetsWithinBand(dx, dy);
    AxisInside(lm.x, target.x, target.w);
    AxisInside(lm.y, target.y, target.h);
  }

  /** Both scaled offsets of a point under distance 40 are at most 79. */
  lemma OffsetsWithinBand(dx: int, dy: int)
    requires dx * dx + dy * dy >= 0
    requires RoundedHalfRoot(dx * dx + dy * dy) < 40
    ensures -79 <= dx <= 79 && -79 <= dy <= 79
  {
    var s: nat := dx * dx + dy * dy;
    var d := RoundedHalfRoot(s);
    RoundedHalfRootSpec(s);
    SquaresOrdered(2 * d + 1, 79);
    assert s <= 79 * 79;
    SquareNonNegative(dx);
    SquareNonNegative(dy);
    OffsetBound(dx);
    OffsetBound(dy);
  }

  lemma SquareNonNegative(a: int)
    ensures a * a >= 0
  {
    if a < 0 {
      assert a * a == (-a) * (-a);
    }
  }

  lemma OffsetBound(a: int)
    requires a * a <= 6241
    ensures -79 <= a <= 79
  {
    if a > 79 {
      SquaresOrdered(79, a);
    } else if a < -79 {
      assert a * a == (-a) * (-a);
      SquaresOrdered(79, -a);
    }
  }

  /** A scaled offset of at most 79 from the unrounded centre is an offset of
      at most 40 from the rounded centre. */
  lemma AxisInside(p: int, v: int, size: int)
    requires -79 <= 2 * p - (2 * v + size) <= 79
    ensures -TargetTolerance <= p - RoundedCentre(v, size) <= TargetTolerance
  {
  }

  /** The converse fails: a hand 40 pixels right of and below the centre of
      an empty box votes inside on both axes, yet its distance (57) is not
      under the tolerance. */
  lemma InsideWithoutAcquisition(box: Box)
    requires box.w == 0 && box.h == 0
    ensures var lm := Landmark(8, box.x + 40, box.y + 40);
      && DirToTarget(lm, box) == (XInside, YInside)
      && LandmarkDistance(lm, box) >= TargetTolerance
  {
    var lm := Landmark(8, box.x + 40, box.y + 40);
    var s := ScaledSquaredDistance(lm, box);
    assert s == 12800;
    var d := RoundedHalfRoot(s);
    RoundedHalfRootSpec(s);
    if d < 40 {
      SquaresOrdered(2 * d + 1, 79);
    }
  }

  // ---------------------------------------------------------------------------
  // Feedback

  /** `guidance_dict`: the spoken phrase for each direction key. */
  const GuidanceDict: map<string, string> :=
    map["l" := "left", "r" := "right", "fw" := "forwards", "bw" := "backwards",
        "t" := "up", "b" := "down",
        "x" := "x coordinate acquired", "y" := "y coordinate acquired"]

  /** The table location a vote other than "inside" names. */
  function XLocation(x: XVote): Location
    requires x != XInside
  {
    if x == Right then R else L
  }

  function YLocation(y: YVote): Location
    requires y != YInside
  {
    if y == Backward then Bw else Fw
  }

  /** The phrase of each vote. */
  function XPhrase(x: XVote): string {
    match x
    case Right => "right"
    case Left => "left"
    case XInside => "x coordinate acquired"
  }

  function YPhrase(y: YVote): string {
    match y
    case Backward => "backwards"
    case Forward => "forwards"
    case YInside => "y coordinate acquired"
  }

  /** Every vote's key is in `guidance_dict`, which maps it to the vote's
      phrase. */
  lemma VotePhrases(x: XVote, y: YVote)
    ensures XKey(x) in GuidanceDict && GuidanceDict[XKey(x)] == XPhrase(x)
    ensures YKey(y) in GuidanceDict && GuidanceDict[YKey(y)] == YPhrase(y)
  {
  }

  /** Every vote other than "inside" is a key of the glove's table, for which
      `buzz` sends the command of the vote's location. */
  lemma VoteBuzz(x: XVote, y: YVote, dur: int)
    ensures x != XInside ==> Buzz(XKey(x), dur) == Success(Command(XLocation(x), dur))
    ensures y != YInside ==> Buzz(YKey(y), dur) == Success(Command(YLocation(y), dur))
  {
  }

  /** The glove pulses for the two votes: x first, then y, each at the
      guidance pulse length, and none for an axis inside the band. */
  function GlovePulses(x: XVote, y: YVote, dur: int): (out: seq<Output>)
    ensures |out| == (if x != XInside then 1 else 0) + (if y != YInside then 1 else 0)
    ensures forall i :: 0 <= i < |out| ==> out[i].GloveWrite?
  {
    (if x != XInside then [GloveWrite(Command(XLocation(x), dur))] else [])
    + (if y != YInside then [GloveWrite(Command(YLocation(y), dur))] else [])
  }

  /** The spoken direction: the y phrase when x is inside, else the x phrase
      when y is inside, else "<y> <x>". */
  function VoicePhrase(x: XVote, y: YVote): (phrase: string)
    ensures x == XInside ==> phrase == YPhrase(y)
    ensures x != XInside ==> |XPhrase(x)| <= |phrase| && phrase[|phrase| - |XPhrase(x)|..] == XPhrase(x)
    ensures y != YInside ==> |YPhrase(y)| <= |phrase| && phrase[..|YPhrase(y)|] == YPhrase(y)
  {
    if x == XInside then YPhrase(y)
    else if y == YInside then XPhrase(x)
    else YPhrase(y) + " " + XPhrase(x)
  }

  /** The outputs of one call to `guidance_feedback` and the new value of the
      `guide_hand` flag. */
  datatype FeedbackStep = FeedbackStep(outputs: seq<Output>, guideHand: int)

  /** `guidance_feedback`: in glove, voice and beep mode, acquisition (the
      "acquired" phrase and `guide_hand = 0`) happens exactly when the
      distance is under the tolerance; otherwise each mode gives its
      directional output and the flag is untouched. No-guidance mode does
      nothing. */
  function GuidanceFeedback(mode: GuidanceMode, closest: Landmark, distance: int, target: Box, guideHand: int): (r: FeedbackStep)
    ensures r.guideHand == (if mode != NoGuidance && distance < TargetTolerance then 0 else guideHand)
    ensures mode == NoGuidance ==> r.outputs == []
    ensures mode != NoGuidance && distance < TargetTolerance ==> r.outputs == [Phrase("acquired")]
    ensures mode == Glove && distance >= TargetTolerance ==>
      |r.outputs| <= 2 && forall o :: o in r.outputs ==> o.GloveWrite? && o.command != []
    ensures mode == Voice && distance >= TargetTolerance ==> |r.outputs| == 1 && r.outputs[0].Speech?
    ensures mode == Beep && distance >= TargetTolerance ==> r.outputs == [Tone(3000 - 3 * distance, BeepDuration)]
  {
    var (x, y) := DirToTarget(closest, target);
    if mode == NoGuidance then FeedbackStep([], guideHand)
    else if distance < TargetTolerance then FeedbackStep([Phrase("acquired")], 0)
    else
      match mode
      case Glove => FeedbackStep(GlovePulses(x, y, GlovePulse), guideHand)
      case Voice => FeedbackStep([Speech(VoicePhrase(x, y))], guideHand)
      case Beep => FeedbackStep([Tone(3000 - 3 * distance, BeepDuration)], guideHand)
  }

  /** The `buzz` calls glove mode makes for two votes: the x vote's key,
      then the y vote's, each at the guidance pulse length, skipping an axis
      inside the band. */
  function SentPulses(x: XVote, y: YVote, dur: int): seq<(string, int)> {
    (if x != XInside then [(XKey(x), dur)] else [])
    + (if y != YInside then [(YKey(y), dur)] else [])
  }

  /** The output is the glove write of the `buzz` call and reads back as it. */
  predicate PulseReadsBack(o: Output, call: (string, int)) {
    && Buzz(call.0, call.1).Success?
    && o == GloveWrite(Buzz(call.0, call.1).value)
    && ParseCommand(o.command) == Some(call)
  }

  /** The outputs are, one for one, the glove writes of those `buzz` calls,
      each reading back as its call. */
  predicate ReadsBackAs(out: seq<Output>, sent: seq<(string, int)>) {
    |out| == |sent| && forall i :: 0 <= i < |out| ==> PulseReadsBack(out[i], sent[i])
  }

  /** In glove mode the pulses read back, in order, as exactly the votes that
      are not inside the band, each at the guidance pulse length; so only keys
      of the location table are ever sent. */
  lemma GlovePulsesDecode(closest: Landmark, distance: int, target: Box, guideHand: int)
    requires distance >= TargetTolerance
    ensures var votes := DirToTarget(closest, target);
      ReadsBackAs(GuidanceFeedback(Glove, closest, distance, target, guideHand).outputs,
                  SentPulses(votes.0, votes.1, GlovePulse))
  {
    var votes := DirToTarget(closest, target);
    assert GuidanceFeedback(Glove, closest, distance, target, guideHand).outputs
           == GlovePulses(votes.0, votes.1, GlovePulse);
    PulsesReadBack(votes.0, votes.1, GlovePulse);
  }

  lemma PulsesReadBack(x: XVote, y: YVote, dur: int)
    ensures ReadsBackAs(GlovePulses(x, y, dur), SentPulses(x, y, dur))
  {
    VoteBuzz(x, y, dur);
  }

  /** In voice mode the spoken text is `guidance_dict`'s phrase of the y vote
      when x is inside, of the x vote when y is inside, and otherwise the two
      joined by a space, y first. */
  lemma VoicePhraseFromDict(closest: Landmark, distance: int, target: Box, guideHand: int)
    requires distance >= TargetTolerance
    ensures var (x, y) := DirToTarget(closest, target);
      && XKey(x) in GuidanceDict && YKey(y) in GuidanceDict
      && GuidanceFeedback(Voice, closest, distance, target, guideHand).outputs
         == [Speech(if x == XInside then GuidanceDict[YKey(y)]
                    else if y == YInside then GuidanceDict[XKey(x)]
                    else GuidanceDict[YKey(y)] + " " + GuidanceDict[XKey(x)])]
  {
    var (x, y) := DirToTarget(closest, target);
    VotePhrases(x, y);
  }

  /** In voice mode, a hand inside the band on both axes but not under the
      distance tolerance is told "y coordinate acquired". */
  lemma VoiceInsideBothAxes(closest: Landmark, distance: int, target: Box, guideHand: int)
    requires distance >= TargetTolerance
    requires DirToTarget(closest, target) == (XInside, YInside)
    ensures GuidanceFeedback(Voice, closest, distance, target, guideHand).outputs
            == [Speech("y coordinate acquired")]
  {
  }

  /** The worked example of a landmark 20 pixels right of and below a
      50-pixel box's corner: its distance to the centre (125, 125) rounds to 7,
      and every guiding mode reports acquisition. */
  lemma AcquisitionExample(mode: GuidanceMode)
    requires mode != NoGuidance
    ensures LandmarkDistance(Landmark(0, 120, 120), Box(100, 100, 50, 50)) == 7
    ensures GuidanceFeedback(mode, Landmark(0, 120, 120), 7, Box(100, 100, 50, 50), 1)
            == FeedbackStep([Phrase("acquired")], 0)
  {
    assert ScaledSquaredDistance(Landmark(0, 120, 120), Box(100, 100, 50, 50)) == 200;
    RoundedHalfRootUnique(200, 7);
  }
}
