/**
 * Game 1, the cupid arrow: a face drifts sideways across the sky, bobbing
 * on a sine wave, and the player shoots heart arrows at it from a launcher
 * that follows the pointer. Three hits within thirty seconds win.
 *
 * The closure state of `createCupidLoop` is the class `CupidLoop`; one
 * animation frame is one call of `Frame` with the frame's timestamp `now`
 * (milliseconds). Results of `Math.random()`, `Math.sin` and `Math.cos` are
 * parameters.
 */
module CupidGame {
  import opened Geometry

  const HitsToWin: nat := 3
  /** Game length in seconds. */
  const GameDuration: real := 30.0
  const FaceSize: real := 72.0
  /** Horizontal face speed per frame (120 units per second at 60 frames per second). */
  const FaceSpeed: real := 2.0
  const SinAmplitude: real := 80.0
  /** Arrow speed in units per second; negative is upwards. */
  const ArrowSpeed: real := -780.0
  /** The fixed frame step, in seconds, used to move arrows. */
  const FrameStep: real := 1.0 / 60.0
  const AlexSize: real := 56.0
  const AlexBottomPad: real := 14.0
  /** Distance outside the canvas beyond which an arrow is dropped. */
  const ArrowMargin: real := 20.0
  /** The launcher angle limit, in degrees either side of vertical. */
  const MaxAngle: real := 85.0

  datatype Arrow = Arrow(x: real, y: real, vx: real, vy: real, active: bool)
  /** What `getState` returns. */
  datatype CupidState = CupidState(score: nat, timeLeft: real, won: bool, timeUp: bool)

  /** The launcher angle kept by `setAngle`: the input clamped to [-85, 85]. */
  function LauncherAngle(angle: real): (r: real)
    ensures -MaxAngle <= r <= MaxAngle
    ensures -MaxAngle <= angle <= MaxAngle ==> r == angle
    ensures angle < -MaxAngle ==> r == -MaxAngle
    ensures angle > MaxAngle ==> r == MaxAngle
  {
    Clamp(-MaxAngle, MaxAngle, angle)
  }

  /**
   * `cupidPointerMove`: the pointer's bearing from the launcher, already
   * converted from `Math.atan2` radians to `degrees`, clamped to [-85, 85].
   */
  function PointerMoveAngle(degrees: real): (r: real)
    ensures -MaxAngle <= r <= MaxAngle
    ensures -MaxAngle <= degrees <= MaxAngle ==> r == degrees
  {
    LauncherAngle(degrees)
  }

  /**
   * `hitTest`: the arrow at (ax, ay), whose heart tip sits 8 units to the
   * right, hits when the tip lies in the closed disc inscribed in the face's
   * displayed square at (faceX, faceY).
   */
  function FaceHit(faceX: real, faceY: real, ax: real, ay: real): (r: bool)
    ensures r ==> faceX <= ax + 8.0 <= faceX + FaceSize && faceY <= ay <= faceY + FaceSize
    ensures ax + 8.0 == faceX + FaceSize / 2.0 && ay == faceY + FaceSize / 2.0 ==> r
  {
    var half := FaceSize / 2.0;
    var dx, dy := ax + 8.0 - (faceX + half), ay - (faceY + half);
    if InDisc(dx, dy, half) then
      DiscInSquare(dx, dy, half);
      true
    else
      false
  }

  /** An arrow that has left the canvas sideways or over the top by more than the margin. */
  predicate OutOfCanvas(a: Arrow, width: real)
  {
    a.y < -ArrowMargin || a.x < -ArrowMargin || a.x > width + ArrowMargin
  }

  /** An arrow advanced by one frame step. */
  function Moved(a: Arrow): Arrow
  {
    a.(x := a.x + a.vx * FrameStep, y := a.y + a.vy * FrameStep)
  }

  /**
   * An arrow that hits the face displayed at (faceX, faceY) in this frame:
   * it is active, and after its step it is still on the canvas and its tip
   * is on the face.
   */
  predicate HitsFace(a: Arrow, width: real, faceX: real, faceY: real)
  {
    a.active && !OutOfCanvas(Moved(a), width) && FaceHit(faceX, faceY, Moved(a).x, Moved(a).y)
  }

  /**
   * One frame's effect on an arrow: an inactive arrow stays as it is; an
   * active one moves by one frame step and is dropped exactly when it has
   * left the canvas by more than the margin or hits the face.
   */
  predicate Stepped(a: Arrow, a': Arrow, width: real, faceX: real, faceY: real)
  {
    if !a.active then a' == a
    else a' == Moved(a).(active := !OutOfCanvas(Moved(a), width) && !FaceHit(faceX, faceY, Moved(a).x, Moved(a).y))
  }

  /** The number of arrows in `arrows` that hit the face in this frame. */
  function CountHits(arrows: seq<Arrow>, width: real, faceX: real, faceY: real): (n: nat)
    ensures n <= |arrows|
    decreases |arrows|
  {
    if arrows == [] then 0
    else
      CountHits(arrows[..|arrows| - 1], width, faceX, faceY)
        + (if HitsFace(arrows[|arrows| - 1], width, faceX, faceY) then 1 else 0)
  }

  /** A frame scores exactly when some arrow reaches the face. */
  lemma {:induction false} CountHitsZero(arrows: seq<Arrow>, width: real, faceX: real, faceY: real)
    ensures CountHits(arrows, width, faceX, faceY) == 0 <==>
      forall j :: 0 <= j < |arrows| ==> !HitsFace(arrows[j], width, faceX, faceY)
    decreases |arrows|
  {
    if arrows != [] {
      var init := arrows[..|arrows| - 1];
      CountHitsZero(init, width, faceX, faceY);
      assert forall j :: 0 <= j < |init| ==> init[j] == arrows[j];
    }
  }

  /**
   * One bounce step of the face along one axis of length `extent`: move by
   * `v`; on touching or passing either wall, reverse and clamp into
   * [0, extent - 72].
   */
  function Bounce(pos: real, v: real, extent: real): (r: (real, real))
    ensures extent >= FaceSize ==> 0.0 <= r.0 <= extent - FaceSize
    ensures 0.0 < pos + v < extent - FaceSize ==> r == (pos + v, v)
    ensures pos + v <= 0.0 || pos + v >= extent - FaceSize ==> r.1 == -v
    ensures pos + v <= 0.0 ==> r.0 == 0.0
    ensures extent >= FaceSize && pos + v >= extent - FaceSize ==> r.0 == extent - FaceSize
  {
    var p := pos + v;
    if p <= 0.0 || p >= extent - FaceSize then (Clamp(0.0, extent - FaceSize, p), -v) else (p, v)
  }

  /** The closure state of `createCupidLoop`. */
  class CupidLoop {
    var running: bool
    var startTime: real
    var score: nat
    var timeLeft: real
    var won: bool
    var timeUp: bool
    var faceX: real
    var faceY: real
    var faceVx: real
    var faceVy: real
    var effectiveFaceY: real
    var arrows: seq<Arrow>
    var launcherAngle: real

    /** `won` is reaching three hits; the score itself is not bounded by three. */
    predicate Valid()
      reads this
    {
      (won <==> score >= HitsToWin) && timeLeft >= 0.0 && -MaxAngle <= launcherAngle <= MaxAngle
    }

    /** `getState`: a copy of the four reported fields. */
    function State(): (r: CupidState)
      reads this
      ensures Valid() ==> (r.won <==> r.score >= HitsToWin) && r.timeLeft >= 0.0
    {
      CupidState(score, timeLeft, won, timeUp)
    }

    /** The state `createCupidLoop` sets up, before `start`. */
    constructor ()
      ensures Valid()
      ensures State() == CupidState(0, GameDuration, false, false)
      ensures !running && arrows == [] && launcherAngle == 0.0
      ensures faceX == 0.0 && faceY == 0.0 && faceVx == FaceSpeed && faceVy == 0.0 && effectiveFaceY == 0.0
    {
      running, startTime := false, 0.0;
      score, timeLeft, won, timeUp := 0, GameDuration, false, false;
      faceX, faceY, faceVx, faceVy, effectiveFaceY := 0.0, 0.0, FaceSpeed, 0.0, 0.0;
      arrows := [];
      launcherAngle := 0.0;
    }

    /**
     * `start`: resets the score, the clock and both flags and empties the
     * arrow list. The face is placed later, when its image has loaded
     * (`FaceImageLoaded`); face and launcher angle are otherwise kept.
     */
    method Start(now: real)
      requires Valid()
      modifies this
      ensures Valid()
      ensures State() == CupidState(0, GameDuration, false, false)
      ensures arrows == [] && running && startTime == now
      ensures launcherAngle == old(launcherAngle)
      ensures faceX == old(faceX) && faceY == old(faceY) && faceVx == old(faceVx) && faceVy == old(faceVy)
      ensures effectiveFaceY == old(effectiveFaceY)
    {
      score, timeLeft, won, timeUp := 0, GameDuration, false, false;
      arrows := [];
      running := true;
      startTime := now;
    }

    /** `stop`. */
    method Stop()
      modifies this`running
      ensures !running
    {
      running := false;
    }

    /**
     * `spawnFace`, run when the face image has loaded: the face is placed
     * in the middle 60% of the width and between 25% and 60% of the height,
     * moving left or right at the face speed.
     */
    method FaceImageLoaded(width: real, height: real, rx: real, ry: real, coin: real)
      requires 0.0 <= rx < 1.0 && 0.0 <= ry < 1.0 && 0.0 <= coin < 1.0
      modifies this`faceX, this`faceY, this`faceVx, this`faceVy
      ensures width >= 0.0 ==> width * 0.2 <= faceX <= width * 0.8
      ensures width >= 360.0 ==> 0.0 <= faceX <= width - FaceSize
      ensures height >= 0.0 ==> height * 0.25 <= faceY <= height * 0.6
      ensures faceVx == (if coin > 0.5 then FaceSpeed else -FaceSpeed) && faceVy == 0.0
    {
      faceX := width * 0.2 + rx * width * 0.6;
      faceY := height * 0.25 + ry * height * 0.35;
      faceVx := (if coin > 0.5 then 1.0 else -1.0) * FaceSpeed;
      faceVy := 0.0;
      if width >= 0.0 {
        ScaleBelow(rx, width * 0.6);
        assert rx * width * 0.6 == rx * (width * 0.6);
      }
      if height >= 0.0 {
        ScaleBelow(ry, height * 0.35);
        assert ry * height * 0.35 == ry * (height * 0.35);
      }
    }

    /** `setAngle`. */
    method SetAngle(angle: real)
      modifies this`launcherAngle
      ensures launcherAngle == LauncherAngle(angle)
    {
      launcherAngle := Clamp(-MaxAngle, MaxAngle, angle);
    }

    /**
     * `shoot`: a new active arrow leaves the launcher; `sine` and `cosine`
     * are those of the launcher angle.
     */
    method Shoot(width: real, height: real, sine: real, cosine: real)
      modifies this`arrows
      ensures arrows == old(arrows) + [Arrow(width / 2.0, height - AlexSize - AlexBottomPad,
                                              sine * ArrowSpeed / 60.0, cosine * (ArrowSpeed / 60.0), true)]
    {
      var vx := sine * ArrowSpeed / 60.0;
      var vy := cosine * (ArrowSpeed / 60.0);
      arrows := arrows + [Arrow(width / 2.0, height - AlexSize - AlexBottomPad, vx, vy, true)];
    }

    /**
     * The `arrows.forEach` pass of a running frame: every active arrow moves
     * one step; one that leaves the canvas is dropped, one that hits the face
     * is dropped and scores. Reports the number of hits and of `onWin` calls:
     * `onWin` is called after every hit that leaves the score at three or more.
     */
    method MoveArrows(width: real) returns (hitCount: nat, winCalls: nat)
      requires Valid() && !won
      modifies this`arrows, this`score, this`won
      ensures Valid()
      ensures hitCount == CountHits(old(arrows), width, faceX, effectiveFaceY)
      ensures score == old(score) + hitCount
      ensures winCalls == if won then score - (HitsToWin - 1) else 0
      ensures |arrows| == |old(arrows)|
      ensures forall j :: 0 <= j < |arrows| ==> Stepped(old(arrows)[j], arrows[j], width, faceX, effectiveFaceY)
    {
      hitCount, winCalls := 0, 0;
      var i := 0;
      while i < |arrows|
        invariant 0 <= i <= |arrows| == |old(arrows)|
        invariant won <==> score >= HitsToWin
        invariant hitCount == CountHits(old(arrows)[..i], width, faceX, effectiveFaceY)
        invariant score == old(score) + hitCount
        invariant winCalls == if won then score - (HitsToWin - 1) else 0
        invariant forall j :: i <= j < |arrows| ==> arrows[j] == old(arrows)[j]
        invariant forall j :: 0 <= j < i ==> Stepped(old(arrows)[j], arrows[j], width, faceX, effectiveFaceY)
      {
        assert old(arrows)[..i + 1][..i] == old(arrows)[..i];
        var a := arrows[i];
        if a.active {
          a := Moved(a);
          if OutOfCanvas(a, width) {
            a := a.(active := false);
          } else if FaceHit(faceX, effectiveFaceY, a.x, a.y) {
            a := a.(active := false);
            score := score + 1;
            hitCount := hitCount + 1;
            if score >= HitsToWin {
              won := true;
              winCalls := winCalls + 1;
            }
          }
          arrows := arrows[i := a];
        }
        i := i + 1;
      }
      assert old(arrows)[..i] == old(arrows);
    }

    /**
     * One call of `loop(now)`; `sine` is `Math.sin` of the elapsed time's
     * phase. Reports the number of hits, of `onWin` calls, whether
     * `onTimeUp` fired, and how many animation frames it requested.
     */
    method Frame(now: real, width: real, height: real, sine: real)
      returns (hitCount: nat, winCalls: nat, firedTimeUp: bool, requests: nat)
      requires Valid()
      modifies this`timeLeft, this`timeUp, this`score, this`won, this`arrows
      modifies this`faceX, this`faceY, this`faceVx, this`faceVy, this`effectiveFaceY
      ensures Valid()
      ensures running == old(running) && startTime == old(startTime)
      ensures requests == FrameRequests(old(running), old(won) || old(timeUp))
      ensures score == old(score) + hitCount
      ensures winCalls > 0 <==> !old(won) && won
      ensures firedTimeUp <==> old(running) && !old(won) && !old(timeUp) && timeUp
      ensures old(won) ==> won
      ensures old(timeUp) ==> timeUp
      ensures launcherAngle == old(launcherAngle)
      // a stopped loop does nothing
      ensures !old(running) ==>
        && State() == old(State()) && arrows == old(arrows) && faceX == old(faceX)
        && faceY == old(faceY) && faceVx == old(faceVx) && faceVy == old(faceVy) && effectiveFaceY == old(effectiveFaceY)
      ensures old(running) ==> timeLeft == TimeLeft(GameDuration, now, old(startTime))
      // after the game is over, a frame only updates the clock
      ensures old(running) && (old(won) || old(timeUp)) ==>
        && score == old(score) && won == old(won) && timeUp == old(timeUp) && !firedTimeUp
        && arrows == old(arrows) && faceX == old(faceX) && faceY == old(faceY) && faceVx == old(faceVx)
        && faceVy == old(faceVy) && effectiveFaceY == old(effectiveFaceY)
      // the clock runs out: time up, nothing moves
      ensures old(running) && !old(won) && !old(timeUp) && TimeLeft(GameDuration, now, old(startTime)) == 0.0 ==>
        && timeUp && hitCount == 0 && score == old(score) && arrows == old(arrows)
        && faceX == old(faceX) && faceY == old(faceY) && faceVx == old(faceVx) && faceVy == old(faceVy)
        && effectiveFaceY == old(effectiveFaceY)
      // a playing frame: the face bounces, the arrows move, each hit scores one
      ensures old(running) && !old(won) && !old(timeUp) && TimeLeft(GameDuration, now, old(startTime)) > 0.0 ==>
        && !timeUp
        && effectiveFaceY == old(faceY) + sine * SinAmplitude * (height / 600.0)
        && (faceX, faceVx) == Bounce(old(faceX), old(faceVx), width)
        && (faceY, faceVy) == Bounce(old(faceY), old(faceVy), height)
        && winCalls == (if won then score - (HitsToWin - 1) else 0)
        && hitCount == CountHits(old(arrows), width, faceX, effectiveFaceY)
        && |arrows| == |old(arrows)|
        && (forall j :: 0 <= j < |arrows| ==> Stepped(old(arrows)[j], arrows[j], width, faceX, effectiveFaceY))
    {
      hitCount, winCalls, firedTimeUp, requests := 0, 0, false, 0;
      if !running {
        return;
      }
      timeLeft := TimeLeft(GameDuration, now, startTime);
      if timeUp || won {
        requests := 2;
        return;
      }
      requests := 1;
      if timeLeft <= 0.0 {
        timeUp := true;
        firedTimeUp := true;
        return;
      }
      effectiveFaceY := faceY + sine * SinAmplitude * (height / 600.0);
      faceX, faceVx := Bounce(faceX, faceVx, width).0, Bounce(faceX, faceVx, width).1;
      faceY, faceVy := Bounce(faceY, faceVy, height).0, Bounce(faceY, faceVy, height).1;
      hitCount, winCalls := MoveArrows(width);
    }
  }

  /**
   * Animation-frame requests made by one call of `loop` as written: the
   * branch for a game that is over calls `requestAnimationFrame` twice.
   */
  function FrameRequests(running: bool, over: bool): (r: nat)
    ensures r == 0 <==> !running
    ensures running && over ==> r == 2 * FrameRequestsIntended(running, over)
    ensures !over ==> r == FrameRequestsIntended(running, over)
  {
    if !running then 0 else if over then 2 else 1
  }

  /** One request per call of `loop`, as in every other branch and in the kisses loop. */
  function FrameRequestsIntended(running: bool, over: bool): (r: nat)
    ensures r <= 1 && (r == 1 <==> running)
  {
    if !running then 0 else 1
  }

  /**
   * Calls of `loop` in the `k`-th frame after the game is over, when each
   * call requests `perCall` further frames and all of them run.
   */
  function CallsAfter(perCall: nat, k: nat): (r: nat)
    ensures perCall >= 1 ==> r >= 1
    ensures perCall == 0 && k > 0 ==> r == 0
  {
    if k == 0 then 1 else perCall * CallsAfter(perCall, k - 1)
  }

  function Pow2(k: nat): (r: nat)
    ensures r >= 1
  {
    if k == 0 then 1 else 2 * Pow2(k - 1)
  }

  /** As written, the number of `loop` calls per frame doubles every frame once the game is over. */
  lemma {:induction false} OverCallsDouble(k: nat)
    ensures CallsAfter(FrameRequests(true, true), k) == Pow2(k)
    ensures CallsAfter(FrameRequests(true, true), k) > k
  {
    if k > 0 {
      OverCallsDouble(k - 1);
    }
  }

  /** Ten frames after the game is over, one frame runs `loop` (and `draw`) 1024 times. */
  lemma OverCallsAfterTen()
    ensures CallsAfter(FrameRequests(true, true), 10) == 1024
  {
    OverCallsDouble(10);
  }

  /** With one request per call, exactly one `loop` call runs in every frame. */
  lemma {:induction false} IntendedCallsSteady(k: nat, over: bool)
    ensures CallsAfter(FrameRequestsIntended(true, over), k) == 1
    ensures CallsAfter(FrameRequests(true, false), k) == 1
  {
    if k > 0 {
      IntendedCallsSteady(k - 1, over);
    }
  }
}
