/**
 * Game 2, the beach kisses: a head pops up from the sand for a short while,
 * the player fires kisses at it, and eight hits within twenty seconds win.
 * Hits in quick succession build a combo that decays after 1.5 seconds
 * without a hit.
 *
 * The closure state of `createKissesLoop` is the class `KissesLoop`; one
 * animation frame is one call of `Frame` with the frame's timestamp `now`
 * (milliseconds). Values drawn from `Math.random()` and velocities computed
 * with `Math.sqrt` are parameters. Callbacks are reported through
 * out-parameters that say whether, and how often, each one fired.
 */
module KissesGame {
  import opened Geometry
  import opened Subsequences

  const HitsToWin: nat := 8
  /** Game length in seconds. */
  const GameDuration: real := 20.0
  const HeadVisibleMin: real := 950.0
  const HeadVisibleMax: real := 1350.0
  const HeadSize: real := 64.0
  /** Milliseconds without a hit after which the combo is reset. */
  const ComboDecay: real := 1500.0
  /** Milliseconds a "mwah!" float text stays on screen. */
  const FloatTextDuration: real := 900.0
  /** Distance outside the canvas beyond which a kiss is dropped. */
  const KissMargin: real := 30.0
  /** The share of the canvas height covered by sand. */
  const SandHeightRatio: real := 1.0 / 3.0

  /** `sandTop`: the height at which the sand begins. */
  function SandTop(height: real): real
  {
    height * (1.0 - SandHeightRatio)
  }

  datatype Kiss = Kiss(x: real, y: real, vx: real, vy: real, active: bool)
  datatype FloatText = FloatText(x: real, y: real, t: real)
  /** What `getState` returns. */
  datatype KissesState = KissesState(hits: nat, combo: nat, timeLeft: real, won: bool, timeUp: bool)

  /**
   * `hitTest`: a kiss at (kx, ky) hits only while the head is visible, and
   * then exactly when it lies in the closed disc inscribed in the head's square.
   */
  function HeadHit(visible: bool, headX: real, headY: real, kx: real, ky: real): (r: bool)
    ensures r ==> visible
    ensures r ==> headX <= kx <= headX + HeadSize && headY <= ky <= headY + HeadSize
    ensures visible && kx == headX + HeadSize / 2.0 && ky == headY + HeadSize / 2.0 ==> r
  {
    var half := HeadSize / 2.0;
    var dx, dy := kx - (headX + half), ky - (headY + half);
    if visible && InDisc(dx, dy, half) then
      DiscInSquare(dx, dy, half);
      true
    else
      false
  }

  /** A kiss that has left the canvas by more than the margin. */
  predicate OutOfCanvas(k: Kiss, width: real, height: real)
  {
    k.y < -KissMargin || k.x < -KissMargin || k.x > width + KissMargin || k.y > height + KissMargin
  }

  predicate Expired(ft: FloatText, now: real)
  {
    now - ft.t > FloatTextDuration
  }

  /** The float texts still on screen at `now`, in their order. */
  function Unexpired(fts: seq<FloatText>, now: real): (r: seq<FloatText>)
    ensures forall i :: 0 <= i < |r| ==> !Expired(r[i], now)
    ensures forall i :: 0 <= i < |fts| && !Expired(fts[i], now) ==> fts[i] in r
    ensures IsSubseq(r, fts)
    ensures |r| <= |fts|
  {
    if fts == [] then []
    else
      var rest := Unexpired(fts[1..], now);
      assert forall i :: 1 <= i < |fts| ==> fts[i] == fts[1..][i - 1];
      SubseqLength(rest, fts[1..]);
      if Expired(fts[0], now) then
        SubseqOfTail(rest, fts);
        rest
      else
        assert ([fts[0]] + rest)[1..] == rest;
        [fts[0]] + rest
  }

  /** Each unexpired text survives as often as it occurs; no expired text survives. */
  lemma {:induction false} UnexpiredCounts(fts: seq<FloatText>, now: real)
    ensures forall x :: multiset(Unexpired(fts, now))[x] == if Expired(x, now) then 0 else multiset(fts)[x]
  {
    if fts != [] {
      UnexpiredCounts(fts[1..], now);
      assert fts == [fts[0]] + fts[1..];
      assert multiset(fts) == multiset{fts[0]} + multiset(fts[1..]);
      if !Expired(fts[0], now) {
        var rest := Unexpired(fts[1..], now);
        assert multiset([fts[0]] + rest) == multiset{fts[0]} + multiset(rest);
      }
    }
  }

  lemma {:induction false} UnexpiredConcat(a: seq<FloatText>, b: seq<FloatText>, now: real)
    ensures Unexpired(a + b, now) == Unexpired(a, now) + Unexpired(b, now)
  {
    if a == [] {
      assert a + b == b;
    } else {
      assert (a + b)[1..] == a[1..] + b;
      UnexpiredConcat(a[1..], b, now);
    }
  }

  lemma {:induction false} UnexpiredOfFresh(s: seq<FloatText>, now: real)
    requires forall i :: 0 <= i < |s| ==> !Expired(s[i], now)
    ensures Unexpired(s, now) == s
  {
    if s != [] {
      UnexpiredOfFresh(s[1..], now);
    }
  }

  /**
   * The indices of exactly the expired entries of `fts`, in strictly
   * ascending order.
   */
  predicate ExpiredIndices(toRemove: seq<nat>, fts: seq<FloatText>, now: real)
  {
    && (forall a :: 0 <= a < |toRemove| ==> toRemove[a] < |fts| && Expired(fts[toRemove[a]], now))
    && (forall a, c :: 0 <= a < c < |toRemove| ==> toRemove[a] < toRemove[c])
    && (forall k :: 0 <= k < |fts| && Expired(fts[k], now) ==> k in toRemove)
  }

  /** The `floatTexts.forEach` pass of `draw` that collects the indices to remove. */
  method CollectExpired(fts: seq<FloatText>, now: real) returns (toRemove: seq<nat>)
    ensures ExpiredIndices(toRemove, fts, now)
  {
    toRemove := [];
    var i := 0;
    while i < |fts|
      invariant 0 <= i <= |fts|
      invariant forall a :: 0 <= a < |toRemove| ==> toRemove[a] < i && Expired(fts[toRemove[a]], now)
      invariant forall a, c :: 0 <= a < c < |toRemove| ==> toRemove[a] < toRemove[c]
      invariant forall k :: 0 <= k < i && Expired(fts[k], now) ==> k in toRemove
    {
      if Expired(fts[i], now) {
        toRemove := toRemove + [i];
      }
      i := i + 1;
    }
  }

  /**
   * The float-text expiry at the end of `draw`: the indices of the expired
   * entries are collected in ascending order, then spliced out from the
   * highest down, so that earlier indices stay valid. The result is the
   * unexpired entries in their original order.
   */
  method RemoveExpired(fts: seq<FloatText>, now: real) returns (kept: seq<FloatText>)
    ensures kept == Unexpired(fts, now)
  {
    var toRemove := CollectExpired(fts, now);
    kept := fts;
    var j := |toRemove|;
    while j > 0
      invariant 0 <= j <= |toRemove|
      invariant Bound(toRemove, j, |fts|) <= |fts|
      invariant kept == fts[..Bound(toRemove, j, |fts|)] + Unexpired(fts[Bound(toRemove, j, |fts|)..], now)
    {
      var b := Bound(toRemove, j, |fts|);
      j := j - 1;
      var r := toRemove[j];
      NothingExpiredBetween(fts, now, toRemove, j, b);
      SpliceStep(fts, now, r, b);
      kept := kept[..r] + kept[r + 1..];
    }
    var b := Bound(toRemove, 0, |fts|);
    NothingExpiredBetween(fts, now, toRemove, -1, b);
    FreshPrefix(fts, now, b);
  }

  /** A prefix with no expired entry is kept whole. */
  lemma FreshPrefix(fts: seq<FloatText>, now: real, b: nat)
    requires b <= |fts| && forall k :: 0 <= k < b ==> !Expired(fts[k], now)
    ensures fts[..b] + Unexpired(fts[b..], now) == Unexpired(fts, now)
  {
    var head, tail := fts[..b], fts[b..];
    assert head + tail == fts;
    assert forall k :: 0 <= k < |head| ==> head[k] == fts[k];
    UnexpiredOfFresh(head, now);
    UnexpiredConcat(head, tail, now);
  }

  /** The first index already spliced out, or `n` when none is. */
  function Bound(toRemove: seq<nat>, j: nat, n: nat): nat
    requires j <= |toRemove|
  {
    if j == |toRemove| then n else toRemove[j]
  }

  /** Between two consecutive collected indices no entry is expired. */
  lemma NothingExpiredBetween(fts: seq<FloatText>, now: real, toRemove: seq<nat>, j: int, b: nat)
    requires -1 <= j < |toRemove| && ExpiredIndices(toRemove, fts, now)
    requires b == Bound(toRemove, j + 1, |fts|)
    ensures b <= |fts|
    ensures j >= 0 ==> toRemove[j] < b && Expired(fts[toRemove[j]], now)
    ensures forall k :: (if j < 0 then 0 else toRemove[j] + 1) <= k < b ==> !Expired(fts[k], now)
  {
    var lo := if j < 0 then 0 else toRemove[j] + 1;
    forall a | 0 <= a < |toRemove|
      ensures toRemove[a] < lo || b <= toRemove[a]
    {
    }
  }

  /** Splicing out expired entry `r` when the entries between `r` and `b` are fresh. */
  lemma SpliceStep(fts: seq<FloatText>, now: real, r: nat, b: nat)
    requires r < b <= |fts| && Expired(fts[r], now)
    requires forall k :: r + 1 <= k < b ==> !Expired(fts[k], now)
    ensures var kept := fts[..b] + Unexpired(fts[b..], now);
      kept[..r] + kept[r + 1..] == fts[..r] + Unexpired(fts[r..], now)
  {
    CutAt(fts, Unexpired(fts[b..], now), r, b);
    UnexpiredFrom(fts, now, r, b);
  }

  /** Cutting position `r` out of a prefix of `s` followed by `u`. */
  lemma CutAt<T>(s: seq<T>, u: seq<T>, r: nat, b: nat)
    requires r < b <= |s|
    ensures var kept := s[..b] + u;
      kept[..r] + kept[r + 1..] == s[..r] + (s[r + 1..b] + u)
  {
    var kept := s[..b] + u;
    assert kept[..r] == s[..r];
    assert kept[r + 1..] == s[r + 1..b] + u;
  }

  /** An expired entry at `r` followed by fresh entries up to `b`. */
  lemma UnexpiredFrom(fts: seq<FloatText>, now: real, r: nat, b: nat)
    requires r < b <= |fts| && Expired(fts[r], now)
    requires forall k :: r + 1 <= k < b ==> !Expired(fts[k], now)
    ensures Unexpired(fts[r..], now) == fts[r + 1..b] + Unexpired(fts[b..], now)
  {
    var mid, tail := fts[r + 1..b], fts[b..];
    var from := fts[r..];
    assert from[1..] == mid + tail;
    UnexpiredDropsHead(from, now);
    UnexpiredOfFresh(mid, now);
    UnexpiredConcat(mid, tail, now);
  }

  lemma UnexpiredDropsHead(s: seq<FloatText>, now: real)
    requires s != [] && Expired(s[0], now)
    ensures Unexpired(s, now) == Unexpired(s[1..], now)
  {
  }

  /** The closure state of `createKissesLoop`. */
  class KissesLoop {
    var running: bool
    var startTime: real
    var hits: nat
    var combo: nat
    var timeLeft: real
    var won: bool
    var timeUp: bool
    var lastHitTime: real
    var headX: real
    var headY: real
    var headVisible: bool
    var headHideAt: real
    var spawnScheduled: bool
    var kisses: seq<Kiss>
    var floatTexts: seq<FloatText>

    /** The game-rule invariant: the combo never exceeds the hits, and `won` is reaching eight hits. */
    predicate Valid()
      reads this
    {
      combo <= hits <= HitsToWin && (won <==> hits >= HitsToWin) && timeLeft >= 0.0
    }

    /** `getState`: a copy of the five reported fields. */
    function State(): (r: KissesState)
      reads this
      ensures Valid() ==> r.combo <= r.hits <= HitsToWin && (r.won <==> r.hits >= HitsToWin) && r.timeLeft >= 0.0
    {
      KissesState(hits, combo, timeLeft, won, timeUp)
    }

    /** The state `createKissesLoop` sets up, before `start`. */
    constructor ()
      ensures Valid()
      ensures State() == KissesState(0, 0, GameDuration, false, false)
      ensures !running && !headVisible && !spawnScheduled && kisses == [] && floatTexts == []
      ensures lastHitTime == 0.0
    {
      running, startTime := false, 0.0;
      hits, combo, timeLeft, won, timeUp := 0, 0, GameDuration, false, false;
      lastHitTime := 0.0;
      headX, headY, headVisible, headHideAt := 0.0, 0.0, false, 0.0;
      spawnScheduled := false;
      kisses, floatTexts := [], [];
    }

    /**
     * `start`: resets the game, empties the kiss list, hides the head and
     * asks for a spawn. Float texts and the time of the last hit survive.
     * Returns whether a new spawn timer was set.
     */
    method Start(now: real) returns (scheduled: bool)
      modifies this
      ensures Valid()
      ensures State() == KissesState(0, 0, GameDuration, false, false)
      ensures kisses == [] && !headVisible && running && startTime == now
      ensures spawnScheduled && scheduled == !old(spawnScheduled)
      ensures floatTexts == old(floatTexts) && lastHitTime == old(lastHitTime)
      ensures headX == old(headX) && headY == old(headY) && headHideAt == old(headHideAt)
    {
      scheduled := ScheduleSpawn();
      hits, combo, timeLeft, won, timeUp := 0, 0, GameDuration, false, false;
      kisses := [];
      headVisible := false;
      running := true;
      startTime := now;
    }

    /** `stop`. */
    method Stop()
      modifies this`running
      ensures !running
      ensures State() == old(State()) && kisses == old(kisses) && floatTexts == old(floatTexts)
    {
      running := false;
    }

    /** `scheduleSpawn`: sets a spawn timer only if none is pending. */
    method ScheduleSpawn() returns (scheduled: bool)
      modifies this`spawnScheduled
      ensures scheduled == !old(spawnScheduled)
      ensures spawnScheduled
    {
      if spawnScheduled {
        return false;
      }
      spawnScheduled := true;
      return true;
    }

    /** The timer set by `scheduleSpawn` runs out: `spawnHead`, then the flag is cleared. */
    method SpawnTimerFired(now: real, width: real, height: real, rx: real, ry: real, rv: real)
      requires 0.0 <= rx < 1.0 && 0.0 <= ry < 1.0 && 0.0 <= rv < 1.0
      requires Valid()
      modifies this`headX, this`headY, this`headVisible, this`headHideAt, this`spawnScheduled
      ensures Valid() && !spawnScheduled
      ensures State() == old(State()) && kisses == old(kisses) && floatTexts == old(floatTexts)
      ensures running == old(running)
      // the head is spawned exactly as `spawnHead` does it
      ensures !running || won || timeUp ==>
        headX == old(headX) && headY == old(headY) && headVisible == old(headVisible) && headHideAt == old(headHideAt)
      ensures running && !won && !timeUp ==>
        && headVisible
        && now + HeadVisibleMin <= headHideAt < now + HeadVisibleMax
        && (width >= 2.0 * HeadSize ==> HeadSize / 2.0 <= headX <= width - 1.5 * HeadSize)
        && SandTop(height) - HeadSize - 10.0 <= headY < SandTop(height) - HeadSize + 10.0
    {
      SpawnHead(now, width, height, rx, ry, rv);
      spawnScheduled := false;
    }

    /**
     * `spawnHead`: shows the head at a random place above the sand for
     * 950 to 1350 ms; does nothing when the loop is stopped or the game over.
     */
    method SpawnHead(now: real, width: real, height: real, rx: real, ry: real, rv: real)
      requires 0.0 <= rx < 1.0 && 0.0 <= ry < 1.0 && 0.0 <= rv < 1.0
      requires Valid()
      modifies this`headX, this`headY, this`headVisible, this`headHideAt
      ensures Valid()
      ensures !running || won || timeUp ==>
        headX == old(headX) && headY == old(headY) && headVisible == old(headVisible) && headHideAt == old(headHideAt)
      ensures running && !won && !timeUp ==>
        && headVisible
        && now + HeadVisibleMin <= headHideAt < now + HeadVisibleMax
        && (width >= 2.0 * HeadSize ==> HeadSize / 2.0 <= headX <= width - 1.5 * HeadSize)
        && SandTop(height) - HeadSize - 10.0 <= headY < SandTop(height) - HeadSize + 10.0
    {
      if !running || won || timeUp {
        return;
      }
      headX := HeadSize / 2.0 + rx * (width - HeadSize * 2.0);
      headY := SandTop(height) - HeadSize - 10.0 + ry * 20.0;
      headVisible := true;
      headHideAt := now + HeadVisibleMin + rv * (HeadVisibleMax - HeadVisibleMin);
      assert rv * (HeadVisibleMax - HeadVisibleMin) < HeadVisibleMax - HeadVisibleMin;
      if width >= 2.0 * HeadSize {
        ScaleBelow(rx, width - HeadSize * 2.0);
      }
    }

    /** `fire`: a new active kiss leaves the blaster with the given velocity. */
    method Fire(width: real, height: real, vx: real, vy: real)
      modifies this`kisses
      ensures kisses == old(kisses) + [Kiss(width / 2.0, height - 60.0, vx, vy, true)]
    {
      kisses := kisses + [Kiss(width / 2.0, height - 60.0, vx, vy, true)];
    }

    /** The end of `draw`: expired float texts are removed. */
    method Draw(now: real)
      modifies this`floatTexts
      ensures floatTexts == Unexpired(old(floatTexts), now)
    {
      floatTexts := RemoveExpired(floatTexts, now);
    }

    /**
     * A kiss reaches the visible head: a float text at the kiss, the combo
     * and the hits go up, eight hits win, and the head hides.
     */
    method ScoreHit(now: real, x: real, y: real) returns (firedWin: bool)
      requires Valid() && !won
      modifies this`floatTexts, this`lastHitTime, this`combo, this`hits, this`won, this`headVisible
      ensures Valid()
      ensures floatTexts == old(floatTexts) + [FloatText(x, y, now)]
      ensures lastHitTime == now && combo == old(combo) + 1 && hits == old(hits) + 1 && !headVisible
      ensures firedWin <==> won
    {
      floatTexts := floatTexts + [FloatText(x, y, now)];
      lastHitTime := now;
      combo := combo + 1;
      hits := hits + 1;
      firedWin := false;
      if hits >= HitsToWin {
        won := true;
        firedWin := true;
      }
      headVisible := false;
    }

    /**
     * The `kisses.forEach` pass of a running frame: every active kiss moves
     * one step; one that leaves the canvas is dropped, one that hits the
     * visible head is dropped, counts a hit, leaves a float text, bumps the
     * combo and hides the head. Reports how many kisses hit (at most one:
     * a hit hides the head, and a hidden head cannot be hit) and whether
     * `onWin` fired.
     */
    method MoveKisses(now: real, width: real, height: real) returns (hitCount: nat, firedWin: bool)
      requires Valid() && !won
      modifies this`kisses, this`floatTexts, this`lastHitTime, this`combo, this`hits, this`won, this`headVisible
      ensures Valid()
      ensures hitCount <= 1 && hits == old(hits) + hitCount
      ensures firedWin <==> won
      ensures firedWin ==> hitCount == 1
      ensures hitCount == 1 ==> !headVisible && lastHitTime == now && combo == old(combo) + 1
      ensures hitCount == 0 ==> combo == old(combo) && lastHitTime == old(lastHitTime) && headVisible == old(headVisible)
      ensures floatTexts == old(floatTexts) + HitText(old(kisses), old(headVisible), headX, headY, width, height, now)
      ensures (kisses, hitCount == 1) == KissPass(old(kisses), old(headVisible), headX, headY, width, height)
    {
      hitCount, firedWin := 0, false;
      var i := 0;
      while i < |kisses|
        invariant 0 <= i <= |kisses| == |old(kisses)|
        invariant combo <= hits <= HitsToWin && (won <==> hits >= HitsToWin)
        invariant hitCount <= 1 && hits == old(hits) + hitCount
        invariant hitCount == 1 ==> !headVisible && lastHitTime == now && combo == old(combo) + 1
        invariant hitCount == 0 ==> combo == old(combo) && lastHitTime == old(lastHitTime) && headVisible == old(headVisible)
        invariant firedWin <==> won
        invariant firedWin ==> hitCount == 1
        invariant floatTexts == old(floatTexts) + HitText(old(kisses)[..i], old(headVisible), headX, headY, width, height, now)
        invariant forall j :: i <= j < |kisses| ==> kisses[j] == old(kisses)[j]
        invariant (kisses[..i], hitCount == 1) == KissPass(old(kisses)[..i], old(headVisible), headX, headY, width, height)
      {
        assert old(kisses)[..i + 1][..i] == old(kisses)[..i];
        ghost var done := kisses[..i];
        var k := kisses[i];
        if k.active {
          k := Moved(k);
          if OutOfCanvas(k, width, height) {
            k := k.(active := false);
          } else if HeadHit(headVisible, headX, headY, k.x, k.y) {
            k := k.(active := false);
            firedWin := ScoreHit(now, k.x, k.y);
            hitCount := hitCount + 1;
          }
          kisses := kisses[i := k];
        }
        assert kisses[..i + 1] == done + [k];
        i := i + 1;
      }
      assert old(kisses)[..i] == old(kisses) && kisses[..i] == kisses;
    }

    /**
     * One call of `loop(now)`. Reports how many kisses hit, whether `onWin`
     * and `onTimeUp` fired, and how many respawn timers were set (one when
     * the head's time is up, one per hit).
     */
    method Frame(now: real, width: real, height: real)
      returns (hitCount: nat, firedWin: bool, firedTimeUp: bool, respawns: nat)
      requires Valid()
      modifies this`timeLeft, this`timeUp, this`kisses, this`floatTexts
      modifies this`lastHitTime, this`combo, this`hits, this`won, this`headVisible
      ensures Valid()
      ensures running == old(running) && startTime == old(startTime)
      ensures headX == old(headX) && headY == old(headY) && headHideAt == old(headHideAt)
      ensures spawnScheduled == old(spawnScheduled)
      ensures hitCount <= 1 && respawns <= 2
      ensures hits == old(hits) + hitCount
      ensures firedWin <==> !old(won) && won
      ensures firedWin ==> hitCount == 1
      ensures firedTimeUp <==> old(running) && !old(won) && !old(timeUp) && timeUp
      ensures old(won) ==> won
      ensures old(timeUp) ==> timeUp
      // a stopped loop does nothing
      ensures !old(running) ==>
        && State() == old(State()) && kisses == old(kisses) && floatTexts == old(floatTexts) && respawns == 0
        && headVisible == old(headVisible) && lastHitTime == old(lastHitTime)
      ensures old(running) ==> timeLeft == TimeLeft(GameDuration, now, old(startTime))
      // after the game is over, a frame only updates the clock and the float texts
      ensures old(running) && (old(won) || old(timeUp)) ==>
        && hits == old(hits) && combo == old(combo) && won == old(won) && timeUp == old(timeUp)
        && kisses == old(kisses) && headVisible == old(headVisible) && lastHitTime == old(lastHitTime)
        && !firedTimeUp && respawns == 0
        && floatTexts == Unexpired(old(floatTexts), now)
      // the clock runs out: time up, nothing moves
      ensures old(running) && !old(won) && !old(timeUp) && TimeLeft(GameDuration, now, old(startTime)) == 0.0 ==>
        && timeUp && hitCount == 0 && respawns == 0 && kisses == old(kisses) && hits == old(hits)
        && combo == old(combo) && lastHitTime == old(lastHitTime) && headVisible == old(headVisible)
        && floatTexts == Unexpired(old(floatTexts), now)
      // a playing frame: the combo decays, kisses move, a hit bumps the combo
      ensures hitCount == 1 ==> lastHitTime == now && !headVisible
      ensures hitCount == 1 ==>
        combo == (if now - old(lastHitTime) > ComboDecay then 0 else old(combo)) + 1
      ensures old(running) && !old(won) && !old(timeUp) && TimeLeft(GameDuration, now, old(startTime)) > 0.0 ==>
        && !timeUp && !firedTimeUp
        && (kisses, hitCount == 1)
             == KissPass(old(kisses), old(headVisible) && now < old(headHideAt), old(headX), old(headY), width, height)
        // a head shown past its hide time is hidden and respawned; a hit respawns it too
        && respawns == (if old(headVisible) && now >= old(headHideAt) then 1 else 0) + hitCount
        && (hitCount == 0 ==> headVisible == (old(headVisible) && now < old(headHideAt)))
        && (hitCount == 0 ==> lastHitTime == old(lastHitTime))
        && (hitCount == 0 ==> combo == (if now - old(lastHitTime) > ComboDecay then 0 else old(combo)))
        && floatTexts == Unexpired(old(floatTexts), now)
             + HitText(old(kisses), old(headVisible) && now < old(headHideAt), old(headX), old(headY), width, height, now)
    {
      hitCount, firedWin, firedTimeUp, respawns := 0, false, false, 0;
      if !running {
        return;
      }
      timeLeft := TimeLeft(GameDuration, now, startTime);
      if timeUp || won {
        Draw(now);
        return;
      }
      if timeLeft <= 0.0 {
        timeUp := true;
        firedTimeUp := true;
        Draw(now);
        return;
      }
      hitCount, firedWin, respawns := Play(now, width, height);
    }

    /**
     * The playing part of a frame: a head shown past its hide time is
     * hidden and a respawn is scheduled, the combo decays after `ComboDecay`,
     * the kisses move, and drawing drops the expired float texts.
     */
    method Play(now: real, width: real, height: real) returns (hitCount: nat, firedWin: bool, respawns: nat)
      requires Valid() && !won
      modifies this`kisses, this`floatTexts, this`lastHitTime, this`combo, this`hits, this`won, this`headVisible
      ensures Valid()
      ensures hitCount <= 1 && hits == old(hits) + hitCount
      ensures firedWin <==> won
      ensures firedWin ==> hitCount == 1
      ensures (kisses, hitCount == 1)
        == KissPass(old(kisses), old(headVisible) && now < old(headHideAt), headX, headY, width, height)
      ensures respawns == (if old(headVisible) && now >= old(headHideAt) then 1 else 0) + hitCount
      ensures hitCount == 1 ==>
        lastHitTime == now && !headVisible && combo == (if now - old(lastHitTime) > ComboDecay then 0 else old(combo)) + 1
      ensures hitCount == 0 ==>
        && headVisible == (old(headVisible) && now < old(headHideAt)) && lastHitTime == old(lastHitTime)
        && combo == (if now - old(lastHitTime) > ComboDecay then 0 else old(combo))
      // drawing keeps the old texts still on screen and the text of this frame's hit
      ensures floatTexts == Unexpired(old(floatTexts), now)
        + HitText(old(kisses), old(headVisible) && now < old(headHideAt), headX, headY, width, height, now)
    {
      respawns := 0;
      if headVisible && now >= headHideAt {
        headVisible := false;
        respawns := 1;
      }
      if now - lastHitTime > ComboDecay {
        combo := 0;
      }
      ghost var before := floatTexts;
      hitCount, firedWin := MoveKisses(now, width, height);
      respawns := respawns + hitCount;
      ghost var added := floatTexts[|before|..];
      UnexpiredConcat(before, added, now);
      UnexpiredOfFresh(added, now);
      Draw(now);
    }
  }

  /** A kiss advanced by its velocity. */
  function Moved(k: Kiss): (m: Kiss)
    ensures m.vx == k.vx && m.vy == k.vy && m.active == k.active
  {
    k.(x := k.x + k.vx, y := k.y + k.vy)
  }

  /**
   * A kiss that hits a head visible as `visible` in this frame: it is
   * active, and after its step it is still on the canvas and on the head.
   */
  predicate HitsHead(k: Kiss, visible: bool, headX: real, headY: real, width: real, height: real)
  {
    k.active && !OutOfCanvas(Moved(k), width, height) && HeadHit(visible, headX, headY, Moved(k).x, Moved(k).y)
  }

  /**
   * One kiss of the `kisses.forEach` pass while the head is visible as
   * `visible`: the kiss after its step, and whether it hit.
   */
  function KissStep(k: Kiss, visible: bool, headX: real, headY: real, width: real, height: real): (Kiss, bool)
  {
    if !k.active then (k, false)
    else
      var m := Moved(k);
      if OutOfCanvas(m, width, height) then (m.(active := false), false)
      else if HeadHit(visible, headX, headY, m.x, m.y) then (m.(active := false), true)
      else (m, false)
  }

  /**
   * The whole `kisses.forEach` pass, kiss by kiss in order; a hit hides the
   * head for the kisses after it. The kisses after the pass, and whether one hit.
   */
  function KissPass(ks: seq<Kiss>, visible: bool, headX: real, headY: real, width: real, height: real): (r: (seq<Kiss>, bool))
    ensures |r.0| == |ks|
    decreases |ks|
  {
    if ks == [] then ([], false)
    else
      var (init, hit) := KissPass(ks[..|ks| - 1], visible, headX, headY, width, height);
      var (k, h) := KissStep(ks[|ks| - 1], visible && !hit, headX, headY, width, height);
      (init + [k], hit || h)
  }

  /** Kiss `j` is the first kiss of `ks` that reaches the head. */
  predicate FirstHit(ks: seq<Kiss>, j: nat, visible: bool, headX: real, headY: real, width: real, height: real)
    requires j < |ks|
  {
    HitsHead(ks[j], visible, headX, headY, width, height)
      && forall i :: 0 <= i < j ==> !HitsHead(ks[i], visible, headX, headY, width, height)
  }

  /**
   * The pass scores exactly when some kiss reaches the head. Every active
   * kiss moves one step; it is dropped exactly when it has left the canvas
   * or is the first kiss to reach the head; inactive kisses do not change.
   */
  lemma {:induction false} KissPassHits(ks: seq<Kiss>, visible: bool, headX: real, headY: real, width: real, height: real)
    ensures var r := KissPass(ks, visible, headX, headY, width, height);
      && (r.1 <==> exists j :: 0 <= j < |ks| && HitsHead(ks[j], visible, headX, headY, width, height))
      && forall j :: 0 <= j < |ks| ==>
           r.0[j] == if !ks[j].active then ks[j]
                     else Moved(ks[j]).(active := !OutOfCanvas(Moved(ks[j]), width, height)
                                                  && !FirstHit(ks, j, visible, headX, headY, width, height))
    decreases |ks|
  {
    if ks != [] {
      var n := |ks| - 1;
      var init := ks[..n];
      KissPassHits(init, visible, headX, headY, width, height);
      assert forall i :: 0 <= i < n ==> init[i] == ks[i];
      assert forall j :: 0 <= j < n ==>
        FirstHit(init, j, visible, headX, headY, width, height) == FirstHit(ks, j, visible, headX, headY, width, height);
    }
  }

  /**
   * The float texts the pass records at time `now`: one at the kiss that
   * scores, where it is after its step, or none.
   */
  function HitText(ks: seq<Kiss>, visible: bool, headX: real, headY: real, width: real, height: real, now: real)
    : (r: seq<FloatText>)
    ensures |r| == if KissPass(ks, visible, headX, headY, width, height).1 then 1 else 0
    ensures forall i :: 0 <= i < |r| ==> r[i].t == now
    decreases |ks|
  {
    if ks == [] then []
    else
      var init, last := ks[..|ks| - 1], ks[|ks| - 1];
      if !KissPass(init, visible, headX, headY, width, height).1 && HitsHead(last, visible, headX, headY, width, height)
      then [FloatText(Moved(last).x, Moved(last).y, now)]
      else HitText(init, visible, headX, headY, width, height, now)
  }

  /** The text the pass records is at the first kiss to reach the head, after its step. */
  lemma {:induction false} HitTextAtFirstHit(ks: seq<Kiss>, j: nat, visible: bool, headX: real, headY: real,
                                            width: real, height: real, now: real)
    requires j < |ks| && FirstHit(ks, j, visible, headX, headY, width, height)
    ensures HitText(ks, visible, headX, headY, width, height, now) == [FloatText(Moved(ks[j]).x, Moved(ks[j]).y, now)]
    decreases |ks|
  {
    var n := |ks| - 1;
    var init := ks[..n];
    KissPassHits(init, visible, headX, headY, width, height);
    if j < n {
      assert FirstHit(init, j, visible, headX, headY, width, height);
      HitTextAtFirstHit(init, j, visible, headX, headY, width, height, now);
    } else {
      assert forall i :: 0 <= i < n ==> init[i] == ks[i];
    }
  }
}
