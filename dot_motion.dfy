/** How a dot moves: the click shock wave and the per-frame update of one
    dot, with what the frame draws for it. */
module DotMotion {
  import opened RealMath
  import opened DotGrid

  // ---------------------------------------------------------- geometry

  /** A vector in the plane. */
  datatype Vec = Vec(x: real, y: real)

  /** The unit vector of angle `atan2(dy, dx)`, where `d` is the length of (dx, dy). */
  function Heading(dx: real, dy: real, d: real): Vec {
    if d == 0.0 then Vec(1.0, 0.0) else Vec(dx / d, dy / d)
  }

  /** `Math.sqrt(dx ** 2 + dy ** 2)`: the length of (dx, dy). */
  function Dist(sqrt: real -> real, dx: real, dy: real): real {
    sqrt(dx * dx + dy * dy)
  }

  /** With the true length, the heading is a unit vector and `d` times it is (dx, dy). */
  lemma HeadingIsUnit(dx: real, dy: real, d: real)
    requires 0.0 <= d && d * d == dx * dx + dy * dy
    ensures Heading(dx, dy, d).x * Heading(dx, dy, d).x + Heading(dx, dy, d).y * Heading(dx, dy, d).y == 1.0
    ensures d * Heading(dx, dy, d).x == dx && d * Heading(dx, dy, d).y == dy
  {
    if d != 0.0 {
      var ux, uy := dx / d, dy / d;
      ScaledSquare(ux, d, dx);
      ScaledSquare(uy, d, dy);
      var s := ux * ux + uy * uy;
      assert s * (d * d) == (ux * ux) * (d * d) + (uy * uy) * (d * d);
      SquarePos(d, d * d);
      Cancel(s, d * d, s * (d * d));
    } else {
      SquareNonNeg(dx, dx * dx);
      SquareNonNeg(dy, dy * dy);
      SquareZero(dx, dx * dx);
      SquareZero(dy, dy * dy);
    }
  }

  /** For a non-negative radius, comparing the root distance with it is
      comparing squared distance with the squared radius. */
  lemma WithinIff(sqrt: real -> real, dx: real, dy: real, radius: real)
    requires IsRoot(sqrt) && radius >= 0.0
    ensures var d := Dist(sqrt, dx, dy);
      0.0 <= d && d * d == dx * dx + dy * dy &&
      (d <= radius <==> dx * dx + dy * dy <= radius * radius) &&
      (d < radius <==> dx * dx + dy * dy < radius * radius)
  {
    var s := dx * dx + dy * dy;
    SquareNonNeg(dx, dx * dx);
    SquareNonNeg(dy, dy * dy);
    var d := Dist(sqrt, dx, dy);
    assert 0.0 <= d && d * d == s;
    SquareMono(d, radius);
  }

  // ------------------------------------------------------------- click

  /** Length of the push a click gives a dot at distance `d` (within the radius):
      `max(0, 1 - d / shockRadius) * shockStrength`. */
  function Impulse(cfg: Config, d: real): real
    requires WellFormed(cfg)
  {
    Max(0.0, 1.0 - d / cfg.shockRadius) * cfg.shockStrength
  }

  /** The push is between 0 and shockStrength, and the farther the dot the
      weaker the push. */
  lemma ImpulseBounds(cfg: Config, d1: real, d2: real)
    requires WellFormed(cfg) && cfg.shockStrength >= 0.0
    requires 0.0 <= d1 <= d2
    ensures 0.0 <= Impulse(cfg, d2) <= Impulse(cfg, d1) <= cfg.shockStrength
  {
    var f1, f2 := Max(0.0, 1.0 - d1 / cfg.shockRadius), Max(0.0, 1.0 - d2 / cfg.shockRadius);
    assert d1 / cfg.shockRadius <= d2 / cfg.shockRadius by {
      assert d2 / cfg.shockRadius - d1 / cfg.shockRadius == (d2 - d1) / cfg.shockRadius;
    }
    assert 0.0 <= f2 <= f1 <= 1.0 by {
      assert 0.0 <= d1 / cfg.shockRadius;
    }
    assert f2 * cfg.shockStrength <= f1 * cfg.shockStrength;
    assert f1 * cfg.shockStrength <= cfg.shockStrength;
  }

  /** The push a click gives a dot whose home lies at (dx, dy) from the
      click: `pushDistance` along the heading from the click to the home
      when the home is within shockRadius, nothing otherwise. */
  function Kick(cfg: Config, sqrt: real -> real, dx: real, dy: real): Vec
    requires WellFormed(cfg)
  {
    var d := Dist(sqrt, dx, dy);
    if d <= cfg.shockRadius then
      var u := Heading(dx, dy, d);
      var push := Impulse(cfg, d);
      Vec(u.x * push, u.y * push)
    else
      Vec(0.0, 0.0)
  }

  /** The click handler's effect on one dot, for a click at (cx, cy): only
      the offset changes, by the kick, which depends on the dot's home and
      not on its current offset. */
  function Shock(cfg: Config, sqrt: real -> real, dot: Dot, cx: real, cy: real): (r: Dot)
    requires WellFormed(cfg)
    ensures r.(offsetX := dot.offsetX, offsetY := dot.offsetY) == dot
  {
    var k := Kick(cfg, sqrt, dot.originalX - cx, dot.originalY - cy);
    dot.(offsetX := dot.offsetX + k.x, offsetY := dot.offsetY + k.y)
  }

  /** A click leaves every dot whose home is farther than shockRadius from it
      exactly as it was. */
  lemma ShockOutside(cfg: Config, sqrt: real -> real, dot: Dot, cx: real, cy: real)
    requires WellFormed(cfg) && IsRoot(sqrt)
    requires (dot.originalX - cx) * (dot.originalX - cx) + (dot.originalY - cy) * (dot.originalY - cy)
             > cfg.shockRadius * cfg.shockRadius
    ensures Shock(cfg, sqrt, dot, cx, cy) == dot
  {
    WithinIff(sqrt, dot.originalX - cx, dot.originalY - cy, cfg.shockRadius);
  }

  lemma KickWithin(cfg: Config, sqrt: real -> real, dx: real, dy: real)
    requires WellFormed(cfg) && Dist(sqrt, dx, dy) <= cfg.shockRadius
    ensures var d := Dist(sqrt, dx, dy);
      Kick(cfg, sqrt, dx, dy) == Vec(Heading(dx, dy, d).x * Impulse(cfg, d), Heading(dx, dy, d).y * Impulse(cfg, d))
  {
  }

  /** Within shockRadius the `max(0, ...)` has no effect: the push is
      `(1 - d / shockRadius) * shockStrength`. */
  lemma ImpulseInside(cfg: Config, d: real)
    requires WellFormed(cfg) && 0.0 <= d <= cfg.shockRadius
    ensures Impulse(cfg, d) == (1.0 - d / cfg.shockRadius) * cfg.shockStrength
  {
    DivCompare(d, cfg.shockRadius, 1.0);
  }

  /** A home at distance d within shockRadius of the click gets a kick of
      length `Impulse(cfg, d)`. */
  lemma KickLength(cfg: Config, sqrt: real -> real, dx: real, dy: real)
    requires WellFormed(cfg) && IsRoot(sqrt)
    requires dx * dx + dy * dy <= cfg.shockRadius * cfg.shockRadius
    ensures var k, d := Kick(cfg, sqrt, dx, dy), Dist(sqrt, dx, dy);
      0.0 <= d <= cfg.shockRadius && d * d == dx * dx + dy * dy &&
      k.x * k.x + k.y * k.y == Impulse(cfg, d) * Impulse(cfg, d)
  {
    WithinIff(sqrt, dx, dy, cfg.shockRadius);
    var d := Dist(sqrt, dx, dy);
    HeadingIsUnit(dx, dy, d);
    var u, k := Heading(dx, dy, d), Kick(cfg, sqrt, dx, dy);
    KickWithin(cfg, sqrt, dx, dy);
    ScaledUnit(u.x, u.y, Impulse(cfg, d), k.x, k.y);
  }

  /** The kick points from the click towards the home (d times it is the
      home's displacement times the push), or along +x when the home is at
      the click. */
  lemma KickDirection(cfg: Config, sqrt: real -> real, dx: real, dy: real)
    requires WellFormed(cfg) && IsRoot(sqrt)
    requires dx * dx + dy * dy <= cfg.shockRadius * cfg.shockRadius
    ensures var k, d := Kick(cfg, sqrt, dx, dy), Dist(sqrt, dx, dy);
      (d == 0.0 ==> k == Vec(Impulse(cfg, d), 0.0)) &&
      (d != 0.0 ==> k.x * d == dx * Impulse(cfg, d) && k.y * d == dy * Impulse(cfg, d))
  {
    WithinIff(sqrt, dx, dy, cfg.shockRadius);
    var d := Dist(sqrt, dx, dy);
    HeadingIsUnit(dx, dy, d);
    var u := Heading(dx, dy, d);
    KickWithin(cfg, sqrt, dx, dy);
    if d != 0.0 {
      Along(u.x, d, dx, Impulse(cfg, d));
      Along(u.y, d, dy, Impulse(cfg, d));
    }
  }

  /** Clicks add up: two clicks, in either order, move a dot by the sum of
      the kicks each gives it alone. */
  lemma ShocksAdd(cfg: Config, sqrt: real -> real, dot: Dot, c1x: real, c1y: real, c2x: real, c2y: real)
    requires WellFormed(cfg)
    ensures var one, two := Shock(cfg, sqrt, dot, c1x, c1y), Shock(cfg, sqrt, dot, c2x, c2y);
      var both := Shock(cfg, sqrt, one, c2x, c2y);
      both == Shock(cfg, sqrt, two, c1x, c1y) &&
      both.offsetX - dot.offsetX == (one.offsetX - dot.offsetX) + (two.offsetX - dot.offsetX) &&
      both.offsetY - dot.offsetY == (one.offsetY - dot.offsetY) + (two.offsetY - dot.offsetY)
  {
    var k1 := Kick(cfg, sqrt, dot.originalX - c1x, dot.originalY - c1y);
    var k2 := Kick(cfg, sqrt, dot.originalX - c2x, dot.originalY - c2y);
    var one := Shock(cfg, sqrt, dot, c1x, c1y);
    assert one.offsetX == dot.offsetX + k1.x && one.offsetY == dot.offsetY + k1.y;
    var two := Shock(cfg, sqrt, dot, c2x, c2y);
    assert two.offsetX == dot.offsetX + k2.x && two.offsetY == dot.offsetY + k2.y;
  }

  // ------------------------------------------------------------- frame

  /** The targets the cursor sets for one dot this frame. */
  datatype Targets = Targets(opacity: real, scale: real, pullX: real, pullY: real)

  /** The targets for a dot while the pointer is active, where (dx, dy) is
      the dot's home minus the pointer. Within `proximity`,
      `factor = 1 - d / proximity` gives opacity `0.4 + 0.6 * factor`, scale
      `1 + 0.8 * factor` and a pull of `0.3 * factor` towards the pointer;
      farther away the rest values and no pull. */
  function Near(cfg: Config, sqrt: real -> real, dx: real, dy: real): Targets
    requires WellFormed(cfg)
  {
    var d := Dist(sqrt, dx, dy);
    if d <= cfg.proximity then
      var factor := 1.0 - d / cfg.proximity;
      var u := Heading(-dx, -dy, d);
      var magnetForce := factor * 3.0;
      Targets(0.4 + factor * 0.6, 1.0 + factor * 0.8, u.x * magnetForce * 0.1, u.y * magnetForce * 0.1)
    else
      Targets(RestOpacity, RestScale, 0.0, 0.0)
  }

  /** The proximity effect: the targets the cursor sets for a dot this frame. An
      inactive pointer sets the rest values and no pull for every dot. */
  function Attract(cfg: Config, sqrt: real -> real, dot: Dot, p: Pointer): (t: Targets)
    requires WellFormed(cfg)
    ensures !p.isActive ==> t == Targets(RestOpacity, RestScale, 0.0, 0.0)
  {
    if p.isActive then Near(cfg, sqrt, dot.originalX - p.x, dot.originalY - p.y)
    else Targets(RestOpacity, RestScale, 0.0, 0.0)
  }

  /** The pull `u * (factor * 3) * 0.1` along a unit vector u is at most 0.3
      long for a factor in [0, 1]. */
  lemma PullBound(ux: real, uy: real, factor: real, px: real, py: real)
    requires ux * ux + uy * uy == 1.0 && 0.0 <= factor <= 1.0
    requires px == ux * (factor * 3.0) * 0.1 && py == uy * (factor * 3.0) * 0.1
    ensures px * px + py * py <= 0.09
  {
    var m := factor * 0.3;
    assert ux * (factor * 3.0) * 0.1 == ux * m && uy * (factor * 3.0) * 0.1 == uy * m;
    ScaledUnit(ux, uy, m, px, py);
    if m > 0.0 { MulMono(m, 0.3, m, m * m, 0.3 * m); }
  }

  /** Targets stay within opacity [0.3, 1] and scale [1, 1.8], the pull is at
      most 0.3 long, and a dot beyond `proximity` gets the rest values. */
  lemma NearBounds(cfg: Config, sqrt: real -> real, dx: real, dy: real)
    requires WellFormed(cfg) && IsRoot(sqrt)
    ensures var t := Near(cfg, sqrt, dx, dy);
      RestOpacity <= t.opacity <= 1.0 && RestScale <= t.scale <= 1.8 &&
      t.pullX * t.pullX + t.pullY * t.pullY <= 0.09
    ensures dx * dx + dy * dy > cfg.proximity * cfg.proximity ==>
      Near(cfg, sqrt, dx, dy) == Targets(RestOpacity, RestScale, 0.0, 0.0)
  {
    WithinIff(sqrt, dx, dy, cfg.proximity);
    var d := Dist(sqrt, dx, dy);
    if d <= cfg.proximity {
      var factor := 1.0 - d / cfg.proximity;
      DivCompare(d, cfg.proximity, 1.0);
      DivCompare(d, cfg.proximity, 0.0);
      assert (-dx) * (-dx) + (-dy) * (-dy) == dx * dx + dy * dy;
      HeadingIsUnit(-dx, -dy, d);
      var u := Heading(-dx, -dy, d);
      var t := Near(cfg, sqrt, dx, dy);
      PullBound(u.x, u.y, factor, t.pullX, t.pullY);
    }
  }

  /** Within `proximity` the pull is the heading towards the pointer times
      `0.3 * factor`. */
  lemma PullWithin(cfg: Config, sqrt: real -> real, dx: real, dy: real)
    requires WellFormed(cfg) && Dist(sqrt, dx, dy) <= cfg.proximity
    ensures var d := Dist(sqrt, dx, dy);
      var u, m := Heading(-dx, -dy, d), (1.0 - d / cfg.proximity) * 0.3;
      Near(cfg, sqrt, dx, dy).pullX == u.x * m && Near(cfg, sqrt, dx, dy).pullY == u.y * m
  {
    var d := Dist(sqrt, dx, dy);
    var u, factor := Heading(-dx, -dy, d), 1.0 - d / cfg.proximity;
    Reassociate(u.x, factor, Near(cfg, sqrt, dx, dy).pullX);
    Reassociate(u.y, factor, Near(cfg, sqrt, dx, dy).pullY);
  }

  /** `u * (factor * 3) * 0.1 == u * (factor * 0.3)`. */
  lemma Reassociate(u: real, factor: real, v: real)
    requires v == u * (factor * 3.0) * 0.1
    ensures v == u * (factor * 0.3)
  {
  }

  /** The magnetic pull on a home within `proximity` is `0.3 * factor` long,
      with `factor = 1 - d / proximity` in [0, 1]. */
  lemma PullLength(cfg: Config, sqrt: real -> real, dx: real, dy: real)
    requires WellFormed(cfg) && IsRoot(sqrt)
    requires dx * dx + dy * dy <= cfg.proximity * cfg.proximity
    ensures var t, d := Near(cfg, sqrt, dx, dy), Dist(sqrt, dx, dy);
      var m := (1.0 - d / cfg.proximity) * 0.3;
      0.0 <= d <= cfg.proximity && d * d == dx * dx + dy * dy &&
      t.pullX * t.pullX + t.pullY * t.pullY == m * m
  {
    WithinIff(sqrt, dx, dy, cfg.proximity);
    var d := Dist(sqrt, dx, dy);
    assert (-dx) * (-dx) + (-dy) * (-dy) == dx * dx + dy * dy;
    HeadingIsUnit(-dx, -dy, d);
    var u, t := Heading(-dx, -dy, d), Near(cfg, sqrt, dx, dy);
    PullWithin(cfg, sqrt, dx, dy);
    ScaledUnit(u.x, u.y, (1.0 - d / cfg.proximity) * 0.3, t.pullX, t.pullY);
  }

  /** The magnetic pull points from the home towards the pointer (d times
      it is the pointer's offset from the home, times `0.3 * factor`); with
      the pointer exactly on the home it is `(0.3, 0)`, since
      `atan2(0, 0) = 0`. */
  lemma PullDirection(cfg: Config, sqrt: real -> real, dx: real, dy: real)
    requires WellFormed(cfg) && IsRoot(sqrt)
    requires dx * dx + dy * dy <= cfg.proximity * cfg.proximity
    ensures var t, d := Near(cfg, sqrt, dx, dy), Dist(sqrt, dx, dy);
      var m := (1.0 - d / cfg.proximity) * 0.3;
      (d == 0.0 ==> t.pullX == 0.3 && t.pullY == 0.0) &&
      (d != 0.0 ==> t.pullX * d == -dx * m && t.pullY * d == -dy * m)
  {
    WithinIff(sqrt, dx, dy, cfg.proximity);
    var d := Dist(sqrt, dx, dy);
    assert (-dx) * (-dx) + (-dy) * (-dy) == dx * dx + dy * dy;
    HeadingIsUnit(-dx, -dy, d);
    var u, m := Heading(-dx, -dy, d), (1.0 - d / cfg.proximity) * 0.3;
    PullWithin(cfg, sqrt, dx, dy);
    if d != 0.0 {
      Along(u.x, d, -dx, m);
      Along(u.y, d, -dy, m);
    }
  }

  /** The targets a frame sets for a dot keep opacity within [0.3, 1] and scale
      within [1, 1.8], pulls it at most 0.3, and a dot farther than
      `proximity` from the pointer gets the rest values. */
  lemma AttractBounds(cfg: Config, sqrt: real -> real, dot: Dot, p: Pointer)
    requires WellFormed(cfg) && IsRoot(sqrt)
    ensures var t := Attract(cfg, sqrt, dot, p);
      RestOpacity <= t.opacity <= 1.0 && RestScale <= t.scale <= 1.8 &&
      t.pullX * t.pullX + t.pullY * t.pullY <= 0.09
    ensures var dx, dy := dot.originalX - p.x, dot.originalY - p.y;
      dx * dx + dy * dy > cfg.proximity * cfg.proximity ==>
        Attract(cfg, sqrt, dot, p) == Targets(RestOpacity, RestScale, 0.0, 0.0)
  {
    NearBounds(cfg, sqrt, dot.originalX - p.x, dot.originalY - p.y);
  }

  /** The accent colour is used exactly when the pointer is active and the
      dot is close enough for `factor > 1/6`, that is, the squared distance
      is below `(5/6 * proximity)^2`. */
  lemma AccentIff(cfg: Config, sqrt: real -> real, dot: Dot, p: Pointer)
    requires WellFormed(cfg) && IsRoot(sqrt)
    ensures var dx, dy := dot.originalX - p.x, dot.originalY - p.y;
      var edge := cfg.proximity * 5.0 / 6.0;
      Attract(cfg, sqrt, dot, p).opacity > 0.5 <==> p.isActive && dx * dx + dy * dy < edge * edge
  {
    if p.isActive {
      var dx, dy := dot.originalX - p.x, dot.originalY - p.y;
      var edge := cfg.proximity * 5.0 / 6.0;
      WithinIff(sqrt, dx, dy, cfg.proximity);
      WithinIff(sqrt, dx, dy, edge);
      var d := Dist(sqrt, dx, dy);
      DivCompare(d, cfg.proximity, 5.0 / 6.0);
    }
  }

  /** The return step: `offset += -offset / resistance * returnDuration`,
      which scales the offset by `1 - returnDuration / resistance`. */
  function Settle(cfg: Config, offset: real): (r: real)
    requires WellFormed(cfg)
    ensures r == offset * (1.0 - cfg.returnDuration / cfg.resistance)
  {
    offset + (-offset / cfg.resistance) * cfg.returnDuration
  }

  /** The smoothing step: move `Smoothing` (10%) of the way to the target.
      The distance to the target shrinks by 0.9 and the value never
      overshoots the target. */
  function Ease(v: real, target: real): (r: real)
    ensures r - target == 0.9 * (v - target)
    ensures Min(v, target) <= r <= Max(v, target)
  {
    v + (target - v) * Smoothing
  }

  /** `n` smoothing steps towards a target that stays fixed. */
  function EaseTimes(v: real, target: real, n: nat): real {
    if n == 0 then v else Ease(EaseTimes(v, target, n - 1), target)
  }

  /** Smoothing converges on a fixed target: after n steps the distance to
      it is `0.9 ^ n` of the initial one (RealMath.PowInUnit and
      RealMath.PowDecay bound that factor). */
  lemma {:induction false} EaseConverges(v: real, target: real, n: nat)
    ensures EaseTimes(v, target, n) - target == Pow(0.9, n) * (v - target)
  {
    if n > 0 {
      EaseConverges(v, target, n - 1);
      var s, e := Pow(0.9, n - 1), EaseTimes(v, target, n - 1);
      assert EaseTimes(v, target, n) - target == 0.9 * (e - target);
      assert 0.9 * (s * (v - target)) == (0.9 * s) * (v - target);
    }
  }

  /** One dot's update in one animation frame. */
  function Step(cfg: Config, sqrt: real -> real, dot: Dot, p: Pointer): (r: Dot)
    requires WellFormed(cfg)
    ensures r.originalX == dot.originalX && r.originalY == dot.originalY
    ensures r.x == r.originalX + r.offsetX && r.y == r.originalY + r.offsetY
  {
    var t := Attract(cfg, sqrt, dot, p);
    var offsetX := Settle(cfg, dot.offsetX + t.pullX);
    var offsetY := Settle(cfg, dot.offsetY + t.pullY);
    Dot(dot.originalX + offsetX, dot.originalY + offsetY, dot.originalX, dot.originalY,
        offsetX, offsetY, Ease(dot.opacity, t.opacity), Ease(dot.scale, t.scale))
  }

  /** The dot after n frames with the pointer held at `p`. */
  function Frames(cfg: Config, sqrt: real -> real, dot: Dot, p: Pointer, n: nat): Dot
    requires WellFormed(cfg)
  {
    if n == 0 then dot else Step(cfg, sqrt, Frames(cfg, sqrt, dot, p, n - 1), p)
  }

  /** With the pointer held still, the targets never change (they depend
      only on the home, which frames keep), so after n frames opacity and
      scale are n smoothing steps towards those targets: EaseConverges,
      PowInUnit and PowDecay then say they converge on them. */
  lemma {:induction false} FramesEase(cfg: Config, sqrt: real -> real, dot: Dot, p: Pointer, n: nat)
    requires WellFormed(cfg)
    ensures var r, t := Frames(cfg, sqrt, dot, p, n), Attract(cfg, sqrt, dot, p);
      r.originalX == dot.originalX && r.originalY == dot.originalY &&
      r.opacity == EaseTimes(dot.opacity, t.opacity, n) &&
      r.scale == EaseTimes(dot.scale, t.scale, n)
  {
    if n > 0 {
      FramesEase(cfg, sqrt, dot, p, n - 1);
      var prev := Frames(cfg, sqrt, dot, p, n - 1);
      assert Attract(cfg, sqrt, prev, p) == Attract(cfg, sqrt, dot, p);
    }
  }

  /** The pointer exerts no pull on a dot whose home is at (x, y): it is
      inactive or farther than `proximity`. */
  predicate Unpulled(cfg: Config, sqrt: real -> real, x: real, y: real, p: Pointer) {
    !p.isActive || Dist(sqrt, x - p.x, y - p.y) > cfg.proximity
  }

  /** What one return step keeps of the offset: `1 - returnDuration / resistance`. */
  function ReturnFactor(cfg: Config): real
    requires WellFormed(cfg)
  {
    1.0 - cfg.returnDuration / cfg.resistance
  }

  /** What one return step keeps of the squared offset length: the return
      factor squared. */
  function ReturnDecay(cfg: Config): real
    requires WellFormed(cfg)
  {
    ReturnFactor(cfg) * ReturnFactor(cfg)
  }

  /** The offset after n return steps with no pull: `Settle` applied n times. */
  function Settled(cfg: Config, x: real, n: nat): real
    requires WellFormed(cfg)
  {
    if n == 0 then x else Settle(cfg, Settled(cfg, x, n - 1))
  }

  /** Step m + 1 of the return settles step m's offset once more. */
  lemma SettledNext(cfg: Config, dot: Dot, m: nat, n: nat)
    requires WellFormed(cfg) && n == m + 1
    ensures Settled(cfg, dot.offsetX, n) == Settle(cfg, Settled(cfg, dot.offsetX, m))
    ensures Settled(cfg, dot.offsetY, n) == Settle(cfg, Settled(cfg, dot.offsetY, m))
  {
  }

  /** n return steps scale the offset by `ReturnFactor(cfg) ^ n`. */
  lemma {:induction false} SettledPow(cfg: Config, x: real, n: nat)
    requires WellFormed(cfg)
    ensures Settled(cfg, x, n) == x * Pow(ReturnFactor(cfg), n)
  {
    if n > 0 {
      var m: nat := n - 1;
      SettledPow(cfg, x, m);
      var prev := Settled(cfg, x, m);
      assert Settled(cfg, x, n) == prev * ReturnFactor(cfg);
      PowNext(x, ReturnFactor(cfg), m, n, prev, Settled(cfg, x, n));
    } else {
      PowZero(x, ReturnFactor(cfg), n);
    }
  }

  /** Without pull, one frame only settles the offset. */
  lemma NoPullStep(cfg: Config, sqrt: real -> real, dot: Dot, p: Pointer)
    requires WellFormed(cfg) && Unpulled(cfg, sqrt, dot.originalX, dot.originalY, p)
    ensures var r := Step(cfg, sqrt, dot, p);
      r.offsetX == Settle(cfg, dot.offsetX) && r.offsetY == Settle(cfg, dot.offsetY)
  {
    var t := Attract(cfg, sqrt, dot, p);
    assert dot.offsetX + t.pullX == dot.offsetX && dot.offsetY + t.pullY == dot.offsetY;
  }

  /** Frame n = m + 1 of a dot without pull settles frame m's offset: frames
      keep the home, so the dot stays without pull. */
  lemma {:induction false} NoPullFrame(cfg: Config, sqrt: real -> real, dot: Dot, p: Pointer, m: nat, n: nat)
    requires WellFormed(cfg) && n == m + 1 && Unpulled(cfg, sqrt, dot.originalX, dot.originalY, p)
    ensures var prev, r := Frames(cfg, sqrt, dot, p, m), Frames(cfg, sqrt, dot, p, n);
      r.offsetX == Settle(cfg, prev.offsetX) && r.offsetY == Settle(cfg, prev.offsetY)
  {
    var prev := Frames(cfg, sqrt, dot, p, m);
    FramesKeepHome(cfg, sqrt, dot, p, m);
    NoPullStep(cfg, sqrt, prev, p);
    assert Frames(cfg, sqrt, dot, p, n) == Step(cfg, sqrt, prev, p);
  }

  /** Frames never move a dot's home. */
  lemma {:induction false} FramesKeepHome(cfg: Config, sqrt: real -> real, dot: Dot, p: Pointer, n: nat)
    requires WellFormed(cfg)
    ensures Frames(cfg, sqrt, dot, p, n).originalX == dot.originalX
    ensures Frames(cfg, sqrt, dot, p, n).originalY == dot.originalY
  {
    if n > 0 { FramesKeepHome(cfg, sqrt, dot, p, n - 1); }
  }

  /** Without pull, n frames settle the offset n times. */
  lemma {:induction false} FramesSettle(cfg: Config, sqrt: real -> real, dot: Dot, p: Pointer, n: nat)
    requires WellFormed(cfg) && Unpulled(cfg, sqrt, dot.originalX, dot.originalY, p)
    ensures Frames(cfg, sqrt, dot, p, n).offsetX == Settled(cfg, dot.offsetX, n)
    ensures Frames(cfg, sqrt, dot, p, n).offsetY == Settled(cfg, dot.offsetY, n)
  {
    if n > 0 {
      var m: nat := n - 1;
      FramesSettle(cfg, sqrt, dot, p, m);
      NoPullFrame(cfg, sqrt, dot, p, m, n);
      SettledNext(cfg, dot, m, n);
    }
  }

  /** Without pull, n frames scale the offset by `ReturnFactor(cfg) ^ n`. */
  lemma FramesReturn(cfg: Config, sqrt: real -> real, dot: Dot, p: Pointer, n: nat)
    requires WellFormed(cfg) && Unpulled(cfg, sqrt, dot.originalX, dot.originalY, p)
    ensures var r, k := Frames(cfg, sqrt, dot, p, n), ReturnFactor(cfg);
      r.offsetX == dot.offsetX * Pow(k, n) && r.offsetY == dot.offsetY * Pow(k, n)
  {
    FramesSettle(cfg, sqrt, dot, p, n);
    SettledDot(cfg, dot, n);
  }

  /** SettledPow for both coordinates of a dot's offset. */
  lemma SettledDot(cfg: Config, dot: Dot, n: nat)
    requires WellFormed(cfg)
    ensures Settled(cfg, dot.offsetX, n) == dot.offsetX * Pow(ReturnFactor(cfg), n)
    ensures Settled(cfg, dot.offsetY, n) == dot.offsetY * Pow(ReturnFactor(cfg), n)
  {
    SettledPow(cfg, dot.offsetX, n);
    SettledPow(cfg, dot.offsetY, n);
  }

  /** The spring return settles: with no pull and
      `0 < returnDuration < 2 * resistance`, the squared length of the
      offset after n frames is its initial value times `(k * k) ^ n` with
      `0 <= k * k < 1`, a factor that never grows and is at most
      `1 / (1 + n * (1 - k * k))`, so the dot comes back home. */
  lemma ReturnDecays(cfg: Config, sqrt: real -> real, dot: Dot, p: Pointer, n: nat)
    requires WellFormed(cfg) && Unpulled(cfg, sqrt, dot.originalX, dot.originalY, p)
    requires 0.0 < cfg.returnDuration < 2.0 * cfg.resistance
    ensures var r, q := Frames(cfg, sqrt, dot, p, n), ReturnDecay(cfg);
      0.0 <= q < 1.0 &&
      SquaredLength(r.offsetX, r.offsetY) == SquaredLength(dot.offsetX, dot.offsetY) * Pow(q, n) &&
      Pow(q, n + 1) <= Pow(q, n) <= 1.0 &&
      DecayBounded(q, n)
  {
    FramesReturn(cfg, sqrt, dot, p, n);
    OffsetDecays(cfg, dot, Frames(cfg, sqrt, dot, p, n), n);
  }

  /** ReturnDecays for a dot r whose offset is dot's scaled by `k ^ n`. */
  lemma OffsetDecays(cfg: Config, dot: Dot, r: Dot, n: nat)
    requires WellFormed(cfg) && 0.0 < cfg.returnDuration < 2.0 * cfg.resistance
    requires var k := ReturnFactor(cfg);
      r.offsetX == dot.offsetX * Pow(k, n) && r.offsetY == dot.offsetY * Pow(k, n)
    ensures var q := ReturnDecay(cfg);
      0.0 <= q < 1.0 &&
      SquaredLength(r.offsetX, r.offsetY) == SquaredLength(dot.offsetX, dot.offsetY) * Pow(q, n) &&
      Pow(q, n + 1) <= Pow(q, n) <= 1.0 &&
      DecayBounded(q, n)
  {
    ReturnFactorBounds(cfg);
    var k := ReturnFactor(cfg);
    PowLength(k, ReturnDecay(cfg), n, dot.offsetX, dot.offsetY, r.offsetX, r.offsetY);
  }

  /** For `0 < returnDuration < 2 * resistance` the return factor is in (-1, 1). */
  lemma ReturnFactorBounds(cfg: Config)
    requires WellFormed(cfg) && 0.0 < cfg.returnDuration < 2.0 * cfg.resistance
    ensures -1.0 < ReturnFactor(cfg) < 1.0
  {
    DivCompare(cfg.returnDuration, cfg.resistance, 0.0);
    DivCompare(cfg.returnDuration, cfg.resistance, 2.0);
  }

  /** What the frame draws for a dot, given the dot as it was before the
      frame's update: radius `dotSize * scale / 2`, the accent colour with a
      glow of `2 * size` when the target opacity is above 0.5. */
  function Paint(cfg: Config, sqrt: real -> real, dot: Dot, p: Pointer): Mark
    requires WellFormed(cfg)
  {
    var t := Attract(cfg, sqrt, dot, p);
    var r := Step(cfg, sqrt, dot, p);
    var size := cfg.dotSize * r.scale;
    if t.opacity > 0.5 then Mark(r.x, r.y, size / 2.0, r.opacity, cfg.activeColor, size * 2.0)
    else Mark(r.x, r.y, size / 2.0, r.opacity, cfg.baseColor, 0.0)
  }

  /** What is drawn for a dot, in terms of the pointer's position: the dot
      at its new position and opacity, of radius `dotSize * scale / 2`, in
      the accent colour with a glow exactly when the pointer is active and
      the dot's home is within `5/6 * proximity` of it. */
  lemma PaintAccent(cfg: Config, sqrt: real -> real, dot: Dot, p: Pointer)
    requires WellFormed(cfg) && IsRoot(sqrt)
    ensures var r, m := Step(cfg, sqrt, dot, p), Paint(cfg, sqrt, dot, p);
      var dx, dy := dot.originalX - p.x, dot.originalY - p.y;
      var edge := cfg.proximity * 5.0 / 6.0;
      var accent := p.isActive && dx * dx + dy * dy < edge * edge;
      m.x == r.x && m.y == r.y && m.alpha == r.opacity &&
      m.radius == cfg.dotSize * r.scale / 2.0 &&
      m.color == (if accent then cfg.activeColor else cfg.baseColor) &&
      m.glow == (if accent then cfg.dotSize * r.scale * 2.0 else 0.0)
  {
    AccentIff(cfg, sqrt, dot, p);
  }

  /** A dot whose opacity and scale are within bounds stays within them. */
  lemma StepInRange(cfg: Config, sqrt: real -> real, dot: Dot, p: Pointer)
    requires WellFormed(cfg) && IsRoot(sqrt) && InRange(dot)
    ensures InRange(Step(cfg, sqrt, dot, p))
  {
    AttractBounds(cfg, sqrt, dot, p);
  }

  /** Without a pull (pointer inactive or farther than `proximity`), the
      offset is scaled by `1 - returnDuration / resistance`, and its length
      never grows when `0 < returnDuration <= 2 * resistance`. */
  lemma ReturnNeverGrows(cfg: Config, sqrt: real -> real, dot: Dot, p: Pointer)
    requires WellFormed(cfg) && IsRoot(sqrt)
    requires 0.0 < cfg.returnDuration <= 2.0 * cfg.resistance
    requires var dx, dy := dot.originalX - p.x, dot.originalY - p.y;
      !p.isActive || dx * dx + dy * dy > cfg.proximity * cfg.proximity
    ensures var r := Step(cfg, sqrt, dot, p);
      var k := 1.0 - cfg.returnDuration / cfg.resistance;
      r.offsetX == dot.offsetX * k && r.offsetY == dot.offsetY * k &&
      r.offsetX * r.offsetX + r.offsetY * r.offsetY <= dot.offsetX * dot.offsetX + dot.offsetY * dot.offsetY
  {
    AttractBounds(cfg, sqrt, dot, p);
    var k := 1.0 - cfg.returnDuration / cfg.resistance;
    assert -1.0 <= k < 1.0 by {
      assert 0.0 < cfg.returnDuration / cfg.resistance <= 2.0;
    }
    assert k * k <= 1.0;
    var ox, oy := dot.offsetX, dot.offsetY;
    assert (ox * k) * (ox * k) + (oy * k) * (oy * k) == (k * k) * (ox * ox + oy * oy);
    assert (k * k) * (ox * ox + oy * oy) <= ox * ox + oy * oy by {
      assert ox * ox + oy * oy >= 0.0 by { assert ox * ox >= 0.0 && oy * oy >= 0.0; }
    }
  }

  /** A dot at rest at home stays exactly so while the pointer is inactive. */
  lemma RestIsFixed(cfg: Config, sqrt: real -> real, x: real, y: real, p: Pointer)
    requires WellFormed(cfg) && !p.isActive
    ensures Step(cfg, sqrt, Home(x, y), p) == Home(x, y)
  {
  }
}
