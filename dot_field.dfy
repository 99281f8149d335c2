/** The dot-grid component as an object: the dots it owns, the pointer state
    its handlers keep, and the effect that (re)builds the grid whenever the
    surface is resized. The handlers and the animation frame change the dot
    records in place. */
module DotField {
  import opened RealMath
  import opened DotGrid
  import opened DotMotion

  /** The dot still sits on the home the layout gave it. */
  predicate OnHome(dot: Dot, home: Dot) {
    dot.originalX == home.originalX && dot.originalY == home.originalY
  }

  class Field {
    /** The component's props. */
    const cfg: Config
    /** `Math.sqrt`. */
    const sqrt: real -> real
    /** The surface size the current dots were laid out for. */
    var width: nat
    var height: nat
    /** `dotsRef.current`. */
    var dots: array<Dot>
    /** `mouseRef.current`. */
    var mouse: Pointer
    /** Whether the handlers are attached and the animation loop runs: the
        effect gets that far only for a non-empty surface. */
    var running: bool

    /** Every dot sits on its home in the layout for (width, height), in
        layout order, with opacity and scale within bounds. */
    ghost predicate Valid()
      reads this, dots
    {
      WellFormed(cfg) && IsRoot(sqrt) &&
      dots.Length == |Layout(width, height, cfg.gap)| &&
      (forall k :: 0 <= k < dots.Length ==> OnHome(dots[k], Layout(width, height, cfg.gap)[k])) &&
      (forall k :: 0 <= k < dots.Length ==> InRange(dots[k])) &&
      (running ==> width > 0 && height > 0)
    }

    /** A mounted component before its first layout: no dots, the pointer at
        (0, 0) and inactive. */
    constructor (cfg: Config, sqrt: real -> real)
      requires WellFormed(cfg) && IsRoot(sqrt)
      ensures Valid() && fresh(dots)
      ensures this.cfg == cfg && this.sqrt == sqrt
      ensures dots.Length == 0 && mouse == Pointer(0.0, 0.0, false) && !running
    {
      this.cfg := cfg;
      this.sqrt := sqrt;
      width, height := 0, 0;
      dots := new Dot[0];
      mouse := Pointer(0.0, 0.0, false);
      running := false;
      new;
      LayoutInside(0, 0, cfg.gap);
    }

    /** The layout effect for a surface of w by h. An empty surface stops
        the animation and leaves the dots alone; otherwise the dots are
        replaced by a freshly built grid, the animation runs, and its first
        frame is drawn at once (the effect calls `animate` directly). The
        pointer state survives. */
    method Resize(w: nat, h: nat) returns (marks: seq<Mark>)
      requires Valid()
      modifies this
      ensures Valid() && mouse == old(mouse)
      ensures w == 0 || h == 0 ==>
        !running && dots == old(dots) && width == old(width) && height == old(height) && marks == []
      ensures w > 0 && h > 0 ==>
        running && fresh(dots) && width == w && height == h &&
        dots.Length == |Layout(w, h, cfg.gap)| == |marks| &&
        forall k :: 0 <= k < dots.Length ==>
          dots[k] == Step(cfg, sqrt, Layout(w, h, cfg.gap)[k], mouse) &&
          marks[k] == Paint(cfg, sqrt, Layout(w, h, cfg.gap)[k], mouse)
    {
      if w == 0 || h == 0 {
        running := false;
        return [];
      }
      var grid := BuildGrid(w, h, cfg.gap);
      LayoutInside(w, h, cfg.gap);
      dots := new Dot[|grid|](k requires 0 <= k < |grid| => grid[k]);
      width, height := w, h;
      running := true;
      assert dots[..] == grid;
      marks := Frame();
    }

    /** `mousemove`: record the surface-local pointer position and mark the
        pointer active. */
    method PointerMove(x: real, y: real)
      requires Valid() && running
      modifies this
      ensures Valid() && mouse == Pointer(x, y, true)
      ensures dots == old(dots) && width == old(width) && height == old(height) && running
    {
      mouse := Pointer(x, y, true);
    }

    /** `mouseleave`: only the active flag is cleared; the last position stays. */
    method PointerLeave()
      requires Valid() && running
      modifies this
      ensures Valid() && mouse == old(mouse).(isActive := false)
      ensures dots == old(dots) && width == old(width) && height == old(height) && running
    {
      mouse := mouse.(isActive := false);
    }

    /** `click` at (cx, cy): every dot gets the shock wave's kick (which
        leaves dots farther than shockRadius as they were, ShockOutside). */
    method Click(cx: real, cy: real)
      requires Valid() && running
      modifies dots
      ensures Valid()
      ensures forall k :: 0 <= k < dots.Length ==> dots[k] == Shock(cfg, sqrt, old(dots[k]), cx, cy)
    {
      for k := 0 to dots.Length
        invariant forall i :: 0 <= i < k ==> dots[i] == Shock(cfg, sqrt, old(dots[i]), cx, cy)
        invariant forall i :: k <= i < dots.Length ==> dots[i] == old(dots[i])
      {
        dots[k] := Shock(cfg, sqrt, dots[k], cx, cy);
      }
    }

    /** One animation frame: every dot takes one step towards its targets and
        home, and the frame draws one mark per dot, in order. */
    method Frame() returns (marks: seq<Mark>)
      requires Valid() && running
      modifies dots
      ensures Valid()
      ensures |marks| == dots.Length
      ensures forall k :: 0 <= k < dots.Length ==>
        dots[k] == Step(cfg, sqrt, old(dots[k]), mouse) && marks[k] == Paint(cfg, sqrt, old(dots[k]), mouse)
    {
      marks := [];
      for k := 0 to dots.Length
        invariant |marks| == k
        invariant forall i :: 0 <= i < k ==>
          dots[i] == Step(cfg, sqrt, old(dots[i]), mouse) && marks[i] == Paint(cfg, sqrt, old(dots[i]), mouse)
        invariant forall i :: k <= i < dots.Length ==> dots[i] == old(dots[i])
        invariant forall i :: 0 <= i < dots.Length ==> InRange(dots[i])
      {
        var dot := dots[k];
        StepInRange(cfg, sqrt, dot, mouse);
        marks := marks + [Paint(cfg, sqrt, dot, mouse)];
        dots[k] := Step(cfg, sqrt, dot, mouse);
      }
    }
  }
}
