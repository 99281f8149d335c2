# Dot grid and typewriter animations

This project models the two animation components that make up the core of a
website front end. It proves properties of both models.

**The dot-grid background** (`DotGrid.tsx`) does five things:

- It lays a centred grid of dots over its surface.
- It records the pointer with mouse handlers.
- A click sends a shock wave that pushes nearby dots away.
- Each animation frame pulls dots towards the pointer, lets them drift back
  home, and eases their opacity and scale towards targets.
- Each frame also decides how every dot is drawn.

**The typewriter text** (`TextType.tsx`) turns a list of sentences into a
looping animation timeline. Each sentence is typed one character at a time,
held, erased, and followed by a gap.

Modules:

- `RealMath` (`real_math.dfy`): small facts about products and quotients of
  reals. The other proofs use them.
- `DotGrid` (`dot_grid.dfy`): the dot record, the props, the pointer and the
  drawn mark, plus the grid layout. `BuildGrid` is the construction loop,
  proved equal to the specification function `Layout`.
- `DotMotion` (`dot_motion.dfy`): what a click and a frame do to one dot, as
  functions on dot records, with lemmas about them.
- `DotField` (`dot_field.dfy`): the component as a class `Field`. It owns the
  array of dots and the pointer state. Its methods are the layout effect, the
  three mouse handlers and one animation frame. They update the array in
  place, element by element, against the functions of `DotMotion`.
- `TextType` (`text_type.dfy`): the timeline as a sequence of `Step` values
  (duration, delay, text shown at the start). `BuildTimeline` is the effect's
  loop nest, proved equal to the specification function `Timeline`. The
  lemmas describe what that timeline contains.

Floating point is idealised as `real`:

- `Math.sqrt` is a parameter `sqrt`. The lemmas assume it is the true square
  root (`DotGrid.IsRoot`).
- `(cos(atan2(dy, dx)), sin(atan2(dy, dx)))` is written as the unit vector
  `(dx / d, dy / d)`. When `d = 0` it is `(1, 0)`, because `atan2(0, 0)` is 0.

## Model

| member | source | states |
|---|---|---|
| DotGrid.Count | src/app/components/animations/DotGrid.tsx:76-77 | the column (row) count `n = floor(extent / gap)`: `n * gap <= extent < (n + 1) * gap` |
| DotGrid.Margin | src/app/components/animations/DotGrid.tsx:78-79 | the grid is centred: the margin before the first line equals the margin after the last, and lies in `[gap / 2, gap)` |
| DotGrid.LayoutAt | src/app/components/animations/DotGrid.tsx:75-96 | the grid has `floor(W / gap) * floor(H / gap)` dots in column-major order; the dot at index `i * rows + j` is a fresh dot at `(offsetX + i * gap, offsetY + j * gap)` |
| DotGrid.LayoutInside | src/app/components/animations/DotGrid.tsx:63-96 | every built dot is fresh (at home, zero offset, opacity 0.3, scale 1) and lies strictly inside `(0, W) x (0, H)`; a zero width or height gives no dots |
| DotGrid.ExampleGrids | src/app/components/animations/DotGrid.tsx:76-79 | 400 x 400 with gap 20 gives 20 x 20 dots with a margin of 10; 800 x 400 gives 40 x 20 |
| DotGrid.DefaultsWellFormed | src/app/components/animations/DotGrid.tsx:28-38 | the default props satisfy the model's preconditions, and their return step `returnDuration / resistance` is 0.002, in the range where ReturnNeverGrows and ReturnDecays apply |
| DotGrid.BuildGrid | src/app/components/animations/DotGrid.tsx:75-96 | the construction code produces exactly `Layout(W, H, gap)` |
| DotGrid.PushColumns | src/app/components/animations/DotGrid.tsx:81-96 | the nested column/row loops push exactly the columns left to right, each top to bottom |
| DotMotion.HeadingIsUnit | src/app/components/animations/DotGrid.tsx:124-129 | the direction used for a push is a unit vector, and the distance times it is the offset from the click to the home |
| DotMotion.WithinIff | src/app/components/animations/DotGrid.tsx:119-123 | comparing the root distance with a radius agrees with comparing squared distance with the squared radius, both for `<=` and for `<` |
| DotMotion.ImpulseBounds | src/app/components/animations/DotGrid.tsx:125-126 | the push length `max(0, 1 - d / shockRadius) * shockStrength` lies in `[0, shockStrength]` and does not grow with distance |
| DotMotion.ImpulseInside | src/app/components/animations/DotGrid.tsx:123-126 | within `shockRadius` the clip at 0 has no effect: the push is `(1 - d / shockRadius) * shockStrength` |
| DotMotion.Shock | src/app/components/animations/DotGrid.tsx:118-131 | a click changes only the dot's offset |
| DotMotion.ShockOutside | src/app/components/animations/DotGrid.tsx:119-123 | a dot whose home is farther than `shockRadius` from the click is left exactly as it was |
| DotMotion.KickLength | src/app/components/animations/DotGrid.tsx:119-129 | within `shockRadius` the offset grows by a vector whose length is exactly the push length |
| DotMotion.KickDirection | src/app/components/animations/DotGrid.tsx:124-129 | the push points from the click towards the dot's home; a dot exactly at the click is pushed along +x |
| DotMotion.ShocksAdd | src/app/components/animations/DotGrid.tsx:128-129 | two clicks, in either order, add up to the sum of the pushes each gives alone |
| DotMotion.Attract | src/app/components/animations/DotGrid.tsx:143-147 | with the pointer inactive, the targets are opacity 0.3 and scale 1 with no pull |
| DotMotion.NearBounds | src/app/components/animations/DotGrid.tsx:147-163 | with the pointer active, the target opacity is in `[0.3, 1]`, the target scale is in `[1, 1.8]` and the magnetic pull is at most 0.3 long; beyond `proximity` the targets are the rest values |
| DotMotion.AttractBounds | src/app/components/animations/DotGrid.tsx:143-163 | the same bounds hold whether or not the pointer is active |
| DotMotion.AccentIff | src/app/components/animations/DotGrid.tsx:153-155 | the target opacity exceeds 0.5 exactly when the pointer is active and the home is closer than `5/6 * proximity` |
| DotMotion.PullLength | src/app/components/animations/DotGrid.tsx:147-162 | within `proximity` the magnetic pull has length exactly `(1 - d / proximity) * 0.3` |
| DotMotion.PullDirection | src/app/components/animations/DotGrid.tsx:153-162 | the pull points from the home towards the pointer: `pull * d == -(dx, dy) * (1 - d / proximity) * 0.3`; a pointer exactly at the home pulls `(0.3, 0)` |
| DotMotion.Settle | src/app/components/animations/DotGrid.tsx:167-171 | the return step scales the offset by `1 - returnDuration / resistance` |
| DotMotion.Ease | src/app/components/animations/DotGrid.tsx:178-179 | smoothing removes 10% of the distance to the target and never overshoots it |
| DotMotion.EaseConverges | src/app/components/animations/DotGrid.tsx:178-179 | with a fixed target, n smoothing steps leave `0.9 ^ n` of the initial distance, always on the same side of the target |
| RealMath.PowInUnit | src/app/components/animations/DotGrid.tsx:178-179 | for a factor `q` in `[0, 1)` such as 0.9, `q ^ n` is in `[0, 1]` and does not grow with n |
| RealMath.PowDecay | src/app/components/animations/DotGrid.tsx:166-179 | for `q` in `[0, 1)`, `q ^ n <= 1 / (1 + n * (1 - q))`, so the remaining fraction goes to 0 as frames pass |
| DotMotion.FramesEase | src/app/components/animations/DotGrid.tsx:142-179 | with the pointer held still, n frames keep the home, and opacity and scale after them are n smoothing steps towards the (unchanging) targets, so EaseConverges, PowInUnit and PowDecay apply to frames |
| DotMotion.Step | src/app/components/animations/DotGrid.tsx:142-179 | a frame never moves a dot's home, and the drawn position is home plus offset |
| DotMotion.PaintAccent | src/app/components/animations/DotGrid.tsx:181-200 | a circle is drawn at the new position with the new opacity and radius `dotSize * scale / 2`; it uses the accent colour and a glow of `2 * size` exactly when the pointer is active within `5/6 * proximity`, else the base colour and no glow |
| DotMotion.StepInRange | src/app/components/animations/DotGrid.tsx:143-179 | opacity in `[0.3, 1]` and scale in `[1, 1.8]` are kept by every frame |
| DotMotion.ReturnNeverGrows | src/app/components/animations/DotGrid.tsx:166-171 | with no pull, the offset is scaled by `1 - returnDuration / resistance` and its length never grows when `0 < returnDuration <= 2 * resistance` |
| DotMotion.SettledPow | src/app/components/animations/DotGrid.tsx:166-171 | n return steps scale an offset by `(1 - returnDuration / resistance) ^ n` |
| DotMotion.FramesSettle | src/app/components/animations/DotGrid.tsx:142-171 | while the pointer is inactive or farther than `proximity` from the home, the offset after n frames is n return steps of the initial offset |
| DotMotion.FramesReturn | src/app/components/animations/DotGrid.tsx:142-171 | with no pull, after n frames the offset is the initial offset times `k ^ n`, `k = 1 - returnDuration / resistance` |
| DotMotion.ReturnFactorBounds | src/app/components/animations/DotGrid.tsx:166-171 | for `0 < returnDuration < 2 * resistance` the return factor k lies strictly between -1 and 1 |
| DotMotion.ReturnDecays | src/app/components/animations/DotGrid.tsx:142-171 | with no pull and `0 < returnDuration < 2 * resistance`, the squared offset length after n frames is the initial one times `q ^ n` with `q = k * k` in `[0, 1)`: it never grows from frame to frame and is at most `1 / (1 + n * (1 - q))` of the initial one, so the dot returns home |
| DotMotion.RestIsFixed | src/app/components/animations/DotGrid.tsx:142-179 | a fresh dot stays exactly as it is while the pointer is inactive |
| DotField.Field.constructor | src/app/components/animations/DotGrid.tsx:40-43 | a mounted component has no dots and an inactive pointer at (0, 0) |
| DotField.Field.Resize | src/app/components/animations/DotGrid.tsx:62-98 | an empty surface stops the animation and keeps the dots; otherwise a fresh array holds `Layout(W, H, gap)` after the effect's first direct `animate()` (line 207): each dot is the `Step` of its fresh layout dot and one `Paint` mark per dot is returned; the animation runs and the pointer state survives |
| DotField.Field.PointerMove | src/app/components/animations/DotGrid.tsx:101-106 | the pointer becomes the given position, active; nothing else changes |
| DotField.Field.PointerLeave | src/app/components/animations/DotGrid.tsx:108-110 | only the active flag is cleared |
| DotField.Field.Click | src/app/components/animations/DotGrid.tsx:112-132 | every dot in the array becomes its `Shock`, in place, and the field stays valid |
| DotField.Field.Frame | src/app/components/animations/DotGrid.tsx:139-202 | every dot becomes its `Step`, one mark per dot is drawn in order, and opacity and scale stay in range |
| TextType.BuildTimeline | src/app/components/animations/TextType.tsx:32-98 | the effect's loops build exactly `Timeline(text)`, which is no timeline for an empty list |
| TextType.BlockShape | src/app/components/animations/TextType.tsx:57-97 | a sentence s gets `2|s| + 4` steps: `|s| + 1` typing steps of `typingSpeed / 1000` showing `s[..0]` to `s[..|s|]`, a hold of `pauseDuration / 1000`, `|s| + 1` erasing steps of `typingSpeed * 0.5 / 1000` showing `s[..|s|]` down to `s[..0]`, and a gap of 0.3 s (1.0 s after the last sentence) |
| TextType.BlockPrefixes | src/app/components/animations/TextType.tsx:61-89 | every text shown is a prefix of its sentence; typing starts from the empty text and erasing ends with it |
| TextType.ErasingMirrorsTyping | src/app/components/animations/TextType.tsx:61-89 | erasing shows the typed prefixes in reverse order |
| TextType.BlockDelays | src/app/components/animations/TextType.tsx:69 | within a sentence only the first typing step can wait, and only when no typing step came before it |
| TextType.UptoLength | src/app/components/animations/TextType.tsx:57-98 | the first n sentences take `2 * (their total length) + 4n` steps |
| TextType.UptoPrefix | src/app/components/animations/TextType.tsx:57-98 | scheduling more sentences only appends steps |
| TextType.BlockInPlace | src/app/components/animations/TextType.tsx:57-98 | sentences are scheduled in list order, each as one contiguous block; only the last block ends with the long gap |
| TextType.StepCount | src/app/components/animations/TextType.tsx:57-98 | a non-empty list gets a timeline of the sum of `2|s| + 4` steps |
| TextType.OnlyFirstDelayed | src/app/components/animations/TextType.tsx:55-72 | `globalIndex` is never reset, so exactly the first step of the timeline waits 0.5 s and no other step waits |

## Left out

- Drawing on the canvas (`clearRect`, `save`/`restore`, `arc`, `fill`) is left out. Each frame returns one `Mark` per dot instead: position, radius, alpha, colour and glow.
- `requestAnimationFrame` scheduling is left out: `Field.Frame` is one later call of `animate`. The first call, made directly by the effect (`DotGrid.tsx:207`), is part of `Field.Resize`.
- Event-listener registration and removal are left out. A `running` flag stands for "the listeners are attached and the loop runs", and the handlers require it.
- The window `resize` listener and the reading of `offsetWidth`/`offsetHeight` are left out: `Field.Resize` takes the new size as a parameter.
- `getBoundingClientRect` is left out: the handlers take surface-local coordinates.
- The early returns when the canvas or its 2D context is missing are left out. Those are browser facts outside the model.
- A prop change is left out. Props are fixed for a `Field` (`const cfg`). In the source the effect re-runs when a prop changes (`DotGrid.tsx:217-228`): `mouseRef` survives (`DotGrid.tsx:42`) and the grid is rebuilt at once for the current size. In the model that would be a new `Field` that kept the old `mouse`, followed by `Resize(width, height)`. The constructor cannot take a pointer state, so the model does not cover that sequence.
- IEEE floating point is idealised as exact reals, so rounding is not modelled.
- `Math.sqrt` is a parameter assumed to be the exact root.
- `Math.atan2`/`cos`/`sin` are replaced by the unit vector they produce.
- `gap`, `proximity`, `shockRadius` and `resistance` must be positive (`DotGrid.WellFormed`). Non-positive values are meaningless settings and are excluded. A zero value is divided by without a guard, and a zero `gap` would not give a finite grid. A negative `proximity` or `shockRadius` would simply switch its effect off (`distance <= r` never holds), and the model does not cover that case either.
- DotField.Field.Click: its ensures does not repeat that dots beyond `shockRadius` are unchanged. That follows from its `Shock` clause with `DotMotion.ShockOutside`, and stating it inside the loop made the proof too costly.
- DotMotion.ReturnDecays: it covers only `0 < returnDuration < 2 * resistance`. At `returnDuration = 2 * resistance` the factor is -1, so the offset flips sign every frame with constant length and never decays (`FramesReturn` still describes it); above that the offset grows. Decay to 0 is stated as the bound `1 / (1 + n * (1 - q))`, not as a limit.
- The TextType timeline is modelled as the sequence of steps the effect appends. The animation library that plays it (`repeat: -1`, `onStart` callbacks, `kill` on cleanup) is left out, and so is the blinking cursor (`TextType.tsx:44-53`).
- The early return when the text element is missing (`TextType.tsx:32`) is left out.
- TextType.BuildTimeline: sentence length counts Dafny characters, not UTF-16 code units as `sentence.length` and `slice` do. The two agree on text without surrogate pairs.
- Everything outside these two components is not part of this model: pages, the navigation bar, other animations, the button component and the newsletter route.
