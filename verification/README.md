# Balloon-pop sketch, modelled in Dafny

This project models the game-state bookkeeping of a p5.js sketch. Coloured balloons rise
up the canvas. Clicking one pops it into 20 fading particles and changes the score. Popping
the deep-blue balloon scores +1; popping any other colour scores -1.

The model has five modules:

- `Colors` (colors.dfy): the five-colour palette, the hex strings the sketch stores, and the
  scoring rule. The scoring rule compares the stored string with `#12355b`.
- `RandomDraws` (random.dfy): the host's random number calls. Each uniform draw `u` in
  [0, 1) is a parameter. `Random(u, lo, hi)` follows the host formula for `random(min, max)`:
  it swaps the bounds when min > max, then computes `u * (max - min) + min`. `random(m)` is
  `u * m`, and `random(array)` picks `array[floor(u * length)]`.
- `Particles` (particle.dfy): particles as values. Covers creation, `Particle.update`,
  `isDead`, the 20-particle burst of a pop, and the frame pass that updates every particle
  and drops the dead ones (`Sweep`).
- `Balloons` (balloon.dfy): balloons as values. Covers creation, the hit test, `Circle.reset`
  and `Circle.update`.
- `Sketch` (game.dfy): the global state as the class `Game`. It holds the started flag, the
  score, the fixed array of 30 balloons, the particle list and the canvas size. Its methods are the press
  handler, the two loops of the frame function, the resize handler, and setup.

Balloons and particles are immutable datatypes. In the sketch they are objects, but only the
global `circles` and `particles` arrays refer to them. So an in-place field update is the same
as replacing the element in the collection. The `Game` methods do that replacement in place:
they assign into the `circles` array and splice the `particles` sequence.

Two behaviours of the code a reader might not expect:

- `Circle.reset` draws the new `y` and `x` from the diameter the balloon had before the reset,
  and only then draws a new diameter. A freshly reset balloon's `x` therefore lies within
  `[d/2, width - d/2]` for the OLD diameter `d`, not necessarily for its new one.
  `Balloons.Reset` states the old-diameter bound, and `Balloons.ResetUsesOldDiameter` gives a
  concrete reset that puts `x` outside the new diameter's bounds. The constructor uses the new
  diameter (`Balloons.NewBalloon`).
- Ranges are half-open, for example diameter in [50, 200), because the uniform generator
  never returns 1.

## Model

| member | source | states |
|---|---|---|
| Colors.PaletteIsExact | sketch.js:45-51 | The palette has the five colours, each exactly once, and distinct colours have distinct hex strings |
| Colors.BonusIsDeepBlue | sketch.js:200 | The string comparison with `#12355b` holds for exactly one colour, deep blue |
| Colors.ScoreDelta | sketch.js:200-204 | A pop changes the score by exactly +1 or -1, and by +1 exactly when the colour is deep blue |
| RandomDraws.Random | sketch.js:56-60 | `random(lo, hi)` returns a value in the half-open range between the bounds, in either order, and returns the bound when both bounds are equal |
| RandomDraws.RandomUpTo | sketch.js:66 | `random(1000)` returns a value in [0, 1000) |
| RandomDraws.RandomIndex | sketch.js:55 | `random(COLORS)` picks a valid index: floor(u * length), below the length |
| RandomDraws.RandomIndexReachable | sketch.js:106 | Every palette index is reachable: the draw j / n selects index j |
| Particles.NewParticle | sketch.js:14-22 | A new particle sits at the given point, has the given colour and alpha 255, and has a size in [3, 8) |
| Particles.Step | sketch.js:24-30 | An update lowers alpha by exactly 5 and keeps the colour and the size |
| Particles.Burst | sketch.js:89-91 | A pop spawns exactly 20 particles, all at the balloon's position, in its colour, with alpha 255 |
| Particles.Sweep | sketch.js:175-181 | After one frame's particle pass, no particle is dead and the collection has not grown |
| Particles.SweepMembers | sketch.js:175-181 | A particle survives the pass exactly when it is the update of some old particle and is not dead |
| Particles.SweepAppend | sketch.js:175-181 | The pass works element by element and keeps the survivors in their original relative order |
| Particles.AgedAlpha | sketch.js:29 | n updates lower alpha by exactly 5n |
| Particles.DeadAfterExactly51 | sketch.js:20-42 | A particle born at alpha 255 is alive after 50 updates and dead after 51 |
| Particles.BurstParticleLifetime | sketch.js:175-181 | A newly spawned particle stays in the collection for 50 frames and is removed in the 51st |
| Balloons.NewBalloon | sketch.js:54-67 | A new balloon has diameter and alpha in [50, 200), speed in [-3, -0.5) and a noise offset in [0, 1000). Its x is within its own half-diameter of both edges, it starts 100 to 600 below the bottom edge, and it is not exploding |
| Balloons.ContainsIsDistanceTest | sketch.js:70-73 | The squared-distance test equals the sketch's `dist < diameter / 2` test: a point is contained exactly when it is strictly closer than the radius |
| Balloons.RimAndCentre | sketch.js:70-73 | A point exactly on the rim is not contained, and the centre of a balloon is contained |
| Balloons.Reset | sketch.js:101-113 | A reset clears the exploding flag and resamples diameter, alpha, speed and noise offset into their ranges. Its x and y come from the pre-reset diameter: x within the horizontal bounds, y at least half that diameter below the bottom edge |
| Balloons.ResetUsesOldDiameter | sketch.js:103-107 | A concrete reset whose x is outside the bounds of the new diameter, because x is drawn before the diameter changes |
| Balloons.Drift | sketch.js:76-77 | The noise-driven horizontal drift is at most 0.5 either way |
| Balloons.Update | sketch.js:75-85 | The balloon is reset exactly when it has risen past minus half its diameter or is exploding. No balloon is exploding after an update. Otherwise it keeps size, colour, alpha and speed and rises by its speed. Well-formed balloons stay well-formed |
| Balloons.UpdateRises | sketch.js:80 | A balloon that is not reset moves strictly upwards |
| Sketch.HitIndex | sketch.js:197-210 | The selected balloon is eligible (contains the point and is not exploding), and every balloon above it is not. -1 means no balloon is eligible |
| Sketch.RepressSkipsPopped | sketch.js:198 | A second press at the same point never selects the balloon just popped, so it is never scored twice |
| Sketch.SweepKeepsLive | sketch.js:175-181 | Between frames every particle has alpha in (0, 255] and a multiple of 5 |
| Sketch.Game.constructor | sketch.js:138-145 | Setup creates 30 fresh balloons, no particles, score 0, not yet started |
| Sketch.Game.WindowResized | sketch.js:184-187 | A resize sets the canvas width and height, which later resets read, and changes no balloon, particle, score or flag |
| Sketch.Game.Explode | sketch.js:87-99 | A pop appends exactly one burst to the end of the particle list and leaves the existing particles untouched |
| Sketch.Game.MousePressed | sketch.js:189-211 | The first press only starts the sketch. Later presses pop at most one balloon, the highest eligible one: the score changes by +1 or -1, one burst is appended, only that balloon is flagged. A press that selects nothing changes nothing |
| Sketch.Game.UpdateBalloons | sketch.js:169-173 | Each balloon is replaced by its update, in index order |
| Sketch.Game.UpdateParticles | sketch.js:175-181 | The reverse update-and-splice loop leaves exactly Sweep of the old list, and the list stays live |
| Sketch.Game.Draw | sketch.js:147-182 | Before the first press a frame changes nothing. After it, a frame updates every balloon and sweeps the particles. The score and the started flag never change in a frame |

## Left out

- Rendering: `display` of both classes, `background`, `text`, the highlight-square geometry and the score label. They only draw and have no state of their own.
- `windowResized`: modelled only as its state change (the canvas width and height, `Sketch.Game.WindowResized`); the canvas redraw it triggers is rendering.
- Audio: `preload`, `loadSound`, `userStartAudio`, and the pop sound's readiness test, volume and playback. They are calls into the browser's sound system with no effect on the game state.
- The noise function and `random2D`: the noise value (in [0, 1]) and the unit direction vector are parameters, not computed.
- Floating-point rounding: positions, velocities, sizes and balloon attributes are exact reals. Gravity 0.1, damping 0.98 and the drift are computed exactly.
- The balloon's cached display colour `c` (base colour with alpha): it is only read by `display`.
- Object identity: balloons and particles are values inside the state's collections. The sketch never shares them, so no aliasing is lost.
