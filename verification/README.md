# Whisker retro menu: a Dafny model

This project models the deterministic core of a retro pixel-art menu scene and of its audio manager.

- **`Graphics`**: rectangles, line segments and a pen that carries the current fill colour between `beginFill` and `drawRect`.
- **`Raster`**: the pattern rasteriser. The tree leaves, cat body and cat tail are each drawn from an integer matrix. Each drawn cell becomes one `pixelSize`-square rectangle, row by row and left to right.
- **`Scene`**: the static layout at the 800 by 600 design size:
  - the four menu buttons;
  - the four trees;
  - the fence built post by post;
  - the loop that places a fence every 100 pixels.
- **`Blink`**: the cat's blink timer, a two-state machine advanced by the ticker's `delta`. The eyes close once the timer passes 120. They reopen, with the timer reset to 0, once it passes 126.
- **`Cat`**: the cat's construction and the face redraw that the blink timer drives on every frame.
- **`Particles`**: the fifty background particles, their creation from random draws, and the per-frame drift with wrap-around to the bottom edge.
- **`Ticker`**: one frame of the ticker callback, restricted to its discrete parts. All particles step, then the blink and face redraw run. The ticker uses the corrected face redraw; with the redraw as written, the face falls out of step with the blink flag (`Cat.AsWrittenBreaksSync`).
- **`Audio`**: the audio manager.
  - It holds three named sound handles (`hover`, `click`, `bgm`) and a mute flag.
  - It models `playSound`, `stopSound`, `startBGM` and `toggleMute`.
  - The browser's answer to `play()` is a parameter: accepted or rejected.

Coordinates are integers. Every coordinate in the drawing code is an exact integer, because `pixelSize` is 4, so `3.5 * 4`, `-0.5 * 4` and `4 / 2` all have integer values. Time, particle positions, opacities, speeds and volumes are reals.

## Model

| member | source | states |
|---|---|---|
| Raster.Rasterise | js/game.js:198-205 | the squares of a pattern: one per drawn cell, each the square of a drawn cell, every drawn cell's square present, in strict row-major order |
| Raster.RasteriseSound | js/game.js:198-205 | every emitted square is the `size`-square, at `(j * size, i * size)`, of some drawn cell `(i, j)`, in that cell's colour |
| Raster.RasteriseComplete | js/game.js:198-205 | every drawn cell has its square in the output |
| Raster.RasteriseCount | js/game.js:198-205 | the number of squares equals the number of drawn cells |
| Raster.RasteriseOrdered | js/game.js:198-205 | squares come out in strict row-major order of their corners |
| Raster.ExactlyOnePerCell | js/game.js:198-205 | a drawn cell's square occurs exactly once; no square sits at the corner of a cell that is not drawn |
| Raster.PaletteSquares | js/game.js:198-203 | when no pattern value exceeds `m`, every square is cell-sized and coloured from the first `m` palette entries, so `leafColors[pixel - 1]` is always in range |
| Raster.SolidSquares | js/game.js:315-321 | a single-colour pattern gives cell-sized squares in that one colour |
| Scene.CreateButton | js/game.js:106-135 | the button is centred on the scene's vertical axis; the shine covers exactly the top half of the background; the label anchor is the background's centre |
| Scene.MenuButtons | js/game.js:166-169 | four buttons with their captions, all at x = 275, 60 pixels apart from y = 300 |
| Scene.LeafValues | js/game.js:188-196 | every leaf pattern value is 0, 1 or 2 |
| Scene.LeafCount | js/game.js:186-205 | the leaves draw 38 squares |
| Scene.LeafColorsUsed | js/game.js:186-203 | every leaf square is one cell on a side and is coloured with one of the first two leaf colours |
| Scene.CreateTree | js/game.js:180-218 | the tree holds the leaf sprite and a two-rectangle trunk below the leaves' last row, within leaf columns 3 and 4 |
| Scene.Trees | js/game.js:253-258 | four trees at (150, 420), (400, 400), (600, 410) and (750, 415) |
| Scene.PostRects | js/game.js:229-246 | a post's six rectangles alternate main and shading colour and stay inside its 24 by 24 section |
| Scene.FenceRects | js/game.js:229-246 | rectangle `j` of post `i` sits at index `6 * i + j`, and all lie inside the posts' combined width |
| Scene.CreateFence | js/game.js:221-249 | a fence is 24 rectangles, post by post, inside a 96 by 24 box at its origin |
| Scene.PostsAsWritten | js/game.js:226-246 | the loop as written leaves six shapes per pass and the shading fill current after every pass |
| Scene.PostsAsWrittenColors | js/game.js:226-246 | the loop as written draws the intended geometry, but the vertical post of every pass after the first takes the shading colour left current by the previous pass; the planks keep the main colour |
| Scene.SecondPostAsWritten | js/game.js:229-235 | the second post is shading-coloured as written, but main-coloured in the corrected fence |
| Scene.PlaceFences | js/game.js:263-268 | fences stand at x = 100 k while x is inside the width, all at y = 600 - 80 = 520; 8 fences for the 800-wide scene |
| Blink.Step | js/game.js:453-475 | closing happens exactly when an open cat's timer passes 120; reopening happens exactly when a blinking cat's timer passes 126, and resets the timer |
| Blink.ResetOnlyWhileBlinking | js/game.js:455-465 | the reset branch fires only for a blinking cat |
| Blink.StepKeepsValid | js/game.js:453-466 | with non-negative `delta` the timer stays non-negative and consistent with the flag |
| Blink.Timeline | js/game.js:453-466 | at one unit per frame: open through frame 120, closed on frames 121 to 126, reset on frame 127 |
| Blink.Periodic | js/game.js:453-466 | the blink repeats every 127 frames |
| Cat.BodyCount | js/game.js:304-321 | the body draws 44 squares |
| Cat.TailCount | js/game.js:377-393 | the tail draws 9 squares |
| Cat.CreateCat | js/game.js:296-410 | the cat is placed at (650, 480) with the built face, tail angle 0 and the initial blink state |
| Cat.Frame | js/game.js:453-475 | the corrected frame: the blink state steps; the face is kept, replaced by the closed eyes on closing, and by the construction face on reopening |
| Cat.FrameAsWritten | js/game.js:453-475 | the frame as written: as `Cat.Frame`, except that reopening draws only the eyes and pupils |
| Cat.FrameKeepsInSync | js/game.js:453-475 | with the corrected redraw, the face shows closed eyes exactly while blinking and the full face otherwise |
| Cat.FaceTimeline | js/game.js:453-475 | the face over one blink cycle, frame by frame |
| Cat.BlinkCycleRestores | js/game.js:330-359 | with the corrected redraw, one blink cycle returns the cat to its construction state |
| Cat.BlinkCycleAsWritten | js/game.js:467-474 | as written, the reopened face is four boxes (two white 8 by 8 eyes, two black 4 by 4 pupils) with no nose and no whiskers |
| Cat.NoseStaysLost | js/game.js:453-475 | as written, once the face is the closed-eyes or the reopened one, every later frame at any timing shows one of those two, never the construction face |
| Cat.NeverRestoredAsWritten | js/game.js:453-475 | as written, at one unit per frame, no frame from 127 on shows the construction face |
| Cat.AsWrittenBreaksSync | js/game.js:466-474 | as written, the frame that reopens the eyes from an in-step state leaves the face out of step with the blink flag |
| Particles.Spawn | js/game.js:32-35 | a particle made from draws in [0, 1) is on the canvas, strictly above the bottom edge, rises at a speed in [0.1, 0.6) and has opacity in [0, 0.5) |
| Particles.CreateParticles | js/game.js:26-39 | fifty particles, one per draw, in order, all in bounds |
| Particles.Step | js/game.js:419-425 | speed and opacity never change; a particle that would pass the top edge lands at exactly y = 600 at a fresh column; otherwise it rises by its speed |
| Particles.StepAll | js/game.js:419-425 | each particle of the field takes one step with its own wrap draw; the field keeps its size |
| Particles.StepKeepsInBounds | js/game.js:419-425 | a particle in bounds stays in bounds after a frame |
| Particles.StepRisesOrWraps | js/game.js:419-425 | each frame a particle moves up or wraps to the bottom edge |
| Particles.StepAllKeepsInBounds | js/game.js:419-425 | the whole field stays in bounds after a frame |
| Particles.DriftClimbs | js/game.js:419-425 | before wrapping, a particle after `n` frames is exactly `n` speeds higher |
| Particles.DriftKeepsInBounds | js/game.js:419-425 | any number of frames keeps a particle in bounds |
| Ticker.Start | js/game.js:26-41 | the starting world has fifty in-bounds particles and a cat whose face agrees with its blink flag |
| Ticker.Tick | js/game.js:417-476 | a frame steps every particle with its own wrap draw, keeping the count, speeds and opacities, and advances the blink state and redraws the face; the face redraw is the corrected one, showing the construction face on reopening |
| Ticker.TickKeepsInvariant | js/game.js:417-476 | every frame with non-negative `delta` keeps particles in bounds and the face in step with the blink flag |
| Audio.New | dist/js/audio.js:2-19 | exactly the sounds hover, click and bgm; only bgm loops; volumes 0.3, 0.2 and 0.3; not muted |
| Audio.PlaySound | dist/js/audio.js:21-31 | a no-op while muted or for an unknown name; otherwise it rewinds effects but not the music, plays, and changes no other sound |
| Audio.StopSound | dist/js/audio.js:33-38 | a known sound ends paused at position 0 and no other sound changes; an unknown name changes nothing |
| Audio.StartBgm | dist/js/audio.js:40-42 | plays the music from where it was, unless muted |
| Audio.ToggleMute | dist/js/audio.js:44-50 | returns the negated flag and copies it onto every handle, changing nothing else |
| Audio.ToggleTwice | dist/js/audio.js:44-50 | toggling twice restores the flag, and the whole manager when handles agreed with the flag |
| Audio.OperationsKeepConsistent | dist/js/audio.js:21-50 | every operation keeps each handle's muted flag equal to the manager's |
| Audio.RejectionSwallowed | dist/js/audio.js:27-29 | a rejected play differs from an accepted one only in the paused flag of the requested sound |
| Audio.StopAfterPlay | dist/js/audio.js:21-38 | stopping undoes whatever playing did, and stopping is idempotent |
| Audio.MusicNeverRewound | dist/js/audio.js:24-26 | no play call changes the music's position |
| Audio.ToggleKeepsPlayback | dist/js/audio.js:44-50 | toggling mute leaves positions, paused flags, looping and volumes unchanged |

## Left out

- js/sound-generator.js is not part of this model. It is a developer tool for synthesising and downloading WAV files, built on Web Audio, floating-point synthesis and the DOM.
- **Scene graph plumbing.** Application setup, DOM insertion, text styles and hover or click handlers are left out. They are calls into the rendering library and the browser.
- **Sine-driven animation.** The title glow, tree sway, cat bob, tail wag and button hover pulse all depend on `Math.sin` of the clock, and `button.isOver` is never assigned anywhere in js/game.js.
- **Grass** is left out. Its blade heights follow `Math.sin` of the column and its colours are random draws; it carries no property beyond its loop bounds.
- **Fill alpha, line styles and container alpha.** These include the button border and the shine's 0.2 fill alpha and 0.3 alpha. The model keeps colours and geometry only.
- **Randomness.** Every `Math.random()` draw is a parameter in [0, 1). The wrap column of a particle is one draw per particle per frame, used only if that particle wraps.
- **Floating-point arithmetic.** Particle motion and the blink timer use exact reals rather than IEEE doubles.
- **Audio elements.** A handle keeps only position, paused flag, muted flag, looping flag and volume. Playback progress, `ended`, loading and errors are not modelled. `play()` either succeeds (paused becomes false) or is rejected (the element is unchanged).
- Audio.PlaySound: only the three own keys count as known names. In the class as written, an inherited property name such as `toString` is also truthy, and playing it would throw.
- Audio.StopSound: only the three own keys count as known names. In the class as written, an inherited property name such as `toString` is also truthy, and its `pause()` call would throw.
- **No code for these.** Meowing, the happy expression, the ear wiggle and relayout on window resize have no code in the files modelled.

## Findings

| source | as written | input that shows it | evidently intended | confidence | as-written member | corrected member |
|---|---|---|---|---|---|---|
| js/game.js:226-246 | each pass of the post loop ends with `beginFill(0xD2B48C)`, and the next pass draws its post before setting a fill | `createFence(0, 0)`: the posts at x = 24, 48 and 72 are drawn in 0xD2B48C | each post and plank in 0xDEB887 with a 0xD2B48C shading strip, as on the first post | medium, not executed | Scene.SecondPostAsWritten | Scene.CreateFence |
| js/game.js:467-474 | the reopening branch redraws only the eyes and pupils after `face.clear()` | delta = 1 for 127 frames from construction: the face ends as four boxes, with the nose and the six whiskers gone, and no later frame brings them back (`Cat.NeverRestoredAsWritten`) | redraw the face as built at js/game.js:330-359 | high, not executed | Cat.BlinkCycleAsWritten | Cat.BlinkCycleRestores |

The corrected fence is `Scene.CreateFence`, built from `Scene.PostRects`. The as-written loop is `Scene.PostsAsWritten`, described by `Scene.PostsAsWrittenColors`. The corrected per-frame redraw is `Cat.Frame`, whose invariant `Cat.FrameKeepsInSync` holds. The as-written one is `Cat.FrameAsWritten`. The ticker uses the corrected frame.

The leaf palette's third colour, 0x006400, is never drawn, because no leaf value exceeds 2 (`Scene.LeafColorsUsed`). This is a harmless unused entry rather than a defect.
