# Rubik's cube state engine

A model of the discrete state engine behind the browser 3x3x3 puzzle in
`script.js`. The meshes, the floating-point geometry and the rendering
are dropped. What is left is the core:

- a registry of 27 cubelets, each with a grid cell in {-1,0,1}^3, an
  orientation and six face colours;
- layer selection;
- exact quarter-turn rotations;
- the `isRotating` busy flag with the two steps of an animated turn;
- shuffle, reset and the keyboard table.

Modules, one per file, in dependency order:

- `Geometry` (geometry.dfy): axes, the two quarter-turn angles, integer points, and the rotations
  that three.js `makeRotationX/Y/Z` build for angles of +pi/2 and -pi/2. It also has orientations:
  signed permutation matrices stored as the three directions of their columns.
- `Registry` (registry.dfy): colours, the generation loop, the home cell of every cubelet, and the
  registry invariant. The invariant says the positions are a permutation of the 27 cells.
- `Layer` (layer.dfy): layer selection, and the count of nine cubelets per layer.
- `Turn` (turn.dfy): the instant turn, with its grid-preservation, inverse and period properties.
- `Stickers` (stickers.dfy): the orientation-tracking invariant. It implies that coloured faces are
  exactly the faces that point out of the cube.
- `Engine` (engine.dfy): the busy flag, and the start and last frame of an animated turn. Also the
  instant turn on the engine, shuffle driven by random draws, reset, and the key table.
- `Session` (session.dfy): whole sequences of calls. It proves the registry invariant for sessions that
  keep reset, shuffle and instant turns away from an animated turn in flight. It shows a session where
  the invariant breaks, and proves it for every session under a last frame that re-checks its capture.

The `u` key turns the top layer by -pi/2 about y. The three.js matrix for that rotation maps
(x, y, z) to (-z, y, x), so a top-layer cubelet at (x, 1, z) moves to (-z, 1, x). A prose reading of
the key as "(x, 1, z) goes to (z, 1, -x)" would be the +pi/2 turn. The model follows the matrices,
and `Engine.UpKeyScenario` states the result.

## Model

| member | source | states |
|---|---|---|
| Geometry.Rotate | script.js:120-123 | The six quarter turns are the signed coordinate permutations (x,-z,y), (x,z,-y), (z,y,-x), (-z,y,x), (-y,x,z) and (y,-x,z). |
| Geometry.Opposite | script.js:142 | The opposite angle is the other element of {-pi/2, +pi/2}, with sine of the other sign. |
| Geometry.RotateInverse | script.js:120-126 | Turning by an angle and then by its opposite about the same axis restores every point. |
| Geometry.RotatePeriod | script.js:120-126 | Four identical quarter turns restore every point. |
| Geometry.RotateInjective | script.js:126-133 | A quarter turn sends two points to the same cell only if they were the same point. |
| Geometry.RotateInGrid | script.js:128-133 | A turned point is in {-1,0,1}^3 exactly when the original point is, so snapping back to the grid loses nothing. |
| Geometry.RotateKeepsAxis | script.js:120-123 | A turn about an axis leaves the coordinate on that axis unchanged. |
| Geometry.RotateAlong | script.js:126 | A point and a direction turned together give the same reading along that direction as before. |
| Geometry.ComposeSignedPermutation | script.js:126 | Composing a quarter turn into an orientation keeps its three columns on three different axes. |
| Geometry.RotateDirCross | script.js:120-126 | A quarter turn commutes with the cross product of two perpendicular directions. |
| Geometry.ComposeRotation | script.js:90 | Composing a quarter turn keeps a rotation matrix a rotation matrix: its third column stays the cross product of the first two, so no sequence of turns mirrors a cubelet. |
| Geometry.ComposeInverse | script.js:90 | Composing a turn and then its opposite restores the orientation. |
| Geometry.ComposePeriod | script.js:90 | Composing the same quarter turn four times restores the orientation. |
| Registry.FaceColor | script.js:37-42 | A face of the cubelet generated at a cell is non-black exactly when the cell is outermost in that face's direction; the colour is then that face's palette colour. |
| Registry.Materials | script.js:36-43 | The six materials, in box order +x, -x, +y, -y, +z, -z, carry the colour of the matching face. |
| Registry.HomeOfIndex | script.js:32-34 | Every cell is visited at exactly one iteration of the triple loop. |
| Registry.IndexOfHome | script.js:32-34 | Every iteration of the triple loop visits a cell of the grid, and each iteration visits a different cell. |
| Registry.HomeOrdered | script.js:32-34 | The loop visits cells in x-then-y-then-z lexicographic order. |
| Registry.Generate | script.js:32-53 | The triple loop produces 27 cubelets: the i-th sits at its home cell with identity orientation and that cell's colours. |
| Registry.InitialIsGridPermutation | script.js:32-47 | The generated positions are exactly the 27 cells, each once, in loop order. |
| Registry.GridPermutationMultiset | script.js:47 | The registry invariant holds exactly when the positions form the same multiset as the 27 cells. |
| Layer.Select | script.js:64-69 | The captured indices are exactly the cubelets whose coordinate on the axis equals the value, in increasing registry order. |
| Layer.LayerSize | script.js:113-118 | While the invariant holds, a layer -1, 0 or 1 holds exactly nine cubelets; any other value selects none. |
| Turn.RotateLayer | script.js:109-137 | Cubelets off the layer are unchanged. Cubelets on it are turned in position and orientation and keep their colours. Layer membership is unchanged. |
| Turn.TurnAt | script.js:125-134 | Every cubelet whose index was captured is turned in position and orientation; every other cubelet is left exactly as it was. |
| Turn.MovedInjective | script.js:125-134 | The cell map of one turn never sends two different cells to the same cell. |
| Turn.MovedOnto | script.js:125-134 | The cell map of one turn maps the grid into itself, and the opposite turn undoes it. |
| Turn.RotateLayerPreservesGrid | script.js:120-134 | An instant turn keeps the positions a permutation of the 27 cells. |
| Turn.RotateLayerInverse | script.js:109-137 | A turn followed by the opposite turn of the same layer restores every cubelet. |
| Turn.RotateLayerPeriod | script.js:109-137 | Four identical turns of a layer restore every cubelet. |
| Stickers.NewCubeletTracked | script.js:36-47 | A freshly generated cubelet's orientation maps its cell back to its home and its colours are its home's. |
| Stickers.InitialConsistent | script.js:32-53 | The generated registry satisfies the full invariant: grid permutation plus consistent orientations and colours. |
| Stickers.TurnTracked | script.js:125-133 | Turning a cubelet's position and orientation together keeps it tracked. |
| Stickers.RotateLayerConsistent | script.js:109-137 | An instant turn keeps the full invariant. |
| Stickers.TrackedColouredIffOutward | script.js:37-42 | On a tracked cubelet, a face is coloured exactly when it currently points out of the cube. |
| Stickers.ColouredIffOutward | script.js:37-42 | Under the invariant, every cubelet's coloured faces are exactly its outward faces, after any turns. |
| Engine.RotateLayerInstant | script.js:109-137 | An instant turn leaves the busy flag and the fired callbacks alone. |
| Engine.StartRotation | script.js:57-69 | Rejected with no effect while the flag is up. Otherwise it raises the flag, leaves the registry alone and captures exactly the layer's cubelets together with the turn and callback. |
| Engine.FinishRotation | script.js:83-102 | The last frame turns every captured cubelet, whatever the registry now holds, and leaves every other cubelet unchanged. It lowers the flag and fires the callback exactly once. |
| Engine.BusyRejection | script.js:58 | A request made while the flag is up changes nothing and captures nothing. |
| Engine.FinishIsInstant | script.js:83-102 | With a current capture, the last frame changes the registry exactly as the instant turn does. |
| Engine.AnimatedMatchesInstant | script.js:57-107 | From an idle engine, start plus last frame equals the instant turn plus one fired callback. |
| Engine.SecondRequestIgnored | script.js:57-59 | A second request during a turn is dropped: the outcome is that of the first turn alone, with one callback. |
| Engine.FinishPreservesConsistent | script.js:89-101 | The last frame keeps the invariant provided the captured group is still the current layer. |
| Engine.ResetCube | script.js:152-169 | Reset puts every cubelet at its home cell with identity orientation, keeps its colours, lowers the flag and fires nothing. |
| Engine.ResetIdempotent | script.js:152-169 | Resetting twice equals resetting once. |
| Engine.ResetRestoresInitial | script.js:152-169 | From any registry of 27 cubelets that carry their generated colours, wherever they sit, reset yields exactly the generated registry and an idle engine. |
| Engine.ConsistentColours | script.js:36-43 | The registry invariant includes that every cubelet carries the colours generated for its home cell. |
| Engine.ReplayColours | script.js:144-149 | Instant turns in sequence never change a cubelet's colours. |
| Engine.DrawCommand | script.js:140-147 | Every draw of the shuffle loop yields a turn of a layer -1, 0 or 1. |
| Engine.DrawBijective | script.js:140-147 | Every valid turn is produced by exactly one draw. |
| Engine.DrawOf | script.js:140-147 | Every valid turn has a draw that produces it: the inverse of the table lookup. |
| Engine.DrawCommands | script.js:144-147 | Draws become turns one per draw, in order, and every such turn is valid. |
| Engine.DrawCommandsBijective | script.js:139-150 | Every sequence of valid turns comes from exactly one sequence of draws, so a shuffle can perform any sequence of valid turns. |
| Engine.Replay | script.js:144-149 | Instant turns in sequence keep the registry size, the flag and the fired callbacks. |
| Engine.ReplayKeeps | script.js:144-149 | Instant turns in sequence never touch the flag or the callbacks and keep the invariant. |
| Engine.ReplayAppend | script.js:144-149 | Replaying a concatenation of turns replays the parts in order. |
| Engine.ShuffleCube | script.js:139-150 | The shuffle applies the drawn turns in order, never changes the flag or the callbacks, and keeps the invariant. |
| Engine.Lower | script.js:181 | Lower-casing leaves no upper-case ASCII letter behind, maps each A-Z to its a-z partner, and keeps every other character. |
| Engine.LowerIdempotent | script.js:181 | Lower-casing twice is lower-casing once. |
| Engine.KeyEitherCase | script.js:181-187 | After lower-casing, a key turns a layer exactly when it is one of u, d, r, l, f, b in either case. |
| Engine.KeyCommand | script.js:182-187 | Exactly the keys u, d, r, l, f, b produce a turn. u, d, r, l, f and b turn the outer layer on the +y, -y, +x, -x, +z and -z face respectively, each clockwise as seen from outside that face. |
| Engine.ClockwiseIsCross | script.js:182-187 | A turn of a face's outer layer has the table's angle exactly when it sends every direction across the face normal to its cross product with the normal: a clockwise quarter turn seen from outside. |
| Engine.UpKeyScenario | script.js:182 | From the solved cube, `U` plus the last frame sends each top cubelet from (x,1,z) to (-z,1,x) and leaves the other 18 in place. |
| Session.Step | script.js:55-169 | One call. A start is refused while the flag is up. Otherwise it raises the flag, leaves the registry and callbacks alone, and adds the capture of the current layer as the newest turn in flight. The last frame of the k-th turn removes exactly that turn, does that turn's last frame on the registry, lowers the flag and fires its callback. An instant turn, a shuffle and a reset do their engine operation and leave the turns in flight and the callbacks alone. At most one callback fires per call, and none is lost. |
| Session.Run | script.js:55-169 | Over any sequence of calls the registry keeps its size, earlier callbacks stay in the log in order, and no more callbacks fire than there are calls. |
| Session.StepColours | script.js:55-169 | No call changes any cubelet's colours. |
| Session.ResetAlwaysRestores | script.js:152-169 | After any sequence of calls whatsoever, including ones that break the permutation of the grid, a reset restores exactly the generated registry. |
| Session.StepSerial | script.js:55-169 | Every call keeps the serial invariant, unless it is a reset, shuffle or instant turn made while a turn is in flight. The serial invariant is: full registry invariant, at most one turn in flight, flag up exactly then, capture current. |
| Session.SerialRunConsistent | script.js:55-169 | In a serial session (no reset, shuffle or instant turn while a turn is in flight), the positions always stay a permutation of the grid. |
| Session.StaleInstant | script.js:120-134 | The instant turn of the right layer moves cubelet 21 onto the top layer and cubelet 23 off it. |
| Session.StaleCapture | script.js:64-69 | The animated turn of the top layer then captures cubelet 21 but not 23. |
| Session.StaleReset | script.js:152-169 | A reset in flight puts both home and leaves the capture pending. |
| Session.StaleLastFrame | script.js:89-98 | The stale last frame turns cubelet 21 onto the cell of cubelet 23. |
| Session.StaleFinishBreaksGrid | script.js:89-98 | As written: instant turn, animated turn, reset, then the last frame leaves two cubelets in cell (1,0,1), so the registry is no longer a permutation of the grid. |
| Session.FinishChecked | script.js:83-102 | Corrected last frame. A turn abandoned by a later reset changes nothing at all. A live turn with a current capture does exactly the as-written last frame. A live turn whose group an instant turn or shuffle moved is dropped: registry and callbacks unchanged, flag lowered. |
| Session.FinishCheckedConsistent | script.js:89-101 | The corrected last frame keeps the invariant unconditionally. |
| Session.ResetAbandonsTurns | script.js:152-169 | Corrected engine: after a reset, the last frame of any turn started before it leaves the engine exactly as the reset left it. |
| Session.StepCheckedInvariant | script.js:55-169 | Under the corrected engine, every call keeps the registry consistent and the flag up exactly when one turn of the current epoch is in flight. |
| Session.RunCheckedConsistent | script.js:55-169 | Under the corrected engine, every session whatsoever keeps the positions a permutation of the grid, with at most one live turn, and the flag up exactly when there is one. |
| Session.CheckedAgreesWhenSerial | script.js:55-169 | In serial sessions the corrected engine, with its tags forgotten, behaves exactly as the as-written one. |

## Left out

- Rendering: the scene, camera, renderer, orbit controls and render loop (script.js:1-16, 190-195) are presentation.
- Meshes, materials and groups: `BoxGeometry`, `MeshBasicMaterial`, `Group`, `attach` and `remove` are library calls. A cubelet keeps only its cell, its orientation and its six colours.
- Floating-point geometry: the spacing of 1.05, three.js's `Math.cos`/`Math.sin`, and the `Math.round(pos / spacing)` snap are replaced by exact integer rotation. The snap only recovers those integers. The `< 0.01` tolerance of the selection is equality on integers.
- Animation timing: `performance.now`, `requestAnimationFrame` and the 300 ms interpolation are replaced by the pair start / last frame. Frames in between only move the picture.
- Calls made between the start and the last frame are modelled as if the animating group were at rest. In the source, an instant turn or a new animated turn made during that time moves cubelets out of the partly turned group with `attach`. That captures a partly turned world position, and the model does not reproduce it. A reset made during that time sets positions inside the group and is modelled faithfully; it is the only call the counterexample uses.
- Randomness: `Math.random` becomes a sequence of `Draw` values, the three table indices of each iteration. `Engine.ShuffleCube` takes the move count and requires at least that many draws.
- The default move count of 20 is the constant `Engine.DefaultMoves`. The shuffle and reset buttons (script.js:171-177) are bindings only.
- The keydown handler: only its key table and the lower-casing are modelled (`Engine.KeyCommand`, `Engine.Lower`). Its own early return on `isRotating` (script.js:180) makes the same decision as the start of the animated turn.
- Engine.Lower: covers the ASCII letters only; `toLowerCase` on other Unicode characters is not modelled, because no such key is in the table.
- Callbacks are names (`CallbackId`) recorded in the engine's `fired` log in the order they fire. What a callback does is outside the engine; the source's default callback is `NoCallback`.
- Turns whose value is outside {-1,0,1} are accepted by the model as by the source, and they select nothing.
- Session.RunCheckedConsistent: ties the flag to turns of the current epoch, not to all turns in flight. A reset lowers the flag, as in the source, while the animations it abandoned still run to their last frame, which then does nothing.

## Findings

| source | as written | input that shows it | evidently intended | confidence | as-written member | corrected member |
|---|---|---|---|---|---|---|
| script.js:89-101 | The last frame of an animated turn turns the cubelets captured at its start, even if `resetCube` (which lowers the flag, script.js:168) or `shuffleCube` ran in between. | From the solved cube: instant turn x = 1 by +pi/2, then animated turn y = 1 by -pi/2 (captures cubelet 21, generated at (1,0,-1)), then reset, then that turn's last frame: cubelets 21 and 23 both end in cell (1,0,1). | A reset abandons the turns in flight, so their last frames change nothing, and no last frame turns a group that is no longer a layer. The cubelets stay a permutation of the 27 cells. | medium; not executed | Session.StaleFinishBreaksGrid | Session.FinishChecked |

The corrected engine tags every turn in flight with a reset epoch. Each
reset starts a new epoch. A last frame from an earlier epoch changes
nothing: no turn, no callback, and the flag is left alone. That flag may
belong to a turn started after the reset. A last frame from the current
epoch re-checks that its captured indices are still its layer. If they are
not, because an instant turn or a shuffle intervened, the frame drops the
turn, fires no callback and lowers the flag. Three lemmas cover this:

- `Session.RunCheckedConsistent` proves the registry invariant for every session.
- The same lemma proves the flag is up exactly when one current-epoch turn is in flight.
- `Session.CheckedAgreesWhenSerial` proves the correction changes nothing in sessions that keep calls serial.
