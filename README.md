# Portfolio site core, modelled in Dafny

This project models the behaviour of a React portfolio site. The site has four pieces with real logic:

- **The arcade game** (`components/ArcadeGame.tsx`). This is an asteroids-style canvas game. Its frame-by-frame `update` changes the ship, the asteroid array and the laser array in place. The model keeps that shape:
  - `ArcadeGame.Ship` and `ArcadeGame.Game` are classes whose methods update their fields.
  - The loops of `update` are methods with loop invariants.
  - Each method is proved equal to a function on values (`ArcadePhysics`, `ArcadeGame.Tick`). Lemmas about those functions state what the game promises:
    - wrap bounds;
    - the shape of a generated asteroid;
    - the laser pass;
    - splitting and scoring;
    - level completion;
    - death and the high score;
    - the one-shot fire button;
    - the game invariant `WorldValid`.
- **The site shell** (`App.tsx`). It upserts projects by id, deletes them by id, selects the view, and takes the first paragraph of the about text as a teaser.
- **The music player** (`components/MusicPlayer.tsx`). It is a class with a cyclic track index, a play flag, a volume and a mute flag.
- **The lab console** (`components/LabManagement.tsx`). It covers:
  - the one-item-per-line text areas;
  - the mixtape add and delete;
  - the default track name of an uploaded file;
  - the status badge class;
  - new projects.

Files and modules:

| file | module | what it holds |
|---|---|---|
| options.dfy | `Options` | the `Option` type |
| geometry.dfy | `Geometry` | the toroidal wrap and sqrt-free distance tests |
| arcade_entities.dfy | `ArcadeEntities` | the game constants, the records, `createAsteroid` and `createAsteroidBelt` |
| arcade_physics.dfy | `ArcadePhysics` | the phases of a tick as functions and what each of them guarantees |
| arcade_controls.dfy | `ArcadeControls` | key flags, rotation and the fire cooldown |
| arcade_game.dfy | `ArcadeGame` | the world state, `Tick`, the in-place loops and the `Ship` and `Game` classes |
| records.dfy | `Records` | `Project`, `Song`, `SiteContent` and the filter-by-id shared by both deletes |
| app.dfy | `App` | the site shell |
| music_player.dfy | `MusicPlayer` | the music player |
| lab_management.dfy | `LabManagement` | the lab console |

Inputs the model cannot compute are taken as parameters:
- **Trigonometry:** `cos` and `sin` are parameters of type `real -> real`.
- **Randomness:** `Math.random()` calls become `rand(k, i)`. This is draw `i` of the `k`-th asteroid creation, and is assumed to lie in `[0, 1)` (`UnitDraws`). A cursor in the game state counts creations.
- **Belt positions:** the positions a new belt takes are a parameter of valid `Spot`s.
- **Distances** are compared squared. `Geometry.SqrtFreeComparison` proves this agrees with the source's `sqrt(..) < bound`.
- **Numbers:** positions and velocities are exact reals. Radii, scores, levels, timers and counts are integers.

## Model

| member | source | states |
|---|---|---|
| ArcadeEntities.DerivedConstants | components/ArcadeGame.tsx:331-334 | The derived constants have the values the source computes: ship radius 15, split threshold `ceil(100/4) = 25`, spawn clearance 230, and `ceil(LASER_EXPLODE_DUR*FPS) = 6 > 0` ticks of explosion |
| ArcadeEntities.Ceil | components/ArcadeGame.tsx:331 | `Math.ceil`: the least integer not below its argument |
| ArcadeEntities.Offsets | components/ArcadeGame.tsx:99-102 | The loop pushes one offset per vertex (none when `vert <= 0`); for draws in [0,1) every offset lies in [1-ASTEROID_JAG, 1+ASTEROID_JAG) |
| ArcadeEntities.VertexCountRange | components/ArcadeGame.tsx:95 | For a draw in [0,1) the vertex count lies in [5, 15] |
| ArcadeEntities.AsteroidShape | components/ArcadeGame.tsx:86-104 | Given [0,1) draws, a created asteroid has 5 to 15 vertices and one offset per vertex, each offset in [1-JAG, 1+JAG), and the given position and radius |
| ArcadeEntities.AsteroidSpeed | components/ArcadeGame.tsx:87-92 | Each velocity component is below `ASTEROID_SPD*(1+0.1*level)/FPS` in magnitude |
| ArcadeEntities.VelocityBound | components/ArcadeGame.tsx:91-92 | A draw in [0,1) times the level speed, with either sign, is below the level speed in magnitude |
| ArcadeEntities.CreateAsteroid | components/ArcadeGame.tsx:86-104 | The record built by the offset push loop equals the asteroid the draws determine (`AsteroidOf`), and the creation cursor moves by one |
| ArcadeEntities.Belt | components/ArcadeGame.tsx:110-123 | A belt has one asteroid per accepted spot |
| ArcadeEntities.BeltProperties | components/ArcadeGame.tsx:110-123 | Every belt asteroid has radius ASTEROID_SIZE and the generator's shape, and sits at its integer spot at distance at least `2*ASTEROID_SIZE + SHIP_SIZE` from the centre |
| ArcadeEntities.CreateAsteroidBelt | components/ArcadeGame.tsx:110-123 | The push loop builds `ASTEROID_NUM + level` asteroids, exactly the belt `Belt` describes, and advances the cursor accordingly |
| Geometry.DistSq | components/ArcadeGame.tsx:125-127 | The squared distance is never negative |
| Geometry.SqrtFreeComparison | components/ArcadeGame.tsx:125-127 | For the true (non-negative) distance, `dist < bound` holds exactly when the squared comparison `CloserThan` holds |
| Geometry.CloserThanSymmetric | components/ArcadeGame.tsx:125-127 | The distance test does not depend on the order of the two points |
| Geometry.Wrap | components/ArcadeGame.tsx:266-269 | Edge handling of one coordinate: below `-r` jumps to `size+r`, above `size+r` jumps to `-r`, otherwise unchanged; for `r >= 0` the result lies in `[-r, size+r]` |
| ArcadePhysics.Damp | components/ArcadeGame.tsx:190-194 | Friction scales a velocity component by `1 - FRICTION/FPS`, so it shrinks towards 0 without changing sign |
| ArcadePhysics.MoveAsteroid | components/ArcadeGame.tsx:261-269 | Moving an asteroid changes only its position, and leaves it within `[-r, W+r] x [-r, H+r]`, taking the far edge exactly when it crossed one |
| ArcadePhysics.MoveAllKeepsField | components/ArcadeGame.tsx:237-270 | The asteroid pass keeps the number, order, radius and shape of the asteroids, and puts each one inside its wrap bounds |
| ArcadePhysics.LaserTick | components/ArcadeGame.tsx:295-314 | A laser is removed exactly when it is off the canvas after moving (exploding or not) or its explosion timer runs out; a kept laser has moved, is on the canvas and has its timer decremented |
| ArcadePhysics.LaserPassAppend | components/ArcadeGame.tsx:273-315 | The laser pass treats each laser independently and in order: the pass of a concatenation is the concatenation of the passes |
| ArcadePhysics.LaserPassSurvivors | components/ArcadeGame.tsx:295-315 | After the pass no laser is off the canvas, every remaining laser is the tick of an original, and every original whose tick keeps it is still there |
| ArcadePhysics.LaserPassLength | components/ArcadeGame.tsx:299-313 | The pass keeps exactly as many lasers as have a tick that keeps them: none is skipped or processed twice |
| ArcadePhysics.FirstHit | components/ArcadeGame.tsx:324-351 | The inner loop stops at the highest-index laser that is not exploding and lies within the asteroid's radius, or reports none when no laser does |
| ArcadePhysics.CeilHalf | components/ArcadeGame.tsx:335 | `Math.ceil(r/2)` for an integer radius |
| ArcadePhysics.ResolveCounts | components/ArcadeGame.tsx:319-353 | Hit resolution: every asteroid either survives or is hit once, each split adds two children, and the asteroid count changes by `-hits + 2*splits` |
| ArcadePhysics.ArmedExplode | components/ArcadeGame.tsx:329-331 | Setting a non-exploding laser to explode takes exactly one laser out of those able to hit |
| ArcadePhysics.ResolveLasers | components/ArcadeGame.tsx:324-331 | Each hit uses up exactly one non-exploding laser, which gets `explodeTime = 6`; every other laser is untouched, so no laser destroys two asteroids |
| ArcadePhysics.SplitChildren | components/ArcadeGame.tsx:333-343 | A hit asteroid with `r > 25` leaves two children and one with `r <= 25` leaves none; children are well-formed, have radius `ceil(r/2)` and sit at the parent's position |
| ArcadePhysics.ResolveWellFormed | components/ArcadeGame.tsx:319-353 | After hit resolution every asteroid is still well-formed, so radii stay in {100, 50, 25}; survivors are originals, and each child sits where a larger original was |
| ArcadePhysics.ResolveOne | components/ArcadeGame.tsx:329-345 | For one asteroid: unhit, it survives and nothing else changes; hit with `r > 25`, it is replaced by two children of radius `ceil(r/2)`; hit with `r <= 25`, it disappears |
| ArcadeControls.ControlOf | components/ArcadeGame.tsx:424-429 | Each of the four key codes drives its own control, and no other code drives any |
| ArcadeControls.SetHeld | components/ArcadeGame.tsx:424-438 | Setting one control's flag leaves the other three flags as they were |
| ArcadeControls.KeyDown | components/ArcadeGame.tsx:411-430 | A key-down inside a form field, or for a non-game key, changes nothing; otherwise its control becomes held and the others are kept |
| ArcadeControls.KeyUp | components/ArcadeGame.tsx:432-440 | A key-up clears its control regardless of focus, and touches no other control |
| ArcadeControls.PressRelease | components/ArcadeGame.tsx:411-440 | A press followed by its release restores flags that were not held before |
| ArcadeControls.ControlsSuppressDefault | components/ArcadeGame.tsx:411-422 | For a key that drives a control, the listener suppresses the default action exactly when no form field has focus (it returns before `preventDefault` otherwise) |
| ArcadeControls.Rotation | components/ArcadeGame.tsx:387-390 | Rotation is positive exactly when left is held, negative exactly when only right is held, and 0 otherwise; left wins over right |
| ArcadeControls.FireStep | components/ArcadeGame.tsx:392-394 | A laser is fired exactly when space is held, `canShoot` holds and fewer than 10 lasers are in flight; `canShoot` is afterwards true exactly when space is not held |
| ArcadeControls.ShotsPerRelease | components/ArcadeGame.tsx:392-394 | Over any run of ticks, the lasers fired number at most the releases of space, plus one if shooting was enabled at the start |
| ArcadeControls.HoldingFiresOnce | components/ArcadeGame.tsx:392-394 | Holding space for any number of ticks fires at most one laser |
| ArcadeGame.WorldStartValid | components/ArcadeGame.tsx:68-84 | The state at mount satisfies the game invariant |
| ArcadeGame.Max | components/ArcadeGame.tsx:381 | `Math.max`: the larger of the two arguments |
| ArcadeGame.MovePhase | components/ArcadeGame.tsx:361-374 | A dead ship does not move; a live ship changes only position and angle and ends within its wrap bounds |
| ArcadeGame.NoseLaser | components/ArcadeGame.tsx:131-137 | A new laser is not exploding and flies along the line from the ship's centre through its nose, away from the ship |
| ArcadeGame.ControlPhase | components/ArcadeGame.tsx:387-394 | The controls set `rot` to the keys' rotation, leave `canShoot` true exactly when space is not held, add one laser at the end exactly when space is held, `canShoot` holds and there is room, never exceed LASER_MAX lasers, and change nothing else |
| ArcadeGame.ThrustKeepsValid | components/ArcadeGame.tsx:185-194 | The thrust phase keeps the game invariant |
| ArcadeGame.ThrustKeepsLasers | components/ArcadeGame.tsx:185-194 | The thrust phase touches nothing but the ship's thrust fields |
| ArcadeGame.HitKeepsValid | components/ArcadeGame.tsx:237-353 | The asteroid pass, laser pass and hit resolution keep the game invariant: well-formed asteroids, score in whole hundreds, at most 10 lasers |
| ArcadeGame.LevelKeepsValid | components/ArcadeGame.tsx:355-359 | Level completion keeps the game invariant |
| ArcadeGame.CrashKeepsValid | components/ArcadeGame.tsx:361-385 | Ship move and collision keep the game invariant, including high score at least the score after a game over |
| ArcadeGame.ControlKeepsValid | components/ArcadeGame.tsx:387-394 | The controls keep the game invariant, in particular at most 10 lasers |
| ArcadeGame.TickValid | components/ArcadeGame.tsx:170-396 | Every tick of `update` keeps the game invariant |
| ArcadeGame.TickIdle | components/ArcadeGame.tsx:180 | Outside PLAYING a tick changes nothing |
| ArcadeGame.TickScore | components/ArcadeGame.tsx:347-349 | A tick adds exactly 100 per destroyed asteroid, so the score never decreases; hits are bounded by the asteroids and by the non-exploding lasers |
| ArcadeGame.TickStages | components/ArcadeGame.tsx:170-396 | Unfolding helper for TickLevel and TickNewBelt: the hit stage does not depend on thrust, and a tick is thrust, hits (on the thrust-independent hit stage), level check, move and collision against the post-hit field, and controls, in that order |
| ArcadeGame.TickLevel | components/ArcadeGame.tsx:355-359 | The level goes up by exactly one when, and only when, hit resolution leaves no asteroid; otherwise the field is what the hits left |
| ArcadeGame.TickNewBelt | components/ArcadeGame.tsx:355-359 | The new level's field has `ASTEROID_NUM + level` full-size asteroids clear of the centre, and the game goes on |
| ArcadeGame.CrashKeepsField | components/ArcadeGame.tsx:361-385 | Ship move and collision change only the ship, the state and the high score, and with no asteroids not even those two |
| ArcadeGame.ControlKeepsField | components/ArcadeGame.tsx:387-394 | The controls change only the ship |
| ArcadeGame.TickDeath | components/ArcadeGame.tsx:376-385 | The game ends exactly when the moved live ship is within `ship.r + asteroid.r` of some asteroid left by the hits; the ship is then dead and the high score is `max(highScore, score)`; otherwise play continues; the high score never decreases |
| ArcadeGame.StartedValid | components/ArcadeGame.tsx:451-460 | A started game satisfies the invariant, is PLAYING with score 0 and level 0, has a belt of ASTEROID_NUM asteroids, and keeps the high score |
| ArcadeGame.MoveField | components/ArcadeGame.tsx:261-269 | The in-place asteroid loop computes exactly the asteroid pass |
| ArcadeGame.FindHit | components/ArcadeGame.tsx:324-351 | The reverse laser loop with early exit finds exactly `FirstHit` |
| ArcadeGame.SplitAsteroid | components/ArcadeGame.tsx:333-343 | The two `createAsteroid` calls and the 1.5 velocity boost produce exactly the split of `Split` |
| ArcadeGame.ResolveHits | components/ArcadeGame.tsx:317-353 | The reverse loop with push, splice and `break` leaves exactly the survivors followed by the children, the lasers, the hit count and the cursor that `Resolve` describes |
| ArcadeGame.PassLasers | components/ArcadeGame.tsx:273-315 | The forward loop that splices and steps its index back computes exactly the laser pass |
| ArcadeGame.Collision | components/ArcadeGame.tsx:377-384 | The collision loop sets the flag exactly when some asteroid is within `ship.r + asteroid.r` |
| ArcadeGame.Ship.constructor | components/ArcadeGame.tsx:148-165 | The ship `resetGame` builds: centred, pointing up, radius 15, at rest, no lasers, able to shoot |
| ArcadeGame.Ship.ApplyThrust | components/ArcadeGame.tsx:185-194 | Thrust along the heading while up is held and the ship lives, friction otherwise |
| ArcadeGame.Ship.MoveLasers | components/ArcadeGame.tsx:295-315 | The ship's lasers become the laser pass of the old ones; nothing else changes |
| ArcadeGame.Ship.Move | components/ArcadeGame.tsx:361-374 | The ship moves, wraps and turns as `MovePhase` says |
| ArcadeGame.Ship.ShootLaser | components/ArcadeGame.tsx:129-141 | A nose laser is pushed only when `canShoot` holds and fewer than LASER_MAX are in flight; `canShoot` is always false afterwards |
| ArcadeGame.Ship.HandleControls | components/ArcadeGame.tsx:387-394 | Rotation from the keys with left first, then shoot while space is held, or re-arm when it is not |
| ArcadeGame.Game.constructor | components/ArcadeGame.tsx:68-84 | The mounted component: START, zero scores, no ship, no asteroids, no key held |
| ArcadeGame.Game.Update | components/ArcadeGame.tsx:170-396 | One frame changes the state exactly as `Tick` does and keeps the game invariant |
| ArcadeGame.Game.HitsAndScore | components/ArcadeGame.tsx:237-353 | The asteroid loop, laser loop and hit loop in place equal the hit phase and its scoring |
| ArcadeGame.Game.CheckLevel | components/ArcadeGame.tsx:355-359 | An empty field raises the level by one and lays a new belt; otherwise nothing changes |
| ArcadeGame.Game.MoveAndCollide | components/ArcadeGame.tsx:361-385 | The ship moves, then dies on contact with the array the hit test ran on, ending the game and raising the high score |
| ArcadeGame.Game.StartGame | components/ArcadeGame.tsx:451-460 | Reset and start: level 0, score 0, a new ship, a new belt, PLAYING, invariant kept |
| ArcadeGame.Game.KeyPressed | components/ArcadeGame.tsx:411-430 | Only the key flags change, as `KeyDown` says |
| ArcadeGame.Game.KeyReleased | components/ArcadeGame.tsx:432-440 | Only the key flags change, as `KeyUp` says |
| Records.Without | App.tsx:81 | Filtering by id never lengthens a list |
| Records.WithoutMembers | App.tsx:81 | The filter keeps exactly the elements whose id differs |
| Records.WithoutAppend | App.tsx:81 | The filter works piecewise, so the kept elements keep their order |
| Records.WithoutAbsent | App.tsx:81 | A list with no element carrying the id is returned unchanged |
| Records.WithoutIdempotent | App.tsx:81 | Filtering twice is filtering once |
| App.ReplaceById | App.tsx:74 | The map keeps the length and every id in place; each result entry is the saved project or an old entry; when the id is present the project is in the result, and when it is absent the list is unchanged |
| App.SaveExisting | App.tsx:71-75 | Saving over an existing id keeps the length, replaces each entry with that id and leaves the others |
| App.SaveNew | App.tsx:76 | Saving a new id appends the project at the end |
| App.SaveIdempotent | App.tsx:70-78 | After a save the id is present, and saving the same project again changes nothing |
| App.DeleteProperties | App.tsx:80-82 | Delete leaves no project with the id, keeps every other project, keeps their order and is idempotent |
| App.Navigate | App.tsx:93-104 | "WORK" selects HOME, any other target is selected as given, and the view is never "WORK" |
| App.FirstBreak | App.tsx:201 | Finds the first "\n\n" at or after a position, or the end |
| App.Teaser | App.tsx:201 | The teaser is a prefix of the text, contains no "\n\n", and stops exactly at the first "\n\n" when there is one |
| App.TeaserWhole | App.tsx:201 | A text without a paragraph break is its own teaser |
| App.TeaserFirstParagraph | App.tsx:201 | The teaser of `first + "\n\n" + rest`, where `first` has no break, is `first` |
| MusicPlayer.NextIndex | components/MusicPlayer.tsx:59-65 | One track on, or back to 0 past the end; in range for any start index in [-1, len) |
| MusicPlayer.PrevIndex | components/MusicPlayer.tsx:67-73 | One track back, or the last track below 0; in range for any start index below len |
| MusicPlayer.NextIsModular | components/MusicPlayer.tsx:61-63 | From an index in [-1, len), the next index is `(i+1) mod len` |
| MusicPlayer.NextPrevInverse | components/MusicPlayer.tsx:59-73 | Next then previous, and previous then next, return to any valid index |
| MusicPlayer.EffectiveVolume | components/MusicPlayer.tsx:28 | Muted gives 0, otherwise the set volume, and a volume in [0,1] stays in [0,1] |
| MusicPlayer.Player.constructor | components/MusicPlayer.tsx:11-14 | No track selected, paused, volume 0.5, not muted |
| MusicPlayer.Player.CurrentSong | components/MusicPlayer.tsx:24 | `initialPlaylist[currentSongIndex]` is a song exactly for an index of the playlist; in a valid player there is a current song unless nothing is selected (index -1) |
| MusicPlayer.Player.SelectInitial | components/MusicPlayer.tsx:18-22 | A non-empty playlist with no selection selects track 0, so a current song exists; otherwise the index is kept |
| MusicPlayer.Player.TogglePlay | components/MusicPlayer.tsx:44-57 | Without a current song that has an audio element nothing changes; otherwise the play flag flips |
| MusicPlayer.Player.NextSong | components/MusicPlayer.tsx:59-65 | On an empty playlist nothing changes; otherwise the index becomes `(i+1) mod len`, a current song exists and playback starts |
| MusicPlayer.Player.PrevSong | components/MusicPlayer.tsx:67-73 | On an empty playlist nothing changes; otherwise the index steps back (index 0 or -1 wraps to the last track), a current song exists and playback starts |
| MusicPlayer.Player.SelectTrack | components/MusicPlayer.tsx:254-257 | Clicking a track makes it the current song and starts playback |
| MusicPlayer.Player.ToggleMute | components/MusicPlayer.tsx:224 | Only the mute flag flips |
| MusicPlayer.Player.SetVolume | components/MusicPlayer.tsx:233 | Only the volume changes, to the slider's value in [0,1] |
| MusicPlayer.Player.AudioError | components/MusicPlayer.tsx:75-78 | An audio error stops playback and changes nothing else |
| MusicPlayer.Player.Ended | components/MusicPlayer.tsx:289 | The end of a track advances as `nextSong` does |
| MusicPlayer.Player.AudioVolume | components/MusicPlayer.tsx:26-30 | The volume given to the audio element lies in [0,1], is 0 when muted and is the slider volume otherwise |
| LabManagement.NewlineAt | components/LabManagement.tsx:87 | The first newline at or after a position, or the end of the string |
| LabManagement.SplitLines | components/LabManagement.tsx:87 | `split('\n')` gives at least one piece, no piece holds a newline, and joining the pieces gives back the string |
| LabManagement.SplitJoin | components/LabManagement.tsx:87 | Splitting the join of newline-free pieces gives the pieces back |
| LabManagement.KeepNonBlank | components/LabManagement.tsx:87 | The filter keeps only lines with a non-whitespace character, all taken from the input |
| LabManagement.KeepNonBlankAppend | components/LabManagement.tsx:87 | The filter works piecewise, so kept lines keep their order |
| LabManagement.KeepNonBlankAll | components/LabManagement.tsx:87 | A list without blank lines passes unchanged |
| LabManagement.KeepNonBlankKeeps | components/LabManagement.tsx:87 | Every non-blank line of the input is kept |
| LabManagement.ParseLines | components/LabManagement.tsx:86-90 | The parsed items hold no newline and no whitespace-only item, and every non-blank piece of the split is kept |
| LabManagement.TextareaRoundTrip | components/LabManagement.tsx:577-578 | Parsing the `join('\n')` of non-blank, newline-free items gives back the items |
| LabManagement.UpdateArrayField | components/LabManagement.tsx:86-90 | The edited list field takes the parsed lines, and every other field of the project is kept |
| LabManagement.UpdateArrayFieldUnchanged | components/LabManagement.tsx:577-596 | Re-submitting a list field's text area unchanged leaves the project unchanged |
| LabManagement.UpdateContentValues | components/LabManagement.tsx:99-102 | The about values take the parsed lines, and the rest of the site copy is kept |
| LabManagement.UpdateContentValuesUnchanged | components/LabManagement.tsx:310-311 | Re-submitting the values text area unchanged leaves the site copy unchanged |
| LabManagement.Digit | components/LabManagement.tsx:65 | A digit value becomes the decimal character that reads back as that value |
| LabManagement.DecimalString | components/LabManagement.tsx:65 | `Date.now().toString()` gives decimal digits without a leading zero |
| LabManagement.DecimalRoundTrip | components/LabManagement.tsx:65 | Reading back the decimal string of n gives n, so distinct timestamps give distinct strings |
| LabManagement.TrackId | components/LabManagement.tsx:111 | A track id is "track_" followed by the timestamp's digits |
| LabManagement.AddSong | components/LabManagement.tsx:105-119 | An empty name or url leaves the playlist unchanged; otherwise the playlist gains one song at the end with the entered name and url |
| LabManagement.DeleteSong | components/LabManagement.tsx:121-123 | Deleting never lengthens the playlist |
| LabManagement.DeleteSongProperties | components/LabManagement.tsx:121-123 | No song with the id remains, every other song is kept, and their order is kept |
| LabManagement.AddThenDelete | components/LabManagement.tsx:105-123 | Deleting by its id the song just added, when its id was new, restores the playlist |
| LabManagement.ExtStart | components/LabManagement.tsx:135 | The backward scan finds where the extension `\.[^/.]+$` starts, or reports there is none |
| LabManagement.ExtSuffixUnique | components/LabManagement.tsx:135 | A file name has at most one final extension |
| LabManagement.StripExtension | components/LabManagement.tsx:135 | A final `.ext`, where `ext` is non-empty and has no `.` or `/`, is removed; a name without one is unchanged |
| LabManagement.ApplyUpload | components/LabManagement.tsx:127-141 | A non-empty file result becomes the url, and the stripped file name becomes the name only when none was entered; an empty result changes nothing |
| LabManagement.StatusColor | components/LabManagement.tsx:144-154 | The gray default is returned exactly for statuses outside the six known ones |
| LabManagement.StatusColorsDistinct | components/LabManagement.tsx:144-154 | The six statuses have six different badge classes |
| LabManagement.CreateProject | components/LabManagement.tsx:63-69 | A new project is the blank project with only the id set, to the timestamp's digits |
| LabManagement.CreateProjectDistinct | components/LabManagement.tsx:63-69 | Projects created at different times get different ids |

## Left out

- Canvas drawing is presentation only and not modelled: the background, ship, flame, asteroid polygons and laser dots and explosions.
- Floating point: positions, velocities and angles are exact reals, so IEEE rounding is not modelled.
- `Math.cos` and `Math.sin` are parameters. `Math.sqrt` is replaced by squared comparisons, which are proved equivalent.
- `Math.random` is not modelled as one shared stream:
  - Each asteroid creation reads its own row of draws `rand(k, 0..)`, and the rows are indexed by a creation counter.
  - Order and independence from other creations are kept. The exact position in one stream is not.
  - The belt positions' draws are a separate parameter, `spots`.
- The rejection-sampling loop of `createAsteroidBelt` (components/ArcadeGame.tsx:115-118) has no termination bound. The positions it would accept are a parameter satisfying `ValidSpot`.
- The `requestAnimationFrame` loop, listener registration and cleanup, the `preventDefault` call itself (which events it applies to is `SuppressesDefault`), `target.matches` (a boolean `inFormField`), focus, and the canvas and context null checks are not modelled.
- ArcadeGame.Game.Update: `setGameState('GAMEOVER')` is modelled as taking effect at once. In the source the frame callback keeps the old state until React re-renders, so lasers and hits may still run for a frame after death.
- ArcadeGame.Game.Update: `setScore` and `setHighScore` are modelled as plain fields.
- The ship fields `blinkNum`, `blinkTime` and `explodeTime` are never read by the game logic, so they are not modelled.
- ArcadeGame.PassLasers: the laser array is a sequence value in the model. It is rebuilt by splice and indexed update, not an aliased JavaScript array.
- ArcadeGame.Ship.MoveLasers: the source moves an exploding laser and writes its position back before it splices that laser away. Only the resulting array is modelled.
- The model keeps behaviours of the source as written:
  - On the tick that clears a level, the collision loop walks the old (empty) array, because `createAsteroidBelt` assigns a new one, so there is no collision on that tick.
  - Split children may lie outside their wrap bounds until they next move.
  - The controls still run on the tick of death.
  - Exploding lasers keep moving.
- Persistence through localStorage (App.tsx:19-67) is I/O and not modelled.
- `window.scrollTo`, `scrollIntoView` and its `setTimeout` in `handleNavigate`, and the `as any` cast are not modelled. The view is a string.
- `window.confirm` in the lab's project delete, `alert` in `handleAddSong`, the `setTimeout` notifications, the draft fields being cleared after an add, and `FileReader` are not modelled. The upload handler is modelled from its result string.
- `showNotification`, the tab and view switches of the console, and `handleSubmitProject` only forward to the modelled handlers.
- The `file` field of `Song` is never read by the modelled code, so it is not modelled.
- `Date.now()` is a parameter `now: nat`.
- MusicPlayer.Player.TogglePlay: the asynchronous rollback when `play()` rejects, and the effect that plays on index change, are not modelled. The `audio` element's existence is `HasAudio`.
- MusicPlayer.Player: the playlist is fixed for the life of the player. A prop change that shrinks it under the index is not modelled.
- LabManagement.StatusColor: the status is an arbitrary string, not the source's union type.
- The network components (the Gemini service and the Oracle chat) are not modelled.
- The presentation-only components (navigation, cards, showcase, about, contact, footer) are not modelled.
- The static content and styling configuration are not modelled.
