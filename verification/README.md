# A Dafny model of the portfolio site's tile-world game

The portfolio site contains a small top-down game. The player walks a
Cambridge-style campus and enters buildings that show the author's work. The
site also has a few pure helpers around it. This project models that game
layer and those helpers as immutable Dafny datatypes with pure step functions,
and proves the properties the code promises.

The game exists in two generations. Each is modelled on its own terms.

- **The typed engine.** `TileMap`, `Collision`, `Camera`, `Input`,
  `ContinuousPlayer` (the smooth-moving `Player`), `GameLoop` and `TestMap`
  (the 20 x 15 development map). Positions, camera offsets and times are
  `real`. Out-of-range cells are EMPTY, and therefore passable.
- **The vanilla engine.** `World` (the 40 x 30 campus and four interiors),
  `GridPlayer` (the tile-stepping `Player` object, integer pixels, speed 2,
  tile 16), `Buildings` (prompt, dialog box, queue, panel, cooldown and
  visits), `Engine` (fixed-timestep loop, update gating, transitions, camera
  clamp) and `SpriteAtlas` (the sprite-sheet lookups). Here out-of-range
  cells are not walkable.
- **The site helpers.** `LpcSprites` (LPC frame arithmetic), `CoverFlow`
  (the talks carousel), `Router` (the hash router), `Landing` (the intro
  sentence) and `GamePreview` (the bouncing preview square).
- **Support.** `Wrappers` holds `Option` and `Result`. `Text` holds the
  JavaScript string operations the game uses: ASCII `toUpperCase`, `trim`
  whitespace, and `split` on one character.

Browser events become explicit inputs. Timers that fire later become explicit
"timer fired" events. The `Math.exp` smoothing factors become parameters.
Content data is an abstract value with the keys and lengths the code reads.

## Model

| member | source | states |
|---|---|---|
| TileMap.New | _archived/src-game/rendering/TileMap.ts:38-48 | construction succeeds exactly when the array has width*height entries; it then keeps the three arguments, and otherwise fails with the two lengths |
| TileMap.CellIndex | _archived/src-game/rendering/TileMap.ts:59 | the row-major index `row*width+col` of an in-range cell lies inside the tile array |
| TileMap.GetTile | _archived/src-game/rendering/TileMap.ts:55-61 | EMPTY for any cell outside the map, otherwise the row-major entry |
| TileMap.IsSolid | _archived/src-game/rendering/TileMap.ts:66-70 | solid exactly for an in-range WALL or WATER cell (the `SOLID_TILES` set); out-of-range cells are never solid |
| TileMap.PixelWidth | _archived/src-game/rendering/TileMap.ts:90-92 | the width in tiles times the rendered tile size 64 |
| TileMap.PixelHeight | _archived/src-game/rendering/TileMap.ts:98-100 | the height in tiles times 64 |
| Collision.SolidInRow | src/game/systems/Collision.ts:39-43 | the inner column scan finds a solid cell iff some column of the range is solid in that row |
| Collision.SolidInRect | src/game/systems/Collision.ts:38-44 | the row scan finds a solid cell iff some cell of the rectangle is solid |
| Collision.SpanIsOverlap | src/game/systems/Collision.ts:32-35 | the scanned columns are exactly those whose span meets the pixels x .. x+w-1 |
| Collision.IsCollidingWithTiles | src/game/systems/Collision.ts:24-46 | the early-exit double loop returns true iff some cell in columns floor(x/T)..floor((x+w-1)/T) and rows floor(y/T)..floor((y+h-1)/T) is solid |
| Collision.MoveWithCollision | src/game/systems/Collision.ts:63-86 | each axis moves by its whole delta or not at all; X is checked at (x+dx, y) and Y at the already-resolved X; a box that does not collide at the start does not collide at the result |
| Collision.Sliding | src/game/systems/Collision.ts:75-83 | with X blocked and Y free, only Y changes |
| Collision.ZeroDelta | src/game/systems/Collision.ts:71-85 | a zero delta returns the position unchanged, colliding or not |
| Camera.MaxX | src/game/core/Camera.ts:118 | the largest x offset is max(0, mapWidth - viewportWidth) |
| Camera.MaxY | src/game/core/Camera.ts:119 | the largest y offset is max(0, mapHeight - viewportHeight) |
| Camera.ClampAxis | src/game/core/Camera.ts:122-123 | max(0, min(v, hi)) lies in [0, hi], keeps in-range values and sends values below or above to the nearer end |
| Camera.ClampToBounds | src/game/core/Camera.ts:116-124 | the result is in bounds, the sizes are kept, an in-bounds camera is unchanged, and a map no larger than the viewport pins that offset to 0 |
| Camera.ClampIdempotent | src/game/core/Camera.ts:116-124 | clamping twice is clamping once |
| Camera.New | src/game/core/Camera.ts:12-33 | the constructor starts at offset (0, 0), which is already in bounds |
| Camera.Follow | src/game/core/Camera.ts:43-58 | for every lerp factor the result is in bounds; an in-range lerped offset is kept exactly; factor 0 only clamps and factor 1 is `centerOn` |
| Camera.CenterOn | src/game/core/Camera.ts:67-71 | the target lands at the viewport centre when that offset is allowed, and otherwise the offset is the nearer bound |
| Camera.WorldToScreen | src/game/core/Camera.ts:81-86 | adding the camera offset back to the screen point gives the world point |
| Camera.OriginMapsToZero | src/game/core/Camera.ts:81-86 | the camera's own offset maps to screen (0, 0) |
| Camera.SetMapBounds | src/game/core/Camera.ts:94-98 | the new map size is stored, the bounds hold again, and an offset still in range is kept |
| Camera.SetViewportSize | src/game/core/Camera.ts:106-110 | the new viewport is stored, the bounds hold again, and an offset still in range is kept |
| Input.New | _archived/src-game/core/Input.ts:11-44 | a new input has an empty key map, listens, and reads no key as pressed |
| Input.KeyDown | _archived/src-game/core/Input.ts:27-34 | a movement code becomes pressed and nothing else changes; other codes, or a detached handler, change nothing; only movement codes ever enter the map |
| Input.KeyUp | _archived/src-game/core/Input.ts:36-40 | a movement code becomes released and nothing else changes; other codes change nothing; only movement codes enter the map |
| Input.IsKeyPressedFollowsEvents | _archived/src-game/core/Input.ts:27-51 | while listening, a movement key reads as pressed after its keydown and as released after its keyup, and that keydown followed by its keyup leaves every other key's reading as it was |
| Input.GetMovementDirection | _archived/src-game/core/Input.ts:58-77 | at most one non-zero component, each in {-1, 0, 1}; up beats down beats left beats right; (0, 0) iff no movement key is pressed |
| Input.VerticalPriority | _archived/src-game/core/Input.ts:60-73 | any held vertical key gives a purely vertical direction, whatever horizontal keys are held |
| Input.IsAnyMovementKeyPressed | _archived/src-game/core/Input.ts:83-90 | the early-exit scan over the eight codes returns true iff some movement code is pressed |
| Input.Destroy | _archived/src-game/core/Input.ts:95-99 | the listeners are detached and the map is empty, so no key reads as pressed and the direction is (0, 0) |
| Input.DestroyedStaysSilent | _archived/src-game/core/Input.ts:95-97 | key events after `destroy` change nothing |
| ContinuousPlayer.New | _archived/src-game/entities/Player.ts:30-43 | the player starts at tile * 64 on both axes, so its tile is the start tile |
| ContinuousPlayer.Round | _archived/src-game/entities/Player.ts:80-81 | `Math.round` gives the integer k with v - 0.5 < k <= v + 0.5 |
| ContinuousPlayer.SnapTarget | _archived/src-game/entities/Player.ts:80-81 | the snap target is round(v/T)*T, the tile-aligned point less than half a tile away |
| ContinuousPlayer.SnapAxis | _archived/src-game/entities/Player.ts:84-90 | after easing, an axis is either exactly on its snap target or at least 0.5 away from it; for a factor in [0, 1] it lies between the old value and the target; factor 1 lands on the target and a value already there stays |
| ContinuousPlayer.LerpBetween | _archived/src-game/entities/Player.ts:85-86 | a lerp with a factor in [0, 1] stays between its endpoints |
| ContinuousPlayer.SnapKeepsTarget | _archived/src-game/entities/Player.ts:80-90 | easing never changes which tile-aligned point an axis is heading for |
| ContinuousPlayer.Update | _archived/src-game/entities/Player.ts:50-92 | with a vertical key, only y moves, by the whole speed*dt step or not at all; otherwise with a horizontal key only x does; with no key, each axis eases toward its snap target; in both branches a player free of solid tiles stays free (for an easing factor in [0, 1]) |
| ContinuousPlayer.SnapSpanInside | _archived/src-game/entities/Player.ts:80-90 | easing one axis keeps a full-tile box within the tiles it already covered on that axis |
| ContinuousPlayer.SpanShrinks | _archived/src-game/entities/Player.ts:80-90 | a position between v and a grid point less than half a tile from v covers no tile that v's box does not |
| ContinuousPlayer.SnapKeepsFree | _archived/src-game/entities/Player.ts:78-91 | a player released away from solid tiles never snaps into one |
| ContinuousPlayer.CenterX | _archived/src-game/entities/Player.ts:97-99 | the centre is half a tile (32 pixels) right of the position |
| ContinuousPlayer.CenterY | _archived/src-game/entities/Player.ts:104-106 | the centre is half a tile below the position |
| ContinuousPlayer.TileX | _archived/src-game/entities/Player.ts:111-113 | the tile column is the one whose span contains x |
| ContinuousPlayer.TileY | _archived/src-game/entities/Player.ts:118-120 | the tile row is the one whose span contains y |
| GameLoop.New | _archived/src-game/core/GameLoop.ts:10-25 | a new loop is stopped with no clock reading and no frame |
| GameLoop.Start | _archived/src-game/core/GameLoop.ts:30-36 | a no-op when running; otherwise it runs from the clock reading with the scheduled frame |
| GameLoop.Stop | _archived/src-game/core/GameLoop.ts:41-49 | a no-op when stopped; otherwise it stops and forgets the frame id, keeping the last time |
| GameLoop.IsRunningFollowsStartStop | _archived/src-game/core/GameLoop.ts:30-56 | the loop reports running after start and not after stop, whatever it was before, and stop after start, or start after stop, ends in the later call's state |
| GameLoop.ClampDelta | _archived/src-game/core/GameLoop.ts:69 | the clamped delta is at most 0.1 and at most the raw delta, and is one of the two |
| GameLoop.Tick | _archived/src-game/core/GameLoop.ts:61-79 | a stopped loop ignores the frame; a running one calls update with the clamped elapsed seconds, then render, records the time and schedules the next frame |
| GameLoop.RunningFramesCallEachOnce | _archived/src-game/core/GameLoop.ts:66-78 | over any run of frames a running loop makes one update and then one render per frame, in that order |
| GameLoop.StoppedIgnoresFrames | _archived/src-game/core/GameLoop.ts:62 | a stopped loop ignores every frame and calls nothing |
| GameLoop.SimulationNeverRunsAhead | _archived/src-game/core/GameLoop.ts:65-72 | with monotone clock readings the summed update deltas never exceed the elapsed wall-clock seconds |
| GameLoop.UpdatesAreClamped | _archived/src-game/core/GameLoop.ts:65-72 | every update delta is at most 0.1, whatever the gap between frames |
| TestMap.FlattenIndex | src/game/data/testMap.ts:38-69 | flattening rows of width 20 puts cell (r, c) at r*20 + c |
| TestMap.TestMapData | src/game/data/testMap.ts:71-77 | the 20 x 15 array has 300 tiles, so the `TileMap` constructor succeeds on it |
| TestMap.TileAt | src/game/data/testMap.ts:38-69 | reading the constructed map gives the layout's cell |
| TestMap.BorderIsWall | src/game/data/testMap.ts:38-69 | rows 0 and 14 and columns 0 and 19 are WALL, and so solid |
| TestMap.WaterExactly | src/game/data/testMap.ts:58-62 | a cell is WATER iff it is in rows 9..11 and columns 7..10 |
| TestMap.SpawnIsClear | src/game/data/testMap.ts:71-77 | the spawn (3, 3) is grass, not solid, and a full-tile box standing on it collides with nothing |
| World.ParseBuilding | js/game/world.js:45-70 | a string names a building exactly when it is one of the four `buildings` keys, and then it names that one |
| World.Fill | js/game/world.js:91-94 | a grid of the given width and height holding the fill value in every cell |
| World.BlankCampus | js/game/world.js:90-94 | before drawing, every campus cell is grass with no object, no blocking and no record |
| World.Put | js/game/world.js:99-103 | one array write changes exactly the one cell |
| World.SetTile | js/game/world.js:97-104 | off the campus nothing changes; otherwise only that cell changes, and only in the layers its arguments name; blocking can be added but never removed |
| World.ApplyAll | js/game/world.js:106-143 | a run of `setTile` calls leaves every cell no call names as it was, and a cell ends walkable iff it started walkable and no call blocked it |
| World.PathsBlockNothing | js/game/world.js:106-118 | the path `setTile` calls block no cell |
| World.FlowersBlockNothing | js/game/world.js:127-132 | the flower `setTile` calls block no cell |
| World.RiverBlocking | js/game/world.js:120-125 | the river calls block exactly columns 0..2 |
| World.TreeCmdAt | js/game/world.js:140-143 | each tree makes two blocking calls: the trunk, then the top one row above it |
| World.TreeBlocking | js/game/world.js:134-143 | the tree calls block exactly the trunk and top cells of the sixteen trees |
| World.DrawPaths | js/game/world.js:90-118 | after the grass and paths, nothing is blocked |
| World.DrawWaterAndFlowers | js/game/world.js:120-132 | after the river and flowers, exactly columns 0..2 are blocked |
| World.DrawGroundwork | js/game/world.js:90-143 | after paths, river, flowers and trees, a cell is blocked iff it is in the river or is a tree cell |
| World.BuildBuilding | js/game/world.js:168-207 | cells outside the footprint, roof, window row, door and front are unchanged; the door is a walkable DOOR with a door record; the front is walkable PATH with an entrance record; the rest of the footprint blocks; no new window is drawn in the entrance column |
| World.PlaceBuilding | js/game/world.js:146-149 | one `buildBuilding` call with the recorded footprint leaves that building's door ready and every other cell as it was |
| World.DoorsApart | js/game/world.js:45-70 | no building's footprint covers another building's door or front tile |
| World.DoorKept | js/game/world.js:146-149 | a change confined to one building's footprint keeps every other building's door ready |
| World.DrawBuildings | js/game/world.js:145-149 | after the four calls, every door is ready and no cell outside the footprints has changed |
| World.DrawSigns | js/game/world.js:151-158 | each of the five sign cells holds a blocking SIGN with its record, and no other cell changes |
| World.SignsClearOfDoors | js/game/world.js:151-158 | no sign stands on a door or on the tile in front of one |
| World.RiverUnbuilt | js/game/world.js:120-158 | the river columns hold no building and no sign |
| World.StartTilesUnbuilt | js/game/world.js:134-158 | the start tile (20, 26) and the fallback exit tile (20, 20) hold no tree, building or sign |
| World.GenerateCampusMap | js/game/world.js:85-165 | the finished campus is 40 x 30, every door and front tile is ready, the river blocks, and (20, 26) and (20, 20) are walkable |
| World.MakeInterior | js/game/world.js:218-273 | an interior is well formed with wood floor everywhere and spawn (floor(w/2), h-2) |
| World.GenerateOfficeInterior | js/game/world.js:218-274 | the office's outer walls block, and its spawn is a walkable cell without a record right above the exit record |
| World.GenerateLibraryInterior | js/game/world.js:277-340 | the library's outer walls block, and its spawn is walkable right above the exit record |
| World.GenerateLectureHallInterior | js/game/world.js:343-402 | the lecture hall's outer walls block, and its spawn is walkable right above the exit record |
| World.GenerateLabInterior | js/game/world.js:405-470 | the lab's outer walls block, and its spawn is walkable right above the exit record |
| World.LectureHallExitOnChair | js/game/world.js:382-393 | the lecture hall's exit cell (7, 11) is also a blocking chair, so that exit can only be faced, never stood on |
| World.GenerateInteriorMaps | js/game/world.js:210-215 | all four interiors exist, each enclosed with its spawn above its exit, under the names the generators give |
| World.Init | js/game/world.js:79-82 | the world starts on campus with a ready campus and ready interiors |
| World.GetCurrentMap | js/game/world.js:473-478 | the current interior when inside one that exists, otherwise the campus |
| World.IsWalkable | js/game/world.js:481-488 | walkable iff the cell is on the current map and its collision value is 0 |
| World.GetInteraction | js/game/world.js:491-498 | null off the current map, otherwise the interact cell |
| World.GetTile | js/game/world.js:523-530 | -1 off the current map, otherwise the named layer's cell |
| World.EnterBuilding | js/game/world.js:501-507 | a key with an interior moves the location there and returns that interior; any other string changes nothing and returns null |
| World.ExitBuilding | js/game/world.js:510-520 | the location becomes the campus; the spawn is one tile below the previous building's entrance, or (20, 20) when already on campus |
| World.EnterLandsAboveExit | js/game/world.js:501-507 | entering a building lands inside it on a walkable spawn with the exit record right below |
| World.InteriorWallsBlock | js/game/world.js:228-238 | inside any interior, no outer-wall cell is walkable |
| World.EnterThenExit | js/game/world.js:510-520 | entering and then leaving a building returns to campus on the walkable tile in front of its door, which carries its entrance record |
| World.ExitOnCampusIsWalkable | js/game/world.js:510-520 | leaving while on campus stays on campus at the walkable tile (20, 20) |
| World.EnterUnknownIsNoOp | js/game/world.js:501-507 | a string naming no building leaves the world unchanged and returns null |
| GridPlayer.Initial | _archived/js-game/player.js:3-47 | the object as loaded stands still on (20, 20), pixel-aligned, frame 0, no key held and no nearby record |
| GridPlayer.OrDefault | _archived/js-game/player.js:51-52 | `v \|\| 20`: a missing or zero coordinate becomes 20, any other value is kept |
| GridPlayer.Init | _archived/js-game/player.js:50-62 | the player stands still on the given tile (20 for a missing or zero coordinate), pixel-aligned and facing down; animation flag, timer, keys and nearby record are kept |
| GridPlayer.ControlOf | _archived/js-game/player.js:70-100 | a key drives up, down, left, right or action exactly when it is one of that control's key names |
| GridPlayer.SetControl | _archived/js-game/player.js:143-196 | a D-pad or action-button event sets its one control and leaves the others as they were |
| GridPlayer.KeyDown | _archived/js-game/player.js:67-101 | an auto-repeat or an unknown key changes nothing; otherwise exactly the key's control becomes held |
| GridPlayer.KeyUp | _archived/js-game/player.js:103-130 | an unknown key changes nothing; otherwise exactly the key's control is released |
| GridPlayer.KeyDownThenUp | _archived/js-game/player.js:67-130 | pressing and releasing a key leaves its control released and every other control as before |
| GridPlayer.Chosen | _archived/js-game/player.js:227-239 | no direction exactly when no movement key is held; up wins over down, down over left, left over right |
| GridPlayer.CheckMovement | _archived/js-game/player.js:222-255 | without a movement key nothing changes; otherwise the player turns to the chosen way, and starts a step to the neighbour tile exactly when that tile is walkable |
| GridPlayer.Update | _archived/js-game/player.js:206-219 | keys are untouched; a resting player keeps its tile and, with no movement key held, its pixels and stays at rest; a moving player is on its old tile or its target tile |
| GridPlayer.ContinueMovement | _archived/js-game/player.js:258-289 | keys are untouched; the player ends on its old tile or on its target; on arrival with no movement key held it stops walking and animating and shows frame 0 |
| GridPlayer.Approach | _archived/js-game/player.js:263-273 | one pixel axis moves at most 2 pixels toward the target and never passes it |
| GridPlayer.UpdateAnimation | _archived/js-game/player.js:292-300 | while animating the timer counts up and every eighth update the frame advances modulo 4; otherwise nothing changes |
| GridPlayer.CheckNearbyInteraction | _archived/js-game/player.js:303-323 | only the nearby record changes: the record of the tile stood on, else that of the tile faced |
| GridPlayer.Interact | _archived/js-game/player.js:326-331 | the nearby record, or none |
| GridPlayer.Teleport | _archived/js-game/player.js:334-345 | the player stands still on (x, y), pixel-aligned, facing the given way, frame 0, with keys, timer and nearby record kept |
| GridPlayer.ClearAction | _archived/js-game/player.js:358-360 | the action control is released and every other field is kept |
| GridPlayer.CheckMovementKeepsInv | _archived/js-game/player.js:244-254 | starting a step from rest keeps the player on walkable ground, with a walkable target one tile away |
| GridPlayer.UpdateKeepsInv | _archived/js-game/player.js:206-219 | one update keeps the invariant: the tile stood on is walkable, a step targets a walkable neighbour with the pixel position between the two tiles, and frame and timer stay in range |
| GridPlayer.AnimateAndLookKeepInv | _archived/js-game/player.js:214-218 | animating and looking for a record keep the invariant and change no position, target, step flag or key |
| GridPlayer.ContinueKeepsInv | _archived/js-game/player.js:258-289 | continuing a step keeps the invariant |
| GridPlayer.ArriveKeepsInv | _archived/js-game/player.js:276-288 | the update that reaches the target tile keeps the invariant, whether the player then stops or steps on |
| GridPlayer.SlideKeepsInv | _archived/js-game/player.js:262-273 | a move short of the target stays between the step's two tiles |
| GridPlayer.ApproachAxis | _archived/js-game/player.js:263-273 | a slide short of the target stays between the step's ends, an even number of pixels from the target |
| GridPlayer.UpdatesKeepInv | _archived/js-game/player.js:206-219 | any number of updates on one map keeps the invariant, so the player never stands on a blocked tile |
| GridPlayer.MidStepUpdate | _archived/js-game/player.js:258-274 | with more than 2 pixels to go, an update moves 2 pixels closer and stays in the same step |
| GridPlayer.FinalStepUpdate | _archived/js-game/player.js:275-288 | the update that covers the last pixels lands on the target tile, and with no key held the player stops and the frame resets to 0 |
| GridPlayer.StepLandsAfter | _archived/js-game/player.js:258-288 | with 2k pixels to go, the step lasts k - 1 more updates and lands on the target at update k |
| GridPlayer.StartedStep | _archived/js-game/player.js:244-254 | the update that starts a step leaves a full tile, 16 pixels, to travel toward a neighbour tile |
| GridPlayer.StepTakesEightUpdates | _archived/js-game/player.js:258-288 | a step started from rest takes exactly 8 more updates: mid-step after 0 to 7 of them, on the target after the eighth |
| Buildings.Initial | js/game/buildings.js:4-31 | after `init` no dialog, panel or prompt is shown, nothing is queued, the cooldown is off and nothing is visited |
| Buildings.InteractionName | js/game/buildings.js:151-164 | every record gets a non-empty name for the prompt |
| Buildings.PromptFor | js/game/buildings.js:123-139 | an exit reads "Exit", a named door or entrance reads its name, and the action line matches the type (enter, read, exit or interact), on mobile or not |
| Buildings.HidePrompt | js/game/buildings.js:166-172 | the prompt is hidden, the current interaction forgotten, and nothing else changes |
| Buildings.UpdatePrompt | js/game/buildings.js:118-148 | the prompt shows exactly when there is a record and no dialog or panel is open, and then it shows that record's lines; otherwise it is hidden |
| Buildings.ShowDialog | js/game/buildings.js:327-339 | the box opens with that title and text, the prompt is hidden, and queue, panel, visits and cooldown are kept |
| Buildings.CloseDialog | js/game/buildings.js:352-356 | the box closes and nothing else changes |
| Buildings.IsDialogOpenCases | js/game/buildings.js:327-404 | showing a dialog or a content panel makes the UI report a dialog open; closing one leaves it reported open exactly when the other is still open; the initial UI has none open |
| Buildings.AdvanceDialog | js/game/buildings.js:342-349 | the head of the queue is shown and removed from it; an empty queue closes the box |
| Buildings.HandleDialogAction | js/game/buildings.js:364-370 | reports true exactly when the box is open, and then advances; otherwise nothing changes |
| Buildings.QueueDrains | js/game/buildings.js:342-349 | with the box open, after k advances (k at most the queue's length) the k-th queued dialog is shown, the box is still open and the later dialogs are still queued in order |
| Buildings.QueueClosesAfterAll | js/game/buildings.js:342-356 | with N dialogs queued, the box stays open through N advances and advance N + 1 closes it |
| Buildings.AdvancesSplit | js/game/buildings.js:342-349 | advance n + 1 is one advance after the first n |
| Buildings.ShowContentPanel | js/game/buildings.js:373-390 | without a panel element nothing happens; otherwise the panel opens with that title and body, the prompt hides and the dialog box is kept |
| Buildings.ClosePanel | js/game/buildings.js:393-404 | without a panel element nothing happens; otherwise only the panel closes |
| Buildings.KeyPressed | js/game/buildings.js:69-73 | Escape closes an open panel; any other key, or Escape with the panel closed, changes nothing |
| Buildings.PanelOpenThenClose | js/game/buildings.js:69-73 | opening the panel and pressing Escape leaves the panel closed and the dialog box as before |
| Buildings.ContentKey | js/game/buildings.js:226 | the room is the first `.`-separated part and the item the second, or "undefined" when there is none |
| Buildings.ShowObjectContent | js/game/buildings.js:224-232 | a non-empty `gameContent` entry for the room and item opens under the item's formatted title; otherwise nothing changes |
| Buildings.ContentKeyOfDotted | js/game/buildings.js:226 | `room.item`, neither part holding a dot, names exactly that room and item |
| Buildings.ContentKeyWithoutDot | js/game/buildings.js:226 | a key without a dot names the whole key as room and "undefined" as item |
| Buildings.ShowIndexed | js/game/buildings.js:243-324 | each indexed interaction opens the dialog its list chooses for the index |
| Buildings.IndexedShowsItemIffInRange | js/game/buildings.js:243-324 | an item is shown exactly when the index is in the list's range, and it is the item at that index; otherwise the list's plain fallback text is shown |
| Buildings.FallbackIsPlain | js/game/buildings.js:253-323 | every out-of-range fallback is plain text, not item HTML |
| Buildings.TalksFallBackToMedia | js/game/buildings.js:293-312 | the theatre's list is `talks`, or `media` when there is no `talks` list, while a single talk then has no list at all |
| Buildings.HandleInteraction | js/game/buildings.js:175-221 | under the cooldown nothing happens and there is no result; otherwise the cooldown starts, even for no record; a record gets its type's result (enter for doors and entrances, exit, dialog for content records, none for an unknown type), and only a dialog result changes more than the cooldown |
| Buildings.CooldownExpired | js/game/buildings.js:179 | the 200 ms timer clears the cooldown and nothing else |
| Buildings.DispatchByType | js/game/buildings.js:183-220 | outside the cooldown the result depends on the record type alone; a non-dialog result changes only the cooldown, and a dialog result for any record but an object leaves the box open |
| Buildings.Dispatch | js/game/buildings.js:183-220 | doors and entrances give an enter action for their building, an exit gives exit, every content type gives a dialog action, and any other type gives nothing |
| Buildings.SecondActionIgnored | js/game/buildings.js:176-179 | a second action before the cooldown timer fires changes nothing and gives no result |
| Buildings.RecordVisit | js/game/buildings.js:457-461 | the key becomes visited, and the result is true exactly when it was not visited before |
| Buildings.VisitsAreRemembered | js/game/buildings.js:457-466 | only the first visit to a key counts as first; other keys are unaffected |
| Buildings.HasVisited | js/game/buildings.js:457-466 | a building counts as visited exactly when recording a visit to it would not be a first visit |
| Buildings.WelcomeName | js/game/buildings.js:470-471 | the building's name for a `buildings` key, else "this building" |
| Buildings.CampusWelcome | js/game/buildings.js:469-491 | no campus building has a table entry, so each gets "Welcome to NAME!" on a first visit and "Welcome back to NAME!" after |
| Buildings.GetWelcomeMessage | js/game/buildings.js:469-491 | a key with an entry in the first-visit table (first visit) or the return-visit table (otherwise) gets that entry; any other key gets "Welcome to " (first visit) or "Welcome back to " (return) followed by its name, or "this building", and "!"; so the generic message starts with "Welcome" and ends with the name and "!" |
| Buildings.Greeting | js/game/buildings.js:488-490 | the generic greeting keeps the "Welcome" opening and ends with the name and "!" |
| Engine.Init | js/game/engine.js:33-60 | after `init` the loop is stopped, the player stands at the campus gate (20, 26) on campus, and the game invariant holds |
| Engine.Start | js/game/engine.js:86-91 | a running engine is unchanged; a stopped one starts running from the given clock reading |
| Engine.Stop | js/game/engine.js:94-96 | the engine stops and nothing else changes |
| Engine.UpdateCamera | js/game/engine.js:195-208 | the camera is never left of or above the map, never past the far edge unless pinned at 0, and it centres on the player whenever that fits; only the camera position changes |
| Engine.CameraShowsOnlyMap | js/game/engine.js:203-207 | when the map is at least as large as the view, the whole view lies inside the map |
| Engine.EnterBuilding | js/game/engine.js:172-185 | an unknown building changes nothing; otherwise the world moves inside, the visit is recorded, the player stands on the spawn facing up, and the welcome dialog opens under the interior's name |
| Engine.ExitBuilding | js/game/engine.js:188-192 | the world returns to campus and the player stands on the returned spawn facing down |
| Engine.HandleInteractionResult | js/game/engine.js:160-169 | 'enter' enters, 'exit' exits, a dialog result does nothing; the maps, camera and content are never changed |
| Engine.Target | js/game/engine.js:136 | the prompt's current interaction, else the player's nearby record |
| Engine.Respond | js/game/engine.js:137-142 | handling a record changes no map, camera or content |
| Engine.Act | js/game/engine.js:134-144 | after the action branch the action key is released, and no map, camera or content has changed |
| Engine.Update | js/game/engine.js:120-157 | with a dialog or panel open, only the action key acts, by advancing the dialog and releasing the key; without it nothing changes; maps and content are never changed |
| Engine.FreeUpdate | js/game/engine.js:130-156 | the ungated branch changes no map or content |
| Engine.FollowPrompt | js/game/engine.js:148-153 | only the prompt state changes: it follows the nearby record while no dialog or panel is open, and is hidden otherwise |
| Engine.EnterKeepsInv | js/game/engine.js:172-185 | entering a building keeps the game invariant |
| Engine.ExitKeepsInv | js/game/engine.js:188-192 | leaving a building keeps the game invariant |
| Engine.RespondKeepsInv | js/game/engine.js:137-142 | handling a record keeps the game invariant |
| Engine.ActKeepsInv | js/game/engine.js:134-144 | the action branch keeps the game invariant |
| Engine.ReleaseKeepsInv | js/game/engine.js:143 | releasing the action key keeps the game invariant |
| Engine.UpdateKeepsInv | js/game/engine.js:120-157 | every update keeps the game invariant, so the player always stands on a walkable tile |
| Engine.IterateKeepsInv | js/game/engine.js:108-111 | repeating a step that keeps the invariant keeps it |
| Engine.UpdatesKeepInv | js/game/engine.js:108-111 | any number of updates keeps the game invariant |
| Engine.Loop | js/game/engine.js:99-117 | a stopped engine ignores the frame; a running one adds the elapsed time, runs floor(total / (1000/60)) updates and keeps the remainder in [0, 1000/60); a negative total runs none |
| Engine.FloorDrops | js/game/engine.js:108-111 | each update lowers the accumulator's whole part, so the loop ends |
| Engine.FloorOfRemainder | js/game/engine.js:108-111 | a remainder in [0, 1000/60) fixes the number of updates as the floor of the quotient |
| SpriteAtlas.Lookup | js/game/sprites.js:108-109 | a key is found exactly when some entry has it, and then the value of its first entry |
| SpriteAtlas.LookupFindsFirst | js/game/sprites.js:108-109 | looking up an entry's key, with no earlier entry sharing it, finds that entry |
| SpriteAtlas.LookupFindsEntry | js/game/sprites.js:108-109 | with distinct keys, looking up any entry's key finds it |
| SpriteAtlas.Get | js/game/sprites.js:107-114 | a found tile comes from the town sheet |
| SpriteAtlas.TileNameNew | js/game/sprites.js:21-51 | no tile name of `TILE_COORDS` repeats an earlier one |
| SpriteAtlas.TileNamesDistinct | js/game/sprites.js:21-51 | the tile names are distinct |
| SpriteAtlas.GetFollowsTable | js/game/sprites.js:107-114 | a name is found exactly when `TILE_COORDS` lists it, and then with its own rectangle; any other name gives null |
| SpriteAtlas.JsRem | js/game/sprites.js:118 | JavaScript's `%`: the remainder has the sign of the dividend and is smaller than the divisor in size |
| SpriteAtlas.GetCharacterFrame | js/game/sprites.js:117-127 | a found frame comes from the NPC sheet and is 16 by 32 |
| SpriteAtlas.DirectionRowName | js/game/sprites.js:56-80 | the four directions and the four sheet rows correspond one to one |
| SpriteAtlas.CharacterEntry | js/game/sprites.js:56-80 | entry 4 * row + k of `CHARACTER_COORDS` is frame k of that row's direction, at (16k, 1408 + 32 row), 16 by 32 |
| SpriteAtlas.CharacterEarlierKeysDiffer | js/game/sprites.js:56-80 | no earlier entry carries the same direction and frame |
| SpriteAtlas.CharacterFrameFormula | js/game/sprites.js:117-127 | a known direction and a non-negative frame give column frame mod 4 of the direction's row |
| SpriteAtlas.UnknownDirectionIsNull | js/game/sprites.js:118-120 | any other direction gives null |
| SpriteAtlas.NegativeFrameIsNull | js/game/sprites.js:118-120 | a negative frame that is not a multiple of 4 names no key, so it gives null |
| SpriteAtlas.CharacterFramePeriodic | js/game/sprites.js:118 | the frames repeat every 4 |
| LpcSprites.DirectionRow | src/utils/sprites.ts:17-22 | every direction's walk cycle is in rows 8 to 11 |
| LpcSprites.RowIdentifiesDirection | src/utils/sprites.ts:17-22 | each direction has its own row, so the row gives the direction back |
| LpcSprites.GetCharacterFrame | src/utils/sprites.ts:12-30 | the row is the direction's, the size 64 by 64, and the column frame mod 9; a negative frame gives a non-positive column, as JavaScript's `%` does |
| LpcSprites.CharacterFramePeriodic | src/utils/sprites.ts:26 | the walk cycle repeats every 9 frames |
| LpcSprites.GetTile | src/utils/sprites.ts:33-44 | the rectangle is square, with side the tile size or 32 when it is omitted |
| LpcSprites.GetTileRecoversTile | src/utils/sprites.ts:38-43 | with a positive tile size, the rectangle's corner gives the tile back |
| LpcSprites.MulDivCancel | src/utils/sprites.ts:39-40 | multiplying by the tile size and dividing again gives the tile index back |
| LpcSprites.AdjacentTilesAbut | src/utils/sprites.ts:38-43 | neighbouring tiles sit exactly one tile size apart |
| CoverFlow.RenderCoverFlow | src/components/CoverFlow/CoverFlow.ts:20-67 | one slide and one dot per talk; slide i gets gradient i mod 6; only the first slide is centred and the rest hidden; only the first dot is active; prev is disabled, and next exactly when there is at most one talk |
| CoverFlow.SlideOffsetMeaning | src/components/CoverFlow/CoverFlow.ts:85-92 | a slide is shown exactly when within 2 of the centre, its offset is its distance, and offset 0 is the centre alone |
| CoverFlow.SlideOffset | src/components/CoverFlow/CoverFlow.ts:84-93 | a shown slide's offset lies within two of the current slide and adds up with it to the slide's index |
| CoverFlow.UpdateSlides | src/components/CoverFlow/CoverFlow.ts:83-104 | each slide gets its offset from the centre; prev is disabled exactly at index 0 and next exactly at the last index |
| CoverFlow.ViewOfCurrent | src/components/CoverFlow/CoverFlow.ts:83-104 | with the index in range, exactly the current dot is active, exactly the current slide is centred, and the shown slides are those within 2 |
| CoverFlow.RenderThenInit | src/components/CoverFlow/CoverFlow.ts:20-67 | the markup agrees with the first `updateSlides` on buttons and dots; the slides differ only at positions 1 and 2, which the markup hides |
| CoverFlow.Init | src/components/CoverFlow/CoverFlow.ts:69-81 | no carousel without slides; otherwise index 0 of the slides |
| CoverFlow.GoTo | src/components/CoverFlow/CoverFlow.ts:106-110 | an index in range becomes current; any other is ignored |
| CoverFlow.GoToStaysInRange | src/components/CoverFlow/CoverFlow.ts:106-110 | the index stays among the slides, and is either the requested index or the old one |
| CoverFlow.DisabledButtonsDoNothing | src/components/CoverFlow/CoverFlow.ts:96-114 | prev at the first slide and next at the last do nothing; an enabled button moves one slide |
| CoverFlow.OnWheel | src/components/CoverFlow/CoverFlow.ts:191-216 | every wheel event re-arms the 300 ms reset timer and keeps the slide count |
| CoverFlow.WheelScrollsPageOnlyPastEnds | src/components/CoverFlow/CoverFlow.ts:211-215 | the page scrolls only when the carousel is at an end and the wheel pushes past it |
| CoverFlow.Step | src/components/CoverFlow/CoverFlow.ts:113-216 | no event changes the slide count or takes the index out of range |
| CoverFlow.StepsKeepInv | src/components/CoverFlow/CoverFlow.ts:106-216 | however the visitor interacts, the index stays among the slides |
| CoverFlow.WheelPastThresholdSteps | src/components/CoverFlow/CoverFlow.ts:195-204 | outside the cooldown, a total reaching 120 steps once toward its sign, resets the total and starts the cooldown |
| CoverFlow.WheelBelowThresholdAccumulates | src/components/CoverFlow/CoverFlow.ts:192-195 | otherwise the wheel only adds to the total, and the index stays |
| CoverFlow.CooldownHoldsIndex | src/components/CoverFlow/CoverFlow.ts:195-203 | while the cooldown lasts, no run of wheel events moves the index |
| CoverFlow.WheelEvents | src/components/CoverFlow/CoverFlow.ts:191 | one wheel event per delta pair, in order |
| CoverFlow.SwipeSteps | src/components/CoverFlow/CoverFlow.ts:154-182 | a mostly sideways move over 10 pixels, ending over 50 pixels left of its start, goes to the next slide; right, to the previous; in between, nowhere |
| CoverFlow.OnTouchEnd | src/components/CoverFlow/CoverFlow.ts:171-182 | without a swipe in progress nothing changes; otherwise the index moves by at most one, the slide count is kept and a carousel whose index is in range stays so |
| CoverFlow.TapDoesNotMove | src/components/CoverFlow/CoverFlow.ts:154-182 | a touch without a qualifying move does not change the index |
| Router.WordRun | src/lib/router.ts:33 | the length of the leading run of `\w` characters |
| Router.Compile | src/lib/router.ts:33 | a pattern compiles to no more segments than it has characters, and to none exactly when it is empty |
| Router.CompileLitStep | src/lib/router.ts:33 | a pattern not starting a parameter compiles to its first character as a literal followed by the rest's segments |
| Router.WellFormedLitCons | src/lib/router.ts:33 | a literal in front of well-formed segments keeps them well formed |
| Router.CompileWellFormed | src/lib/router.ts:33 | each `:name` becomes a named parameter that no word character follows; a leading literal is the pattern's first character |
| Router.WellFormedParamStep | src/lib/router.ts:33 | a `:name` at the front becomes a named parameter and keeps the shape |
| Router.WellFormedLitStep | src/lib/router.ts:33 | any other first character becomes a literal and keeps the shape |
| Router.UnparseCompile | src/lib/router.ts:33 | compiling loses nothing: writing the segments back gives the pattern |
| Router.UnparseParamStep | src/lib/router.ts:33 | the same, for a pattern starting with a parameter |
| Router.SplitAtName | src/lib/router.ts:33 | a pattern starting with `:` is the colon, the name and the rest |
| Router.UnparseCons | src/lib/router.ts:33 | writing back a segment list is writing its head, then the rest |
| Router.UnparseLitStep | src/lib/router.ts:33 | the same, for a pattern starting with a literal |
| Router.SegmentRun | src/lib/router.ts:33 | the length of the leading run of non-'/' characters |
| Router.MatchFrom | src/lib/router.ts:35 | a match yields one capture per parameter |
| Router.TryLengths | src/lib/router.ts:35 | the same when the capture lengths are tried from longest to shortest |
| Router.MatchSound | src/lib/router.ts:35 | a match fills each parameter with a non-empty, '/'-free capture so that the pattern spells the path |
| Router.TryLengthsSound | src/lib/router.ts:35 | each tried length gives a sound match |
| Router.MatchComplete | src/lib/router.ts:35 | whenever some captures spell the path, the matcher finds a match |
| Router.RunCoversCapture | src/lib/router.ts:33 | a capture at the front of a string lies within its leading non-'/' run |
| Router.TryLengthsReaches | src/lib/router.ts:35 | trying lengths downward finds a match when some length works |
| Router.Add | src/lib/router.ts:30-38 | the new route goes after all earlier ones and the current path is kept |
| Router.PathOf | src/lib/router.ts:54 | the hash without its '#', or "/" when that is empty |
| Router.FirstMatch | src/lib/router.ts:60-66 | the first route from the given one on that matches, and none only when no such route matches |
| Router.RouteHash | src/lib/router.ts:53-70 | the same path as last time is skipped with nothing changed; a new path is recorded and always acted on; a dispatched index names a route |
| Router.CurrentPathTracksRoutes | src/lib/router.ts:53-89 | after routing a hash the current path is that hash's path, and adding a route leaves the current path alone |
| Router.RouteDispatchesFirstMatch | src/lib/router.ts:53-70 | a new path goes to the first matching route, and home exactly when no route matches |
| Router.RouteTwiceSkips | src/lib/router.ts:56-58 | routing the same hash twice acts once |
| Router.InitialRouteNeverSkips | src/lib/router.ts:44-48 | the route of `init` never skips |
| Router.AddKeepsEarlierMatches | src/lib/router.ts:30-38 | adding a route never takes a path from an earlier route |
| Router.FirstMatchPrefix | src/lib/router.ts:60-66 | appending routes keeps an earlier first match |
| Router.Lits | src/lib/router.ts:33 | text without a parameter compiles to one literal per character |
| Router.CompileLiteralPrefix | src/lib/router.ts:33 | text without `:` compiles to its literals ahead of the rest |
| Router.MatchLiteralPrefix | src/lib/router.ts:35 | leading literals match their own text and leave the rest to the remaining segments |
| Router.CompileParam | src/lib/router.ts:33 | `:name` compiles to one parameter named `name` |
| Router.WordRunAll | src/lib/router.ts:33 | a name made of word characters is read whole |
| Router.CompileTrailingParam | src/lib/router.ts:33 | `/publication/:id`-style patterns compile to their literals and one parameter |
| Router.ParamTakesAll | src/lib/router.ts:33-35 | a lone parameter captures the whole '/'-free path |
| Router.TrailingParamMatches | src/lib/router.ts:33-63 | such a pattern matches its text plus any capture, and the handler gets that capture under the parameter's name |
| Router.GroupsOfLiterals | src/lib/router.ts:63 | literal segments add no groups |
| Landing.FirstDot | src/components/Landing/Landing.ts:18 | the position of the first '.', with none before it; none when there is no '.' |
| Landing.MatchIsFirstSentence | src/components/Landing/Landing.ts:18 | the matcher finds exactly a prefix of two or more characters whose only '.' is its last |
| Landing.MatchFirstSentence | src/components/Landing/Landing.ts:18 | a match is a first sentence of the text, and no match means the text has no first sentence at all |
| Landing.SentenceHasOneDot | src/components/Landing/Landing.ts:18 | a found sentence holds exactly one '.' |
| Landing.DotsOfDotless | src/components/Landing/Landing.ts:18 | text without '.' counts no dots |
| Landing.DotsAppend | src/components/Landing/Landing.ts:18 | dots add up over concatenation |
| Landing.GetIntroText | src/components/Landing/Landing.ts:15-22 | the matched first sentence of the first paragraph, else the fixed fallback sentence |
| Landing.IntroCases | src/components/Landing/Landing.ts:15-22 | a paragraph with a '.' after its first character gives the sentence up to that '.'; one that is empty, starts with '.' or has no '.' gives the fallback |
| Landing.OnlyFirstParagraph | src/components/Landing/Landing.ts:16 | only the first paragraph affects the intro |
| GamePreview.Update | _archived/src-landing/GamePreview.ts:142-151 | the square steps 2 pixels along its heading, and heads left at or past 240, right at or below 60, otherwise unchanged |
| GamePreview.InitialInv | _archived/src-landing/GamePreview.ts:165-169 | the start (150, 156), heading right, is on the path |
| GamePreview.UpdateKeepsInv | _archived/src-landing/GamePreview.ts:142-151 | one tick keeps the square on the path between the edges, an even column, already turned on an edge |
| GamePreview.StaysOnPath | _archived/src-landing/GamePreview.ts:142-151 | any number of ticks keeps the square between 60 and 240 on its row |
| GamePreview.NeverLeavesPath | _archived/src-landing/GamePreview.ts:142-169 | from the start, the square never leaves x in [60, 240] on row 156 |
| GamePreview.WalksToEdge | _archived/src-landing/GamePreview.ts:142-151 | heading right short of the edge, n ticks move exactly 2n pixels |
| GamePreview.StepsInside | _archived/src-landing/GamePreview.ts:142-151 | a tick short of the right edge moves 2 pixels right and keeps the heading |
| GamePreview.FirstTurn | _archived/src-landing/GamePreview.ts:142-169 | 45 ticks after the start the square stands on the right edge, heading back |
| GamePreview.UpdatesSplit | _archived/src-landing/GamePreview.ts:181-188 | a + b ticks are a ticks and then b more |
| Text.ToUpper | js/game/buildings.js:238 | an ASCII lower-case letter becomes its capital; every other character is kept |
| Text.RemoveSpaces | js/game/buildings.js:237 | the result is no longer than the input and holds no space |
| Text.SpaceCapsAppend | js/game/buildings.js:237 | the global replace works character by character, so it distributes over concatenation |
| Text.SpaceCapsNoUpper | js/game/buildings.js:237 | text without capitals is unchanged |
| Text.CapFirst | js/game/buildings.js:238 | the length is kept; the first character is capitalised unless it is a line terminator, and the rest is kept |
| Text.Trim | js/game/buildings.js:239 | the result neither starts nor ends with whitespace |
| Text.TrimStart | js/game/buildings.js:239 | a suffix of the input, without leading whitespace, having dropped only whitespace |
| Text.TrimEnd | js/game/buildings.js:239 | a prefix of the input, without trailing whitespace, having dropped only whitespace |
| Text.Split | js/game/buildings.js:226 | at least one part, and no part holds the separator |
| Text.JoinSplit | js/game/buildings.js:226 | splitting loses nothing: joining the parts with the separator gives the string back |
| Text.SplitNoSeparator | js/game/buildings.js:226 | a string without the separator is a single part |
| Text.SplitTwo | js/game/buildings.js:226 | two separator-free pieces joined by the separator split back into those two |
| Text.SpaceCapsFacts | js/game/buildings.js:237 | with no whitespace in the input, the inserted spaces are the only change, one per capital |
| Text.TrimKeepsNonSpaces | js/game/buildings.js:239 | trimming text whose only whitespace is spaces removes only spaces |
| Text.TrimStartKeepsNonSpaces | js/game/buildings.js:239 | the same for the start |
| Text.OnlySpacesDrop | js/game/buildings.js:239 | a suffix of such text is again such text |
| Text.TrimEndKeepsNonSpaces | js/game/buildings.js:239 | the same for the end |
| Text.TrimUnchanged | js/game/buildings.js:239 | text without whitespace at either end is its own trim |
| Text.TrimIdempotent | js/game/buildings.js:239 | trimming twice is trimming once |
| Text.AllSpacesPrefix | js/game/buildings.js:239 | dropping leading spaces keeps the non-space text |
| Text.AllSpacesSuffix | js/game/buildings.js:239 | dropping trailing spaces keeps the non-space text |
| Text.FormatTitle | js/game/buildings.js:235-240 | a title neither starts nor ends with whitespace |
| Text.FormatTitleKeepsLetters | js/game/buildings.js:235-240 | for a key without whitespace, the title is the key with its first letter capitalised, plus spaces only |
| Text.FormatTitleExample | js/game/buildings.js:235-240 | `readingDesk` becomes `Reading Desk` |
| Text.SpaceCapsAround | js/game/buildings.js:237 | a single capital between two runs without capitals gets one space before it |
| Text.SpaceCapsUpperHead | js/game/buildings.js:237 | a capital followed by text without capitals gets one space before it and nothing else changes |

## Where the code and its description differ

The model follows the code in each of these cases.

- The comment above the intro regex in src/components/Landing/Landing.ts:17 says the sentence must be followed by a space or the end of the text. The regex on line 18 does not check that. `Landing.MatchFirstSentence` stops at the first '.', whatever follows it.
- In the lecture hall the exit cell (7, 11) is also a solid chair. `World.LectureHallExitOnChair` states this, so no lemma assumes that exit cells are walkable.
- `World.exitBuilding` returns (20, 20) whenever the previous location is not a building, including a second exit while already on campus.

## Left out

- Drawing and the DOM are not modelled: canvas rendering, `render`/`renderTile`/`renderPlayer`, `resize`, the preview's drawing, the prompt and panel HTML, `createModeToggle`, focus trapping, `updateLocationDisplay` and the loading screen. They are browser side effects. What they show is modelled as state: prompt text, dialog title and body, slide offsets and disabled buttons.
- `requestAnimationFrame`, `setInterval` and `setTimeout` are not modelled as scheduling. A frame is a call with its timestamp. A timer firing is an explicit event: `Buildings.CooldownExpired`, and the wheel-reset and cooldown events of `CoverFlow.Step`. `startPreviewAnimation`/`stopPreviewAnimation` are left out beyond the interval's tick (`GamePreview.Update`).
- Sprite-sheet `Image` loading (`loadSpriteSheet`) is I/O and is left out. Content fetching is also left out: content is an abstract value holding only the keys and list lengths the code reads.
- `Math.exp` is not modelled: the smoothing factors of `Camera.follow` and the player's snap are parameters in (0, 1].
- Floating point is not modelled. Positions, camera offsets and times are exact `real`s, so IEEE rounding is absent.
- Engine.Update: as written, js/game/engine.js:149 calls `World.checkNearbyInteractions`, which js/game/world.js does not define. The call throws a TypeError on every update made while no dialog or panel is open. The throw comes after `Player.update` and the action handling, so `updatePrompt`, `updateCamera`, the accumulator decrement (js/game/engine.js:110), `render` and the next `requestAnimationFrame` (js/game/engine.js:116) never run, and the loop stops. The model does not follow this. `Engine.Update` replaces the call with the `nearby` parameter, an unconstrained scanner from a world and a tile to an optional record, so the rest of the update proceeds. Nothing is assumed about the scanner's result or scan order.
- Engine.Loop: states the accumulator result in exact reals with `fixedDelta` = 1000/60 exactly, not in doubles.
- Date parsing and locale formatting are left out: `formatDate`, the `format*List` helpers and the `show*Panel` functions that use them. The indexed dialogs model only which item is shown, as a `Body` constructor, not its HTML.
- `getBuildingInfo` and `world.js getTileSprite` are rendering lookups and are left out. `getTileSprite` names two tiles that `TILES` does not define.
- `_archived/js-game/sprites.js` is not modelled separately: it has the same lookup logic as js/game/sprites.js with other tables. `_archived/src-game/Game.ts` is only a composition root.
- GridPlayer.SetControl: the touch and D-pad handlers are modelled only by the control they set or release; touch coordinates and `preventDefault` are left out.
- GridPlayer.Teleport: the default `direction = 'down'` (_archived/js-game/player.js:334) is not modelled; the direction is always an argument, as at both calls, js/game/engine.js:178 and 190, which pass it.
- Buildings.InteractionName: states only that the name is non-empty, not which of the type's label, the record's id or its name is used.
- Buildings: `currentDialog` is never read in js/game/buildings.js and is left out. No code in js/game/buildings.js adds to the dialog queue, so the queue lemmas hold for any queue.
- Buildings: an interaction of a type the code does not know is the single constructor `Other(kind)`. Its dispatch is null and its prompt reads "interact".
- Buildings.ContentKey: when the key has no '.', JavaScript's `split` gives no second part, and the template then reads it as the text "undefined". The model uses that text as the item key.
- Buildings.GetWelcomeMessage: the default `isFirstVisit = true` (js/game/buildings.js:469) is not modelled; the flag is always an argument, as at its one call, js/game/engine.js:182, which passes it.
- Text.ToUpper: covers ASCII letters only. `toUpperCase` on other characters (for example 'ß' becoming "SS") is not modelled.
- Object-key quirks of JavaScript (`__proto__` and inherited properties in a lookup table) are not modelled. The tables are Dafny maps and association lists.
- World: the source stores each layer as one flat row-major array of width * height cells, read and written at `y * width + x` (js/game/world.js:91-94, 223-226, 486-487, 528-529). The model stores a sequence of rows, read and written at `[y][x]`. The two agree only because every write lands inside the map: `setTile` checks its bounds, and the direct writes of `buildBuilding` and the interior generators stay in range. An out-of-range flat index would alias a cell of another row, or grow the array, and the model does not represent that. Every query requires `MapsWellFormed`, which the generated maps always satisfy.
- World.BuildBuilding: requires `BuildFits`, that the building and its entrance lie inside the campus. The source does not check its index arithmetic, but all four calls in js/game/world.js:146-149 satisfy this.
- Router: route handlers are indices into the route list, not closures. A handler's effect is outside the router.
- Router.Add: pattern text is compiled as literal characters and `:name` parameters. Other regular-expression metacharacters in a pattern, and a parameter name used twice, are not modelled.
- Landing.GetIntroText: requires a non-empty bio. With an empty bio the source reads `undefined.match` and throws.
- CoverFlow.RenderCoverFlow: models the structure of the markup: slides, gradients, offsets, dots and buttons. The talk's title, venue and date text are left out.
- Engine.Updates: repeats `StepOrStay`, which is `Engine.Update` when the maps are well formed and no change otherwise. The maps are always well formed (`Engine.GameInv`), so the guard never changes a result; it exists so that the step is a total function that `Iterate` can repeat.
