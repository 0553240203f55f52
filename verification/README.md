# Bonfire scene: a Dafny model of the game-logic core

This project models the state bookkeeping of a small first-person OpenGL
scene. The player walks around a bonfire, can pull a broken sword out of it,
and hears footsteps. Everything is modelled as pure functions over plain data:

- **Inventory** (`inventory.dfy`, `items.dfy`): items and the item list,
  with append-only `addItem`, erase-by-name `removeItem` and the predefined
  Broken Sword.
- **Interaction registry** (`interaction.dfy`): interactable objects with a
  reach radius. It covers the "first object in reach" prompt query, the
  consuming `HandleInteraction`, and rebinding a callback by position.
- **Player state** (`gamestate.dfy`): frame timing, the clamp to the square
  arena, head bob, the step cooldown and the debounced "press E" machine.
- **Input** (`input.dfy`): Escape releases the cursor and a left click
  re-captures it. Mouse motion becomes look offsets, with no jump after a
  re-capture.
- **Engine** (`engine.dfy`): loading the step sounds, the step-sound gate
  and one frame of the main loop in its call order.
- **Model loader** (`model.dfy`): the importer's scene becomes plain data.
  The loader covers the model directory, pre-order mesh collection, vertex
  extraction, face-index flattening and the path-keyed texture cache.
- **Configuration** (`config.dfy`): the constants, their ordering facts and
  the renderer's point-light table with the bonfire flicker.

Some things become parameters:

- Positions are `real` triples.
- A comparison `length(v) <= r` becomes a comparison of squares.
- `sin` is any function with values in [-1, 1].
- The clock, key states, `rand()`, the audio loader and `TextureFromFile`
  are function arguments.

## Model

| member | source | states |
|---|---|---|
| Inventory.SetQuantity | src/main/inventory.cpp:51-53 | only the quantity changes; name, description and image path are kept |
| Inventory.NewInventory | src/main/inventory.cpp:59-60 | the inventory holds exactly the given list, in order |
| Inventory.AddItem | src/main/inventory.cpp:66-70 | the list grows by one at the end and the existing entries are untouched |
| Inventory.RemoveItem | src/main/inventory.cpp:76-81 | afterwards no entry carries the name; every other item keeps its multiplicity; the survivors keep their relative order |
| Inventory.EraseNamed | src/main/inventory.cpp:78-80 | the stable remove_if/erase: the name is gone, other entries' counts are kept, and the result is an ordered subsequence |
| Inventory.RemoveAbsentUnchanged | src/main/inventory.cpp:76-81 | removing a name no entry carries leaves the inventory equal to what it was |
| Inventory.CountZeroMeansAbsent | src/main/inventory.cpp:76-81 | a name occurs zero times exactly when no entry carries it |
| Inventory.RemoveIdempotent | src/main/inventory.cpp:76-81 | removing the same name twice equals removing it once |
| Inventory.AddItemNeverMerges | src/main/inventory.cpp:66-70 | adding a same-named item gives one more entry of that name, never a merged quantity |
| Inventory.AddThenRemoveRestores | src/main/inventory.cpp:66-81 | on an inventory without that name, add followed by remove-by-name restores the inventory |
| Items.BrokenSword | src/include/items.h:8-15 | the predefined sword's name, description, quantity 1 and icon path |
| Items.PickUpThenDropSword | src/include/items.h:8-15 | picking up the sword and dropping "Broken Sword" restores an inventory that held none |
| Interaction.AddInteractable | src/main/interactionSystem.cpp:13-19 | appends one object with the given position, prompt and callback and the default radius 1; earlier objects unchanged |
| Interaction.Initialize | src/main/interactionSystem.cpp:5-11 | registers the sword at (0, 1, 0) with prompt "E - Pull Out", replacing the default "E - Interact", and returns true |
| Interaction.CheckInteractions | src/main/interactionSystem.cpp:21-30 | true iff some object is within its radius (boundary included); the prompt is that of the first such object; on false the text passed in is returned unchanged |
| Interaction.HandleInteraction | src/main/interactionSystem.cpp:32-45 | true iff some object is in reach; then exactly the first one is removed and its callback invoked; otherwise nothing changes and nothing is invoked |
| Interaction.SetCallbackForPosition | src/main/interactionSystem.cpp:47-55 | true iff some object lies within `tol` of the position; only the first such object's callback changes; positions, radii and prompts never change |
| Interaction.HandleAgreesWithCheck | src/main/interactionSystem.cpp:21-45 | handling succeeds exactly when checking shows a prompt, and it consumes the object whose prompt was shown |
| Interaction.ReachesOwnPosition | src/main/interactionSystem.cpp:24 | an object with non-negative radius is in reach from its own position |
| Interaction.SingleObjectInReach | src/main/interactionSystem.cpp:21-45 | with one object in reach, the check shows its prompt and handling consumes it and invokes its callback |
| Interaction.SwordIsReachableFromItsSpot | src/main/interactionSystem.cpp:5-45 | after start-up, standing on the sword shows "E - Pull Out", and using it empties the registry |
| Interaction.SingleObjectAtPosition | src/main/interactionSystem.cpp:47-55 | with one object within `tol` of the position, rebinding succeeds and the object keeps everything but its callback |
| Interaction.RebindSwordCallback | src/include/interactionSystem.h:26 | rebinding at the sword's spot with the default tolerance 0.1 finds the sword registered at start-up and changes only its callback |
| GameState.Initial | src/main/gameState.cpp:7-26 | the start state: locked cursor, mouse centred on the 1920x1080 screen, camera at (0, 0, 3), zero timers, the sword registered |
| GameState.UpdateTiming | src/main/gameState.cpp:28-32 | deltaTime is the time since the last frame and lastFrame becomes now; nothing else changes |
| GameState.TimingTelescopes | src/main/gameState.cpp:28-32 | two frames' deltaTimes add up to the total time elapsed |
| GameState.ClampToArena | src/main/gameState.cpp:40-46 | the result lies in [-2.8, 2.8], equals the input inside that range and the nearer bound outside it |
| GameState.ClampMonotone | src/main/gameState.cpp:40-46 | clamping preserves the order of two coordinates |
| GameState.BasePosition | src/main/gameState.cpp:40-50 | the clamped position at camera height lies inside the arena |
| GameState.UpdateMovement | src/main/gameState.cpp:34-71 | x and z are pushed to the nearer bound of [-2.8, 2.8] when outside it and kept when inside; the recorded position is the clamped base position at camera height; bob stays within 0.05 of camera height; it resets when not moving and advances by deltaTime*10 when moving; the base position is recorded; the cooldown decreases only while positive; nothing else changes |
| GameState.AtBaseIsStill | src/main/gameState.cpp:50-53 | a camera at its recorded base position does not count as moving |
| GameState.UpdateRecordsBase | src/main/gameState.cpp:64-65 | after an update, the recorded position is the base position of the new camera |
| GameState.SecondUpdateSettles | src/main/gameState.cpp:34-71 | a second update in place sees no movement, resets the bob to standing height and keeps the base position |
| GameState.CooldownNeverGrows | src/main/gameState.cpp:68-70 | with a non-negative frame time the step cooldown never increases |
| GameState.UpdateInteraction | src/main/gameState.cpp:73-102 | away from all objects: no prompt and the debounce is cleared. E pressed while not waiting: the first object in reach is removed, its callback is the one invoked, and the debounce is set. E released: prompt shown and debounce cleared. E held: prompt shown and nothing used. Other fields unchanged |
| GameState.PromptIsFirstInReach | src/main/gameState.cpp:73-85 | unless E has just consumed it, the prompt shown is that of the first object in reach |
| GameState.HoldingEUsesOneObject | src/main/gameState.cpp:86-97 | holding E over two frames consumes at most one object and invokes nothing in the second frame |
| Input.ProcessEscape | src/main/inputHandler.cpp:72-77 | Escape with a locked cursor unlocks it and sets the re-capture flag; otherwise nothing changes |
| Input.MouseButtonEvent | src/main/inputHandler.cpp:49-64 | only a left press while awaiting re-capture with a free cursor relocks it, clears the flag and arms firstMouse; all else is ignored |
| Input.MouseMoveEvent | src/main/inputHandler.cpp:26-47 | ignored while unlocked; otherwise records the position, with zero offsets on the first event and (dx, -dy) afterwards |
| Input.EscapeThenClickRelocks | src/main/inputHandler.cpp:49-77 | Escape then a left click gets back to a locked cursor, and the next mouse motion yields zero offsets |
| Input.UnlockedIgnoresMotion | src/main/inputHandler.cpp:26-29 | after Escape, mouse motion leaves the state untouched |
| Input.InteractionFrameCancelsRelock | src/main/gameState.cpp:99-101 | the interaction update clears the shared re-capture flag, so after Escape a frame away from all objects makes the next click do nothing |
| Engine.StepFileName | src/main/gameEngine.cpp:155 | the name is the prefix "sfx/steps/step", then the decimal digit of i, then the suffix ".wav", and nothing else |
| Engine.NonZero | src/main/gameEngine.cpp:157-159 | no zero id remains; every non-zero id keeps its multiplicity; the kept ids are a subsequence of the loader results, so their order is kept |
| Engine.LoadAudioAssets | src/main/gameEngine.cpp:152-174 | the step buffers are the non-zero results for step1..step3 in order (at most 3); ambiance plays iff its buffer is non-zero; the result is always true |
| Engine.NonZeroAppend | src/main/gameEngine.cpp:154-160 | filtering one more loader result appends it exactly when it is non-zero |
| Engine.HandleMovementAudio | src/main/gameEngine.cpp:176-188 | a step plays iff the move exceeds 0.01, the cooldown has expired and a sound is loaded; the index is in range and the cooldown becomes 0.6; otherwise nothing changes |
| Engine.NoTwoStepsInARow | src/main/gameEngine.cpp:181-186 | right after a step, the next call plays none |
| Engine.BobDistance | src/main/gameEngine.cpp:178 | a camera over its base position is the bob offset away from it |
| Engine.StepFollowsBob | src/main/gameEngine.cpp:79-88 | in a frame (timing, input, movement, audio in that order) a step plays iff the bob offset exceeds the threshold, the cooldown has expired and a sound is loaded; a player who did not move hears nothing |
| Engine.Frame | src/main/gameEngine.cpp:79-88 | one loop pass: lastFrame becomes now and deltaTime the time since the previous frame; Escape with a locked cursor releases it; the camera stands over the clamped base position of where the keys moved it, within 0.05 of camera height; a played step re-arms the cooldown to 0.6, otherwise the cooldown is counted down while positive and left as it is once it has run out; the registry and firstMouse are untouched |
| ModelLoader.LastIndexOf | src/main/model.cpp:50 | the position of the last occurrence, None iff absent |
| ModelLoader.Directory | src/main/model.cpp:50 | the path prefix before the last '/', or the whole path when there is none |
| ModelLoader.DirectoryOfJoin | src/main/model.cpp:50 | the directory of dir + "/" + name is dir when name has no '/' |
| ModelLoader.Vertices | src/main/model.cpp:84-125 | one vertex per input vertex, carrying its position; the normal is copied iff the mesh has normals; with a UV channel the texture coordinates, tangent and bitangent of vertex i are copied; without one the coordinates are (0, 0) and tangent and bitangent are unset |
| ModelLoader.FlattenIndexing | src/main/model.cpp:128-133 | index j of face i appears right after all indices of the earlier faces |
| ModelLoader.FlattenFaceIndices | src/main/model.cpp:128-133 | the nested index loop produces all faces' indices in order |
| ModelLoader.Lookup | src/main/model.cpp:168-175 | finds a cache entry with that path exactly when one exists |
| ModelLoader.LoadOne | src/main/model.cpp:164-186 | a hit returns the cached texture and leaves the cache as is; a miss loads, tags with the type name and appends |
| ModelLoader.LoadMaterialTextures | src/main/model.cpp:162-189 | one texture per requested path, in order; the cache only grows. From a duplicate-free cache: it stays duplicate-free, hits are reused unchanged, misses are loaded once with the requested type name |
| ModelLoader.SecondLoadHitsCache | src/main/model.cpp:168-175 | requesting the same paths again loads nothing and returns the very same textures |
| ModelLoader.ProcessMesh | src/main/model.cpp:78-153 | the mesh gets the vertices, the flattened indices and one texture per diffuse, specular, height and ambient path, in that order. From a duplicate-free cache: a cached path reuses the cached texture; the first request of a missing path is loaded under its group's type name ("texture_diffuse", "texture_specular", "texture_normal" for HEIGHT maps, "texture_height" for AMBIENT maps); repeated paths get the same texture; the cache stays a duplicate-free extension |
| ModelLoader.ProcessMeshes | src/main/model.cpp:62-65 | appends one processed mesh per listed index, in order |
| ModelLoader.ProcessNode | src/main/model.cpp:60-70 | appends the processed meshes of the subtree in pre-order: own meshes first, then children left to right |
| ModelLoader.ProcessChildren | src/main/model.cpp:67-69 | appends the children's subtrees in order |
| ModelLoader.PreorderLength | src/main/model.cpp:60-70 | the pre-order list is as long as the subtree's total mesh count |
| ModelLoader.PreorderInRange | src/main/model.cpp:63 | every mesh index in a valid subtree is in range |
| ModelLoader.LoadModel | src/main/model.cpp:36-53 | an absent, incomplete or rootless scene leaves the model empty; otherwise the directory comes from the path, there is one mesh per pre-order mesh index, and the texture cache is duplicate-free |
| Config.ConfigOrdering | src/include/config.h:11-71 | the bonfire index is a valid light index; fog near < far; the arena bound, cooldown, threshold, bob amount and speed are positive; zoom and pitch ranges are non-empty |
| Config.BonfireFlicker | src/main/renderer.cpp:86 | the flicker stays within 0.9 ± 0.1 whatever the time |
| Config.LightTable | src/main/renderer.cpp:81-104 | one entry per point light, entry i being the light the loop body sets up for index i |
| Config.PointLightSetup | src/main/renderer.cpp:85-103 | the bonfire light has falloff 1 / 0.35 / 1.2, black specular and ambient and diffuse colours that are their bases scaled by one and the same flicker factor, so between 0.8 and 1.0 times the bases; every other light is black in all three colours with falloff 1 / 0 / 0 |
| Config.BonfireBranchTakenOnce | src/main/renderer.cpp:85-103 | exactly the bonfire entry has bonfire falloff; every other light is black in ambient, diffuse and specular; the bonfire's diffuse red stays at least 2 |
| Sequences.Find | src/main/interactionSystem.cpp:22-28 | the first index that matches, None iff nothing matches |
| Sequences.FirstIsUnique | src/main/interactionSystem.cpp:22-28 | the first match is unique |

## Left out

- Rendering: the renderer's GL calls, shader uniforms other than the point-light table, and the GLSL shading and fog are left out. They are graphics API calls with no state the rest of the program reads.
- The audio manager (OpenAL playback, gains, looping) is left out. Only the loader's returned ids are modelled, as the `load` parameter.
- The GUI (Dear ImGui windows and the inventory display) is left out; it only draws.
- Engine initialisation, window creation, the run loop's buffer swap and event polling, and cleanup are left out. `Engine.Frame` keeps only the order of the per-frame calls.
- `main.cpp` and the light positions in `config.cpp` are left out; they are data for rendering.
- The camera class (ProcessKeyboard, ProcessMouseMovement, the scroll zoom, pitch clamping) is not part of this model. The movement keys enter as the position they produce, and the mouse offsets are returned, not applied.
- The framebuffer-size callback is left out. It sets the GL viewport and rebuilds the projection matrix from the camera zoom and the window's aspect ratio (src/main/inputHandler.cpp:12-24); both feed only the renderer.
- The guards against a missing GameState instance in the callbacks are left out. The state is always present in the model.
- Floating point is left out: all arithmetic is exact real arithmetic. The `double` to `float` conversion in mouse_callback is not modelled.
- Inventory getItem/getItems (src/include/inventory.h:26-27) and InteractionSystem RemoveInteractable/ClearInteractables (src/include/interactionSystem.h:29-30) are only declared. Their definitions are not part of this model.
- Callbacks are not run. HandleInteraction reports which callback would be invoked. The sword's registered callback only prints "Broken sword acquired..." (src/main/interactionSystem.cpp:7-9); it is a tagged token in the model.
- `strcmp` compares C strings up to the first NUL. The model compares whole strings, which agrees for paths without embedded NULs.
- Vertex fields the loader leaves uninitialised (normal without normals; tangent and bitangent without UVs) are `None`.
- The importer's post-processing (triangulation, smooth normals, UV flip, tangent space) is left out. The scene is the importer's output, taken as a parameter.
- Mesh GPU setup and drawing (Mesh constructor, Model::Draw) are left out.
- ModelLoader.LoadMaterialTextures: the hit/miss and duplicate-freedom properties are stated only for a starting cache without duplicate paths. That is what every run produces, since the cache starts empty.
- ModelLoader.LoadModel: the hit, miss and type-name facts are stated per mesh in ProcessMesh, not repeated for the whole model.
- GameState.UpdateInteraction: the E key is modelled as pressed or released. GLFW's third state, GLFW_REPEAT, is never returned by glfwGetKey.
- Config.BonfireFlicker: `sin` is any function bounded by [-1, 1], not the real sine, so no periodicity is stated.
