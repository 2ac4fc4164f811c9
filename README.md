# WebXR Needle/Unity tutorial: enemy agent, navmesh exporter and player input, in Dafny

This project models three parts of the WebXR Needle/Unity tutorial game and proves their behaviour.

**The enemy agent** (`AiEnemyBehaviour`) is a patrol state machine over a baked navigation mesh. It walks a waypoint path and picks new targets by bounded rejection sampling. A bullet hit disables it and hides its body. It respawns on a timer at its snapped initial position.
- The pathfinder (three-pathfinding's `getGroup`, `getClosestNode`, `findPath`) is a value of arrow-typed oracles.
- `Math.random` is an index stream `draw`.
- Euclidean distance is the oracle `distance`.
- The `setTimeout` callbacks and the death-effect promise are event methods, with counters of the callbacks still pending.
- Each operation is a function on `AgentState` (module `EnemyAiSpec`).
- The class `EnemyAi.Agent` holds the component's fields. Each of its methods is proved to move `State()` exactly as the matching function says and to keep the invariant: `isActive == !wasHitByBullet`, and a non-empty path has its cursor inside it.
- The properties of those functions are lemmas in `EnemyAiProperties`.
- The hide/show walks over the object tree are in `SceneTree`.
- The 100 ms settle callback that respawn schedules replans even when the agent has been hit again in the meantime. When that replanning exhausts its budget, the forced respawn revives the agent early while the hit's respawn timer is still pending. The model keeps this behaviour, and `SettleRevivesHitAgent` states it.

**The navmesh exporter** (`NavMeshExporter.ExportNavMesh`) writes a triangulation as Wavefront OBJ lines:
- a header line;
- one `v` line per vertex, with x negated;
- one `f` line per index triple, 1-based and with the winding reversed.

The StringBuilder is a sequence of lines, and float formatting is the supplied `fmt`. C# `int` is a 32-bit newtype, and `index + 1` wraps. An index count that is not a multiple of three makes the loop read past the array, so the export gives `None` and no file is written. `ObjText` gives decimal integer text with a parse round trip, so every `f` line reads back to its three indices; a `v` line reads back to its coordinates whenever the float format writes them without spaces and some parser reads them back.

**The player controller's discrete input logic** (`characterController`) is the class `PlayerInput.Controller`. It covers:
- the pressed-key map;
- the WASD direction before normalisation;
- the grounded gate on jumping;
- the cool-down gate on XR shooting;
- the reset after a fall.

## Model

| member | source | states |
|---|---|---|
| EnemyAi.Agent.constructor | enemyAiBehaviour.ts:29-44 | A fresh component has no pathfinder, an empty path, cursor 0, is active and not hit, has no death effect and no pending callbacks. The invariant holds. |
| EnemyAiProperties.InitialInv | enemyAiBehaviour.ts:33-44 | The initial field values satisfy the flag-pair and cursor invariant. |
| EnemyAi.Agent.OnEnable | enemyAiBehaviour.ts:46-84 | After the asset load ends, the state is as `Enable` says (no reference: nothing; failed load or no geometry: only the initial position is captured; loaded: install the zone, snap, pick a target). The invariant is kept. |
| EnemyAiProperties.EnableCaptures | enemyAiBehaviour.ts:46-84 | Without an asset reference onEnable changes nothing. A failed load or missing geometry captures only the initial position. A loaded zone installs the pathfinder and captures the initial position. |
| EnemyAiProperties.EnableKeepsInv | enemyAiBehaviour.ts:46-84 | onEnable preserves the flag-pair and cursor invariant. |
| EnemyAi.Agent.SnapToNavMesh | enemyAiBehaviour.ts:87-95 | Only the position changes: to the closest node's centroid in the position's group (group 0 when it has none), when there is one. Without a pathfinder nothing changes. |
| EnemyAi.Agent.OnCollisionEnter | enemyAiBehaviour.ts:99-128 | The state moves as `Hit` says and the invariant is kept. |
| EnemyAiProperties.HitFilter | enemyAiBehaviour.ts:99-100 | A collision changes the state if and only if the agent is active, not yet hit, and the collider is on layer 3. |
| EnemyAiProperties.HitEffect | enemyAiBehaviour.ts:99-128 | A processed hit sets wasHit, clears isActive and the path, and hides the body. It schedules exactly one death effect and one respawn. Position, cursor and death effect stay. |
| EnemyAiProperties.SecondHitIgnored | enemyAiBehaviour.ts:97-128 | A second collision after a processed hit changes nothing, so no second respawn is scheduled. |
| EnemyAiProperties.HitKeepsInv | enemyAiBehaviour.ts:99-113 | A collision preserves the flag-pair and cursor invariant. |
| SceneTree.WalkAt | enemyAiBehaviour.ts:133-143 | The traverse callback reaches every node. The same paths exist before and after. Each Mesh's `visible` and each collider's `enabled` becomes the flag; every other field is unchanged. |
| SceneTree.HideAllAt | enemyAiBehaviour.ts:131-147 | After hiding, every Mesh node and the root are invisible and every collider is disabled. Nothing else changes at any node. |
| SceneTree.ShowAllAt | enemyAiBehaviour.ts:150-166 | After showing, every Mesh node and the root are visible and every collider is enabled. Nothing else changes at any node. |
| SceneTree.WalkIdempotent | enemyAiBehaviour.ts:133-143 | A second traverse with the same flag changes nothing more. |
| SceneTree.WalkOverrides | enemyAiBehaviour.ts:133-162 | A traverse with one flag erases all trace of an earlier traverse with any flag. |
| SceneTree.WalkThenSetRoot | enemyAiBehaviour.ts:145-146 | Once the root's `visible` is overwritten, its earlier value leaves no trace through a walk. |
| SceneTree.HideAllIdempotent | enemyAiBehaviour.ts:131-147 | Hiding twice is hiding once. |
| SceneTree.ShowAllIdempotent | enemyAiBehaviour.ts:150-166 | Showing twice is showing once. |
| SceneTree.ShowAfterHide | enemyAiBehaviour.ts:131-166 | Showing after hiding equals showing alone: all flags come back true, not as they were before the hide. |
| EnemyAi.Agent.Respawn | enemyAiBehaviour.ts:169-193 | The state moves as `Respawned` says and the invariant is kept. |
| EnemyAiProperties.RespawnRestores | enemyAiBehaviour.ts:169-193 | Without a pathfinder, respawn is a no-op. Otherwise: position is the snapped initial position, body shown, active and not hit, death effect dropped, one settle timer scheduled; path and cursor unchanged. |
| EnemyAiProperties.RespawnIdempotent | enemyAiBehaviour.ts:169-193 | A second respawn changes nothing except scheduling one more settle timer. |
| EnemyAiProperties.RespawnKeepsInv | enemyAiBehaviour.ts:169-187 | respawn preserves the flag-pair and cursor invariant. |
| EnemyAiProperties.HitThenRespawn | enemyAiBehaviour.ts:99-193 | Hit then the 3000 ms timer leaves the agent on its snapped initial position, active, body shown as if never hidden, no effect, empty path, and the settle timer pending. |
| EnemyAi.Agent.Update | enemyAiBehaviour.ts:195-250 | The state moves as `Tick` says and the invariant is kept. |
| EnemyAiSpec.SmoothSpeed | enemyAiBehaviour.ts:209 | The step speed is the smaller of movementSpeed and distance / 0.5, so it is at most movementSpeed. |
| EnemyAiProperties.TickGuard | enemyAiBehaviour.ts:197 | update changes nothing without a pathfinder, after a hit, or while inactive. |
| EnemyAiProperties.TickFar | enemyAiBehaviour.ts:199-226 | Beyond the threshold only the position may change. It moves to the stepped point exactly when that point has a group, and the speed is at most movementSpeed. |
| EnemyAiProperties.StepLength | enemyAiBehaviour.ts:202-213 | With a Euclidean distance, one step moves the agent exactly speed * deltaTime toward the waypoint. |
| EnemyAiProperties.TickNear | enemyAiBehaviour.ts:228-246 | Within the threshold the cursor advances by exactly one. Running past the path's end runs pickNewTarget. |
| EnemyAiProperties.TickEmpty | enemyAiBehaviour.ts:247-249 | With an empty path, update runs pickNewTarget. |
| EnemyAiProperties.TickKeepsInv | enemyAiBehaviour.ts:195-250 | After update the flags still agree and a non-empty path has its cursor inside it. |
| EnemyAi.Agent.SampleTarget | enemyAiBehaviour.ts:264-310 | The sampling while-loop ends as the specification `Search` says: with the same ending (path found, exhausted, exception) and the same last target. |
| EnemyAiProperties.SearchBounded | enemyAiBehaviour.ts:264-310 | The loop runs at most 20 iterations. Only candidates at distance in [3, 8] reach `findPath`. A found path is non-empty. The loop gives up only when the budget is spent or the vertex pool is empty. |
| EnemyAiProperties.PickSearchBounded | enemyAiBehaviour.ts:252-310 | For a whole pickNewTarget call: at most 20 iterations, every probed candidate within [3, 8] of the agent, and a found path non-empty. |
| EnemyAiProperties.PickOutcomes | enemyAiBehaviour.ts:252-321 | Exactly three outcomes. Success: a non-empty path at cursor 0, no respawn. Exhaustion: empty path and a respawn. Exception: empty path, no respawn. The agent is snapped first only when its position has no group. |
| EnemyAiProperties.PickKeepsInv | enemyAiBehaviour.ts:252-321 | After pickNewTarget the flags agree and a non-empty path has its cursor inside it, whatever the cursor was before. |
| EnemyAi.Agent.ResolveGroup | enemyAiBehaviour.ts:257-262 | Only the position may change. The planning group is the position's group; when that is missing, the agent is snapped first and the group is taken there, with 0 when still missing. |
| EnemyAi.Agent.PickNewTarget | enemyAiBehaviour.ts:252-321 | The state moves as `Pick` says, through the sampling loop's result. The invariant holds afterwards even when the cursor ran past the path on entry. |
| EnemyAi.Agent.RespawnTimerFired | enemyAiBehaviour.ts:126-127 | The 3000 ms callback consumes one pending respawn and respawns. |
| EnemyAi.Agent.SettleTimerFired | enemyAiBehaviour.ts:189-192 | The 100 ms callback consumes one pending settle and runs pickNewTarget when there is a pathfinder. |
| EnemyAi.Agent.DeathEffectSpawned | enemyAiBehaviour.ts:115-124 | The resolved effect, if any, is recorded one unit above the agent's position. |
| EnemyAiProperties.SettleRevivesHitAgent | enemyAiBehaviour.ts:189-192 | A settle callback that fires after a new hit still replans. If the replanning exhausts its budget, the hit agent is revived at once (active, body shown) while the hit's respawn timer stays pending. |
| EnemyAiProperties.TimersKeepInv | enemyAiBehaviour.ts:115-192 | Each callback preserves the flag-pair and cursor invariant. |
| NavMeshExport.ExportNavMesh | NavMeshExporter.cs:15-32 | The StringBuilder loops produce exactly `ObjLines`: the header, the vertex lines, then the face lines. They produce `None` when the index count is not a multiple of three. |
| NavMeshExport.ObjLayout | NavMeshExporter.cs:15-32 | The export succeeds if and only if the index count is a multiple of three. It then has 1 + vertices + indices / 3 lines, the first is `o NavMesh`, and every `v` line precedes every `f` line. |
| NavMeshExport.ObjLineCount | NavMeshExporter.cs:15-32 | A successful export has one line for the header, one per vertex and one per index triple. |
| NavMeshExport.VertexLineAt | NavMeshExporter.cs:19-22 | Line 1 + j is the line of vertex j, in input order. |
| NavMeshExport.FaceLinesAt | NavMeshExporter.cs:25-32 | For every complete triple starting at 3k there is a face line k, and it is that triple's line. |
| NavMeshExport.FaceLineAt | NavMeshExporter.cs:25-32 | Line 1 + vertices + k of the export is the line of triangle k. |
| NavMeshExport.VertexLinesStartWithV | NavMeshExporter.cs:19-22 | Every vertex line starts with `v `. |
| NavMeshExport.FaceLinesStartWithF | NavMeshExporter.cs:25-32 | Every face line starts with `f `. |
| NavMeshExport.VertexLineReadsBack | NavMeshExporter.cs:21 | When `fmt` writes the three coordinates -x, y, z of vertex k without spaces and `parse` reads each back, the `v` line of vertex k reads back as (-x, y, z). |
| NavMeshExport.FaceLineReadsBack | NavMeshExporter.cs:27-31 | The `f` line of triangle (a, b, c) reads back as (a+1, c+1, b+1) under 32-bit wrap, so the winding is reversed. |
| NavMeshExport.OneBasedShift | NavMeshExporter.cs:27-29 | A written index is the source index plus one, so at least 1 for non-negative input, except that int.MaxValue wraps to a negative number. |
| ObjText.IntTextRoundTrip | NavMeshExporter.cs:31 | The decimal text of an integer is non-empty, has no space, and parses back to the same integer. |
| ObjText.WordsOfFour | NavMeshExporter.cs:21-31 | A line of four space-free fields joined by single spaces splits back into exactly those four fields. |
| PlayerInput.Lower | characterController.ts:97 | Lower-casing keeps the length and leaves no ASCII capital. A character changes only if it is a capital, and then into the letter 32 code points above it. |
| PlayerInput.Controller.constructor | characterController.ts:12-31 | Empty key map, grounded, no cool-down, spawn position equals the current position, no pending timers. The gate invariant holds. |
| PlayerInput.Controller.OnKeyDown | characterController.ts:96-108 | The lower-cased key's entry becomes true and no other entry changes. Space runs the jump gate and `k` shoots once. Every other key leaves jump and shooting untouched. Only the key map, the jump gate, the impulses and the shot count can change; position, spawn point, velocities and the cool-down stay. |
| PlayerInput.Controller.OnKeyUp | characterController.ts:110-112 | The lower-cased key's entry becomes false and no other entry changes. |
| PlayerInput.LowerIdempotent | characterController.ts:97-111 | Lower-casing twice is lower-casing once, so a key pressed as `W` and released as `w` hits the same entry. |
| PlayerInput.KeyDownUp | characterController.ts:96-112 | A key down then up leaves that entry false and every other entry as it was. |
| PlayerInput.Controller.Jump | characterController.ts:337-344 | Not grounded: no change. Grounded: at most one upward impulse of jumpForce (if the body exists), the gate closes, and one re-open timer is pending. |
| PlayerInput.Controller.GroundedTimerFired | characterController.ts:343 | The 800 ms callback re-opens the jump gate. |
| PlayerInput.Controller.HandleXRShoot | characterController.ts:79-88 | Fires exactly when the trigger is pressed and there is no cool-down, and then starts the cool-down. Otherwise it changes nothing. |
| PlayerInput.Controller.CoolDownTimerFired | characterController.ts:85-87 | The 100 ms callback ends the cool-down. |
| PlayerInput.Controller.DesktopDirection | characterController.ts:178-195 | z = [w] - [s], x = [a] - [d], y = 0, each in {-1, 0, 1}. The direction is zero if and only if opposite keys agree. |
| PlayerInput.Controller.ApplyDesktopControls | characterController.ts:177-222 | A zero direction leaves the position unchanged. Otherwise the position moves by the normalised direction times movementSpeed * deltaTime. |
| PlayerInput.Controller.CheckForPlayerFellDown | characterController.ts:269-275 | Resets to the spawn point exactly when the squared distance exceeds 900, and then stops the body if there is one. Otherwise nothing changes. |
| PlayerInput.FallThreshold | characterController.ts:270 | For a non-negative distance, comparing its square with 900 is comparing it with 30. |

## Left out

- Floating point is modelled as mathematical `real`: JavaScript doubles and C# floats lose rounding, NaN, infinities and the sign of zero here. A NaN distance fails both comparisons of the band filter at enemyAiBehaviour.ts:278, so the source would send such a candidate to `findPath`. In the exporter, `-vertex.x` of 0 is -0, which .NET may print as `-0`; `fmt` sees the real 0.
- EnemyAiProperties.SearchBounded: the distance band [3, 8] for probed candidates holds for real-valued distances only; a NaN distance from the source's `distanceTo` is not modelled.
- The public, inspector-editable fields `movementSpeed` and `targetThreshold` (enemyAiBehaviour.ts:38-39) are the constants `MovementSpeed` and `TargetThreshold` of `EnemyAiSpec`, fixed at their defaults 0.5 and 0.5; a value changed in the editor is not modelled.
- Vector maths is left out: `normalize`, `length`/sqrt, `lookAt`, quaternion `slerp`/`angleTo`, and orientation in general. Distances are the oracle `distance`, and normalisation is a supplied function.
- Float-to-text formatting is left out. The exporter takes `fmt` as a parameter. The vertex read-back lemma assumes that `fmt` writes the three coordinates of that vertex without spaces and that `parse` reads each of them back.
- three-pathfinding internals are left out: `createZone`, group computation, and A* inside `findPath`. They are oracles.
- Exceptions are left out except the one `findPath` can raise. The `catch` in pickNewTarget is modelled for that call only; `getGroup` and `getClosestNode` are total.
- Asynchronous loading is left out: `loadAssetAsync` and geometry extraction become the `NavAsset` outcome passed to `OnEnable`. The `await` is not interleaved with other callbacks.
- The death-effect object is a handle. Its removal from the scene in respawn is only the clearing of `deathEffect`, and an effect that resolves after respawn is recorded, as in the source, but not tracked in the scene.
- Timer delays (3000, 100, 800 and 100 ms) are not modelled. Pending callbacks are counters, and the host chooses the firing order.
- `Math.random` is left out: `draw` gives the raw index for each attempt, reduced modulo the pool size.
- EnemyAi.Agent.PickNewTarget: the intermediate writes of `targetPosition` and `path` inside the sampling loop are applied once the loop ends. Nothing else reads them during the loop, except a thrown `findPath`, which ends with `path` cleared, as modelled.
- SceneTree.HideAllAt: the walks are modelled on an immutable tree value that the agent's `body` field is reassigned to. In-place mutation of shared `Object3D` nodes (aliasing) is not modelled.
- `createGoalIndicator` and `visualizePath` are debug-only and left out.
- `console` logging is left out.
- Unity I/O in the exporter is left out: `NavMesh.CalculateTriangulation`, `File.WriteAllText`, `RevealInFinder` and `Debug.Log`.
- PlayerInput.Lower: lower-cases ASCII letters only, not full Unicode `toLowerCase`/`toLocaleLowerCase`.
- In the player controller, device detection, the DOM/nipplejs joystick and buttons, mobile movement, XR thumbstick movement, `handleXRJump` gamepad reading, and the `update` dispatch over device flags are left out. The gamepad trigger state is a parameter of `HandleXRShoot`.
- `GunControls.shootBullet` is left out: a shot is counted in `shots`.
- Rigid-body physics is left out: an impulse is recorded in `impulses`, and `setVelocity`/`setAngularVelocity` overwrite the recorded velocities.
