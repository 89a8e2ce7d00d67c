# Red Shifter 3.0 — a Dafny model of the game core

Red Shifter 3.0 is a browser voxel shooter. A Three.js client keeps a block
world, a first-person player, a weapon panel and a gun that fires
projectiles. A socket.io server relays each player's position to the other
clients. This project models the logic under the rendering and proves what
that logic guarantees:

- **`VoxelWorld`** (`world.dfy`) is the `World` block store. The
  `data[x][y][z]` array is kept as one flat sequence in x-then-y-then-z
  order. The module covers `initializeTerrain`, `getBlock`, `setBlockId`,
  `setBlockInstanceId` and `inBounds`.
- **`Terrain`** (`terrain.dfy`) models `generateTerrain`, which raises each
  column to its clamped height. It also models `generateMeshes`, which gives
  every solid cell an instance number in scan order, and `generate`, which
  runs the three steps in turn.
- **`GunManager`** (`gun.dfy`) models spawning bullets, the `shoot` gate and
  the `bulletFired` handler. It also models the per-frame projectile step:
  advance, retire on range or block, hit the first qualifying avatar, report
  `playerHit`. Both bullet lists are covered, including the gate on the
  local list.
- **`ControlPanel`** (`control_panel.dfy`) models the key and wheel handlers
  of the input panel and the weapon selection state. The walking-audio
  decision is recorded as a `walking` flag.
- **`PlayerController`** (`player.dfy`) models the player's
  key flags, the jump gated on `canJump`, gravity, the floor at height 3.5,
  the clamp to the world's edges and where the player cube is placed.
- **`Relay`** (`server.dfy`) models the server's `players` registry and the
  messages sent on connection, `playerMovement` and disconnect.
- **`Common`** (`common.dfy`) holds `Option` and a small 3-vector.

Some things a voxel shooter usually has are absent from the code, and the
model does not add them. The code has no bounding-box collision against
voxels: the player stands on a flat floor at `y = 3.5`, and bullets test only
the cell that contains their position. The server does not relay
`shootBullet` or `playerHit`, and nothing in the code keeps a life counter.
The code synchronises no yaw or pitch beyond placing the cube. None of the
core files emits movement or keeps a registry of remote avatars. The remote
avatars and the local player's mesh are therefore inputs to the gun step
(`Scene`).

A few conventions hold throughout:

- Distances are compared squared, so no square root is needed: `dist < 0.5`
  becomes `< 0.25`, and `length() > 100` becomes `> 10000`.
- JavaScript truthiness is written out. For example, a hit on the avatar
  whose id is `""` counts as a miss.
- `Math.floor` is `real.Floor`.
- Arithmetic is exact: reals in place of doubles, integers without width.

## Model

| member | source | states |
|---|---|---|
| VoxelWorld.InitializeTerrain | scripts/world.js:43-59 | the grid has the requested width and height, and every cell is `{id: 0, instanceId: null}` |
| VoxelWorld.GetBlock | scripts/world.js:126-132 | null exactly when the coordinate is outside `0..width × 0..height × 0..width`; otherwise the stored cell at that coordinate |
| VoxelWorld.SetBlockId | scripts/world.js:141-145 | an out-of-bounds write leaves the world unchanged; an in-bounds write changes only that cell's id, and every other cell and the dimensions are unchanged |
| VoxelWorld.SetBlockInstanceId | scripts/world.js:154-158 | the same for the instance id: only the addressed cell's instanceId changes, and only when it is in bounds |
| VoxelWorld.GetAfterSetBlockId | scripts/world.js:126-145 | read-after-write: `getBlock` after `setBlockId` returns the new id at the written cell and the old cell anywhere else |
| VoxelWorld.GetAfterSetBlockInstanceId | scripts/world.js:126-158 | read-after-write: `getBlock` after `setBlockInstanceId` returns the new instance id at the written cell and the old cell anywhere else |
| VoxelWorld.InBoundsExactlyStored | scripts/world.js:167-180 | `inBounds` holds exactly for the coordinates the grid stores a cell for |
| VoxelWorld.Coord | scripts/world.js:98-100 | every storage position is the position of exactly one in-bounds coordinate, and that coordinate is returned |
| VoxelWorld.IndexOrder | scripts/world.js:98-100 | storage order is the nested-loop scan order: x first, then y, then z |
| VoxelWorld.IndexUnique | scripts/world.js:98-100 | no two in-bounds coordinates share a storage position |
| Terrain.ColumnHeight | scripts/world.js:79 | the column height is at least 1, and when the world is at least two high it is at most height−1: an in-range height is kept and one on either side is raised or lowered to the nearest bound; in a world one high or less it is always 1 |
| Terrain.GenerateTerrain | scripts/world.js:64-86 | a cell becomes grass (id 1) exactly when y is below its column's clamped height; every other cell and every instanceId is as before |
| Terrain.TerrainFromEmptyGrid | scripts/world.js:76-83 | from a fresh world a cell is grass if and only if it is below its column's height, and empty otherwise; the bottom layer is always solid; when the world is at least two high the top layer is always empty |
| Terrain.GenerateMeshes | scripts/world.js:91-113 | ids are unchanged and empty cells are untouched; each solid cell's instanceId is the number of solid cells before it in scan order; the final count is the total number of solid cells |
| Terrain.SolidBeforeCounts | scripts/world.js:101-107 | the running `mesh.count` equals the size of the set of solid positions already scanned |
| Terrain.InstanceIdsIncrease | scripts/world.js:98-107 | instance ids strictly increase along the scan, so no two solid cells share one, and each is below the final count |
| Terrain.InstanceIdsDense | scripts/world.js:101-107 | every number below the count is the instance id of some solid cell (no gaps) |
| Terrain.Generate | scripts/world.js:26-38 | on a world of the constructor's default 128 × 32 × 128 size, or any other size: after `generate()` a cell is grass (id 1) if it is below its column's clamped height and empty (id 0) otherwise, it has an instance id exactly when it is grass, and the count is the number of grass cells |
| GunManager.Initial | scripts/gunManager.js:6-13 | the manager starts inactive with both bullet lists empty |
| GunManager.SetActive | scripts/gunManager.js:34-43 | `active` becomes the argument; the bullets and the id are untouched |
| GunManager.SpawnBullet | scripts/gunManager.js:45-61 | exactly one bullet is appended, to the remote list when `isRemote` and to the local list otherwise, leaving the other list alone; it starts at the origin with velocity 60 × direction and carries the shooter id |
| GunManager.OnBulletFired | scripts/gunManager.js:24-31 | a shot announced under the client's own id is ignored; any other appends one remote bullet tagged with the announcing id |
| GunManager.Shoot | scripts/gunManager.js:63-81 | nothing happens unless the manager is active and the gun is selected; otherwise exactly one `shootBullet` with the view ray is sent and one local bullet is spawned along it |
| GunManager.InitialOwnersRight | scripts/gunManager.js:10-11 | a new manager satisfies the ownership split: `bullets` holds only the client's own shots and `remoteBullets` only other players' |
| GunManager.SetActiveKeepsOwners | scripts/gunManager.js:34-43 | toggling the manager keeps the ownership split |
| GunManager.SpawnKeepsOwners | scripts/gunManager.js:45-61 | a spawn keeps the split exactly when a remote bullet carries another player's id and a local one carries the client's own |
| GunManager.OnBulletFiredKeepsOwners | scripts/gunManager.js:24-31 | because the client's own announcements are dropped, a relayed shot keeps the split |
| GunManager.ShootKeepsOwners | scripts/gunManager.js:63-81 | a local shot, tagged with the client's id, keeps the split |
| GunManager.CheckBlockCollision | scripts/gunManager.js:83-94 | true exactly when the floored position is inside the world and holds a non-empty block; false outside the world |
| GunManager.CheckPlayerCollision | scripts/gunManager.js:104-125 | the result is never the shooter; it is the first avatar, in roster order, that has a mesh position within 0.5 of the bullet; it is null if and only if no avatar qualifies |
| GunManager.Roster | scripts/gunManager.js:99-102 | the local player is present under `playerId`; every remote avatar with another id is kept; nothing else is added. The order: a remote entry with the same id is replaced in place and the others stay at their positions; otherwise the local player is appended last |
| GunManager.Advance | scripts/gunManager.js:130 | the displacement is velocity × delta; velocity and shooter are unchanged |
| GunManager.FateOf | scripts/gunManager.js:133-150 | the bullet is retired exactly when it is past range 100 or inside a solid block; a hit names a non-empty id that is not the shooter and is exactly the id `checkPlayerCollision` returns, the first qualifying avatar in roster order; the bullet flies on exactly when it is not retired and the player check yields a falsy id |
| GunManager.Report | scripts/gunManager.js:146-149 | at most one message; a `playerHit` naming the victim and the shooter is sent exactly when the bullet hit a player other than its shooter |
| GunManager.UpdateBulletList | scripts/gunManager.js:127-152 | the backward splice loop leaves exactly the bullets that keep flying, in their original order, and sends the hit reports in the order of the backward loop |
| GunManager.Update | scripts/gunManager.js:154-160 | remote bullets are always stepped; local bullets are stepped only when active and the gun is selected; every message sent is a `playerHit` whose victim is not its shooter; the ownership split is kept |
| GunManager.SurvivorsExact | scripts/gunManager.js:133-143 | a bullet survives a frame if and only if it was in the list and its advanced copy is neither retired nor a hit |
| GunManager.SurvivorsKeepShooters | scripts/gunManager.js:127-152 | every bullet left after a frame carries the shooter id of a bullet that was in the list |
| GunManager.SurvivorsKeepOrder | scripts/gunManager.js:128-135 | removal commutes with concatenation, so survivors keep their relative order |
| GunManager.EachBulletOnce | scripts/gunManager.js:128-144 | every bullet is either kept or removed, and never both: kept + removed = the list's length |
| GunManager.HitReportsSound | scripts/gunManager.js:140-149 | one report is sent per bullet that hits a player; each report names a shooter from the list and a victim that is not that shooter |
| GunManager.RemovedIffHit | scripts/gunManager.js:133-143 | when no roster id is empty, a bullet is removed exactly when it is out of range, inside a block, or within 0.5 of a non-shooter avatar |
| ControlPanel.MovementOf | scripts/controlPanel.js:52-72 | Arrow/WASD codes map to their four movement directions, one for one |
| ControlPanel.IsMoving | scripts/controlPanel.js:125 | the player is moving exactly when some movement flag is set |
| ControlPanel.UpdateWalkingAudio | scripts/controlPanel.js:124-138 | walking plays exactly when some movement flag is set; nothing else changes |
| ControlPanel.SelectWeapon | scripts/controlPanel.js:35-39 | the index is stored, `gun` holds if and only if it is 0, and `block` holds if and only if it is 1; movement state is untouched |
| ControlPanel.Sign | scripts/controlPanel.js:42 | −1, 0 or 1 according to the sign of `deltaY` |
| ControlPanel.OnWheel | scripts/controlPanel.js:41-47 | the new index is always a valid weapon index; from a valid index it moves one step in the wheel's direction, wrapping around both ends |
| ControlPanel.WheelRoundTrip | scripts/controlPanel.js:41-47 | scrolling one way and then back returns to the same weapon |
| ControlPanel.Press | scripts/controlPanel.js:52-76 | a movement key sets its flag and reports a change exactly when the flag was clear; Space sets `jump`; other codes change nothing |
| ControlPanel.WeaponKey | scripts/controlPanel.js:78-87 | `1` and `&` name the gun (index 0), `2` and `é` name the block (index 1), and every other key names no weapon |
| ControlPanel.SelectByKey | scripts/controlPanel.js:78-87 | `1`/`&` selects the gun, `2`/`é` selects the block, and any other key keeps the selection |
| ControlPanel.OnKeyDown | scripts/controlPanel.js:49-90 | the combined keydown: movement flags, jump and weapon selection as above; walking is recomputed only when a flag actually changed |
| ControlPanel.OnKeyUp | scripts/controlPanel.js:92-122 | a movement key clears its flag and reports a change exactly when the flag was set; Space clears `jump`; the weapon is untouched; walking is recomputed only on a change |
| ControlPanel.KeyDownUpRestores | scripts/controlPanel.js:52-115 | pressing and then releasing a movement key always leaves its flag clear; when that flag was clear before the press, every movement flag is back as it was |
| ControlPanel.KeyDownKeepsCoherent | scripts/controlPanel.js:49-90 | keydown keeps the index valid, keeps `gun`/`block` consistent with it, and keeps `walking` equal to "some flag is set" |
| ControlPanel.KeyUpKeepsCoherent | scripts/controlPanel.js:92-122 | keyup keeps the same invariant |
| ControlPanel.StepKeepsCoherent | scripts/controlPanel.js:41-122 | every event keeps the invariant; a wheel event always leaves exactly the selected weapon's flag set |
| ControlPanel.RunKeepsCoherent | scripts/controlPanel.js:41-122 | any sequence of events keeps the invariant and keeps a made selection |
| ControlPanel.InitialIsCoherentButUnselected | scripts/controlPanel.js:5-16 | the constructor's state satisfies the invariant, but index 0 starts with `gun` false, so the gun is not selected until a key or the wheel selects it |
| PlayerController.Initial | scripts/player.js:5-23 | the player starts disabled, at rest, with no movement flags, not allowed to jump, and in a world of the given size (100 by default) |
| PlayerController.Enable | scripts/player.js:101-104 | the player is enabled and nothing else changes |
| PlayerController.Disable | scripts/player.js:106-109 | the player is disabled and nothing else changes |
| PlayerController.EnableDisableRoundTrip | scripts/player.js:101-109 | enabling and then disabling a disabled player gives back the same player |
| PlayerController.OnKeyDown | scripts/player.js:47-74 | a movement key sets its flag; Space launches a jump at speed 12 only when `canJump`, and consumes it; every other field (position, heading, mesh, enabled, world size) is unchanged |
| PlayerController.OnKeyUp | scripts/player.js:76-95 | a movement key clears its flag and nothing else changes |
| PlayerController.Intent | scripts/player.js:119-123 | each heading axis is −1, 0 or 1, and is non-zero exactly when one of its two opposite keys is held without the other |
| PlayerController.ClampAxis | scripts/player.js:156-157 | the result is at least 0.5 and, in a world of size at least 1, at most size−0.5, and in a world narrower than 1 it is always 0.5; in-range values are kept |
| PlayerController.Update | scripts/player.js:111-167 | a disabled player does not change; otherwise the height never ends below the floor: a frame that ends within 0.05 of the floor lands exactly on it, stops the fall and re-arms the jump, and any other frame integrates gravity 40; the horizontal step is applied only under a non-zero heading, and x and z are clamped to the world; the cube sits 0.5 below the camera |
| PlayerController.ClampIdempotent | scripts/player.js:156-157 | clamping an already clamped coordinate changes nothing |
| PlayerController.CanJumpTransitions | scripts/player.js:67-72 | `canJump` becomes true only in an enabled frame that lands, and becomes false only on a Space press, which launches the jump |
| PlayerController.JumpLeavesFloor | scripts/player.js:132-153 | a jump launched from the floor is above the landing band after one frame of 5–100 ms, so it is not cancelled at once |
| PlayerController.JumpCancelledAt240Hz | scripts/player.js:132-153 | as written, a jump launched from the floor with a frame time of 1/240 s lands again in the same frame: it snaps back to the floor, stops, and `canJump` is set again |
| PlayerController.UpdateLandingOnDescent | scripts/player.js:146-153 | the corrected frame: it is `update` itself whenever the vertical velocity after gravity is not upward, and a rising frame integrates freely without snapping or re-arming the jump |
| PlayerController.JumpAlwaysLeavesFloor | scripts/player.js:132-153 | with the corrected frame, a jump from the floor rises for any frame time between 0 and 0.3 s |
| Relay.OnConnection | server.js:25-35 | the newcomer is stored at (0, 1.5, 0) with rotation 0; it alone receives the whole map, including itself, and every other open connection receives `newPlayer` |
| Relay.OnPlayerMovement | server.js:37-43 | an unknown sender changes nothing and sends nothing; a known sender's entry alone is overwritten, and `playerMoved` goes to every connection but the sender, with the payload's own `id` taking precedence |
| Relay.OnDisconnect | server.js:45-49 | the entry is deleted, every other entry is kept, and the remaining connections are told |
| Relay.MovementNamesSender | server.js:41 | a payload without its own `id` is relayed under the sender's id, and never to the sender |
| Relay.ConnectThenDisconnect | server.js:28-47 | a fresh id that connects and then disconnects leaves the registry exactly as before |
| Relay.KeysAreOnline | server.js:28-47 | after any sequence of events the registry's keys are exactly the ids that connected and have not disconnected since |
| Relay.NoEcho | server.js:33-48 | no message returns to the connection that caused it, except the newcomer's own `currentPlayers` |

## Findings

| source | as written | input that shows it | evidently intended | confidence | as-written member | corrected member |
|---|---|---|---|---|---|---|
| scripts/player.js:149-153 | the floor snap `position.y <= floorY + epsilon` also fires on a frame that is still rising | a jump from y = 3.5 at velocity 12 with `delta` = 1/240 s (a 240 Hz display) ends the frame at 3.5493 ≤ 3.55 and is snapped back to the floor | snap to the floor only while falling, so every launched jump rises | medium, not executed | PlayerController.JumpCancelledAt240Hz | PlayerController.UpdateLandingOnDescent |

The frame time is `clock.getDelta()` of each animation frame
(scripts/main.js:146-151). Every frame time below about 4.23 ms cancels the
jump the same way: the snap sets the velocity to 0 and `canJump` to true, so
no jump ever starts. `PlayerController.JumpAlwaysLeavesFloor` proves that the
corrected frame lets the jump rise for every frame time below 0.3 s.
`PlayerController.Update` stays the model of the code as written. The event
trace lemma `CanJumpTransitions` is stated over it. `UpdateLandingOnDescent`
agrees with `Update` on every frame that is not rising, so every property
`Update` has for falling frames carries over to it.

## Left out

- Rendering is not modelled. That covers Three.js groups, the `InstancedMesh` and its matrices, geometry, materials, lights and textures. Only the instance numbers that `generateMeshes` assigns are kept.
- The seeded simplex noise (`RNG`, `SimplexNoise`, scale, magnitude and offset) is not modelled. Terrain generation takes the floored column height as an input function `columnHeight(x, z)`, and the clamp applied to it is modelled exactly.
- The world's `params.seed` and the rendering-only `this.clear()` / `this.add(mesh)` calls are not modelled.
- PlayerController.Update: the horizontal displacement made by `PointerLockControls.moveRight/moveForward` is an input, because it depends on the camera's yaw. The normalized heading and the speed 10 that scale it are therefore not related to it in the contract. Only the condition for moving, a non-zero heading, is modelled.
- The player cube's yaw, taken from the camera quaternion, is not modelled. Nor is `getControls`, or the pointer lock itself.
- PlayerController.Enable and PlayerController.Disable: only the `enabled` flag is modelled; locking and unlocking the pointer is not.
- Audio is not modelled: walk audio play/pause/rewind, the rejected `play()` promise, and the gun sound. `walking` records which branch `_updateWalkingAudio` takes.
- Registering and removing DOM listeners is not modelled: `startListening`, `stopListening`, the listeners `setActive` adds, and `setupEvents`. Each handler is a function from state and event to state.
- The socket.io and express transport is not modelled, and neither are CORS and `server.listen`.
- The first `connection` handler in `server.js` (lines 15-21) only logs, so it is left out.
- Console logging is not modelled.
- `Player.remotePlayers` and `Player.localPlayer` are read by the gun but not defined in the core files. They are the `Scene` input, and an avatar without a mesh is `None`.
- The raycaster is not modelled. `shoot` takes the view ray's origin and direction as inputs.
- GunManager.CheckPlayerCollision: the roster is ordered as a sequence with the local player replacing or following the remote avatars. JavaScript's ordering of integer-like property names ahead of other names is not modelled.
- Floating-point rounding, NaN or infinite deltas, and the square root behind `distanceTo` and `length()` are not modelled. The comparisons are made on squared distances over exact reals.
- Malformed socket payloads are not modelled, such as a missing `position`/`rotation` or a non-object. A movement payload is a position, a rotation about y and an optional `id`.
- Behaviour the core code does not have is not modelled: voxel bounding-box collision for the player, server relay of `shootBullet`/`playerHit`, a life counter, yaw/pitch sync, movement emission, and a remote-avatar registry.
- `scripts/main.js`, `scripts/ui.js`, `scripts/blocks.js` and `vite.config.js` are not part of this model. Of the block types only "0 is empty" is used, and grass is id 1 as `generateTerrain` writes it.
