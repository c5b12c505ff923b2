# Arena multiplayer: a model of the game's bookkeeping

This project models the bookkeeping core of a small multiplayer arena game built on a
Rust game engine. The game has three parts:

- a **client layer** (`ClientLayer`), which mirrors the server's scene;
- the **legacy arena server** (`ArenaLayer`), which loads a level, registers players on spawn
  slots and relays every player's trusted positions to the others;
- the current server's **network controller** (`NetworkController`), which fills an asset
  store and a prefab catalog from the level file and synchronises each joining player.

Two shared pieces sit beside them:

- the **player controller** (`PlayerController`), which turns input into movement, jumps and
  animation;
- the **player input** record (`PlayerInput`), which is folded from the device state every
  frame.

The model leaves out the maths and keeps the bookkeeping: the lock on trusted inputs and the
FIFO position cache, the counters that gate physics while assets load, the bounded
parent-chain walk, level classification, spawn slots, the join and leave protocols and their
message order, the controller's jump and ground state, and the input fold.

Modules, one per file:

- `Common`: identifiers (`Uuid`, `PlayerId` and `Entity` are naturals), vectors over the reals,
  transforms, and an abstract matrix term `Mat`. In `Mat`, `Mul` is an uninterpreted product.
  The module also provides `Enumerates(order, keys)`, which states that a sequence lists a
  hash map's keys once each. Every loop over a `HashMap`, or over the scene, takes such an
  order as a parameter, because the program does not control iteration order.
- `Scenes`: the engine's entity-component scene as a value. It maps live handles to
  components and keeps a next-handle counter.
- `TrustedInputs`: the frame-lock drop rule shared by client and server, and the
  position-cache queue.
- `Protocol`: components, full and partial prefabs, assets and server messages of the client
  and the legacy server, with `receive_prefab` and `receive_packet`.
- `ParentChain`: `update_parent_transform` (identical in client and server) and the per-tick
  parent pass.
- `Replicas`: the client's replica (scene, id-to-entity map, position caches) and the loops
  over it, one iteration at a time.
- `Client`: the `ClientLayer` class.
- `Arena`: the `ArenaLayer` class and the value-level functions its methods are proved
  against.
- `Network`: `ModelNames` and the `NetworkController` class.
- `Controller`: the `PlayerController` class.
- `PlayerInputs`: the `PlayerInput` class and its event loops.

How the model represents the program:

- Each state-changing method is a method of a class with the source's fields. Each loop
  is a method over values, proved equal to a function defined from the back of its input. The
  lemmas about those functions state the program's promises.
- A `panic!` or a failing `unwrap()` is `None` in a function and `panicked == true` in a
  method. What a method leaves behind after a panic is stated only where it matters.
- Sends are appended to an `outbox` sequence of messages.
- Floats are `real`. `normalize` is a function parameter.

Behaviours of the code worth noting:

- An input whose frame equals the lock is accepted, because the drop test is `frame < lock`
  (`src/client/client.rs:327`, `src/server/server.rs:510`).
- `NetworkController::sync_world` sends `Prefabs` before `Entities`
  (`src/server/network_controller.rs:147-153`).
- The parent pass panics on an unknown parent id rather than skipping the entity
  (`src/server/server.rs:565`, `src/client/client.rs:555`).
- In `ArenaLayer::on_player_joined`, the spawn translation and rotation are written into
  temporary copies made by `unwrap()`, so they never reach the prefab
  (`src/server/server.rs:473-474`). The model does not apply them.
- `on_post_physics` sends frame 0 in every report (`src/client/client.rs:937`).
- `ArenaLayer::receive_prefab` looks the prefab up in the entity map by its `IdComponent`
  (`src/server/server.rs:269`), a map keyed by the bare uuid. The model reads this as a
  lookup by the component's uuid.
- `on_session_start` instantiates a prefab tagged "Spectator" like any other uncatalogued
  prefab (`src/server/network_controller.rs:196-200`).

## Model

| member | source | states |
|---|---|---|
| Protocol.AddPrefab | src/client/client.rs:184-226 | the entity gets the prefab's id and tag; every optional component the prefab carries replaces the entity's, and every component it lacks is kept |
| Protocol.AddPacket | src/client/client.rs:165-182 | a packet sets the IdComponent and replaces transform, animation and input when the packet carries them; the tag, parent and physics stay |
| Protocol.PackAfterReceive | src/server/server.rs:160-200 | a prefab received onto a fresh tagged entity packs back to the same prefab |
| TrustedInputs.LockNeverDecreases | src/client/client.rs:324-337 | the lock after a batch is never below the lock before it |
| TrustedInputs.AcceptedFrames | src/client/client.rs:324-337 | accepted frames are at least the starting lock, are non-decreasing and come from the batch; the final lock is the last accepted frame, or the old lock when all are dropped |
| TrustedInputs.AcceptOneMore | src/client/client.rs:327-331 | one more input is accepted exactly when its frame is not below the lock in force, and it then becomes the lock; otherwise nothing changes |
| TrustedInputs.IngestSplit | src/client/client.rs:324-337 | ingesting a batch in two parts equals ingesting it at once, the second part starting from the lock the first left |
| TrustedInputs.OldestFirst | src/client/client.rs:333-336 | read from the `pop_back` end, translations already queued leave before new ones, and new ones leave in arrival order (FIFO) |
| TrustedInputs.RepeatedFrameIsAccepted | src/server/server.rs:509-522 | example: on frames 5, 3, 5, 7 from lock 0 the frame-3 input is dropped, the repeated 5 is kept, the lock ends at 7 and the last translation is frame 7's |
| ParentChain.UpdateParentTransform | src/client/client.rs:228-259 | for any parent graph, cycles included, the walk adds at most MAX_PARENTS + 1 - iteration products to the local matrix and never removes any |
| ParentChain.UnchainedParentNotComposed | src/client/client.rs:238-257 | a parent without a Transform or without a Parent component returns the local matrix unchanged |
| ParentChain.UnknownParentPanics | src/client/client.rs:243-248 | a chained parent whose parent id is not in the entity map panics |
| ParentChain.SelfParentComposesFiveTimes | src/client/client.rs:228-259 | an entity that is its own parent composes its transform exactly MAX_PARENTS + 1 - iteration times (five from iteration 0), so the walk terminates |
| ParentChain.WalkReadsOnlyShape | src/client/client.rs:546-560 | the walk depends only on transforms and parent ids, so storing world matrices during the pass does not change later walks |
| ParentChain.WalkPanicsOnSkeleton | src/client/client.rs:228-260 | whether the walk panics depends only on which entities have transforms and on their parent ids, not on transform values or the local matrix |
| ParentChain.PassPanicsOnSkeleton | src/server/server.rs:555-570 | two scenes with the same skeleton make the parent pass panic alike |
| ParentChain.ResolveParents | src/server/server.rs:555-570 | the pass panics exactly when some entity with Transform and Parent has an unknown parent id or a walk that panics; otherwise each such Parent component gets its entity's resolved world matrix and nothing else changes |
| Replicas.GetOrCreate | src/client/client.rs:154-163 | the id is recorded and mapped to the returned entity; the scene's handles stay valid and no live entity disappears |
| Replicas.GetOrCreateFacts | src/client/client.rs:154-163 | a known id returns its entity and changes nothing; an unknown id creates exactly one new entity carrying only its tag; existing records never change |
| Replicas.ApplyPop | src/client/client.rs:411-418 | a relayed translation is written only into an entity with a tag and a transform, and changes nothing else |
| Replicas.PopStep | src/client/client.rs:400-419 | one iteration keeps handles valid and the cache's keys, and never removes an entity |
| Replicas.PopAll | src/client/client.rs:400-419 | the whole loop keeps handles valid and the cache's keys, and never removes an entity |
| Replicas.PopStepFacts | src/client/client.rs:400-419 | one iteration records an entity for the player (fresh if new), changes at most the entity it targets, and writes the oldest queued translation into it |
| Replicas.PopAllShape | src/client/client.rs:400-419 | the loop keeps every recorded entity, records exactly the visited players in addition (with fresh entities) and keeps handles distinct |
| Replicas.PopAllCaches | src/client/client.rs:400-419 | every visited player's queue loses exactly its oldest translation (at most one per tick); unvisited queues are unchanged |
| Replicas.PopAllUntouched | src/client/client.rs:400-419 | an entity no visited player targets keeps its components |
| Replicas.PopAllApplies | src/client/client.rs:400-419 | a visited player with a queued translation and a live entity gets its oldest translation written into that entity |
| Replicas.ReceiveStep | src/client/client.rs:383-386 | one prefab records its id as `get_or_create_entity` does and never removes an entity |
| Replicas.ReceiveStepFacts | src/client/client.rs:383-386 | one prefab keeps handles valid and distinct, changes only its id's entity, and that entity is live and carries the prefab |
| Replicas.ReceiveAll | src/client/client.rs:383-386 | after a batch, the recorded ids are the old ones plus every id the batch names |
| Replicas.ReceiveAllShape | src/client/client.rs:383-386 | a batch keeps handles valid and distinct and never changes an earlier record |
| Replicas.ReceiveLastWins | src/client/client.rs:383-386 | the last prefab of a batch leaves its entity live and carrying that prefab |
| Replicas.ReceiveOtherKeeps | src/client/client.rs:383-386 | a prefab for another id leaves a recorded live entity as it was |
| Replicas.ReceiveAllLastWins | src/client/client.rs:383-386 | after a batch, each id's entity carries the last prefab with that id |
| Replicas.PacketStep | src/client/client.rs:388-391 | a packet keeps handles valid and the caches, and never removes an entity |
| Replicas.PacketStepFacts | src/client/client.rs:388-391 | a packet changes only its id's entity, which gets the packet's id and optional components and keeps its tag (a new entity takes the packet's tag) |
| Replicas.PopLoop | src/client/client.rs:400-419 | the position-cache loop computes `PopAll` and keeps the replica valid |
| Replicas.ReceiveLoop | src/client/client.rs:383-386 | the prefab loop computes `ReceiveAll` and keeps the replica valid |
| Client.Wrap | src/client/client.rs:742 | the debouncer stays in [0, 60) and is unchanged below 60 |
| Client.WrapOnce | src/client/client.rs:742 | from 60 up to 120 the debouncer wraps to its excess over 60 |
| Client.CountDown | src/client/client.rs:283 | `(c - 1).max(0)` is never negative, is c - 1 from 1 up and 0 otherwise |
| Client.CountDownAgain | src/client/client.rs:280-296 | n results bring a non-negative counter to max(c - n, 0), one more to max(c - n - 1, 0) |
| Client.Route | src/client/client.rs:872-887 | started or stopped events involving the self collider are routed as start or stop, with the other collider named; all others are unrelated |
| Client.ForeignCollisionsIgnored | src/client/client.rs:872-887 | events between other colliders leave the grounded flag and the jump counter alone |
| Client.StartedContactGrounds | src/client/client.rs:872-887 | after a started contact with no later stop, the player is grounded with 0 jumps |
| Client.SelfReports | src/client/client.rs:927-943 | at most one report per entity; each has frame 0 and the translation of a local-player entity |
| Client.SelfReportsComplete | src/client/client.rs:927-943 | every local-player entity of the order with a transform is reported with its translation and frame 0 |
| Client.SelfReportsSplit | src/client/client.rs:927-943 | the reports follow the scene order: those over two consecutive stretches are the first stretch's, then the second's |
| Client.IngestBatch | src/client/client.rs:321-338 | the lock loop yields the final lock and pushes the accepted translations to the queue's front; the queue is touched iff some input is accepted |
| Client.LoadingRequests | src/client/client.rs:350-358 | the counters grow by the number of model assets with `trigger_loading`, else by 0 |
| Client.ClientLayer.constructor | src/client/client.rs:86-143 | empty scene, maps and queues, zero counters and clocks, an uninitialised controller |
| Client.ClientLayer.GetOrCreateEntity | src/client/client.rs:154-163 | the replica becomes `GetOrCreate` of the old one; no other field changes |
| Client.ClientLayer.OnTrusted | src/client/client.rs:321-338 | scene and entity map become those of `GetOrCreate(old replica, player, "tmp")`, so the player has a record and old records are kept; the player's lock (0 if new) becomes `FinalLock`, the queue gets the accepted translations pushed to its front; counters, clocks and outbox are untouched |
| Client.ClientLayer.OnSyncWorld | src/client/client.rs:343-387 | both counters grow by the model count when `trigger_loading`, then every prefab is received in order (`ReceiveAll`) |
| Client.ClientLayer.OnPacket | src/client/client.rs:388-391 | the replica becomes `PacketStep` of the old one; counters and locks are untouched |
| Client.ClientLayer.OnAssetResults | src/client/client.rs:269-318 | each counter becomes max(c - n, 0) for its n results, so it never goes negative; trimesh ids are added |
| Client.ClientLayer.ConsumePositionCache | src/client/client.rs:400-419 | one oldest translation per player with a cache is applied (`PopAll`) in the map's order |
| Client.ClientLayer.InitializeController | src/client/client.rs:447-457 | an uninitialised controller is bound to a local-player entity and its id when one exists; otherwise nothing changes |
| Client.ClientLayer.HandleInput | src/client/client.rs:459-484 | panics iff the input count is not 1 and then changes nothing; otherwise click and canvas are recorded, a click requests mouse capture, and the controller and scene change exactly as `DriveController` states for the one sample |
| Client.ClientLayer.RecordInput | src/client/client.rs:464-477 | the click and the canvas come from the sample; a click asks for mouse capture |
| Client.ClientLayer.DriveController | src/client/client.rs:479-480 | the scene becomes `Driven`: an initialised controller whose query finds its entity with an animation writes the animation chosen from the ground flag and the steered translation, nothing else changes; an initialised controller jumps iff `Jumps` (found with physics, a jump pending before or requested by the sample, fewer than 2 jumps), adding one jump and one JUMP_VELOCITY, and ends with zero deltas and no pending jump; an uninitialised one changes nothing; ground flag, entity and id are kept |
| Client.Driven | src/shared/player_controller.rs:127-165 | keys and handle counter kept; only the controlled entity's animation can change, to `ChooseAnimation`'s pick; an airborne or uninitialised controller leaves the scene as it was |
| Client.ClientLayer.ResolveParentTransforms | src/client/client.rs:546-560 | the parent pass panics exactly as `ResolveParents` says, otherwise stores each resolved world matrix |
| Client.ClientLayer.AdvanceFrame | src/client/client.rs:736-742 | while a counter is above 0 frame and debouncer stay; otherwise the frame grows by the step and the debouncer wraps at 60 |
| Client.ClientLayer.OnUpdate | src/client/client.rs:397-743 | panics unless exactly one input is queued; caches lose their oldest entry; counters, locks and outbox are unchanged; the clock advances only when not gated |
| Client.ClientLayer.RouteCollisions | src/client/client.rs:864-889 | grounded flag and jump counter end as the routed event sequence determines (`GroundedAfter`, `JumpsAfter`) |
| Client.QueueFalls | src/client/client.rs:754-765 | the despawn queue holds exactly the entities with a tag, a transform and a physics body with a collider that are below y = -700 |
| Client.DrainDespawns | src/client/client.rs:856-860 | despawning the queued entities one at a time removes exactly the queued set; every other entity keeps its components |
| Client.Survivors | src/client/client.rs:754-860 | the scene the collision loop sees has lost the fallen entities, and none of the rest falls |
| Client.Placed | src/client/client.rs:895-923 | an entity with an id, a transform and a collider with a post-step pose takes the pose's translation and rotation and keeps its scale; every other component, and every other entity, is untouched |
| Client.AfterStep | src/client/client.rs:895-923 | the write-back adds and removes no entity and keeps the scene valid |
| Client.WriteBack | src/client/client.rs:895-923 | the loop places every entity as `Placed` says, whatever the visiting order |
| Client.ClientLayer.DrainCollisions | src/client/client.rs:862-889 | without a local-player body the channel and the controller are untouched; otherwise the channel is emptied and the grounded flag and jump counter are those of routing the drained events through a local-player body's collider |
| Client.ClientLayer.OnPhysics | src/client/client.rs:747-925 | while assets load nothing changes; otherwise the fallen entities are despawned, the collision channel is routed through a local-player body's collider in the surviving scene (or kept when there is none), the step's events are queued, and every entity with a posed collider takes its post-step translation and rotation |
| Client.ClientLayer.OnPostPhysics | src/client/client.rs:927-943 | the outbox gains one frame-0 report per local-player entity, in scene order |
| Controller.ChooseAnimation | src/shared/player_controller.rs:157-165 | only a grounded controller changes the animation: running when the translation is non-zero, idle otherwise |
| Controller.PlayerController.IsInitialized | src/shared/player_controller.rs:55-57 | initialised iff the id is non-nil |
| Controller.PlayerController.constructor | src/shared/player_controller.rs:41-53 | uninitialised, not grounded, no jumps, no pending jump, zero deltas |
| Controller.PlayerController.Initialize | src/shared/player_controller.rs:59-68 | entity and id are set; movement state is untouched |
| Controller.PlayerController.ResetInput | src/shared/player_controller.rs:70-74 | translation and rotation deltas are zeroed and the pending jump cleared; nothing else changes |
| Controller.PlayerController.Input | src/shared/player_controller.rs:76-115 | no effect when uninitialised or without mouse lock; otherwise rotation y := -delta.x when abs(delta.x) < 100, translation accumulates and is normalised when non-zero, action requests a jump |
| Controller.PlayerController.Update | src/shared/player_controller.rs:117-169 | no effect when uninitialised; otherwise a jump happens iff requested, physics is present and fewer than 2 jumps were made, adding 1; the velocity lifts by JUMP_VELOCITY per jump ever made; the animation is chosen; input is reset |
| Controller.PlayerController.OnCollisionStart | src/shared/player_controller.rs:171-177 | grounded, jump counter 0, nothing else changes |
| Controller.PlayerController.OnCollisionStop | src/shared/player_controller.rs:179-183 | not grounded, jump counter unchanged |
| Controller.DoubleJumpScenario | src/shared/player_controller.rs:145-154 | example: in the air at most two jumps happen (velocity 2 × JUMP_VELOCITY); after a ground contact the next jump happens |
| PlayerInputs.LastKeyDecides | src/shared/input.rs:69-77 | D/Right give x = 1, A/Left x = -1, W/Up z = 1, S/Down z = -1, and the last mapped key on each axis wins |
| PlayerInputs.RestingSticksIgnored | src/shared/input.rs:81-97 | gamepads whose left stick is inside the dead zone change neither direction nor mouse delta |
| PlayerInputs.PressButtons | src/shared/input.rs:41-52 | primary and secondary buttons only set the clicks, never clear them |
| PlayerInputs.ApplyMouseEvents | src/shared/input.rs:54-67 | the last motion or wheel event decides the mouse delta |
| PlayerInputs.ApplyKeys | src/shared/input.rs:69-77 | the key loop leaves x and z as the last mapped key of each axis set them, y unchanged |
| PlayerInputs.ApplyGamepads | src/shared/input.rs:81-97 | outside the dead zone the left stick sets x and -y into the direction and the right stick is copied into the delta; last pad wins |
| PlayerInputs.ApplyWindowEvents | src/shared/input.rs:99-106 | mouse lock and fullscreen take the last event of their pair, or keep their value |
| PlayerInputs.PlayerInput.New | src/shared/input.rs:111-125 | zero vectors, flags false, pixel ratio 1, canvas (0, 0), empty keyboard, whatever the arguments |
| PlayerInputs.PlayerInput.Default | src/shared/input.rs:22-26 | the default record is the `new` record |
| PlayerInputs.PlayerInput.Reset | src/shared/input.rs:29-33 | the three vectors are zeroed; clicks, flags, focus, canvas, ratio and keyboard stay |
| PlayerInputs.PlayerInput.FromDevices | src/shared/input.rs:35-108 | focus, canvas, ratio and keyboard are copied; the clicks only turn on; delta, direction, lock and fullscreen are the last writes of their loops, in loop order |
| Arena.RoleOf | src/server/server.rs:378-402 | "spectator-spawn-1" is a spectator point, "spawn 1".."spawn 4" spawn points, "spectator" and "foxy" are catalogued, and every other tag is received |
| Arena.LoadStep | src/server/server.rs:378-402 | one level prefab keeps the scene valid and the caches |
| Arena.LoadAll | src/server/server.rs:378-402 | spawn points and slots grow together, old slots are kept and every new slot is free |
| Arena.LoadAllPanics | src/server/server.rs:378-402 | loading panics iff some spawn or spectator point has no transform |
| Arena.LoadAllShape | src/server/server.rs:378-402 | loading keeps handles valid and distinct and never changes an earlier record |
| Arena.CatalogLastWins | src/server/server.rs:389-397 | the catalog keeps the last prefab of each catalogued tag |
| Arena.CatalogUntouched | src/server/server.rs:389-397 | a name no level prefab carries keeps its catalog entry (or its absence) |
| Arena.LoadLoop | src/server/server.rs:378-402 | the prefab loop computes `LoadAll` and keeps the world valid |
| Arena.LoadNoneStays | src/server/server.rs:378-402 | a panic on a prefix of the level is a panic on the whole level |
| Arena.Loaded | src/server/server.rs:378-420 | level part of `on_attach`: panics iff loading panics or no "spectator" was catalogued; otherwise spawns, slots, spectators and catalog are those of the loop |
| Arena.LoadWorld | src/server/server.rs:378-420 | computes `Loaded` |
| Arena.SpectatorsAt | src/server/server.rs:404-416 | one copy of the spectator prefab per spectator point, with a fresh id and the point's transform |
| Arena.SpectatorsPlaced | src/server/server.rs:404-416 | with distinct fresh ids, every spectator point ends up a live entity with its id and the spectator's tag |
| Arena.FirstFree | src/server/server.rs:460-469 | the index of the first free slot, or none when every slot is taken |
| Arena.ClaimSpawn | src/server/server.rs:460-469 | the first free slot goes to the player and no other slot changes; with none free nothing changes and index 0 is used |
| Arena.FirstFreeIsFirst | src/server/server.rs:460-469 | a free slot preceded only by taken ones is the one claimed |
| Arena.ReleaseSlots | src/server/server.rs:447-451 | every slot holding the player is freed and every other slot is unchanged |
| Arena.PackAll | src/server/server.rs:164-200 | one prefab per entity of the scene order |
| Arena.PackAllSpec | src/server/server.rs:164-200 | packing succeeds iff every entity has an id and a tag, and then the k-th prefab is the k-th entity packed |
| Arena.PackScene | src/server/server.rs:164-200 | the entity loop computes `PackAll` |
| Arena.PackNoneStays | src/server/server.rs:164-200 | a panic on a prefix of the scene order is a panic on the whole order |
| Arena.AssetList | src/server/server.rs:202-240 | one asset per model, animation and background, with exactly one model asset per model |
| Arena.Notices | src/server/server.rs:484-493 | one reliable `SyncWorld(trigger_loading = false)` per registered player, carrying the joiner's prefab |
| Arena.JoinerAloneIsSelf | src/server/server.rs:484-493 | among distinct rooms containing the joiner, a notice is marked `is_self` iff it goes to the joiner, and exactly one is |
| Arena.NoticeLoop | src/server/server.rs:484-493 | the notification loop computes `Notices` |
| Arena.Relay | src/server/server.rs:525-534 | every relay is the whole batch, on the unreliable channel, to a registered player other than the sender |
| Arena.RelayReachesOthers | src/server/server.rs:525-534 | every other registered player receives the batch |
| Arena.RelayLoop | src/server/server.rs:525-534 | the relay loop computes `Relay` |
| Arena.LockLoop | src/server/server.rs:509-522 | the lock becomes `FinalLock`, and the transform holds the last accepted translation |
| Arena.EnrollKeepsValid | src/server/server.rs:478-481 | receiving the joiner's prefab and recording the player keeps the arena invariant |
| Arena.LoadKeepsValid | src/server/server.rs:378-420 | loading a level and placing spectators keeps the arena invariant |
| Arena.ArenaLayer.constructor | src/server/server.rs:105-143 | empty scene, maps, point lists and outbox; frame and timing 0 |
| Arena.ArenaLayer.ReceivePrefab | src/server/server.rs:267-317 | the prefab lands on the entity recorded for its id (created if new), which is returned with the id |
| Arena.ArenaLayer.LoadLevel | src/server/server.rs:378-420 | panics iff `Loaded` does; otherwise the world, points, slots and catalog are those of `Loaded` |
| Arena.ArenaLayer.OnAttach | src/server/server.rs:355-435 | takes the config, models and backgrounds, loads the level as `LoadLevel`, and adds the animations unless it panicked |
| Arena.ArenaLayer.OnPlayerLeft | src/server/server.rs:439-452 | the player leaves the info and lock maps, its entity is despawned if it was connected, and every slot it held is freed |
| Arena.ArenaLayer.SendWorld | src/server/server.rs:160-265 | `UpdateConfig`, then `SyncWorld(trigger_loading = true)` of the packed scene and asset list, both reliable to the joiner; panics iff packing does |
| Arena.ArenaLayer.Register | src/server/server.rs:456-482 | panics iff "foxy" is missing, no slot is free with no spawn points, or foxy has no transform; otherwise the first free slot is claimed, foxy with the player's id is received, and the player is registered with lock 0 |
| Arena.ArenaLayer.Enroll | src/server/server.rs:478-481 | the prefab is received and the player recorded with its entity and lock 0 |
| Arena.ArenaLayer.Admit | src/server/server.rs:458-493 | panics exactly as `Register` does, leaving the outbox, players and locks as they were; otherwise "foxy" with the player's id is received, the player is recorded under its entity with lock 0, the first free slot is claimed (`Registers`), and the outbox gains the notice for every registered player |
| Arena.ArenaLayer.OnPlayerJoined | src/server/server.rs:454-495 | the joiner is first sent UpdateConfig, then the loading SyncWorld of the scene as packed before its entity exists, with every model, animation and background listed once; panics iff packing panics, "foxy" is missing or has no transform, or no slot is free and there are no spawn points; otherwise "foxy" with the player's id is received, the player is recorded under its entity with lock 0, the first free slot is claimed, and every registered player (joiner included) then gets the notice |
| Arena.BatchKeepsSkeleton | src/server/server.rs:509-522 | a batch moves its player's entity at most, so no entity gains or loses a transform or changes parent |
| Arena.ArenaLayer.OnBatch | src/server/server.rs:499-534 | a batch from an unknown player changes nothing; otherwise the lock rule runs, the entity takes the last accepted translation, and the whole batch is relayed to the others; the scene keeps its skeleton |
| Arena.ArenaLayer.DrainInputs | src/server/server.rs:497-535 | the lock map keeps its keys, no lock decreases, and the scene keeps its skeleton (keys, which entities have transforms, parent ids) |
| Arena.ArenaLayer.OnUpdate | src/server/server.rs:497-575 | locks keep their keys and never decrease; it panics exactly when the parent pass panics on the scene as it was before the inputs (which move entities but never change what the pass reads to panic); frame and timing advance by 1 and 0.0005 unless it panics |
| Network.FromStr | src/server/network_controller.rs:41-49 | each of the four names maps to its variant, and any other string panics |
| Network.ToStr | src/server/network_controller.rs:51-58 | reading a written name back gives the same variant |
| Network.NameRoundTrip | src/server/network_controller.rs:41-58 | every accepted string is written back unchanged |
| Network.InsertAll | src/server/network_controller.rs:166-180 | every id is stored under its own kind; ids not inserted keep their entries |
| Network.InsertLoop | src/server/network_controller.rs:166-180 | an insert loop computes `InsertAll` |
| Network.StockedHoldsLevel | src/server/network_controller.rs:166-180 | the store holds every terrain, model, trimesh, background and animation id of the level, each under its own id |
| Network.InsertKeyed | src/server/network_controller.rs:166-180 | an insert loop keeps entries under their own ids and adds exactly the inserted ids |
| Network.Definitions | src/server/network_controller.rs:92-95 | one definition per id of the order |
| Network.DefinitionsCoverStore | src/server/network_controller.rs:92-95 | the bundle has one definition per stored asset, with distinct ids, covering the store |
| Network.CollectDefinitions | src/server/network_controller.rs:92-95 | the definitions loop computes `Definitions` |
| Network.Catalogued | src/server/network_controller.rs:183-200 | only "Player", "Smoke Bomb" and "Hoverboard" are catalogued, under the name written as the tag, never Spectator |
| Network.Classify | src/server/network_controller.rs:183-200 | one prefab keeps the scene valid |
| Network.ClassifyAll | src/server/network_controller.rs:182-202 | the prefab loop keeps the scene valid |
| Network.SessionLoop | src/server/network_controller.rs:182-202 | the prefab loop computes `ClassifyAll` |
| Network.Instances | src/server/network_controller.rs:182-202 | the uncatalogued prefabs, in order |
| Network.ClassifyAllScene | src/server/network_controller.rs:182-202 | every uncatalogued prefab, "Spectator" included, lands on its own new entity in order; earlier entities are untouched |
| Network.SessionCatalogLastWins | src/server/network_controller.rs:182-202 | a later prefab with a catalogued tag replaces an earlier one |
| Network.ClassifyAllTags | src/server/network_controller.rs:182-202 | every catalog entry carries the tag of its name, and Spectator is never added |
| Network.Mark | src/server/network_controller.rs:110-114 | a prefab whose id is the player's gets a self marker appended; every other prefab is unchanged |
| Network.PackEntities | src/server/network_controller.rs:109-116 | one packed prefab per scene entity |
| Network.PackEntitiesSpec | src/server/network_controller.rs:109-116 | packing succeeds iff every entity carries a prefab, and the k-th result is the k-th entity's prefab, marked |
| Network.PackLoop | src/server/network_controller.rs:109-116 | the entity loop computes `PackEntities` |
| Network.PackNoneStays | src/server/network_controller.rs:109-116 | a panic on a prefix of the scene order is a panic on the whole order |
| Network.SyncMessages | src/server/network_controller.rs:131-153 | all reliable to the player: Config only when one is set, then Assets with `trigger_loading`, then Prefabs, then Entities |
| Network.Joined | src/server/network_controller.rs:205-232 | panics iff Player or Hoverboard is missing or the hoverboard has no Parent; otherwise the player's entity gets Player with the player's id, and a new entity gets the hoverboard with a fresh id and parent := player |
| Network.HoverboardOutlivesPlayer | src/server/network_controller.rs:236-246 | after a join, the player leaving despawns its entity and leaves the hoverboard in place |
| Network.NetworkController.constructor | src/server/network_controller.rs:72-85 | no config, empty store and catalog |
| Network.NetworkController.OnSessionStart | src/server/network_controller.rs:159-203 | the config is set, the store is stocked from the level, and scene and catalog are the classification of the level's prefabs |
| Network.NetworkController.SyncWorld | src/server/network_controller.rs:89-154 | panics iff packing does; otherwise the outbox gains exactly `SyncMessages` of the store's definitions, the registry and the marked entities |
| Network.NetworkController.OnPlayerJoined | src/server/network_controller.rs:205-234 | the scene becomes `Joined`, then `SyncWorld` runs; the player's entity holds the Player prefab |
| Network.NetworkController.OnPlayerLeft | src/server/network_controller.rs:236-246 | only the given entity is despawned |

## Left out

- Rendering, cameras, lights, the sky timer's cosine, the physics engine (rigid bodies,
  colliders, joints, `physics.run`), asset downloads, serde and logging. They are engine
  maths or foreign calls.
- The `panic!("Camera not implemented yet")` in `ClientLayer::on_update` is not modelled,
  because cameras are left out.
- The server's `on_physics` is physics throughout. In the client's, body and collider
  creation, the velocities handed to the bodies, `physics.remove` and the zeroing of the
  physics component's deltas are engine state and are not modelled.
- `ClientLayer::on_network` has no method of its own: each message arm and the asset-result
  loop (`OnAssetResults`) is modelled, but the model does not state that asset results are
  handled before messages (`src/client/client.rs:268-394`).
- Channels (`crossbeam`, `mpsc`) are plain sequences drained in order. The async
  `on_attach` takes the level file's contents as parameters.
- Hash-map and scene iteration orders, fresh `Uuid::new_v4` / `PrefabId::new` ids, the
  registry that `scene.iter_prefabs` yields, and the physics engine's collider handles are
  all parameters.
- The engine's `create_entity` hands out a handle no live entity has, and it carries only a
  tag. Adding components to a despawned handle is modelled as a no-op.
- Network.PackEntities: `Prefab::pack` is modelled to fail only on an entity that never
  received a prefab. Other failure causes are not modelled.
- Matrices are a term algebra (`Mat`). Matrix arithmetic is not interpreted.
- The `ArenaLayer` terrain map is never filled by the source and is not modelled. The
  network controller's spawn and spectator point fields are never used.
- `Network.NetworkController` stores `(kind, id)` for an asset. The asset definitions
  themselves are not modelled.
- Client.ClientLayer.OnUpdate: states the panic on an input count other than one, the caches,
  counters and clock. The effects of the input block and the parent pass are stated by
  `HandleInput` and `ResolveParentTransforms`. It does not state which of them panicked.
- Client.ClientLayer.DriveController: the translation, rotation and jump-lift deltas the
  update adds to the entity's physics body are not part of the modelled PhysicsComponent, so
  only the written-back animation appears in the scene.
- Client.ClientLayer.OnPhysics: the post-step collider poses come in as a parameter, already
  less the joint offset. Of the controller, only the grounded flag and jump counter are
  stated. The stale `entities` entries of despawned entities are kept, as in the source.
- Arena.ArenaLayer.DrainInputs: states only that the lock map keeps its keys and that no lock
  decreases. The per-batch effect is stated by `OnBatch`.
- Arena.ArenaLayer.OnUpdate: states locks, frame and timing. It does not state the parent
  matrices it stores. `ResolveParents` states those.
- Arena.ArenaLayer.LoadLevel: the state after a panic is left unspecified.
- Arena.ArenaLayer.OnAttach: the state after a panic is left unspecified.
- Arena.ArenaLayer.OnPlayerJoined: after a panic in the registration step, the scene, the entity
  map and the spawn slots are not stated.
- Arena.ArenaLayer.SendWorld: a model asset carries only its id and the instance budget (100).
  Its sources and submeshes are not modelled. Terrains are never sent because the map is
  empty. Packed prefabs carry ids, tags, transforms, parents, physics, input and animation
  components. The engine's other components are not modelled.
- Controller.PlayerController.Initialize: the input speed it writes into the entity's
  InputComponent is not modelled, since speeds are left out.
- Controller.PlayerController.Update: the physics and rotation deltas added to the entity's
  PhysicsComponent are returned only as the jump lift. The direction vectors are float
  geometry.
- `DefaultInput` is the engine's input sample reduced to the fields the controller and the
  client read.
- The 16-bit width of the asset counters is not modelled: they only go up by the number of
  model assets in a message.
- The weapon (`GreatAx`) the controller owns holds constant stubs and is not part of this
  model.
