/** The client layer: it mirrors the server's scene, queues the trusted positions
    the server relays for every player, holds back physics while assets are still
    loading, drives the local player controller and reports the local player's
    position back to the server. */
module Client {
  import opened Common
  import opened Scenes
  import opened TrustedInputs
  import opened Protocol
  import opened ParentChain
  import opened Controller
  import opened Replicas

  /** What `on_update` adds to the frame clock when it runs to the end. */
  const FRAME_STEP: real := 0.00005
  /** The debouncer wraps around at this value. */
  const DEBOUNCE_PERIOD: real := 60.0

  /** Rust's `%` on a non-negative float, by DEBOUNCE_PERIOD. */
  function Wrap(x: real): (r: real)
    requires x >= 0.0
    ensures 0.0 <= r < DEBOUNCE_PERIOD
    ensures x < DEBOUNCE_PERIOD ==> r == x
  {
    x - DEBOUNCE_PERIOD * ((x / DEBOUNCE_PERIOD).Floor as real)
  }

  /** A value that has passed the period once wraps to its excess over it. */
  lemma WrapOnce(x: real)
    requires DEBOUNCE_PERIOD <= x < 2.0 * DEBOUNCE_PERIOD
    ensures Wrap(x) == x - DEBOUNCE_PERIOD
  {
    assert (x / DEBOUNCE_PERIOD).Floor == 1;
  }

  /** A loaded asset handed back by the asset runner. */
  datatype AssetResult =
    | BackgroundLoaded(id: Uuid)
    | TrimeshLoaded(id: Uuid)
    | ModelLoaded(id: Uuid)
    | TerrainLoaded(id: Uuid)
    | AnimationLoaded(id: Uuid)
    | TextureLoaded(id: Uuid)
    | ParticleLoaded(id: Uuid)

  function TrimeshCount(results: seq<AssetResult>): nat {
    if results == [] then 0
    else TrimeshCount(results[..|results| - 1]) + (if results[|results| - 1].TrimeshLoaded? then 1 else 0)
  }

  function ModelCount(results: seq<AssetResult>): nat {
    if results == [] then 0
    else ModelCount(results[..|results| - 1]) + (if results[|results| - 1].ModelLoaded? then 1 else 0)
  }

  function TrimeshIds(results: seq<AssetResult>): set<Uuid> {
    set k | 0 <= k < |results| && results[k].TrimeshLoaded? :: results[k].id
  }

  /** `(c - 1).max(0)`: one step down, never below zero. */
  function CountDown(c: int): (r: int)
    ensures r >= 0
    ensures c >= 1 ==> r == c - 1
    ensures c <= 1 ==> r == 0
  {
    if c - 1 > 0 then c - 1 else 0
  }

  function Max0(x: int): int {
    if x > 0 then x else 0
  }

  /** n results in a row bring a non-negative counter to max(c - n, 0). */
  lemma CountDownAgain(c: int, n: nat)
    requires c >= 0
    ensures CountDown(Max0(c - n)) == Max0(c - (n + 1))
  {
  }

  /** A collision reported by the physics engine between two colliders. */
  datatype CollisionEvent = Started(collider1: nat, collider2: nat) | Stopped(collider1: nat, collider2: nat)

  /** What a collision means for the local player's collider. */
  datatype Contact = StartWith(other: nat) | StopWith(other: nat) | Unrelated

  /** The collision routing of `on_physics`: an event involving the player's
      collider `mine` is reported with the other collider; any other event is
      ignored. */
  function Route(ev: CollisionEvent, mine: nat): (r: Contact)
    ensures r.StartWith? <==> ev.Started? && (ev.collider1 == mine || ev.collider2 == mine)
    ensures r.StopWith? <==> ev.Stopped? && (ev.collider1 == mine || ev.collider2 == mine)
    ensures !r.Unrelated? ==> r.other == (if ev.collider1 == mine then ev.collider2 else ev.collider1)
  {
    if ev.collider1 == mine then
      (if ev.Started? then StartWith(ev.collider2) else StopWith(ev.collider2))
    else if ev.collider2 == mine then
      (if ev.Started? then StartWith(ev.collider1) else StopWith(ev.collider1))
    else Unrelated
  }

  /** Routing when the player's collider may not exist yet (`None`): then nothing
      concerns it. */
  function ContactOf(ev: CollisionEvent, mine: Option<nat>): Contact {
    if mine.Some? then Route(ev, mine.value) else Unrelated
  }

  /** The grounded flag after a run of collision events: the last contact decides. */
  function GroundedAfter(grounded: bool, events: seq<CollisionEvent>, mine: Option<nat>): bool {
    if events == [] then grounded
    else
      match ContactOf(events[|events| - 1], mine)
      case StartWith(_) => true
      case StopWith(_) => false
      case Unrelated => GroundedAfter(grounded, events[..|events| - 1], mine)
  }

  /** The jump counter after a run of collision events: a started contact resets it. */
  function JumpsAfter(jumps: nat, events: seq<CollisionEvent>, mine: Option<nat>): nat {
    if events == [] then jumps
    else if ContactOf(events[|events| - 1], mine).StartWith? then 0
    else JumpsAfter(jumps, events[..|events| - 1], mine)
  }

  /** Collisions between other colliders never touch the controller. */
  lemma {:induction false} ForeignCollisionsIgnored(grounded: bool, jumps: nat, events: seq<CollisionEvent>, mine: nat)
    requires forall k | 0 <= k < |events| :: events[k].collider1 != mine && events[k].collider2 != mine
    ensures GroundedAfter(grounded, events, Some(mine)) == grounded
    ensures JumpsAfter(jumps, events, Some(mine)) == jumps
    decreases |events|
  {
    if events != [] {
      var front := events[..|events| - 1];
      assert forall k | 0 <= k < |front| :: front[k] == events[k];
      ForeignCollisionsIgnored(grounded, jumps, front, mine);
    }
  }

  /** A contact started with the player's collider leaves it grounded with no
      jumps, whatever happened before, unless a later contact stops. */
  lemma {:induction false} StartedContactGrounds(grounded: bool, jumps: nat, events: seq<CollisionEvent>,
                                                 mine: nat, k: nat)
    requires k < |events| && ContactOf(events[k], Some(mine)).StartWith?
    requires forall j | k < j < |events| :: !ContactOf(events[j], Some(mine)).StopWith?
    ensures GroundedAfter(grounded, events, Some(mine)) && JumpsAfter(jumps, events, Some(mine)) == 0
    decreases |events|
  {
    var n := |events| - 1;
    if k < n {
      var front := events[..n];
      assert forall j | 0 <= j < n :: front[j] == events[j];
      StartedContactGrounds(grounded, jumps, front, mine, k);
    }
  }

  predicate IsSelf(c: Components) {
    c.id.Some? && c.id.value.isSelf
  }

  /** The reports `on_post_physics` sends: one per local-player entity with a
      transform, in scene order, always with frame 0. */
  function SelfReports(scene: Scene<Components>, order: seq<Entity>): (r: seq<TrustedInput>)
    ensures |r| <= |order|
    ensures forall k | 0 <= k < |r| :: r[k].frame == 0
    ensures forall k | 0 <= k < |r| :: exists e | e in scene.ents ::
      IsSelf(scene.ents[e]) && scene.ents[e].transform.Some? && r[k].translation == scene.ents[e].transform.value.translation
  {
    if order == [] then []
    else
      var e := order[|order| - 1];
      SelfReports(scene, order[..|order| - 1])
      + (if e in scene.ents && IsSelf(scene.ents[e]) && scene.ents[e].transform.Some?
         then [TrustedInput(0, scene.ents[e].transform.value.translation)] else [])
  }

  /** Every local-player entity of `order` that has a transform is reported, with
      its translation. */
  lemma {:induction false} SelfReportsComplete(scene: Scene<Components>, order: seq<Entity>, k: nat)
    requires k < |order| && order[k] in scene.ents
    requires IsSelf(scene.ents[order[k]]) && scene.ents[order[k]].transform.Some?
    ensures TrustedInput(0, scene.ents[order[k]].transform.value.translation) in SelfReports(scene, order)
  {
    var init := order[..|order| - 1];
    if k < |order| - 1 {
      assert init[k] == order[k];
      SelfReportsComplete(scene, init, k);
    }
  }

  /** The reports follow the scene order: reporting over two stretches of the
      order is reporting over the first, then over the second. */
  lemma {:induction false} SelfReportsSplit(scene: Scene<Components>, a: seq<Entity>, b: seq<Entity>)
    ensures SelfReports(scene, a + b) == SelfReports(scene, a) + SelfReports(scene, b)
    decreases |b|
  {
    if b == [] {
      assert a + b == a;
    } else {
      var ab := a + b;
      assert ab[..|ab| - 1] == a + b[..|b| - 1];
      assert ab[|ab| - 1] == b[|b| - 1];
      SelfReportsSplit(scene, a, b[..|b| - 1]);
    }
  }

  function LockOf(locks: map<Uuid, U32>, id: Uuid): U32 {
    if id in locks then locks[id] else 0
  }

  /** What the controller's scene query finds for entity `e`: it must carry a
      Transform and an Input component. */
  function ViewOf(scene: Scene<Components>, e: Option<Entity>): Option<ControlledView> {
    if e.Some? && e.value in scene.ents && scene.ents[e.value].transform.Some? && scene.ents[e.value].input.Some?
    then Some(ControlledView(scene.ents[e.value].physics.Some?, scene.ents[e.value].animation))
    else None
  }

  /** The scene after the controller's update: when the controller is initialised
      and its query finds the entity with an animation, that entity takes the
      animation `ChooseAnimation` picks from the ground contact and the tick's
      translation. Nothing else in the scene changes, and an airborne controller
      changes nothing at all. */
  function Driven(s: Scene<Components>, e: Option<Entity>, initialized: bool, grounded: bool, moved: Vec3): (r: Scene<Components>)
    ensures r.ents.Keys == s.ents.Keys && r.next == s.next
    ensures forall x | x in s.ents && e != Some(x) :: r.ents[x] == s.ents[x]
    ensures e.Some? && e.value in s.ents ==> r.ents[e.value] == s.ents[e.value].(animation := r.ents[e.value].animation)
    ensures initialized && ViewOf(s, e).Some? && ViewOf(s, e).value.animation.Some? ==>
      r.ents[e.value].animation == Some(ChooseAnimation(grounded, moved, ViewOf(s, e).value.animation.value))
    ensures !grounded || !initialized ==> r == s
    ensures s.Valid() ==> r.Valid()
  {
    var view := ViewOf(s, e);
    if initialized && view.Some? && view.value.animation.Some?
    then s.Put(e.value, s.ents[e.value].(animation := Some(ChooseAnimation(grounded, moved, view.value.animation.value))))
    else s
  }

  /** The local player: an entity carrying an IdComponent with `is_self` and a
      physics component. */
  predicate SelfBody(c: Components) {
    IsSelf(c) && c.physics.Some?
  }

  /** The first loop of `on_physics` queues an entity for despawning when it has a
      tag, a transform and a physics body with a collider (`colliders` maps physics
      body ids to collider handles) and has fallen below y = -700. */
  predicate Falls(c: Components, colliders: map<nat, nat>) {
    && c.tag.Some? && c.transform.Some? && c.physics.Some?
    && c.transform.value.translation.y < -700.0
    && c.physics.value.bodyId in colliders
  }

  /** Every entity of `s` that falls. */
  function FallenSet(s: Scene<Components>, colliders: map<nat, nat>): set<Entity> {
    set e | e in s.ents && Falls(s.ents[e], colliders)
  }

  /** The first loop of `on_physics`: the despawn queue it fills, in scene order. */
  method QueueFalls(s: Scene<Components>, order: seq<Entity>, colliders: map<nat, nat>) returns (queue: seq<Entity>)
    requires Enumerates(order, s.ents.Keys)
    ensures forall e :: e in queue <==> e in s.ents && Falls(s.ents[e], colliders)
  {
    queue := [];
    for i := 0 to |order|
      invariant forall e :: e in queue <==> e in order[..i] && Falls(s.ents[e], colliders)
    {
      assert order[..i + 1] == order[..i] + [order[i]];
      if Falls(s.ents[order[i]], colliders) {
        queue := queue + [order[i]];
      }
    }
    assert order[..|order|] == order;
  }

  lemma DespawnOneMore(s: Scene<Components>, gone: set<Entity>, e: Entity)
    ensures s.Without(gone).Despawn(e) == s.Without(gone + {e})
  {
    assert s.Without(gone).Despawn(e).ents == s.Without(gone + {e}).ents;
  }

  /** The drain of the despawn channel: each queued entity is despawned in turn,
      which removes exactly the entities of `gone`, the set the queue holds. */
  method DrainDespawns(s: Scene<Components>, queue: seq<Entity>, ghost gone: set<Entity>) returns (r: Scene<Components>)
    requires forall e :: e in queue <==> e in gone
    ensures r == s.Without(gone)
  {
    r := s;
    ghost var done: set<Entity> := {};
    assert s.Without({}).ents == s.ents;
    for i := 0 to |queue|
      invariant forall e :: e in done <==> e in queue[..i]
      invariant r == s.Without(done)
    {
      DespawnOneMore(s, done, queue[i]);
      assert queue[..i + 1] == queue[..i] + [queue[i]];
      r := r.Despawn(queue[i]);
      done := done + {queue[i]};
    }
    assert queue[..|queue|] == queue;
    assert done == gone;
  }

  /** The scene the collision routing of `on_physics` sees: the fallen entities are gone. */
  function Survivors(s: Scene<Components>, colliders: map<nat, nat>): (r: Scene<Components>)
    ensures r.ents.Keys == s.ents.Keys - FallenSet(s, colliders) && r.next == s.next
    ensures forall e | e in r.ents :: r.ents[e] == s.ents[e] && !Falls(r.ents[e], colliders)
  {
    s.Without(FallenSet(s, colliders))
  }

  /** No local-player entity of `s` has a physics body, so nobody drains the collision channel. */
  predicate NoSelfBody(s: Scene<Components>) {
    forall e | e in s.ents :: !SelfBody(s.ents[e])
  }

  /** `events` were routed through the collider of some local-player body of `s`,
      taking the grounded flag and the jump counter from `grounded0`, `jumps0` to
      `grounded`, `jumps`. */
  predicate RoutedThrough(s: Scene<Components>, colliders: map<nat, nat>, events: seq<CollisionEvent>,
                          grounded0: bool, jumps0: nat, grounded: bool, jumps: nat) {
    exists e | e in s.ents && SelfBody(s.ents[e]) ::
      var body := s.ents[e].physics.value.bodyId;
      var mine := if body in colliders then Some(colliders[body]) else None;
      grounded == GroundedAfter(grounded0, events, mine) && jumps == JumpsAfter(jumps0, events, mine)
  }

  /** Where a collider stands after the physics step: its translation less the
      joint offset, and its rotation as Euler angles. */
  datatype Pose = Pose(translation: Vec3, rotation: Vec3)

  /** The pose the write-back of `on_physics` applies to `c`: it needs an id, a
      transform and a physics body whose collider (through `colliders`) has a
      post-step pose in `poses`. */
  function PoseFor(c: Components, colliders: map<nat, nat>, poses: map<nat, Pose>): Option<Pose> {
    if c.id.Some? && c.transform.Some? && c.physics.Some?
       && c.physics.value.bodyId in colliders && colliders[c.physics.value.bodyId] in poses
    then Some(poses[colliders[c.physics.value.bodyId]])
    else None
  }

  /** The write-back of one entity: only its translation and rotation change, to the pose. */
  function Placed(c: Components, colliders: map<nat, nat>, poses: map<nat, Pose>): (r: Components)
    ensures r.id == c.id && r.tag == c.tag && r.parent == c.parent && r.physics == c.physics
    ensures r.input == c.input && r.animation == c.animation
    ensures r.transform.Some? <==> c.transform.Some?
    ensures PoseFor(c, colliders, poses).None? ==> r == c
    ensures PoseFor(c, colliders, poses).Some? ==>
      && r.transform.value.translation == PoseFor(c, colliders, poses).value.translation
      && r.transform.value.rotation == PoseFor(c, colliders, poses).value.rotation
      && r.transform.value.scale == c.transform.value.scale
  {
    match PoseFor(c, colliders, poses)
    case None => c
    case Some(p) => c.(transform := Some(c.transform.value.(translation := p.translation, rotation := p.rotation)))
  }

  /** The scene after the write-back: every entity placed, none added or removed. */
  function AfterStep(s: Scene<Components>, colliders: map<nat, nat>, poses: map<nat, Pose>): (r: Scene<Components>)
    ensures r.ents.Keys == s.ents.Keys && r.next == s.next
    ensures s.Valid() ==> r.Valid()
  {
    Scene(map e | e in s.ents :: Placed(s.ents[e], colliders, poses), s.next)
  }

  /** The last loop of `on_physics`: one entity at a time, in whatever order the
      scene yields them (`rest` is what is left to visit). */
  method WriteBack(s: Scene<Components>, colliders: map<nat, nat>, poses: map<nat, Pose>)
    returns (r: Scene<Components>)
    ensures r == AfterStep(s, colliders, poses)
  {
    r := s;
    var rest := s.ents.Keys;
    while rest != {}
      invariant r.next == s.next && r.ents.Keys == s.ents.Keys && rest <= s.ents.Keys
      invariant forall e | e in r.ents ::
        r.ents[e] == (if e in rest then s.ents[e] else Placed(s.ents[e], colliders, poses))
      decreases |rest|
    {
      var e :| e in rest;
      r := r.Put(e, Placed(r.ents[e], colliders, poses));
      rest := rest - {e};
    }
    assert r.ents == AfterStep(s, colliders, poses).ents;
  }

  /** The lock loop of the `Trusted` arm for one player: every input not below the
      lock moves the lock to its frame and pushes its translation to the front of
      the player's queue; `touched` says whether any input was accepted. */
  method IngestBatch(lock0: U32, queue0: seq<Vec3>, inputs: seq<TrustedInput>)
    returns (lock: U32, queue: seq<Vec3>, touched: bool)
    ensures lock == FinalLock(lock0, inputs)
    ensures queue == PushFrontAll(queue0, Translations(Accepted(lock0, inputs)))
    ensures touched <==> Accepted(lock0, inputs) != []
  {
    lock, queue, touched := lock0, queue0, false;
    assert Translations([]) == [] && Reversed<Vec3>([]) == [];
    for i := 0 to |inputs|
      invariant lock == FinalLock(lock0, inputs[..i])
      invariant touched <==> Accepted(lock0, inputs[..i]) != []
      invariant queue == PushFrontAll(queue0, Translations(Accepted(lock0, inputs[..i])))
    {
      var input := inputs[i];
      var acc := Accepted(lock0, inputs[..i]);
      assert inputs[..i + 1] == inputs[..i] + [input];
      AcceptOneMore(lock0, inputs[..i], input);
      if input.frame < lock {
        assert acc + [] == acc;
      } else {
        TranslationsSnoc(acc, input);
        PushFrontSnoc(queue0, Translations(acc), input.translation);
        lock := input.frame;
        queue := [input.translation] + queue;
        touched := true;
      }
    }
    assert inputs[..|inputs|] == inputs;
  }

  /** The asset loop of the `SyncWorld` arm: with `trigger_loading`, every model
      asset is one more asset to wait for (both counters go up by `n`). */
  method LoadingRequests(assets: seq<Asset>, triggerLoading: bool) returns (n: nat)
    ensures n == (if triggerLoading then CountModels(assets) else 0)
  {
    n := 0;
    for i := 0 to |assets|
      invariant n == (if triggerLoading then CountModels(assets[..i]) else 0)
    {
      assert assets[..i + 1] == assets[..i] + [assets[i]];
      CountModelsAppend(assets[..i], [assets[i]]);
      assert CountModels([assets[i]]) == if assets[i].ModelAsset? then 1 else 0 by {
        assert [assets[i]][1..] == [];
      }
      if assets[i].ModelAsset? && triggerLoading {
        n := n + 1;
      }
    }
    assert assets[..|assets|] == assets;
  }

  class ClientLayer {
    var scene: Scene<Components>
    /** Scene entity of every id the server mentioned. */
    var entities: map<Uuid, Entity>
    /** Last accepted frame per player. */
    var inputLock: map<Uuid, U32>
    /** Relayed translations per player, newest at index 0. */
    var positionCache: map<Uuid, seq<Vec3>>
    /** Assets still loading; physics and the frame clock wait for both to reach 0. */
    var receivedModels: int
    var receivedTrimeshes: int
    var trimeshes: set<Uuid>
    var frame: real
    var debouncer: real
    var leftClick: bool
    var canvasSize: (U32, U32)
    /** Mouse-capture requests sent to the main loop. */
    var mouseCaptures: seq<bool>
    /** The collision channel, oldest first. */
    var collisions: seq<CollisionEvent>
    /** Trusted inputs sent to the server. */
    var outbox: seq<TrustedInput>
    const controller: PlayerController

    /** Entity handles in `entities` were issued by the scene and are distinct
        (each id got its own entity); the loading counters are never negative;
        the debouncer stays within its period. */
    ghost predicate Valid()
      reads this, controller
    {
      && ReplicaValid(Replica(scene, entities, positionCache))
      && receivedModels >= 0 && receivedTrimeshes >= 0
      && 0.0 <= debouncer < DEBOUNCE_PERIOD
      && controller.Valid()
    }

    /** Physics and the end of `on_update` are held back while assets load. */
    predicate Gated()
      reads this
    {
      receivedModels > 0 || receivedTrimeshes > 0
    }

    constructor (width: U32, height: U32)
      ensures Valid() && fresh(controller)
      ensures scene == Scene(map[], 0) && entities == map[] && inputLock == map[] && positionCache == map[]
      ensures receivedModels == 0 && receivedTrimeshes == 0 && trimeshes == {}
      ensures frame == 0.0 && debouncer == 0.0 && canvasSize == (width, height)
      ensures mouseCaptures == [] && collisions == [] && outbox == []
      ensures !controller.IsInitialized()
    {
      scene := Scene(map[], 0);
      entities := map[];
      inputLock := map[];
      positionCache := map[];
      receivedModels := 0;
      receivedTrimeshes := 0;
      trimeshes := {};
      frame := 0.0;
      debouncer := 0.0;
      leftClick := false;
      canvasSize := (width, height);
      mouseCaptures := [];
      collisions := [];
      outbox := [];
      controller := new PlayerController();
    }

    /** `get_or_create_entity`: the entity already recorded for `id`, or a new one
        (tagged `name`) that is recorded for it. Existing records never change. */
    method GetOrCreateEntity(id: Uuid, name: string) returns (e: Entity)
      requires Valid()
      modifies this
      ensures Valid()
      ensures (Replica(scene, entities, positionCache), e) == GetOrCreate(old(Replica(scene, entities, positionCache)), id, name)
      ensures unchanged(this`inputLock, this`positionCache, this`receivedModels, this`receivedTrimeshes,
                        this`trimeshes, this`frame, this`debouncer, this`leftClick, this`canvasSize,
                        this`mouseCaptures, this`collisions, this`outbox)
    {
      GetOrCreateFacts(Replica(scene, entities, positionCache), id, name);
      if id in entities {
        e := entities[id];
      } else {
        var created := scene.Create(Tagged(name));
        scene, e := created.0, created.1;
        entities := entities[id := e];
      }
    }

    /** The `Trusted` arm of `on_network`: the player's entity is looked up or
        created, its lock starts at 0, and each input not below the lock moves the
        lock to its frame and pushes its translation to the front of the player's
        cache. */
    method OnTrusted(playerId: PlayerId, inputs: seq<TrustedInput>)
      requires Valid()
      modifies this
      ensures Valid()
      ensures var made := GetOrCreate(old(Replica(scene, entities, positionCache)), playerId, "tmp").0;
        scene == made.scene && entities == made.entities
      ensures playerId in entities
      ensures forall k | k in old(entities) :: k in entities && entities[k] == old(entities)[k]
      ensures var lock := LockOf(old(inputLock), playerId);
        var accepted := Accepted(lock, inputs);
        && inputLock == old(inputLock)[playerId := FinalLock(lock, inputs)]
        && positionCache == (if accepted == [] then old(positionCache)
                             else old(positionCache)[playerId := PushFrontAll(CacheOf(old(positionCache), playerId),
                                                                               Translations(accepted))])
      ensures unchanged(this`receivedModels, this`receivedTrimeshes, this`trimeshes, this`frame, this`debouncer,
                        this`leftClick, this`canvasSize, this`mouseCaptures, this`collisions, this`outbox)
    {
      var _ := GetOrCreateEntity(playerId, "tmp");
      var lock, queue, touched := IngestBatch(LockOf(inputLock, playerId), CacheOf(positionCache, playerId), inputs);
      inputLock := inputLock[playerId := lock];
      if touched {
        positionCache := positionCache[playerId := queue];
      }
    }

    /** The `SyncWorld` arm of `on_network`: with `trigger_loading`, every model
        asset adds one to both loading counters; then every prefab is received on
        the entity of its id, created when the id is new (see `ReceiveAll`). */
    method OnSyncWorld(prefabs: seq<FullPrefab>, assets: seq<Asset>, triggerLoading: bool)
      requires Valid()
      modifies this
      ensures Valid()
      ensures receivedModels == old(receivedModels) + (if triggerLoading then CountModels(assets) else 0)
      ensures receivedTrimeshes == old(receivedTrimeshes) + (if triggerLoading then CountModels(assets) else 0)
      ensures Replica(scene, entities, positionCache) == ReceiveAll(old(Replica(scene, entities, positionCache)), prefabs)
      ensures unchanged(this`inputLock, this`trimeshes, this`frame, this`debouncer,
                        this`leftClick, this`canvasSize, this`mouseCaptures, this`collisions, this`outbox)
    {
      var n := LoadingRequests(assets, triggerLoading);
      receivedModels, receivedTrimeshes := receivedModels + n, receivedTrimeshes + n;
      var st0 := Replica(scene, entities, positionCache);
      var st := ReceiveLoop(st0, prefabs);
      scene, entities := st.scene, st.entities;
    }

    /** The `Packet` arm of `on_network` (see `PacketStep`). */
    method OnPacket(p: PartialPrefab)
      requires Valid()
      modifies this
      ensures Valid()
      ensures Replica(scene, entities, positionCache) == PacketStep(old(Replica(scene, entities, positionCache)), p)
      ensures unchanged(this`inputLock, this`receivedModels, this`receivedTrimeshes, this`trimeshes, this`frame,
                        this`debouncer, this`leftClick, this`canvasSize, this`mouseCaptures, this`collisions, this`outbox)
    {
      ghost var st0 := Replica(scene, entities, positionCache);
      GetOrCreateFacts(st0, p.id.id, p.tag);
      var e := GetOrCreateEntity(p.id.id, p.tag);
      if e in scene.ents {
        scene := scene.Put(e, AddPacket(scene.ents[e], p));
      }
    }

    /** The asset-result loop of `on_network`: each trimesh result counts
        `received_trimeshes` down and records the trimesh, each model result counts
        `received_models` down; neither goes below zero. */
    method OnAssetResults(results: seq<AssetResult>)
      requires Valid()
      modifies this
      ensures Valid()
      ensures receivedTrimeshes == Max0(old(receivedTrimeshes) - TrimeshCount(results))
      ensures receivedModels == Max0(old(receivedModels) - ModelCount(results))
      ensures trimeshes == old(trimeshes) + TrimeshIds(results)
      ensures unchanged(this`scene, this`entities, this`inputLock, this`positionCache, this`frame, this`debouncer,
                        this`leftClick, this`canvasSize, this`mouseCaptures, this`collisions, this`outbox)
    {
      var meshes, models, ids := receivedTrimeshes, receivedModels, trimeshes;
      for i := 0 to |results|
        modifies {}
        invariant meshes == Max0(old(receivedTrimeshes) - TrimeshCount(results[..i]))
        invariant models == Max0(old(receivedModels) - ModelCount(results[..i]))
        invariant ids == old(trimeshes) + TrimeshIds(results[..i])
      {
        var r := results[i];
        assert results[..i + 1][..i] == results[..i];
        assert results[..i + 1][i] == r;
        assert TrimeshIds(results[..i + 1]) == TrimeshIds(results[..i]) + (if r.TrimeshLoaded? then {r.id} else {});
        match r
        case TrimeshLoaded(id) =>
          CountDownAgain(old(receivedTrimeshes), TrimeshCount(results[..i]));
          meshes := CountDown(meshes);
          ids := ids + {id};
        case ModelLoaded(_) =>
          CountDownAgain(old(receivedModels), ModelCount(results[..i]));
          models := CountDown(models);
        case _ =>
      }
      assert results[..|results|] == results;
      receivedTrimeshes, receivedModels, trimeshes := meshes, models, ids;
    }

    /** The first loop of `on_update`, over the players with a position cache in
        the map's iteration order (returned as `order`); see `PopAll`. */
    method ConsumePositionCache() returns (order: seq<Uuid>)
      requires Valid()
      modifies this
      ensures Valid()
      ensures Enumerates(order, old(positionCache).Keys)
      ensures Replica(scene, entities, positionCache) == PopAll(old(Replica(scene, entities, positionCache)), order)
      ensures unchanged(this`inputLock, this`receivedModels, this`receivedTrimeshes, this`trimeshes, this`frame,
                        this`debouncer, this`leftClick, this`canvasSize, this`mouseCaptures, this`collisions, this`outbox)
    {
      order := Enumerate(positionCache.Keys);
      var st0 := Replica(scene, entities, positionCache);
      var st := PopLoop(st0, order);
      scene, entities, positionCache := st.scene, st.entities, st.cache;
    }

    /** The lazy initialisation in `on_update`: an uninitialised controller is bound
        to every local-player entity in turn, so the last one visited wins. */
    method InitializeController()
      requires Valid()
      modifies controller
      ensures Valid()
      ensures old(controller.IsInitialized()) || (forall e | e in scene.ents :: !IsSelf(scene.ents[e])) ==>
        controller.entity == old(controller.entity) && controller.id == old(controller.id)
      ensures !old(controller.IsInitialized()) && (exists e | e in scene.ents :: IsSelf(scene.ents[e])) ==>
        exists e | e in scene.ents && IsSelf(scene.ents[e]) ::
          controller.entity == Some(e) && controller.id == scene.ents[e].id.value.id
      ensures controller.deltaTranslation == old(controller.deltaTranslation)
      ensures controller.deltaRotation == old(controller.deltaRotation)
      ensures controller.deltaVelocity == old(controller.deltaVelocity)
      ensures controller.isGrounded == old(controller.isGrounded)
      ensures controller.currentJumps == old(controller.currentJumps)
      ensures controller.shouldJump == old(controller.shouldJump) && controller.jumps == old(controller.jumps)
    {
      if controller.IsInitialized() {
        return;
      }
      var order := Enumerate(scene.ents.Keys);
      for i := 0 to |order|
        invariant controller.Valid()
        invariant (forall j | 0 <= j < i :: !IsSelf(scene.ents[order[j]])) ==>
          controller.entity == old(controller.entity) && controller.id == old(controller.id)
        invariant (exists j | 0 <= j < i :: IsSelf(scene.ents[order[j]])) ==>
          exists e | e in scene.ents && IsSelf(scene.ents[e]) ::
            controller.entity == Some(e) && controller.id == scene.ents[e].id.value.id
        invariant controller.deltaTranslation == old(controller.deltaTranslation)
        invariant controller.deltaRotation == old(controller.deltaRotation)
        invariant controller.deltaVelocity == old(controller.deltaVelocity)
        invariant controller.isGrounded == old(controller.isGrounded)
        invariant controller.currentJumps == old(controller.currentJumps)
        invariant controller.shouldJump == old(controller.shouldJump) && controller.jumps == old(controller.jumps)
      {
        var e := order[i];
        var c := scene.ents[e];
        if c.id.Some? && c.id.value.isSelf {
          controller.Initialize(e, c.id.value.id);
        }
      }
      if exists e | e in scene.ents :: IsSelf(scene.ents[e]) {
        var e :| e in scene.ents && IsSelf(scene.ents[e]);
        var j :| 0 <= j < |order| && order[j] == e;
      }
    }

    /** The input block of `on_update`: exactly one input sample must be queued
        (otherwise the assertion panics); its click and canvas are recorded, a
        click requests mouse capture, and the controller takes the sample and
        updates its entity. */
    method HandleInput(inputs: seq<DefaultInput>, normalize: Vec3 -> Vec3) returns (panicked: bool)
      requires Valid()
      modifies this, controller
      ensures Valid()
      ensures panicked <==> |inputs| != 1
      ensures panicked ==> unchanged(this) && unchanged(controller)
      ensures !panicked ==>
        && leftClick == inputs[0].leftClick && canvasSize == inputs[0].canvas
        && mouseCaptures == old(mouseCaptures) + (if inputs[0].leftClick then [true] else [])
        && scene == Driven(old(scene), controller.entity, controller.IsInitialized(), old(controller.isGrounded),
                           Steered(old(controller.deltaTranslation), inputs[0], normalize))
      ensures !panicked && controller.IsInitialized() ==>
        var jumped := Jumps(ViewOf(old(scene), controller.entity),
                            old(controller.shouldJump) || (inputs[0].mouseLock && inputs[0].action),
                            old(controller.currentJumps));
        && controller.currentJumps == old(controller.currentJumps) + (if jumped then 1 else 0)
        && controller.jumps == old(controller.jumps) + (if jumped then 1 else 0)
        && controller.deltaVelocity.y == old(controller.deltaVelocity.y) + (if jumped then JUMP_VELOCITY else 0.0)
        && controller.deltaTranslation == Zero3 && controller.deltaRotation == Zero3 && !controller.shouldJump
      ensures !controller.IsInitialized() ==>
        && controller.currentJumps == old(controller.currentJumps) && controller.jumps == old(controller.jumps)
        && controller.deltaVelocity == old(controller.deltaVelocity)
        && controller.deltaTranslation == old(controller.deltaTranslation)
        && controller.deltaRotation == old(controller.deltaRotation) && controller.shouldJump == old(controller.shouldJump)
      ensures controller.entity == old(controller.entity) && controller.id == old(controller.id)
      ensures controller.isGrounded == old(controller.isGrounded)
      ensures unchanged(this`entities, this`inputLock, this`positionCache, this`receivedModels, this`receivedTrimeshes,
                        this`trimeshes, this`frame, this`debouncer, this`collisions, this`outbox)
    {
      if |inputs| != 1 {
        return true;
      }
      panicked := false;
      RecordInput(inputs[0]);
      DriveController(inputs[0], normalize);
    }

    /** The click and canvas of the sample are recorded; a click asks the main
        loop to capture the mouse. */
    method RecordInput(input: DefaultInput)
      requires Valid()
      modifies this
      ensures Valid()
      ensures leftClick == input.leftClick && canvasSize == input.canvas
      ensures mouseCaptures == old(mouseCaptures) + (if input.leftClick then [true] else [])
      ensures unchanged(this`scene, this`entities, this`inputLock, this`positionCache, this`receivedModels,
                        this`receivedTrimeshes, this`trimeshes, this`frame, this`debouncer, this`collisions, this`outbox)
    {
      leftClick := input.leftClick;
      if leftClick {
        mouseCaptures := mouseCaptures + [true];
      }
      canvasSize := input.canvas;
    }

    /** The controller takes the sample and updates the entity its query finds;
        the animation it chooses is written back into that entity. */
    method DriveController(input: DefaultInput, normalize: Vec3 -> Vec3)
      requires Valid()
      modifies this`scene, controller
      ensures Valid()
      ensures scene == Driven(old(scene), controller.entity, controller.IsInitialized(), old(controller.isGrounded),
                              Steered(old(controller.deltaTranslation), input, normalize))
      ensures controller.IsInitialized() ==>
        var jumped := Jumps(ViewOf(old(scene), controller.entity),
                            old(controller.shouldJump) || (input.mouseLock && input.action), old(controller.currentJumps));
        && controller.currentJumps == old(controller.currentJumps) + (if jumped then 1 else 0)
        && controller.jumps == old(controller.jumps) + (if jumped then 1 else 0)
        && controller.deltaVelocity.y == old(controller.deltaVelocity.y) + (if jumped then JUMP_VELOCITY else 0.0)
        && controller.deltaTranslation == Zero3 && controller.deltaRotation == Zero3 && !controller.shouldJump
      ensures !controller.IsInitialized() ==>
        && controller.currentJumps == old(controller.currentJumps) && controller.jumps == old(controller.jumps)
        && controller.deltaVelocity == old(controller.deltaVelocity)
        && controller.deltaTranslation == old(controller.deltaTranslation)
        && controller.deltaRotation == old(controller.deltaRotation) && controller.shouldJump == old(controller.shouldJump)
      ensures controller.entity == old(controller.entity) && controller.id == old(controller.id)
      ensures controller.isGrounded == old(controller.isGrounded)
    {
      controller.Input(input, normalize);
      var view := ViewOf(scene, controller.entity);
      var jumped, lift, animation := controller.Update(view);
      if view.Some? && animation.Some? {
        var e := controller.entity.value;
        scene := scene.Put(e, scene.ents[e].(animation := animation));
      }
    }

    /** The parent pass of `on_update`. */
    method ResolveParentTransforms() returns (panicked: bool)
      requires Valid()
      modifies this
      ensures Valid()
      ensures panicked <==> exists e :: Chained(old(scene), e) && WorldOf(old(scene), entities, e).None?
      ensures !panicked ==> scene.next == old(scene.next) && scene.ents.Keys == old(scene.ents).Keys
      ensures !panicked ==> forall e | e in old(scene.ents) ::
        scene.ents[e] == (if Chained(old(scene), e)
                          then old(scene.ents)[e].(parent := Some(old(scene.ents)[e].parent.value.(world := WorldOf(old(scene), entities, e).value)))
                          else old(scene.ents)[e])
      ensures unchanged(this`entities, this`inputLock, this`positionCache, this`receivedModels, this`receivedTrimeshes,
                        this`trimeshes, this`frame, this`debouncer, this`leftClick, this`canvasSize,
                        this`mouseCaptures, this`collisions, this`outbox)
    {
      var order := Enumerate(scene.ents.Keys);
      var resolved := ResolveParents(scene, entities, order);
      if resolved.None? {
        return true;
      }
      panicked := false;
      scene := resolved.value;
    }

    /** The tail of `on_update`, skipped while assets load. */
    method AdvanceFrame()
      requires Valid()
      modifies this
      ensures Valid()
      ensures Gated() ==> frame == old(frame) && debouncer == old(debouncer)
      ensures !Gated() ==> frame == old(frame) + FRAME_STEP && debouncer == Wrap(old(debouncer) + FRAME_STEP)
      ensures unchanged(this`scene, this`entities, this`inputLock, this`positionCache, this`receivedModels,
                        this`receivedTrimeshes, this`trimeshes, this`leftClick, this`canvasSize,
                        this`mouseCaptures, this`collisions, this`outbox)
    {
      if receivedModels > 0 || receivedTrimeshes > 0 {
        return;
      }
      frame := frame + FRAME_STEP;
      debouncer := Wrap(debouncer + FRAME_STEP);
    }

    /** `on_update`, as far as the model goes: position caches, controller
        initialisation, input, parent pass, and the gated frame clock. `panicked`
        is the input-count assertion or a parent-pass panic. */
    method OnUpdate(inputs: seq<DefaultInput>, normalize: Vec3 -> Vec3) returns (panicked: bool)
      requires Valid()
      modifies this, controller
      ensures Valid()
      ensures |inputs| != 1 ==> panicked
      ensures receivedModels == old(receivedModels) && receivedTrimeshes == old(receivedTrimeshes)
      ensures positionCache.Keys == old(positionCache).Keys
      ensures forall pid | pid in old(positionCache) :: positionCache[pid] == DropLast(old(positionCache)[pid])
      ensures !panicked && old(Gated()) ==> frame == old(frame) && debouncer == old(debouncer)
      ensures !panicked && !old(Gated()) ==>
        frame == old(frame) + FRAME_STEP && debouncer == Wrap(old(debouncer) + FRAME_STEP)
      ensures inputLock == old(inputLock) && outbox == old(outbox) && collisions == old(collisions)
    {
      ghost var st0 := Replica(scene, entities, positionCache);
      var order := ConsumePositionCache();
      PopAllCaches(st0, order);
      InitializeController();
      panicked := HandleInput(inputs, normalize);
      if panicked {
        return;
      }
      panicked := ResolveParentTransforms();
      if panicked {
        return;
      }
      AdvanceFrame();
    }

    /** Delivers the collision events to the controller as the routing says. */
    method RouteCollisions(events: seq<CollisionEvent>, mine: Option<nat>)
      requires controller.Valid()
      modifies controller
      ensures controller.Valid()
      ensures controller.isGrounded == GroundedAfter(old(controller.isGrounded), events, mine)
      ensures controller.currentJumps == JumpsAfter(old(controller.currentJumps), events, mine)
      ensures controller.entity == old(controller.entity) && controller.id == old(controller.id)
      ensures controller.deltaTranslation == old(controller.deltaTranslation)
      ensures controller.deltaRotation == old(controller.deltaRotation)
      ensures controller.deltaVelocity == old(controller.deltaVelocity)
      ensures controller.shouldJump == old(controller.shouldJump) && controller.jumps == old(controller.jumps)
    {
      for i := 0 to |events|
        invariant controller.Valid()
        invariant controller.isGrounded == GroundedAfter(old(controller.isGrounded), events[..i], mine)
        invariant controller.currentJumps == JumpsAfter(old(controller.currentJumps), events[..i], mine)
        invariant controller.entity == old(controller.entity) && controller.id == old(controller.id)
        invariant controller.deltaTranslation == old(controller.deltaTranslation)
        invariant controller.deltaRotation == old(controller.deltaRotation)
        invariant controller.deltaVelocity == old(controller.deltaVelocity)
        invariant controller.shouldJump == old(controller.shouldJump) && controller.jumps == old(controller.jumps)
      {
        assert events[..i + 1][..i] == events[..i];
        assert events[..i + 1][i] == events[i];
        if mine.Some? {
          match Route(events[i], mine.value)
          case StartWith(other) => controller.OnCollisionStart(other);
          case StopWith(other) => controller.OnCollisionStop(other);
          case Unrelated =>
        }
      }
      assert events[..|events|] == events;
    }

    /** The collision loop of `on_physics` over the scene `s`: the first local-player entity with a
        physics component drains the collision channel and routes it through its
        collider (`colliders` maps physics body ids to collider handles); later ones
        find the channel empty. */
    method DrainCollisions(s: Scene<Components>, colliders: map<nat, nat>)
      requires controller.Valid()
      modifies this`collisions, controller
      ensures controller.Valid()
      ensures NoSelfBody(s) ==> collisions == old(collisions) && unchanged(controller)
      ensures !NoSelfBody(s) ==>
        && collisions == []
        && RoutedThrough(s, colliders, old(collisions), old(controller.isGrounded), old(controller.currentJumps),
                         controller.isGrounded, controller.currentJumps)
      ensures controller.entity == old(controller.entity) && controller.id == old(controller.id)
    {
      var order := Enumerate(s.ents.Keys);
      ghost var drainedBy: Option<Entity> := None;
      for i := 0 to |order|
        invariant controller.Valid()
        invariant drainedBy.None? <==> forall j | 0 <= j < i :: !SelfBody(s.ents[order[j]])
        invariant drainedBy.None? ==> collisions == old(collisions) && unchanged(controller)
        invariant drainedBy.Some? ==>
          && drainedBy.value in s.ents && SelfBody(s.ents[drainedBy.value])
          && collisions == []
          && var body := s.ents[drainedBy.value].physics.value.bodyId;
             var mine := if body in colliders then Some(colliders[body]) else None;
             && controller.isGrounded == GroundedAfter(old(controller.isGrounded), old(collisions), mine)
             && controller.currentJumps == JumpsAfter(old(controller.currentJumps), old(collisions), mine)
        invariant controller.entity == old(controller.entity) && controller.id == old(controller.id)
      {
        var e := order[i];
        var c := s.ents[e];
        if c.id.Some? && c.id.value.isSelf && c.physics.Some? {
          var events := collisions;
          collisions := [];
          var body := c.physics.value.bodyId;
          RouteCollisions(events, if body in colliders then Some(colliders[body]) else None);
          if drainedBy.None? {
            drainedBy := Some(e);
          } else {
            assert events == [];
          }
        }
      }
    }

    /** `on_physics`, as far as the model goes. While assets load nothing happens.
        Otherwise the entities that fell are despawned, the collision channel is
        drained through the local player's collider in the scene that is left, the
        physics step queues `stepEvents`, and every entity whose collider has a
        post-step pose in `poses` takes it as its translation and rotation. */
    method OnPhysics(stepEvents: seq<CollisionEvent>, colliders: map<nat, nat>, poses: map<nat, Pose>)
      requires Valid()
      modifies this`scene, this`collisions, controller
      ensures Valid()
      ensures old(Gated()) ==> unchanged(this) && unchanged(controller)
      ensures !old(Gated()) ==> scene == AfterStep(Survivors(old(scene), colliders), colliders, poses)
      ensures !old(Gated()) && NoSelfBody(Survivors(old(scene), colliders)) ==>
        collisions == old(collisions) + stepEvents && unchanged(controller)
      ensures !old(Gated()) && !NoSelfBody(Survivors(old(scene), colliders)) ==>
        && collisions == stepEvents
        && RoutedThrough(Survivors(old(scene), colliders), colliders, old(collisions),
                         old(controller.isGrounded), old(controller.currentJumps),
                         controller.isGrounded, controller.currentJumps)
      ensures controller.entity == old(controller.entity) && controller.id == old(controller.id)
    {
      if receivedModels > 0 || receivedTrimeshes > 0 {
        return;
      }
      ghost var st := Replica(scene, entities, positionCache);
      var order := Enumerate(scene.ents.Keys);
      var queue := QueueFalls(scene, order, colliders);
      var survivors := DrainDespawns(scene, queue, FallenSet(scene, colliders));
      DrainCollisions(survivors, colliders);
      collisions := collisions + stepEvents;
      var placed := WriteBack(survivors, colliders, poses);
      SameNextKeepsValid(st, placed);
      scene := placed;
    }

    /** `on_post_physics`: one trusted input per local-player entity with a
        transform, sent in scene order (returned as `order`). */
    method OnPostPhysics() returns (order: seq<Entity>)
      requires Valid()
      modifies this
      ensures Valid()
      ensures Enumerates(order, scene.ents.Keys)
      ensures outbox == old(outbox) + SelfReports(scene, order)
      ensures unchanged(this`scene, this`entities, this`inputLock, this`positionCache, this`receivedModels,
                        this`receivedTrimeshes, this`trimeshes, this`frame, this`debouncer, this`leftClick,
                        this`canvasSize, this`mouseCaptures, this`collisions)
    {
      order := Enumerate(scene.ents.Keys);
      var sent := outbox;
      for i := 0 to |order|
        modifies {}
        invariant sent == old(outbox) + SelfReports(scene, order[..i])
      {
        var e := order[i];
        assert order[..i + 1][..i] == order[..i];
        var c := scene.ents[e];
        if c.id.Some? && c.id.value.isSelf && c.transform.Some? {
          sent := sent + [TrustedInput(0, c.transform.value.translation)];
        }
      }
      assert order[..|order|] == order;
      outbox := sent;
    }
  }
}
