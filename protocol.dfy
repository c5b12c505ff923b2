/** The components, prefabs, assets and messages the client layer and the
    legacy arena server exchange. */
module Protocol {
  import opened Common
  import opened TrustedInputs

  /** Identity of an entity; `isSelf` marks the local player on a client. */
  datatype IdComponent = IdComponent(id: Uuid, isSelf: bool)

  /** Names the parent entity by id; `world` is the resolved world matrix. */
  datatype ParentComponent = ParentComponent(id: Uuid, world: Mat)

  /** The physics joint's body id, the key into the physics engine's handle tables. */
  datatype PhysicsComponent = PhysicsComponent(bodyId: nat)

  /** Marks an entity driven by player input (its speed is not modelled). */
  datatype InputComponent = InputComponent

  datatype AnimationComponent = AnimationComponent(current: nat, idle: nat, running: nat)

  /** The components of one scene entity that the layers read or write. */
  datatype Components = Components(
    id: Option<IdComponent>,
    tag: Option<string>,
    transform: Option<Transform>,
    parent: Option<ParentComponent>,
    physics: Option<PhysicsComponent>,
    input: Option<InputComponent>,
    animation: Option<AnimationComponent>)

  /** A freshly created entity carries only its tag. */
  function Tagged(name: string): Components {
    Components(None, Some(name), None, None, None, None, None)
  }

  /** A full prefab: every component of one entity, id and tag mandatory. */
  datatype FullPrefab = FullPrefab(
    id: IdComponent,
    tag: string,
    transform: Option<Transform>,
    parent: Option<ParentComponent>,
    physics: Option<PhysicsComponent>,
    input: Option<InputComponent>,
    animation: Option<AnimationComponent>)

  function Overlay<T>(current: Option<T>, incoming: Option<T>): Option<T> {
    if incoming.Some? then incoming else current
  }

  /** The entity holds the prefab's id and tag and every optional component the
      prefab carries. */
  predicate Carries(c: Components, p: FullPrefab) {
    && c.id == Some(p.id) && c.tag == Some(p.tag)
    && (p.transform.Some? ==> c.transform == p.transform)
    && (p.parent.Some? ==> c.parent == p.parent)
    && (p.physics.Some? ==> c.physics == p.physics)
    && (p.input.Some? ==> c.input == p.input)
    && (p.animation.Some? ==> c.animation == p.animation)
  }

  /** `receive_prefab`: id and tag are always added, every optional component the
      prefab carries replaces the entity's, and the others are kept. */
  function AddPrefab(c: Components, p: FullPrefab): (r: Components)
    ensures Carries(r, p)
    ensures p.transform.None? ==> r.transform == c.transform
    ensures p.parent.None? ==> r.parent == c.parent
    ensures p.physics.None? ==> r.physics == c.physics
    ensures p.input.None? ==> r.input == c.input
    ensures p.animation.None? ==> r.animation == c.animation
  {
    Components(Some(p.id), Some(p.tag),
      Overlay(c.transform, p.transform), Overlay(c.parent, p.parent),
      Overlay(c.physics, p.physics), Overlay(c.input, p.input),
      Overlay(c.animation, p.animation))
  }

  /** The partial prefab of a `Packet` message: the components of one entity
      that change from frame to frame. */
  datatype PartialPrefab = PartialPrefab(
    id: IdComponent,
    tag: string,
    transform: Option<Transform>,
    animation: Option<AnimationComponent>,
    input: Option<InputComponent>)

  /** `receive_packet`: the IdComponent is always added, every optional component
      the packet carries replaces the entity's; the tag and every other component
      are kept. */
  function AddPacket(c: Components, p: PartialPrefab): (r: Components)
    ensures r.id == Some(p.id)
    ensures r.tag == c.tag && r.parent == c.parent && r.physics == c.physics
    ensures p.transform.Some? ==> r.transform == p.transform
    ensures p.transform.None? ==> r.transform == c.transform
    ensures p.animation.Some? ==> r.animation == p.animation
    ensures p.animation.None? ==> r.animation == c.animation
    ensures p.input.Some? ==> r.input == p.input
    ensures p.input.None? ==> r.input == c.input
  {
    c.(id := Some(p.id), transform := Overlay(c.transform, p.transform),
       animation := Overlay(c.animation, p.animation), input := Overlay(c.input, p.input))
  }

  /** Packs an entity into a full prefab; `None` when it lacks an id or a tag
      (the arena's `unwrap` panics). */
  function Pack(c: Components): Option<FullPrefab> {
    if c.id.Some? && c.tag.Some? then
      Some(FullPrefab(c.id.value, c.tag.value, c.transform, c.parent, c.physics, c.input, c.animation))
    else None
  }

  /** A prefab received onto a freshly created entity packs back to itself. */
  lemma PackAfterReceive(p: FullPrefab)
    ensures Pack(AddPrefab(Tagged(p.tag), p)) == Some(p)
  {
  }

  /** Level configuration, opaque here. */
  datatype Config = Config(settings: nat)

  /** Asset definitions a SyncWorld lists for download. */
  datatype Asset =
    | ModelAsset(id: Uuid, maxInstances: nat)
    | DynamicBackgroundAsset(id: Uuid)
    | AnimationAsset(id: Uuid)
    | TerrainAsset(id: Uuid)
    | TextureAsset(id: Uuid)
    | ParticleAsset(id: Uuid)

  /** Server-to-client messages. */
  datatype ServerMessage =
    | SyncWorld(scene: seq<FullPrefab>, assets: seq<Asset>, frame: nat, triggerLoading: bool)
    | Trusted(playerId: PlayerId, inputs: seq<TrustedInput>)
    | UpdateConfig(config: Config)
    | Packet(entity: Entity, frame: nat, prefab: PartialPrefab)

  /** A message on its way to one player, on the reliable or the unreliable channel. */
  datatype Envelope = Envelope(to: PlayerId, reliable: bool, message: ServerMessage)

  /** Number of model assets in a list. */
  function CountModels(assets: seq<Asset>): (n: nat)
    ensures n <= |assets|
  {
    if assets == [] then 0
    else (if assets[0].ModelAsset? then 1 else 0) + CountModels(assets[1..])
  }

  lemma {:induction false} CountModelsAppend(a: seq<Asset>, b: seq<Asset>)
    ensures CountModels(a + b) == CountModels(a) + CountModels(b)
  {
    if a == [] {
      assert a + b == b;
    } else {
      assert (a + b)[0] == a[0];
      assert (a + b)[1..] == a[1..] + b;
      CountModelsAppend(a[1..], b);
    }
  }
}
