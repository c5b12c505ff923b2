/** The network controller of the current server: on session start it fills an
    asset store and a prefab catalog from the level and instantiates the other
    level prefabs in the scene; a joining player gets the catalogued player prefab
    under its own id and a hoverboard parented to it, and is then sent the world
    over reliable messages. */
module Network {
  import opened Common
  import opened Scenes
  import Protocol

  /** The prefab names `ModelNames` knows. */
  datatype ModelName = Spectator | Player | SmokeBomb | Hoverboard

  /** `ModelNames::from_str`; `None` is its panic on any other string. */
  function FromStr(s: string): (r: Option<ModelName>)
    ensures r == Some(Spectator) <==> s == "Spectator"
    ensures r == Some(Player) <==> s == "Player"
    ensures r == Some(SmokeBomb) <==> s == "Smoke Bomb"
    ensures r == Some(Hoverboard) <==> s == "Hoverboard"
    ensures r.None? <==> s != "Spectator" && s != "Player" && s != "Smoke Bomb" && s != "Hoverboard"
  {
    match s
    case "Spectator" => Some(Spectator)
    case "Player" => Some(Player)
    case "Smoke Bomb" => Some(SmokeBomb)
    case "Hoverboard" => Some(Hoverboard)
    case _ => None
  }

  /** `ModelNames::to_str`: reading the name back gives the same variant. */
  function ToStr(n: ModelName): (s: string)
    ensures FromStr(s) == Some(n)
  {
    match n
    case Spectator => "Spectator"
    case Player => "Player"
    case SmokeBomb => "Smoke Bomb"
    case Hoverboard => "Hoverboard"
  }

  /** Every string `from_str` accepts is written back unchanged by `to_str`. */
  lemma NameRoundTrip(s: string)
    requires FromStr(s).Some?
    ensures ToStr(FromStr(s).value) == s
  {
  }

  /** A component the controller does not look into, or the marker `sync_world`
      appends to the joiner's own prefab. */
  datatype Part = SelfMarker | Other(kind: string)

  /** An engine prefab: its id, its tag, the id its ParentComponent names (if it
      has one), and its other components in order. */
  datatype Prefab = Prefab(id: Uuid, tag: string, parent: Option<Uuid>, parts: seq<Part>)

  /** What a scene entity holds: the bare name `create_raw_entity` gave it, or
      the components of the prefab instantiated on it. */
  datatype Body = Raw(name: string) | Built(prefab: Prefab)

  datatype AssetKind = TerrainKind | ModelKind | TrimeshKind | BackgroundKind | AnimationKind

  /** A stored asset definition, reduced to its kind and id; `AssetPack::pack`
      sends it as it is. */
  datatype StoredAsset = StoredAsset(kind: AssetKind, id: Uuid)

  /** What the controller reads from the level file: the configuration, the ids
      of each asset map and the prefabs, each in its map's iteration order. */
  datatype Gamefile = Gamefile(config: Protocol.Config, terrains: seq<Uuid>, models: seq<Uuid>,
                               trimeshes: seq<Uuid>, backgrounds: seq<Uuid>, animations: seq<Uuid>,
                               prefabs: seq<Prefab>)

  /** The `TrustedInput` messages `sync_world` sends. */
  datatype Message =
    | ConfigMessage(config: Protocol.Config)
    | Assets(assets: seq<StoredAsset>, triggerLoading: bool)
    | Prefabs(prefabs: seq<(string, Prefab)>)
    | Entities(entities: seq<Prefab>)

  datatype Sent = Sent(to: PlayerId, reliable: bool, message: Message)

  // ---------------------------------------------------------------------------
  // The asset store

  /** One `insert_asset` loop: every id is stored under its own kind, a later
      insert of an id replacing the earlier one. */
  function InsertAll(store: map<Uuid, StoredAsset>, kind: AssetKind, ids: seq<Uuid>): (r: map<Uuid, StoredAsset>)
    ensures r.Keys == store.Keys + (set k | 0 <= k < |ids| :: ids[k])
    ensures forall k | 0 <= k < |ids| :: r[ids[k]] == StoredAsset(kind, ids[k])
    ensures forall id | id in store && id !in ids :: r[id] == store[id]
    decreases |ids|
  {
    if ids == [] then store
    else
      var front := ids[..|ids| - 1];
      var r := InsertAll(store, kind, front)[ids[|ids| - 1] := StoredAsset(kind, ids[|ids| - 1])];
      assert forall k | 0 <= k < |front| :: front[k] == ids[k];
      r
  }

  /** One `insert_asset` loop, walked in order. */
  method InsertLoop(store: map<Uuid, StoredAsset>, kind: AssetKind, ids: seq<Uuid>) returns (r: map<Uuid, StoredAsset>)
    ensures r == InsertAll(store, kind, ids)
  {
    r := store;
    for i := 0 to |ids|
      invariant r == InsertAll(store, kind, ids[..i])
    {
      assert ids[..i + 1][..i] == ids[..i];
      r := r[ids[i] := StoredAsset(kind, ids[i])];
    }
    assert ids[..|ids|] == ids;
  }

  /** The store after `on_session_start`: terrains, models, trimeshes, dynamic
      backgrounds, then animations. */
  function Stocked(store: map<Uuid, StoredAsset>, level: Gamefile): map<Uuid, StoredAsset> {
    var s1 := InsertAll(store, TerrainKind, level.terrains);
    var s2 := InsertAll(s1, ModelKind, level.models);
    var s3 := InsertAll(s2, TrimeshKind, level.trimeshes);
    var s4 := InsertAll(s3, BackgroundKind, level.backgrounds);
    InsertAll(s4, AnimationKind, level.animations)
  }

  /** Every store entry sits under its own id. */
  predicate StoreKeyed(store: map<Uuid, StoredAsset>) {
    forall id | id in store :: store[id].id == id
  }

  /** The store holds every asset id of the level besides what it had, each
      under its own id; an id in several maps keeps the kind inserted last, so
      an animation id is an animation and a model id is a model unless a later
      map repeats it. */
  lemma StockedHoldsLevel(store: map<Uuid, StoredAsset>, level: Gamefile)
    requires StoreKeyed(store)
    ensures var r := Stocked(store, level);
      && StoreKeyed(r)
      && (forall id :: id in r <==> (id in store || id in level.terrains || id in level.models
                                    || id in level.trimeshes || id in level.backgrounds || id in level.animations))
      && (forall id | id in level.animations :: r[id].kind == AnimationKind)
      && (forall id | id in level.models && id !in level.trimeshes && id !in level.backgrounds
                      && id !in level.animations :: r[id].kind == ModelKind)
  {
    var s1 := InsertAll(store, TerrainKind, level.terrains);
    var s2 := InsertAll(s1, ModelKind, level.models);
    var s3 := InsertAll(s2, TrimeshKind, level.trimeshes);
    var s4 := InsertAll(s3, BackgroundKind, level.backgrounds);
    InsertKeyed(store, TerrainKind, level.terrains);
    InsertKeyed(s1, ModelKind, level.models);
    InsertKeyed(s2, TrimeshKind, level.trimeshes);
    InsertKeyed(s3, BackgroundKind, level.backgrounds);
    InsertKeyed(s4, AnimationKind, level.animations);
    forall id | id in level.models && id !in level.trimeshes && id !in level.backgrounds && id !in level.animations
      ensures Stocked(store, level)[id].kind == ModelKind
    {
      var k :| 0 <= k < |level.models| && level.models[k] == id;
      assert s2[id].kind == ModelKind;
    }
    forall id | id in level.animations ensures Stocked(store, level)[id].kind == AnimationKind {
      var k :| 0 <= k < |level.animations| && level.animations[k] == id;
    }
  }

  /** An insert loop keeps every entry under its own id. */
  lemma InsertKeyed(store: map<Uuid, StoredAsset>, kind: AssetKind, ids: seq<Uuid>)
    requires StoreKeyed(store)
    ensures StoreKeyed(InsertAll(store, kind, ids))
    ensures forall id :: id in InsertAll(store, kind, ids) <==> id in store || id in ids
  {
    var r := InsertAll(store, kind, ids);
    forall id | id in r ensures r[id].id == id {
      if id in ids {
        var k :| 0 <= k < |ids| && ids[k] == id;
      }
    }
    forall id | id in ids ensures id in r {
      var k :| 0 <= k < |ids| && ids[k] == id;
    }
  }

  /** The asset definitions of `sync_world`, one per stored asset in the store's
      iteration order. */
  function Definitions(store: map<Uuid, StoredAsset>, order: seq<Uuid>): (r: seq<StoredAsset>)
    requires forall k | 0 <= k < |order| :: order[k] in store
    ensures |r| == |order|
  {
    seq(|order|, k requires 0 <= k < |order| => store[order[k]])
  }

  /** The bundle has one definition per stored asset, each stored under the id
      it carries, and no asset twice. */
  lemma DefinitionsCoverStore(store: map<Uuid, StoredAsset>, order: seq<Uuid>)
    requires StoreKeyed(store) && Enumerates(order, store.Keys)
    ensures var r := Definitions(store, order);
      && |r| == |store|
      && (forall id | id in store :: store[id] in r)
      && (forall i, j | 0 <= i < j < |r| :: r[i].id != r[j].id)
  {
    EnumeratedSize(order, store.Keys);
    var r := Definitions(store, order);
    forall id | id in store ensures store[id] in r {
      var k :| 0 <= k < |order| && order[k] == id;
      assert r[k] == store[id];
    }
  }

  /** The definitions loop of `sync_world`. */
  method CollectDefinitions(store: map<Uuid, StoredAsset>, order: seq<Uuid>) returns (r: seq<StoredAsset>)
    requires forall k | 0 <= k < |order| :: order[k] in store
    ensures r == Definitions(store, order)
  {
    r := [];
    for i := 0 to |order|
      invariant r == Definitions(store, order[..i])
    {
      r := r + [store[order[i]]];
    }
    assert order[..|order|] == order;
  }

  // ---------------------------------------------------------------------------
  // Level classification

  /** The tag match of `on_session_start`: three tags go to the catalog. It is a
      match of its own, not `from_str`: a "Spectator" prefab is instantiated. */
  function Catalogued(tag: string): (r: Option<ModelName>)
    ensures r.Some? <==> tag == "Player" || tag == "Smoke Bomb" || tag == "Hoverboard"
    ensures r.Some? ==> ToStr(r.value) == tag && r.value != Spectator
  {
    if tag == "Player" then Some(Player)
    else if tag == "Smoke Bomb" then Some(SmokeBomb)
    else if tag == "Hoverboard" then Some(Hoverboard)
    else None
  }

  /** The scene and the catalog `on_session_start` fills. */
  datatype Session = Session(scene: Scene<Body>, catalog: map<ModelName, Prefab>)

  /** One level prefab: catalogued by tag, or instantiated on a new entity first
      created raw as "tmp". */
  function Classify(st: Session, p: Prefab): (r: Session)
    requires st.scene.Valid()
    ensures r.scene.Valid()
  {
    match Catalogued(p.tag)
    case Some(n) => st.(catalog := st.catalog[n := p])
    case None =>
      var (s1, e) := st.scene.Create(Raw("tmp"));
      st.(scene := s1.Put(e, Built(p)))
  }

  /** The prefab loop of `on_session_start`. */
  function ClassifyAll(st: Session, prefabs: seq<Prefab>): (r: Session)
    requires st.scene.Valid()
    ensures r.scene.Valid()
    decreases |prefabs|
  {
    if prefabs == [] then st
    else Classify(ClassifyAll(st, prefabs[..|prefabs| - 1]), prefabs[|prefabs| - 1])
  }

  /** The prefab loop, walked in order. */
  method SessionLoop(st0: Session, prefabs: seq<Prefab>) returns (st: Session)
    requires st0.scene.Valid()
    ensures st == ClassifyAll(st0, prefabs)
  {
    st := st0;
    for i := 0 to |prefabs|
      invariant st.scene.Valid() && st == ClassifyAll(st0, prefabs[..i])
    {
      assert prefabs[..i + 1][..i] == prefabs[..i];
      var p := prefabs[i];
      match Catalogued(p.tag)
      case Some(n) =>
        st := st.(catalog := st.catalog[n := p]);
      case None =>
        var entity := st.scene.Create(Raw("tmp"));
        st := st.(scene := entity.0.Put(entity.1, Built(p)));
    }
    assert prefabs[..|prefabs|] == prefabs;
  }

  /** The level prefabs that are not catalogued, in order. */
  function Instances(prefabs: seq<Prefab>): (r: seq<Prefab>)
    ensures |r| <= |prefabs|
    ensures forall k | 0 <= k < |r| :: r[k] in prefabs && Catalogued(r[k].tag).None?
    decreases |prefabs|
  {
    if prefabs == [] then []
    else
      var front := Instances(prefabs[..|prefabs| - 1]);
      var p := prefabs[|prefabs| - 1];
      if Catalogued(p.tag).None? then front + [p] else front
  }

  /** Every prefab that is not catalogued, "Spectator" included, lands on its own
      new entity, the j-th of them on the j-th handle handed out; the existing
      entities are untouched and nothing else is created. */
  lemma {:induction false} ClassifyAllScene(st: Session, prefabs: seq<Prefab>)
    requires st.scene.Valid()
    ensures var r := ClassifyAll(st, prefabs);
      var inst := Instances(prefabs);
      && r.scene.next == st.scene.next + |inst|
      && (forall e :: e in r.scene.ents <==> e in st.scene.ents || st.scene.next <= e < r.scene.next)
      && (forall e | e in st.scene.ents :: r.scene.ents[e] == st.scene.ents[e])
      && (forall j | 0 <= j < |inst| :: r.scene.ents[st.scene.next + j] == Built(inst[j]))
    decreases |prefabs|
  {
    if prefabs != [] {
      var front := prefabs[..|prefabs| - 1];
      ClassifyAllScene(st, front);
    }
  }

  /** `prefabs[k]` is the last prefab catalogued under `n`. */
  predicate LastCatalogued(prefabs: seq<Prefab>, n: ModelName, k: nat) {
    k < |prefabs| && Catalogued(prefabs[k].tag) == Some(n)
    && forall j | k < j < |prefabs| :: Catalogued(prefabs[j].tag) != Some(n)
  }

  /** A later prefab with a catalogued tag replaces an earlier one. */
  lemma {:induction false} SessionCatalogLastWins(st: Session, prefabs: seq<Prefab>, n: ModelName, k: nat)
    requires st.scene.Valid() && LastCatalogued(prefabs, n, k)
    ensures n in ClassifyAll(st, prefabs).catalog && ClassifyAll(st, prefabs).catalog[n] == prefabs[k]
    decreases |prefabs|
  {
    var last := |prefabs| - 1;
    var front := prefabs[..last];
    if k < last {
      assert forall j | k < j < last :: front[j] == prefabs[j];
      SessionCatalogLastWins(st, front, n, k);
    }
  }

  /** Every catalog entry carries the tag its name is written as. */
  predicate CatalogTagged(catalog: map<ModelName, Prefab>) {
    forall n | n in catalog :: catalog[n].tag == ToStr(n)
  }

  /** Classification only catalogues a prefab under the name of its tag, and never
      under `Spectator`. */
  lemma {:induction false} ClassifyAllTags(st: Session, prefabs: seq<Prefab>)
    requires st.scene.Valid() && CatalogTagged(st.catalog)
    ensures CatalogTagged(ClassifyAll(st, prefabs).catalog)
    ensures Spectator in ClassifyAll(st, prefabs).catalog ==> Spectator in st.catalog
    decreases |prefabs|
  {
    if prefabs != [] {
      ClassifyAllTags(st, prefabs[..|prefabs| - 1]);
    }
  }

  // ---------------------------------------------------------------------------
  // Syncing the world

  /** The self marking of `sync_world`: a prefab whose id is the player's gets a
      `SelfComponent` appended. */
  function Mark(p: Prefab, player: PlayerId): (r: Prefab)
    ensures r.id == p.id && r.tag == p.tag && r.parent == p.parent
    ensures p.id == player ==> r.parts == p.parts + [SelfMarker]
    ensures p.id != player ==> r == p
  {
    if p.id == player then p.(parts := p.parts + [SelfMarker]) else p
  }

  /** The entity loop of `sync_world`; `None` is the panic of `Prefab::pack` on an
      entity that carries no prefab. */
  function PackEntities(scene: Scene<Body>, order: seq<Entity>, player: PlayerId): (r: Option<seq<Prefab>>)
    requires forall k | 0 <= k < |order| :: order[k] in scene.ents
    ensures r.Some? ==> |r.value| == |order|
    decreases |order|
  {
    if order == [] then Some([])
    else
      var front := PackEntities(scene, order[..|order| - 1], player);
      var body := scene.ents[order[|order| - 1]];
      if front.None? || body.Raw? then None else Some(front.value + [Mark(body.prefab, player)])
  }

  /** Packing succeeds exactly when every entity carries a prefab; the k-th packed
      prefab is then the k-th entity's, marked as the player's own exactly when
      its id is the player's. */
  lemma {:induction false} PackEntitiesSpec(scene: Scene<Body>, order: seq<Entity>, player: PlayerId)
    requires forall k | 0 <= k < |order| :: order[k] in scene.ents
    ensures PackEntities(scene, order, player).Some? <==> forall k | 0 <= k < |order| :: scene.ents[order[k]].Built?
    ensures PackEntities(scene, order, player).Some? ==> forall k | 0 <= k < |order| ::
      PackEntities(scene, order, player).value[k] == Mark(scene.ents[order[k]].prefab, player)
    decreases |order|
  {
    if order != [] {
      var front := order[..|order| - 1];
      assert forall k | 0 <= k < |front| :: front[k] == order[k];
      PackEntitiesSpec(scene, front, player);
    }
  }

  /** The entity loop, walked in scene order. */
  method PackLoop(scene: Scene<Body>, order: seq<Entity>, player: PlayerId) returns (r: Option<seq<Prefab>>)
    requires forall k | 0 <= k < |order| :: order[k] in scene.ents
    ensures r == PackEntities(scene, order, player)
  {
    var packed: seq<Prefab> := [];
    for i := 0 to |order|
      invariant PackEntities(scene, order[..i], player) == Some(packed)
    {
      assert order[..i + 1][..i] == order[..i];
      var body := scene.ents[order[i]];
      if body.Raw? {
        PackNoneStays(scene, order[..i + 1], order, player);
        return None;
      }
      var prefab := body.prefab;
      if prefab.id == player {
        prefab := prefab.(parts := prefab.parts + [SelfMarker]);
      }
      packed := packed + [prefab];
    }
    assert order[..|order|] == order;
    r := Some(packed);
  }

  lemma {:induction false} PackNoneStays(scene: Scene<Body>, prefix: seq<Entity>, order: seq<Entity>, player: PlayerId)
    requires forall k | 0 <= k < |order| :: order[k] in scene.ents
    requires prefix <= order && PackEntities(scene, prefix, player).None?
    ensures PackEntities(scene, order, player).None?
    decreases |order|
  {
    if |order| > |prefix| {
      var front := order[..|order| - 1];
      assert prefix <= front;
      PackNoneStays(scene, prefix, front, player);
    } else {
      assert prefix == order;
    }
  }

  /** The messages `sync_world` sends, all reliable and all to the player: the
      configuration when there is one, then the assets with loading triggered,
      then the scene's prefab registry, then the entities. */
  function SyncMessages(config: Option<Protocol.Config>, assets: seq<StoredAsset>, registry: seq<(string, Prefab)>,
                        entities: seq<Prefab>, player: PlayerId): (r: seq<Sent>)
    ensures |r| == (if config.Some? then 4 else 3)
    ensures forall k | 0 <= k < |r| :: r[k].to == player && r[k].reliable
    ensures config.Some? <==> r[0].message.ConfigMessage?
    ensures config.Some? ==> r[0].message.config == config.value
    ensures r[|r| - 3].message == Assets(assets, true)
    ensures r[|r| - 2].message == Prefabs(registry)
    ensures r[|r| - 1].message == Entities(entities)
  {
    (if config.Some? then [Sent(player, true, ConfigMessage(config.value))] else [])
    + [Sent(player, true, Assets(assets, true)), Sent(player, true, Prefabs(registry)),
       Sent(player, true, Entities(entities))]
  }

  // ---------------------------------------------------------------------------
  // Joining and leaving

  /** The scene after the join setup of `on_player_joined`, with the hoverboard's
      entity: the catalogued player prefab, under the player's id, is put on the
      player's `entity`; a copy of the catalogued hoverboard with id `freshId` is
      put on a new entity first created raw as "Hoverboard", and its parent id
      becomes the player's. `None` is a panic: no player or no hoverboard in the
      catalog, or a hoverboard without ParentComponent. */
  function Joined(scene: Scene<Body>, catalog: map<ModelName, Prefab>, entity: Entity, player: PlayerId,
                  freshId: Uuid): (r: Option<(Scene<Body>, Entity)>)
    requires scene.Valid()
    ensures r.None? <==> Player !in catalog || Hoverboard !in catalog || catalog[Hoverboard].parent.None?
    ensures r.Some? ==> var (s, board) := r.value;
      && s.Valid() && board !in scene.ents && s.ents.Keys == scene.ents.Keys + {board}
      && (entity in scene.ents ==> s.ents[entity] == Built(catalog[Player].(id := player)))
      && s.ents[board] == Built(catalog[Hoverboard].(id := freshId, parent := Some(player)))
      && (forall x | x in scene.ents && x != entity :: s.ents[x] == scene.ents[x])
  {
    if Player !in catalog then None
    else
      var withPlayer := scene.Put(entity, Built(catalog[Player].(id := player)));
      if Hoverboard !in catalog then None
      else
        var (s1, board) := withPlayer.Create(Raw("Hoverboard"));
        var hoverboard := catalog[Hoverboard].(id := freshId);
        var s2 := s1.Put(board, Built(hoverboard));
        if hoverboard.parent.None? then None
        else Some((s2.Put(board, Built(hoverboard.(parent := Some(player)))), board))
  }

  class NetworkController {
    /** The level's configuration, once a session started. */
    var config: Option<Protocol.Config>
    var store: map<Uuid, StoredAsset>
    /** The catalogued prefabs (`prefabs` in the source). */
    var catalog: map<ModelName, Prefab>
    /** Messages sent, in order. */
    var outbox: seq<Sent>

    /** Store entries sit under their own ids, and a catalog entry carries the tag
        its name is written as (so the catalog never holds a spectator). */
    ghost predicate Valid()
      reads this`store, this`catalog
    {
      StoreKeyed(store) && CatalogTagged(catalog) && Spectator !in catalog
    }

    /** `initialize`: no configuration, an empty store and catalog. */
    constructor ()
      ensures Valid()
      ensures config.None? && store == map[] && catalog == map[] && outbox == []
    {
      config := None;
      store := map[];
      catalog := map[];
      outbox := [];
    }

    /** `on_session_start` with the level file's contents: the configuration is
        taken, every asset id goes into the store (see `Stocked`), and the level
        prefabs are classified (see `ClassifyAll`) into the catalog and `scene`. */
    method OnSessionStart(scene: Scene<Body>, level: Gamefile) returns (scene': Scene<Body>)
      requires Valid() && scene.Valid()
      modifies this`config, this`store, this`catalog
      ensures Valid() && scene'.Valid()
      ensures config == Some(level.config)
      ensures store == Stocked(old(store), level)
      ensures Session(scene', catalog) == ClassifyAll(Session(scene, old(catalog)), level.prefabs)
    {
      config := Some(level.config);
      StockedHoldsLevel(store, level);
      var s := InsertLoop(store, TerrainKind, level.terrains);
      s := InsertLoop(s, ModelKind, level.models);
      s := InsertLoop(s, TrimeshKind, level.trimeshes);
      s := InsertLoop(s, BackgroundKind, level.backgrounds);
      s := InsertLoop(s, AnimationKind, level.animations);
      store := s;
      ClassifyAllTags(Session(scene, catalog), level.prefabs);
      var st := SessionLoop(Session(scene, catalog), level.prefabs);
      scene', catalog := st.scene, st.catalog;
    }

    /** `sync_world` to `player`: the store's definitions in its order
        `assetOrder`, and the scene's entities in scene order `order`, packed and
        self-marked (see `PackEntities`), go out as `SyncMessages`; `registry` is
        the scene's prefab registry, passed on as it is. Packing panics before
        anything is sent. */
    method SyncWorld(scene: Scene<Body>, registry: seq<(string, Prefab)>, player: PlayerId)
      returns (panicked: bool, order: seq<Entity>, assetOrder: seq<Uuid>)
      modifies this`outbox
      ensures Enumerates(order, scene.ents.Keys) && Enumerates(assetOrder, store.Keys)
      ensures panicked <==> PackEntities(scene, order, player).None?
      ensures panicked ==> outbox == old(outbox)
      ensures !panicked ==> outbox == old(outbox) + SyncMessages(config, Definitions(store, assetOrder), registry,
                                                                  PackEntities(scene, order, player).value, player)
    {
      assetOrder := Enumerate(store.Keys);
      var definitions := CollectDefinitions(store, assetOrder);
      order := Enumerate(scene.ents.Keys);
      var entities := PackLoop(scene, order, player);
      if entities.None? {
        return true, order, assetOrder;
      }
      if config.Some? {
        outbox := outbox + [Sent(player, true, ConfigMessage(config.value))];
      }
      outbox := outbox + [Sent(player, true, Assets(definitions, true))];
      outbox := outbox + [Sent(player, true, Prefabs(registry))];
      outbox := outbox + [Sent(player, true, Entities(entities.value))];
      panicked := false;
    }

    /** `on_player_joined` for `player` on its `entity`: the join setup (see
        `Joined`, with `freshId` for `PrefabId::new()`), then `SyncWorld` on the
        new scene. The player's entity then carries a prefab tagged "Player". */
    method OnPlayerJoined(scene: Scene<Body>, registry: seq<(string, Prefab)>, entity: Entity, player: PlayerId,
                          freshId: Uuid)
      returns (panicked: bool, scene': Scene<Body>, order: seq<Entity>, assetOrder: seq<Uuid>)
      requires Valid() && scene.Valid()
      modifies this`outbox
      ensures var j := Joined(scene, catalog, entity, player, freshId);
        && (j.None? ==> panicked && outbox == old(outbox))
        && (j.Some? ==>
              && scene' == j.value.0
              && Enumerates(order, scene'.ents.Keys) && Enumerates(assetOrder, store.Keys)
              && (panicked <==> PackEntities(scene', order, player).None?)
              && (panicked ==> outbox == old(outbox))
              && (!panicked ==> outbox == old(outbox) + SyncMessages(config, Definitions(store, assetOrder), registry,
                                                                      PackEntities(scene', order, player).value, player)))
      ensures !panicked && entity in scene.ents ==> scene'.ents[entity].Built? && scene'.ents[entity].prefab.tag == "Player"
    {
      scene', order, assetOrder := scene, [], [];
      if Player !in catalog {
        return true, scene', order, assetOrder;
      }
      var playerPrefab := catalog[Player].(id := player);
      scene' := scene'.Put(entity, Built(playerPrefab));
      if Hoverboard !in catalog {
        return true, scene', order, assetOrder;
      }
      var created := scene'.Create(Raw("Hoverboard"));
      var board;
      scene', board := created.0, created.1;
      var hoverboard := catalog[Hoverboard].(id := freshId);
      scene' := scene'.Put(board, Built(hoverboard));
      if hoverboard.parent.None? {
        return true, scene', order, assetOrder;
      }
      scene' := scene'.Put(board, Built(hoverboard.(parent := Some(player))));
      panicked, order, assetOrder := SyncWorld(scene', registry, player);
    }

    /** `on_player_left`: only the player's entity is despawned; the catalog, the
        store and every other entity, its hoverboard included, stay. */
    method OnPlayerLeft(scene: Scene<Body>, entity: Entity) returns (scene': Scene<Body>)
      ensures scene'.ents.Keys == scene.ents.Keys - {entity} && scene'.next == scene.next
      ensures forall x | x in scene'.ents :: scene'.ents[x] == scene.ents[x]
    {
      scene' := scene.Despawn(entity);
    }
  }

  /** After a join, the player leaving despawns its entity but leaves its
      hoverboard, still parented to the player's id. */
  lemma HoverboardOutlivesPlayer(scene: Scene<Body>, catalog: map<ModelName, Prefab>, entity: Entity,
                                 player: PlayerId, freshId: Uuid)
    requires scene.Valid() && entity in scene.ents && Joined(scene, catalog, entity, player, freshId).Some?
    ensures var (s, board) := Joined(scene, catalog, entity, player, freshId).value;
      var after := s.Despawn(entity);
      && entity !in after.ents && board in after.ents
      && after.ents[board].Built? && after.ents[board].prefab.parent == Some(player)
  {
    var (s, board) := Joined(scene, catalog, entity, player, freshId).value;
    assert board != entity;
  }
}
