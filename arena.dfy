/** The legacy arena server layer: it loads the level, keeps the authoritative
    scene, hands out spawn slots to joining players, applies and relays their
    trusted inputs, and resolves parent transforms every tick. */
module Arena {
  import opened Common
  import opened Scenes
  import opened TrustedInputs
  import opened Protocol
  import opened ParentChain
  import opened Replicas

  /** Every loaded model asset is announced with this instance budget. */
  const MAX_INSTANCES: nat := 100
  /** What `on_update` adds to the sky timer. */
  const TIMING_STEP: real := 0.0005

  /** The prefabs the arena keeps in its catalog instead of instantiating. */
  datatype ModelName = Foxy | Spectator

  /** What a level prefab is used for, decided by its tag. */
  datatype Role = SpectatorPoint | SpawnPoint | Catalogued(name: ModelName) | Instance

  function RoleOf(tag: string): (r: Role)
    ensures r == SpectatorPoint <==> tag == "spectator-spawn-1"
    ensures r == SpawnPoint <==> tag == "spawn 1" || tag == "spawn 2" || tag == "spawn 3" || tag == "spawn 4"
    ensures r == Catalogued(Spectator) <==> tag == "spectator"
    ensures r == Catalogued(Foxy) <==> tag == "foxy"
  {
    if tag == "spectator-spawn-1" then SpectatorPoint
    else if tag == "spawn 1" || tag == "spawn 2" || tag == "spawn 3" || tag == "spawn 4" then SpawnPoint
    else if tag == "spectator" then Catalogued(Spectator)
    else if tag == "foxy" then Catalogued(Foxy)
    else Instance
  }

  /** What the level-loading loop builds: the world (the arena keeps no position
      cache, so the replica's cache stays empty), the spawn points with one slot
      each, the spectator points and the catalog. */
  datatype Level = Level(world: Replica, spawns: seq<Transform>, slots: seq<Option<PlayerId>>,
                         spectators: seq<Transform>, catalog: map<ModelName, FullPrefab>)

  /** The prefab loop of `on_attach` for one prefab; `None` is the panic on a
      spawn or spectator point without a transform. */
  function LoadStep(st: Level, p: FullPrefab): (r: Option<Level>)
    requires st.world.scene.Valid()
    ensures r.Some? ==> r.value.world.scene.Valid() && r.value.world.cache == st.world.cache
  {
    match RoleOf(p.tag)
    case SpectatorPoint =>
      if p.transform.None? then None else Some(st.(spectators := st.spectators + [p.transform.value]))
    case SpawnPoint =>
      if p.transform.None? then None
      else Some(st.(spawns := st.spawns + [p.transform.value], slots := st.slots + [None]))
    case Catalogued(n) => Some(st.(catalog := st.catalog[n := p]))
    case Instance => Some(st.(world := ReceiveStep(st.world, p)))
  }

  /** The whole prefab loop. A spawn point always comes with a free slot, so the
      loop adds as many slots as spawn points, all free, and keeps the ones
      there were. */
  function LoadAll(st: Level, level: seq<FullPrefab>): (r: Option<Level>)
    requires st.world.scene.Valid()
    ensures r.Some? ==> r.value.world.scene.Valid() && r.value.world.cache == st.world.cache
    ensures r.Some? ==> |r.value.spawns| - |st.spawns| == |r.value.slots| - |st.slots|
    ensures r.Some? ==> |st.slots| <= |r.value.slots| && r.value.slots[..|st.slots|] == st.slots
    ensures r.Some? ==> forall k | |st.slots| <= k < |r.value.slots| :: r.value.slots[k].None?
    decreases |level|
  {
    if level == [] then Some(st)
    else
      var front := LoadAll(st, level[..|level| - 1]);
      if front.None? then None else LoadStep(front.value, level[|level| - 1])
  }

  /** A spawn or spectator point without a transform. */
  predicate Unplaceable(p: FullPrefab) {
    (RoleOf(p.tag) == SpawnPoint || RoleOf(p.tag) == SpectatorPoint) && p.transform.None?
  }

  /** Loading panics exactly when the level holds an unplaceable point. */
  lemma {:induction false} LoadAllPanics(st: Level, level: seq<FullPrefab>)
    requires st.world.scene.Valid()
    ensures LoadAll(st, level).None? <==> exists k | 0 <= k < |level| :: Unplaceable(level[k])
    decreases |level|
  {
    if level != [] {
      var n := |level| - 1;
      var front := level[..n];
      LoadAllPanics(st, front);
      assert forall k | 0 <= k < n :: front[k] == level[k];
      if exists k | 0 <= k < n :: Unplaceable(level[k]) {
        var k :| 0 <= k < n && Unplaceable(level[k]);
        assert Unplaceable(front[k]);
      }
    }
  }

  /** Loading keeps the world's handles valid and distinct and never changes an
      existing record. */
  lemma {:induction false} LoadAllShape(st: Level, level: seq<FullPrefab>)
    requires ReplicaValid(st.world)
    ensures var r := LoadAll(st, level);
      r.Some? ==> (&& ReplicaValid(r.value.world) && r.value.world.cache == st.world.cache
                   && forall k | k in st.world.entities ::
                        k in r.value.world.entities && r.value.world.entities[k] == st.world.entities[k])
    decreases |level|
  {
    if level != [] {
      var front := level[..|level| - 1];
      LoadAllShape(st, front);
      var mid := LoadAll(st, front);
      if mid.Some? && RoleOf(level[|level| - 1].tag) == Instance {
        ReceiveStepFacts(mid.value.world, level[|level| - 1]);
      }
    }
  }

  /** `level[k]` is the last prefab of the level catalogued under `n`. */
  predicate LastCatalogued(level: seq<FullPrefab>, n: ModelName, k: nat) {
    k < |level| && RoleOf(level[k].tag) == Catalogued(n)
    && forall j | k < j < |level| :: RoleOf(level[j].tag) != Catalogued(n)
  }

  /** The catalog keeps the last prefab of each name: a later "foxy" replaces an
      earlier one. */
  lemma {:induction false} CatalogLastWins(st: Level, level: seq<FullPrefab>, n: ModelName, k: nat)
    requires st.world.scene.Valid() && LastCatalogued(level, n, k) && LoadAll(st, level).Some?
    ensures n in LoadAll(st, level).value.catalog && LoadAll(st, level).value.catalog[n] == level[k]
    decreases |level|
  {
    var last := |level| - 1;
    var front := level[..last];
    if k < last {
      assert forall j | k < j < last :: front[j] == level[j];
      CatalogLastWins(st, front, n, k);
    }
  }

  /** The catalog entry of a name no level prefab has stays what it was. */
  lemma {:induction false} CatalogUntouched(st: Level, level: seq<FullPrefab>, n: ModelName)
    requires st.world.scene.Valid() && LoadAll(st, level).Some?
    requires forall j | 0 <= j < |level| :: RoleOf(level[j].tag) != Catalogued(n)
    ensures (n in LoadAll(st, level).value.catalog) == (n in st.catalog)
    ensures n in st.catalog ==> LoadAll(st, level).value.catalog[n] == st.catalog[n]
    decreases |level|
  {
    if level != [] {
      var front := level[..|level| - 1];
      assert forall j | 0 <= j < |front| :: front[j] == level[j];
      CatalogUntouched(st, front, n);
    }
  }

  /** The prefab loop of `on_attach`, walked over the level's prefabs in order. */
  method LoadLoop(st0: Level, level: seq<FullPrefab>) returns (r: Option<Level>)
    requires ReplicaValid(st0.world)
    ensures r == LoadAll(st0, level)
    ensures r.Some? ==> ReplicaValid(r.value.world)
  {
    var st := st0;
    for i := 0 to |level|
      invariant LoadAll(st0, level[..i]) == Some(st)
    {
      var p := level[i];
      assert level[..i + 1][..i] == level[..i];
      ghost var before := st;
      match RoleOf(p.tag)
      case SpectatorPoint =>
        if p.transform.None? {
          assert level[..i + 1][i] == p;
          LoadNoneStays(st0, level[..i + 1], level);
          return None;
        }
        st := st.(spectators := st.spectators + [p.transform.value]);
      case SpawnPoint =>
        if p.transform.None? {
          assert level[..i + 1][i] == p;
          LoadNoneStays(st0, level[..i + 1], level);
          return None;
        }
        st := st.(spawns := st.spawns + [p.transform.value], slots := st.slots + [None]);
      case Catalogued(n) =>
        st := st.(catalog := st.catalog[n := p]);
      case Instance =>
        st := st.(world := ReceiveStep(st.world, p));
      assert Some(st) == LoadStep(before, p);
    }
    assert level[..|level|] == level;
    r := Some(st);
    LoadAllShape(st0, level);
  }

  /** Once loading has panicked on a prefix it panics on the whole level. */
  lemma {:induction false} LoadNoneStays(st: Level, prefix: seq<FullPrefab>, level: seq<FullPrefab>)
    requires st.world.scene.Valid() && prefix <= level && LoadAll(st, prefix).None?
    ensures LoadAll(st, level).None?
    decreases |level|
  {
    if |level| > |prefix| {
      var front := level[..|level| - 1];
      assert prefix <= front;
      LoadNoneStays(st, prefix, front);
    } else {
      assert prefix == level;
    }
  }

  /** The level part of `on_attach`: the prefab loop, then one copy of the
      catalogued spectator received per spectator point, with the k-th id from
      `newId`. `None` is a panic: a point without a transform, or no "spectator"
      prefab in the level. */
  function Loaded(st0: Level, level: seq<FullPrefab>, newId: nat -> Uuid): (r: Option<Level>)
    requires st0.world.scene.Valid()
    ensures r.None? <==> LoadAll(st0, level).None? || Spectator !in LoadAll(st0, level).value.catalog
    ensures r.Some? ==> var l := LoadAll(st0, level).value;
      && r.value.spawns == l.spawns && r.value.slots == l.slots
      && r.value.spectators == l.spectators && r.value.catalog == l.catalog
      && r.value.world.cache == st0.world.cache
  {
    var loaded := LoadAll(st0, level);
    if loaded.None? || Spectator !in loaded.value.catalog then None
    else
      var l := loaded.value;
      Some(l.(world := ReceiveAll(l.world, SpectatorsAt(l.catalog[Spectator], l.spectators, newId))))
  }

  /** The level part of `on_attach` on values. */
  method LoadWorld(st0: Level, level: seq<FullPrefab>, newId: nat -> Uuid) returns (r: Option<Level>)
    requires ReplicaValid(st0.world)
    ensures r == Loaded(st0, level, newId)
  {
    var loaded := LoadLoop(st0, level);
    if loaded.None? || Spectator !in loaded.value.catalog {
      return None;
    }
    var l := loaded.value;
    var world := ReceiveLoop(l.world, SpectatorsAt(l.catalog[Spectator], l.spectators, newId));
    r := Some(l.(world := world));
  }

  /** The spectator prefabs of `on_attach`: one copy of the catalogued spectator
      per spectator point, with the k-th freshly drawn id and placed on its point. */
  function SpectatorsAt(base: FullPrefab, points: seq<Transform>, newId: nat -> Uuid): (r: seq<FullPrefab>)
    ensures |r| == |points|
    ensures forall k | 0 <= k < |r| :: r[k] == base.(id := base.id.(id := newId(k)), transform := Some(points[k]))
  {
    seq(|points|, k requires 0 <= k < |points| => base.(id := base.id.(id := newId(k)), transform := Some(points[k])))
  }

  /** With distinct fresh ids, every spectator point ends up as a live entity that
      carries the spectator prefab, placed on that point. */
  lemma SpectatorsPlaced(st: Replica, base: FullPrefab, points: seq<Transform>, newId: nat -> Uuid, k: nat)
    requires ReplicaValid(st) && k < |points|
    requires forall i, j | 0 <= i < j < |points| :: newId(i) != newId(j)
    requires forall i | 0 <= i < |points| :: newId(i) !in st.entities
    ensures var ps := SpectatorsAt(base, points, newId);
      var r := ReceiveAll(st, ps);
      var e := r.entities[ps[k].id.id];
      && ps[k].id.id == newId(k)
      && e in r.scene.ents
      && r.scene.ents[e].id == Some(base.id.(id := newId(k)))
      && r.scene.ents[e].tag == Some(base.tag)
      && r.scene.ents[e].transform == Some(points[k])
  {
    var ps := SpectatorsAt(base, points, newId);
    ReceiveAllLastWins(st, ps, k);
  }

  /** The first free spawn slot. */
  function FirstFree(slots: seq<Option<PlayerId>>): (r: Option<nat>)
    ensures r.Some? ==> r.value < |slots| && slots[r.value].None? && forall j | 0 <= j < r.value :: slots[j].Some?
    ensures r.None? ==> forall j | 0 <= j < |slots| :: slots[j].Some?
    decreases |slots|
  {
    if slots == [] then None
    else if slots[0].None? then Some(0)
    else
      var rest := FirstFree(slots[1..]);
      if rest.None? then None else Some(rest.value + 1)
  }

  /** The slot loop of `on_player_joined`: the first free slot goes to `player`
      and its index is returned; with no free slot nothing changes and the index
      is 0. */
  method ClaimSpawn(slots: seq<Option<PlayerId>>, player: PlayerId) returns (r: seq<Option<PlayerId>>, index: nat)
    ensures FirstFree(slots).Some? ==> index == FirstFree(slots).value && r == slots[index := Some(player)]
    ensures FirstFree(slots).None? ==> index == 0 && r == slots
  {
    r, index := slots, 0;
    for i := 0 to |slots|
      invariant forall j | 0 <= j < i :: slots[j].Some?
    {
      if slots[i].None? {
        FirstFreeIsFirst(slots, i);
        r, index := slots[i := Some(player)], i;
        return;
      }
    }
  }

  /** A free slot preceded only by taken ones is the first free slot. */
  lemma {:induction false} FirstFreeIsFirst(slots: seq<Option<PlayerId>>, i: nat)
    requires i < |slots| && slots[i].None? && forall j | 0 <= j < i :: slots[j].Some?
    ensures FirstFree(slots) == Some(i)
    decreases i
  {
    if i > 0 {
      assert forall j | 0 <= j < i - 1 :: slots[1..][j] == slots[j + 1];
      FirstFreeIsFirst(slots[1..], i - 1);
    }
  }

  /** The slot loop of `on_player_left`: every slot held by `player` is freed, all
      others are kept. */
  method ReleaseSlots(slots: seq<Option<PlayerId>>, player: PlayerId) returns (r: seq<Option<PlayerId>>)
    ensures |r| == |slots|
    ensures forall k | 0 <= k < |r| :: r[k] == (if slots[k] == Some(player) then None else slots[k])
  {
    r := slots;
    for i := 0 to |slots|
      invariant |r| == |slots|
      invariant forall k | 0 <= k < i :: r[k] == (if slots[k] == Some(player) then None else slots[k])
      invariant forall k | i <= k < |r| :: r[k] == slots[k]
    {
      if r[i] == Some(player) {
        r := r[i := None];
      }
    }
  }

  /** The scene packed for `sync_world`, one prefab per entity in scene order;
      `None` when some entity lacks an id or a tag (the `unwrap` panics). */
  function PackAll(scene: Scene<Components>, order: seq<Entity>): (r: Option<seq<FullPrefab>>)
    requires forall k | 0 <= k < |order| :: order[k] in scene.ents
    ensures r.Some? ==> |r.value| == |order|
    decreases |order|
  {
    if order == [] then Some([])
    else
      var front := PackAll(scene, order[..|order| - 1]);
      var last := Pack(scene.ents[order[|order| - 1]]);
      if front.None? || last.None? then None else Some(front.value + [last.value])
  }

  /** Packing succeeds exactly when every entity has an id and a tag, and then the
      k-th prefab is the k-th entity packed. */
  lemma {:induction false} PackAllSpec(scene: Scene<Components>, order: seq<Entity>)
    requires forall k | 0 <= k < |order| :: order[k] in scene.ents
    ensures PackAll(scene, order).Some? <==> forall k | 0 <= k < |order| :: Pack(scene.ents[order[k]]).Some?
    ensures PackAll(scene, order).Some? ==>
      forall k | 0 <= k < |order| :: PackAll(scene, order).value[k] == Pack(scene.ents[order[k]]).value
    decreases |order|
  {
    if order != [] {
      var front := order[..|order| - 1];
      assert forall k | 0 <= k < |front| :: front[k] == order[k];
      PackAllSpec(scene, front);
    }
  }

  /** The entity loop of `sync_world`. */
  method PackScene(scene: Scene<Components>, order: seq<Entity>) returns (r: Option<seq<FullPrefab>>)
    requires forall k | 0 <= k < |order| :: order[k] in scene.ents
    ensures r == PackAll(scene, order)
  {
    var packed: seq<FullPrefab> := [];
    for i := 0 to |order|
      invariant PackAll(scene, order[..i]) == Some(packed)
    {
      assert order[..i + 1][..i] == order[..i];
      var p := Pack(scene.ents[order[i]]);
      if p.None? {
        PackNoneStays(scene, order[..i + 1], order);
        return None;
      }
      packed := packed + [p.value];
    }
    assert order[..|order|] == order;
    r := Some(packed);
  }

  lemma {:induction false} PackNoneStays(scene: Scene<Components>, prefix: seq<Entity>, order: seq<Entity>)
    requires forall k | 0 <= k < |order| :: order[k] in scene.ents
    requires prefix <= order && PackAll(scene, prefix).None?
    ensures PackAll(scene, order).None?
    decreases |order|
  {
    if |order| > |prefix| {
      var front := order[..|order| - 1];
      assert prefix <= front;
      PackNoneStays(scene, prefix, front);
    } else {
      assert prefix == order;
    }
  }

  /** The asset list of `sync_world`: models (with their instance budget), then
      animations, then dynamic backgrounds, each in its map's order. */
  function AssetList(models: seq<Uuid>, animations: seq<Uuid>, backgrounds: seq<Uuid>): (r: seq<Asset>)
    ensures |r| == |models| + |animations| + |backgrounds|
    ensures CountModels(r) == |models|
  {
    var ms := seq(|models|, k requires 0 <= k < |models| => ModelAsset(models[k], MAX_INSTANCES));
    var an := seq(|animations|, k requires 0 <= k < |animations| => AnimationAsset(animations[k]));
    var bg := seq(|backgrounds|, k requires 0 <= k < |backgrounds| => DynamicBackgroundAsset(backgrounds[k]));
    AllModels(ms);
    NoModels(an);
    NoModels(bg);
    CountModelsAppend(ms, an);
    CountModelsAppend(ms + an, bg);
    ms + an + bg
  }

  lemma {:induction false} AllModels(s: seq<Asset>)
    requires forall k | 0 <= k < |s| :: s[k].ModelAsset?
    ensures CountModels(s) == |s|
  {
    if s != [] {
      assert forall k | 0 <= k < |s[1..]| :: s[1..][k] == s[k + 1];
      AllModels(s[1..]);
    }
  }

  lemma {:induction false} NoModels(s: seq<Asset>)
    requires forall k | 0 <= k < |s| :: !s[k].ModelAsset?
    ensures CountModels(s) == 0
  {
    if s != [] {
      assert forall k | 0 <= k < |s[1..]| :: s[1..][k] == s[k + 1];
      NoModels(s[1..]);
    }
  }

  /** `ms`, `an` and `bg` list the model, animation and background ids, each once. */
  predicate ListsAssets(ms: seq<Uuid>, an: seq<Uuid>, bg: seq<Uuid>,
                        models: set<Uuid>, animations: set<Uuid>, backgrounds: set<Uuid>) {
    Enumerates(ms, models) && Enumerates(an, animations) && Enumerates(bg, backgrounds)
  }

  /** What `on_player_joined` sends the joiner before it exists in the scene: the
      configuration, then the `packed` world with its asset list, to load. */
  function Welcome(player: PlayerId, config: Config, packed: seq<FullPrefab>, assets: seq<Asset>, frame: nat): (r: seq<Envelope>)
    ensures |r| == 2 && r[0].to == player && r[1].to == player && r[0].reliable && r[1].reliable
    ensures r[0].message == UpdateConfig(config)
    ensures r[1].message.SyncWorld? && r[1].message.triggerLoading
  {
    [Envelope(player, true, UpdateConfig(config)), Envelope(player, true, SyncWorld(packed, assets, frame, true))]
  }

  /** The prefab `update_player` sends to `room`: the joiner's prefab, marked as
      the local player only for the joiner. */
  function NoticeFor(prefab: FullPrefab, joiner: PlayerId, room: PlayerId, frame: nat): Envelope {
    Envelope(room, true, SyncWorld([prefab.(id := prefab.id.(isSelf := room == joiner))], [], frame, false))
  }

  /** The notification loop of `on_player_joined`: one reliable `SyncWorld` without
      loading per registered player, in the map's order. */
  function Notices(prefab: FullPrefab, joiner: PlayerId, rooms: seq<PlayerId>, frame: nat): (r: seq<Envelope>)
    ensures |r| == |rooms|
    ensures forall k | 0 <= k < |r| :: r[k] == NoticeFor(prefab, joiner, rooms[k], frame)
    decreases |rooms|
  {
    if rooms == [] then []
    else Notices(prefab, joiner, rooms[..|rooms| - 1], frame) + [NoticeFor(prefab, joiner, rooms[|rooms| - 1], frame)]
  }

  /** Among the notices to distinct players that include the joiner, exactly one
      marks the prefab as the local player, and it goes to the joiner. */
  lemma JoinerAloneIsSelf(prefab: FullPrefab, joiner: PlayerId, rooms: seq<PlayerId>, frame: nat)
    requires Enumerates(rooms, set r | r in rooms) && joiner in rooms
    ensures forall k | 0 <= k < |rooms| ::
      Notices(prefab, joiner, rooms, frame)[k].message.scene[0].id.isSelf <==> rooms[k] == joiner
    ensures exists k | 0 <= k < |rooms| :: rooms[k] == joiner && Notices(prefab, joiner, rooms, frame)[k].message.scene[0].id.isSelf
    ensures forall i, j | 0 <= i < j < |rooms| ::
      !(Notices(prefab, joiner, rooms, frame)[i].message.scene[0].id.isSelf && Notices(prefab, joiner, rooms, frame)[j].message.scene[0].id.isSelf)
  {
    var k :| 0 <= k < |rooms| && rooms[k] == joiner;
    assert Notices(prefab, joiner, rooms, frame)[k] == NoticeFor(prefab, joiner, joiner, frame);
  }

  /** The relay of `on_update`: the whole batch, dropped inputs included, goes
      unreliably to every registered player but its sender. */
  function Relay(rooms: seq<PlayerId>, sender: PlayerId, inputs: seq<TrustedInput>): (r: seq<Envelope>)
    ensures forall k | 0 <= k < |r| :: r[k] == Envelope(r[k].to, false, Trusted(sender, inputs))
    ensures forall k | 0 <= k < |r| :: r[k].to in rooms && r[k].to != sender
    decreases |rooms|
  {
    if rooms == [] then []
    else
      var room := rooms[|rooms| - 1];
      Relay(rooms[..|rooms| - 1], sender, inputs)
      + (if room != sender then [Envelope(room, false, Trusted(sender, inputs))] else [])
  }

  /** Every other registered player gets the batch. */
  lemma {:induction false} RelayReachesOthers(rooms: seq<PlayerId>, sender: PlayerId, inputs: seq<TrustedInput>, room: PlayerId)
    requires room in rooms && room != sender
    ensures Envelope(room, false, Trusted(sender, inputs)) in Relay(rooms, sender, inputs)
    decreases |rooms|
  {
    var front := rooms[..|rooms| - 1];
    if rooms[|rooms| - 1] != room {
      assert room in front;
      RelayReachesOthers(front, sender, inputs, room);
    }
  }

  /** The relay loop. */
  method RelayLoop(rooms: seq<PlayerId>, sender: PlayerId, inputs: seq<TrustedInput>) returns (r: seq<Envelope>)
    ensures r == Relay(rooms, sender, inputs)
  {
    r := [];
    for i := 0 to |rooms|
      invariant r == Relay(rooms[..i], sender, inputs)
    {
      assert rooms[..i + 1][..i] == rooms[..i];
      if rooms[i] != sender {
        r := r + [Envelope(rooms[i], false, Trusted(sender, inputs))];
      }
    }
    assert rooms[..|rooms|] == rooms;
  }

  /** The notification loop. */
  method NoticeLoop(prefab: FullPrefab, joiner: PlayerId, rooms: seq<PlayerId>, frame: nat) returns (r: seq<Envelope>)
    ensures r == Notices(prefab, joiner, rooms, frame)
  {
    r := [];
    for i := 0 to |rooms|
      invariant r == Notices(prefab, joiner, rooms[..i], frame)
    {
      assert rooms[..i + 1][..i] == rooms[..i];
      r := r + [NoticeFor(prefab, joiner, rooms[i], frame)];
    }
    assert rooms[..|rooms|] == rooms;
  }

  /** The player's components after the lock loop: every accepted input writes its
      translation into an entity with a tag and a transform, so the last accepted
      one is what remains. */
  function AfterBatch(c: Components, accepted: seq<TrustedInput>): Components {
    if accepted == [] then c else ApplyPop(c, accepted[|accepted| - 1].translation)
  }

  /** A batch only moves its player's entity, so the scene keeps its skeleton. */
  lemma BatchKeepsSkeleton(s: Scene<Components>, e: Entity, accepted: seq<TrustedInput>)
    ensures SameSkeleton(s, if e in s.ents then s.Put(e, AfterBatch(s.ents[e], accepted)) else s)
  {
    if e in s.ents {
      assert Skeleton(AfterBatch(s.ents[e], accepted)) == Skeleton(s.ents[e]);
    }
  }

  /** The lock loop of `on_update` for one batch of a known player. */
  method LockLoop(lock0: U32, c0: Components, inputs: seq<TrustedInput>) returns (lock: U32, c: Components)
    ensures lock == FinalLock(lock0, inputs)
    ensures c == AfterBatch(c0, Accepted(lock0, inputs))
  {
    lock, c := lock0, c0;
    for i := 0 to |inputs|
      invariant lock == FinalLock(lock0, inputs[..i])
      invariant c == AfterBatch(c0, Accepted(lock0, inputs[..i]))
    {
      var input := inputs[i];
      assert inputs[..i + 1] == inputs[..i] + [input];
      AcceptOneMore(lock0, inputs[..i], input);
      if input.frame < lock {
        assert Accepted(lock0, inputs[..i]) + [] == Accepted(lock0, inputs[..i]);
        continue;
      }
      lock := input.frame;
      c := ApplyPop(c, input.translation);
    }
    assert inputs[..|inputs|] == inputs;
  }

  /** Receiving a player's prefab and recording the player under its entity keeps
      every connected player on the entity recorded for its id. */
  lemma EnrollKeepsValid(st: Replica, slots: nat, info: map<PlayerId, Entity>, lock: map<PlayerId, U32>, p: FullPrefab)
    requires LayerValid(st, slots, slots, info, lock)
    ensures var r := ReceiveStep(st, p);
      && p.id.id in r.entities
      && r.entities[p.id.id := r.entities[p.id.id]] == r.entities
      && LayerValid(r, slots, slots, info[p.id.id := r.entities[p.id.id]], lock[p.id.id := 0])
  {
    ReceiveStepFacts(st, p);
  }

  /** Loading a level and placing its spectators keeps the arena's invariant. */
  lemma LoadKeepsValid(st0: Level, level: seq<FullPrefab>, newId: nat -> Uuid,
                       info: map<PlayerId, Entity>, lock: map<PlayerId, U32>)
    requires LayerValid(st0.world, |st0.spawns|, |st0.slots|, info, lock)
    ensures var r := Loaded(st0, level, newId);
      r.Some? ==> LayerValid(r.value.world, |r.value.spawns|, |r.value.slots|, info, lock)
  {
    var loaded := LoadAll(st0, level);
    LoadAllShape(st0, level);
    if loaded.Some? && Spectator in loaded.value.catalog {
      var l := loaded.value;
      ReceiveAllShape(l.world, SpectatorsAt(l.catalog[Spectator], l.spectators, newId));
    }
  }

  /** The arena's record of who is connected: the received world, each player's
      entity, each player's lock and the spawn slots. */
  datatype Roster = Roster(world: Replica, info: map<PlayerId, Entity>, lock: map<PlayerId, U32>,
                           slots: seq<Option<PlayerId>>)

  /** The registration step of `on_player_joined`, from `r0` to `r`: the catalogued
      `foxy` stamped with the player's id is the `prefab` received into the world,
      the player is recorded under its entity with lock 0, and the first free spawn
      slot, if any, is claimed for it. */
  predicate Registers(player: PlayerId, foxy: FullPrefab, prefab: FullPrefab, r0: Roster, r: Roster)
    requires r0.world.scene.Valid()
  {
    var free := FirstFree(r0.slots);
    && prefab == foxy.(id := foxy.id.(id := player))
    && r.world == ReceiveStep(r0.world, prefab)
    && player in r.world.entities
    && r.info == r0.info[player := r.world.entities[player]]
    && r.lock == r0.lock[player := 0]
    && r.slots == (if free.Some? then r0.slots[free.value := Some(player)] else r0.slots)
  }

  /** The arena's invariant over its state's values: the world's handles are valid
      and distinct; every spawn point has one slot; a player is connected in both
      `info` and `lock`, and its entity is the one recorded for its id. */
  ghost predicate LayerValid(world: Replica, spawns: nat, slots: nat, info: map<PlayerId, Entity>, lock: map<PlayerId, U32>) {
    && ReplicaValid(world)
    && spawns == slots
    && info.Keys == lock.Keys
    && (forall p | p in info :: p in world.entities && world.entities[p] == info[p])
  }

  class ArenaLayer {
    var scene: Scene<Components>
    /** Scene entity of every prefab id received. */
    var entities: map<Uuid, Entity>
    /** Entity of every connected player. */
    var playerInfo: map<PlayerId, Entity>
    /** Last accepted frame per connected player. */
    var inputLock: map<PlayerId, U32>
    var spawnPoints: seq<Transform>
    var spectatorPoints: seq<Transform>
    /** The player holding each spawn point, if any. */
    var assignedSpawns: seq<Option<PlayerId>>
    var catalog: map<ModelName, FullPrefab>
    var config: Config
    var models: set<Uuid>
    var animations: set<Uuid>
    var backgrounds: set<Uuid>
    var frame: nat
    var timing: real
    /** Messages sent, in order. */
    var outbox: seq<Envelope>

    ghost predicate Valid()
      reads this`scene, this`entities, this`playerInfo, this`inputLock, this`spawnPoints, this`assignedSpawns
    {
      LayerValid(Replica(scene, entities, map[]), |spawnPoints|, |assignedSpawns|, playerInfo, inputLock)
    }

    constructor (config0: Config)
      ensures Valid()
      ensures scene == Scene(map[], 0) && entities == map[] && playerInfo == map[] && inputLock == map[]
      ensures spawnPoints == [] && spectatorPoints == [] && assignedSpawns == [] && catalog == map[]
      ensures config == config0 && models == {} && animations == {} && backgrounds == {}
      ensures frame == 0 && timing == 0.0 && outbox == []
    {
      scene := Scene(map[], 0);
      entities := map[];
      playerInfo := map[];
      inputLock := map[];
      spawnPoints := [];
      spectatorPoints := [];
      assignedSpawns := [];
      catalog := map[];
      config := config0;
      models := {};
      animations := {};
      backgrounds := {};
      frame := 0;
      timing := 0.0;
      outbox := [];
    }

    /** `receive_prefab`: the prefab lands on the entity recorded for its id (a new
        one, tagged with the prefab's tag, when the id is new); the entity and the
        id are returned. */
    method ReceivePrefab(p: FullPrefab) returns (e: Entity, id: Uuid)
      requires Valid()
      modifies this`scene, this`entities
      ensures Valid()
      ensures Replica(scene, entities, map[]) == ReceiveStep(old(Replica(scene, entities, map[])), p)
      ensures id == p.id.id && id in entities && e == entities[id]
    {
      ghost var st0 := Replica(scene, entities, map[]);
      ReceiveStepFacts(st0, p);
      id := p.id.id;
      if id in entities {
        e := entities[id];
      } else {
        var created := scene.Create(Tagged(p.tag));
        scene, e := created.0, created.1;
        entities := entities[id := e];
      }
      if e in scene.ents {
        scene := scene.Put(e, AddPrefab(scene.ents[e], p));
      }
    }

    /** The prefab loop of `on_attach` and the spectators it places (see
        `Loaded`); the state after a panic is left unspecified. */
    method LoadLevel(level: seq<FullPrefab>, newId: nat -> Uuid) returns (panicked: bool)
      requires Valid()
      modifies this`scene, this`entities, this`spawnPoints, this`assignedSpawns, this`spectatorPoints, this`catalog
      ensures Valid()
      ensures var r := Loaded(old(Level(Replica(scene, entities, map[]), spawnPoints, assignedSpawns,
                                             spectatorPoints, catalog)), level, newId);
        && (panicked <==> r.None?)
        && (!panicked ==> Level(Replica(scene, entities, map[]), spawnPoints, assignedSpawns, spectatorPoints, catalog) == r.value)
    {
      var st0 := Level(Replica(scene, entities, map[]), spawnPoints, assignedSpawns, spectatorPoints, catalog);
      var r := LoadWorld(st0, level, newId);
      if r.None? {
        return true;
      }
      LoadKeepsValid(st0, level, newId, playerInfo, inputLock);
      var l := r.value;
      scene, entities := l.world.scene, l.world.entities;
      spawnPoints, assignedSpawns, spectatorPoints, catalog := l.spawns, l.slots, l.spectators, l.catalog;
      panicked := false;
    }

    /** `on_attach`, from the level file's contents: the configuration is taken,
        the model and background ids are recorded, the level is loaded (see
        `LoadLevel`), and the animation ids are recorded last, so a panic while
        loading leaves them out. */
    method OnAttach(level: seq<FullPrefab>, levelConfig: Config, modelIds: set<Uuid>, animationIds: set<Uuid>,
                    backgroundIds: set<Uuid>, newId: nat -> Uuid) returns (panicked: bool)
      requires Valid()
      modifies this`config, this`models, this`animations, this`backgrounds
      modifies this`scene, this`entities, this`spawnPoints, this`assignedSpawns, this`spectatorPoints, this`catalog
      ensures Valid()
      ensures config == levelConfig && models == old(models) + modelIds && backgrounds == old(backgrounds) + backgroundIds
      ensures animations == (if panicked then old(animations) else old(animations) + animationIds)
      ensures var r := Loaded(old(Level(Replica(scene, entities, map[]), spawnPoints, assignedSpawns,
                                             spectatorPoints, catalog)), level, newId);
        && (panicked <==> r.None?)
        && (!panicked ==> Level(Replica(scene, entities, map[]), spawnPoints, assignedSpawns, spectatorPoints, catalog) == r.value)
    {
      config := levelConfig;
      models := models + modelIds;
      backgrounds := backgrounds + backgroundIds;
      panicked := LoadLevel(level, newId);
      if !panicked {
        animations := animations + animationIds;
      }
    }

    /** `on_player_left`: the player's entity is despawned if it was connected, the
        player is forgotten in `playerInfo` and `inputLock`, and every spawn slot
        it held is freed. The id-to-entity record is kept. */
    method OnPlayerLeft(player: PlayerId)
      requires Valid()
      modifies this`playerInfo, this`scene, this`inputLock, this`assignedSpawns
      ensures Valid()
      ensures playerInfo == old(playerInfo) - {player} && inputLock == old(inputLock) - {player}
      ensures scene == (if player in old(playerInfo) then old(scene).Despawn(old(playerInfo)[player]) else old(scene))
      ensures |assignedSpawns| == |old(assignedSpawns)|
      ensures forall k | 0 <= k < |assignedSpawns| ::
        assignedSpawns[k] == (if old(assignedSpawns)[k] == Some(player) then None else old(assignedSpawns)[k])
    {
      if player in playerInfo {
        var e := playerInfo[player];
        playerInfo := playerInfo - {player};
        scene := scene.Despawn(e);
      }
      inputLock := inputLock - {player};
      assignedSpawns := ReleaseSlots(assignedSpawns, player);
    }

    /** `update_config` and `sync_world` for a joiner: the configuration, then a
        loading `SyncWorld` holding every entity packed in scene order `order` and
        the asset list built from the map orders `ms`, `an` and `bg`. Packing
        panics on an entity without id or tag, after the configuration went out. */
    method SendWorld(player: PlayerId) returns (panicked: bool, order: seq<Entity>, ms: seq<Uuid>, an: seq<Uuid>, bg: seq<Uuid>)
      modifies this`outbox
      ensures Enumerates(order, scene.ents.Keys)
      ensures ListsAssets(ms, an, bg, models, animations, backgrounds)
      ensures panicked <==> PackAll(scene, order).None?
      ensures panicked ==> outbox == old(outbox) + [Envelope(player, true, UpdateConfig(config))]
      ensures !panicked ==>
        outbox == old(outbox) + Welcome(player, config, PackAll(scene, order).value, AssetList(ms, an, bg), frame)
    {
      outbox := outbox + [Envelope(player, true, UpdateConfig(config))];
      order := Enumerate(scene.ents.Keys);
      ms := Enumerate(models);
      an := Enumerate(animations);
      bg := Enumerate(backgrounds);
      var packed := PackScene(scene, order);
      if packed.None? {
        return true, order, ms, an, bg;
      }
      outbox := outbox + [Envelope(player, true, SyncWorld(packed.value, AssetList(ms, an, bg), frame, true))];
      panicked := false;
    }

    /** The joiner's setup in `on_player_joined`: the catalogued "foxy" prefab
        gets the player's id, the first free spawn slot is claimed (slot 0 when
        none is free), and the prefab is received and registered with lock 0.
        `panicked` is a missing "foxy", a spawn index past the spawn points or a
        "foxy" without transform. The spawn point's transform is not applied to
        the prefab. */
    method Register(player: PlayerId) returns (panicked: bool, prefab: FullPrefab)
      requires Valid()
      modifies this`assignedSpawns, this`scene, this`entities, this`playerInfo, this`inputLock
      ensures Valid()
      ensures var free := FirstFree(old(assignedSpawns));
        panicked <==> Foxy !in catalog || (free.None? && |spawnPoints| == 0) || catalog[Foxy].transform.None?
      ensures !panicked ==>
        var free := FirstFree(old(assignedSpawns));
        && prefab == catalog[Foxy].(id := catalog[Foxy].id.(id := player))
        && Replica(scene, entities, map[]) == ReceiveStep(old(Replica(scene, entities, map[])), prefab)
        && player in entities
        && playerInfo == old(playerInfo)[player := entities[player]]
        && inputLock == old(inputLock)[player := 0]
        && assignedSpawns == (if free.Some? then old(assignedSpawns)[free.value := Some(player)] else old(assignedSpawns))
      ensures panicked ==> playerInfo == old(playerInfo) && inputLock == old(inputLock)
    {
      prefab := FullPrefab(IdComponent(player, false), "", None, None, None, None, None);
      if Foxy !in catalog {
        return true, prefab;
      }
      var slots, index := ClaimSpawn(assignedSpawns, player);
      assignedSpawns := slots;
      if index >= |spawnPoints| {
        return true, prefab;
      }
      if catalog[Foxy].transform.None? {
        return true, prefab;
      }
      prefab := catalog[Foxy].(id := catalog[Foxy].id.(id := player));
      Enroll(prefab);
      panicked := false;
    }

    /** The end of the joiner's setup: its prefab is received, and the player is
        recorded under the prefab's entity with lock 0. */
    method Enroll(prefab: FullPrefab)
      requires Valid()
      modifies this`scene, this`entities, this`playerInfo, this`inputLock
      ensures Valid()
      ensures Replica(scene, entities, map[]) == ReceiveStep(old(Replica(scene, entities, map[])), prefab)
      ensures prefab.id.id in entities
      ensures playerInfo == old(playerInfo)[prefab.id.id := entities[prefab.id.id]]
      ensures inputLock == old(inputLock)[prefab.id.id := 0]
    {
      var player := prefab.id.id;
      EnrollKeepsValid(Replica(scene, entities, map[]), |spawnPoints|, playerInfo, inputLock, prefab);
      var e, _ := ReceivePrefab(prefab);
      playerInfo := playerInfo[player := e];
      inputLock := inputLock[player := 0];
      entities := entities[player := e];
    }

    /** `on_player_joined`: `SendWorld` (the configuration, then the loading world
        packed in `order` before the joiner exists, with the asset lists `ms`, `an`,
        `bg`), `Register`, then every registered player, the joiner included, is
        sent the joiner's `prefab` without loading, marked as the local player only
        in the joiner's copy (`rooms` is the map's order). */
    method OnPlayerJoined(player: PlayerId)
      returns (panicked: bool, prefab: FullPrefab, rooms: seq<PlayerId>,
               order: seq<Entity>, ms: seq<Uuid>, an: seq<Uuid>, bg: seq<Uuid>)
      requires Valid()
      modifies this`outbox, this`assignedSpawns, this`scene, this`entities, this`playerInfo, this`inputLock
      ensures Valid()
      ensures Enumerates(order, old(scene).ents.Keys)
      ensures ListsAssets(ms, an, bg, models, animations, backgrounds)
      ensures panicked <==>
        || PackAll(old(scene), order).None?
        || Foxy !in catalog
        || (FirstFree(old(assignedSpawns)).None? && |spawnPoints| == 0)
        || catalog[Foxy].transform.None?
      ensures PackAll(old(scene), order).None? ==>
        && outbox == old(outbox) + [Envelope(player, true, UpdateConfig(config))]
        && scene == old(scene) && assignedSpawns == old(assignedSpawns)
      ensures PackAll(old(scene), order).Some? ==>
        outbox == old(outbox)
                  + Welcome(player, config, PackAll(old(scene), order).value, AssetList(ms, an, bg), frame)
                  + (if panicked then [] else Notices(prefab, player, rooms, frame))
      ensures panicked ==> playerInfo == old(playerInfo) && inputLock == old(inputLock)
      ensures inputLock.Keys == old(inputLock).Keys || inputLock.Keys == old(inputLock).Keys + {player}
      ensures !panicked ==>
        && Foxy in catalog
        && Registers(player, catalog[Foxy], prefab,
                     old(Roster(Replica(scene, entities, map[]), playerInfo, inputLock, assignedSpawns)),
                     Roster(Replica(scene, entities, map[]), playerInfo, inputLock, assignedSpawns))
        && Enumerates(rooms, playerInfo.Keys)
    {
      rooms := [];
      panicked, order, ms, an, bg := SendWorld(player);
      prefab := FullPrefab(IdComponent(player, false), "", None, None, None, None, None);
      if panicked {
        return;
      }
      panicked, prefab, rooms := Admit(player);
    }

    /** The part of `on_player_joined` after the world is sent: `Register`, then
        the notices to every registered player (`rooms` is the map's order). */
    method Admit(player: PlayerId) returns (panicked: bool, prefab: FullPrefab, rooms: seq<PlayerId>)
      requires Valid()
      modifies this`outbox, this`assignedSpawns, this`scene, this`entities, this`playerInfo, this`inputLock
      ensures Valid()
      ensures var free := FirstFree(old(assignedSpawns));
        panicked <==> Foxy !in catalog || (free.None? && |spawnPoints| == 0) || catalog[Foxy].transform.None?
      ensures panicked ==> outbox == old(outbox) && playerInfo == old(playerInfo) && inputLock == old(inputLock)
      ensures !panicked ==>
        && Registers(player, catalog[Foxy], prefab,
                     old(Roster(Replica(scene, entities, map[]), playerInfo, inputLock, assignedSpawns)),
                     Roster(Replica(scene, entities, map[]), playerInfo, inputLock, assignedSpawns))
        && Enumerates(rooms, playerInfo.Keys)
        && outbox == old(outbox) + Notices(prefab, player, rooms, frame)
    {
      rooms := [];
      panicked, prefab := Register(player);
      if panicked {
        return;
      }
      rooms := Enumerate(playerInfo.Keys);
      var notices := NoticeLoop(prefab, player, rooms, frame);
      outbox := outbox + notices;
    }

    /** One batch taken from the input channel in `on_update`. A batch from a player
        missing from `playerInfo` or `inputLock` changes nothing. Otherwise the
        lock rule runs over the batch, the player's entity (if it is live and has a
        tag and a transform) takes the last accepted translation, and the whole
        batch is relayed to every other registered player (`rooms` is the map's
        order). */
    method OnBatch(player: PlayerId, inputs: seq<TrustedInput>) returns (rooms: seq<PlayerId>)
      requires Valid()
      modifies this`scene, this`inputLock, this`outbox
      ensures Valid()
      ensures player !in playerInfo || player !in old(inputLock) ==>
        scene == old(scene) && inputLock == old(inputLock) && outbox == old(outbox)
      ensures player in playerInfo && player in old(inputLock) ==>
        var e := playerInfo[player];
        var lock := old(inputLock)[player];
        && inputLock == old(inputLock)[player := FinalLock(lock, inputs)]
        && scene == (if e in old(scene).ents
                     then old(scene).Put(e, AfterBatch(old(scene).ents[e], Accepted(lock, inputs)))
                     else old(scene))
        && Enumerates(rooms, playerInfo.Keys)
        && outbox == old(outbox) + Relay(rooms, player, inputs)
      ensures SameSkeleton(old(scene), scene)
    {
      rooms := [];
      if player !in playerInfo || player !in inputLock {
        return;
      }
      var e := playerInfo[player];
      var c0 := if e in scene.ents then scene.ents[e] else Tagged("");
      var lock, c := LockLoop(inputLock[player], c0, inputs);
      BatchKeepsSkeleton(scene, e, Accepted(inputLock[player], inputs));
      inputLock := inputLock[player := lock];
      if e in scene.ents {
        scene := scene.Put(e, c);
      }
      rooms := Enumerate(playerInfo.Keys);
      var relayed := RelayLoop(rooms, player, inputs);
      outbox := outbox + relayed;
    }

    /** The input loop of `on_update`: every queued batch in arrival order. The
        connected players stay the same and no lock goes down. */
    method DrainInputs(batches: seq<(PlayerId, seq<TrustedInput>)>)
      requires Valid()
      modifies this`scene, this`inputLock, this`outbox
      ensures Valid()
      ensures inputLock.Keys == old(inputLock).Keys
      ensures forall p | p in old(inputLock) :: old(inputLock)[p] <= inputLock[p]
      ensures SameSkeleton(old(scene), scene)
    {
      for i := 0 to |batches|
        invariant Valid()
        invariant inputLock.Keys == old(inputLock).Keys
        invariant forall p | p in old(inputLock) :: old(inputLock)[p] <= inputLock[p]
        invariant SameSkeleton(old(scene), scene)
      {
        var (player, inputs) := batches[i];
        if player in inputLock {
          LockNeverDecreases(inputLock[player], inputs);
        }
        ghost var before := scene;
        var _ := OnBatch(player, inputs);
        SameSkeletonTrans(old(scene), before, scene);
      }
    }

    /** `on_update`: the input loop, then the parent pass (`ResolveParents`, which
        panics on a parent id that names no entity), then the timer and the frame
        counter. */
    method OnUpdate(batches: seq<(PlayerId, seq<TrustedInput>)>) returns (panicked: bool)
      requires Valid()
      modifies this`scene, this`inputLock, this`outbox, this`timing, this`frame
      ensures Valid()
      ensures inputLock.Keys == old(inputLock).Keys
      ensures forall p | p in old(inputLock) :: old(inputLock)[p] <= inputLock[p]
      ensures panicked <==> exists e :: Chained(old(scene), e) && WorldOf(old(scene), entities, e).None?
      ensures panicked == (frame == old(frame)) && panicked == (timing == old(timing))
      ensures !panicked ==> frame == old(frame) + 1 && timing == old(timing) + TIMING_STEP
    {
      DrainInputs(batches);
      PassPanicsOnSkeleton(old(scene), scene, entities);
      var order := Enumerate(scene.ents.Keys);
      var resolved := ResolveParents(scene, entities, order);
      if resolved.None? {
        return true;
      }
      panicked := false;
      scene := resolved.value;
      timing := timing + TIMING_STEP;
      frame := frame + 1;
    }
  }
}
