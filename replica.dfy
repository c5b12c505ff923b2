/** The client's replica of the world, as a value: its scene, the entity it keeps
    for every id the server mentioned, and the queue of relayed translations per
    player. The loops of the client layer that walk prefabs or position caches
    are specified here, one iteration at a time. */
module Replicas {
  import opened Common
  import opened Scenes
  import opened Protocol

  datatype Replica = Replica(scene: Scene<Components>, entities: map<Uuid, Entity>, cache: map<Uuid, seq<Vec3>>)

  /** Entity handles recorded for ids were issued by the scene and are distinct. */
  predicate ReplicaValid(st: Replica) {
    && st.scene.Valid()
    && (forall id | id in st.entities :: st.entities[id] < st.scene.next)
    && (forall a, b | a in st.entities && b in st.entities && a != b :: st.entities[a] != st.entities[b])
  }

  /** Swapping in another valid scene with the same next handle keeps the replica valid. */
  lemma SameNextKeepsValid(st: Replica, s: Scene<Components>)
    requires ReplicaValid(st) && s.Valid() && s.next == st.scene.next
    ensures ReplicaValid(st.(scene := s))
  {
  }

  predicate Distinct<T(==)>(s: seq<T>) {
    forall i, j | 0 <= i < j < |s| :: s[i] != s[j]
  }

  function Last<T>(s: seq<T>): T
    requires s != []
  {
    s[|s| - 1]
  }

  /** `pop_back` on the queue, without the popped element. */
  function DropLast<T>(s: seq<T>): (r: seq<T>)
    ensures s != [] ==> r + [s[|s| - 1]] == s
    ensures s == [] ==> r == []
  {
    if s == [] then [] else s[..|s| - 1]
  }

  function CacheOf(caches: map<Uuid, seq<Vec3>>, id: Uuid): seq<Vec3> {
    if id in caches then caches[id] else []
  }

  /** `get_or_create_entity`: the entity recorded for `id`, or a new entity tagged
      `name` that is recorded for it. */
  function GetOrCreate(st: Replica, id: Uuid, name: string): (r: (Replica, Entity))
    requires st.scene.Valid()
    ensures r.0.scene.Valid() && r.0.cache == st.cache && st.scene.ents.Keys <= r.0.scene.ents.Keys
    ensures id in r.0.entities && r.0.entities[id] == r.1
  {
    if id in st.entities then (st, st.entities[id])
    else
      var created := st.scene.Create(Tagged(name));
      (Replica(created.0, st.entities[id := created.1], st.cache), created.1)
  }

  /** A known id gets its entity back and nothing changes; an unknown id gets a
      fresh, live entity carrying only its tag. Handles stay valid and distinct,
      and earlier records never change. */
  lemma GetOrCreateFacts(st: Replica, id: Uuid, name: string)
    requires ReplicaValid(st)
    ensures var (r, e) := GetOrCreate(st, id, name);
      && ReplicaValid(r)
      && st.scene.next <= r.scene.next
      && r.entities.Keys == st.entities.Keys + {id}
      && (forall k | k in st.entities :: r.entities[k] == st.entities[k])
      && (id in st.entities ==> r == st)
      && (id !in st.entities ==>
            && st.scene.next <= e && e !in st.scene.ents
            && r.scene.ents == st.scene.ents[e := Tagged(name)])
  {
  }

  /** Writes a relayed translation into an entity that has a tag and a transform
      (the query of the first loop of `on_update`); any other entity is left
      alone. */
  function ApplyPop(c: Components, t: Vec3): (r: Components)
    ensures c.tag.Some? && c.transform.Some? ==> r.transform == Some(c.transform.value.(translation := t))
    ensures c.tag.Some? && c.transform.Some? ==> r == c.(transform := r.transform)
    ensures c.tag.None? || c.transform.None? ==> r == c
  {
    if c.tag.Some? && c.transform.Some? then c.(transform := Some(c.transform.value.(translation := t))) else c
  }

  /** Player `pid` has a translation queued and an entity `e` to receive it. */
  predicate Targets(cache: map<Uuid, seq<Vec3>>, entities: map<Uuid, Entity>, pid: Uuid, e: Entity) {
    pid in cache && cache[pid] != [] && pid in entities && entities[pid] == e
  }

  /** Player `pid` has a translation queued and an entity to receive it. */
  predicate Pops(cache: map<Uuid, seq<Vec3>>, entities: map<Uuid, Entity>, pid: Uuid) {
    pid in cache && cache[pid] != [] && pid in entities
  }

  /** One iteration of the first loop of `on_update`, for player `pid`: its entity
      is looked up or created (tagged "tmp"), its queue gives up its oldest
      translation (the back), and that translation is written into the entity. */
  function PopStep(st: Replica, pid: Uuid): (r: Replica)
    requires st.scene.Valid() && pid in st.cache
    ensures r.scene.Valid() && r.cache.Keys == st.cache.Keys && st.scene.ents.Keys <= r.scene.ents.Keys
  {
    var (mid, e) := GetOrCreate(st, pid, "tmp");
    var q := st.cache[pid];
    Replica(
      if q != [] && e in mid.scene.ents then mid.scene.Put(e, ApplyPop(mid.scene.ents[e], Last(q))) else mid.scene,
      mid.entities,
      st.cache[pid := DropLast(q)])
  }

  /** The whole loop, visiting the players in `order`. */
  function PopAll(st: Replica, order: seq<Uuid>): (r: Replica)
    requires st.scene.Valid() && forall k | 0 <= k < |order| :: order[k] in st.cache
    ensures r.scene.Valid() && r.cache.Keys == st.cache.Keys && st.scene.ents.Keys <= r.scene.ents.Keys
    decreases |order|
  {
    if order == [] then st
    else PopStep(PopAll(st, order[..|order| - 1]), order[|order| - 1])
  }

  /** One iteration keeps the handles valid and distinct, records an entity for
      `pid` (a fresh one when it had none), and changes at most the entity it
      targets. */
  lemma PopStepFacts(st: Replica, pid: Uuid)
    requires ReplicaValid(st) && pid in st.cache
    ensures var r := PopStep(st, pid);
      && ReplicaValid(r)
      && st.scene.next <= r.scene.next
      && r.entities.Keys == st.entities.Keys + {pid}
      && (forall k | k in st.entities :: r.entities[k] == st.entities[k])
      && (pid !in st.entities ==> st.scene.next <= r.entities[pid])
      && (forall e | e in st.scene.ents && !Targets(st.cache, st.entities, pid, e) :: r.scene.ents[e] == st.scene.ents[e])
      && (Pops(st.cache, st.entities, pid) && st.entities[pid] in st.scene.ents ==>
            r.scene.ents[st.entities[pid]] == ApplyPop(st.scene.ents[st.entities[pid]], Last(st.cache[pid])))
  {
    GetOrCreateFacts(st, pid, "tmp");
  }

  /** The loop keeps the handles valid and distinct, keeps every recorded entity,
      and records exactly the visited players in addition, with fresh entities. */
  lemma {:induction false} PopAllShape(st: Replica, order: seq<Uuid>)
    requires ReplicaValid(st) && forall k | 0 <= k < |order| :: order[k] in st.cache
    ensures var r := PopAll(st, order);
      && ReplicaValid(r)
      && st.scene.next <= r.scene.next
      && (forall k | k in st.entities :: k in r.entities && r.entities[k] == st.entities[k])
      && (forall k | k in order :: k in r.entities)
      && (forall k | k in r.entities :: k in st.entities || k in order)
      && (forall k | k in r.entities && k !in st.entities :: st.scene.next <= r.entities[k])
    decreases |order|
  {
    if order != [] {
      var front := order[..|order| - 1];
      var pid := order[|order| - 1];
      PopAllShape(st, front);
      PopStepFacts(PopAll(st, front), pid);
      assert forall k | k in order :: k in front || k == pid;
    }
  }

  /** Every visited player's queue loses exactly its oldest translation; the
      others keep theirs. */
  lemma {:induction false} PopAllCaches(st: Replica, order: seq<Uuid>)
    requires st.scene.Valid() && Distinct(order) && forall k | 0 <= k < |order| :: order[k] in st.cache
    ensures forall pid | pid in st.cache ::
      PopAll(st, order).cache[pid] == (if pid in order then DropLast(st.cache[pid]) else st.cache[pid])
    decreases |order|
  {
    if order != [] {
      var front := order[..|order| - 1];
      PopAllCaches(st, front);
      assert forall pid | pid in order :: pid in front || pid == order[|order| - 1];
    }
  }

  /** An entity no visited player targets keeps its components. */
  lemma {:induction false} PopAllUntouched(st: Replica, order: seq<Uuid>, e: Entity)
    requires ReplicaValid(st) && Distinct(order) && forall k | 0 <= k < |order| :: order[k] in st.cache
    requires e in st.scene.ents
    requires forall k | 0 <= k < |order| :: !Targets(st.cache, st.entities, order[k], e)
    ensures PopAll(st, order).scene.ents[e] == st.scene.ents[e]
    decreases |order|
  {
    if order != [] {
      var front := order[..|order| - 1];
      var pid := order[|order| - 1];
      PopAllUntouched(st, front, e);
      PopAllShape(st, front);
      PopAllCaches(st, front);
      assert pid !in front;
      PopStepFacts(PopAll(st, front), pid);
    }
  }

  /** A visited player with a queued translation and a live entity gets the
      oldest queued translation written into that entity. */
  lemma {:induction false} PopAllApplies(st: Replica, order: seq<Uuid>, k: nat)
    requires ReplicaValid(st) && Distinct(order) && forall j | 0 <= j < |order| :: order[j] in st.cache
    requires k < |order| && Pops(st.cache, st.entities, order[k]) && st.entities[order[k]] in st.scene.ents
    ensures var e := st.entities[order[k]];
      PopAll(st, order).scene.ents[e] == ApplyPop(st.scene.ents[e], Last(st.cache[order[k]]))
    decreases |order|
  {
    var pid := order[k];
    var e := st.entities[pid];
    var n := |order| - 1;
    var front := order[..n];
    var last := order[n];
    PopAllShape(st, front);
    PopAllCaches(st, front);
    if k == n {
      assert pid !in front;
      PopAllUntouched(st, front, e);
    } else {
      PopAllApplies(st, front, k);
      assert last !in front && last != pid;
    }
    PopStepFacts(PopAll(st, front), last);
  }

  /** One iteration of the prefab loop of the `SyncWorld` arm: the prefab's entity
      is looked up or created (tagged with the prefab's tag) and receives the
      prefab. */
  function ReceiveStep(st: Replica, p: FullPrefab): (r: Replica)
    requires st.scene.Valid()
    ensures r.scene.Valid() && r.cache == st.cache && st.scene.ents.Keys <= r.scene.ents.Keys
    ensures r.entities == GetOrCreate(st, p.id.id, p.tag).0.entities
    ensures r.entities.Keys == st.entities.Keys + {p.id.id}
  {
    var (mid, e) := GetOrCreate(st, p.id.id, p.tag);
    mid.(scene := if e in mid.scene.ents then mid.scene.Put(e, AddPrefab(mid.scene.ents[e], p)) else mid.scene)
  }

  /** One prefab keeps the handles valid and distinct and changes only the entity
      of its id, which receives it. */
  lemma ReceiveStepFacts(st: Replica, p: FullPrefab)
    requires ReplicaValid(st)
    ensures var r := ReceiveStep(st, p);
      var e := r.entities[p.id.id];
      && ReplicaValid(r)
      && st.scene.next <= r.scene.next
      && (forall k | k in st.entities :: r.entities[k] == st.entities[k])
      && (p.id.id !in st.entities ==> st.scene.next <= e && e in r.scene.ents)
      && (p.id.id in st.entities ==> e == st.entities[p.id.id])
      && (forall x | x in st.scene.ents && x != e :: r.scene.ents[x] == st.scene.ents[x])
      && (e in st.scene.ents || p.id.id !in st.entities ==>
            r.scene.ents[e] == AddPrefab(GetOrCreate(st, p.id.id, p.tag).0.scene.ents[e], p))
  {
    GetOrCreateFacts(st, p.id.id, p.tag);
  }

  /** The ids a batch of prefabs names. */
  function IdsOf(prefabs: seq<FullPrefab>): (r: set<Uuid>)
    ensures forall j | 0 <= j < |prefabs| :: prefabs[j].id.id in r
    decreases |prefabs|
  {
    if prefabs == [] then {} else IdsOf(prefabs[..|prefabs| - 1]) + {prefabs[|prefabs| - 1].id.id}
  }

  function ReceiveAll(st: Replica, prefabs: seq<FullPrefab>): (r: Replica)
    requires st.scene.Valid()
    ensures r.scene.Valid() && r.cache == st.cache && st.scene.ents.Keys <= r.scene.ents.Keys
    ensures r.entities.Keys == st.entities.Keys + IdsOf(prefabs)
    decreases |prefabs|
  {
    if prefabs == [] then st
    else ReceiveStep(ReceiveAll(st, prefabs[..|prefabs| - 1]), prefabs[|prefabs| - 1])
  }

  /** Every id in the batch is recorded, earlier records never change, handles stay
      valid and distinct, and the entities created for new ids are fresh and live. */
  lemma {:induction false} ReceiveAllShape(st: Replica, prefabs: seq<FullPrefab>)
    requires ReplicaValid(st)
    ensures var r := ReceiveAll(st, prefabs);
      && ReplicaValid(r)
      && st.scene.next <= r.scene.next
      && (forall k | k in st.entities :: r.entities[k] == st.entities[k])
      && (forall k | k in r.entities && k !in st.entities :: r.entities[k] in r.scene.ents && st.scene.next <= r.entities[k])
    decreases |prefabs|
  {
    if prefabs != [] {
      var front := prefabs[..|prefabs| - 1];
      ReceiveAllShape(st, front);
      ReceiveStepFacts(ReceiveAll(st, front), prefabs[|prefabs| - 1]);
    }
  }

  /** The last prefab of a batch: its entity is live afterwards and carries it. */
  lemma ReceiveLastWins(st: Replica, front: seq<FullPrefab>, p: FullPrefab)
    requires ReplicaValid(st)
    requires p.id.id in st.entities ==> st.entities[p.id.id] in st.scene.ents
    ensures var r := ReceiveStep(ReceiveAll(st, front), p);
      var e := r.entities[p.id.id];
      e in r.scene.ents && Carries(r.scene.ents[e], p)
  {
    ReceiveAllShape(st, front);
    ReceiveStepFacts(ReceiveAll(st, front), p);
  }

  /** A prefab for another id leaves a recorded, live entity as it was. */
  lemma ReceiveOtherKeeps(st: Replica, front: seq<FullPrefab>, p: FullPrefab, id: Uuid)
    requires ReplicaValid(st)
    requires var mid := ReceiveAll(st, front); id in mid.entities && mid.entities[id] in mid.scene.ents
    requires p.id.id != id
    ensures var mid := ReceiveAll(st, front);
      var r := ReceiveStep(mid, p);
      r.entities[id] == mid.entities[id] && r.scene.ents[mid.entities[id]] == mid.scene.ents[mid.entities[id]]
  {
    ReceiveAllShape(st, front);
    ReceiveStepFacts(ReceiveAll(st, front), p);
  }

  /** After the batch, the entity of each id carries the last prefab with that id
      (when that entity is live): its IdComponent, its tag and every optional
      component it has. */
  lemma {:induction false} ReceiveAllLastWins(st: Replica, prefabs: seq<FullPrefab>, k: nat)
    requires ReplicaValid(st)
    requires k < |prefabs| && forall j | k < j < |prefabs| :: prefabs[j].id.id != prefabs[k].id.id
    requires var id := prefabs[k].id.id; id in st.entities ==> st.entities[id] in st.scene.ents
    ensures var r := ReceiveAll(st, prefabs);
      var e := r.entities[prefabs[k].id.id];
      e in r.scene.ents && Carries(r.scene.ents[e], prefabs[k])
    decreases |prefabs|
  {
    var n := |prefabs| - 1;
    var front := prefabs[..n];
    if k == n {
      ReceiveLastWins(st, front, prefabs[n]);
    } else {
      ReceiveAllLastWins(st, front, k);
      ReceiveOtherKeeps(st, front, prefabs[n], prefabs[k].id.id);
    }
  }

  /** A packet received for one entity: the `Packet` arm of `on_network`. Its
      entity is looked up or created and gets the packet's IdComponent and every
      optional component the packet carries; the tag stays what it was. */
  function PacketStep(st: Replica, p: PartialPrefab): (r: Replica)
    requires st.scene.Valid()
    ensures r.scene.Valid() && r.cache == st.cache && st.scene.ents.Keys <= r.scene.ents.Keys
  {
    var (mid, e) := GetOrCreate(st, p.id.id, p.tag);
    mid.(scene := if e in mid.scene.ents then mid.scene.Put(e, AddPacket(mid.scene.ents[e], p)) else mid.scene)
  }
  /** A packet keeps the handles valid and distinct and changes only the entity of
      its id, which is live afterwards and carries the packet's IdComponent and
      every optional component the packet has; its tag is the one it had. */
  lemma PacketStepFacts(st: Replica, p: PartialPrefab)
    requires ReplicaValid(st)
    requires p.id.id in st.entities ==> st.entities[p.id.id] in st.scene.ents
    ensures var r := PacketStep(st, p);
      var e := GetOrCreate(st, p.id.id, p.tag).1;
      && ReplicaValid(r)
      && r.entities == GetOrCreate(st, p.id.id, p.tag).0.entities
      && e in r.scene.ents
      && r.scene.ents[e].id == Some(p.id)
      && r.scene.ents[e].tag == (if p.id.id in st.entities then st.scene.ents[e].tag else Some(p.tag))
      && (p.transform.Some? ==> r.scene.ents[e].transform == p.transform)
      && (p.animation.Some? ==> r.scene.ents[e].animation == p.animation)
      && (p.input.Some? ==> r.scene.ents[e].input == p.input)
      && (forall x | x in st.scene.ents && x != e :: r.scene.ents[x] == st.scene.ents[x])
  {
    GetOrCreateFacts(st, p.id.id, p.tag);
  }

  /** The first loop of `on_update` on the replica, visiting the players in
      `order`: each one's entity is looked up or created, its queue is popped at
      the back, and the popped translation is written into the entity. */
  method PopLoop(st0: Replica, order: seq<Uuid>) returns (st: Replica)
    requires ReplicaValid(st0) && forall k | 0 <= k < |order| :: order[k] in st0.cache
    ensures st == PopAll(st0, order) && ReplicaValid(st)
  {
    var sc: Scene<Components>, ents: map<Uuid, Entity>, cache: map<Uuid, seq<Vec3>> := st0.scene, st0.entities, st0.cache;
    for i := 0 to |order|
      invariant Replica(sc, ents, cache) == PopAll(st0, order[..i])
    {
      var pid := order[i];
      assert order[..i + 1][..i] == order[..i];
      ghost var before := Replica(sc, ents, cache);
      var e: Entity;
      if pid in ents {
        e := ents[pid];
      } else {
        var created := sc.Create(Tagged("tmp"));
        sc, e := created.0, created.1;
        ents := ents[pid := e];
      }
      var q := cache[pid];
      cache := cache[pid := DropLast(q)];
      if q != [] && e in sc.ents {
        sc := sc.Put(e, ApplyPop(sc.ents[e], q[|q| - 1]));
      }
      assert Replica(sc, ents, cache) == PopStep(before, pid);
    }
    assert order[..|order|] == order;
    st := Replica(sc, ents, cache);
    PopAllShape(st0, order);
  }

  /** The prefab loop of the `SyncWorld` arm on the replica. */
  method ReceiveLoop(st0: Replica, prefabs: seq<FullPrefab>) returns (st: Replica)
    requires ReplicaValid(st0)
    ensures st == ReceiveAll(st0, prefabs) && ReplicaValid(st)
  {
    var sc: Scene<Components>, ents: map<Uuid, Entity> := st0.scene, st0.entities;
    for i := 0 to |prefabs|
      invariant Replica(sc, ents, st0.cache) == ReceiveAll(st0, prefabs[..i])
    {
      var p := prefabs[i];
      assert prefabs[..i + 1][..i] == prefabs[..i];
      ghost var before := Replica(sc, ents, st0.cache);
      var e: Entity;
      if p.id.id in ents {
        e := ents[p.id.id];
      } else {
        var created := sc.Create(Tagged(p.tag));
        sc, e := created.0, created.1;
        ents := ents[p.id.id := e];
      }
      if e in sc.ents {
        sc := sc.Put(e, AddPrefab(sc.ents[e], p));
      }
      assert Replica(sc, ents, st0.cache) == ReceiveStep(before, p);
    }
    assert prefabs[..|prefabs|] == prefabs;
    st := Replica(sc, ents, st0.cache);
    ReceiveAllShape(st0, prefabs);
  }
}
