/** Parent-chain resolution, identical in the client layer and the arena server:
    an entity's world matrix is its local transform premultiplied by the
    transforms of its ancestors, walked through the id-to-entity map and cut off
    after MAX_PARENTS + 1 steps so that cyclic parent graphs terminate. */
module ParentChain {
  import opened Common
  import opened Scenes
  import opened Protocol

  const MAX_PARENTS: nat := 4

  /** The entity carries both a Transform and a Parent component. */
  predicate Chained(scene: Scene<Components>, e: Entity) {
    e in scene.ents && scene.ents[e].transform.Some? && scene.ents[e].parent.Some?
  }

  /** `update_parent_transform`; `None` is the panic on an unknown parent id.
      However the graph is shaped, at most MAX_PARENTS + 1 - iteration products
      are added to `local`. */
  function UpdateParentTransform(scene: Scene<Components>, entities: map<Uuid, Entity>,
                                 iteration: nat, local: Mat, parent: Entity): (r: Option<Mat>)
    ensures r.Some? ==> Products(local) <= Products(r.value)
    ensures r.Some? && iteration <= MAX_PARENTS + 1
            ==> Products(r.value) <= Products(local) + (MAX_PARENTS + 1 - iteration)
    decreases MAX_PARENTS + 1 - iteration
  {
    if iteration > MAX_PARENTS then Some(local)
    else if Chained(scene, parent) then
      var c := scene.ents[parent];
      if c.parent.value.id in entities then
        var composed := Mul(Of(c.transform.value), local);
        assert Products(composed) == Products(local) + 1;
        UpdateParentTransform(scene, entities, iteration + 1, composed, entities[c.parent.value.id])
      else None
    else Some(local)
  }

  /** A parent that has a Transform but no Parent component (or has no Transform)
      is not composed: the local matrix comes back unchanged. */
  lemma UnchainedParentNotComposed(scene: Scene<Components>, entities: map<Uuid, Entity>,
                                   iteration: nat, local: Mat, parent: Entity)
    requires iteration <= MAX_PARENTS && !Chained(scene, parent)
    ensures UpdateParentTransform(scene, entities, iteration, local, parent) == Some(local)
  {
  }

  /** A chained parent whose own parent id is not in the entity map is a panic. */
  lemma UnknownParentPanics(scene: Scene<Components>, entities: map<Uuid, Entity>,
                            iteration: nat, local: Mat, parent: Entity)
    requires iteration <= MAX_PARENTS && Chained(scene, parent)
    requires scene.ents[parent].parent.value.id !in entities
    ensures UpdateParentTransform(scene, entities, iteration, local, parent).None?
  {
  }

  /** `t` composed `n` times onto `m`. */
  function Repeat(t: Transform, n: nat, m: Mat): Mat {
    if n == 0 then m else Repeat(t, n - 1, Mul(Of(t), m))
  }

  /** An entity that is its own parent: the walk does not loop forever but composes
      its transform exactly MAX_PARENTS + 1 - iteration times, so five times from
      iteration 0. */
  lemma {:induction false} SelfParentComposesFiveTimes(scene: Scene<Components>, entities: map<Uuid, Entity>,
                                                       iteration: nat, local: Mat, e: Entity)
    requires Chained(scene, e)
    requires scene.ents[e].parent.value.id in entities
    requires entities[scene.ents[e].parent.value.id] == e
    requires iteration <= MAX_PARENTS + 1
    ensures UpdateParentTransform(scene, entities, iteration, local, e)
         == Some(Repeat(scene.ents[e].transform.value, MAX_PARENTS + 1 - iteration, local))
    decreases MAX_PARENTS + 1 - iteration
  {
    var t := scene.ents[e].transform.value;
    if iteration <= MAX_PARENTS {
      SelfParentComposesFiveTimes(scene, entities, iteration + 1, Mul(Of(t), local), e);
    }
  }

  /** The parts of an entity the walk reads: its transform and its parent's id. */
  function Shape(c: Components): (Option<Transform>, Option<Uuid>) {
    (c.transform, if c.parent.Some? then Some(c.parent.value.id) else None)
  }

  predicate SameShape(a: Scene<Components>, b: Scene<Components>) {
    && a.ents.Keys == b.ents.Keys
    && forall e :: e in a.ents ==> Shape(a.ents[e]) == Shape(b.ents[e])
  }

  /** The walk reads only transforms and parent ids, so storing resolved world
      matrices into Parent components does not change any later walk. */
  lemma {:induction false} WalkReadsOnlyShape(a: Scene<Components>, b: Scene<Components>,
                                              entities: map<Uuid, Entity>,
                                              iteration: nat, local: Mat, parent: Entity)
    requires SameShape(a, b)
    ensures UpdateParentTransform(a, entities, iteration, local, parent)
         == UpdateParentTransform(b, entities, iteration, local, parent)
    decreases MAX_PARENTS + 1 - iteration
  {
    if iteration <= MAX_PARENTS && Chained(a, parent) {
      assert Shape(a.ents[parent]) == Shape(b.ents[parent]);
      var c := a.ents[parent];
      if c.parent.value.id in entities {
        WalkReadsOnlyShape(a, b, entities, iteration + 1,
                           Mul(Of(c.transform.value), local), entities[c.parent.value.id]);
      }
    } else if iteration <= MAX_PARENTS {
      assert parent in a.ents ==> Shape(a.ents[parent]) == Shape(b.ents[parent]);
    }
  }

  /** What decides whether the walk panics: whether an entity has a transform, and
      its parent's id. The transform's value only enters the matrix. */
  function Skeleton(c: Components): (bool, Option<Uuid>) {
    (c.transform.Some?, if c.parent.Some? then Some(c.parent.value.id) else None)
  }

  predicate SameSkeleton(a: Scene<Components>, b: Scene<Components>) {
    && a.ents.Keys == b.ents.Keys
    && forall e :: e in a.ents ==> Skeleton(a.ents[e]) == Skeleton(b.ents[e])
  }

  lemma SameSkeletonTrans(a: Scene<Components>, b: Scene<Components>, c: Scene<Components>)
    requires SameSkeleton(a, b) && SameSkeleton(b, c)
    ensures SameSkeleton(a, c)
  {
  }

  /** Whether the walk panics depends on the scene's skeleton only, whatever the
      local matrices it starts from. */
  lemma {:induction false} WalkPanicsOnSkeleton(a: Scene<Components>, b: Scene<Components>,
                                                entities: map<Uuid, Entity>, iteration: nat,
                                                la: Mat, lb: Mat, parent: Entity)
    requires SameSkeleton(a, b)
    ensures UpdateParentTransform(a, entities, iteration, la, parent).None?
        <==> UpdateParentTransform(b, entities, iteration, lb, parent).None?
    decreases MAX_PARENTS + 1 - iteration
  {
    if iteration <= MAX_PARENTS && Chained(a, parent) {
      assert Skeleton(a.ents[parent]) == Skeleton(b.ents[parent]);
      var c := a.ents[parent];
      if c.parent.value.id in entities {
        WalkPanicsOnSkeleton(a, b, entities, iteration + 1, Mul(Of(c.transform.value), la),
                             Mul(Of(b.ents[parent].transform.value), lb), entities[c.parent.value.id]);
      }
    } else if iteration <= MAX_PARENTS {
      assert parent in a.ents ==> Skeleton(a.ents[parent]) == Skeleton(b.ents[parent]);
    }
  }

  /** The world matrix the per-tick pass stores for entity `e` (a transform and a
      parent component both present): `None` when either lookup panics. */
  function WorldOf(scene: Scene<Components>, entities: map<Uuid, Entity>, e: Entity): Option<Mat>
    requires Chained(scene, e)
  {
    var c := scene.ents[e];
    if c.parent.value.id in entities then
      UpdateParentTransform(scene, entities, 0, Of(c.transform.value), entities[c.parent.value.id])
    else None
  }

  /** The per-tick pass over every entity with a Transform and a Parent component,
      in the scene's iteration order: each Parent component receives the resolved
      world matrix of its entity. It panics (`None`) exactly when some such entity
      names an unknown parent or its walk does; otherwise nothing but those world
      matrices changes. */
  method ResolveParents(scene: Scene<Components>, entities: map<Uuid, Entity>, order: seq<Entity>)
    returns (r: Option<Scene<Components>>)
    requires Enumerates(order, scene.ents.Keys)
    ensures r.None? <==> exists e :: Chained(scene, e) && WorldOf(scene, entities, e).None?
    ensures r.Some? ==> r.value.next == scene.next && r.value.ents.Keys == scene.ents.Keys
    ensures r.Some? ==> forall e :: e in scene.ents ==>
      r.value.ents[e] == (if Chained(scene, e)
                          then scene.ents[e].(parent := Some(scene.ents[e].parent.value.(world := WorldOf(scene, entities, e).value)))
                          else scene.ents[e])
  {
    var cur := scene;
    var i := 0;
    while i < |order|
      invariant 0 <= i <= |order|
      invariant cur.next == scene.next && SameShape(scene, cur)
      invariant forall k :: 0 <= k < i && Chained(scene, order[k]) ==>
        WorldOf(scene, entities, order[k]).Some?
      invariant forall e :: e in scene.ents ==>
        cur.ents[e] == (if e in order[..i] && Chained(scene, e)
                        then scene.ents[e].(parent := Some(scene.ents[e].parent.value.(world := WorldOf(scene, entities, e).value)))
                        else scene.ents[e])
    {
      var e := order[i];
      var c := cur.ents[e];
      if c.transform.Some? && c.parent.Some? {
        assert Chained(scene, e);
        if c.parent.value.id !in entities {
          return None;
        }
        var world := UpdateParentTransform(cur, entities, 0, Of(c.transform.value), entities[c.parent.value.id]);
        WalkReadsOnlyShape(scene, cur, entities, 0, Of(c.transform.value), entities[c.parent.value.id]);
        if world.None? {
          return None;
        }
        assert e !in order[..i];
        cur := Scene(cur.ents[e := c.(parent := Some(c.parent.value.(world := world.value)))], cur.next);
      }
      assert order[..i + 1] == order[..i] + [e];
      i := i + 1;
    }
    assert order[..i] == order;
    r := Some(cur);
  }

  /** The per-tick pass panics on two scenes of the same skeleton alike: moving
      entities never makes it panic or stop panicking. */
  lemma PassPanicsOnSkeleton(a: Scene<Components>, b: Scene<Components>, entities: map<Uuid, Entity>)
    requires SameSkeleton(a, b)
    ensures (exists e :: Chained(a, e) && WorldOf(a, entities, e).None?)
        <==> (exists e :: Chained(b, e) && WorldOf(b, entities, e).None?)
  {
    forall e | Chained(a, e)
      ensures Chained(b, e) && (WorldOf(a, entities, e).None? <==> WorldOf(b, entities, e).None?)
    {
      assert Skeleton(a.ents[e]) == Skeleton(b.ents[e]);
      var c := a.ents[e];
      if c.parent.value.id in entities {
        WalkPanicsOnSkeleton(a, b, entities, 0, Of(c.transform.value), Of(b.ents[e].transform.value),
                             entities[c.parent.value.id]);
      }
    }
    forall e | Chained(b, e)
      ensures Chained(a, e)
    {
      assert Skeleton(a.ents[e]) == Skeleton(b.ents[e]);
    }
  }
}
