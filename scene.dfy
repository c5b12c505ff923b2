/** The engine's entity-component scene, as a value: every live entity handle maps
    to the components it carries. The component record `C` differs between the
    legacy layers (client and arena) and the network controller. */
module Scenes {
  import opened Common

  datatype Scene<C> = Scene(ents: map<Entity, C>, next: Entity) {

    /** Every live handle was handed out before `next`. */
    predicate Valid() {
      forall e :: e in ents ==> e < next
    }

    /** `create_entity`: a handle no live entity has, carrying `c`. */
    function Create(c: C): (r: (Scene<C>, Entity))
      requires Valid()
      ensures r.1 !in ents && r.0.Valid()
      ensures r.0.ents == ents[r.1 := c]
      ensures next <= r.1 < r.0.next
    {
      (Scene(ents[next := c], next + 1), next)
    }

    /** Replaces the components of a live entity; adding to a despawned handle does nothing. */
    function Put(e: Entity, c: C): (r: Scene<C>)
      ensures r.ents.Keys == ents.Keys && r.next == next
      ensures Valid() ==> r.Valid()
    {
      if e in ents then Scene(ents[e := c], next) else this
    }

    /** `despawn`: removes the entity if it is live, otherwise changes nothing. */
    function Despawn(e: Entity): (r: Scene<C>)
      ensures r.ents.Keys == ents.Keys - {e} && r.next == next
      ensures forall x :: x in r.ents ==> r.ents[x] == ents[x]
      ensures Valid() ==> r.Valid()
    {
      Scene(ents - {e}, next)
    }

    /** Every entity of `gone` despawned at once; the rest keep their components. */
    function Without(gone: set<Entity>): (r: Scene<C>)
      ensures r.ents.Keys == ents.Keys - gone && r.next == next
      ensures forall x :: x in r.ents ==> r.ents[x] == ents[x]
      ensures Valid() ==> r.Valid()
    {
      Scene(map x | x in ents && x !in gone :: ents[x], next)
    }
  }
}
