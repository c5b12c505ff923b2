/** The local player's controller: it collects one tick of input, turns it into
    physics deltas and jumps for its entity, and tracks ground contact. */
module Controller {
  import opened Common
  import opened Protocol

  const MAX_JUMPS: nat := 2
  const JUMP_VELOCITY: real := 2.0
  /** Rotation input larger than this (in absolute value) is ignored. */
  const MAX_MOUSE_DELTA: real := 100.0

  /** The engine's per-tick input sample, as far as the controller and the client
      layer read it. */
  datatype DefaultInput = DefaultInput(mouseLock: bool, delta: Vec2, forward: real, right: real, action: bool,
                                       leftClick: bool, canvas: (U32, U32))

  /** What the controller's scene query finds for its entity (the entity has a
      Transform and an Input component): whether it has physics, and its animation. */
  datatype ControlledView = ControlledView(hasPhysics: bool, animation: Option<AnimationComponent>)

  function Abs(r: real): real {
    if r < 0.0 then -r else r
  }

  /** The animation an update leaves: only a grounded controller switches it, to
      running while the tick's translation is non-zero and to idle otherwise. */
  function ChooseAnimation(grounded: bool, deltaTranslation: Vec3, a: AnimationComponent): (r: AnimationComponent)
    ensures r.idle == a.idle && r.running == a.running
    ensures !grounded ==> r == a
    ensures grounded && deltaTranslation != Zero3 ==> r.current == a.running
    ensures grounded && deltaTranslation == Zero3 ==> r.current == a.idle
  {
    if !grounded then a
    else if IsMoving(deltaTranslation) then a.(current := a.running)
    else a.(current := a.idle)
  }

  /** The tick's translation after an initialised controller takes `input`: with
      the mouse locked, forward and right are added to `dt` and the sum is
      normalised (by `normalize`, nalgebra's `normalize`) when non-zero; otherwise
      `dt` is kept. */
  function Steered(dt: Vec3, input: DefaultInput, normalize: Vec3 -> Vec3): Vec3 {
    var summed := Add3(dt, Vec3(input.right, 0.0, input.forward));
    if !input.mouseLock then dt
    else if summed != Zero3 then normalize(summed) else summed
  }

  /** Whether an initialised controller's update jumps: its query found the entity
      with a physics body, a jump is pending, and fewer than MAX_JUMPS jumps were
      made since the last ground contact. */
  predicate Jumps(view: Option<ControlledView>, pending: bool, currentJumps: nat) {
    view.Some? && view.value.hasPhysics && pending && currentJumps < MAX_JUMPS
  }

  class PlayerController {
    /** The controlled entity; `None` is the dangling placeholder handle. */
    var entity: Option<Entity>
    var id: Uuid
    var deltaTranslation: Vec3
    var deltaRotation: Vec3
    var deltaVelocity: Vec3
    var isGrounded: bool
    var currentJumps: nat
    var shouldJump: bool
    /** Jumps performed since construction. */
    ghost var jumps: nat

    /** The jump counter stays within MAX_JUMPS, and the vertical velocity holds
        one JUMP_VELOCITY per jump ever performed (it is never reset). */
    ghost predicate Valid()
      reads this
    {
      && currentJumps <= MAX_JUMPS
      && deltaVelocity == Vec3(0.0, JUMP_VELOCITY * jumps as real, 0.0)
    }

    function IsInitialized(): (b: bool)
      reads this
      ensures b <==> id != NIL
    {
      id != NIL
    }

    /** `new`: uninitialised, not grounded, no jumps, nothing pending. */
    constructor ()
      ensures Valid() && !IsInitialized() && entity.None?
      ensures !isGrounded && currentJumps == 0 && !shouldJump && jumps == 0
      ensures deltaTranslation == Zero3 && deltaRotation == Zero3 && deltaVelocity == Zero3
    {
      entity := None;
      id := NIL;
      deltaTranslation := Zero3;
      deltaRotation := Zero3;
      deltaVelocity := Zero3;
      isGrounded := false;
      currentJumps := 0;
      shouldJump := false;
      jumps := 0;
    }

    /** Binds the controller to its entity and id (the input speed it writes into
        the scene is not modelled). */
    method Initialize(e: Entity, newId: Uuid)
      requires Valid()
      modifies this
      ensures Valid()
      ensures entity == Some(e) && id == newId
      ensures deltaTranslation == old(deltaTranslation) && deltaRotation == old(deltaRotation)
      ensures deltaVelocity == old(deltaVelocity) && isGrounded == old(isGrounded)
      ensures currentJumps == old(currentJumps) && shouldJump == old(shouldJump) && jumps == old(jumps)
    {
      entity := Some(e);
      id := newId;
    }

    method ResetInput()
      requires Valid()
      modifies this
      ensures Valid()
      ensures deltaTranslation == Zero3 && deltaRotation == Zero3 && !shouldJump
      ensures entity == old(entity) && id == old(id) && deltaVelocity == old(deltaVelocity)
      ensures isGrounded == old(isGrounded) && currentJumps == old(currentJumps) && jumps == old(jumps)
    {
      deltaTranslation := Zero3;
      deltaRotation := Zero3;
      shouldJump := false;
    }

    /** Takes one input sample. Nothing changes while the controller is
        uninitialised or the mouse is not locked. Otherwise a small horizontal mouse
        movement becomes the yaw delta, forward/right accumulate into the
        translation (normalised by `normalize`, nalgebra's `normalize`, when
        non-zero), and the action button requests a jump. */
    method Input(input: DefaultInput, normalize: Vec3 -> Vec3)
      requires Valid()
      modifies this
      ensures Valid()
      ensures (id == NIL || !input.mouseLock) ==>
        && deltaTranslation == old(deltaTranslation) && deltaRotation == old(deltaRotation)
        && shouldJump == old(shouldJump)
      ensures id != NIL && input.mouseLock ==>
        && deltaRotation == (if Abs(input.delta.x) < MAX_MOUSE_DELTA
                             then old(deltaRotation).(y := -input.delta.x) else old(deltaRotation))
        && deltaTranslation == Steered(old(deltaTranslation), input, normalize)
        && shouldJump == (old(shouldJump) || input.action)
      ensures entity == old(entity) && id == old(id) && deltaVelocity == old(deltaVelocity)
      ensures isGrounded == old(isGrounded) && currentJumps == old(currentJumps) && jumps == old(jumps)
    {
      if id == NIL {
        return;
      }
      if input.mouseLock {
        if Abs(input.delta.x) < MAX_MOUSE_DELTA {
          deltaRotation := deltaRotation.(y := -input.delta.x);
        }
        deltaTranslation := deltaTranslation.(z := deltaTranslation.z + input.forward);
        deltaTranslation := deltaTranslation.(x := deltaTranslation.x + input.right);
        if IsMoving(deltaTranslation) {
          deltaTranslation := normalize(deltaTranslation);
        }
        if input.action {
          shouldJump := true;
        }
      }
    }

    /** Applies the collected input to the controlled entity found by the scene
        query (`view`) and resets it. A jump happens only with a pending request,
        fewer than MAX_JUMPS jumps since the last ground contact and a physics
        body; it adds exactly one jump and one JUMP_VELOCITY, and pushes the whole
        accumulated vertical velocity (`lift`) into the body's translation, so the
        n-th jump since construction lifts by n JUMP_VELOCITY. `animation` is the
        entity's animation afterwards. Uninitialised, nothing happens at all. */
    method Update(view: Option<ControlledView>) returns (jumped: bool, lift: real, animation: Option<AnimationComponent>)
      requires Valid()
      modifies this
      ensures Valid()
      ensures id == NIL ==>
        && !jumped && lift == 0.0 && animation == (if view.Some? then view.value.animation else None)
        && deltaTranslation == old(deltaTranslation) && deltaRotation == old(deltaRotation)
        && shouldJump == old(shouldJump) && currentJumps == old(currentJumps) && jumps == old(jumps)
      ensures id != NIL ==>
        && jumped == Jumps(view, old(shouldJump), old(currentJumps))
        && currentJumps == old(currentJumps) + (if jumped then 1 else 0)
        && jumps == old(jumps) + (if jumped then 1 else 0)
        && lift == (if jumped then JUMP_VELOCITY * jumps as real else 0.0)
        && deltaTranslation == Zero3 && deltaRotation == Zero3 && !shouldJump
        && animation == (if view.Some? && view.value.animation.Some?
                         then Some(ChooseAnimation(old(isGrounded), old(deltaTranslation), view.value.animation.value))
                         else None)
      ensures entity == old(entity) && id == old(id) && isGrounded == old(isGrounded)
    {
      jumped := false;
      lift := 0.0;
      animation := if view.Some? then view.value.animation else None;
      if id == NIL {
        return;
      }
      if view.Some? {
        if view.value.hasPhysics {
          if shouldJump && currentJumps < MAX_JUMPS {
            currentJumps := currentJumps + 1;
            deltaVelocity := deltaVelocity.(y := deltaVelocity.y + JUMP_VELOCITY * 1.0);
            jumps := jumps + 1;
            lift := deltaVelocity.y;
            shouldJump := false;
            jumped := true;
          }
        }
        if isGrounded && animation.Some? {
          if IsMoving(deltaTranslation) {
            animation := Some(animation.value.(current := animation.value.running));
          } else {
            animation := Some(animation.value.(current := animation.value.idle));
          }
        }
      }
      ResetInput();
    }

    /** Contact with another collider: grounded, and the jump counter starts over. */
    method OnCollisionStart(other: nat)
      requires Valid()
      modifies this
      ensures Valid()
      ensures isGrounded && currentJumps == 0
      ensures entity == old(entity) && id == old(id) && deltaTranslation == old(deltaTranslation)
      ensures deltaRotation == old(deltaRotation) && deltaVelocity == old(deltaVelocity)
      ensures shouldJump == old(shouldJump) && jumps == old(jumps)
    {
      isGrounded := true;
      currentJumps := 0;
    }

    /** Contact lost: no longer grounded; the jump counter is left as it is. */
    method OnCollisionStop(other: nat)
      requires Valid()
      modifies this
      ensures Valid()
      ensures !isGrounded && currentJumps == old(currentJumps)
      ensures entity == old(entity) && id == old(id) && deltaTranslation == old(deltaTranslation)
      ensures deltaRotation == old(deltaRotation) && deltaVelocity == old(deltaVelocity)
      ensures shouldJump == old(shouldJump) && jumps == old(jumps)
    {
      isGrounded := false;
    }
  }

  /** A player in the air can jump twice and no more until it touches ground
      again: after three requested jumps only two happened and the vertical
      velocity holds two JUMP_VELOCITY; a ground contact allows the next jump. */
  method DoubleJumpScenario(e: Entity, playerId: Uuid, normalize: Vec3 -> Vec3)
    returns (first: bool, second: bool, third: bool, afterLanding: bool, velocity: real, lastLift: real)
    requires playerId != NIL
    ensures first && second && !third && afterLanding
    ensures velocity == 2.0 * JUMP_VELOCITY && lastLift == 3.0 * JUMP_VELOCITY
  {
    var pc := new PlayerController();
    pc.Initialize(e, playerId);
    var jump := DefaultInput(true, Zero2, 0.0, 0.0, true, false, (0, 0));
    var body := Some(ControlledView(true, None));
    var anim, lift;
    assert pc.deltaTranslation == Zero3 && Add3(Zero3, Zero3) == Zero3;
    pc.Input(jump, normalize);
    assert pc.deltaTranslation == Zero3;
    first, lift, anim := pc.Update(body);
    assert pc.currentJumps == 1 && pc.jumps == 1;
    pc.Input(jump, normalize);
    second, lift, anim := pc.Update(body);
    assert pc.currentJumps == 2 && pc.jumps == 2;
    pc.Input(jump, normalize);
    third, lift, anim := pc.Update(body);
    assert pc.jumps == 2;
    velocity := pc.deltaVelocity.y;
    pc.OnCollisionStart(0);
    pc.Input(jump, normalize);
    afterLanding, lastLift, anim := pc.Update(body);
  }
}
