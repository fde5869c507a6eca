/**
  Players and enemies: health, damage with a window of invincibility after each hit,
  the Stand/Walk/Jump movement state with its animation cycle, and the per-frame movement
  step that mirrors the entity by the sign of its horizontal velocity.

  The engine clock (Time.now, Time.deltaTime) is passed in as parameters. Health and velocity
  are exact reals, not IEEE floats. Collision resolution is the engine's: the model records
  the two axis-separated move requests in the order they are made.
*/
module EntityModel {

  /** The movement states. C# gives an enum field the value of its first member, Walk, until it is assigned. */
  datatype State = Walk | Stand | Jump

  datatype Vec = Vec(x: real, y: real)

  const Zero: Vec := Vec(0.0, 0.0)

  /** What the model sprite animates: a cycle selected by the entity (first frame, frame count),
      or whatever the sprite was created with. */
  datatype Cycle = SpriteDefault | Frames(start: nat, count: nat)

  /** The animation cycle that belongs to each movement state. */
  function CycleOf(s: State): Cycle
  {
    match s
    case Stand => Frames(5, 3)
    case Walk => Frames(1, 3)
    case Jump => Frames(4, 1)
  }

  lemma CycleTable()
    ensures CycleOf(Stand) == Frames(5, 3) && CycleOf(Walk) == Frames(1, 3) && CycleOf(Jump) == Frames(4, 1)
    ensures forall s: State, t: State :: CycleOf(s) == CycleOf(t) ==> s == t
  {
  }

  /** The state chosen from a velocity: standing when it is zero (whatever the state was, Jump included),
      walking otherwise. */
  function NextState(current: State, velocity: Vec): State
  {
    if velocity == Zero then Stand
    else if current != Walk then Walk
    else current
  }

  /** The cycle after a state update: re-selected when the entity stands or starts walking, kept while it keeps walking. */
  function NextCycle(current: State, velocity: Vec, cycle: Cycle): Cycle
  {
    if velocity == Zero then CycleOf(Stand)
    else if current != Walk then CycleOf(Walk)
    else cycle
  }

  lemma StateFollowsVelocity(current: State, velocity: Vec)
    ensures NextState(current, velocity) == Stand <==> velocity == Zero
    ensures NextState(current, velocity) == Walk <==> velocity != Zero
    ensures NextState(current, velocity) != Jump
  {
  }

  /** The cycle is re-selected exactly when the state update calls for it; otherwise the old one stays. */
  lemma CycleFollowsState(current: State, velocity: Vec, cycle: Cycle)
    ensures velocity == Zero || current != Walk ==>
      NextCycle(current, velocity, cycle) == CycleOf(NextState(current, velocity))
    ensures velocity != Zero && current == Walk ==> NextCycle(current, velocity, cycle) == cycle
  {
  }

  /** The state and cycle after a run of frames with the given velocities. */
  function StatesAfter(current: State, cycle: Cycle, velocities: seq<Vec>): (State, Cycle)
    decreases |velocities|
  {
    if velocities == [] then (current, cycle)
    else StatesAfter(NextState(current, velocities[0]), NextCycle(current, velocities[0], cycle), velocities[1..])
  }

  /** Once the cycle agrees with the state it keeps agreeing, frame after frame. */
  lemma {:induction false} CycleStaysInStep(current: State, cycle: Cycle, velocities: seq<Vec>)
    requires cycle == CycleOf(current)
    ensures StatesAfter(current, cycle, velocities).1 == CycleOf(StatesAfter(current, cycle, velocities).0)
    decreases |velocities|
  {
    if velocities != [] {
      CycleStaysInStep(NextState(current, velocities[0]), NextCycle(current, velocities[0], cycle), velocities[1..]);
    }
  }

  /** A new entity is in state Walk with the sprite's own cycle, so as long as it keeps moving
      the Walk cycle is never selected; the first frame without velocity brings the two in step. */
  lemma {:induction false} FreshEntityKeepsSpriteCycleWhileMoving(velocities: seq<Vec>)
    requires forall k :: 0 <= k < |velocities| ==> velocities[k] != Zero
    ensures StatesAfter(Walk, SpriteDefault, velocities) == (Walk, SpriteDefault)
    decreases |velocities|
  {
    if velocities != [] {
      FreshEntityKeepsSpriteCycleWhileMoving(velocities[1..]);
    }
  }

  datatype Axis = AlongX | AlongY

  /** A request to the engine to move along one axis until the first collision. */
  datatype MoveRequest = MoveRequest(axis: Axis, delta: real)

  /** The distance asked for along one axis: velocity component times frame time times speed. */
  function Travel(component: real, deltaTime: int, speed: real): real
  {
    component * (deltaTime as real) * speed
  }

  /** The two requests of a movement step, vertical before horizontal. */
  function MoveRequests(velocity: Vec, deltaTime: int, speed: real): seq<MoveRequest>
  {
    [MoveRequest(AlongY, Travel(velocity.y, deltaTime, speed)), MoveRequest(AlongX, Travel(velocity.x, deltaTime, speed))]
  }

  /** The health side of an entity: what Damage, AddHealth, Kill and the invincibility check read and write. */
  datatype Vitals = Vitals(health: real, damageable: bool, damageTime: int, destroyScheduled: bool)

  /** A hit: only a damageable entity takes it; it loses exactly the amount, is scheduled for destruction
      when its health falls to zero or below, and is invincible from this moment. */
  function Hit(v: Vitals, amount: real, now: int): Vitals
  {
    if v.damageable then
      var health := v.health - amount;
      Vitals(health, false, now, v.destroyScheduled || health <= 0.0)
    else v
  }

  function Healed(v: Vitals, amount: real): Vitals
  {
    v.(health := v.health + amount)
  }

  /** The invincibility check of a frame: the window closes only once strictly more than its duration has passed. */
  function Ticked(v: Vitals, now: int, invincibilityDuration: int): Vitals
  {
    if now - v.damageTime > invincibilityDuration then v.(damageable := true) else v
  }

  lemma HitWhileDamageable(v: Vitals, amount: real, now: int)
    requires v.damageable
    ensures Hit(v, amount, now).health == v.health - amount
    ensures !Hit(v, amount, now).damageable && Hit(v, amount, now).damageTime == now
    ensures Hit(v, amount, now).destroyScheduled <==> v.destroyScheduled || v.health - amount <= 0.0
  {
  }

  lemma HitWhileInvincible(v: Vitals, amount: real, now: int)
    requires !v.damageable
    ensures Hit(v, amount, now) == v
  {
  }

  lemma HealIsExact(v: Vitals, amount: real)
    ensures Healed(v, amount).health == v.health + amount
    ensures Healed(v, amount).damageable == v.damageable && Healed(v, amount).destroyScheduled == v.destroyScheduled
  {
  }

  lemma WindowClosesStrictly(v: Vitals, now: int, invincibilityDuration: int)
    ensures Ticked(v, now, invincibilityDuration).damageable <==>
      v.damageable || now - v.damageTime > invincibilityDuration
    ensures Ticked(v, now, invincibilityDuration).health == v.health
  {
  }

  /** What happens to an entity's vitals between two of its frames, and at its frames. */
  datatype Event = Damaged(amount: real, at: int) | HealthAdded(amount: real) | Frame(now: int)

  function Step(v: Vitals, invincibilityDuration: int, e: Event): Vitals
  {
    match e
    case Damaged(amount, at) => Hit(v, amount, at)
    case HealthAdded(amount) => Healed(v, amount)
    case Frame(now) => Ticked(v, now, invincibilityDuration)
  }

  function Run(v: Vitals, invincibilityDuration: int, events: seq<Event>): Vitals
    decreases |events|
  {
    if events == [] then v else Run(Step(v, invincibilityDuration, events[0]), invincibilityDuration, events[1..])
  }

  /** The health added by the AddHealth calls among the events. */
  function HealthAddedBy(events: seq<Event>): real
    decreases |events|
  {
    if events == [] then 0.0
    else (if events[0].HealthAdded? then events[0].amount else 0.0) + HealthAddedBy(events[1..])
  }

  /** The event happens no later than the invincibility window that started at `start` lasts. */
  predicate InWindow(e: Event, start: int, invincibilityDuration: int)
  {
    match e
    case Damaged(_, at) => at - start <= invincibilityDuration
    case HealthAdded(_) => true
    case Frame(now) => now - start <= invincibilityDuration
  }

  /** While the window lasts no hit lands: health changes only by the health added, and nothing else changes. */
  lemma {:induction false} InvincibleThroughWindow(v: Vitals, invincibilityDuration: int, events: seq<Event>)
    requires !v.damageable
    requires forall k :: 0 <= k < |events| ==> InWindow(events[k], v.damageTime, invincibilityDuration)
    ensures Run(v, invincibilityDuration, events) ==
      v.(health := v.health + HealthAddedBy(events))
    decreases |events|
  {
    if events != [] {
      var w := Step(v, invincibilityDuration, events[0]);
      assert w == v.(health := v.health + (if events[0].HealthAdded? then events[0].amount else 0.0));
      InvincibleThroughWindow(w, invincibilityDuration, events[1..]);
    }
  }

  /** A hit on a damageable entity lowers its health by exactly the damage, and for the whole window
      that follows only AddHealth changes its health again. */
  lemma HitOpensWindow(v: Vitals, amount: real, at: int, invincibilityDuration: int, events: seq<Event>)
    requires v.damageable
    requires forall k :: 0 <= k < |events| ==> InWindow(events[k], at, invincibilityDuration)
    ensures var w := Run(v, invincibilityDuration, [Damaged(amount, at)] + events);
      w.health == v.health - amount + HealthAddedBy(events) && !w.damageable && w.damageTime == at
  {
    var events' := [Damaged(amount, at)] + events;
    assert events'[1..] == events;
    InvincibleThroughWindow(Hit(v, amount, at), invincibilityDuration, events);
  }

  /** A lethal hit schedules destruction and, with a non-negative window, the entity's own frame at the
      same time leaves it invincible, so no further hit changes its health before it is destroyed. */
  lemma LethalHitIsFinal(v: Vitals, amount: real, now: int, invincibilityDuration: int, further: real)
    requires v.damageable && v.health - amount <= 0.0 && invincibilityDuration >= 0
    ensures var w := Ticked(Hit(v, amount, now), now, invincibilityDuration);
      w.destroyScheduled && !w.damageable && Hit(w, further, now).health == w.health
  {
  }

  /** The weapon an entity carries; only its facing matters here. */
  class Weapon {
    var mirrored: bool

    constructor ()
      ensures !mirrored
    {
      mirrored := false;
    }
  }

  class Entity {
    var weapon: Weapon?

    var health: real
    var damage: real

    var damageTime: int
    var invincibilityDuration: int
    var damageable: bool

    var velocity: Vec
    var speed: real
    var currentState: State

    /** The facing of the entity's own sprite and of its model sprite. */
    var mirrored: bool
    var modelMirrored: bool
    /** The animation cycle selected on the model sprite. */
    var cycle: Cycle

    /** LateDestroy has been requested: the engine removes the entity at the end of the frame. */
    var destroyScheduled: bool
    /** The move requests made to the engine so far, oldest first. */
    var moveRequests: seq<MoveRequest>

    function Status(): Vitals
      reads this
    {
      Vitals(health, damageable, damageTime, destroyScheduled)
    }

    /** A new entity is damageable. Health, damage, speed and the window length are the values the
        player and enemy constructors assign; everything else has its C# default. */
    constructor (health: real, damage: real, speed: real, invincibilityDuration: int)
      ensures damageable && !destroyScheduled && damageTime == 0
      ensures this.health == health && this.damage == damage && this.speed == speed
      ensures this.invincibilityDuration == invincibilityDuration
      ensures velocity == Zero && currentState == Walk && cycle == SpriteDefault
      ensures !mirrored && !modelMirrored && weapon == null && moveRequests == []
    {
      weapon := null;
      this.health := health;
      this.damage := damage;
      damageTime := 0;
      this.invincibilityDuration := invincibilityDuration;
      damageable := true;
      velocity := Zero;
      this.speed := speed;
      currentState := Walk;
      mirrored := false;
      modelMirrored := false;
      cycle := SpriteDefault;
      destroyScheduled := false;
      moveRequests := [];
    }

    method SetWeapon(newWeapon: Weapon)
      modifies this`weapon
      ensures weapon == newWeapon
    {
      weapon := newWeapon;
    }

    /** The velocity player input and enemy behaviour set before the entity's frame. */
    method SetVelocity(v: Vec)
      modifies this`velocity
      ensures velocity == v
    {
      velocity := v;
    }

    method Damage(amount: real, now: int)
      modifies this`health, this`damageable, this`damageTime, this`destroyScheduled
      ensures Status() == Hit(old(Status()), amount, now)
    {
      if damageable {
        health := health - amount;
        if health <= 0.0 {
          Kill();
        }
        damageTime := now;
        damageable := false;
      }
    }

    method AddHealth(amount: real)
      modifies this`health
      ensures Status() == Healed(old(Status()), amount)
    {
      health := health + amount;
    }

    /** Destruction is deferred to the end of the frame: the entity is only marked. */
    method Kill()
      modifies this`destroyScheduled
      ensures destroyScheduled
    {
      destroyScheduled := true;
    }

    method UpdateAnimation()
      modifies this`cycle
      ensures cycle == CycleOf(currentState)
    {
      match currentState
      case Stand => cycle := Frames(5, 3);
      case Walk => cycle := Frames(1, 3);
      case Jump => cycle := Frames(4, 1);
    }

    method UpdateState()
      modifies this`currentState, this`cycle
      ensures currentState == NextState(old(currentState), velocity)
      ensures cycle == NextCycle(old(currentState), velocity, old(cycle))
    {
      if velocity == Zero {
        currentState := Stand;
        UpdateAnimation();
      } else if currentState != Walk {
        currentState := Walk;
        UpdateAnimation();
      }
    }

    /** Y first, then X, each until the first collision; then face by the sign of the horizontal
        velocity (entity, model and weapon alike) and use up the velocity. */
    method UpdateMovement(deltaTime: int)
      modifies this`moveRequests, this`mirrored, this`modelMirrored, this`velocity, weapon
      ensures moveRequests == old(moveRequests) + MoveRequests(old(velocity), deltaTime, speed)
      ensures mirrored == (old(velocity).x < 0.0) && modelMirrored == mirrored
      ensures weapon != null ==> weapon.mirrored == mirrored
      ensures velocity == Zero
    {
      var alongY := MoveRequest(AlongY, Travel(velocity.y, deltaTime, speed));
      var alongX := MoveRequest(AlongX, Travel(velocity.x, deltaTime, speed));
      moveRequests := moveRequests + [alongY, alongX];
      var mirror := velocity.x < 0.0;
      mirrored := mirror;
      modelMirrored := mirror;
      if weapon != null {
        weapon.mirrored := mirror;
      }
      velocity := Zero;
    }

    /** One frame of the entity: state and cycle from the velocity, movement only when there is
        velocity, then the invincibility check. */
    method Update(now: int, deltaTime: int)
      modifies this, weapon
      ensures weapon == old(weapon) && health == old(health) && damage == old(damage) && speed == old(speed)
      ensures invincibilityDuration == old(invincibilityDuration)
      ensures currentState == NextState(old(currentState), old(velocity))
      ensures cycle == NextCycle(old(currentState), old(velocity), old(cycle))
      ensures old(velocity) != Zero ==>
        && moveRequests == old(moveRequests) + MoveRequests(old(velocity), deltaTime, speed)
        && mirrored == (old(velocity).x < 0.0) && modelMirrored == mirrored
        && (weapon != null ==> weapon.mirrored == mirrored)
      ensures old(velocity) == Zero ==>
        && moveRequests == old(moveRequests) && mirrored == old(mirrored) && modelMirrored == old(modelMirrored)
        && (weapon != null ==> weapon.mirrored == old(weapon.mirrored))
      ensures velocity == Zero
      ensures Status() == Ticked(old(Status()), now, invincibilityDuration)
    {
      UpdateState();
      if velocity != Zero {
        UpdateMovement(deltaTime);
      }
      if now - damageTime > invincibilityDuration {
        damageable := true;
      }
    }
  }
}
