/** The ability catalogue: six fixed configurations and the actions of the two ranged abilities.
    Geometry is kept symbolic: every hitbox coordinate is a multiple of the ability sprite's width
    or height plus a constant, so it can be evaluated for any sprite size. */
module Abilities {
  import opened Options
  import EntityModel

  /** The six concrete abilities. A pizza bite carries the two durations it drew when it was made;
      they are part of the value and so are never drawn again. */
  datatype AbilityKind =
    | BurgerPunch
    | PastaWhip
    | PizzaBite(attackDraw: int, coolDownDraw: int)
    | BurgerExplosion
    | SeedShooter
    | MeatballShooter

  /** The two abilities that fire projectiles instead of showing a hitbox. */
  predicate IsRanged(k: AbilityKind)
  {
    k.SeedShooter? || k.MeatballShooter?
  }

  /** The random source returns a value at least its first argument and below its second. */
  predicate Drawn(value: int, min: int, max: int)
  {
    min <= value < max
  }

  /** A pizza bite's durations come from the draws between 300 and 1000 and between 1000 and 2500. */
  predicate WellFormed(k: AbilityKind)
  {
    k.PizzaBite? ==> Drawn(k.attackDraw, 300, 1000) && Drawn(k.coolDownDraw, 1000, 2500)
  }

  /** factor * extent + offset, where extent is the sprite's width or height. */
  datatype Scaled = Scaled(factor: real, offset: real)

  function Place(s: Scaled, extent: real): real
  {
    s.factor * extent + s.offset
  }

  datatype Sound = Sound(path: string, volume: real)

  /** What a variant's constructor sets. A setting the variant leaves to its base class is None. */
  datatype Config = Config(
    sprite: string,
    damage: int,
    attackDuration: Option<int>,
    coolDown: int,
    speed: Option<real>,
    xFrom: Scaled,
    xTo: Scaled,
    y: Scaled,
    alpha: Option<int>,
    sound: Option<Sound>)

  /** The configuration of each variant. Every damage is 1 or 2; exactly the ranged abilities have a
      speed, and they leave the attack duration and alpha alone; every variant but the meatball
      shooter has a sound; every melee attack ends no later than its cool-down. */
  function ConfigOf(k: AbilityKind): (c: Config)
    requires WellFormed(k)
    ensures c.damage == 1 || c.damage == 2
    ensures c.speed.Some? <==> IsRanged(k)
    ensures c.attackDuration.Some? <==> !IsRanged(k)
    ensures c.alpha.Some? <==> !IsRanged(k)
    ensures c.sound.Some? <==> !k.MeatballShooter?
    ensures c.coolDown > 0
    ensures c.attackDuration.Some? ==> 0 < c.attackDuration.value <= c.coolDown
  {
    match k
    case BurgerPunch =>
      Config("hitboxes/burger_punch.png", 2, Some(300), 1500, None,
        Scaled(-1.0, 0.0), Scaled(1.5, 0.0), Scaled(-1.5, 0.0), Some(50),
        Some(Sound("sounds/burger_punch.wav", 0.5)))
    case PastaWhip =>
      Config("hitboxes/pasta_whip.png", 1, Some(300), 1000, None,
        Scaled(-1.0, 0.0), Scaled(0.3, 0.0), Scaled(-2.5, 0.0), Some(50),
        Some(Sound("sounds/pasta_whip.wav", 0.5)))
    case PizzaBite(attackDraw, coolDownDraw) =>
      Config("hitboxes/pizza_bite.png", 1, Some(attackDraw), coolDownDraw, None,
        Scaled(-1.0, 0.0), Scaled(1.5, 0.0), Scaled(-1.5, 0.0), Some(50),
        Some(Sound("sounds/pizza_bite.wav", 0.05)))
    case BurgerExplosion =>
      Config("hitboxes/burger_explosion.png", 2, Some(500), 500, None,
        Scaled(-0.5, 0.0), Scaled(-1.0 / 2.25, 0.0), Scaled(-0.75, 0.0), Some(50),
        Some(Sound("sounds/burger_explosion.wav", 0.5)))
    case SeedShooter =>
      Config("hitboxes/basically_nothing.png", 1, None, 500, Some(0.7),
        Scaled(0.0, 0.0), Scaled(-1.0, 0.0), Scaled(0.0, 0.0), None,
        Some(Sound("sounds/seed_shooter.wav", 0.5)))
    case MeatballShooter =>
      Config("hitboxes/basically_nothing.png", 2, None, 500, Some(1.0),
        Scaled(0.0, 0.0), Scaled(1.0, -10.0), Scaled(-0.7, 0.0), None,
        None)
  }

  lemma BurgerPunchSettings()
    ensures var c := ConfigOf(BurgerPunch);
      c.damage == 2 && c.attackDuration == Some(300) && c.coolDown == 1500
  {
  }

  lemma PastaWhipSettings()
    ensures var c := ConfigOf(PastaWhip);
      c.damage == 1 && c.attackDuration == Some(300) && c.coolDown == 1000
  {
  }

  lemma BurgerExplosionSettings()
    ensures var c := ConfigOf(BurgerExplosion);
      c.damage == 2 && c.attackDuration == Some(500) && c.coolDown == 500
  {
  }

  lemma ShooterSettings()
    ensures var c := ConfigOf(SeedShooter);
      c.damage == 1 && c.speed == Some(0.7) && c.coolDown == 500
    ensures var c := ConfigOf(MeatballShooter);
      c.damage == 2 && c.speed == Some(1.0) && c.coolDown == 500
  {
  }

  /** Whatever it drew, a pizza bite does damage 1, its durations are its draws and its hitbox
      is the burger punch's. */
  lemma PizzaBiteSettings(attackDraw: int, coolDownDraw: int, width: real, height: real)
    requires WellFormed(PizzaBite(attackDraw, coolDownDraw))
    ensures var c := ConfigOf(PizzaBite(attackDraw, coolDownDraw));
      && c.damage == 1
      && c.attackDuration == Some(attackDraw) && c.coolDown == coolDownDraw
      && 300 <= attackDraw < 1000 && 1000 <= coolDownDraw < 2500
    ensures var c := ConfigOf(PizzaBite(attackDraw, coolDownDraw));
      var p := ConfigOf(BurgerPunch);
      && Place(c.xFrom, width) == Place(p.xFrom, width)
      && Place(c.xTo, width) == Place(p.xTo, width)
      && Place(c.y, height) == Place(p.y, height)
  {
  }

  /** The way a non-rotated sprite faces: a unit vector along x, pointing left exactly when the
      sprite is mirrored. */
  function Facing(mirrored: bool): (d: EntityModel.Vec)
    ensures d.y == 0.0 && d.x * d.x == 1.0
    ensures d.x < 0.0 <==> mirrored
  {
    EntityModel.Vec(if mirrored then -1.0 else 1.0, 0.0)
  }

  /** A projectile's heading: a vector already of unit length, or the unit vector along an offset,
      which is left unnormalised here. */
  datatype Direction = Unit(v: EntityModel.Vec) | Along(v: EntityModel.Vec)

  datatype ProjectileKind = Seed | Meatball

  class Projectile {
    const kind: ProjectileKind
    const direction: Direction
    const speed: real
    const damage: int
    const owner: EntityModel.Entity
    var x: real
    var y: real

    constructor (kind: ProjectileKind, direction: Direction, speed: real, damage: int, owner: EntityModel.Entity)
      ensures this.kind == kind && this.direction == direction && this.speed == speed
      ensures this.damage == damage && this.owner == owner
      ensures x == 0.0 && y == 0.0
    {
      this.kind := kind;
      this.direction := direction;
      this.speed := speed;
      this.damage := damage;
      this.owner := owner;
      x := 0.0;
      y := 0.0;
    }

    method SetXY(x: real, y: real)
      modifies this`x, this`y
      ensures this.x == x && this.y == y
    {
      this.x := x;
      this.y := y;
    }
  }

  /** The objects waiting to be added to the running stage, in the order they were handed over. */
  class PendingObjects {
    var objects: seq<Projectile>

    constructor ()
      ensures objects == []
    {
      objects := [];
    }

    method AddObject(p: Projectile)
      modifies this`objects
      ensures objects == old(objects) + [p]
    {
      objects := objects + [p];
    }
  }

  /** The meatball shooter's action: a meatball heading the way its owner faces, handed to the
      stage and then placed 120 above the owner. Because the stage holds the same object, it sees
      the final position. */
  method MeatballShooterAction(owner: EntityModel.Entity, ownerX: real, ownerY: real, pending: PendingObjects)
      returns (m: Projectile)
    modifies pending`objects
    ensures fresh(m) && pending.objects == old(pending.objects) + [m]
    ensures m.kind == Meatball && m.direction == Unit(Facing(owner.mirrored))
    ensures m.speed == ConfigOf(MeatballShooter).speed.value && m.damage == ConfigOf(MeatballShooter).damage
    ensures m.owner == owner
    ensures m.x == ownerX && m.y == ownerY - 120.0
  {
    var config := ConfigOf(MeatballShooter);
    var direction := EntityModel.Vec(if owner.mirrored then -1.0 else 1.0, 0.0);
    m := new Projectile(Meatball, Unit(direction), config.speed.value, config.damage, owner);
    pending.AddObject(m);
    m.SetXY(ownerX, ownerY - 120.0);
  }

  /** The seed shooter's action: a seed heading from its owner towards the player, placed 50 above
      the owner and then handed to the stage. */
  method SeedShooterAction(owner: EntityModel.Entity, ownerX: real, ownerY: real, playerX: real, playerY: real,
                           pending: PendingObjects)
      returns (s: Projectile)
    modifies pending`objects
    ensures fresh(s) && pending.objects == old(pending.objects) + [s]
    ensures s.kind == Seed && s.direction == Along(EntityModel.Vec(playerX - ownerX, playerY - ownerY))
    ensures s.speed == ConfigOf(SeedShooter).speed.value && s.damage == ConfigOf(SeedShooter).damage
    ensures s.owner == owner
    ensures s.x == ownerX && s.y == ownerY - 50.0
  {
    var config := ConfigOf(SeedShooter);
    var direction := EntityModel.Vec(playerX - ownerX, playerY - ownerY);
    s := new Projectile(Seed, Along(direction), config.speed.value, config.damage, owner);
    s.SetXY(ownerX, ownerY - 50.0);
    pending.AddObject(s);
  }
}
