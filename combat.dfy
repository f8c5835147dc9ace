/** The combat toy: a weapon with fixed damage, a player whose health goes down when hit,
    and a bot that fires at a player it sees while it has bullets. The source's `int`
    is a 32-bit two's-complement integer, modelled by `int32`. */
module Combat {
  import opened Wrappers

  const MinInt32: int := -0x8000_0000
  const MaxInt32: int := 0x7FFF_FFFF

  newtype int32 = x: int | -0x8000_0000 <= x < 0x8000_0000

  /** Every failure here is an InvalidOperationException without a message. */
  datatype Failure = InvalidOperation

  function Max(a: int, b: int): int {
    if a >= b then a else b
  }

  function Min(a: int, b: int): int {
    if a <= b then a else b
  }

  /** The value an unchecked C# `int` operation leaves when its exact result is `x`:
      the one 32-bit value congruent to `x` modulo 2^32. */
  function Wrap32(x: int): (r: int32)
    ensures (r as int - x) % 0x1_0000_0000 == 0
    ensures MinInt32 <= x <= MaxInt32 ==> r as int == x
  {
    var m := x % 0x1_0000_0000;
    if m < 0x8000_0000 then m as int32 else (m - 0x1_0000_0000) as int32
  }

  // ---------------------------------------------------------------------------
  // Player.TakeDamage: health -= Math.Max(damage, 0)
  // ---------------------------------------------------------------------------

  /** Amount by which a hit lowers health: negative damage counts as none. */
  function DamageDealt(damage: int32): (d: nat)
    ensures d <= MaxInt32
    ensures damage > 0 ==> d == damage as int
    ensures damage <= 0 ==> d == 0
  {
    Max(damage as int, 0)
  }

  /** Health after a hit as the code is compiled: the subtraction wraps around below int.MinValue. */
  function HealthAfterHitAsWritten(health: int32, damage: int32): (r: int32)
    ensures r as int == health as int - DamageDealt(damage)
         || r as int == health as int - DamageDealt(damage) + 0x1_0000_0000
  {
    Wrap32(health as int - DamageDealt(damage))
  }

  /** Health after a hit, corrected so that it stops at int.MinValue instead of wrapping. */
  function HealthAfterHit(health: int32, damage: int32): (r: int32)
    ensures r <= health
    ensures health as int - DamageDealt(damage) >= MinInt32 ==>
      r as int == health as int - DamageDealt(damage)
    ensures health as int - DamageDealt(damage) < MinInt32 ==> r as int == MinInt32
  {
    Max(health as int - DamageDealt(damage), MinInt32) as int32
  }

  /** As written, a hit raises health exactly when the exact result falls below int.MinValue. */
  lemma AsWrittenHitRaisesHealthOnOverflow(health: int32, damage: int32)
    ensures HealthAfterHitAsWritten(health, damage) > health <==>
      health as int - DamageDealt(damage) < MinInt32
  {
  }

  /** A concrete input: a player at -2147483646 hit for 2147483647 ends up with health 3. */
  lemma AsWrittenHitCanRaiseHealth()
    ensures HealthAfterHitAsWritten(-2147483646, 2147483647) == 3
  {
  }

  /** Where no overflow happens, the corrected hit is the written one and lowers health by exactly max(damage, 0). */
  lemma HitsAgreeWithoutOverflow(health: int32, damage: int32)
    requires health as int - DamageDealt(damage) >= MinInt32
    ensures HealthAfterHit(health, damage) == HealthAfterHitAsWritten(health, damage)
    ensures HealthAfterHit(health, damage) as int == health as int - Max(damage as int, 0)
  {
  }

  // ---------------------------------------------------------------------------
  // Bot.OnSeePlayer over a sequence of sightings
  // ---------------------------------------------------------------------------

  /** Bullets left after the bot sees the player once: one fewer if it had any. */
  function BulletsAfterSighting(bullets: int): (r: int)
    ensures r <= bullets
    ensures r == bullets <==> bullets <= 0
    ensures bullets >= 0 ==> r >= 0
  {
    if bullets > 0 then bullets - 1 else bullets
  }

  /** Bullets left after `n` sightings in a row. */
  function BulletsAfterSightings(bullets: int, n: nat): int {
    if n == 0 then bullets else BulletsAfterSighting(BulletsAfterSightings(bullets, n - 1))
  }

  /** Shots fired during `n` sightings in a row. */
  function ShotsFired(bullets: int, n: nat): int {
    bullets - BulletsAfterSightings(bullets, n)
  }

  /** Starting from a non-negative stock, no run of sightings overdraws it, and the bot
      fires once per sighting until it is out: min(bullets, n) shots in all. */
  lemma {:induction false} SightingsNeverOverdraw(bullets: int, n: nat)
    requires bullets >= 0
    ensures BulletsAfterSightings(bullets, n) == Max(bullets - n, 0)
    ensures 0 <= ShotsFired(bullets, n) == Min(bullets, n) <= bullets
  {
    if n > 0 {
      SightingsNeverOverdraw(bullets, n - 1);
    }
  }

  // ---------------------------------------------------------------------------
  // The classes
  // ---------------------------------------------------------------------------

  class Weapon {
    /** Damage is a get-only property: fixed once constructed. */
    const damage: int32

    /** The assignment that follows the guard of `new Weapon(damage)`. */
    constructor (damage: int32)
      requires damage > 0
      ensures this.damage == damage
    {
      this.damage := damage;
    }

    /** `new Weapon(damage)`: accepted for positive damage only. */
    static method New(damage: int32) returns (r: Result<Weapon, Failure>)
      ensures r.Ok? <==> damage > 0
      ensures r.Ok? ==> fresh(r.value) && r.value.damage == damage
      ensures r.Err? ==> r.error == InvalidOperation
    {
      if damage > 0 {
        var w := new Weapon(damage);
        r := Ok(w);
      } else {
        r := Err(InvalidOperation);
      }
    }
  }

  class Player {
    var health: int32

    /** The assignment that follows the guard of `new Player(health)`. */
    constructor (health: int32)
      requires health > 0
      ensures this.health == health
    {
      this.health := health;
    }

    /** `new Player(health)`: accepted for positive health only. */
    static method New(health: int32) returns (r: Result<Player, Failure>)
      ensures r.Ok? <==> health > 0
      ensures r.Ok? ==> fresh(r.value) && r.value.health == health
      ensures r.Err? ==> r.error == InvalidOperation
    {
      if health > 0 {
        var p := new Player(health);
        r := Ok(p);
      } else {
        r := Err(InvalidOperation);
      }
    }

    /** TakeDamage as compiled, with the wrap-around of `-=` on an `int`. */
    method TakeDamage(damage: int32)
      modifies this
      ensures health == HealthAfterHitAsWritten(old(health), damage)
    {
      var minDamage: int32 := 0;
      var dealt := if damage >= minDamage then damage else minDamage;
      health := Wrap32(health as int - dealt as int);
    }

    /** TakeDamage as evidently intended: health never rises. */
    method TakeDamageSaturating(damage: int32)
      modifies this
      ensures health == HealthAfterHit(old(health), damage)
      ensures health <= old(health)
    {
      var minDamage: int32 := 0;
      var dealt := if damage >= minDamage then damage else minDamage;
      health := if health as int - dealt as int < MinInt32 then MinInt32 as int32
                else health - dealt;
    }
  }

  class Bot {
    var weapon: Weapon?
    var bullets: int32

    /** A bot is usable once it has a weapon and a stock of bullets that is not negative. */
    ghost predicate Valid()
      reads this
    {
      weapon != null && bullets >= 0
    }

    /** The freshly allocated object, before the C# constructor body runs: every field at its default. */
    constructor Allocate()
      ensures weapon == null && bullets == 0
    {
      weapon := null;
      bullets := 0;
    }

    /** `new Bot(weapon, bulletsCount)` as written: the guard reads the field `_bullets`,
        which still holds its default 0, so construction fails for every argument. */
    static method New(weapon: Weapon, bulletsCount: int32) returns (r: Result<Bot, Failure>)
      ensures r == Err(InvalidOperation)
    {
      var b := new Bot.Allocate();
      var accepted := b.bullets > 0;
      b.bullets := if accepted then bulletsCount else b.bullets;
      b.weapon := if accepted then weapon else null;
      r := if accepted then Ok(b) else Err(InvalidOperation);
    }

    /** `new Bot(weapon, bulletsCount)` with the guard on the argument, as evidently intended. */
    static method NewChecked(weapon: Weapon, bulletsCount: int32) returns (r: Result<Bot, Failure>)
      ensures r.Ok? <==> bulletsCount > 0
      ensures r.Ok? ==>
        (fresh(r.value) && r.value.Valid()
         && r.value.weapon == weapon && r.value.bullets == bulletsCount)
      ensures r.Err? ==> r.error == InvalidOperation
    {
      var b := new Bot.Allocate();
      var accepted := bulletsCount > 0;
      b.bullets := if accepted then bulletsCount else b.bullets;
      b.weapon := if accepted then weapon else null;
      r := if accepted then Ok(b) else Err(InvalidOperation);
    }

    /** OnSeePlayer: fires once if any bullet is left, otherwise does nothing at all. */
    method OnSeePlayer(player: Player)
      requires Valid()
      modifies this, player
      ensures Valid() && weapon == old(weapon)
      ensures bullets as int == BulletsAfterSighting(old(bullets) as int)
      ensures old(bullets) > 0 ==> player.health == HealthAfterHit(old(player.health), weapon.damage)
      ensures old(bullets) <= 0 ==> unchanged(this) && unchanged(player)
    {
      if bullets > 0 {
        Fire(player);
      }
    }

    /** Fire: the player takes the weapon's damage and one bullet is spent. */
    method Fire(player: Player)
      requires Valid() && bullets > 0
      modifies this, player
      ensures Valid() && weapon == old(weapon)
      ensures bullets as int == old(bullets) as int - 1
      ensures player.health == HealthAfterHit(old(player.health), weapon.damage)
    {
      player.TakeDamageSaturating(weapon.damage);
      bullets := bullets - 1;
    }
  }

  // ---------------------------------------------------------------------------
  // Program.Main
  // ---------------------------------------------------------------------------

  /** Program.Main as written: the bot's construction on line 11 throws, so it never fires. */
  method MainAsWritten() returns (r: Result<(), Failure>)
    ensures r == Err(InvalidOperation)
  {
    var player := Player.New(10);
    var weapon := Weapon.New(5);
    var bot := Bot.New(weapon.value, 3);
    // the exception propagates out of Main; the bot's `OnSeePlayer` call that follows is never reached
    r := if bot.Err? then Err(bot.error) else Ok(());
  }

  /** Program.Main with the corrected bot: one shot of 5 takes the player from 10 to 5
      and leaves 2 bullets. */
  method MainCorrected() returns (health: int32, bullets: int32)
    ensures health == 5 && bullets == 2
  {
    var player := Player.New(10);
    var weapon := Weapon.New(5);
    var bot := Bot.NewChecked(weapon.value, 3);
    bot.value.OnSeePlayer(player.value);
    health, bullets := player.value.health, bot.value.bullets;
  }
}
