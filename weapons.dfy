// The ammunition and heat state machine of a weapon (Code/Game/Weapon.cpp).
//
// The reload and cooldown timers are present or absent (the source creates
// and deletes them); whether a timer's period has elapsed, and the heat the
// time-based decay would produce, come from outside as a WeaponTick.
module Weapons {
  import opened Definitions

  /** The part of a weapon that the source changes in place. */
  datatype WeaponState = WeaponState(
    roundsInMag: int,
    roundsInBag: int,
    heat: real,
    reloading: bool,   // m_reloadTimer != nullptr
    cooling: bool)     // m_cooldownTimer != nullptr

  /** What one call of Fire does besides changing the state. */
  datatype Shot = Ranged(ray: bool, projectile: bool) | Melee | NoShot

  /** What the clock reports during one Update. */
  datatype WeaponTick = WeaponTick(
    reloadElapsed: bool,        // the reload timer's period has elapsed
    cooldownElapsed: bool,      // the cooldown timer's period has elapsed
    autoCooldownElapsed: bool,  // the one-second passive-decay timer has elapsed
    decayedHeat: real)          // heat after the time-based decay, before clamping

  /** A freshly built weapon: both counts at the magazine size, cold, no timers. */
  function Initial(def: WeaponDef): (s: WeaponState)
    ensures s.roundsInMag == s.roundsInBag == def.magSize
    ensures s.heat == 0.0 && !s.reloading && !s.cooling
  {
    WeaponState(def.magSize, def.magSize, 0.0, false, false)
  }

  /** The condition under which Fire makes a ranged shot. */
  predicate CanFireRanged(def: WeaponDef, s: WeaponState)
  {
    && (def.isEnergyBased || (def.magSize > 0 && s.roundsInMag > 0))
    && (!def.isEnergyBased || def.maxHeat > s.heat)
    && !s.cooling && !s.reloading
  }

  /** Rounds in magazine and bag together. */
  function Rounds(s: WeaponState): int
  {
    s.roundsInMag + s.roundsInBag
  }

  /** The shot one Fire call makes: ranged when allowed, else melee when the weapon has it. */
  function ShotOf(def: WeaponDef, s: WeaponState): (shot: Shot)
    ensures shot.Ranged? <==> CanFireRanged(def, s)
    ensures shot.Ranged? ==> shot.ray == (def.rayCount > 0) && shot.projectile == (def.projectileCount > 0)
    ensures shot.Melee? <==> !CanFireRanged(def, s) && def.meleeCount > 0
  {
    if CanFireRanged(def, s) then Ranged(def.rayCount > 0, def.projectileCount > 0)
    else if def.meleeCount > 0 then Melee
    else NoShot
  }

  /** The state after one Fire call. */
  function AfterFire(def: WeaponDef, s: WeaponState): (s': WeaponState)
    ensures s'.roundsInBag == s.roundsInBag && s'.reloading == s.reloading && s'.cooling == s.cooling
    ensures Rounds(s') == Rounds(s) - (if CanFireRanged(def, s) && !def.isEnergyBased then 1 else 0)
    ensures s'.heat == s.heat + (if CanFireRanged(def, s) && def.isEnergyBased then def.heatPerShot else 0.0)
  {
    if !CanFireRanged(def, s) then s
    else if !def.isEnergyBased then s.(roundsInMag := s.roundsInMag - 1)
    else s.(heat := s.heat + def.heatPerShot)
  }

  /** The condition under which Reload starts a reload. */
  predicate ReloadStarts(def: WeaponDef, s: WeaponState)
  {
    !def.isEnergyBased && !s.reloading && def.magSize > s.roundsInMag && s.roundsInBag > 0
  }

  function Min(a: int, b: int): int
  {
    if a <= b then a else b
  }

  /**
   * The state after Reload. The rounds move at once, when the reload
   * timer starts, not when it runs out.
   */
  function AfterReload(def: WeaponDef, s: WeaponState): (s': WeaponState)
    ensures !ReloadStarts(def, s) ==> s' == s
    ensures ReloadStarts(def, s) ==> s'.reloading && s'.heat == s.heat && s'.cooling == s.cooling
    ensures ReloadStarts(def, s) ==> s'.roundsInMag == s.roundsInMag + Min(def.magSize - s.roundsInMag, s.roundsInBag)
    ensures Rounds(s') == Rounds(s)
  {
    if !ReloadStarts(def, s) then s
    else
      var add := Clamp(def.magSize - s.roundsInMag, 0, s.roundsInBag);
      s.(reloading := true, roundsInMag := s.roundsInMag + add, roundsInBag := s.roundsInBag - add)
  }

  /** `GetClamped` on integers. */
  function Clamp(v: int, lo: int, hi: int): int
  {
    if v < lo then lo else if v > hi then hi else v
  }

  /** `GetClamped` on reals. */
  function ClampReal(v: real, lo: real, hi: real): (r: real)
    ensures lo <= hi ==> lo <= r <= hi
  {
    if v < lo then lo else if v > hi then hi else v
  }

  /** StartCooldown: a cooldown timer appears unless one exists already. */
  function AfterStartCooldown(s: WeaponState): (s': WeaponState)
    ensures s'.cooling
    ensures s' == s.(cooling := true)
  {
    if s.cooling then s else s.(cooling := true)
  }

  /** FinishCooldown: an existing cooldown timer goes and the heat drops to zero. */
  function AfterFinishCooldown(s: WeaponState): (s': WeaponState)
    ensures !s'.cooling
    ensures s.cooling ==> s' == s.(cooling := false, heat := 0.0)
    ensures !s.cooling ==> s' == s
  {
    if s.cooling then s.(cooling := false, heat := 0.0) else s
  }

  /** The automatic part of Update: reload an empty magazine, or start cooling an overheated weapon. */
  function AutoStep(def: WeaponDef, s: WeaponState): WeaponState
  {
    if !def.isEnergyBased && s.roundsInMag == 0 && s.roundsInBag > 0 then AfterReload(def, s)
    else if def.isEnergyBased && s.heat >= def.maxHeat then AfterStartCooldown(s)
    else s
  }

  /** The timer part of Update: clear an elapsed reload, finish an elapsed cooldown, else decay heat. */
  function TimerStep(def: WeaponDef, s: WeaponState, t: WeaponTick): WeaponState
  {
    var s1 := if s.reloading && t.reloadElapsed then s.(reloading := false) else s;
    if s1.cooling && t.cooldownElapsed then AfterFinishCooldown(s1)
    else if t.autoCooldownElapsed then s1.(heat := ClampReal(t.decayedHeat, 0.0, def.maxHeat))
    else s1
  }

  /** The state after Update. */
  function AfterUpdate(def: WeaponDef, s: WeaponState, t: WeaponTick): (s': WeaponState)
    ensures Rounds(s') == Rounds(s)
  {
    TimerStep(def, AutoStep(def, s), t)
  }

  /** The state after `n` Fire calls in a row. */
  function AfterShots(def: WeaponDef, s: WeaponState, n: nat): WeaponState
    decreases n
  {
    if n == 0 then s else AfterShots(def, AfterFire(def, s), n - 1)
  }

  /** The shots `n` Fire calls in a row make, in order. */
  function ShotsOf(def: WeaponDef, s: WeaponState, n: nat): seq<Shot>
    decreases n
  {
    if n == 0 then [] else [ShotOf(def, s)] + ShotsOf(def, AfterFire(def, s), n - 1)
  }

  /**
   * For a weapon with a magazine: counts never negative and the magazine
   * never above its size.
   */
  predicate AmmoOk(def: WeaponDef, s: WeaponState)
  {
    !def.isEnergyBased && def.magSize >= 0 ==>
      0 <= s.roundsInMag <= def.magSize && 0 <= s.roundsInBag
  }

  // ---------------------------------------------------------------------
  // Properties

  /** A new weapon satisfies the ammunition invariant. */
  lemma InitialAmmoOk(def: WeaponDef)
    ensures AmmoOk(def, Initial(def))
  {
  }

  /** A successful shot with a magazine spends exactly one round from it. */
  lemma RangedShotSpendsOneRound(def: WeaponDef, s: WeaponState)
    requires CanFireRanged(def, s) && !def.isEnergyBased
    ensures AfterFire(def, s).roundsInMag == s.roundsInMag - 1
    ensures AfterFire(def, s).roundsInBag == s.roundsInBag
    ensures AfterFire(def, s).heat == s.heat
  {
  }

  /** A successful energy shot adds exactly the heat per shot and spends no rounds. */
  lemma EnergyShotAddsHeat(def: WeaponDef, s: WeaponState)
    requires CanFireRanged(def, s) && def.isEnergyBased
    ensures AfterFire(def, s).heat == s.heat + def.heatPerShot
    ensures AfterFire(def, s).roundsInMag == s.roundsInMag
  {
  }

  /** Fire, Reload and Update keep the ammunition invariant. */
  lemma AmmoOkPreserved(def: WeaponDef, s: WeaponState, t: WeaponTick)
    requires AmmoOk(def, s)
    ensures AmmoOk(def, AfterFire(def, s))
    ensures AmmoOk(def, AfterReload(def, s))
    ensures AmmoOk(def, AfterUpdate(def, s, t))
  {
  }

  /** Reload moves min(magSize - mag, bag) rounds and keeps the total. */
  lemma ReloadMovesRounds(def: WeaponDef, s: WeaponState)
    requires ReloadStarts(def, s)
    ensures var s' := AfterReload(def, s);
      && s'.roundsInMag == s.roundsInMag + Min(def.magSize - s.roundsInMag, s.roundsInBag)
      && s'.roundsInBag == s.roundsInBag - Min(def.magSize - s.roundsInMag, s.roundsInBag)
      && s'.roundsInMag <= def.magSize && s'.roundsInBag >= 0
      && Rounds(s') == Rounds(s)
  {
  }

  /** While a reload is pending, Reload changes nothing, and neither does it for an energy weapon. */
  lemma ReloadNoOpWhilePending(def: WeaponDef, s: WeaponState)
    requires s.reloading || def.isEnergyBased
    ensures AfterReload(def, s) == s
  {
  }

  /** A reload in progress blocks ranged fire. */
  lemma ReloadBlocksFire(def: WeaponDef, s: WeaponState)
    requires ReloadStarts(def, s)
    ensures !CanFireRanged(def, AfterReload(def, s))
  {
  }

  /** StartCooldown twice is StartCooldown once. */
  lemma StartCooldownIdempotent(s: WeaponState)
    ensures AfterStartCooldown(AfterStartCooldown(s)) == AfterStartCooldown(s)
  {
  }

  /**
   * Update reloads a weapon whose magazine is empty and whose bag is not; the
   * reload timer it starts is still there afterwards unless it has already run out.
   */
  lemma UpdateAutoReloads(def: WeaponDef, s: WeaponState, t: WeaponTick)
    requires !def.isEnergyBased && s.roundsInMag == 0 && s.roundsInBag > 0
    requires !s.reloading && def.magSize > 0
    ensures AfterUpdate(def, s, t).roundsInMag == Min(def.magSize, s.roundsInBag)
    ensures AfterUpdate(def, s, t).roundsInBag == s.roundsInBag - Min(def.magSize, s.roundsInBag)
    ensures AfterUpdate(def, s, t).reloading == !t.reloadElapsed
  {
  }

  /**
   * Update starts a cooldown for an overheated energy weapon; the weapon is
   * still cooling afterwards unless the cooldown has already run out, in
   * which case the heat is zero.
   */
  lemma UpdateStartsCooldown(def: WeaponDef, s: WeaponState, t: WeaponTick)
    requires def.isEnergyBased && s.heat >= def.maxHeat
    ensures var s' := AfterUpdate(def, s, t);
      && (t.cooldownElapsed ==> !s'.cooling && s'.heat == 0.0)
      && (!t.cooldownElapsed ==> s'.cooling)
  {
  }

  /**
   * An overheated weapon cannot make a ranged shot, and after its Update it
   * still cannot unless the cooldown has already run out.
   */
  lemma OverheatBlocksFire(def: WeaponDef, s: WeaponState, t: WeaponTick)
    requires def.isEnergyBased && s.heat >= def.maxHeat
    ensures !CanFireRanged(def, s)
    ensures !t.cooldownElapsed ==> !CanFireRanged(def, AfterUpdate(def, s, t))
  {
  }

  /** When Update decays the heat, the heat ends within [0, maxHeat]. */
  lemma DecayedHeatClamped(def: WeaponDef, s: WeaponState, t: WeaponTick)
    requires def.maxHeat >= 0.0
    requires t.autoCooldownElapsed
    ensures 0.0 <= AfterUpdate(def, s, t).heat <= def.maxHeat
  {
  }

  /** Update drops an elapsed reload timer. */
  lemma UpdateClearsElapsedReload(def: WeaponDef, s: WeaponState, t: WeaponTick)
    requires t.reloadElapsed
    ensures !AfterUpdate(def, s, t).reloading
  {
  }

  /** n catch-up shots from a full enough magazine spend exactly n rounds. */
  lemma {:induction false} ShotsSpendRounds(def: WeaponDef, s: WeaponState, n: nat)
    requires !def.isEnergyBased && def.magSize > 0
    requires s.roundsInMag >= n && !s.reloading && !s.cooling
    ensures AfterShots(def, s, n) == s.(roundsInMag := s.roundsInMag - n)
    ensures |ShotsOf(def, s, n)| == n
    ensures forall i :: 0 <= i < n ==> ShotsOf(def, s, n)[i].Ranged?
    decreases n
  {
    if n > 0 {
      var s1 := AfterFire(def, s);
      assert s1 == s.(roundsInMag := s.roundsInMag - 1);
      ShotsSpendRounds(def, s1, n - 1);
    }
  }

  /** Repeated shots never add rounds and keep the ammunition invariant. */
  lemma {:induction false} ShotsKeepAmmoOk(def: WeaponDef, s: WeaponState, n: nat)
    requires AmmoOk(def, s)
    ensures AmmoOk(def, AfterShots(def, s, n))
    ensures Rounds(AfterShots(def, s, n)) <= Rounds(s)
    ensures AfterShots(def, s, n).roundsInBag == s.roundsInBag
    decreases n
  {
    if n > 0 {
      AmmoOkPreserved(def, s, WeaponTick(false, false, false, 0.0));
      ShotsKeepAmmoOk(def, AfterFire(def, s), n - 1);
    }
  }

  // ---------------------------------------------------------------------
  // The weapon object

  class Weapon {
    const def: WeaponDef
    var roundsInMag: int
    var roundsInBag: int
    var heat: real
    var reloadTimer: bool
    var cooldownTimer: bool

    function State(): WeaponState
      reads this
    {
      WeaponState(roundsInMag, roundsInBag, heat, reloadTimer, cooldownTimer)
    }

    /** Weapon::Weapon. The source leaves the two timer pointers uninitialised; here they start absent. */
    constructor(d: WeaponDef)
      ensures def == d && State() == Initial(d)
    {
      def := d;
      roundsInBag := d.magSize;
      roundsInMag := d.magSize;
      heat := 0.0;
      reloadTimer := false;
      cooldownTimer := false;
    }

    /** Weapon::Fire: a ranged shot when the gate allows, else melee if the weapon has it. */
    method Fire() returns (shot: Shot)
      modifies this
      ensures shot == ShotOf(def, old(State()))
      ensures State() == AfterFire(def, old(State()))
    {
      if (def.isEnergyBased || (def.magSize > 0 && roundsInMag > 0))
        && (!def.isEnergyBased || def.maxHeat > heat)
        && !cooldownTimer && !reloadTimer
      {
        if !def.isEnergyBased {
          roundsInMag := roundsInMag - 1;
        } else {
          heat := heat + def.heatPerShot;
        }
        shot := Ranged(def.rayCount > 0, def.projectileCount > 0);
      } else if def.meleeCount > 0 {
        shot := Melee;
      } else {
        shot := NoShot;
      }
    }

    method Reload()
      modifies this
      ensures State() == AfterReload(def, old(State()))
    {
      if !def.isEnergyBased {
        if !reloadTimer && def.magSize > roundsInMag && roundsInBag > 0 {
          reloadTimer := true;
          var add := Clamp(def.magSize - roundsInMag, 0, roundsInBag);
          roundsInMag := roundsInMag + add;
          roundsInBag := roundsInBag - add;
        }
      }
    }

    method StartCooldown()
      modifies this
      ensures State() == AfterStartCooldown(old(State()))
    {
      if !cooldownTimer {
        cooldownTimer := true;
      }
    }

    method FinishCooldown()
      modifies this
      ensures State() == AfterFinishCooldown(old(State()))
    {
      if cooldownTimer {
        cooldownTimer := false;
        heat := 0.0;
      }
    }

    /** Weapon::Update without the animation and HUD work. */
    method Update(t: WeaponTick)
      modifies this
      ensures State() == AfterUpdate(def, old(State()), t)
    {
      if !def.isEnergyBased && roundsInMag == 0 && roundsInBag > 0 {
        Reload();
      } else if def.isEnergyBased && heat >= def.maxHeat {
        StartCooldown();
      }
      if reloadTimer && t.reloadElapsed {
        reloadTimer := false;
      }
      if cooldownTimer && t.cooldownElapsed {
        FinishCooldown();
      } else if t.autoCooldownElapsed {
        heat := ClampReal(t.decayedHeat, 0.0, def.maxHeat);
      }
    }

    /** What an ammunition pickup does to this weapon: a weapon with a magazine gains one magazine's worth. */
    method AddPickupRounds()
      modifies this
      ensures State() == AfterPickup(def, old(State()))
    {
      if !def.isEnergyBased {
        roundsInBag := roundsInBag + def.magSize;
      }
    }
  }

  /** An ammunition pickup's effect on one weapon. */
  function AfterPickup(def: WeaponDef, s: WeaponState): (s': WeaponState)
    ensures def.isEnergyBased ==> s' == s
    ensures !def.isEnergyBased ==> s'.roundsInBag == s.roundsInBag + def.magSize && s'.roundsInMag == s.roundsInMag
  {
    if def.isEnergyBased then s else s.(roundsInBag := s.roundsInBag + def.magSize)
  }

  /** A pickup keeps the ammunition invariant. */
  lemma PickupKeepsAmmoOk(def: WeaponDef, s: WeaponState)
    requires AmmoOk(def, s)
    ensures AmmoOk(def, AfterPickup(def, s))
  {
  }
}
