// The actor rules of Code/Game/Actor.cpp stated on values: damage and death,
// what a death leaves behind, whom a damaged AI turns on, who is credited with
// a kill, weapon cycling, and the controller swap of possession. The Actor
// class in module World applies them to its fields.
module Lifecycle {
  import opened Wrappers
  import opened Definitions
  import opened ActorHandles

  // ------------------------------------------------------ damage and death

  /** `m_health`, `m_isDead`, and whether `m_deathTimer` has been started. */
  datatype Vitals = Vitals(health: real, isDead: bool, deathTimerStarted: bool)

  /** `StartDeath`: the first call marks the actor dead and starts its corpse timer. */
  function AfterStartDeath(v: Vitals): (v': Vitals)
    ensures v'.isDead && v'.health == v.health
    ensures v.isDead ==> v' == v
    ensures !v.isDead ==> v'.deathTimerStarted
  {
    if v.isDead then v else v.(isDead := true, deathTimerStarted := true)
  }

  /** A second StartDeath does nothing. */
  lemma StartDeathIdempotent(v: Vitals)
    ensures AfterStartDeath(AfterStartDeath(v)) == AfterStartDeath(v)
  {
  }

  /** `CheckIfHealthIsZero`'s test: alive with no health left. */
  predicate Lethal(v: Vitals)
  {
    !v.isDead && v.health <= 0.0
  }

  /** The vitals after `m_health -= damage` and the zero-health check. */
  function AfterDamage(v: Vitals, damage: real): (v': Vitals)
    ensures v'.health == v.health - damage
    ensures v'.isDead <==> v.isDead || v.health - damage <= 0.0
    ensures v.isDead ==> v'.deathTimerStarted == v.deathTimerStarted
  {
    var hit := v.(health := v.health - damage);
    if Lethal(hit) then AfterStartDeath(hit) else hit
  }

  /** Whether this hit is the one the zero-health check reports (the killing blow). */
  predicate KillingBlow(v: Vitals, damage: real)
  {
    Lethal(v.(health := v.health - damage))
  }

  /**
   * Only the first hit that takes health to zero or below is reported, so a
   * death is counted once however much damage follows.
   */
  lemma KillingBlowOnce(v: Vitals, d1: real, d2: real)
    requires KillingBlow(v, d1)
    ensures AfterDamage(v, d1).isDead && AfterDamage(v, d1).deathTimerStarted
    ensures !KillingBlow(AfterDamage(v, d1), d2)
  {
  }

  /** Damage to a dead actor lowers its health and nothing else. */
  lemma DeadStayDead(v: Vitals, damage: real)
    requires v.isDead
    ensures AfterDamage(v, damage) == v.(health := v.health - damage)
  {
  }

  /** A killing blow leaves health at or below zero. */
  lemma KillingBlowNeedsZeroHealth(v: Vitals, damage: real)
    ensures KillingBlow(v, damage) <==> !v.isDead && v.health <= damage
  {
  }

  /** The chance, in percent, that a dying demon leaves ammunition. */
  const DropChancePercent: real := 30.0

  /** The pickup a death can leave behind. */
  const AmmoPickupName: string := "AmmoPickup"

  /** What a first StartDeath sets off besides the flags. */
  datatype DeathEffects = DeathEffects(demonKilled: bool, dropsPickup: bool)

  /**
   * An EVIL actor reports a demon kill and drops ammunition when the roll in
   * [0, 100] is at most 30; a GOOD actor always drops; a NEUTRAL one does neither.
   */
  function DeathEffectsOf(f: Faction, roll: real): (e: DeathEffects)
    ensures e.demonKilled <==> f == Evil
    ensures e.dropsPickup <==> f == Good || (f == Evil && roll <= DropChancePercent)
  {
    match f
    case Evil => DeathEffects(true, roll <= DropChancePercent)
    case Good => DeathEffects(false, true)
    case Neutral => DeathEffects(false, false)
  }

  // ------------------------------------------------------------ aggro

  /**
   * What hit the victim, as TakeDamage sees it: nothing or the victim itself,
   * an actor with an owner (a projectile) whose owner the map resolves to
   * `owner`, or an actor without an owner.
   */
  datatype Blame =
    | NoBlame
    | ViaOwner(owner: Option<Culprit>)
    | Direct(culprit: Culprit)

  /** The slot, handle, controller kind and faction of a resolved attacker. */
  datatype Culprit = Culprit(slot: nat, handle: ActorHandle, isAI: bool, faction: Faction)

  /**
   * The AI target after `DamagedBy` calls in TakeDamage: only an AI-controlled
   * victim reacts; an owned source makes it target the owner whatever its
   * faction (an owner that no longer resolves changes nothing); an unowned
   * source is adopted only when its faction differs.
   */
  function AggroTarget(target: ActorHandle, victimIsAI: bool, victimFaction: Faction, b: Blame): (t: ActorHandle)
    ensures !victimIsAI || b.NoBlame? ==> t == target
    ensures victimIsAI && b.ViaOwner? ==> t == (if b.owner.Some? then b.owner.value.handle else target)
    ensures victimIsAI && b.Direct? ==> t == (if b.culprit.faction != victimFaction then b.culprit.handle else target)
  {
    if !victimIsAI then target
    else match b
      case NoBlame => target
      case ViaOwner(o) => if o.Some? then o.value.handle else target
      case Direct(c) => if c.faction != victimFaction then c.handle else target
  }

  /** Friendly fire through a projectile still turns the victim on the shooter. */
  lemma OwnerAdoptedWhateverFaction(target: ActorHandle, f: Faction, c: Culprit)
    ensures AggroTarget(target, true, f, ViaOwner(Some(c))) == c.handle
  {
  }

  /** A direct hit from the victim's own faction leaves the target alone. */
  lemma SameFactionDirectHitIgnored(target: ActorHandle, f: Faction, c: Culprit)
    requires c.faction == f
    ensures AggroTarget(target, true, f, Direct(c)) == target
  {
  }

  /**
   * Whether a killing blow credits the attacker's player with a kill and the
   * victim's with a death: both sides must be player-controlled. The owner
   * of a projectile must still resolve; when it does not, the source
   * dereferences a null pointer, given here as `None`.
   */
  function KillCredit(victimIsAI: bool, b: Blame): (r: Option<bool>)
    ensures b.ViaOwner? && b.owner.None? <==> r.None?
    ensures r == Some(true) ==> !victimIsAI
  {
    match b
    case NoBlame => Some(false)
    case ViaOwner(o) => if o.None? then None else Some(!o.value.isAI && !victimIsAI)
    case Direct(c) => Some(!c.isAI && !victimIsAI)
  }

  /** An AI-controlled victim or attacker means no kill and no death is counted. */
  lemma NoCreditAgainstAI(victimIsAI: bool, c: Culprit)
    requires victimIsAI || c.isAI
    ensures KillCredit(victimIsAI, Direct(c)) == Some(false)
    ensures KillCredit(victimIsAI, ViaOwner(Some(c))) == Some(false)
  {
  }

  // -------------------------------------------------------- weapon cycling

  /** `CycleWeaponUp`'s index: one up, wrapping to 0. */
  function CycleUp(i: int, n: int): (r: int)
    requires n > 0 && 0 <= i < n
    ensures 0 <= r < n
    ensures r == if i == n - 1 then 0 else i + 1
  {
    (i + 1) % n
  }

  /** `CycleWeaponDown`'s index: one down, wrapping to the last. */
  function CycleDown(i: int, n: int): (r: int)
    requires n > 0 && 0 <= i < n
    ensures 0 <= r < n
  {
    if i - 1 < 0 then n - 1 else i - 1
  }

  /** Up and down undo each other. */
  lemma CycleInverse(i: int, n: int)
    requires n > 0 && 0 <= i < n
    ensures CycleDown(CycleUp(i, n), n) == i
    ensures CycleUp(CycleDown(i, n), n) == i
  {
  }

  /** Cycling up `k` times. */
  function CycleUpTimes(i: int, n: int, k: nat): (r: int)
    requires n > 0 && 0 <= i < n
    ensures 0 <= r < n
    decreases k
  {
    if k == 0 then i else CycleUp(CycleUpTimes(i, n, k - 1), n)
  }

  /** Cycling `a` times and then `b` times is cycling `a + b` times. */
  lemma {:induction false} CycleUpTimesAdd(i: int, n: int, a: nat, b: nat)
    requires n > 0 && 0 <= i < n
    ensures CycleUpTimes(i, n, a + b) == CycleUpTimes(CycleUpTimes(i, n, a), n, b)
    decreases b
  {
    if b > 0 {
      CycleUpTimesAdd(i, n, a, b - 1);
    }
  }

  /** Before the wrap, `k` steps up move the index by exactly `k`. */
  lemma {:induction false} CycleUpTimesNoWrap(i: int, n: int, k: nat)
    requires n > 0 && 0 <= i < n && i + k < n
    ensures CycleUpTimes(i, n, k) == i + k
    decreases k
  {
    if k > 0 {
      CycleUpTimesNoWrap(i, n, k - 1);
    }
  }

  /** After `n` steps up the same weapon is equipped again. */
  lemma FullCycleReturns(i: int, n: int)
    requires n > 0 && 0 <= i < n
    ensures CycleUpTimes(i, n, n) == i
  {
    CycleUpTimesNoWrap(i, n, n - 1 - i);
    assert CycleUpTimes(i, n, n - i) == 0;
    CycleUpTimesAdd(i, n, n - i, i);
    CycleUpTimesNoWrap(0, n, i);
  }

  // -------------------------------------------------------------- possession

  /** `m_controller`, `m_AIController`, `m_isAI`, over any controller identity. */
  datatype Control<C> = Control(controller: Option<C>, aiController: Option<C>, isAI: bool)

  /**
   * `OnPossessed(newOwner)`: the current controller is kept as the AI if the actor
   * was AI-controlled (otherwise the AI is dropped), and `newOwner` takes over.
   */
  function Possessed<C>(c: Control<C>, newOwner: C): (r: Control<C>)
    ensures r.controller == Some(newOwner) && !r.isAI
    ensures r.aiController == if c.isAI then c.controller else None
  {
    Control(Some(newOwner), if c.isAI then c.controller else None, false)
  }

  /** `OnUnpossessed`: the saved AI takes back control. */
  function Unpossessed<C>(c: Control<C>): (r: Control<C>)
    ensures r.isAI && r.controller == c.aiController && r.aiController == c.aiController
  {
    Control(c.aiController, c.aiController, true)
  }

  /** Possessing an AI-controlled actor and releasing it hands it back to the same AI. */
  lemma PossessUnpossessRestoresAI<C>(c: Control<C>, newOwner: C)
    requires c.isAI
    ensures Unpossessed(Possessed(c, newOwner)) == Control(c.controller, c.controller, true)
  {
  }

  /**
   * Possessing an actor that a player already controls drops its AI, so a
   * later release leaves it AI-flagged with no controller at all.
   */
  lemma PossessingPlayerActorDropsAI<C>(c: Control<C>, newOwner: C)
    requires !c.isAI
    ensures Possessed(c, newOwner).aiController.None?
    ensures Unpossessed(Possessed(c, newOwner)) == Control(None, None, true)
  {
  }
}
