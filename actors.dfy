// The actor rules of Code/Game/Actor.cpp, Code/Game/AI.cpp and
// Code/Game/Controller.cpp as steps on the world state: damage and death, who
// is credited and whom an AI turns on, collisions and pickups, weapon cycling
// and attack, the per-frame update, and possession. Each step names the actor
// by its slot; a step that would dereference a null pointer returns a Fault.
module Actors {
  import opened Wrappers
  import opened Vectors
  import opened ActorHandles
  import opened Definitions
  import opened Weapons
  import opened Slots
  import opened Lifecycle
  import opened FrontEnd
  import opened Arena
  import opened Sight

  /**
   * What the clocks and the physics integration report during one frame:
   * whether an actor's corpse timer has elapsed, how many refire periods of
   * its timer have elapsed, each weapon's tick, and where `UpdatePhysics`
   * moves an actor.
   */
  datatype Frame = Frame(
    deathTimerElapsed: ActorHandle -> bool,
    refirePeriods: ActorHandle -> nat,
    weaponTick: (ActorHandle, nat) -> WeaponTick,
    physics: ActorState -> Vec3)

  // ------------------------------------------------------ damage and death

  /**
   * `StartDeath`: the first call marks the actor dead and starts its corpse
   * timer; an EVIL actor reports a demon kill and then rolls for a drop, a
   * GOOD one always drops ammunition where it stands.
   */
  /**
   * What a dying actor leaves where it stood: an EVIL actor reports a demon
   * kill and then drops ammunition on a roll of at most 30 in [0, 100], a
   * GOOD one always drops it, a NEUTRAL one leaves nothing.
   */
  function DeathDrop(env: Env, s: Sim, f: Faction, position: Vec3): (r: Result<Sim, Fault>)
    ensures r.Ok? ==> Evolves(env, s, r.value) && Extends(s.slots, r.value.slots)
    ensures r.Ok? ==> r.value.player == s.player && |r.value.ctrls| >= |s.ctrls|
  {
    match f
    case Evil =>
      var s2 :- OnDemonKilled(s);
      var roll := env.floatDraw(s2.draws, 0.0, 100.0);
      var s3 := s2.(draws := s2.draws + 1);
      if roll <= DropChancePercent then SpawnActor(env, s3, AmmoPickupName, position) else Ok(s3)
    case Good => SpawnActor(env, s, AmmoPickupName, position)
    case Neutral => Ok(s)
  }

  function StartDeath(env: Env, s: Sim, i: nat): (r: Result<Sim, Fault>)
    ensures r.Ok? ==> Evolves(env, s, r.value)
    ensures r.Ok? ==> (i < |s.slots| && s.slots[i].Some? &&
      r.value.slots[i] == Some(s.slots[i].value.(vitals := AfterStartDeath(s.slots[i].value.vitals))))
    ensures r.Ok? ==> r.value.player == s.player && |r.value.ctrls| >= |s.ctrls|
    ensures Occupant(s, i).Err? ==> r == Err(NullActor)
  {
    var a :- Occupant(s, i);
    if a.vitals.isDead then Ok(s)
    else
      var s1 := Put(s, i, a.(vitals := AfterStartDeath(a.vitals)));
      PutEvolves(env, s, i, a.(vitals := AfterStartDeath(a.vitals)));
      var s2 :- DeathDrop(env, s1, a.def.faction, a.position);
      EvolvesTrans(env, s, s1, s2);
      Ok(s2)
  }

  /**
   * What a first StartDeath sets off is DeathEffectsOf the actor's faction
   * and the next roll: one enemy fewer exactly for a demon, and one more
   * occupied slot exactly when a pickup drops. A second StartDeath changes
   * nothing.
   */
  lemma StartDeathEffects(env: Env, s: Sim, i: nat)
    requires StartDeath(env, s, i).Ok?
    ensures var a := s.slots[i].value;
      var t := StartDeath(env, s, i).value;
      var e := DeathEffectsOf(a.def.faction, env.floatDraw(s.draws, 0.0, 100.0));
      && (a.vitals.isDead ==> t == s)
      && (!a.vitals.isDead ==>
            && t.wave == (if e.demonKilled then AfterDemonKilled(s.wave) else s.wave)
            && Occupied(t.slots) == Occupied(s.slots) + (if e.dropsPickup then 1 else 0))
  {
    var a := s.slots[i].value;
    if !a.vitals.isDead {
      var s1 := Put(s, i, a.(vitals := AfterStartDeath(a.vitals)));
      OccupiedUpdate(s.slots, i, Some(a.(vitals := AfterStartDeath(a.vitals))));
      match a.def.faction
      case Evil =>
        var s2 := OnDemonKilled(s1).value;
        var s3 := s2.(draws := s2.draws + 1);
        if env.floatDraw(s2.draws, 0.0, 100.0) <= DropChancePercent {
          SpawnOccupiesOne(env, s3, AmmoPickupName, a.position);
        }
      case Good =>
        SpawnOccupiesOne(env, s1, AmmoPickupName, a.position);
      case Neutral =>
    }
  }

  /** The result of CheckIfHealthIsZero: the new state and whether it reported a death. */
  datatype Checked = Checked(sim: Sim, died: bool)

  /** `CheckIfHealthIsZero`: starts death and reports true exactly when the actor is alive with no health left. */
  function CheckIfHealthIsZero(env: Env, s: Sim, i: nat): (r: Result<Checked, Fault>)
    ensures r.Ok? ==> Evolves(env, s, r.value.sim)
    ensures r.Ok? ==> i < |s.slots| && s.slots[i].Some? && (r.value.died <==> Lethal(s.slots[i].value.vitals))
    ensures r.Ok? ==> (r.value.sim.slots[i] == Some(s.slots[i].value.(vitals :=
      if r.value.died then AfterStartDeath(s.slots[i].value.vitals) else s.slots[i].value.vitals)))
    ensures r.Ok? && !r.value.died ==> r.value.sim == s
    ensures r.Ok? ==> r.value.sim.player == s.player && |r.value.sim.ctrls| >= |s.ctrls|
  {
    var a :- Occupant(s, i);
    if Lethal(a.vitals) then
      var t :- StartDeath(env, s, i);
      Ok(Checked(t, true))
    else Ok(Checked(s, false))
  }

  /** The handle, controller kind and faction of the actor in slot `j`. */
  function CulpritOf(j: nat, a: ActorState): Culprit
  {
    Culprit(j, a.handle, a.control.isAI, a.def.faction)
  }

  /**
   * Who TakeDamage blames: nobody for a null or self-inflicted source; the
   * owner the map resolves (possibly none) when the source has an owner; the
   * source itself otherwise. The owner lookup has no bounds check.
   */
  function BlameOf(s: Sim, i: nat, src: Option<nat>): (r: Result<Blame, Fault>)
    ensures src.None? || src.value == i ==> r == Ok(NoBlame)
    ensures r.Ok? && r.value.ViaOwner? && r.value.owner.Some? ==>
      var c := r.value.owner.value;
      c.slot < |s.slots| && s.slots[c.slot].Some? && c == CulpritOf(c.slot, s.slots[c.slot].value)
    ensures r.Ok? && r.value.Direct? ==>
      (src.Some? && src.value < |s.slots| && s.slots[src.value].Some? &&
       r.value.culprit == CulpritOf(src.value, s.slots[src.value].value))
  {
    if src.None? || src.value == i then Ok(NoBlame)
    else
      var sa :- Occupant(s, src.value);
      if NotEqual(sa.owningActor, INVALID) then
        var o :- Resolve(s.slots, sa.owningActor);
        Ok(ViaOwner(if o.Some? then Some(CulpritOf(o.value, s.slots[o.value].value)) else None))
      else Ok(Direct(CulpritOf(src.value, sa)))
  }

  /** `AddKillCount` on the attacker's controller, then `AddDeathCount` on the victim's. */
  function CreditPair(s: Sim, v: ActorState, c: Culprit): (r: Result<Sim, Fault>)
    ensures r.Ok? ==> r.value == s.(ctrls := r.value.ctrls) && |r.value.ctrls| == |s.ctrls|
  {
    if !c.isAI && !v.control.isAI then
      var atk :- Occupant(s, c.slot);
      var k :- Ctrl(s, atk.control.controller);
      var s1 := SetCtrl(s, atk.control.controller.value, k.(kills := k.kills + 1));
      var d :- Ctrl(s1, v.control.controller);
      Ok(SetCtrl(s1, v.control.controller.value, d.(deaths := d.deaths + 1)))
    else Ok(s)
  }

  /** The kill/death bookkeeping of a killing blow. An owner that no longer resolves is dereferenced. */
  function Credit(s: Sim, i: nat, b: Blame): (r: Result<Sim, Fault>)
    ensures r.Ok? ==> r.value == s.(ctrls := r.value.ctrls) && |r.value.ctrls| == |s.ctrls|
  {
    var v :- Occupant(s, i);
    match b
    case NoBlame => Ok(s)
    case ViaOwner(o) => if o.None? then Err(NullActor) else CreditPair(s, v, o.value)
    case Direct(c) => CreditPair(s, v, c)
  }

  /** `AI::DamagedBy`: a non-null attacker becomes the target. */
  function DamagedBy(ai: ControllerState, attacker: Option<ActorHandle>): (r: ControllerState)
    ensures attacker.Some? ==> r.target == attacker.value
    ensures attacker.None? ==> r == ai
    ensures r == ai.(target := r.target)
  {
    if attacker.Some? then ai.(target := attacker.value) else ai
  }

  /**
   * The aggro block of TakeDamage: an AI victim calls DamagedBy with the
   * resolved owner of an owned source, or with an unowned source of another
   * faction.
   */
  function Aggro(s: Sim, i: nat, b: Blame): (r: Result<Sim, Fault>)
    ensures r.Ok? ==> r.value == s.(ctrls := r.value.ctrls) && |r.value.ctrls| == |s.ctrls|
  {
    var v :- Occupant(s, i);
    var calls := match b
      case NoBlame => false
      case ViaOwner(_) => v.control.isAI
      case Direct(c) => v.control.isAI && c.faction != v.def.faction;
    if !calls then Ok(s)
    else
      var ai :- Ctrl(s, v.control.controller);
      var attacker := match b
        case ViaOwner(o) => if o.Some? then Some(o.value.handle) else None
        case Direct(c) => Some(c.handle)
        case NoBlame => None;
      Ok(SetCtrl(s, v.control.controller.value, DamagedBy(ai, attacker)))
  }

  /** What follows the zero-health check: blame, the credit for a killing blow, and the aggro hand-off. */
  function Settle(s: Sim, i: nat, src: Option<nat>, died: bool): (r: Result<Sim, Fault>)
    ensures r.Ok? ==> r.value == s.(ctrls := r.value.ctrls) && |r.value.ctrls| == |s.ctrls|
  {
    var b :- BlameOf(s, i, src);
    var s1 :- if died then Credit(s, i, b) else Ok(s);
    Aggro(s1, i, b)
  }

  /**
   * `TakeDamage(source, damage)` on the actor in slot `i`: a pickup on either
   * side shields it; otherwise health drops, a death is checked, a killing
   * blow is credited, and an AI victim may turn on its attacker.
   */
  function TakeDamage(env: Env, s: Sim, i: nat, src: Option<nat>, damage: real): (r: Result<Sim, Fault>)
    ensures r.Ok? ==> Evolves(env, s, r.value)
    ensures r.Ok? ==> r.value.player == s.player && |r.value.ctrls| >= |s.ctrls|
  {
    var a :- Occupant(s, i);
    var sa :- OccupantOpt(s, src);
    if a.def.isPickup || (sa.Some? && sa.value.def.isPickup) then Ok(s)
    else
      var c :- Wound(env, s, i, damage);
      Settle(c.sim, i, src, c.died)
  }

  /** `m_health -= damage` on the actor in slot `i`, then CheckIfHealthIsZero. */
  function Wound(env: Env, s: Sim, i: nat, damage: real): (r: Result<Checked, Fault>)
    ensures r.Ok? ==> Evolves(env, s, r.value.sim)
    ensures r.Ok? ==> r.value.sim.player == s.player && |r.value.sim.ctrls| >= |s.ctrls|
    ensures r.Ok? ==>
      && i < |s.slots| && s.slots[i].Some?
      && (r.value.died <==> KillingBlow(s.slots[i].value.vitals, damage))
      && r.value.sim.slots[i] == Some(s.slots[i].value.(vitals := AfterDamage(s.slots[i].value.vitals, damage)))
    ensures r.Ok? && !r.value.died ==> r.value.sim.ctrls == s.ctrls
  {
    var a :- Occupant(s, i);
    var a1 := a.(vitals := a.vitals.(health := a.vitals.health - damage));
    PutEvolves(env, s, i, a1);
    var c :- CheckIfHealthIsZero(env, Put(s, i, a1), i);
    EvolvesTrans(env, s, Put(s, i, a1), c.sim);
    Ok(c)
  }

  /** A pickup on either side makes TakeDamage change nothing. */
  lemma PickupsTakeNoDamage(env: Env, s: Sim, i: nat, src: Option<nat>, damage: real)
    requires i < |s.slots| && s.slots[i].Some?
    requires src.Some? ==> src.value < |s.slots| && s.slots[src.value].Some?
    requires s.slots[i].value.def.isPickup || (src.Some? && s.slots[src.value].value.def.isPickup)
    ensures TakeDamage(env, s, i, src, damage) == Ok(s)
  {
  }

  /**
   * Otherwise the victim's vitals afterwards are AfterDamage of its vitals:
   * health drops by exactly `damage`, and it is dead exactly when it was or
   * its health reached zero.
   */
  lemma DamageLowersHealth(env: Env, s: Sim, i: nat, src: Option<nat>, damage: real)
    requires TakeDamage(env, s, i, src, damage).Ok?
    requires !s.slots[i].value.def.isPickup && !(src.Some? && s.slots[src.value].value.def.isPickup)
    ensures var t := TakeDamage(env, s, i, src, damage).value;
      t.slots[i].Some? && t.slots[i].value == s.slots[i].value.(vitals := AfterDamage(s.slots[i].value.vitals, damage))
  {
  }

  /**
   * The kill and death counters of TakeDamage's result, compared with the
   * state right after the zero-health check (whose StartDeath may itself
   * report a demon kill): without a killing blow, or on one that KillCredit
   * does not credit, no counter moves; on a credited killing blow the
   * attacker's controller gains exactly one kill and the victim's exactly one
   * death. A hit that kills nobody leaves every counter as it was before.
   */
  lemma KillsCountedOnlyBetweenPlayers(env: Env, s: Sim, i: nat, src: Option<nat>, damage: real)
    requires TakeDamage(env, s, i, src, damage).Ok?
    requires !s.slots[i].value.def.isPickup && !(src.Some? && s.slots[src.value].value.def.isPickup)
    ensures Wound(env, s, i, damage).Ok? && BlameOf(Wound(env, s, i, damage).value.sim, i, src).Ok?
    ensures var w := Wound(env, s, i, damage).value;
      var b := BlameOf(w.sim, i, src).value;
      var v := s.slots[i].value;
      var t := TakeDamage(env, s, i, src, damage).value;
      && (w.died <==> KillingBlow(v.vitals, damage))
      && (!w.died ==> CountersKept(s.ctrls, t.ctrls))
      && (w.died && KillCredit(v.control.isAI, b) == Some(false) ==> CountersKept(w.sim.ctrls, t.ctrls))
      && (w.died && KillCredit(v.control.isAI, b) == Some(true) ==>
            var c := Blamed(b);
            && c.slot < |w.sim.slots| && w.sim.slots[c.slot].Some?
            && w.sim.slots[c.slot].value.control.controller.Some?
            && v.control.controller.Some?
            && CountersMoved(w.sim.ctrls, t.ctrls,
                 w.sim.slots[c.slot].value.control.controller.value, v.control.controller.value))
  {
    var w := Wound(env, s, i, damage).value;
    var b := BlameOf(w.sim, i, src).value;
    var s1 := if w.died then Credit(w.sim, i, b).value else w.sim;
    if w.died {
      CreditFollowsKillCredit(w.sim, i, b);
    }
    AggroKeepsCounters(s1, i, b);
  }

  /** The culprit a crediting blame names. */
  function Blamed(b: Blame): Culprit
    requires b.Direct? || (b.ViaOwner? && b.owner.Some?)
  {
    if b.Direct? then b.culprit else b.owner.value
  }

  /** No controller's kill or death count differs. */
  predicate CountersKept(before: seq<ControllerState>, after: seq<ControllerState>)
  {
    |after| == |before| &&
    forall k :: 0 <= k < |before| ==> after[k].kills == before[k].kills && after[k].deaths == before[k].deaths
  }

  /**
   * Controller `ka` gained exactly one kill and controller `kd` exactly one
   * death (one controller gains both when `ka == kd`); no other count moved.
   */
  predicate CountersMoved(before: seq<ControllerState>, after: seq<ControllerState>, ka: Cid, kd: Cid)
  {
    && |after| == |before| && ka < |before| && kd < |before|
    && forall k :: 0 <= k < |before| ==>
         && after[k].kills == before[k].kills + (if k == ka then 1 else 0)
         && after[k].deaths == before[k].deaths + (if k == kd then 1 else 0)
  }

  /** The aggro hand-off changes a target at most, never a counter. */
  lemma AggroKeepsCounters(s: Sim, i: nat, b: Blame)
    requires Aggro(s, i, b).Ok?
    ensures CountersKept(s.ctrls, Aggro(s, i, b).value.ctrls)
  {
  }

  /**
   * The victim's controller ends with AggroTarget of its old target: an owned
   * source turns an AI victim on the resolved owner whatever its faction, an
   * unowned source only if its faction differs.
   */
  lemma AggroFollowsTarget(s: Sim, i: nat, b: Blame)
    requires Aggro(s, i, b).Ok?
    requires s.slots[i].value.control.controller.Some? && s.slots[i].value.control.controller.value < |s.ctrls|
    ensures var v := s.slots[i].value;
      var c := v.control.controller.value;
      var t := Aggro(s, i, b).value;
      && t.ctrls[c] == s.ctrls[c].(target := AggroTarget(s.ctrls[c].target, v.control.isAI, v.def.faction, b))
      && (forall k :: 0 <= k < |s.ctrls| && k != c ==> t.ctrls[k] == s.ctrls[k])
  {
  }

  /**
   * A killing blow is credited exactly as KillCredit says: a fault when the
   * owner is gone, no change when it credits nobody, and otherwise one kill
   * for the attacker's controller followed by one death for the victim's,
   * each an update of that controller's counter alone.
   */
  lemma CreditFollowsKillCredit(s: Sim, i: nat, b: Blame)
    requires i < |s.slots| && s.slots[i].Some?
    requires Credit(s, i, b).Ok?
    ensures var v := s.slots[i].value;
      KillCredit(v.control.isAI, b) != None
    ensures var v := s.slots[i].value;
      KillCredit(v.control.isAI, b) == Some(false) ==> Credit(s, i, b) == Ok(s)
    ensures var v := s.slots[i].value;
      KillCredit(v.control.isAI, b) == Some(true) ==>
        var c := Blamed(b);
        var t := Credit(s, i, b).value;
        && c.slot < |s.slots| && s.slots[c.slot].Some?
        && s.slots[c.slot].value.control.controller.Some?
        && v.control.controller.Some?
        && var ka := s.slots[c.slot].value.control.controller.value;
           var kd := v.control.controller.value;
           && CountersMoved(s.ctrls, t.ctrls, ka, kd)
           && (forall k :: 0 <= k < |s.ctrls| ==>
                 t.ctrls[k] == s.ctrls[k].(kills := t.ctrls[k].kills, deaths := t.ctrls[k].deaths))
  {
  }

  // ------------------------------------------------------ pickups and collisions

  /** An ammunition pickup applied to every weapon of an inventory. */
  function RefillAll(ws: seq<Armament>): (r: seq<Armament>)
    ensures |r| == |ws|
    ensures forall k :: 0 <= k < |ws| ==> r[k] == Armament(ws[k].def, AfterPickup(ws[k].def, ws[k].state))
  {
    seq(|ws|, k requires 0 <= k < |ws| => Armament(ws[k].def, AfterPickup(ws[k].def, ws[k].state)))
  }

  /**
   * `HandlePickupLogic`: an "AmmoPickup" refills the bag of every weapon with
   * a magazine; any pickup is then dead and expired (without StartDeath).
   */
  function HandlePickupLogic(s: Sim, i: nat, o: nat): (r: Result<Sim, Fault>)
    ensures r.Ok? ==> Persists(s, r.value) && |r.value.slots| == |s.slots|
    ensures r.Ok? ==> r.value == s.(slots := r.value.slots)
  {
    var a :- Occupant(s, i);
    var p :- Occupant(s, o);
    var s1 := if p.def.name == AmmoPickupName then Put(s, i, a.(weapons := RefillAll(a.weapons))) else s;
    var p1 := s1.slots[o].value;
    Ok(Put(s1, o, p1.(vitals := p1.vitals.(isDead := true), expired := true)))
  }

  /**
   * Picking up ammunition adds a magazine to the bag of every weapon that is
   * not energy-based and leaves energy weapons alone; the pickup is dead and
   * expired; nothing else changes.
   */
  lemma AmmoPickupRefills(s: Sim, i: nat, o: nat)
    requires i != o && HandlePickupLogic(s, i, o).Ok?
    requires s.slots[o].value.def.name == AmmoPickupName
    ensures var t := HandlePickupLogic(s, i, o).value;
      var a := s.slots[i].value;
      var p := s.slots[o].value;
      && t.slots[i] == Some(a.(weapons := t.slots[i].value.weapons))
      && |t.slots[i].value.weapons| == |a.weapons|
      && (forall k :: 0 <= k < |a.weapons| && a.weapons[k].def.isEnergyBased ==> t.slots[i].value.weapons[k] == a.weapons[k])
      && (forall k :: 0 <= k < |a.weapons| && !a.weapons[k].def.isEnergyBased ==>
            t.slots[i].value.weapons[k].state.roundsInBag == a.weapons[k].state.roundsInBag + a.weapons[k].def.magSize)
      && t.slots[o] == Some(p.(vitals := p.vitals.(isDead := true), expired := true))
      && (forall j :: 0 <= j < |s.slots| && j != i && j != o ==> t.slots[j] == s.slots[j])
  {
  }

  /**
   * Any other pickup only disappears: the actor taking it is unchanged, the
   * pickup is dead and expired, and nothing else changes.
   */
  lemma OtherPickupConsumed(s: Sim, i: nat, o: nat)
    requires i != o && HandlePickupLogic(s, i, o).Ok?
    requires s.slots[o].value.def.name != AmmoPickupName
    ensures var t := HandlePickupLogic(s, i, o).value;
      var p := s.slots[o].value;
      && t.slots[i] == s.slots[i]
      && t.slots[o] == Some(p.(vitals := p.vitals.(isDead := true), expired := true))
      && (forall j :: 0 <= j < |s.slots| && j != o ==> t.slots[j] == s.slots[j])
      && t == s.(slots := t.slots)
  {
  }

  /**
   * What `OnCollide(other)` does with a non-null other: a player touching a
   * pickup takes it; otherwise the actor takes damage rolled from the other's
   * range, then damage rolled from its own range with itself as the source.
   */
  function CollideWith(env: Env, s: Sim, i: nat, o: nat): (r: Result<Sim, Fault>)
    ensures r.Ok? ==> Evolves(env, s, r.value)
    ensures r.Ok? ==> r.value.player == s.player && |r.value.ctrls| >= |s.ctrls|
  {
    var a :- Occupant(s, i);
    var b :- Occupant(s, o);
    if b.def.isPickup && !a.control.isAI then HandlePickupLogic(s, i, o)
    else
      var s1 :- RolledDamage(env, s, i, o, b.def.damageOnCollide);
      var s2 :- RolledDamage(env, s1, i, i, a.def.damageOnCollide);
      EvolvesTrans(env, s, s1, s2);
      Ok(s2)
  }

  /** Damage rolled in `range` done to the actor in slot `i`, blamed on slot `src`. */
  function RolledDamage(env: Env, s: Sim, i: nat, src: nat, range: FloatRange): (r: Result<Sim, Fault>)
    ensures r.Ok? ==> Evolves(env, s, r.value)
    ensures r.Ok? ==> r.value.player == s.player && |r.value.ctrls| >= |s.ctrls|
  {
    TakeDamage(env, s.(draws := s.draws + 1), i, Some(src), env.floatDraw(s.draws, range.min, range.max))
  }

  /**
   * `OnCollide(other)`: the collision flag is set; a pickup does nothing
   * more; otherwise the other actor (if any) is handled, and an actor that
   * dies on collision starts its death.
   */
  function OnCollide(env: Env, s: Sim, i: nat, other: Option<nat>): (r: Result<Sim, Fault>)
    ensures r.Ok? ==> Evolves(env, s, r.value)
    ensures r.Ok? ==> r.value.player == s.player && |r.value.ctrls| >= |s.ctrls|
  {
    var a :- Occupant(s, i);
    var s1 := Put(s, i, a.(didCollide := true));
    if a.def.isPickup then Ok(s1)
    else
      PutEvolves(env, s, i, a.(didCollide := true));
      var s2 :- if other.Some? then CollideWith(env, s1, i, other.value) else Ok(s1);
      CollisionDeath(env, s2, i)
  }

  /** The end of `OnCollide`: an actor that dies on collision and is not yet dead starts its death. */
  function CollisionDeath(env: Env, s: Sim, i: nat): (r: Result<Sim, Fault>)
    ensures r.Ok? ==> Evolves(env, s, r.value)
    ensures r.Ok? ==> r.value.player == s.player && |r.value.ctrls| >= |s.ctrls|
  {
    var a :- Occupant(s, i);
    if a.def.dieOnCollision && !a.vitals.isDead then StartDeath(env, s, i) else Ok(s)
  }

  /**
   * `CollideWith`: a player touching a pickup takes it as HandlePickupLogic
   * does; any other contact is a hit rolled from the other's collision
   * damage and blamed on the other, then a hit rolled from the actor's own
   * collision damage and blamed on itself. When neither is a pickup the
   * actor's health drops by both rolls; when an AI touches a pickup, the
   * pickup shields it from the first hit and only its own roll lands; a
   * pickup actor is shielded from both.
   */
  lemma ContactHits(env: Env, s: Sim, i: nat, o: nat)
    requires CollideWith(env, s, i, o).Ok?
    ensures i < |s.slots| && s.slots[i].Some? && o < |s.slots| && s.slots[o].Some?
    ensures var a := s.slots[i].value;
      var b := s.slots[o].value;
      var t := CollideWith(env, s, i, o);
      if b.def.isPickup && !a.control.isAI then t == HandlePickupLogic(s, i, o)
      else
        var h1 := RolledDamage(env, s, i, o, b.def.damageOnCollide);
        && h1.Ok?
        && var h2 := RolledDamage(env, h1.value, i, i, a.def.damageOnCollide);
          var d1 := env.floatDraw(s.draws, b.def.damageOnCollide.min, b.def.damageOnCollide.max);
          var d2 := env.floatDraw(h1.value.draws, a.def.damageOnCollide.min, a.def.damageOnCollide.max);
          && t == h2
          && h2.value.slots[i] == Some(a.(vitals :=
               if a.def.isPickup then a.vitals
               else AfterDamage(if b.def.isPickup then a.vitals else AfterDamage(a.vitals, d1), d2)))
  {
    var a := s.slots[i].value;
    var b := s.slots[o].value;
    if !(b.def.isPickup && !a.control.isAI) {
      var h1 := RolledDamage(env, s, i, o, b.def.damageOnCollide);
      RolledHit(env, s, i, o, b.def.damageOnCollide);
      var h2 := RolledDamage(env, h1.value, i, i, a.def.damageOnCollide);
      RolledHit(env, h1.value, i, i, a.def.damageOnCollide);
    }
  }

  /**
   * One rolled hit: the victim's vitals become AfterDamage of the roll,
   * unless the victim or the source is a pickup, which shields it.
   */
  lemma RolledHit(env: Env, s: Sim, i: nat, src: nat, range: FloatRange)
    requires RolledDamage(env, s, i, src, range).Ok?
    ensures var v := s.slots[i].value;
      var d := env.floatDraw(s.draws, range.min, range.max);
      RolledDamage(env, s, i, src, range).value.slots[i] ==
        Some(v.(vitals := if v.def.isPickup || s.slots[src].value.def.isPickup then v.vitals else AfterDamage(v.vitals, d)))
  {
    var u := s.(draws := s.draws + 1);
    var d := env.floatDraw(s.draws, range.min, range.max);
    if s.slots[i].value.def.isPickup || s.slots[src].value.def.isPickup {
      PickupsTakeNoDamage(env, u, i, Some(src), d);
    } else {
      DamageLowersHealth(env, u, i, Some(src), d);
    }
  }

  /**
   * `OnCollide(other)` with another actor in slot `o`: the collision flag is
   * set, the contact goes as ContactHits says, and an actor that dies on
   * collision then starts its death.
   */
  lemma CollisionExchange(env: Env, s: Sim, i: nat, o: nat)
    requires OnCollide(env, s, i, Some(o)).Ok?
    ensures !s.slots[i].value.def.isPickup ==>
      && o < |s.slots| && s.slots[o].Some?
      && var a := s.slots[i].value;
        var b := s.slots[o].value;
        var s1 := Put(s, i, a.(didCollide := true));
        var t := OnCollide(env, s, i, Some(o));
        if b.def.isPickup && !a.control.isAI then
          && HandlePickupLogic(s1, i, o).Ok?
          && t == CollisionDeath(env, HandlePickupLogic(s1, i, o).value, i)
        else
          var h1 := RolledDamage(env, s1, i, o, b.def.damageOnCollide);
          && h1.Ok?
          && var h2 := RolledDamage(env, h1.value, i, i, a.def.damageOnCollide);
            var d1 := env.floatDraw(s.draws, b.def.damageOnCollide.min, b.def.damageOnCollide.max);
            var d2 := env.floatDraw(h1.value.draws, a.def.damageOnCollide.min, a.def.damageOnCollide.max);
            && h2.Ok?
            && t == CollisionDeath(env, h2.value, i)
            && h2.value.slots[i] == Some(a.(didCollide := true, vitals :=
                 AfterDamage(if b.def.isPickup then a.vitals else AfterDamage(a.vitals, d1), d2)))
  {
    var a := s.slots[i].value;
    if !a.def.isPickup {
      var s1 := Put(s, i, a.(didCollide := true));
      ContactHits(env, s1, i, o);
    }
  }

  /** A pickup only records the collision; any other actor that dies on collision is dead afterwards. */
  lemma CollisionFlags(env: Env, s: Sim, i: nat, other: Option<nat>)
    requires OnCollide(env, s, i, other).Ok?
    ensures var a := s.slots[i].value;
      var t := OnCollide(env, s, i, other).value;
      && (a.def.isPickup ==> t == Put(s, i, a.(didCollide := true)))
      && (a.def.dieOnCollision && !a.def.isPickup ==> t.slots[i].value.vitals.isDead)
  {
  }

  // ------------------------------------------------------ weapons

  /** C++ `%` on int: the remainder takes the sign of the dividend. */
  function CRem(a: int, n: int): (r: int)
    requires n > 0
    ensures a >= 0 ==> r == a % n
    ensures -n < r < n
  {
    if a >= 0 then a % n else -((-a) % n)
  }

  /**
   * `CycleWeaponUp`: the index after the current one, modulo the inventory
   * size (an empty inventory divides by zero); the equipped weapon, null for
   * an empty inventory, is released first.
   */
  function CycleWeaponUp(a: ActorState): (r: Result<ActorState, Fault>)
    ensures r.Ok? ==> 0 <= r.value.weaponIndex < |a.weapons|
    ensures r.Ok? ==> r.value == a.(weaponIndex := r.value.weaponIndex, equipped := Some(r.value.weaponIndex as nat))
  {
    var n := |a.weapons|;
    if n == 0 || a.equipped.None? then Err(NullWeapon)
    else
      var index := CRem(a.weaponIndex + 1, n);
      if index < 0 then Err(IndexOutOfRange)
      else Ok(a.(weaponIndex := index, equipped := Some(index as nat)))
  }

  /** `CycleWeaponDown`: the index before the current one, wrapping from 0 to the last. */
  function CycleWeaponDown(a: ActorState): (r: Result<ActorState, Fault>)
    ensures r.Ok? ==> 0 <= r.value.weaponIndex < |a.weapons|
    ensures r.Ok? ==> r.value == a.(weaponIndex := r.value.weaponIndex, equipped := Some(r.value.weaponIndex as nat))
  {
    var index := if a.weaponIndex - 1 < 0 then |a.weapons| - 1 else a.weaponIndex - 1;
    if a.equipped.None? then Err(NullWeapon)
    else if index < 0 || index >= |a.weapons| then Err(IndexOutOfRange)
    else Ok(a.(weaponIndex := index, equipped := Some(index as nat)))
  }

  /**
   * From a valid index with a weapon equipped, cycling succeeds, moves the
   * index as CycleUp and CycleDown say, equips the weapon at the new index,
   * and up followed by down gives back the index.
   */
  lemma CyclingAgrees(a: ActorState)
    requires 0 <= a.weaponIndex < |a.weapons| && a.equipped.Some?
    ensures CycleWeaponUp(a).Ok? && CycleWeaponUp(a).value.weaponIndex == CycleUp(a.weaponIndex, |a.weapons|)
    ensures CycleWeaponDown(a).Ok? && CycleWeaponDown(a).value.weaponIndex == CycleDown(a.weaponIndex, |a.weapons|)
    ensures CycleWeaponDown(CycleWeaponUp(a).value).Ok? &&
      CycleWeaponDown(CycleWeaponUp(a).value).value.weaponIndex == a.weaponIndex
  {
    CycleInverse(a.weaponIndex, |a.weapons|);
  }

  /**
   * `Attack`: the equipped weapon fires once per elapsed refire period. With
   * no period elapsed nothing is touched, not even the equipped pointer.
   */
  function Attack(frame: Frame, s: Sim, i: nat): (r: Result<Sim, Fault>)
    ensures r.Ok? ==> BodiesKept(s, r.value) && r.value == s.(slots := r.value.slots)
    ensures r.Ok? ==> forall j :: 0 <= j < |s.slots| && j != i ==> r.value.slots[j] == s.slots[j]
  {
    var a :- Occupant(s, i);
    var n := frame.refirePeriods(a.handle);
    if n == 0 then Ok(s)
    else
      var w :- Equipped(a);
      var k := a.equipped.value;
      Ok(Put(s, i, a.(weapons := a.weapons[k := Armament(w.def, AfterShots(w.def, w.state, n))])))
  }

  /**
   * With `n` periods elapsed the equipped weapon is fired `n` times: its state
   * is what `n` Fire calls give, it made the `n` shots ShotsOf lists, and the
   * other weapons are untouched.
   */
  lemma AttackCatchesUp(frame: Frame, s: Sim, i: nat)
    requires Attack(frame, s, i).Ok?
    ensures var a := s.slots[i].value;
      var n := frame.refirePeriods(a.handle);
      var t := Attack(frame, s, i).value.slots[i].value;
      && (n == 0 ==> t == a)
      && (n > 0 ==>
            && a.equipped.Some? && a.equipped.value < |a.weapons|
            && var k := a.equipped.value;
            && var w := a.weapons[k];
            && t == a.(weapons := t.weapons) && |t.weapons| == |a.weapons|
            && t.weapons[k] == Armament(w.def, AfterShots(w.def, w.state, n))
            && |ShotsOf(w.def, w.state, n)| == n
            && (forall k' :: 0 <= k' < |a.weapons| && k' != k ==> t.weapons[k'] == a.weapons[k']))
  {
    var a := s.slots[i].value;
    var n := frame.refirePeriods(a.handle);
    if n > 0 {
      var w := a.weapons[a.equipped.value];
      ShotsCount(w.def, w.state, n);
    }
  }

  /** Each Fire call makes one shot. */
  lemma {:induction false} ShotsCount(def: WeaponDef, s: WeaponState, n: nat)
    ensures |ShotsOf(def, s, n)| == n
    decreases n
  {
    if n > 0 {
      ShotsCount(def, AfterFire(def, s), n - 1);
    }
  }

  // ------------------------------------------------------ controllers

  /** `Controller::GetActor`: the possessed handle looked up on the controller's map. */
  function GetActor(s: Sim, c: Cid): (r: Result<Option<nat>, Fault>)
    ensures c >= |s.ctrls| ==> r == Err(NullController)
    ensures c < |s.ctrls| && !s.ctrls[c].onMap ==> r == Err(NullMap)
    ensures c < |s.ctrls| && s.ctrls[c].onMap ==> r == Resolve(s.slots, s.ctrls[c].possessedActor)
  {
    var p :- Ctrl(s, Some(c));
    if !p.onMap then Err(NullMap) else Resolve(s.slots, p.possessedActor)
  }

  /** `Player::GetActorHealth`: the possessed actor's health, or 0 when it does not resolve. */
  function GetActorHealth(s: Sim, c: Cid): (r: Result<real, Fault>)
    ensures r.Ok? <==> GetActor(s, c).Ok?
    ensures r.Ok? && GetActor(s, c).value.None? ==> r.value == 0.0
    ensures r.Ok? && GetActor(s, c).value.Some? ==> r.value == s.slots[GetActor(s, c).value.value].value.vitals.health
  {
    var a :- GetActor(s, c);
    if a.None? then Ok(0.0) else Ok(s.slots[a.value].value.vitals.health)
  }

  /** What an AI adopts when it has no target: the closest visible enemy, if it is alive and not a pickup. */
  function Acquire(g: Geometry, slots: seq<Option<ActorState>>, me: nat): (h: ActorHandle)
    requires me < |slots| && slots[me].Some?
    ensures var e := ClosestVisibleEnemy(g, slots, me);
      h == if e.Some? && e.value < |slots| && slots[e.value].Some? && !slots[e.value].value.vitals.isDead &&
              !slots[e.value].value.def.isPickup
           then slots[e.value].value.handle else INVALID
  {
    var e := ClosestVisibleEnemy(g, slots, me);
    ClosestIsNearestSighting(g, slots, me);
    if e.Some? && !slots[e.value].value.vitals.isDead && !slots[e.value].value.def.isPickup
    then slots[e.value].value.handle else INVALID
  }

  /** How far the AI's actor can strike: the equipped weapon's melee range, or its radius when unarmed. */
  function AttackRange(a: ActorState): real
  {
    if Equipped(a).Ok? then Equipped(a).value.def.meleeRange else a.def.physicsRadius
  }

  /**
   * `AI::Update` for controller `c`: without an actor it does nothing; with no
   * target it acquires one; a target that resolves to a dead actor is
   * dropped; a live one is attacked when a weapon is equipped and strictly in
   * range, approached otherwise. A target that does not resolve is
   * dereferenced.
   */
  function AIUpdate(g: Geometry, frame: Frame, s: Sim, c: Cid): (r: Result<Sim, Fault>)
    ensures r.Ok? ==> BodiesKept(s, r.value)
    ensures r.Ok? ==> r.value.player == s.player && |r.value.ctrls| == |s.ctrls|
  {
    var me :- GetActor(s, c);
    if me.None? then Ok(s)
    else
      var ai := s.ctrls[c];
      var target := if Equal(ai.target, INVALID) then Acquire(g, s.slots, me.value) else ai.target;
      var s1 := SetCtrl(s, c, ai.(target := target));
      if Equal(target, INVALID) then Ok(s1)
      else Pursue(g, frame, s1, c, me.value, target)
  }

  /**
   * The second half of `AI::Update`, for the AI `c` of the actor in slot `me`
   * with a target: a dead target is dropped, a live one in range attacked.
   */
  function Pursue(g: Geometry, frame: Frame, s: Sim, c: Cid, me: nat, target: ActorHandle): (r: Result<Sim, Fault>)
    requires c < |s.ctrls| && me < |s.slots| && s.slots[me].Some?
    ensures r.Ok? ==> BodiesKept(s, r.value)
    ensures r.Ok? ==> r.value.player == s.player && |r.value.ctrls| == |s.ctrls|
  {
    var t :- Resolve(s.slots, target);
    if t.Some? && s.slots[t.value].value.vitals.isDead then Ok(SetCtrl(s, c, s.ctrls[c].(target := INVALID)))
    else if t.None? then Err(NullActor)
    else
      var self := s.slots[me].value;
      var distance := g.length(Minus(s.slots[t.value].value.position, self.position));
      if Equipped(self).Ok? && AttackRange(self) > distance then Attack(frame, s, me) else Ok(s)
  }

  /** An AI whose actor does not resolve leaves everything as it was. */
  lemma AIWithoutActorIdles(g: Geometry, frame: Frame, s: Sim, c: Cid)
    requires GetActor(s, c) == Ok(None)
    ensures AIUpdate(g, frame, s, c) == Ok(s)
  {
  }

  /**
   * The target afterwards: an AI with no target that finds no live,
   * non-pickup enemy keeps INVALID; a target on a dead actor is reset to
   * INVALID; a target that no longer resolves is never reset — the update
   * fails on it instead.
   */
  lemma AITargetTransitions(g: Geometry, frame: Frame, s: Sim, c: Cid)
    requires GetActor(s, c).Ok? && GetActor(s, c).value.Some?
    ensures var me := GetActor(s, c).value.value;
      var ai := s.ctrls[c];
      var r := AIUpdate(g, frame, s, c);
      && (Equal(ai.target, INVALID) && Acquire(g, s.slots, me) == INVALID ==> r == Ok(s))
      && ((!Equal(ai.target, INVALID) && GetIndex(ai.target) as int < |s.slots| &&
           GetActorByHandle(s.slots, ai.target).Some? &&
           s.slots[GetActorByHandle(s.slots, ai.target).value].value.vitals.isDead) ==>
            r == Ok(SetCtrl(s, c, ai.(target := INVALID))))
      && ((!Equal(ai.target, INVALID) && GetIndex(ai.target) as int < |s.slots| &&
           GetActorByHandle(s.slots, ai.target).None?) ==> r == Err(NullActor))
  {
    var ai := s.ctrls[c];
    if Equal(ai.target, INVALID) && Acquire(g, s.slots, GetActor(s, c).value.value) == INVALID {
      assert SetCtrl(s, c, ai.(target := INVALID)) == s;
    }
    if !Equal(ai.target, INVALID) {
      assert SetCtrl(s, c, ai.(target := ai.target)) == s;
    }
  }

  /**
   * The AI attacks only with a weapon equipped and its target strictly
   * inside the melee range; then the actor's slot is the only one touched.
   */
  lemma AIAttacksOnlyInRange(g: Geometry, frame: Frame, s: Sim, c: Cid)
    requires AIUpdate(g, frame, s, c).Ok?
    requires AIUpdate(g, frame, s, c).value.slots != s.slots
    ensures var me := GetActor(s, c).value;
      && me.Some?
      && var t := s.ctrls[c].target;
      && var target := if Equal(t, INVALID) then Acquire(g, s.slots, me.value) else t;
      && GetIndex(target) as int < |s.slots| && GetActorByHandle(s.slots, target).Some?
      && var self := s.slots[me.value].value;
      && var other := s.slots[GetActorByHandle(s.slots, target).value].value;
      && Equipped(self).Ok?
      && Equipped(self).value.def.meleeRange > g.length(Minus(other.position, self.position))
  {
  }

  /** `Controller::Update` as the actor calls it: the AI update for an AI, nothing modelled for a player. */
  function ControllerUpdate(g: Geometry, frame: Frame, s: Sim, c: Cid): (r: Result<Sim, Fault>)
    ensures r.Ok? ==> BodiesKept(s, r.value)
    ensures r.Ok? ==> r.value.player == s.player && |r.value.ctrls| == |s.ctrls|
  {
    var k :- Ctrl(s, Some(c));
    if k.kind == AIKind then AIUpdate(g, frame, s, c) else Ok(s)
  }

  /** Every weapon of an inventory advanced by its tick of this frame. */
  function UpdateWeapons(ws: seq<Armament>, frame: Frame, h: ActorHandle): (r: seq<Armament>)
    ensures |r| == |ws|
    ensures forall k :: 0 <= k < |ws| ==>
      r[k] == Armament(ws[k].def, AfterUpdate(ws[k].def, ws[k].state, frame.weaponTick(h, k)))
  {
    seq(|ws|, k requires 0 <= k < |ws| =>
      Armament(ws[k].def, AfterUpdate(ws[k].def, ws[k].state, frame.weaponTick(h, k))))
  }

  /**
   * The last three steps of `Actor::Update` on the actor itself: every weapon
   * is updated, a live actor is moved by its physics, and a started corpse
   * timer that has elapsed expires the actor.
   */
  function Advance(frame: Frame, a: ActorState): (t: ActorState)
    ensures t == a.(weapons := t.weapons, position := t.position, expired := t.expired)
    ensures t.weapons == UpdateWeapons(a.weapons, frame, a.handle)
    ensures a.vitals.isDead ==> t.position == a.position
    ensures t.expired <==> a.expired || (a.vitals.deathTimerStarted && frame.deathTimerElapsed(a.handle))
  {
    var a1 := a.(weapons := UpdateWeapons(a.weapons, frame, a.handle));
    var a2 := if !a1.vitals.isDead then a1.(position := frame.physics(a1)) else a1;
    if a2.vitals.deathTimerStarted && frame.deathTimerElapsed(a2.handle) then a2.(expired := true) else a2
  }

  /** The controller step of `Actor::Update`: an AI-flagged actor with a controller has it updated. */
  function ControlStep(g: Geometry, frame: Frame, s: Sim, a: ActorState): (r: Result<Sim, Fault>)
    ensures r.Ok? ==> BodiesKept(s, r.value) && r.value.player == s.player && |r.value.ctrls| == |s.ctrls|
    ensures !(a.control.controller.Some? && a.control.isAI) ==> r == Ok(s)
  {
    if a.control.controller.Some? && a.control.isAI then ControllerUpdate(g, frame, s, a.control.controller.value)
    else Ok(s)
  }

  /**
   * `Actor::Update`: death on spawn, the AI's update, every weapon's update,
   * physics for a live actor, and expiry once the started corpse timer
   * elapses.
   */
  function ActorUpdate(env: Env, g: Geometry, frame: Frame, s: Sim, i: nat): (r: Result<Sim, Fault>)
    ensures r.Ok? ==> Evolves(env, s, r.value)
    ensures r.Ok? ==> r.value.player == s.player && |r.value.ctrls| >= |s.ctrls|
  {
    var a :- Occupant(s, i);
    var s1 :- if a.def.dieOnSpawn then StartDeath(env, s, i) else Ok(s);
    var s2 :- ControlStep(g, frame, s1, s1.slots[i].value);
    BodiesKeptPersists(env, s1, s2);
    EvolvesTrans(env, s, s1, s2);
    var a2 := s2.slots[i].value;
    PutEvolves(env, s2, i, Advance(frame, a2));
    EvolvesTrans(env, s, s2, Put(s2, i, Advance(frame, a2)));
    Ok(Put(s2, i, Advance(frame, a2)))
  }

  /**
   * A dead actor does not move, an actor that dies on spawn is dead after its
   * update, and the actor expires exactly when it already had or its started
   * corpse timer elapsed.
   */
  lemma UpdateFlags(env: Env, g: Geometry, frame: Frame, s: Sim, i: nat)
    requires ActorUpdate(env, g, frame, s, i).Ok?
    ensures i < |s.slots| && s.slots[i].Some?
    ensures var a := s.slots[i].value;
      var t := ActorUpdate(env, g, frame, s, i).value.slots[i].value;
      && (a.vitals.isDead ==> t.position == a.position && t.vitals == a.vitals)
      && (a.def.dieOnSpawn ==> t.vitals.isDead)
      && (t.expired <==> a.expired || (t.vitals.deathTimerStarted && frame.deathTimerElapsed(a.handle)))
  {
    var a := s.slots[i].value;
    var s1 := if a.def.dieOnSpawn then StartDeath(env, s, i).value else s;
    assert s1.slots[i] == Some(a.(vitals := if a.def.dieOnSpawn then AfterStartDeath(a.vitals) else a.vitals));
    var s2 := ControlStep(g, frame, s1, s1.slots[i].value).value;
    var a2 := s2.slots[i].value;
    assert a2 == s1.slots[i].value.(weapons := a2.weapons);
    assert ActorUpdate(env, g, frame, s, i).value.slots[i].value == Advance(frame, a2);
  }

  // ------------------------------------------------------ possession

  /** `Actor::OnPossessed(controller c)`: `c` takes over and records the actor's handle. */
  function OnPossessed(s: Sim, i: nat, c: Cid): (r: Result<Sim, Fault>)
    ensures r.Ok? <==> i < |s.slots| && s.slots[i].Some? && c < |s.ctrls|
    ensures r.Ok? ==> r.value == s.(slots := r.value.slots, ctrls := r.value.ctrls)
    ensures r.Ok? ==> r.value.slots == s.slots[i := Some(s.slots[i].value.(control := Possessed(s.slots[i].value.control, c)))]
    ensures r.Ok? ==> r.value.ctrls == s.ctrls[c := s.ctrls[c].(possessedActor := s.slots[i].value.handle)]
  {
    var a :- Occupant(s, i);
    var k :- Ctrl(s, Some(c));
    Ok(SetCtrl(Put(s, i, a.(control := Possessed(a.control, c))), c, k.(possessedActor := a.handle)))
  }

  /** `Actor::OnUnpossessed`: the controlling controller lets go and the saved AI takes back control. */
  function OnUnpossessed(s: Sim, i: nat): (r: Result<Sim, Fault>)
    ensures r.Ok? <==> i < |s.slots| && s.slots[i].Some? && Ctrl(s, s.slots[i].value.control.controller).Ok?
    ensures r.Ok? ==> r.value == s.(slots := r.value.slots, ctrls := r.value.ctrls)
    ensures r.Ok? ==> r.value.slots == s.slots[i := Some(s.slots[i].value.(control := Unpossessed(s.slots[i].value.control)))]
    ensures r.Ok? ==> var c := s.slots[i].value.control.controller.value;
      r.value.ctrls == s.ctrls[c := s.ctrls[c].(possessedActor := INVALID)]
  {
    var a :- Occupant(s, i);
    var k :- Ctrl(s, a.control.controller);
    var s1 := SetCtrl(s, a.control.controller.value, k.(possessedActor := INVALID));
    Ok(Put(s1, i, a.(control := Unpossessed(a.control))))
  }

  /**
   * `Controller::Possess(h)`: the current actor is released, the handle is
   * set, and the actor it now names is possessed. Either actor not resolving
   * is a null dereference.
   */
  function Possess(s: Sim, c: Cid, h: ActorHandle): (r: Result<Sim, Fault>)
    ensures r.Ok? ==> |r.value.slots| == |s.slots| && Persists(s, r.value) && |r.value.ctrls| == |s.ctrls|
    ensures r.Ok? ==> r.value.player == s.player && r.value.wave == s.wave
  {
    var cur :- GetActor(s, c);
    if cur.None? then Err(NullActor)
    else
      var s1 :- OnUnpossessed(s, cur.value);
      var k :- Ctrl(s1, Some(c));
      var s2 := SetCtrl(s1, c, k.(possessedActor := h));
      var next :- GetActor(s2, c);
      if next.None? then Err(NullActor)
      else OnPossessed(s2, next.value, c)
  }

  /**
   * After a successful Possess the controller holds `h`, the actor `h` names
   * is controlled by it and no longer AI-flagged, keeping the AI it had only
   * if it was AI-controlled; a different previous actor is back with its
   * saved AI.
   */
  lemma PossessHandsOver(s: Sim, c: Cid, h: ActorHandle)
    requires Possess(s, c, h).Ok?
    ensures GetActor(s, c).Ok? && GetActor(s, c).value.Some?
    ensures GetIndex(h) as int < |s.slots| && GetActorByHandle(s.slots, h).Some?
    ensures var t := Possess(s, c, h).value;
      var prev := GetActor(s, c).value.value;
      var j := GetActorByHandle(s.slots, h).value;
      && c < |t.ctrls| && t.ctrls[c].possessedActor == h
      && t.slots[j].Some? && t.slots[j].value.control.controller == Some(c) && !t.slots[j].value.control.isAI
      && (j != prev ==>
            && t.slots[j].value.control == Possessed(s.slots[j].value.control, c)
            && t.slots[prev].value.control == Unpossessed(s.slots[prev].value.control))
  {
  }
}
