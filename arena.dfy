// The world state of one running map, stated as values: the actor slots of
// Code/Game/Map.cpp with the uid counter, the controllers the game owns, the
// player survival mode follows, the wave counters and the dice.
//
// Actors and controllers point at each other in the source. Here an actor is
// named by its slot and a controller by its position in the controller list
// (`Cid`); a pointer that would be null is `None`. The slot operations of the
// map (spawn, lookup, kill, the end-of-frame sweep) are functions of this
// state; class World.Map performs them step by step.
module Arena {
  import opened Wrappers
  import opened Vectors
  import opened ActorHandles
  import opened Definitions
  import opened Weapons
  import opened Slots
  import opened Lifecycle
  import opened FrontEnd

  /** The four fatal errors of SpawnActor and of the Actor constructor, in the order they are checked. */
  datatype SpawnError = UidsExhausted | SlotsExhausted | UnknownActor | UnknownWeapon

  /** The ways the source stops short: a fatal error, or undefined behaviour. */
  datatype Fault =
    | SpawnFailed(error: SpawnError)  // ERROR_AND_DIE
    | NullActor                        // a null actor pointer is dereferenced
    | NullController                   // a null controller pointer is dereferenced
    | NullMap                          // a controller whose map pointer was never set looks up its actor
    | IndexOutOfRange                  // a list is indexed past its end
    | NullWeapon                       // the equipped weapon is null, or the inventory is empty

  /** A controller's position in the game's controller list. */
  type Cid = nat

  /** Which subclass of Controller an object is (Code/Game/AI.hpp, Code/Game/Player.hpp). */
  datatype ControllerKind = AIKind | PlayerKind

  /** The fields of a controller the modelled code reads or writes. */
  datatype ControllerState = ControllerState(
    kind: ControllerKind,
    possessedActor: ActorHandle,
    onMap: bool,             // m_map points at the live map
    target: ActorHandle,     // AI: m_targetActorHandle
    kills: int,              // Player: m_kills
    deaths: int,             // Player: m_deaths
    controlMode: ControlMode,
    playerIndex: int,        // Player: the controller index it was added for
    playerNumber: int)

  /** `new AI()` with the map and possessed handle its creator assigns. */
  function NewAI(h: ActorHandle): ControllerState
  {
    ControllerState(AIKind, h, true, INVALID, 0, 0, ActorControl, 0, 0)
  }

  /**
   * `new Player(...)` with the index and number AddPlayer assigns. The source
   * leaves the map pointer unset until SpawnPlayer; here it starts unset.
   */
  function NewPlayer(controllerIndex: int, number: int): ControllerState
  {
    ControllerState(PlayerKind, INVALID, false, INVALID, 0, 0, ActorControl, controllerIndex, number)
  }

  /** A weapon of an actor's inventory: its definition and its ammunition state. */
  datatype Armament = Armament(def: WeaponDef, state: WeaponState)

  /**
   * An actor (Code/Game/Actor.hpp). Its height and radius are those of its
   * definition; orientation, velocity and acceleration are not modelled.
   * `equipped` is the inventory position the equipped-weapon pointer names.
   */
  datatype ActorState = ActorState(
    handle: ActorHandle,
    def: ActorDef,
    position: Vec3,
    vitals: Vitals,
    expired: bool,
    didCollide: bool,
    owningActor: ActorHandle,
    control: Control<Cid>,
    weaponIndex: int,
    equipped: Option<nat>,
    weapons: seq<Armament>,
    isStatic: bool)

  /** The world a map's operations read and write. */
  datatype Sim = Sim(
    slots: seq<Option<ActorState>>,
    nextUid: nat,
    ctrls: seq<ControllerState>,
    player: Option<Cid>,      // Game::m_player
    wave: Wave,
    draws: nat)               // how many numbers the dice have produced

  /**
   * What the operations only read: the definition tables, the handle limits
   * (declared in a header that is not part of this model), and the dice: the
   * n-th draw in a range is a function of n and the range.
   */
  datatype Env = Env(
    actorDefs: seq<ActorDef>,
    weaponDefs: seq<WeaponDef>,
    maxActorUid: u32,
    maxActorIndex: u32,
    floatDraw: (nat, real, real) -> real,
    intDraw: (nat, int, int) -> int)

  function Max(a: int, b: int): int
  {
    if a >= b then a else b
  }

  /**
   * How far an operation may change the slot count: it never shrinks the list,
   * and it grows it only up to the index limit.
   */
  predicate Within(env: Env, s: Sim, t: Sim)
  {
    |s.slots| <= |t.slots| <= Max(|s.slots|, env.maxActorIndex as int)
  }

  /**
   * Every actor of `s` is still in its slot in `t`, with the same handle and
   * definition: nothing is deleted and nothing is moved.
   */
  predicate Persists(s: Sim, t: Sim)
  {
    |s.slots| <= |t.slots| &&
    forall j :: 0 <= j < |s.slots| && s.slots[j].Some? ==>
      t.slots[j].Some? && t.slots[j].value.handle == s.slots[j].value.handle && t.slots[j].value.def == s.slots[j].value.def
  }

  /** What each step of a frame guarantees: the slots grow within their limit and keep their actors. */
  predicate Evolves(env: Env, s: Sim, t: Sim)
  {
    Within(env, s, t) && Persists(s, t)
  }

  /** Replacing an actor by one with the same handle and definition is such a step. */
  lemma PutEvolves(env: Env, s: Sim, i: nat, a: ActorState)
    requires i < |s.slots| && s.slots[i].Some?
    requires a.handle == s.slots[i].value.handle && a.def == s.slots[i].value.def
    ensures Evolves(env, s, Put(s, i, a))
  {
  }

  /**
   * `t` differs from `s` at most in the actors' weapons and in the
   * controllers: no actor is added, removed, moved, hurt or re-flagged.
   */
  predicate BodiesKept(s: Sim, t: Sim)
  {
    && |t.slots| == |s.slots|
    && (forall j :: 0 <= j < |s.slots| ==> (t.slots[j].Some? <==> s.slots[j].Some?))
    && (forall j :: 0 <= j < |s.slots| && s.slots[j].Some? ==>
          t.slots[j] == Some(s.slots[j].value.(weapons := t.slots[j].value.weapons)))
  }

  lemma BodiesKeptPersists(env: Env, s: Sim, t: Sim)
    requires BodiesKept(s, t)
    ensures Evolves(env, s, t)
  {
  }

  lemma EvolvesTrans(env: Env, s: Sim, t: Sim, u: Sim)
    requires Evolves(env, s, t) && Evolves(env, t, u)
    ensures Evolves(env, s, u)
  {
  }

  // -------------------------------------------------------------- access

  /** The actor in slot `i`; the source's pointer there would be null otherwise. */
  function Occupant(s: Sim, i: nat): (r: Result<ActorState, Fault>)
    ensures r.Ok? <==> i < |s.slots| && s.slots[i].Some?
    ensures r.Ok? ==> s.slots[i] == Some(r.value)
    ensures r.Err? ==> r.error == NullActor
  {
    if i < |s.slots| && s.slots[i].Some? then Ok(s.slots[i].value) else Err(NullActor)
  }

  /** The actor of an optional slot: None stands for a null pointer that is only compared. */
  function OccupantOpt(s: Sim, i: Option<nat>): (r: Result<Option<ActorState>, Fault>)
    ensures i.None? ==> r == Ok(None)
    ensures i.Some? ==> (r.Ok? <==> Occupant(s, i.value).Ok?)
    ensures i.Some? && r.Ok? ==> r.value == Some(Occupant(s, i.value).value)
  {
    if i.None? then Ok(None)
    else
      var a :- Occupant(s, i.value);
      Ok(Some(a))
  }

  /** Slot `i` holds `a` afterwards; nothing else changes. */
  function Put(s: Sim, i: nat, a: ActorState): (t: Sim)
    requires i < |s.slots|
    ensures |t.slots| == |s.slots|
  {
    s.(slots := s.slots[i := Some(a)])
  }

  /** The controller an optional id names. */
  function Ctrl(s: Sim, c: Option<Cid>): (r: Result<ControllerState, Fault>)
    ensures r.Ok? <==> c.Some? && c.value < |s.ctrls|
    ensures r.Ok? ==> r.value == s.ctrls[c.value]
    ensures r.Err? ==> r.error == NullController
  {
    if c.Some? && c.value < |s.ctrls| then Ok(s.ctrls[c.value]) else Err(NullController)
  }

  /** Controller `c` holds `v` afterwards; nothing else changes. */
  function SetCtrl(s: Sim, c: Cid, v: ControllerState): (t: Sim)
    requires c < |s.ctrls|
  {
    s.(ctrls := s.ctrls[c := v])
  }

  /** The inventory entry the equipped-weapon pointer names. */
  function Equipped(a: ActorState): (r: Result<Armament, Fault>)
    ensures r.Ok? <==> a.equipped.Some? && a.equipped.value < |a.weapons|
    ensures r.Ok? ==> r.value == a.weapons[a.equipped.value]
    ensures r.Err? ==> r.error == NullWeapon
  {
    if a.equipped.Some? && a.equipped.value < |a.weapons| then Ok(a.weapons[a.equipped.value])
    else Err(NullWeapon)
  }

  /** Each stored actor's handle names its own slot. */
  predicate HandlesMatch(slots: seq<Option<ActorState>>)
  {
    forall i :: 0 <= i < |slots| && slots[i].Some? ==> GetIndex(slots[i].value.handle) as int == i
  }

  // -------------------------------------------------------------- lookup

  /**
   * `GetActorByHandle`: the slot the handle names, when it is occupied by an
   * actor with an equal handle. There is no bounds check, so the slot must exist.
   */
  function GetActorByHandle(slots: seq<Option<ActorState>>, h: ActorHandle): (r: Option<nat>)
    requires GetIndex(h) as int < |slots|
    ensures r.Some? <==> slots[GetIndex(h)].Some? && slots[GetIndex(h)].value.handle == h
    ensures r.Some? ==> r.value == GetIndex(h) as int
  {
    var i := GetIndex(h) as int;
    if slots[i].Some? && Equal(h, slots[i].value.handle) then Some(i) else None
  }

  /** GetActorByHandle with the read past the end made a fault. */
  function Resolve(slots: seq<Option<ActorState>>, h: ActorHandle): (r: Result<Option<nat>, Fault>)
    ensures r.Err? <==> GetIndex(h) as int >= |slots|
    ensures r.Err? ==> r.error == IndexOutOfRange
    ensures r.Ok? ==> r.value == GetActorByHandle(slots, h)
  {
    if GetIndex(h) as int < |slots| then Ok(GetActorByHandle(slots, h)) else Err(IndexOutOfRange)
  }

  /** Every stored actor is found again by its own handle. */
  lemma StoredHandleResolves(slots: seq<Option<ActorState>>, i: nat)
    requires HandlesMatch(slots) && i < |slots| && slots[i].Some?
    ensures GetIndex(slots[i].value.handle) as int < |slots|
    ensures GetActorByHandle(slots, slots[i].value.handle) == Some(i)
  {
  }

  /**
   * A handle whose slot is empty, or holds an actor with another handle,
   * resolves to nothing: an old handle to a reused slot is rejected.
   */
  lemma StaleHandleResolvesToNull(slots: seq<Option<ActorState>>, h: ActorHandle)
    requires GetIndex(h) as int < |slots|
    requires slots[GetIndex(h)].None? || slots[GetIndex(h)].value.handle != h
    ensures GetActorByHandle(slots, h).None?
  {
  }

  // --------------------------------------------------------------- spawn

  /** Every weapon name of an actor definition has a definition. */
  predicate WeaponsResolve(names: seq<string>, weaponDefs: seq<WeaponDef>)
  {
    forall k :: 0 <= k < |names| ==> LookupSucceeds(WeaponDefNames(weaponDefs), names[k])
  }

  /** The weapon definitions the Actor constructor picks: the last match of each name. */
  function ResolvedWeapons(names: seq<string>, weaponDefs: seq<WeaponDef>): (r: seq<WeaponDef>)
    requires WeaponsResolve(names, weaponDefs)
    ensures |r| == |names|
    ensures forall k :: 0 <= k < |names| ==> r[k].name == names[k]
  {
    seq(|names|, k requires 0 <= k < |names| =>
      weaponDefs[LastMatch(WeaponDefNames(weaponDefs), names[k]).value])
  }

  /** The error SpawnActor stops with, if any. */
  function SpawnCheck(env: Env, uid: nat, free: nat, name: string): (e: Option<SpawnError>)
    ensures e == Some(UidsExhausted) <==> uid >= env.maxActorUid as int
    ensures e == Some(SlotsExhausted) <==> uid < env.maxActorUid as int && free >= env.maxActorIndex as int
    ensures e.None? ==> uid < env.maxActorUid as int && free < env.maxActorIndex as int
    ensures e.None? ==> LookupSucceeds(ActorDefNames(env.actorDefs), name)
    ensures e.None? ==>
      WeaponsResolve(env.actorDefs[LastMatch(ActorDefNames(env.actorDefs), name).value].weaponNames, env.weaponDefs)
  {
    if uid >= env.maxActorUid as int then Some(UidsExhausted)
    else if free >= env.maxActorIndex as int then Some(SlotsExhausted)
    else if !LookupSucceeds(ActorDefNames(env.actorDefs), name) then Some(UnknownActor)
    else if !WeaponsResolve(env.actorDefs[LastMatch(ActorDefNames(env.actorDefs), name).value].weaponNames, env.weaponDefs)
    then Some(UnknownWeapon)
    else None
  }

  /** The definition SpawnActor uses for a name it accepts: the last one of that name. */
  function SpawnDef(env: Env, name: string): ActorDef
    requires LookupSucceeds(ActorDefNames(env.actorDefs), name)
  {
    env.actorDefs[LastMatch(ActorDefNames(env.actorDefs), name).value]
  }

  /**
   * `Actor::Actor`: full health, alive, controlled by its new AI `ai`, one
   * weapon per definition in its initial state, the first one equipped. The
   * owner handle is the default one.
   */
  function NewActor(h: ActorHandle, d: ActorDef, wdefs: seq<WeaponDef>, position: Vec3, ai: Cid): (a: ActorState)
    ensures a.handle == h && a.def == d && a.position == position
    ensures a.vitals == Vitals(d.health, false, false) && !a.expired && !a.didCollide
    ensures a.control == Control(Some(ai), Some(ai), true)
    ensures |a.weapons| == |wdefs|
    ensures forall k :: 0 <= k < |wdefs| ==> a.weapons[k] == Armament(wdefs[k], Initial(wdefs[k]))
    ensures a.weaponIndex == 0 && (a.equipped.Some? <==> |wdefs| > 0) && (a.equipped.Some? ==> a.equipped.value == 0)
  {
    ActorState(h, d, position, Vitals(d.health, false, false), false, false, Default(),
               Control(Some(ai), Some(ai), true), 0, if |wdefs| > 0 then Some(0) else None,
               seq(|wdefs|, k requires 0 <= k < |wdefs| => Armament(wdefs[k], Initial(wdefs[k]))), true)
  }

  /**
   * `SpawnActor`: the uid counter is bumped before it is checked; the actor
   * goes into the lowest empty slot, or is appended; its AI joins the
   * controllers; it owns nothing.
   */
  function SpawnActor(env: Env, s: Sim, name: string, position: Vec3): (r: Result<Sim, Fault>)
    ensures var e := SpawnCheck(env, s.nextUid, FirstFree(s.slots), name);
      && (r.Err? <==> e.Some?)
      && (r.Err? ==> r.error == SpawnFailed(e.value))
    ensures r.Ok? ==> Within(env, s, r.value) && Extends(s.slots, r.value.slots) && Evolves(env, s, r.value)
    ensures r.Ok? ==> r.value.nextUid == s.nextUid + 1 && |r.value.ctrls| == |s.ctrls| + 1
  {
    var uid := s.nextUid;
    var free := FirstFree(s.slots);
    var e := SpawnCheck(env, uid, free, name);
    if e.Some? then Err(SpawnFailed(e.value))
    else
      var d := SpawnDef(env, name);
      var h := Make(uid as u32, free as u32);
      var a := NewActor(h, d, ResolvedWeapons(d.weaponNames, env.weaponDefs), position, |s.ctrls|);
      PlaceFirstFree(s.slots, a.(owningActor := INVALID));
      Ok(s.(slots := Place(s.slots, free, a.(owningActor := INVALID)), nextUid := uid + 1,
            ctrls := s.ctrls + [NewAI(h)]))
  }

  /**
   * What an accepted spawn leaves: the new actor, handle `(uid, slot)` and no
   * owner, in the lowest empty slot, controlled by a new AI at the end of the
   * controller list that possesses it; every other slot as it was; the list
   * one longer exactly when no slot was empty.
   */
  lemma SpawnActorPlaces(env: Env, s: Sim, name: string, position: Vec3)
    requires SpawnActor(env, s, name, position).Ok?
    ensures var t := SpawnActor(env, s, name, position).value;
      var free := FirstFree(s.slots);
      var d := SpawnDef(env, name);
      && free < |t.slots| && t.slots[free].Some?
      && var a := t.slots[free].value;
      && a.handle == Make(s.nextUid as u32, free as u32) && a.owningActor == INVALID
      && a == NewActor(a.handle, d, ResolvedWeapons(d.weaponNames, env.weaponDefs), position, |s.ctrls|).(owningActor := INVALID)
      && t.ctrls == s.ctrls + [NewAI(a.handle)]
      && (forall j :: 0 <= j < |s.slots| && j != free ==> t.slots[j] == s.slots[j])
      && (|t.slots| == |s.slots| + 1 <==> forall j :: 0 <= j < |s.slots| ==> s.slots[j].Some?)
      && t.player == s.player && t.wave == s.wave && t.draws == s.draws
  {
    var free := FirstFree(s.slots);
    var d := SpawnDef(env, name);
    var h := Make(s.nextUid as u32, free as u32);
    var a := NewActor(h, d, ResolvedWeapons(d.weaponNames, env.weaponDefs), position, |s.ctrls|).(owningActor := INVALID);
    PlaceFirstFree(s.slots, a);
  }

  /**
   * With at most 65536 slots, a spawned actor's handle names its slot and
   * carries the uid modulo 65536, so spawning keeps every handle pointing at
   * its own slot.
   */
  lemma SpawnKeepsHandles(env: Env, s: Sim, name: string, position: Vec3)
    requires env.maxActorIndex as int <= 0x10000 && HandlesMatch(s.slots)
    requires SpawnActor(env, s, name, position).Ok?
    ensures HandlesMatch(SpawnActor(env, s, name, position).value.slots)
    ensures var free := FirstFree(s.slots);
      var a := SpawnActor(env, s, name, position).value.slots[free].value;
      GetIndex(a.handle) as int == free && GetUid(a.handle) as int == s.nextUid % 0x10000
  {
    SpawnActorPlaces(env, s, name, position);
  }

  /** Two spawns in a row use consecutive uids. */
  lemma SpawnUidsIncrease(env: Env, s: Sim, n1: string, p1: Vec3, n2: string, p2: Vec3)
    requires SpawnActor(env, s, n1, p1).Ok?
    ensures var t := SpawnActor(env, s, n1, p1).value;
      t.nextUid == s.nextUid + 1 && (SpawnActor(env, t, n2, p2).Ok? ==> SpawnActor(env, t, n2, p2).value.nextUid == s.nextUid + 2)
  {
  }

  /** A spawn adds exactly one occupied slot. */
  lemma SpawnOccupiesOne(env: Env, s: Sim, name: string, position: Vec3)
    requires SpawnActor(env, s, name, position).Ok?
    ensures Occupied(SpawnActor(env, s, name, position).value.slots) == Occupied(s.slots) + 1
  {
    SpawnActorPlaces(env, s, name, position);
    var t := SpawnActor(env, s, name, position).value;
    OccupiedPlace(s.slots, t.slots[FirstFree(s.slots)].value);
  }

  // -------------------------------------------------------- kills and sweep

  /**
   * `KillAIActor`: the handle's slot is emptied, without checking that the
   * stored handle is equal. The controller it deletes keeps its place in the
   * list. A slot past the end, or an empty one, is dereferenced by the source.
   */
  function KillAIActor(s: Sim, h: ActorHandle): (r: Result<Sim, Fault>)
    ensures r.Err? <==> GetIndex(h) as int >= |s.slots| || s.slots[GetIndex(h)].None?
    ensures r.Err? ==> r.error == if GetIndex(h) as int >= |s.slots| then IndexOutOfRange else NullActor
  {
    var i := GetIndex(h) as int;
    if i >= |s.slots| then Err(IndexOutOfRange)
    else if s.slots[i].None? then Err(NullActor)
    else Ok(s.(slots := ClearAt(s.slots, i)))
  }

  /** Killing empties exactly the named slot and leaves the list length and every other slot. */
  lemma KillAIActorClearsOne(s: Sim, h: ActorHandle)
    requires KillAIActor(s, h).Ok?
    ensures var t := KillAIActor(s, h).value;
      && |t.slots| == |s.slots| && t.slots[GetIndex(h)].None?
      && (forall j :: 0 <= j < |s.slots| && j != GetIndex(h) as int ==> t.slots[j] == s.slots[j])
      && Occupied(t.slots) == Occupied(s.slots) - 1
      && t == s.(slots := t.slots)
  {
    OccupiedClear(s.slots, GetIndex(h) as int);
  }

  /** `KillPlayer`: the slot the player's handle names is emptied, and the player possesses nothing. */
  function KillPlayer(s: Sim, c: Cid): (r: Result<Sim, Fault>)
  {
    var p :- Ctrl(s, Some(c));
    var i := GetIndex(p.possessedActor) as int;
    if i >= |s.slots| then Err(IndexOutOfRange)
    else if s.slots[i].None? then Err(NullActor)
    else Ok(SetCtrl(s.(slots := ClearAt(s.slots, i)), c, p.(possessedActor := INVALID)))
  }

  /**
   * KillPlayer fails exactly as KillAIActor does on the player's handle, and
   * otherwise empties the same one slot and clears the player's handle.
   */
  lemma KillPlayerClearsOne(s: Sim, c: Cid)
    requires c < |s.ctrls|
    ensures var h := s.ctrls[c].possessedActor;
      && (KillPlayer(s, c).Err? <==> KillAIActor(s, h).Err?)
      && (KillPlayer(s, c).Ok? ==>
            KillPlayer(s, c).value == KillAIActor(s, h).value.(ctrls := s.ctrls[c := s.ctrls[c].(possessedActor := INVALID)]))
  {
  }

  /** The slots the end-of-frame sweep empties: the occupied ones whose actor has expired. */
  function ExpiredMarks(slots: seq<Option<ActorState>>): (m: seq<bool>)
    ensures |m| == |slots|
    ensures forall i :: 0 <= i < |slots| ==> (m[i] <==> slots[i].Some? && slots[i].value.expired)
  {
    seq(|slots|, i requires 0 <= i < |slots| => slots[i].Some? && slots[i].value.expired)
  }

  /** `DeleteDestroyedActors`. */
  function DeleteDestroyedActors(s: Sim): (t: Sim)
    ensures t == s.(slots := t.slots) && |t.slots| == |s.slots|
    ensures forall i :: 0 <= i < |s.slots| ==>
      t.slots[i] == if s.slots[i].Some? && s.slots[i].value.expired then None else s.slots[i]
  {
    s.(slots := ClearMarked(s.slots, ExpiredMarks(s.slots)))
  }

  /** After the sweep no expired actor is left, and a second sweep changes nothing. */
  lemma SweepLeavesNoExpired(s: Sim)
    ensures var t := DeleteDestroyedActors(s);
      && (forall i :: 0 <= i < |t.slots| && t.slots[i].Some? ==> !t.slots[i].value.expired)
      && DeleteDestroyedActors(t) == t
  {
    var t := DeleteDestroyedActors(s);
    assert DeleteDestroyedActors(t).slots == t.slots;
  }

  /** `Map::OnDemonKilled`: one enemy fewer, and a kill for the followed player if there is one. */
  function OnDemonKilled(s: Sim): (r: Result<Sim, Fault>)
    ensures r.Ok? ==> r.value.slots == s.slots && r.value.wave == AfterDemonKilled(s.wave)
    ensures r.Ok? ==> |r.value.ctrls| == |s.ctrls|
    ensures r.Ok? ==> forall c :: 0 <= c < |s.ctrls| ==>
      r.value.ctrls[c] == if Some(c) == s.player then s.ctrls[c].(kills := s.ctrls[c].kills + 1) else s.ctrls[c]
    ensures r.Err? <==> s.player.Some? && s.player.value >= |s.ctrls|
  {
    var s1 := s.(wave := AfterDemonKilled(s.wave));
    if s.player.None? then Ok(s1)
    else
      var p :- Ctrl(s1, s.player);
      Ok(SetCtrl(s1, s.player.value, p.(kills := p.kills + 1)))
  }
}
