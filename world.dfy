// The objects of Code/Game/Map.cpp and Code/Game/Game.cpp that the frame
// edits in place: a Map holding the actor slots and the controllers, and a
// Game holding the player list, the lobby flags and the menu cursor. Every
// method walks its list with the source's loop and is proved to leave the
// state the step functions of Arena, MapTick and Session describe.
module World {
  import opened Wrappers
  import opened Vectors
  import opened ActorHandles
  import opened Definitions
  import opened Slots
  import opened Lifecycle
  import opened FrontEnd
  import opened Arena
  import opened Sight
  import opened Actors
  import opened MapTick
  import opened Session

  /**
   * A method that stops at the first fault agrees with a step function: it
   * reports the same fault, or reports none and leaves the step's result.
   */
  ghost predicate Agrees<T>(fault: Option<Fault>, r: Result<T, Fault>, now: T)
  {
    match r
    case Ok(v) => fault.None? && now == v
    case Err(e) => fault == Some(e)
  }

  // One turn of each frame loop, for the Map methods below.

  lemma UpdateStep(env: Env, g: Geometry, frame: Frame, s: Sim, i: nat)
    requires i < |s.slots|
    ensures s.slots[i].None? ==> UpdateFrom(env, g, frame, s, i) == UpdateFrom(env, g, frame, s, i + 1)
    ensures s.slots[i].Some? ==> var r := ActorUpdate(env, g, frame, s, i);
      UpdateFrom(env, g, frame, s, i) == if r.Err? then Err(r.error) else UpdateFrom(env, g, frame, r.value, i + 1)
  {
  }

  lemma RowStep(env: Env, g: Geometry, s: Sim, i: nat, j: nat)
    requires j < |s.slots|
    ensures !Partner(s, i, j) ==> CollideRow(env, g, s, i, j) == CollideRow(env, g, s, i, j + 1)
    ensures Partner(s, i, j) ==> var r := CollidePair(env, g, s, i, j);
      CollideRow(env, g, s, i, j) == if r.Err? then Err(r.error) else CollideRow(env, g, r.value, i, j + 1)
  {
  }

  lemma CollideStep(env: Env, g: Geometry, s: Sim, i: nat)
    requires i < |s.slots|
    ensures !Collider(s, i) ==> CollideFrom(env, g, s, i) == CollideFrom(env, g, s, i + 1)
    ensures Collider(s, i) ==> var r := CollideRow(env, g, s, i, 0);
      CollideFrom(env, g, s, i) == if r.Err? then Err(r.error) else CollideFrom(env, g, r.value, i + 1)
  {
  }

  lemma RepeatStep(env: Env, g: Geometry, s: Sim, i: nat, j: nat)
    requires j < |s.slots|
    ensures var r := CollideActorWithMap(env, g, s, i);
      RepeatMapCollision(env, g, s, i, j) == if r.Err? then Err(r.error) else RepeatMapCollision(env, g, r.value, i, j + 1)
  {
  }

  lemma MapStep(env: Env, g: Geometry, s: Sim, i: nat)
    requires i < |s.slots|
    ensures s.slots[i].None? ==> MapCollisionsFrom(env, g, s, i) == MapCollisionsFrom(env, g, s, i + 1)
    ensures s.slots[i].Some? ==> var r := RepeatMapCollision(env, g, s, i, 0);
      MapCollisionsFrom(env, g, s, i) == if r.Err? then Err(r.error) else MapCollisionsFrom(env, g, r.value, i + 1)
  {
  }

  /** `Map`: the actor list and everything the frame loops write. */
  class Map {
    const env: Env
    const geometry: Geometry
    var sim: Sim

    constructor(env: Env, geometry: Geometry, sim: Sim)
      ensures this.env == env && this.geometry == geometry && this.sim == sim
    {
      this.env := env;
      this.geometry := geometry;
      this.sim := sim;
    }

    /** The slot loop of SpawnActor: the first null slot, or the list size when there is none. */
    method FreeSlot() returns (index: nat)
      ensures index == FirstFree(sim.slots)
    {
      index := |sim.slots|;
      var i := 0;
      while i < |sim.slots|
        invariant 0 <= i <= |sim.slots|
        invariant forall j :: 0 <= j < i ==> sim.slots[j].Some?
      {
        if sim.slots[i].None? {
          index := i;
          break;
        }
        i := i + 1;
      }
    }

    /** The definition loop of SpawnActor: the last definition with the name. */
    method FindActorDef(name: string) returns (k: Option<nat>)
      ensures k == LastMatch(ActorDefNames(env.actorDefs), name)
    {
      var names := ActorDefNames(env.actorDefs);
      k := None;
      var i := 0;
      while i < |env.actorDefs|
        invariant 0 <= i <= |env.actorDefs|
        invariant k == LastMatch(names[..i], name)
      {
        assert names[..i + 1] == names[..i] + [names[i]];
        LastMatchSnoc(names[..i], names[i], name);
        if env.actorDefs[i].name == name {
          k := Some(i);
        }
        i := i + 1;
      }
      assert names[..i] == names;
    }

    /**
     * `SpawnActor`: the uid check, the slot search, the definition lookup
     * and the placement. An accepted spawn returns the new actor's handle.
     */
    method SpawnActor(name: string, position: Vec3) returns (r: Result<ActorHandle, Fault>)
      modifies this
      ensures var t := Arena.SpawnActor(env, old(sim), name, position);
        && (r.Ok? <==> t.Ok?)
        && (r.Err? ==> t.error == r.error)
        && (r.Ok? ==> sim == t.value && r.value == Make(old(sim).nextUid as u32, FirstFree(old(sim).slots) as u32))
    {
      var uid := sim.nextUid;
      if uid >= env.maxActorUid as int {
        return Err(SpawnFailed(UidsExhausted));
      }
      var index := FreeSlot();
      if index >= env.maxActorIndex as int {
        return Err(SpawnFailed(SlotsExhausted));
      }
      var h := Make(uid as u32, index as u32);
      var k := FindActorDef(name);
      if k.None? || env.actorDefs[k.value].name == Undefined {
        return Err(SpawnFailed(UnknownActor));
      }
      var d := env.actorDefs[k.value];
      if !WeaponsResolve(d.weaponNames, env.weaponDefs) {
        return Err(SpawnFailed(UnknownWeapon));
      }
      var a := NewActor(h, d, ResolvedWeapons(d.weaponNames, env.weaponDefs), position, |sim.ctrls|);
      var slots := if index == |sim.slots| then sim.slots + [Some(a.(owningActor := INVALID))]
                   else sim.slots[index := Some(a.(owningActor := INVALID))];
      sim := sim.(slots := slots, nextUid := uid + 1, ctrls := sim.ctrls + [NewAI(h)]);
      return Ok(h);
    }

    /** `KillAIActor(handle)`. */
    method KillAIActor(h: ActorHandle) returns (fault: Option<Fault>)
      modifies this
      ensures Agrees(fault, Arena.KillAIActor(old(sim), h), sim)
    {
      var i := GetIndex(h) as int;
      if i >= |sim.slots| {
        return Some(IndexOutOfRange);
      }
      if sim.slots[i].None? {
        return Some(NullActor);
      }
      sim := sim.(slots := sim.slots[i := None]);
      return None;
    }

    /** `KillPlayer(player c)`. */
    method KillPlayer(c: Cid) returns (fault: Option<Fault>)
      modifies this
      ensures Agrees(fault, Arena.KillPlayer(old(sim), c), sim)
    {
      if c >= |sim.ctrls| {
        return Some(NullController);
      }
      var i := GetIndex(sim.ctrls[c].possessedActor) as int;
      if i >= |sim.slots| {
        return Some(IndexOutOfRange);
      }
      if sim.slots[i].None? {
        return Some(NullActor);
      }
      sim := sim.(slots := sim.slots[i := None]);
      sim := sim.(ctrls := sim.ctrls[c := sim.ctrls[c].(possessedActor := INVALID)]);
      return None;
    }

    /** `DeleteDestroyedActors`: nulls every occupied slot whose actor has expired. */
    method DeleteDestroyedActors()
      modifies this
      ensures sim == Arena.DeleteDestroyedActors(old(sim))
    {
      var i := 0;
      while i < |sim.slots|
        invariant 0 <= i <= |sim.slots| == |old(sim).slots|
        invariant sim == old(sim).(slots := sim.slots)
        invariant forall j :: 0 <= j < i ==>
          sim.slots[j] == if old(sim).slots[j].Some? && old(sim).slots[j].value.expired then None else old(sim).slots[j]
        invariant forall j :: i <= j < |sim.slots| ==> sim.slots[j] == old(sim).slots[j]
      {
        if sim.slots[i].Some? && sim.slots[i].value.expired {
          sim := sim.(slots := sim.slots[i := None]);
        }
        i := i + 1;
      }
      assert sim.slots == Arena.DeleteDestroyedActors(old(sim)).slots;
    }

    /** The first loop of `UpdateActors`: `Actor::Update` on every occupied slot, in slot order. */
    method UpdateEach(frame: Frame) returns (fault: Option<Fault>)
      modifies this
      ensures Agrees(fault, UpdateFrom(env, geometry, frame, old(sim), 0), sim)
    {
      var i := 0;
      while i < |sim.slots|
        invariant UpdateFrom(env, geometry, frame, sim, i) == UpdateFrom(env, geometry, frame, old(sim), 0)
        decreases Max(|sim.slots|, env.maxActorIndex as int) - i
      {
        UpdateStep(env, geometry, frame, sim, i);
        if sim.slots[i].Some? {
          var r := ActorUpdate(env, geometry, frame, sim, i);
          if r.Err? {
            return Some(r.error);
          }
          sim := r.value;
        }
        i := i + 1;
      }
      return None;
    }

    /** The inner loop of `CollideActors()`: actor `i` against every other colliding actor. */
    method CollideRowOf(i: nat) returns (fault: Option<Fault>)
      modifies this
      ensures Agrees(fault, CollideRow(env, geometry, old(sim), i, 0), sim)
    {
      var j := 0;
      while j < |sim.slots|
        invariant CollideRow(env, geometry, sim, i, j) == CollideRow(env, geometry, old(sim), i, 0)
        decreases Max(|sim.slots|, env.maxActorIndex as int) - j
      {
        RowStep(env, geometry, sim, i, j);
        if Partner(sim, i, j) {
          var r := CollidePair(env, geometry, sim, i, j);
          if r.Err? {
            return Some(r.error);
          }
          sim := r.value;
        }
        j := j + 1;
      }
      return None;
    }

    /** `CollideActors()`: each colliding actor against every other colliding actor. */
    method CollideActors() returns (fault: Option<Fault>)
      modifies this
      ensures Agrees(fault, CollideFrom(env, geometry, old(sim), 0), sim)
    {
      var i := 0;
      while i < |sim.slots|
        invariant CollideFrom(env, geometry, sim, i) == CollideFrom(env, geometry, old(sim), 0)
        decreases Max(|sim.slots|, env.maxActorIndex as int) - i
      {
        CollideStep(env, geometry, sim, i);
        if Collider(sim, i) {
          fault := CollideRowOf(i);
          if fault.Some? {
            return;
          }
        }
        i := i + 1;
      }
      return None;
    }

    /** The inner loop of `CollideActorsWithMap()`: actor `i` collided with the map once per slot. */
    method CollideWithMapRepeatedly(i: nat) returns (fault: Option<Fault>)
      modifies this
      ensures Agrees(fault, RepeatMapCollision(env, geometry, old(sim), i, 0), sim)
    {
      var j := 0;
      while j < |sim.slots|
        invariant RepeatMapCollision(env, geometry, sim, i, j) == RepeatMapCollision(env, geometry, old(sim), i, 0)
        decreases Max(|sim.slots|, env.maxActorIndex as int) - j
      {
        RepeatStep(env, geometry, sim, i, j);
        var r := CollideActorWithMap(env, geometry, sim, i);
        if r.Err? {
          return Some(r.error);
        }
        sim := r.value;
        j := j + 1;
      }
      return None;
    }

    /** `CollideActorsWithMap()`: every actor collided with the map once per slot of the list. */
    method CollideActorsWithMap() returns (fault: Option<Fault>)
      modifies this
      ensures Agrees(fault, MapCollisionsFrom(env, geometry, old(sim), 0), sim)
    {
      var i := 0;
      while i < |sim.slots|
        invariant MapCollisionsFrom(env, geometry, sim, i) == MapCollisionsFrom(env, geometry, old(sim), 0)
        decreases Max(|sim.slots|, env.maxActorIndex as int) - i
      {
        MapStep(env, geometry, sim, i);
        if sim.slots[i].Some? {
          fault := CollideWithMapRepeatedly(i);
          if fault.Some? {
            return;
          }
        }
        i := i + 1;
      }
      return None;
    }

    /** `UpdateActors()`: the update loop, then the two collision passes. */
    method UpdateActors(frame: Frame) returns (fault: Option<Fault>)
      modifies this
      ensures Agrees(fault, MapTick.UpdateActors(env, geometry, frame, old(sim)), sim)
    {
      fault := UpdateEach(frame);
      if fault.Some? {
        return;
      }
      fault := CollideActors();
      if fault.Some? {
        return;
      }
      fault := CollideActorsWithMap();
    }

    /** `Map::Update()`: the actors' frame, then the sweep. */
    method Update(frame: Frame) returns (fault: Option<Fault>)
      modifies this
      ensures Agrees(fault, MapUpdate(env, geometry, frame, old(sim)), sim)
    {
      fault := UpdateActors(frame);
      if fault.Some? {
        return;
      }
      DeleteDestroyedActors();
    }

    /**
     * `DebugPossessNext()`: the slots after the player's own, wrapping
     * around, until one holds a possessable actor.
     */
    method DebugPossessNext() returns (fault: Option<Fault>)
      modifies this
      ensures Agrees(fault, MapTick.DebugPossessNext(old(sim)), sim)
    {
      if |sim.slots| == 0 {
        return None;
      }
      var p := Ctrl(sim, sim.player);
      if p.Err? {
        return Some(p.error);
      }
      var base := GetIndex(p.value.possessedActor) as nat;
      var i := 1;
      while i <= |sim.slots|
        invariant 1 <= i <= |sim.slots| + 1
        invariant sim == old(sim)
        invariant NextPossessable(sim.slots, base, i) == NextPossessable(sim.slots, base, 1)
      {
        var index := (base + i) % |sim.slots|;
        if Possessable(sim.slots[index]) {
          assert Offset(sim.slots, base, i) == sim.slots[index];
          var r := Possess(sim, sim.player.value, sim.slots[index].value.handle);
          if r.Err? {
            return Some(r.error);
          }
          sim := r.value;
          return None;
        }
        i := i + 1;
      }
      return None;
    }

    /** `SpawnPlayer(player c, location)`: spawns a marine for the player and hands it over. */
    method SpawnPlayer(c: Cid, location: Vec3) returns (fault: Option<Fault>)
      modifies this
      ensures Agrees(fault, MapTick.SpawnPlayer(env, old(sim), c, location), sim)
    {
      var i := FreeSlot();
      var r := SpawnActor(MarineName, location);
      if r.Err? {
        return Some(r.error);
      }
      SpawnActorPlaces(env, old(sim), MarineName, location);
      if c >= |sim.ctrls| {
        return Some(NullController);
      }
      var a := sim.slots[i].value;
      var n := |sim.ctrls|;
      sim := sim.(ctrls := sim.ctrls[c := sim.ctrls[c].(possessedActor := r.value, onMap := true)]);
      sim := sim.(slots := sim.slots[i := Some(a.(control := Control(Some(c), Some(n), false)))]);
      sim := sim.(ctrls := sim.ctrls + [NewAI(r.value)]);
      return None;
    }

    // ------------------------------------------------------- the waves

    /**
     * The spawn block of `UpdateSurvivalMode()`: a spawn while budget and
     * room remain, the wave cleared once both budget and enemies are gone.
     * `timerStarted` says whether OnWaveClear started the wave timer.
     */
    method SurvivalSpawn(enemyDefs: seq<ActorDef>, spawnPoints: seq<Vec3>) returns (fault: Option<Fault>, timerStarted: bool)
      modifies this
      ensures Agrees(fault, Session.SurvivalSpawn(env, old(sim), enemyDefs, spawnPoints), WaveStep(sim, timerStarted))
    {
      var w := sim.wave;
      if w.budget > 0 && w.enemies < MaxEnemiesOnMap {
        var rolled := RolledEnemy(env, sim, enemyDefs);
        if rolled < 0 || rolled >= |enemyDefs| {
          return Some(IndexOutOfRange), false;
        }
        var idx := if enemyDefs[rolled].spawnCost > w.budget then 0 else rolled;
        var spot := RolledSpot(env, sim, spawnPoints);
        if spot < 0 || spot >= |spawnPoints| {
          return Some(IndexOutOfRange), false;
        }
        sim := sim.(draws := sim.draws + 2);
        var r := SpawnActor(enemyDefs[idx].name, spawnPoints[spot]);
        if r.Err? {
          return Some(r.error), false;
        }
        var p := Ctrl(sim, sim.player);
        if p.Err? {
          return Some(p.error), false;
        }
        var ai := |sim.ctrls| - 1;
        sim := sim.(ctrls := sim.ctrls[ai := sim.ctrls[ai].(target := p.value.possessedActor)]);
        sim := sim.(wave := AfterSpawn(w, enemyDefs[idx].spawnCost));
        return None, false;
      } else if w.budget <= 0 && w.enemies <= 0 {
        OnWaveClear();
        return None, true;
      }
      return None, false;
    }

    /** `OnWaveClear()`: the next wave, its budget scaled by 1.5 and truncated, no enemies. */
    method OnWaveClear()
      modifies this
      ensures sim == old(sim).(wave := AfterWaveClear(old(sim).wave))
    {
      sim := sim.(wave := Wave(sim.wave.number + 1, ScaledBudget(sim.wave.number + 1), 0));
    }

    /** The wave half of `ShutdownSurvivalMode()`: wave 1, budget 1, no enemies. */
    method ResetWave()
      modifies this
      ensures sim == old(sim).(wave := WaveStart)
    {
      sim := sim.(wave := Wave(1, 1, 0));
    }

    // ------------------------------------------------ the Player counters

    /** `Player::CycleControlMode` on controller `c`. */
    method CycleControlMode(c: Cid)
      requires c < |sim.ctrls|
      modifies this
      ensures sim == old(sim).(ctrls := old(sim).ctrls[c := old(sim).ctrls[c].(controlMode := NextControlMode(old(sim).ctrls[c].controlMode))])
    {
      sim := sim.(ctrls := sim.ctrls[c := sim.ctrls[c].(controlMode := NextControlMode(sim.ctrls[c].controlMode))]);
    }

    /** `Player::AddKillCount`: one more kill, nothing else. */
    method AddKillCount(c: Cid)
      requires c < |sim.ctrls|
      modifies this
      ensures sim == old(sim).(ctrls := old(sim).ctrls[c := old(sim).ctrls[c].(kills := old(sim).ctrls[c].kills + 1)])
    {
      sim := sim.(ctrls := sim.ctrls[c := sim.ctrls[c].(kills := sim.ctrls[c].kills + 1)]);
    }

    /** `Player::AddDeathCount`: one more death, nothing else. */
    method AddDeathCount(c: Cid)
      requires c < |sim.ctrls|
      modifies this
      ensures sim == old(sim).(ctrls := old(sim).ctrls[c := old(sim).ctrls[c].(deaths := old(sim).ctrls[c].deaths + 1)])
    {
      sim := sim.(ctrls := sim.ctrls[c := sim.ctrls[c].(deaths := sim.ctrls[c].deaths + 1)]);
    }

    /** `Player::ResetKillCount`. */
    method ResetKillCount(c: Cid)
      requires c < |sim.ctrls|
      modifies this
      ensures sim == old(sim).(ctrls := old(sim).ctrls[c := old(sim).ctrls[c].(kills := 0)])
    {
      sim := sim.(ctrls := sim.ctrls[c := sim.ctrls[c].(kills := 0)]);
    }

    /** `Player::ResetDeathCount`. */
    method ResetDeathCount(c: Cid)
      requires c < |sim.ctrls|
      modifies this
      ensures sim == old(sim).(ctrls := old(sim).ctrls[c := old(sim).ctrls[c].(deaths := 0)])
    {
      sim := sim.(ctrls := sim.ctrls[c := sim.ctrls[c].(deaths := 0)]);
    }
  }

  // ------------------------------------------------------------ the game

  /** The lobby's requests, in order, applied to the player list. */
  function AfterEffects(list: Roster, effects: seq<LobbyEffect>): (r: Result<Roster, Fault>)
    decreases |effects|
  {
    if |effects| == 0 then Ok(list)
    else
      var l1 :- Effect(list, effects[0]);
      AfterEffects(l1, effects[1..])
  }

  /**
   * One lobby request applied to the player list: a join adds, a leave
   * removes, and a mode switch deletes every player when the mode closed or
   * the mode opened does so (SwitchResets), else leaves the list.
   */
  function Effect(list: Roster, e: LobbyEffect): (r: Result<Roster, Fault>)
    ensures e.Switch? && SwitchResets(e.from, e.to) ==> r == Ok(ClearRoster(list))
    ensures e.Switch? && !SwitchResets(e.from, e.to) ==> r == Ok(list)
    ensures e.Join? ==> r == Ok(Session.AddPlayer(list, e.controllerIndex, e.counterAtCall))
    ensures e.Leave? ==> r == RemovePlayer(list, e.controllerIndex, e.counterAtCall)
  {
    match e
    case Join(ci, n) => Ok(Session.AddPlayer(list, ci, n))
    case Leave(ci, n) => RemovePlayer(list, ci, n)
    case Switch(from, to) => Ok(if SwitchResets(from, to) then ClearRoster(list) else list)
  }

  /** The modes the lobby's requests open, in order. */
  function Opened(effects: seq<LobbyEffect>): (r: seq<GameState>)
    ensures |r| <= |effects|
    ensures forall m :: m in r <==> exists e :: e in effects && e.Switch? && e.to == m
  {
    if |effects| == 0 then []
    else (if effects[0].Switch? then [effects[0].to] else []) + Opened(effects[1..])
  }

  /** Requests applied one batch after another; a fault stops the rest. */
  lemma {:induction false} AfterEffectsAppend(list: Roster, e1: seq<LobbyEffect>, e2: seq<LobbyEffect>)
    ensures AfterEffects(list, e1 + e2) ==
      match AfterEffects(list, e1)
      case Ok(l) => AfterEffects(l, e2)
      case Err(e) => Err(e)
    decreases |e1|
  {
    if |e1| == 0 {
      assert e1 + e2 == e2;
    } else {
      assert (e1 + e2)[0] == e1[0];
      assert (e1 + e2)[1..] == e1[1..] + e2;
      var l1 := Effect(list, e1[0]);
      if l1.Ok? {
        AfterEffectsAppend(l1.value, e1[1..], e2);
      }
    }
  }

  /** The modes of two batches of requests, one after the other. */
  lemma {:induction false} OpenedAppend(e1: seq<LobbyEffect>, e2: seq<LobbyEffect>)
    ensures Opened(e1 + e2) == Opened(e1) + Opened(e2)
    decreases |e1|
  {
    if |e1| == 0 {
      assert e1 + e2 == e2;
    } else {
      assert (e1 + e2)[0] == e1[0];
      assert (e1 + e2)[1..] == e1[1..] + e2;
      OpenedAppend(e1[1..], e2);
    }
  }

  /** The join half of `HandleInputLobby()`: SPACE for the keyboard, then START for the game pad. */
  function JoinPhase(f: Front, i: LobbyInput): (Front, seq<LobbyEffect>)
  {
    var r1 := if i.space then JoinKey(f, true) else (f, []);
    var r2 := if i.start then JoinKey(r1.0, false) else (r1.0, []);
    (r2.0, r1.1 + r2.1)
  }

  /** The leave half: ESC for the keyboard, then BACK for the game pad. */
  function LeavePhase(f: Front, i: LobbyInput): (Front, seq<LobbyEffect>)
  {
    var r3 := if i.escape then LeaveKey(f, true) else (f, []);
    var r4 := if i.back then LeaveKey(r3.0, false) else (r3.0, []);
    (r4.0, r3.1 + r4.1)
  }

  /** The lobby step is the join half followed by the leave half. */
  lemma LobbyStepPhases(f: Front, i: LobbyInput)
    ensures var j := JoinPhase(f, i);
      var k := LeavePhase(j.0, i);
      LobbyStep(f, i) == (k.0, j.1 + k.1)
  {
    var j := JoinPhase(f, i);
    var k := LeavePhase(j.0, i);
    var r1 := if i.space then JoinKey(f, true) else (f, []);
    var r2 := if i.start then JoinKey(r1.0, false) else (r1.0, []);
    var r3 := if i.escape then LeaveKey(r2.0, true) else (r2.0, []);
    assert r1.1 + r2.1 + r3.1 + k.1[|r3.1|..] == j.1 + k.1;
  }

  /**
   * SPACE and START in one frame with both devices joined: the second switch
   * closes the versus match the first one opened, so every player is deleted.
   */
  lemma SpaceAndStartEmptyRoster(f: LobbyFlags, list: Roster)
    requires f.keyboardActive && f.controllerActive
    ensures AfterEffects(list, LobbyStep(Front(f, Lobby), LobbyInput(true, true, false, false)).1) ==
      Ok(ClearRoster(list))
  {
    SpaceAndStartTogether(f);
    var e := [Switch(Lobby, Multiplayer), Switch(Multiplayer, Multiplayer)];
    assert e[1..][1..] == [];
    assert AfterEffects(list, e[1..]) == Ok(ClearRoster(list));
  }

  /** `Game`: the player list and the front-end state that the lobby and the menu edit. */
  class Game {
    var players: Roster
    var lobby: LobbyFlags
    var mode: GameState
    var menuIndex: int

    /**
     * The initialisers of Code/Game/Game.hpp: no players, nobody joined,
     * attract mode, the cursor on survival.
     */
    constructor()
      ensures players == [] && lobby == LobbyReset && mode == Attract && menuIndex == 0
      ensures LobbyInvariant(lobby)
    {
      players := [];
      lobby := LobbyReset;
      mode := Attract;
      menuIndex := 0;
    }

    /** `AddPlayer(controllerIndex)`: the first null slot gets the new player; otherwise it is appended. */
    method AddPlayer(controllerIndex: int)
      modifies this
      ensures players == Session.AddPlayer(old(players), controllerIndex, lobby.nextPlayerIndex)
      ensures lobby == old(lobby) && mode == old(mode) && menuIndex == old(menuIndex)
    {
      var p := NewPlayer(controllerIndex, PlayerNumberFor(lobby.nextPlayerIndex));
      ghost var k := FirstFree(players);
      var added := false;
      var j := 0;
      while j < |players|
        invariant 0 <= j <= |players| == |old(players)|
        invariant added <==> k < j
        invariant players == if added then old(players)[k := Some(p)] else old(players)
        invariant lobby == old(lobby) && mode == old(mode) && menuIndex == old(menuIndex)
      {
        if players[j].None? && !added {
          players := players[j := Some(p)];
          added := true;
        }
        j := j + 1;
      }
      if !added {
        players := players + [Some(p)];
      }
    }

    /** `RemovePlayer(controllerIndex)`: every matching slot, with the two-player renumbering. */
    method RemovePlayer(controllerIndex: int) returns (fault: Option<Fault>)
      modifies this
      ensures Agrees(fault, Session.RemovePlayer(old(players), controllerIndex, lobby.nextPlayerIndex), players)
      ensures lobby == old(lobby) && mode == old(mode) && menuIndex == old(menuIndex)
    {
      var n := lobby.nextPlayerIndex;
      var j := 0;
      while j < |players|
        invariant 0 <= j <= |players|
        invariant RemoveFrom(players, controllerIndex, n, j) == RemoveFrom(old(players), controllerIndex, n, 0)
        invariant lobby == old(lobby) && mode == old(mode) && menuIndex == old(menuIndex)
        decreases |players| - j
      {
        if players[j].Some? && players[j].value.playerIndex == controllerIndex {
          if n == 1 {
            if j == 0 {
              if |players| < 2 {
                return Some(IndexOutOfRange);
              }
              if players[1].None? {
                return Some(NullController);
              }
              players := players[0 := Some(players[1].value.(playerNumber := 1))][1 := None];
            } else {
              players := players[j := None];
              if players[0].None? {
                return Some(NullController);
              }
              players := players[0 := Some(players[0].value.(playerNumber := 1))];
            }
          } else {
            players := players[j := None];
          }
        }
        j := j + 1;
      }
      return None;
    }

    /**
     * `OnCloseGameMode()` and then `OnOpenGameMode(to)`, as far as the player
     * list, the join flags and the mode go.
     */
    method SwitchTo(to: GameState)
      modifies this
      ensures Front(lobby, mode) == SwitchMode(Front(old(lobby), old(mode)), to)
      ensures Ok(players) == Effect(old(players), Switch(old(mode), to))
      ensures menuIndex == old(menuIndex)
    {
      if SwitchResets(mode, to) {
        ShutdownPlayers();
      }
      mode := to;
    }

    /** SPACE or START in the lobby. */
    method JoinKey(keyboard: bool) returns (modes: seq<GameState>)
      modifies this
      ensures var (s, effects) := FrontEnd.JoinKey(Front(old(lobby), old(mode)), keyboard);
        && Front(lobby, mode) == s && menuIndex == old(menuIndex)
        && Ok(players) == AfterEffects(old(players), effects) && modes == Opened(effects)
    {
      var active := if keyboard then lobby.keyboardActive else lobby.controllerActive;
      if lobby.keyboardActive && lobby.controllerActive {
        SwitchTo(Multiplayer);
        modes := [Multiplayer];
      } else if !active {
        AddPlayer(if keyboard then KeyboardPlayer else GamepadPlayer);
        lobby := lobby.(nextPlayerIndex := lobby.nextPlayerIndex + 1);
        lobby := if keyboard then lobby.(keyboardActive := true) else lobby.(controllerActive := true);
        modes := [];
      } else {
        modes := [];
      }
    }

    /** ESC or BACK in the lobby. */
    method LeaveKey(keyboard: bool) returns (fault: Option<Fault>, modes: seq<GameState>)
      modifies this
      ensures var (s, effects) := FrontEnd.LeaveKey(Front(old(lobby), old(mode)), keyboard);
        && Agrees(fault, AfterEffects(old(players), effects), players)
        && (fault.None? ==> Front(lobby, mode) == s && menuIndex == old(menuIndex) && modes == Opened(effects))
    {
      var active := if keyboard then lobby.keyboardActive else lobby.controllerActive;
      if !active {
        SwitchTo(Menu);
        return None, [Menu];
      }
      fault := RemovePlayer(if keyboard then KeyboardPlayer else GamepadPlayer);
      if fault.Some? {
        return fault, [];
      }
      lobby := lobby.(nextPlayerIndex := lobby.nextPlayerIndex - 1);
      lobby := if keyboard then lobby.(keyboardActive := false) else lobby.(controllerActive := false);
      modes := [];
    }

    /** SPACE, then START. */
    method JoinKeys(input: LobbyInput) returns (modes: seq<GameState>)
      modifies this
      ensures var (s, effects) := JoinPhase(Front(old(lobby), old(mode)), input);
        && Front(lobby, mode) == s && Ok(players) == AfterEffects(old(players), effects) && modes == Opened(effects)
      ensures menuIndex == old(menuIndex)
    {
      ghost var l0 := players;
      ghost var r1 := if input.space then FrontEnd.JoinKey(Front(lobby, mode), true) else (Front(lobby, mode), []);
      ghost var r2 := if input.start then FrontEnd.JoinKey(r1.0, false) else (r1.0, []);
      modes := [];
      if input.space {
        modes := JoinKey(true);
      }
      if input.start {
        var o := JoinKey(false);
        modes := modes + o;
      }
      AfterEffectsAppend(l0, r1.1, r2.1);
      OpenedAppend(r1.1, r2.1);
    }

    /** ESC, then BACK; a fault stops the handler. */
    method LeaveKeys(input: LobbyInput) returns (fault: Option<Fault>, modes: seq<GameState>)
      modifies this
      ensures var (s, effects) := LeavePhase(Front(old(lobby), old(mode)), input);
        && Agrees(fault, AfterEffects(old(players), effects), players)
        && (fault.None? ==> Front(lobby, mode) == s && modes == Opened(effects))
    {
      ghost var l0 := players;
      ghost var r3 := if input.escape then FrontEnd.LeaveKey(Front(lobby, mode), true) else (Front(lobby, mode), []);
      ghost var r4 := if input.back then FrontEnd.LeaveKey(r3.0, false) else (r3.0, []);
      AfterEffectsAppend(l0, r3.1, r4.1);
      OpenedAppend(r3.1, r4.1);
      fault := None;
      modes := [];
      if input.escape {
        fault, modes := LeaveKey(true);
        if fault.Some? {
          return;
        }
      }
      if input.back {
        var o;
        fault, o := LeaveKey(false);
        modes := modes + o;
      }
    }

    /**
     * `HandleInputLobby()`: the four keys in source order, each seeing the
     * flags and the mode the previous ones left; the modes switched to are
     * returned.
     */
    method HandleInputLobby(input: LobbyInput) returns (fault: Option<Fault>, modes: seq<GameState>)
      modifies this
      ensures var (s, effects) := LobbyStep(Front(old(lobby), old(mode)), input);
        && Agrees(fault, AfterEffects(old(players), effects), players)
        && (fault.None? ==> Front(lobby, mode) == s && modes == Opened(effects))
      ensures fault.None? && LobbyInvariant(old(lobby)) ==> LobbyInvariant(lobby)
    {
      ghost var l0 := players;
      ghost var j := JoinPhase(Front(lobby, mode), input);
      ghost var k := LeavePhase(j.0, input);
      LobbyStepPhases(Front(lobby, mode), input);
      var m1 := JoinKeys(input);
      var m2;
      fault, m2 := LeaveKeys(input);
      AfterEffectsAppend(l0, j.1, k.1);
      OpenedAppend(j.1, k.1);
      modes := m1 + m2;
    }

    /** The cursor keys of `HandleMenuInput()`. */
    method HandleMenuInput(i: MenuInput)
      modifies this
      ensures menuIndex == MenuIndexAfter(old(menuIndex), i)
      ensures 0 <= old(menuIndex) <= LastMenuOption ==> 0 <= menuIndex <= LastMenuOption
      ensures players == old(players) && lobby == old(lobby) && mode == old(mode)
    {
      if i.up && menuIndex > 0 && i.upTimerElapsed {
        menuIndex := menuIndex - 1;
      }
      if i.down && i.downTimerElapsed && menuIndex < LastMenuOption {
        menuIndex := menuIndex + 1;
      }
    }

    /**
     * The player half of `ShutdownSurvivalMode()`, `ShutdownGameMode()` and
     * `StartAttractMode()`: every player deleted, then the lobby flags reset.
     */
    method ShutdownPlayers()
      modifies this
      ensures players == ClearRoster(old(players)) && lobby == LobbyReset && LobbyInvariant(lobby)
      ensures mode == old(mode) && menuIndex == old(menuIndex)
    {
      var i := 0;
      while i < |players|
        invariant 0 <= i <= |players| == |old(players)|
        invariant forall j :: 0 <= j < i ==> players[j].None?
        invariant mode == old(mode) && menuIndex == old(menuIndex)
      {
        if players[i].Some? {
          players := players[i := None];
        }
        i := i + 1;
      }
      lobby := LobbyReset;
    }
  }
}
