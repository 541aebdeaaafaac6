// Immutable actor and weapon definitions as loaded from the game's XML files
// (Code/Game/ActorDefinition.hpp, Code/Game/WeaponDefinition.hpp), and the two
// rules that read them: name lookup with the "undefined" sentinel and the
// enemy list of survival mode.
module Definitions {
  import opened Wrappers

  datatype Faction = Good | Evil | Neutral

  /** A closed range of reals, as used for collision damage. */
  datatype FloatRange = FloatRange(min: real, max: real)

  datatype WeaponDef = WeaponDef(
    name: string,
    refireTime: real,
    rayCount: int,
    projectileCount: int,
    meleeCount: int,
    meleeRange: real,
    magSize: int,          // -1 when the definition gives none
    reloadTime: real,
    heatPerShot: real,
    maxHeat: real,
    cooldownTime: real,
    isEnergyBased: bool)

  datatype ActorDef = ActorDef(
    name: string,
    visible: bool,
    dieOnSpawn: bool,
    health: real,
    faction: Faction,
    canBePossessed: bool,
    isPickup: bool,
    spawnCost: int,
    physicsRadius: real,
    physicsHeight: real,
    collidesWithActors: bool,
    collidesWithWorld: bool,
    dieOnCollision: bool,
    damageOnCollide: FloatRange,
    runSpeed: real,
    aiEnabled: bool,
    eyeHeight: real,       // the camera's height above the actor's position
    sightRadius: real,
    sightAngle: real,
    weaponNames: seq<string>)

  /** The name a lookup starts from; finding it at the end means "not found". */
  const Undefined: string := "undefined"

  /** The names of a definition table, in table order. */
  function ActorDefNames(defs: seq<ActorDef>): (names: seq<string>)
    ensures |names| == |defs|
    ensures forall i :: 0 <= i < |defs| ==> names[i] == defs[i].name
  {
    seq(|defs|, i requires 0 <= i < |defs| => defs[i].name)
  }

  function WeaponDefNames(defs: seq<WeaponDef>): (names: seq<string>)
    ensures |names| == |defs|
    ensures forall i :: 0 <= i < |defs| ==> names[i] == defs[i].name
  {
    seq(|defs|, i requires 0 <= i < |defs| => defs[i].name)
  }

  /** The position of the last entry equal to `name`, if any. */
  function LastMatch(names: seq<string>, name: string): (r: Option<nat>)
    ensures r.Some? ==> r.value < |names| && names[r.value] == name
    ensures r.Some? ==> forall j :: r.value < j < |names| ==> names[j] != name
    ensures r.None? <==> forall j :: 0 <= j < |names| ==> names[j] != name
  {
    if |names| == 0 then None
    else if names[|names| - 1] == name then Some(|names| - 1)
    else LastMatch(names[..|names| - 1], name)
  }

  /**
   * The outcome of the lookup loops in SpawnActor and in the Actor
   * constructor: the last definition with the requested name wins, and the
   * lookup fails when there is none or when the requested name is the
   * sentinel itself.
   */
  predicate LookupSucceeds(names: seq<string>, name: string)
  {
    LastMatch(names, name).Some? && name != Undefined
  }

  /** The lookup fails exactly when the name is the sentinel or is absent. */
  lemma LookupFailure(names: seq<string>, name: string)
    ensures !LookupSucceeds(names, name) <==> (name == Undefined || name !in names)
  {
    if name in names {
      var k :| 0 <= k < |names| && names[k] == name;
      assert LastMatch(names, name).Some?;
    }
  }

  /** Extending a table by one entry: a matching entry becomes the last match. */
  lemma LastMatchSnoc(names: seq<string>, x: string, name: string)
    ensures LastMatch(names + [x], name) ==
      (if x == name then Some(|names|) else LastMatch(names, name))
  {
    assert (names + [x])[..|names|] == names;
  }

  /** The EVIL definitions, in table order (survival mode's enemy list). */
  function EvilDefs(defs: seq<ActorDef>): (r: seq<ActorDef>)
    ensures |r| <= |defs|
    ensures forall d :: d in r ==> d in defs && d.faction == Evil
    ensures forall i :: 0 <= i < |defs| && defs[i].faction == Evil ==> defs[i] in r
  {
    if |defs| == 0 then []
    else
      var init := EvilDefs(defs[..|defs| - 1]);
      var last := defs[|defs| - 1];
      if last.faction == Evil then init + [last] else init
  }

  /** The filter distributes over concatenation, so it keeps table order. */
  lemma {:induction false} EvilDefsAppend(a: seq<ActorDef>, b: seq<ActorDef>)
    ensures EvilDefs(a + b) == EvilDefs(a) + EvilDefs(b)
    decreases |b|
  {
    if |b| == 0 {
      assert a + b == a;
    } else {
      var b' := b[..|b| - 1];
      assert (a + b)[..|a + b| - 1] == a + b';
      assert (a + b)[|a + b| - 1] == b[|b| - 1];
      EvilDefsAppend(a, b');
    }
  }

  /** A single definition is kept exactly when it is EVIL. */
  lemma EvilDefsSingle(d: ActorDef)
    ensures EvilDefs([d]) == if d.faction == Evil then [d] else []
  {
    assert [d][..0] == [];
  }
}
