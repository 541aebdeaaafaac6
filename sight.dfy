// The map queries that only read the actor slots (Code/Game/Map.cpp):
// casting a ray against the actors, combining it with the world casts, and
// the choice of the closest visible enemy. The geometry (ray against cylinder,
// ray against walls and floor, vision cone, vector length) is the
// uninterpreted `Geometry`; what is modelled is which actors are considered
// and which answer wins.
module Sight {
  import opened Wrappers
  import opened Vectors
  import opened Definitions
  import opened Raycasts
  import opened Arena

  /**
   * The geometric primitives the map code calls. The collision primitives
   * return the pushed centres and whether a push happened.
   */
  datatype Geometry = Geometry(
    worldZ: (Vec3, Vec3, real) -> RaycastResult,      // RaycastWorldZ(start, direction, distance)
    worldXY: (Vec3, Vec3, real) -> RaycastResult,     // RaycastWorldXY(start, direction, distance)
    cylinder: (Vec3, Vec3, real, Vec3, FloatRange, real) -> RaycastResult,  // RaycastVsCylinderZ3D
    normalize: Vec3 -> Vec3,
    length: Vec3 -> real,
    inVisionCone: (ActorState, Vec3) -> bool,         // IsPointInsideVisionCone from the searcher's eye
    overlaps: (FloatRange, FloatRange) -> bool,       // FloatRange::IsOverlappingWith
    onRange: (FloatRange, real) -> bool,              // FloatRange::IsOnRange
    pushOut: (Vec2, real, Vec2, real) -> (Vec2, bool),             // PushDiscOutOfDisc2D: moves the first disc
    pushApart: (Vec2, real, Vec2, real) -> (Vec2, Vec2, bool),     // PushDiscsOutOfEachOther2D: moves both
    inBounds: Vec3 -> bool,                                        // IsPositionInBounds
    wallPush: (Vec3, real) -> (Vec2, bool),           // the eight PushDiscOutOfAABB2D calls against solid neighbours
    ceilingHeight: real)

  /** The impact distance RaycastWorldActors starts from. */
  const NoActorDist: real := 9999999.0

  /** The best distance GetClosestVisibleEnemy starts from. */
  const SightStartDist: real := 9999.0

  /** The result RaycastWorldActors reports when no actor is struck. */
  function ActorMiss(start: Vec3, direction: Vec3, distance: real): RaycastResult
  {
    RaycastResult(false, NoActorDist, Along(start, direction, distance), distance)
  }

  /** The cast against the cylinder of the actor in slot `j`: centred half-way up, as tall as the actor. */
  function CastAt(g: Geometry, slots: seq<Option<ActorState>>, j: nat, start: Vec3, direction: Vec3, distance: real): RaycastResult
    requires j < |slots| && slots[j].Some?
  {
    var a := slots[j].value;
    g.cylinder(start, direction, distance, Raised(a.position, a.def.physicsHeight * 0.5),
               FloatRange(a.position.z, a.position.z + a.def.physicsHeight), a.def.physicsRadius)
  }

  /** Slot `j` is cast against: occupied, and not the actor that fired the ray. */
  predicate Candidate(slots: seq<Option<ActorState>>, j: nat, owner: Option<nat>)
  {
    j < |slots| && slots[j].Some? && (owner.None? || owner.value != j)
  }

  /** Slot `j` is cast against and the ray strikes it. */
  predicate Strikes(g: Geometry, slots: seq<Option<ActorState>>, j: nat, owner: Option<nat>, start: Vec3, direction: Vec3, distance: real)
  {
    Candidate(slots, j, owner) && CastAt(g, slots, j, start, direction, distance).didImpact
  }

  /**
   * `RaycastWorldActors` after its loop has visited the first `n` slots: the
   * result so far and the slot it struck. A struck actor replaces the result
   * only when strictly closer, so the answer is the nearest struck actor and,
   * among equally near ones, the one in the lowest slot.
   */
  function ActorsCast(g: Geometry, slots: seq<Option<ActorState>>, owner: Option<nat>,
                      start: Vec3, direction: Vec3, distance: real, n: nat): (r: (RaycastResult, Option<nat>))
    requires n <= |slots|
    ensures r.1.None? ==> r.0 == ActorMiss(start, direction, distance)
    ensures r.1.None? ==> forall j :: 0 <= j < n && Strikes(g, slots, j, owner, start, direction, distance) ==>
      CastAt(g, slots, j, start, direction, distance).impactDist >= NoActorDist
    ensures r.1.Some? ==> r.1.value < n && Strikes(g, slots, r.1.value, owner, start, direction, distance)
    ensures r.1.Some? ==> r.0 == CastAt(g, slots, r.1.value, start, direction, distance)
    ensures forall j :: 0 <= j < n && Strikes(g, slots, j, owner, start, direction, distance) ==>
      r.0.impactDist <= CastAt(g, slots, j, start, direction, distance).impactDist
    ensures r.1.Some? ==> forall j :: 0 <= j < r.1.value && Strikes(g, slots, j, owner, start, direction, distance) ==>
      r.0.impactDist < CastAt(g, slots, j, start, direction, distance).impactDist
    decreases n
  {
    if n == 0 then (ActorMiss(start, direction, distance), None)
    else
      var prev := ActorsCast(g, slots, owner, start, direction, distance, n - 1);
      var j := n - 1;
      if Candidate(slots, j, owner) then
        var result := CastAt(g, slots, j, start, direction, distance);
        if result.didImpact && result.impactDist < prev.0.impactDist then (result, Some(j)) else prev
      else prev
  }

  /** `RaycastWorldActors`: every slot is visited. */
  function RaycastWorldActors(g: Geometry, slots: seq<Option<ActorState>>, owner: Option<nat>,
                              start: Vec3, direction: Vec3, distance: real): (r: (RaycastResult, Option<nat>))
    ensures r.1.None? ==> r.0 == ActorMiss(start, direction, distance)
    ensures r.1.Some? ==> r.1.value < |slots| && Strikes(g, slots, r.1.value, owner, start, direction, distance)
    ensures r.1.Some? ==> r.0 == CastAt(g, slots, r.1.value, start, direction, distance)
    ensures forall j :: 0 <= j < |slots| && Strikes(g, slots, j, owner, start, direction, distance) ==>
      r.0.impactDist <= CastAt(g, slots, j, start, direction, distance).impactDist
    ensures r.1.Some? ==> forall j :: 0 <= j < r.1.value && Strikes(g, slots, j, owner, start, direction, distance) ==>
      r.0.impactDist < CastAt(g, slots, j, start, direction, distance).impactDist
  {
    ActorsCast(g, slots, owner, start, direction, distance, |slots|)
  }

  /**
   * `RaycastAll`: the world casts and the actor cast combined; `hit` is the
   * caller's in-out pointer, overwritten with the struck actor (possibly
   * none) only when the actor result wins.
   */
  function RaycastAll(g: Geometry, slots: seq<Option<ActorState>>, start: Vec3, direction: Vec3, distance: real,
                      hit: Option<nat>, owner: Option<nat>): (c: Combined<Option<nat>>)
    ensures distance == 0.0 ==> c.hit == hit && !c.result.didImpact
    ensures c.hit != hit && c.hit.Some? ==>
      c.hit.value < |slots| && Strikes(g, slots, c.hit.value, owner, start, direction, distance)
  {
    var actors := RaycastWorldActors(g, slots, owner, start, direction, distance);
    Raycasts.RaycastAll(distance, Along(start, direction, distance), g.worldZ(start, direction, distance),
                        g.worldXY(start, direction, distance), actors.0, actors.1, hit)
  }

  /**
   * An actor RaycastAll reports is one the ray strikes, not the owner, and no
   * other struck actor is nearer; the reported distance is no more than the
   * world casts' either.
   */
  lemma RaycastAllHitIsNearest(g: Geometry, slots: seq<Option<ActorState>>, start: Vec3, direction: Vec3, distance: real,
                               hit: Option<nat>, owner: Option<nat>)
    requires distance != 0.0
    ensures var c := RaycastAll(g, slots, start, direction, distance, hit, owner);
      && (c.hit != hit && c.hit.Some? ==>
            && Strikes(g, slots, c.hit.value, owner, start, direction, distance)
            && c.result == CastAt(g, slots, c.hit.value, start, direction, distance)
            && c.result.impactDist < g.worldZ(start, direction, distance).impactDist
            && c.result.impactDist < g.worldXY(start, direction, distance).impactDist)
      && (forall j :: 0 <= j < |slots| && Strikes(g, slots, j, owner, start, direction, distance) ==>
            c.result.impactDist <= CastAt(g, slots, j, start, direction, distance).impactDist)
  {
    var actors := RaycastWorldActors(g, slots, owner, start, direction, distance);
    RaycastAllTies(distance, Along(start, direction, distance), g.worldZ(start, direction, distance),
                   g.worldXY(start, direction, distance), actors.0, actors.1, hit);
  }

  /** The ray never reports the actor it was fired by. */
  lemma RaycastAllSkipsOwner(g: Geometry, slots: seq<Option<ActorState>>, start: Vec3, direction: Vec3, distance: real,
                             owner: nat)
    ensures RaycastAll(g, slots, start, direction, distance, None, Some(owner)).hit != Some(owner)
  {
  }

  // ------------------------------------------------- closest visible enemy

  /**
   * The filter of GetClosestVisibleEnemy: the other actor is visible and not a
   * pickup, the searcher is AI-enabled, and the other belongs to a different,
   * non-neutral faction.
   */
  predicate Eligible(searcher: ActorDef, other: ActorDef)
  {
    other.visible && searcher.aiEnabled && !other.isPickup &&
    searcher.faction != other.faction && other.faction != Neutral
  }

  /** `GetVisionStartPoint`: the position raised by the eye height. */
  function Eye(a: ActorState): Vec3
  {
    Raised(a.position, a.def.eyeHeight)
  }

  /** Slot `j` is considered from slot `me`: occupied, eligible, and inside the vision cone. */
  predicate Considered(g: Geometry, slots: seq<Option<ActorState>>, me: nat, j: nat)
    requires me < |slots| && slots[me].Some?
  {
    j < |slots| && slots[j].Some? && Eligible(slots[me].value.def, slots[j].value.def) &&
    g.inVisionCone(slots[me].value, slots[j].value.position)
  }

  /** The sight-radius ray from the searcher's eye toward slot `j`, fired with the searcher as owner. */
  function SightRay(g: Geometry, slots: seq<Option<ActorState>>, me: nat, j: nat): Combined<Option<nat>>
    requires me < |slots| && slots[me].Some? && j < |slots| && slots[j].Some?
  {
    var m := slots[me].value;
    var eye := Eye(m);
    RaycastAll(g, slots, eye, g.normalize(Minus(slots[j].value.position, eye)), m.def.sightRadius, None, Some(me))
  }

  /** One loop step's finding: the impact distance of the sight ray and the slot it detected. */
  datatype Sighting = Sighting(dist: real, detected: nat)

  /** What each slot's sight ray reports: a sighting for a considered slot whose ray detects an actor. */
  function Sightings(g: Geometry, slots: seq<Option<ActorState>>, me: nat): (r: seq<Option<Sighting>>)
    requires me < |slots| && slots[me].Some?
    ensures |r| == |slots|
    ensures forall j :: 0 <= j < |slots| ==>
      r[j] == if Considered(g, slots, me, j) && SightRay(g, slots, me, j).hit.Some?
              then Some(Sighting(SightRay(g, slots, me, j).result.impactDist, SightRay(g, slots, me, j).hit.value))
              else None
  {
    seq(|slots|, j requires 0 <= j < |slots| =>
      if Considered(g, slots, me, j) && SightRay(g, slots, me, j).hit.Some?
      then Some(Sighting(SightRay(g, slots, me, j).result.impactDist, SightRay(g, slots, me, j).hit.value))
      else None)
  }

  /** The state of the search: the best distance, the actor detected, and the step that detected it. */
  datatype Search = Search(best: real, found: Option<nat>, via: nat)

  /**
   * GetClosestVisibleEnemy's loop after its first `n` steps. A sighting
   * replaces the answer when its distance is at most the best so far, so of
   * equally near sightings the last one wins.
   */
  function ClosestUpTo(sightings: seq<Option<Sighting>>, n: nat): (r: Search)
    requires n <= |sightings|
    ensures r.found.None? ==> r.best == SightStartDist
    ensures r.found.None? ==> forall j :: 0 <= j < n && sightings[j].Some? ==> SightStartDist < sightings[j].value.dist
    ensures r.found.Some? ==> r.via < n && sightings[r.via].Some?
    ensures r.found.Some? ==> r.found == Some(sightings[r.via].value.detected) && r.best == sightings[r.via].value.dist
    ensures r.found.Some? ==> r.best <= SightStartDist
    ensures r.found.Some? ==> forall j :: 0 <= j < n && sightings[j].Some? ==> r.best <= sightings[j].value.dist
    ensures r.found.Some? ==> forall j :: r.via < j < n && sightings[j].Some? ==> r.best < sightings[j].value.dist
    decreases n
  {
    if n == 0 then Search(SightStartDist, None, 0)
    else
      var prev := ClosestUpTo(sightings, n - 1);
      var s := sightings[n - 1];
      if s.Some? && s.value.dist <= prev.best then Search(s.value.dist, Some(s.value.detected), n - 1) else prev
  }

  /** `GetClosestVisibleEnemy(searcher)`, the searcher being the actor in slot `me`. */
  function ClosestVisibleEnemy(g: Geometry, slots: seq<Option<ActorState>>, me: nat): (r: Option<nat>)
    requires me < |slots| && slots[me].Some?
    ensures r.Some? ==> r.value < |slots| && slots[r.value].Some? && r.value != me
    ensures !slots[me].value.def.aiEnabled ==> r.None?
  {
    ClosestIsNearestSighting(g, slots, me);
    ClosestUpTo(Sightings(g, slots, me), |slots|).found
  }

  /**
   * The answer is an occupied slot other than the searcher's, detected by the
   * sight ray toward a considered slot no farther than 9999; no sighting is
   * nearer, and no later one is as near. Without an answer, every sighting
   * lies beyond 9999.
   */
  lemma ClosestIsNearestSighting(g: Geometry, slots: seq<Option<ActorState>>, me: nat)
    requires me < |slots| && slots[me].Some?
    ensures var r := ClosestUpTo(Sightings(g, slots, me), |slots|);
      && (r.found.Some? ==>
            && r.found.value < |slots| && slots[r.found.value].Some? && r.found.value != me
            && Considered(g, slots, me, r.via)
            && r.found == SightRay(g, slots, me, r.via).hit
            && r.best == SightRay(g, slots, me, r.via).result.impactDist <= SightStartDist
            && (forall j :: 0 <= j < |slots| && Considered(g, slots, me, j) && SightRay(g, slots, me, j).hit.Some? ==>
                  r.best <= SightRay(g, slots, me, j).result.impactDist)
            && (forall j :: r.via < j < |slots| && Considered(g, slots, me, j) && SightRay(g, slots, me, j).hit.Some? ==>
                  r.best < SightRay(g, slots, me, j).result.impactDist))
      && (r.found.None? ==>
            forall j :: 0 <= j < |slots| && Considered(g, slots, me, j) && SightRay(g, slots, me, j).hit.Some? ==>
              SightStartDist < SightRay(g, slots, me, j).result.impactDist)
  {
    var sightings := Sightings(g, slots, me);
    var r := ClosestUpTo(sightings, |slots|);
    if r.found.Some? {
      var m := slots[me].value;
      var eye := Eye(m);
      var j := r.via;
      var dir := g.normalize(Minus(slots[j].value.position, eye));
      var actors := RaycastWorldActors(g, slots, Some(me), eye, dir, m.def.sightRadius);
      RaycastAllTies(m.def.sightRadius, Along(eye, dir, m.def.sightRadius), g.worldZ(eye, dir, m.def.sightRadius),
                     g.worldXY(eye, dir, m.def.sightRadius), actors.0, actors.1, None);
      forall k | 0 <= k < |slots| && Considered(g, slots, me, k) && SightRay(g, slots, me, k).hit.Some?
        ensures r.best <= SightRay(g, slots, me, k).result.impactDist
      {
        assert sightings[k].Some?;
      }
      forall k | r.via < k < |slots| && Considered(g, slots, me, k) && SightRay(g, slots, me, k).hit.Some?
        ensures r.best < SightRay(g, slots, me, k).result.impactDist
      {
        assert sightings[k].Some?;
      }
    } else {
      forall k | 0 <= k < |slots| && Considered(g, slots, me, k) && SightRay(g, slots, me, k).hit.Some?
        ensures SightStartDist < SightRay(g, slots, me, k).result.impactDist
      {
        assert sightings[k].Some?;
      }
    }
  }
}
