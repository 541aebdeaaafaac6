// How Map::RaycastAll combines the results of its three ray casts
// (Code/Game/Map.cpp:753-787). The casts themselves are geometry and are
// inputs here.
module Raycasts {
  import opened Vectors

  datatype RaycastResult = RaycastResult(didImpact: bool, impactDist: real, impactPos: Vec3, rayMaxLength: real)

  /** The impact distance RaycastAll reports when nothing is cast. */
  const NoImpactDist: real := 10000.0

  /** The result and the hit actor RaycastAll hands back. */
  datatype Combined<A> = Combined(result: RaycastResult, hit: A)

  /**
   * RaycastAll given the ray length, the end point `start + direction * distance`,
   * the floor/ceiling result, the wall result, and the actor result together
   * with the actor it struck. `hit` is the caller's in-out pointer.
   */
  function RaycastAll<A>(distance: real, endPoint: Vec3, worldZ: RaycastResult, worldXY: RaycastResult,
                         actors: RaycastResult, actorHit: A, hit: A): (c: Combined<A>)
    ensures distance == 0.0 ==> c == Combined(RaycastResult(false, NoImpactDist, endPoint, distance), hit)
    ensures distance != 0.0 ==> c.result in {worldZ, worldXY, actors}
    ensures distance != 0.0 ==> c.result.impactDist <= worldZ.impactDist && c.result.impactDist <= worldXY.impactDist
    ensures distance != 0.0 ==> c.result.impactDist <= actors.impactDist
    ensures c.hit == hit || c == Combined(actors, actorHit)
  {
    if distance == 0.0 then Combined(RaycastResult(false, NoImpactDist, endPoint, distance), hit)
    else
      var world := if worldZ.impactDist < worldXY.impactDist then worldZ else worldXY;
      if actors.impactDist < world.impactDist then Combined(actors, actorHit) else Combined(world, hit)
  }

  /**
   * The floor/ceiling result wins over the wall result only when strictly
   * closer, the actor result wins over both only when strictly closer, and
   * the hit actor is written exactly when the actor result wins.
   */
  lemma RaycastAllTies<A>(distance: real, endPoint: Vec3, z: RaycastResult, xy: RaycastResult,
                          actors: RaycastResult, actorHit: A, hit: A)
    requires distance != 0.0
    ensures var c := RaycastAll(distance, endPoint, z, xy, actors, actorHit, hit);
      var worldDist := if z.impactDist < xy.impactDist then z.impactDist else xy.impactDist;
      && (actors.impactDist < worldDist ==> c == Combined(actors, actorHit))
      && (actors.impactDist >= worldDist && z.impactDist < xy.impactDist ==> c == Combined(z, hit))
      && (actors.impactDist >= worldDist && z.impactDist >= xy.impactDist ==> c == Combined(xy, hit))
  {
  }

  /** A ray of length zero strikes nothing and leaves the hit pointer alone. */
  lemma ZeroLengthRayMisses<A>(endPoint: Vec3, z: RaycastResult, xy: RaycastResult,
                               actors: RaycastResult, actorHit: A, hit: A)
    ensures !RaycastAll(0.0, endPoint, z, xy, actors, actorHit, hit).result.didImpact
    ensures RaycastAll(0.0, endPoint, z, xy, actors, actorHit, hit).hit == hit
  {
  }
}
