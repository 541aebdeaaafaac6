// One frame of Code/Game/Map.cpp on the world state: the actor update loop,
// actor-against-actor collision (the pair filter and the choice of which
// disc is pushed), actor-against-map collision, the end-of-frame sweep,
// cycling possession to the next actor, and spawning the player's marine.
// The loops re-read the slot count on every iteration, so an actor spawned
// during the frame (a dropped pickup) is visited by the same loop.
module MapTick {
  import opened Wrappers
  import opened Vectors
  import opened ActorHandles
  import opened Definitions
  import opened Slots
  import opened Lifecycle
  import opened Arena
  import opened Sight
  import opened Actors

  // ------------------------------------------------ actor against actor

  /** What CollideActors takes off the top of an actor's height. */
  const HeightSlack: real := 0.001

  /** The z extent CollideActors compares. */
  function CollisionRange(a: ActorState): (r: FloatRange)
    ensures r.min == a.position.z && r.max == a.position.z + a.def.physicsHeight - HeightSlack
  {
    FloatRange(a.position.z, a.position.z + a.def.physicsHeight - HeightSlack)
  }

  /**
   * The pair filter of `CollideActors(a, b)`: the z extents overlap, neither
   * owns the other and neither is dead.
   */
  predicate Engages(g: Geometry, a: ActorState, b: ActorState)
  {
    && g.overlaps(CollisionRange(a), CollisionRange(b))
    && !Equal(b.owningActor, a.handle)
    && !Equal(a.owningActor, b.handle)
    && !a.vitals.isDead && !b.vitals.isDead
  }

  /** Which side a resolved pair pushes. */
  datatype PushKind = PushSecond | PushFirst | PushBoth

  /** A static first actor pushes a dynamic second one out, and the reverse; any other pair is pushed apart. */
  function PushKindOf(a: ActorState, b: ActorState): (k: PushKind)
    ensures k == PushSecond <==> a.isStatic && !b.isStatic
    ensures k == PushFirst <==> !a.isStatic && b.isStatic
    ensures k == PushBoth <==> a.isStatic == b.isStatic
  {
    if a.isStatic && !b.isStatic then PushSecond
    else if !a.isStatic && b.isStatic then PushFirst
    else PushBoth
  }

  /** The two positions after the push, and whether a push was reported. */
  datatype Push = Push(a: Vec3, b: Vec3, impact: bool)

  /** A centre moved in the plane, keeping its height. */
  function AtXY(xy: Vec2, p: Vec3): (q: Vec3)
    ensures q.z == p.z && Flatten(q) == xy
  {
    Vec3(xy.x, xy.y, p.z)
  }

  /** The push of a resolved pair: the disc primitive for its kind, applied in the plane. */
  function Pushed(g: Geometry, a: ActorState, b: ActorState): (p: Push)
    ensures p.a.z == a.position.z && p.b.z == b.position.z
    ensures PushKindOf(a, b) == PushSecond ==>
      var (xy, hit) := g.pushOut(Flatten(b.position), b.def.physicsRadius, Flatten(a.position), a.def.physicsRadius);
      p == Push(a.position, AtXY(xy, b.position), hit)
    ensures PushKindOf(a, b) == PushFirst ==>
      var (xy, hit) := g.pushOut(Flatten(a.position), a.def.physicsRadius, Flatten(b.position), b.def.physicsRadius);
      p == Push(AtXY(xy, a.position), b.position, hit)
    ensures PushKindOf(a, b) == PushBoth ==>
      var (xa, xb, hit) := g.pushApart(Flatten(a.position), a.def.physicsRadius, Flatten(b.position), b.def.physicsRadius);
      p == Push(AtXY(xa, a.position), AtXY(xb, b.position), hit)
  {
    match PushKindOf(a, b)
    case PushSecond =>
      var (xy, hit) := g.pushOut(Flatten(b.position), b.def.physicsRadius, Flatten(a.position), a.def.physicsRadius);
      Push(a.position, AtXY(xy, b.position), hit)
    case PushFirst =>
      var (xy, hit) := g.pushOut(Flatten(a.position), a.def.physicsRadius, Flatten(b.position), b.def.physicsRadius);
      Push(AtXY(xy, a.position), b.position, hit)
    case PushBoth =>
      var (xa, xb, hit) := g.pushApart(Flatten(a.position), a.def.physicsRadius, Flatten(b.position), b.def.physicsRadius);
      Push(AtXY(xa, a.position), AtXY(xb, b.position), hit)
  }

  /**
   * `CollideActors(a, b)` on slots `i` and `j`: an engaged pair is pushed,
   * and a reported push calls `a->OnCollide(b)` and then `b->OnCollide(a)`.
   */
  function CollidePair(env: Env, g: Geometry, s: Sim, i: nat, j: nat): (r: Result<Sim, Fault>)
    ensures r.Ok? ==> Evolves(env, s, r.value)
    ensures r.Ok? ==> r.value.player == s.player && |r.value.ctrls| >= |s.ctrls|
  {
    var a :- Occupant(s, i);
    var b :- Occupant(s, j);
    if !Engages(g, a, b) then Ok(s)
    else
      var p := Pushed(g, a, b);
      var s1 := Moved(s, i, j, p);
      if !p.impact then Ok(s1)
      else
        var s2 :- Callbacks(env, s1, i, j);
        EvolvesTrans(env, s, s1, s2);
        Ok(s2)
  }

  /** The pair's actors moved to the pushed positions, the first one first. */
  function Moved(s: Sim, i: nat, j: nat, p: Push): (t: Sim)
    requires i < |s.slots| && s.slots[i].Some? && j < |s.slots| && s.slots[j].Some?
    ensures t == s.(slots := t.slots) && |t.slots| == |s.slots| && Persists(s, t)
  {
    var s0 := Put(s, i, s.slots[i].value.(position := p.a));
    Put(s0, j, s0.slots[j].value.(position := p.b))
  }

  /** `a->OnCollide(b)` and then `b->OnCollide(a)`. */
  function Callbacks(env: Env, s: Sim, i: nat, j: nat): (r: Result<Sim, Fault>)
    ensures r.Ok? ==> Evolves(env, s, r.value)
    ensures r.Ok? ==> r.value.player == s.player && |r.value.ctrls| >= |s.ctrls|
  {
    var s1 :- OnCollide(env, s, i, Some(j));
    var s2 :- OnCollide(env, s1, j, Some(i));
    EvolvesTrans(env, s, s1, s2);
    Ok(s2)
  }

  /** A pair the filter rejects is left exactly as it was. */
  lemma FilteredPairUntouched(env: Env, g: Geometry, s: Sim, i: nat, j: nat)
    requires i < |s.slots| && s.slots[i].Some? && j < |s.slots| && s.slots[j].Some?
    requires !Engages(g, s.slots[i].value, s.slots[j].value)
    ensures CollidePair(env, g, s, i, j) == Ok(s)
  {
  }

  /**
   * An engaged pair of two different actors moves only in the plane, as its
   * push kind says; when no push is reported nothing else changes and no
   * callback runs.
   */
  lemma EngagedPairPushed(env: Env, g: Geometry, s: Sim, i: nat, j: nat)
    requires i != j && i < |s.slots| && s.slots[i].Some? && j < |s.slots| && s.slots[j].Some?
    requires Engages(g, s.slots[i].value, s.slots[j].value)
    ensures var a := s.slots[i].value;
      var b := s.slots[j].value;
      var p := Pushed(g, a, b);
      && (PushKindOf(a, b) == PushSecond ==> p.a == a.position)
      && (PushKindOf(a, b) == PushFirst ==> p.b == b.position)
      && p.a.z == a.position.z && p.b.z == b.position.z
      && (!p.impact ==>
            CollidePair(env, g, s, i, j) == Ok(s.(slots := s.slots[i := Some(a.(position := p.a))][j := Some(b.(position := p.b))])))
  {
  }

  /**
   * Every actor starts static (the default of `m_isStatic`, which no code
   * changes), so between spawned actors the branch that pushes both is the
   * one taken.
   */
  lemma SpawnedPairsPushBoth(env: Env, s: Sim, name: string, position: Vec3, b: ActorState)
    requires SpawnActor(env, s, name, position).Ok?
    requires b.isStatic
    ensures var t := SpawnActor(env, s, name, position).value;
      var a := t.slots[FirstFree(s.slots)].value;
      a.isStatic && PushKindOf(a, b) == PushBoth && PushKindOf(b, a) == PushBoth
  {
    SpawnActorPlaces(env, s, name, position);
  }

  /** Whether CollideActors pairs actor `i` with the actor in slot `j`. */
  predicate Partner(s: Sim, i: nat, j: nat)
    requires j < |s.slots|
  {
    i != j && s.slots[j].Some? && s.slots[j].value.def.collidesWithActors
  }

  /** The inner loop of `CollideActors()`: actor `i` against every later candidate from slot `j` on. */
  function CollideRow(env: Env, g: Geometry, s: Sim, i: nat, j: nat): (r: Result<Sim, Fault>)
    ensures r.Ok? ==> Evolves(env, s, r.value)
    ensures r.Ok? ==> r.value.player == s.player && |r.value.ctrls| >= |s.ctrls|
    decreases Max(|s.slots|, env.maxActorIndex as int) - j
  {
    if j >= |s.slots| then Ok(s)
    else
      var s1 :- if Partner(s, i, j) then CollidePair(env, g, s, i, j) else Ok(s);
      var s2 :- CollideRow(env, g, s1, i, j + 1);
      EvolvesTrans(env, s, s1, s2);
      Ok(s2)
  }

  /** Whether CollideActors takes slot `i` as the first actor of its pairs. */
  predicate Collider(s: Sim, i: nat)
    requires i < |s.slots|
  {
    s.slots[i].Some? && s.slots[i].value.def.collidesWithActors
  }

  /** `CollideActors()`: every colliding actor from slot `i` on, against every other colliding actor. */
  function CollideFrom(env: Env, g: Geometry, s: Sim, i: nat): (r: Result<Sim, Fault>)
    ensures r.Ok? ==> Evolves(env, s, r.value)
    ensures r.Ok? ==> r.value.player == s.player && |r.value.ctrls| >= |s.ctrls|
    decreases Max(|s.slots|, env.maxActorIndex as int) - i
  {
    if i >= |s.slots| then Ok(s)
    else
      var s1 :- if Collider(s, i) then CollideRow(env, g, s, i, 0) else Ok(s);
      var s2 :- CollideFrom(env, g, s1, i + 1);
      EvolvesTrans(env, s, s1, s2);
      Ok(s2)
  }

  /** No pair of colliding actors in the slots passes the filter. */
  predicate Quiet(g: Geometry, s: Sim)
  {
    forall i, j :: 0 <= i < |s.slots| && 0 <= j < |s.slots| && Collider(s, i) && Partner(s, i, j) ==>
      !Engages(g, s.slots[i].value, s.slots[j].value)
  }

  /** A row with no engaged partner changes nothing. */
  lemma {:induction false} QuietRowUntouched(env: Env, g: Geometry, s: Sim, i: nat, j: nat)
    requires Quiet(g, s) && i < |s.slots| && Collider(s, i)
    ensures CollideRow(env, g, s, i, j) == Ok(s)
    decreases Max(|s.slots|, env.maxActorIndex as int) - j
  {
    if j < |s.slots| {
      if Partner(s, i, j) {
        FilteredPairUntouched(env, g, s, i, j);
      }
      QuietRowUntouched(env, g, s, i, j + 1);
    }
  }

  /** When no pair of colliding actors engages, CollideActors changes nothing and calls no callback. */
  lemma {:induction false} QuietFrameUntouched(env: Env, g: Geometry, s: Sim, i: nat)
    requires Quiet(g, s)
    ensures CollideFrom(env, g, s, i) == Ok(s)
    decreases Max(|s.slots|, env.maxActorIndex as int) - i
  {
    if i < |s.slots| {
      if Collider(s, i) {
        QuietRowUntouched(env, g, s, i, 0);
      }
      QuietFrameUntouched(env, g, s, i + 1);
    }
  }

  // ------------------------------------------------ actor against the map

  /** The z extent CollideActorWithMap tests against the floor and the ceiling. */
  function HeightRange(a: ActorState): (r: FloatRange)
    ensures r.min == a.position.z && r.max == a.position.z + a.def.physicsHeight
  {
    FloatRange(a.position.z, a.position.z + a.def.physicsHeight)
  }

  /**
   * The height CollideActorWithMap leaves: an extent across the ceiling
   * snaps to `1 - height` (whatever the ceiling height), otherwise one
   * across the floor snaps to 0.
   */
  function SnappedZ(g: Geometry, a: ActorState): (z: real)
    ensures g.onRange(HeightRange(a), g.ceilingHeight) ==> z == 1.0 - a.def.physicsHeight
    ensures !g.onRange(HeightRange(a), g.ceilingHeight) && g.onRange(HeightRange(a), 0.0) ==> z == 0.0
    ensures !g.onRange(HeightRange(a), g.ceilingHeight) && !g.onRange(HeightRange(a), 0.0) ==> z == a.position.z
  {
    if g.onRange(HeightRange(a), g.ceilingHeight) then 1.0 - a.def.physicsHeight
    else if g.onRange(HeightRange(a), 0.0) then 0.0
    else a.position.z
  }

  /** Whether a wall, the floor or the ceiling was hit. */
  predicate MapImpact(g: Geometry, a: ActorState)
  {
    g.wallPush(a.position, a.def.physicsRadius).1 ||
    g.onRange(HeightRange(a), 0.0) || g.onRange(HeightRange(a), g.ceilingHeight)
  }

  /**
   * `CollideActorWithMap(a)`: an actor that collides with the world and is
   * inside the map is pushed out of the solid tiles around it and snapped to
   * the floor or the ceiling; any impact calls `OnCollide()` with no other actor.
   */
  function CollideActorWithMap(env: Env, g: Geometry, s: Sim, i: nat): (r: Result<Sim, Fault>)
    ensures r.Ok? ==> Evolves(env, s, r.value)
    ensures r.Ok? ==> r.value.player == s.player && |r.value.ctrls| >= |s.ctrls|
  {
    var a :- Occupant(s, i);
    if !a.def.collidesWithWorld || !g.inBounds(a.position) then Ok(s)
    else
      var xy := g.wallPush(a.position, a.def.physicsRadius).0;
      var a1 := a.(position := Vec3(xy.x, xy.y, SnappedZ(g, a)));
      PutEvolves(env, s, i, a1);
      if !MapImpact(g, a) then Ok(Put(s, i, a1))
      else
        var s2 :- OnCollide(env, Put(s, i, a1), i, None);
        EvolvesTrans(env, s, Put(s, i, a1), s2);
        Ok(s2)
  }

  /**
   * An actor that does not collide with the world, or is outside the map, is
   * left alone. Otherwise it ends where the wall push and the snap put it;
   * without an impact nothing else changes, and with one it is flagged as
   * having collided and, unless it is a pickup, dies if it dies on collision.
   */
  lemma MapCollisionEffects(env: Env, g: Geometry, s: Sim, i: nat)
    requires i < |s.slots| && s.slots[i].Some?
    requires CollideActorWithMap(env, g, s, i).Ok?
    ensures var a := s.slots[i].value;
      var t := CollideActorWithMap(env, g, s, i).value;
      var xy := g.wallPush(a.position, a.def.physicsRadius).0;
      && (!a.def.collidesWithWorld || !g.inBounds(a.position) ==> t == s)
      && (a.def.collidesWithWorld && g.inBounds(a.position) ==>
            && t.slots[i].Some?
            && (!MapImpact(g, a) ==> t == s.(slots := s.slots[i := Some(a.(position := Vec3(xy.x, xy.y, SnappedZ(g, a))))]))
            && (MapImpact(g, a) ==>
                  && t.slots[i].value.didCollide
                  && (a.def.dieOnCollision && !a.def.isPickup ==> t.slots[i].value.vitals.isDead)))
  {
    var a := s.slots[i].value;
    if a.def.collidesWithWorld && g.inBounds(a.position) && MapImpact(g, a) {
      var xy := g.wallPush(a.position, a.def.physicsRadius).0;
      var s1 := Put(s, i, a.(position := Vec3(xy.x, xy.y, SnappedZ(g, a))));
      AloneCollisionFlags(env, s1, i);
    }
  }

  /** `OnCollide()` with no other actor sets the collision flag, and kills an actor that dies on collision. */
  lemma AloneCollisionFlags(env: Env, s: Sim, i: nat)
    requires OnCollide(env, s, i, None).Ok?
    ensures var a := s.slots[i].value;
      var t := OnCollide(env, s, i, None).value;
      && t.slots[i].Some? && t.slots[i].value.didCollide
      && (a.def.dieOnCollision && !a.def.isPickup ==> t.slots[i].value.vitals.isDead)
  {
  }

  /** The inner loop of `CollideActorsWithMap`: actor `i` collided once per slot from `j` on. */
  function RepeatMapCollision(env: Env, g: Geometry, s: Sim, i: nat, j: nat): (r: Result<Sim, Fault>)
    ensures r.Ok? ==> Evolves(env, s, r.value)
    ensures r.Ok? ==> r.value.player == s.player && |r.value.ctrls| >= |s.ctrls|
    decreases Max(|s.slots|, env.maxActorIndex as int) - j
  {
    if j >= |s.slots| then Ok(s)
    else
      var s1 :- CollideActorWithMap(env, g, s, i);
      var s2 :- RepeatMapCollision(env, g, s1, i, j + 1);
      EvolvesTrans(env, s, s1, s2);
      Ok(s2)
  }

  /** `CollideActorsWithMap`: every actor from slot `i` on, collided with the map once per slot. */
  function MapCollisionsFrom(env: Env, g: Geometry, s: Sim, i: nat): (r: Result<Sim, Fault>)
    ensures r.Ok? ==> Evolves(env, s, r.value)
    ensures r.Ok? ==> r.value.player == s.player && |r.value.ctrls| >= |s.ctrls|
    decreases Max(|s.slots|, env.maxActorIndex as int) - i
  {
    if i >= |s.slots| then Ok(s)
    else
      var s1 :- if s.slots[i].Some? then RepeatMapCollision(env, g, s, i, 0) else Ok(s);
      var s2 :- MapCollisionsFrom(env, g, s1, i + 1);
      EvolvesTrans(env, s, s1, s2);
      Ok(s2)
  }

  /** An actor the map collision skips is skipped on every repetition. */
  lemma {:induction false} SkippedStaysSkipped(env: Env, g: Geometry, s: Sim, i: nat, j: nat)
    requires i < |s.slots| && s.slots[i].Some?
    requires !s.slots[i].value.def.collidesWithWorld || !g.inBounds(s.slots[i].value.position)
    ensures RepeatMapCollision(env, g, s, i, j) == Ok(s)
    decreases Max(|s.slots|, env.maxActorIndex as int) - j
  {
    if j < |s.slots| {
      SkippedStaysSkipped(env, g, s, i, j + 1);
    }
  }

  // ------------------------------------------------ the frame

  /** The update loop of `UpdateActors`: `Actor::Update` for every occupied slot from `i` on. */
  function UpdateFrom(env: Env, g: Geometry, frame: Frame, s: Sim, i: nat): (r: Result<Sim, Fault>)
    ensures r.Ok? ==> Evolves(env, s, r.value)
    ensures r.Ok? ==> r.value.player == s.player && |r.value.ctrls| >= |s.ctrls|
    decreases Max(|s.slots|, env.maxActorIndex as int) - i
  {
    if i >= |s.slots| then Ok(s)
    else
      var s1 :- if s.slots[i].Some? then ActorUpdate(env, g, frame, s, i) else Ok(s);
      var s2 :- UpdateFrom(env, g, frame, s1, i + 1);
      EvolvesTrans(env, s, s1, s2);
      Ok(s2)
  }

  /** `UpdateActors`: every actor is updated, then actors collide with each other, then with the map. */
  function UpdateActors(env: Env, g: Geometry, frame: Frame, s: Sim): (r: Result<Sim, Fault>)
    ensures r.Ok? ==> Evolves(env, s, r.value)
    ensures r.Ok? ==> r.value.player == s.player && |r.value.ctrls| >= |s.ctrls|
  {
    var s1 :- UpdateFrom(env, g, frame, s, 0);
    var s2 :- CollideFrom(env, g, s1, 0);
    EvolvesTrans(env, s, s1, s2);
    var s3 :- MapCollisionsFrom(env, g, s2, 0);
    EvolvesTrans(env, s, s2, s3);
    Ok(s3)
  }

  /** `Map::Update`: the actors' frame, then the sweep of expired actors. */
  function MapUpdate(env: Env, g: Geometry, frame: Frame, s: Sim): (r: Result<Sim, Fault>)
    ensures r.Ok? ==> Within(env, s, r.value) && r.value.player == s.player
  {
    var s1 :- UpdateActors(env, g, frame, s);
    Ok(DeleteDestroyedActors(s1))
  }

  /**
   * After a frame no slot holds an expired actor, and every actor that was
   * there before and has not expired is still in its slot.
   */
  lemma FrameSweeps(env: Env, g: Geometry, frame: Frame, s: Sim)
    requires MapUpdate(env, g, frame, s).Ok?
    ensures var t := MapUpdate(env, g, frame, s).value;
      var u := UpdateActors(env, g, frame, s).value;
      && (forall j :: 0 <= j < |t.slots| ==> t.slots[j].None? || !t.slots[j].value.expired)
      && (forall j :: 0 <= j < |s.slots| && s.slots[j].Some? ==>
            (t.slots[j].Some? <==> !u.slots[j].value.expired))
      && (forall j :: 0 <= j < |s.slots| && s.slots[j].Some? && t.slots[j].Some? ==>
            t.slots[j].value.handle == s.slots[j].value.handle)
  {
    SweepLeavesNoExpired(UpdateActors(env, g, frame, s).value);
  }

  // ------------------------------------------------ possession and the player

  /** Whether DebugPossessNext may take the actor in a slot. */
  predicate Possessable(o: Option<ActorState>)
  {
    o.Some? && o.value.def.canBePossessed && o.value.control.isAI
  }

  /** The slot `k` places after `base`, wrapping around the slot list. */
  function Offset(slots: seq<Option<ActorState>>, base: nat, k: nat): Option<ActorState>
    requires |slots| > 0
  {
    slots[(base + k) % |slots|]
  }

  /**
   * The loop of `DebugPossessNext`: the first offset `k` from `lo` up to `n`
   * whose slot `(base + k) % n` is possessable.
   */
  function NextPossessable(slots: seq<Option<ActorState>>, base: nat, lo: nat): (k: Option<nat>)
    requires |slots| > 0
    ensures k.Some? ==> lo <= k.value <= |slots| && Possessable(Offset(slots, base, k.value))
    ensures k.Some? ==> forall m :: lo <= m < k.value ==> !Possessable(Offset(slots, base, m))
    ensures k.None? ==> forall m :: lo <= m <= |slots| ==> !Possessable(Offset(slots, base, m))
    decreases |slots| + 1 - lo
  {
    if lo > |slots| then None
    else if Possessable(Offset(slots, base, lo)) then Some(lo)
    else NextPossessable(slots, base, lo + 1)
  }

  /**
   * `DebugPossessNext`: the game's player possesses the first possessable
   * actor after its own in slot order, wrapping around (its own slot last).
   */
  function DebugPossessNext(s: Sim): (r: Result<Sim, Fault>)
    ensures r.Ok? ==> |r.value.slots| == |s.slots| && Persists(s, r.value)
    ensures |s.slots| > 0 && Ctrl(s, s.player).Err? ==> r == Err(NullController)
    ensures |s.slots| == 0 ==> r == Ok(s)
  {
    if |s.slots| == 0 then Ok(s)
    else
      var p :- Ctrl(s, s.player);
      var k := NextPossessable(s.slots, GetIndex(p.possessedActor) as nat, 1);
      if k.None? then Ok(s)
      else Possess(s, s.player.value, Offset(s.slots, GetIndex(p.possessedActor) as nat, k.value).value.handle)
  }

  /**
   * With no possessable actor in any slot the command does nothing;
   * otherwise the player possesses the actor NextPossessable finds.
   */
  lemma DebugPossessPicksNext(s: Sim)
    requires s.player.Some? && s.player.value < |s.ctrls| && |s.slots| > 0
    ensures var base := GetIndex(s.ctrls[s.player.value].possessedActor) as nat;
      var k := NextPossessable(s.slots, base, 1);
      && ((forall j :: 0 <= j < |s.slots| ==> !Possessable(s.slots[j])) ==> DebugPossessNext(s) == Ok(s))
      && (k.Some? ==> DebugPossessNext(s) == Possess(s, s.player.value, Offset(s.slots, base, k.value).value.handle))
  {
    var base := GetIndex(s.ctrls[s.player.value].possessedActor) as nat;
    var k := NextPossessable(s.slots, base, 1);
    if k.Some? {
      var j := (base + k.value) % |s.slots|;
      assert Possessable(s.slots[j]);
    }
  }

  /**
   * A possessable actor in any slot is found: the offsets 1 to n visit every
   * slot, the player's own last.
   */
  lemma DebugPossessFindsAny(slots: seq<Option<ActorState>>, base: nat, j: nat)
    requires j < |slots| && Possessable(slots[j])
    ensures NextPossessable(slots, base, 1).Some?
  {
    var n := |slots|;
    var r := base % n;
    var off := if j > r then j - r else j - r + n;
    OffsetReaches(base, j, n);
    assert Offset(slots, base, off) == slots[j];
  }

  /** The offset from `base` to `j`, between 1 and n, carries `base` to `j` modulo n. */
  lemma OffsetReaches(base: nat, j: nat, n: nat)
    requires n > 0 && j < n
    ensures var r := base % n;
      (base + (if j > r then j - r else j - r + n)) % n == j
  {
    var q := base / n;
    var r := base % n;
    if j > r {
      ModUnique(base + j - r, q, j, n);
    } else {
      ModUnique(base + j - r + n, q + 1, j, n);
    }
  }

  /** A remainder in [0, n) is the remainder: `x == q * n + r` forces `x % n == r`. */
  lemma ModUnique(x: int, q: int, r: int, n: int)
    requires n > 0 && 0 <= r < n && x == q * n + r
    ensures x % n == r
  {
    var q' := x / n;
    var r' := x % n;
    assert (q - q') * n == r' - r;
    if q > q' {
      MulAtLeast(q - q', n);
    } else if q < q' {
      MulAtLeast(q' - q, n);
    }
  }

  lemma MulAtLeast(k: int, n: int)
    requires k >= 1 && n > 0
    ensures k * n >= n
  {
  }

  /** The actor SpawnPlayer asks for. */
  const MarineName: string := "Marine"

  /**
   * `SpawnPlayer(player c, location)`: a marine is spawned, the player
   * possesses it and moves onto the map, and the marine is controlled by the
   * player with a fresh AI, appended to the controllers, as its saved AI.
   * The AI created by the spawn itself is left behind.
   */
  function SpawnPlayer(env: Env, s: Sim, c: Cid, location: Vec3): (r: Result<Sim, Fault>)
    ensures r.Ok? ==> Evolves(env, s, r.value) && r.value.player == s.player && |r.value.ctrls| == |s.ctrls| + 2
  {
    var s1 :- SpawnActor(env, s, MarineName, location);
    SpawnActorPlaces(env, s, MarineName, location);
    var i := FirstFree(s.slots);
    var a := s1.slots[i].value;
    var p :- Ctrl(s1, Some(c));
    var s2 := SetCtrl(s1, c, p.(possessedActor := a.handle, onMap := true));
    var s3 := Put(s2, i, a.(control := Control(Some(c), Some(|s1.ctrls|), false)));
    Ok(s3.(ctrls := s3.ctrls + [NewAI(a.handle)]))
  }

  /**
   * After SpawnPlayer the marine sits in the lowest empty slot, the player
   * possesses it and resolves to it, it is player-controlled with the
   * appended AI possessing it too, and the spawn's own AI still possesses it.
   */
  lemma SpawnPlayerPossesses(env: Env, s: Sim, c: Cid, location: Vec3)
    requires env.maxActorIndex as int <= 0x10000 && HandlesMatch(s.slots) && c < |s.ctrls|
    requires SpawnPlayer(env, s, c, location).Ok?
    ensures var t := SpawnPlayer(env, s, c, location).value;
      var i := FirstFree(s.slots);
      && i < |t.slots| && t.slots[i].Some?
      && var a := t.slots[i].value;
      && a.def.name == MarineName && a.handle == Make(s.nextUid as u32, i as u32)
      && t.ctrls[c].possessedActor == a.handle && t.ctrls[c].onMap
      && GetActor(t, c) == Ok(Some(i))
      && a.control == Control(Some(c), Some(|s.ctrls| + 1), false)
      && t.ctrls[|s.ctrls| + 1] == NewAI(a.handle)
      && t.ctrls[|s.ctrls|] == NewAI(a.handle)
  {
    SpawnActorPlaces(env, s, MarineName, location);
    SpawnKeepsHandles(env, s, MarineName, location);
    var s1 := SpawnActor(env, s, MarineName, location).value;
    var i := FirstFree(s.slots);
    var t := SpawnPlayer(env, s, c, location).value;
    StoredHandleResolves(s1.slots, i);
    assert t.slots[i].value.handle == s1.slots[i].value.handle;
    assert t.slots == s1.slots[i := t.slots[i]];
    assert GetActorByHandle(t.slots, t.ctrls[c].possessedActor) == Some(i);
  }
}
