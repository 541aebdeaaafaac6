# Doomenstein actor simulation in Dafny

This project models the discrete bookkeeping of Doomenstein, a C++ first-person
shooter. It does not model the geometry. It covers:

- the generational actor handles;
- the actor slot list of a map, with spawning, lookup, killing and the end-of-frame sweep;
- an actor's life cycle: damage, death, blame, kill credit, aggro, weapon cycling,
  pickups and refire catch-up;
- the weapon ammunition and heat state machine;
- the AI target state machine;
- possession by a player or an AI;
- the per-frame order of updates and collisions;
- the "nearest wins" rules of raycasts and enemy search;
- the front end: the player list, the lobby flags, the menu cursor, the survival
  wave budget, the faction names and the shader paths.

The source works through raw pointers into one actor vector. Here that vector is
an arena: `Arena.Sim.slots` is a sequence of optional actor values, and a null
pointer is `None`. Controllers (AIs and players) are values in `Sim.ctrls`,
named by their index. Every map and actor operation is a function from a `Sim`
to `Result<Sim, Fault>`. A `Fault` stands for an `ERROR_AND_DIE` or for
undefined behaviour in the source: a null dereference or a read past the end of
a vector.

Three classes hold the state that the source edits in place, and each of their
methods is proved against the step function it mirrors:

- `World.Map` holds the map's `Sim`. Its methods run the map's loops in
  `Code/Game/Map.cpp`: the spawn search, the sweep, the update loop, both
  collision passes, `DebugPossessNext`, the survival spawn block, and the player
  counters.
- `World.Game` holds the player list, the lobby flags, the game mode and the
  menu cursor of `Code/Game/Game.cpp`.
- `Weapons.Weapon` holds one weapon's counts, heat and timers.

Inputs the model cannot know are parameters:

- `Env` holds the definition tables and the `MAX_ACTOR_UID` / `MAX_ACTOR_INDEX`
  limits (their header is not part of this model).
- `Geometry` holds the disc and box push primitives, the ray casts and the
  vision cone.
- `Frame` holds what each frame's clocks and physics report: whether an actor's
  corpse timer has elapsed, how many refire periods of its timer have elapsed,
  each weapon's timer readings, and where `UpdatePhysics` moves an actor.
- The random number generator is `Env.intDraw` / `Env.floatDraw`: a function of a
  draw counter kept in `Sim.draws` and of the requested range.

Module layout:

| module | models |
|---|---|
| `Vectors` (vectors.dfy) | the `Vec2`, `Vec3`, `IntVec2` and box records and their arithmetic helpers, with reals for floats |
| `ActorHandles` (handles.dfy) | `Code/Game/ActorHandle.cpp`, over a 32-bit unsigned newtype |
| `Definitions` (definitions.dfy) | the definition tables, the last-match lookup and the EVIL filter |
| `Slots` (slots.dfy) | the slot discipline: lowest free slot, clearing, occupancy |
| `Lifecycle` (lifecycle.dfy) | the actor-local rules: vitals, death effects, aggro, credit, cycling and possession flags |
| `Weapons` (weapons.dfy) | `Code/Game/Weapon.cpp`: specification functions and the class `Weapon` |
| `Arena` (arena.dfy) | the `Sim` state and the spawn, lookup and kill half of `Code/Game/Map.cpp` |
| `Actors` (actors.dfy) | `Code/Game/Actor.cpp`, `Code/Game/AI.cpp`, `Code/Game/Controller.cpp` and `Player::GetActorHealth` |
| `Sight` (sight.dfy) | `RaycastWorldActors`, `RaycastAll` and `GetClosestVisibleEnemy` |
| `Raycasts` (raycasts.dfy) | how `RaycastAll` combines the floor/ceiling, wall and actor results |
| `MapTick` (maptick.dfy) | the frame: update, actor-actor and actor-map collisions, the sweep, `DebugPossessNext`, `SpawnPlayer` |
| `Grid` (grid.dfy) | `Code/Game/Tile.cpp`, `GetTile` and `AreCoordsInBounds` |
| `FrontEnd` (frontend.dfy) | lobby flags, menu cursor, wave budget and `Player::CycleControlMode` |
| `Session` (session.dfy) | the player list of `Code/Game/Game.cpp` and the survival spawn block |
| `Loaders` (loaders.dfy) | the faction names and the two shader-path rules |
| `World` (world.dfy) | the classes `Map` and `Game` |

## Model

| member | source | states |
|---|---|---|
| ActorHandles.GetIndex | Code/Game/ActorHandle.cpp:31-34 | The index read from a handle is always below 65536. |
| ActorHandles.Make | Code/Game/ActorHandle.cpp:10-16 | The handle built from `(uid, index)` reads back index `index mod 65536` and uid `uid mod 65536`: only the low 16 bits of each survive. |
| ActorHandles.GetUid | Code/Game/ActorHandle.cpp:13-15 | The uid half that the 16-bit shift keeps is below 65536; with GetIndex it rebuilds the word (`ActorHandles.Halves`). |
| ActorHandles.MakePacks | Code/Game/ActorHandle.cpp:10-16 | For a uid and an index below 2^16, the packed word is `uid * 65536 + index`. |
| ActorHandles.MakeInjective | Code/Game/ActorHandle.cpp:36-46 | Distinct 16-bit (uid, index) pairs give handles that compare unequal. |
| ActorHandles.UidAliases | Code/Game/ActorHandle.cpp:13-15 | The uid is not masked, so uids that differ by 65536 give equal handles for the same index. |
| ActorHandles.InvalidIsAllOnes | Code/Game/ActorHandle.cpp:3 | INVALID is the word 0xFFFFFFFF and names slot 0xFFFF. |
| ActorHandles.DefaultHandle | Code/Game/ActorHandle.cpp:5-8 | The default handle is the zero word: it equals `ActorHandle(0, 0)` and differs from INVALID. |
| ActorHandles.Equal | Code/Game/ActorHandle.cpp:36-46 | `==` holds exactly for equal handles. |
| ActorHandles.NotEqual | Code/Game/ActorHandle.cpp:48-58 | `!=` is the negation of `==`. |
| ActorHandles.IsValid | Code/Game/ActorHandle.cpp:18-29 | `IsValid` is false for every handle, INVALID or not, whatever the index bound. |
| Definitions.LastMatch | Code/Game/Map.cpp:258-268 | The last position holding the name; none exactly when the name is absent. |
| Definitions.LookupFailure | Code/Game/Map.cpp:258-268 | The definition lookup fails exactly when the name is the undefined sentinel or does not occur. |
| Definitions.LastMatchSnoc | Code/Game/Map.cpp:258-264 | One more loop step: a matching entry becomes the answer, and otherwise the answer stays. |
| Definitions.EvilDefs | Code/Game/Game.cpp:1249-1255 | The enemy list holds only EVIL definitions from the table, and every EVIL definition of the table. |
| Definitions.EvilDefsAppend | Code/Game/Game.cpp:1249-1255 | The EVIL filter distributes over concatenation, so the enemy list keeps load order. |
| Definitions.EvilDefsSingle | Code/Game/Game.cpp:1251-1253 | A single definition is kept exactly when it is EVIL. |
| Slots.FirstFree | Code/Game/Map.cpp:243-250 | The lowest empty slot; the list length exactly when no slot is empty. |
| Slots.PlaceFirstFree | Code/Game/Map.cpp:272-279 | Spawning into the lowest free slot sets that slot, changes no other slot, and grows the list by one exactly when it was full. |
| Slots.ClearMarked | Code/Game/Map.cpp:307-320 | Exactly the marked slots are emptied; the length and all other slots are kept. |
| Slots.ClearMarkedIdempotent | Code/Game/Map.cpp:307-320 | A second sweep with the same marks changes nothing, and no sweep adds an entry. |
| Slots.OccupiedPlace | Code/Game/Map.cpp:272-279 | A spawn into a free slot adds exactly one occupied slot. |
| Slots.OccupiedClear | Code/Game/Map.cpp:285-291 | Emptying an occupied slot removes exactly one occupied slot. |
| Lifecycle.AfterStartDeath | Code/Game/Actor.cpp:298-329 | After StartDeath the actor is dead with unchanged health; a dead actor is left unchanged; a living one gets its corpse timer started. |
| Lifecycle.StartDeathIdempotent | Code/Game/Actor.cpp:298-329 | A second StartDeath does nothing. |
| Lifecycle.AfterDamage | Code/Game/Actor.cpp:240-242 | Health drops by exactly the damage; the actor is then dead exactly when it already was or its health reached zero or below. |
| Lifecycle.KillingBlowOnce | Code/Game/Actor.cpp:288-296 | Only the first hit that takes health to zero or below is reported, so one death is counted once. |
| Lifecycle.DeadStayDead | Code/Game/Actor.cpp:288-296 | Damage to a dead actor lowers its health and changes nothing else. |
| Lifecycle.KillingBlowNeedsZeroHealth | Code/Game/Actor.cpp:288-296 | A killing blow leaves health at or below zero. |
| Lifecycle.DeathEffectsOf | Code/Game/Actor.cpp:309-327 | A demon kill is reported exactly for EVIL actors. A pickup drops for GOOD actors always, and for EVIL ones when the roll is at most 30. |
| Lifecycle.AggroTarget | Code/Game/Actor.cpp:267-285 | A victim that is not AI-controlled, or a hit that blames nobody, leaves the target unchanged. An AI victim of an owned source targets the resolved owner, and keeps its target when the owner no longer resolves. An AI victim of a direct hit targets the attacker exactly when the attacker's faction differs. |
| Lifecycle.OwnerAdoptedWhateverFaction | Code/Game/Actor.cpp:269-276 | An AI victim hit by an owned source (a projectile) turns on the owner even in its own faction. |
| Lifecycle.SameFactionDirectHitIgnored | Code/Game/Actor.cpp:277-285 | A direct hit from the victim's own faction leaves its target alone. |
| Lifecycle.KillCredit | Code/Game/Actor.cpp:242-265 | No answer exactly when the owner cannot be resolved (a null dereference); a credited kill always has a player-controlled victim. |
| Lifecycle.NoCreditAgainstAI | Code/Game/Actor.cpp:242-265 | No kill or death is counted when the victim or the attacker is AI-controlled. |
| Lifecycle.CycleUp | Code/Game/Actor.cpp:426-433 | The next index stays within the inventory and wraps from the last to 0. |
| Lifecycle.CycleDown | Code/Game/Actor.cpp:435-446 | The previous index stays within the inventory. |
| Lifecycle.CycleInverse | Code/Game/Actor.cpp:426-446 | Cycling up and then down, or down and then up, restores the index. |
| Lifecycle.CycleUpTimesAdd | Code/Game/Actor.cpp:426-433 | Cycling up `a` times and then `b` times is cycling up `a + b` times. |
| Lifecycle.CycleUpTimesNoWrap | Code/Game/Actor.cpp:426-433 | Before the wrap, `k` steps up move the index by exactly `k`. |
| Lifecycle.FullCycleReturns | Code/Game/Actor.cpp:426-433 | After as many steps up as there are weapons, the same weapon is equipped again. |
| Lifecycle.Possessed | Code/Game/Actor.cpp:369-382 | After OnPossessed the new owner controls the actor, which is no longer AI-flagged; the saved AI is the old controller exactly when the actor was AI-controlled. |
| Lifecycle.Unpossessed | Code/Game/Actor.cpp:384-389 | After OnUnpossessed the saved AI controls the actor again, and the actor is AI-flagged. |
| Lifecycle.PossessUnpossessRestoresAI | Code/Game/Actor.cpp:369-389 | Possessing an AI-controlled actor and then releasing it hands it back to the same AI. |
| Lifecycle.PossessingPlayerActorDropsAI | Code/Game/Actor.cpp:369-389 | Possessing an actor that a player controls drops its AI, so a later release leaves it AI-flagged with no controller. |
| Weapons.Initial | Code/Game/Weapon.cpp:19-28 | A new weapon has both counts at the magazine size, no heat and no timers. |
| Weapons.ShotOf | Code/Game/Weapon.cpp:110-144 | Fire makes a ranged shot exactly when the gate allows it; otherwise a melee attack when the weapon has one; otherwise nothing. |
| Weapons.AfterFire | Code/Game/Weapon.cpp:110-144 | A ranged shot spends one round from the magazine or adds heat; melee and no shot change no count. |
| Weapons.AfterReload | Code/Game/Weapon.cpp:240-257 | Reload starts only for a magazine weapon with no pending reload, room in the magazine and rounds in the bag, and moves the rounds at once. |
| Weapons.AfterStartCooldown | Code/Game/Weapon.cpp:259-268 | A cooldown timer is created only if none exists. |
| Weapons.AfterFinishCooldown | Code/Game/Weapon.cpp:270-279 | An existing cooldown timer is cleared and the heat drops to zero; without one nothing changes. |
| Weapons.AfterUpdate | Code/Game/Weapon.cpp:34-92 | Update performs the automatic reload or cooldown, and then the timer step. |
| Weapons.InitialAmmoOk | Code/Game/Weapon.cpp:23-24 | A new weapon satisfies the ammunition invariant: no negative count, and a magazine never above its size. |
| Weapons.RangedShotSpendsOneRound | Code/Game/Weapon.cpp:121-124 | A ranged shot from a magazine weapon spends exactly one round from the magazine and leaves the bag. |
| Weapons.EnergyShotAddsHeat | Code/Game/Weapon.cpp:125-128 | A ranged energy shot adds exactly the heat per shot and spends no round. |
| Weapons.AmmoOkPreserved | Code/Game/Weapon.cpp:110-257 | Fire, Reload and Update keep the ammunition invariant. |
| Weapons.ReloadMovesRounds | Code/Game/Weapon.cpp:242-255 | Reload moves `min(magSize - mag, bag)` rounds and keeps `mag + bag`. |
| Weapons.ReloadNoOpWhilePending | Code/Game/Weapon.cpp:244 | Reload changes nothing while a reload is pending, or for an energy weapon. |
| Weapons.ReloadBlocksFire | Code/Game/Weapon.cpp:112-114 | A pending reload blocks ranged fire. |
| Weapons.StartCooldownIdempotent | Code/Game/Weapon.cpp:259-268 | StartCooldown twice is StartCooldown once. |
| Weapons.UpdateAutoReloads | Code/Game/Weapon.cpp:44-47 | Update reloads a magazine weapon whose magazine is empty and whose bag is not; the timer stays unless it has already run out. |
| Weapons.UpdateStartsCooldown | Code/Game/Weapon.cpp:48-52 | Update starts a cooldown for an overheated energy weapon, which keeps cooling unless the cooldown has already run out (then the heat is zero). |
| Weapons.OverheatBlocksFire | Code/Game/Weapon.cpp:112-114 | An overheated weapon cannot make a ranged shot, before or after its Update, unless the cooldown has run out. |
| Weapons.DecayedHeatClamped | Code/Game/Weapon.cpp:64-70 | Passive heat decay leaves the heat within `[0, maxHeat]`. |
| Weapons.UpdateClearsElapsedReload | Code/Game/Weapon.cpp:55-59 | Update drops an elapsed reload timer. |
| Weapons.ShotsSpendRounds | Code/Game/Actor.cpp:417-424 | `n` catch-up shots from a magazine holding at least `n` rounds, with no reload pending, spend exactly `n` rounds. |
| Weapons.ShotsKeepAmmoOk | Code/Game/Actor.cpp:417-424 | Repeated shots never add rounds and keep the ammunition invariant. |
| Weapons.AfterPickup | Code/Game/Actor.cpp:481-490 | A magazine weapon gains one magazine in the bag; an energy weapon is unchanged. |
| Weapons.PickupKeepsAmmoOk | Code/Game/Actor.cpp:481-490 | A pickup keeps the ammunition invariant. |
| Weapons.Weapon.constructor | Code/Game/Weapon.cpp:19-28 | The new weapon's state is `Initial` of its definition. |
| Weapons.Weapon.Fire | Code/Game/Weapon.cpp:110-144 | The shot returned is `ShotOf` the old state, and the new state is `AfterFire` of it. |
| Weapons.Weapon.Reload | Code/Game/Weapon.cpp:240-257 | The new state is `AfterReload` of the old one. |
| Weapons.Weapon.StartCooldown | Code/Game/Weapon.cpp:259-268 | The new state is `AfterStartCooldown` of the old one. |
| Weapons.Weapon.FinishCooldown | Code/Game/Weapon.cpp:270-279 | The new state is `AfterFinishCooldown` of the old one. |
| Weapons.Weapon.Update | Code/Game/Weapon.cpp:34-92 | The new state is `AfterUpdate` of the old one for this frame's timer readings. |
| Weapons.Weapon.AddPickupRounds | Code/Game/Actor.cpp:481-490 | The new state is `AfterPickup` of the old one. |
| Arena.GetActorByHandle | Code/Game/Map.cpp:293-305 | The handle's slot is returned exactly when the slot holds an actor with an equal handle; otherwise null. The slot must exist (there is no bounds check). |
| Arena.Resolve | Code/Game/Map.cpp:295-297 | A read past the end of the slots is the only fault; otherwise the answer is GetActorByHandle's. |
| Arena.StoredHandleResolves | Code/Game/Map.cpp:293-305 | Every stored actor is found again by its own handle. |
| Arena.StaleHandleResolvesToNull | Code/Game/Map.cpp:293-305 | A handle whose slot is empty or holds another handle resolves to null, so a stale handle to a reused slot is rejected. |
| Arena.SpawnCheck | Code/Game/Map.cpp:237-268 | Spawning fails on an exhausted uid, on a full slot range, on an unknown actor name or an unknown weapon name, each error exactly in its case. |
| Arena.ResolvedWeapons | Code/Game/Actor.cpp:16-83 | One weapon definition per name, carrying that name. |
| Arena.NewActor | Code/Game/Actor.cpp:16-83 | A new actor has full health, is alive, is controlled by its AI, has every weapon in its initial state and the first one equipped. |
| Arena.SpawnActor | Code/Game/Map.cpp:231-283 | A spawn fails exactly as SpawnCheck says; an accepted one bumps the uid, adds one controller, keeps every existing actor and stays within the slot limit. |
| Arena.SpawnActorPlaces | Code/Game/Map.cpp:231-283 | An accepted spawn puts the new actor, with handle `(uid, slot)` and no owner, in the lowest empty slot, controlled by a new AI at the end of the controller list. No other slot changes. |
| Arena.SpawnKeepsHandles | Code/Game/Map.cpp:255-281 | With at most 65536 slots, spawning keeps every stored handle naming its own slot. |
| Arena.SpawnUidsIncrease | Code/Game/Map.cpp:235-236 | Two spawns in a row use consecutive uids. |
| Arena.SpawnOccupiesOne | Code/Game/Map.cpp:272-279 | A spawn adds exactly one occupied slot. |
| Arena.KillAIActor | Code/Game/Map.cpp:285-291 | KillAIActor fails exactly when the handle's slot is past the end or empty, with the matching fault. |
| Arena.KillAIActorClearsOne | Code/Game/Map.cpp:285-291 | A kill empties exactly the named slot and keeps the length and every other slot. |
| Arena.KillPlayerClearsOne | Code/Game/Map.cpp:223-229 | KillPlayer fails as KillAIActor does on the player's handle; otherwise it empties the same one slot and the player possesses nothing. |
| Arena.ExpiredMarks | Code/Game/Map.cpp:309-318 | The slots marked for the sweep are exactly the occupied ones whose actor has expired. |
| Arena.DeleteDestroyedActors | Code/Game/Map.cpp:307-320 | The sweep empties exactly the occupied slots with an expired actor and keeps the length, every other slot and the rest of the state. |
| Arena.SweepLeavesNoExpired | Code/Game/Map.cpp:307-320 | After the sweep no expired actor is left, and a second sweep changes nothing. |
| Arena.OnDemonKilled | Code/Game/Map.cpp:740-747 | One enemy fewer on the map, and one more kill for the followed player only. A player out of range is a fault. |
| Actors.StartDeath | Code/Game/Actor.cpp:298-329 | An empty slot is a fault; otherwise the actor's vitals become AfterStartDeath of its vitals, and every existing actor is kept. |
| Actors.StartDeathEffects | Code/Game/Actor.cpp:298-329 | A first StartDeath produces DeathEffectsOf the faction and the roll: one enemy fewer exactly for a demon, and one more occupied slot exactly when a pickup drops. |
| Actors.CheckIfHealthIsZero | Code/Game/Actor.cpp:288-296 | The report is true exactly when the actor was alive with no health left, and then death has started; otherwise nothing changes. |
| Actors.BlameOf | Code/Game/Actor.cpp:242-285 | A null or self-inflicted source blames nobody; an owner is blamed with its slot's own handle, kind and faction; a direct source is blamed as itself. |
| Actors.DamagedBy | Code/Game/AI.cpp:12-18 | A non-null attacker becomes the target; a null one leaves the AI unchanged; nothing else changes. |
| Actors.TakeDamage | Code/Game/Actor.cpp:228-286 | A hit keeps every existing actor in its slot, the slot limit and the followed player, and never removes a controller. |
| Actors.PickupsTakeNoDamage | Code/Game/Actor.cpp:230-233 | A pickup on either side makes TakeDamage change nothing. |
| Actors.DamageLowersHealth | Code/Game/Actor.cpp:234-242 | Otherwise the victim's vitals become AfterDamage of its vitals. |
| Actors.Wound | Code/Game/Actor.cpp:240-243 | Health drops by the damage and the victim's vitals become AfterDamage; a death is reported exactly on a KillingBlow; a hit that kills nobody leaves every controller unchanged. |
| Actors.KillsCountedOnlyBetweenPlayers | Code/Game/Actor.cpp:240-285 | Over a whole TakeDamage: a hit that kills nobody moves no kill or death count. A killing blow that KillCredit does not credit moves none after the zero-health check. A credited one gives the attacker's controller exactly one more kill and the victim's exactly one more death, and moves no other count. |
| Actors.AggroKeepsCounters | Code/Game/Actor.cpp:267-285 | The aggro hand-off changes no kill or death count. |
| Actors.AggroFollowsTarget | Code/Game/Actor.cpp:267-285 | The victim's controller ends with AggroTarget of its old target. |
| Actors.CreditFollowsKillCredit | Code/Game/Actor.cpp:244-264 | A killing blow is credited as KillCredit says: a fault when the owner is gone; no change when it credits nobody; otherwise the attacker's controller gains exactly one kill and the victim's exactly one death (one controller gains both when they coincide), and nothing else about any controller changes. |
| Actors.RefillAll | Code/Game/Actor.cpp:481-490 | Every weapon of the inventory gets AfterPickup; the inventory keeps its length and its definitions. |
| Actors.HandlePickupLogic | Code/Game/Actor.cpp:479-495 | Only the slots change, and every actor stays in its slot. |
| Actors.OtherPickupConsumed | Code/Game/Actor.cpp:479-495 | A pickup that is not the ammunition pickup leaves the actor taking it unchanged; the pickup is dead and expired, and no other slot changes. |
| Actors.AmmoPickupRefills | Code/Game/Actor.cpp:479-495 | An ammunition pickup adds one magazine to the bag of each magazine weapon and leaves energy weapons alone; the pickup is dead and expired. |
| Actors.OnCollide | Code/Game/Actor.cpp:331-367 | OnCollide keeps every existing actor in its slot, stays within the slot limit and keeps the followed player. |
| Actors.CollideWith | Code/Game/Actor.cpp:340-361 | The contact with another actor keeps every existing actor in its slot, the slot limit and the followed player. |
| Actors.CollisionDeath | Code/Game/Actor.cpp:363-366 | The closing death check keeps every existing actor in its slot, the slot limit and the followed player. |
| Actors.RolledHit | Code/Game/Actor.cpp:349-352 | One rolled collision hit: the victim's vitals become AfterDamage of the roll, unless the victim or the source is a pickup. |
| Actors.ContactHits | Code/Game/Actor.cpp:340-361 | A player (non-AI) touching a pickup takes it as HandlePickupLogic does. Any other contact is a hit rolled from the other's collision damage and blamed on the other, then a hit rolled from the actor's own collision damage and blamed on itself (Actor.cpp:352). The actor's vitals end as AfterDamage of both rolls; a pickup other shields only the first, and a pickup actor is shielded from both. |
| Actors.CollisionExchange | Code/Game/Actor.cpp:331-366 | For an actor that is not a pickup, OnCollide with another actor sets the collision flag, makes the contact as ContactHits says, and ends with the death check (CollisionDeath). |
| Actors.CollisionFlags | Code/Game/Actor.cpp:331-367 | A pickup only records the collision; any other actor that dies on collision is dead afterwards. |
| Actors.CycleWeaponUp | Code/Game/Actor.cpp:426-433 | A successful cycle leaves the index within the inventory, equips the weapon at that index, and changes nothing else. |
| Actors.CycleWeaponDown | Code/Game/Actor.cpp:435-446 | A successful cycle leaves the index within the inventory, equips the weapon at that index, and changes nothing else. |
| Actors.CyclingAgrees | Code/Game/Actor.cpp:426-446 | From a valid index with a weapon equipped, cycling succeeds, moves as CycleUp and CycleDown say, and up followed by down restores the actor. |
| Actors.Attack | Code/Game/Actor.cpp:417-424 | Attack touches only its own actor's slot, and only its weapons. |
| Actors.AttackCatchesUp | Code/Game/Actor.cpp:417-424 | With `n` periods elapsed the equipped weapon fires `n` times: its state is AfterShots and the shots are ShotsOf. Other weapons are unchanged. |
| Actors.ShotsCount | Code/Game/Actor.cpp:417-424 | Each Fire call makes one shot. |
| Actors.GetActor | Code/Game/Controller.cpp:21-24 | The controller's possessed handle resolved on its map; a missing controller or an unset map is a fault. |
| Actors.GetActorHealth | Code/Game/Player.cpp:368-378 | Zero when the possessed actor does not resolve, otherwise that actor's health; it fails exactly when GetActor does. |
| Actors.Acquire | Code/Game/AI.cpp:25-36 | The closest visible enemy's handle if it is alive and not a pickup, else INVALID. |
| Actors.ControllerUpdate | Code/Game/Actor.cpp:99-102 | The controller's update keeps every actor's body, the controller count and the followed player; for an AI controller it is AIUpdate. |
| Actors.AIUpdate | Code/Game/AI.cpp:20-69 | The AI update keeps every actor's body and the controller count. |
| Actors.AIWithoutActorIdles | Code/Game/AI.cpp:23 | An AI whose actor does not resolve changes nothing. |
| Actors.AITargetTransitions | Code/Game/AI.cpp:25-48 | A missing target is replaced by Acquire or stays INVALID; a target on a dead actor is reset to INVALID; a target that does not resolve is a null dereference, so the update is `Err(NullActor)`. |
| Actors.AIAttacksOnlyInRange | Code/Game/AI.cpp:50-65 | The AI attacks only with a weapon equipped and the target strictly inside the melee range; then only its own actor's slot changes. |
| Actors.Advance | Code/Game/Actor.cpp:116-124 | Every weapon is updated; a dead actor does not move; the actor expires exactly when it had expired or its started corpse timer has elapsed. |
| Actors.ActorUpdate | Code/Game/Actor.cpp:92-125 | An actor's update keeps every existing actor in its slot and stays within the slot limit. |
| Actors.UpdateFlags | Code/Game/Actor.cpp:92-125 | A dead actor does not move, one that dies on spawn is dead afterwards, and expiry follows the corpse timer. |
| Actors.OnPossessed | Code/Game/Actor.cpp:369-382 | OnPossessed succeeds exactly for an existing actor and controller; the actor's control becomes Possessed and the controller records the actor's handle. |
| Actors.OnUnpossessed | Code/Game/Actor.cpp:384-389 | OnUnpossessed succeeds exactly when the actor and its controller exist; the control becomes Unpossessed and the controller lets go. |
| Actors.Possess | Code/Game/Controller.cpp:14-19 | Possess keeps every actor in its slot, the slot and controller counts, the followed player and the wave. |
| Actors.PossessHandsOver | Code/Game/Controller.cpp:14-19 | After a successful Possess the controller holds `h`, and the actor `h` names is controlled by it and no longer AI-flagged. |
| Sight.ActorsCast | Code/Game/Map.cpp:955-982 | The result after the first `n` slots: a struck slot replaces the result only when strictly nearer. |
| Sight.RaycastWorldActors | Code/Game/Map.cpp:955-982 | Over all slots: a reported actor is struck, is not the owner, and gives the result; no struck actor is nearer and none in a lower slot is as near; with no actor the result is the miss at the ray's end. |
| Sight.RaycastAll | Code/Game/Map.cpp:753-787 | A zero-length ray reports no impact and leaves `hit` alone; a newly reported actor is one the ray strikes and not the owner. |
| Sight.RaycastAllHitIsNearest | Code/Game/Map.cpp:753-787 | A reported actor is struck by the ray and is not the owner; no other struck actor is nearer. |
| Sight.RaycastAllSkipsOwner | Code/Game/Map.cpp:966-967 | The ray never reports the actor that fired it. |
| Sight.Sightings | Code/Game/Map.cpp:334-352 | A slot is sighted exactly when it is considered and its sight ray detects an actor. |
| Sight.ClosestUpTo | Code/Game/Map.cpp:324-355 | The loop's answer after `n` slots: a sighting replaces it when no farther than the best so far, so of equally near sightings the last one wins. |
| Sight.ClosestIsNearestSighting | Code/Game/Map.cpp:322-358 | The enemy found is occupied, is not the searcher, and is detected by a considered sight ray within 9999; no sighting is nearer, and no later one is equally near. |
| Sight.ClosestVisibleEnemy | Code/Game/Map.cpp:322-358 | The enemy found is an occupied slot other than the searcher's; a searcher whose definition has AI disabled finds nobody. |
| Raycasts.RaycastAll | Code/Game/Map.cpp:753-787 | A zero-length ray gives the miss result and keeps `hit`; otherwise the result is one of the three casts and no farther than any of them; `hit` changes only to the actor cast's answer. |
| Raycasts.RaycastAllTies | Code/Game/Map.cpp:768-784 | The floor/ceiling result wins over the wall result only when strictly closer, and the actor result wins only when strictly closer; `hit` is written only then. |
| Raycasts.ZeroLengthRayMisses | Code/Game/Map.cpp:755-763 | A ray of length zero strikes nothing and leaves `hit` unchanged. |
| MapTick.PushKindOf | Code/Game/Map.cpp:476-503 | Static against dynamic pushes the second actor out, dynamic against static pushes the first, and equal kinds (both static included) push both. |
| MapTick.Pushed | Code/Game/Map.cpp:476-503 | The pushed pair keeps its heights, and each side moves by the disc primitive its push kind selects. |
| MapTick.CollidePair | Code/Game/Map.cpp:461-511 | The pair collision keeps every existing actor in its slot, the slot limit and the followed player. |
| MapTick.FilteredPairUntouched | Code/Game/Map.cpp:461-476 | A pair that the z-range, ownership or death filter rejects is left exactly as it was. |
| MapTick.EngagedPairPushed | Code/Game/Map.cpp:474-510 | An engaged pair moves only in the plane, as its push kind says; without a reported push no callback runs. |
| MapTick.SpawnedPairsPushBoth | Code/Game/Map.cpp:494-503 | Every actor starts static, so between spawned actors the branch that pushes both is the one taken. |
| MapTick.CollideRow | Code/Game/Map.cpp:450-456 | The inner loop over a row keeps every existing actor and stays within the slot limit. |
| MapTick.CollideFrom | Code/Game/Map.cpp:444-459 | All pairs of colliding actors keep every existing actor and stay within the slot limit. |
| MapTick.QuietFrameUntouched | Code/Game/Map.cpp:444-459 | When no pair of colliding actors engages, CollideActors changes nothing. |
| MapTick.SnappedZ | Code/Game/Map.cpp:634-658 | An extent across the ceiling snaps to `1 - height` whatever the ceiling's height; one across the floor snaps to 0. |
| MapTick.CollideActorWithMap | Code/Game/Map.cpp:527-665 | The map collision changes only the actor in its own slot. |
| MapTick.MapCollisionEffects | Code/Game/Map.cpp:527-665 | An actor that does not collide with the world, or is outside the map, is left alone; otherwise it is pushed out of walls, snapped, and calls OnCollide on impact. |
| MapTick.AloneCollisionFlags | Code/Game/Actor.cpp:331-367 | OnCollide with no other actor sets the collision flag, and kills an actor that dies on collision. |
| MapTick.SkippedStaysSkipped | Code/Game/Map.cpp:513-525 | An actor the map collision skips is skipped on every repetition. |
| MapTick.UpdateFrom | Code/Game/Map.cpp:422-426 | The update loop keeps every existing actor in its slot and stays within the slot limit. |
| MapTick.UpdateActors | Code/Game/Map.cpp:420-431 | The update pass, then the two collision passes, keep every existing actor in its slot. |
| MapTick.MapUpdate | Code/Game/Map.cpp:404-409 | A frame keeps every surviving actor and stays within the slot limit. |
| MapTick.FrameSweeps | Code/Game/Map.cpp:404-409 | After a frame no slot holds an expired actor, and every actor that was there and has not expired is still in its slot. |
| MapTick.NextPossessable | Code/Game/Map.cpp:362-371 | The first offset from `lo` whose slot is possessable; none exactly when no offset in range qualifies. |
| MapTick.DebugPossessPicksNext | Code/Game/Map.cpp:360-373 | With no possessable actor the command does nothing; otherwise the player possesses the actor NextPossessable finds. |
| MapTick.DebugPossessFindsAny | Code/Game/Map.cpp:362-371 | Any possessable actor is found, because offsets 1 to n reach every slot, the player's own last. |
| MapTick.OffsetReaches | Code/Game/Map.cpp:364 | Every slot is `(base + k) % n` for some offset `k` from 1 to n. |
| MapTick.SpawnPlayer | Code/Game/Map.cpp:194-221 | SpawnPlayer keeps every existing actor and stays within the slot limit. |
| MapTick.SpawnPlayerPossesses | Code/Game/Map.cpp:194-221 | The marine sits in the lowest empty slot, the player possesses it and resolves to it, and it is player-controlled with a new AI saved. |
| Grid.MakeTile | Code/Game/Tile.cpp:3-7 | The tile keeps its definition and is a unit cube from z = 0 to 1. |
| Grid.TileCorners | Code/Game/Tile.cpp:6 | The tile's corners are `(x, y, 0)` and `(x + 1, y + 1, 1)`. |
| Grid.AdjacentTilesShareEdges | Code/Game/Tile.cpp:6 | Neighbouring tiles share an edge in x and in y. |
| Grid.TilesDoNotOverlap | Code/Game/Tile.cpp:6 | The footprints of distinct tiles do not overlap. |
| Grid.CoordsInBoundsInclusive | Code/Game/Map.cpp:387-394 | AreCoordsInBounds accepts `0 <= x <= dims.x` and `0 <= y <= dims.y`, one past the last tile included. |
| Grid.GetTileIndex | Code/Game/Map.cpp:396-402 | The index stays in `[0, (x-1) + (y-1) * y]`, and an unclamped value is used as it is. |
| Grid.SquareMapIndexInRange | Code/Game/Map.cpp:396-402 | On a square n-by-n map the index stays within the n * n tiles. |
| Grid.SquareMapIndexIsRowMajor | Code/Game/Map.cpp:58-85 | On a square map GetTile reads the tile CreateTiles pushed for the requested cell, provided every texel matches a tile definition (CreateTiles pushes nothing for a texel without a match, Code/Game/Map.cpp:70-78). |
| Grid.NonSquareMapMisindexes | Code/Game/Map.cpp:396-402 | On a 3-by-2 map two cells share a tile; on a 2-by-3 map a cell indexes past the end. |
| Grid.GetTileIndexRowMajor | Code/Game/Map.cpp:396-402 | With the row stride of the tile list, the index stays within the map's tiles. |
| Grid.RowMajorIndexExact | Code/Game/Map.cpp:58-85 | The corrected index reads the requested cell's tile on every map shape, and no two cells share a tile. |
| FrontEnd.NextControlMode | Code/Game/Player.cpp:326-336 | The mode always changes, and becomes CAMERA exactly from ACTOR. |
| FrontEnd.NextControlModeInvolution | Code/Game/Player.cpp:326-336 | Cycling twice restores the mode. |
| FrontEnd.LobbyStep | Code/Game/Game.cpp:928-999 | The lobby handler keeps the counter invariant, including across mode switches. |
| FrontEnd.SwitchModeResets | Code/Game/Game.cpp:166-211 | Closing the current mode and opening another lands in the new mode; the flags are reset exactly when the closed mode is MULTIPLAYER or SURVIVAL or the opened one is ATTRACT (Code/Game/Game.cpp:421-433, 445-462, 879-891), and are otherwise kept; the invariant survives. |
| FrontEnd.LobbyResetInvariant | Code/Game/Game.cpp:460-462 | The resets in attract mode and at shutdown establish the invariant. |
| FrontEnd.KeysKeepInvariant | Code/Game/Game.cpp:928-999 | Each of the four keys keeps the invariant. |
| FrontEnd.KeysMatchDevice | Code/Game/Game.cpp:928-999 | A join is asked only for an absent device, and a leave only for a present one. |
| FrontEnd.LobbyStepKeepsInvariant | Code/Game/Game.cpp:928-999 | `next == [keyboard] + [controller] - 1` holds after the handler, so the counter stays within [-1, 1]. |
| FrontEnd.BothJoinedSpaceStartsMatch | Code/Game/Game.cpp:932-946 | With both devices joined, SPACE switches from the current mode to the versus match; from the lobby it keeps the flags, from a running match it resets them. |
| FrontEnd.SpaceAndStartTogether | Code/Game/Game.cpp:932-980 | With both devices joined, SPACE and START in one frame switch to MULTIPLAYER twice, and the second switch's shutdown resets the flags; an ESC in the same frame then closes the match and opens MENU. |
| FrontEnd.FirstJoinSeesMinusOne | Code/Game/Game.cpp:941-946 | A worked example from the reset lobby: the first join is called with counter -1 and the second with 0. The general fact is LobbyStepKeepsInvariant. |
| FrontEnd.MenuIndexAfter | Code/Game/Game.cpp:603-623 | The cursor moves at most one step; it moves up only on W with its timer elapsed and from above 0, and down only on S with its timer elapsed and not past the last entry. |
| FrontEnd.MenuIndexInRange | Code/Game/Game.cpp:603-623 | The cursor stays within [0, 2] and moves at most one step per key. |
| FrontEnd.ScaledBudget | Code/Game/Game.cpp:912 | The budget is `wave * 1.5` truncated toward zero. |
| FrontEnd.WaveActionOf | Code/Game/Game.cpp:772-789 | A spawn happens exactly with budget left and fewer than 15 enemies, falling back to enemy 0 when the rolled one costs too much; the wave clears exactly with no budget and no enemies left. |
| FrontEnd.AfterSpawn | Code/Game/Game.cpp:786-787 | The cost comes off the budget and one more enemy is on the map. |
| FrontEnd.AfterWaveClear | Code/Game/Game.cpp:909-916 | The wave number goes up by one, the budget is ScaledBudget of it, and no enemies remain. |
| FrontEnd.EnemiesCapped | Code/Game/Game.cpp:772-789 | The spawn path never takes the map past 15 enemies. |
| FrontEnd.ClearedWaveSpawnsAgain | Code/Game/Game.cpp:909-916 | A cleared wave starts the next one with a positive budget and no enemies, so spawning resumes. |
| FrontEnd.BudgetTruncates | Code/Game/Game.cpp:909-916 | Wave 2 gets budget 3 and wave 3 gets 4. |
| FrontEnd.IdleMeansWaiting | Code/Game/Game.cpp:772-789 | An idle frame means either enemies remain with the budget spent, or the map is at the cap with budget left. |
| Session.AddPlayer | Code/Game/Game.cpp:1069-1102 | The player list gains exactly one player, in the first empty slot or appended. |
| Session.AddPlayerFillsFirstGap | Code/Game/Game.cpp:1069-1102 | The new player is in the lowest empty slot, with the controller index and the number the counter gives; no other slot changes. |
| Session.RemoveFromClears | Code/Game/Game.cpp:1104-1135 | Unless two players are joined, removal never fails and empties exactly the slots of the controller's players. |
| Session.RemoveSinglePlayer | Code/Game/Game.cpp:1104-1135 | With at most one player, RemovePlayer clears that player's slots and nothing else. |
| Session.FirstOfTwoLeaves | Code/Game/Game.cpp:1112-1126 | With two players joined and the first leaving, the second moves to slot 0 as player 1, and slot 1 is emptied. |
| Session.SecondOfTwoLeaves | Code/Game/Game.cpp:1112-1126 | With two players joined and the second leaving, its slot is emptied and the first becomes player 1. |
| Session.ClearRoster | Code/Game/Game.cpp:881-888 | Every slot of the list is emptied, and the length is kept. |
| Session.SurvivalSpawn | Code/Game/Game.cpp:772-789 | The spawn block leaves the followed player unchanged. |
| Session.SurvivalFollowsWaveAction | Code/Game/Game.cpp:772-789 | The block does what WaveActionOf decides. A spawn places the chosen definition in the lowest empty slot with its AI targeting the player's actor. The timer starts exactly on a cleared wave. |
| Session.SurvivalCapsEnemies | Code/Game/Game.cpp:772-789 | From at most 15 enemies, the block never leaves more than 15. |
| Loaders.FactionFromString | Code/Game/Game.cpp:1534-1546 | "GOOD" and "Marine" give GOOD, "EVIL" and "Demon" give EVIL, and every other string gives NEUTRAL. |
| Loaders.MissingFactionIsNeutral | Code/Game/Game.cpp:1284-1296 | A missing faction attribute gives NEUTRAL. |
| Loaders.Find | Code/Game/Game.cpp:1170-1177 | The first occurrence of the pattern, or none exactly when it never occurs. |
| Loaders.StripMapShader | Code/Game/Game.cpp:1170-1177 | A path without the directory is kept; a path with it loses exactly the first occurrence, and the text before and after it is kept. |
| Loaders.StripActorShader | Code/Game/Game.cpp:1631-1634 | A throw exactly for a path shorter than 13 characters; otherwise everything after the first 13 characters, whatever they are. |
| Loaders.LoadersAgreeOnPrefixedPaths | Code/Game/Game.cpp:1631-1634 | A path starting with the directory loses exactly that prefix in both loaders. |
| Loaders.DefaultPathStripped | Code/Game/Game.cpp:1631-1634 | "Data/Shaders/Default" becomes "Default" in both loaders. |
| Loaders.LoadersDisagreeInside | Code/Game/Game.cpp:1170-1177 | The two loaders give different results for a path with the directory in the middle. |
| Loaders.ShortPathThrows | Code/Game/Game.cpp:1631-1634 | A short path makes the actor loader throw, while the map loader keeps it. |
| World.Map.FreeSlot | Code/Game/Map.cpp:243-250 | The loop returns the lowest empty slot, or the list size when there is none. |
| World.Map.FindActorDef | Code/Game/Map.cpp:258-264 | The loop returns the last definition with the name, as LastMatch does. |
| World.Map.SpawnActor | Code/Game/Map.cpp:231-283 | The method fails exactly when Arena.SpawnActor does, with the same error; otherwise it leaves its state and returns the handle `(uid, lowest free slot)`. |
| World.Map.KillAIActor | Code/Game/Map.cpp:285-291 | The method agrees with Arena.KillAIActor: the same fault, or its state. |
| World.Map.KillPlayer | Code/Game/Map.cpp:223-229 | The method agrees with Arena.KillPlayer. |
| World.Map.DeleteDestroyedActors | Code/Game/Map.cpp:307-320 | The loop leaves Arena.DeleteDestroyedActors of the old state. |
| World.Map.UpdateEach | Code/Game/Map.cpp:422-426 | The update loop agrees with UpdateFrom from slot 0. |
| World.Map.CollideRowOf | Code/Game/Map.cpp:450-456 | The inner collision loop agrees with CollideRow. |
| World.Map.CollideActors | Code/Game/Map.cpp:444-459 | The nested collision loops agree with CollideFrom from slot 0. |
| World.Map.CollideWithMapRepeatedly | Code/Game/Map.cpp:519-522 | The inner map-collision loop agrees with RepeatMapCollision. |
| World.Map.CollideActorsWithMap | Code/Game/Map.cpp:513-525 | The nested map-collision loops agree with MapCollisionsFrom from slot 0. |
| World.Map.UpdateActors | Code/Game/Map.cpp:420-431 | The three passes agree with MapTick.UpdateActors. |
| World.Map.Update | Code/Game/Map.cpp:404-409 | The frame agrees with MapUpdate. |
| World.Map.DebugPossessNext | Code/Game/Map.cpp:360-373 | The loop agrees with MapTick.DebugPossessNext. |
| World.Map.SpawnPlayer | Code/Game/Map.cpp:194-221 | The method agrees with MapTick.SpawnPlayer. |
| World.Map.SurvivalSpawn | Code/Game/Game.cpp:772-789 | The spawn block agrees with Session.SurvivalSpawn, including whether the wave timer starts. |
| World.Map.OnWaveClear | Code/Game/Game.cpp:909-916 | Only the wave changes, to AfterWaveClear of the old wave. |
| World.Map.ResetWave | Code/Game/Game.cpp:903-906 | Only the wave changes, back to wave 1 with budget 1 and no enemies. |
| World.Map.CycleControlMode | Code/Game/Player.cpp:326-336 | Only controller `c`'s mode changes, to NextControlMode. |
| World.Map.AddKillCount | Code/Game/Player.cpp:348-351 | Only controller `c`'s kill count changes, by exactly one. |
| World.Map.AddDeathCount | Code/Game/Player.cpp:353-356 | Only controller `c`'s death count changes, by exactly one. |
| World.Map.ResetKillCount | Code/Game/Player.cpp:338-341 | Only controller `c`'s kill count changes, to 0. |
| World.Map.ResetDeathCount | Code/Game/Player.cpp:343-346 | Only controller `c`'s death count changes, to 0. |
| World.Effect | Code/Game/Game.cpp:928-999 | A join adds the player as Session.AddPlayer does, a leave removes it as Session.RemovePlayer does, and a mode switch deletes every player exactly when SwitchResets holds for the closed and opened modes, else leaves the list. |
| World.Opened | Code/Game/Game.cpp:928-999 | The modes switched to are exactly the targets of the lobby's mode switches, and there are no more of them than requests. |
| World.AfterEffectsAppend | Code/Game/Game.cpp:928-999 | Two batches of requests applied in order are one batch; a fault stops the rest. |
| World.OpenedAppend | Code/Game/Game.cpp:928-999 | The modes of two batches are the modes of the first, then those of the second. |
| World.LobbyStepPhases | Code/Game/Game.cpp:928-999 | The lobby handler is its join half followed by its leave half. |
| World.SpaceAndStartEmptyRoster | Code/Game/Game.cpp:932-963 | With both devices joined, SPACE and START in one frame leave every player slot null, because the second switch closes the match the first opened (Code/Game/Game.cpp:195-199, 421-430). |
| World.Game.constructor | Code/Game/Game.hpp:102-144 | A new game has no players, nobody joined, the mode ATTRACT, the cursor on survival, and the lobby invariant holds. |
| World.Game.AddPlayer | Code/Game/Game.cpp:1069-1102 | The loop leaves Session.AddPlayer of the old list and changes nothing else. |
| World.Game.RemovePlayer | Code/Game/Game.cpp:1104-1135 | The loop agrees with Session.RemovePlayer and changes nothing else. |
| World.Game.SwitchTo | Code/Game/Game.cpp:166-211 | The flags and mode become SwitchMode of the old ones, and the list becomes World.Effect of the switch. |
| World.Game.JoinKey | Code/Game/Game.cpp:932-963 | One join key agrees with FrontEnd.JoinKey and its effects on the list. |
| World.Game.LeaveKey | Code/Game/Game.cpp:965-998 | One leave key agrees with FrontEnd.LeaveKey and its effects on the list. |
| World.Game.JoinKeys | Code/Game/Game.cpp:932-963 | SPACE then START agree with JoinPhase. |
| World.Game.LeaveKeys | Code/Game/Game.cpp:965-998 | ESC then BACK agree with LeavePhase; a fault stops the handler. |
| World.Game.HandleInputLobby | Code/Game/Game.cpp:928-999 | The handler agrees with LobbyStep and its effects on the list and the mode, returns the modes switched to, and keeps the lobby invariant. |
| World.Game.HandleMenuInput | Code/Game/Game.cpp:603-623 | The cursor becomes MenuIndexAfter of the old one and stays in range; the players and the lobby are unchanged. |
| World.Game.ShutdownPlayers | Code/Game/Game.cpp:879-891 | Every player is deleted, the lobby flags are reset, the mode is kept, and the invariant holds again; `ShutdownGameMode` (Code/Game/Game.cpp:421-433) and `StartAttractMode` (Code/Game/Game.cpp:452-462) do the same. |

## Left out

- Pointers and heap objects: actors and controllers are values in an arena (`Arena.Sim`), and pointers are slot or controller indices. `Actor`, `AI` and `Controller` are therefore not classes here. Their in-place updates are functions on the `Sim`. The model does not capture aliasing between two pointers to the same object beyond what the shared arena slot gives, nor `delete` of controllers (a deleted AI keeps its place in `Sim.ctrls`).
- Memory ownership: leaks of repeated `new Timer` / `new Clock`, and the player left undeleted in RemovePlayer's move branch. Only the nulling of slots is modelled.
- Floating-point geometry: the DDA stepping of `RaycastWorldXY`, the plane solve of `RaycastWorldZ`, the cylinder cast, `PushDiscOutOfDisc2D` / `PushDiscOutOfAABB2D`, `IsPositionInBounds`, `GetCoordFromPosition` and the vision cone. They are uninterpreted parameters in `Geometry`. Reals stand for the floats, without rounding.
- Timers, clocks and the random number generator: these are the parameters `Frame` (which timers have elapsed, the refire periods, the weapon ticks and the movement) and `Env.intDraw` / `Env.floatDraw`, indexed by a draw counter. The wave timer and the reset timer of `UpdateSurvivalMode` appear only as the `timerStarted` flag.
- Velocity, forces, turning and `UpdatePhysics`: the movement of a live actor is a `Frame` parameter. The AI's turn and forward move are left out, and only the choice between attacking and moving is modelled.
- Fire side effects: the hits of `FireRay`, `FireProjectile` and `FireMelee` (Code/Game/Weapon.cpp:146-233) are not modelled. A shot is reported as its kind.
- `Player::Update`, `HandleInput*`, `UpdateCamera`, the game's input dispatch and the menu's SPACE selection, including survival's `AddPlayer(-1)`: they are input and window handling. The lobby is modelled from its four key-press booleans.
- Mode switches (`OnCloseGameMode`, `OnOpenGameMode`, `Startup`): only their effect on the player list, the join flags and `m_gameState` is modelled (`World.Game.SwitchTo`). The map construction, player spawning, music and viewports of the start routines, and the map and definition-table deletion of the shutdown routines, are not.
- ShutdownSurvivalMode: only its player loop, its lobby reset (`World.Game.ShutdownPlayers`) and its wave reset (`World.Map.ResetWave`) are modelled. The map deletion and the clearing of the definition tables are memory management.
- `Player::GetKillCount` / `GetDeathCount`: these are direct reads of the controller's `kills` and `deaths` fields and have no member of their own.
- `UpdateLightBuffer`, `UpdateAllActorVerts`, rendering, animation, audio and HUD: these have no state the simulation reads.
- XML and image loading: the definition tables and the tile grid are given in `Env`. Only the faction mapping, the EVIL filter, the shader-path rules and the tile layout of `CreateTiles` are modelled.
- The texel read of `CreateTiles` (Code/Game/Map.cpp:67): image data is not modelled, so `Grid.RowMajorIndex` assumes that every texel matches a tile definition and does not model which texel each tile was built from.
- The tile lookup inside `CollideActorWithMap`: whether the tiles around an actor are solid is a `Geometry` parameter. So neither `Grid.GetTileIndex` nor the corrected `Grid.GetTileIndexRowMajor` feeds the frame model. The two are compared only in `Grid`.
- `MAX_ACTOR_UID` and `MAX_ACTOR_INDEX`: these are `Env` fields because their header is not part of this model.
- Ordering inside a frame is modelled as the source's sequence of calls; there is no concurrency.
- Weapons.Initial, Weapons.Weapon.constructor: `m_reloadTimer` and `m_cooldownTimer` (Code/Game/Weapon.hpp:55-56) have no initialiser and the constructor (Code/Game/Weapon.cpp:19-28) never sets them, although `Fire` and `Reload` read them. Reading them is undefined behaviour. The model chooses to start both timers as absent, which is the only state in which a new weapon can fire or reload.
- Actors.KillsCountedOnlyBetweenPlayers: after a killing blow the counts are compared with the state right after the zero-health check, not with the state before the hit. The reason is that StartDeath's demon-kill report (`Arena.OnDemonKilled`) may already have added a kill to the followed player.
- Arena.SpawnActor: it states that every existing actor is kept and the limits hold. Which slot is chosen and what it holds is stated by `Arena.SpawnActorPlaces`, not by its own contract.
- MapTick.UpdateActors, MapTick.MapUpdate, MapTick.CollideFrom, MapTick.CollideRow, MapTick.UpdateFrom, MapTick.CollidePair, Actors.TakeDamage, Actors.CollideWith, Actors.CollisionDeath, Actors.OnCollide, Actors.ControllerUpdate and Actors.ActorUpdate: their own contracts state only the frame (no actor deleted or moved between slots, slot count within its limit, followed player kept). The lines below say which lemmas and methods state more; what they do not cover is not stated.
- Actors.TakeDamage: stated by Actors.PickupsTakeNoDamage, Actors.DamageLowersHealth, Actors.KillsCountedOnlyBetweenPlayers and Actors.AggroFollowsTarget.
- MapTick.CollidePair: stated by MapTick.PushKindOf, MapTick.FilteredPairUntouched and MapTick.EngagedPairPushed; the OnCollide callbacks it then runs are not followed further.
- Actors.OnCollide, Actors.CollideWith, Actors.CollisionDeath: stated by Actors.CollisionFlags, Actors.ContactHits and Actors.CollisionExchange. The impulses of OnCollide (Code/Game/Actor.cpp:354-359) are left out with the rest of velocity.
- Actors.ControllerUpdate: for an AI it is Actors.AIUpdate, stated by Actors.AIWithoutActorIdles, Actors.AITargetTransitions and Actors.AIAttacksOnlyInRange; a player controller's update is input handling.
- Actors.ActorUpdate: stated by Actors.UpdateFlags and Actors.Advance.
- MapTick.CollideRow, MapTick.CollideFrom: stated by MapTick.QuietFrameUntouched and by the agreeing methods World.Map.CollideRowOf and World.Map.CollideActors; no lemma follows the effects of a non-quiet frame pair by pair.
- MapTick.UpdateFrom, MapTick.UpdateActors, MapTick.MapUpdate: stated by MapTick.FrameSweeps and by the agreeing methods World.Map.UpdateEach, World.Map.UpdateActors and World.Map.Update; the combined effect of a frame beyond the sweep is not stated.

## Findings

| source | as written | input that shows it | evidently intended | confidence | as-written member | corrected member |
|---|---|---|---|---|---|---|
| Code/Game/Map.cpp:396-402 | `GetTile` computes the flat index `y * dims.y + x`, but `CreateTiles` pushes rows of `dims.x` tiles | a 3-by-2 map: cell (0, 1) gets index 2, the tile of cell (2, 0); on a 2-by-3 map cell (1, 2) gets index 7, past the six tiles (the clamp bound is 1 + 2 * 3 = 7) | the row stride `dims.x`: index `y * dims.x + x`, clamped to the last tile; CreateTiles reads its texels with the same `rows * dims.y` stride (Code/Game/Map.cpp:67), so the intended fix changes that line too (on a 2-by-3 map it reads texel 7 of 6), and until it does, the corrected index still returns a tile built from the wrong texel on a non-square map | not executed | Grid.NonSquareMapMisindexes | Grid.RowMajorIndexExact |
