// The game-level bookkeeping of Code/Game/Game.cpp on values: the player
// list that the lobby and the menus fill and empty, and the survival mode's
// spawn block that turns the wave budget into demons on the map.
module Session {
  import opened Wrappers
  import opened Vectors
  import opened ActorHandles
  import opened Definitions
  import opened Slots
  import opened FrontEnd
  import opened Arena

  // ------------------------------------------------------------ player list

  /** `m_playerList`: a slot per player, null once a player is deleted. */
  type Roster = seq<Option<ControllerState>>

  /** The number a new player gets: 1 while the lobby counter is -1, else 2. */
  function PlayerNumberFor(nextPlayerIndex: int): (n: int)
    ensures n == 1 <==> nextPlayerIndex == -1
    ensures n == 1 || n == 2
  {
    if nextPlayerIndex == -1 then 1 else 2
  }

  /**
   * `AddPlayer(controllerIndex)`: a new player for the controller goes into
   * the first empty slot of the list, or is appended when there is none.
   */
  function AddPlayer(list: Roster, controllerIndex: int, nextPlayerIndex: int): (r: Roster)
    ensures |r| == |list| || |r| == |list| + 1
  {
    Place(list, FirstFree(list), NewPlayer(controllerIndex, PlayerNumberFor(nextPlayerIndex)))
  }

  /**
   * The new player sits in the lowest empty slot, with the controller index
   * and the number the counter gives; every other slot is unchanged and the
   * list grows only when it had no empty slot.
   */
  lemma AddPlayerFillsFirstGap(list: Roster, controllerIndex: int, nextPlayerIndex: int)
    ensures var r := AddPlayer(list, controllerIndex, nextPlayerIndex);
      var k := FirstFree(list);
      && k < |r| && r[k] == Some(NewPlayer(controllerIndex, PlayerNumberFor(nextPlayerIndex)))
      && (forall j :: 0 <= j < k ==> list[j].Some?)
      && (forall j :: 0 <= j < |list| && j != k ==> r[j] == list[j])
      && (|r| == |list| + 1 <==> forall j :: 0 <= j < |list| ==> list[j].Some?)
  {
    PlaceFirstFree(list, NewPlayer(controllerIndex, PlayerNumberFor(nextPlayerIndex)));
  }

  /** Whether slot `j` holds a player of the controller index. */
  predicate HoldsPlayer(list: Roster, j: nat, controllerIndex: int)
    requires j < |list|
  {
    list[j].Some? && list[j].value.playerIndex == controllerIndex
  }

  /**
   * The loop of `RemovePlayer(controllerIndex)` from slot `j` on. With two
   * players joined (counter 1), removing the first moves the second into
   * slot 0 as player 1; removing another renumbers slot 0 as player 1.
   * Otherwise the slot is just emptied. A missing partner is a null
   * dereference in the source, and slot 1 past the end an out-of-range access.
   */
  function RemoveFrom(list: Roster, controllerIndex: int, nextPlayerIndex: int, j: nat): (r: Result<Roster, Fault>)
    ensures r.Ok? ==> |r.value| == |list|
    decreases |list| - j
  {
    if j >= |list| then Ok(list)
    else if !HoldsPlayer(list, j, controllerIndex) then RemoveFrom(list, controllerIndex, nextPlayerIndex, j + 1)
    else if nextPlayerIndex == 1 then
      if j == 0 then
        if |list| < 2 then Err(IndexOutOfRange)
        else if list[1].None? then Err(NullController)
        else RemoveFrom(list[0 := Some(list[1].value.(playerNumber := 1))][1 := None], controllerIndex, nextPlayerIndex, j + 1)
      else
        var l1 := list[j := None];
        if l1[0].None? then Err(NullController)
        else RemoveFrom(l1[0 := Some(l1[0].value.(playerNumber := 1))], controllerIndex, nextPlayerIndex, j + 1)
    else RemoveFrom(list[j := None], controllerIndex, nextPlayerIndex, j + 1)
  }

  /** `RemovePlayer(controllerIndex)`. */
  function RemovePlayer(list: Roster, controllerIndex: int, nextPlayerIndex: int): (r: Result<Roster, Fault>)
    ensures r.Ok? ==> |r.value| == |list|
  {
    RemoveFrom(list, controllerIndex, nextPlayerIndex, 0)
  }

  /** The slots of the controller's players. */
  function PlayerMarks(list: Roster, controllerIndex: int): (m: seq<bool>)
    ensures |m| == |list|
    ensures forall j :: 0 <= j < |list| ==> (m[j] <==> HoldsPlayer(list, j, controllerIndex))
  {
    seq(|list|, j requires 0 <= j < |list| => HoldsPlayer(list, j, controllerIndex))
  }

  /**
   * Unless two players are joined, removal never fails and empties exactly
   * the slots of the controller's players.
   */
  lemma {:induction false} RemoveFromClears(list: Roster, controllerIndex: int, nextPlayerIndex: int, j: nat)
    requires nextPlayerIndex != 1 && j <= |list|
    ensures var r := RemoveFrom(list, controllerIndex, nextPlayerIndex, j);
      && r.Ok?
      && (forall k :: 0 <= k < j ==> r.value[k] == list[k])
      && (forall k :: j <= k < |list| ==> r.value[k] == if HoldsPlayer(list, k, controllerIndex) then None else list[k])
    decreases |list| - j
  {
    if j < |list| {
      if HoldsPlayer(list, j, controllerIndex) {
        var l1 := list[j := None];
        RemoveFromClears(l1, controllerIndex, nextPlayerIndex, j + 1);
        assert forall k :: j < k < |list| ==> HoldsPlayer(l1, k, controllerIndex) == HoldsPlayer(list, k, controllerIndex);
      } else {
        RemoveFromClears(list, controllerIndex, nextPlayerIndex, j + 1);
      }
    }
  }

  /** With one player or none, RemovePlayer clears the player's slots and nothing else. */
  lemma RemoveSinglePlayer(list: Roster, controllerIndex: int, nextPlayerIndex: int)
    requires nextPlayerIndex != 1
    ensures RemovePlayer(list, controllerIndex, nextPlayerIndex) == Ok(ClearMarked(list, PlayerMarks(list, controllerIndex)))
  {
    RemoveFromClears(list, controllerIndex, nextPlayerIndex, 0);
    var r := RemovePlayer(list, controllerIndex, nextPlayerIndex).value;
    assert r == ClearMarked(list, PlayerMarks(list, controllerIndex));
  }

  /** From slot `j` on, no slot holds a player of the controller: the loop changes nothing more. */
  lemma {:induction false} NoMoreMatches(list: Roster, controllerIndex: int, nextPlayerIndex: int, j: nat)
    requires forall k :: j <= k < |list| ==> !HoldsPlayer(list, k, controllerIndex)
    ensures RemoveFrom(list, controllerIndex, nextPlayerIndex, j) == Ok(list)
    decreases |list| - j
  {
    if j < |list| {
      NoMoreMatches(list, controllerIndex, nextPlayerIndex, j + 1);
    }
  }

  /**
   * Two players joined, the first of them leaving: the second moves to slot
   * 0 as player 1, and slot 1 is emptied.
   */
  lemma FirstOfTwoLeaves(list: Roster, controllerIndex: int)
    requires |list| >= 2 && HoldsPlayer(list, 0, controllerIndex) && list[1].Some?
    requires forall k :: 1 <= k < |list| ==> !HoldsPlayer(list, k, controllerIndex)
    ensures RemovePlayer(list, controllerIndex, 1) == Ok(list[0 := Some(list[1].value.(playerNumber := 1))][1 := None])
  {
    var l1 := list[0 := Some(list[1].value.(playerNumber := 1))][1 := None];
    forall k | 1 <= k < |l1|
      ensures !HoldsPlayer(l1, k, controllerIndex)
    {
      if k >= 2 {
        assert l1[k] == list[k] && !HoldsPlayer(list, k, controllerIndex);
      }
    }
    NoMoreMatches(l1, controllerIndex, 1, 1);
  }

  /**
   * Two players joined, the second leaving: its slot is emptied and the
   * first becomes player 1.
   */
  lemma SecondOfTwoLeaves(list: Roster, controllerIndex: int, j: nat)
    requires 0 < j < |list| && HoldsPlayer(list, j, controllerIndex) && list[0].Some?
    requires forall k :: 0 <= k < |list| && k != j ==> !HoldsPlayer(list, k, controllerIndex)
    ensures RemovePlayer(list, controllerIndex, 1) == Ok(list[j := None][0 := Some(list[0].value.(playerNumber := 1))])
  {
    var l1 := list[j := None][0 := Some(list[0].value.(playerNumber := 1))];
    forall k | j < k < |l1|
      ensures !HoldsPlayer(l1, k, controllerIndex)
    {
      assert l1[k] == list[k] && !HoldsPlayer(list, k, controllerIndex);
    }
    NoMoreMatches(l1, controllerIndex, 1, j + 1);
    SkipTo(list, controllerIndex, 1, 0, j);
  }

  /** Slots without a match before `j` are skipped. */
  lemma {:induction false} SkipTo(list: Roster, controllerIndex: int, nextPlayerIndex: int, i: nat, j: nat)
    requires i <= j <= |list|
    requires forall k :: i <= k < j ==> !HoldsPlayer(list, k, controllerIndex)
    ensures RemoveFrom(list, controllerIndex, nextPlayerIndex, i) == RemoveFrom(list, controllerIndex, nextPlayerIndex, j)
    decreases j - i
  {
    if i < j {
      SkipTo(list, controllerIndex, nextPlayerIndex, i + 1, j);
    }
  }

  /** The loop that deletes every player (ShutdownSurvivalMode, ShutdownGameMode, StartAttractMode). */
  function ClearRoster(list: Roster): (r: Roster)
    ensures |r| == |list| && forall j :: 0 <= j < |list| ==> r[j].None?
  {
    seq(|list|, j => None)
  }

  // ------------------------------------------------------------ survival

  /** The survival spawn block's rolls: the enemy definition, then the spawn point. */
  function RolledEnemy(env: Env, s: Sim, enemyDefs: seq<ActorDef>): int
  {
    env.intDraw(s.draws, 0, |enemyDefs| - 1)
  }

  function RolledSpot(env: Env, s: Sim, spawnPoints: seq<Vec3>): int
  {
    env.intDraw(s.draws + 1, 1, |spawnPoints| - 1)
  }

  /** The wave state after the block, and whether OnWaveClear started the wave timer. */
  datatype WaveStep = WaveStep(sim: Sim, timerStarted: bool)

  /**
   * The spawn block of `UpdateSurvivalMode`, run while the wave timer is
   * stopped: with budget left and fewer than 15 enemies, a rolled EVIL
   * definition (the first one when the rolled one costs more than the
   * budget) is spawned at a rolled spawn point other than the first, its AI
   * turns on the player's actor, and its cost comes off the budget; with the
   * budget spent and no enemies left, the wave is cleared. A roll outside
   * the lists is an out-of-range access.
   */
  function SurvivalSpawn(env: Env, s: Sim, enemyDefs: seq<ActorDef>, spawnPoints: seq<Vec3>): (r: Result<WaveStep, Fault>)
    ensures r.Ok? ==> r.value.sim.player == s.player
  {
    var w := s.wave;
    if w.budget > 0 && w.enemies < MaxEnemiesOnMap then
      var rolled := RolledEnemy(env, s, enemyDefs);
      if rolled < 0 || rolled >= |enemyDefs| then Err(IndexOutOfRange)
      else
        var idx := if enemyDefs[rolled].spawnCost > w.budget then 0 else rolled;
        var spot := RolledSpot(env, s, spawnPoints);
        if spot < 0 || spot >= |spawnPoints| then Err(IndexOutOfRange)
        else
          var s1 :- SpawnActor(env, s.(draws := s.draws + 2), enemyDefs[idx].name, spawnPoints[spot]);
          var p :- Ctrl(s1, s1.player);
          var ai := |s1.ctrls| - 1;
          var s2 := SetCtrl(s1, ai, s1.ctrls[ai].(target := p.possessedActor));
          Ok(WaveStep(s2.(wave := AfterSpawn(w, enemyDefs[idx].spawnCost)), false))
    else if w.budget <= 0 && w.enemies <= 0 then Ok(WaveStep(s.(wave := AfterWaveClear(w)), true))
    else Ok(WaveStep(s, false))
  }

  /**
   * The block does what WaveActionOf decides for the rolled enemy: the wave
   * becomes WaveAfter of that action, with the cost of the enemy actually
   * spawned; a spawn places the chosen definition's actor in the lowest empty
   * slot, its AI targeting the player's actor; the timer starts exactly on a
   * cleared wave.
   */
  lemma SurvivalFollowsWaveAction(env: Env, s: Sim, enemyDefs: seq<ActorDef>, spawnPoints: seq<Vec3>)
    requires s.player.Some? ==> s.player.value < |s.ctrls|
    requires SurvivalSpawn(env, s, enemyDefs, spawnPoints).Ok?
    ensures var w := s.wave;
      var t := SurvivalSpawn(env, s, enemyDefs, spawnPoints).value;
      var rolled := RolledEnemy(env, s, enemyDefs);
      var spawning := w.budget > 0 && w.enemies < MaxEnemiesOnMap;
      && (spawning ==> 0 <= rolled < |enemyDefs|)
      && var a := WaveActionOf(w, if spawning then rolled else 0, if spawning then enemyDefs[rolled].spawnCost else 0);
      && (t.timerStarted <==> a.ClearWave?)
      && (a.SpawnEnemy? ==>
            && a.enemyIndex < |enemyDefs|
            && t.sim.wave == WaveAfter(w, a, enemyDefs[a.enemyIndex].spawnCost)
            && var free := FirstFree(s.slots);
            && free < |t.sim.slots| && t.sim.slots[free].Some?
            && t.sim.slots[free].value.def.name == enemyDefs[a.enemyIndex].name
            && s.player.Some? && s.player.value < |s.ctrls|
            && t.sim.ctrls[|s.ctrls|].target == s.ctrls[s.player.value].possessedActor)
      && (!a.SpawnEnemy? ==> t.sim == s.(wave := WaveAfter(w, a, 0)))
  {
    var w := s.wave;
    if w.budget > 0 && w.enemies < MaxEnemiesOnMap {
      var rolled := RolledEnemy(env, s, enemyDefs);
      var idx := if enemyDefs[rolled].spawnCost > w.budget then 0 else rolled;
      var spot := RolledSpot(env, s, spawnPoints);
      var s0 := s.(draws := s.draws + 2);
      SpawnActorPlaces(env, s0, enemyDefs[idx].name, spawnPoints[spot]);
      LastMatchNamed(env, enemyDefs[idx].name);
    }
  }

  /** The definition a spawn resolves carries the name asked for. */
  lemma LastMatchNamed(env: Env, name: string)
    requires LookupSucceeds(ActorDefNames(env.actorDefs), name)
    ensures SpawnDef(env, name).name == name
  {
  }

  /** Starting from at most 15 enemies, the block never leaves more than 15. */
  lemma SurvivalCapsEnemies(env: Env, s: Sim, enemyDefs: seq<ActorDef>, spawnPoints: seq<Vec3>)
    requires s.wave.enemies <= MaxEnemiesOnMap
    requires SurvivalSpawn(env, s, enemyDefs, spawnPoints).Ok?
    ensures SurvivalSpawn(env, s, enemyDefs, spawnPoints).value.sim.wave.enemies <= MaxEnemiesOnMap
  {
  }
}
