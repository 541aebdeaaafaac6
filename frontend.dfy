// The small front-end state machines of Code/Game/Game.cpp and
// Code/Game/Player.cpp, stated on values: the player's control-mode toggle,
// the lobby join flags and their counter, the menu cursor, and the survival
// wave bookkeeping. The Game class in module World performs these steps on
// its fields.
module FrontEnd {

  /** The game modes named by `GameState` (NONE and COUNT are never entered). */
  datatype GameState = Attract | Menu | SurvivalMenu | Lobby | Survival | Multiplayer

  /** `ControlMode`: CAMERA is 0 and ACTOR is 1. */
  datatype ControlMode = Camera | ActorControl

  /** `Player::CycleControlMode`: ACTOR goes to CAMERA, anything else one step up. */
  function NextControlMode(m: ControlMode): (r: ControlMode)
    ensures r != m
    ensures r == Camera <==> m == ActorControl
  {
    if m == ActorControl then Camera else ActorControl
  }

  /** Cycling twice restores the mode. */
  lemma NextControlModeInvolution(m: ControlMode)
    ensures NextControlMode(NextControlMode(m)) == m
  {
  }

  // ---------------------------------------------------------------- lobby

  /** The controller index a keyboard player is created with. */
  const KeyboardPlayer: int := -1
  /** The controller index the first game pad's player is created with. */
  const GamepadPlayer: int := 0

  /** `m_keyboardActive`, `m_controllerActive`, `m_nextPlayerIndex`. */
  datatype LobbyFlags = LobbyFlags(keyboardActive: bool, controllerActive: bool, nextPlayerIndex: int)

  function Count(b: bool): int
  {
    if b then 1 else 0
  }

  /** The counter is one less than the number of joined input devices. */
  predicate LobbyInvariant(f: LobbyFlags)
  {
    f.nextPlayerIndex == Count(f.keyboardActive) + Count(f.controllerActive) - 1
  }

  /** What the attract-mode and shutdown resets leave behind. */
  const LobbyReset: LobbyFlags := LobbyFlags(false, false, -1)

  /** The four lobby inputs of one frame, in the order they are examined. */
  datatype LobbyInput = LobbyInput(space: bool, start: bool, escape: bool, back: bool)

  /** What the lobby handler reads and writes: the join flags and `m_gameState`. */
  datatype Front = Front(flags: LobbyFlags, mode: GameState)

  /**
   * Whether `OnCloseGameMode()` in `from` followed by `OnOpenGameMode(to)`
   * deletes every player and resets the join flags: `ShutdownGameMode` and
   * `ShutdownSurvivalMode` do so on closing, `StartAttractMode` on opening;
   * the other start and shutdown routines touch neither.
   */
  predicate SwitchResets(from: GameState, to: GameState)
  {
    from == Multiplayer || from == Survival || to == Attract
  }

  /** The flags and mode after closing the current mode and opening `to`. */
  function SwitchMode(s: Front, to: GameState): (r: Front)
  {
    Front(if SwitchResets(s.mode, to) then LobbyReset else s.flags, to)
  }

  /**
   * A side effect a lobby input asks for: adding or removing the player of a
   * controller index (with the counter as it stands at the call), or
   * closing the current mode and opening another.
   */
  datatype LobbyEffect =
    | Join(controllerIndex: int, counterAtCall: int)
    | Leave(controllerIndex: int, counterAtCall: int)
    | Switch(from: GameState, to: GameState)

  /** SPACE (keyboard) or START (game pad): start the match once both joined, else join. */
  function JoinKey(s: Front, keyboard: bool): (r: (Front, seq<LobbyEffect>))
  {
    var f := s.flags;
    var active := if keyboard then f.keyboardActive else f.controllerActive;
    if f.keyboardActive && f.controllerActive then (SwitchMode(s, Multiplayer), [Switch(s.mode, Multiplayer)])
    else if !active then
      var f' := if keyboard then f.(keyboardActive := true) else f.(controllerActive := true);
      (s.(flags := f'.(nextPlayerIndex := f.nextPlayerIndex + 1)),
       [Join(if keyboard then KeyboardPlayer else GamepadPlayer, f.nextPlayerIndex)])
    else (s, [])
  }

  /** ESC (keyboard) or BACK (game pad): leave when joined, else return to the menu. */
  function LeaveKey(s: Front, keyboard: bool): (r: (Front, seq<LobbyEffect>))
  {
    var f := s.flags;
    var active := if keyboard then f.keyboardActive else f.controllerActive;
    if !active then (SwitchMode(s, Menu), [Switch(s.mode, Menu)])
    else
      var f' := if keyboard then f.(keyboardActive := false) else f.(controllerActive := false);
      (s.(flags := f'.(nextPlayerIndex := f.nextPlayerIndex - 1)),
       [Leave(if keyboard then KeyboardPlayer else GamepadPlayer, f.nextPlayerIndex)])
  }

  /**
   * `Game::HandleInputLobby`: the four inputs in source order; a mode switch
   * does not stop the inputs after it from being examined, and they see the
   * flags and the mode the switch left.
   */
  function LobbyStep(s: Front, i: LobbyInput): (r: (Front, seq<LobbyEffect>))
    ensures LobbyInvariant(s.flags) ==> LobbyInvariant(r.0.flags)
  {
    var r1 := if i.space then JoinKey(s, true) else (s, []);
    var r2 := if i.start then JoinKey(r1.0, false) else (r1.0, []);
    var r3 := if i.escape then LeaveKey(r2.0, true) else (r2.0, []);
    var r4 := if i.back then LeaveKey(r3.0, false) else (r3.0, []);
    (r4.0, r1.1 + r2.1 + r3.1 + r4.1)
  }

  /** The resets establish the invariant. */
  lemma LobbyResetInvariant()
    ensures LobbyInvariant(LobbyReset)
  {
  }

  /**
   * A mode switch lands in the requested mode; it resets the flags exactly
   * when the mode closed or opened does so, and otherwise keeps them.
   */
  lemma SwitchModeResets(s: Front, to: GameState)
    ensures SwitchMode(s, to).mode == to
    ensures SwitchResets(s.mode, to) ==> SwitchMode(s, to).flags == LobbyReset
    ensures !SwitchResets(s.mode, to) ==> SwitchMode(s, to).flags == s.flags
    ensures LobbyInvariant(s.flags) ==> LobbyInvariant(SwitchMode(s, to).flags)
  {
  }

  /** Each key keeps the invariant. */
  lemma KeysKeepInvariant(s: Front, keyboard: bool)
    requires LobbyInvariant(s.flags)
    ensures LobbyInvariant(JoinKey(s, keyboard).0.flags)
    ensures LobbyInvariant(LeaveKey(s, keyboard).0.flags)
  {
  }

  /** A join is only ever asked for an absent device, a leave only for a present one. */
  lemma KeysMatchDevice(s: Front, keyboard: bool)
    ensures forall e :: e in JoinKey(s, keyboard).1 && e.Join? ==>
      !(if keyboard then s.flags.keyboardActive else s.flags.controllerActive)
    ensures forall e :: e in LeaveKey(s, keyboard).1 && e.Leave? ==>
      (if keyboard then s.flags.keyboardActive else s.flags.controllerActive)
  {
  }

  /**
   * Joins, leaves and mode switches preserve `next == [keyboard] +
   * [controller] - 1`, so the counter stays within [-1, 1].
   */
  lemma LobbyStepKeepsInvariant(s: Front, i: LobbyInput)
    requires LobbyInvariant(s.flags)
    ensures LobbyInvariant(LobbyStep(s, i).0.flags)
    ensures -1 <= LobbyStep(s, i).0.flags.nextPlayerIndex <= 1
  {
  }

  /**
   * With both devices joined, SPACE closes the current mode and opens the
   * versus match; closing the lobby keeps the flags, closing a running
   * match resets them.
   */
  lemma BothJoinedSpaceStartsMatch(s: Front)
    requires s.flags.keyboardActive && s.flags.controllerActive
    ensures JoinKey(s, true).1 == [Switch(s.mode, Multiplayer)]
    ensures JoinKey(s, true).0.mode == Multiplayer
    ensures s.mode == Lobby ==> JoinKey(s, true).0.flags == s.flags
    ensures s.mode == Multiplayer ==> JoinKey(s, true).0.flags == LobbyReset
  {
  }

  /**
   * SPACE and START in one frame with both devices joined: SPACE opens the
   * versus match, START finds both flags still set and switches again, so
   * the match's shutdown resets the flags; a following ESC then sees no
   * keyboard player and closes the match for the menu.
   */
  lemma SpaceAndStartTogether(f: LobbyFlags)
    requires f.keyboardActive && f.controllerActive
    ensures LobbyStep(Front(f, Lobby), LobbyInput(true, true, false, false)) ==
      (Front(LobbyReset, Multiplayer), [Switch(Lobby, Multiplayer), Switch(Multiplayer, Multiplayer)])
    ensures LobbyStep(Front(f, Lobby), LobbyInput(true, true, true, false)) ==
      (Front(LobbyReset, Menu),
       [Switch(Lobby, Multiplayer), Switch(Multiplayer, Multiplayer), Switch(Multiplayer, Menu)])
  {
    var s1 := Front(f, Multiplayer);
    var s2 := Front(LobbyReset, Multiplayer);
    assert JoinKey(Front(f, Lobby), true) == (s1, [Switch(Lobby, Multiplayer)]);
    assert JoinKey(s1, false) == (s2, [Switch(Multiplayer, Multiplayer)]);
    assert LeaveKey(s2, true) == (Front(LobbyReset, Menu), [Switch(Multiplayer, Menu)]);
    assert [Switch(Lobby, Multiplayer)] + [Switch(Multiplayer, Multiplayer)] + [] + [] ==
      [Switch(Lobby, Multiplayer), Switch(Multiplayer, Multiplayer)];
    assert [Switch(Lobby, Multiplayer)] + [Switch(Multiplayer, Multiplayer)] + [Switch(Multiplayer, Menu)] + [] ==
      [Switch(Lobby, Multiplayer), Switch(Multiplayer, Multiplayer), Switch(Multiplayer, Menu)];
  }

  /**
   * A worked example of the fact LobbyStepKeepsInvariant states in general:
   * a join records the counter it was called with, so from the reset lobby
   * the first join sees -1 and the second sees 0.
   */
  lemma FirstJoinSeesMinusOne()
    ensures LobbyStep(Front(LobbyReset, Lobby), LobbyInput(true, false, false, false)) ==
      (Front(LobbyFlags(true, false, 0), Lobby), [Join(KeyboardPlayer, -1)])
    ensures LobbyStep(Front(LobbyReset, Lobby), LobbyInput(true, true, false, false)) ==
      (Front(LobbyFlags(true, true, 1), Lobby), [Join(KeyboardPlayer, -1), Join(GamepadPlayer, 0)])
  {
    var s0 := Front(LobbyReset, Lobby);
    var s1 := Front(LobbyFlags(true, false, 0), Lobby);
    assert JoinKey(s0, true) == (s1, [Join(KeyboardPlayer, -1)]);
    assert JoinKey(s1, false) == (Front(LobbyFlags(true, true, 1), Lobby), [Join(GamepadPlayer, 0)]);
    assert [Join(KeyboardPlayer, -1)] + [] + [] + [] == [Join(KeyboardPlayer, -1)];
    assert [Join(KeyboardPlayer, -1)] + [Join(GamepadPlayer, 0)] + [] + [] ==
      [Join(KeyboardPlayer, -1), Join(GamepadPlayer, 0)];
  }

  // ----------------------------------------------------------------- menu

  /** The last menu entry: 0 survival, 1 versus, 2 quit. */
  const LastMenuOption: int := 2

  /**
   * The W and S keys of one frame with the answers the menu timer gives when
   * each is examined.
   */
  datatype MenuInput = MenuInput(up: bool, upTimerElapsed: bool, down: bool, downTimerElapsed: bool)

  /** `HandleMenuInput`'s cursor: W moves up above 0, S moves down below 2. */
  function MenuIndexAfter(idx: int, i: MenuInput): (r: int)
    ensures idx - 1 <= r <= idx + 1
    ensures r < idx ==> i.up && i.upTimerElapsed && idx > 0
    ensures r > idx ==> i.down && i.downTimerElapsed && r <= LastMenuOption
  {
    var a := if i.up && idx > 0 && i.upTimerElapsed then idx - 1 else idx;
    if i.down && i.downTimerElapsed && a < LastMenuOption then a + 1 else a
  }

  /** The cursor stays on one of the three entries and moves at most one step per key. */
  lemma MenuIndexInRange(idx: int, i: MenuInput)
    requires 0 <= idx <= LastMenuOption
    ensures 0 <= MenuIndexAfter(idx, i) <= LastMenuOption
    ensures idx - 1 <= MenuIndexAfter(idx, i) <= idx + 1
    ensures MenuIndexAfter(idx, i) < idx ==> i.up && i.upTimerElapsed
    ensures MenuIndexAfter(idx, i) > idx ==> i.down && i.downTimerElapsed
  {
  }

  // ----------------------------------------------------------------- waves

  /** `m_maxEnemisOnMap`. */
  const MaxEnemiesOnMap: int := 15

  /** `m_waveNumber`, `m_waveBudget`, `m_enemiesRemainingOnMap`. */
  datatype Wave = Wave(number: int, budget: int, enemies: int)

  /** The values the survival mode starts from and `ShutdownSurvivalMode` restores. */
  const WaveStart: Wave := Wave(1, 1, 0)

  /**
   * `(int)(wave * 1.5f)`: the cast truncates toward zero. The product is
   * exact in single precision for the wave numbers reached in play.
   */
  function ScaledBudget(wave: int): (b: int)
    ensures wave >= 0 ==> 2 * b <= 3 * wave < 2 * b + 2
    ensures wave <= 0 ==> 2 * b >= 3 * wave > 2 * b - 2
  {
    if wave >= 0 then (3 * wave) / 2 else -((-3 * wave) / 2)
  }

  /** What the wave logic does in a frame while the wave timer is stopped. */
  datatype WaveAction = SpawnEnemy(enemyIndex: nat) | ClearWave | Idle

  /**
   * The survival spawn block: spawn while budget remains and the map holds
   * fewer than 15 enemies, substituting enemy 0 when the rolled one costs
   * more than the budget; clear the wave once the budget is spent and no
   * enemies remain.
   */
  function WaveActionOf(w: Wave, rolledIndex: nat, rolledCost: int): (a: WaveAction)
    ensures a.SpawnEnemy? <==> w.budget > 0 && w.enemies < MaxEnemiesOnMap
    ensures a.SpawnEnemy? ==> a.enemyIndex == (if rolledCost > w.budget then 0 else rolledIndex)
    ensures a.ClearWave? <==> w.budget <= 0 && w.enemies <= 0
  {
    if w.budget > 0 && w.enemies < MaxEnemiesOnMap then
      SpawnEnemy(if rolledCost > w.budget then 0 else rolledIndex)
    else if w.budget <= 0 && w.enemies <= 0 then ClearWave
    else Idle
  }

  /** After a spawn of an enemy of the given cost. */
  function AfterSpawn(w: Wave, cost: int): (w': Wave)
    ensures w'.number == w.number && w'.budget == w.budget - cost && w'.enemies == w.enemies + 1
  {
    w.(budget := w.budget - cost, enemies := w.enemies + 1)
  }

  /** `OnWaveClear`. */
  function AfterWaveClear(w: Wave): (w': Wave)
    ensures w'.number == w.number + 1 && w'.budget == ScaledBudget(w.number + 1) && w'.enemies == 0
  {
    Wave(w.number + 1, ScaledBudget(w.number + 1), 0)
  }

  /** `Map::OnDemonKilled`'s part of the wave: one enemy fewer. */
  function AfterDemonKilled(w: Wave): (w': Wave)
    ensures w' == w.(enemies := w.enemies - 1)
  {
    w.(enemies := w.enemies - 1)
  }

  /** The wave state after the frame's action. */
  function WaveAfter(w: Wave, a: WaveAction, cost: int): Wave
  {
    match a
    case SpawnEnemy(_) => AfterSpawn(w, cost)
    case ClearWave => AfterWaveClear(w)
    case Idle => w
  }

  /** The spawn path never takes the map past 15 enemies. */
  lemma EnemiesCapped(w: Wave, rolledIndex: nat, rolledCost: int, cost: int)
    requires w.enemies <= MaxEnemiesOnMap
    ensures WaveAfter(w, WaveActionOf(w, rolledIndex, rolledCost), cost).enemies <= MaxEnemiesOnMap
  {
  }

  /** A cleared wave starts the next with a positive budget and no enemies, so spawning resumes. */
  lemma ClearedWaveSpawnsAgain(w: Wave, rolledIndex: nat, rolledCost: int)
    requires w.number >= 0
    ensures AfterWaveClear(w).budget >= 1
    ensures WaveActionOf(AfterWaveClear(w), rolledIndex, rolledCost).SpawnEnemy?
  {
  }

  /** Wave 2 gets budget 3 and wave 3 gets 4: the half is dropped. */
  lemma BudgetTruncates()
    ensures AfterWaveClear(WaveStart) == Wave(2, 3, 0)
    ensures AfterWaveClear(AfterWaveClear(WaveStart)) == Wave(3, 4, 0)
  {
  }

  /** An idle frame changes nothing: enemies are still on the map, or budget remains at the cap. */
  lemma IdleMeansWaiting(w: Wave, rolledIndex: nat, rolledCost: int)
    requires WaveActionOf(w, rolledIndex, rolledCost).Idle?
    ensures (w.budget <= 0 && w.enemies > 0) || (w.budget > 0 && w.enemies >= MaxEnemiesOnMap)
  {
  }
}
