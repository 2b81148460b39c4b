/** Properties that relate several calls of the game manager's transitions:
    the score ceiling, the ghost cap over a session, explode-key counting, the
    refill of the color queue, the turn's input latch and the save/load round trip. */
module Properties {
  import opened Common
  import opened Config
  import opened Board
  import opened Manager

  // ----------------------------------------------------------------- score

  /** The state after `n` exploded balls, each scored with one `Score` call. */
  function ScoreTimes(cfg: GameplayConfig, s: GameState, n: nat): GameState
    decreases n
  {
    if n == 0 then s else ScoreTimes(cfg, Score(cfg, s), n - 1)
  }

  /** A product of non-negative factors is non-negative. */
  lemma MulNonNegative(a: int, step: int)
    requires a >= 0 && step >= 0
    ensures a * step >= 0
  {
  }

  /** A product with a positive factor keeps the order of the other factor. */
  lemma MulOrder(x: int, y: int, step: int)
    requires step > 0
    ensures x * step < y * step ==> x < y
    ensures x < y ==> x * step + step <= y * step
  {
    if x >= y {
      MulNonNegative(x - y, step);
      assert (x - y) * step == x * step - y * step;
    } else {
      MulNonNegative(y - x - 1, step);
      assert (y - x - 1) * step == y * step - x * step - step;
    }
  }

  /** One more step of `step` points. */
  lemma MulSucc(n: nat, step: nat)
    requires n > 0
    ensures n * step == (n - 1) * step + step
    ensures (n - 1) * step >= 0
  {
  }

  /** Scoring from `j` steps towards a ceiling of `m` steps climbs one step per
      exploded ball and stops on the ceiling. */
  lemma {:induction false} ScoreClimb(cfg: GameplayConfig, s: GameState, n: nat, j: nat, m: nat)
    requires cfg.scorePerExploded > 0
    requires s.currentScore as int == j * cfg.scorePerExploded as int
    requires cfg.maxScore as int == m * cfg.scorePerExploded as int
    requires j <= m
    ensures ScoreTimes(cfg, s, n).currentScore as int
            == Min(s.currentScore as int + n * cfg.scorePerExploded as int, cfg.maxScore as int)
    ensures ScoreTimes(cfg, s, n) == s.(currentScore := ScoreTimes(cfg, s, n).currentScore)
    decreases n
  {
    if n > 0 {
      var step := cfg.scorePerExploded as int;
      var next := Score(cfg, s);
      MulSucc(n, step);
      if j == m {
        ScoreClimb(cfg, next, n - 1, j, m);
      } else {
        MulOrder(j, m, step);
        assert (j + 1) * step == j * step + step;
        ScoreClimb(cfg, next, n - 1, j + 1, m);
      }
    }
  }

  /** When `MaxScore` is a multiple of `ScorePerExploded` and the score starts on
      a multiple at or below it, scoring climbs in steps, lands on `MaxScore`
      exactly and then stays there: it never exceeds it and never wraps. */
  lemma ScoreStopsAtMax(cfg: GameplayConfig, s: GameState, n: nat)
    requires cfg.scorePerExploded > 0
    requires cfg.maxScore as int % cfg.scorePerExploded as int == 0
    requires s.currentScore <= cfg.maxScore
    requires s.currentScore as int % cfg.scorePerExploded as int == 0
    ensures ScoreTimes(cfg, s, n).currentScore as int
            == Min(s.currentScore as int + n * cfg.scorePerExploded as int, cfg.maxScore as int)
    ensures ScoreTimes(cfg, s, n) == s.(currentScore := ScoreTimes(cfg, s, n).currentScore)
  {
    var step := cfg.scorePerExploded as int;
    var j, m := s.currentScore as int / step, cfg.maxScore as int / step;
    assert s.currentScore as int == j * step && cfg.maxScore as int == m * step;
    MulOrder(m, j, step);
    ScoreClimb(cfg, s, n, j, m);
  }

  /** With the default tunables, a new game's score after `n` exploded balls is
      `min(n, 99999)`. */
  lemma DefaultScoreReachesMax(s: GameState, n: nat)
    requires s.currentScore == 0
    ensures ScoreTimes(Default(), s, n).currentScore as int == Min(n, 99999)
  {
    ScoreStopsAtMax(Default(), s, n);
  }

  /** `Score` stops only on equality: when `MaxScore` is not a multiple of
      `ScorePerExploded` the score steps over `MaxScore` and keeps rising. */
  lemma ScoreCanOvershoot()
    ensures var cfg := Default().(scorePerExploded := 2, maxScore := 5);
            ScoreTimes(cfg, Initial(), 3).currentScore > cfg.maxScore
  {

  }

  // ----------------------------------------------------------------- ghost

  /** Rolls for ghost balls in sequence; `hits` counts the rolls that said yes. */
  datatype GhostTally = GhostTally(state: GameState, hits: nat)

  predicate ValidRolls(rolls: seq<nat>) {
    forall i :: 0 <= i < |rolls| ==> rolls[i] < 100
  }

  function GhostRolls(cfg: GameplayConfig, s: GameState, rolls: seq<nat>): GhostTally
    requires ValidRolls(rolls)
    decreases |rolls|
  {
    if |rolls| == 0 then GhostTally(s, 0)
    else
      var first := IsGhost(cfg, s, rolls[0]);
      var rest := GhostRolls(cfg, first.state, rolls[1..]);
      rest.(hits := rest.hits + (if first.isGhost then 1 else 0))
  }

  /** However many times `IsGhost` is asked, the counter records every yes and
      never passes `GhostCount`; so no more than `GhostCount` ghosts appear. */
  lemma {:induction false} GhostCapHolds(cfg: GameplayConfig, s: GameState, rolls: seq<nat>)
    requires ValidRolls(rolls)
    requires s.ghostCount <= cfg.ghostCount
    ensures GhostRolls(cfg, s, rolls).state.ghostCount as int == s.ghostCount as int + GhostRolls(cfg, s, rolls).hits
    ensures GhostRolls(cfg, s, rolls).state.ghostCount <= cfg.ghostCount
    ensures GhostRolls(cfg, s, rolls).hits <= cfg.ghostCount as int - s.ghostCount as int
    decreases |rolls|
  {
    if |rolls| > 0 {
      var first := IsGhost(cfg, s, rolls[0]);
      assert ValidRolls(rolls[1..]) by {
        forall i | 0 <= i < |rolls[1..]| ensures rolls[1..][i] < 100 {
          assert rolls[1..][i] == rolls[i + 1];
        }
      }
      GhostCapHolds(cfg, first.state, rolls[1..]);
    }
  }

  /** A negative appear chance is below every roll, so no ghost ever appears. */
  lemma NegativeChanceNeverGhost(cfg: GameplayConfig, s: GameState, roll: nat)
    requires roll < 100 && cfg.ghostAppearChance < 0
    ensures !IsGhost(cfg, s, roll).isGhost
    ensures IsGhost(cfg, s, roll).state == s
  {
  }

  /** A new game does not reset the ghost counter: the cap holds per run of the
      application, not per game. */
  lemma NewGameKeepsGhostCount(cfg: GameplayConfig, palette: Palette, s: GameState, draws: seq<nat>)
    requires |draws| >= cfg.queuedCount as int
    ensures NewGame(cfg, palette, s, draws).state.ghostCount == s.ghostCount
  {
  }

  // ---------------------------------------------------------- explode keys

  /** Adds keys one at a time, in order. */
  function AddExplodeKeys(s: GameState, keys: seq<Pos>): GameState
    decreases |keys|
  {
    if |keys| == 0 then s else AddExplodeKeys(AddExplodeKey(s, keys[0]), keys[1..])
  }

  /** One added key joins the set of keys. */
  lemma AddExplodeKeyElements(s: GameState, key: Pos)
    ensures Elements(AddExplodeKey(s, key).explodeKeys) == Elements(s.explodeKeys) + {key}
  {
  }

  /** Adding keys changes nothing but the stack and keeps it duplicate-free. */
  lemma {:induction false} AddExplodeKeysFrame(s: GameState, keys: seq<Pos>)
    requires NoDuplicates(s.explodeKeys)
    ensures NoDuplicates(AddExplodeKeys(s, keys).explodeKeys)
    ensures AddExplodeKeys(s, keys) == s.(explodeKeys := AddExplodeKeys(s, keys).explodeKeys)
    decreases |keys|
  {
    if |keys| > 0 {
      AddExplodeKeysFrame(AddExplodeKey(s, keys[0]), keys[1..]);
    }
  }

  /** After adding keys, the stack holds the old keys and the added ones. */
  lemma {:induction false} AddExplodeKeysElements(s: GameState, keys: seq<Pos>)
    ensures Elements(AddExplodeKeys(s, keys).explodeKeys) == Elements(s.explodeKeys) + Elements(keys)
    decreases |keys|
  {
    if |keys| > 0 {
      var next := AddExplodeKey(s, keys[0]);
      AddExplodeKeysElements(next, keys[1..]);
      AddExplodeKeyElements(s, keys[0]);
      assert Elements(keys) == {keys[0]} + Elements(keys[1..]) by {
        assert keys == [keys[0]] + keys[1..];
      }
    }
  }

  /** Adding keys keeps the stack duplicate-free, and leaves in it exactly the
      distinct keys seen, old and new. */
  lemma AddExplodeKeysDistinct(s: GameState, keys: seq<Pos>)
    requires NoDuplicates(s.explodeKeys)
    ensures NoDuplicates(AddExplodeKeys(s, keys).explodeKeys)
    ensures Elements(AddExplodeKeys(s, keys).explodeKeys) == Elements(s.explodeKeys) + Elements(keys)
    ensures |AddExplodeKeys(s, keys).explodeKeys| == |Elements(s.explodeKeys) + Elements(keys)|
    ensures AddExplodeKeys(s, keys) == s.(explodeKeys := AddExplodeKeys(s, keys).explodeKeys)
  {
    AddExplodeKeysFrame(s, keys);
    AddExplodeKeysElements(s, keys);
    DistinctLength(AddExplodeKeys(s, keys).explodeKeys);
  }

  /** After the keys are cleared, a pass that adds `keys` makes `CheckExplode`
      fire exactly when it saw at least `ExplodeCount` distinct keys, and then
      hand the board exactly those keys, each once. */
  lemma ExplodeFiresOnDistinctCount(cfg: GameplayConfig, s: GameState, keys: seq<Pos>)
    ensures CheckExplode(cfg, AddExplodeKeys(ClearExplodeKeys(s), keys)).explode
            <==> |Elements(keys)| >= cfg.explodeCount as int
    ensures var check := CheckExplode(cfg, AddExplodeKeys(ClearExplodeKeys(s), keys));
            check.explode ==>
              && |check.effects| == 1 && check.effects[0].ChainExplode?
              && NoDuplicates(check.effects[0].keys)
              && Elements(check.effects[0].keys) == Elements(keys)
    ensures !CheckExplode(cfg, AddExplodeKeys(ClearExplodeKeys(s), keys)).explode
            ==> CheckExplode(cfg, AddExplodeKeys(ClearExplodeKeys(s), keys)).effects == []
  {
    var cleared := ClearExplodeKeys(s);
    AddExplodeKeysDistinct(cleared, keys);
    assert Elements(cleared.explodeKeys) == {};
  }

  /** `ClearExplodeKeys` empties the keys and touches nothing else; afterwards
      `CheckExplode` fires only under an `ExplodeCount` of zero, so never with
      the default tunables. `CheckExplode` itself returns no new state: only
      `ClearExplodeKeys` removes keys. */
  lemma ClearedKeysDoNotExplode(cfg: GameplayConfig, s: GameState)
    ensures ClearExplodeKeys(s).explodeKeys == [] && ClearExplodeKeys(s).(explodeKeys := s.explodeKeys) == s
    ensures CheckExplode(cfg, ClearExplodeKeys(s)).explode <==> cfg.explodeCount == 0
    ensures !CheckExplode(Default(), ClearExplodeKeys(s)).explode
  {
  }

  // ----------------------------------------------------------------- queue

  /** Drawing can yield every index of the palette but its last (or the only
      one, when there is one). */
  lemma DrawReachesEveryIndex(palette: Palette, i: nat)
    requires i < Max(1, |palette| - 1)
    ensures GetRandomColorIndex(palette, i) == i
  {
  }

  /** The refill loop enqueues the same indices as drawing the missing entries
      in one batch and appending them. */
  lemma FillQueueIsBatchDraw(count: nat, palette: Palette, queue: seq<int>, draws: seq<nat>)
    requires |queue| + |draws| >= count
    ensures FillQueue(count, palette, queue, draws) == queue + RandomColorIndices(palette, draws, Max(0, count - |queue|))
  {

  }

  /** A new game's queue is what refilling an empty queue would give. */
  lemma NewGameQueueIsRefill(cfg: GameplayConfig, palette: Palette, s: GameState, draws: seq<nat>)
    requires |draws| >= cfg.queuedCount as int
    ensures NewGame(cfg, palette, s, draws).state.queue
            == MakeNewColorIndexQueue(cfg, palette, ClearResources(s), draws).queue
  {

  }

  /** A turn that starts from a full queue of valid indices, with a ball on the
      selected node, never faults, blocks
      input, and ends with a full queue again. Without game over the score is
      untouched and every queued ball was consumed, so the queue is all new
      draws; with game over the score moved to the high score. */
  lemma EndTurnRefillsQueue(cfg: GameplayConfig, palette: Palette, s: GameState, mover: NodeView, outOfActive: seq<bool>, draws: seq<nat>)
    requires |outOfActive| > cfg.queuedCount as int
    requires |draws| >= cfg.queuedCount as int
    requires s.selected.Some? && mover.ballColor.Some?
    requires |s.queue| == cfg.queuedCount as int && ValidIndices(s.queue, |palette|)
    ensures EndTurn(cfg, palette, s, mover, outOfActive, draws).Success?
    ensures var t := EndTurn(cfg, palette, s, mover, outOfActive, draws).value.state;
            && |t.queue| == cfg.queuedCount as int
            && ValidIndices(t.queue, |palette|)
            && t.blockInput
    ensures (exists i :: 0 <= i <= cfg.queuedCount as int && outOfActive[i]) ==>
              var t := EndTurn(cfg, palette, s, mover, outOfActive, draws).value.state;
              t.highScore == s.currentScore && t.currentScore == 0
    ensures !(exists i :: 0 <= i <= cfg.queuedCount as int && outOfActive[i]) ==>
              var t := EndTurn(cfg, palette, s, mover, outOfActive, draws).value.state;
              && t.currentScore == s.currentScore && t.highScore == s.highScore
              && t.queue == RandomColorIndices(palette, draws, cfg.queuedCount as int)
  {

  }

  // ------------------------------------------------------------------ turn

  /** A move blocks input until the ball lands; the landing reopens input,
      forgets both selections and tags the target ghost exactly when the source
      node is a ghost. */
  lemma MoveThenGrowReleasesLatch(s: GameState, mover: NodeView, source: NodeView)
    requires s.selected.Some? && s.target.Some? && mover.ballColor.Some? && source.ballColor.Some?
    ensures MoveToTarget(s, mover).Success? && MoveToTarget(s, mover).value.state.blockInput
    ensures var landed := GrowTarget(MoveToTarget(s, mover).value.state, source);
            && landed.Success?
            && !landed.value.state.blockInput
            && landed.value.state.selected.None? && landed.value.state.target.None?
            && (BecomeGhostBall(s.target.value) in landed.value.effects <==> source.isGhost)
            && landed.value.state == s.(selected := None, target := None, blockInput := false)
  {
  }

  /** Pausing blocks input and resuming opens it; neither touches anything
      else, so pausing then resuming only leaves input open. */
  lemma PauseThenResume(s: GameState)
    ensures Pause(s).blockInput && !Resume(s).blockInput
    ensures Pause(s).(blockInput := s.blockInput) == s
    ensures Resume(s).(blockInput := s.blockInput) == s
    ensures Resume(Pause(s)) == Resume(s) && Pause(Resume(s)) == Pause(s)
  {
  }

  /** Quitting and game over both overwrite the high score with the current
      score, so a lower current score replaces a higher high score. Quitting
      changes nothing else. */
  lemma HighScoreIsOverwritten(s: GameState)
    ensures Quit(s).highScore == s.currentScore
    ensures GameOver(s).state.highScore == s.currentScore
    ensures s.currentScore < s.highScore ==> Quit(s).highScore < s.highScore
    ensures Quit(s).(highScore := s.highScore) == s
  {
  }

  // ------------------------------------------------------------- save/load

  const EmptySave: SaveData := SaveData(0, 0, [])

  /** Saving into an empty snapshot and loading it back restores the manager's
      state exactly, when the queue holds at least `QueuedCount` valid entries. */
  lemma SaveLoadRoundTrip(cfg: GameplayConfig, palette: Palette, s: GameState, draws: seq<nat>)
    requires |draws| >= cfg.queuedCount as int
    requires |s.queue| >= cfg.queuedCount as int && ValidIndices(s.queue, |palette|)
    ensures var saved := PopulateSaveData(s, EmptySave);
            var loaded := LoadFromSaveData(cfg, palette, saved.state, saved.save, draws);
            loaded.Success? && loaded.value.state == s
  {

  }

  /** Saving with an empty queue (as after game over) and loading it back
      starts a new game with a full queue, yet keeps the saved scores. */
  lemma SaveLoadEmptyQueueStartsAgain(cfg: GameplayConfig, palette: Palette, s: GameState, draws: seq<nat>)
    requires |draws| >= cfg.queuedCount as int
    requires s.queue == []
    ensures var saved := PopulateSaveData(s, EmptySave);
            var loaded := LoadFromSaveData(cfg, palette, saved.state, saved.save, draws);
            && loaded.Success?
            && loaded.value.state.highScore == s.highScore
            && loaded.value.state.currentScore == s.currentScore
            && |loaded.value.state.queue| == cfg.queuedCount as int
            && !loaded.value.state.blockInput
  {

  }

  /** A snapshot that already lists indices gets the live queue appended after
      them, so loading it restores the concatenation. */
  lemma SaveAppendsToExistingList(cfg: GameplayConfig, palette: Palette, s: GameState, save: SaveData, draws: seq<nat>)
    requires |draws| >= cfg.queuedCount as int
    requires |save.colorIndexQueue| + |s.queue| >= cfg.queuedCount as int
    requires |save.colorIndexQueue| + |s.queue| > 0
    requires ValidIndices(save.colorIndexQueue + s.queue, |palette|)
    ensures var saved := PopulateSaveData(s, save);
            var loaded := LoadFromSaveData(cfg, palette, saved.state, saved.save, draws);
            loaded.Success? && loaded.value.state.queue == save.colorIndexQueue + s.queue
  {

  }
}
