/** The turn and bookkeeping engine of the game manager: the queue of upcoming
    ball colors, the scores, the explode keys, the ghost counter and the
    input-blocking latch, with one pure transition per operation.

    Collaborators the manager calls are not modelled: their answers come in as
    parameters, and the requests made of them come out as `Effect`s. Random
    values come in as parameters too. */
module Manager {
  import opened Common
  import opened Config
  import opened Board

  /** The exceptions the manager's code can raise, each of which aborts the operation. */
  datatype Fault =
    | EmptyQueue        // `Queue.Dequeue` on an empty queue
    | IndexOutOfRange   // an array indexed past its end
    | NullReference     // a member read through a `null` node or ball

  datatype GameState = GameState(
    queue: seq<int>,          // upcoming palette indices, front first
    currentScore: uint32,
    highScore: uint32,
    explodeKeys: seq<Pos>,    // a stack: the most recent key first
    ghostCount: uint32,
    blockInput: bool,
    selected: Option<Pos>,
    target: Option<Pos>)

  /** A new state together with the requests made of collaborators on the way. */
  datatype Step = Step(state: GameState, effects: seq<Effect>)

  /** The manager's fields after `Start`, before a game is started or loaded:
      zero scores, no selection, open input. The source's queue and key stack
      are `null` until then (the stack is created in `Start`, the queue by the
      first `NewGame` or load); the model starts both empty. */
  function Initial(): GameState {
    GameState([], 0, 0, [], 0, false, None, None)
  }

  /** Every entry of `q` indexes a palette of `size` entries. */
  predicate ValidIndices(q: seq<int>, size: nat) {
    forall i :: 0 <= i < |q| ==> 0 <= q[i] < size
  }

  // ---------------------------------------------------------------- colors

  /** A palette index drawn with Unity's integer `Random.Range(0, Length - 1)`,
      whose upper bound is exclusive (and which yields 0 when the bounds meet).
      `draw` is an arbitrary random value, reduced into that range. */
  function GetRandomColorIndex(palette: Palette, draw: nat): (i: nat)
    ensures i < |palette|
    ensures |palette| > 1 ==> i < |palette| - 1
  {
    if |palette| == 1 then 0 else draw % (|palette| - 1)
  }

  /** The color of a randomly drawn palette entry. */
  function GetRandomColorConfig(palette: Palette, draw: nat): (colorID: int)
    ensures colorID in palette
    ensures |palette| > 1 ==> colorID in palette[..|palette| - 1]
  {
    palette[GetRandomColorIndex(palette, draw)]
  }

  /** `n` indices drawn in order, one per random value. */
  function RandomColorIndices(palette: Palette, draws: seq<nat>, n: nat): (q: seq<int>)
    requires n <= |draws|
    ensures |q| == n
    ensures ValidIndices(q, |palette|)
    ensures |palette| > 1 ==> forall i :: 0 <= i < n ==> q[i] < |palette| - 1
  {
    seq(n, i requires 0 <= i < n => GetRandomColorIndex(palette, draws[i]) as int)
  }

  /** The index of the first palette entry with the given color, if any; it
      stands for the sprite of that entry. */
  function GetSprite(palette: seq<int>, colorID: int): (r: Option<nat>)
    ensures r.Some? ==> r.value < |palette| && palette[r.value] == colorID
    ensures r.Some? ==> forall j :: 0 <= j < r.value ==> palette[j] != colorID
    ensures r.None? <==> colorID !in palette
  {
    if |palette| == 0 then None
    else if palette[0] == colorID then Some(0)
    else match GetSprite(palette[1..], colorID)
      case None => None
      case Some(i) => Some(i + 1)
  }

  // ----------------------------------------------------------------- queue

  /** The refill loop: enqueue one drawn index at a time until the queue holds
      `count` entries. A queue already that long is left as it is. */
  function FillQueue(count: nat, palette: Palette, queue: seq<int>, draws: seq<nat>): (r: seq<int>)
    requires |queue| + |draws| >= count
    ensures |r| == Max(|queue|, count)
    ensures r[..|queue|] == queue
    ensures forall i :: |queue| <= i < |r| ==> r[i] == GetRandomColorIndex(palette, draws[i - |queue|]) as int
    decreases count - |queue|
  {
    if |queue| >= count then queue
    else
      var next := queue + [GetRandomColorIndex(palette, draws[0]) as int];
      var r := FillQueue(count, palette, next, draws[1..]);
      assert r[..|next|] == next;
      assert r[..|queue|] == next[..|queue|];
      r
  }

  /** Tops the queue up to `QueuedCount` entries with freshly drawn indices. */
  function MakeNewColorIndexQueue(cfg: GameplayConfig, palette: Palette, s: GameState, draws: seq<nat>): (r: GameState)
    requires |s.queue| + |draws| >= cfg.queuedCount as int
    ensures |r.queue| == Max(|s.queue|, cfg.queuedCount as int)
    ensures r.queue[..|s.queue|] == s.queue
    ensures forall i :: |s.queue| <= i < |r.queue| ==> 0 <= r.queue[i] < |palette|
    ensures |palette| > 1 ==> forall i :: |s.queue| <= i < |r.queue| ==> r.queue[i] < |palette| - 1
    ensures r == s.(queue := r.queue)
  {
    s.(queue := FillQueue(cfg.queuedCount as int, palette, s.queue, draws))
  }

  /** The FIFO consumption of `AttachQueueBallsToBoard`. */
  datatype Attachment = Attachment(attached: seq<int>, rest: seq<int>, gameOver: bool)

  /** The attach loop with `remaining` iterations left. `outOfActive[0]` is the
      board's answer to the next `OutOfActiveNode` question: one is asked before
      every dequeue and one after the last. */
  function AttachLoop(palette: Palette, queue: seq<int>, outOfActive: seq<bool>, remaining: nat): (r: Result<Attachment, Fault>)
    requires |outOfActive| > remaining
    ensures r.Success? ==>
      var k := |r.value.attached|;
      && k <= remaining && k <= |queue|
      && r.value.attached == queue[..k] && r.value.rest == queue[k..]
      && (forall i :: 0 <= i < k ==> !outOfActive[i])
      && (r.value.gameOver ==> outOfActive[k])
      && (!r.value.gameOver ==> k == remaining)
    ensures r.Success? ==> (r.value.gameOver <==> exists i :: 0 <= i <= remaining && outOfActive[i])
    ensures r == Failure(EmptyQueue) ==> |queue| < remaining
    ensures r == Failure(IndexOutOfRange) ==> !ValidIndices(queue, |palette|)
    ensures r == Failure(NullReference) ==> false
    ensures |queue| >= remaining && ValidIndices(queue, |palette|) ==> r.Success?
    decreases remaining
  {
    if outOfActive[0] then Success(Attachment([], queue, true))
    else if remaining == 0 then Success(Attachment([], queue, false))
    else if |queue| == 0 then Failure(EmptyQueue)
    else if !(0 <= queue[0] < |palette|) then Failure(IndexOutOfRange)
    else
      match AttachLoop(palette, queue[1..], outOfActive[1..], remaining - 1)
      case Failure(f) => Failure(f)
      case Success(a) =>
        assert forall i :: 1 <= i <= remaining ==> outOfActive[i] == outOfActive[1..][i - 1];
        Success(a.(attached := [queue[0]] + a.attached))
  }

  /** One attach request per dequeued index, in dequeue order. */
  function AttachEffects(indices: seq<int>): (e: seq<Effect>)
    ensures |e| == |indices|
    ensures forall i :: 0 <= i < |indices| ==> e[i] == AttachQueueBall(indices[i])
  {
    seq(|indices|, i requires 0 <= i < |indices| => AttachQueueBall(indices[i]))
  }

  // ----------------------------------------------------- session lifecycle

  /** Resets the score and empties the queue. */
  function ClearResources(s: GameState): (r: GameState)
    ensures r.currentScore == 0 && r.queue == []
    ensures r == s.(currentScore := r.currentScore, queue := r.queue)
  {
    s.(currentScore := 0, queue := [])
  }

  /** Enqueues `QueuedCount` freshly drawn indices, whatever the queue holds. */
  function InitScoreboard(cfg: GameplayConfig, palette: Palette, s: GameState, draws: seq<nat>): (r: GameState)
    requires |draws| >= cfg.queuedCount as int
    ensures |r.queue| == |s.queue| + cfg.queuedCount as int
    ensures r.queue[..|s.queue|] == s.queue
    ensures forall i :: |s.queue| <= i < |r.queue| ==> 0 <= r.queue[i] < |palette|
    ensures r == s.(queue := r.queue)
  {
    s.(queue := s.queue + RandomColorIndices(palette, draws, cfg.queuedCount as int))
  }

  /** Lifts the input latch (the timer and pause panel are presentation). */
  function Resume(s: GameState): (r: GameState)
    ensures !r.blockInput
    ensures r == s.(blockInput := r.blockInput)
  {
    s.(blockInput := false)
  }

  /** Sets the input latch (the timer and pause panel are presentation). */
  function Pause(s: GameState): (r: GameState)
    ensures r.blockInput
    ensures r == s.(blockInput := r.blockInput)
  {
    s.(blockInput := true)
  }

  /** Starts a game: a zero score, a new board, a full queue and open input. */
  function NewGame(cfg: GameplayConfig, palette: Palette, s: GameState, draws: seq<nat>): (r: Step)
    requires |draws| >= cfg.queuedCount as int
    ensures r.state.currentScore == 0
    ensures |r.state.queue| == cfg.queuedCount as int
    ensures ValidIndices(r.state.queue, |palette|)
    ensures |palette| > 1 ==> forall i :: 0 <= i < |r.state.queue| ==> r.state.queue[i] < |palette| - 1
    ensures !r.state.blockInput
    ensures r.state == s.(currentScore := 0, queue := r.state.queue, blockInput := false)
    ensures r.effects == [CreateNewBoard(cfg.queuedCount as nat, cfg.initGrowUpCount as nat)]
  {
    var cleared := ClearResources(s);
    var board := [CreateNewBoard(cfg.queuedCount as nat, cfg.initGrowUpCount as nat)];
    var filled := InitScoreboard(cfg, palette, cleared, draws);
    Step(Resume(filled), board)
  }

  /** Records the current score as the high score, overwriting it. */
  function SetHighScore(s: GameState): (r: GameState)
    ensures r.highScore == s.currentScore
    ensures r == s.(highScore := r.highScore)
  {
    s.(highScore := s.currentScore)
  }

  /** Ends the game: input blocked, the high score overwritten with the current
      score, the score reset, the queue emptied and the board cleared. */
  function GameOver(s: GameState): (r: Step)
    ensures r.state.blockInput
    ensures r.state.highScore == s.currentScore
    ensures r.state.currentScore == 0 && r.state.queue == []
    ensures r.state == s.(blockInput := true, highScore := s.currentScore, currentScore := 0, queue := [])
    ensures r.effects == [ClearBoard]
  {
    var latched := s.(blockInput := true);
    var recorded := SetHighScore(latched);
    Step(ClearResources(recorded), [ClearBoard])
  }

  /** Quitting records the high score (the save and the exit are not modelled). */
  function Quit(s: GameState): (r: GameState)
    ensures r.highScore == s.currentScore
    ensures r == s.(highScore := r.highScore)
  {
    SetHighScore(s)
  }

  // ----------------------------------------------------------------- score

  /** Awards `ScorePerExploded` points unless the score equals `MaxScore`
      exactly. The sum is an unchecked `uint` addition. */
  function Score(cfg: GameplayConfig, s: GameState): (r: GameState)
    ensures s.currentScore == cfg.maxScore ==> r == s
    ensures (s.currentScore != cfg.maxScore && s.currentScore as int + cfg.scorePerExploded as int < UINT32_MODULUS)
              ==> r.currentScore as int == s.currentScore as int + cfg.scorePerExploded as int
    ensures (s.currentScore != cfg.maxScore && s.currentScore as int + cfg.scorePerExploded as int >= UINT32_MODULUS)
              ==> r.currentScore as int == s.currentScore as int + cfg.scorePerExploded as int - UINT32_MODULUS
    ensures r == s.(currentScore := r.currentScore)
  {
    if s.currentScore == cfg.maxScore then s
    else s.(currentScore := AddWrap(s.currentScore, cfg.scorePerExploded))
  }

  // ---------------------------------------------------------- explode keys

  /** Pushes a key onto the explode-key stack unless it is already there. */
  function AddExplodeKey(s: GameState, key: Pos): (r: GameState)
    ensures key in r.explodeKeys
    ensures forall k :: k in r.explodeKeys <==> k in s.explodeKeys || k == key
    ensures key in s.explodeKeys ==> r == s
    ensures |r.explodeKeys| == |s.explodeKeys| + (if key in s.explodeKeys then 0 else 1)
    ensures NoDuplicates(s.explodeKeys) ==> NoDuplicates(r.explodeKeys)
    ensures r == s.(explodeKeys := r.explodeKeys)
  {
    if key in s.explodeKeys then s
    else s.(explodeKeys := [key] + s.explodeKeys)
  }

  /** Whether enough keys have gathered to explode; it hands them to the board
      then, and leaves them in place either way. */
  datatype ExplodeCheck = ExplodeCheck(explode: bool, effects: seq<Effect>)

  function CheckExplode(cfg: GameplayConfig, s: GameState): (r: ExplodeCheck)
    ensures r.explode <==> |s.explodeKeys| >= cfg.explodeCount as int
    ensures r.explode ==> r.effects == [ChainExplode(s.explodeKeys)]
    ensures !r.explode ==> r.effects == []
  {
    var explode := |s.explodeKeys| >= cfg.explodeCount as int;
    ExplodeCheck(explode, if explode then [ChainExplode(s.explodeKeys)] else [])
  }

  /** Empties the explode-key stack. */
  function ClearExplodeKeys(s: GameState): (r: GameState)
    ensures r.explodeKeys == []
    ensures r == s.(explodeKeys := r.explodeKeys)
  {
    s.(explodeKeys := [])
  }

  // ----------------------------------------------------------------- ghost

  datatype GhostRoll = GhostRoll(state: GameState, isGhost: bool)

  /** Decides whether the next ball is a ghost. Below the cap, `roll` (Unity's
      `Random.Range(0, 100)`) is compared with the appear chance; at the cap the
      answer is no and nothing changes. */
  function IsGhost(cfg: GameplayConfig, s: GameState, roll: nat): (r: GhostRoll)
    requires roll < 100
    ensures r.isGhost <==> s.ghostCount < cfg.ghostCount && roll <= cfg.ghostAppearChance
    ensures r.state.ghostCount as int == s.ghostCount as int + (if r.isGhost then 1 else 0)
    ensures s.ghostCount <= cfg.ghostCount ==> r.state.ghostCount <= cfg.ghostCount
    ensures s.ghostCount >= cfg.ghostCount ==> r == GhostRoll(s, false)
    ensures r.state == s.(ghostCount := r.state.ghostCount)
  {
    if s.ghostCount < cfg.ghostCount then
      if roll <= cfg.ghostAppearChance then GhostRoll(s.(ghostCount := s.ghostCount + 1), true)
      else GhostRoll(s, false)
    else GhostRoll(s, false)
  }

  // ------------------------------------------------------------------ turn

  /** Forgets the selected node. */
  function EmptySelectedNode(s: GameState): (r: GameState)
    ensures r.selected.None?
    ensures r == s.(selected := r.selected)
  {
    s.(selected := None)
  }

  /** Forgets the target node (and erases the drawn path, which is presentation). */
  function EmptyTargetNode(s: GameState): (r: GameState)
    ensures r.target.None?
    ensures r == s.(target := r.target)
  {
    s.(target := None)
  }

  /** Starts moving the selected ball: its node is released and reset, input
      is blocked until the move ends, and the moving ball is sent along the
      path with the sprite of the selected node's ball; the end of that move
      is `GrowTarget`. `mover` is what the selected node holds when that sprite
      is read, after the node is reset; without a ball there the read is a
      `null` dereference. */
  function MoveToTarget(s: GameState, mover: NodeView): (r: Result<Step, Fault>)
    ensures r.Failure? <==> s.selected.None? || mover.ballColor.None?
    ensures r.Failure? ==> r.error == NullReference
    ensures r.Success? ==> r.value.state == s.(blockInput := true)
    ensures r.Success? ==> r.value.effects == [ReleaseGrowUpNode(s.selected.value), BackToDefault(s.selected.value), MoveBall(mover.ballColor.value)]
  {
    match s.selected
    case None => Failure(NullReference)
    case Some(p) =>
      if mover.ballColor.None? then Failure(NullReference)
      else Success(Step(s.(blockInput := true), [ReleaseGrowUpNode(p), BackToDefault(p), MoveBall(mover.ballColor.value)]))
  }

  /** The moved ball lands on the target, as a growing ball of the source
      ball's color; the target turns ghost when the source node is a ghost.
      `source` is what the source node holds when the move ends. */
  function GrowTarget(s: GameState, source: NodeView): (r: Result<Step, Fault>)
    ensures r.Failure? <==> s.target.None? || s.selected.None? || source.ballColor.None?
    ensures r.Failure? ==> r.error == NullReference
    ensures r.Success? ==> r.value.state == s.(blockInput := false, selected := None, target := None)
    ensures r.Success? ==> (BecomeGhostBall(s.target.value) in r.value.effects <==> source.isGhost)
    ensures r.Success? ==> |r.value.effects| == (if source.isGhost then 4 else 3)
    ensures r.Success? ==> r.value.effects[0] == AddGrowUpNode(s.target.value)
    ensures r.Success? ==> r.value.effects[1] == AttachGrowUp(s.target.value, source.ballColor.value)
    ensures r.Success? ==> r.value.effects[|r.value.effects| - 1] == CheckChainExplode(s.target.value)
  {
    if s.target.None? || s.selected.None? || source.ballColor.None? then Failure(NullReference)
    else
      var t := s.target.value;
      var ghostTag := if source.isGhost then [BecomeGhostBall(t)] else [];
      var effects := [AddGrowUpNode(t), AttachGrowUp(t, source.ballColor.value)] + ghostTag + [CheckChainExplode(t)];
      Success(Step(EmptySelectedNode(EmptyTargetNode(s.(blockInput := false))), effects))
  }

  /** Attaches up to `QueuedCount` queued balls to the board in FIFO order,
      ending the game the first time the board has no active node left. */
  function AttachQueueBallsToBoard(cfg: GameplayConfig, palette: Palette, s: GameState, outOfActive: seq<bool>): (r: Result<Step, Fault>)
    requires |outOfActive| > cfg.queuedCount as int
    ensures |s.queue| >= cfg.queuedCount as int && ValidIndices(s.queue, |palette|) ==> r.Success?
    ensures r == Failure(EmptyQueue) ==> |s.queue| < cfg.queuedCount as int
    ensures r == Failure(IndexOutOfRange) ==> !ValidIndices(s.queue, |palette|)
    ensures r.Success? && !(exists i :: 0 <= i <= cfg.queuedCount as int && outOfActive[i]) ==>
              && |s.queue| >= cfg.queuedCount as int
              && r.value.state == s.(queue := s.queue[cfg.queuedCount as int..])
              && r.value.effects == AttachEffects(s.queue[..cfg.queuedCount as int])
    ensures r.Success? && (exists i :: 0 <= i <= cfg.queuedCount as int && outOfActive[i]) ==>
              && r.value.state == s.(blockInput := true, highScore := s.currentScore, currentScore := 0, queue := [])
              && exists k :: && 0 <= k <= cfg.queuedCount as int && k <= |s.queue| && outOfActive[k]
                             && (forall i :: 0 <= i < k ==> !outOfActive[i])
                             && r.value.effects == AttachEffects(s.queue[..k]) + [ClearBoard]
  {
    match AttachLoop(palette, s.queue, outOfActive, cfg.queuedCount as nat)
    case Failure(f) => Failure(f)
    case Success(a) =>
      var attach := AttachEffects(a.attached);
      if a.gameOver then
        var over := GameOver(s.(queue := a.rest));
        Success(Step(over.state, attach + over.effects))
      else Success(Step(s.(queue := a.rest), attach))
  }

  /** Ends the player's turn: the ball starts moving, queued balls grow, the
      queue's balls are attached and the queue is refilled. The landing of the
      moved ball (`GrowTarget`) follows later, when the move animation ends.
      `mover` is the selected node as `MoveToTarget` reads it. */
  function EndTurn(cfg: GameplayConfig, palette: Palette, s: GameState, mover: NodeView, outOfActive: seq<bool>, draws: seq<nat>): (r: Result<Step, Fault>)
    requires |outOfActive| > cfg.queuedCount as int
    requires |draws| >= cfg.queuedCount as int
    ensures s.selected.None? || mover.ballColor.None? ==> r == Failure(NullReference)
    ensures s.selected.Some? && mover.ballColor.Some? && |s.queue| >= cfg.queuedCount as int && ValidIndices(s.queue, |palette|) ==> r.Success?
    ensures r.Success? ==> r.value.state.blockInput
    ensures r.Success? ==> |r.value.state.queue| >= cfg.queuedCount as int
    ensures r.Success? ==> |r.value.effects| >= 4
    ensures r.Success? ==> r.value.effects[..4] == [ReleaseGrowUpNode(s.selected.value), BackToDefault(s.selected.value), MoveBall(mover.ballColor.value), GrowQueueBalls]
  {
    match MoveToTarget(s, mover)
    case Failure(f) => Failure(f)
    case Success(moved) =>
      match AttachQueueBallsToBoard(cfg, palette, moved.state, outOfActive)
      case Failure(f) => Failure(f)
      case Success(attached) =>
        var refilled := MakeNewColorIndexQueue(cfg, palette, attached.state, draws);
        Success(Step(refilled, moved.effects + [GrowQueueBalls] + attached.effects))
  }

  // ------------------------------------------------------------- save/load

  /** The part of the save snapshot the manager writes and reads. */
  datatype SaveData = SaveData(highScore: uint32, currentScore: uint32, colorIndexQueue: seq<int>)

  datatype Saved = Saved(state: GameState, save: SaveData, effects: seq<Effect>)

  /** Writes the scores, then drains the queue onto the end of the saved list. */
  function PopulateSaveData(s: GameState, save: SaveData): (r: Saved)
    ensures r.save.highScore == s.highScore && r.save.currentScore == s.currentScore
    ensures |r.save.colorIndexQueue| == |save.colorIndexQueue| + |s.queue|
    ensures r.save.colorIndexQueue[..|save.colorIndexQueue|] == save.colorIndexQueue
    ensures r.save.colorIndexQueue[|save.colorIndexQueue|..] == s.queue
    ensures r.state == s.(queue := [])
    ensures r.effects == [SaveBoard]
  {
    Saved(s.(queue := []), SaveData(s.highScore, s.currentScore, save.colorIndexQueue + s.queue), [SaveBoard])
  }

  /** Restores a snapshot. An empty saved queue starts a new game first; either
      way the saved scores are restored. A non-empty saved queue is shown with
      one sprite per queued ball, so it faults when an entry is not a palette
      index or when it holds fewer than `QueuedCount` entries. */
  function LoadFromSaveData(cfg: GameplayConfig, palette: Palette, s: GameState, save: SaveData, draws: seq<nat>): (r: Result<Step, Fault>)
    requires |draws| >= cfg.queuedCount as int
    ensures r.Failure? <==>
              |save.colorIndexQueue| > 0 &&
              (!ValidIndices(save.colorIndexQueue, |palette|) || |save.colorIndexQueue| < cfg.queuedCount as int)
    ensures r.Failure? ==> r.error == IndexOutOfRange
    ensures r.Success? ==> r.value.state.highScore == save.highScore && r.value.state.currentScore == save.currentScore
    ensures r.Success? && |save.colorIndexQueue| > 0 ==>
              r.value.state == s.(queue := save.colorIndexQueue, highScore := save.highScore, currentScore := save.currentScore)
    ensures r.Success? && |save.colorIndexQueue| == 0 ==>
              && |r.value.state.queue| == cfg.queuedCount as int
              && ValidIndices(r.value.state.queue, |palette|)
              && r.value.state == s.(queue := r.value.state.queue, highScore := save.highScore,
                                     currentScore := save.currentScore, blockInput := false)
    ensures r.Success? ==> |r.value.effects| > 0 && r.value.effects[|r.value.effects| - 1] == LoadBoard
  {
    var cleared := ClearResources(s);
    if |save.colorIndexQueue| == 0 then
      var started := NewGame(cfg, palette, cleared, draws);
      var restored := started.state.(highScore := save.highScore, currentScore := save.currentScore);
      Success(Step(restored, started.effects + [LoadBoard]))
    else if !ValidIndices(save.colorIndexQueue, |palette|) || |save.colorIndexQueue| < cfg.queuedCount as int then
      Failure(IndexOutOfRange)
    else
      var restored := cleared.(queue := save.colorIndexQueue, highScore := save.highScore, currentScore := save.currentScore);
      Success(Step(restored, [LoadBoard]))
  }
}
