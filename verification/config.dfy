/** The gameplay tunables and the ball palette the game manager is set up with. */
module Config {
  import opened Common

  /** Number of balls queued and attached per turn; the editor restricts it to 1..6. */
  type QueuedCount = q: uint32 | 1 <= q <= 6 witness 3

  /** A palette of ball colors, by `ColorID`. The manager indexes it with every
      color it draws, so it holds at least one entry. */
  type Palette = p: seq<int> | |p| > 0 witness [0]

  /** The gameplay tunables. `ghostAppearChance` is the floor of the editor's
      float percentage: the game compares it with a whole roll in 0..99, and a
      whole number is at most a float exactly when it is at most its floor, so
      a negative chance (never a ghost) is kept as a negative whole number. */
  datatype GameplayConfig = GameplayConfig(
    queuedCount: QueuedCount,
    scorePerExploded: uint32,
    explodeCount: uint32,
    initGrowUpCount: uint32,
    maxScore: uint32,
    ghostCount: uint32,
    ghostAppearChance: int)

  /** The tunables a freshly created configuration asset holds. */
  function Default(): (c: GameplayConfig)
    ensures c.scorePerExploded > 0 && c.maxScore as int % c.scorePerExploded as int == 0
  {
    GameplayConfig(
      queuedCount := 3,
      scorePerExploded := 1,
      explodeCount := 5,
      initGrowUpCount := 3,
      maxScore := 99999,
      ghostCount := 3,
      ghostAppearChance := 10)
  }
}
