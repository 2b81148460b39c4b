/** What the game manager sees of the board it does not own: positions, what it
    reads from a tile node, and the requests it makes of the board manager and of
    tile nodes. The collaborators' own behaviour is not part of this model. */
module Board {
  import opened Common

  /** A board position (a Unity `Vector2` holding whole grid coordinates). */
  datatype Pos = Pos(x: int, y: int)

  /** What the manager reads from a tile node: whether its type is GHOST, and the
      color of the ball it holds (`None` when it holds no ball). */
  datatype NodeView = NodeView(isGhost: bool, ballColor: Option<int>)

  /** A request to a collaborator, in the order the manager makes it. */
  datatype Effect =
    | CreateNewBoard(queuedCount: nat, initGrowUpCount: nat)
    | ClearBoard
    | AttachQueueBall(configIndex: int)
    | GrowQueueBalls
    | ReleaseGrowUpNode(pos: Pos)
    | BackToDefault(pos: Pos)
    | AddGrowUpNode(pos: Pos)
    | AttachGrowUp(pos: Pos, colorID: int)
    | BecomeGhostBall(pos: Pos)
    | CheckChainExplode(pos: Pos)
    | MoveBall(colorID: int)        // the moving ball starts along the path with this ball's sprite
    | ChainExplode(keys: seq<Pos>)
    | SaveBoard
    | LoadBoard
}
