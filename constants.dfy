/** The game's dimensions and physics constants (src/utils/constants.py, also repeated at
    the top of the legacy bird.py). Colours, frame rate and spawn period have no behaviour here. */
module Constants {
  const WindowWidth: int := 720
  const WindowHeight: int := 740

  const BirdWidth: int := 50
  const BirdHeight: int := 40

  const PipeWidth: int := 80
  const PipeGap: int := 150
  const PipeVelocity: int := 8

  const GroundHeight: int := 100

  const Gravity: real := 0.9

  /** The y coordinate of the top of the ground band. */
  const GroundLine: int := WindowHeight - GroundHeight

  /** The range `random.randint` draws a gap's top from (both ends included). */
  const MinGapHeight: int := 50
  const MaxGapHeight: int := WindowHeight - PipeGap - GroundHeight - 50

  predicate ValidGapHeight(g: int) {
    MinGapHeight <= g <= MaxGapHeight
  }
}

/** The usual optional value. */
module Optional {
  datatype Option<+T> = None | Some(value: T)
}
