/** The game controller (src/game/controller.py) as a function of values: the whole game as a
    `World`, one function per event and per phase of a frame's `update`, and the facts the
    game relies on. The `Controller` module's object methods are proved to compute exactly
    these functions. */
module ControllerModel {
  import opened Constants
  import opened Geometry
  import opened Pipes
  import opened PipeSweep
  import opened Events
  import Birds
  import GameStates
  import Scores
  import DeathScreen

  /** Milliseconds the bird must lie on the ground before the fade starts. */
  const DeathDelay: int := 1000

  datatype World = World(
    bird: Birds.BirdView,
    pipes: seq<PipeView>,
    flags: GameStates.Flags,
    scores: Scores.ScoreView,
    fade: DeathScreen.Fade,
    backgroundX: int,
    deathTime: int)

  function InitialWorld(file: Scores.StoredText): World {
    World(Birds.InitialBird(), [], GameStates.AllClear(), Scores.ScoreView(0, Scores.LoadHighScore(file)),
          DeathScreen.Cleared(), 0, 0)
  }

  /** What holds in every state the game reaches. */
  ghost predicate Inv(w: World) {
    && GameStates.Consistent(w.flags)
    && (w.flags.isGameOver ==> w.flags.isGameStarted)
    && (w.bird.isDead ==> w.flags.isGameOver)
    && Birds.InRange(w.bird)
    && DeathScreen.FadeInvariant(w.fade)
    && -WindowWidth < w.backgroundX <= 0
    && ValidGaps(w.pipes)
  }

  lemma InitialWorldInv(file: Scores.StoredText)
    ensures Inv(InitialWorld(file))
  {
  }

  // ---------------------------------------------------------------- spawn and reset

  /** `spawn_pipe`: one new, unpassed pipe at the right edge, after all the others. */
  function WithPipe(w: World, gapHeight: int): (r: World)
    ensures r.pipes == w.pipes + [PipeView(WindowWidth, gapHeight, false)]
    ensures r.(pipes := w.pipes) == w
  {
    w.(pipes := w.pipes + [PipeView(WindowWidth, gapHeight, false)])
  }

  /** `reset_game`: a fresh running game; the best score and the background are kept. */
  function Restarted(w: World): (r: World)
    ensures r.flags.isGameStarted && !r.flags.isGameOver && !r.flags.isBirdFalling
    ensures r.scores == Scores.ScoreView(0, w.scores.highScore)
    ensures r.pipes == [] && r.bird == Birds.AfterReset(w.bird)
    ensures r.fade == DeathScreen.Cleared() && r.deathTime == 0 && r.backgroundX == w.backgroundX
  {
    w.(flags := GameStates.Started(GameStates.Cleared(w.flags)),
       scores := Scores.Zeroed(w.scores),
       bird := Birds.AfterReset(w.bird),
       pipes := [],
       fade := DeathScreen.Cleared(),
       deathTime := 0)
  }

  // ---------------------------------------------------------------- events

  /** How `handle_events` goes on after one event: with the next event, or by returning. */
  datatype Next = Continue | Return(running: bool)

  /** The main menu is showing. */
  predicate InMenu(f: GameStates.Flags) {
    !f.isGameStarted && !f.isGameOver
  }

  /** The game-over screen with its buttons is showing. */
  predicate OnDeathScreen(w: World) {
    w.flags.isGameOver && w.fade.showDeathScreen
  }

  /** One pass of the body of the event loop in `handle_events`. */
  function AfterEvent(w: World, e: Event): (World, Next) {
    match e
    case Quit => (w, Return(false))
    case KeyDown(key) =>
      if key == Space then
        var flags := if InMenu(w.flags) then GameStates.Started(w.flags) else w.flags;
        (w.(flags := flags, bird := Birds.Jumped(w.bird)), Continue)
      else if key == KeyR && OnDeathScreen(w) then (Restarted(w), Return(true))
      else (w, Continue)
    case MouseDown(onStart, onRestart, onMenu) =>
      var w' := if InMenu(w.flags) && onStart then w.(flags := GameStates.Started(w.flags)) else w;
      if OnDeathScreen(w') && onRestart then (Restarted(w'), Return(true))
      else if OnDeathScreen(w') && onMenu then
        var r := Restarted(w');
        (r.(flags := GameStates.Cleared(r.flags)), Return(true))
      else (w', Continue)
    case PipeTimer(gapHeight) =>
      if w.flags.isGameStarted && !w.flags.isGameOver then (WithPipe(w, gapHeight), Continue)
      else (w, Continue)
    case OtherEvent => (w, Continue)
  }

  /** `handle_events` over a frame's queue: the world afterwards and the value returned. */
  function AfterEvents(w: World, es: seq<Event>): (World, bool)
    decreases |es|
  {
    if es == [] then (w, true)
    else
      var (w', next) := AfterEvent(w, es[0]);
      if next.Return? then (w', next.running) else AfterEvents(w', es[1..])
  }

  /** Only a quit request makes `handle_events` return false. */
  lemma OnlyQuitStops(w: World, e: Event)
    ensures AfterEvent(w, e).1 == Return(false) <==> e == Quit
  {
  }

  /** R, Restart and Main Menu act exactly when the game-over screen is showing; R and Restart
      start a new game, Main Menu additionally clears every flag. */
  lemma ResetOnlyFromDeathScreen(w: World, e: Event)
    ensures AfterEvent(w, e).1 == Return(true) <==>
              OnDeathScreen(w) && (e == KeyDown(KeyR) || (e.MouseDown? && (e.onRestart || e.onMenu)))
    ensures OnDeathScreen(w) && (e == KeyDown(KeyR) || (e.MouseDown? && e.onRestart)) ==>
              AfterEvent(w, e).0 == Restarted(w)
    ensures OnDeathScreen(w) && e.MouseDown? && !e.onRestart && e.onMenu ==>
              AfterEvent(w, e).0 == Restarted(w).(flags := GameStates.AllClear())
  {
  }

  /** Space starts the game from the menu only, and always passes the jump to the bird. */
  lemma SpaceStartsAndJumps(w: World)
    ensures var r := AfterEvent(w, KeyDown(Space));
            && r.1 == Continue
            && r.0.bird == Birds.Jumped(w.bird)
            && r.0.flags == (if InMenu(w.flags) then GameStates.Started(w.flags) else w.flags)
            && r.0.(bird := w.bird, flags := w.flags) == w
  {
  }

  /** A pipe is added, at the end of the list, exactly on a timer event in a running game. */
  lemma SpawnOnlyWhilePlaying(w: World, e: Event)
    ensures |AfterEvent(w, e).0.pipes| == |w.pipes| + 1 <==>
              e.PipeTimer? && w.flags.isGameStarted && !w.flags.isGameOver
    ensures e.PipeTimer? && w.flags.isGameStarted && !w.flags.isGameOver ==>
              AfterEvent(w, e).0.pipes == w.pipes + [PipeView(WindowWidth, e.gapHeight, false)]
  {
  }

  lemma AfterEventKeepsInv(w: World, e: Event)
    requires Inv(w) && ValidDraw(e)
    ensures Inv(AfterEvent(w, e).0)
    ensures AfterEvent(w, e).0.scores.highScore == w.scores.highScore
  {
    match e
    case KeyDown(key) =>
      Birds.InRangeKept(w.bird);
    case MouseDown(_, _, _) =>
      Birds.InRangeKept(w.bird);
    case PipeTimer(g) =>
      var ps := w.pipes + [PipeView(WindowWidth, g, false)];
      assert forall k :: 0 <= k < |w.pipes| ==> ps[k] == w.pipes[k];
    case _ =>
  }

  lemma {:induction false} AfterEventsKeepsInv(w: World, es: seq<Event>)
    requires Inv(w) && ValidDraws(es)
    ensures Inv(AfterEvents(w, es).0)
    ensures AfterEvents(w, es).0.scores.highScore == w.scores.highScore
    decreases |es|
  {
    if es != [] {
      assert ValidDraw(es[0]);
      AfterEventKeepsInv(w, es[0]);
      var (w', next) := AfterEvent(w, es[0]);
      if next.Continue? {
        assert ValidDraws(es[1..]) by {
          assert forall k :: 0 <= k < |es| - 1 ==> es[1..][k] == es[k + 1];
        }
        AfterEventsKeepsInv(w', es[1..]);
      }
    }
  }

  // ---------------------------------------------------------------- the phases of update

  /** Lines 83-88: the bird moves once the game has started; a dead bird ends a game not yet over. */
  function BirdPhase(w: World): World {
    if w.flags.isGameStarted then
      var b := Birds.Stepped(w.bird);
      w.(bird := b, flags := if b.isDead && !w.flags.isGameOver then GameStates.Ended(w.flags) else w.flags)
    else w
  }

  /** Lines 91-160: unless the game is over, the pass over the pipes; its points go to the score,
      and a hit ends the game and kills the bird. */
  function PipePhase(w: World): World {
    if w.flags.isGameOver then w
    else
      var r := Sweep(w.pipes, Birds.BirdRect(w.bird), w.bird.x, w.flags.isGameStarted);
      w.(pipes := r.0,
         scores := w.scores.(score := w.scores.score + r.1.gained),
         flags := if r.1.hit then GameStates.Ended(w.flags) else w.flags,
         bird := w.bird.(isDead := w.bird.isDead || r.1.hit))
  }

  /** Lines 163-179, with `birdOnGround` standing for `bird.is_on_ground()` and `now` for
      `pygame.time.get_ticks()`. */
  function GroundPhase(w: World, birdOnGround: bool, now: int): World {
    if !birdOnGround then w
    else
      var w' := if w.flags.isBirdFalling then w.(flags := GameStates.Grounded(w.flags), deathTime := now) else w;
      if now - w'.deathTime > DeathDelay then w'.(fade := DeathScreen.Advanced(w'.fade, true)) else w'
  }

  /** Lines 182-183: every frame of a game that is over saves the high score. */
  function SavePhase(w: World, writeOk: bool): World {
    if w.flags.isGameOver then w.(scores := Scores.Saved(w.scores, writeOk).0) else w
  }

  /** Lines 186-189: the background scrolls by one and wraps at the window width. */
  function BackgroundPhase(w: World): World {
    if w.flags.isGameOver then w
    else
      var x := w.backgroundX - 1;
      w.(backgroundX := if x <= -WindowWidth then 0 else x)
  }

  /** `update`. */
  function Updated(w: World, birdOnGround: bool, now: int, writeOk: bool): World {
    BackgroundPhase(SavePhase(GroundPhase(PipePhase(BirdPhase(w)), birdOnGround, now), writeOk))
  }

  /** In a reachable state a live bird is never killed by its own update, not even below the
      ground line: the end-game branch of lines 87-88 never fires. */
  lemma LiveBirdNeverDiesByUpdate(w: World)
    requires Inv(w) && !w.bird.isDead
    ensures !BirdPhase(w).bird.isDead && BirdPhase(w).flags == w.flags
  {
  }

  lemma PipePhaseFacts(w: World)
    ensures var r := PipePhase(w);
            && Embeds(r.pipes, w.pipes) && r.scores.highScore == w.scores.highScore
            && r.scores.score - w.scores.score + Unpassed(r.pipes) <= Unpassed(w.pipes)
            && (!w.flags.isGameStarted ==> r.flags == w.flags && r.bird == w.bird)
            && (ValidGaps(w.pipes) ==> ValidGaps(r.pipes))
  {
    SweepFacts(w.pipes, Birds.BirdRect(w.bird), w.bird.x, w.flags.isGameStarted);
    if w.flags.isGameOver {
      EmbedsSelf(w.pipes);
    } else {
      var r := Sweep(w.pipes, Birds.BirdRect(w.bird), w.bird.x, w.flags.isGameStarted);
      assert r.1.gained + Unpassed(r.0) <= Unpassed(w.pipes);
    }
  }

  lemma {:induction false} EmbedsSelf(ps: seq<PipeView>)
    ensures Embeds(ps, ps)
    decreases |ps|
  {
    if ps != [] {
      EmbedsSelf(ps[1..]);
    }
  }

  lemma UpdateKeepsInv(w: World, birdOnGround: bool, now: int, writeOk: bool)
    requires Inv(w)
    ensures Inv(Updated(w, birdOnGround, now, writeOk))
  {
    Birds.InRangeKept(w.bird);
    var w1 := BirdPhase(w);
    assert Inv(w1);
    PipePhaseFacts(w1);
    var w2 := PipePhase(w1);
    assert Inv(w2);
    DeathScreen.AdvancedKeepsInvariant(w2.fade, true);
    if w2.flags.isBirdFalling {
      DeathScreen.AdvancedKeepsInvariant(w2.fade, true);
    }
  }

  /** While the game is over, `update` moves no pipe, adds no point and stops the background. */
  lemma FrozenWhileOver(w: World, birdOnGround: bool, now: int, writeOk: bool)
    requires w.flags.isGameOver
    ensures var r := Updated(w, birdOnGround, now, writeOk);
            r.pipes == w.pipes && r.scores.score == w.scores.score && r.backgroundX == w.backgroundX
  {
  }

  /** A started game whose bird is dead after `update` is over. */
  lemma DeadBirdEndsGame(w: World, birdOnGround: bool, now: int, writeOk: bool)
    ensures var r := Updated(w, birdOnGround, now, writeOk);
            r.flags.isGameStarted && r.bird.isDead ==> r.flags.isGameOver
  {
  }

  /** The frame's score: every point comes from a pipe that was unscored, and the best score
      never drops. */
  lemma UpdateScoring(w: World, birdOnGround: bool, now: int, writeOk: bool)
    ensures var r := Updated(w, birdOnGround, now, writeOk);
            && r.scores.score - w.scores.score + Unpassed(r.pipes) <= Unpassed(w.pipes)
            && r.scores.highScore >= w.scores.highScore
            && Embeds(r.pipes, w.pipes)
  {
    PipePhaseFacts(BirdPhase(w));
  }

  /** `render` runs right after `update`, which saved the high score if the game is over: the
      game-over screen is never told that the score is a new high score. */
  lemma GameOverScreenNeverSeesNewHighScore(w: World, birdOnGround: bool, now: int, writeOk: bool)
    ensures var r := Updated(w, birdOnGround, now, writeOk);
            r.flags.isGameOver ==> !Scores.BeatsHighScore(r.scores)
  {
  }

  /** A hit while the game runs ends it in the same frame: the bird is dead, the game over and
      the bird falling. */
  lemma HitEndsGameThisFrame(w: World)
    requires w.flags.isGameStarted && !w.flags.isGameOver
    requires Sweep(w.pipes, Birds.BirdRect(w.bird), w.bird.x, true).1.hit
    ensures PipePhase(w).bird.isDead && PipePhase(w).flags.isGameOver && PipePhase(w).flags.isBirdFalling
  {
  }

  // ---------------------------------------------------------------- one iteration of run

  /** `run`'s loop body without drawing: the events, then `update`. */
  function Frame(w: World, es: seq<Event>, birdOnGround: bool, now: int, writeOk: bool): (World, bool) {
    var (w', running) := AfterEvents(w, es);
    (Updated(w', birdOnGround, now, writeOk), running)
  }

  lemma FrameKeepsInv(w: World, es: seq<Event>, birdOnGround: bool, now: int, writeOk: bool)
    requires Inv(w) && ValidDraws(es)
    ensures Inv(Frame(w, es, birdOnGround, now, writeOk).0)
    ensures Frame(w, es, birdOnGround, now, writeOk).0.scores.highScore >= w.scores.highScore
  {
    AfterEventsKeepsInv(w, es);
    UpdateKeepsInv(AfterEvents(w, es).0, birdOnGround, now, writeOk);
    UpdateScoring(AfterEvents(w, es).0, birdOnGround, now, writeOk);
  }
}
