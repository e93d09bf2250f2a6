/** `GameController` (src/game/controller.py) as an object: it owns the bird, the score manager,
    the game state, the UI's fade and the list of pipe objects, and every method is proved to
    compute the `ControllerModel` function of the same name. */
module Controller {
  import opened Constants
  import opened Geometry
  import opened Pipes
  import opened PipeSweep
  import opened Events
  import opened ControllerModel
  import Birds
  import GameStates
  import Scores
  import DeathScreen

  class GameController {
    const bird: Birds.Bird
    const scoreManager: Scores.ScoreManager
    const gameState: GameStates.GameState
    const ui: DeathScreen.Ui
    var pipes: seq<Pipe>
    var backgroundX: int
    var deathTime: int

    function View(): World
      reads this, bird, gameState, scoreManager, ui, pipes
    {
      World(bird.View(), Views(pipes), gameState.View(), scoreManager.View(), ui.View(), backgroundX, deathTime)
    }

    /** The pipe objects are all different, and the state is one the game can reach. */
    ghost predicate Valid()
      reads this, bird, gameState, scoreManager, ui, pipes
    {
      Distinct(pipes) && Inv(View())
    }

    /** `file` is what the high-score file holds when the game starts. */
    constructor (file: Scores.StoredText)
      ensures Valid() && View() == InitialWorld(file)
    {
      bird := new Birds.Bird();
      pipes := [];
      scoreManager := new Scores.ScoreManager(file);
      gameState := new GameStates.GameState();
      ui := new DeathScreen.Ui();
      backgroundX := 0;
      deathTime := 0;
      new;
      InitialWorldInv(file);
    }

    /** `spawn_pipe`, with the random draw passed in as `gapHeight`. */
    method SpawnPipe(gapHeight: int)
      requires Distinct(pipes)
      modifies this
      ensures |pipes| == |old(pipes)| + 1 && Distinct(pipes) && fresh(pipes[|pipes| - 1])
      ensures pipes[..|pipes| - 1] == old(pipes)
      ensures View() == WithPipe(old(View()), gapHeight)
    {
      var pipe := new Pipe(WindowWidth, gapHeight);
      pipes := pipes + [pipe];
      assert pipes[..|pipes| - 1] == old(pipes);
    }

    method ResetGame()
      modifies this, bird, gameState, scoreManager, ui
      ensures pipes == []
      ensures View() == Restarted(old(View()))
    {
      gameState.Reset();
      gameState.StartGame();
      scoreManager.Reset();
      bird.ResetPosition();
      pipes := [];
      ui.ResetDeathAnimation();
      deathTime := 0;
    }

    /** One pass of the event loop of `handle_events`; the buttons' hit tests come with the
        mouse event. */
    method HandleEvent(e: Event) returns (next: Next)
      requires Valid() && ValidDraw(e)
      modifies this, bird, gameState, scoreManager, ui
      ensures Valid()
      ensures forall k :: 0 <= k < |pipes| ==> pipes[k] in old(pipes) || fresh(pipes[k])
      ensures (View(), next) == AfterEvent(old(View()), e)
    {
      ghost var w0 := View();
      AfterEventKeepsInv(w0, e);
      next := Continue;
      match e {
        case Quit =>
          next := Return(false);
        case KeyDown(key) =>
          if key == Space {
            if !gameState.isGameStarted && !gameState.isGameOver {
              gameState.StartGame();
            }
            bird.Jump();
          }
          if key == KeyR && gameState.isGameOver && ui.showDeathScreen {
            ResetGame();
            next := Return(true);
          }
        case MouseDown(onStart, onRestart, onMenu) =>
          if !gameState.isGameStarted && !gameState.isGameOver {
            if onStart {
              gameState.StartGame();
            }
          }
          if gameState.isGameOver && ui.showDeathScreen {
            if onRestart {
              ResetGame();
              next := Return(true);
            } else if onMenu {
              ResetGame();
              gameState.Reset();
              next := Return(true);
            }
          }
        case PipeTimer(gapHeight) =>
          if gameState.isGameStarted && !gameState.isGameOver {
            SpawnPipe(gapHeight);
          }
        case OtherEvent =>
      }
    }

    /** `handle_events` over the frame's event queue: it stops at the first event that
        returns, and the events after it are dropped with the queue. */
    method HandleEvents(events: seq<Event>) returns (running: bool)
      requires Valid() && ValidDraws(events)
      modifies this, bird, gameState, scoreManager, ui
      ensures Valid()
      ensures forall k :: 0 <= k < |pipes| ==> pipes[k] in old(pipes) || fresh(pipes[k])
      ensures (View(), running) == AfterEvents(old(View()), events)
    {
      var k := 0;
      while k < |events|
        invariant 0 <= k <= |events| && Valid()
        invariant forall j :: 0 <= j < |pipes| ==> pipes[j] in old(pipes) || fresh(pipes[j])
        invariant AfterEvents(old(View()), events) == AfterEvents(View(), events[k..])
      {
        ghost var w := View();
        assert events[k..][0] == events[k] && events[k..][1..] == events[k + 1..];
        assert ValidDraw(events[k]);
        var next := HandleEvent(events[k]);
        if next.Return? {
          return next.running;
        }
        k := k + 1;
      }
      return true;
    }

    /** `pipes.remove(pipe)` for the pipe at index `i`: Python compares objects by identity, and
        no pipe occurs twice, so exactly that index goes. */
    method DropPipe(pipe: Pipe, ghost i: nat)
      requires Distinct(pipes) && i < |pipes| && pipes[i] == pipe
      modifies this
      ensures pipes == old(pipes[..i] + pipes[i + 1..]) && Distinct(pipes)
      ensures forall k :: 0 <= k < |pipes| ==> pipes[k] in old(pipes)
      ensures backgroundX == old(backgroundX) && deathTime == old(deathTime)
    {
      RemoveFirstAt(pipes, i);
      pipes := RemoveFirst(pipes, pipe);
      assert forall k :: 0 <= k < |pipes| ==> pipes[k] == old(pipes)[if k < i then k else k + 1];
    }

    /** Lines 99-103: a pipe the bird has passed scores once. */
    method ScorePipe(pipe: Pipe)
      modifies pipe, scoreManager
      ensures var scores := !old(pipe.passed) && Behind(old(pipe.View()), bird.x);
              && pipe.View() == old(pipe.View()).(passed := old(pipe.passed) || scores)
              && scoreManager.View() == if scores then Scores.Incremented(old(scoreManager.View()))
                                        else old(scoreManager.View())
    {
      if ((pipe.x + PipeWidth) as real) < bird.x {
        if !pipe.passed {
          pipe.passed := true;
          scoreManager.Increment();
        }
      }
    }

    /** Lines 105-160 without the particles: while the game runs, touching either rectangle
        ends the game and kills the bird. */
    method CheckCollision(pipe: Pipe)
      modifies gameState, bird
      ensures var hit := old(gameState.isGameStarted && !gameState.isGameOver) && Hits(bird.GetRect(), pipe.View());
              && gameState.View() == (if hit then GameStates.Ended(old(gameState.View())) else old(gameState.View()))
              && bird.View() == old(bird.View()).(isDead := old(bird.isDead) || hit)
    {
      if gameState.isGameStarted && !gameState.isGameOver {
        var birdRect := bird.GetRect();
        var (upper, lower) := pipe.GetRect();
        if Collides(birdRect, upper) {
          gameState.EndGame();
          bird.isDead := true;
        } else if Collides(birdRect, lower) {
          gameState.EndGame();
          bird.isDead := true;
        }
      }
    }

    /** Lines 93-97: the pipe at index `i` moves, and leaves the list once off screen. */
    method AdvancePipe(i: nat) returns (pipe: Pipe, removed: bool)
      requires Distinct(pipes) && i < |pipes|
      modifies this, pipes[i]
      ensures pipe == old(pipes[i]) && pipe.View() == Scrolled(old(pipe.View()))
      ensures removed == OffScreen(pipe.View())
      ensures removed ==> pipes == old(pipes[..i] + pipes[i + 1..]) && pipe !in pipes
      ensures !removed ==> pipes == old(pipes)
      ensures Distinct(pipes) && forall k :: 0 <= k < |pipes| ==> pipes[k] in old(pipes)
      ensures backgroundX == old(backgroundX) && deathTime == old(deathTime)
      ensures Views(pipes) == if removed then old(Views(pipes)[..i] + Views(pipes)[i + 1..])
                              else old(Views(pipes))[i := pipe.View()]
    {
      ghost var vs := Views(pipes);
      ghost var ps := pipes;
      pipe := pipes[i];
      pipe.Update();
      removed := pipe.x + PipeWidth < 0;
      if pipe.x + PipeWidth < 0 {
        DropPipe(pipe, i);
        assert forall k :: 0 <= k < |pipes| ==> pipes[k] == ps[if k < i then k else k + 1];
      }
      forall k | 0 <= k < |pipes|
        ensures Views(pipes)[k] == (if removed then vs[..i] + vs[i + 1..] else vs[i := pipe.View()])[k]
      {
        var j := if removed && k >= i then k + 1 else k;
        assert pipes[k] == ps[j];
      }
    }

    /** Lines 99-160 for a pipe that was just moved, whether or not it is still in the list. */
    method ScoreAndCheck(pipe: Pipe, ghost i: nat)
      requires Distinct(pipes) && (pipe !in pipes || (i < |pipes| && pipes[i] == pipe))
      modifies pipe, bird, gameState, scoreManager
      ensures var scores := !old(pipe.passed) && Behind(old(pipe.View()), bird.x);
              && pipe.View() == old(pipe.View()).(passed := old(pipe.passed) || scores)
              && scoreManager.View() == if scores then Scores.Incremented(old(scoreManager.View()))
                                        else old(scoreManager.View())
      ensures var hit := old(gameState.isGameStarted && !gameState.isGameOver) && Hits(bird.GetRect(), pipe.View());
              && gameState.View() == (if hit then GameStates.Ended(old(gameState.View())) else old(gameState.View()))
              && bird.View() == old(bird.View()).(isDead := old(bird.isDead) || hit)
      ensures Views(pipes) == if pipe in pipes then old(Views(pipes))[i := pipe.View()] else old(Views(pipes))
    {
      ghost var vs := Views(pipes);
      label Moved:
      ScorePipe(pipe);
      CheckCollision(pipe);
      if pipe in pipes {
        forall k | 0 <= k < |pipes| && k != i ensures pipes[k].View() == vs[k] {
          assert pipes[k] != pipe;
          assert vs[k] == old@Moved(pipes[k].View());
        }
      } else {
        forall k | 0 <= k < |pipes| ensures pipes[k].View() == vs[k] {
          assert pipes[k] != pipe;
          assert vs[k] == old@Moved(pipes[k].View());
        }
      }
    }

    /** Lines 91-160 of `update`: the game is not over, so the pipes are visited. */
    method UpdatePipes()
      requires Distinct(pipes) && !gameState.isGameOver
      modifies this, bird, gameState, scoreManager, pipes
      ensures Distinct(pipes) && forall k :: 0 <= k < |pipes| ==> pipes[k] in old(pipes)
      ensures View() == PipePhase(old(View()))
    {
      ghost var w0 := View();
      ghost var r := SweepPipes();
      assert r == Sweep(w0.pipes, Birds.BirdRect(w0.bird), w0.bird.x, w0.flags.isGameStarted);
    }

    /** One turn of the loop of lines 92-160, for the pipe at index `i`: the list and the
        frame's running tally `t` (points since `score0`, whether the game is over) advance as
        `SweepFrom` does by one index. */
    method VisitAt(i: nat, ghost box: Rect, ghost checks: bool, ghost score0: int, ghost t: Tally)
      returns (ghost t': Tally)
      requires Distinct(pipes) && i < |pipes|
      requires box == bird.GetRect() && checks == gameState.isGameStarted
      requires t.hit == gameState.isGameOver && scoreManager.score == score0 + t.gained
      modifies this, pipes[i], bird, gameState, scoreManager
      ensures Distinct(pipes) && forall k :: 0 <= k < |pipes| ==> pipes[k] in old(pipes)
      ensures |old(pipes)| - 1 <= |pipes| <= |old(pipes)|
      ensures backgroundX == old(backgroundX) && deathTime == old(deathTime)
      ensures t'.hit == gameState.isGameOver && scoreManager.score == score0 + t'.gained
      ensures scoreManager.highScore == old(scoreManager.highScore) && (t.hit ==> t'.hit)
      ensures gameState.View() == if t'.hit && !t.hit then GameStates.Ended(old(gameState.View())) else old(gameState.View())
      ensures bird.View() == old(bird.View()).(isDead := old(bird.isDead) || (t'.hit && !t.hit))
      ensures SweepFrom(Views(pipes), i + 1, box, bird.x, checks, t') == SweepFrom(old(Views(pipes)), i, box, bird.x, checks, t)
    {
      ghost var vs := Views(pipes);
      var pipe, removed := AdvancePipe(i);
      ScoreAndCheck(pipe, i);
      t' := Tally(scoreManager.score - score0, gameState.isGameOver);
      SweepStep(vs, i, box, bird.x, checks, t, pipe.View(), t', Views(pipes));
    }

    /** The loop of lines 92-160, written with its index to keep Python's list iterator:
        `pipes.remove(pipe)` shifts the rest left while the index moves on. */
    method SweepPipes() returns (ghost r: (seq<PipeView>, Tally))
      requires Distinct(pipes) && !gameState.isGameOver
      modifies this, bird, gameState, scoreManager, pipes
      ensures Distinct(pipes) && forall k :: 0 <= k < |pipes| ==> pipes[k] in old(pipes)
      ensures r == Sweep(old(Views(pipes)), old(bird.GetRect()), old(bird.x), old(gameState.isGameStarted))
      ensures Views(pipes) == r.0 && scoreManager.View() == old(scoreManager.View()).(score := old(scoreManager.score) + r.1.gained)
      ensures gameState.View() == (if r.1.hit then GameStates.Ended(old(gameState.View())) else old(gameState.View()))
      ensures bird.View() == old(bird.View()).(isDead := old(bird.isDead) || r.1.hit)
      ensures backgroundX == old(backgroundX) && deathTime == old(deathTime)
    {
      ghost var score0 := scoreManager.score;
      ghost var high0 := scoreManager.highScore;
      ghost var pipes0 := pipes;
      ghost var bg0 := backgroundX;
      ghost var death0 := deathTime;
      ghost var flags0 := gameState.View();
      ghost var bird0 := bird.View();
      ghost var box := bird.GetRect();
      ghost var checks := gameState.isGameStarted;
      ghost var goal := Sweep(Views(pipes), box, bird0.x, checks);
      ghost var t := Tally(0, false);
      var i: nat := 0;
      while i < |pipes|
        invariant i <= |pipes| + 1
        invariant Distinct(pipes) && forall k :: 0 <= k < |pipes| ==> pipes[k] in pipes0
        invariant scoreManager.score == score0 + t.gained && scoreManager.highScore == high0
        invariant gameState.isGameOver == t.hit
        invariant gameState.View() == if t.hit then GameStates.Ended(flags0) else flags0
        invariant bird.View() == bird0.(isDead := bird0.isDead || t.hit)
        invariant backgroundX == bg0 && deathTime == death0
        invariant SweepFrom(Views(pipes), i, box, bird0.x, checks, t) == goal
        decreases |pipes| + 1 - i
      {
        t := VisitAt(i, box, checks, score0, t);
        i := i + 1;
      }
      r := goal;
    }

    /** Lines 83-88. */
    method UpdateBird()
      modifies bird, gameState
      ensures View() == BirdPhase(old(View()))
    {
      if gameState.isGameStarted {
        bird.Update();
        if bird.isDead && !gameState.isGameOver {
          gameState.EndGame();
        }
      }
    }

    /** Lines 163-179. */
    method UpdateGround(birdOnGround: bool, now: int)
      modifies this, gameState, ui
      ensures pipes == old(pipes)
      ensures View() == GroundPhase(old(View()), birdOnGround, now)
    {
      if birdOnGround {
        if gameState.isBirdFalling {
          gameState.BirdHitGround();
          deathTime := now;
        }
        if now - deathTime > DeathDelay {
          ui.UpdateDeathAnimation(true);
        }
      }
    }

    /** Lines 182-183. */
    method SaveIfOver(writeOk: bool)
      modifies scoreManager
      ensures View() == SavePhase(old(View()), writeOk)
    {
      if gameState.isGameOver {
        var _ := scoreManager.SaveHighScore(writeOk);
      }
    }

    /** Lines 186-189. */
    method ScrollBackground()
      modifies this
      ensures pipes == old(pipes)
      ensures View() == BackgroundPhase(old(View()))
    {
      if !gameState.isGameOver {
        backgroundX := backgroundX - 1;
        if backgroundX <= -WindowWidth {
          backgroundX := 0;
        }
      }
    }

    /** `update`, with `birdOnGround` for `bird.is_on_ground()`, `now` for the clock and
        `writeOk` for whether writing the high-score file succeeds. */
    method Update(birdOnGround: bool, now: int, writeOk: bool)
      requires Valid()
      modifies this, bird, gameState, scoreManager, ui, pipes
      ensures Valid() && forall k :: 0 <= k < |pipes| ==> pipes[k] in old(pipes)
      ensures View() == Updated(old(View()), birdOnGround, now, writeOk)
    {
      UpdateKeepsInv(View(), birdOnGround, now, writeOk);
      UpdateBird();
      if !gameState.isGameOver {
        UpdatePipes();
      }
      UpdateGround(birdOnGround, now);
      SaveIfOver(writeOk);
      ScrollBackground();
    }

    /** One iteration of `run`'s loop without drawing. */
    method RunOnce(events: seq<Event>, birdOnGround: bool, now: int, writeOk: bool) returns (running: bool)
      requires Valid() && ValidDraws(events)
      modifies this, bird, gameState, scoreManager, ui, pipes
      ensures Valid()
      ensures (View(), running) == Frame(old(View()), events, birdOnGround, now, writeOk)
    {
      running := HandleEvents(events);
      Update(birdOnGround, now, writeOk);
    }
  }
}
