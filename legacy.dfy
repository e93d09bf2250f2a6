/** The original single-file game (bird.py): a bird without clamps, the same pipes, module-level
    flags, and a main loop whose game-over screen hands straight back to the main menu. */
module Legacy {
  import opened Constants
  import opened Optional
  import opened Geometry
  import opened Pipes
  import opened PipeSweep
  import opened Events
  import Scores

  // ---------------------------------------------------------------- the bird (lines 47-63)

  const StartX: int := 50
  /** `WINDOW_HEIGHT // 2` */
  const StartY: real := (WindowHeight / 2) as real
  const JumpVelocity: real := -12.0

  datatype BirdView = BirdView(x: int, y: real, velocity: real)

  function InitialBird(): BirdView {
    BirdView(StartX, StartY, 0.0)
  }

  /** `update`: gravity, with no ceiling and no ground. */
  function Fallen(b: BirdView): (r: BirdView)
    ensures r.x == b.x && r.velocity - b.velocity == Gravity && r.y - b.y == r.velocity
  {
    b.(velocity := b.velocity + Gravity, y := b.y + b.velocity + Gravity)
  }

  /** `jump`: the velocity is set, whatever the state. */
  function Jumped(b: BirdView): (r: BirdView)
    ensures r.velocity == JumpVelocity && r.(velocity := b.velocity) == b
  {
    b.(velocity := JumpVelocity)
  }

  /** `reset_position`: back to the start height, at rest. */
  function Rested(b: BirdView): (r: BirdView)
    ensures r == InitialBird().(x := b.x)
  {
    b.(y := StartY, velocity := 0.0)
  }

  function FallenTimes(b: BirdView, k: nat): BirdView {
    if k == 0 then b else Fallen(FallenTimes(b, k - 1))
  }

  /** After k updates without a jump the velocity has grown by 0.9k and the height by
      k*v + 0.45*k*(k+1). */
  lemma {:induction false} FallenTimesClosedForm(b: BirdView, k: nat)
    ensures FallenTimes(b, k).x == b.x
    ensures FallenTimes(b, k).velocity == b.velocity + Gravity * k as real
    ensures FallenTimes(b, k).y == b.y + b.velocity * k as real + Gravity * ((k * (k + 1)) / 2) as real
  {
    if k > 0 {
      FallenTimesClosedForm(b, k - 1);
      assert (k * (k + 1)) / 2 == ((k - 1) * k) / 2 + k by {
        assert k * (k + 1) == (k - 1) * k + 2 * k;
      }
    }
  }

  /** The bird's bottom edge is on or below the ground line: the game ends. */
  predicate OnGround(b: BirdView) {
    b.y + BirdHeight as real >= GroundLine as real
  }

  /** After k updates of a bird that jumped once from the start height, in whole numbers:
      it is on the ground exactly when k*(9k - 231) >= 4600. */
  lemma OneJumpHeight(k: nat)
    ensures OnGround(FallenTimes(Jumped(InitialBird()), k)) <==> k * (9 * k - 231) >= 4600
  {
    var b := Jumped(InitialBird());
    FallenTimesClosedForm(b, k);
    var n := (k * (k + 1)) / 2;
    var y := FallenTimes(b, k).y;
    assert y == 370.0 - 12.0 * k as real + 0.9 * n as real;
    assert OnGround(FallenTimes(b, k)) <==> 9 * n - 120 * k >= 2300;
    TriangleTwice(k);
    assert k * (9 * k - 231) == 9 * (k * (k + 1)) - 240 * k;
  }

  lemma TriangleTwice(k: nat)
    ensures 2 * ((k * (k + 1)) / 2) == k * (k + 1)
  {
    var m := if k % 2 == 0 then (k / 2) * (k + 1) else k * ((k + 1) / 2);
    if k % 2 == 0 {
      assert k == 2 * (k / 2);
    } else {
      assert k + 1 == 2 * ((k + 1) / 2);
    }
    assert k * (k + 1) == 2 * m;
  }

  lemma MulMono(a: int, b: int, c: int)
    requires a <= b && c >= 0
    ensures a * c <= b * c
  {
  }

  /** A bird that jumps once from the start height and never again reaches the ground on its
      39th update and not before. */
  lemma OneJumpReachesGroundOnUpdate39(k: nat)
    ensures OnGround(FallenTimes(Jumped(InitialBird()), k)) <==> k >= 39
  {
    OneJumpHeight(k);
    if k >= 39 {
      MulMono(39, k, 9 * k - 231);
      MulMono(120, 9 * k - 231, 39);
    } else if 9 * k - 231 > 0 {
      MulMono(k, 38, 9 * k - 231);
      MulMono(9 * k - 231, 111, 38);
    } else {
      MulMono(9 * k - 231, 0, k);
    }
  }

  // ---------------------------------------------------------------- the game (lines 86-244)

  /** The module-level state: the bird, the pipes, the two flags, the two scores and the
      background offset. */
  datatype World = World(
    bird: BirdView,
    pipes: seq<PipeView>,
    startFlag: bool,
    gameOverFlag: bool,
    score: int,
    highScore: int,
    backgroundX: int)

  /** Lines 128-135: only a missing file is caught; a file that does not hold an integer makes
      `int(...)` raise and the program stops, which is `None` here. */
  function LoadHighScore(file: Scores.StoredText): (r: Option<int>)
    ensures file.Absent? ==> r == Some(0)
    ensures file.Integer? ==> r == Some(file.value)
    ensures file.NotAnInteger? ==> r == None
  {
    match file
    case Absent => Some(0)
    case Integer(n) => Some(n)
    case NotAnInteger => None
  }

  function InitialWorld(highScore: int): World {
    World(InitialBird(), [], false, false, 0, highScore, 0)
  }

  /** `main_menu`: both flags down, no score, no pipes, the bird back at its start. */
  function MainMenu(w: World): (r: World)
    ensures !r.startFlag && !r.gameOverFlag && r.score == 0 && r.pipes == []
    ensures r.bird == Rested(w.bird)
    ensures r.highScore == w.highScore && r.backgroundX == w.backgroundX
  {
    w.(startFlag := false, gameOverFlag := false, score := 0, pipes := [], bird := Rested(w.bird))
  }

  /** The menu state that `main_menu` leaves behind. */
  predicate AtMenu(w: World) {
    w.pipes == [] && w.score == 0 && w.bird == InitialBird()
  }

  /** What holds at the start of every frame: in particular the game-over flag is down, since
      the frame that raises it also calls `game_over`, which calls `main_menu`. */
  ghost predicate Inv(w: World) {
    && !w.gameOverFlag
    && (!w.startFlag ==> AtMenu(w))
    && w.bird.x == StartX
    && ValidGaps(w.pipes)
    && -WindowWidth < w.backgroundX <= 0
  }

  lemma InitialWorldInv(highScore: int)
    ensures Inv(InitialWorld(highScore))
  {
  }

  /** One pass of the event loop, lines 162-178; the flag says the program exits. */
  function AfterEvent(w: World, e: Event): (r: (World, bool))
    ensures r.1 <==> e == Quit
    ensures r.0.highScore == w.highScore && r.0.backgroundX == w.backgroundX
  {
    match e
    case Quit => (w, true)
    case KeyDown(key) =>
      if key == Space then
        var w' := if !w.startFlag && !w.gameOverFlag then w.(startFlag := true)
                  else if w.gameOverFlag then MainMenu(w)
                  else w;
        (w'.(bird := Jumped(w'.bird)), false)
      else (w, false)
    case PipeTimer(gapHeight) =>
      if !w.gameOverFlag && w.startFlag then
        (w.(pipes := w.pipes + [PipeView(WindowWidth, gapHeight, false)]), false)
      else (w, false)
    case _ => (w, false)
  }

  /** The frame's event queue, up to a quit. */
  function AfterEvents(w: World, es: seq<Event>): (r: (World, bool))
    ensures r.1 <==> Quit in es
    ensures r.0.highScore == w.highScore && r.0.backgroundX == w.backgroundX
    decreases |es|
  {
    if es == [] then (w, false)
    else
      var (w', exits) := AfterEvent(w, es[0]);
      if exits then (w', true) else AfterEvents(w', es[1..])
  }

  /** In every reachable state Space only starts the game and jumps: the branch of line 171
      that opens the menu on a game-over flag is never taken. */
  lemma SpaceNeverOpensMenu(w: World)
    requires Inv(w)
    ensures AfterEvent(w, KeyDown(Space)) == (w.(startFlag := true, bird := Jumped(w.bird)), false)
  {
  }

  /** A pipe is added, at the end, exactly on a timer event of a running game. */
  lemma SpawnOnlyWhileRunning(w: World, e: Event)
    requires Inv(w)
    ensures |AfterEvent(w, e).0.pipes| == |w.pipes| + 1 <==> e.PipeTimer? && w.startFlag
    ensures e.PipeTimer? && w.startFlag ==>
              AfterEvent(w, e).0.pipes == w.pipes + [PipeView(WindowWidth, e.gapHeight, false)]
  {
  }

  /** A single event keeps `Inv`, the scores and the background. */
  lemma AfterEventKeepsInv(w: World, e: Event)
    requires Inv(w) && ValidDraw(e)
    ensures var r := AfterEvent(w, e).0;
            Inv(r) && r.score == w.score && r.highScore == w.highScore && r.backgroundX == w.backgroundX
  {
    var w' := AfterEvent(w, e).0;
    if e.PipeTimer? && w.startFlag {
      assert forall k :: 0 <= k < |w.pipes| ==> w'.pipes[k] == w.pipes[k];
    }
  }

  /** A frame's events never touch the scores, the background or the game-over flag in a
      reachable state, and they keep the menu state until Space. */
  lemma {:induction false} AfterEventsKeepsInv(w: World, es: seq<Event>)
    requires Inv(w) && ValidDraws(es)
    ensures var r := AfterEvents(w, es).0;
            Inv(r) && r.score == w.score && r.highScore == w.highScore && r.backgroundX == w.backgroundX
    decreases |es|
  {
    if es != [] {
      var (w', exits) := AfterEvent(w, es[0]);
      assert ValidDraw(es[0]);
      AfterEventKeepsInv(w, es[0]);
      if !exits {
        assert ValidDraws(es[1..]) by {
          assert forall k :: 0 <= k < |es| - 1 ==> es[1..][k] == es[k + 1];
        }
        AfterEventsKeepsInv(w', es[1..]);
      }
    }
  }

  /** The bird moves once the game has started (lines 181-182). */
  function BirdPhase(w: World): World {
    if w.startFlag then w.(bird := Fallen(w.bird)) else w
  }

  /** Lines 184-198: every pipe is visited, and a hit raises the game-over flag. */
  function PipePhase(w: World): World {
    var r := Sweep(w.pipes, BirdBox(w.bird.x as real, w.bird.y), w.bird.x as real, true);
    w.(pipes := r.0, score := w.score + r.1.gained, gameOverFlag := w.gameOverFlag || r.1.hit)
  }

  /** Lines 201-202. */
  function GroundPhase(w: World): World {
    if OnGround(w.bird) then w.(gameOverFlag := true) else w
  }

  /** Lines 205 and 212-213: the background always scrolls, and wraps at the window width. */
  function BackgroundPhase(w: World): World {
    var x := w.backgroundX - 1;
    w.(backgroundX := if x <= -WindowWidth then 0 else x)
  }

  /** Lines 117-120: the score written to the high-score file, if any. */
  function Written(score: int, highScore: int): (r: Option<int>)
    ensures r.Some? <==> score > highScore
    ensures r.Some? ==> r.value == score
  {
    if score > highScore then Some(score) else None
  }

  /** The loop body from the bird's update to the background, before `game_over`. */
  function Played(w: World): (r: World)
    ensures r.highScore == w.highScore && r.startFlag == w.startFlag && r.score >= w.score
  {
    BackgroundPhase(GroundPhase(PipePhase(BirdPhase(w))))
  }

  /** Lines 235-240: `game_over` on a raised flag, which writes the file when the score beats
      the best and ends in `main_menu`, then `main_menu` outside a game. The score written comes
      out beside the new state; `high_score` itself is never assigned. */
  function EndPhase(w: World): (r: (World, Option<int>))
    ensures !r.0.gameOverFlag && r.0.highScore == w.highScore
    ensures r.1.Some? <==> w.gameOverFlag && w.score > w.highScore
    ensures r.1.Some? ==> r.1.value == w.score
  {
    var w' := if w.gameOverFlag then MainMenu(w) else w;
    (if !w'.startFlag && !w'.gameOverFlag then MainMenu(w') else w',
     if w.gameOverFlag then Written(w.score, w.highScore) else None)
  }

  /** The rest of the loop body after the events. */
  function Updated(w: World): (r: (World, Option<int>))
    ensures r.0.highScore == w.highScore
  {
    EndPhase(Played(w))
  }

  /** How a frame ends: the program exits, or it goes on, perhaps having written a score. */
  datatype Outcome = Exited | Continued(written: Option<int>)

  /** One pass of `while True:`, without drawing and without the two-second pause. */
  function Frame(w: World, es: seq<Event>): (r: (World, Outcome))
    ensures r.0.highScore == w.highScore
    ensures r.1.Exited? <==> Quit in es
  {
    var (w', exits) := AfterEvents(w, es);
    if exits then (w', Exited)
    else
      var (w'', written) := Updated(w');
      (w'', Continued(written))
  }

  /** The frame's ending: a game that ended (by a pipe or the ground) is back at the menu with
      its score gone, the file is written exactly when that score beats the loaded best, and
      the best in memory stays the loaded one. */
  lemma UpdatedFacts(w: World)
    requires Inv(w)
    ensures var ended := PipePhase(BirdPhase(w)).gameOverFlag || OnGround(PipePhase(BirdPhase(w)).bird);
            var r := Updated(w);
            && !r.0.gameOverFlag && r.0.highScore == w.highScore
            && (ended || !w.startFlag ==> !r.0.startFlag && AtMenu(r.0))
            && (!ended && w.startFlag ==> r.0.startFlag)
            && (r.1.Some? <==> ended && PipePhase(BirdPhase(w)).score > w.highScore)
            && (r.1.Some? ==> r.1.value == PipePhase(BirdPhase(w)).score)
  {
    if !w.startFlag {
      assert w.pipes == [];
      assert Sweep([], BirdBox(w.bird.x as real, w.bird.y), w.bird.x as real, true) == ([], Tally(0, false));
    }
  }

  lemma UpdatedKeepsInv(w: World)
    requires Inv(w)
    ensures Inv(Updated(w).0)
  {
    UpdatedFacts(w);
    var w2 := PipePhase(BirdPhase(w));
    SweepFacts(BirdPhase(w).pipes, BirdBox(w.bird.x as real, BirdPhase(w).bird.y), w.bird.x as real, true);
    assert ValidGaps(w2.pipes);
  }

  lemma FrameKeepsInv(w: World, es: seq<Event>)
    requires Inv(w) && ValidDraws(es)
    ensures Frame(w, es).1.Continued? ==> Inv(Frame(w, es).0)
    ensures Frame(w, es).0.highScore == w.highScore
  {
    AfterEventsKeepsInv(w, es);
    UpdatedKeepsInv(AfterEvents(w, es).0);
  }

  /** A run of frames: the world before each frame's input and the scores written so far. */
  function Run(w: World, frames: seq<seq<Event>>): (r: (World, seq<int>))
    ensures r.0.highScore == w.highScore
    decreases |frames|
  {
    if frames == [] then (w, [])
    else
      var (w', outcome) := Frame(w, frames[0]);
      if outcome.Exited? then (w', [])
      else
        var (w'', later) := Run(w', frames[1..]);
        (w'', (if outcome.written.Some? then [outcome.written.value] else []) + later)
  }

  /** The score of the game that ends in this frame, if one does. */
  function EndedScore(w: World, es: seq<Event>): Option<int> {
    var (w', exits) := AfterEvents(w, es);
    if !exits && Played(w').gameOverFlag then Some(Played(w').score) else None
  }

  /** The final scores of the games that end along a run, in order. */
  function Finals(w: World, frames: seq<seq<Event>>): seq<int>
    decreases |frames|
  {
    if frames == [] then []
    else
      var (w', outcome) := Frame(w, frames[0]);
      if outcome.Exited? then []
      else
        var e := EndedScore(w, frames[0]);
        (if e.Some? then [e.value] else []) + Finals(w', frames[1..])
  }

  predicate Increasing(s: seq<int>) {
    forall a, b :: 0 <= a < b < |s| ==> s[a] < s[b]
  }

  /** A score `mid` written (or none) before an increasing list of scores that all beat it. */
  lemma PrependWritten(head: seq<int>, rest: seq<int>, low: int, mid: int)
    requires (head == [] && mid >= low) || (head == [mid] && mid > low)
    requires Increasing(rest) && forall a :: 0 <= a < |rest| ==> rest[a] > mid
    ensures Increasing(head + rest)
    ensures forall a :: 0 <= a < |head + rest| ==> (head + rest)[a] > low
    ensures rest != [] ==> (head + rest)[|head + rest| - 1] == rest[|rest| - 1]
  {
    var ws := head + rest;
    forall a | 0 <= a < |ws| ensures a >= |head| ==> ws[a] == rest[a - |head|] {
    }
  }

  // ---------------------------------------------------------------- the high-score finding

  /** The scores written by a session's successive game-overs, as the code does it: each is
      compared with the best loaded at start-up. */
  function WrittenAsCoded(highScore: int, finals: seq<int>): seq<int>
    decreases |finals|
  {
    if finals == [] then []
    else
      var w := Written(finals[0], highScore);
      (if w.Some? then [w.value] else []) + WrittenAsCoded(highScore, finals[1..])
  }

  /** A session that loads 5, then ends games with 10 and 7, leaves 7 in the file although 10
      was the best. */
  lemma LowerScoreOverwritesBest()
    ensures WrittenAsCoded(5, [10, 7]) == [10, 7]
  {
    assert [10, 7][1..] == [7];
    assert WrittenAsCoded(5, [7]) == [7];
  }

  /** The evidently intended game-over: the best is raised along with the file, so the next
      comparison is with the score just written. */
  function WrittenKeepingBest(highScore: int, finals: seq<int>): seq<int>
    decreases |finals|
  {
    if finals == [] then []
    else
      var w := Written(finals[0], highScore);
      (if w.Some? then [w.value] else []) + WrittenKeepingBest(if w.Some? then w.value else highScore, finals[1..])
  }

  /** With the best kept up to date, the file only ever improves: the written scores strictly
      increase and each beats the loaded best. */
  lemma {:induction false} KeepingBestOnlyImproves(highScore: int, finals: seq<int>)
    ensures Increasing(WrittenKeepingBest(highScore, finals))
    ensures forall a :: 0 <= a < |WrittenKeepingBest(highScore, finals)| ==> WrittenKeepingBest(highScore, finals)[a] > highScore
    decreases |finals|
  {
    if finals != [] {
      var w := Written(finals[0], highScore);
      var next := if w.Some? then w.value else highScore;
      KeepingBestOnlyImproves(next, finals[1..]);
      var rest := WrittenKeepingBest(next, finals[1..]);
      var head := if w.Some? then [w.value] else [];
      assert WrittenKeepingBest(highScore, finals) == head + rest;
      PrependWritten(head, rest, highScore, next);
    }
  }

  /** ... and a session in which some game beats the loaded best leaves at least that game's
      score in the file. */
  lemma {:induction false} KeepingBestEndsWithBest(highScore: int, finals: seq<int>, k: nat)
    requires k < |finals| && finals[k] > highScore
    ensures WrittenKeepingBest(highScore, finals) != []
    ensures WrittenKeepingBest(highScore, finals)[|WrittenKeepingBest(highScore, finals)| - 1] >= finals[k]
    decreases |finals|
  {
    var w := Written(finals[0], highScore);
    var next := if w.Some? then w.value else highScore;
    var rest := WrittenKeepingBest(next, finals[1..]);
    var head := if w.Some? then [w.value] else [];
    assert WrittenKeepingBest(highScore, finals) == head + rest;
    if k > 0 && finals[k] > next {
      assert finals[1..][k - 1] == finals[k];
      KeepingBestEndsWithBest(next, finals[1..], k - 1);
      assert (head + rest)[|head + rest| - 1] == rest[|rest| - 1];
    } else {
      assert w.Some? && head == [next] && next >= finals[k];
      if rest != [] {
        KeepingBestOnlyImproves(next, finals[1..]);
        assert rest[|rest| - 1] > next;
        assert (head + rest)[|head + rest| - 1] == rest[|rest| - 1];
      } else {
        assert head + rest == [next];
      }
    }
  }

  /** For the program as written, the file receives exactly what `WrittenAsCoded` gives for
      the run's finished games: each final score is compared with the best loaded at start-up. */
  lemma {:induction false} RunWritesAsCoded(w: World, frames: seq<seq<Event>>)
    ensures Run(w, frames).1 == WrittenAsCoded(w.highScore, Finals(w, frames))
    decreases |frames|
  {
    if frames != [] {
      var (w', outcome) := Frame(w, frames[0]);
      if outcome.Continued? {
        RunWritesAsCoded(w', frames[1..]);
        var e := EndedScore(w, frames[0]);
        var rest := Finals(w', frames[1..]);
        var later := Run(w', frames[1..]).1;
        var head := if outcome.written.Some? then [outcome.written.value] else [];
        assert outcome.written == if e.Some? then Written(e.value, w.highScore) else None;
        assert Run(w, frames).1 == head + later;
        if e.Some? {
          var fs := [e.value] + rest;
          assert Finals(w, frames) == fs;
          assert fs[0] == e.value && fs[1..] == rest;
          assert WrittenAsCoded(w.highScore, fs) == head + WrittenAsCoded(w.highScore, rest);
        } else {
          assert Finals(w, frames) == [] + rest == rest;
        }
      }
    }
  }

  lemma {:induction false} AsCodedBeatsLoaded(highScore: int, finals: seq<int>)
    ensures forall k :: 0 <= k < |WrittenAsCoded(highScore, finals)| ==> WrittenAsCoded(highScore, finals)[k] > highScore
    decreases |finals|
  {
    if finals != [] {
      AsCodedBeatsLoaded(highScore, finals[1..]);
      var rest := WrittenAsCoded(highScore, finals[1..]);
      var w := Written(finals[0], highScore);
      var head := if w.Some? then [w.value] else [];
      assert WrittenAsCoded(highScore, finals) == head + rest;
      assert forall k :: |head| <= k < |head + rest| ==> (head + rest)[k] == rest[k - |head|];
    }
  }

  /** Over any run of the program as written the best in memory is never reassigned after it is
      loaded, and every score written beats that loaded best. */
  lemma RunKeepsLoadedBest(w: World, frames: seq<seq<Event>>)
    ensures Run(w, frames).0.highScore == w.highScore
    ensures forall k :: 0 <= k < |Run(w, frames).1| ==> Run(w, frames).1[k] > w.highScore
  {
    RunWritesAsCoded(w, frames);
    AsCodedBeatsLoaded(w.highScore, Finals(w, frames));
  }

  /** The evidently intended `game_over`: as `EndPhase`, and the best is raised with the file. */
  function EndPhaseKeepingBest(w: World): (r: (World, Option<int>))
    ensures r.1 == EndPhase(w).1 && r.0.(highScore := w.highScore) == EndPhase(w).0
    ensures r.0.highScore >= w.highScore && (r.1.Some? ==> r.0.highScore == r.1.value)
  {
    var (w', written) := EndPhase(w);
    (w'.(highScore := if written.Some? then written.value else w.highScore), written)
  }

  /** A frame of the corrected program. */
  function FrameKeepingBest(w: World, es: seq<Event>): (World, Outcome) {
    var (w', exits) := AfterEvents(w, es);
    if exits then (w', Exited)
    else
      var (w'', written) := EndPhaseKeepingBest(Played(w'));
      (w'', Continued(written))
  }

  /** A run of the corrected program. */
  function RunKeepingBest(w: World, frames: seq<seq<Event>>): (World, seq<int>)
    decreases |frames|
  {
    if frames == [] then (w, [])
    else
      var (w', outcome) := FrameKeepingBest(w, frames[0]);
      if outcome.Exited? then (w', [])
      else
        var (w'', later) := RunKeepingBest(w', frames[1..]);
        (w'', (if outcome.written.Some? then [outcome.written.value] else []) + later)
  }

  /** Events never read the best: changing it changes nothing else. */
  lemma {:induction false} EventsIgnoreBest(w: World, h: int, es: seq<Event>)
    ensures AfterEvents(w.(highScore := h), es) == (AfterEvents(w, es).0.(highScore := h), AfterEvents(w, es).1)
    decreases |es|
  {
    if es != [] {
      assert AfterEvent(w.(highScore := h), es[0]) == (AfterEvent(w, es[0]).0.(highScore := h), AfterEvent(w, es[0]).1);
      EventsIgnoreBest(AfterEvent(w, es[0]).0, h, es[1..]);
    }
  }

  /** The corrected program plays the same games as the one written, from any best `h`, and
      writes what `WrittenKeepingBest` gives for their final scores. */
  lemma {:induction false} RunKeepingBestWrites(w: World, h: int, frames: seq<seq<Event>>)
    ensures RunKeepingBest(w.(highScore := h), frames).1 == WrittenKeepingBest(h, Finals(w, frames))
    decreases |frames|
  {
    if frames != [] {
      EventsIgnoreBest(w, h, frames[0]);
      var (w1, exits) := AfterEvents(w, frames[0]);
      if !exits {
        var p := Played(w1);
        assert Played(w1.(highScore := h)) == p.(highScore := h);
        var (q, written) := EndPhaseKeepingBest(p.(highScore := h));
        var h' := if written.Some? then written.value else h;
        var w' := Frame(w, frames[0]).0;
        assert w' == EndPhase(p).0;
        assert q == w'.(highScore := h');
        RunKeepingBestWrites(w', h', frames[1..]);
        var e := EndedScore(w, frames[0]);
        var rest := Finals(w', frames[1..]);
        var head := if written.Some? then [written.value] else [];
        assert written == if e.Some? then Written(e.value, h) else None;
        assert RunKeepingBest(w.(highScore := h), frames).1 == head + RunKeepingBest(q, frames[1..]).1;
        if e.Some? {
          var fs := [e.value] + rest;
          assert Finals(w, frames) == fs;
          assert fs[0] == e.value && fs[1..] == rest;
          assert WrittenKeepingBest(h, fs) == head + WrittenKeepingBest(h', rest);
        } else {
          assert Finals(w, frames) == [] + rest == rest;
        }
      }
    }
  }

  /** In the corrected program the file only improves: over any run the scores written strictly
      increase and each beats the loaded best. */
  lemma RunKeepingBestOnlyImproves(w: World, frames: seq<seq<Event>>)
    ensures Increasing(RunKeepingBest(w, frames).1)
    ensures forall k :: 0 <= k < |RunKeepingBest(w, frames).1| ==> RunKeepingBest(w, frames).1[k] > w.highScore
  {
    RunKeepingBestWrites(w, w.highScore, frames);
    assert w.(highScore := w.highScore) == w;
    KeepingBestOnlyImproves(w.highScore, Finals(w, frames));
  }

  /** Any session that loads 5 and whose games end with 10, then 7: the program as written
      writes 10 and then 7, so the file ends with 7; the corrected one writes only 10. */
  lemma LowerScoreOverwritesBestOnRun(w: World, frames: seq<seq<Event>>)
    requires w.highScore == 5 && Finals(w, frames) == [10, 7]
    ensures Run(w, frames).1 == [10, 7]
    ensures RunKeepingBest(w, frames).1 == [10]
  {
    RunWritesAsCoded(w, frames);
    LowerScoreOverwritesBest();
    RunKeepingBestWrites(w, 5, frames);
    assert w.(highScore := 5) == w;
    assert [10, 7][1..] == [7] && [7][1..] == [];
  }

  // ---------------------------------------------------------------- the objects

  /** The `Bird` class of lines 47-63. */
  class Bird {
    var x: int
    var y: real
    var velocity: real

    function View(): BirdView
      reads this
    {
      BirdView(x, y, velocity)
    }

    constructor ()
      ensures View() == InitialBird()
    {
      x := StartX;
      y := StartY;
      velocity := 0.0;
    }

    method Update()
      modifies this
      ensures View() == Fallen(old(View()))
    {
      velocity := velocity + Gravity;
      y := y + velocity;
    }

    method Jump()
      modifies this
      ensures View() == Jumped(old(View()))
    {
      velocity := JumpVelocity;
    }

    method ResetPosition()
      modifies this
      ensures View() == Rested(old(View()))
    {
      y := StartY;
      velocity := 0.0;
    }
  }

  /** The module-level state of bird.py and the code of its main loop. */
  class Game {
    const bird: Bird
    var pipes: seq<Pipe>
    var startFlag: bool
    var gameOverFlag: bool
    var score: int
    var highScore: int
    var backgroundX: int

    function View(): World
      reads this, bird, pipes
    {
      World(bird.View(), Views(pipes), startFlag, gameOverFlag, score, highScore, backgroundX)
    }

    ghost predicate Valid()
      reads this, bird, pipes
    {
      Distinct(pipes) && Inv(View())
    }

    /** The module's start-up, from the file's content; a file without an integer stops the
        program before the game exists. */
    constructor (file: Scores.StoredText)
      requires LoadHighScore(file).Some?
      ensures Valid() && View() == InitialWorld(LoadHighScore(file).value)
    {
      bird := new Bird();
      pipes := [];
      startFlag := false;
      gameOverFlag := false;
      score := 0;
      highScore := LoadHighScore(file).value;
      backgroundX := 0;
    }

    /** `main_menu` without its drawing. */
    method OpenMenu()
      modifies this, bird
      ensures pipes == []
      ensures View() == MainMenu(old(View()))
    {
      startFlag := false;
      gameOverFlag := false;
      score := 0;
      pipes := [];
      bird.ResetPosition();
    }

    /** Lines 175-178 once the timer fires in a running game; `gapHeight` is the random draw. */
    method SpawnPipe(gapHeight: int)
      requires Distinct(pipes)
      modifies this
      ensures |pipes| == |old(pipes)| + 1 && Distinct(pipes) && fresh(pipes[|pipes| - 1])
      ensures pipes[..|pipes| - 1] == old(pipes)
      ensures View() == old(View()).(pipes := old(View()).pipes + [PipeView(WindowWidth, gapHeight, false)])
    {
      var pipe := new Pipe(WindowWidth, gapHeight);
      pipes := pipes + [pipe];
      assert pipes[..|pipes| - 1] == old(pipes);
    }

    /** Lines 167-173: the space bar starts a game from the menu, or leaves a game that is over
        for the menu, and always makes the bird jump. */
    method PressSpace()
      modifies this, bird
      ensures pipes == old(pipes) || pipes == []
      ensures View() == AfterEvent(old(View()), KeyDown(Space)).0
    {
      if !startFlag && !gameOverFlag {
        startFlag := true;
      } else if gameOverFlag {
        OpenMenu();
      }
      bird.Jump();
    }

    /** One pass of the event loop; `exits` stands for `sys.exit()`. */
    method HandleEvent(e: Event) returns (exits: bool)
      requires Valid() && ValidDraw(e)
      modifies this, bird
      ensures Valid() && forall k :: 0 <= k < |pipes| ==> pipes[k] in old(pipes) || fresh(pipes[k])
      ensures (View(), exits) == AfterEvent(old(View()), e)
    {
      AfterEventKeepsInv(View(), e);
      exits := false;
      match e {
        case Quit =>
          exits := true;
        case KeyDown(key) =>
          if key == Space {
            PressSpace();
          }
        case PipeTimer(gapHeight) =>
          if !gameOverFlag && startFlag {
            SpawnPipe(gapHeight);
          }
        case _ =>
      }
    }

    /** The event loop of lines 162-178 over the frame's queue. */
    method HandleEvents(events: seq<Event>) returns (exits: bool)
      requires Valid() && ValidDraws(events)
      modifies this, bird
      ensures Valid() && forall k :: 0 <= k < |pipes| ==> pipes[k] in old(pipes) || fresh(pipes[k])
      ensures (View(), exits) == AfterEvents(old(View()), events)
    {
      var k := 0;
      while k < |events|
        invariant 0 <= k <= |events| && Valid()
        invariant forall j :: 0 <= j < |pipes| ==> pipes[j] in old(pipes) || fresh(pipes[j])
        invariant AfterEvents(old(View()), events) == AfterEvents(View(), events[k..])
      {
        assert events[k..][0] == events[k] && events[k..][1..] == events[k + 1..];
        assert ValidDraw(events[k]);
        exits := HandleEvent(events[k]);
        if exits {
          return;
        }
        k := k + 1;
      }
      return false;
    }

    /** Lines 185-187 for the pipe at index `i`. */
    method AdvancePipe(i: nat) returns (pipe: Pipe, removed: bool)
      requires Distinct(pipes) && i < |pipes|
      modifies this, pipes[i]
      ensures pipe == old(pipes[i]) && pipe.View() == Scrolled(old(pipe.View()))
      ensures removed == OffScreen(pipe.View())
      ensures removed ==> pipes == old(pipes[..i] + pipes[i + 1..]) && pipe !in pipes
      ensures !removed ==> pipes == old(pipes)
      ensures Distinct(pipes) && forall k :: 0 <= k < |pipes| ==> pipes[k] in old(pipes)
      ensures startFlag == old(startFlag) && gameOverFlag == old(gameOverFlag)
      ensures score == old(score) && highScore == old(highScore) && backgroundX == old(backgroundX)
      ensures Views(pipes) == if removed then old(Views(pipes)[..i] + Views(pipes)[i + 1..])
                              else old(Views(pipes))[i := pipe.View()]
    {
      ghost var vs := Views(pipes);
      ghost var ps := pipes;
      pipe := pipes[i];
      pipe.Update();
      removed := pipe.x + PipeWidth < 0;
      if pipe.x + PipeWidth < 0 {
        RemoveFirstAt(pipes, i);
        pipes := RemoveFirst(pipes, pipe);
        assert forall k :: 0 <= k < |pipes| ==> pipes[k] == ps[if k < i then k else k + 1];
      }
      forall k | 0 <= k < |pipes|
        ensures Views(pipes)[k] == (if removed then vs[..i] + vs[i + 1..] else vs[i := pipe.View()])[k]
      {
        var j := if removed && k >= i then k + 1 else k;
        assert pipes[k] == ps[j];
      }
    }

    /** Lines 189-198 for a pipe that was just moved, whether or not it is still in the list. */
    method ScoreAndCheck(pipe: Pipe, ghost i: nat)
      requires Distinct(pipes) && (pipe !in pipes || (i < |pipes| && pipes[i] == pipe))
      modifies this, pipe
      ensures var scores := !old(pipe.passed) && Behind(old(pipe.View()), bird.x as real);
              && pipe.View() == old(pipe.View()).(passed := old(pipe.passed) || scores)
              && score == old(score) + (if scores then 1 else 0)
      ensures gameOverFlag == (old(gameOverFlag) || Hits(BirdBox(bird.x as real, bird.y), pipe.View()))
      ensures pipes == old(pipes) && startFlag == old(startFlag)
      ensures highScore == old(highScore) && backgroundX == old(backgroundX)
      ensures Views(pipes) == if pipe in pipes then old(Views(pipes))[i := pipe.View()] else old(Views(pipes))
    {
      ghost var vs := Views(pipes);
      label Moved:
      if ((pipe.x + PipeWidth) as real) < bird.x as real {
        if !pipe.passed {
          pipe.passed := true;
          score := score + 1;
        }
      }
      var birdRect := BirdBox(bird.x as real, bird.y);
      var (upper, lower) := pipe.GetRect();
      if Collides(birdRect, upper) || Collides(birdRect, lower) {
        gameOverFlag := true;
      }
      forall k | 0 <= k < |pipes| && (pipe !in pipes || k != i) ensures pipes[k].View() == vs[k] {
        assert pipes[k] != pipe;
        assert vs[k] == old@Moved(pipes[k].View());
      }
    }

    /** One turn of the loop of lines 184-198 for the pipe at index `i`, with the running tally
        `t` (points since `score0`, whether a pipe was hit) advanced as `SweepFrom` does. */
    method VisitAt(i: nat, ghost box: Rect, ghost score0: int, ghost over0: bool, ghost t: Tally)
      returns (ghost t': Tally)
      requires Distinct(pipes) && i < |pipes|
      requires box == BirdBox(bird.x as real, bird.y)
      requires gameOverFlag == (over0 || t.hit) && score == score0 + t.gained
      modifies this, pipes[i]
      ensures Distinct(pipes) && forall k :: 0 <= k < |pipes| ==> pipes[k] in old(pipes)
      ensures |old(pipes)| - 1 <= |pipes| <= |old(pipes)|
      ensures gameOverFlag == (over0 || t'.hit) && score == score0 + t'.gained
      ensures startFlag == old(startFlag) && highScore == old(highScore) && backgroundX == old(backgroundX)
      ensures SweepFrom(Views(pipes), i + 1, box, bird.x as real, true, t')
           == SweepFrom(old(Views(pipes)), i, box, bird.x as real, true, t)
    {
      ghost var vs := Views(pipes);
      var pipe, removed := AdvancePipe(i);
      ScoreAndCheck(pipe, i);
      t' := Tally(score - score0, t.hit || Hits(box, pipe.View()));
      SweepStep(vs, i, box, bird.x as real, true, t, pipe.View(), t', Views(pipes));
    }

    /** The loop of lines 184-198, written with its index to keep Python's list iterator: it
        computes `Sweep` of the pipes' values, with collisions always checked. */
    method SweepPipes() returns (ghost r: (seq<PipeView>, Tally))
      requires Distinct(pipes)
      modifies this, pipes
      ensures Distinct(pipes) && forall k :: 0 <= k < |pipes| ==> pipes[k] in old(pipes)
      ensures r == Sweep(old(Views(pipes)), BirdBox(bird.x as real, bird.y), bird.x as real, true)
      ensures Views(pipes) == r.0 && score == old(score) + r.1.gained
      ensures gameOverFlag == (old(gameOverFlag) || r.1.hit)
      ensures startFlag == old(startFlag) && highScore == old(highScore) && backgroundX == old(backgroundX)
    {
      ghost var box := BirdBox(bird.x as real, bird.y);
      ghost var pipes0 := pipes;
      ghost var score0 := score;
      ghost var over0 := gameOverFlag;
      ghost var start0 := startFlag;
      ghost var high0 := highScore;
      ghost var bg0 := backgroundX;
      ghost var goal := Sweep(Views(pipes), box, bird.x as real, true);
      ghost var t := Tally(0, false);
      var i: nat := 0;
      while i < |pipes|
        invariant i <= |pipes| + 1
        invariant Distinct(pipes) && forall k :: 0 <= k < |pipes| ==> pipes[k] in pipes0
        invariant gameOverFlag == (over0 || t.hit) && score == score0 + t.gained
        invariant startFlag == start0 && highScore == high0 && backgroundX == bg0
        invariant SweepFrom(Views(pipes), i, box, bird.x as real, true, t) == goal
        decreases |pipes| + 1 - i
      {
        t := VisitAt(i, box, score0, over0, t);
        i := i + 1;
      }
      r := goal;
    }

    /** Lines 184-198. */
    method UpdatePipes()
      requires Distinct(pipes)
      modifies this, pipes
      ensures Distinct(pipes) && forall k :: 0 <= k < |pipes| ==> pipes[k] in old(pipes)
      ensures View() == PipePhase(old(View()))
    {
      ghost var r := SweepPipes();
    }

    /** Lines 181-182. */
    method UpdateBird()
      modifies bird
      ensures View() == BirdPhase(old(View()))
    {
      if startFlag {
        bird.Update();
      }
    }

    /** Lines 201-202. */
    method UpdateGround()
      modifies this
      ensures pipes == old(pipes)
      ensures View() == GroundPhase(old(View()))
    {
      if bird.y + BirdHeight as real >= GroundLine as real {
        gameOverFlag := true;
      }
    }

    /** Lines 205 and 212-213. */
    method ScrollBackground()
      modifies this
      ensures pipes == old(pipes)
      ensures View() == BackgroundPhase(old(View()))
    {
      backgroundX := backgroundX - 1;
      if backgroundX <= -WindowWidth {
        backgroundX := 0;
      }
    }

    /** Lines 235-240: `game_over` (without its drawing and its two-second pause) when the game
        is over, then the menu when no game is running; `highScore` is left as it is. */
    method EndFrame() returns (written: Option<int>)
      modifies this, bird
      ensures pipes == old(pipes) || pipes == []
      ensures (View(), written) == EndPhase(old(View()))
    {
      written := None;
      if gameOverFlag {
        if score > highScore {
          written := Some(score);
        }
        OpenMenu();
      }
      if !startFlag && !gameOverFlag {
        OpenMenu();
      }
    }

    /** The loop body of lines 180-240 after the events, without drawing; `written` is the
        score `game_over` writes to the high-score file, if any. */
    method Update() returns (written: Option<int>)
      requires Valid()
      modifies this, bird, pipes
      ensures Valid() && highScore == old(highScore)
      ensures (View(), written) == Updated(old(View()))
    {
      UpdatedKeepsInv(View());
      UpdateBird();
      UpdatePipes();
      UpdateGround();
      ScrollBackground();
      written := EndFrame();
    }

    /** One pass of `while True:`. */
    method RunFrame(events: seq<Event>) returns (outcome: Outcome)
      requires Valid() && ValidDraws(events)
      modifies this, bird, pipes
      ensures outcome.Continued? ==> Valid()
      ensures highScore == old(highScore)
      ensures (View(), outcome) == Frame(old(View()), events)
    {
      var exits := HandleEvents(events);
      if exits {
        return Exited;
      }
      var written := Update();
      outcome := Continued(written);
    }
  }
}
