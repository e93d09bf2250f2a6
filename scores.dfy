/** The current score and the best score (src/game/score.py). The high-score file is not
    opened here: its content is an input, and whether a write succeeds is a parameter. */
module Scores {
  /** What reading the high-score file yields. */
  datatype StoredText = Absent | NotAnInteger | Integer(value: int)

  /** `load_high_score`: the file's integer, or 0 when the file is missing or does not hold one. */
  function LoadHighScore(file: StoredText): (r: int)
    ensures file.Integer? ==> r == file.value
    ensures !file.Integer? ==> r == 0
  {
    match file
    case Integer(n) => n
    case _ => 0
  }

  datatype ScoreView = ScoreView(score: int, highScore: int)

  predicate BeatsHighScore(s: ScoreView) {
    s.score > s.highScore
  }

  function Incremented(s: ScoreView): (r: ScoreView)
    ensures r.score == s.score + 1 && r.highScore == s.highScore
  {
    s.(score := s.score + 1)
  }

  function Zeroed(s: ScoreView): (r: ScoreView)
    ensures r.score == 0 && r.highScore == s.highScore
  {
    s.(score := 0)
  }

  /** `save_high_score`: the new state and the returned success flag. The best score is raised
      before the write is tried, so it is raised even when the write fails. */
  function Saved(s: ScoreView, writeOk: bool): (r: (ScoreView, bool))
    ensures !BeatsHighScore(s) ==> r == (s, false)
    ensures BeatsHighScore(s) ==> r.0 == ScoreView(s.score, s.score) && r.1 == writeOk
    ensures r.0.score == s.score && r.0.highScore >= s.highScore && !BeatsHighScore(r.0)
  {
    if s.score > s.highScore then (s.(highScore := s.score), writeOk) else (s, false)
  }

  /** A second save right after a first one changes nothing and reports false, whatever the
      outcome of either write: a failed write is not tried again. */
  lemma SaveAgainIsNoOp(s: ScoreView, first: bool, second: bool)
    ensures Saved(Saved(s, first).0, second) == (Saved(s, first).0, false)
  {
  }

  datatype ScoreOp = IncrementOp | ResetOp | SaveOp(writeOk: bool)

  function Perform(s: ScoreView, op: ScoreOp): ScoreView {
    match op
    case IncrementOp => Incremented(s)
    case ResetOp => Zeroed(s)
    case SaveOp(ok) => Saved(s, ok).0
  }

  function PerformAll(s: ScoreView, ops: seq<ScoreOp>): ScoreView
    decreases |ops|
  {
    if ops == [] then s else PerformAll(Perform(s, ops[0]), ops[1..])
  }

  /** The best score never goes down, whatever mix of increments, resets and saves. */
  lemma {:induction false} HighScoreNeverDecreases(s: ScoreView, ops: seq<ScoreOp>)
    ensures PerformAll(s, ops).highScore >= s.highScore
    decreases |ops|
  {
    if ops != [] {
      HighScoreNeverDecreases(Perform(s, ops[0]), ops[1..]);
    }
  }

  class ScoreManager {
    var score: int
    var highScore: int

    function View(): ScoreView
      reads this
    {
      ScoreView(score, highScore)
    }

    constructor (file: StoredText)
      ensures View() == ScoreView(0, LoadHighScore(file))
    {
      score := 0;
      highScore := LoadHighScore(file);
    }

    method Increment()
      modifies this
      ensures View() == Incremented(old(View()))
    {
      score := score + 1;
    }

    method Reset()
      modifies this
      ensures View() == Zeroed(old(View()))
    {
      score := 0;
    }

    method SaveHighScore(writeOk: bool) returns (ok: bool)
      modifies this
      ensures (View(), ok) == Saved(old(View()), writeOk)
    {
      if score > highScore {
        highScore := score;
        if writeOk {
          return true;
        } else {
          return false;
        }
      }
      return false;
    }

    function IsNewHighScore(): (r: bool)
      reads this
      ensures r <==> score > highScore
    {
      BeatsHighScore(View())
    }
  }
}
