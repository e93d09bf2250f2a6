/** A scrolling obstacle (src/components/pipe.py; the legacy bird.py:69-83 is the same class). */
module Pipes {
  import opened Constants
  import opened Geometry

  /** A pipe's state as a value: left edge, top of the gap, and whether it was scored. */
  datatype PipeView = PipeView(x: int, gapHeight: int, passed: bool)

  /** The pipe after one `update`: it scrolls left by the pipe velocity. */
  function Scrolled(p: PipeView): (r: PipeView)
    ensures r.x < p.x && p.x - r.x == PipeVelocity
    ensures r.gapHeight == p.gapHeight && r.passed == p.passed
  {
    p.(x := p.x - PipeVelocity)
  }

  /** The controller drops a pipe whose right edge has left the screen. */
  predicate OffScreen(p: PipeView) {
    p.x + PipeWidth < 0
  }

  function UpperRect(x: int, gapHeight: int): Rect {
    Rect(x as real, 0.0, PipeWidth as real, gapHeight as real)
  }

  function LowerRect(x: int, gapHeight: int): Rect {
    Rect(x as real, (gapHeight + PipeGap) as real, PipeWidth as real, WindowHeight as real)
  }

  /** The opening between the two rectangles is exactly the pipe gap, whatever the gap's top;
      both rectangles share the pipe's left edge and width, and the upper one hangs from y = 0. */
  lemma GapIsExact(x: int, gapHeight: int)
    ensures LowerRect(x, gapHeight).top - UpperRect(x, gapHeight).Bottom() == PipeGap as real
    ensures UpperRect(x, gapHeight).top == 0.0 && UpperRect(x, gapHeight).Bottom() == gapHeight as real
    ensures UpperRect(x, gapHeight).left == LowerRect(x, gapHeight).left == x as real
    ensures UpperRect(x, gapHeight).width == LowerRect(x, gapHeight).width == PipeWidth as real
    ensures LowerRect(x, gapHeight).height == WindowHeight as real
  {
  }

  /** The pipe after `k` updates, one update at a time. */
  function ScrolledTimes(p: PipeView, k: nat): PipeView {
    if k == 0 then p else Scrolled(ScrolledTimes(p, k - 1))
  }

  /** After k updates the pipe has moved left by exactly 8k and nothing else changed. */
  lemma {:induction false} ScrolledTimesClosedForm(p: PipeView, k: nat)
    ensures ScrolledTimes(p, k) == p.(x := p.x - PipeVelocity * k)
  {
    if k > 0 {
      ScrolledTimesClosedForm(p, k - 1);
    }
  }

  /** A pipe spawned at the right edge of the window is off screen after k updates exactly
      when k >= 101: the 101st update is the first that lets the controller remove it. */
  lemma SpawnedPipeLeavesOnUpdate101(gapHeight: int, k: nat)
    ensures OffScreen(ScrolledTimes(PipeView(WindowWidth, gapHeight, false), k)) <==> k >= 101
  {
    ScrolledTimesClosedForm(PipeView(WindowWidth, gapHeight, false), k);
  }

  class Pipe {
    var x: int
    var gapHeight: int
    var passed: bool

    function View(): PipeView
      reads this
    {
      PipeView(x, gapHeight, passed)
    }

    constructor (x: int, gapHeight: int)
      ensures View() == PipeView(x, gapHeight, false)
    {
      this.x := x;
      this.gapHeight := gapHeight;
      this.passed := false;
    }

    method Update()
      modifies this
      ensures View() == Scrolled(old(View()))
    {
      x := x - PipeVelocity;
    }

    /** The upper and lower hit rectangles; the gap between them is `GapIsExact`. */
    function GetRect(): (r: (Rect, Rect))
      reads this
      ensures r.0.left == r.1.left == x as real && r.0.width == r.1.width == PipeWidth as real
      ensures r.0.top == 0.0 && r.0.Bottom() == gapHeight as real
      ensures r.1.top - r.0.Bottom() == PipeGap as real && r.1.height == WindowHeight as real
    {
      (UpperRect(x, gapHeight), LowerRect(x, gapHeight))
    }
  }

  /** The views of a list of pipes, element by element. */
  function Views(ps: seq<Pipe>): (vs: seq<PipeView>)
    reads ps
    ensures |vs| == |ps| && forall k :: 0 <= k < |ps| ==> vs[k] == ps[k].View()
  {
    seq(|ps|, k requires 0 <= k < |ps| reads ps => ps[k].View())
  }

  /** No pipe object occurs twice in a list. */
  predicate Distinct(ps: seq<Pipe>) {
    forall i, j :: 0 <= i < j < |ps| ==> ps[i] != ps[j]
  }

  /** Every pipe's gap top lies in the range the spawner draws from. */
  predicate ValidGaps(ps: seq<PipeView>) {
    forall k :: 0 <= k < |ps| ==> ValidGapHeight(ps[k].gapHeight)
  }
}
