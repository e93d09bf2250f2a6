/** The per-frame pass over the pipe list, shared by the component controller
    (src/game/controller.py:92-160) and the legacy main loop (bird.py:184-198).

    Both loops are `for pipe in pipes:` and call `pipes.remove(pipe)` inside the loop. Python's
    list iterator keeps an index: it yields `pipes[i]` and moves to `i + 1` whatever happened to
    the list. After a removal the element that followed the removed pipe now sits at index `i`
    and is skipped for that frame. `SweepFrom` follows these index semantics; `Walk` is an
    independent description on the original list ("after a removal, the next pipe is left
    alone") and `SweepIsWalk` proves the two agree. */
module PipeSweep {
  import opened Constants
  import opened Geometry
  import opened Pipes

  /** What a frame's pass adds up: the points scored and whether some pipe was hit. */
  datatype Tally = Tally(gained: nat, hit: bool)

  /** The pipe's right edge is left of the bird's x: the bird has passed it. */
  predicate Behind(p: PipeView, birdX: real) {
    ((p.x + PipeWidth) as real) < birdX
  }

  /** The bird's box overlaps the upper rectangle or, failing that, the lower one. */
  predicate Hits(bird: Rect, p: PipeView) {
    Collides(bird, UpperRect(p.x, p.gapHeight)) || Collides(bird, LowerRect(p.x, p.gapHeight))
  }

  /** The loop body for one pipe: `update`, the passed check with its score, and (when
      `checkHits`) the collision check, all on the pipe after its update. */
  function Visit(p: PipeView, bird: Rect, birdX: real, checkHits: bool, t: Tally): (r: (PipeView, Tally))
    ensures r.0.x == p.x - PipeVelocity && r.0.gapHeight == p.gapHeight
    ensures var scores := !p.passed && Behind(r.0, birdX);
            && r.1.gained == t.gained + (if scores then 1 else 0)
            && r.0.passed == (p.passed || scores)
    ensures r.1.hit <==> t.hit || (checkHits && Hits(bird, r.0))
  {
    var moved := Scrolled(p);
    var scores := Behind(moved, birdX) && !moved.passed;
    var q := if scores then moved.(passed := true) else moved;
    (q, Tally(if scores then t.gained + 1 else t.gained, t.hit || (checkHits && Hits(bird, moved))))
  }

  /** The loop from iterator index `i` on, in Python's list-iterator semantics. */
  function SweepFrom(ps: seq<PipeView>, i: nat, bird: Rect, birdX: real, checkHits: bool, t: Tally)
    : (seq<PipeView>, Tally)
    decreases |ps| + 1 - i
  {
    if i >= |ps| then (ps, t)
    else
      var (q, t') := Visit(ps[i], bird, birdX, checkHits, t);
      if OffScreen(q) then SweepFrom(ps[..i] + ps[i + 1..], i + 1, bird, birdX, checkHits, t')
      else SweepFrom(ps[i := q], i + 1, bird, birdX, checkHits, t')
  }

  /** One turn of the loop, stated by its parts: the visited pipe `q`, the new tally `t'` and
      the list after a possible removal. An object-level loop that produces these parts
      advances `SweepFrom` by one index. */
  lemma SweepStep(ps: seq<PipeView>, i: nat, bird: Rect, birdX: real, checkHits: bool, t: Tally,
                  q: PipeView, t': Tally, ps': seq<PipeView>)
    requires i < |ps|
    requires var scores := !ps[i].passed && Behind(Scrolled(ps[i]), birdX);
             && q == Scrolled(ps[i]).(passed := ps[i].passed || scores)
             && t'.gained == t.gained + (if scores then 1 else 0)
             && (t'.hit <==> t.hit || (checkHits && Hits(bird, q)))
    requires ps' == if OffScreen(q) then ps[..i] + ps[i + 1..] else ps[i := q]
    ensures SweepFrom(ps', i + 1, bird, birdX, checkHits, t') == SweepFrom(ps, i, bird, birdX, checkHits, t)
  {
    var r := Visit(ps[i], bird, birdX, checkHits, t);
    assert r.0 == q;
    assert r.1 == t';
  }

  /** The whole loop over a frame's pipe list. */
  function Sweep(ps: seq<PipeView>, bird: Rect, birdX: real, checkHits: bool): (seq<PipeView>, Tally) {
    SweepFrom(ps, 0, bird, birdX, checkHits, Tally(0, false))
  }

  /** Reference definition on the original list: a pipe that leaves the screen is dropped after
      it was scored and checked, and the pipe after it is kept as it is and not visited. */
  function Walk(ps: seq<PipeView>, skip: bool, bird: Rect, birdX: real, checkHits: bool, t: Tally)
    : (seq<PipeView>, Tally)
    decreases |ps|
  {
    if ps == [] then ([], t)
    else if skip then
      var r := Walk(ps[1..], false, bird, birdX, checkHits, t);
      ([ps[0]] + r.0, r.1)
    else
      var (q, t') := Visit(ps[0], bird, birdX, checkHits, t);
      var r := Walk(ps[1..], OffScreen(q), bird, birdX, checkHits, t');
      (if OffScreen(q) then r.0 else [q] + r.0, r.1)
  }

  /** The index-based loop, started anywhere, equals the reference description of what is
      left: `done` is the part already behind the iterator, `skip` says the iterator jumped
      over the first remaining pipe. */
  lemma {:induction false} SweepIsWalk(done: seq<PipeView>, rest: seq<PipeView>, skip: bool,
                                       bird: Rect, birdX: real, checkHits: bool, t: Tally)
    ensures SweepFrom(done + rest, |done| + (if skip then 1 else 0), bird, birdX, checkHits, t)
         == (done + Walk(rest, skip, bird, birdX, checkHits, t).0,
             Walk(rest, skip, bird, birdX, checkHits, t).1)
    decreases |rest|
  {
    var ps := done + rest;
    if rest == [] {
      assert ps == done;
    } else if skip {
      var done' := done + [rest[0]];
      assert done' + rest[1..] == ps;
      SweepIsWalk(done', rest[1..], false, bird, birdX, checkHits, t);
      var r := Walk(rest[1..], false, bird, birdX, checkHits, t);
      assert done + ([rest[0]] + r.0) == done' + r.0;
    } else {
      var i := |done|;
      assert ps[i] == rest[0];
      var (q, t') := Visit(rest[0], bird, birdX, checkHits, t);
      var r := Walk(rest[1..], OffScreen(q), bird, birdX, checkHits, t');
      if OffScreen(q) {
        assert ps[..i] + ps[i + 1..] == done + rest[1..];
        SweepIsWalk(done, rest[1..], true, bird, birdX, checkHits, t');
      } else {
        assert ps[i := q] == (done + [q]) + rest[1..];
        SweepIsWalk(done + [q], rest[1..], false, bird, birdX, checkHits, t');
        assert (done + [q]) + r.0 == done + ([q] + r.0);
      }
    }
  }

  lemma SweepMatchesWalk(ps: seq<PipeView>, bird: Rect, birdX: real, checkHits: bool)
    ensures Sweep(ps, bird, birdX, checkHits) == Walk(ps, false, bird, birdX, checkHits, Tally(0, false))
  {
    assert [] + ps == ps;
    SweepIsWalk([], ps, false, bird, birdX, checkHits, Tally(0, false));
    var r := Walk(ps, false, bird, birdX, checkHits, Tally(0, false));
    assert [] + r.0 == r.0;
  }

  /** Removal, in the reference description: after `p` leaves, `q` is kept as it is. */
  lemma WalkAfterRemoval(p: PipeView, q: PipeView, rest: seq<PipeView>,
                         bird: Rect, birdX: real, checkHits: bool, t: Tally)
    requires OffScreen(Scrolled(p))
    ensures var r := Walk(rest, false, bird, birdX, checkHits, Visit(p, bird, birdX, checkHits, t).1);
            Walk([p, q] + rest, false, bird, birdX, checkHits, t) == ([q] + r.0, r.1)
  {
    var ps := [p, q] + rest;
    assert ps[0] == p && ps[1..] == [q] + rest;
    assert ([q] + rest)[0] == q && ([q] + rest)[1..] == rest;
  }

  /** Removal inside the loop: the removed pipe `p` is still scored and collision-checked, the
      pipe `q` right after it comes through unchanged, unscored and unchecked, and the loop goes
      on with the pipes after `q`. */
  lemma RemovalSkipsNext(done: seq<PipeView>, p: PipeView, q: PipeView, rest: seq<PipeView>,
                         bird: Rect, birdX: real, checkHits: bool, t: Tally)
    requires OffScreen(Scrolled(p))
    ensures var t' := Visit(p, bird, birdX, checkHits, t).1;
            var r := SweepFrom(rest, 0, bird, birdX, checkHits, t');
            SweepFrom(done + [p, q] + rest, |done|, bird, birdX, checkHits, t) == (done + [q] + r.0, r.1)
  {
    var t' := Visit(p, bird, birdX, checkHits, t).1;
    var w := Walk(rest, false, bird, birdX, checkHits, t');
    var whole := Walk([p, q] + rest, false, bird, birdX, checkHits, t);
    assert SweepFrom(done + [p, q] + rest, |done|, bird, birdX, checkHits, t) == (done + whole.0, whole.1) by {
      assert done + [p, q] + rest == done + ([p, q] + rest);
      SweepIsWalk(done, [p, q] + rest, false, bird, birdX, checkHits, t);
    }
    assert whole == ([q] + w.0, w.1) by {
      WalkAfterRemoval(p, q, rest, bird, birdX, checkHits, t);
    }
    assert SweepFrom(rest, 0, bird, birdX, checkHits, t') == w by {
      assert [] + rest == rest;
      SweepIsWalk([], rest, false, bird, birdX, checkHits, t');
      assert [] + w.0 == w.0;
    }
    assert done + ([q] + w.0) == done + [q] + w.0;
  }

  /** Without a removal every pipe is visited once: each moves left by exactly one step, in place. */
  lemma {:induction false} WalkWithoutRemoval(ps: seq<PipeView>, bird: Rect, birdX: real, checkHits: bool, t: Tally)
    requires forall k :: 0 <= k < |ps| ==> !OffScreen(Scrolled(ps[k]))
    ensures var out := Walk(ps, false, bird, birdX, checkHits, t).0;
            |out| == |ps| &&
            forall k :: 0 <= k < |ps| ==> out[k].x == ps[k].x - PipeVelocity && out[k].gapHeight == ps[k].gapHeight
    decreases |ps|
  {
    if ps != [] {
      var (q, t') := Visit(ps[0], bird, birdX, checkHits, t);
      assert !OffScreen(Scrolled(ps[0]));
      WalkWithoutRemoval(ps[1..], bird, birdX, checkHits, t');
      var r := Walk(ps[1..], false, bird, birdX, checkHits, t');
      assert forall k :: 1 <= k < |ps| ==> ([q] + r.0)[k] == r.0[k - 1] && ps[1..][k - 1] == ps[k];
    }
  }

  /** A pipe `q` of the output continues pipe `p` of the input: same gap, moved by at most one
      step, and a pipe that was passed stays passed. */
  predicate Tracks(q: PipeView, p: PipeView) {
    q.gapHeight == p.gapHeight && (q.x == p.x || q.x == p.x - PipeVelocity) && (p.passed ==> q.passed)
  }

  /** `out` is obtained from `inp` by dropping pipes and letting the rest continue, in order. */
  predicate Embeds(out: seq<PipeView>, inp: seq<PipeView>)
    decreases |inp|
  {
    if out == [] then true
    else if inp == [] then false
    else (Tracks(out[0], inp[0]) && Embeds(out[1..], inp[1..])) || Embeds(out, inp[1..])
  }

  /** The surviving pipes keep spawn order, each continuing one input pipe. */
  lemma {:induction false} WalkKeepsOrder(ps: seq<PipeView>, skip: bool, bird: Rect, birdX: real, checkHits: bool, t: Tally)
    ensures Embeds(Walk(ps, skip, bird, birdX, checkHits, t).0, ps)
    decreases |ps|
  {
    if ps != [] {
      if skip {
        WalkKeepsOrder(ps[1..], false, bird, birdX, checkHits, t);
        var r := Walk(ps[1..], false, bird, birdX, checkHits, t);
        assert ([ps[0]] + r.0)[1..] == r.0;
      } else {
        var (q, t') := Visit(ps[0], bird, birdX, checkHits, t);
        WalkKeepsOrder(ps[1..], OffScreen(q), bird, birdX, checkHits, t');
        var r := Walk(ps[1..], OffScreen(q), bird, birdX, checkHits, t');
        assert ([q] + r.0)[1..] == r.0;
      }
    }
  }

  /** The number of pipes not yet scored. */
  function Unpassed(ps: seq<PipeView>): nat {
    if ps == [] then 0 else (if ps[0].passed then 0 else 1) + Unpassed(ps[1..])
  }

  /** Each point comes from a pipe that was not passed and is passed (or gone) afterwards:
      points scored plus unscored pipes left never exceed the unscored pipes before. */
  lemma {:induction false} WalkScoresEachPipeOnce(ps: seq<PipeView>, skip: bool, bird: Rect, birdX: real, checkHits: bool, t: Tally)
    ensures var r := Walk(ps, skip, bird, birdX, checkHits, t);
            r.1.gained + Unpassed(r.0) <= t.gained + Unpassed(ps)
    decreases |ps|
  {
    if ps != [] {
      if skip {
        WalkScoresEachPipeOnce(ps[1..], false, bird, birdX, checkHits, t);
        var r := Walk(ps[1..], false, bird, birdX, checkHits, t);
        assert ([ps[0]] + r.0)[1..] == r.0;
      } else {
        var (q, t') := Visit(ps[0], bird, birdX, checkHits, t);
        WalkScoresEachPipeOnce(ps[1..], OffScreen(q), bird, birdX, checkHits, t');
        var r := Walk(ps[1..], OffScreen(q), bird, birdX, checkHits, t');
        assert ([q] + r.0)[1..] == r.0;
      }
    }
  }

  /** Points and the hit flag only accumulate, and no hit is recorded unless hits are checked. */
  lemma {:induction false} WalkTallyMonotone(ps: seq<PipeView>, skip: bool, bird: Rect, birdX: real, checkHits: bool, t: Tally)
    ensures var r := Walk(ps, skip, bird, birdX, checkHits, t).1;
            r.gained >= t.gained && (t.hit ==> r.hit) && (!checkHits ==> r.hit == t.hit)
    decreases |ps|
  {
    if ps != [] {
      if skip {
        WalkTallyMonotone(ps[1..], false, bird, birdX, checkHits, t);
      } else {
        var (q, t') := Visit(ps[0], bird, birdX, checkHits, t);
        WalkTallyMonotone(ps[1..], OffScreen(q), bird, birdX, checkHits, t');
      }
    }
  }

  /** Gap tops are never changed, so a list with valid gaps keeps them. */
  lemma {:induction false} WalkKeepsGaps(ps: seq<PipeView>, skip: bool, bird: Rect, birdX: real, checkHits: bool, t: Tally)
    requires ValidGaps(ps)
    ensures ValidGaps(Walk(ps, skip, bird, birdX, checkHits, t).0)
    decreases |ps|
  {
    if ps != [] {
      assert ValidGaps(ps[1..]) by {
        assert forall k :: 0 <= k < |ps| - 1 ==> ps[1..][k] == ps[k + 1];
      }
      if skip {
        WalkKeepsGaps(ps[1..], false, bird, birdX, checkHits, t);
      } else {
        var (q, t') := Visit(ps[0], bird, birdX, checkHits, t);
        WalkKeepsGaps(ps[1..], OffScreen(q), bird, birdX, checkHits, t');
      }
    }
  }

  /** What a whole frame's pass guarantees, in terms of the loop the programs run. */
  lemma SweepFacts(ps: seq<PipeView>, bird: Rect, birdX: real, checkHits: bool)
    ensures var r := Sweep(ps, bird, birdX, checkHits);
            && Embeds(r.0, ps)
            && r.1.gained + Unpassed(r.0) <= Unpassed(ps)
            && (!checkHits ==> !r.1.hit)
            && (ValidGaps(ps) ==> ValidGaps(r.0))
  {
    SweepMatchesWalk(ps, bird, birdX, checkHits);
    WalkKeepsOrder(ps, false, bird, birdX, checkHits, Tally(0, false));
    WalkScoresEachPipeOnce(ps, false, bird, birdX, checkHits, Tally(0, false));
    WalkTallyMonotone(ps, false, bird, birdX, checkHits, Tally(0, false));
    if ValidGaps(ps) {
      WalkKeepsGaps(ps, false, bird, birdX, checkHits, Tally(0, false));
    }
  }

  /** `list.remove(x)`: drop the first element equal to `x` (for pipe objects, the same object).
      Python raises `ValueError` for a non-member, so membership is required. */
  function RemoveFirst<T(==)>(s: seq<T>, x: T): (r: seq<T>)
    requires x in s
    ensures |r| == |s| - 1 && multiset(r) + multiset{x} == multiset(s)
  {
    if s[0] == x then
      assert s == [s[0]] + s[1..];
      s[1..]
    else
      assert s == [s[0]] + s[1..];
      [s[0]] + RemoveFirst(s[1..], x)
  }

  /** In a list without repeats, removing element `i` by value removes exactly index `i`. */
  lemma {:induction false} RemoveFirstAt<T>(s: seq<T>, i: nat)
    requires i < |s| && forall a, b :: 0 <= a < b < |s| ==> s[a] != s[b]
    ensures RemoveFirst(s, s[i]) == s[..i] + s[i + 1..]
  {
    if i > 0 {
      assert s[1..][i - 1] == s[i];
      assert forall a, b :: 0 <= a < b < |s| - 1 ==> s[1..][a] != s[1..][b] by {
        forall a, b | 0 <= a < b < |s| - 1 ensures s[1..][a] != s[1..][b] {
          assert s[1..][a] == s[a + 1] && s[1..][b] == s[b + 1];
        }
      }
      RemoveFirstAt(s[1..], i - 1);
      assert s[0] != s[i];
      assert [s[0]] + (s[1..][..i - 1] + s[1..][i..]) == s[..i] + s[i + 1..];
    }
  }
}
