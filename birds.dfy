/** The player's bird (src/components/bird.py): per-tick physics while alive, the drop when
    dead, the jump impulse and the reset. */
module Birds {
  import opened Constants
  import opened Geometry

  const SpawnX: real := 50.0
  /** `WINDOW_HEIGHT // 2` */
  const SpawnY: real := (WindowHeight / 2) as real
  const JumpVelocity: real := -12.0
  const TiltVelocity: real := 0.5
  const MaxTilt: real := 25.0
  const AnimationSpeed: int := 5
  /** The tilt of a dead bird, nose down. */
  const DeadTilt: real := 90.0
  /** The y of a bird resting on the ground: its bottom edge on the ground line. */
  const RestY: real := (GroundLine - BirdHeight) as real

  datatype BirdView = BirdView(
    x: real, y: real, velocity: real, tilt: real,
    animationTick: int, isDead: bool, dropVelocity: real)

  function InitialBird(): BirdView {
    BirdView(SpawnX, SpawnY, 0.0, 0.0, 0, false, 0.0)
  }

  /** The y that a live update integrates to, before the ceiling clamp. */
  function LiveTarget(b: BirdView): real {
    b.y + b.velocity + Gravity
  }

  /** The y that a dead update integrates to, before the ground clamp. */
  function DropTarget(b: BirdView): real {
    b.y + b.dropVelocity + Gravity
  }

  /** One `update`. */
  function Stepped(b: BirdView): (r: BirdView)
    // x never moves and no update kills or revives the bird
    ensures r.x == b.x && r.isDead == b.isDead
    // alive: gravity, then the ceiling clamp; the drop velocity is untouched
    ensures !b.isDead ==> r.y >= 0.0 && r.dropVelocity == b.dropVelocity
    ensures !b.isDead && LiveTarget(b) >= 0.0 ==>
              r.velocity == b.velocity + Gravity && r.y == b.y + r.velocity
    ensures !b.isDead && LiveTarget(b) < 0.0 ==> r.y == 0.0 && r.velocity == 0.0
    // alive: the tilt stays within +-25 degrees and moves by at most 0.5, towards the motion
    ensures !b.isDead && -MaxTilt <= b.tilt <= MaxTilt ==>
              -MaxTilt <= r.tilt <= MaxTilt && -TiltVelocity <= r.tilt - b.tilt <= TiltVelocity &&
              (b.velocity + Gravity < 0.0 ==> r.tilt <= b.tilt) &&
              (b.velocity + Gravity >= 0.0 ==> r.tilt >= b.tilt)
    // alive: the flap counter cycles through 0..4
    ensures !b.isDead && 0 <= b.animationTick < AnimationSpeed ==>
              r.animationTick == (b.animationTick + 1) % AnimationSpeed
    // dead: nose down, never below the resting height; velocity and flap counter frozen
    ensures b.isDead ==>
              r.tilt == DeadTilt && r.y <= RestY && r.velocity == b.velocity &&
              r.animationTick == b.animationTick
    ensures b.isDead && DropTarget(b) + BirdHeight as real >= GroundLine as real ==>
              r.y == RestY && r.dropVelocity == 0.0
    ensures b.isDead && DropTarget(b) + BirdHeight as real < GroundLine as real ==>
              r.dropVelocity == b.dropVelocity + Gravity && r.y == b.y + r.dropVelocity
  {
    if !b.isDead then
      var velocity := b.velocity + Gravity;
      var y := b.y + velocity;
      var tilt := if velocity < 0.0 then Max(b.tilt - TiltVelocity, -MaxTilt)
                  else Min(b.tilt + TiltVelocity, MaxTilt);
      var tick := if b.animationTick + 1 >= AnimationSpeed then 0 else b.animationTick + 1;
      if y < 0.0 then
        b.(y := 0.0, velocity := 0.0, tilt := tilt, animationTick := tick)
      else
        b.(y := y, velocity := velocity, tilt := tilt, animationTick := tick)
    else
      var dropVelocity := b.dropVelocity + Gravity;
      var y := b.y + dropVelocity;
      if y + BirdHeight as real >= GroundLine as real then
        b.(y := RestY, dropVelocity := 0.0, tilt := DeadTilt)
      else
        b.(y := y, dropVelocity := dropVelocity, tilt := DeadTilt)
  }

  /** `jump`: a live bird gets the fixed upward impulse and full upward tilt whatever it had
      before; a dead bird is left as it is. */
  function Jumped(b: BirdView): (r: BirdView)
    ensures !b.isDead ==> r.velocity == JumpVelocity && r.tilt == -MaxTilt &&
                          r.(velocity := b.velocity, tilt := b.tilt) == b
    ensures b.isDead ==> r == b
  {
    if b.isDead then b else b.(velocity := JumpVelocity, tilt := -MaxTilt)
  }

  /** `reset_position`: back to mid-screen, at rest and alive; x and the flap counter are kept. */
  function AfterReset(b: BirdView): (r: BirdView)
    ensures r.y == SpawnY && r.velocity == 0.0 && r.tilt == 0.0 && !r.isDead && r.dropVelocity == 0.0
    ensures r.x == b.x && r.animationTick == b.animationTick
  {
    b.(y := SpawnY, velocity := 0.0, tilt := 0.0, isDead := false, dropVelocity := 0.0)
  }

  function BirdRect(b: BirdView): Rect {
    BirdBox(b.x, b.y)
  }

  function Max(a: real, b: real): real { if a >= b then a else b }
  function Min(a: real, b: real): real { if a <= b then a else b }

  /** The bird's values from construction on stay in their ranges: tilt within +-25 while alive,
      flap counter in 0..4, x at 50, y on screen. */
  ghost predicate InRange(b: BirdView) {
    && b.x == SpawnX
    && 0 <= b.animationTick < AnimationSpeed
    && (!b.isDead ==> -MaxTilt <= b.tilt <= MaxTilt && b.y >= 0.0)
  }

  lemma InRangeKept(b: BirdView)
    requires InRange(b)
    ensures InRange(Stepped(b)) && InRange(Jumped(b)) && InRange(AfterReset(b))
  {
  }

  class Bird {
    var x: real
    var y: real
    var velocity: real
    var tilt: real
    var animationTick: int
    var isDead: bool
    var dropVelocity: real

    function View(): BirdView
      reads this
    {
      BirdView(x, y, velocity, tilt, animationTick, isDead, dropVelocity)
    }

    constructor ()
      ensures View() == InitialBird()
    {
      x := SpawnX;
      y := SpawnY;
      velocity := 0.0;
      tilt := 0.0;
      animationTick := 0;
      isDead := false;
      dropVelocity := 0.0;
    }

    method Update()
      modifies this
      ensures View() == Stepped(old(View()))
    {
      if !isDead {
        velocity := velocity + Gravity;
        y := y + velocity;
        if velocity < 0.0 {
          tilt := Max(tilt - TiltVelocity, -MaxTilt);
        } else {
          tilt := Min(tilt + TiltVelocity, MaxTilt);
        }
        if y < 0.0 {
          y := 0.0;
          velocity := 0.0;
        }
        animationTick := animationTick + 1;
        if animationTick >= AnimationSpeed {
          animationTick := 0;
        }
      } else {
        dropVelocity := dropVelocity + Gravity;
        y := y + dropVelocity;
        tilt := DeadTilt;
        if y + BirdHeight as real >= GroundLine as real {
          y := RestY;
          dropVelocity := 0.0;
        }
      }
    }

    method Jump()
      modifies this
      ensures View() == Jumped(old(View()))
    {
      if !isDead {
        velocity := JumpVelocity;
        tilt := -MaxTilt;
      }
    }

    method ResetPosition()
      modifies this
      ensures View() == AfterReset(old(View()))
    {
      y := SpawnY;
      velocity := 0.0;
      tilt := 0.0;
      isDead := false;
      dropVelocity := 0.0;
    }

    function GetRect(): (r: Rect)
      reads this
      ensures r.left == x && r.top == y
      ensures r.width == BirdWidth as real && r.height == BirdHeight as real
    {
      BirdRect(View())
    }
  }
}
