/** The game-over fade of the UI (src/game/ui.py): a bounded alpha counter and a latch that
    lets the game-over screen and its buttons appear. Drawing is not modelled. */
module DeathScreen {
  const FadeStep: int := 5
  const FadeLimit: int := 255
  /** The alpha above which the death screen is shown. */
  const ShowThreshold: int := 128
  /** The darkest the overlay gets. */
  const OverlayCap: int := 180

  datatype Fade = Fade(fadeAlpha: int, showDeathScreen: bool)

  function Cleared(): Fade {
    Fade(0, false)
  }

  /** `update_death_animation(bird_on_ground)`. */
  function Advanced(f: Fade, birdOnGround: bool): (r: Fade)
    ensures !birdOnGround ==> r == f
    ensures birdOnGround && f.fadeAlpha < FadeLimit ==> r.fadeAlpha == f.fadeAlpha + FadeStep
    ensures birdOnGround && f.fadeAlpha >= FadeLimit ==> r.fadeAlpha == f.fadeAlpha
    ensures birdOnGround ==> (r.showDeathScreen <==> f.showDeathScreen || r.fadeAlpha > ShowThreshold)
    // the latch is never cleared here
    ensures f.showDeathScreen ==> r.showDeathScreen
  {
    if !birdOnGround then f
    else
      var alpha := if f.fadeAlpha < FadeLimit then f.fadeAlpha + FadeStep else f.fadeAlpha;
      var show := if alpha > ShowThreshold && !f.showDeathScreen then true else f.showDeathScreen;
      Fade(alpha, show)
  }

  /** What every reachable fade satisfies: the alpha is a multiple of 5 in [0, 255], and the
      screen is shown exactly when the alpha has passed 128. */
  predicate FadeInvariant(f: Fade) {
    0 <= f.fadeAlpha <= FadeLimit && f.fadeAlpha % FadeStep == 0 &&
    (f.showDeathScreen <==> f.fadeAlpha > ShowThreshold)
  }

  lemma AdvancedKeepsInvariant(f: Fade, birdOnGround: bool)
    requires FadeInvariant(f)
    ensures FadeInvariant(Advanced(f, birdOnGround))
  {
  }

  /** The fade after `n` calls with the bird on the ground, from the cleared state. */
  function FadeAfter(n: nat): Fade {
    if n == 0 then Cleared() else Advanced(FadeAfter(n - 1), true)
  }

  /** After n calls the alpha is min(5n, 255), and the screen shows from the 26th call on. */
  lemma {:induction false} FadeAfterClosedForm(n: nat)
    ensures FadeAfter(n).fadeAlpha == if FadeStep * n < FadeLimit then FadeStep * n else FadeLimit
    ensures FadeAfter(n).showDeathScreen <==> n >= 26
  {
    if n > 0 {
      FadeAfterClosedForm(n - 1);
    }
  }

  /** The overlay's alpha, `min(fade_alpha, 180)`. */
  function OverlayAlpha(f: Fade): (r: int)
    ensures r <= OverlayCap && r <= f.fadeAlpha
    ensures r == f.fadeAlpha || r == OverlayCap
  {
    if f.fadeAlpha <= OverlayCap then f.fadeAlpha else OverlayCap
  }

  /** The fade part of the UI object; fonts, window and buttons are not modelled. */
  class Ui {
    var fadeAlpha: int
    var showDeathScreen: bool

    function View(): Fade
      reads this
    {
      Fade(fadeAlpha, showDeathScreen)
    }

    constructor ()
      ensures View() == Cleared()
    {
      fadeAlpha := 0;
      showDeathScreen := false;
    }

    method UpdateDeathAnimation(birdOnGround: bool)
      modifies this
      ensures View() == Advanced(old(View()), birdOnGround)
    {
      if birdOnGround {
        if fadeAlpha < FadeLimit {
          fadeAlpha := fadeAlpha + FadeStep;
        }
        if fadeAlpha > ShowThreshold && !showDeathScreen {
          showDeathScreen := true;
        }
      }
    }

    method ResetDeathAnimation()
      modifies this
      ensures View() == Cleared()
    {
      fadeAlpha := 0;
      showDeathScreen := false;
    }
  }
}
