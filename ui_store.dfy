/**
 * Shared UI state (`src/store/ui-store.ts`): whether the bars are shown,
 * whether the player is expanded, and the load-progress overlay.
 */
module UiStore {
  import opened Wrappers
  import opened Numbers

  /** The progress value the overlay shows: `Math.min(100, Math.max(0, progress))`. */
  function ClampProgress(p: Number): Number {
    Min(Finite(100.0), Max(Finite(0.0), p))
  }

  /** A progress value the overlay can hold: NaN passes through the clamp, everything else lands in [0, 100]. */
  predicate InRange(p: Number) {
    p.NaN? || (p.Finite? && 0.0 <= p.value <= 100.0)
  }

  /**
   * The clamp keeps values in [0, 100] unchanged, sends everything else
   * to the nearer bound, lets NaN through, and never leaves the range.
   */
  lemma ClampProgressRange(p: Number)
    ensures InRange(ClampProgress(p))
    ensures ClampProgress(p).NaN? <==> p.NaN?
    ensures InRange(p) ==> ClampProgress(p) == p
    ensures p.Finite? && p.value < 0.0 ==> ClampProgress(p) == Finite(0.0)
    ensures p.Finite? && p.value > 100.0 ==> ClampProgress(p) == Finite(100.0)
    ensures p.Infinity? ==> ClampProgress(p) == Finite(if p.negative then 0.0 else 100.0)
  {
  }

  lemma ClampProgressIdempotent(p: Number)
    ensures ClampProgress(ClampProgress(p)) == ClampProgress(p)
  {
    ClampProgressRange(p);
    ClampProgressRange(ClampProgress(p));
  }

  class UiState {
    /** `$barsVisible`. */
    var barsVisible: bool
    /** `$isPlayerExpanded`. */
    var isPlayerExpanded: bool
    /** `$loadProgress`. */
    var visible: bool
    var progress: Number
    var message: string

    /** The overlay never holds a progress outside [0, 100] other than NaN. */
    predicate Valid()
      reads this`progress
    {
      InRange(progress)
    }

    constructor()
      ensures Valid()
      ensures barsVisible && !isPlayerExpanded
      ensures !visible && progress == Finite(0.0) && message == ""
    {
      barsVisible := true;
      isPlayerExpanded := false;
      visible := false;
      progress := Finite(0.0);
      message := "";
    }

    /** `handleScrollStart`: scrolling hides the bars. */
    method HandleScrollStart()
      modifies this`barsVisible
      ensures !barsVisible
    {
      barsVisible := false;
    }

    /** The end of `handleScrollStop`'s 150 ms timer: the bars come back. */
    method ScrollSettled()
      modifies this`barsVisible
      ensures barsVisible
    {
      barsVisible := true;
    }

    /** `showProgress`: the overlay appears at 0 with the message. */
    method ShowProgress(m: string)
      modifies this`visible, this`progress, this`message
      ensures Valid()
      ensures visible && progress == Finite(0.0) && message == m
    {
      visible, progress, message := true, Finite(0.0), m;
    }

    /** `updateProgress`: the clamped progress, and the new message if one is given. */
    method UpdateProgress(p: Number, m: Option<string>)
      modifies this`progress, this`message
      ensures Valid()
      ensures progress == ClampProgress(p)
      ensures message == if m.Some? then m.value else old(message)
    {
      ClampProgressRange(p);
      progress := ClampProgress(p);
      if m.Some? {
        message := m.value;
      }
    }

    /** `hideProgress`: back to the initial overlay. */
    method HideProgress()
      modifies this`visible, this`progress, this`message
      ensures Valid()
      ensures !visible && progress == Finite(0.0) && message == ""
    {
      visible, progress, message := false, Finite(0.0), "";
    }
  }
}
