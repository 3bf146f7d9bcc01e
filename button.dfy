/** The edge tracker `BinaryAxis` of `src/button.rs`: whether a binary control is held
    and for how many frames it has been in its current and in its previous state.
    The floating-point time fields are not modelled.
 */
module Button {

  /** Press or release, as reported by the windowing layer. */
  datatype ButtonState = Press | Release

  /** The integer part of a `BinaryAxis`, as a value. */
  datatype AxisState = AxisState(held: bool, framesInState: nat, framesInPrevious: nat)
  {
    /** The axis reports that it is held. */
    predicate Pressed() {
      held
    }

    /** The axis became held during this frame or the one before. */
    predicate PressedThisFrame() {
      Pressed() && framesInState < 2
    }

    /** The state after the control reports `state`. A report that matches the state
        already held changes nothing; otherwise the hold flag flips, the frame count
        moves to `framesInPrevious` and the new state starts from frame 0. */
    function StateChanged(state: ButtonState): (b: AxisState)
      ensures b.held <==> state == Press
      ensures b.held == held ==> b == this
      ensures b.held != held ==> b.framesInState == 0 && b.framesInPrevious == framesInState
    {
      var newHeld := state == Press;
      if held != newHeld then AxisState(newHeld, 0, framesInState) else this
    }

    /** The state after one more frame. */
    function Updated(): (b: AxisState)
      ensures b.held == held && b.framesInPrevious == framesInPrevious
      ensures b.framesInState == framesInState + 1
    {
      AxisState(held, framesInState + 1, framesInPrevious)
    }

    /** The state after `n` frames without a report. */
    function UpdatedTimes(n: nat): AxisState
      decreases n
    {
      if n == 0 then this else Updated().UpdatedTimes(n - 1)
    }
  }

  /** The state of a freshly created axis: released, with no frames counted. */
  function Released(): (a: AxisState)
    ensures !a.Pressed() && !a.PressedThisFrame()
    ensures a.framesInState == 0 && a.framesInPrevious == 0
  {
    AxisState(false, 0, 0)
  }

  /** The edge predicate implies the level predicate. */
  lemma PressedThisFrameImpliesPressed(a: AxisState)
    ensures a.PressedThisFrame() ==> a.Pressed()
    ensures a.PressedThisFrame() <==> a.held && a.framesInState < 2
  {
  }

  /** Reporting the same state twice has the effect of reporting it once. */
  lemma StateChangeIdempotent(a: AxisState, state: ButtonState)
    ensures a.StateChanged(state).StateChanged(state) == a.StateChanged(state)
  {
  }

  /** After a report, the axis is pressed exactly when the report was a press. */
  lemma StateChangeDecidesPressed(a: AxisState, state: ButtonState)
    ensures a.StateChanged(state).Pressed() <==> state == Press
    ensures state == Release ==> !a.StateChanged(state).PressedThisFrame()
  {
  }

  /** `n` frames add `n` to the frame count and change nothing else. */
  lemma {:induction false} UpdatedTimesCounts(a: AxisState, n: nat)
    ensures a.UpdatedTimes(n).held == a.held
    ensures a.UpdatedTimes(n).framesInPrevious == a.framesInPrevious
    ensures a.UpdatedTimes(n).framesInState == a.framesInState + n
    decreases n
  {
    if n > 0 {
      UpdatedTimesCounts(a.Updated(), n - 1);
    }
  }

  /** A release-to-press transition followed by `n` frames without a report is seen as
      a fresh press exactly while fewer than two frames have passed; the frames spent
      released are kept as `framesInPrevious`. */
  lemma PressThenUpdates(a: AxisState, n: nat)
    requires !a.held
    ensures a.StateChanged(Press).UpdatedTimes(n).Pressed()
    ensures a.StateChanged(Press).UpdatedTimes(n).PressedThisFrame() <==> n < 2
    ensures a.StateChanged(Press).UpdatedTimes(n).framesInPrevious == a.framesInState
  {
    UpdatedTimesCounts(a.StateChanged(Press), n);
  }

  /** Holding the same state across a frame never produces a new edge: a frame then a
      repeated report is a frame. */
  lemma RepeatedReportAfterFrame(a: AxisState, state: ButtonState)
    ensures a.StateChanged(state).Updated().StateChanged(state) == a.StateChanged(state).Updated()
  {
  }

  /** One `BinaryAxis`, updated in place. */
  class BinaryAxis {
    var currentlyHeld: bool
    var framesInState: nat
    var framesInPrevious: nat

    /** The fields as a value. */
    function State(): (a: AxisState)
      reads this
      ensures a.held == currentlyHeld && a.framesInState == framesInState
      ensures a.framesInPrevious == framesInPrevious
    {
      AxisState(currentlyHeld, framesInState, framesInPrevious)
    }

    /** A released axis with both frame counts at 0. */
    constructor ()
      ensures State() == Released()
    {
      currentlyHeld := false;
      framesInState := 0;
      framesInPrevious := 0;
    }

    /** Records a press or release reported for this control. */
    method StateChange(state: ButtonState)
      modifies this
      ensures State() == old(State()).StateChanged(state)
    {
      var newState := match state
        case Press => true
        case Release => false;
      if currentlyHeld != newState {
        currentlyHeld := newState;
        framesInPrevious := framesInState;
        framesInState := 0;
      }
    }

    /** Counts one more frame in the current state. */
    method Update()
      modifies this
      ensures State() == old(State()).Updated()
    {
      framesInState := framesInState + 1;
    }

    /** Whether the control is held. */
    function Pressed(): (p: bool)
      reads this
      ensures p <==> State().Pressed()
    {
      currentlyHeld
    }

    /** Whether the control became held during this frame or the one before. */
    function PressedThisFrame(): (p: bool)
      reads this
      ensures p ==> Pressed()
      ensures p <==> State().PressedThisFrame()
    {
      Pressed() && framesInState < 2
    }
  }
}
