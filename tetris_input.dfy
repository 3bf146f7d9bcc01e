/** `TetrisInput`: four arrow-key axes fed from the window's input events. The same
    struct appears twice in the repository, in `src/tetris/tetris_input.rs` and in
    `src/game_input/mod.rs`, with the same code apart from the path of the axis type,
    and is modelled once. Both copies' axes are the `BinaryAxis` of module `Button`.
 */
module TetrisInput {
  import opened Button

  /** The keyboard keys; every key other than the four arrows is `OtherKey`. */
  datatype Key = Left | Right | Up | Down | OtherKey(code: nat)

  /** The source of a button event. */
  datatype InputButton = Keyboard(key: Key) | Mouse(code: nat) | Controller(code: nat)

  datatype ButtonArgs = ButtonArgs(button: InputButton, state: ButtonState)

  /** A window input event; every non-button event is `OtherInput`. */
  datatype Input = ButtonInput(args: ButtonArgs) | OtherInput

  /** The four axes `TetrisInput` owns. */
  datatype Arrow = ArrowLeft | ArrowRight | ArrowUp | ArrowDown

  /** Where an input event goes. */
  datatype Route = Ignored | ToAxis(arrow: Arrow, state: ButtonState)

  /** The axis an input event is dispatched to: an arrow key's press or release goes
      to that arrow's axis, everything else is ignored. */
  function RouteOf(input: Input): (r: Route)
    ensures r.ToAxis? <==> input.ButtonInput? && input.args.button.Keyboard?
                           && !input.args.button.key.OtherKey?
    ensures r.ToAxis? ==> r.state == input.args.state
  {
    match input
    case ButtonInput(args) =>
      (match args.button
       case Keyboard(Left) => ToAxis(ArrowLeft, args.state)
       case Keyboard(Right) => ToAxis(ArrowRight, args.state)
       case Keyboard(Up) => ToAxis(ArrowUp, args.state)
       case Keyboard(Down) => ToAxis(ArrowDown, args.state)
       case _ => Ignored)
    case OtherInput => Ignored
  }

  /** The key whose events go to `arrow`. */
  function KeyOf(arrow: Arrow): Key {
    match arrow
    case ArrowLeft => Left
    case ArrowRight => Right
    case ArrowUp => Up
    case ArrowDown => Down
  }

  /** Each arrow key reaches its own axis and no other. */
  lemma RoutesToItsOwnAxis(arrow: Arrow, state: ButtonState)
    ensures RouteOf(ButtonInput(ButtonArgs(Keyboard(KeyOf(arrow)), state))) == ToAxis(arrow, state)
  {
  }

  /** The states of the four axes, as a value. */
  datatype Axes = Axes(left: AxisState, right: AxisState, up: AxisState, down: AxisState)
  {
    function Get(arrow: Arrow): AxisState {
      match arrow
      case ArrowLeft => left
      case ArrowRight => right
      case ArrowUp => up
      case ArrowDown => down
    }

    /** `arrow`'s axis replaced by `a`. */
    function With(arrow: Arrow, a: AxisState): (r: Axes)
      ensures r.Get(arrow) == a
      ensures forall other :: other != arrow ==> r.Get(other) == Get(other)
    {
      match arrow
      case ArrowLeft => this.(left := a)
      case ArrowRight => this.(right := a)
      case ArrowUp => this.(up := a)
      case ArrowDown => this.(down := a)
    }

    /** The axes after `input`: the routed axis records the report, the others are
        untouched. */
    function Handled(input: Input): (r: Axes)
      ensures RouteOf(input).ToAxis? ==>
        r.Get(RouteOf(input).arrow) == Get(RouteOf(input).arrow).StateChanged(RouteOf(input).state)
      ensures forall arrow :: (RouteOf(input) == Ignored || RouteOf(input).arrow != arrow) ==>
        r.Get(arrow) == Get(arrow)
    {
      match RouteOf(input)
      case Ignored => this
      case ToAxis(arrow, state) => With(arrow, Get(arrow).StateChanged(state))
    }

    /** The axes after one frame: every axis counts exactly one frame. */
    function Ticked(): (r: Axes)
      ensures forall arrow :: r.Get(arrow) == Get(arrow).Updated()
    {
      Axes(left.Updated(), right.Updated(), up.Updated(), down.Updated())
    }
  }

  /** Four released axes. */
  function FreshAxes(): (r: Axes)
    ensures forall arrow :: r.Get(arrow) == Released()
  {
    Axes(Released(), Released(), Released(), Released())
  }

  /** Handling an event that is not an arrow-key button changes no axis. */
  lemma IgnoredInputsChangeNothing(axes: Axes, input: Input)
    requires !input.ButtonInput? || !input.args.button.Keyboard? || input.args.button.key.OtherKey?
    ensures axes.Handled(input) == axes
  {
  }

  /** Handling the same event twice in a row has the effect of handling it once. */
  lemma HandledIdempotent(axes: Axes, input: Input)
    ensures axes.Handled(input).Handled(input) == axes.Handled(input)
  {
    match RouteOf(input)
    case Ignored =>
    case ToAxis(arrow, state) =>
      StateChangeIdempotent(axes.Get(arrow), state);
      var once := axes.Handled(input);
      var twice := once.Handled(input);
      forall other: Arrow
        ensures twice.Get(other) == once.Get(other)
      {
      }
  }

  /** Events for two different axes may be handled in either order. */
  lemma DistinctAxesCommute(axes: Axes, i: Input, j: Input)
    requires RouteOf(i).ToAxis? && RouteOf(j).ToAxis? && RouteOf(i).arrow != RouteOf(j).arrow
    ensures axes.Handled(i).Handled(j) == axes.Handled(j).Handled(i)
  {
    var ij := axes.Handled(i).Handled(j);
    var ji := axes.Handled(j).Handled(i);
    assert ij.Get(ArrowLeft) == ji.Get(ArrowLeft);
    assert ij.Get(ArrowRight) == ji.Get(ArrowRight);
    assert ij.Get(ArrowUp) == ji.Get(ArrowUp);
    assert ij.Get(ArrowDown) == ji.Get(ArrowDown);
  }

  /** The four axes of the game, as distinct objects updated in place. */
  class TetrisInput {
    const arrowLeft: BinaryAxis
    const arrowRight: BinaryAxis
    const arrowUp: BinaryAxis
    const arrowDown: BinaryAxis

    /** The four fields are four different axes. */
    ghost predicate Valid()
      reads this
    {
      arrowLeft != arrowRight && arrowLeft != arrowUp && arrowLeft != arrowDown
      && arrowRight != arrowUp && arrowRight != arrowDown && arrowUp != arrowDown
    }

    /** The states of the four axes. */
    function Snapshot(): (r: Axes)
      reads this, arrowLeft, arrowRight, arrowUp, arrowDown
      ensures r.Get(ArrowLeft) == arrowLeft.State() && r.Get(ArrowRight) == arrowRight.State()
      ensures r.Get(ArrowUp) == arrowUp.State() && r.Get(ArrowDown) == arrowDown.State()
    {
      Axes(arrowLeft.State(), arrowRight.State(), arrowUp.State(), arrowDown.State())
    }

    /** Four fresh released axes. */
    constructor ()
      ensures Valid()
      ensures fresh(arrowLeft) && fresh(arrowRight) && fresh(arrowUp) && fresh(arrowDown)
      ensures Snapshot() == FreshAxes()
    {
      arrowLeft := new BinaryAxis();
      arrowRight := new BinaryAxis();
      arrowUp := new BinaryAxis();
      arrowDown := new BinaryAxis();
    }

    /** Counts one frame on every axis. */
    method Update()
      requires Valid()
      modifies arrowLeft, arrowRight, arrowUp, arrowDown
      ensures Valid()
      ensures Snapshot() == old(Snapshot()).Ticked()
    {
      arrowLeft.Update();
      arrowRight.Update();
      arrowUp.Update();
      arrowDown.Update();
    }

    /** Passes an arrow key's press or release to that key's axis; ignores every other
        event. */
    method HandleInput(input: Input)
      requires Valid()
      modifies arrowLeft, arrowRight, arrowUp, arrowDown
      ensures Valid()
      ensures Snapshot() == old(Snapshot()).Handled(input)
    {
      if input.ButtonInput? {
        var args := input.args;
        match args.button {
          case Keyboard(Left) => arrowLeft.StateChange(args.state);
          case Keyboard(Right) => arrowRight.StateChange(args.state);
          case Keyboard(Up) => arrowUp.StateChange(args.state);
          case Keyboard(Down) => arrowDown.StateChange(args.state);
          case _ =>
        }
      }
    }
  }
}
