/** The application as the source has it: an AppState object whose zoom
    operations update its fields in place, and the App that owns it and
    dispatches each message. Every method is proved to perform exactly the
    transition that module Store describes, so the contracts of Store and
    the lemmas of module Properties apply to the objects. */
module Shell {
  import opened Iced
  import opened Store

  class AppState {
    var darkMode: Option<bool>
    var scaleFactor: int
    var showExitDialog: bool

    /** The fields as a value. */
    function Value(): State
      reads this
    {
      State(darkMode, scaleFactor, showExitDialog)
    }

    /** AppState::default */
    constructor ()
      ensures Value() == Default()
      ensures Valid(Value())
    {
      darkMode := Some(true);
      scaleFactor := ZOOM_DEFAULT;
      showExitDialog := false;
    }

    method ZoomIn()
      modifies this
      ensures Value() == Store.ZoomIn(old(Value()))
      ensures scaleFactor == old(scaleFactor) + ZOOM_DELTA
      ensures darkMode == old(darkMode) && showExitDialog == old(showExitDialog)
    {
      scaleFactor := scaleFactor + ZOOM_DELTA;
    }

    method ZoomOut()
      modifies this
      ensures Value() == Store.ZoomOut(old(Value()))
      ensures scaleFactor >= ZOOM_DELTA
      ensures old(scaleFactor) >= 2 * ZOOM_DELTA ==> scaleFactor == old(scaleFactor) - ZOOM_DELTA
      ensures darkMode == old(darkMode) && showExitDialog == old(showExitDialog)
    {
      scaleFactor := Max(scaleFactor - ZOOM_DELTA, ZOOM_DELTA);
    }

    method ZoomReset()
      modifies this
      ensures Value() == Store.ZoomReset(old(Value()))
      ensures scaleFactor == ZOOM_DEFAULT
      ensures darkMode == old(darkMode) && showExitDialog == old(showExitDialog)
    {
      scaleFactor := ZOOM_DEFAULT;
    }
  }

  class App {
    const state: AppState

    /** The invariant the update loop keeps; see Store.Valid. */
    ghost predicate Valid()
      reads this, state
    {
      Store.Valid(state.Value())
    }

    /** App::new, which builds App::default. */
    constructor ()
      ensures fresh(state)
      ensures state.Value() == Default()
      ensures Valid()
    {
      state := new AppState();
    }

    method HandleKeyEvent(e: KeyboardEvent) returns (c: Command)
      modifies state
      ensures Outcome(state.Value(), c) == KeyStep(old(state.Value()), e)
      ensures !IsShortcut(e) ==> c == NoCommand && state.Value() == old(state.Value())
    {
      if e == ALT_ENTER {
        c := FetchMode(ToggleFullScreenWith);
      } else if e == CTRL_MINUS {
        state.ZoomOut();
        c := NoCommand;
      } else if e == CTRL_EQUALS {
        state.ZoomIn();
        c := NoCommand;
      } else if e == CTRL_0 {
        state.ZoomReset();
        c := NoCommand;
      } else {
        c := NoCommand;
      }
    }

    method HandleWindowEvent(e: WindowEvent) returns (c: Command)
      modifies state
      ensures Outcome(state.Value(), c) == WindowStep(old(state.Value()), e)
      ensures c == NoCommand
      ensures e == CloseRequested ==> state.showExitDialog
    {
      match e
      case CloseRequested =>
        state.showExitDialog := true;
        c := NoCommand;
      case _ =>
        c := NoCommand;
    }

    /** App::update: dispatch one message, updating the state in place and
        returning the command for the host to run. */
    method Update(m: Message) returns (c: Command)
      modifies state
      ensures Outcome(state.Value(), c) == Step(old(state.Value()), m)
      ensures old(Valid()) ==> Valid()
      ensures c == CloseWindow <==> m == ConfirmExit(true)
    {
      match m {
        case AppEvent(event) =>
          match event {
            case Keyboard(e) => c := HandleKeyEvent(e);
            case Window(e) => c := HandleWindowEvent(e);
            case _ => c := NoCommand;
          }
        case ToggleDarkMode(enable) =>
          state.darkMode := Some(enable);
          c := NoCommand;
        case ToggleFullScreen(curMode) =>
          if curMode == Fullscreen {
            c := ChangeMode(Windowed);
          } else {
            c := ChangeMode(Fullscreen);
          }
        case ConfirmExit(confirmExit) =>
          if confirmExit {
            c := CloseWindow;
          } else {
            state.showExitDialog := false;
            c := NoCommand;
          }
      }
    }

    /** App::theme. The source aborts when no theme is chosen; Valid() rules
        that out, and Update and the constructor keep Valid(). */
    function Theme(): (t: Iced.Theme)
      reads this, state
      requires state.darkMode.Some?
      ensures t == Dark <==> state.darkMode == Some(true)
      ensures t == Light <==> state.darkMode == Some(false)
    {
      ThemeOf(state.Value())
    }

    /** App::scale_factor, in tenths. */
    function ScaleFactor(): (r: int)
      reads this, state
      ensures Valid() ==> r >= ZOOM_DELTA
    {
      state.scaleFactor
    }
  }
}
