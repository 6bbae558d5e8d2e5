/** The application state as a value, and the transition rules of the
    application's update loop as pure functions over it. The classes in
    module Shell perform the same transitions in place and are proved equal
    to these functions. */
module Store {
  import opened Iced

  /** The zoom step and the initial zoom, counted in tenths of the window's
      scale factor: 0.1 and 1.0. */
  const ZOOM_DELTA: int := 1
  const ZOOM_DEFAULT: int := 10

  datatype Option<T> = None | Some(value: T)

  /** Message: what the update loop consumes. */
  datatype Message =
    | AppEvent(event: Event)
    | ToggleDarkMode(enable: bool)
    | ToggleFullScreen(curMode: Mode)
    | ConfirmExit(confirm: bool)

  /** The continuation handed to window::fetch_mode: how the mode the host
      reports is turned back into a message. The application only ever
      passes the ToggleFullScreen constructor. */
  datatype ModeHandler = ToggleFullScreenWith {
    function Apply(mode: Mode): Message {
      ToggleFullScreen(mode)
    }
  }

  /** Command<Message>: the single effect one update asks the host to run. */
  datatype Command =
    | NoCommand
    | FetchMode(handler: ModeHandler)
    | ChangeMode(mode: Mode)
    | CloseWindow

  /** The fields of AppState. */
  datatype State = State(darkMode: Option<bool>, scaleFactor: int, showExitDialog: bool)

  /** What one update yields: the new state and the command to run. */
  datatype Outcome = Outcome(state: State, command: Command)

  /** The invariant every reachable state keeps: a theme is always chosen,
      and the scale factor never falls below one zoom step. */
  ghost predicate Valid(s: State) {
    s.darkMode.Some? && s.scaleFactor >= ZOOM_DELTA
  }

  /** AppState::default: a valid state showing the dark theme at the
      default zoom, with the dialog hidden. */
  function Default(): (s: State)
    ensures Valid(s)
    ensures ThemeOf(s) == Dark && s.scaleFactor == ZOOM_DEFAULT && !s.showExitDialog
  {
    State(Some(true), ZOOM_DEFAULT, false)
  }

  /** Steps the scale factor up by one step; keeps the invariant. */
  function ZoomIn(s: State): (r: State)
    ensures r.scaleFactor > s.scaleFactor
    ensures Valid(s) ==> Valid(r)
    ensures r.darkMode == s.darkMode && r.showExitDialog == s.showExitDialog
  {
    s.(scaleFactor := s.scaleFactor + ZOOM_DELTA)
  }

  /** Steps the scale factor down, but never below one step. */
  function ZoomOut(s: State): (r: State)
    ensures r.scaleFactor >= ZOOM_DELTA
    ensures r.scaleFactor <= s.scaleFactor || s.scaleFactor < ZOOM_DELTA
    ensures s.darkMode.Some? ==> Valid(r)
    ensures r.darkMode == s.darkMode && r.showExitDialog == s.showExitDialog
  {
    s.(scaleFactor := Max(s.scaleFactor - ZOOM_DELTA, ZOOM_DELTA))
  }

  /** Returns the scale factor to its default; keeps the invariant. */
  function ZoomReset(s: State): (r: State)
    ensures r.scaleFactor == ZOOM_DEFAULT
    ensures Valid(s) ==> Valid(r)
    ensures r.darkMode == s.darkMode && r.showExitDialog == s.showExitDialog
  {
    s.(scaleFactor := ZOOM_DEFAULT)
  }

  function Max(a: int, b: int): int {
    if a < b then b else a
  }

  /** The four key bindings; each matches one key code with exactly one
      modifier set. */
  const ALT_ENTER: KeyboardEvent := KeyPressed(Enter, ALT)
  const CTRL_MINUS: KeyboardEvent := KeyPressed(Minus, CTRL)
  const CTRL_EQUALS: KeyboardEvent := KeyPressed(Equals, CTRL)
  const CTRL_0: KeyboardEvent := KeyPressed(Key0, CTRL)

  predicate IsShortcut(e: KeyboardEvent) {
    e == ALT_ENTER || e == CTRL_MINUS || e == CTRL_EQUALS || e == CTRL_0
  }

  /** App::handle_key_event: only the four bindings do anything; only
      Alt+Enter emits a command; no key event touches the theme or the dialog. */
  function KeyStep(s: State, e: KeyboardEvent): (o: Outcome)
    ensures !IsShortcut(e) ==> o == Outcome(s, NoCommand)
    ensures o.command != NoCommand <==> e == ALT_ENTER
    ensures o.state.darkMode == s.darkMode && o.state.showExitDialog == s.showExitDialog
    ensures Valid(s) ==> Valid(o.state)
  {
    if e == ALT_ENTER then Outcome(s, FetchMode(ToggleFullScreenWith))
    else if e == CTRL_MINUS then Outcome(ZoomOut(s), NoCommand)
    else if e == CTRL_EQUALS then Outcome(ZoomIn(s), NoCommand)
    else if e == CTRL_0 then Outcome(ZoomReset(s), NoCommand)
    else Outcome(s, NoCommand)
  }

  /** App::handle_window_event: never emits a command; a close request
      raises the dialog flag and nothing else changes anything. */
  function WindowStep(s: State, e: WindowEvent): (o: Outcome)
    ensures o.command == NoCommand
    ensures o.state.showExitDialog <==> s.showExitDialog || e == CloseRequested
    ensures o.state.darkMode == s.darkMode && o.state.scaleFactor == s.scaleFactor
  {
    match e
    case CloseRequested => Outcome(s.(showExitDialog := true), NoCommand)
    case _ => Outcome(s, NoCommand)
  }

  /** App::update: keeps the invariant, and closes the window exactly on
      ConfirmExit(true). */
  function Step(s: State, m: Message): (o: Outcome)
    ensures Valid(s) ==> Valid(o.state)
    ensures o.command == CloseWindow <==> m == ConfirmExit(true)
  {
    match m
    case AppEvent(event) =>
      (match event
       case Keyboard(e) => KeyStep(s, e)
       case Window(e) => WindowStep(s, e)
       case _ => Outcome(s, NoCommand))
    case ToggleDarkMode(enable) => Outcome(s.(darkMode := Some(enable)), NoCommand)
    case ToggleFullScreen(curMode) =>
      if curMode == Fullscreen then Outcome(s, ChangeMode(Windowed))
      else Outcome(s, ChangeMode(Fullscreen))
    case ConfirmExit(confirm) =>
      if confirm then Outcome(s, CloseWindow)
      else Outcome(s.(showExitDialog := false), NoCommand)
  }

  /** App::theme. The source aborts when no theme is chosen; here the caller
      must show that one is. */
  function ThemeOf(s: State): (t: Theme)
    requires s.darkMode.Some?
    ensures t == Dark <==> s.darkMode.value
    ensures t == Light <==> !s.darkMode.value
  {
    match s.darkMode
    case Some(true) => Dark
    case Some(false) => Light
  }

  /** The state after the update loop has consumed the messages in order. */
  function Run(s: State, ms: seq<Message>): State
    decreases |ms|
  {
    if ms == [] then s else Run(Step(s, ms[0]).state, ms[1..])
  }

  /** The commands the update loop emits while consuming the messages, one per message. */
  function Commands(s: State, ms: seq<Message>): (cs: seq<Command>)
    ensures |cs| == |ms|
    decreases |ms|
  {
    if ms == [] then [] else [Step(s, ms[0]).command] + Commands(Step(s, ms[0]).state, ms[1..])
  }

  /** A key press as the update loop receives it. */
  function Press(e: KeyboardEvent): Message {
    AppEvent(Keyboard(e))
  }

  /** The two view trees of App::view: the exit confirmation dialog with its
      confirm and cancel buttons, or the mode selector with its two radio
      buttons (light, dark) and the currently selected value. Each button
      carries the message it sends. */
  datatype Screen =
    | ExitDialog(confirm: Message, cancel: Message)
    | ModeSelector(light: Message, dark: Message, selected: Option<bool>)

  /** App::view, without layout and styling: the dialog is shown exactly
      while the flag is raised. */
  function View(s: State): (v: Screen)
    ensures v.ExitDialog? <==> s.showExitDialog
    ensures v.ModeSelector? ==> v.selected == s.darkMode
  {
    if s.showExitDialog then ExitDialog(ConfirmExit(true), ConfirmExit(false))
    else ModeSelector(ToggleDarkMode(false), ToggleDarkMode(true), s.darkMode)
  }
}
