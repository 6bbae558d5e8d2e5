# iced_example application state machine, in Dafny

This project models the decision logic of a small iced desktop application
(`src/main.rs`): one window with a light/dark mode selector, zoom
shortcuts, an Alt+Enter fullscreen toggle and a confirmation dialog on
close. The model covers:

- `AppState`: the three fields `dark_mode`, `scale_factor` and `show_exit_dialog`, its defaults, and the zoom operations `zoom_in`, `zoom_out` and `zoom_reset`.
- `App::update`: it dispatches each `Message`, through `handle_key_event` and `handle_window_event`, and returns one `Command`.
- the read paths `App::theme` and `App::scale_factor`.

Files:

- `iced.dfy` (module `Iced`): the toolkit's vocabulary the application matches on: window modes, key codes, modifier sets, keyboard/window events, themes.
- `store.dfy` (module `Store`): the state as a value and the transition rules as pure functions. `Step` is `update`. `KeyStep` and `WindowStep` are the two handlers. `Run` and `Commands` follow a whole message history. `View` gives the choice of view tree.
- `properties.dfy` (module `Properties`): the lemmas. Some are per message. Others hold over every history, such as the invariant that a theme is always chosen and the scale never drops below one step.
- `app.dfy` (module `Shell`): the classes `AppState` and `App`. Their methods change fields in place, as the source does. Each method's postcondition equates the new state and the returned command with the matching `Store` function. So every lemma of `Properties` applies to the objects.

Modelling decisions:

- `scale_factor` is an `f64` in the source. Here it is an integer count of tenths: `ZOOM_DELTA = 1` stands for 0.1 and `ZOOM_DEFAULT = 10` for 1.0. Clamping and resetting are exact. `f64::max` becomes `Max`.
- `Modifiers` is a bit set in iced, and the source matches it against `Modifiers::ALT` and `Modifiers::CTRL` exactly. Here it is a record of four flags compared by equality. So Ctrl+Shift+- is not Ctrl+-.
- `window::fetch_mode(Message::ToggleFullScreen)` becomes the command `FetchMode(ToggleFullScreenWith)`. The handler's `Apply` turns the mode the host reports back into a `ToggleFullScreen` message.
- The `unreachable!` branch of `theme` becomes the precondition `darkMode.Some?`. The lemmas prove it is met after any message history from the default state (`ThemeAlwaysResolves`), and `App.Update` keeps `App.Valid()`.
- `ConfirmExit(true)` changes no field (src/main.rs:186-187). So after close request, cancel, close request, confirm, the flag is still raised when the close command is emitted (`ExitScenario`).

## Model

| member | source | states |
|---|---|---|
| Store.Default | src/main.rs:48-56 | the initial state is valid, shows the dark theme, has the default scale and hides the dialog (see also DefaultState) |
| Store.ZoomIn | src/main.rs:61-63 | zooming in raises the scale, keeps the invariant and leaves theme and dialog flag alone (exact step: ZoomInAddsStep; inverse: ZoomOutUndoesZoomIn) |
| Store.ZoomOut | src/main.rs:65-67 | zooming out never leaves the scale below one step and never raises a scale that was at or above the floor; theme and dialog flag untouched (exact step: ZoomOutFloor; inverse: ZoomInUndoesZoomOut) |
| Store.ZoomReset | src/main.rs:69-71 | reset gives exactly the default scale, keeps the invariant and leaves theme and dialog flag alone (idempotence: ZoomResetIdempotent) |
| Store.KeyStep | src/main.rs:80-113 | key events other than the four bindings change nothing; a command is emitted if and only if the event is Alt+Enter; no key event touches theme or dialog flag; the invariant is kept (bindings: AltEnterFetchesMode, ZoomKeys, ModifiersMatchExactly) |
| Store.WindowStep | src/main.rs:115-123 | no window event emits a command; the dialog flag is raised afterwards if and only if it was raised or the event is a close request; theme and scale untouched (CloseRequestOpensDialog) |
| Store.Step | src/main.rs:167-194 | every update keeps the invariant and emits the close command if and only if the message is ConfirmExit(true) (StepKeepsValid, CloseOnlyOnConfirm, DialogFlagProtocol) |
| Store.View | src/main.rs:202-225 | the dialog tree is selected if and only if the flag is raised, and the selector shows the current theme choice (buttons: ViewFollowsDialogFlag) |
| Properties.DefaultState | src/main.rs:48-56 | the initial state has a theme chosen (dark), the default scale, the dialog hidden, and satisfies the invariant |
| Shell.AppState.constructor | src/main.rs:48-56 | a fresh AppState holds the default state and satisfies the invariant |
| Shell.App.constructor | src/main.rs:140-142 | a fresh App owns a fresh AppState in the default state, so the invariant holds from the start |
| Properties.ZoomInAddsStep | src/main.rs:61-63 | zooming in adds exactly one step and leaves the theme and the dialog flag unchanged |
| Shell.AppState.ZoomIn | src/main.rs:61-63 | the scale grows by exactly one step in place; the other fields keep their values |
| Properties.ZoomOutFloor | src/main.rs:65-67 | after zooming out the scale is at least one step whatever it was; at or above two steps it drops by exactly one step, below that it becomes one step; other fields unchanged |
| Shell.AppState.ZoomOut | src/main.rs:65-67 | in place: the scale is at least one step afterwards and drops by exactly one step when that stays above the floor; other fields unchanged |
| Properties.ZoomOutUndoesZoomIn | src/main.rs:61-67 | on every state at or above the one-step floor zooming out undoes zooming in |
| Properties.ZoomInUndoesZoomOut | src/main.rs:61-67 | zooming in undoes zooming out if and only if the floor did not stop the zoom-out |
| Properties.ZoomResetIdempotent | src/main.rs:69-71 | reset gives exactly the default scale, resetting twice equals resetting once, and the other fields are untouched |
| Shell.AppState.ZoomReset | src/main.rs:69-71 | in place: the scale becomes the default and the other fields keep their values |
| Properties.RepeatedZoomIn | src/main.rs:96-102 | n Ctrl+= presses add exactly n steps and change nothing else |
| Properties.RepeatedZoomOut | src/main.rs:88-94 | n > 0 Ctrl+- presses leave the scale at max(scale - n steps, one step) and change nothing else |
| Properties.ResetAfterAnyHistory | src/main.rs:104-110 | Ctrl+0 after any message history gives exactly the default scale and keeps the theme and dialog flag that history left |
| Properties.ZoomScenario | src/main.rs:88-102 | Ctrl+=, Ctrl+=, Ctrl+- from the default state ends at 1.1 (11 tenths) |
| Properties.AltEnterFetchesMode | src/main.rs:82-86 | Alt+Enter leaves the state unchanged and emits only the fetch-mode command whose continuation is ToggleFullScreen |
| Properties.ZoomKeys | src/main.rs:87-110 | Ctrl+-, Ctrl+= and Ctrl+0 perform zoom-out, zoom-in and reset and emit no command |
| Properties.UnboundKeyIsIgnored | src/main.rs:80-112 | every keyboard event that is none of the four bindings changes nothing and emits nothing |
| Properties.ModifiersMatchExactly | src/main.rs:83-111 | bindings match the modifier set exactly: Ctrl+Shift+- and Ctrl+Alt+Enter are ignored, and so is a key release |
| Shell.App.HandleKeyEvent | src/main.rs:80-113 | the in-place handler performs exactly KeyStep: the new state and the command are those of the binding; unbound events change nothing and emit nothing |
| Properties.CloseRequestOpensDialog | src/main.rs:115-123 | a close request raises the dialog flag and emits nothing, so it never closes the window itself; every other window event is ignored |
| Shell.App.HandleWindowEvent | src/main.rs:115-123 | the in-place handler performs exactly WindowStep, never emits a command, and raises the flag on a close request |
| Properties.OtherEventsIgnored | src/main.rs:169-173 | mouse and touch events change nothing and emit nothing |
| Properties.ToggleDarkModeSetsTheme | src/main.rs:174-177 | ToggleDarkMode(v) emits nothing and chooses a theme that is Dark if and only if v; scale and dialog flag unchanged |
| Properties.ToggleFullScreenRequestsOtherMode | src/main.rs:178-184 | ToggleFullScreen(m) changes no field and requests Windowed if and only if m is Fullscreen, Fullscreen otherwise |
| Properties.FullScreenRoundTrip | src/main.rs:178-184 | feeding the reported mode through the Alt+Enter continuation requests the other mode of the windowed/fullscreen pair, and toggling again requests the original mode |
| Properties.ConfirmExitProtocol | src/main.rs:185-192 | ConfirmExit(true) emits the close command and changes no field; ConfirmExit(false) lowers the dialog flag and emits nothing |
| Properties.CloseOnlyOnConfirm | src/main.rs:167-194 | an update emits the close command if and only if the message is ConfirmExit(true) (a named corollary of Store.Step's contract) |
| Properties.DialogFlagProtocol | src/main.rs:167-194 | the dialog flag changes only when a close request raises it or ConfirmExit(false) lowers it |
| Properties.ExitScenario | src/main.rs:185-192 | close request, cancel, close request, confirm: the commands are none, none, none, close; the flag is lowered after the cancel and raised again at the end |
| Properties.StepKeepsValid | src/main.rs:167-194 | every update preserves the invariant: a theme is chosen and the scale is at least one step (a named corollary of Store.Step's contract) |
| Properties.RunKeepsValid | src/main.rs:167-194 | every message history preserves the invariant |
| Shell.App.Update | src/main.rs:167-194 | the in-place update performs exactly Step, keeps the invariant, and returns the close command if and only if the message is ConfirmExit(true) |
| Store.ThemeOf | src/main.rs:148-156 | the theme is Dark if and only if dark mode is chosen, and Light if and only if it is not; defined only when a choice exists |
| Properties.ThemeAlwaysResolves | src/main.rs:148-156 | after any message history from the default state a theme is chosen, so the unreachable branch is never taken, and the scale is at least one step |
| Shell.App.Theme | src/main.rs:148-156 | the object's theme is Dark if and only if dark_mode is Some(true), and Light if and only if it is Some(false) |
| Shell.App.ScaleFactor | src/main.rs:158-160 | the scale handed to the host is at least one step whenever the invariant holds |
| Properties.ViewFollowsDialogFlag | src/main.rs:202-225 | the dialog view is shown if and only if the flag is raised; its confirm button closes and its cancel button returns to the selector; the selector shows the current choice and its radios select Light and Dark |

## Left out

- `main`, `app_settings` and `load_logo_icon` are left out. They create the window and decode the embedded font and PNG icon through the `image` crate, which is I/O and foreign code.
- `title` is left out. It returns a compile-time environment string.
- `subscription` and the execution of commands (`window::fetch_mode`, `window::change_mode`, `window::close`) are left out. They belong to the host runtime. Commands are opaque effect values here, and the host's reply to a fetch is a parameter (`FullScreenRoundTrip`).
- The layout and styling of `view` are left out. Only which view tree it selects and which message each button sends are modelled (`Store.View`).
- Floating-point behaviour of `scale_factor` is not modelled: the scale is an unbounded count of tenths, so repeated ±0.1 never accumulates rounding error here.
- Store.ZoomIn: above about 1.1e15 a zoom-in leaves the `f64` value unchanged in the source, because adding 0.1 rounds back to the same number. So `RepeatedZoomIn` and `ZoomOutUndoesZoomIn` hold only for the unbounded count of tenths.
- Events are a subset of iced's variants that includes every variant the application matches on. Mouse and touch events carry no payload here. Keyboard and window events other than the four bindings and the close request are a representative subset, and the source ignores all of them.
- Shell.App.constructor: `App::new` also returns `Command::none()` as its initial command; that initial no-op command is not modelled.
