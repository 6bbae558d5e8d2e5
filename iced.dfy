/** The part of the iced toolkit's vocabulary that the application's state
    machine inspects: window modes, keyboard and window events, themes.
    Variants the application never matches on are kept only as far as they
    are needed to show that they are ignored. */
module Iced {

  /** window::Mode */
  datatype Mode = Windowed | Fullscreen | Hidden

  /** keyboard::KeyCode: the four keys the application binds, and every other key. */
  datatype KeyCode = Enter | Minus | Equals | Key0 | OtherKey(code: nat)

  /** keyboard::Modifiers is a bit set; two sets are equal only when they hold
      exactly the same modifier keys. */
  datatype Modifiers = Modifiers(shift: bool, ctrl: bool, alt: bool, logo: bool)

  /** Modifiers::ALT, the set holding Alt alone. */
  const ALT: Modifiers := Modifiers(false, false, true, false)

  /** Modifiers::CTRL, the set holding Ctrl alone. */
  const CTRL: Modifiers := Modifiers(false, true, false, false)

  /** keyboard::Event */
  datatype KeyboardEvent =
    | KeyPressed(keyCode: KeyCode, modifiers: Modifiers)
    | KeyReleased(keyCode: KeyCode, modifiers: Modifiers)
    | CharacterReceived(ch: char)
    | ModifiersChanged(modifiers: Modifiers)

  /** window::Event */
  datatype WindowEvent =
    | Moved(x: int, y: int)
    | Resized(width: nat, height: nat)
    | CloseRequested
    | Focused
    | Unfocused
    | FileDropped(path: string)

  /** iced::Event: keyboard and window events, and the mouse and touch events
      the application never looks into. */
  datatype Event = Keyboard(keyboard: KeyboardEvent) | Mouse | Window(window: WindowEvent) | Touch

  /** iced::Theme, restricted to the two built-in themes. */
  datatype Theme = Light | Dark
}
