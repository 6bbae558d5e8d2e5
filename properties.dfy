/** What the update loop promises, stated over the pure transition rules of
    module Store: per message, and over arbitrary message histories. */
module Properties {
  import opened Iced
  import opened Store

  // ---------------------------------------------------------------------
  // The initial state
  // ---------------------------------------------------------------------

  /** The application starts dark, at the default zoom, without the dialog. */
  lemma DefaultState()
    ensures Valid(Default())
    ensures ThemeOf(Default()) == Dark
    ensures Default().scaleFactor == ZOOM_DEFAULT
    ensures !Default().showExitDialog
    ensures View(Default()).ModeSelector?
  {
  }

  // ---------------------------------------------------------------------
  // Zoom
  // ---------------------------------------------------------------------

  /** Zooming in adds exactly one step and touches nothing else. */
  lemma ZoomInAddsStep(s: State)
    ensures ZoomIn(s).scaleFactor == s.scaleFactor + ZOOM_DELTA
    ensures ZoomIn(s).darkMode == s.darkMode && ZoomIn(s).showExitDialog == s.showExitDialog
  {
  }

  /** Zooming out never leaves the scale below one step, whatever it was
      before; above the floor it removes exactly one step. */
  lemma ZoomOutFloor(s: State)
    ensures ZoomOut(s).scaleFactor >= ZOOM_DELTA
    ensures s.scaleFactor >= 2 * ZOOM_DELTA ==> ZoomOut(s).scaleFactor == s.scaleFactor - ZOOM_DELTA
    ensures s.scaleFactor < 2 * ZOOM_DELTA ==> ZoomOut(s).scaleFactor == ZOOM_DELTA
    ensures ZoomOut(s).darkMode == s.darkMode && ZoomOut(s).showExitDialog == s.showExitDialog
  {
  }

  /** Zooming out undoes zooming in on every state at or above the floor. */
  lemma ZoomOutUndoesZoomIn(s: State)
    requires s.scaleFactor >= ZOOM_DELTA
    ensures ZoomOut(ZoomIn(s)) == s
  {
  }

  /** Zooming in undoes zooming out exactly when zooming out was not
      stopped by the floor. */
  lemma ZoomInUndoesZoomOut(s: State)
    ensures ZoomIn(ZoomOut(s)) == s <==> s.scaleFactor >= 2 * ZOOM_DELTA
  {
  }

  /** Resetting the zoom yields the default scale, is idempotent and leaves
      the other fields alone. */
  lemma ZoomResetIdempotent(s: State)
    ensures ZoomReset(s).scaleFactor == ZOOM_DEFAULT
    ensures ZoomReset(ZoomReset(s)) == ZoomReset(s)
    ensures ZoomReset(s).darkMode == s.darkMode && ZoomReset(s).showExitDialog == s.showExitDialog
  {
  }

  /** `n` copies of one message. */
  function Repeat(m: Message, n: nat): (ms: seq<Message>)
    ensures |ms| == n
  {
    if n == 0 then [] else [m] + Repeat(m, n - 1)
  }

  /** Any number of Ctrl+= presses add that many steps. */
  lemma {:induction false} RepeatedZoomIn(s: State, n: nat)
    ensures Run(s, Repeat(Press(CTRL_EQUALS), n)) == s.(scaleFactor := s.scaleFactor + n * ZOOM_DELTA)
    decreases n
  {
    if n > 0 {
      var ms := Repeat(Press(CTRL_EQUALS), n);
      assert ms[1..] == Repeat(Press(CTRL_EQUALS), n - 1);
      RepeatedZoomIn(ZoomIn(s), n - 1);
    }
  }

  /** Any number of Ctrl+- presses remove that many steps, but the scale
      stops at one step. */
  lemma {:induction false} RepeatedZoomOut(s: State, n: nat)
    ensures Run(s, Repeat(Press(CTRL_MINUS), n)) == s.(scaleFactor := Max(s.scaleFactor - n * ZOOM_DELTA, if n == 0 then s.scaleFactor else ZOOM_DELTA))
    decreases n
  {
    if n > 0 {
      var ms := Repeat(Press(CTRL_MINUS), n);
      assert ms[1..] == Repeat(Press(CTRL_MINUS), n - 1);
      RepeatedZoomOut(ZoomOut(s), n - 1);
    }
  }

  // ---------------------------------------------------------------------
  // Key bindings
  // ---------------------------------------------------------------------

  /** Alt+Enter only asks the host for the window mode, to come back as
      ToggleFullScreen; the state is unchanged. */
  lemma AltEnterFetchesMode(s: State)
    ensures Step(s, Press(ALT_ENTER)) == Outcome(s, FetchMode(ToggleFullScreenWith))
  {
  }

  /** Ctrl+-, Ctrl+= and Ctrl+0 change the zoom and nothing else, and emit nothing. */
  lemma ZoomKeys(s: State)
    ensures Step(s, Press(CTRL_MINUS)) == Outcome(ZoomOut(s), NoCommand)
    ensures Step(s, Press(CTRL_EQUALS)) == Outcome(ZoomIn(s), NoCommand)
    ensures Step(s, Press(CTRL_0)) == Outcome(ZoomReset(s), NoCommand)
  {
  }

  /** A key event that is not one of the four bindings changes nothing and emits nothing. */
  lemma UnboundKeyIsIgnored(s: State, e: KeyboardEvent)
    requires !IsShortcut(e)
    ensures Step(s, Press(e)) == Outcome(s, NoCommand)
  {
  }

  /** Matching is exact on the modifier set: Ctrl+Shift+- and Alt+Ctrl+Enter
      are not bindings, and a released key is not a press. */
  lemma ModifiersMatchExactly(s: State)
    ensures Step(s, Press(KeyPressed(Minus, Modifiers(true, true, false, false)))) == Outcome(s, NoCommand)
    ensures Step(s, Press(KeyPressed(Enter, Modifiers(false, true, true, false)))) == Outcome(s, NoCommand)
    ensures Step(s, Press(KeyReleased(Key0, CTRL))) == Outcome(s, NoCommand)
  {
    UnboundKeyIsIgnored(s, KeyPressed(Minus, Modifiers(true, true, false, false)));
    UnboundKeyIsIgnored(s, KeyPressed(Enter, Modifiers(false, true, true, false)));
  }

  /** Mouse and touch events are ignored. */
  lemma OtherEventsIgnored(s: State)
    ensures Step(s, AppEvent(Mouse)) == Outcome(s, NoCommand)
    ensures Step(s, AppEvent(Touch)) == Outcome(s, NoCommand)
  {
  }

  // ---------------------------------------------------------------------
  // Theme
  // ---------------------------------------------------------------------

  /** ToggleDarkMode(v) chooses the theme: afterwards the theme is Dark
      exactly when v holds; no command is emitted and nothing else changes. */
  lemma ToggleDarkModeSetsTheme(s: State, v: bool)
    ensures Step(s, ToggleDarkMode(v)).command == NoCommand
    ensures Step(s, ToggleDarkMode(v)).state.darkMode.Some?
    ensures ThemeOf(Step(s, ToggleDarkMode(v)).state) == Dark <==> v
    ensures Step(s, ToggleDarkMode(v)).state.scaleFactor == s.scaleFactor
    ensures Step(s, ToggleDarkMode(v)).state.showExitDialog == s.showExitDialog
  {
  }

  // ---------------------------------------------------------------------
  // Fullscreen
  // ---------------------------------------------------------------------

  /** ToggleFullScreen(m) asks for Windowed when m is Fullscreen and for
      Fullscreen otherwise; the state is unchanged. */
  lemma ToggleFullScreenRequestsOtherMode(s: State, m: Mode)
    ensures Step(s, ToggleFullScreen(m)).state == s
    ensures Step(s, ToggleFullScreen(m)).command.ChangeMode?
    ensures Step(s, ToggleFullScreen(m)).command.mode == Windowed <==> m == Fullscreen
    ensures Step(s, ToggleFullScreen(m)).command.mode == Fullscreen <==> m != Fullscreen
  {
  }

  /** The two-step protocol: Alt+Enter fetches the mode, and feeding the
      reported mode back through the handler requests the other mode of the
      pair windowed/fullscreen. Two such toggles return to where they started. */
  lemma FullScreenRoundTrip(s: State, reported: Mode)
    requires reported != Hidden
    ensures Step(s, Press(ALT_ENTER)).command.FetchMode?
    ensures var h := Step(s, Press(ALT_ENTER)).command.handler;
            var o := Step(s, h.Apply(reported));
            o.state == s && o.command.ChangeMode? && o.command.mode != reported &&
            Step(s, h.Apply(o.command.mode)).command == ChangeMode(reported)
  {
  }

  // ---------------------------------------------------------------------
  // Exit dialog
  // ---------------------------------------------------------------------

  /** A close request only raises the dialog; it never closes the window.
      Any other window event is ignored. */
  lemma CloseRequestOpensDialog(s: State, e: WindowEvent)
    ensures Step(s, AppEvent(Window(e))).command == NoCommand
    ensures e == CloseRequested ==> Step(s, AppEvent(Window(e))).state == s.(showExitDialog := true)
    ensures e != CloseRequested ==> Step(s, AppEvent(Window(e))).state == s
  {
  }

  /** Confirming closes the window and changes no field; cancelling hides the
      dialog and emits nothing. */
  lemma ConfirmExitProtocol(s: State)
    ensures Step(s, ConfirmExit(true)) == Outcome(s, CloseWindow)
    ensures Step(s, ConfirmExit(false)) == Outcome(s.(showExitDialog := false), NoCommand)
  {
  }

  /** The window is closed by ConfirmExit(true) and by no other message.
      A named corollary of Step's contract. */
  lemma CloseOnlyOnConfirm(s: State, m: Message)
    ensures Step(s, m).command == CloseWindow <==> m == ConfirmExit(true)
  {
  }

  /** The dialog flag is raised only by a close request and lowered only by
      ConfirmExit(false); every other message leaves it as it was. */
  lemma DialogFlagProtocol(s: State, m: Message)
    ensures Step(s, m).state.showExitDialog != s.showExitDialog ==>
              (m == AppEvent(Window(CloseRequested)) && !s.showExitDialog) ||
              (m == ConfirmExit(false) && s.showExitDialog)
    ensures m == AppEvent(Window(CloseRequested)) ==> Step(s, m).state.showExitDialog
    ensures m == ConfirmExit(false) ==> !Step(s, m).state.showExitDialog
  {
  }

  /** The view shows the dialog exactly while the flag is raised; its buttons
      send the messages that close the window or lower the flag, and the radio
      buttons send the messages that select each theme. */
  lemma ViewFollowsDialogFlag(s: State)
    ensures View(s).ExitDialog? <==> s.showExitDialog
    ensures View(s).ExitDialog? ==>
              Step(s, View(s).confirm).command == CloseWindow &&
              !View(Step(s, View(s).cancel).state).ExitDialog?
    ensures View(s).ModeSelector? ==>
              View(s).selected == s.darkMode &&
              ThemeOf(Step(s, View(s).light).state) == Light &&
              ThemeOf(Step(s, View(s).dark).state) == Dark
  {
  }

  // ---------------------------------------------------------------------
  // The invariant over every history
  // ---------------------------------------------------------------------

  /** One update keeps a theme chosen and the scale at or above one step.
      A named corollary of Step's contract, used by RunKeepsValid. */
  lemma StepKeepsValid(s: State, m: Message)
    requires Valid(s)
    ensures Valid(Step(s, m).state)
  {
  }

  /** Consuming a history message by message is consuming its parts in turn. */
  lemma {:induction false} RunAppend(s: State, a: seq<Message>, b: seq<Message>)
    ensures Run(s, a + b) == Run(Run(s, a), b)
    ensures Commands(s, a + b) == Commands(s, a) + Commands(Run(s, a), b)
    decreases |a|
  {
    if a == [] {
      assert a + b == b;
    } else {
      var s' := Step(s, a[0]).state;
      assert (a + b)[0] == a[0];
      assert (a + b)[1..] == a[1..] + b;
      RunAppend(s', a[1..], b);
      assert Run(s, a + b) == Run(s', a[1..] + b);
      assert Commands(s, a + b) == [Step(s, a[0]).command] + Commands(s', a[1..] + b);
    }
  }

  /** Every history keeps the invariant. */
  lemma {:induction false} RunKeepsValid(s: State, ms: seq<Message>)
    requires Valid(s)
    ensures Valid(Run(s, ms))
    decreases |ms|
  {
    if ms != [] {
      StepKeepsValid(s, ms[0]);
      RunKeepsValid(Step(s, ms[0]).state, ms[1..]);
    }
  }

  /** From the initial state, whatever happens, the theme can be resolved
      (the source's unreachable branch is never taken) and the scale never
      drops below one step. */
  lemma ThemeAlwaysResolves(ms: seq<Message>)
    ensures Run(Default(), ms).darkMode.Some?
    ensures Run(Default(), ms).scaleFactor >= ZOOM_DELTA
  {
    DefaultState();
    RunKeepsValid(Default(), ms);
  }

  /** Ctrl+0 after any history gives exactly the default scale and leaves
      the theme and the dialog flag as that history left them. */
  lemma ResetAfterAnyHistory(s: State, ms: seq<Message>)
    ensures Run(s, ms + [Press(CTRL_0)]).scaleFactor == ZOOM_DEFAULT
    ensures Run(s, ms + [Press(CTRL_0)]).darkMode == Run(s, ms).darkMode
    ensures Run(s, ms + [Press(CTRL_0)]).showExitDialog == Run(s, ms).showExitDialog
  {
    RunAppend(s, ms, [Press(CTRL_0)]);
  }

  // ---------------------------------------------------------------------
  // Scenarios
  // ---------------------------------------------------------------------

  /** Ctrl+=, Ctrl+=, Ctrl+- from the initial state: 1.0 + 0.1 + 0.1 - 0.1 = 1.1. */
  lemma ZoomScenario()
    ensures Run(Default(), [Press(CTRL_EQUALS), Press(CTRL_EQUALS), Press(CTRL_MINUS)]).scaleFactor == 11
  {
    var ms := [Press(CTRL_EQUALS), Press(CTRL_EQUALS), Press(CTRL_MINUS)];
    var s0 := Default();
    var s1 := ZoomIn(s0);
    var s2 := ZoomIn(s1);
    var s3 := ZoomOut(s2);
    assert Run(s2, ms[2..]) == Run(s3, []) by { assert ms[2..][1..] == []; }
    assert Run(s1, ms[1..]) == Run(s2, ms[2..]) by { assert ms[1..][1..] == ms[2..]; }
    assert Run(s0, ms) == Run(s1, ms[1..]);
  }

  /** Close request, cancel, close request, confirm: only the last message
      emits a command, and it is the close; the dialog flag is raised again
      by the second request and stays raised. */
  lemma ExitScenario()
    ensures var ms := [AppEvent(Window(CloseRequested)), ConfirmExit(false),
                       AppEvent(Window(CloseRequested)), ConfirmExit(true)];
            Commands(Default(), ms) == [NoCommand, NoCommand, NoCommand, CloseWindow] &&
            Run(Default(), ms).showExitDialog &&
            !Run(Default(), ms[..2]).showExitDialog
  {
    var ms := [AppEvent(Window(CloseRequested)), ConfirmExit(false),
               AppEvent(Window(CloseRequested)), ConfirmExit(true)];
    var s0 := Default();
    var s1 := s0.(showExitDialog := true);
    var s2 := s0;
    var s3 := s1;
    assert Run(s3, ms[3..]) == s3 && Commands(s3, ms[3..]) == [CloseWindow] by { assert ms[3..][1..] == []; }
    assert Run(s2, ms[2..]) == Run(s3, ms[3..]) && Commands(s2, ms[2..]) == [NoCommand] + Commands(s3, ms[3..])
      by { assert ms[2..][1..] == ms[3..]; }
    assert Run(s1, ms[1..]) == Run(s2, ms[2..]) && Commands(s1, ms[1..]) == [NoCommand] + Commands(s2, ms[2..])
      by { assert ms[1..][1..] == ms[2..]; }
    var firstTwo := ms[..2];
    assert firstTwo == [AppEvent(Window(CloseRequested)), ConfirmExit(false)];
    assert Run(s1, firstTwo[1..]) == Run(s2, []) by { assert firstTwo[1..][1..] == []; }
  }
}
