// The auto-mode sample controller. The recognizer keeps its default EPD type
// Auto, so the server ends a run by itself when the speaker falls silent. A
// tap starts a run when the recognizer is idle and stops it when it is
// running. While a run is connecting the button is disabled, and the SDK's
// Ready, Inactive and Error callbacks (or a cancel on language change)
// enable it again.
//
// Session and Step are the specification of the controller; every handler of
// the class is proved to change the controller exactly as Step says.

module AutoModeSample {

  import opened NskTypes
  import opened NskRecognizer
  import opened Common
  import opened RecognitionUi

  /** Everything that can happen to the controller. */
  datatype Event =
    | Tapped
    | Delegate(callback: Callback)
    | RowSelected(row: int)

  /** An event with the recognizer's isRunning at the moment it is handled. */
  datatype Input = Input(event: Event, running: bool)

  /** The controller's visible state, the selected language and the commands sent so far. */
  datatype Session = Session(display: Display, selection: LanguageCode, sent: seq<Command>)

  /** Question detection on; the EPD type keeps its default, Auto. */
  function AutoConfiguration(clientId: string): Configuration
  {
    NewConfiguration(clientId).(questionDetected := true)
  }

  /**
   * The effect of handling `e` when the recognizer's isRunning is `running`.
   * Each event appends at most one command, and only a tap or a language
   * change while running sends one.
   */
  function Step(s: Session, running: bool, e: Event): (r: Session)
    ensures |s.sent| <= |r.sent| <= |s.sent| + 1 && r.sent[..|s.sent|] == s.sent
    ensures r.sent != s.sent ==> e == Tapped || (e.RowSelected? && running)
    ensures r.selection != s.selection ==> e.RowSelected?
  {
    match e
    case Tapped =>
      if running then s.(sent := s.sent + [Stop])
      else s.(sent := s.sent + [Start(s.selection)],
              display := s.display.(enabled := false, status := "Connecting......"))
    case Delegate(callback) => OnCallback(s, callback)
    case RowSelected(row) =>
      var chosen := s.(selection := Selecting(s.selection, row));
      if running then chosen.(sent := chosen.sent + [Cancel], display := AfterCancel(chosen.display))
      else chosen
  }

  /** The controller implements no handler for the EPD-type callback, which only a hybrid recognizer fires. */
  function OnCallback(s: Session, callback: Callback): (r: Session)
    ensures r.sent == s.sent && r.selection == s.selection
    ensures callback.EpdTypeSelected? ==> r == s
  {
    match callback
    case Ready =>
      s.(display := s.display.(status := "Connected", result := "Recognizing......",
                               title := "Stop", color := Red, enabled := true))
    case EndPointDetected => s
    case Inactive => s.(display := AfterInactive(s.display))
    case SpeechDataRecorded => s
    case EpdTypeSelected(_) => s
    case PartialResult(text) => s.(display := AfterPartialResult(s.display, text))
    case FinalResult(r) => s.(display := AfterFinalResult(s.display, r))
    case Error => s.(display := AfterError(s.display))
  }

  /**
   * A disabled button delivers no tap; every other input reaches its handler.
   * So while the button is disabled no start can be sent, only a cancel.
   */
  function Deliver(s: Session, input: Input): (r: Session)
    ensures |s.sent| <= |r.sent| <= |s.sent| + 1 && r.sent[..|s.sent|] == s.sent
    ensures !s.display.enabled ==> OnlyCancels(r.sent[|s.sent|..])
  {
    if input.event == Tapped && !s.display.enabled then s else Step(s, input.running, input.event)
  }

  /** The controller after `inputs` in order. */
  function Run(s: Session, inputs: seq<Input>): Session
    decreases |inputs|
  {
    if inputs == [] then s else Run(Deliver(s, inputs[0]), inputs[1..])
  }

  class AutoViewController {
    const recognizer: Recognizer
    const languages: Languages
    var buttonTitle: string
    var buttonColor: Color
    var buttonEnabled: bool
    var statusText: string
    var resultText: string

    function Snapshot(): Session
      reads this, recognizer, languages
    {
      Session(Display(buttonTitle, buttonColor, buttonEnabled, statusText, resultText),
              languages.selected, recognizer.sent)
    }

    /** `storyboard` is the display as the interface file lays it out. */
    constructor (clientId: string, storyboard: Display)
      ensures fresh(recognizer) && fresh(languages)
      ensures recognizer.config == AutoConfiguration(clientId) && !recognizer.running
      ensures Snapshot() == Session(storyboard, Korean, [])
    {
      recognizer := new Recognizer(AutoConfiguration(clientId));
      languages := new Languages();
      buttonTitle := storyboard.title;
      buttonColor := storyboard.color;
      buttonEnabled := storyboard.enabled;
      statusText := storyboard.status;
      resultText := storyboard.result;
    }

    method SetRecognitionButtonTitle(text: string, color: Color)
      modifies this`buttonTitle, this`buttonColor
      ensures buttonTitle == text && buttonColor == color
    {
      buttonTitle := text;
      buttonColor := color;
    }

    /** The button's action; a disabled button does not deliver it. */
    method RecognitionButtonTapped()
      requires buttonEnabled
      modifies this, recognizer`sent
      ensures Snapshot() == Step(old(Snapshot()), recognizer.running, Tapped)
    {
      if recognizer.running {
        recognizer.Stop();
      } else {
        recognizer.Start(languages.SelectedLanguage());
        buttonEnabled := false;
        statusText := "Connecting......";
      }
    }

    method RecognizerDidEnterReady()
      modifies this
      ensures Snapshot() == Step(old(Snapshot()), recognizer.running, Delegate(Ready))
    {
      statusText := "Connected";
      resultText := "Recognizing......";
      SetRecognitionButtonTitle("Stop", Red);
      buttonEnabled := true;
    }

    method RecognizerDidEnterInactive()
      modifies this
      ensures Snapshot() == Step(old(Snapshot()), recognizer.running, Delegate(Inactive))
    {
      SetRecognitionButtonTitle("Record", Blue);
      buttonEnabled := true;
      statusText := "";
    }

    method DidReceivePartialResult(text: string)
      modifies this
      ensures Snapshot() == Step(old(Snapshot()), recognizer.running, Delegate(PartialResult(text)))
    {
      resultText := text;
    }

    method DidReceiveError()
      modifies this
      ensures Snapshot() == Step(old(Snapshot()), recognizer.running, Delegate(Error))
    {
      SetRecognitionButtonTitle("Record", Blue);
      buttonEnabled := true;
    }

    method DidReceiveResult(result: RecognizedResult)
      modifies this
      ensures Snapshot() == Step(old(Snapshot()), recognizer.running, Delegate(FinalResult(result)))
    {
      if |result.results| > 0 {
        resultText := "Result: " + result.results[0];
      }
    }

    method DidSelectRow(row: int)
      modifies this, recognizer`sent, languages
      ensures Snapshot() == Step(old(Snapshot()), recognizer.running, RowSelected(row))
    {
      languages.SelectLanguage(row);
      if recognizer.running {
        recognizer.Cancel();
        resultText := "Canceled";
        SetRecognitionButtonTitle("Record", Blue);
        buttonEnabled := true;
      }
    }
  }

  // ------------------------------------------------------ single events

  /** A tap while running sends only a stop and leaves the display alone. */
  lemma TapWhenRunningStops(s: Session)
    ensures Step(s, true, Tapped) == s.(sent := s.sent + [Stop])
  {
  }

  /** A tap while idle starts once in the selected language and disables the button. */
  lemma TapWhenIdleStarts(s: Session)
    ensures var t := Step(s, false, Tapped);
      && t.sent == s.sent + [Start(s.selection)]
      && !t.display.enabled && t.display.status == "Connecting......"
      && t.display.title == s.display.title && t.display.result == s.display.result
  {
  }

  /** Ready: connected, recognizing, button "Stop" in red and enabled. */
  lemma ReadyShowsStop(s: Session, running: bool)
    ensures var t := Step(s, running, Delegate(Ready));
      && t.display == Display("Stop", Red, true, "Connected", "Recognizing......")
      && t.sent == s.sent
  {
  }

  /** Inactive, Error and a cancel on language change all leave the button enabled. */
  lemma TerminalEventsEnable(s: Session, running: bool, row: int)
    ensures var t := Step(s, running, Delegate(Inactive));
      ShowsRecord(t.display) && t.display.status == "" && t.sent == s.sent
    ensures var t := Step(s, running, Delegate(Error));
      ShowsRecord(t.display) && t.display.status == s.display.status && t.sent == s.sent
    ensures var t := Step(s, true, RowSelected(row));
      && ShowsRecord(t.display) && t.display.result == "Canceled"
      && t.sent == s.sent + [Cancel] && t.selection == Selecting(s.selection, row)
  {
    TerminalShowsRecord(s.display);
  }

  /** A partial result replaces the result text; a final one shows its first candidate, if any. */
  lemma ResultsShown(s: Session, running: bool, text: string, r: RecognizedResult)
    ensures Step(s, running, Delegate(PartialResult(text))).display == s.display.(result := text)
    ensures var t := Step(s, running, Delegate(FinalResult(r)));
      && (|r.results| > 0 ==> t.display == s.display.(result := "Result: " + r.results[0]))
      && (|r.results| == 0 ==> t == s)
  {
  }

  /** A language change while idle changes only the selection. */
  lemma RowSelectedWhenIdle(s: Session, row: int)
    ensures Step(s, false, RowSelected(row)) == s.(selection := Selecting(s.selection, row))
  {
  }

  // ------------------------------------------------------ event sequences

  /** The button is disabled only while the last command sent is a start. */
  predicate DisabledOnlyWhileStarting(s: Session)
  {
    !s.display.enabled ==> |s.sent| > 0 && s.sent[|s.sent| - 1].Start?
  }

  lemma DeliverKeepsInvariant(s: Session, input: Input)
    requires DisabledOnlyWhileStarting(s)
    ensures DisabledOnlyWhileStarting(Deliver(s, input))
  {
    TerminalShowsRecord(s.display);
  }

  lemma {:induction false} RunKeepsInvariant(s: Session, inputs: seq<Input>)
    requires DisabledOnlyWhileStarting(s)
    ensures DisabledOnlyWhileStarting(Run(s, inputs))
    decreases |inputs|
  {
    if inputs != [] {
      DeliverKeepsInvariant(s, inputs[0]);
      RunKeepsInvariant(Deliver(s, inputs[0]), inputs[1..]);
    }
  }

  /**
   * A new controller whose interface file shows the button enabled satisfies
   * the invariant, and so does every state it reaches.
   */
  lemma NewControllerKeepsInvariant(storyboard: Display, inputs: seq<Input>)
    requires storyboard.enabled
    ensures DisabledOnlyWhileStarting(Run(Session(storyboard, Korean, []), inputs))
  {
    RunKeepsInvariant(Session(storyboard, Korean, []), inputs);
  }

  /** Ready, Inactive, Error and a cancel re-enable the button. */
  predicate Enables(input: Input)
  {
    || input.event == Delegate(Ready)
    || input.event == Delegate(Inactive)
    || input.event == Delegate(Error)
    || (input.event.RowSelected? && input.running)
  }

  /**
   * While the button is disabled, nothing but an enabling event changes the
   * commands or the button: in particular no second start is sent.
   */
  lemma {:induction false} DisabledIgnoresTaps(s: Session, inputs: seq<Input>)
    requires !s.display.enabled
    requires forall i :: 0 <= i < |inputs| ==> !Enables(inputs[i])
    ensures Run(s, inputs).sent == s.sent && !Run(s, inputs).display.enabled
    decreases |inputs|
  {
    if inputs != [] {
      DisabledIgnoresTaps(Deliver(s, inputs[0]), inputs[1..]);
    }
  }

  /**
   * A tap on an idle recognizer disables the button until an enabling event:
   * the start is the last command sent until then.
   */
  lemma TapBlocksFurtherStarts(s: Session, inputs: seq<Input>)
    requires s.display.enabled
    requires forall i :: 0 <= i < |inputs| ==> !Enables(inputs[i])
    ensures var t := Run(s, [Input(Tapped, false)] + inputs);
      t.sent == s.sent + [Start(s.selection)] && !t.display.enabled
  {
    var tap := [Input(Tapped, false)] + inputs;
    assert tap[0] == Input(Tapped, false) && tap[1..] == inputs;
    DisabledIgnoresTaps(Step(s, false, Tapped), inputs);
  }

  /**
   * A tap on an idle recognizer whose run fails before Ready: one start, then
   * the button is back to "Record" and enabled, and no transcript is shown.
   */
  lemma ErrorBeforeReadyResets(s: Session)
    requires s.display.enabled
    ensures var t := Run(s, [Input(Tapped, false), Input(Delegate(Error), false)]);
      && t.sent == s.sent + [Start(s.selection)]
      && ShowsRecord(t.display)
      && t.display.result == s.display.result
      && t.display.status == "Connecting......"
  {
    var inputs := [Input(Tapped, false), Input(Delegate(Error), false)];
    var s1 := Step(s, false, Tapped);
    assert inputs[1..] == [Input(Delegate(Error), false)] && inputs[1..][1..] == [];
    assert Run(s, inputs) == Run(s1, inputs[1..]);
    assert Run(s1, inputs[1..]) == Step(s1, false, Delegate(Error));
  }
}
