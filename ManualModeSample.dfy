// The manual-mode sample controller. The recognizer is configured with EPD
// type Manual, so a run ends only when the client stops it. Holding the
// button down starts a run and lifting the finger stops it; neither looks at
// whether the recognizer is running.
//
// Session and Step are the specification of the controller; every handler of
// the class is proved to change the controller exactly as Step says.

module ManualModeSample {

  import opened NskTypes
  import opened NskRecognizer
  import opened Common
  import opened RecognitionUi
  import opened PressGesture

  /** The controller's visible state, the selected language and the commands sent so far. */
  datatype Session = Session(display: Display, selection: LanguageCode, sent: seq<Command>)

  /** Question detection on, EPD type Manual. */
  function ManualConfiguration(clientId: string): Configuration
  {
    NewConfiguration(clientId).(questionDetected := true, epdType := Manual)
  }

  /**
   * The effect of handling `e` when the recognizer's isRunning is `running`.
   * Each event appends at most one command, and only a press, a release or a
   * language change while running sends one.
   */
  function Step(s: Session, running: bool, e: Event): (r: Session)
    ensures |s.sent| <= |r.sent| <= |s.sent| + 1 && r.sent[..|s.sent|] == s.sent
    ensures r.sent != s.sent ==> PressOrRelease(e) || (e.RowSelected? && running)
    ensures r.selection != s.selection ==> e.RowSelected?
  {
    match e
    case Pressed(Began) =>
      s.(sent := s.sent + [Start(s.selection)], display := s.display.(status := "Connecting......."))
    case Pressed(Ended) => s.(sent := s.sent + [Stop])
    case Pressed(_) => s
    case Delegate(callback) => OnCallback(s, callback)
    case RowSelected(row) =>
      var chosen := s.(selection := Selecting(s.selection, row));
      if running then chosen.(sent := chosen.sent + [Cancel], display := AfterCancel(chosen.display))
      else chosen
  }

  /** The controller implements no handler for the EPD-type callback, which only a hybrid recognizer fires. */
  function OnCallback(s: Session, callback: Callback): (r: Session)
    ensures r.sent == s.sent && r.selection == s.selection
    ensures callback.EpdTypeSelected? ==> r == s
  {
    match callback
    case Ready =>
      s.(display := s.display.(status := "Connected", result := "Recognizing......",
                               title := "Recognizing", color := Red, enabled := true))
    case EndPointDetected => s
    case Inactive => s.(display := AfterInactive(s.display))
    case SpeechDataRecorded => s
    case EpdTypeSelected(_) => s
    case PartialResult(text) => s.(display := AfterPartialResult(s.display, text))
    case FinalResult(r) => s.(display := AfterFinalResult(s.display, r))
    case Error => s.(display := AfterError(s.display))
  }

  /** The controller after handling `inputs` in order. */
  function Run(s: Session, inputs: seq<Input>): Session
    decreases |inputs|
  {
    if inputs == [] then s else Run(Step(s, inputs[0].running, inputs[0].event), inputs[1..])
  }

  class ManualViewController {
    const recognizer: Recognizer
    const languages: Languages
    var buttonTitle: string
    var buttonColor: Color
    var buttonEnabled: bool
    var statusText: string
    var resultText: string

    function Snapshot(): Session
      reads this, recognizer, languages
    {
      Session(Display(buttonTitle, buttonColor, buttonEnabled, statusText, resultText),
              languages.selected, recognizer.sent)
    }

    /** `storyboard` is the display as the interface file lays it out. */
    constructor (clientId: string, storyboard: Display)
      ensures fresh(recognizer) && fresh(languages)
      ensures recognizer.config.epdType == Manual && recognizer.config.questionDetected
      ensures recognizer.config == ManualConfiguration(clientId) && !recognizer.running
      ensures Snapshot() == Session(storyboard, Korean, [])
    {
      recognizer := new Recognizer(ManualConfiguration(clientId));
      languages := new Languages();
      buttonTitle := storyboard.title;
      buttonColor := storyboard.color;
      buttonEnabled := storyboard.enabled;
      statusText := storyboard.status;
      resultText := storyboard.result;
    }

    method SetRecognitionButtonTitle(text: string, color: Color)
      modifies this`buttonTitle, this`buttonColor
      ensures buttonTitle == text && buttonColor == color
    {
      buttonTitle := text;
      buttonColor := color;
    }

    method RecognitionButtonPressed(state: PressState)
      modifies this, recognizer`sent
      ensures Snapshot() == Step(old(Snapshot()), recognizer.running, Pressed(state))
    {
      if state == Began {
        recognizer.Start(languages.SelectedLanguage());
        statusText := "Connecting.......";
      } else if state == Ended {
        recognizer.Stop();
      }
    }

    method RecognizerDidEnterReady()
      modifies this
      ensures Snapshot() == Step(old(Snapshot()), recognizer.running, Delegate(Ready))
    {
      statusText := "Connected";
      resultText := "Recognizing......";
      SetRecognitionButtonTitle("Recognizing", Red);
      buttonEnabled := true;
    }

    method RecognizerDidEnterInactive()
      modifies this
      ensures Snapshot() == Step(old(Snapshot()), recognizer.running, Delegate(Inactive))
    {
      SetRecognitionButtonTitle("Record", Blue);
      buttonEnabled := true;
      statusText := "";
    }

    method DidReceivePartialResult(text: string)
      modifies this
      ensures Snapshot() == Step(old(Snapshot()), recognizer.running, Delegate(PartialResult(text)))
    {
      resultText := text;
    }

    method DidReceiveError()
      modifies this
      ensures Snapshot() == Step(old(Snapshot()), recognizer.running, Delegate(Error))
    {
      SetRecognitionButtonTitle("Record", Blue);
      buttonEnabled := true;
    }

    method DidReceiveResult(result: RecognizedResult)
      modifies this
      ensures Snapshot() == Step(old(Snapshot()), recognizer.running, Delegate(FinalResult(result)))
    {
      if |result.results| > 0 {
        resultText := "Result: " + result.results[0];
      }
    }

    method DidSelectRow(row: int)
      modifies this, recognizer`sent, languages
      ensures Snapshot() == Step(old(Snapshot()), recognizer.running, RowSelected(row))
    {
      languages.SelectLanguage(row);
      if recognizer.running {
        recognizer.Cancel();
        resultText := "Canceled";
        SetRecognitionButtonTitle("Record", Blue);
        buttonEnabled := true;
      }
    }
  }

  // ------------------------------------------------------ single events

  /** A press starts in the selected language whether or not the recognizer is running; a release always stops. */
  lemma PressStartsAndReleaseStops(s: Session, running: bool)
    ensures var t := Step(s, running, Pressed(Began));
      && t.sent == s.sent + [Start(s.selection)]
      && t.display == s.display.(status := "Connecting.......")
      && t == Step(s, !running, Pressed(Began))
    ensures var t := Step(s, running, Pressed(Ended));
      t == s.(sent := s.sent + [Stop]) && t == Step(s, !running, Pressed(Ended))
  {
  }

  /** Ready: connected, recognizing, button "Recognizing" in red and enabled. */
  lemma ReadyShowsRecognizing(s: Session, running: bool)
    ensures var t := Step(s, running, Delegate(Ready));
      && t.display == Display("Recognizing", Red, true, "Connected", "Recognizing......")
      && t.sent == s.sent
  {
  }

  /** Inactive clears the status, Error keeps it; both leave the button "Record", blue and enabled. */
  lemma TerminalCallbacksReset(s: Session, running: bool)
    ensures var t := Step(s, running, Delegate(Inactive));
      ShowsRecord(t.display) && t.display.status == "" && t.sent == s.sent
    ensures var t := Step(s, running, Delegate(Error));
      ShowsRecord(t.display) && t.display.status == s.display.status && t.sent == s.sent
  {
    TerminalShowsRecord(s.display);
  }

  /** A language change cancels with the terminal display when running, and only selects otherwise. */
  lemma RowSelectedCancelsWhenRunning(s: Session, running: bool, row: int)
    ensures var t := Step(s, running, RowSelected(row));
      && t.selection == Selecting(s.selection, row)
      && (running ==> t.sent == s.sent + [Cancel] && ShowsRecord(t.display) && t.display.result == "Canceled")
      && (!running ==> t.sent == s.sent && t.display == s.display)
  {
    TerminalShowsRecord(s.display);
  }

  // ------------------------------------------------------ event sequences

  lemma {:induction false} RunAppend(s: Session, a: seq<Input>, b: seq<Input>)
    ensures Run(s, a + b) == Run(Run(s, a), b)
    decreases |a|
  {
    if a == [] {
      assert a + b == b;
    } else {
      assert (a + b)[1..] == a[1..] + b;
      RunAppend(Step(s, a[0].running, a[0].event), a[1..], b);
    }
  }

  /** Without a press or a release, only cancels are sent; finger movement sends nothing. */
  lemma {:induction false} BetweenPressesOnlyCancels(s: Session, mid: seq<Input>)
    requires forall i :: 0 <= i < |mid| ==> !PressOrRelease(mid[i].event)
    ensures var t := Run(s, mid);
      |s.sent| <= |t.sent| && t.sent[..|s.sent|] == s.sent && OnlyCancels(t.sent[|s.sent|..])
    decreases |mid|
  {
    if mid != [] {
      var s1 := Step(s, mid[0].running, mid[0].event);
      assert s1.sent == s.sent || s1.sent == s.sent + [Cancel];
      BetweenPressesOnlyCancels(s1, mid[1..]);
      var t := Run(s, mid);
      assert t.sent[|s.sent|..] == t.sent[|s.sent|..|s1.sent|] + t.sent[|s1.sent|..];
    }
  }

  /**
   * A press and its release, with any finger movement and callbacks in
   * between: one start in the language selected at the press, only cancels,
   * and finally a stop.
   */
  lemma PressAndReleaseBracketRun(s: Session, down: bool, mid: seq<Input>, up: bool)
    requires forall i :: 0 <= i < |mid| ==> !PressOrRelease(mid[i].event)
    ensures var t := Run(s, [Input(Pressed(Began), down)] + mid + [Input(Pressed(Ended), up)]);
      && |t.sent| >= |s.sent| + 2
      && t.sent[..|s.sent|] == s.sent
      && t.sent[|s.sent|] == Start(s.selection)
      && OnlyCancels(t.sent[|s.sent| + 1..|t.sent| - 1])
      && t.sent[|t.sent| - 1] == Stop
  {
    var began := [Input(Pressed(Began), down)];
    var ended := [Input(Pressed(Ended), up)];
    RunAppend(s, began + mid, ended);
    RunAppend(s, began, mid);
    var s1 := Step(s, down, Pressed(Began));
    assert Run(s, began) == s1;
    BetweenPressesOnlyCancels(s1, mid);
    var s2 := Run(s1, mid);
    var t := Step(s2, up, Pressed(Ended));
    assert Run(s2, ended) == t;
    assert t.sent == s2.sent + [Stop];
    assert t.sent[|s.sent| + 1..|t.sent| - 1] == s2.sent[|s1.sent|..];
  }

  /** A language change mid-run cancels it, and the new language is used by the next start. */
  lemma NewLanguageOnNextStart(s: Session, row: int, down: bool)
    ensures Run(s, [Input(RowSelected(row), true), Input(Pressed(Began), down)]).sent
            == s.sent + [Cancel, Start(Selecting(s.selection, row))]
  {
    var inputs := [Input(RowSelected(row), true), Input(Pressed(Began), down)];
    var s1 := Step(s, true, RowSelected(row));
    assert inputs[1..] == [Input(Pressed(Began), down)];
    assert Run(s, inputs) == Run(s1, inputs[1..]);
    assert Run(s1, inputs[1..]) == Step(s1, down, Pressed(Began));
  }

  /**
   * One whole run with the default selection: press, Ready, release,
   * Inactive. Korean is started, then stopped, and the button ends as
   * "Record".
   */
  lemma KoreanRunExample(storyboard: Display)
    ensures var t := Run(Session(storyboard, Korean, []),
                         [Input(Pressed(Began), false), Input(Delegate(Ready), true),
                          Input(Pressed(Ended), true), Input(Delegate(Inactive), false)]);
      && t.sent == [Start(Korean), Stop]
      && ShowsRecord(t.display) && t.display.status == ""
      && t.display.result == "Recognizing......"
  {
    var s0 := Session(storyboard, Korean, []);
    var inputs := [Input(Pressed(Began), false), Input(Delegate(Ready), true),
                   Input(Pressed(Ended), true), Input(Delegate(Inactive), false)];
    var s1 := Step(s0, false, Pressed(Began));
    var s2 := Step(s1, true, Delegate(Ready));
    var s3 := Step(s2, true, Pressed(Ended));
    var s4 := Step(s3, false, Delegate(Inactive));
    assert inputs[1..][1..][1..][1..] == [];
    assert Run(s0, inputs) == s4;
  }
}
