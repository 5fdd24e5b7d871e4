// The hybrid-mode sample controller. The recognizer is configured with EPD
// type Hybrid, and the server decides per utterance whether the end point is
// detected automatically or by the client. The controller keeps its own guess
// of that decision in `epdType`: a press on an idle recognizer sets it to
// Hybrid (undecided), the
// server's EPD-type callback overrides it, and the release of the press acts
// on it. A release while still undecided was a short tap, and asks the server
// for automatic detection. A release after the server chose Manual was a long
// press, and stops the run.
//
// Session and Step are the specification of the controller; every handler of
// the class is proved to change the controller exactly as Step says.

module HybridModeSample {

  import opened NskTypes
  import opened NskRecognizer
  import opened Common
  import opened RecognitionUi
  import opened PressGesture

  /** The controller's visible state, its EPD guess, the selected language and the commands sent so far. */
  datatype Session = Session(display: Display, epdType: EpdType, selection: LanguageCode, sent: seq<Command>)

  /** Question detection on, EPD type Hybrid. */
  function HybridConfiguration(clientId: string): Configuration
  {
    NewConfiguration(clientId).(questionDetected := true, epdType := Hybrid)
  }

  /**
   * The effect of handling `e` when the recognizer's isRunning is `running`.
   * Each event appends at most one command; only a press, a release or a
   * language change while running sends one; only a press on an idle
   * recognizer or the server's decision changes the guess.
   */
  function Step(s: Session, running: bool, e: Event): (r: Session)
    ensures |s.sent| <= |r.sent| <= |s.sent| + 1 && r.sent[..|s.sent|] == s.sent
    ensures r.sent != s.sent ==> PressOrRelease(e) || (e.RowSelected? && running)
    ensures r.selection != s.selection ==> e.RowSelected?
    ensures r.epdType != s.epdType ==>
              (e == Pressed(Began) && !running) || (e.Delegate? && e.callback.EpdTypeSelected?)
  {
    match e
    case Pressed(Began) =>
      if !running then
        s.(epdType := Hybrid, sent := s.sent + [Start(s.selection)],
           display := s.display.(status := "Connecting........"))
      else if s.epdType == Auto then
        s.(sent := s.sent + [Stop])
      else
        s
    case Pressed(Ended) =>
      if s.epdType == Hybrid then
        s.(sent := s.sent + [SetEpdType(Auto)])
      else if s.epdType == Manual then
        s.(sent := s.sent + [Stop])
      else
        s
    case Pressed(_) => s
    case Delegate(callback) => OnCallback(s, callback)
    case RowSelected(row) =>
      var chosen := s.(selection := Selecting(s.selection, row));
      if running then chosen.(sent := chosen.sent + [Cancel], display := AfterCancel(chosen.display))
      else chosen
  }

  /** Delegate callbacks send no command and keep the selection; only the EPD decision changes the guess. */
  function OnCallback(s: Session, callback: Callback): (r: Session)
    ensures r.sent == s.sent && r.selection == s.selection
    ensures r.epdType != s.epdType ==> callback.EpdTypeSelected?
  {
    match callback
    case Ready =>
      s.(display := s.display.(status := "Connected", result := "Recognizing......", enabled := true))
    case EndPointDetected => s
    case Inactive => s.(display := AfterInactive(s.display))
    case SpeechDataRecorded => s
    case EpdTypeSelected(raw) =>
      var epd := match EpdFromRaw(raw) case Some(t) => t case None => s.epdType;
      s.(epdType := epd,
         display := s.display.(title := if epd == Manual then "Recognizing" else "Stop", color := Red))
    case PartialResult(text) => s.(display := AfterPartialResult(s.display, text))
    case FinalResult(r) => s.(display := AfterFinalResult(s.display, r))
    case Error => s.(display := AfterError(s.display))
  }

  /** The controller after handling `inputs` in order. */
  function Run(s: Session, inputs: seq<Input>): Session
    decreases |inputs|
  {
    if inputs == [] then s else Run(Step(s, inputs[0].running, inputs[0].event), inputs[1..])
  }

  class HybridViewController {
    const recognizer: Recognizer
    const languages: Languages
    var epdType: EpdType
    var buttonTitle: string
    var buttonColor: Color
    var buttonEnabled: bool
    var statusText: string
    var resultText: string

    ghost predicate Valid()
    {
      recognizer.config.epdType == Hybrid
    }

    function Snapshot(): Session
      reads this, recognizer, languages
    {
      Session(Display(buttonTitle, buttonColor, buttonEnabled, statusText, resultText),
              epdType, languages.selected, recognizer.sent)
    }

    /** `storyboard` is the display as the interface file lays it out. */
    constructor (clientId: string, storyboard: Display)
      ensures Valid() && fresh(recognizer) && fresh(languages)
      ensures recognizer.config == HybridConfiguration(clientId) && !recognizer.running
      ensures Snapshot() == Session(storyboard, NoEpd, Korean, [])
    {
      recognizer := new Recognizer(HybridConfiguration(clientId));
      languages := new Languages();
      epdType := NoEpd;
      buttonTitle := storyboard.title;
      buttonColor := storyboard.color;
      buttonEnabled := storyboard.enabled;
      statusText := storyboard.status;
      resultText := storyboard.result;
    }

    method SetRecognitionButtonTitle(text: string, color: Color)
      modifies this`buttonTitle, this`buttonColor
      ensures buttonTitle == text && buttonColor == color
    {
      buttonTitle := text;
      buttonColor := color;
    }

    method RecognitionButtonPressed(state: PressState)
      requires Valid()
      modifies this, recognizer`sent
      ensures Snapshot() == Step(old(Snapshot()), recognizer.running, Pressed(state))
    {
      if state == Began {
        if recognizer.running == false {
          epdType := Hybrid;
          recognizer.Start(languages.SelectedLanguage());
          statusText := "Connecting........";
        } else if epdType == Auto {
          recognizer.Stop();
        }
      } else if state == Ended {
        if epdType == Hybrid {
          recognizer.SetEpdType(Auto);
        } else if epdType == Manual {
          recognizer.Stop();
        }
      }
    }

    method RecognizerDidEnterReady()
      modifies this
      ensures Snapshot() == Step(old(Snapshot()), recognizer.running, Delegate(Ready))
    {
      statusText := "Connected";
      resultText := "Recognizing......";
      buttonEnabled := true;
    }

    method RecognizerDidEnterInactive()
      modifies this
      ensures Snapshot() == Step(old(Snapshot()), recognizer.running, Delegate(Inactive))
    {
      SetRecognitionButtonTitle("Record", Blue);
      buttonEnabled := true;
      statusText := "";
    }

    method DidSelectEndPointDetectType(raw: int)
      modifies this
      ensures Snapshot() == Step(old(Snapshot()), recognizer.running, Delegate(EpdTypeSelected(raw)))
    {
      match EpdFromRaw(raw) {
        case Some(t) => epdType := t;
        case None =>
      }
      var title := if epdType == Manual then "Recognizing" else "Stop";
      SetRecognitionButtonTitle(title, Red);
    }

    method DidReceivePartialResult(text: string)
      modifies this
      ensures Snapshot() == Step(old(Snapshot()), recognizer.running, Delegate(PartialResult(text)))
    {
      resultText := text;
    }

    method DidReceiveError()
      modifies this
      ensures Snapshot() == Step(old(Snapshot()), recognizer.running, Delegate(Error))
    {
      SetRecognitionButtonTitle("Record", Blue);
      buttonEnabled := true;
    }

    method DidReceiveResult(result: RecognizedResult)
      modifies this
      ensures Snapshot() == Step(old(Snapshot()), recognizer.running, Delegate(FinalResult(result)))
    {
      if |result.results| > 0 {
        resultText := "Result: " + result.results[0];
      }
    }

    method DidSelectRow(row: int)
      modifies this, recognizer`sent, languages
      ensures Snapshot() == Step(old(Snapshot()), recognizer.running, RowSelected(row))
    {
      languages.SelectLanguage(row);
      if recognizer.running {
        recognizer.Cancel();
        resultText := "Canceled";
        SetRecognitionButtonTitle("Record", Blue);
        buttonEnabled := true;
      }
    }
  }

  // ------------------------------------------------------ single events

  /** A press on an idle recognizer: guess Hybrid, start once in the selected language. */
  lemma PressBeganWhenIdle(s: Session)
    ensures var t := Step(s, false, Pressed(Began));
      && t.epdType == Hybrid
      && t.sent == s.sent + [Start(s.selection)]
      && t.display == s.display.(status := "Connecting........")
      && t.selection == s.selection
  {
  }

  /** A press while running stops exactly when the server chose Auto, and otherwise changes nothing. */
  lemma PressBeganWhenRunning(s: Session)
    ensures var t := Step(s, true, Pressed(Began));
      && (t.sent != s.sent <==> s.epdType == Auto)
      && (s.epdType == Auto ==> t == s.(sent := s.sent + [Stop]))
      && (s.epdType != Auto ==> t == s)
  {
  }

  /** A release never looks at isRunning; it asks for Auto while undecided, stops after Manual, else nothing. */
  lemma PressEnded(s: Session, running: bool)
    ensures Step(s, running, Pressed(Ended)) == Step(s, !running, Pressed(Ended))
    ensures var t := Step(s, running, Pressed(Ended));
      && t.(sent := s.sent) == s
      && (s.epdType == Hybrid ==> t.sent == s.sent + [SetEpdType(Auto)] && Stop !in t.sent[|s.sent|..])
      && (s.epdType == Manual ==> t.sent == s.sent + [Stop])
      && (s.epdType != Hybrid && s.epdType != Manual ==> t == s)
  {
  }

  /** Other gesture states are ignored. */
  lemma PressOtherIgnored(s: Session, running: bool, state: PressState)
    requires state == Changed || state == Cancelled
    ensures Step(s, running, Pressed(state)) == s
  {
  }

  /** The server's EPD decision overrides the guess whenever its raw value is declared. */
  lemma EpdTypeSelectedOverrides(s: Session, running: bool, raw: int)
    ensures var t := Step(s, running, Delegate(EpdTypeSelected(raw)));
      && (EpdFromRaw(raw).Some? ==> t.epdType == EpdFromRaw(raw).value && EpdRaw(t.epdType) == raw)
      && (EpdFromRaw(raw).None? ==> t.epdType == s.epdType)
      && t.display.title == (if t.epdType == Manual then "Recognizing" else "Stop")
      && t.display.color == Red
      && t.display.(title := s.display.title, color := s.display.color) == s.display
      && t.sent == s.sent && t.selection == s.selection
  {
  }

  /** Ready: connected, recognizing, button enabled; the guess is untouched. */
  lemma ReadyShowsRecognizing(s: Session, running: bool)
    ensures var t := Step(s, running, Delegate(Ready));
      && t.display.status == "Connected" && t.display.result == "Recognizing......" && t.display.enabled
      && t.display.title == s.display.title && t.display.color == s.display.color
      && t.epdType == s.epdType && t.sent == s.sent
  {
  }

  /** Inactive and Error reset the button whatever the guess; only Inactive clears the status. */
  lemma TerminalCallbacksReset(s: Session, running: bool)
    ensures var t := Step(s, running, Delegate(Inactive));
      ShowsRecord(t.display) && t.display.status == "" && t.epdType == s.epdType && t.sent == s.sent
    ensures var t := Step(s, running, Delegate(Error));
      ShowsRecord(t.display) && t.display.status == s.display.status && t.epdType == s.epdType && t.sent == s.sent
  {
    TerminalShowsRecord(s.display);
  }

  /** A language change always updates the selection, and cancels exactly when running. */
  lemma RowSelectedCancelsWhenRunning(s: Session, running: bool, row: int)
    ensures var t := Step(s, running, RowSelected(row));
      && t.selection == Selecting(s.selection, row)
      && t.epdType == s.epdType
      && (running ==> t.sent == s.sent + [Cancel] && ShowsRecord(t.display) && t.display.result == "Canceled")
      && (!running ==> t.sent == s.sent && t.display == s.display)
  {
    TerminalShowsRecord(s.display);
  }

  // ------------------------------------------------------ event sequences

  lemma {:induction false} RunAppend(s: Session, a: seq<Input>, b: seq<Input>)
    ensures Run(s, a + b) == Run(Run(s, a), b)
    decreases |a|
  {
    if a == [] {
      assert a + b == b;
    } else {
      assert (a + b)[1..] == a[1..] + b;
      RunAppend(Step(s, a[0].running, a[0].event), a[1..], b);
    }
  }

  /** Neither a press, a release nor a server EPD decision; finger movement (changed) is quiet. */
  predicate Quiet(e: Event)
  {
    !PressOrRelease(e) && !(e.Delegate? && e.callback.EpdTypeSelected?)
  }

  /** Between a press and a release, and without a server decision, the guess stays put and only cancels are sent. */
  lemma {:induction false} QuietRunKeepsGuess(s: Session, mid: seq<Input>)
    requires forall i :: 0 <= i < |mid| ==> Quiet(mid[i].event)
    ensures var t := Run(s, mid);
      && t.epdType == s.epdType
      && |s.sent| <= |t.sent| && t.sent[..|s.sent|] == s.sent
      && OnlyCancels(t.sent[|s.sent|..])
    decreases |mid|
  {
    if mid != [] {
      var s1 := Step(s, mid[0].running, mid[0].event);
      assert s1.epdType == s.epdType && (s1.sent == s.sent || s1.sent == s.sent + [Cancel]);
      QuietRunKeepsGuess(s1, mid[1..]);
      var t := Run(s, mid);
      assert t.sent[|s.sent|..] == t.sent[|s.sent|..|s1.sent|] + t.sent[|s1.sent|..];
    }
  }

  /** Each event sends at most one command, and commands are only ever appended. */
  lemma {:induction false} AtMostOneCommandPerEvent(s: Session, inputs: seq<Input>)
    ensures var t := Run(s, inputs);
      |s.sent| <= |t.sent| <= |s.sent| + |inputs| && t.sent[..|s.sent|] == s.sent
    decreases |inputs|
  {
    if inputs != [] {
      AtMostOneCommandPerEvent(Step(s, inputs[0].running, inputs[0].event), inputs[1..]);
    }
  }

  /** A press on an idle recognizer followed by quiet events: one start, then only cancels; the guess is Hybrid. */
  lemma StartThenQuiet(s: Session, mid: seq<Input>)
    requires forall i :: 0 <= i < |mid| ==> Quiet(mid[i].event)
    ensures var t := Run(s, [Input(Pressed(Began), false)] + mid);
      && t.epdType == Hybrid
      && |t.sent| > |s.sent|
      && t.sent == s.sent + [Start(s.selection)] + t.sent[|s.sent| + 1..]
      && OnlyCancels(t.sent[|s.sent| + 1..])
  {
    var began := [Input(Pressed(Began), false)];
    RunAppend(s, began, mid);
    var s1 := Step(s, false, Pressed(Began));
    assert Run(s, began) == s1;
    QuietRunKeepsGuess(s1, mid);
    var t := Run(s1, mid);
    assert t.sent == s1.sent + t.sent[|s1.sent|..];
  }

  /**
   * A short tap: a press on an idle recognizer, then a release with no server
   * decision in between (the finger may move, which the gesture reports as
   * changed). The commands sent are one start, only cancels, and
   * finally the request for automatic end-point detection: never a stop.
   */
  lemma TapRequestsAutoEpd(s: Session, mid: seq<Input>, running: bool)
    requires forall i :: 0 <= i < |mid| ==> Quiet(mid[i].event)
    ensures var t := Run(s, [Input(Pressed(Began), false)] + mid + [Input(Pressed(Ended), running)]);
      && |t.sent| >= |s.sent| + 2
      && t.sent[..|s.sent|] == s.sent
      && t.sent[|s.sent|] == Start(s.selection)
      && OnlyCancels(t.sent[|s.sent| + 1..|t.sent| - 1])
      && t.sent[|t.sent| - 1] == SetEpdType(Auto)
      && Stop !in t.sent[|s.sent|..]
  {
    var began := [Input(Pressed(Began), false)];
    var ended := [Input(Pressed(Ended), running)];
    RunAppend(s, began + mid, ended);
    StartThenQuiet(s, mid);
    var s2 := Run(s, began + mid);
    var t := Step(s2, running, Pressed(Ended));
    assert Run(s2, ended) == t;
    assert t.sent == s2.sent + [SetEpdType(Auto)];
    assert t.sent[|s.sent| + 1..|t.sent| - 1] == s2.sent[|s.sent| + 1..];
    assert t.sent[|s.sent|..] == [Start(s.selection)] + s2.sent[|s.sent| + 1..] + [SetEpdType(Auto)];
  }

  /**
   * The server's decision Manual, quiet events, then a release: only cancels,
   * and finally a stop.
   */
  lemma ManualDecisionThenRelease(u: Session, decided: bool, mid: seq<Input>, running: bool)
    requires forall i :: 0 <= i < |mid| ==> Quiet(mid[i].event)
    ensures var t := Run(u, [Input(Delegate(EpdTypeSelected(EpdRaw(Manual))), decided)] + mid
                            + [Input(Pressed(Ended), running)]);
      && |t.sent| >= |u.sent| + 1
      && t.sent[..|u.sent|] == u.sent
      && OnlyCancels(t.sent[|u.sent|..|t.sent| - 1])
      && t.sent[|t.sent| - 1] == Stop
  {
    var decision := [Input(Delegate(EpdTypeSelected(EpdRaw(Manual))), decided)];
    var ended := [Input(Pressed(Ended), running)];
    RunAppend(u, decision + mid, ended);
    RunAppend(u, decision, mid);
    var u1 := Step(u, decided, Delegate(EpdTypeSelected(EpdRaw(Manual))));
    assert Run(u, decision) == u1;
    assert u1.epdType == Manual && u1.sent == u.sent;
    QuietRunKeepsGuess(u1, mid);
    var u2 := Run(u1, mid);
    var t := Step(u2, running, Pressed(Ended));
    assert Run(u2, ended) == t;
    assert t.sent == u2.sent + [Stop];
    assert t.sent[|u.sent|..|t.sent| - 1] == u2.sent[|u.sent|..];
  }

  /**
   * A long press: a press on an idle recognizer, the server's decision
   * Manual, then a release with no other decision after it. The commands sent
   * are one start, only cancels, and finally a stop: never a switch to Auto.
   */
  lemma LongPressStops(s: Session, mid1: seq<Input>, decided: bool, mid2: seq<Input>, running: bool)
    requires forall i :: 0 <= i < |mid1| ==> Quiet(mid1[i].event)
    requires forall i :: 0 <= i < |mid2| ==> Quiet(mid2[i].event)
    ensures var t := Run(s, [Input(Pressed(Began), false)] + mid1
                            + [Input(Delegate(EpdTypeSelected(EpdRaw(Manual))), decided)] + mid2
                            + [Input(Pressed(Ended), running)]);
      && |t.sent| >= |s.sent| + 2
      && t.sent[..|s.sent|] == s.sent
      && t.sent[|s.sent|] == Start(s.selection)
      && OnlyCancels(t.sent[|s.sent| + 1..|t.sent| - 1])
      && t.sent[|t.sent| - 1] == Stop
  {
    var u := Run(s, [Input(Pressed(Began), false)] + mid1);
    var t := Run(s, [Input(Pressed(Began), false)] + mid1
                    + [Input(Delegate(EpdTypeSelected(EpdRaw(Manual))), decided)] + mid2
                    + [Input(Pressed(Ended), running)]);
    LongPressSplit(s, mid1, decided, mid2, running);
    StartThenQuiet(s, mid1);
    assert t.sent[..|u.sent|] == u.sent;
    assert t.sent[..|s.sent|] == u.sent[..|s.sent|] == s.sent;
    assert t.sent[|s.sent|] == u.sent[|s.sent|] == Start(s.selection);
    var c1 := u.sent[|s.sent| + 1..];
    var c2 := t.sent[|u.sent|..|t.sent| - 1];
    SliceAcrossPrefix(t.sent, u.sent, |s.sent| + 1, |t.sent| - 1);
    CancelsConcat(c1, c2);
  }

  /** A slice of `whole` that starts inside its prefix `front` and ends after it. */
  lemma SliceAcrossPrefix(whole: seq<Command>, front: seq<Command>, lo: int, hi: int)
    requires 0 <= lo <= |front| <= hi <= |whole| && whole[..|front|] == front
    ensures whole[lo..hi] == front[lo..] + whole[|front|..hi]
  {
  }

  /** The long press split after the quiet events that follow the press. */
  lemma LongPressSplit(s: Session, mid1: seq<Input>, decided: bool, mid2: seq<Input>, running: bool)
    requires forall i :: 0 <= i < |mid2| ==> Quiet(mid2[i].event)
    ensures var t := Run(s, [Input(Pressed(Began), false)] + mid1
                            + [Input(Delegate(EpdTypeSelected(EpdRaw(Manual))), decided)] + mid2
                            + [Input(Pressed(Ended), running)]);
      var u := Run(s, [Input(Pressed(Began), false)] + mid1);
      && |t.sent| >= |u.sent| + 1
      && t.sent[..|u.sent|] == u.sent
      && OnlyCancels(t.sent[|u.sent|..|t.sent| - 1])
      && t.sent[|t.sent| - 1] == Stop
  {
    var front := [Input(Pressed(Began), false)] + mid1;
    var rest := [Input(Delegate(EpdTypeSelected(EpdRaw(Manual))), decided)] + mid2
                + [Input(Pressed(Ended), running)];
    assert front
           + [Input(Delegate(EpdTypeSelected(EpdRaw(Manual))), decided)] + mid2
           + [Input(Pressed(Ended), running)] == front + rest;
    RunAppend(s, front, rest);
    ManualDecisionThenRelease(Run(s, front), decided, mid2, running);
  }

  lemma CancelsConcat(a: seq<Command>, b: seq<Command>)
    requires OnlyCancels(a) && OnlyCancels(b)
    ensures OnlyCancels(a + b)
  {
  }
}
