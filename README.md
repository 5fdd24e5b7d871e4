# Recognition-session state machines of the NAVER speech SDK sample apps

This project models the logic of the three iOS sample apps that come with the
NAVER speech-recognition SDK. Each app has one view controller that drives the
SDK recognizer from a button and reacts to its delegate callbacks:

- **Auto mode**. A tap starts a run. The server ends the run when the speaker falls silent, and a tap while running stops it.
- **Manual mode**. Pressing the button starts a run and releasing it stops the run. Neither reads `isRunning`, so a press while an earlier run is still going sends another start; unlike auto mode, nothing blocks a second start.
- **Hybrid mode**. The server decides, for each utterance, between automatic and manual end-point detection (EPD). The controller keeps a guess of that decision in its `epdType` variable. A press on an idle recognizer sets the guess to Hybrid, meaning undecided. The server's EPD-type callback overrides it. The release acts on the guess: while still undecided it asks the server for Auto, and after Manual it stops the run.

All three share the `Languages` table of the `Common` module, which maps a
fixed set of language codes to names and holds one mutable selection. They also
share the enumerations of the SDK's `NSKType.h`, whose integer raw values every
conversion goes through.

Layout, one Dafny module per source file, plus two modules for what the controllers share:

| file | module | models |
|---|---|---|
| NskTypes.dfy | `NskTypes` | `NSKGender`, `NSKRecognizerLanguageCode`, `NSKEPDType` with their raw values |
| NskRecognizer.dfy | `NskRecognizer` | the recognizer as a collaborator: configuration, the four commands, the delegate callbacks, the final-result holder |
| Common.dfy | `Common` | class `Languages` |
| RecognitionUi.dfy | `RecognitionUi` | the visible state (button title, colour, enabled flag, status text, result text) and the display changes all three controllers make alike |
| PressGesture.dfy | `PressGesture` | the long-press gesture states and the events of the two press-driven controllers (manual and hybrid) |
| AutoModeSample.dfy, ManualModeSample.dfy, HybridModeSample.dfy | one each | the three view controllers |

Each view controller is a class whose fields are the UI state. Its `recognizer`
and `languages` objects are constant fields, and the hybrid controller also has
`epdType`. There is one method per handler. The recognizer is an abstract
collaborator. It records in `sent` every command it receives, in order. Its
`running` flag (`isRunning`) belongs to the SDK: the controllers only read it.

Every module of a controller also defines a value `Session` (display, selection,
commands sent, and the hybrid guess) and a transition function `Step`. Every
handler method is proved to change the controller exactly as `Step` says:
`Snapshot() == Step(old(Snapshot()), running, event)`. Lemmas then prove what
the source promises about `Step`, one event at a time. `Run` folds the
handling of each input over a sequence of inputs, and further lemmas prove
properties of whole sequences. In manual and hybrid mode each input is handled
by `Step`. In auto mode it is handled by `Deliver`, which drops a tap on a
disabled button and otherwise applies `Step`.
Each input pairs an event with the value of `isRunning` the handler reads.

The SDK header documents some rules about the order of events. The model
assumes them and does not verify them:

- `cancel` fires no delegate callback. This is why each controller applies the terminal display itself.
- The EPD-type callback fires only for a hybrid configuration. The auto and manual controllers do not implement it, so in their `Step` it changes nothing.
- `setEPDType` works only on a hybrid configuration. This is a precondition of `Recognizer.SetEpdType`. The hybrid controller meets it through its `Valid()` invariant.

The conversions from a raw value (Swift's `init(rawValue:)` on an imported C
enum) are a modelling choice. In Swift that conversion accepts every integer,
including ones the header does not declare. The model has no undeclared codes:
its conversion succeeds exactly on the declared raw values and yields `None`
otherwise, and on `None` the controllers keep what they had. "## Left out"
lists the members this affects. The declared value -1 is converted as in the
code, so `selectLanguage(at: -1)` selects the "no language" code, and the
selected name then falls back to "Korean".

## Model

| member | source | states |
|---|---|---|
| NskTypes.GenderRaw | framework/NaverSpeech.framework/Headers/NSKType.h:24-30 | a gender's raw value is 0 or 1 |
| NskTypes.LanguageRaw | framework/NaverSpeech.framework/Headers/NSKType.h:36-48 | a language code's raw value lies in -1..3, and it is -1 exactly for "no language" |
| NskTypes.EpdRaw | framework/NaverSpeech.framework/Headers/NSKType.h:54-64 | an EPD type's raw value lies in -1..2, and it is -1 exactly for "no EPD type" |
| NskTypes.GenderFromRaw | framework/NaverSpeech.framework/Headers/NSKType.h:24-30 | conversion succeeds exactly on 0 and 1 and is the inverse of the raw value |
| NskTypes.GenderRoundTrip | framework/NaverSpeech.framework/Headers/NSKType.h:24-30 | converting a gender's raw value back gives that gender |
| NskTypes.GenderRawInjective | framework/NaverSpeech.framework/Headers/NSKType.h:24-30 | the two genders have distinct raw values (Male 0, Female 1) |
| NskTypes.LanguageFromRaw | framework/NaverSpeech.framework/Headers/NSKType.h:36-48 | conversion succeeds exactly on -1..3 and is the inverse of the raw value (None -1, Korean 0, Japanese 1, English 2, Simplified Chinese 3) |
| NskTypes.LanguageRoundTrip | framework/NaverSpeech.framework/Headers/NSKType.h:36-48 | converting a language code's raw value back gives that code |
| NskTypes.LanguageRawInjective | framework/NaverSpeech.framework/Headers/NSKType.h:36-48 | distinct language codes have distinct raw values |
| NskTypes.EpdFromRaw | framework/NaverSpeech.framework/Headers/NSKType.h:54-64 | conversion succeeds exactly on -1..2 and is the inverse of the raw value (None -1, Auto 0, Manual 1, Hybrid 2) |
| NskTypes.EpdRoundTrip | framework/NaverSpeech.framework/Headers/NSKType.h:54-64 | converting an EPD type's raw value back gives that type |
| NskTypes.EpdRawInjective | framework/NaverSpeech.framework/Headers/NSKType.h:54-64 | distinct EPD types have distinct raw values |
| NskRecognizer.NewConfiguration | framework/NaverSpeech.framework/Headers/NSKRecognizerConfiguration.h:53-71 | a new configuration keeps the client id and has question detection off and EPD type Auto |
| NskRecognizer.Recognizer.SetRunning | framework/NaverSpeech.framework/Headers/NSKRecognizer.h:45-48 | the SDK's change of isRunning sets the flag and sends no command; the controllers only read it |
| NskRecognizer.Recognizer.constructor | framework/NaverSpeech.framework/Headers/NSKRecognizer.h:46-56 | a new recognizer keeps its configuration, is not running and has received no command |
| NskRecognizer.Recognizer.Start | framework/NaverSpeech.framework/Headers/NSKRecognizer.h:58-67 | records one start in the given language and nothing else changes |
| NskRecognizer.Recognizer.Stop | framework/NaverSpeech.framework/Headers/NSKRecognizer.h:69-76 | records one stop and nothing else changes |
| NskRecognizer.Recognizer.Cancel | framework/NaverSpeech.framework/Headers/NSKRecognizer.h:78-85 | records one cancel and nothing else changes |
| NskRecognizer.Recognizer.SetEpdType | framework/NaverSpeech.framework/Headers/NSKRecognizer.h:87-93 | may be called only on a hybrid configuration; records one EPD-type request |
| Common.Languages.constructor | Common/Languages.swift:23-25 | a new instance selects Korean, whose name is "Korean" |
| Common.Languages.Count | Common/Languages.swift:28-30 | the table has four entries, one per picker row |
| Common.Languages.LanguageString | Common/Languages.swift:41-47 | row 0..3 is titled "Korean", "Japanese", "English", "Simplified Chinese" in that order; any other index gives "Korean" |
| Common.Languages.SelectedLanguage | Common/Languages.swift:37-39 | the code the next start uses; the title of the picker row with its raw value is the selection's name |
| Common.Languages.SelectedLanguageString | Common/Languages.swift:31-36 | the selection's name is one of the four names and equals the title of the row with the selection's raw value ("Korean" for no language) |
| Common.Languages.SelectLanguage | Common/Languages.swift:49-53 | only the selection changes, and only to the code with raw value `index`; after selecting row i in 0..3 the selection has raw value i and its name is row i's title |
| Common.SelectingRow | Common/Languages.swift:49-53 | selecting a picker row 0..3 gives the language with that raw value, never "no language" |
| Common.SelectingUndeclared | Common/Languages.swift:49-53 | an index with no declared code leaves the selection unchanged |
| RecognitionUi.TerminalShowsRecord | AutoModeSample/AutoViewController.swift:118-184 | after Inactive, Error or a cancel the button shows "Record", blue and enabled; Inactive clears the status, Error and cancel keep it; cancel shows "Canceled" |
| HybridModeSample.Step | HybridModeSample/HybridViewController.swift:90-222 | each event appends at most one command and never rewrites the log; only a press, a release or a language change while running sends one; only a language change changes the selection; only an idle press or the server's EPD decision changes the guess |
| HybridModeSample.OnCallback | HybridModeSample/HybridViewController.swift:126-189 | no delegate callback sends a command or changes the selection; only the EPD decision changes the guess |
| HybridModeSample.HybridViewController.constructor | HybridModeSample/HybridViewController.swift:30-42 | the recognizer is configured Hybrid with question detection on; the guess starts as None and the selection as Korean; no command sent |
| HybridModeSample.HybridViewController.SetRecognitionButtonTitle | HybridModeSample/HybridViewController.swift:243-246 | sets the button title and colour and nothing else |
| HybridModeSample.HybridViewController.RecognitionButtonPressed | HybridModeSample/HybridViewController.swift:90-109 | the gesture handler changes the controller and the command log exactly as Step does for the gesture state |
| HybridModeSample.HybridViewController.RecognizerDidEnterReady | HybridModeSample/HybridViewController.swift:128-134 | the Ready handler changes the controller exactly as Step does |
| HybridModeSample.HybridViewController.RecognizerDidEnterInactive | HybridModeSample/HybridViewController.swift:140-146 | the Inactive handler changes the controller exactly as Step does |
| HybridModeSample.HybridViewController.DidSelectEndPointDetectType | HybridModeSample/HybridViewController.swift:158-168 | the EPD-type handler changes the controller exactly as Step does |
| HybridModeSample.HybridViewController.DidReceivePartialResult | HybridModeSample/HybridViewController.swift:170-174 | the partial-result handler changes the controller exactly as Step does |
| HybridModeSample.HybridViewController.DidReceiveError | HybridModeSample/HybridViewController.swift:176-181 | the error handler changes the controller exactly as Step does |
| HybridModeSample.HybridViewController.DidReceiveResult | HybridModeSample/HybridViewController.swift:183-189 | the final-result handler changes the controller exactly as Step does |
| HybridModeSample.HybridViewController.DidSelectRow | HybridModeSample/HybridViewController.swift:207-222 | the picker handler changes selection, commands and display exactly as Step does |
| HybridModeSample.PressBeganWhenIdle | HybridModeSample/HybridViewController.swift:91-95 | a press on an idle recognizer sets the guess to Hybrid, sends exactly one start in the selected language and shows "Connecting........" |
| HybridModeSample.PressBeganWhenRunning | HybridModeSample/HybridViewController.swift:97-100 | a press while running sends a stop iff the guess is Auto; otherwise nothing changes |
| HybridModeSample.PressEnded | HybridModeSample/HybridViewController.swift:102-108 | a release ignores isRunning; with guess Hybrid it requests Auto and sends no stop; with Manual it stops; otherwise nothing; only the command log changes |
| HybridModeSample.PressOtherIgnored | HybridModeSample/HybridViewController.swift:90-109 | gesture states other than began and ended change nothing |
| HybridModeSample.EpdTypeSelectedOverrides | HybridModeSample/HybridViewController.swift:158-165 | a declared raw value becomes the guess (an undeclared one keeps it); the title is "Recognizing" iff the guess is Manual, else "Stop"; the colour is red; nothing else changes |
| HybridModeSample.ReadyShowsRecognizing | HybridModeSample/HybridViewController.swift:128-134 | Ready shows "Connected" and "Recognizing......", enables the button and keeps title, colour and guess |
| HybridModeSample.TerminalCallbacksReset | HybridModeSample/HybridViewController.swift:140-181 | Inactive shows "Record"/blue/enabled and clears the status; Error does the same but keeps the status; neither touches the guess or sends a command |
| HybridModeSample.RowSelectedCancelsWhenRunning | HybridModeSample/HybridViewController.swift:207-222 | the selection always updates; when running exactly one cancel is sent and "Canceled"/"Record"/blue/enabled is shown; when idle no command is sent and the display is unchanged |
| HybridModeSample.QuietRunKeepsGuess | HybridModeSample/HybridViewController.swift:90-222 | events other than a press, a release and an EPD decision (finger movement, other callbacks, language changes) never change the guess and send only cancels |
| HybridModeSample.StartThenQuiet | HybridModeSample/HybridViewController.swift:91-95 | an idle press followed by such events has sent one start, then only cancels, with guess Hybrid |
| HybridModeSample.AtMostOneCommandPerEvent | HybridModeSample/HybridViewController.swift:90-222 | over any input sequence commands are only appended, at most one per event |
| HybridModeSample.TapRequestsAutoEpd | HybridModeSample/HybridViewController.swift:84-109 | a press and release with no server decision between them (finger movement allowed) sends one start, only cancels, then a request for Auto, and never a stop |
| HybridModeSample.ManualDecisionThenRelease | HybridModeSample/HybridViewController.swift:102-165 | the server's decision Manual followed by quiet events and a release sends only cancels and then a stop |
| HybridModeSample.LongPressStops | HybridModeSample/HybridViewController.swift:84-109 | when the server decides Manual between press and release (finger movement allowed), the release ends the command sequence with a stop and no Auto request is sent |
| AutoModeSample.Step | AutoModeSample/AutoViewController.swift:78-185 | each event appends at most one command and never rewrites the log; only a tap or a language change while running sends one; only a language change changes the selection |
| AutoModeSample.OnCallback | AutoModeSample/AutoViewController.swift:105-151 | no delegate callback sends a command or changes the selection; the EPD-type callback, which the controller does not implement, changes nothing |
| AutoModeSample.Deliver | AutoModeSample/AutoViewController.swift:78-87 | at most one command per input; while the button is disabled (from the tap at line 84 until an enabling event) only a cancel can be sent, never a start |
| AutoModeSample.AutoViewController.constructor | AutoModeSample/AutoViewController.swift:32-43 | the recognizer keeps the default EPD type Auto with question detection on; the selection is Korean; no command sent |
| AutoModeSample.AutoViewController.SetRecognitionButtonTitle | AutoModeSample/AutoViewController.swift:199-202 | sets the button title and colour and nothing else |
| AutoModeSample.AutoViewController.RecognitionButtonTapped | AutoModeSample/AutoViewController.swift:78-87 | on an enabled button, the tap handler changes the controller exactly as Step does |
| AutoModeSample.AutoViewController.RecognizerDidEnterReady | AutoModeSample/AutoViewController.swift:105-112 | the Ready handler changes the controller exactly as Step does |
| AutoModeSample.AutoViewController.RecognizerDidEnterInactive | AutoModeSample/AutoViewController.swift:118-125 | the Inactive handler changes the controller exactly as Step does |
| AutoModeSample.AutoViewController.DidReceivePartialResult | AutoModeSample/AutoViewController.swift:132-136 | the partial-result handler changes the controller exactly as Step does |
| AutoModeSample.AutoViewController.DidReceiveError | AutoModeSample/AutoViewController.swift:138-143 | the error handler changes the controller exactly as Step does |
| AutoModeSample.AutoViewController.DidReceiveResult | AutoModeSample/AutoViewController.swift:145-151 | the final-result handler changes the controller exactly as Step does |
| AutoModeSample.AutoViewController.DidSelectRow | AutoModeSample/AutoViewController.swift:169-185 | the picker handler changes selection, commands and display exactly as Step does |
| AutoModeSample.TapWhenRunningStops | AutoModeSample/AutoViewController.swift:79-80 | a tap while running sends only a stop, with no display change |
| AutoModeSample.TapWhenIdleStarts | AutoModeSample/AutoViewController.swift:81-85 | a tap while idle sends one start in the selected language, disables the button and shows "Connecting......" |
| AutoModeSample.ReadyShowsStop | AutoModeSample/AutoViewController.swift:105-112 | Ready shows "Connected", "Recognizing......" and an enabled red "Stop" button |
| AutoModeSample.TerminalEventsEnable | AutoModeSample/AutoViewController.swift:118-184 | Inactive, Error and a cancel on language change leave the button "Record"/blue/enabled; Error keeps the status; the cancel sends exactly one cancel |
| AutoModeSample.ResultsShown | AutoModeSample/AutoViewController.swift:132-151 | a partial result replaces the result text verbatim; a final one shows "Result: " + its first candidate, and changes nothing without candidates |
| AutoModeSample.RowSelectedWhenIdle | AutoModeSample/AutoViewController.swift:169-185 | a language change while idle changes only the selection |
| AutoModeSample.DeliverKeepsInvariant | AutoModeSample/AutoViewController.swift:78-185 | every delivered event keeps the invariant that the button is disabled only while the last command sent is a start |
| AutoModeSample.RunKeepsInvariant | AutoModeSample/AutoViewController.swift:78-185 | that invariant holds after any input sequence |
| AutoModeSample.NewControllerKeepsInvariant | AutoModeSample/AutoViewController.swift:32-185 | a new controller whose button starts enabled satisfies that invariant after any input sequence |
| AutoModeSample.DisabledIgnoresTaps | AutoModeSample/AutoViewController.swift:84 | while the button is disabled and no enabling event arrives, no command is sent and the button stays disabled |
| AutoModeSample.TapBlocksFurtherStarts | AutoModeSample/AutoViewController.swift:81-85 | after an idle tap, the start stays the last command sent until Ready, Inactive, Error or a cancel |
| AutoModeSample.ErrorBeforeReadyResets | AutoModeSample/AutoViewController.swift:78-143 | a tap followed by an error before Ready sends one start, leaves the button "Record"/blue/enabled, and leaves the result text as it was (a tap does not clear an earlier transcript) |
| ManualModeSample.Step | ManualModeSample/ManualViewController.swift:77-180 | each event appends at most one command and never rewrites the log; only a press, a release or a language change while running sends one; only a language change changes the selection |
| ManualModeSample.OnCallback | ManualModeSample/ManualViewController.swift:102-147 | no delegate callback sends a command or changes the selection; the EPD-type callback, which the controller does not implement, changes nothing |
| ManualModeSample.ManualViewController.constructor | ManualModeSample/ManualViewController.swift:30-41 | the recognizer is configured Manual with question detection on; the selection is Korean; no command sent |
| ManualModeSample.ManualViewController.SetRecognitionButtonTitle | ManualModeSample/ManualViewController.swift:201-204 | sets the button title and colour and nothing else |
| ManualModeSample.ManualViewController.RecognitionButtonPressed | ManualModeSample/ManualViewController.swift:77-84 | the gesture handler changes the controller exactly as Step does for the gesture state |
| ManualModeSample.ManualViewController.RecognizerDidEnterReady | ManualModeSample/ManualViewController.swift:102-109 | the Ready handler changes the controller exactly as Step does |
| ManualModeSample.ManualViewController.RecognizerDidEnterInactive | ManualModeSample/ManualViewController.swift:115-121 | the Inactive handler changes the controller exactly as Step does |
| ManualModeSample.ManualViewController.DidReceivePartialResult | ManualModeSample/ManualViewController.swift:128-132 | the partial-result handler changes the controller exactly as Step does |
| ManualModeSample.ManualViewController.DidReceiveError | ManualModeSample/ManualViewController.swift:134-139 | the error handler changes the controller exactly as Step does |
| ManualModeSample.ManualViewController.DidReceiveResult | ManualModeSample/ManualViewController.swift:141-147 | the final-result handler changes the controller exactly as Step does |
| ManualModeSample.ManualViewController.DidSelectRow | ManualModeSample/ManualViewController.swift:165-180 | the picker handler changes selection, commands and display exactly as Step does |
| ManualModeSample.PressStartsAndReleaseStops | ManualModeSample/ManualViewController.swift:78-82 | a press sends one start in the selected language and shows "Connecting......."; a release sends one stop; neither depends on isRunning |
| ManualModeSample.ReadyShowsRecognizing | ManualModeSample/ManualViewController.swift:102-109 | Ready shows "Connected", "Recognizing......" and an enabled red "Recognizing" button |
| ManualModeSample.TerminalCallbacksReset | ManualModeSample/ManualViewController.swift:115-139 | Inactive shows "Record"/blue/enabled and clears the status; Error does the same but keeps the status |
| ManualModeSample.RowSelectedCancelsWhenRunning | ManualModeSample/ManualViewController.swift:165-180 | a language change cancels with the terminal display when running, and only selects when idle |
| ManualModeSample.BetweenPressesOnlyCancels | ManualModeSample/ManualViewController.swift:77-180 | without a press or a release (finger movement, callbacks and language changes allowed) the controller sends only cancels |
| ManualModeSample.PressAndReleaseBracketRun | ManualModeSample/ManualViewController.swift:77-84 | a press and its release, with any finger movement between them, send one start in the language selected at the press, only cancels, then a stop |
| ManualModeSample.NewLanguageOnNextStart | ManualModeSample/ManualViewController.swift:165-180 | a language change while running cancels the run, and the next start uses the new language |
| ManualModeSample.KoreanRunExample | ManualModeSample/ManualViewController.swift:77-121 | press, Ready, release, Inactive from a new controller sends start(Korean) then stop and ends with the "Record" button |

## Left out

- Layout and picker plumbing are not modelled. This covers `viewDidLoad`, `viewDidLayoutSubviews`, `didReceiveMemoryWarning`, `setupLanguagePicker`, `setupRecognitionButton`, `languagePickerButtonTapped`, the picker's data-source methods and the picker view's `isHidden`. The data-source methods only return `1`, `Languages.count` and `Languages.languageString(at:)`, and those two are modelled.
- The picker handlers also set the language button's title to `selectedLanguageString`. That title is not part of the controller state. `SelectedLanguageString` itself is modelled.
- Gesture timing is not modelled: the minimum press durations (0 s in hybrid, 1 s in manual) and the server's decision window of about 600 ms. Gestures are discrete began/changed/ended/cancelled events.
- The auto controller's switching of the audio-session category (record, then solo ambient) is a platform side effect whose failure is ignored. It is not modelled.
- `print` output is not modelled. `recognizerDidDetectEndPoint` and `didRecordSpeechData` only log, so they are events that change nothing and have no handler method.
- The SDK's implementation is not modelled: audio, network, recognition, and when `isRunning` changes. `Recognizer.SetRunning` stands for that change and may happen between any two handlers. In `Step`, `isRunning` is an input read at the start of each handler, and the commands never change it. The `BOOL` results of the commands are ignored by every caller and are not modelled.
- The error value, the error-code tables and the speaker gender of a result are never inspected by the controllers. Only the first candidate of a final result is read. The Swift cast of that candidate to `String` is taken to succeed: the candidates are modelled as strings.
- The client id constant is a constructor parameter of each controller.
- The initial text of the labels and the button comes from the interface file. It is a constructor parameter (`storyboard`).
- Only one thread is modelled. The model assumes that the handlers run one at a time, as on the main queue; neither the SDK header nor the controllers say on which queue the delegate callbacks arrive.
- AutoModeSample.ErrorBeforeReadyResets: a failed run shows no transcript only if the result label was already empty. Neither the tap nor the error clears it, so an earlier run's transcript stays on screen, and the lemma states exactly that.
- NskTypes.LanguageFromRaw, NskTypes.EpdFromRaw: the conversion yields `None` on an undeclared raw value, whereas Swift's conversion of an imported C enum accepts any integer. The model has no undeclared codes. The controllers never produce one from the picker (rows 0..3) and the SDK declares its EPD types.
- Common.SelectingUndeclared, Common.Languages.SelectLanguage: an undeclared index keeps the old selection. The Swift code would store the undeclared code, and the next `start(with:)` would send it.
- HybridModeSample.EpdTypeSelectedOverrides, HybridModeSample.HybridViewController.DidSelectEndPointDetectType: an undeclared EPD raw value keeps the old guess. The Swift code would store it as the guess, and the button title would become "Stop".
- The UIKit rule that a disabled button delivers no action is a precondition of `AutoViewController.RecognitionButtonTapped`, and the `Deliver` function applies it in the auto sequence model. The hybrid and manual controllers never disable their button, so the rule does not arise for them.
