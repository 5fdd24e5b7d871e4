// The events of the two controllers driven by a long-press gesture on the
// recognition button (manual and hybrid mode). The gesture recognizer calls
// the action with its state: began once, changed whenever the finger moves,
// then ended (or cancelled).

module PressGesture {

  import opened NskRecognizer

  /** The states of the long-press gesture that reach the handler. */
  datatype PressState = Began | Changed | Ended | Cancelled

  /** Everything that can happen to a press-driven controller. */
  datatype Event =
    | Pressed(state: PressState)
    | Delegate(callback: Callback)
    | RowSelected(row: int)

  /** An event with the recognizer's isRunning at the moment it is handled. */
  datatype Input = Input(event: Event, running: bool)

  /** The two gesture states the handlers act on; changed and cancelled are ignored. */
  predicate PressOrRelease(e: Event)
  {
    e == Pressed(Began) || e == Pressed(Ended)
  }
}
