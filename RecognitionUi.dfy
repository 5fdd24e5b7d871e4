// The visible state every sample controller manages, and the display changes
// the three controllers make in the same way. Each controller writes these
// same assignments in its own handlers; here they are defined once and the
// controllers' specifications refer to them.

module RecognitionUi {

  import opened NskRecognizer

  /** The recognition button's title colour, an opaque two-valued tag. */
  datatype Color = Blue | Red

  /** Recognition button title, colour and enabled flag; status label; result label. */
  datatype Display = Display(title: string, color: Color, enabled: bool, status: string, result: string)

  /** The button is idle and ready for a new run. */
  predicate ShowsRecord(d: Display)
  {
    d.title == "Record" && d.color == Blue && d.enabled
  }

  /** recognizerDidEnterInactive: button back to "Record", status cleared. */
  function AfterInactive(d: Display): Display
  {
    d.(title := "Record", color := Blue, enabled := true, status := "")
  }

  /** didReceiveError: button back to "Record"; status and result are kept. */
  function AfterError(d: Display): Display
  {
    d.(title := "Record", color := Blue, enabled := true)
  }

  /** Cancel on language change: result "Canceled", button back to "Record". */
  function AfterCancel(d: Display): Display
  {
    d.(result := "Canceled", title := "Record", color := Blue, enabled := true)
  }

  /** didReceivePartialResult: the partial transcript replaces the result text. */
  function AfterPartialResult(d: Display, text: string): Display
  {
    d.(result := text)
  }

  /** didReceiveResult: the first candidate, prefixed, when there is one. */
  function AfterFinalResult(d: Display, r: RecognizedResult): Display
  {
    if |r.results| > 0 then d.(result := "Result: " + r.results[0]) else d
  }

  /** Each terminal event leaves the button ready for a new run. */
  lemma TerminalShowsRecord(d: Display)
    ensures ShowsRecord(AfterInactive(d)) && AfterInactive(d).status == ""
    ensures ShowsRecord(AfterError(d)) && AfterError(d).status == d.status && AfterError(d).result == d.result
    ensures ShowsRecord(AfterCancel(d)) && AfterCancel(d).result == "Canceled" && AfterCancel(d).status == d.status
  {
  }
}
