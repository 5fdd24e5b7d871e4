// The speech recognizer as the controllers see it: a configuration, a
// running flag the SDK maintains, four commands, and the delegate callbacks.
// The SDK's own implementation (audio, networking, recognition) is not part
// of this model. The recognizer here only records, in order, the commands it
// receives, so that what a controller does can be stated as "which commands
// it issued".

module NskRecognizer {

  import opened NskTypes

  /** Recognizer settings: client id, question detection and EPD type. */
  datatype Configuration = Configuration(clientId: string, questionDetected: bool, epdType: EpdType)

  /** A fresh configuration: question detection off and EPD type Auto by default. */
  function NewConfiguration(clientId: string): (c: Configuration)
    ensures c.clientId == clientId
    ensures !c.questionDetected && c.epdType == Auto
  {
    Configuration(clientId, false, Auto)
  }

  /** A final result: candidate transcripts, most confident first, and the speaker's gender. */
  datatype RecognizedResult = RecognizedResult(results: seq<string>, gender: Gender)

  /** A command sent to the recognizer. Their BOOL results are ignored by every caller. */
  datatype Command = Start(language: LanguageCode) | Stop | Cancel | SetEpdType(epdType: EpdType)

  /** Every command in `cs` is a cancel. */
  predicate OnlyCancels(cs: seq<Command>)
  {
    forall i :: 0 <= i < |cs| ==> cs[i] == Cancel
  }

  /**
   * The delegate callbacks. The error value is never inspected, and the
   * recorded speech data is only logged, so neither carries a payload.
   * EpdTypeSelected carries the raw integer the server sends.
   */
  datatype Callback =
    | Ready
    | EndPointDetected
    | Inactive
    | SpeechDataRecorded
    | EpdTypeSelected(raw: int)
    | PartialResult(text: string)
    | FinalResult(result: RecognizedResult)
    | Error

  class Recognizer {
    const config: Configuration
    /** isRunning: maintained by the SDK, read by the controllers. */
    var running: bool
    /** Every command received, oldest first. */
    var sent: seq<Command>

    constructor (config: Configuration)
      ensures this.config == config
      ensures !running && sent == []
    {
      this.config := config;
      running := false;
      sent := [];
    }

    /**
     * The SDK's own change of isRunning, when a run connects or ends. No
     * controller calls it; it only changes the flag, never the command log.
     */
    method SetRunning(b: bool)
      modifies this`running
      ensures running == b
    {
      running := b;
    }

    method Start(language: LanguageCode)
      modifies this`sent
      ensures sent == old(sent) + [Command.Start(language)]
    {
      sent := sent + [Command.Start(language)];
    }

    method Stop()
      modifies this`sent
      ensures sent == old(sent) + [Command.Stop]
    {
      sent := sent + [Command.Stop];
    }

    /** Cancels the run at once; the SDK fires no delegate callback for it. */
    method Cancel()
      modifies this`sent
      ensures sent == old(sent) + [Command.Cancel]
    {
      sent := sent + [Command.Cancel];
    }

    /** Works only when the recognizer was configured with EPD type Hybrid. */
    method SetEpdType(epdType: EpdType)
      requires config.epdType == Hybrid
      modifies this`sent
      ensures sent == old(sent) + [Command.SetEpdType(epdType)]
    {
      sent := sent + [Command.SetEpdType(epdType)];
    }
  }
}
