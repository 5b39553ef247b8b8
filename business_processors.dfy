/** The business-handler stage: the registered message processors are
    invoked in order, and a duplicate message gets an error instead. */
module BusinessProcessors {
  import opened Common
  import opened Ebms3
  import opened Attachments

  const DUPLICATE_TEXT: string := "Another message with the same ID was already received!"
  const NO_RESULT_TEXT: string := "No result object present!"

  /** What a message processor returns for this message, or that it
      returned null or threw. */
  datatype SpiResult = SpiSuccess(attachments: seq<Attachment>)
                     | SpiFailure(errorMessage: Option<string>)
                     | SpiNoResult
                     | SpiThrows(message: string)

  /** How the processor loop ended. */
  datatype Stop = Completed | Failed(error: Ebms3Error) | ThrewAt(index: nat, message: string)

  datatype SpiRun = SpiRun(responseAttachments: seq<Attachment>, stop: Stop)

  /** The error added for a processor that reports failure: EBMS:0004 with
      severity failure, referring to the message, with the processor's
      message as description. */
  function FailureError(messageId: string, errorMessage: Option<string>, lang: string): (e: Ebms3Error)
    ensures e.errorCode == EBMS_OTHER && e.severity == SEVERITY_FAILURE
    ensures e.refToMessageInError == Some(messageId) && e.description == Some(Description(lang, errorMessage))
  {
    Ebms3Error(EBMS_OTHER, SEVERITY_FAILURE, None, None, None, Some(messageId), Some(Description(lang, errorMessage)))
  }

  /** The error added for a duplicate: the predefined EBMS:0004 referring to
      the message, with an empty detail and a fixed description. */
  function DuplicateError(c: ErrorCatalogue, messageId: string, lang: string): (e: Ebms3Error)
    requires ValidCatalogue(c)
    ensures e.errorCode == EBMS_OTHER && e.refToMessageInError == Some(messageId)
    ensures e.description == Some(Description(lang, Some(DUPLICATE_TEXT)))
  {
    c[EBMS_OTHER].(refToMessageInError := Some(messageId), errorDetail := Some(""),
                   description := Some(Description(lang, Some(DUPLICATE_TEXT))))
  }

  /** The position of the first processor that does not succeed, or the
      number of processors. */
  function FirstStop(results: seq<SpiResult>): (k: nat)
    ensures k <= |results|
    ensures forall i :: 0 <= i < k ==> results[i].SpiSuccess?
    ensures k < |results| ==> !results[k].SpiSuccess?
  {
    if results == [] || !results[0].SpiSuccess? then 0 else 1 + FirstStop(results[1..])
  }

  /** The attachments of the successful results, in order. */
  function Collected(results: seq<SpiResult>): seq<Attachment>
  {
    if results == [] then []
    else Collected(results[..|results| - 1])
         + (if results[|results| - 1].SpiSuccess? then results[|results| - 1].attachments else [])
  }

  /** The processor loop of the receiver. Processors run in order; each
      success appends its response attachments; the first failure adds one
      error referring to the message and ends the loop; a processor that
      returns nothing or throws ends the whole request. */
  method InvokeProcessors(results: seq<SpiResult>, messageId: string, lang: string) returns (run: SpiRun)
    ensures run.responseAttachments == Collected(results[..FirstStop(results)])
    ensures FirstStop(results) == |results| ==> run.stop == Completed
    ensures FirstStop(results) < |results| ==>
              match results[FirstStop(results)]
              case SpiFailure(m) => run.stop == Failed(FailureError(messageId, m, lang))
              case SpiNoResult => run.stop == ThrewAt(FirstStop(results), NO_RESULT_TEXT)
              case SpiThrows(m) => run.stop == ThrewAt(FirstStop(results), m)
              case SpiSuccess(_) => false
  {
    var attachments: seq<Attachment> := [];
    var n := 0;
    while n < |results|
      invariant 0 <= n <= FirstStop(results)
      invariant attachments == Collected(results[..n])
    {
      assert results[..n + 1][..n] == results[..n] && results[..n + 1][n] == results[n];
      match results[n] {
        case SpiSuccess(atts) =>
          attachments := attachments + atts;
        case SpiFailure(m) =>
          return SpiRun(attachments, Failed(FailureError(messageId, m, lang)));
        case SpiNoResult =>
          return SpiRun(attachments, ThrewAt(n, NO_RESULT_TEXT));
        case SpiThrows(m) =>
          return SpiRun(attachments, ThrewAt(n, m));
      }
      n := n + 1;
    }
    return SpiRun(attachments, Completed);
  }
}
