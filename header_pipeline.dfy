/** The SOAP header pipeline of the receiver: header extraction, the ordered,
    fail-fast run of the registered header processors, and the
    mustUnderstand gate that follows it. */
module HeaderPipeline {
  import opened Common
  import opened Soap
  import opened Ebms3

  /** A header element together with its mustUnderstand flag and the
      `processed` mark the pipeline sets. */
  class SoapHeader {
    const node: HeaderElement
    const qname: QName
    const mustUnderstand: bool
    var processed: bool

    constructor (node: HeaderElement, qname: QName, mustUnderstand: bool)
      ensures this.node == node && this.qname == qname && this.mustUnderstand == mustUnderstand
      ensures !processed
    {
      this.node := node;
      this.qname := qname;
      this.mustUnderstand := mustUnderstand;
      processed := false;
    }
  }

  /** `_extractAllHeaders`: one fresh, unprocessed header per child of the
      SOAP Header, in document order, flagged mustUnderstand exactly when the
      attribute has the version's lexical "true". */
  method ExtractAllHeaders(version: SoapVersion, children: seq<HeaderElement>) returns (headers: seq<SoapHeader>)
    ensures |headers| == |children| && Distinct(headers)
    ensures forall i :: 0 <= i < |headers| ==>
              fresh(headers[i]) && !headers[i].processed && headers[i].node == children[i]
              && headers[i].qname == children[i].qname
              && (headers[i].mustUnderstand <==> children[i].mustUnderstandAttribute == MustUnderstandTrue(version))
  {
    headers := [];
    var n := 0;
    while n < |children|
      invariant 0 <= n <= |children| && |headers| == n && Distinct(headers)
      invariant forall i :: 0 <= i < n ==>
                  fresh(headers[i]) && !headers[i].processed && headers[i].node == children[i]
                  && headers[i].qname == children[i].qname
                  && (headers[i].mustUnderstand <==> children[i].mustUnderstandAttribute == MustUnderstandTrue(version))
    {
      var child := children[n];
      var h := new SoapHeader(child, child.qname, child.mustUnderstandAttribute == MustUnderstandTrue(version));
      headers := headers + [h];
      n := n + 1;
    }
  }

  function QNames(headers: seq<SoapHeader>): (qs: seq<QName>)
    ensures |qs| == |headers| && forall i :: 0 <= i < |headers| ==> qs[i] == headers[i].qname
  {
    seq(|headers|, i requires 0 <= i < |headers| => headers[i].qname)
  }

  /** The position of the first element equal to `q`
      (`ICommonsList.findFirst`). */
  function FirstIndexOf(qs: seq<QName>, q: QName): (r: Option<nat>)
    ensures r.Some? ==> r.value < |qs| && qs[r.value] == q && forall j :: 0 <= j < r.value ==> qs[j] != q
    ensures r.None? ==> forall j :: 0 <= j < |qs| ==> qs[j] != q
  {
    if qs == [] then None
    else if qs[0] == q then Some(0)
    else match FirstIndexOf(qs[1..], q)
      case None => None
      case Some(k) => Some(k + 1)
  }

  /** An error reported by a header processor (`IError`). */
  datatype ProcessorError = ProcessorError(errorId: string, level: string, text: string, fieldName: Option<string>)

  /** What a header processor answers for this message. Its effects on the
      message state are part of the state handed to the receiver. */
  datatype Verdict = Success | Failure(errors: seq<ProcessorError>)

  /** One entry of the processor registry, in registration order. */
  datatype Registration = Registration(qname: QName, verdict: Verdict)

  /** A processor error as an ebMS error: the predefined one when its code is
      known, else a generic error copying code, severity, text and origin. */
  function ConvertError(c: ErrorCatalogue, e: ProcessorError): (r: Ebms3Error)
    requires ValidCatalogue(c)
    ensures r.errorCode == e.errorId
    ensures e.errorId in c ==> r == c[e.errorId]
    ensures e.errorId !in c ==>
              r.severity == e.level && r.errorDetail == Some(e.text) && r.origin == e.fieldName
              && r.refToMessageInError.None? && r.description.None?
  {
    match PredefinedOrNull(c, e.errorId)
    case Some(predefined) => predefined
    case None => Ebms3Error(e.errorId, e.level, None, Some(e.text), e.fieldName, None, None)
  }

  function ConvertErrors(c: ErrorCatalogue, es: seq<ProcessorError>): (r: seq<Ebms3Error>)
    requires ValidCatalogue(c)
    ensures |r| == |es| && forall i :: 0 <= i < |es| ==> r[i] == ConvertError(c, es[i])
  {
    seq(|es|, i requires 0 <= i < |es| => ConvertError(c, es[i]))
  }

  /** Outcome of the pipeline: the positions of the headers marked processed,
      the errors collected, and whether a processor failed. */
  datatype PipelineResult = PipelineResult(processed: set<nat>, errors: seq<Ebms3Error>, aborted: bool)

  /** The pipeline over header names `qs`: registrations are visited in
      order; a name absent from the message is skipped; success marks the
      first header of that name; the first failure contributes its errors
      and ends the run. */
  function Pipeline(c: ErrorCatalogue, registry: seq<Registration>, qs: seq<QName>): PipelineResult
    requires ValidCatalogue(c)
  {
    if registry == [] then PipelineResult({}, [], false)
    else match FirstIndexOf(qs, registry[0].qname)
      case None => Pipeline(c, registry[1..], qs)
      case Some(j) =>
        if registry[0].verdict.Success? then
          var rest := Pipeline(c, registry[1..], qs);
          rest.(processed := {j} + rest.processed)
        else PipelineResult({}, ConvertErrors(c, registry[0].verdict.errors), true)
  }

  /** The loop over the registry in `_handleSOAPMessage`. Headers are marked
      in place; the result is the converted errors of the first failing
      processor, if any. */
  method RunHeaderPipeline(c: ErrorCatalogue, registry: seq<Registration>, headers: seq<SoapHeader>)
    returns (errors: seq<Ebms3Error>)
    requires ValidCatalogue(c) && Distinct(headers)
    modifies set h | h in headers
    ensures errors == Pipeline(c, registry, QNames(headers)).errors
    ensures forall i :: 0 <= i < |headers| ==>
              headers[i].processed == (old(headers[i].processed) || i in Pipeline(c, registry, QNames(headers)).processed)
  {
    ghost var qs := QNames(headers);
    ghost var done: set<nat> := {};
    errors := [];
    var k := 0;
    while k < |registry|
      invariant 0 <= k <= |registry| && errors == []
      invariant Pipeline(c, registry, qs)
                == Pipeline(c, registry[k..], qs).(processed := done + Pipeline(c, registry[k..], qs).processed)
      invariant forall i :: 0 <= i < |headers| ==> headers[i].processed == (old(headers[i].processed) || i in done)
    {
      var entry := registry[k];
      assert registry[k..][0] == entry && registry[k..][1..] == registry[k + 1..];
      var j := FirstIndexOf(QNames(headers), entry.qname);
      if j.None? {
        k := k + 1;
        continue;
      }
      if entry.verdict.Success? {
        headers[j.value].processed := true;
        done := done + {j.value};
        k := k + 1;
      } else {
        var es := entry.verdict.errors;
        var n := 0;
        while n < |es|
          invariant 0 <= n <= |es| && errors == ConvertErrors(c, es[..n])
        {
          errors := errors + [ConvertError(c, es[n])];
          n := n + 1;
          assert es[..n] == es[..n - 1] + [es[n - 1]];
        }
        assert es[..n] == es;
        break;
      }
    }
  }

  /** A registration that is visited and fails. */
  ghost predicate Fails(registry: seq<Registration>, qs: seq<QName>, m: int)
  {
    0 <= m < |registry| && FirstIndexOf(qs, registry[m].qname).Some? && registry[m].verdict.Failure?
  }

  /** The header positions marked by the successful registrations before
      index `m`. */
  ghost function ProcessedBefore(registry: seq<Registration>, qs: seq<QName>, m: nat): set<nat>
    requires m <= |registry|
  {
    set k | 0 <= k < m && FirstIndexOf(qs, registry[k].qname).Some? && registry[k].verdict.Success?
          :: FirstIndexOf(qs, registry[k].qname).value
  }

  lemma ProcessedBeforeStep(registry: seq<Registration>, qs: seq<QName>, m: nat)
    requires 1 <= m <= |registry|
    ensures ProcessedBefore(registry, qs, m)
            == (if FirstIndexOf(qs, registry[0].qname).Some? && registry[0].verdict.Success?
                then {FirstIndexOf(qs, registry[0].qname).value} else {})
               + ProcessedBefore(registry[1..], qs, m - 1)
  {
    var lhs := ProcessedBefore(registry, qs, m);
    var rest := ProcessedBefore(registry[1..], qs, m - 1);
    forall x | x in lhs
      ensures x in rest || (FirstIndexOf(qs, registry[0].qname).Some? && x == FirstIndexOf(qs, registry[0].qname).value)
    {
      var k :| 0 <= k < m && FirstIndexOf(qs, registry[k].qname).Some? && registry[k].verdict.Success?
               && x == FirstIndexOf(qs, registry[k].qname).value;
      if k > 0 {
        assert registry[1..][k - 1] == registry[k];
      }
    }
    forall x | x in rest ensures x in lhs {
      var k :| 0 <= k < m - 1 && FirstIndexOf(qs, registry[1..][k].qname).Some? && registry[1..][k].verdict.Success?
               && x == FirstIndexOf(qs, registry[1..][k].qname).value;
      assert registry[1..][k] == registry[k + 1];
    }
  }

  /** When the `m`-th registration is the first to fail, the pipeline
      aborts with exactly that processor's converted errors, and the headers
      marked are those of the successful registrations before it. */
  lemma {:induction false} PipelineStopsAtFirstFailure(c: ErrorCatalogue, registry: seq<Registration>, qs: seq<QName>, m: nat)
    requires ValidCatalogue(c)
    requires Fails(registry, qs, m) && forall k :: 0 <= k < m ==> !Fails(registry, qs, k)
    ensures Pipeline(c, registry, qs).aborted
    ensures Pipeline(c, registry, qs).errors == ConvertErrors(c, registry[m].verdict.errors)
    ensures Pipeline(c, registry, qs).processed == ProcessedBefore(registry, qs, m)
  {
    if m == 0 {
      assert ProcessedBefore(registry, qs, 0) == {};
    } else {
      assert !Fails(registry, qs, 0);
      forall k | 0 <= k < m - 1 ensures !Fails(registry[1..], qs, k) {
        assert !Fails(registry, qs, k + 1);
        assert registry[1..][k] == registry[k + 1];
      }
      assert registry[1..][m - 1] == registry[m];
      PipelineStopsAtFirstFailure(c, registry[1..], qs, m - 1);
      ProcessedBeforeStep(registry, qs, m);
    }
  }

  /** When no visited processor fails, nothing is collected and every
      registered name present in the message has its first header marked. */
  lemma {:induction false} PipelineWithoutFailure(c: ErrorCatalogue, registry: seq<Registration>, qs: seq<QName>)
    requires ValidCatalogue(c)
    requires forall k :: 0 <= k < |registry| ==> !Fails(registry, qs, k)
    ensures !Pipeline(c, registry, qs).aborted && Pipeline(c, registry, qs).errors == []
    ensures Pipeline(c, registry, qs).processed == ProcessedBefore(registry, qs, |registry|)
  {
    if registry == [] {
      assert ProcessedBefore(registry, qs, 0) == {};
    } else {
      assert !Fails(registry, qs, 0);
      forall k | 0 <= k < |registry| - 1 ensures !Fails(registry[1..], qs, k) {
        assert !Fails(registry, qs, k + 1);
        assert registry[1..][k] == registry[k + 1];
      }
      PipelineWithoutFailure(c, registry[1..], qs);
      ProcessedBeforeStep(registry, qs, |registry|);
    }
  }

  /** A header is only ever marked when it is the first header of its name
      and a processor registered for that name succeeded. */
  lemma {:induction false} PipelineMarksOnlyRegisteredSuccesses(c: ErrorCatalogue, registry: seq<Registration>, qs: seq<QName>, i: nat)
    requires ValidCatalogue(c)
    requires i in Pipeline(c, registry, qs).processed
    ensures i < |qs| && FirstIndexOf(qs, qs[i]) == Some(i)
    ensures exists m :: 0 <= m < |registry| && registry[m].qname == qs[i] && registry[m].verdict.Success?
  {
    if registry != [] {
      var j := FirstIndexOf(qs, registry[0].qname);
      if j.Some? && registry[0].verdict.Success? && i == j.value {
        assert registry[0].qname == qs[i];
      } else {
        PipelineMarksOnlyRegisteredSuccesses(c, registry[1..], qs, i);
        var m :| 0 <= m < |registry| - 1 && registry[1..][m].qname == qs[i] && registry[1..][m].verdict.Success?;
        assert registry[m + 1] == registry[1..][m];
      }
    }
  }

  /** A header whose name no processor is registered for stays unprocessed,
      whatever the other headers and processors do. */
  lemma UnregisteredHeaderStaysUnprocessed(c: ErrorCatalogue, registry: seq<Registration>, qs: seq<QName>, i: nat)
    requires ValidCatalogue(c)
    requires i < |qs| && forall m :: 0 <= m < |registry| ==> registry[m].qname != qs[i]
    ensures i !in Pipeline(c, registry, qs).processed
  {
    if i in Pipeline(c, registry, qs).processed {
      PipelineMarksOnlyRegisteredSuccesses(c, registry, qs, i);
    }
  }

  /** The mustUnderstand check: the name of the first header flagged
      mustUnderstand that is still unprocessed, if any. */
  method FindUnprocessedMustUnderstand(headers: seq<SoapHeader>) returns (r: Option<QName>)
    ensures r.None? <==> forall i :: 0 <= i < |headers| ==> headers[i].mustUnderstand ==> headers[i].processed
    ensures r.Some? ==> exists i :: 0 <= i < |headers| && headers[i].mustUnderstand && !headers[i].processed
                                    && headers[i].qname == r.value
                                    && forall j :: 0 <= j < i ==> headers[j].mustUnderstand ==> headers[j].processed
  {
    var n := 0;
    while n < |headers|
      invariant 0 <= n <= |headers|
      invariant forall j :: 0 <= j < n ==> headers[j].mustUnderstand ==> headers[j].processed
    {
      if headers[n].mustUnderstand && !headers[n].processed {
        return Some(headers[n].qname);
      }
      n := n + 1;
    }
    return None;
  }
}
