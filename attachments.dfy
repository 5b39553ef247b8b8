/** Incoming attachments and their decompression: an attachment whose ID has
    a compression mode gets a decompressing stream, and its MIME type is
    taken from the PartInfo that refers to it. */
module Attachments {
  import opened Common
  import opened Ebms3

  const ATTACHMENT_ID_PREFIX: string := "attachment="

  datatype CompressionMode = Gzip

  /** Where an attachment's bytes come from: the received stream, possibly
      wrapped in decompression. */
  datatype Source = Received(partIndex: nat) | Decompressing(mode: CompressionMode, inner: Source)

  /** `WSS4JAttachment`: a fixed ID, and a MIME type and a stream provider
      that can be replaced. */
  class Attachment {
    const id: string
    var mimeType: Option<string>
    var source: Source

    constructor (id: string, mimeType: Option<string>, source: Source)
      ensures this.id == id && this.mimeType == mimeType && this.source == source
    {
      this.id := id;
      this.mimeType := mimeType;
      this.source := source;
    }
  }

  /** `parts[p]` is the first part whose href contains `cid`, and every
      part before it has an href. */
  ghost predicate FirstMatchingPart(parts: seq<PartInfo>, cid: string, p: int)
  {
    0 <= p < |parts| && parts[p].href.Some? && Contains(parts[p].href.value, cid)
    && forall q :: 0 <= q < p ==> parts[q].href.Some? && !Contains(parts[q].href.value, cid)
  }

  /** `CollectionHelper.findFirst` over the PartInfos with the test
      `href.contains(cid)`, which throws on a part without href. */
  function FindPart(parts: seq<PartInfo>, cid: string): (r: Eval<Option<PartInfo>>)
    ensures r.Returned? && r.value.Some? ==> exists p :: FirstMatchingPart(parts, cid, p) && parts[p] == r.value.value
    ensures r.Returned? && r.value.None? ==>
              forall q :: 0 <= q < |parts| ==> parts[q].href.Some? && !Contains(parts[q].href.value, cid)
    ensures r.Threw? ==> exists q :: 0 <= q < |parts| && parts[q].href.None?
                                     && forall q' :: 0 <= q' < q ==> parts[q'].href.Some? && !Contains(parts[q'].href.value, cid)
  {
    if parts == [] then Returned(None)
    else if parts[0].href.None? then Threw
    else if Contains(parts[0].href.value, cid) then Returned(Some(parts[0]))
    else
      var r := FindPart(parts[1..], cid);
      assert r.Returned? && r.value.Some? ==> exists p :: FirstMatchingPart(parts[1..], cid, p) && parts[1..][p] == r.value.value
                                                           && FirstMatchingPart(parts, cid, p + 1);
      r
  }

  /** The first property with the given name. */
  function FirstNamed(props: seq<Property>, name: string): (r: Option<Property>)
    ensures r.Some? ==> exists q :: 0 <= q < |props| && props[q] == r.value && props[q].name == name
                                    && forall q' :: 0 <= q' < q ==> props[q'].name != name
    ensures r.None? ==> forall q :: 0 <= q < |props| ==> props[q].name != name
  {
    if props == [] then None
    else if props[0].name == name then Some(props[0])
    else
      var r := FirstNamed(props[1..], name);
      assert r.Some? ==> exists q :: 0 <= q < |props| - 1 && props[1..][q] == r.value && props[q + 1] == props[1..][q];
      r
  }

  /** What decompression does to an attachment's MIME type. */
  datatype Correlation = Keep | Overwrite(mimeType: Option<string>)

  function Apply(c: Correlation, mimeType: Option<string>): Option<string>
  {
    match c
    case Keep => mimeType
    case Overwrite(m) => m
  }

  /** The MIME type a compressed attachment receives: the MimeType part
      property of the first PartInfo whose href contains the attachment ID
      without its leading "attachment=". No such part or no such property
      keeps the type; a missing PayloadInfo, an href-less part before the
      match or a match without PartProperties throws. */
  function Correlate(um: UserMessage, attachmentId: string): Eval<Correlation>
  {
    var cid := TrimStart(attachmentId, ATTACHMENT_ID_PREFIX);
    match um.payloadInfo
    case None => Threw
    case Some(parts) =>
      match FindPart(parts, cid)
      case Threw => Threw
      case Returned(None) => Returned(Keep)
      case Returned(Some(part)) =>
        match part.partProperties
        case None => Threw
        case Some(props) =>
          match FirstNamed(props, PART_PROPERTY_MIME_TYPE)
          case None => Returned(Keep)
          case Some(p) => Returned(Overwrite(p.value))
  }

  /** The correlated MIME type is the value of the first MimeType property
      of the first PartInfo that refers to the attachment. */
  lemma CorrelateTakesFirstPartsMimeType(um: UserMessage, attachmentId: string, p: nat, q: nat)
    requires um.payloadInfo.Some?
    requires FirstMatchingPart(um.payloadInfo.value, TrimStart(attachmentId, ATTACHMENT_ID_PREFIX), p)
    requires um.payloadInfo.value[p].partProperties.Some?
    requires var props := um.payloadInfo.value[p].partProperties.value;
             q < |props| && props[q].name == PART_PROPERTY_MIME_TYPE
             && forall q' :: 0 <= q' < q ==> props[q'].name != PART_PROPERTY_MIME_TYPE
    ensures Correlate(um, attachmentId) == Returned(Overwrite(um.payloadInfo.value[p].partProperties.value[q].value))
  {
    var parts := um.payloadInfo.value;
    var cid := TrimStart(attachmentId, ATTACHMENT_ID_PREFIX);
    var r := FindPart(parts, cid);
    assert !r.Threw? && !(r.Returned? && r.value.None?);
    var p' :| FirstMatchingPart(parts, cid, p') && parts[p'] == r.value.value;
    assert p' == p;
    var props := parts[p].partProperties.value;
    var f := FirstNamed(props, PART_PROPERTY_MIME_TYPE);
    assert f.Some?;
    var q'' :| 0 <= q'' < |props| && props[q''] == f.value && props[q''].name == PART_PROPERTY_MIME_TYPE
               && forall k :: 0 <= k < q'' ==> props[k].name != PART_PROPERTY_MIME_TYPE;
    assert q'' == q;
  }

  /** An attachment no PartInfo refers to, or whose PartInfo declares no
      MimeType property, keeps its MIME type. */
  lemma UnreferencedAttachmentKeepsMimeType(um: UserMessage, attachmentId: string, p: int)
    requires um.payloadInfo.Some?
    requires var cid := TrimStart(attachmentId, ATTACHMENT_ID_PREFIX);
             || (forall q :: 0 <= q < |um.payloadInfo.value| ==>
                   um.payloadInfo.value[q].href.Some? && !Contains(um.payloadInfo.value[q].href.value, cid))
             || (&& FirstMatchingPart(um.payloadInfo.value, cid, p)
                 && um.payloadInfo.value[p].partProperties.Some?
                 && forall q :: 0 <= q < |um.payloadInfo.value[p].partProperties.value| ==>
                      um.payloadInfo.value[p].partProperties.value[q].name != PART_PROPERTY_MIME_TYPE)
    ensures Correlate(um, attachmentId) == Returned(Keep)
  {
    var parts := um.payloadInfo.value;
    var cid := TrimStart(attachmentId, ATTACHMENT_ID_PREFIX);
    var r := FindPart(parts, cid);
    if r.Returned? && r.value.Some? {
      var p' :| FirstMatchingPart(parts, cid, p') && parts[p'] == r.value.value;
      assert FirstMatchingPart(parts, cid, p) ==> p' == p;
    }
  }

  /** Whether handling the attachment with this ID throws. */
  ghost predicate ThrowsOn(um: UserMessage, modes: map<string, CompressionMode>, id: string)
  {
    id in modes && Correlate(um, id).Threw?
  }

  /** The position of the first attachment whose correlation throws, or the
      length of the list. */
  ghost function FirstThrowing(um: UserMessage, modes: map<string, CompressionMode>, atts: seq<Attachment>): (k: nat)
    ensures k <= |atts|
    ensures forall j :: 0 <= j < k ==> !ThrowsOn(um, modes, atts[j].id)
    ensures k < |atts| ==> ThrowsOn(um, modes, atts[k].id)
  {
    if atts == [] then 0
    else if ThrowsOn(um, modes, atts[0].id) then 0
    else 1 + FirstThrowing(um, modes, atts[1..])
  }

  /** The attachments as `_decompressAttachments` leaves them. Each
      attachment whose ID has a compression mode gets a decompressing stream
      and, when a PartInfo refers to it, the MIME type that PartInfo
      declares; the others are left alone. If a correlation throws, the
      attachments after that one are untouched. */
  twostate predicate Decompressed(um: UserMessage, modes: map<string, CompressionMode>, atts: seq<Attachment>)
    reads set a | a in atts
  {
    forall i :: 0 <= i < |atts| ==>
      var a := atts[i];
      if i > FirstThrowing(um, modes, atts) || a.id !in modes then
        a.source == old(a.source) && a.mimeType == old(a.mimeType)
      else if i == FirstThrowing(um, modes, atts) then
        a.source == Decompressing(modes[a.id], old(a.source)) && a.mimeType == old(a.mimeType)
      else
        a.source == Decompressing(modes[a.id], old(a.source))
        && a.mimeType == Apply(Correlate(um, a.id).value, old(a.mimeType))
  }

  /** The attachments keep their stream and MIME type. */
  twostate predicate Untouched(atts: seq<Attachment>)
    reads set a | a in atts
  {
    forall i :: 0 <= i < |atts| ==> atts[i].source == old(atts[i].source) && atts[i].mimeType == old(atts[i].mimeType)
  }

  /** `_decompressAttachments`: it throws exactly when a correlation
      throws, and leaves the attachments as `Decompressed` says. */
  method DecompressAttachments(um: UserMessage, modes: map<string, CompressionMode>, atts: seq<Attachment>)
    returns (threw: bool)
    requires Distinct(atts)
    modifies set a | a in atts
    ensures threw <==> FirstThrowing(um, modes, atts) < |atts|
    ensures Decompressed(um, modes, atts)
  {
    ghost var stop := FirstThrowing(um, modes, atts);
    var n := 0;
    while n < |atts|
      invariant 0 <= n <= |atts| && n <= stop
      invariant forall i :: n <= i < |atts| ==> atts[i].source == old(atts[i].source) && atts[i].mimeType == old(atts[i].mimeType)
      invariant forall i :: 0 <= i < n ==>
                  var a := atts[i];
                  if a.id !in modes then a.source == old(a.source) && a.mimeType == old(a.mimeType)
                  else a.source == Decompressing(modes[a.id], old(a.source))
                       && a.mimeType == Apply(Correlate(um, a.id).value, old(a.mimeType))
    {
      var a := atts[n];
      if a.id in modes {
        var mode := modes[a.id];
        a.source := Decompressing(mode, a.source);
        var c := Correlate(um, a.id);
        if c.Threw? {
          return true;
        }
        if c.value.Overwrite? {
          a.mimeType := c.value.mimeType;
        }
      }
      n := n + 1;
    }
    return false;
  }
}
