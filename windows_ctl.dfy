/**
 * The current `windows-ctl` crate (windows-ctl/src/lib.rs): the Certificate
 * Trust List schema, the PKCS#7 unwrapping in `from_der`, the identifier of
 * a trusted subject, and the extraction of the Microsoft "meta-EKU" purpose
 * identifiers from a subject's attributes.
 */
module WindowsCtl {
  import opened Der
  import opened X509
  import opened Pkcs7
  import opened Iterators
  import Hex

  /** szOID_CTL, 1.3.6.1.4.1.311.10.1, as contents octets. */
  const MS_CERT_TRUST_LIST_OID: Oid := [0x2B, 0x06, 0x01, 0x04, 0x01, 0x82, 0x37, 0x0A, 0x01]

  /** CERT_PROP_ID_METAEKUS, 1.3.6.1.4.1.311.10.11.9, as contents octets. */
  const MS_CERT_PROP_ID_METAEKUS_OID: Oid := [0x2B, 0x06, 0x01, 0x04, 0x01, 0x82, 0x37, 0x0A, 0x0B, 0x09]

  /** Why `from_der` failed. The I/O variant is left out: the model starts from the bytes already read. */
  datatype CtlError =
    | Der(der: DerError)
    | ContentType(contentType: Oid)
    | MissingSignedData
    | Content(eContentType: Oid)
    | MissingSignedDataContent

  /** One entry of the list: a certificate identifier and optional attributes. */
  datatype TrustedSubject = TrustedSubject(identifier: seq<byte>, attributes: Option<seq<Attribute>>)

  /** `CTLVersion ::= INTEGER { v1(0) }`. */
  datatype CtlVersion = V1

  datatype CertificateTrustList = CertificateTrustList(
    version: CtlVersion,
    subjectUsage: seq<Oid>,
    listIdentifier: Option<seq<byte>>,
    sequenceNumber: Option<seq<byte>>,   // magnitude octets of a non-negative INTEGER
    thisUpdate: Time,
    nextUpdate: Option<Time>,
    subjectAlgorithm: AlgorithmIdentifier,
    trustedSubjects: Option<seq<TrustedSubject>>,
    ctlExtensions: Option<Tlv>)          // the element inside `[0] EXPLICIT`

  // ---------------------------------------------------------------------
  // Schema
  // ---------------------------------------------------------------------

  /** `TrustedSubject ::= SEQUENCE { subjectIdentifier OCTET STRING, subjectAttributes Attributes OPTIONAL }`. */
  function DecodeTrustedSubject(t: Tlv): (r: Result<TrustedSubject, DerError>)
    ensures r.Ok? ==> t.tag == SEQUENCE
  {
    var c :- Expect(t, SEQUENCE);
    var p :- ParseTlv(c);
    var identifier :- DecodeOctetString(p.0);
    var q :- ReadOptional(p.1, IsSetTag);
    var attributes :- DecodeOptional(q.0, DecodeAttributes);
    if q.1 != [] then Err(TrailingData) else Ok(TrustedSubject(identifier, attributes))
  }

  /** `TrustedSubjects ::= SEQUENCE OF TrustedSubject`. */
  function DecodeTrustedSubjects(t: Tlv): (r: Result<seq<TrustedSubject>, DerError>)
    ensures r.Ok? ==> t.tag == SEQUENCE
  {
    var c :- Expect(t, SEQUENCE);
    DecodeSeqOf(c, DecodeTrustedSubject)
  }

  /** `CtlVersion` is an enumerated INTEGER whose only member is v1 = 0. */
  function DecodeVersion(t: Tlv): (r: Result<CtlVersion, DerError>)
    ensures r.Ok? <==> t == Tlv(INTEGER, [0])
  {
    var c :- Expect(t, INTEGER);
    if c == [0] then Ok(V1) else Err(InvalidValue(INTEGER))
  }

  predicate IsIntegerTag(tag: Tag) {
    tag == INTEGER
  }

  predicate IsOctetStringTag(tag: Tag) {
    tag == OCTET_STRING
  }

  predicate IsSequenceTag(tag: Tag) {
    tag == SEQUENCE
  }

  predicate IsSetTag(tag: Tag) {
    tag == SET
  }

  predicate IsExtensionsTag(tag: Tag) {
    tag == ContextTag(0)
  }

  /** The fields from `thisUpdate` on, which both versions of the crate declare alike. */
  datatype CtlTail = CtlTail(
    thisUpdate: Time,
    nextUpdate: Option<Time>,
    subjectAlgorithm: AlgorithmIdentifier,
    trustedSubjects: Option<seq<TrustedSubject>>,
    ctlExtensions: Option<Tlv>)          // the element inside `[0] EXPLICIT`

  /**
   * `CertificateTrustList`, field by field in declaration order: version
   * DEFAULT v1, subjectUsage, listIdentifier OPTIONAL, sequenceNumber
   * OPTIONAL, then the fields `DecodeCtlTail` reads.
   */
  function DecodeCertificateTrustList(t: Tlv): (r: Result<CertificateTrustList, DerError>)
    ensures r.Ok? ==> t.tag == SEQUENCE
  {
    var c :- Expect(t, SEQUENCE);
    var v :- ReadOptional(c, IsIntegerTag);
    var version :- if v.0.Some? then DecodeVersion(v.0.value) else Ok(V1);
    var su :- ParseTlv(v.1);
    var subjectUsage :- DecodeOidSequence(su.0);
    var li :- ReadOptional(su.1, IsOctetStringTag);
    var listIdentifier :- DecodeOptional(li.0, DecodeOctetString);
    var sn :- ReadOptional(li.1, IsIntegerTag);
    var sequenceNumber :- DecodeOptional(sn.0, DecodeUint);
    var tail :- DecodeCtlTail(sn.1);
    Ok(CertificateTrustList(version, subjectUsage, listIdentifier, sequenceNumber, tail.thisUpdate,
                            tail.nextUpdate, tail.subjectAlgorithm, tail.trustedSubjects, tail.ctlExtensions))
  }

  /**
   * thisUpdate, nextUpdate OPTIONAL, subjectAlgorithm, trustedSubjects
   * OPTIONAL, ctlExtensions [0] EXPLICIT OPTIONAL, and nothing after them.
   */
  function DecodeCtlTail(bs: seq<byte>): (r: Result<CtlTail, DerError>)
  {
    var tu :- ParseTlv(bs);
    var thisUpdate :- DecodeTime(tu.0);
    var nu :- ReadOptional(tu.1, IsTimeTag);
    var nextUpdate :- DecodeOptional(nu.0, DecodeTime);
    var sa :- ParseTlv(nu.1);
    var subjectAlgorithm :- DecodeAlgorithmIdentifier(sa.0);
    var ts :- ReadOptional(sa.1, IsSequenceTag);
    var trustedSubjects :- DecodeOptional(ts.0, DecodeTrustedSubjects);
    var ex :- ReadOptional(ts.1, IsExtensionsTag);
    var ctlExtensions :- UnwrapExplicit(ex.0);
    if ex.1 != [] then Err(TrailingData)
    else Ok(CtlTail(thisUpdate, nextUpdate, subjectAlgorithm, trustedSubjects, ctlExtensions))
  }

  // ---------------------------------------------------------------------
  // The derived DER encoding, and decoding it back
  // ---------------------------------------------------------------------

  function TrustedSubjectTlv(s: TrustedSubject): Tlv {
    Tlv(SEQUENCE, EncodeTlv(Tlv(OCTET_STRING, s.identifier)) + OptBytes(MapOption(s.attributes, AttributesTlv)))
  }

  function TrustedSubjectElements(ss: seq<TrustedSubject>): (r: seq<Tlv>)
    ensures |r| == |ss| && forall i :: 0 <= i < |ss| ==> r[i] == TrustedSubjectTlv(ss[i])
  {
    seq(|ss|, i requires 0 <= i < |ss| => TrustedSubjectTlv(ss[i]))
  }

  function TrustedSubjectsTlv(ss: seq<TrustedSubject>): Tlv {
    Tlv(SEQUENCE, EncodeAll(TrustedSubjectElements(ss)))
  }

  function OctetStringTlv(c: seq<byte>): Tlv {
    Tlv(OCTET_STRING, c)
  }

  function SequenceNumberTlv(o: Option<seq<byte>>): (r: Option<Tlv>)
    requires o.Some? ==> ValidMagnitude(o.value)
    ensures r.Some? <==> o.Some?
  {
    match o
    case None => None
    case Some(m) => Some(Tlv(INTEGER, UintContent(m)))
  }

  /** The encoded fields from thisUpdate to the end of the list. */
  function CtlTailBytes(tail: CtlTail): seq<byte> {
    EncodeTlv(TimeTlv(tail.thisUpdate)) + AfterThisUpdate(tail)
  }

  /** The encoded fields after thisUpdate. */
  function AfterThisUpdate(tail: CtlTail): seq<byte> {
    OptBytes(MapOption(tail.nextUpdate, TimeTlv))
      + (EncodeTlv(AlgorithmIdentifierTlv(tail.subjectAlgorithm))
      + (OptBytes(MapOption(tail.trustedSubjects, TrustedSubjectsTlv))
      + ExplicitBytes(tail.ctlExtensions)))
  }

  function Tail(ctl: CertificateTrustList): CtlTail {
    CtlTail(ctl.thisUpdate, ctl.nextUpdate, ctl.subjectAlgorithm, ctl.trustedSubjects, ctl.ctlExtensions)
  }

  /** Attribute types are well-formed object identifiers. */
  predicate WellFormedSubject(s: TrustedSubject) {
    s.attributes.Some? ==> forall i :: 0 <= i < |s.attributes.value| ==> ValidOid(s.attributes.value[i].oid)
  }

  predicate WellFormedTail(tail: CtlTail) {
    && ValidOid(tail.subjectAlgorithm.oid)
    && (tail.trustedSubjects.Some? ==>
          forall i :: 0 <= i < |tail.trustedSubjects.value| ==> WellFormedSubject(tail.trustedSubjects.value[i]))
  }

  /** Identifiers are well formed and the sequence number has a minimal magnitude: the values the encoding can carry. */
  predicate WellFormed(ctl: CertificateTrustList) {
    && (forall i :: 0 <= i < |ctl.subjectUsage| ==> ValidOid(ctl.subjectUsage[i]))
    && (ctl.sequenceNumber.Some? ==> ValidMagnitude(ctl.sequenceNumber.value))
    && WellFormedTail(Tail(ctl))
  }

  /**
   * The DER encoding of a list. The version is v1, the DEFAULT, so it is
   * omitted (X.690 section 11.5); absent OPTIONAL fields take no octets.
   */
  function CertificateTrustListTlv(ctl: CertificateTrustList): Tlv
    requires WellFormed(ctl)
  {
    Tlv(SEQUENCE,
      EncodeTlv(OidSequenceTlv(ctl.subjectUsage))
        + (OptBytes(MapOption(ctl.listIdentifier, OctetStringTlv))
        + (OptBytes(SequenceNumberTlv(ctl.sequenceNumber))
        + CtlTailBytes(Tail(ctl)))))
  }

  lemma TrustedSubjectRoundTrip(s: TrustedSubject)
    requires WellFormedSubject(s) && LengthEncodable(|EncodeTlv(TrustedSubjectTlv(s))|)
    ensures DecodeTrustedSubject(TrustedSubjectTlv(s)) == Ok(s)
  {
    var whole := EncodeTlv(TrustedSubjectTlv(s));
    var id := Tlv(OCTET_STRING, s.identifier);
    var attrs := MapOption(s.attributes, AttributesTlv);
    ValidWithin(id, whole);
    TlvRoundTrip(id, OptBytes(attrs));
    if s.attributes.Some? {
      ValidWithin(attrs.value, whole);
      LengthEncodableMonotone(|EncodeTlv(attrs.value)|, |whole|);
      AttributesRoundTrip(s.attributes.value);
    }
    ReadOptionalEncoded(attrs, [], IsSetTag);
    assert OptBytes(attrs) + [] == OptBytes(attrs);
  }

  lemma TrustedSubjectsRoundTrip(ss: seq<TrustedSubject>)
    requires forall i :: 0 <= i < |ss| ==> WellFormedSubject(ss[i])
    requires LengthEncodable(|EncodeTlv(TrustedSubjectsTlv(ss))|)
    ensures DecodeTrustedSubjects(TrustedSubjectsTlv(ss)) == Ok(ss)
  {
    var ts := TrustedSubjectElements(ss);
    forall i | 0 <= i < |ts|
      ensures ValidTlv(ts[i]) && DecodeTrustedSubject(ts[i]) == Ok(ss[i])
    {
      EncodeAllWithin(ts, i);
      LengthEncodableMonotone(|EncodeTlv(ts[i])|, |EncodeTlv(TrustedSubjectsTlv(ss))|);
      ValidWithin(ts[i], EncodeTlv(TrustedSubjectsTlv(ss)));
      TrustedSubjectRoundTrip(ss[i]);
    }
    DecodeSeqOfEncoded(ts, DecodeTrustedSubject, ss);
  }

  /** The encoded fields from thisUpdate on start with the thisUpdate element. */
  lemma TailStartsWithTime(tail: CtlTail, rest: seq<byte>)
    ensures PeekTag(CtlTailBytes(tail) + rest) == Ok(Some(TimeTlv(tail.thisUpdate).tag))
    ensures IsTimeTag(TimeTlv(tail.thisUpdate).tag)
  {
    PeekEncodedPrefix(TimeTlv(tail.thisUpdate), AfterThisUpdate(tail), rest);
  }

  /** The last two fields: trustedSubjects OPTIONAL, ctlExtensions OPTIONAL, and the end of the SEQUENCE. */
  lemma SubjectsAndExtensionsRoundTrip(tail: CtlTail, whole: seq<byte>)
    requires WellFormedTail(tail) && LengthEncodable(|whole|)
    requires |OptBytes(MapOption(tail.trustedSubjects, TrustedSubjectsTlv)) + ExplicitBytes(tail.ctlExtensions)| <= |whole|
    ensures
      var ts := MapOption(tail.trustedSubjects, TrustedSubjectsTlv);
      && ReadOptional(OptBytes(ts) + ExplicitBytes(tail.ctlExtensions), IsSequenceTag) == Ok((ts, ExplicitBytes(tail.ctlExtensions)))
      && DecodeOptional(ts, DecodeTrustedSubjects) == Ok(tail.trustedSubjects)
      && ReadOptional(ExplicitBytes(tail.ctlExtensions), IsExtensionsTag).Ok?
      && ReadOptional(ExplicitBytes(tail.ctlExtensions), IsExtensionsTag).value.1 == []
      && UnwrapExplicit(ReadOptional(ExplicitBytes(tail.ctlExtensions), IsExtensionsTag).value.0) == Ok(tail.ctlExtensions)
  {
    var ts := MapOption(tail.trustedSubjects, TrustedSubjectsTlv);
    var ex := ExplicitBytes(tail.ctlExtensions);
    if ts.Some? {
      LengthEncodableMonotone(|EncodeTlv(ts.value)|, |whole|);
      ValidWithin(ts.value, whole);
      TrustedSubjectsRoundTrip(tail.trustedSubjects.value);
    } else if tail.ctlExtensions.Some? {
      PeekEncoded(Tlv(ContextTag(0), EncodeTlv(tail.ctlExtensions.value)), []);
      assert ex == EncodeTlv(Tlv(ContextTag(0), EncodeTlv(tail.ctlExtensions.value))) + [];
    }
    ReadOptionalEncoded(ts, ex, IsSequenceTag);
    LengthEncodableMonotone(|ex|, |whole|);
    ExplicitRoundTrip(tail.ctlExtensions, IsExtensionsTag);
  }

  /** The fields from thisUpdate on read back as encoded, and fill the SEQUENCE. */
  lemma CtlTailRoundTrip(tail: CtlTail)
    requires WellFormedTail(tail) && LengthEncodable(|CtlTailBytes(tail)|)
    ensures DecodeCtlTail(CtlTailBytes(tail)) == Ok(tail)
  {
    var whole := CtlTailBytes(tail);
    var tu := TimeTlv(tail.thisUpdate);
    var nu := MapOption(tail.nextUpdate, TimeTlv);
    var sa := AlgorithmIdentifierTlv(tail.subjectAlgorithm);
    var r3 := OptBytes(MapOption(tail.trustedSubjects, TrustedSubjectsTlv)) + ExplicitBytes(tail.ctlExtensions);
    var r2 := EncodeTlv(sa) + r3;
    ValidWithin(tu, whole);
    TlvRoundTrip(tu, OptBytes(nu) + r2);
    TimeRoundTrip(tail.thisUpdate);
    if nu.Some? {
      ValidWithin(nu.value, whole);
      TimeRoundTrip(tail.nextUpdate.value);
    } else {
      PeekEncoded(sa, r3);
    }
    ReadOptionalEncoded(nu, r2, IsTimeTag);
    ValidWithin(sa, whole);
    TlvRoundTrip(sa, r3);
    LengthEncodableMonotone(|EncodeTlv(sa)|, |whole|);
    AlgorithmIdentifierRoundTrip(tail.subjectAlgorithm);
    SubjectsAndExtensionsRoundTrip(tail, whole);
  }

  /** The head of the list: version DEFAULT v1, subjectUsage, listIdentifier OPTIONAL. */
  lemma CtlHeadRoundTrip(ctl: CertificateTrustList)
    requires WellFormed(ctl) && LengthEncodable(|EncodeTlv(CertificateTrustListTlv(ctl))|)
    ensures
      var c := CertificateTrustListTlv(ctl).content;
      var su := OidSequenceTlv(ctl.subjectUsage);
      var rest := OptBytes(SequenceNumberTlv(ctl.sequenceNumber)) + CtlTailBytes(Tail(ctl));
      && ReadOptional(c, IsIntegerTag) == Ok((None, c))
      && ParseTlv(c) == Ok((su, OptBytes(MapOption(ctl.listIdentifier, OctetStringTlv)) + rest))
      && DecodeOidSequence(su) == Ok(ctl.subjectUsage)
      && ReadOptional(OptBytes(MapOption(ctl.listIdentifier, OctetStringTlv)) + rest, IsOctetStringTag)
           == Ok((MapOption(ctl.listIdentifier, OctetStringTlv), rest))
      && DecodeOptional(MapOption(ctl.listIdentifier, OctetStringTlv), DecodeOctetString) == Ok(ctl.listIdentifier)
  {
    var whole := EncodeTlv(CertificateTrustListTlv(ctl));
    var su := OidSequenceTlv(ctl.subjectUsage);
    var li := MapOption(ctl.listIdentifier, OctetStringTlv);
    var sn := SequenceNumberTlv(ctl.sequenceNumber);
    var rest := OptBytes(sn) + CtlTailBytes(Tail(ctl));
    ReadOptionalAbsent(su, OptBytes(li) + rest, IsIntegerTag);
    ValidWithin(su, whole);
    TlvRoundTrip(su, OptBytes(li) + rest);
    LengthEncodableMonotone(|EncodeTlv(su)|, |whole|);
    OidSequenceRoundTrip(ctl.subjectUsage);
    if li.Some? {
      ValidWithin(li.value, whole);
    } else if sn.Some? {
      PeekEncoded(sn.value, CtlTailBytes(Tail(ctl)));
    } else {
      TailStartsWithTime(Tail(ctl), []);
      assert rest == CtlTailBytes(Tail(ctl)) + [];
    }
    ReadOptionalEncoded(li, rest, IsOctetStringTag);
  }

  /**
   * Decoding inverts the derived encoding: every well-formed list whose
   * encoding fits the length octets comes back field for field.
   */
  lemma CertificateTrustListRoundTrip(ctl: CertificateTrustList)
    requires WellFormed(ctl) && LengthEncodable(|EncodeTlv(CertificateTrustListTlv(ctl))|)
    ensures DecodeCertificateTrustList(CertificateTrustListTlv(ctl)) == Ok(ctl)
  {
    FieldsRoundTrip(ctl);
    assert ctl == CertificateTrustList(V1, ctl.subjectUsage, ctl.listIdentifier, ctl.sequenceNumber, ctl.thisUpdate,
                                       ctl.nextUpdate, ctl.subjectAlgorithm, ctl.trustedSubjects, ctl.ctlExtensions);
  }

  lemma FieldsRoundTrip(ctl: CertificateTrustList)
    requires WellFormed(ctl) && LengthEncodable(|EncodeTlv(CertificateTrustListTlv(ctl))|)
    ensures DecodeCertificateTrustList(CertificateTrustListTlv(ctl)) ==
      Ok(CertificateTrustList(V1, ctl.subjectUsage, ctl.listIdentifier, ctl.sequenceNumber, ctl.thisUpdate,
                              ctl.nextUpdate, ctl.subjectAlgorithm, ctl.trustedSubjects, ctl.ctlExtensions))
  {
    var whole := EncodeTlv(CertificateTrustListTlv(ctl));
    var c := CertificateTrustListTlv(ctl).content;
    var su := OidSequenceTlv(ctl.subjectUsage);
    var li := MapOption(ctl.listIdentifier, OctetStringTlv);
    var sn := SequenceNumberTlv(ctl.sequenceNumber);
    var tail := CtlTailBytes(Tail(ctl));
    assert
      && ReadOptional(c, IsIntegerTag) == Ok((None, c))
      && ParseTlv(c) == Ok((su, OptBytes(li) + (OptBytes(sn) + tail)))
      && DecodeOidSequence(su) == Ok(ctl.subjectUsage)
      && ReadOptional(OptBytes(li) + (OptBytes(sn) + tail), IsOctetStringTag) == Ok((li, OptBytes(sn) + tail))
      && DecodeOptional(li, DecodeOctetString) == Ok(ctl.listIdentifier)
    by {
      CtlHeadRoundTrip(ctl);
    }
    SequenceNumberRoundTrip(ctl);
    assert DecodeCtlTail(tail) == Ok(Tail(ctl)) by {
      LengthEncodableMonotone(|tail|, |whole|);
      CtlTailRoundTrip(Tail(ctl));
    }
    var h := HeadReads(su, OptBytes(li) + (OptBytes(sn) + tail), ctl.subjectUsage, li, OptBytes(sn) + tail, ctl.listIdentifier);
    DecodeWithDefaultVersion(CertificateTrustListTlv(ctl), h, sn, tail, ctl.sequenceNumber, Tail(ctl));
  }

  /** The sequence number, OPTIONAL, reads back as encoded and leaves the fields from thisUpdate on. */
  lemma SequenceNumberRoundTrip(ctl: CertificateTrustList)
    requires WellFormed(ctl) && LengthEncodable(|EncodeTlv(CertificateTrustListTlv(ctl))|)
    ensures
      var sn := SequenceNumberTlv(ctl.sequenceNumber);
      && ReadOptional(OptBytes(sn) + CtlTailBytes(Tail(ctl)), IsIntegerTag) == Ok((sn, CtlTailBytes(Tail(ctl))))
      && DecodeOptional(sn, DecodeUint) == Ok(ctl.sequenceNumber)
  {
    var sn := SequenceNumberTlv(ctl.sequenceNumber);
    var tail := CtlTailBytes(Tail(ctl));
    if sn.Some? {
      ValidWithin(sn.value, EncodeTlv(CertificateTrustListTlv(ctl)));
    } else {
      TailStartsWithTime(Tail(ctl), []);
      assert tail == tail + [];
    }
    ReadOptionalEncoded(sn, tail, IsIntegerTag);
  }

  /** What the decoder has read before the sequence number: subjectUsage and listIdentifier, each as element and value, and what follows each. */
  datatype HeadReads = HeadReads(
    usageTlv: Tlv, afterUsage: seq<byte>, usage: seq<Oid>,
    listTlv: Option<Tlv>, afterList: seq<byte>, listIdentifier: Option<seq<byte>>)

  /** The reads `h` are those the decoder makes of `t` when the version is left to its default. */
  predicate HeadReadsFrom(t: Tlv, h: HeadReads) {
    && t.tag == SEQUENCE && ReadOptional(t.content, IsIntegerTag) == Ok((None, t.content))
    && ParseTlv(t.content) == Ok((h.usageTlv, h.afterUsage)) && DecodeOidSequence(h.usageTlv) == Ok(h.usage)
    && ReadOptional(h.afterUsage, IsOctetStringTag) == Ok((h.listTlv, h.afterList))
    && DecodeOptional(h.listTlv, DecodeOctetString) == Ok(h.listIdentifier)
  }

  /** How the decoder composes its steps when the version is left to its default. */
  lemma DecodeWithDefaultVersion(t: Tlv, h: HeadReads, sn: Option<Tlv>, rest: seq<byte>,
                                 sequenceNumber: Option<seq<byte>>, tail: CtlTail)
    requires HeadReadsFrom(t, h)
    requires ReadOptional(h.afterList, IsIntegerTag) == Ok((sn, rest)) && DecodeOptional(sn, DecodeUint) == Ok(sequenceNumber)
    requires DecodeCtlTail(rest) == Ok(tail)
    ensures DecodeCertificateTrustList(t) == Ok(CertificateTrustList(V1, h.usage, h.listIdentifier, sequenceNumber, tail.thisUpdate,
                                                                      tail.nextUpdate, tail.subjectAlgorithm, tail.trustedSubjects, tail.ctlExtensions))
  {
  }

  // ---------------------------------------------------------------------
  // from_der
  // ---------------------------------------------------------------------

  /**
   * `CertificateTrustList::from_der` after the input has been read: the
   * envelope must be signed data, its encapsulated type the CTL type, its
   * content present; then the content is decoded as the list.
   */
  function FromDer(bs: seq<byte>): (r: Result<CertificateTrustList, CtlError>)
    ensures r != Err(MissingSignedData)
  {
    match DecodeContentInfo(bs)
    case Err(e) => Err(Der(e))
    case Ok(OtherInfo(contentType, _)) => Err(ContentType(contentType))
    // This version of the envelope requires signed-data content while decoding `ContentInfo`.
    case Ok(SignedDataInfo(None)) => Err(Der(Truncated))
    case Ok(SignedDataInfo(Some(sd))) =>
      if sd.eContentType != MS_CERT_TRUST_LIST_OID then Err(Content(sd.eContentType))
      else if sd.eContent.None? then Err(MissingSignedDataContent)
      else
        match DecodeCertificateTrustList(sd.eContent.value)
        case Err(e) => Err(Der(e))
        case Ok(ctl) => Ok(ctl)
  }

  // ---------------------------------------------------------------------
  // TrustedSubject accessors
  // ---------------------------------------------------------------------

  /** `cert_id`: the identifier octets, unchanged. */
  function CertId(s: TrustedSubject): seq<byte> {
    s.identifier
  }

  /** `cert_id` of a decoded subject is exactly the contents octets of its subjectIdentifier OCTET STRING, as they stand in the encoding. */
  lemma CertIdOfDecoded(t: Tlv)
    requires DecodeTrustedSubject(t).Ok?
    ensures ParseTlv(t.content).Ok?
    ensures ParseTlv(t.content).value.0 == Tlv(OCTET_STRING, CertId(DecodeTrustedSubject(t).value))
  {
  }

  /** `MetaEku ::= SEQUENCE OF OBJECT IDENTIFIER`, filling the whole buffer. */
  function MetaEkuFromDer(bs: seq<byte>): (r: Result<seq<Oid>, DerError>)
    ensures r.Ok? ==> forall i :: 0 <= i < |r.value| ==> ValidOid(r.value[i])
  {
    var t :- DecodeExact(bs);
    DecodeOidSequence(t)
  }

  predicate IsMetaEkuAttribute(a: Attribute) {
    a.oid == MS_CERT_PROP_ID_METAEKUS_OID
  }

  function AttributeValues(a: Attribute): seq<Tlv> {
    a.values
  }

  /**
   * One attribute value read as an OCTET STRING and its octets decoded as a
   * `MetaEku` document. A value of another type yields no item at all, as
   * iterating over a failed `decode_as` does.
   */
  function ValueMetaEku(v: Tlv): (r: seq<Result<seq<Oid>, DerError>>)
    ensures |r| <= 1 && (r == [] <==> v.tag != OCTET_STRING)
  {
    if v.tag != OCTET_STRING then [] else [MetaEkuFromDer(v.content)]
  }

  function OkAll(oids: seq<Oid>): (r: seq<Result<Oid, DerError>>)
    ensures |r| == |oids| && forall i :: 0 <= i < |oids| ==> r[i] == Ok(oids[i])
  {
    if oids == [] then [] else [Ok(oids[0])] + OkAll(oids[1..])
  }

  /** `flatten_ok` for one item: every identifier of a decoded list as `Ok`, or the decode error once. */
  function FlattenOk(r: Result<seq<Oid>, DerError>): seq<Result<Oid, DerError>> {
    match r
    case Err(e) => [Err(e)]
    case Ok(oids) => OkAll(oids)
  }

  /**
   * `extended_key_usages`, materialised: the attributes of the meta-EKU
   * type, all their values, each value's `MetaEku` document, and each
   * document's identifiers, in encounter order and without deduplication.
   */
  function ExtendedKeyUsages(s: TrustedSubject): (r: seq<Result<Oid, DerError>>)
    ensures s.attributes.None? ==> r == []
  {
    var attrs := if s.attributes.Some? then s.attributes.value else [];
    var values := FlatMap(Filter(attrs, IsMetaEkuAttribute), AttributeValues);
    FlatMap(FlatMap(values, ValueMetaEku), FlattenOk)
  }

  /** A subject whose only attribute is a meta-EKU attribute with the given values. */
  function WithMetaEkus(identifier: seq<byte>, values: seq<Tlv>): TrustedSubject {
    TrustedSubject(identifier, Some([Attribute(MS_CERT_PROP_ID_METAEKUS_OID, values)]))
  }

  // ---------------------------------------------------------------------
  // Serialisation of a subject
  // ---------------------------------------------------------------------

  /** What the `Serialize` implementation writes: the identifier in lowercase hex and the purposes. */
  datatype SerializedSubject = SerializedSubject(identifier: string, ekus: seq<Oid>)

  /** Collects a sequence of results, stopping at the first error. */
  function CollectOk<T, E>(rs: seq<Result<T, E>>): (r: Result<seq<T>, E>)
    ensures r.Ok? <==> forall i :: 0 <= i < |rs| ==> rs[i].Ok?
    ensures r.Ok? ==> |r.value| == |rs| && forall i :: 0 <= i < |rs| ==> rs[i] == Ok(r.value[i])
    ensures r.Err? ==> exists k :: 0 <= k < |rs| && rs[k] == Err(r.error) && forall j :: 0 <= j < k ==> rs[j].Ok?
  {
    if rs == [] then Ok([])
    else
      match rs[0]
      case Err(e) => Err(e)
      case Ok(x) =>
        match CollectOk(rs[1..])
        case Err(e) => Err(e)
        case Ok(xs) => Ok([x] + xs)
  }

  /**
   * The `Serialize` implementation: fails as a whole on the first purpose
   * that did not decode; otherwise writes the lowercase-hex identifier and
   * every purpose in order.
   */
  function Serialize(s: TrustedSubject): Result<SerializedSubject, DerError> {
    var ekus :- CollectOk(ExtendedKeyUsages(s));
    Ok(SerializedSubject(Hex.Encode(s.identifier), ekus))
  }

  // ---------------------------------------------------------------------
  // Properties of the purpose extraction
  // ---------------------------------------------------------------------

  predicate DocumentIsValid(r: Result<seq<Oid>, DerError>) {
    r.Ok? ==> forall i :: 0 <= i < |r.value| ==> ValidOid(r.value[i])
  }

  predicate ItemIsValid(r: Result<Oid, DerError>) {
    r.Ok? ==> ValidOid(r.value)
  }

  /** Every purpose that decodes is a well-formed object identifier. */
  lemma EkusAreValidOids(s: TrustedSubject)
    ensures forall i :: 0 <= i < |ExtendedKeyUsages(s)| ==> ItemIsValid(ExtendedKeyUsages(s)[i])
  {
    var attrs := if s.attributes.Some? then s.attributes.value else [];
    var values := FlatMap(Filter(attrs, IsMetaEkuAttribute), AttributeValues);
    var docs := FlatMap(values, ValueMetaEku);
    FlatMapItems(values, ValueMetaEku, DocumentIsValid);
    forall d, j | d in docs && 0 <= j < |FlattenOk(d)|
      ensures ItemIsValid(FlattenOk(d)[j])
    {
      var k :| 0 <= k < |docs| && docs[k] == d;
      assert DocumentIsValid(docs[k]);
    }
    FlatMapItems(docs, FlattenOk, ItemIsValid);
  }

  /** Purposes are collected attribute by attribute: the list for a concatenation is the concatenation of the lists. */
  lemma EkusOfConcatenation(identifier: seq<byte>, a1: seq<Attribute>, a2: seq<Attribute>)
    ensures ExtendedKeyUsages(TrustedSubject(identifier, Some(a1 + a2)))
      == ExtendedKeyUsages(TrustedSubject(identifier, Some(a1))) + ExtendedKeyUsages(TrustedSubject(identifier, Some(a2)))
  {
    var f1, f2 := Filter(a1, IsMetaEkuAttribute), Filter(a2, IsMetaEkuAttribute);
    FilterAppend(a1, a2, IsMetaEkuAttribute);
    FlatMapAppend(f1, f2, AttributeValues);
    var v1, v2 := FlatMap(f1, AttributeValues), FlatMap(f2, AttributeValues);
    FlatMapAppend(v1, v2, ValueMetaEku);
    FlatMapAppend(FlatMap(v1, ValueMetaEku), FlatMap(v2, ValueMetaEku), FlattenOk);
  }

  /** An attribute of any other type contributes nothing, wherever it stands. */
  lemma OtherAttributeIgnored(identifier: seq<byte>, before: seq<Attribute>, a: Attribute, after: seq<Attribute>)
    requires a.oid != MS_CERT_PROP_ID_METAEKUS_OID
    ensures ExtendedKeyUsages(TrustedSubject(identifier, Some(before + [a] + after)))
      == ExtendedKeyUsages(TrustedSubject(identifier, Some(before + after)))
  {
    var p := IsMetaEkuAttribute;
    assert Filter(before + [a] + after, p) == Filter(before + after, p) by {
      FilterAppend(before + [a], after, p);
      FilterAppend(before, [a], p);
      FilterAppend(before, after, p);
      assert Filter([a], p) == [] + Filter([], p);
    }
  }

  /** The purposes of a subject with one meta-EKU attribute are those of its values. */
  lemma MetaEkuSubject(identifier: seq<byte>, vs: seq<Tlv>)
    ensures ExtendedKeyUsages(WithMetaEkus(identifier, vs)) == FlatMap(FlatMap(vs, ValueMetaEku), FlattenOk)
  {
    var a := Attribute(MS_CERT_PROP_ID_METAEKUS_OID, vs);
    assert [a][1..] == [];
    calc {
      ExtendedKeyUsages(WithMetaEkus(identifier, vs));
      FlatMap(FlatMap(FlatMap(Filter([a], IsMetaEkuAttribute), AttributeValues), ValueMetaEku), FlattenOk);
      { assert Filter([a], IsMetaEkuAttribute) == [a]; }
      FlatMap(FlatMap(FlatMap([a], AttributeValues), ValueMetaEku), FlattenOk);
      { assert FlatMap([a], AttributeValues) == vs + []; assert vs + [] == vs; }
      FlatMap(FlatMap(vs, ValueMetaEku), FlattenOk);
    }
  }

  /** Within one meta-EKU attribute, purposes are collected value by value. */
  lemma EkusOfValues(identifier: seq<byte>, vs1: seq<Tlv>, vs2: seq<Tlv>)
    ensures ExtendedKeyUsages(WithMetaEkus(identifier, vs1 + vs2))
      == ExtendedKeyUsages(WithMetaEkus(identifier, vs1)) + ExtendedKeyUsages(WithMetaEkus(identifier, vs2))
  {
    MetaEkuSubject(identifier, vs1 + vs2);
    MetaEkuSubject(identifier, vs1);
    MetaEkuSubject(identifier, vs2);
    FlatMapAppend(vs1, vs2, ValueMetaEku);
    FlatMapAppend(FlatMap(vs1, ValueMetaEku), FlatMap(vs2, ValueMetaEku), FlattenOk);
  }

  /** A value that is not an OCTET STRING contributes nothing and no error, wherever it stands. */
  lemma NonOctetStringValueIgnored(identifier: seq<byte>, before: seq<Tlv>, v: Tlv, after: seq<Tlv>)
    requires v.tag != OCTET_STRING
    ensures ExtendedKeyUsages(WithMetaEkus(identifier, before + [v] + after))
      == ExtendedKeyUsages(WithMetaEkus(identifier, before + after))
  {
    EkusOfValues(identifier, before + [v], after);
    EkusOfValues(identifier, before, [v]);
    EkusOfValues(identifier, before, after);
    SingleValueEkus(identifier, v);
    assert ExtendedKeyUsages(WithMetaEkus(identifier, before + [v])) == ExtendedKeyUsages(WithMetaEkus(identifier, before));
  }

  /** A meta-EKU value whose octets do not decode yields exactly one error item, and the values around it keep theirs. */
  lemma MalformedValueOneError(identifier: seq<byte>, before: seq<Tlv>, v: Tlv, after: seq<Tlv>)
    requires v.tag == OCTET_STRING && MetaEkuFromDer(v.content).Err?
    ensures ExtendedKeyUsages(WithMetaEkus(identifier, before + [v] + after))
      == ExtendedKeyUsages(WithMetaEkus(identifier, before)) + [Err(MetaEkuFromDer(v.content).error)]
           + ExtendedKeyUsages(WithMetaEkus(identifier, after))
  {
    EkusOfValues(identifier, before + [v], after);
    EkusOfValues(identifier, before, [v]);
    SingleValueEkus(identifier, v);
  }

  /** The purposes of a single attribute value: none unless it is an OCTET STRING, else what its document yields. */
  lemma SingleValueEkus(identifier: seq<byte>, v: Tlv)
    ensures ExtendedKeyUsages(WithMetaEkus(identifier, [v])) ==
      if v.tag != OCTET_STRING then [] else FlattenOk(MetaEkuFromDer(v.content))
  {
    MetaEkuSubject(identifier, [v]);
    FlatMapSingle(v, ValueMetaEku);
    if v.tag == OCTET_STRING {
      FlatMapSingle(MetaEkuFromDer(v.content), FlattenOk);
    }
  }

  /** 1.3.6.1.5.5.7.3.2, id-kp-clientAuth (RFC 5280 section 4.2.1.12). */
  const ID_KP_CLIENT_AUTH: Oid := [0x2B, 0x06, 0x01, 0x05, 0x05, 0x07, 0x03, 0x02]
  /** 1.3.6.1.5.5.7.3.4, id-kp-emailProtection. */
  const ID_KP_EMAIL_PROTECTION: Oid := [0x2B, 0x06, 0x01, 0x05, 0x05, 0x07, 0x03, 0x04]
  /** 1.3.6.1.5.5.7.3.1, id-kp-serverAuth. */
  const ID_KP_SERVER_AUTH: Oid := [0x2B, 0x06, 0x01, 0x05, 0x05, 0x07, 0x03, 0x01]

  /** The `MetaEku` test vector of the crate: a SEQUENCE of three object identifiers. */
  const METAEKU_TEST_VECTOR: seq<byte> :=
    [0x30, 0x1E,
     0x06, 0x08, 0x2B, 0x06, 0x01, 0x05, 0x05, 0x07, 0x03, 0x02,
     0x06, 0x08, 0x2B, 0x06, 0x01, 0x05, 0x05, 0x07, 0x03, 0x04,
     0x06, 0x08, 0x2B, 0x06, 0x01, 0x05, 0x05, 0x07, 0x03, 0x01]

  lemma ValidEkuOids()
    ensures ValidOid(ID_KP_CLIENT_AUTH) && ValidOid(ID_KP_EMAIL_PROTECTION) && ValidOid(ID_KP_SERVER_AUTH)
  {
    assert forall i :: 0 <= i < 8 ==> ID_KP_CLIENT_AUTH[i] != 128;
    assert forall i :: 0 <= i < 8 ==> ID_KP_EMAIL_PROTECTION[i] != 128;
    assert forall i :: 0 <= i < 8 ==> ID_KP_SERVER_AUTH[i] != 128;
  }

  /** The three purposes of the test vector as OBJECT IDENTIFIER elements. */
  function TestVectorElements(): seq<Tlv> {
    [Tlv(OBJECT_IDENTIFIER, ID_KP_CLIENT_AUTH), Tlv(OBJECT_IDENTIFIER, ID_KP_EMAIL_PROTECTION), Tlv(OBJECT_IDENTIFIER, ID_KP_SERVER_AUTH)]
  }

  lemma ElementEncoding(o: Oid)
    requires |o| == 8
    ensures EncodeTlv(Tlv(OBJECT_IDENTIFIER, o)) == [0x06, 0x08] + o
  {
    assert EncodeTag(OBJECT_IDENTIFIER) == [0x06];
  }

  lemma TestVectorBody()
    ensures EncodeAll(TestVectorElements())
      == [0x06, 0x08] + ID_KP_CLIENT_AUTH + [0x06, 0x08] + ID_KP_EMAIL_PROTECTION + [0x06, 0x08] + ID_KP_SERVER_AUTH
  {
    var ts := TestVectorElements();
    var e1, e2, e3 := EncodeTlv(ts[0]), EncodeTlv(ts[1]), EncodeTlv(ts[2]);
    ElementEncoding(ID_KP_CLIENT_AUTH);
    ElementEncoding(ID_KP_EMAIL_PROTECTION);
    ElementEncoding(ID_KP_SERVER_AUTH);
    assert EncodeAll(ts[2..]) == e3 by {
      assert EncodeAll(ts[2..][1..]) == [];
    }
    assert EncodeAll(ts[1..]) == e2 + e3 by {
      assert ts[1..][1..] == ts[2..];
    }
  }

  lemma TestVectorEncoding()
    ensures EncodeTlv(Tlv(SEQUENCE, EncodeAll(TestVectorElements()))) == METAEKU_TEST_VECTOR
  {
    var body := EncodeAll(TestVectorElements());
    TestVectorBody();
    SequenceHeader(body);
    TestVectorLayout();
  }

  lemma SequenceHeader(body: seq<byte>)
    requires |body| == 30
    ensures EncodeTlv(Tlv(SEQUENCE, body)) == [0x30, 0x1E] + body
  {
    assert EncodeTag(SEQUENCE) == [0x30];
    assert EncodeLength(30) == [0x1E];
  }

  lemma TestVectorLayout()
    ensures METAEKU_TEST_VECTOR == [0x30, 0x1E] + ([0x06, 0x08] + ID_KP_CLIENT_AUTH + [0x06, 0x08] + ID_KP_EMAIL_PROTECTION + [0x06, 0x08] + ID_KP_SERVER_AUTH)
  {
  }

  /** The test vector decodes to exactly clientAuth, emailProtection, serverAuth, in that order. */
  lemma MetaEkuTestVector()
    ensures MetaEkuFromDer(METAEKU_TEST_VECTOR) == Ok([ID_KP_CLIENT_AUTH, ID_KP_EMAIL_PROTECTION, ID_KP_SERVER_AUTH])
  {
    var ts := TestVectorElements();
    TestVectorEncoding();
    DecodeExactEncoded(Tlv(SEQUENCE, EncodeAll(ts)));
    ValidEkuOids();
    DecodeSeqOfEncoded(ts, DecodeOid, [ID_KP_CLIENT_AUTH, ID_KP_EMAIL_PROTECTION, ID_KP_SERVER_AUTH]);
  }

  /** A subject whose one meta-EKU attribute holds the test vector yields exactly those three purposes, in order. */
  lemma SubjectTestVector(identifier: seq<byte>)
    ensures ExtendedKeyUsages(WithMetaEkus(identifier, [Tlv(OCTET_STRING, METAEKU_TEST_VECTOR)]))
      == [Ok(ID_KP_CLIENT_AUTH), Ok(ID_KP_EMAIL_PROTECTION), Ok(ID_KP_SERVER_AUTH)]
  {
    MetaEkuTestVector();
    SingleValueEkus(identifier, Tlv(OCTET_STRING, METAEKU_TEST_VECTOR));
  }

  /** Serialisation succeeds exactly when every purpose decoded; the identifier is rendered losslessly as lowercase hex. */
  lemma SerializeSpec(s: TrustedSubject)
    ensures Serialize(s).Ok? <==> forall i :: 0 <= i < |ExtendedKeyUsages(s)| ==> ExtendedKeyUsages(s)[i].Ok?
    ensures Serialize(s).Ok? ==>
      && Hex.Decode(Serialize(s).value.identifier) == Some(CertId(s))
      && |Serialize(s).value.identifier| == 2 * |CertId(s)|
      && (forall i :: 0 <= i < |Serialize(s).value.identifier| ==> Hex.IsLowerHexDigit(Serialize(s).value.identifier[i]))
      && |Serialize(s).value.ekus| == |ExtendedKeyUsages(s)|
      && forall i :: 0 <= i < |ExtendedKeyUsages(s)| ==> ExtendedKeyUsages(s)[i] == Ok(Serialize(s).value.ekus[i])
  {
    Hex.DecodeEncode(s.identifier);
  }

  // ---------------------------------------------------------------------
  // from_der on encoded envelopes
  // ---------------------------------------------------------------------

  /** A `ContentInfo` around `SignedData` with the given encapsulated content and skipped fields. */
  function SignedEnvelope(eContentType: Oid, eContent: Option<Tlv>, skipped: SkippedFields): seq<byte> {
    ContentInfoBytes(SIGNED_DATA_OID, Some(SignedDataTlv(eContentType, eContent, skipped)))
  }

  /** The signed-data envelope decodes to its encapsulated content type and content, whatever fills the other fields. */
  lemma SignedEnvelopeDecodes(eContentType: Oid, eContent: Option<Tlv>, skipped: SkippedFields)
    requires ValidOid(eContentType) && LengthEncodable(|SignedEnvelope(eContentType, eContent, skipped)|)
    ensures DecodeContentInfo(SignedEnvelope(eContentType, eContent, skipped)) == Ok(SignedDataInfo(Some(SignedData(eContentType, eContent))))
  {
    var sd := SignedDataTlv(eContentType, eContent, skipped);
    SignedDataIsPkcs7ContentType();
    ContentInfoDecodes(SIGNED_DATA_OID, Some(sd));
    LengthEncodableMonotone(|EncodeTlv(sd)|, |SignedEnvelope(eContentType, eContent, skipped)|);
    SignedDataRoundTrip(eContentType, eContent, skipped);
  }

  /** Any other PKCS#7 content type fails with that content type, whatever the content: nothing further is decoded. */
  lemma FromDerNotSignedData(contentType: Oid, content: Option<Tlv>)
    requires IsPkcs7ContentType(contentType) && contentType != SIGNED_DATA_OID
    requires LengthEncodable(|ContentInfoBytes(contentType, content)|)
    ensures FromDer(ContentInfoBytes(contentType, content)) == Err(ContentType(contentType))
  {
    Pkcs7ContentTypeValid(contentType);
    ContentInfoDecodes(contentType, content);
  }

  /** A content type outside PKCS#7 is refused while the envelope is decoded, as a DER error. */
  lemma FromDerUnknownContentType(contentType: Oid, content: Option<Tlv>)
    requires ValidOid(contentType) && !IsPkcs7ContentType(contentType)
    requires LengthEncodable(|ContentInfoBytes(contentType, content)|)
    ensures FromDer(ContentInfoBytes(contentType, content)) == Err(Der(InvalidValue(OBJECT_IDENTIFIER)))
  {
    ContentInfoDecodes(contentType, content);
  }

  /** Signed data without content is a DER error in this version; `MissingSignedData` is never returned. */
  lemma FromDerSignedDataWithoutContent()
    ensures FromDer(ContentInfoBytes(SIGNED_DATA_OID, None)) == Err(Der(Truncated))
  {
    SignedDataIsPkcs7ContentType();
    ContentInfoDecodes(SIGNED_DATA_OID, None);
  }

  /** A foreign encapsulated type fails with that type, even when the content is absent: the type is checked first. */
  lemma FromDerWrongInnerType(eContentType: Oid, eContent: Option<Tlv>, skipped: SkippedFields)
    requires ValidOid(eContentType) && eContentType != MS_CERT_TRUST_LIST_OID
    requires LengthEncodable(|SignedEnvelope(eContentType, eContent, skipped)|)
    ensures FromDer(SignedEnvelope(eContentType, eContent, skipped)) == Err(Content(eContentType))
  {
    SignedEnvelopeDecodes(eContentType, eContent, skipped);
  }

  lemma ValidCtlOid()
    ensures ValidOid(MS_CERT_TRUST_LIST_OID)
  {
    assert forall i :: 0 <= i < 9 ==> MS_CERT_TRUST_LIST_OID[i] != 128 || (i > 0 && MS_CERT_TRUST_LIST_OID[i - 1] >= 128);
  }

  /** The CTL type without content fails with `MissingSignedDataContent`, whatever fills the other fields. */
  lemma FromDerMissingContent(skipped: SkippedFields)
    requires LengthEncodable(|SignedEnvelope(MS_CERT_TRUST_LIST_OID, None, skipped)|)
    ensures FromDer(SignedEnvelope(MS_CERT_TRUST_LIST_OID, None, skipped)) == Err(MissingSignedDataContent)
  {
    ValidCtlOid();
    SignedEnvelopeDecodes(MS_CERT_TRUST_LIST_OID, None, skipped);
  }

  /** With the CTL type and content present, the result is exactly the content decoded as the list, or that decode's DER error. */
  lemma FromDerDecodesContent(content: Tlv, skipped: SkippedFields)
    requires LengthEncodable(|SignedEnvelope(MS_CERT_TRUST_LIST_OID, Some(content), skipped)|)
    ensures FromDer(SignedEnvelope(MS_CERT_TRUST_LIST_OID, Some(content), skipped)) ==
      match DecodeCertificateTrustList(content)
      case Err(e) => Err(Der(e))
      case Ok(ctl) => Ok(ctl)
  {
    ValidCtlOid();
    SignedEnvelopeDecodes(MS_CERT_TRUST_LIST_OID, Some(content), skipped);
  }

  /** The envelope is longer than the encoded content it carries. */
  lemma EnvelopeHoldsContent(t: Tlv, skipped: SkippedFields)
    ensures |EncodeTlv(t)| < |SignedEnvelope(MS_CERT_TRUST_LIST_OID, Some(t), skipped)|
  {
    assert |EncodeTlv(t)| < |ExplicitBytes(Some(t))|;
    assert |ExplicitBytes(Some(t))| <= |EncapBytes(MS_CERT_TRUST_LIST_OID, Some(t))|;
    assert |EncapBytes(MS_CERT_TRUST_LIST_OID, Some(t))| < |EncodeTlv(SignedDataTlv(MS_CERT_TRUST_LIST_OID, Some(t), skipped))|;
  }

  /** End to end: a well-formed list, encoded and wrapped as CTL-typed signed data, comes back from `from_der` unchanged. */
  lemma FromDerRoundTrip(ctl: CertificateTrustList, skipped: SkippedFields)
    requires WellFormed(ctl)
    requires LengthEncodable(|SignedEnvelope(MS_CERT_TRUST_LIST_OID, Some(CertificateTrustListTlv(ctl)), skipped)|)
    ensures FromDer(SignedEnvelope(MS_CERT_TRUST_LIST_OID, Some(CertificateTrustListTlv(ctl)), skipped)) == Ok(ctl)
  {
    var t := CertificateTrustListTlv(ctl);
    var whole := SignedEnvelope(MS_CERT_TRUST_LIST_OID, Some(t), skipped);
    EnvelopeHoldsContent(t, skipped);
    LengthEncodableMonotone(|EncodeTlv(t)|, |whole|);
    FromDerDecodesContent(t, skipped);
    CertificateTrustListRoundTrip(ctl);
  }
}
