/**
 * The earlier copy of the crate (src/lib.rs). It shares the error type, the
 * trusted-subject schema and the fields from thisUpdate on with the current
 * crate, and differs in four places: the sequence number is an untyped
 * OPTIONAL `Any`, `cert_id` renders the identifier as lowercase hex, signed
 * data without content is reported as `MissingSignedData`, and a trusted
 * subject has neither `extended_key_usages` nor a `Serialize` implementation.
 */
module LegacyCtl {
  import opened Der
  import opened X509
  import opened Pkcs7
  import W = WindowsCtl
  import Hex

  datatype CertificateTrustList = CertificateTrustList(
    version: W.CtlVersion,
    subjectUsage: seq<Oid>,
    listIdentifier: Option<seq<byte>>,
    sequenceNumber: Option<Tlv>,         // any element at all
    thisUpdate: Time,
    nextUpdate: Option<Time>,
    subjectAlgorithm: AlgorithmIdentifier,
    trustedSubjects: Option<seq<W.TrustedSubject>>,
    ctlExtensions: Option<Tlv>)

  /**
   * `CertificateTrustList` as this copy declares it: the same fields in the
   * same order, but an OPTIONAL `Any` accepts whatever element comes next,
   * so `sequenceNumber` is present whenever any element follows
   * `listIdentifier`.
   */
  function DecodeCertificateTrustList(t: Tlv): (r: Result<CertificateTrustList, DerError>)
    ensures r.Ok? ==> t.tag == SEQUENCE
  {
    var c :- Expect(t, SEQUENCE);
    var v :- ReadOptional(c, W.IsIntegerTag);
    var version :- if v.0.Some? then W.DecodeVersion(v.0.value) else Ok(W.V1);
    var su :- ParseTlv(v.1);
    var subjectUsage :- DecodeOidSequence(su.0);
    var li :- ReadOptional(su.1, W.IsOctetStringTag);
    var listIdentifier :- DecodeOptional(li.0, DecodeOctetString);
    var sn :- ReadOptional(li.1, AnyTag);
    var tail :- W.DecodeCtlTail(sn.1);
    Ok(CertificateTrustList(version, subjectUsage, listIdentifier, sn.0, tail.thisUpdate,
                            tail.nextUpdate, tail.subjectAlgorithm, tail.trustedSubjects, tail.ctlExtensions))
  }

  /**
   * `from_der` of this copy after the input has been read. Signed data
   * whose content is absent is reported as `MissingSignedData`; the rest
   * of the envelope checks are those of the current crate.
   */
  function FromDer(bs: seq<byte>): (r: Result<CertificateTrustList, W.CtlError>)
    ensures r == Err(W.MissingSignedData) <==> DecodeContentInfo(bs) == Ok(SignedDataInfo(None))
  {
    match DecodeContentInfo(bs)
    case Err(e) => Err(W.Der(e))
    case Ok(SignedDataInfo(None)) => Err(W.MissingSignedData)
    case Ok(OtherInfo(contentType, _)) => Err(W.ContentType(contentType))
    case Ok(SignedDataInfo(Some(sd))) =>
      if sd.eContentType != W.MS_CERT_TRUST_LIST_OID then Err(W.Content(sd.eContentType))
      else if sd.eContent.None? then Err(W.MissingSignedDataContent)
      else
        match DecodeCertificateTrustList(sd.eContent.value)
        case Err(e) => Err(W.Der(e))
        case Ok(ctl) => Ok(ctl)
  }

  /** `cert_id`: the identifier as lowercase hex, two digits per octet, from which the octets can be read back. */
  function CertId(s: W.TrustedSubject): (r: string)
    ensures |r| == 2 * |s.identifier|
    ensures forall i :: 0 <= i < |r| ==> Hex.IsLowerHexDigit(r[i])
    ensures Hex.Decode(r) == Some(s.identifier)
  {
    Hex.DecodeEncode(s.identifier);
    Hex.Encode(s.identifier)
  }

  // ---------------------------------------------------------------------
  // from_der on encoded envelopes
  // ---------------------------------------------------------------------

  /** Signed data without content: this copy names the failure itself, where the current crate reports a DER error. */
  lemma FromDerSignedDataWithoutContent()
    ensures FromDer(ContentInfoBytes(SIGNED_DATA_OID, None)) == Err(W.MissingSignedData)
    ensures W.FromDer(ContentInfoBytes(SIGNED_DATA_OID, None)) == Err(W.Der(Truncated))
  {
    SignedDataIsPkcs7ContentType();
    ContentInfoDecodes(SIGNED_DATA_OID, None);
  }

  /** Apart from absent signed data, the envelope checks of both copies fail alike: same error for the same input. */
  lemma EnvelopeErrorsAgree(bs: seq<byte>)
    requires DecodeContentInfo(bs) != Ok(SignedDataInfo(None))
    ensures FromDer(bs).Err? && !FromDer(bs).error.Der? ==> W.FromDer(bs) == Err(FromDer(bs).error)
    ensures W.FromDer(bs).Err? && !W.FromDer(bs).error.Der? ==> FromDer(bs) == Err(W.FromDer(bs).error)
  {
  }

  /** With the CTL type and content present, the result is exactly the content decoded as this copy's list, or that decode's DER error. */
  lemma FromDerDecodesContent(content: Tlv, skipped: SkippedFields)
    requires LengthEncodable(|W.SignedEnvelope(W.MS_CERT_TRUST_LIST_OID, Some(content), skipped)|)
    ensures FromDer(W.SignedEnvelope(W.MS_CERT_TRUST_LIST_OID, Some(content), skipped)) ==
      match DecodeCertificateTrustList(content)
      case Err(e) => Err(W.Der(e))
      case Ok(ctl) => Ok(ctl)
  {
    W.ValidCtlOid();
    W.SignedEnvelopeDecodes(W.MS_CERT_TRUST_LIST_OID, Some(content), skipped);
  }

  // ---------------------------------------------------------------------
  // The sequence number read as `Any`
  // ---------------------------------------------------------------------

  /** How this decoder composes its steps when the version is left to its default. */
  lemma DecodeWithDefaultVersion(t: Tlv, h: W.HeadReads, sn: Option<Tlv>, rest: seq<byte>)
    requires W.HeadReadsFrom(t, h)
    requires ReadOptional(h.afterList, AnyTag) == Ok((sn, rest))
    ensures DecodeCertificateTrustList(t) ==
      match W.DecodeCtlTail(rest)
      case Err(e) => Err(e)
      case Ok(tail) => Ok(CertificateTrustList(W.V1, h.usage, h.listIdentifier, sn, tail.thisUpdate,
                                               tail.nextUpdate, tail.subjectAlgorithm, tail.trustedSubjects, tail.ctlExtensions))
  {
  }

  /** With a sequence number present, this copy reads the same list as the current crate, keeping the INTEGER element itself. */
  lemma SequenceNumberPresent(ctl: W.CertificateTrustList)
    requires W.WellFormed(ctl) && LengthEncodable(|EncodeTlv(W.CertificateTrustListTlv(ctl))|)
    requires ctl.sequenceNumber.Some?
    ensures DecodeCertificateTrustList(W.CertificateTrustListTlv(ctl)) ==
      Ok(CertificateTrustList(W.V1, ctl.subjectUsage, ctl.listIdentifier, Some(Tlv(INTEGER, UintContent(ctl.sequenceNumber.value))),
                              ctl.thisUpdate, ctl.nextUpdate, ctl.subjectAlgorithm, ctl.trustedSubjects, ctl.ctlExtensions))
  {
    var t := W.CertificateTrustListTlv(ctl);
    var whole := EncodeTlv(t);
    var su := OidSequenceTlv(ctl.subjectUsage);
    var li := MapOption(ctl.listIdentifier, W.OctetStringTlv);
    var sn := W.SequenceNumberTlv(ctl.sequenceNumber);
    var tail := W.CtlTailBytes(W.Tail(ctl));
    W.CtlHeadRoundTrip(ctl);
    assert ReadOptional(OptBytes(sn) + tail, AnyTag) == Ok((sn, tail)) by {
      ValidWithin(sn.value, whole);
      ReadOptionalEncoded(sn, tail, AnyTag);
    }
    assert W.DecodeCtlTail(tail) == Ok(W.Tail(ctl)) by {
      LengthEncodableMonotone(|tail|, |whole|);
      W.CtlTailRoundTrip(W.Tail(ctl));
    }
    var h := W.HeadReads(su, OptBytes(li) + (OptBytes(sn) + tail), ctl.subjectUsage, li, OptBytes(sn) + tail, ctl.listIdentifier);
    DecodeWithDefaultVersion(t, h, sn, tail);
  }

  /** With the sequence number absent, the `Any` field takes the thisUpdate element, and the rest is read from after it. */
  lemma AbsentSequenceNumberTakesThisUpdate(ctl: W.CertificateTrustList)
    requires W.WellFormed(ctl) && LengthEncodable(|EncodeTlv(W.CertificateTrustListTlv(ctl))|)
    requires ctl.sequenceNumber.None?
    ensures DecodeCertificateTrustList(W.CertificateTrustListTlv(ctl)) ==
      match W.DecodeCtlTail(W.AfterThisUpdate(W.Tail(ctl)))
      case Err(e) => Err(e)
      case Ok(tail) => Ok(CertificateTrustList(W.V1, ctl.subjectUsage, ctl.listIdentifier, Some(TimeTlv(ctl.thisUpdate)),
                                               tail.thisUpdate, tail.nextUpdate, tail.subjectAlgorithm, tail.trustedSubjects, tail.ctlExtensions))
  {
    var t := W.CertificateTrustListTlv(ctl);
    var whole := EncodeTlv(t);
    var su := OidSequenceTlv(ctl.subjectUsage);
    var li := MapOption(ctl.listIdentifier, W.OctetStringTlv);
    var tail := W.CtlTailBytes(W.Tail(ctl));
    var tu := TimeTlv(ctl.thisUpdate);
    var after := W.AfterThisUpdate(W.Tail(ctl));
    assert tail == EncodeTlv(tu) + after;
    W.CtlHeadRoundTrip(ctl);
    assert OptBytes(W.SequenceNumberTlv(ctl.sequenceNumber)) + tail == tail;
    assert ReadOptional(tail, AnyTag) == Ok((Some(tu), after)) by {
      ValidWithin(tu, whole);
      ReadOptionalPresent(tu, after, AnyTag);
    }
    var h := W.HeadReads(su, OptBytes(li) + tail, ctl.subjectUsage, li, tail, ctl.listIdentifier);
    DecodeWithDefaultVersion(t, h, Some(tu), after);
  }

  /**
   * With the sequence number absent, the `Any` field takes thisUpdate
   * instead. When nextUpdate is absent too, the decoder then meets the
   * algorithm identifier where a time must stand and fails; when nextUpdate
   * is present, the decode succeeds with every time shifted one field up.
   */
  lemma SequenceNumberAbsent(ctl: W.CertificateTrustList)
    requires W.WellFormed(ctl) && LengthEncodable(|EncodeTlv(W.CertificateTrustListTlv(ctl))|)
    requires ctl.sequenceNumber.None?
    ensures ctl.nextUpdate.None? ==>
      DecodeCertificateTrustList(W.CertificateTrustListTlv(ctl)) == Err(UnexpectedTag(UTC_TIME, SEQUENCE))
    ensures ctl.nextUpdate.Some? ==>
      DecodeCertificateTrustList(W.CertificateTrustListTlv(ctl)) ==
        Ok(CertificateTrustList(W.V1, ctl.subjectUsage, ctl.listIdentifier, Some(TimeTlv(ctl.thisUpdate)),
                                ctl.nextUpdate.value, None, ctl.subjectAlgorithm, ctl.trustedSubjects, ctl.ctlExtensions))
  {
    var t := W.CertificateTrustListTlv(ctl);
    var after := W.AfterThisUpdate(W.Tail(ctl));
    AfterThisUpdateEncodable(ctl);
    AbsentSequenceNumberTakesThisUpdate(ctl);
    if ctl.nextUpdate.None? {
      ShiftedTailFails(W.Tail(ctl));
    } else {
      var shifted := W.CtlTail(ctl.nextUpdate.value, None, ctl.subjectAlgorithm, ctl.trustedSubjects, ctl.ctlExtensions);
      assert W.DecodeCtlTail(after) == Ok(shifted) by {
        ShiftedTail(W.Tail(ctl));
        W.CtlTailRoundTrip(shifted);
      }
    }
  }

  /** After thisUpdate has been taken, an encoding without nextUpdate presents the algorithm identifier as the time. */
  lemma ShiftedTailFails(tail: W.CtlTail)
    requires tail.nextUpdate.None? && LengthEncodable(|W.AfterThisUpdate(tail)|)
    ensures W.DecodeCtlTail(W.AfterThisUpdate(tail)) == Err(UnexpectedTag(UTC_TIME, SEQUENCE))
  {
    var sa := AlgorithmIdentifierTlv(tail.subjectAlgorithm);
    var r3 := OptBytes(MapOption(tail.trustedSubjects, W.TrustedSubjectsTlv)) + ExplicitBytes(tail.ctlExtensions);
    assert W.AfterThisUpdate(tail) == EncodeTlv(sa) + r3;
    ValidWithin(sa, W.AfterThisUpdate(tail));
    TlvRoundTrip(sa, r3);
  }

  lemma AfterThisUpdateEncodable(ctl: W.CertificateTrustList)
    requires W.WellFormed(ctl) && LengthEncodable(|EncodeTlv(W.CertificateTrustListTlv(ctl))|)
    ensures LengthEncodable(|W.AfterThisUpdate(W.Tail(ctl))|)
  {
    var tail := W.CtlTailBytes(W.Tail(ctl));
    assert |W.AfterThisUpdate(W.Tail(ctl))| < |tail|;
    assert |tail| <= |W.CertificateTrustListTlv(ctl).content|;
    LengthEncodableMonotone(|W.AfterThisUpdate(W.Tail(ctl))|, |EncodeTlv(W.CertificateTrustListTlv(ctl))|);
  }

  /** When nextUpdate is present, what follows thisUpdate is laid out as a tail whose thisUpdate is that nextUpdate. */
  lemma ShiftedTail(tail: W.CtlTail)
    requires tail.nextUpdate.Some?
    ensures W.AfterThisUpdate(tail) == W.CtlTailBytes(W.CtlTail(tail.nextUpdate.value, None, tail.subjectAlgorithm, tail.trustedSubjects, tail.ctlExtensions))
  {
    var rest := EncodeTlv(AlgorithmIdentifierTlv(tail.subjectAlgorithm))
      + (OptBytes(MapOption(tail.trustedSubjects, W.TrustedSubjectsTlv)) + ExplicitBytes(tail.ctlExtensions));
    assert OptBytes(MapOption(tail.nextUpdate, TimeTlv)) == EncodeTlv(TimeTlv(tail.nextUpdate.value));
    assert OptBytes(MapOption(None, TimeTlv)) + rest == rest;
  }
}
