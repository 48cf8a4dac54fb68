/**
 * Stand-in for the `pkcs7` crate's envelope: `ContentInfo` (RFC 5652
 * section 3) and, for the `signedData` content type, the `SignedData`
 * structure (RFC 5652 sections 5.1 and 5.2). Only the encapsulated content
 * type and content are kept; the digest algorithms, certificates, CRLs and
 * signer infos are checked for their tags and skipped.
 */
module Pkcs7 {
  import opened Der

  /** pkcs-7, 1.2.840.113549.1.7, the arc of the PKCS#7 content types, as contents octets. */
  const PKCS7_ARC: seq<byte> := [0x2A, 0x86, 0x48, 0x86, 0xF7, 0x0D, 0x01, 0x07]

  /** id-signedData, 1.2.840.113549.1.7.2 (RFC 5652 section 5.1), as contents octets. */
  const SIGNED_DATA_OID: Oid := [0x2A, 0x86, 0x48, 0x86, 0xF7, 0x0D, 0x01, 0x07, 0x02]

  /**
   * The content types the envelope knows: data, signedData, envelopedData,
   * signedAndEnvelopedData, digestedData and encryptedData, that is
   * 1.2.840.113549.1.7.1 to 1.2.840.113549.1.7.6. Any other type is refused.
   */
  predicate IsPkcs7ContentType(oid: Oid) {
    |oid| == 9 && oid[..8] == PKCS7_ARC && 1 <= oid[8] <= 6
  }

  lemma Pkcs7ContentTypeValid(oid: Oid)
    requires IsPkcs7ContentType(oid)
    ensures ValidOid(oid)
  {
    assert forall i :: 0 <= i < 8 ==> oid[i] == PKCS7_ARC[i];
  }

  lemma SignedDataIsPkcs7ContentType()
    ensures IsPkcs7ContentType(SIGNED_DATA_OID) && ValidOid(SIGNED_DATA_OID)
  {
    assert SIGNED_DATA_OID[..8] == PKCS7_ARC;
    Pkcs7ContentTypeValid(SIGNED_DATA_OID);
  }

  /** `encapContentInfo` of a `SignedData`: its type and the optional `[0] EXPLICIT` content. */
  datatype SignedData = SignedData(eContentType: Oid, eContent: Option<Tlv>)

  /** A decoded `ContentInfo`: signed data, whose content may be absent, or any other content type. */
  datatype ContentInfo =
    | SignedDataInfo(signedData: Option<SignedData>)
    | OtherInfo(otherType: Oid, content: Option<Tlv>)
  {
    function ContentType(): Oid {
      match this
      case SignedDataInfo(_) => SIGNED_DATA_OID
      case OtherInfo(ct, _) => ct
    }
  }

  predicate IsContentTag(tag: Tag) {
    tag == ContextTag(0)
  }

  predicate IsCrlsTag(tag: Tag) {
    tag == ContextTag(1)
  }

  /**
   * `ContentInfo ::= SEQUENCE { contentType OID, content [0] EXPLICIT ANY OPTIONAL }`,
   * filling the whole input; signed-data content is decoded as `SignedData`.
   */
  function DecodeContentInfo(bs: seq<byte>): (r: Result<ContentInfo, DerError>)
    ensures r.Ok? && r.value.OtherInfo? ==> r.value.otherType != SIGNED_DATA_OID && IsPkcs7ContentType(r.value.otherType)
  {
    var outer :- DecodeExact(bs);
    var c :- Expect(outer, SEQUENCE);
    var p :- ParseTlv(c);
    var contentType :- DecodeOid(p.0);
    if !IsPkcs7ContentType(contentType) then Err(InvalidValue(OBJECT_IDENTIFIER))
    else
      var q :- ReadOptional(p.1, IsContentTag);
      var content :- UnwrapExplicit(q.0);
      var info :-
        if contentType == SIGNED_DATA_OID then
          var sd :- DecodeOptional(content, DecodeSignedData);
          Ok(SignedDataInfo(sd))
        else
          Ok(OtherInfo(contentType, content));
      if q.1 != [] then Err(TrailingData) else Ok(info)
  }

  /**
   * `SignedData ::= SEQUENCE { version, digestAlgorithms SET, encapContentInfo,
   * certificates [0] IMPLICIT OPTIONAL, crls [1] IMPLICIT OPTIONAL, signerInfos SET }`.
   */
  function DecodeSignedData(t: Tlv): (r: Result<SignedData, DerError>)
    ensures r.Ok? ==> t.tag == SEQUENCE && ValidOid(r.value.eContentType)
  {
    var c :- Expect(t, SEQUENCE);
    var version :- ReadExpected(c, INTEGER);
    var digestAlgorithms :- ReadExpected(version.1, SET);
    var encap :- ReadExpected(digestAlgorithms.1, SEQUENCE);
    var sd :- DecodeEncapsulatedContentInfo(encap.0);
    var certificates :- ReadOptional(encap.1, IsContentTag);
    var crls :- ReadOptional(certificates.1, IsCrlsTag);
    var signerInfos :- ReadExpected(crls.1, SET);
    if signerInfos.1 != [] then Err(TrailingData) else Ok(sd)
  }

  /** `EncapsulatedContentInfo ::= SEQUENCE { eContentType OID, eContent [0] EXPLICIT ANY OPTIONAL }`, given its contents. */
  function DecodeEncapsulatedContentInfo(bs: seq<byte>): (r: Result<SignedData, DerError>)
    ensures r.Ok? ==> ValidOid(r.value.eContentType)
  {
    var p :- ParseTlv(bs);
    var eContentType :- DecodeOid(p.0);
    var q :- ReadOptional(p.1, IsContentTag);
    var eContent :- UnwrapExplicit(q.0);
    if q.1 != [] then Err(TrailingData) else Ok(SignedData(eContentType, eContent))
  }

  // ---------------------------------------------------------------------
  // Encoded envelopes and what the decoder makes of them
  // ---------------------------------------------------------------------

  /** An optional element under `[0] EXPLICIT`, as encoded; absent means no octets at all. */
  function ExplicitBytes(o: Option<Tlv>): seq<byte> {
    match o
    case None => []
    case Some(t) => EncodeTlv(Tlv(ContextTag(0), EncodeTlv(t)))
  }

  /** The encoding of `ContentInfo { contentType, content }`. */
  function ContentInfoBytes(contentType: Oid, content: Option<Tlv>): seq<byte> {
    EncodeTlv(Tlv(SEQUENCE, EncodeTlv(Tlv(OBJECT_IDENTIFIER, contentType)) + ExplicitBytes(content)))
  }

  /** The contents of an `EncapsulatedContentInfo`. */
  function EncapBytes(eContentType: Oid, eContent: Option<Tlv>): seq<byte> {
    EncodeTlv(Tlv(OBJECT_IDENTIFIER, eContentType)) + ExplicitBytes(eContent)
  }

  /**
   * The fields of `SignedData` the CTL code never reads, as contents octets:
   * version, digestAlgorithms, certificates `[0] IMPLICIT` OPTIONAL, crls
   * `[1] IMPLICIT` OPTIONAL and signerInfos.
   */
  datatype SkippedFields = SkippedFields(
    version: seq<byte>,
    digestAlgorithms: seq<byte>,
    certificates: Option<seq<byte>>,
    crls: Option<seq<byte>>,
    signerInfos: seq<byte>)

  /** An IMPLICIT-tagged OPTIONAL field with the given contents. */
  function Implicit(n: nat, o: Option<seq<byte>>): (r: Option<Tlv>)
    ensures r.Some? <==> o.Some?
    ensures r.Some? ==> r.value.tag == ContextTag(n)
  {
    match o
    case None => None
    case Some(c) => Some(Tlv(ContextTag(n), c))
  }

  /** The encoded fields after encapContentInfo: certificates, crls, signerInfos. */
  function SignedDataTrailer(skipped: SkippedFields): seq<byte> {
    OptBytes(Implicit(0, skipped.certificates))
      + (OptBytes(Implicit(1, skipped.crls))
      + EncodeTlv(Tlv(SET, skipped.signerInfos)))
  }

  /** A `SignedData` element around the given encapsulated content, with the skipped fields filled as given. */
  function SignedDataTlv(eContentType: Oid, eContent: Option<Tlv>, skipped: SkippedFields): Tlv {
    Tlv(SEQUENCE,
      EncodeTlv(Tlv(INTEGER, skipped.version))
      + (EncodeTlv(Tlv(SET, skipped.digestAlgorithms))
      + (EncodeTlv(Tlv(SEQUENCE, EncapBytes(eContentType, eContent)))
      + SignedDataTrailer(skipped))))
  }

  /** An explicit-tagged optional field at the end of a SEQUENCE reads back as what was encoded. */
  lemma ExplicitRoundTrip(o: Option<Tlv>, accepts: Tag -> bool)
    requires accepts(ContextTag(0)) && LengthEncodable(|ExplicitBytes(o)|)
    ensures ReadOptional(ExplicitBytes(o), accepts).Ok?
    ensures ReadOptional(ExplicitBytes(o), accepts).value.1 == []
    ensures UnwrapExplicit(ReadOptional(ExplicitBytes(o), accepts).value.0) == Ok(o)
  {
    if o.Some? {
      var w := Tlv(ContextTag(0), EncodeTlv(o.value));
      ValidWithin(w, ExplicitBytes(o));
      ValidWithin(o.value, ExplicitBytes(o));
      ReadOptionalPresent(w, [], accepts);
      assert EncodeTlv(w) + [] == ExplicitBytes(o);
      UnwrapExplicitEncoded(0, o.value);
    }
  }

  /** The encapsulated content type and content read back as encoded. */
  lemma EncapRoundTrip(eContentType: Oid, eContent: Option<Tlv>)
    requires ValidOid(eContentType) && LengthEncodable(|EncapBytes(eContentType, eContent)|)
    ensures DecodeEncapsulatedContentInfo(EncapBytes(eContentType, eContent)) == Ok(SignedData(eContentType, eContent))
  {
    var bs := EncapBytes(eContentType, eContent);
    var oid := Tlv(OBJECT_IDENTIFIER, eContentType);
    ValidWithin(oid, bs);
    TlvRoundTrip(oid, ExplicitBytes(eContent));
    LengthEncodableMonotone(|ExplicitBytes(eContent)|, |bs|);
    ExplicitRoundTrip(eContent, IsContentTag);
  }

  /** Whatever fills the fields the CTL code skips, `SignedData` yields exactly its encapsulated content info. */
  lemma SignedDataRoundTrip(eContentType: Oid, eContent: Option<Tlv>, skipped: SkippedFields)
    requires ValidOid(eContentType) && LengthEncodable(|EncodeTlv(SignedDataTlv(eContentType, eContent, skipped))|)
    ensures DecodeSignedData(SignedDataTlv(eContentType, eContent, skipped)) == Ok(SignedData(eContentType, eContent))
  {
    var whole := EncodeTlv(SignedDataTlv(eContentType, eContent, skipped));
    var version := Tlv(INTEGER, skipped.version);
    var digests := Tlv(SET, skipped.digestAlgorithms);
    var encap := Tlv(SEQUENCE, EncapBytes(eContentType, eContent));
    var trailer := SignedDataTrailer(skipped);
    ValidWithin(version, whole);
    ValidWithin(digests, whole);
    ValidWithin(encap, whole);
    ReadExpectedEncoded(version, EncodeTlv(digests) + (EncodeTlv(encap) + trailer));
    ReadExpectedEncoded(digests, EncodeTlv(encap) + trailer);
    ReadExpectedEncoded(encap, trailer);
    assert DecodeEncapsulatedContentInfo(encap.content) == Ok(SignedData(eContentType, eContent)) by {
      LengthEncodableMonotone(|EncapBytes(eContentType, eContent)|, |whole|);
      EncapRoundTrip(eContentType, eContent);
    }
    assert |trailer| <= |whole|;
    TrailerRoundTrip(skipped, whole);
    DecodeSignedDataSteps(SignedDataTlv(eContentType, eContent, skipped), trailer, SignedData(eContentType, eContent), skipped);
  }

  /** The fields after encapContentInfo read back as encoded and end the SEQUENCE. */
  lemma TrailerRoundTrip(skipped: SkippedFields, whole: seq<byte>)
    requires LengthEncodable(|whole|) && |SignedDataTrailer(skipped)| <= |whole|
    ensures
      var certs := Implicit(0, skipped.certificates);
      var crls := Implicit(1, skipped.crls);
      var signers := EncodeTlv(Tlv(SET, skipped.signerInfos));
      && ReadOptional(SignedDataTrailer(skipped), IsContentTag) == Ok((certs, OptBytes(crls) + signers))
      && ReadOptional(OptBytes(crls) + signers, IsCrlsTag) == Ok((crls, signers))
      && ReadExpected(signers, SET) == Ok((skipped.signerInfos, []))
  {
    var certs := Implicit(0, skipped.certificates);
    var crls := Implicit(1, skipped.crls);
    var signerSet := Tlv(SET, skipped.signerInfos);
    var signers := EncodeTlv(signerSet);
    ValidWithin(signerSet, whole);
    ReadExpectedEncoded(signerSet, []);
    assert signers + [] == signers;
    if crls.Some? {
      ValidWithin(crls.value, whole);
      PeekEncoded(crls.value, signers);
    } else {
      PeekEncoded(signerSet, []);
    }
    ReadOptionalEncoded(crls, signers, IsCrlsTag);
    if certs.Some? {
      ValidWithin(certs.value, whole);
    }
    ReadOptionalEncoded(certs, OptBytes(crls) + signers, IsContentTag);
  }

  /** How `DecodeSignedData` composes its steps. */
  lemma DecodeSignedDataSteps(t: Tlv, trailer: seq<byte>, sd: SignedData, skipped: SkippedFields)
    requires t.tag == SEQUENCE
    requires ReadExpected(t.content, INTEGER).Ok?
    requires ReadExpected(ReadExpected(t.content, INTEGER).value.1, SET).Ok?
    requires ReadExpected(ReadExpected(ReadExpected(t.content, INTEGER).value.1, SET).value.1, SEQUENCE).Ok?
    requires
      var encap := ReadExpected(ReadExpected(ReadExpected(t.content, INTEGER).value.1, SET).value.1, SEQUENCE).value;
      encap.1 == trailer && DecodeEncapsulatedContentInfo(encap.0) == Ok(sd)
    requires
      var crls := Implicit(1, skipped.crls);
      var signers := EncodeTlv(Tlv(SET, skipped.signerInfos));
      && ReadOptional(trailer, IsContentTag) == Ok((Implicit(0, skipped.certificates), OptBytes(crls) + signers))
      && ReadOptional(OptBytes(crls) + signers, IsCrlsTag) == Ok((crls, signers))
      && ReadExpected(signers, SET) == Ok((skipped.signerInfos, []))
    ensures DecodeSignedData(t) == Ok(sd)
  {
  }

  /** What `DecodeContentInfo` makes of an encoded `ContentInfo`: an unknown type is refused, signed-data content is decoded, any other kept as it is. */
  lemma ContentInfoDecodes(contentType: Oid, content: Option<Tlv>)
    requires ValidOid(contentType) && LengthEncodable(|ContentInfoBytes(contentType, content)|)
    ensures DecodeContentInfo(ContentInfoBytes(contentType, content)) ==
      if !IsPkcs7ContentType(contentType) then Err(InvalidValue(OBJECT_IDENTIFIER))
      else if contentType != SIGNED_DATA_OID then Ok(OtherInfo(contentType, content))
      else match DecodeOptional(content, DecodeSignedData)
        case Err(e) => Err(e)
        case Ok(sd) => Ok(SignedDataInfo(sd))
  {
    var whole := ContentInfoBytes(contentType, content);
    var oid := Tlv(OBJECT_IDENTIFIER, contentType);
    var outer := Tlv(SEQUENCE, EncodeTlv(oid) + ExplicitBytes(content));
    ValidWithin(outer, whole);
    DecodeExactEncoded(outer);
    ValidWithin(oid, whole);
    TlvRoundTrip(oid, ExplicitBytes(content));
    LengthEncodableMonotone(|ExplicitBytes(content)|, |whole|);
    ExplicitRoundTrip(content, IsContentTag);
  }
}
