/**
 * Stand-ins for the X.509 types the CTL schema borrows from the `x509_cert`
 * and `spki` crates: `Time` (RFC 5280 section 4.1.2.5), `AlgorithmIdentifier`
 * (RFC 5280 section 4.1.1.2), `Attribute`/`Attributes` and the
 * `ExtendedKeyUsage` list of object identifiers.
 */
module X509 {
  import opened Der

  /** UTCTime or GeneralizedTime; the characters are kept as they are, without calendar checks. */
  datatype Time = UtcTime(utc: seq<byte>) | GeneralTime(generalized: seq<byte>)

  predicate IsTimeTag(tag: Tag) {
    tag == UTC_TIME || tag == GENERALIZED_TIME
  }

  function DecodeTime(t: Tlv): (r: Result<Time, DerError>)
    ensures r.Ok? <==> IsTimeTag(t.tag)
    ensures r.Ok? ==> TimeTlv(r.value) == t
  {
    if t.tag == UTC_TIME then Ok(UtcTime(t.content))
    else if t.tag == GENERALIZED_TIME then Ok(GeneralTime(t.content))
    else Err(UnexpectedTag(UTC_TIME, t.tag))
  }

  /** The element a `Time` is encoded as. */
  function TimeTlv(time: Time): Tlv {
    match time
    case UtcTime(c) => Tlv(UTC_TIME, c)
    case GeneralTime(c) => Tlv(GENERALIZED_TIME, c)
  }

  /** `AlgorithmIdentifier<Any>`: an algorithm OID and optional parameters of any type. */
  datatype AlgorithmIdentifier = AlgorithmIdentifier(oid: Oid, parameters: Option<Tlv>)

  /** An `Any` field accepts every tag. */
  predicate AnyTag(tag: Tag) {
    true
  }

  function DecodeAlgorithmIdentifier(t: Tlv): (r: Result<AlgorithmIdentifier, DerError>)
    ensures r.Ok? ==> t.tag == SEQUENCE && ValidOid(r.value.oid)
  {
    var c :- Expect(t, SEQUENCE);
    var p :- ParseTlv(c);
    var oid :- DecodeOid(p.0);
    var q :- ReadOptional(p.1, AnyTag);
    if q.1 != [] then Err(TrailingData)
    else Ok(AlgorithmIdentifier(oid, q.0))
  }

  /** An X.509 attribute: a type and its SET OF values, each value an `Any`. */
  datatype Attribute = Attribute(oid: Oid, values: seq<Tlv>)

  function Identity(t: Tlv): Result<Tlv, DerError> {
    Ok(t)
  }

  function DecodeAttribute(t: Tlv): (r: Result<Attribute, DerError>)
    ensures r.Ok? ==> t.tag == SEQUENCE && ValidOid(r.value.oid)
  {
    var c :- Expect(t, SEQUENCE);
    var p :- ParseTlv(c);
    var oid :- DecodeOid(p.0);
    var q :- ParseTlv(p.1);
    var vs :- Expect(q.0, SET);
    var values :- DecodeSeqOf(vs, Identity);
    if q.1 != [] then Err(TrailingData)
    else Ok(Attribute(oid, values))
  }

  /** `Attributes ::= SET OF Attribute`, kept in encounter order. */
  function DecodeAttributes(t: Tlv): (r: Result<seq<Attribute>, DerError>)
    ensures r.Ok? ==> t.tag == SET
  {
    var c :- Expect(t, SET);
    DecodeSeqOf(c, DecodeAttribute)
  }

  /** `SEQUENCE OF OBJECT IDENTIFIER`: the shape of both `ExtendedKeyUsage` and the Microsoft meta-EKU list. */
  function DecodeOidSequence(t: Tlv): (r: Result<seq<Oid>, DerError>)
    ensures r.Ok? ==> t.tag == SEQUENCE && forall i :: 0 <= i < |r.value| ==> ValidOid(r.value[i])
  {
    var c :- Expect(t, SEQUENCE);
    OidsValid(c);
    DecodeSeqOf(c, DecodeOid)
  }

  /** Every identifier a SEQUENCE OF OBJECT IDENTIFIER yields is a well-formed one. */
  lemma {:induction false} OidsValid(bs: seq<byte>)
    ensures DecodeSeqOf(bs, DecodeOid).Ok? ==> forall i :: 0 <= i < |DecodeSeqOf(bs, DecodeOid).value| ==> ValidOid(DecodeSeqOf(bs, DecodeOid).value[i])
    decreases |bs|
  {
    if bs != [] && ParseTlv(bs).Ok? {
      OidsValid(ParseTlv(bs).value.1);
    }
  }

  // ---------------------------------------------------------------------
  // Encodings and their round trips
  // ---------------------------------------------------------------------

  lemma TimeRoundTrip(time: Time)
    ensures DecodeTime(TimeTlv(time)) == Ok(time) && IsTimeTag(TimeTlv(time).tag)
  {
  }

  /** Each identifier as an OBJECT IDENTIFIER element. */
  function OidElements(oids: seq<Oid>): (r: seq<Tlv>)
    ensures |r| == |oids| && forall i :: 0 <= i < |oids| ==> r[i] == Tlv(OBJECT_IDENTIFIER, oids[i])
  {
    seq(|oids|, i requires 0 <= i < |oids| => Tlv(OBJECT_IDENTIFIER, oids[i]))
  }

  function OidSequenceTlv(oids: seq<Oid>): Tlv {
    Tlv(SEQUENCE, EncodeAll(OidElements(oids)))
  }

  /** A SEQUENCE OF well-formed identifiers decodes to those identifiers, in order. */
  lemma OidSequenceRoundTrip(oids: seq<Oid>)
    requires forall i :: 0 <= i < |oids| ==> ValidOid(oids[i])
    requires LengthEncodable(|EncodeTlv(OidSequenceTlv(oids))|)
    ensures DecodeOidSequence(OidSequenceTlv(oids)) == Ok(oids)
  {
    var ts := OidElements(oids);
    forall i | 0 <= i < |ts|
      ensures ValidTlv(ts[i]) && DecodeOid(ts[i]) == Ok(oids[i])
    {
      EncodeAllWithin(ts, i);
      ValidWithin(ts[i], EncodeTlv(OidSequenceTlv(oids)));
    }
    DecodeSeqOfEncoded(ts, DecodeOid, oids);
  }

  function AlgorithmIdentifierTlv(a: AlgorithmIdentifier): Tlv {
    Tlv(SEQUENCE, EncodeTlv(Tlv(OBJECT_IDENTIFIER, a.oid)) + OptBytes(a.parameters))
  }

  /** An algorithm identifier reads back with its parameters, whatever their type, or their absence. */
  lemma AlgorithmIdentifierRoundTrip(a: AlgorithmIdentifier)
    requires ValidOid(a.oid) && LengthEncodable(|EncodeTlv(AlgorithmIdentifierTlv(a))|)
    ensures DecodeAlgorithmIdentifier(AlgorithmIdentifierTlv(a)) == Ok(a)
  {
    var whole := EncodeTlv(AlgorithmIdentifierTlv(a));
    var oid := Tlv(OBJECT_IDENTIFIER, a.oid);
    ValidWithin(oid, whole);
    TlvRoundTrip(oid, OptBytes(a.parameters));
    if a.parameters.Some? {
      ValidWithin(a.parameters.value, whole);
    }
    ReadOptionalEncoded(a.parameters, [], AnyTag);
    assert OptBytes(a.parameters) + [] == OptBytes(a.parameters);
  }

  function AttributeTlv(a: Attribute): Tlv {
    Tlv(SEQUENCE, EncodeTlv(Tlv(OBJECT_IDENTIFIER, a.oid)) + EncodeTlv(Tlv(SET, EncodeAll(a.values))))
  }

  /** An attribute reads back with all its values, in order. */
  lemma AttributeRoundTrip(a: Attribute)
    requires ValidOid(a.oid) && LengthEncodable(|EncodeTlv(AttributeTlv(a))|)
    ensures DecodeAttribute(AttributeTlv(a)) == Ok(a)
  {
    var whole := EncodeTlv(AttributeTlv(a));
    var oid := Tlv(OBJECT_IDENTIFIER, a.oid);
    var vs := Tlv(SET, EncodeAll(a.values));
    ValidWithin(oid, whole);
    ValidWithin(vs, whole);
    TlvRoundTrip(oid, EncodeTlv(vs));
    TlvRoundTrip(vs, []);
    assert EncodeTlv(vs) + [] == EncodeTlv(vs);
    forall i | 0 <= i < |a.values|
      ensures ValidTlv(a.values[i]) && Identity(a.values[i]) == Ok(a.values[i])
    {
      EncodeAllWithin(a.values, i);
      ValidWithin(a.values[i], whole);
    }
    DecodeSeqOfEncoded(a.values, Identity, a.values);
  }

  function AttributeElements(attrs: seq<Attribute>): (r: seq<Tlv>)
    ensures |r| == |attrs| && forall i :: 0 <= i < |attrs| ==> r[i] == AttributeTlv(attrs[i])
  {
    seq(|attrs|, i requires 0 <= i < |attrs| => AttributeTlv(attrs[i]))
  }

  function AttributesTlv(attrs: seq<Attribute>): Tlv {
    Tlv(SET, EncodeAll(AttributeElements(attrs)))
  }

  /** A set of attributes reads back in the order it was written. */
  lemma AttributesRoundTrip(attrs: seq<Attribute>)
    requires forall i :: 0 <= i < |attrs| ==> ValidOid(attrs[i].oid)
    requires LengthEncodable(|EncodeTlv(AttributesTlv(attrs))|)
    ensures DecodeAttributes(AttributesTlv(attrs)) == Ok(attrs)
  {
    var ts := AttributeElements(attrs);
    forall i | 0 <= i < |ts|
      ensures ValidTlv(ts[i]) && DecodeAttribute(ts[i]) == Ok(attrs[i])
    {
      EncodeAllWithin(ts, i);
      LengthEncodableMonotone(|EncodeTlv(ts[i])|, |EncodeTlv(AttributesTlv(attrs))|);
      ValidWithin(ts[i], EncodeTlv(AttributesTlv(attrs)));
      AttributeRoundTrip(attrs[i]);
    }
    DecodeSeqOfEncoded(ts, DecodeAttribute, attrs);
  }
}
