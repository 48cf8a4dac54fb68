# windows-ctl: a Dafny model of Certificate Trust List decoding

The `windows-ctl` crates read Microsoft Certificate Trust Lists (CTLs), such as
the `authroot.stl` list of trusted roots. A CTL is a PKCS#7 `ContentInfo` of
type signed data. Its encapsulated content has the type szOID_CTL
(1.3.6.1.4.1.311.10.1) and holds a DER `CertificateTrustList`. Each trusted
subject in the list carries a certificate identifier and X.509 attributes.
One of those attributes, CERT_PROP_ID_METAEKUS (1.3.6.1.4.1.311.10.11.9),
lists the purposes (extended key usages) the root is trusted for.

The project models two copies of the crate:

- `windows_ctl.dfy` (module `WindowsCtl`) is the current crate,
  `windows-ctl/src/lib.rs`. It models:
  - the error type;
  - the trusted-subject and trust-list schemas, as decoders from DER elements;
  - `from_der` on the bytes already read;
  - `cert_id`;
  - the `extended_key_usages` iterator chain, as a function returning the sequence of items it yields;
  - the `Serialize` implementation.
- `legacy_ctl.dfy` (module `LegacyCtl`) is the earlier copy, `src/lib.rs`.
  It differs from the current crate in four places the model covers, and in `from_cab`, which is left out:
  - the sequence number is an untyped OPTIONAL `Any`;
  - `cert_id` returns lowercase hex;
  - signed data without content is reported as `MissingSignedData`;
  - a trusted subject has no `extended_key_usages` and no `Serialize` implementation.

Each decoder is paired with a DER encoding derived from the schema, and the
two are tied together by round-trip lemmas. The chain is proved end to end:
a well-formed list, encoded and wrapped as CTL-typed signed data, comes back
from `from_der` unchanged.

The crates' dependencies are modelled only as far as the CTL code uses them:

- `der.dfy` (`Der`) is a minimal DER layer. It covers:
  - identifier octets (X.690 section 8.1.2);
  - definite lengths in their DER form (X.690 sections 8.1.3 and 10.1);
  - OBJECT IDENTIFIER contents (X.690 section 8.19);
  - unsigned INTEGER contents;
  - OPTIONAL fields read by tag;
  - `[0] EXPLICIT` unwrapping.

  It proves that encoding followed by parsing is the identity, and that any
  input the parser accepts is the canonical encoding of what it returned.
- `x509.dfy` (`X509`) holds `Time`, `AlgorithmIdentifier<Any>`, attributes and `SEQUENCE OF OBJECT IDENTIFIER`.
- `pkcs7.dfy` (`Pkcs7`) holds `ContentInfo` and `SignedData` (RFC 5652 sections 3, 5.1 and 5.2).
- `hex.dfy` (`Hex`) is lowercase hex encoding.
- `radix.dfy` (`Radix`) holds the base-256 digits used by long-form lengths.
- `iterators.dfy` (`Iterators`) holds `flat_map` and `filter` over finite sequences.

Object identifiers are compared as their contents octets. The test-vector
purposes are written as those octets.

## Model

| member | source | states |
|---|---|---|
| WindowsCtl.FromDer | windows-ctl/src/lib.rs:237-261 | `from_der` never returns `MissingSignedData` in this version: the variant is declared but unused |
| WindowsCtl.FromDerNotSignedData | windows-ctl/src/lib.rs:244-247 | a `ContentInfo` of any other PKCS#7 content type fails with `ContentType` carrying that type, whatever its content |
| WindowsCtl.FromDerUnknownContentType | windows-ctl/src/lib.rs:243 | a content type outside the six PKCS#7 types is refused while the envelope is decoded, as a DER error |
| WindowsCtl.FromDerSignedDataWithoutContent | windows-ctl/src/lib.rs:243-245 | signed data with no content fails while the envelope is decoded, as a DER error |
| WindowsCtl.FromDerWrongInnerType | windows-ctl/src/lib.rs:250-254 | an encapsulated type other than szOID_CTL fails with `Content(observed type)`, even when the content is absent, because the type is checked first; this holds whatever well-formed contents fill the `SignedData` fields the CTL code skips |
| WindowsCtl.FromDerMissingContent | windows-ctl/src/lib.rs:256-258 | szOID_CTL signed data without `eContent` fails with `MissingSignedDataContent`, whatever well-formed contents fill the skipped fields |
| WindowsCtl.FromDerDecodesContent | windows-ctl/src/lib.rs:256-260 | with the right type and content present, the result is exactly that content decoded as a `CertificateTrustList`, or that decode's DER error, whatever well-formed contents fill the skipped fields |
| WindowsCtl.FromDerRoundTrip | windows-ctl/src/lib.rs:237-261 | a well-formed list, encoded and wrapped as CTL-typed signed data, comes back from `from_der` as exactly that list, whatever well-formed contents fill the skipped fields |
| WindowsCtl.DecodeVersion | windows-ctl/src/lib.rs:152-160 | the version decodes exactly when it is INTEGER 0 (v1) |
| WindowsCtl.CertificateTrustListRoundTrip | windows-ctl/src/lib.rs:198-232 | decoding inverts the schema's DER encoding for every well-formed list: fields in declaration order, version DEFAULT v1 omitted, absent OPTIONAL fields taking no octets |
| WindowsCtl.FieldsRoundTrip | windows-ctl/src/lib.rs:199-231 | each field reads back in declaration order, and the version that is left out decodes as v1 |
| WindowsCtl.CtlHeadRoundTrip | windows-ctl/src/lib.rs:200-208 | an absent version is not mistaken for subjectUsage; subjectUsage and listIdentifier OPTIONAL read back as encoded |
| WindowsCtl.SequenceNumberRoundTrip | windows-ctl/src/lib.rs:210-211 | the sequence number is an OPTIONAL unsigned INTEGER: present, it reads back as its magnitude; absent, the time that follows is not taken for it |
| WindowsCtl.TailStartsWithTime | windows-ctl/src/lib.rs:213-216 | the encoded fields from thisUpdate on start with a UTCTime or GeneralizedTime element, so the OPTIONAL INTEGER before them is read as absent |
| WindowsCtl.CtlTailRoundTrip | windows-ctl/src/lib.rs:213-231 | thisUpdate, nextUpdate OPTIONAL, subjectAlgorithm, trustedSubjects OPTIONAL and ctlExtensions `[0] EXPLICIT` OPTIONAL read back as encoded and fill the SEQUENCE |
| WindowsCtl.SubjectsAndExtensionsRoundTrip | windows-ctl/src/lib.rs:224-231 | trustedSubjects is read by its SEQUENCE tag; the extensions are recognised by tag `[0]` and unwrapped once |
| WindowsCtl.TrustedSubjectRoundTrip | windows-ctl/src/lib.rs:87-92 | a trusted subject (identifier OCTET STRING, attributes OPTIONAL) reads back as encoded |
| WindowsCtl.TrustedSubjectsRoundTrip | windows-ctl/src/lib.rs:174-177 | `SEQUENCE OF TrustedSubject` reads back element for element, in order |
| WindowsCtl.ExtendedKeyUsages | windows-ctl/src/lib.rs:112-114 | a subject without attributes yields no purposes |
| WindowsCtl.ValueMetaEku | windows-ctl/src/lib.rs:117-121 | a value contributes one `MetaEku` document when it is an OCTET STRING, and nothing otherwise |
| WindowsCtl.MetaEkuFromDer | windows-ctl/src/lib.rs:68-75 | every purpose in a decoded `MetaEku ::= SEQUENCE OF OBJECT IDENTIFIER` is a well-formed object identifier |
| WindowsCtl.EkusAreValidOids | windows-ctl/src/lib.rs:102-123 | every `Ok` item of `extended_key_usages` is a well-formed object identifier |
| WindowsCtl.EkusOfConcatenation | windows-ctl/src/lib.rs:112-122 | purposes are produced attribute by attribute in order, without deduplication: the items for a concatenation of attributes are the two item lists concatenated |
| WindowsCtl.OtherAttributeIgnored | windows-ctl/src/lib.rs:115 | an attribute whose type is not the meta-EKU type contributes nothing, wherever it stands |
| WindowsCtl.MetaEkuSubject | windows-ctl/src/lib.rs:115-122 | the items for a subject with one meta-EKU attribute are those of its values, flattened in order |
| WindowsCtl.EkusOfValues | windows-ctl/src/lib.rs:116-122 | the values of an attribute are taken in order: the items for concatenated values are the two item lists concatenated |
| WindowsCtl.SingleValueEkus | windows-ctl/src/lib.rs:117-122 | one value yields nothing unless it is an OCTET STRING; otherwise it yields its document's purposes, or that document's error |
| WindowsCtl.NonOctetStringValueIgnored | windows-ctl/src/lib.rs:117-121 | a value that is not an OCTET STRING contributes nothing and raises no error, wherever it stands |
| WindowsCtl.MalformedValueOneError | windows-ctl/src/lib.rs:120-122 | an OCTET STRING whose document fails to decode contributes exactly one `Err` item, at its place |
| WindowsCtl.MetaEkuTestVector | windows-ctl/src/lib.rs:269-279 | the test vector decodes to exactly clientAuth, emailProtection and serverAuth, in that order |
| WindowsCtl.TestVectorEncoding | windows-ctl/src/lib.rs:272 | the test vector's bytes are the DER encoding of a SEQUENCE of those three object identifiers |
| WindowsCtl.SubjectTestVector | windows-ctl/src/lib.rs:102-123 | a subject whose meta-EKU attribute holds the test vector yields exactly the three purposes as `Ok` items |
| WindowsCtl.CollectOk | windows-ctl/src/lib.rs:132-135 | collecting results succeeds exactly when every item is `Ok`, keeping them all in order; otherwise it returns the first error |
| WindowsCtl.SerializeSpec | windows-ctl/src/lib.rs:127-145 | serialisation succeeds exactly when every purpose decoded. The identifier is written as lowercase hex, two digits per octet, that decodes back to `cert_id`. Every purpose is written, in order |
| WindowsCtl.SignedEnvelopeDecodes | windows-ctl/src/lib.rs:243 | a signed-data envelope decodes to its encapsulated content type and content, whatever well-formed contents fill the version, digestAlgorithms, certificates, crls and signerInfos |
| WindowsCtl.CertIdOfDecoded | windows-ctl/src/lib.rs:96-98 | `cert_id` of a decoded subject is exactly the contents octets of its subjectIdentifier OCTET STRING as they stand in the encoding |
| LegacyCtl.FromDer | src/lib.rs:197-202 | `MissingSignedData` is returned exactly when the envelope is signed data with no content |
| LegacyCtl.FromDerSignedDataWithoutContent | src/lib.rs:198-200 | for signed data without content, this copy returns `MissingSignedData` where the current crate returns a DER error |
| LegacyCtl.EnvelopeErrorsAgree | src/lib.rs:197-213 | apart from absent signed data, both copies fail alike on the envelope: `ContentType` for another content type, `Content` for a foreign encapsulated type checked before presence, and `MissingSignedDataContent` |
| LegacyCtl.FromDerDecodesContent | src/lib.rs:211-215 | with the right type and content present, the result is exactly that content decoded as this copy's list, or that decode's DER error, whatever well-formed contents fill the skipped fields |
| LegacyCtl.CertId | src/lib.rs:77-80 | `cert_id` is lowercase hex, two digits per octet, and hex-decoding it gives back the identifier |
| LegacyCtl.SequenceNumberPresent | src/lib.rs:139-174 | with a sequence number present, this copy reads the same list as the current crate, and keeps the INTEGER element undecoded |
| LegacyCtl.AbsentSequenceNumberTakesThisUpdate | src/lib.rs:150-158 | with the sequence number absent, the `Any` field takes the thisUpdate element, and the remaining fields are read from after it |
| LegacyCtl.SequenceNumberAbsent | src/lib.rs:153 | the list decoded without its sequence number either fails (nextUpdate absent) or comes back with every time shifted one field up (nextUpdate present) |
| LegacyCtl.ShiftedTailFails | src/lib.rs:158-164 | once thisUpdate is taken and nextUpdate is absent, the algorithm identifier stands where the time must be, and decoding fails |
| LegacyCtl.ShiftedTail | src/lib.rs:158-164 | once thisUpdate is taken and nextUpdate is present, the rest is laid out as a list tail whose thisUpdate is that nextUpdate |
| Pkcs7.ContentInfoDecodes | windows-ctl/src/lib.rs:243 | an encoded `ContentInfo` decodes by its content type: a type outside PKCS#7 is refused, signed data is decoded as `SignedData`, and any other PKCS#7 type is kept with its content |
| Pkcs7.SignedDataRoundTrip | windows-ctl/src/lib.rs:250-256 | `SignedData` yields exactly its encapsulated content type and content, whatever well-formed contents fill the fields the CTL code skips |
| Pkcs7.ExplicitRoundTrip | windows-ctl/src/lib.rs:230-231 | an optional `[0] EXPLICIT` field at the end of a SEQUENCE reads back as encoded |
| X509.DecodeTime | windows-ctl/src/lib.rs:213-216 | a time is a UTCTime or GeneralizedTime element, and decoding one keeps it exactly |
| X509.OidSequenceRoundTrip | windows-ctl/src/lib.rs:204-205 | subjectUsage, a SEQUENCE OF OBJECT IDENTIFIER, reads back as encoded |
| X509.AlgorithmIdentifierRoundTrip | windows-ctl/src/lib.rs:221-222 | `AlgorithmIdentifier<Any>` reads back as encoded, with its parameters optional |
| X509.AttributesRoundTrip | windows-ctl/src/lib.rs:90-91 | a subject's `Attributes`, a SET OF attribute, reads back as encoded, with every value kept undecoded |
| Der.DecodeUint | windows-ctl/src/lib.rs:211 | an unsigned INTEGER decodes to a minimal magnitude, from which its contents are restored exactly |
| Der.TlvRoundTrip | windows-ctl/src/lib.rs:198 | parsing an encoded element gives back the element and the bytes after it |
| Der.TlvCanonical | windows-ctl/src/lib.rs:198 | any element the parser accepts was in its DER form: re-encoding it restores the bytes consumed |
| Der.TruncatedPrefix | windows-ctl/src/lib.rs:243 | every proper prefix of an encoded element is refused as truncated |
| Der.DecodeExactTrailing | windows-ctl/src/lib.rs:243 | `from_der` refuses an encoded element followed by any further bytes, as trailing data |

## Left out

- Reading the input stream (`read_to_end`) and the `Io` error variant. The model starts from the bytes already read.
- `from_cab` in src/lib.rs. The cabinet container is unpacked by an external crate.
- The command-line tool and the demo programs. They parse arguments, open files and print.
- Calendar validation of `Time` contents. Times are kept as tagged octets.
- The numeric value of `Uint`. The sequence number is kept as its magnitude octets.
- Dotted-text rendering of object identifiers (`to_string` in serialisation). Purposes are serialised as their contents octets.
- The digest algorithms, certificates, CRLs, signer infos and signatures of `SignedData`. They are checked for their tags and skipped, and the envelope lemmas hold for any contents of them. The envelope crate decodes each of them in full, so there malformed contents in these fields are a DER error, and `Content`, `MissingSignedDataContent` or the CTL decode is never reached; here those outcomes follow whatever the fields hold. The crates never verify signatures.
- Error message strings, `Debug` output and the serde `Serializer` machinery beyond the hex rendering and fail-fast collection. `Serialize` returns the first DER error instead of wrapping it in a serde error.
- Which `der::Error` kind is reported for malformed input follows the DER layer here. The crates' error kinds are finer-grained.
- The ordering of SET OF elements (X.690 section 11.6) and duplicate elements are not checked. The model accepts unsorted SETs and SETs with repeated elements, and keeps their elements in the order they are written. The crate's `SetOfVec` holds attributes and attribute values in DER order, and refuses or re-sorts unsorted input and refuses duplicates. So the order `WindowsCtl.EkusOfConcatenation` and `WindowsCtl.EkusOfValues` describe is the crate's order only on input whose SETs are in DER order.
- Der.ParseTag: the high-tag-number form (X.690 section 8.1.2.4) is accepted and round-trips. The `der` crate's `Tag` allows tag numbers only up to 30, so an element with a higher tag number (for example inside an `Any` attribute value) is accepted here where the crate refuses it.
- An explicitly encoded DEFAULT version (INTEGER 0) is accepted, where strict DER (X.690 section 11.5) rejects it.
- Size limits of the `der` crate (maximum object identifier length, maximum element length). The DER layer bounds lengths only by the 126 length octets of the long form (`LengthEncodable`). Every round-trip lemma requires its encoding to fit that bound.
- WindowsCtl.FromDerNotSignedData: the content of the data and encrypted-data types is kept undecoded. The envelope crate decodes it, so malformed content of those types is a DER error there and `ContentType` here. The crate's `ContentType` is an enumeration of the six PKCS#7 types; the model carries the type's object identifier, restricted to those six.
- The current crate uses pkcs7 0.4, where signed-data content cannot be absent. That failure is modelled as the DER error `Truncated` (`WindowsCtl.FromDerSignedDataWithoutContent`).

## Findings

| source | as written | input that shows it | evidently intended | confidence | as-written member | corrected member |
|---|---|---|---|---|---|---|
| src/lib.rs:153 | `sequence_number: Option<Any>` accepts any element, so when the sequence number is absent it takes the thisUpdate time | any CTL encoded without a sequence number: with nextUpdate absent, decoding fails with an unexpected-tag error at subjectAlgorithm; with nextUpdate present, it succeeds with sequenceNumber = thisUpdate, thisUpdate = nextUpdate and nextUpdate = None | an absent sequence number decodes as absent, as with the `Option<Uint>` of windows-ctl/src/lib.rs:211 | medium, not executed | LegacyCtl.SequenceNumberAbsent | WindowsCtl.CertificateTrustListRoundTrip |
