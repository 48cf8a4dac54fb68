/**
 * A minimal stand-in for the DER decoder that the CTL crates take from
 * their `der` dependency: identifier octets (X.690 section 8.1.2),
 * definite-form lengths in their DER form (X.690 sections 8.1.3 and 10.1),
 * contents, and the few universal types the CTL schemas read.
 * Input is a byte sequence; every failure is a `DerError` value.
 */
module Der {
  import opened Radix

  type byte = x: int | 0 <= x < 256

  datatype Option<+T> = None | Some(value: T)

  datatype Result<+T, +E> = Ok(value: T) | Err(error: E) {
    predicate IsFailure() {
      Err?
    }

    function PropagateFailure<U>(): Result<U, E>
      requires Err?
    {
      Err(error)
    }

    function Extract(): T
      requires Ok?
    {
      value
    }
  }

  /** The two class bits of an identifier octet. */
  datatype TagClass = Universal | Application | ContextSpecific | Private

  /** A decoded identifier: class, primitive/constructed bit and tag number. */
  datatype Tag = Tag(cls: TagClass, constructed: bool, number: nat)

  /** One element with its contents left undecoded (the `Any` of the source's schemas). */
  datatype Tlv = Tlv(tag: Tag, content: seq<byte>)

  datatype DerError =
    | Truncated                               // the input ends inside an element, or a required element is absent
    | TrailingData                            // bytes remain after the last element
    | NonCanonicalTag                         // high-tag-number form that DER forbids
    | IndefiniteLength                        // length octet 0x80
    | ReservedLength                          // length octet 0xFF
    | NonCanonicalLength                      // a longer length form than needed
    | UnexpectedTag(expected: Tag, actual: Tag)
    | InvalidValue(tag: Tag)                  // contents that are not a valid value of the tag's type

  const INTEGER := Tag(Universal, false, 2)
  const OCTET_STRING := Tag(Universal, false, 4)
  const OBJECT_IDENTIFIER := Tag(Universal, false, 6)
  const SEQUENCE := Tag(Universal, true, 16)
  const SET := Tag(Universal, true, 17)
  const UTC_TIME := Tag(Universal, false, 23)
  const GENERALIZED_TIME := Tag(Universal, false, 24)

  /** A constructed context-specific tag `[n]`, the form an EXPLICIT tag takes. */
  function ContextTag(n: nat): Tag {
    Tag(ContextSpecific, true, n)
  }

  // ---------------------------------------------------------------------
  // Identifier octets (X.690 section 8.1.2)
  // ---------------------------------------------------------------------

  function ClassBits(c: TagClass): (r: nat)
    ensures r < 4 && ClassOf(r) == c
  {
    match c
    case Universal => 0
    case Application => 1
    case ContextSpecific => 2
    case Private => 3
  }

  function ClassOf(bits: nat): TagClass
    requires bits < 4
  {
    if bits == 0 then Universal
    else if bits == 1 then Application
    else if bits == 2 then ContextSpecific
    else Private
  }

  /** Base-128 digits with bit 8 set on every octet but the last (X.690 section 8.1.2.4.2). */
  function Mark(ds: seq<nat>): (r: seq<byte>)
    requires AllDigits(ds, 128)
    ensures |r| == |ds|
  {
    if ds == [] then []
    else if |ds| == 1 then [ds[0]]
    else [ds[0] + 128] + Mark(ds[1..])
  }

  /** The seven low bits of each octet. */
  function Low7(g: seq<byte>): (r: seq<nat>)
    ensures |r| == |g| && AllDigits(r, 128)
  {
    if g == [] then [] else [g[0] % 128] + Low7(g[1..])
  }

  /** Splits off the octets up to and including the first one whose bit 8 is clear. */
  function SplitGroups(bs: seq<byte>): (r: Result<(seq<byte>, seq<byte>), DerError>)
    ensures r.Ok? ==> |r.value.0| >= 1 && bs == r.value.0 + r.value.1
  {
    if bs == [] then Err(Truncated)
    else if bs[0] < 128 then Ok(([bs[0]], bs[1..]))
    else
      var p :- SplitGroups(bs[1..]);
      Ok(([bs[0]] + p.0, p.1))
  }

  function EncodeTag(t: Tag): (r: seq<byte>)
    ensures |r| >= 1
  {
    [LeadOctet(t.cls, t.constructed, if t.number < 31 then t.number else 31)]
      + (if t.number < 31 then [] else Mark(Digits(t.number, 128)))
  }

  /** The first identifier octet: class in bits 8-7, constructed in bit 6, the low tag number in bits 5-1. */
  function LeadOctet(cls: TagClass, constructed: bool, low: nat): (b: byte)
    requires low < 32
    ensures ClassOf(b / 64) == cls && ((b / 32) % 2 == 1) == constructed && b % 32 == low
  {
    ClassBits(cls) * 64 + (if constructed then 32 else 0) + low
  }

  lemma LeadOctetOf(b: byte)
    ensures LeadOctet(ClassOf(b / 64), (b / 32) % 2 == 1, b % 32) == b
  {
  }

  function ParseTag(bs: seq<byte>): (r: Result<(Tag, seq<byte>), DerError>)
    ensures r.Ok? ==> |r.value.1| < |bs|
  {
    if bs == [] then Err(Truncated)
    else
      var b := bs[0];
      var tag := Tag(ClassOf(b / 64), (b / 32) % 2 == 1, b % 32);
      if b % 32 < 31 then Ok((tag, bs[1..]))
      else
        var p :- SplitGroups(bs[1..]);
        var (g, rest) := p;
        if g[0] == 128 then Err(NonCanonicalTag)      // leading zero digit
        else
          var n := FromDigits(Low7(g), 128);
          if n < 31 then Err(NonCanonicalTag)         // low numbers take the one-octet form
          else Ok((tag.(number := n), rest))
  }

  // ---------------------------------------------------------------------
  // Length octets, definite form only (X.690 sections 8.1.3 and 10.1)
  // ---------------------------------------------------------------------

  /** The long form carries at most 126 length octets (X.690 section 8.1.3.5). */
  predicate LengthEncodable(n: nat) {
    |Digits(n, 256)| <= 126
  }

  /** The DER length octets of `n`; a length too large for any encoding gets the reserved octet 0xFF, which no decoder accepts. */
  function EncodeLength(n: nat): (r: seq<byte>)
    ensures |r| >= 1
  {
    if n < 128 then [n]
    else if !LengthEncodable(n) then [255]
    else
      var ds := Digits(n, 256);
      [128 + |ds|] + ds
  }

  /** A length no larger than an encodable one is encodable. */
  lemma {:induction false} LengthEncodableMonotone(n: nat, m: nat)
    requires n <= m && LengthEncodable(m)
    ensures LengthEncodable(n)
  {
    DigitsMonotone(n, m);
  }

  lemma {:induction false} DigitsMonotone(n: nat, m: nat)
    requires n <= m
    ensures |Digits(n, 256)| <= |Digits(m, 256)|
    decreases m
  {
    if n >= 256 {
      DigitsMonotone(n / 256, m / 256);
    }
  }

  function ParseLength(bs: seq<byte>): (r: Result<(nat, seq<byte>), DerError>)
    ensures r.Ok? ==> |r.value.1| < |bs|
  {
    if bs == [] then Err(Truncated)
    else if bs[0] < 128 then Ok((bs[0], bs[1..]))
    else if bs[0] == 128 then Err(IndefiniteLength)
    else if bs[0] == 255 then Err(ReservedLength)
    else
      var k := bs[0] - 128;
      if |bs| - 1 < k then Err(Truncated)
      else
        var ds: seq<nat> := bs[1..1 + k];
        if ds[0] == 0 || FromDigits(ds, 256) < 128 then Err(NonCanonicalLength)
        else Ok((FromDigits(ds, 256), bs[1 + k..]))
  }

  // ---------------------------------------------------------------------
  // Whole elements
  // ---------------------------------------------------------------------

  predicate ValidTlv(t: Tlv) {
    LengthEncodable(|t.content|)
  }

  function EncodeTlv(t: Tlv): (r: seq<byte>)
    ensures |r| > |t.content|
  {
    EncodeTag(t.tag) + EncodeLength(|t.content|) + t.content
  }

  /** Reads one element off the front of `bs`, returning it and the bytes after it. */
  function ParseTlv(bs: seq<byte>): (r: Result<(Tlv, seq<byte>), DerError>)
    ensures r.Ok? ==> |r.value.1| < |bs|
  {
    var p :- ParseTag(bs);
    var q :- ParseLength(p.1);
    var (len, body) := q;
    if |body| < len then Err(Truncated)
    else Ok((Tlv(p.0, body[..len]), body[len..]))
  }

  /** Decodes a buffer that must hold exactly one element. */
  function DecodeExact(bs: seq<byte>): (r: Result<Tlv, DerError>)
    ensures r.Ok? <==> ParseTlv(bs).Ok? && ParseTlv(bs).value.1 == []
  {
    var p :- ParseTlv(bs);
    if p.1 != [] then Err(TrailingData) else Ok(p.0)
  }

  // ---------------------------------------------------------------------
  // Reading the fields of a SEQUENCE one after another
  // ---------------------------------------------------------------------

  /** The tag of the next element, if there is one; an empty input has none. */
  function PeekTag(bs: seq<byte>): (r: Result<Option<Tag>, DerError>)
    ensures bs == [] ==> r == Ok(None)
  {
    if bs == [] then Ok(None)
    else
      var p :- ParseTag(bs);
      Ok(Some(p.0))
  }

  /**
   * An OPTIONAL field: present exactly when the next element's tag is one
   * the field accepts; otherwise nothing is consumed.
   */
  function ReadOptional(bs: seq<byte>, accepts: Tag -> bool): (r: Result<(Option<Tlv>, seq<byte>), DerError>)
    ensures r.Ok? && r.value.0.None? ==> r.value.1 == bs
    ensures r.Ok? && r.value.0.Some? ==> accepts(r.value.0.value.tag) && ParseTlv(bs) == Ok((r.value.0.value, r.value.1))
    ensures r.Ok? ==> |r.value.1| <= |bs|
  {
    var next :- PeekTag(bs);
    if next.Some? && accepts(next.value) then
      var p :- ParseTlv(bs);
      Ok((Some(p.0), p.1))
    else
      Ok((None, bs))
  }

  /** The contents of an element that must carry `tag`. */
  function Expect(t: Tlv, tag: Tag): (r: Result<seq<byte>, DerError>)
    ensures r.Ok? <==> t.tag == tag
    ensures r.Ok? ==> r.value == t.content
  {
    if t.tag == tag then Ok(t.content) else Err(UnexpectedTag(tag, t.tag))
  }

  /** A required field with a fixed tag: its contents and the bytes after it. */
  function ReadExpected(bs: seq<byte>, tag: Tag): (r: Result<(seq<byte>, seq<byte>), DerError>)
    ensures r.Ok? ==> |r.value.1| < |bs|
  {
    var p :- ParseTlv(bs);
    var c :- Expect(p.0, tag);
    Ok((c, p.1))
  }

  /** Decodes a present OPTIONAL field; an absent one stays absent. */
  function DecodeOptional<T>(o: Option<Tlv>, f: Tlv -> Result<T, DerError>): (r: Result<Option<T>, DerError>)
    ensures o.None? ==> r == Ok(None)
  {
    match o
    case None => Ok(None)
    case Some(t) =>
      var x :- f(t);
      Ok(Some(x))
  }

  /** SEQUENCE OF / SET OF: each element in turn, until the contents are used up. */
  function DecodeSeqOf<T>(bs: seq<byte>, f: Tlv -> Result<T, DerError>): (r: Result<seq<T>, DerError>)
    decreases |bs|
  {
    if bs == [] then Ok([])
    else
      var p :- ParseTlv(bs);
      var x :- f(p.0);
      var xs :- DecodeSeqOf(p.1, f);
      Ok([x] + xs)
  }

  function MapOption<A, B>(o: Option<A>, f: A -> B): (r: Option<B>)
    ensures r.Some? <==> o.Some?
  {
    match o
    case None => None
    case Some(x) => Some(f(x))
  }

  /** An OPTIONAL field as encoded: its element, or no octets at all when absent. */
  function OptBytes(o: Option<Tlv>): seq<byte> {
    match o
    case None => []
    case Some(t) => EncodeTlv(t)
  }

  /** What follows an absent OPTIONAL field does not start with a tag the field accepts. */
  predicate NextNotAccepted(bs: seq<byte>, accepts: Tag -> bool) {
    PeekTag(bs).Ok? && (PeekTag(bs).value.None? || !accepts(PeekTag(bs).value.value))
  }

  /** The contents of a SEQUENCE OF or SET OF: the elements' encodings one after another. */
  function EncodeAll(ts: seq<Tlv>): (r: seq<byte>)
    ensures ts != [] ==> |r| > 0
  {
    if ts == [] then [] else EncodeTlv(ts[0]) + EncodeAll(ts[1..])
  }

  /** `[n] EXPLICIT`: the contents of the context tag hold exactly one element. */
  function UnwrapExplicit(o: Option<Tlv>): (r: Result<Option<Tlv>, DerError>)
    ensures o.None? ==> r == Ok(None)
  {
    match o
    case None => Ok(None)
    case Some(t) =>
      var inner :- DecodeExact(t.content);
      Ok(Some(inner))
  }

  // ---------------------------------------------------------------------
  // Universal types the schemas read
  // ---------------------------------------------------------------------

  /** An object identifier, kept as its contents octets and compared byte for byte. */
  type Oid = seq<byte>

  /**
   * Contents octets of an OBJECT IDENTIFIER (X.690 section 8.19.2): one or
   * more sub-identifiers, each ending with an octet whose bit 8 is clear and
   * none starting with the padding octet 0x80.
   */
  predicate ValidOid(c: seq<byte>) {
    && |c| >= 1
    && c[|c| - 1] < 128
    && forall i :: 0 <= i < |c| && (i == 0 || c[i - 1] < 128) ==> c[i] != 128
  }

  function DecodeOid(t: Tlv): (r: Result<Oid, DerError>)
    ensures r.Ok? <==> t.tag == OBJECT_IDENTIFIER && ValidOid(t.content)
    ensures r.Ok? ==> r.value == t.content
  {
    if t.tag != OBJECT_IDENTIFIER then Err(UnexpectedTag(OBJECT_IDENTIFIER, t.tag))
    else if !ValidOid(t.content) then Err(InvalidValue(t.tag))
    else Ok(t.content)
  }

  function DecodeOctetString(t: Tlv): (r: Result<seq<byte>, DerError>)
    ensures r.Ok? <==> t.tag == OCTET_STRING
    ensures r.Ok? ==> r.value == t.content
  {
    if t.tag != OCTET_STRING then Err(UnexpectedTag(OCTET_STRING, t.tag)) else Ok(t.content)
  }

  /**
   * Contents of a non-negative INTEGER in DER (X.690 section 8.3): at least
   * one octet, no redundant leading octet, sign bit clear.
   */
  predicate ValidUintContent(c: seq<byte>) {
    && |c| >= 1
    && c[0] < 128
    && !(|c| >= 2 && c[0] == 0 && c[1] < 128)
  }

  /** The magnitude octets of an unsigned INTEGER: the contents without the sign-padding zero octet. */
  function UintMagnitude(c: seq<byte>): seq<byte>
    requires ValidUintContent(c)
  {
    if |c| >= 2 && c[0] == 0 then c[1..] else c
  }

  /** Magnitude octets of a non-negative integer, big-endian, without leading zero octets. */
  predicate ValidMagnitude(m: seq<byte>) {
    |m| >= 1 && (|m| == 1 || m[0] != 0)
  }

  /** The INTEGER contents for a magnitude: a zero octet goes in front when the top bit is set. */
  function UintContent(m: seq<byte>): (c: seq<byte>)
    requires ValidMagnitude(m)
    ensures ValidUintContent(c) && UintMagnitude(c) == m
  {
    if m[0] >= 128 then [0] + m else m
  }

  function DecodeUint(t: Tlv): (r: Result<seq<byte>, DerError>)
    ensures r.Ok? <==> t.tag == INTEGER && ValidUintContent(t.content)
    ensures r.Ok? ==> ValidMagnitude(r.value) && UintContent(r.value) == t.content
  {
    if t.tag != INTEGER then Err(UnexpectedTag(INTEGER, t.tag))
    else if !ValidUintContent(t.content) then Err(InvalidValue(t.tag))
    else Ok(UintMagnitude(t.content))
  }

  // ---------------------------------------------------------------------
  // Framing properties: every element has exactly one encoding, it
  // decodes back to itself, and no proper prefix of it decodes.
  // ---------------------------------------------------------------------

  lemma {:induction false} SplitMarked(ds: seq<nat>, rest: seq<byte>)
    requires |ds| >= 1 && AllDigits(ds, 128)
    ensures SplitGroups(Mark(ds) + rest) == Ok((Mark(ds), rest))
  {
    if |ds| == 1 {
      assert Mark(ds) + rest == [ds[0]] + rest;
    } else {
      SplitMarked(ds[1..], rest);
      assert Mark(ds) + rest == [ds[0] + 128] + (Mark(ds[1..]) + rest);
    }
  }

  lemma {:induction false} SplitMarkedPrefix(ds: seq<nat>, j: nat)
    requires AllDigits(ds, 128) && j < |ds|
    ensures SplitGroups(Mark(ds)[..j]) == Err(Truncated)
  {
    if j > 0 {
      assert |ds| >= 2;
      assert Mark(ds)[..j] == [ds[0] + 128] + Mark(ds[1..])[..j - 1];
      SplitMarkedPrefix(ds[1..], j - 1);
    }
  }

  lemma {:induction false} Low7Mark(ds: seq<nat>)
    requires AllDigits(ds, 128)
    ensures Low7(Mark(ds)) == ds
  {
    if |ds| >= 2 {
      Low7Mark(ds[1..]);
    }
  }

  lemma {:induction false} SplitCanonical(bs: seq<byte>, g: seq<byte>, rest: seq<byte>)
    requires SplitGroups(bs) == Ok((g, rest))
    ensures Mark(Low7(g)) == g
  {
    if bs[0] >= 128 {
      var p := SplitGroups(bs[1..]).value;
      SplitCanonical(bs[1..], p.0, p.1);
      assert g == [bs[0]] + p.0;
      assert Low7(g) == [bs[0] % 128] + Low7(p.0);
    }
  }

  /** Decoding the identifier octets of a tag gives the tag back. */
  lemma TagRoundTrip(t: Tag, rest: seq<byte>)
    ensures ParseTag(EncodeTag(t) + rest) == Ok((t, rest))
  {
    var bs := EncodeTag(t) + rest;
    if t.number >= 31 {
      var ds := Digits(t.number, 128);
      assert bs[1..] == Mark(ds) + rest;
      SplitMarked(ds, rest);
      Low7Mark(ds);
      FromDigitsOfDigits(t.number, 128);
      assert Mark(ds)[0] != 128;
    }
  }

  /** Identifier octets are accepted only in their DER form. */
  lemma TagCanonical(bs: seq<byte>, t: Tag, rest: seq<byte>)
    requires ParseTag(bs) == Ok((t, rest))
    ensures bs == EncodeTag(t) + rest
  {
    var b := bs[0];
    LeadOctetOf(b);
    if b % 32 == 31 {
      var p := SplitGroups(bs[1..]).value;
      HighTagCanonical(bs[1..], p.0, p.1);
      assert bs == [b] + p.0 + rest;
    }
  }

  lemma HighTagCanonical(bs: seq<byte>, g: seq<byte>, rest: seq<byte>)
    requires SplitGroups(bs) == Ok((g, rest)) && g[0] != 128
    ensures Mark(Digits(FromDigits(Low7(g), 128), 128)) == g
  {
    SplitCanonical(bs, g, rest);
    var ds := Low7(g);
    assert |ds| >= 2 ==> g[0] >= 128 && ds[0] == g[0] % 128;
    DigitsOfFromDigits(ds, 128);
  }

  lemma TagPrefix(t: Tag, k: nat)
    requires k < |EncodeTag(t)|
    ensures ParseTag(EncodeTag(t)[..k]) == Err(Truncated)
  {
    if k > 0 {
      var ds := Digits(t.number, 128);
      assert EncodeTag(t)[..k][1..] == Mark(ds)[..k - 1];
      SplitMarkedPrefix(ds, k - 1);
    }
  }

  /** Decoding the length octets of a length gives the length back. */
  lemma LengthRoundTrip(n: nat, rest: seq<byte>)
    requires LengthEncodable(n)
    ensures ParseLength(EncodeLength(n) + rest) == Ok((n, rest))
  {
    if n >= 128 {
      var ds := Digits(n, 256);
      var bs := EncodeLength(n) + rest;
      assert bs[1..1 + |ds|] == ds;
      assert bs[1 + |ds|..] == rest;
      FromDigitsOfDigits(n, 256);
    }
  }

  /** Length octets are accepted only in their DER form: definite, and as short as possible. */
  lemma LengthCanonical(bs: seq<byte>, n: nat, rest: seq<byte>)
    requires ParseLength(bs) == Ok((n, rest))
    ensures LengthEncodable(n) && bs == EncodeLength(n) + rest
  {
    if bs[0] >= 128 {
      var k := bs[0] - 128;
      var ds: seq<nat> := bs[1..1 + k];
      DigitsOfFromDigits(ds, 256);
      assert bs == [bs[0]] + bs[1..1 + k] + bs[1 + k..];
    }
  }

  lemma LengthPrefix(n: nat, k: nat)
    requires LengthEncodable(n) && k < |EncodeLength(n)|
    ensures ParseLength(EncodeLength(n)[..k]) == Err(Truncated)
  {
  }

  /** An element decodes back to itself, leaving whatever follows it. */
  lemma TlvRoundTrip(t: Tlv, rest: seq<byte>)
    requires ValidTlv(t)
    ensures ParseTlv(EncodeTlv(t) + rest) == Ok((t, rest))
  {
    var c := t.content;
    var after := EncodeLength(|c|) + (c + rest);
    assert EncodeTlv(t) + rest == EncodeTag(t.tag) + after;
    TagRoundTrip(t.tag, after);
    LengthRoundTrip(|c|, c + rest);
    assert (c + rest)[..|c|] == c;
    assert (c + rest)[|c|..] == rest;
  }

  /** DER admits one encoding per element: whatever decodes is exactly the encoding of the result. */
  lemma TlvCanonical(bs: seq<byte>, t: Tlv, rest: seq<byte>)
    requires ParseTlv(bs) == Ok((t, rest))
    ensures ValidTlv(t) && bs == EncodeTlv(t) + rest
  {
    var afterTag := ParseTlvParts(bs, t, rest);
    TagCanonical(bs, t.tag, afterTag);
    LengthCanonical(afterTag, |t.content|, t.content + rest);
    Reassemble(bs, t, rest, afterTag);
  }

  lemma Reassemble(bs: seq<byte>, t: Tlv, rest: seq<byte>, afterTag: seq<byte>)
    requires bs == EncodeTag(t.tag) + afterTag
    requires afterTag == EncodeLength(|t.content|) + (t.content + rest)
    ensures bs == EncodeTlv(t) + rest
  {
  }

  /** The steps of a successful `ParseTlv`. */
  lemma ParseTlvParts(bs: seq<byte>, t: Tlv, rest: seq<byte>) returns (afterTag: seq<byte>)
    requires ParseTlv(bs) == Ok((t, rest))
    ensures ParseTag(bs) == Ok((t.tag, afterTag))
    ensures ParseLength(afterTag) == Ok((|t.content|, t.content + rest))
  {
    var p := ParseTag(bs).value;
    afterTag := p.1;
    var q := ParseLength(p.1).value;
    assert t == Tlv(p.0, q.1[..q.0]) && rest == q.1[q.0..];
    assert q.1 == t.content + rest;
  }

  /** No proper prefix of an encoded element decodes: the decoder reports truncation. */
  lemma TruncatedPrefix(t: Tlv, k: nat)
    requires ValidTlv(t) && k < |EncodeTlv(t)|
    ensures ParseTlv(EncodeTlv(t)[..k]) == Err(Truncated)
  {
    var te := EncodeTag(t.tag);
    var le := EncodeLength(|t.content|);
    var p := EncodeTlv(t)[..k];
    if k < |te| {
      assert p == te[..k];
      TagPrefix(t.tag, k);
    } else if k < |te| + |le| {
      assert p == te + le[..k - |te|];
      TagRoundTrip(t.tag, le[..k - |te|]);
      LengthPrefix(|t.content|, k - |te|);
    } else {
      var j := k - |te| - |le|;
      assert p == te + (le + t.content[..j]);
      ContentPrefixTruncated(t, j);
    }
  }

  lemma ContentPrefixTruncated(t: Tlv, j: nat)
    requires ValidTlv(t) && j < |t.content|
    ensures ParseTlv(EncodeTag(t.tag) + (EncodeLength(|t.content|) + t.content[..j])) == Err(Truncated)
  {
    TagRoundTrip(t.tag, EncodeLength(|t.content|) + t.content[..j]);
    LengthRoundTrip(|t.content|, t.content[..j]);
  }

  /** A buffer holding one encoded element and nothing else decodes to that element. */
  lemma DecodeExactEncoded(t: Tlv)
    requires ValidTlv(t)
    ensures DecodeExact(EncodeTlv(t)) == Ok(t)
  {
    TlvRoundTrip(t, []);
    assert EncodeTlv(t) + [] == EncodeTlv(t);
  }

  /** Bytes after the element are refused. */
  lemma DecodeExactTrailing(t: Tlv, extra: seq<byte>)
    requires ValidTlv(t) && extra != []
    ensures DecodeExact(EncodeTlv(t) + extra) == Err(TrailingData)
  {
    TlvRoundTrip(t, extra);
  }

  // ---------------------------------------------------------------------
  // Field readers on encoded input
  // ---------------------------------------------------------------------

  /** An element whose encoding fits in `whole` has an encodable length. */
  lemma ValidWithin(t: Tlv, whole: seq<byte>)
    requires |EncodeTlv(t)| <= |whole| && LengthEncodable(|whole|)
    ensures ValidTlv(t)
  {
    LengthEncodableMonotone(|t.content|, |whole|);
  }

  lemma PeekEncoded(t: Tlv, rest: seq<byte>)
    ensures PeekTag(EncodeTlv(t) + rest) == Ok(Some(t.tag))
  {
    var after := EncodeLength(|t.content|) + t.content + rest;
    assert EncodeTlv(t) + rest == EncodeTag(t.tag) + after;
    TagRoundTrip(t.tag, after);
  }

  /** The same, for an element followed by two stretches of octets. */
  lemma PeekEncodedPrefix(t: Tlv, a: seq<byte>, rest: seq<byte>)
    ensures PeekTag((EncodeTlv(t) + a) + rest) == Ok(Some(t.tag))
  {
    assert (EncodeTlv(t) + a) + rest == EncodeTlv(t) + (a + rest);
    PeekEncoded(t, a + rest);
  }

  /** An OPTIONAL field whose tag matches is read. */
  lemma ReadOptionalPresent(t: Tlv, rest: seq<byte>, accepts: Tag -> bool)
    requires ValidTlv(t) && accepts(t.tag)
    ensures ReadOptional(EncodeTlv(t) + rest, accepts) == Ok((Some(t), rest))
  {
    PeekEncoded(t, rest);
    TlvRoundTrip(t, rest);
  }

  /** An OPTIONAL field whose tag does not match is absent, and the next element stays unread. */
  lemma ReadOptionalAbsent(t: Tlv, rest: seq<byte>, accepts: Tag -> bool)
    requires !accepts(t.tag)
    ensures ReadOptional(EncodeTlv(t) + rest, accepts) == Ok((None, EncodeTlv(t) + rest))
  {
    PeekEncoded(t, rest);
  }

  lemma ReadExpectedEncoded(t: Tlv, rest: seq<byte>)
    requires ValidTlv(t)
    ensures ReadExpected(EncodeTlv(t) + rest, t.tag) == Ok((t.content, rest))
  {
    TlvRoundTrip(t, rest);
  }

  /** `[n] EXPLICIT` around an encoded element unwraps to that element. */
  lemma UnwrapExplicitEncoded(n: nat, inner: Tlv)
    requires ValidTlv(inner)
    ensures UnwrapExplicit(Some(Tlv(ContextTag(n), EncodeTlv(inner)))) == Ok(Some(inner))
  {
    DecodeExactEncoded(inner);
  }

  /** Every element of a list is at most as long as the list's encoding. */
  lemma {:induction false} EncodeAllWithin(ts: seq<Tlv>, i: nat)
    requires i < |ts|
    ensures |EncodeTlv(ts[i])| <= |EncodeAll(ts)|
  {
    if i > 0 {
      EncodeAllWithin(ts[1..], i - 1);
    }
  }

  /** SEQUENCE OF round trip: decoding the encoded elements with an element decoder that accepts each gives back its results, in order. */
  lemma {:induction false} DecodeSeqOfEncoded<T>(ts: seq<Tlv>, f: Tlv -> Result<T, DerError>, xs: seq<T>)
    requires |ts| == |xs|
    requires forall i :: 0 <= i < |ts| ==> ValidTlv(ts[i]) && f(ts[i]) == Ok(xs[i])
    ensures DecodeSeqOf(EncodeAll(ts), f) == Ok(xs)
  {
    if ts != [] {
      TlvRoundTrip(ts[0], EncodeAll(ts[1..]));
      DecodeSeqOfEncoded(ts[1..], f, xs[1..]);
      assert xs == [xs[0]] + xs[1..];
    }
  }

  /** An OPTIONAL field reads back as encoded, provided an absent one is not followed by an element it would take. */
  lemma ReadOptionalEncoded(o: Option<Tlv>, rest: seq<byte>, accepts: Tag -> bool)
    requires o.Some? ==> ValidTlv(o.value) && accepts(o.value.tag)
    requires o.None? ==> NextNotAccepted(rest, accepts)
    ensures ReadOptional(OptBytes(o) + rest, accepts) == Ok((o, rest))
  {
    if o.Some? {
      ReadOptionalPresent(o.value, rest, accepts);
    } else {
      assert OptBytes(o) + rest == rest;
    }
  }
}
