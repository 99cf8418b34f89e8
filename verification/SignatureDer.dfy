// The encoding of an ECDSA signature (r, s) as bytes, against a reader of the
// Distinguished Encoding Rules written from the standard.
module SignatureDer {
  import opened Common

  type byte = b: int | 0 <= b < 256
  type Bytes = seq<byte>

  /** What writing a number into a byte buffer keeps of it. */
  function ToByte(n: nat): byte {
    n % 256
  }

  function Unsigned(b: Bytes): nat {
    if b == [] then 0 else 256 * Unsigned(b[..|b| - 1]) + b[|b| - 1]
  }

  // ----- the encoder -----

  /** A number whose first bit is set gets a zero octet in front. */
  function Pad(b: Bytes): Bytes {
    if b != [] && b[0] >= 0x80 then [0x00] + b else b
  }

  function SignatureToDER(r: Bytes, s: Bytes): Bytes {
    var rbuf, sbuf := Pad(r), Pad(s);
    var length := 2 + |rbuf| + 2 + |sbuf|;
    [0x30, ToByte(length), 0x02, ToByte(|rbuf|)] + rbuf + [0x02, ToByte(|sbuf|)] + sbuf
  }

  // ----- a reader of definite short-form encodings (X.690, sections 8.1.3.4, 8.3 and 8.9) -----

  /** An element with this tag in front of the input: its contents and what follows it. */
  function ReadElement(tag: byte, input: Bytes): Option<(Bytes, Bytes)> {
    if |input| < 2 || input[0] != tag || input[1] >= 0x80 then None
    else if |input| < 2 + input[1] then None
    else Some((input[2..2 + input[1]], input[2 + input[1]..]))
  }

  /** The value of an INTEGER's contents octets: a two's complement number, of at least one octet. */
  function IntegerValue(contents: Bytes): Option<int> {
    if contents == [] then None
    else if contents[0] >= 0x80 then Some(Unsigned(contents) - Pow256(|contents|))
    else Some(Unsigned(contents))
  }

  function Pow256(k: nat): nat {
    if k == 0 then 1 else 256 * Pow256(k - 1)
  }

  /** The first nine bits of a number of several octets are not all equal (X.690, section 8.3.2). */
  predicate Minimal(contents: Bytes) {
    |contents| >= 2 ==>
      && !(contents[0] == 0x00 && contents[1] < 0x80)
      && !(contents[0] == 0xFF && contents[1] >= 0x80)
  }

  /** A strict reader insists on minimal contents octets. */
  function ReadInteger(input: Bytes, strict: bool): Option<(int, Bytes)> {
    match ReadElement(0x02, input)
    case None => None
    case Some((contents, rest)) =>
      if strict && !Minimal(contents) then None else
        match IntegerValue(contents)
        case None => None
        case Some(v) => Some((v, rest))
  }

  /** A SEQUENCE of exactly two INTEGERs, and nothing after it. */
  function Read(input: Bytes, strict: bool): Option<(int, int)> {
    match ReadElement(0x30, input)
    case None => None
    case Some((contents, after)) =>
      if after != [] then None else
        match ReadInteger(contents, strict)
        case None => None
        case Some((r, rest)) =>
          match ReadInteger(rest, strict)
          case None => None
          case Some((s, end)) => if end == [] then Some((r, s)) else None
  }

  function ReadSignature(input: Bytes): Option<(int, int)> {
    Read(input, false)
  }

  // ----- the round trip -----

  lemma {:induction false} UnsignedPad(b: Bytes)
    ensures Unsigned([0x00] + b) == Unsigned(b)
  {
    if b == [] {
      assert ([0x00] + b)[..0] == [];
    } else {
      UnsignedPad(b[..|b| - 1]);
      assert ([0x00] + b)[..|b|] == [0x00] + b[..|b| - 1];
    }
  }

  /** The contents octets of an encoded number read back as its unsigned value. */
  lemma PadReadsBack(b: Bytes)
    ensures IntegerValue(Pad(b)) == if b == [] then None else Some(Unsigned(b))
  {
    UnsignedPad(b);
  }

  lemma ElementReadsBack(tag: byte, contents: Bytes, rest: Bytes)
    requires |contents| < 0x80
    ensures ReadElement(tag, [tag, ToByte(|contents|)] + contents + rest) == Some((contents, rest))
  {
    var input := [tag, ToByte(|contents|)] + contents + rest;
    assert input[2..2 + |contents|] == contents;
    assert input[2 + |contents|..] == rest;
  }

  /** A length octet that lost bits, or has its top bit set, does not pass for the length of what follows. */
  lemma LongElementFails(tag: byte, contents: Bytes)
    requires |contents| >= 0x80
    ensures ReadElement(tag, [tag, ToByte(|contents|)] + contents).None?
         || ReadElement(tag, [tag, ToByte(|contents|)] + contents).value.1 != []
  {
    var input := [tag, ToByte(|contents|)] + contents;
    if ReadElement(tag, input).Some? {
      assert input[1] < |contents|;
    }
  }

  function Body(r: Bytes, s: Bytes): Bytes {
    [0x02, ToByte(|Pad(r)|)] + Pad(r) + ([0x02, ToByte(|Pad(s)|)] + Pad(s))
  }

  lemma EncodingParts(r: Bytes, s: Bytes)
    ensures SignatureToDER(r, s) == [0x30, ToByte(|Body(r, s)|)] + Body(r, s)
    ensures |Body(r, s)| == 4 + |Pad(r)| + |Pad(s)|
  {}

  /** A zero octet in front that the number does not need. */
  predicate SpareZero(b: Bytes) {
    |b| >= 2 && b[0] == 0x00 && b[1] < 0x80
  }

  /** Padding adds no spare octet and takes none away. */
  lemma PadIsMinimal(b: Bytes)
    ensures Minimal(Pad(b)) <==> !SpareZero(b)
    ensures |Pad(b)| == ContentsLength(b)
  {}

  lemma BodyReadsBack(r: Bytes, s: Bytes, strict: bool)
    requires |Pad(r)| < 0x80 && |Pad(s)| < 0x80
    ensures var second := [0x02, ToByte(|Pad(s)|)] + Pad(s);
            && ReadInteger(Body(r, s), strict)
               == (if r == [] || (strict && SpareZero(r)) then None else Some((Unsigned(r), second)))
            && ReadInteger(second, strict)
               == (if s == [] || (strict && SpareZero(s)) then None else Some((Unsigned(s), [])))
  {
    var second := [0x02, ToByte(|Pad(s)|)] + Pad(s);
    ElementReadsBack(0x02, Pad(r), second);
    ElementReadsBack(0x02, Pad(s), []);
    assert second == second + [];
    PadReadsBack(r);
    PadReadsBack(s);
    PadIsMinimal(r);
    PadIsMinimal(s);
  }

  /** How many contents octets a number takes: one more than it has if its first bit is set. */
  function ContentsLength(b: Bytes): nat {
    |b| + if b != [] && b[0] >= 0x80 then 1 else 0
  }

  /** What the encoder can express: two numbers of at least one octet, in a body of at most 127 octets. */
  predicate Encodable(r: Bytes, s: Bytes) {
    r != [] && s != [] && 4 + ContentsLength(r) + ContentsLength(s) <= 127
  }

  lemma ReadsBack(r: Bytes, s: Bytes, strict: bool)
    ensures Read(SignatureToDER(r, s), strict)
            == if Encodable(r, s) && !(strict && (SpareZero(r) || SpareZero(s)))
               then Some((Unsigned(r), Unsigned(s))) else None
  {
    EncodingParts(r, s);
    PadIsMinimal(r);
    PadIsMinimal(s);
    var body := Body(r, s);
    if |body| >= 0x80 {
      LongElementFails(0x30, body);
    } else {
      ElementReadsBack(0x30, body, []);
      assert [0x30, ToByte(|body|)] + body + [] == [0x30, ToByte(|body|)] + body;
      BodyReadsBack(r, s, strict);
    }
  }

  /** Reading an encoded signature gives back the two unsigned numbers exactly when they are encodable. */
  lemma SignatureRoundTrip(r: Bytes, s: Bytes)
    ensures ReadSignature(SignatureToDER(r, s)) == Some((Unsigned(r), Unsigned(s))) <==> Encodable(r, s)
    ensures ReadSignature(SignatureToDER(r, s)).Some? ==> Encodable(r, s)
    ensures |SignatureToDER(r, s)| == 6 + ContentsLength(r) + ContentsLength(s)
  {
    ReadsBack(r, s, false);
    EncodingParts(r, s);
    PadIsMinimal(r);
    PadIsMinimal(s);
  }

  /** The encoding is the distinguished one exactly when the numbers bring no spare zero octets along. */
  lemma StrictRoundTrip(r: Bytes, s: Bytes)
    ensures Read(SignatureToDER(r, s), true) == Some((Unsigned(r), Unsigned(s)))
            <==> Encodable(r, s) && !SpareZero(r) && !SpareZero(s)
    ensures Read(SignatureToDER(r, s), true).Some? ==> Encodable(r, s) && !SpareZero(r) && !SpareZero(s)
  {
    ReadsBack(r, s, true);
  }

  /** In particular every signature of two numbers of up to 32 octets reads back as it was. */
  lemma EcdsaRoundTrip(r: Bytes, s: Bytes)
    requires 1 <= |r| <= 32 && 1 <= |s| <= 32
    ensures ReadSignature(SignatureToDER(r, s)) == Some((Unsigned(r), Unsigned(s)))
    ensures |SignatureToDER(r, s)| == 2 + SignatureToDER(r, s)[1] <= 72
  {
    SignatureRoundTrip(r, s);
    EncodingParts(r, s);
    PadIsMinimal(r);
    PadIsMinimal(s);
  }

  /** Signatures that read differently are encoded differently. */
  lemma EncodingsApart(r: Bytes, s: Bytes, r': Bytes, s': Bytes)
    requires Encodable(r, s) && Encodable(r', s') && SignatureToDER(r, s) == SignatureToDER(r', s')
    ensures Unsigned(r) == Unsigned(r') && Unsigned(s) == Unsigned(s')
  {
    hide SignatureToDER, ReadSignature, Encodable;
    SignatureRoundTrip(r, s);
    SignatureRoundTrip(r', s');
  }
}
