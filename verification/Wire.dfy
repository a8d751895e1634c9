/**
  Bytes, errors and the fixed-width fields that every MQTT packet is made of.

  A parser is a function of the bytes and a cursor; it returns the value read
  and the cursor after it, or the first error. `Holds` is the converse view:
  the bytes `e` stand in `body` at cursor `c`.
 */
module Wire {
  type Byte = b: nat | b < 0x100
  type U16 = n: nat | n < 0x1_0000
  type U32 = n: nat | n < 0x1_0000_0000
  type Bytes = seq<Byte>

  datatype Option<+T> = None | Some(value: T)

  /** `MqttError`, restricted to the variants that the modelled code can produce. */
  datatype Error =
    | Io
    | ChannelClosed
    | UnexpectedEof
    | InvalidPacketType(raw: Byte)
    | MalformedLength
    | InvalidUtf8
    | PayloadTooLong(len: nat, max: Option<nat>)  // None: no bound
    | QosInvalid(bits: Byte)
    | ReservedFlagSet
    | FieldTooLong(len: nat)
    | VariableByteIntegerOutOfRange(value: nat)
    | InvalidProtocolName
    | UnsupportedProtocolLevel(level: Byte)
    | EmptyTopic
    | TopicTooLong
    | WildcardInPublishTopic
    | HashWildcardNotTerminal
    | WildcardMixedWithLiteral
    | SessionAlreadyBound
    | DuplicateProperty(id: Byte)
    | MalformedProperty(id: Byte)
    | UnknownProperty(id: Byte)
    | Utf8NullCharacter

  datatype Result<+T> = Ok(value: T) | Err(error: Error) {
    predicate IsFailure() {
      Err?
    }
    function PropagateFailure<U>(): Result<U>
      requires Err?
    {
      Err(error)
    }
    function Extract(): T
      requires Ok?
    {
      value
    }
  }

  // ---------- UTF-8 ----------

  predicate Continuation(b: Byte) {
    0x80 <= b <= 0xBF
  }

  /** Width of the well-formed UTF-8 sequence at the front of `s`, or 0 if there is none. */
  function Utf8Width(s: Bytes): (n: nat)
    requires s != []
    ensures n <= |s|
  {
    if s[0] < 0x80 then 1
    else if |s| < 2 then 0
    else if 0xC2 <= s[0] <= 0xDF && Continuation(s[1]) then 2
    else if |s| < 3 || !Continuation(s[2]) then 0
    else if (s[0] == 0xE0 && 0xA0 <= s[1] <= 0xBF)
         || ((0xE1 <= s[0] <= 0xEC || 0xEE <= s[0] <= 0xEF) && Continuation(s[1]))
         || (s[0] == 0xED && 0x80 <= s[1] <= 0x9F) then 3
    else if |s| < 4 || !Continuation(s[3]) then 0
    else if (s[0] == 0xF0 && 0x90 <= s[1] <= 0xBF)
         || (0xF1 <= s[0] <= 0xF3 && Continuation(s[1]))
         || (s[0] == 0xF4 && 0x80 <= s[1] <= 0x8F) then 4
    else 0
  }

  predicate ValidUtf8(s: Bytes) {
    s == [] || (Utf8Width(s) != 0 && ValidUtf8(s[Utf8Width(s)..]))
  }

  /** A Rust `str`: bytes that are known to be UTF-8. */
  type Text = s: Bytes | ValidUtf8(s) witness []

  // ---------- bytes at a cursor ----------

  predicate Holds(body: Bytes, c: nat, e: Bytes) {
    c + |e| <= |body| && body[c..c + |e|] == e
  }

  lemma HoldsConcat(body: Bytes, c: nat, a: Bytes, b: Bytes)
    ensures Holds(body, c, a + b) <==> Holds(body, c, a) && Holds(body, c + |a|, b)
  {
    if c + |a| + |b| <= |body| {
      var whole := body[c..c + |a| + |b|];
      assert whole[..|a|] == body[c..c + |a|];
      assert whole[|a|..] == body[c + |a|..c + |a| + |b|];
      assert whole == whole[..|a|] + whole[|a|..];
      assert (a + b)[..|a|] == a && (a + b)[|a|..] == b;
    }
  }

  // ---------- big-endian integers ----------

  function U16Bytes(n: U16): (r: Bytes)
    ensures |r| == 2
  {
    [n / 0x100, n % 0x100]
  }

  function U32Bytes(n: U32): (r: Bytes)
    ensures |r| == 4
  {
    U16Bytes(n / 0x1_0000) + U16Bytes(n % 0x1_0000)
  }

  function U8At(body: Bytes, c: nat): Result<(Byte, nat)> {
    if c < |body| then Ok((body[c], c + 1)) else Err(UnexpectedEof)
  }

  /** `hi` and `lo` as two digits of base `base`. */
  function Digits(hi: nat, base: nat, lo: nat): nat {
    hi * base + lo
  }

  function U16At(body: Bytes, c: nat): (r: Result<(U16, nat)>)
    ensures r.Ok? ==> r.value.1 == c + 2 <= |body|
  {
    if c + 2 <= |body| then Ok((Digits(body[c], 0x100, body[c + 1]), c + 2)) else Err(UnexpectedEof)
  }

  function U32At(body: Bytes, c: nat): Result<(U32, nat)> {
    if c + 4 <= |body| then
      Ok((Digits(U16At(body, c).value.0, 0x1_0000, U16At(body, c + 2).value.0), c + 4))
    else
      Err(UnexpectedEof)
  }

  lemma U8Reads(body: Bytes, c: nat, n: Byte, c': nat)
    ensures U8At(body, c) == Ok((n, c')) <==> Holds(body, c, [n]) && c' == c + 1
  {
    if c < |body| {
      assert body[c..c + 1] == [body[c]];
    }
  }

  lemma U16Reads(body: Bytes, c: nat, n: U16, c': nat)
    ensures U16At(body, c) == Ok((n, c')) <==> Holds(body, c, U16Bytes(n)) && c' == c + 2
  {
    if c + 2 <= |body| {
      assert body[c..c + 2] == [body[c], body[c + 1]];
    }
  }

  lemma U32Reads(body: Bytes, c: nat, n: U32, c': nat)
    ensures U32At(body, c) == Ok((n, c')) <==> Holds(body, c, U32Bytes(n)) && c' == c + 4
  {
    hide U16Bytes, U16At, Digits, Holds;
    var hi, lo := n / 0x1_0000, n % 0x1_0000;
    HoldsConcat(body, c, U16Bytes(hi), U16Bytes(lo));
    U16Reads(body, c, hi, c + 2);
    U16Reads(body, c + 2, lo, c + 4);
    HoldsWithin(body, c, U32Bytes(n));
    if c + 4 <= |body| {
      U16Present(body, c);
      U16Present(body, c + 2);
      HalvesUnique(n, U16At(body, c).value.0, U16At(body, c + 2).value.0);
    }
  }

  lemma HoldsWithin(body: Bytes, c: nat, e: Bytes)
    ensures Holds(body, c, e) ==> c + |e| <= |body|
  {
  }

  lemma U16Present(body: Bytes, c: nat)
    requires c + 2 <= |body|
    ensures U16At(body, c).Ok?
  {
  }

  lemma HalvesUnique(n: U32, a: U16, b: U16)
    ensures Digits(a, 0x1_0000, b) == n <==> a == n / 0x1_0000 && b == n % 0x1_0000
  {
  }

  // ---------- length-prefixed fields ----------

  /** The encoders cast the length with `as u16`, so it is truncated. */
  function PrefixedTruncating(s: Bytes): (r: Bytes)
    ensures |s| < 0x1_0000 ==> r == Prefixed(s)
  {
    U16Bytes(|s| % 0x1_0000) + s
  }

  function Prefixed(s: Bytes): (r: Bytes)
    requires |s| < 0x1_0000
    ensures |r| == 2 + |s|
  {
    U16Bytes(|s|) + s
  }

  function PrefixedAt(body: Bytes, c: nat): (r: Result<(Bytes, nat)>)
    ensures r.Ok? ==> |r.value.0| < 0x1_0000
  {
    var (n, c) :- U16At(body, c);
    if c + n <= |body| then Ok((body[c..c + n], c + n)) else Err(UnexpectedEof)
  }

  function TextAt(body: Bytes, c: nat): (r: Result<(Text, nat)>)
    ensures r.Ok? ==> |r.value.0| < 0x1_0000 && c < r.value.1 <= |body|
  {
    var (s, c) :- PrefixedAt(body, c);
    if ValidUtf8(s) then Ok((s, c)) else Err(InvalidUtf8)
  }

  lemma PrefixedReads(body: Bytes, c: nat, s: Bytes, c': nat)
    ensures PrefixedAt(body, c) == Ok((s, c'))
       <==> |s| < 0x1_0000 && Holds(body, c, Prefixed(s)) && c' == c + 2 + |s|
  {
    if |s| < 0x1_0000 {
      HoldsConcat(body, c, U16Bytes(|s|), s);
      U16Reads(body, c, |s|, c + 2);
    }
    if PrefixedAt(body, c).Ok? {
      var n := U16At(body, c).value.0;
      U16Reads(body, c, n, c + 2);
    }
  }

  lemma TextReads(body: Bytes, c: nat, s: Text, c': nat)
    ensures TextAt(body, c) == Ok((s, c'))
       <==> |s| < 0x1_0000 && Holds(body, c, Prefixed(s)) && c' == c + 2 + |s|
  {
    PrefixedReads(body, c, s, c');
  }
}
