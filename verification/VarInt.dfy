/**
  Variable Byte Integers (section 1.5.5 of MQTT 5.0) and the Remaining Length of
  the fixed header (section 2.2.3 of MQTT 3.1.1): base-128 digits, least
  significant first, with the top bit set on every byte but the last.
 */
module VarInt {
  import opened Wire

  const MAX_VARIABLE_BYTE_INTEGER: nat := 268_435_455

  function VbiBytes(v: nat): (r: Bytes)
    ensures r != []
  {
    if v < 128 then [v] else [v % 128 + 128] + VbiBytes(v / 128)
  }

  function ValueOf(s: Bytes): nat {
    if s == [] then 0 else s[0] as int % 128 + 128 * ValueOf(s[1..])
  }

  /** How many bytes with the top bit set stand at `c`, counting at most `k`. */
  function Continued(s: Bytes, c: nat, k: nat): (n: nat)
    ensures n <= k && (n == 0 || c + n <= |s|)
    ensures forall i | c <= i < c + n :: s[i] >= 128
    ensures n < k && c + n < |s| ==> s[c + n] < 128
    decreases k
  {
    if k == 0 || c >= |s| || s[c] < 128 then 0 else 1 + Continued(s, c + 1, k - 1)
  }

  /** What reading one Variable Byte Integer at `c` yields. */
  function VbiAt(s: Bytes, c: nat): Result<(nat, nat)> {
    var n := Continued(s, c, 4);
    if n == 4 then Err(MalformedLength)
    else if c + n >= |s| then Err(UnexpectedEof)
    else if n > 0 && s[c + n] == 0 then Err(MalformedLength)
    else Ok((ValueOf(s[c..c + n + 1]), c + n + 1))
  }

  /** What the buffer decoder reads: like `VbiAt`, but padded encodings pass and a short buffer is no error. */
  function RemainingAt(s: Bytes, c: nat): (r: Result<Option<(nat, nat)>>)
    ensures r.Ok? && r.value.Some? ==> c < r.value.value.1 <= |s|
    ensures c >= |s| ==> r == Ok(None)
  {
    var n := Continued(s, c, 4);
    if n == 4 then Err(MalformedLength)
    else if c + n >= |s| then Ok(None)
    else Ok(Some((ValueOf(s[c..c + n + 1]), c + n + 1)))
  }

  // ---------- the loops of the source ----------

  method ReadVbi(input: Bytes, cursor: nat) returns (r: Result<(nat, nat)>)
    ensures r == VbiAt(input, cursor)
  {
    hide ValueOf, Power128;
    var value, multiplier, c := 0, 1, cursor;
    PowerNext(0);
    for index := 0 to 4
      invariant c == cursor + index && (index == 0 || c <= |input|)
      invariant forall i | cursor <= i < c :: input[i] >= 128
      invariant value == if index == 0 then 0 else ValueOf(input[cursor..c])
      invariant multiplier == Power128(index) && value < multiplier
    {
      if c >= |input| {
        ContinuedIs(input, cursor, 4, index);
        return Err(UnexpectedEof);
      }
      var byte: nat := input[c];
      NextDigit(input, cursor, c);
      PowerNext(index);
      value := value + byte % 128 * multiplier;
      c := c + 1;
      if byte < 128 {
        ContinuedIs(input, cursor, 4, index);
        var minimum := if index == 0 then 0 else multiplier;
        if value < minimum {
          return Err(MalformedLength);
        }
        return Ok((value, c));
      }
      multiplier := multiplier * 128;
    }
    ContinuedIs(input, cursor, 4, 4);
    return Err(MalformedLength);
  }

  method WriteVbi(output: Bytes, v: nat) returns (r: Result<Bytes>)
    ensures r == if v > MAX_VARIABLE_BYTE_INTEGER then Err(VariableByteIntegerOutOfRange(v))
                 else Ok(output + VbiBytes(v))
  {
    if v > MAX_VARIABLE_BYTE_INTEGER {
      return Err(VariableByteIntegerOutOfRange(v));
    }
    var bytes := EncodeRemainingLength(v);
    return Ok(output + bytes);
  }

  method EncodeRemainingLength(v: nat) returns (out: Bytes)
    ensures out == VbiBytes(v)
  {
    out := [];
    var value := v;
    while true
      invariant out + VbiBytes(value) == VbiBytes(v)
      decreases value
    {
      var byte := value % 128;
      var rest := value / 128;
      if rest > 0 {
        byte := byte + 128;
      }
      assert out + [byte] + VbiBytes(rest) == out + ([byte] + VbiBytes(rest));
      out := out + [byte];
      if rest == 0 {
        return;
      }
      value := rest;
    }
  }

  method DecodeRemainingLength(data: Bytes, start: nat) returns (r: Result<Option<(nat, nat)>>)
    ensures r == RemainingAt(data, start)
  {
    hide ValueOf, Power128;
    var result, multiplier, c := 0, 1, start;
    PowerNext(0);
    while c < |data|
      invariant start <= c && (c == start || c <= |data|) && c - start < 4
      invariant forall i | start <= i < c :: data[i] >= 128
      invariant result == if c == start then 0 else ValueOf(data[start..c])
      invariant multiplier == Power128(c - start) && result < multiplier
    {
      var byte: nat := data[c];
      NextDigit(data, start, c);
      PowerNext(c - start);
      result := result + byte % 128 * multiplier;
      multiplier := multiplier * 128;
      if byte < 128 {
        ContinuedIs(data, start, 4, c - start);
        return Ok(Some((result, c + 1)));
      }
      if c - start >= 3 {
        ContinuedIs(data, start, 4, 4);
        return Err(MalformedLength);
      }
      c := c + 1;
    }
    ContinuedIs(data, start, 4, c - start);
    return Ok(None);
  }

  // ---------- digits ----------

  function Power128(i: nat): nat {
    if i == 0 then 1 else 128 * Power128(i - 1)
  }

  lemma PowerStep(i: nat, d: nat)
    requires d < 128
    ensures Power128(i) * d + Power128(i) <= Power128(i + 1)
    ensures d > 0 ==> Power128(i) <= Power128(i) * d
  {
    hide Power128;
    var p := Power128(i);
    PowerNext(i);
    TimesMonotone(p, d + 1, 128);
    assert p * (d + 1) == p * d + p;
    if d > 0 {
      TimesMonotone(p, 1, d);
    }
  }

  lemma PowerNext(i: nat)
    ensures Power128(0) == 1 && Power128(i + 1) == 128 * Power128(i)
  {
  }

  lemma TimesMonotone(p: nat, a: nat, b: nat)
    requires a <= b
    ensures p * a <= p * b
  {
    var c := b - a;
    assert p * b == p * a + p * c;
  }

  lemma {:induction false} ValueOfSnoc(s: Bytes, b: Byte)
    ensures ValueOf(s + [b]) == ValueOf(s) + Power128(|s|) * (b as int % 128)
  {
    if s == [] {
    } else {
      assert (s + [b])[1..] == s[1..] + [b];
      ValueOfSnoc(s[1..], b);
      var p, d := Power128(|s| - 1), b as int % 128;
      assert 128 * (p * d) == (128 * p) * d;
    }
  }

  /** What one more byte adds to the value read so far. */
  lemma NextDigit(s: Bytes, start: nat, c: nat)
    requires start <= c < |s|
    ensures var d := s[c] as int % 128;
            var p := Power128(c - start);
            var before, after := ValueOf(s[start..c]), ValueOf(s[start..c + 1]);
            && (c == start ==> before == 0)
            && after == before + d * p
            && (before < p ==> after < 128 * p && (after < p <==> d == 0))
  {
    hide Power128, ValueOf;
    ValueOfSnoc(s[start..c], s[c]);
    assert s[start..c] + [s[c]] == s[start..c + 1];
    NoDigits(s, start);
    PowerNext(c - start);
    PowerStep(c - start, s[c] as int % 128);
  }

  lemma NoDigits(s: Bytes, start: nat)
    requires start <= |s|
    ensures ValueOf(s[start..start]) == 0
  {
  }

  lemma {:induction false} ContinuedIs(s: Bytes, c: nat, k: nat, n: nat)
    requires n <= k && (n == 0 || c + n <= |s|)
    requires forall i | c <= i < c + n :: s[i] >= 128
    requires n == k || c + n >= |s| || s[c + n] < 128
    ensures Continued(s, c, k) == n
    decreases k
  {
    if n > 0 {
      ContinuedIs(s, c + 1, k - 1, n - 1);
    }
  }

  // ---------- the encoding is a bijection ----------

  predicate Canonical(s: Bytes) {
    s != [] && s[|s| - 1] < 128
    && (forall i | 0 <= i < |s| - 1 :: s[i] >= 128)
    && (|s| > 1 ==> s[|s| - 1] != 0)
  }

  lemma {:induction false} VbiIsCanonical(v: nat)
    ensures Canonical(VbiBytes(v)) && ValueOf(VbiBytes(v)) == v
    ensures v > 0 ==> VbiBytes(v)[|VbiBytes(v)| - 1] != 0
  {
    if v >= 128 {
      VbiIsCanonical(v / 128);
      var tail := VbiBytes(v / 128);
      assert VbiBytes(v)[1..] == tail;
    }
  }

  lemma {:induction false} CanonicalIsVbi(s: Bytes)
    requires Canonical(s)
    ensures VbiBytes(ValueOf(s)) == s && (s[|s| - 1] != 0 ==> ValueOf(s) > 0)
  {
    if |s| > 1 {
      CanonicalIsVbi(s[1..]);
      VbiCons(s[0], ValueOf(s[1..]));
      assert s == [s[0]] + s[1..];
    }
  }

  lemma VbiCons(b: Byte, rest: nat)
    requires b >= 128 && rest > 0
    ensures VbiBytes(b as int % 128 + 128 * rest) == [b] + VbiBytes(rest)
  {
    var v := b as int % 128 + 128 * rest;
    assert v / 128 == rest && v % 128 == b as int % 128;
  }

  /** At most four bytes, exactly for the values in range. */
  lemma VbiLength(v: nat)
    ensures |VbiBytes(v)| <= 4 <==> v <= MAX_VARIABLE_BYTE_INTEGER
  {
    if v >= 128 {
      assert |VbiBytes(v)| == 1 + |VbiBytes(v / 128)|;
      if v / 128 >= 128 {
        assert |VbiBytes(v / 128)| == 1 + |VbiBytes(v / 128 / 128)|;
        if v / 128 / 128 >= 128 {
          assert |VbiBytes(v / 128 / 128)| == 1 + |VbiBytes(v / 128 / 128 / 128)|;
        }
      }
    }
  }

  /** An encoding that stands at `c` is found by counting its continuation bytes. */
  lemma VbiFound(s: Bytes, c: nat, v: nat)
    requires Holds(s, c, VbiBytes(v))
    ensures Continued(s, c, 4) == if v <= MAX_VARIABLE_BYTE_INTEGER then |VbiBytes(v)| - 1 else 4
  {
    VbiIsCanonical(v);
    VbiLength(v);
    var e := VbiBytes(v);
    var n := if |e| <= 4 then |e| - 1 else 4;
    forall i | c <= i < c + |e| ensures s[i] == e[i - c] {
      assert s[i] == s[c..c + |e|][i - c];
    }
    ContinuedIs(s, c, 4, n);
  }

  /** Reading succeeds exactly on the encodings of the values in range. */
  lemma VbiReads(s: Bytes, c: nat, v: nat, c': nat)
    ensures VbiAt(s, c) == Ok((v, c'))
       <==> v <= MAX_VARIABLE_BYTE_INTEGER && Holds(s, c, VbiBytes(v)) && c' == c + |VbiBytes(v)|
  {
    hide ValueOf, VbiBytes;
    if VbiAt(s, c) == Ok((v, c')) {
      var e := s[c..c'];
      assert Canonical(e);
      CanonicalIsVbi(e);
      VbiLength(v);
    }
    if v <= MAX_VARIABLE_BYTE_INTEGER && Holds(s, c, VbiBytes(v)) {
      VbiFound(s, c, v);
      VbiIsCanonical(v);
      VbiLength(v);
      var e := VbiBytes(v);
      var n := Continued(s, c, 4);
      assert s[c..c + n + 1] == e && e[n] == s[c + n];
    }
  }

  /** No two values share an encoding, and none is a prefix of another. */
  lemma VbiPrefixFree(v: nat, w: nat)
    requires VbiBytes(v) <= VbiBytes(w)
    ensures v == w
  {
    VbiIsCanonical(v);
    VbiIsCanonical(w);
    var e, f := VbiBytes(v), VbiBytes(w);
    assert e[|e| - 1] == f[|e| - 1] < 128;
    assert |e| == |f|;
  }

  /** The fixed-header decoder reads every canonical integer as the strict reader does. */
  lemma RemainingExtendsVbi(s: Bytes, c: nat)
    requires VbiAt(s, c).Ok?
    ensures RemainingAt(s, c) == Ok(Some(VbiAt(s, c).value))
  {
  }

  /** Where the fixed-header decoder finds an integer, the strict reader finds the same exactly if no digit is padding. */
  lemma DecodersAgreeExactly(s: Bytes, c: nat)
    requires RemainingAt(s, c).Ok? && RemainingAt(s, c).value.Some?
    ensures var (v, next) := RemainingAt(s, c).value.value;
            && (VbiAt(s, c) == Ok((v, next)) <==> next == c + 1 || s[next - 1] != 0)
            && (VbiAt(s, c).Err? <==> next > c + 1 && s[next - 1] == 0)
  {
    hide ValueOf;
  }

  /** And where it reports an error or waits, the strict reader fails. */
  lemma RemainingElseVbiFails(s: Bytes, c: nat)
    requires RemainingAt(s, c).Err? || RemainingAt(s, c).value.None?
    ensures VbiAt(s, c).Err?
  {
    hide ValueOf;
  }

  /** The fixed-header decoder also takes padded integers: 0x80 0x00 reads as 0. */
  lemma RemainingAcceptsPadding()
    ensures VbiAt([0x80, 0x00], 0) == Err(MalformedLength)
    ensures RemainingAt([0x80, 0x00], 0) == Ok(Some((0, 2)))
  {
    var s: Bytes := [0x80, 0x00];
    ContinuedIs(s, 0, 4, 1);
    assert s[0..2] == s;
    assert ValueOf(s) == 128 * ValueOf([0x00]);
  }

  /** An encoding read by the fixed-header decoder, whatever its length. */
  lemma RemainingReads(s: Bytes, c: nat, v: nat)
    requires Holds(s, c, VbiBytes(v))
    ensures RemainingAt(s, c) == if v <= MAX_VARIABLE_BYTE_INTEGER then Ok(Some((v, c + |VbiBytes(v)|)))
                                 else Err(MalformedLength)
  {
    hide ValueOf, VbiBytes;
    VbiFound(s, c, v);
    VbiIsCanonical(v);
    VbiLength(v);
    assert s[c..c + |VbiBytes(v)|] == VbiBytes(v);
  }
}
