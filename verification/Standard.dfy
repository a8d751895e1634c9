/**
  Numbers and strings as section 1.5 of MQTT 5.0 tabulates them, written out byte
  by byte and without the codec's own functions. The codec is proved to write
  exactly these bytes, and to accept as text exactly what Unicode calls UTF-8.
 */
module Standard {
  import opened Wire
  import opened VarInt

  // ---------- numbers and strings ----------

  function Big16(n: U16): Bytes {
    [n / 256, n % 256]
  }

  function Big32(n: U32): Bytes {
    [n / 16_777_216, n / 65_536 % 256, n / 256 % 256, n % 256]
  }

  /** Two bytes of length, then the bytes. */
  function Field(s: Bytes): Bytes
    requires |s| <= 65_535
  {
    Big16(|s|) + s
  }

  /** One to four groups of seven bits, the lowest first, all but the last marked with 128. */
  function Varint(v: nat): Bytes
    requires v <= 268_435_455
  {
    if v < 128 then [v]
    else if v < 16_384 then [v % 128 + 128, v / 128]
    else if v < 2_097_152 then [v % 128 + 128, v / 128 % 128 + 128, v / 16_384]
    else [v % 128 + 128, v / 128 % 128 + 128, v / 16_384 % 128 + 128, v / 2_097_152]
  }

  lemma NumbersAreStandard(n: U16, m: U32, s: Bytes)
    ensures U16Bytes(n) == Big16(n) && U32Bytes(m) == Big32(m)
    ensures |s| <= 65_535 ==> Prefixed(s) == Field(s)
    ensures PrefixedTruncating(s) == Big16(|s| % 65_536) + s
  {
    Quarters(m);
  }

  lemma Quarters(m: U32)
    ensures U32Bytes(m) == Big32(m)
  {
    assert m / 65_536 / 256 == m / 16_777_216;
    assert m % 65_536 == m - 65_536 * (m / 65_536);
    assert m % 65_536 / 256 == m / 256 - 256 * (m / 65_536);
    assert m / 256 / 256 == m / 65_536;
    assert m % 65_536 % 256 == m % 256;
  }

  /** The encodings of the standard, for every value in range. */
  lemma VarintIsStandard(v: nat)
    requires v <= 268_435_455
    ensures VbiBytes(v) == Varint(v)
  {
    hide Varint;
    VarintSteps(v);
    if v >= 128 {
      VarintSteps(v / 128);
      if v / 128 >= 128 {
        VarintSteps(v / 128 / 128);
        if v / 128 / 128 >= 128 {
          VarintSteps(v / 128 / 128 / 128);
          assert v / 128 / 128 / 128 < 128;
        }
      }
    }
    VarintFolds(v);
  }

  lemma VarintSteps(v: nat)
    ensures VbiBytes(v) == if v < 128 then [v] else [v % 128 + 128] + VbiBytes(v / 128)
  {
  }

  lemma VarintFolds(v: nat)
    requires v <= 268_435_455
    ensures var a := v / 128;
            var b := a / 128;
            var c := b / 128;
            Varint(v) == if v < 128 then [v]
                         else if a < 128 then [v % 128 + 128, a]
                         else if b < 128 then [v % 128 + 128, a % 128 + 128, b]
                         else [v % 128 + 128, a % 128 + 128, b % 128 + 128, c]
  {
    assert v / 128 / 128 == v / 16_384 && v / 128 / 128 / 128 == v / 2_097_152;
  }

  /**
    What the decoders make of the bytes at `c`, group by group: the first byte
    below 128 among the first four ends the integer.
   */
  lemma GroupsRead(s: Bytes, c: nat)
    ensures c < |s| && s[c] < 128 ==> RemainingAt(s, c) == Ok(Some((s[c], c + 1)))
    ensures c + 1 < |s| && s[c] >= 128 > s[c + 1] ==>
              RemainingAt(s, c) == Ok(Some((s[c] as int - 128 + 128 * s[c + 1] as int, c + 2)))
    ensures c + 2 < |s| && s[c] >= 128 && s[c + 1] >= 128 > s[c + 2] ==>
              RemainingAt(s, c)
              == Ok(Some((s[c] as int - 128 + 128 * (s[c + 1] as int - 128) + 16_384 * s[c + 2] as int, c + 3)))
    ensures c + 3 < |s| && s[c] >= 128 && s[c + 1] >= 128 && s[c + 2] >= 128 > s[c + 3] ==>
              RemainingAt(s, c)
              == Ok(Some((s[c] as int - 128 + 128 * (s[c + 1] as int - 128) + 16_384 * (s[c + 2] as int - 128)
                          + 2_097_152 * s[c + 3] as int, c + 4)))
  {
    hide RemainingAt;
    var n := LastGroup(s, c);
    if n < 4 && c + n < |s| {
      GroupsEnd(s, c, n);
    }
  }

  lemma GroupsEnd(s: Bytes, c: nat, n: nat)
    requires n < 4 && c + n < |s| && n == Continued(s, c, 4)
    requires s[c + n] < 128 && forall i | c <= i < c + n :: s[i] >= 128
    ensures RemainingAt(s, c)
         == Ok(Some((if n == 0 then s[c] as int
                     else if n == 1 then s[c] as int - 128 + 128 * s[c + 1] as int
                     else if n == 2 then s[c] as int - 128 + 128 * (s[c + 1] as int - 128) + 16_384 * s[c + 2] as int
                     else s[c] as int - 128 + 128 * (s[c + 1] as int - 128) + 16_384 * (s[c + 2] as int - 128)
                          + 2_097_152 * s[c + 3] as int,
                     c + n + 1)))
  {
    hide ValueOf, Continued;
    var g := s[c..c + n + 1];
    FourGroups(g);
    forall i | 0 <= i <= n
      ensures g[i] as int % 128 == if i < n then s[c + i] as int - 128 else s[c + i] as int
    {
      assert g[i] == s[c + i];
    }
  }

  /** What both readers say of a length that does not end, and of one that is cut off. */
  lemma GroupsFail(s: Bytes, c: nat)
    ensures c + 3 < |s| && s[c] >= 128 && s[c + 1] >= 128 && s[c + 2] >= 128 && s[c + 3] >= 128 ==>
              RemainingAt(s, c) == Err(MalformedLength) && VbiAt(s, c) == Err(MalformedLength)
    ensures (forall i | c <= i < |s| :: s[i] >= 128) && |s| < c + 4 ==>
              RemainingAt(s, c) == Ok(None) && VbiAt(s, c) == Err(UnexpectedEof)
    ensures RemainingAt(s, c).Ok? && RemainingAt(s, c).value.Some? && VbiAt(s, c).Err? ==> VbiAt(s, c) == Err(MalformedLength)
  {
    hide ValueOf;
    var n := LastGroup(s, c);
  }

  /** The number of continued bytes at `c`, at most four. */
  lemma LastGroup(s: Bytes, c: nat) returns (n: nat)
    ensures n <= 4 && n == Continued(s, c, 4)
    ensures forall i | c <= i < c + n :: i < |s| && s[i] >= 128
    ensures n < 4 && c + n < |s| ==> s[c + n] < 128
  {
    n := if c < |s| && s[c] >= 128 then
           if c + 1 < |s| && s[c + 1] >= 128 then
             if c + 2 < |s| && s[c + 2] >= 128 then
               if c + 3 < |s| && s[c + 3] >= 128 then 4 else 3
             else 2
           else 1
         else 0;
    ContinuedIs(s, c, 4, n);
  }

  lemma FourGroups(s: Bytes)
    requires 1 <= |s| <= 4
    ensures |s| == 1 ==> ValueOf(s) == s[0] as int % 128
    ensures |s| == 2 ==> ValueOf(s) == s[0] as int % 128 + 128 * (s[1] as int % 128)
    ensures |s| == 3 ==> ValueOf(s) == s[0] as int % 128 + 128 * (s[1] as int % 128) + 16_384 * (s[2] as int % 128)
    ensures |s| == 4 ==>
              ValueOf(s) == s[0] as int % 128 + 128 * (s[1] as int % 128) + 16_384 * (s[2] as int % 128)
                            + 2_097_152 * (s[3] as int % 128)
  {
    if |s| > 1 {
      assert ValueOf(s) == s[0] as int % 128 + 128 * ValueOf(s[1..]);
      if |s| > 2 {
        assert ValueOf(s[1..]) == s[1] as int % 128 + 128 * ValueOf(s[1..][1..]);
        assert s[1..][1..] == s[2..];
        if |s| > 3 {
          assert ValueOf(s[2..]) == s[2] as int % 128 + 128 * ValueOf(s[2..][1..]);
          assert s[2..][1..] == s[3..] == [s[3]];
        } else {
          assert s[2..] == [s[2]];
        }
      } else {
        assert s[1..] == [s[1]];
      }
    }
  }

  // ---------- UTF-8 ----------

  /** A Unicode scalar value. */
  type Scalar = c: nat | c < 0xD800 || 0xE000 <= c < 0x11_0000

  /** Table 3-6 of the Unicode standard. */
  function ScalarBytes(c: Scalar): Bytes {
    if c < 0x80 then [c]
    else if c < 0x800 then [0xC0 + c / 64, 0x80 + c % 64]
    else if c < 0x1_0000 then [0xE0 + c / 4096, 0x80 + c / 64 % 64, 0x80 + c % 64]
    else [0xF0 + c / 262_144, 0x80 + c / 4096 % 64, 0x80 + c / 64 % 64, 0x80 + c % 64]
  }

  function ScalarsBytes(cs: seq<Scalar>): Bytes {
    if cs == [] then [] else ScalarBytes(cs[0]) + ScalarsBytes(cs[1..])
  }

  lemma ThreeByteBounds(c: nat)
    requires 0x800 <= c < 0x1_0000 && (c < 0xD800 || 0xE000 <= c)
    ensures c / 4096 <= 15 && (c / 4096 == 0 ==> c / 64 % 64 >= 32) && (c / 4096 == 13 ==> c / 64 % 64 < 32)
  {
    assert c / 64 / 64 == c / 4096;
  }

  lemma FourByteBounds(c: nat)
    requires 0x1_0000 <= c < 0x11_0000
    ensures c / 262_144 <= 4
    ensures (c / 262_144 == 0 ==> c / 4096 % 64 >= 16) && (c / 262_144 == 4 ==> c / 4096 % 64 < 16)
  {
    assert c / 4096 / 64 == c / 262_144;
  }

  /** The width found at the front of a scalar's bytes is theirs, whatever follows. */
  lemma WidthOfScalar(c: Scalar, rest: Bytes)
    ensures Utf8Width(ScalarBytes(c) + rest) == |ScalarBytes(c)|
  {
    var s := ScalarBytes(c) + rest;
    if c >= 0x1_0000 {
      FourByteBounds(c);
      WidthOfFour(c / 262_144, c / 4096 % 64, c / 64 % 64, c % 64, s);
    } else if c >= 0x800 {
      ThreeByteBounds(c);
      assert s[0] == 0xE0 + c / 4096 && s[1] == 0x80 + c / 64 % 64;
    }
  }

  lemma WidthOfFour(w: nat, x: nat, y: nat, z: nat, s: Bytes)
    requires w <= 4 && x < 64 && y < 64 && z < 64 && (w == 0 ==> x >= 16) && (w == 4 ==> x < 16)
    requires |s| >= 4 && s[0] == 0xF0 + w && s[1] == 0x80 + x && s[2] == 0x80 + y && s[3] == 0x80 + z
    ensures Utf8Width(s) == 4
  {
  }

  /** Where a width is found, the bytes are a scalar's. */
  lemma ScalarOfWidth(s: Bytes) returns (c: Scalar)
    requires s != [] && Utf8Width(s) != 0
    ensures s[..Utf8Width(s)] == ScalarBytes(c)
  {
    var n := Utf8Width(s);
    if n == 1 {
      c := s[0];
    } else if n == 2 {
      c := (s[0] as int - 0xC0) * 64 + (s[1] as int - 0x80);
      assert c / 64 == s[0] as int - 0xC0 && c % 64 == s[1] as int - 0x80;
    } else if n == 3 {
      c := ThreeBytes(s[0], s[1], s[2]);
    } else {
      c := FourBytes(s[0], s[1], s[2], s[3]);
    }
  }

  lemma ThreeBytes(a: Byte, b: Byte, d: Byte) returns (c: Scalar)
    requires 0xE0 <= a <= 0xEF && Continuation(b) && Continuation(d)
    requires (a == 0xE0 ==> b >= 0xA0) && (a == 0xED ==> b <= 0x9F)
    ensures ScalarBytes(c) == [a, b, d]
  {
    var x, y, z: nat := a as int - 0xE0, b as int - 0x80, d as int - 0x80;
    SixBits(x, y);
    SixBits(x * 64 + y, z);
    c := (x * 64 + y) * 64 + z;
    assert c == x * 4096 + y * 64 + z;
  }

  lemma SixBits(q: nat, r: nat)
    requires r < 64
    ensures (q * 64 + r) / 64 == q && (q * 64 + r) % 64 == r
    ensures (q * 64 + r) / 4096 == q / 64 && (q * 64 + r) / 262_144 == q / 4096
  {
  }

  lemma FourBytes(a: Byte, b: Byte, d: Byte, e: Byte) returns (c: Scalar)
    requires 0xF0 <= a <= 0xF4 && Continuation(b) && Continuation(d) && Continuation(e)
    requires (a == 0xF0 ==> b >= 0x90) && (a == 0xF4 ==> b <= 0x8F)
    ensures ScalarBytes(c) == [a, b, d, e]
  {
    var w, x, y, z: nat := a as int - 0xF0, b as int - 0x80, d as int - 0x80, e as int - 0x80;
    var u, v := w * 64 + x, (w * 64 + x) * 64 + y;
    SixBits(w, x);
    SixBits(u, y);
    SixBits(v, z);
    c := v * 64 + z;
    assert c == w * 262_144 + x * 4096 + y * 64 + z;
  }

  /** The strings that the readers accept are exactly the encodings of sequences of scalar values. */
  lemma {:induction false} Utf8IsStandard(s: Bytes)
    ensures ValidUtf8(s) <==> exists cs :: s == ScalarsBytes(cs)
  {
    hide ScalarBytes, Utf8Width;
    if ValidUtf8(s) {
      var cs := ScalarsOf(s);
      assert s == ScalarsBytes(cs);
    }
    if cs :| s == ScalarsBytes(cs) {
      ScalarsValid(cs);
    }
  }

  lemma {:induction false} ScalarsOf(s: Bytes) returns (cs: seq<Scalar>)
    requires ValidUtf8(s)
    ensures s == ScalarsBytes(cs)
    decreases |s|
  {
    hide ScalarBytes, Utf8Width;
    if s == [] {
      cs := [];
    } else {
      var n := Utf8Width(s);
      var c := ScalarOfWidth(s);
      var rest := ScalarsOf(s[n..]);
      cs := [c] + rest;
      assert cs[1..] == rest && s == s[..n] + s[n..];
    }
  }

  lemma {:induction false} ScalarsValid(cs: seq<Scalar>)
    ensures ValidUtf8(ScalarsBytes(cs))
  {
    hide ScalarBytes, Utf8Width;
    if cs != [] {
      var b, rest := ScalarBytes(cs[0]), ScalarsBytes(cs[1..]);
      WidthOfScalar(cs[0], rest);
      ScalarNonEmpty(cs[0]);
      ScalarsValid(cs[1..]);
      assert (b + rest)[|b|..] == rest;
    }
  }

  lemma ScalarNonEmpty(c: Scalar)
    ensures ScalarBytes(c) != []
  {
  }
}
