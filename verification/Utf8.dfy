/** UTF-8 (section 3 of RFC 3629): no ASCII byte inside a longer sequence, no two texts with one
    encoding, and the order of code points kept. */
module Utf8 {
  import opened Ip

  type Bytes = seq<Byte>

  /** A Unicode scalar value: a code point that is not a surrogate. */
  type Scalar = x: nat | x < 0x11_0000 && !(0xD800 <= x < 0xE000)

  /** UTF-8 of one scalar value (section 3 of RFC 3629). */
  function EncodeScalar(c: Scalar): (bytes: Bytes)
    ensures forall b: Byte :: b < 0x80 && b in bytes ==> c == b
  {
    if c < 0x80 then [c]
    else if c < 0x800 then [0xC0 + c / 0x40, 0x80 + c % 0x40]
    else if c < 0x1_0000 then [0xE0 + c / 0x1000, 0x80 + c / 0x40 % 0x40, 0x80 + c % 0x40]
    else [0xF0 + c / 0x4_0000, 0x80 + c / 0x1000 % 0x40, 0x80 + c / 0x40 % 0x40, 0x80 + c % 0x40]
  }

  function EncodeText(text: seq<Scalar>): (bytes: Bytes) {
    if text == [] then [] else EncodeText(text[..|text|-1]) + EncodeScalar(text[|text|-1])
  }

  /** An encoding is the shortest one, starts with a byte that no continuation is, and goes on with
      continuation bytes only. */
  lemma {:induction false} EncodingForm(c: Scalar)
    ensures var bytes := EncodeScalar(c);
            && |bytes| == (if c <= 0x7F then 1 else if c <= 0x7FF then 2 else if c <= 0xFFFF then 3 else 4)
            && (bytes[0] <= 0x7F || 0xC2 <= bytes[0] <= 0xF4)
            && forall k :: 1 <= k < |bytes| ==> 0x80 <= bytes[k] <= 0xBF
  {
  }

  lemma {:induction false} EncodeConcat(s: seq<Scalar>, t: seq<Scalar>)
    ensures EncodeText(s + t) == EncodeText(s) + EncodeText(t)
  {
    if t == [] {
      assert s + t == s;
    } else {
      assert (s + t)[..|s + t|-1] == s + t[..|t|-1];
      EncodeConcat(s, t[..|t|-1]);
    }
  }

  /** The lead byte tells the length. */
  function LengthByLead(lead: Byte): nat {
    if lead < 0x80 then 1 else if lead < 0xE0 then 2 else if lead < 0xF0 then 3 else 4
  }

  lemma {:induction false} LeadTellsLength(c: Scalar)
    ensures |EncodeScalar(c)| > 0 && LengthByLead(EncodeScalar(c)[0]) == |EncodeScalar(c)|
  {
  }

  function Payload(b: int, mark: int): int {
    b - mark
  }

  /** The scalar value that the payload bits of one encoding spell. */
  function DecodeScalar(bytes: Bytes): int {
    if |bytes| == 1 then bytes[0]
    else if |bytes| == 2 then Payload(bytes[0], 0xC0) * 0x40 + Payload(bytes[1], 0x80)
    else if |bytes| == 3 then Payload(bytes[0], 0xE0) * 0x1000 + Payload(bytes[1], 0x80) * 0x40 + Payload(bytes[2], 0x80)
    else if |bytes| == 4 then
      Payload(bytes[0], 0xF0) * 0x4_0000 + Payload(bytes[1], 0x80) * 0x1000 + Payload(bytes[2], 0x80) * 0x40 + Payload(bytes[3], 0x80)
    else -1
  }

  lemma {:induction false} ScalarRoundTrip(c: Scalar)
    ensures DecodeScalar(EncodeScalar(c)) == c
  {
    assert c == c / 0x40 * 0x40 + c % 0x40;
    assert c / 0x40 == c / 0x40 / 0x40 * 0x40 + c / 0x40 % 0x40;
    assert c / 0x1000 == c / 0x1000 / 0x40 * 0x40 + c / 0x1000 % 0x40;
    assert c / 0x40 / 0x40 == c / 0x1000 && c / 0x1000 / 0x40 == c / 0x4_0000;
  }

  /** The encoding is prefix-free. */
  lemma {:induction false} ScalarPrefix(c: Scalar, s: Bytes, d: Scalar, t: Bytes)
    requires EncodeScalar(c) + s == EncodeScalar(d) + t
    ensures c == d && s == t
  {
    LeadTellsLength(c);
    LeadTellsLength(d);
    ScalarRoundTrip(c);
    ScalarRoundTrip(d);
    SamePrefix(EncodeScalar(c), s, EncodeScalar(d), t);
  }

  lemma {:induction false} SamePrefix(a: Bytes, s: Bytes, b: Bytes, t: Bytes)
    requires a + s == b + t && |a| > 0 && |b| > 0 && LengthByLead(a[0]) == |a| && LengthByLead(b[0]) == |b|
    ensures a == b && s == t
  {
    assert a[0] == (a + s)[0] && b[0] == (b + t)[0];
    assert a == (a + s)[..|a|] && b == (b + t)[..|b|];
    assert s == (a + s)[|a|..] && t == (b + t)[|b|..];
  }

  lemma {:induction false} EncodeFront(text: seq<Scalar>)
    requires text != []
    ensures EncodeText(text) == EncodeScalar(text[0]) + EncodeText(text[1..])
  {
    assert text == [text[0]] + text[1..];
    EncodeConcat([text[0]], text[1..]);
    assert [text[0]][..0] == [];
    assert EncodeText([text[0]]) == EncodeScalar(text[0]);
  }

  /** Different texts have different encodings, so the bytes of a line determine its text. */
  lemma {:induction false} EncodeInjective(s: seq<Scalar>, t: seq<Scalar>)
    requires EncodeText(s) == EncodeText(t)
    ensures s == t
  {
    if s != [] { EncodeFront(s); }
    if t != [] { EncodeFront(t); }
    if s != [] && t != [] {
      ScalarPrefix(s[0], EncodeText(s[1..]), t[0], EncodeText(t[1..]));
      EncodeInjective(s[1..], t[1..]);
      assert s == [s[0]] + s[1..] && t == [t[0]] + t[1..];
    }
  }

  // ---------- order ----------

  /** Lexicographic order of byte strings. */
  predicate BytesBelow(a: Bytes, b: Bytes) {
    if a == [] then true
    else if b == [] then false
    else if a[0] != b[0] then a[0] < b[0]
    else BytesBelow(a[1..], b[1..])
  }

  predicate TextBelow(a: seq<Scalar>, b: seq<Scalar>) {
    if a == [] then true
    else if b == [] then false
    else if a[0] != b[0] then a[0] < b[0]
    else TextBelow(a[1..], b[1..])
  }

  /** a and b agree on a prefix, and then a has the smaller byte. */
  ghost predicate Parts(a: Bytes, b: Bytes, n: nat) {
    n < |a| && n < |b| && a[..n] == b[..n] && a[n] < b[n]
  }

  lemma {:induction false} PartsBelow(a: Bytes, b: Bytes, s: Bytes, t: Bytes, n: nat)
    requires Parts(a, b, n)
    ensures BytesBelow(a + s, b + t) && !BytesBelow(b + t, a + s)
  {
    if n > 0 {
      assert a[0] == a[..n][0] && b[0] == b[..n][0];
      assert a[1..][..n-1] == a[..n][1..] && b[1..][..n-1] == b[..n][1..];
      PartsBelow(a[1..], b[1..], s, t, n - 1);
      assert (a + s)[1..] == a[1..] + s && (b + t)[1..] == b[1..] + t;
    }
  }

  /** Comparing numbers is comparing the rest first and then the last digit to base 64. */
  lemma {:induction false} LastDigit(c: nat, d: nat)
    requires c < d
    ensures c / 0x40 < d / 0x40 || (c / 0x40 == d / 0x40 && c % 0x40 < d % 0x40)
  {
  }

  lemma {:induction false} Shifts(c: nat)
    ensures c / 0x1000 == c / 0x40 / 0x40 && c / 0x4_0000 == c / 0x1000 / 0x40
  {
  }

  lemma {:induction false} FirstByteParts(a: Bytes, b: Bytes)
    requires a != [] && b != [] && a[0] < b[0]
    ensures Parts(a, b, 0)
  {
  }

  lemma {:induction false} LongerParts(c: Scalar, d: Scalar)
    requires c < d && |EncodeScalar(c)| != |EncodeScalar(d)|
    ensures Parts(EncodeScalar(c), EncodeScalar(d), 0)
  {
    FirstByteParts(EncodeScalar(c), EncodeScalar(d));
  }

  /** Byte strings of one length part where their first difference is. */
  lemma {:induction false} FirstDifference(a: Bytes, b: Bytes, n: nat)
    requires n < |a| && n < |b| && a[n] < b[n] && forall k :: 0 <= k < n ==> a[k] == b[k]
    ensures Parts(a, b, n)
  {
  }

  lemma {:induction false} SmallerParts(c: Scalar, d: Scalar) returns (n: nat)
    requires c < d
    ensures Parts(EncodeScalar(c), EncodeScalar(d), n)
  {
    var a, b := EncodeScalar(c), EncodeScalar(d);
    if |a| != |b| {
      LongerParts(c, d);
      return 0;
    }
    LastDigit(c, d);
    Shifts(c);
    Shifts(d);
    n := |a| - 1;
    if n > 0 && c / 0x40 < d / 0x40 {
      LastDigit(c / 0x40, d / 0x40);
      n := n - 1;
      if n > 0 && c / 0x1000 < d / 0x1000 {
        LastDigit(c / 0x1000, d / 0x1000);
        n := if n > 1 && c / 0x4_0000 < d / 0x4_0000 then n - 2 else n - 1;
      }
    }
    FirstDifference(a, b, n);
  }

  lemma {:induction false} CommonPrefix(p: Bytes, s: Bytes, t: Bytes)
    ensures BytesBelow(p + s, p + t) <==> BytesBelow(s, t)
  {
    if p == [] {
      assert p + s == s && p + t == t;
    } else {
      CommonPrefix(p[1..], s, t);
      assert (p + s)[1..] == p[1..] + s && (p + t)[1..] == p[1..] + t;
    }
  }

  /** Comparing the encodings byte by byte is comparing the texts code point by code point. */
  lemma {:induction false} OrderKept(a: seq<Scalar>, b: seq<Scalar>)
    ensures BytesBelow(EncodeText(a), EncodeText(b)) <==> TextBelow(a, b)
  {
    if a != [] { EncodeFront(a); }
    if b != [] { EncodeFront(b); }
    if a != [] && b != [] {
      if a[0] == b[0] {
        CommonPrefix(EncodeScalar(a[0]), EncodeText(a[1..]), EncodeText(b[1..]));
        OrderKept(a[1..], b[1..]);
      } else if a[0] < b[0] {
        var n := SmallerParts(a[0], b[0]);
        PartsBelow(EncodeScalar(a[0]), EncodeScalar(b[0]), EncodeText(a[1..]), EncodeText(b[1..]), n);
      } else {
        var n := SmallerParts(b[0], a[0]);
        PartsBelow(EncodeScalar(b[0]), EncodeScalar(a[0]), EncodeText(b[1..]), EncodeText(a[1..]), n);
      }
    } else if a != [] {
      LeadTellsLength(a[0]);
    }
  }
}
