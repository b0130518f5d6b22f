/** IP addresses and the destination field of an IP packet (src/ip.rs). */
module Ip {
  import opened Wrappers

  type Byte = x: nat | x < 256

  datatype Family = V4 | V6 {
    function Octets(): nat {
      match this case V4 => 4 case V6 => 16
    }

    function Bits(): nat {
      8 * Octets()
    }
  }

  /** An address as the number its octets spell in network byte order. */
  datatype IpAddr = IpAddr(family: Family, value: nat) {
    ghost predicate Valid() {
      value < Pow2(family.Bits())
    }

    /** std's is_multicast: 224.0.0.0/4 for version 4, ff00::/8 for version 6. */
    predicate IsMulticast() {
      match family
      case V4 => 224 <= value / Pow2(24) <= 239
      case V6 => value / Pow2(120) == 255
    }
  }

  /** An address as it occurs: its value fits its family. */
  type Address = a: IpAddr | a.Valid() witness IpAddr(V4, 0)

  function Pow2(n: nat): (p: nat)
    ensures p > 0
  {
    if n == 0 then 1 else 2 * Pow2(n - 1)
  }

  lemma Pow2Byte(n: nat)
    ensures Pow2(n + 8) == 256 * Pow2(n)
  {
    assert Pow2(n + 8) == 2 * Pow2(n + 7) == 4 * Pow2(n + 6) == 8 * Pow2(n + 5);
    assert Pow2(n + 5) == 2 * Pow2(n + 4) == 4 * Pow2(n + 3) == 8 * Pow2(n + 2);
    assert Pow2(n + 2) == 2 * Pow2(n + 1) == 4 * Pow2(n);
  }

  function FromOctets(bytes: seq<Byte>): nat {
    if bytes == [] then 0 else FromOctets(bytes[..|bytes|-1]) * 256 + bytes[|bytes|-1]
  }

  function ToOctets(value: nat, n: nat): (bytes: seq<Byte>)
    ensures |bytes| == n
  {
    if n == 0 then [] else ToOctets(value / 256, n - 1) + [value % 256]
  }

  lemma {:induction false} FromOctetsBound(bytes: seq<Byte>)
    ensures FromOctets(bytes) < Pow2(8 * |bytes|)
  {
    if bytes != [] {
      var n := |bytes| - 1;
      FromOctetsBound(bytes[..n]);
      Pow2Byte(8 * n);
      assert 8 * |bytes| == 8 * n + 8;
    }
  }

  lemma {:induction false} OctetsRoundTrip(bytes: seq<Byte>)
    ensures ToOctets(FromOctets(bytes), |bytes|) == bytes
  {
    if bytes != [] {
      var n := |bytes| - 1;
      OctetsRoundTrip(bytes[..n]);
      assert FromOctets(bytes) / 256 == FromOctets(bytes[..n]);
      assert FromOctets(bytes) % 256 == bytes[n];
      assert bytes == bytes[..n] + [bytes[n]];
    }
  }

  lemma {:induction false} ValueRoundTrip(value: nat, n: nat)
    requires value < Pow2(8 * n)
    ensures FromOctets(ToOctets(value, n)) == value
  {
    if n > 0 {
      Pow2Byte(8 * (n - 1));
      assert 8 * n == 8 * (n - 1) + 8;
      ValueRoundTrip(value / 256, n - 1);
      var bytes := ToOctets(value, n);
      assert bytes[..n-1] == ToOctets(value / 256, n - 1);
    }
  }

  /** A number lies in the q-th band of that size exactly when q is its quotient. */
  lemma {:induction false} QuotientBand(v: nat, q: nat, size: nat)
    requires size > 0
    ensures q * size <= v < q * size + size <==> v / size == q
  {
    var r := v / size;
    assert v == r * size + v % size;
    if r < q {
      assert (r + 1) * size <= q * size;
    } else if r > q {
      assert (q + 1) * size <= r * size;
    }
  }

  /** Shifting in one more octet and shifting it out again. */
  lemma {:induction false} ShiftQuotient(f: nat, l: nat, p: nat)
    requires p > 0 && l < 256
    ensures (f * 256 + l) / (256 * p) == f / p
  {
    var b := f / p;
    QuotientBand(f, b, p);
    assert b * (256 * p) == 256 * (b * p);
    QuotientBand(f * 256 + l, b, 256 * p);
  }

  lemma {:induction false} FirstOctet(bytes: seq<Byte>)
    requires bytes != []
    ensures FromOctets(bytes) / Pow2(8 * (|bytes| - 1)) == bytes[0]
  {
    var n := |bytes| - 1;
    if n == 0 {
      assert FromOctets(bytes[..0]) == 0;
    } else {
      FirstOctet(bytes[..n]);
      Pow2Byte(8 * (n - 1));
      assert 8 * (n - 1) + 8 == 8 * n;
      ShiftQuotient(FromOctets(bytes[..n]), bytes[n], Pow2(8 * (n - 1)));
    }
  }

  function PacketDestination(packet: seq<Byte>): Option<IpAddr> {
    if packet == [] then None
    else
      match packet[0] / 16
      case 4 =>
        if |packet| < 20 then None else Some(IpAddr(V4, FromOctets(packet[16..20])))
      case 6 =>
        if |packet| < 40 then None else Some(IpAddr(V6, FromOctets(packet[24..40])))
      case _ => None
  }

  /** Where the fixed header of each version keeps the destination, and how long it is
      (section 3.1 of RFC 791, section 3 of RFC 8200). */
  function VersionNibble(family: Family): nat {
    match family case V4 => 4 case V6 => 6
  }

  function DestinationOffset(family: Family): nat {
    match family case V4 => 16 case V6 => 24
  }

  /** A packet yields the destination d exactly when its version nibble is d's, the fixed
      header is complete, and the destination field holds d's octets. */
  lemma DestinationExact(packet: seq<Byte>, d: IpAddr)
    requires d.Valid()
    ensures PacketDestination(packet) == Some(d) <==>
            && packet != []
            && packet[0] / 16 == VersionNibble(d.family)
            && |packet| >= DestinationOffset(d.family) + d.family.Octets()
            && packet[DestinationOffset(d.family)..DestinationOffset(d.family) + d.family.Octets()]
               == ToOctets(d.value, d.family.Octets())
  {
    ValueRoundTrip(d.value, d.family.Octets());
    if |packet| >= 20 { OctetsRoundTrip(packet[16..20]); }
    if |packet| >= 40 { OctetsRoundTrip(packet[24..40]); }
  }

  /** Whatever the packet, a destination that is returned is a well-formed address. */
  lemma DestinationValid(packet: seq<Byte>)
    ensures PacketDestination(packet).Some? ==> PacketDestination(packet).value.Valid()
  {
    if |packet| >= 20 { FromOctetsBound(packet[16..20]); }
    if |packet| >= 40 { FromOctetsBound(packet[24..40]); }
  }

  /** The packets that are not sent on: version 4 to 224 and up to 239, version 6 to 255, by the
      first octet of the destination. */
  ghost predicate MulticastBytes(packet: seq<Byte>) {
    packet != [] &&
    ((packet[0] / 16 == 4 && |packet| >= 20 && 224 <= packet[16] <= 239) || (packet[0] / 16 == 6 && |packet| >= 40 && packet[24] == 255))
  }

  /** Among the packets that parse, the multicast ones are told by one octet. */
  lemma {:induction false} MulticastByOctet(packet: seq<Byte>)
    ensures PacketDestination(packet).Some? && PacketDestination(packet).value.IsMulticast() <==> MulticastBytes(packet)
  {
    if PacketDestination(packet).Some? {
      if packet[0] / 16 == 4 {
        FirstOctet(packet[16..20]);
        assert packet[16..20][0] == packet[16];
      } else {
        FirstOctet(packet[24..40]);
        assert packet[24..40][0] == packet[24];
      }
    }
  }
}
