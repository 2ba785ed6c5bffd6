/** CIDR networks of src/lib/client-address.ts: the byte-and-mask tests mean exactly
    what they should on addresses read as big-endian integers. */
module Cidr {
  import opened Bits
  import opened Ipv6

  datatype Family = V4 | V6

  function Length(family: Family): nat { if family.V4? then 4 else 16 }

  datatype Address = Address(family: Family, bytes: seq<Byte>) {
    predicate Valid() { |bytes| == Length(family) }
  }

  /** `prefix` counts the leading bits that every member shares. */
  datatype Network = Network(family: Family, bytes: seq<Byte>, prefix: nat) {
    predicate Valid() { |bytes| == Length(family) && prefix <= 8 * |bytes| }
  }

  /** The address as an unsigned big-endian integer. */
  function Value(bytes: seq<Byte>): nat {
    if bytes == [] then 0 else bytes[0] * Pow2(8 * (|bytes| - 1)) + Value(bytes[1..])
  }

  /** Number of addresses in a network with this prefix. */
  function Size(net: Network): nat
    requires net.Valid()
  {
    Pow2(8 * |net.bytes| - net.prefix)
  }

  /** What a network means: the block of `Size` consecutive addresses from its own. */
  predicate InNetwork(net: Network, address: Address)
    requires net.Valid() && address.Valid()
  {
    net.family == address.family && Value(net.bytes) <= Value(address.bytes) < Value(net.bytes) + Size(net)
  }

  /** The network's address is the first of its block. */
  predicate Canonical(net: Network)
    requires net.Valid()
  {
    Value(net.bytes) % Size(net) == 0
  }

  lemma {:induction false} ValueBound(bytes: seq<Byte>)
    ensures Value(bytes) < Pow2(8 * |bytes|)
  {
    if bytes != [] {
      ValueBound(bytes[1..]);
      var m := Pow2(8 * (|bytes| - 1));
      Pow2Add(8, 8 * (|bytes| - 1));
      Pow2Of8();
      DigitBound(bytes[0], m, Value(bytes[1..]));
    }
  }

  lemma DigitBound(digit: Byte, m: nat, rest: nat)
    requires rest < m
    ensures digit * m + rest < 256 * m
  {
    assert 255 * m - digit * m == m * (255 - digit);
    MulNonNegative(m, 255 - digit);
  }

  lemma Pow2Of8()
    ensures Pow2(8) == 256
  {
    assert Pow2(8) == 2 * Pow2(7) == 4 * Pow2(6) == 8 * Pow2(5) == 16 * Pow2(4);
    assert Pow2(4) == 16;
  }

  // ----- The masks -----

  /** `(0xff << (8 - bits)) & 0xff`: the first `bits` bits of a byte. */
  function PrefixMask(bits: nat): nat
    requires 1 <= bits <= 7
  {
    BitAnd(0xff * Pow2(8 - bits), 0xff)
  }

  /** `(1 << (8 - bits)) - 1`: the remaining bits. */
  function HostMask(bits: nat): nat
    requires 1 <= bits <= 7
  {
    Pow2(8 - bits) - 1
  }

  lemma PrefixMaskValue(bits: nat)
    requires 1 <= bits <= 7
    ensures PrefixMask(bits) == Pow2(8 - bits) * (Pow2(bits) - 1)
  {
    Pow2Of8();
    Pow2Add(8 - bits, bits);
    BitAndLow(0xff * Pow2(8 - bits), 8);
    ShiftedOnes(Pow2(8 - bits), Pow2(bits));
  }

  lemma ShiftedOnes(p: nat, q: nat)
    requires p >= 1 && q >= 1 && p * q == 256
    ensures 0xff * p % 256 == p * (q - 1)
  {
    assert p * (q - 1) == p * q - p;
    MulNonNegative(p, q - 1);
    DivUnique(0xff * p, 256, p - 1, 256 - p);
  }

  /** Equal under the prefix mask means equal leading bits. */
  lemma PrefixMaskCompares(a: Byte, b: Byte, bits: nat)
    requires 1 <= bits <= 7
    ensures BitAnd(a, PrefixMask(bits)) == BitAnd(b, PrefixMask(bits)) <==> a / Pow2(8 - bits) == b / Pow2(8 - bits)
  {
    var p, q := Pow2(8 - bits), Pow2(bits);
    Pow2Of8();
    Pow2Add(8 - bits, bits);
    PrefixMaskValue(bits);
    BitAndHigh(a, 8 - bits, bits);
    BitAndHigh(b, 8 - bits, bits);
    LeadingBits(a, p, q);
    LeadingBits(b, p, q);
    DigitsEqual(a / p, 0, b / p, 0, p);
  }

  lemma LeadingBits(x: nat, p: nat, q: nat)
    requires p >= 1 && x < p * q
    ensures x / p % q == x / p
  {
    DivDigits(0, q, p, x);
    DivUnique(x / p, q, 0, x / p);
  }

  lemma HostMaskSelects(a: Byte, bits: nat)
    requires 1 <= bits <= 7
    ensures BitAnd(a, HostMask(bits)) == a % Pow2(8 - bits)
  {
    BitAndLow(a, 8 - bits);
  }

  // ----- Leading bits of whole addresses -----

  /** The bytes that `prefix` covers completely agree, and so do the leading bits of the next one. */
  predicate LeadingBitsAgree(a: seq<Byte>, b: seq<Byte>, prefix: nat)
    requires |a| == |b| && prefix <= 8 * |a|
  {
    && a[..prefix / 8] == b[..prefix / 8]
    && (prefix % 8 != 0 ==> a[prefix / 8] / Pow2(8 - prefix % 8) == b[prefix / 8] / Pow2(8 - prefix % 8))
  }

  /** First byte fully covered: it is a digit of the quotient. */
  lemma PeelByte(a: seq<Byte>, prefix: nat)
    requires a != [] && 8 <= prefix <= 8 * |a|
    ensures Value(a) / Pow2(8 * |a| - prefix) ==
            a[0] * Pow2(prefix - 8) + Value(a[1..]) / Pow2(8 * |a| - prefix)
    ensures Value(a) % Pow2(8 * |a| - prefix) == Value(a[1..]) % Pow2(8 * |a| - prefix)
    ensures 0 <= Value(a[1..]) / Pow2(8 * |a| - prefix) < Pow2(prefix - 8)
  {
    ValueBound(a[1..]);
    Pow2Add(8 * |a| - prefix, prefix - 8);
    DivDigits(a[0], Pow2(prefix - 8), Pow2(8 * |a| - prefix), Value(a[1..]));
  }

  /** First byte partly covered: the quotient is its leading bits. */
  lemma SplitByte(a: seq<Byte>, prefix: nat)
    requires a != [] && prefix < 8
    ensures Value(a) / Pow2(8 * |a| - prefix) == a[0] / Pow2(8 - prefix)
    ensures Value(a) % Pow2(8 * |a| - prefix) ==
            (a[0] % Pow2(8 - prefix)) * Pow2(8 * (|a| - 1)) + Value(a[1..])
  {
    ValueBound(a[1..]);
    Pow2Add(8 - prefix, 8 * (|a| - 1));
    DivWide(a[0], Pow2(8 - prefix), Pow2(8 * (|a| - 1)), Value(a[1..]));
  }

  /** Agreement of the leading bits is agreement of the integer quotients. */
  lemma {:induction false} LeadingBitsAreQuotient(a: seq<Byte>, b: seq<Byte>, prefix: nat)
    requires |a| == |b| && prefix <= 8 * |a|
    ensures LeadingBitsAgree(a, b, prefix) <==>
            Value(a) / Pow2(8 * |a| - prefix) == Value(b) / Pow2(8 * |a| - prefix)
    decreases |a|
  {
    if a == [] {
    } else if prefix < 8 {
      FirstByteDecides(a, b, prefix);
    } else {
      LeadingBitsAreQuotient(a[1..], b[1..], prefix - 8);
      AgreementPeels(a, b, prefix);
      QuotientPeels(a, b, prefix);
    }
  }

  lemma FirstByteDecides(a: seq<Byte>, b: seq<Byte>, prefix: nat)
    requires |a| == |b| && a != [] && prefix < 8
    ensures LeadingBitsAgree(a, b, prefix) <==>
            Value(a) / Pow2(8 * |a| - prefix) == Value(b) / Pow2(8 * |a| - prefix)
  {
    SplitByte(a, prefix);
    SplitByte(b, prefix);
    Pow2Of8();
  }

  lemma QuotientPeels(a: seq<Byte>, b: seq<Byte>, prefix: nat)
    requires |a| == |b| && a != [] && 8 <= prefix <= 8 * |a|
    ensures Value(a) / Pow2(8 * |a| - prefix) == Value(b) / Pow2(8 * |a| - prefix) <==>
            a[0] == b[0] && Value(a[1..]) / Pow2(8 * |a| - prefix) == Value(b[1..]) / Pow2(8 * |a| - prefix)
  {
    var d, k := Pow2(8 * |a| - prefix), Pow2(prefix - 8);
    var qa, ra, qb, rb := Value(a) / d, Value(a[1..]) / d, Value(b) / d, Value(b[1..]) / d;
    assert qa == a[0] * k + ra && 0 <= ra < k by { PeelByte(a, prefix); }
    assert qb == b[0] * k + rb && 0 <= rb < k by { PeelByte(b, prefix); }
    DigitsEqual(a[0], ra, b[0], rb, k);
  }

  lemma AgreementPeels(a: seq<Byte>, b: seq<Byte>, prefix: nat)
    requires |a| == |b| && a != [] && 8 <= prefix <= 8 * |a|
    ensures LeadingBitsAgree(a, b, prefix) <==> a[0] == b[0] && LeadingBitsAgree(a[1..], b[1..], prefix - 8)
  {
    var k := prefix / 8;
    assert (prefix - 8) / 8 == k - 1 && (prefix - 8) % 8 == prefix % 8;
    assert a[..k] == [a[0]] + a[1..][..k - 1];
    assert b[..k] == [b[0]] + b[1..][..k - 1];
    assert a[..k][0] == a[0] && b[..k][0] == b[0];
    assert a[..k][1..] == a[1..][..k - 1] && b[..k][1..] == b[1..][..k - 1];
  }

  /** For a canonical network, equal quotients mean membership of the block. */
  lemma QuotientIsBlock(n: nat, x: nat, d: nat)
    requires d >= 1 && n % d == 0
    ensures n / d == x / d <==> n <= x < n + d
  {
    DivisionIdentity(n, d);
    DivisionIdentity(x, d);
    if n <= x < n + d {
      DivUnique(x, d, n / d, x - n);
    }
  }

  lemma MembershipIsLeadingBits(network: Network, address: Address)
    requires network.Valid() && Canonical(network) && address.Valid() && network.family == address.family
    ensures InNetwork(network, address) <==> LeadingBitsAgree(network.bytes, address.bytes, network.prefix)
  {
    LeadingBitsAreQuotient(network.bytes, address.bytes, network.prefix);
    QuotientIsBlock(Value(network.bytes), Value(address.bytes), Size(network));
  }

  /** The loop over the bytes that the prefix covers completely. */
  method SameBytes(a: seq<Byte>, b: seq<Byte>, count: nat) returns (r: bool)
    requires count <= |a| && count <= |b|
    ensures r <==> a[..count] == b[..count]
  {
    for index := 0 to count
      invariant a[..index] == b[..index]
    {
      if a[index] != b[index] {
        assert a[..count][index] != b[..count][index];
        return false;
      }
    }
    r := true;
  }

  /** `containsAddress` tests membership of the integer interval. */
  method ContainsAddress(network: Network, address: Address) returns (r: bool)
    requires network.Valid() && Canonical(network) && address.Valid()
    ensures r <==> InNetwork(network, address)
  {
    if network.family != address.family { return false; }
    var completeBytes := network.prefix / 8;
    var remainingBits := network.prefix % 8;
    MembershipIsLeadingBits(network, address);
    var same := SameBytes(network.bytes, address.bytes, completeBytes);
    if !same { return false; }
    if remainingBits == 0 { return true; }
    var mask := PrefixMask(remainingBits);
    PrefixMaskCompares(network.bytes[completeBytes], address.bytes[completeBytes], remainingBits);
    r := BitAnd(network.bytes[completeBytes], mask) == BitAnd(address.bytes[completeBytes], mask);
  }

  // ----- Canonical networks -----

  /** `networkBitsAreZero`. */
  predicate NetworkBitsAreZero(bytes: seq<Byte>, prefix: nat)
    requires prefix <= 8 * |bytes|
  {
    var completeBytes, remainingBits := prefix / 8, prefix % 8;
    && (remainingBits != 0 ==> BitAnd(bytes[completeBytes], HostMask(remainingBits)) == 0)
    && var firstHostByte := completeBytes + (if remainingBits != 0 then 1 else 0);
       forall i | firstHostByte <= i < |bytes| :: bytes[i] == 0
  }

  lemma {:induction false} ValueZero(bytes: seq<Byte>)
    ensures Value(bytes) == 0 <==> forall i | 0 <= i < |bytes| :: bytes[i] == 0
  {
    if bytes != [] {
      ValueZero(bytes[1..]);
      var m := Pow2(8 * (|bytes| - 1));
      MulNonNegative(m, bytes[0]);
      if bytes[0] > 0 { MulAtLeast(m, bytes[0]); }
      assert forall i | 1 <= i < |bytes| :: bytes[i] == bytes[1..][i - 1];
    }
  }

  /** The host bits are zero exactly when the address is divisible by the block size. */
  lemma {:induction false} ZeroHostBitsIffCanonical(bytes: seq<Byte>, prefix: nat)
    requires prefix <= 8 * |bytes|
    ensures NetworkBitsAreZero(bytes, prefix) <==> Value(bytes) % Pow2(8 * |bytes| - prefix) == 0
    decreases |bytes|
  {
    if bytes == [] {
    } else if prefix >= 8 {
      ZeroHostBitsIffCanonical(bytes[1..], prefix - 8);
      PeelByte(bytes, prefix);
      ZeroHostBitsPeel(bytes, prefix);
    } else {
      ZeroHostBitsOfFirstByte(bytes, prefix);
    }
  }

  lemma ZeroHostBitsOfFirstByte(bytes: seq<Byte>, prefix: nat)
    requires bytes != [] && prefix < 8
    ensures NetworkBitsAreZero(bytes, prefix) <==> Value(bytes) % Pow2(8 * |bytes| - prefix) == 0
  {
    SplitByte(bytes, prefix);
    var m, low := Pow2(8 * (|bytes| - 1)), bytes[0] % Pow2(8 - prefix);
    ZeroSum(low, m, Value(bytes[1..]));
    ValueZero(bytes[1..]);
    assert forall i | 1 <= i < |bytes| :: bytes[i] == bytes[1..][i - 1];
    if prefix > 0 {
      HostMaskSelects(bytes[0], prefix);
    } else {
      Pow2Of8();
    }
  }

  lemma ZeroSum(low: nat, m: nat, rest: nat)
    requires m >= 1
    ensures low * m + rest == 0 <==> low == 0 && rest == 0
  {
    if low > 0 { MulAtLeast(m, low); }
  }

  lemma ZeroHostBitsPeel(bytes: seq<Byte>, prefix: nat)
    requires bytes != [] && 8 <= prefix <= 8 * |bytes|
    ensures NetworkBitsAreZero(bytes, prefix) <==> NetworkBitsAreZero(bytes[1..], prefix - 8)
  {
    assert (prefix - 8) / 8 == prefix / 8 - 1 && (prefix - 8) % 8 == prefix % 8;
    assert forall i | 1 <= i < |bytes| :: bytes[i] == bytes[1..][i - 1];
    assert forall i | 0 <= i < |bytes[1..]| :: bytes[1..][i] == bytes[i + 1];
  }
}
