/** Client addresses behind trusted proxies: src/lib/client-address.ts, on top of the
    IPv6 text forms and the CIDR networks. Node's `isIP(...) === 6` and JavaScript's
    numeric coercion of a CIDR prefix are parameters. */
module ClientAddress {
  import opened Options
  import opened Text
  import opened Ipv6
  import opened Cidr

  const MAXIMUM_FORWARDING_HEADER_BYTES := 1_024
  const MAXIMUM_FORWARDING_HOPS := 16

  /** What the module takes from its platform. */
  datatype Platform = Platform(isIPv6: string -> bool, number: string -> Option<int>)

  // ----- One address -----

  /** `::ffff:0:0/96`, the IPv4-mapped block. */
  predicate Mapped(bytes: seq<Byte>)
    requires |bytes| == 16
  {
    (forall i | 0 <= i < 10 :: bytes[i] == 0) && bytes[10] == 0xff && bytes[11] == 0xff
  }

  function ParseAddress(p: Platform, value: string): (r: Option<Address>)
    ensures r.Some? ==> r.value.Valid() && (r.value.family.V6? ==> !Mapped(r.value.bytes))
  {
    var candidate := Lower(Trim(value));
    if IsDottedQuad(candidate) then Some(Address(V4, QuadBytes(candidate)))
    else if !p.isIPv6(candidate) then None
    else
      var bytes := ParseIPv6(candidate);
      if bytes.None? then None
      else if Mapped(bytes.value) then Some(Address(V4, bytes.value[12..]))
      else Some(Address(V6, bytes.value))
  }

  /** The `normalized` text of an address. */
  ghost function NormalText(a: Address): string
    requires a.Valid()
  {
    if a.family.V4? then QuadText(a.bytes) else CanonicalText(a.bytes)
  }

  method Normalize(a: Address) returns (text: string)
    requires a.Valid()
    ensures text == NormalText(a)
  {
    if a.family.V4? {
      text := QuadText(a.bytes);
    } else {
      text := FormatIPv6(a.bytes);
    }
  }

  /** The alphabet of printed addresses: nothing that trimming or lower-casing touches. */
  predicate AddressChar(c: char) {
    DigitValue(c).Some? || c == '.' || c == ':'
  }

  lemma AddressTextIsFixed(s: string)
    requires forall c <- s :: AddressChar(c)
    ensures Lower(Trim(s)) == s
  {
    forall i | 0 <= i < |s| ensures !IsSpace(s[i]) && LowerChar(s[i]) == s[i] {
      assert AddressChar(s[i]);
      if DigitValue(s[i]).Some? { assert s[i] <= '9' || 'a' <= s[i]; }
    }
    TrimOfTrimmed(s);
    LowerOfLower(s);
  }

  lemma HexesHaveAddressChars(ws: seq<Word>, c: char)
    requires c in Join(Hexes(ws), ":")
    ensures DigitValue(c).Some? || c == ':'
  {
    JoinCharacters(Hexes(ws), ":", c);
    if c != ':' {
      var part :| part in Hexes(ws) && c in part;
      assert IsNumeral(part, 16);
    }
  }

  lemma CanonicalTextChars(bytes: seq<Byte>, c: char)
    requires |bytes| == 16 && c in CanonicalText(bytes)
    ensures DigitValue(c).Some? || c == ':'
  {
    var ws := WordsOf(bytes);
    if HasBestRun(ws) {
      var start: nat, length: nat :| IsBestRun(ws, start, length);
      CanonicalTextWithGap(bytes, start, length);
      if c in Join(Hexes(ws[..start]), ":") {
        HexesHaveAddressChars(ws[..start], c);
      } else if c in Join(Hexes(ws[start + length..]), ":") {
        HexesHaveAddressChars(ws[start + length..], c);
      }
    } else {
      HexesHaveAddressChars(ws, c);
    }
  }

  lemma QuadTextChars(bytes: seq<Byte>, c: char)
    requires |bytes| == 4 && c in QuadText(bytes)
    ensures AddressChar(c)
  {
    var parts := seq(4, i requires 0 <= i < 4 => Numeral(bytes[i], 10));
    JoinCharacters(parts, ".", c);
    if c != '.' {
      var part :| part in parts && c in part;
      assert IsNumeral(part, 10);
    }
  }

  /** Normalisation is stable: the printed text of a parsed address parses to that address,
      provided the platform's IPv6 test accepts the printed text. */
  lemma NormalTextParsesBack(p: Platform, value: string)
    requires ParseAddress(p, value).Some?
    requires var a := ParseAddress(p, value).value; a.family.V6? ==> p.isIPv6(NormalText(a))
    ensures ParseAddress(p, NormalText(ParseAddress(p, value).value)) == ParseAddress(p, value)
  {
    var a := ParseAddress(p, value).value;
    var text := NormalText(a);
    if a.family.V4? {
      forall c <- text ensures AddressChar(c) { QuadTextChars(a.bytes, c); }
      AddressTextIsFixed(text);
      QuadRoundTrip(a.bytes);
    } else {
      forall c <- text ensures AddressChar(c) && c != '.' { CanonicalTextChars(a.bytes, c); }
      AddressTextIsFixed(text);
      if IsDottedQuad(text) { DottedQuadHasDot(text); }
      PrintedFormParsesBack(a.bytes);
    }
  }

  /** Two addresses have the same normal text exactly when they are the same address. */
  lemma NormalTextInjective(a: Address, b: Address)
    requires a.Valid() && b.Valid()
    ensures NormalText(a) == NormalText(b) <==> a == b
  {
    if a.family.V4? { QuadRoundTrip(a.bytes); DottedQuadHasDot(NormalText(a)); }
    if b.family.V4? { QuadRoundTrip(b.bytes); DottedQuadHasDot(NormalText(b)); }
    if a.family.V6? && '.' in NormalText(a) { CanonicalTextChars(a.bytes, '.'); }
    if b.family.V6? && '.' in NormalText(b) { CanonicalTextChars(b.bytes, '.'); }
    if a.family.V6? && b.family.V6? { PrinterInjective(a.bytes, b.bytes); }
  }

  // ----- Trusted networks -----

  function ParseNetwork(p: Platform, value: string): (r: Option<Network>) {
    var components := Split(value, '/');
    if |components| > 2 then None else
    var address := ParseAddress(p, components[0]);
    if address.None? then None else
    var a := address.value;
    var maximum := 8 * |a.bytes|;
    var prefix := GivenPrefix(p, components, maximum);
    if prefix.None? || prefix.value < 0 || prefix.value > maximum then None
    else if !NetworkBitsAreZero(a.bytes, prefix.value) then None
    else Some(Network(a.family, a.bytes, prefix.value))
  }

  /** The prefix given after the slash, or the whole width. */
  function GivenPrefix(p: Platform, components: seq<string>, maximum: nat): Option<int>
    requires 1 <= |components| <= 2
  {
    if |components| == 1 then Some(maximum) else p.number(components[1])
  }

  /** A network is accepted exactly when it is a well-formed `address/prefix` whose address is
      the first of its block; without a prefix, a block of one address. */
  lemma NetworkAcceptedIffCanonical(p: Platform, value: string, net: Network)
    ensures ParseNetwork(p, value) == Some(net) <==>
            && net.Valid() && Canonical(net)
            && |Split(value, '/')| <= 2
            && ParseAddress(p, Split(value, '/')[0]) == Some(Address(net.family, net.bytes))
            && (|Split(value, '/')| == 1 ==> net.prefix == if net.family.V4? then 32 else 128)
            && (|Split(value, '/')| == 2 ==> p.number(Split(value, '/')[1]) == Some(net.prefix))
  {
    NetworkReads(p, value, net);
    if net.Valid() && |Split(value, '/')| <= 2 { GivenPrefixIs(p, Split(value, '/'), net); }
  }

  lemma GivenPrefixIs(p: Platform, components: seq<string>, net: Network)
    requires net.Valid() && 1 <= |components| <= 2
    ensures GivenPrefix(p, components, 8 * |net.bytes|) == Some(net.prefix) <==>
            && (|components| == 1 ==> net.prefix == if net.family.V4? then 32 else 128)
            && (|components| == 2 ==> p.number(components[1]) == Some(net.prefix))
  {}

  lemma NetworkReads(p: Platform, value: string, net: Network)
    ensures ParseNetwork(p, value) == Some(net) <==>
            && net.Valid() && Canonical(net)
            && |Split(value, '/')| <= 2
            && ParseAddress(p, Split(value, '/')[0]) == Some(Address(net.family, net.bytes))
            && GivenPrefix(p, Split(value, '/'), 8 * |net.bytes|) == Some(net.prefix)
  {
    if net.Valid() {
      assert Canonical(net) <==> NetworkBitsAreZero(net.bytes, net.prefix) by {
        ZeroHostBitsIffCanonical(net.bytes, net.prefix);
      }
    }
  }

  /** Every entry parses; `Networks` then holds what they parse to. */
  predicate AllNetworks(p: Platform, cidrs: seq<string>) {
    forall i | 0 <= i < |cidrs| :: ParseNetwork(p, cidrs[i]).Some?
  }

  function Networks(p: Platform, cidrs: seq<string>): (nets: seq<Network>)
    requires AllNetworks(p, cidrs)
    ensures |nets| == |cidrs|
    ensures forall i | 0 <= i < |nets| :: nets[i].Valid() && Canonical(nets[i])
  {
    assert forall i | 0 <= i < |cidrs| :: var n := ParseNetwork(p, cidrs[i]).value; n.Valid() && Canonical(n) by {
      forall i | 0 <= i < |cidrs| ensures var n := ParseNetwork(p, cidrs[i]).value; n.Valid() && Canonical(n) {
        NetworkAcceptedIffCanonical(p, cidrs[i], ParseNetwork(p, cidrs[i]).value);
      }
    }
    seq(|cidrs|, i requires 0 <= i < |cidrs| => ParseNetwork(p, cidrs[i]).value)
  }

  // ----- The forwarding chain -----

  function Hops(source: string): seq<string> {
    var raw := Split(source, ',');
    seq(|raw|, i requires 0 <= i < |raw| => Trim(raw[i]))
  }

  /** The header is present, bounded, and every hop is an address. */
  predicate WellFormed(p: Platform, source: string) {
    && source != "" && Utf8Length(source) <= MAXIMUM_FORWARDING_HEADER_BYTES
    && |Hops(source)| <= MAXIMUM_FORWARDING_HOPS
    && (forall i | 0 <= i < |Hops(source)| :: Hops(source)[i] != "")
    && (forall i | 0 <= i < |Hops(source)| :: ParseAddress(p, Hops(source)[i]).Some?)
  }

  function Addresses(p: Platform, hops: seq<string>): (addresses: seq<Address>)
    requires forall i | 0 <= i < |hops| :: ParseAddress(p, hops[i]).Some?
    ensures |addresses| == |hops| && forall i | 0 <= i < |addresses| :: addresses[i].Valid()
  {
    seq(|hops|, i requires 0 <= i < |hops| => ParseAddress(p, hops[i]).value)
  }

  predicate Trusted(nets: seq<Network>, a: Address)
    requires a.Valid() && forall i | 0 <= i < |nets| :: nets[i].Valid()
  {
    exists i :: 0 <= i < |nets| && InNetwork(nets[i], a)
  }

  /** `k` is the rightmost untrusted hop. */
  predicate IsClientHop(nets: seq<Network>, addresses: seq<Address>, k: nat)
    requires forall i | 0 <= i < |nets| :: nets[i].Valid()
    requires forall i | 0 <= i < |addresses| :: addresses[i].Valid()
  {
    k < |addresses| && !Trusted(nets, addresses[k]) && forall j | k < j < |addresses| :: Trusted(nets, addresses[j])
  }

  method IsTrusted(nets: seq<Network>, a: Address) returns (r: bool)
    requires a.Valid() && forall i | 0 <= i < |nets| :: nets[i].Valid() && Canonical(nets[i])
    ensures r <==> Trusted(nets, a)
  {
    for i := 0 to |nets|
      invariant forall j | 0 <= j < i :: !InNetwork(nets[j], a)
    {
      var inside := ContainsAddress(nets[i], a);
      if inside { return true; }
    }
    r := false;
  }

  /** The scan from the right for the first untrusted hop. */
  method WalkProxies(nets: seq<Network>, addresses: seq<Address>) returns (hop: Option<nat>)
    requires forall i | 0 <= i < |nets| :: nets[i].Valid() && Canonical(nets[i])
    requires forall i | 0 <= i < |addresses| :: addresses[i].Valid()
    ensures hop.Some? ==> IsClientHop(nets, addresses, hop.value)
    ensures hop.None? ==> forall k: nat :: !IsClientHop(nets, addresses, k)
  {
    var index := |addresses| - 1;
    while index >= 0
      invariant -1 <= index < |addresses|
      invariant forall j | index < j < |addresses| :: Trusted(nets, addresses[j])
    {
      var trusted := IsTrusted(nets, addresses[index]);
      if !trusted { return Some(index); }
      index := index - 1;
    }
    hop := None;
  }

  /** Whether the header text resolves to hop `k` of a well-formed chain. */
  ghost predicate ResolvesTo(p: Platform, source: string, cidrs: seq<string>, k: nat) {
    && WellFormed(p, source)
    && var addresses := Addresses(p, Hops(source));
       if cidrs == [] then |addresses| == 1 && k == 0
       else AllNetworks(p, cidrs) && IsClientHop(Networks(p, cidrs), addresses, k)
  }

  lemma OnlyHop(p: Platform, source: string, cidrs: seq<string>, k: nat)
    requires ResolvesTo(p, source, cidrs, k)
    ensures forall j: nat :: ResolvesTo(p, source, cidrs, j) <==> j == k
  {}

  /** `resolveTrustedClientAddress`: a result is returned exactly when the whole chain is well
      formed and has an untrusted hop, and then it is the rightmost one; without trusted
      networks only a chain of one hop resolves. */
  method ResolveTrustedClientAddress(p: Platform, forwarded: Option<string>, realIp: Option<string>, cidrs: seq<string>)
    returns (r: Option<string>)
    ensures var source := if forwarded.Some? then forwarded else realIp;
            && (r.Some? <==> source.Some? && exists k: nat :: ResolvesTo(p, source.value, cidrs, k))
            && (source.Some? ==> forall k: nat | ResolvesTo(p, source.value, cidrs, k) ::
                  r == Some(NormalText(Addresses(p, Hops(source.value))[k])))
  {
    var source := if forwarded.Some? then forwarded else realIp;
    if source.None? { return None; }
    var hop := ResolveHop(p, source.value, cidrs);
    if hop.None? { return None; }
    OnlyHop(p, source.value, cidrs, hop.value);
    var text := Normalize(Addresses(p, Hops(source.value))[hop.value]);
    r := Some(text);
  }

  method ResolveHop(p: Platform, source: string, cidrs: seq<string>) returns (hop: Option<nat>)
    ensures hop.Some? ==> ResolvesTo(p, source, cidrs, hop.value)
    ensures hop.None? ==> forall k: nat :: !ResolvesTo(p, source, cidrs, k)
  {
    if source == "" || Utf8Length(source) > MAXIMUM_FORWARDING_HEADER_BYTES { return None; }
    var rawAddresses := Hops(source);
    if |rawAddresses| > MAXIMUM_FORWARDING_HOPS || exists i :: 0 <= i < |rawAddresses| && rawAddresses[i] == "" {
      return None;
    }
    if exists i :: 0 <= i < |rawAddresses| && ParseAddress(p, rawAddresses[i]).None? { return None; }
    var addresses := Addresses(p, rawAddresses);
    if cidrs == [] { return if |addresses| == 1 then Some(0) else None; }
    if exists i :: 0 <= i < |cidrs| && ParseNetwork(p, cidrs[i]).None? { return None; }
    var nets := Networks(p, cidrs);
    hop := WalkProxies(nets, addresses);
  }

  /** Whatever a client puts to the left of the resolved hop changes nothing: two well-formed
      chains that agree from that hop rightwards resolve to the same address. */
  lemma ForgedPrefixIgnored(p: Platform, s: string, t: string, cidrs: seq<string>, k: nat, m: nat)
    requires WellFormed(p, s) && WellFormed(p, t) && cidrs != []
    requires ResolvesTo(p, s, cidrs, k)
    requires m <= |Hops(t)| && Hops(s)[k..] == Hops(t)[m..]
    ensures ResolvesTo(p, t, cidrs, m)
    ensures Addresses(p, Hops(t))[m] == Addresses(p, Hops(s))[k]
    ensures forall j: nat :: ResolvesTo(p, t, cidrs, j) <==> j == m
  {
    var a, b := Addresses(p, Hops(s)), Addresses(p, Hops(t));
    assert |Hops(s)[k..]| == |Hops(t)[m..]|;
    forall j | m <= j < |b| ensures b[j] == a[k + j - m] {
      assert Hops(s)[k..][j - m] == Hops(t)[m..][j - m];
    }
  }

  // ----- The rate-limit identity -----

  function HexByte(b: Byte): (s: string)
    ensures |s| == 2
  {
    [DigitChar(b / 16), DigitChar(b % 16)]
  }

  function HexBytes(bytes: seq<Byte>): (s: string)
    ensures |s| == 2 * |bytes|
  {
    if bytes == [] then "" else HexByte(bytes[0]) + HexBytes(bytes[1..])
  }

  ghost function RateLimitIdentity(p: Platform, address: Option<string>): string {
    if address.None? || address.value == "" then "unattributed" else
    var parsed := ParseAddress(p, address.value);
    if parsed.None? then "unattributed"
    else if parsed.value.family.V4? then "ipv4:" + NormalText(parsed.value)
    else "ipv6-64:" + HexBytes(parsed.value.bytes[..8])
  }

  lemma DigitCharInjective(d: nat, e: nat)
    requires d < 16 && e < 16 && DigitChar(d) == DigitChar(e)
    ensures d == e
  {}

  lemma {:induction false} HexBytesInjective(a: seq<Byte>, b: seq<Byte>)
    requires HexBytes(a) == HexBytes(b)
    ensures a == b
  {
    assert |a| == |b|;
    if a != [] {
      var x, y := HexBytes(a), HexBytes(b);
      assert x[0] == DigitChar(a[0] / 16) && y[0] == DigitChar(b[0] / 16);
      assert x[1] == DigitChar(a[0] % 16) && y[1] == DigitChar(b[0] % 16);
      DigitCharInjective(a[0] / 16, b[0] / 16);
      DigitCharInjective(a[0] % 16, b[0] % 16);
      assert x[2..] == HexBytes(a[1..]) && y[2..] == HexBytes(b[1..]);
      HexBytesInjective(a[1..], b[1..]);
    }
  }

  /** Two addresses share a bucket exactly when they are the same IPv4 address or lie in the
      same IPv6 /64. */
  lemma SharedBucket(p: Platform, s: string, t: string)
    requires s != "" && t != "" && ParseAddress(p, s).Some? && ParseAddress(p, t).Some?
    ensures RateLimitIdentity(p, Some(s)) == RateLimitIdentity(p, Some(t)) <==>
            var a, b := ParseAddress(p, s).value, ParseAddress(p, t).value;
            a.family == b.family && (if a.family.V4? then a == b else a.bytes[..8] == b.bytes[..8])
  {
    var a, b := ParseAddress(p, s).value, ParseAddress(p, t).value;
    if a.family.V4? && b.family.V4? {
      NormalTextInjective(a, b);
      AppendInjective("ipv4:", NormalText(a), NormalText(b));
    } else if a.family.V6? && b.family.V6? {
      AppendInjective("ipv6-64:", HexBytes(a.bytes[..8]), HexBytes(b.bytes[..8]));
      if HexBytes(a.bytes[..8]) == HexBytes(b.bytes[..8]) { HexBytesInjective(a.bytes[..8], b.bytes[..8]); }
    } else if a.family.V4? {
      FamiliesApart(NormalText(a), HexBytes(b.bytes[..8]));
    } else {
      FamiliesApart(NormalText(b), HexBytes(a.bytes[..8]));
    }
  }

  lemma AppendInjective(head: string, x: string, y: string)
    ensures head + x == head + y <==> x == y
  {
    assert (head + x)[|head|..] == x && (head + y)[|head|..] == y;
  }

  lemma FamiliesApart(x: string, y: string)
    ensures "ipv4:" + x != "ipv6-64:" + y
  {
    assert ("ipv4:" + x)[3] == '4' && ("ipv6-64:" + y)[3] == '6';
  }
}
