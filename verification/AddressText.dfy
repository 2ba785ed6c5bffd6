/** What address and header texts mean, character by character: the reading of an address without
    naming the parser, and the reading of a forwarding header from its own pieces. */
module AddressText {
  import opened Options
  import opened Text
  import opened Ipv6
  import opened Cidr
  import opened ClientAddress

  // ----- Characters -----

  /** The digits, in order. */
  lemma DigitsAre(c: char, d: nat)
    ensures DigitValue(c) == Some(d) <==> d < 16 && "0123456789abcdef"[d] == c
  {
    if d < 16 {
      assert "0123456789abcdef"[..10] == "0123456789";
      DigitTable(d);
    }
  }

  lemma DigitTable(d: nat)
    requires d < 16
    ensures DigitChar(d) == "0123456789abcdef"[d] && DigitValue(DigitChar(d)) == Some(d)
  {
    var t := "0123456789abcdef";
    assert t[0] == '0' && t[1] == '1' && t[2] == '2' && t[3] == '3' && t[4] == '4' && t[5] == '5' && t[6] == '6' && t[7] == '7';
    assert t[8] == '8' && t[9] == '9' && t[10] == 'a' && t[11] == 'b' && t[12] == 'c' && t[13] == 'd' && t[14] == 'e' && t[15] == 'f';
  }

  /** Lower-casing replaces the letters A to Z, each by its own small letter, and nothing else. */
  lemma LowerIs(s: string, i: nat)
    requires i < |s|
    ensures |Lower(s)| == |s|
    ensures 'A' <= s[i] <= 'Z' ==> 'a' <= Lower(s)[i] <= 'z' && Lower(s)[i] as int - 'a' as int == s[i] as int - 'A' as int
    ensures !('A' <= s[i] <= 'Z') ==> Lower(s)[i] == s[i]
  {}

  /** The white space of JavaScript, character by character. */
  lemma SpacesAre(c: char)
    ensures IsSpace(c) <==>
            c in "\U{0009}\U{000A}\U{000B}\U{000C}\U{000D} \U{00A0}\U{1680}\U{2000}\U{2001}\U{2002}\U{2003}\U{2004}\U{2005}\U{2006}\U{2007}\U{2008}\U{2009}\U{200A}\U{2028}\U{2029}\U{202F}\U{205F}\U{3000}\U{FEFF}"
  {}

  predicate AllSpaces(s: string) { forall i | 0 <= i < |s| :: IsSpace(s[i]) }

  lemma {:induction false} TrimLeftOf(pre: string, t: string)
    requires AllSpaces(pre) && (t == "" || !IsSpace(t[0]))
    ensures TrimLeft(pre + t) == t
  {
    if pre == "" {
      assert pre + t == t;
    } else {
      assert (pre + t)[1..] == pre[1..] + t;
      TrimLeftOf(pre[1..], t);
    }
  }

  lemma {:induction false} TrimRightOf(t: string, post: string)
    requires AllSpaces(post) && (t == "" || !IsSpace(t[|t| - 1]))
    ensures TrimRight(t + post) == t
  {
    if post == "" {
      assert t + post == t;
    } else {
      var s := t + post;
      assert s[..|s| - 1] == t + post[..|post| - 1];
      TrimRightOf(t, post[..|post| - 1]);
    }
  }

  /** Whatever stands between white space at both ends, and is itself trimmed, is what `trim` gives. */
  lemma TrimOf(pre: string, t: string, post: string)
    requires AllSpaces(pre) && AllSpaces(post) && Trimmed(t)
    ensures Trim(pre + t + post) == t
  {
    if t == "" {
      assert pre + t + post == pre + post;
      TrimOfSpaces(pre + post);
    } else {
      assert pre + t + post == pre + (t + post);
      TrimLeftOf(pre, t + post);
      TrimRightOf(t, post);
    }
  }

  // ----- Dotted quads -----

  /** The text of four bytes. */
  function Dotted(a: Byte, b: Byte, c: Byte, d: Byte): string {
    Numeral(a, 10) + "." + Numeral(b, 10) + "." + Numeral(c, 10) + "." + Numeral(d, 10)
  }

  lemma JoinOfFour(a: string, b: string, c: string, d: string, sep: string)
    ensures Join([a, b, c, d], sep) == a + sep + b + sep + c + sep + d
  {
    assert [a, b, c, d][1..] == [b, c, d] && [b, c, d][1..] == [c, d] && [c, d][1..] == [d];
    assert Join([c, d], sep) == c + sep + d;
    assert Join([b, c, d], sep) == b + sep + (c + sep + d);
    assert a + sep + (b + sep + (c + sep + d)) == a + sep + b + sep + c + sep + d;
  }

  lemma QuadTextIsDotted(a: Byte, b: Byte, c: Byte, d: Byte)
    ensures QuadText([a, b, c, d]) == Dotted(a, b, c, d)
  {
    var q := [a, b, c, d];
    var parts := seq(4, i requires 0 <= i < 4 => Numeral(q[i], 10));
    assert parts == [Numeral(a, 10), Numeral(b, 10), Numeral(c, 10), Numeral(d, 10)];
    JoinOfFour(parts[0], parts[1], parts[2], parts[3], ".");
  }

  /** A text is read as a dotted quad exactly when it is the text of those bytes. */
  lemma QuadIffDotted(s: string, a: Byte, b: Byte, c: Byte, d: Byte)
    ensures IsDottedQuad(s) && QuadBytes(s) == [a, b, c, d] <==> s == Dotted(a, b, c, d)
  {
    QuadTextIsDotted(a, b, c, d);
    QuadRoundTrip([a, b, c, d]);
    if IsDottedQuad(s) && QuadBytes(s) == [a, b, c, d] {
      var parts := Split(s, '.');
      forall i | 0 <= i < 4 ensures parts[i] == Numeral(QuadBytes(s)[i], 10) { assert IsByteNumeral(parts[i]); }
      assert parts == [Numeral(a, 10), Numeral(b, 10), Numeral(c, 10), Numeral(d, 10)];
      JoinOfSplit(s, '.');
      JoinOfFour(parts[0], parts[1], parts[2], parts[3], ".");
    }
  }

  /** The first byte of a word is its high one. */
  lemma WordsAreBigEndian(bytes: seq<Byte>, i: nat)
    requires |bytes| == 16 && i < 8
    ensures WordsOf(bytes)[i] as int == 256 * (bytes[2 * i] as int) + bytes[2 * i + 1] as int
  {}

  // ----- One address -----

  /** A dotted quad alone is no IPv6 text: it has two words, not eight. */
  lemma QuadSpellsNothing(s: string, bytes: seq<Byte>)
    requires IsDottedQuad(s) && |bytes| == 16
    ensures !Spells(s, bytes)
  {
    ParseIffSpells(s, bytes);
    QuadHasNoColon(s);
    SplitOne(s, ':');
    NoColonNoGap(s);
    DottedQuadHasDot(s);
    assert ParseParts([s]) == Prepend([MakeWord(QuadBytes(s)[0], QuadBytes(s)[1]), MakeWord(QuadBytes(s)[2], QuadBytes(s)[3])], ParseParts([s][1..]));
  }

  lemma {:induction false} NoColonNoGap(s: string)
    requires ':' !in s
    ensures SplitDouble(s) == [s]
  {
    if |s| >= 2 {
      NoColonNoGap(s[1..]);
      assert [s[0]] + s[1..] == s;
    }
  }

  lemma QuadHasNoColon(s: string)
    requires IsDottedQuad(s)
    ensures ':' !in s
  {
    var parts := Split(s, '.');
    JoinOfSplit(s, '.');
    forall part <- parts ensures ':' !in part { NumeralHasOnlyDigits(part, 10, ':'); }
    if ':' in s { JoinCharacters(parts, ".", ':'); }
  }

  /** `::ffff:a.b.c.d` as sixteen bytes. */
  function MappedBytes(a: Byte, b: Byte, c: Byte, d: Byte): (bytes: seq<Byte>)
    ensures |bytes| == 16
  {
    [0, 0, 0, 0, 0, 0, 0, 0, 0, 0, 0xff, 0xff, a, b, c, d]
  }

  lemma MappedAre(bytes: seq<Byte>, a: Byte, b: Byte, c: Byte, d: Byte)
    requires |bytes| == 16
    ensures Mapped(bytes) && bytes[12..] == [a, b, c, d] <==> bytes == MappedBytes(a, b, c, d)
  {
    var tail := bytes[12..];
    assert tail == [bytes[12], bytes[13], bytes[14], bytes[15]];
    if Mapped(bytes) && tail == [a, b, c, d] {
      assert tail[0] == a && tail[1] == b && tail[2] == c && tail[3] == d;
      forall i | 0 <= i < 16 ensures bytes[i] == MappedBytes(a, b, c, d)[i] {}
    }
  }

  /** A text is read as an IPv4 address exactly when, trimmed and in small letters, it is the dotted
      quad of its bytes, or an IPv6 text that spells the IPv4-mapped address. */
  lemma ReadAsV4Iff(p: Platform, value: string, a: Byte, b: Byte, c: Byte, d: Byte)
    ensures ParseAddress(p, value) == Some(Address(V4, [a, b, c, d])) <==>
            var t := Lower(Trim(value));
            t == Dotted(a, b, c, d) || (p.isIPv6(t) && Spells(t, MappedBytes(a, b, c, d)))
  {
    var t := Lower(Trim(value));
    QuadIffDotted(t, a, b, c, d);
    ParseIffSpells(t, MappedBytes(a, b, c, d));
    if IsDottedQuad(t) {
      QuadSpellsNothing(t, MappedBytes(a, b, c, d));
    } else if ParseIPv6(t).Some? {
      MappedAre(ParseIPv6(t).value, a, b, c, d);
    }
    MappedAre(MappedBytes(a, b, c, d), a, b, c, d);
  }

  /** And as an IPv6 address exactly when it is an IPv6 text that spells those bytes, and they are
      not IPv4-mapped. */
  lemma ReadAsV6Iff(p: Platform, value: string, bytes: seq<Byte>)
    ensures ParseAddress(p, value) == Some(Address(V6, bytes)) <==>
            var t := Lower(Trim(value));
            |bytes| == 16 && p.isIPv6(t) && Spells(t, bytes) && !Mapped(bytes)
  {
    var t := Lower(Trim(value));
    if |bytes| == 16 {
      ParseIffSpells(t, bytes);
      if IsDottedQuad(t) { QuadSpellsNothing(t, bytes); }
    }
  }

  // ----- The header -----

  /** The pieces of a header are read one by one, trimmed, in their own order. */
  lemma HopsOfPieces(pieces: seq<string>)
    requires pieces != [] && forall i | 0 <= i < |pieces| :: ',' !in pieces[i]
    ensures |Hops(Join(pieces, ","))| == |pieces|
    ensures forall i | 0 <= i < |pieces| :: Hops(Join(pieces, ","))[i] == Trim(pieces[i])
  {
    SplitOfJoin(pieces, ',');
  }

  /** The address of piece `i`, if it is one. */
  function HopAddress(p: Platform, pieces: seq<string>, i: nat): (a: Option<Address>)
    requires i < |pieces|
    ensures a.Some? ==> a.value.Valid()
  {
    ParseAddress(p, Trim(pieces[i]))
  }

  /** Some configured network holds the address. */
  predicate TrustedBy(p: Platform, cidrs: seq<string>, a: Address)
    requires a.Valid() && AllNetworks(p, cidrs)
  {
    exists i | 0 <= i < |cidrs| :: NetworkHolds(p, cidrs[i], a)
  }

  predicate NetworkHolds(p: Platform, cidr: string, a: Address)
    requires a.Valid()
  {
    var net := ParseNetwork(p, cidr);
    net.Some? && net.value.Valid() && InNetwork(net.value, a)
  }

  lemma TrustedMeans(p: Platform, cidrs: seq<string>, a: Address)
    requires a.Valid() && AllNetworks(p, cidrs)
    ensures Trusted(Networks(p, cidrs), a) <==> TrustedBy(p, cidrs, a)
  {
    var nets := Networks(p, cidrs);
    assert forall i | 0 <= i < |cidrs| :: nets[i] == ParseNetwork(p, cidrs[i]).value && nets[i].Valid();
    if TrustedBy(p, cidrs, a) {
      var i :| 0 <= i < |cidrs| && NetworkHolds(p, cidrs[i], a);
      assert InNetwork(nets[i], a);
    }
    if Trusted(nets, a) {
      var i :| 0 <= i < |nets| && InNetwork(nets[i], a);
      assert NetworkHolds(p, cidrs[i], a);
    }
  }

  /** Every piece is an address, and header and chain are within their bounds. */
  predicate Readable(p: Platform, pieces: seq<string>) {
    && Join(pieces, ",") != "" && Utf8Length(Join(pieces, ",")) <= 1_024 && |pieces| <= 16
    && forall i | 0 <= i < |pieces| :: Trim(pieces[i]) != "" && HopAddress(p, pieces, i).Some?
  }

  lemma ReadableMeans(p: Platform, pieces: seq<string>)
    requires pieces != [] && forall i | 0 <= i < |pieces| :: ',' !in pieces[i]
    ensures WellFormed(p, Join(pieces, ",")) <==> Readable(p, pieces)
    ensures WellFormed(p, Join(pieces, ",")) ==>
              var addresses := Addresses(p, Hops(Join(pieces, ",")));
              |addresses| == |pieces| && forall i | 0 <= i < |pieces| :: addresses[i] == HopAddress(p, pieces, i).value
  {
    HopsOfPieces(pieces);
  }

  /** Piece `k` is the client: it is the last piece that no configured network holds; without
      networks, the only piece. */
  ghost predicate IsClientPiece(p: Platform, pieces: seq<string>, cidrs: seq<string>, k: nat)
    requires Readable(p, pieces)
  {
    && k < |pieces|
    && if cidrs == [] then |pieces| == 1
       else
         && AllNetworks(p, cidrs)
         && !TrustedBy(p, cidrs, HopAddress(p, pieces, k).value)
         && forall j | k < j < |pieces| :: TrustedBy(p, cidrs, HopAddress(p, pieces, j).value)
  }

  /** A header resolves to a hop exactly when its pieces, in the order they are written, make that
      piece the client; and the address is the one written there. */
  lemma ResolvesToMeans(p: Platform, pieces: seq<string>, cidrs: seq<string>, k: nat)
    requires pieces != [] && forall i | 0 <= i < |pieces| :: ',' !in pieces[i]
    ensures ResolvesTo(p, Join(pieces, ","), cidrs, k) <==> Readable(p, pieces) && IsClientPiece(p, pieces, cidrs, k)
    ensures ResolvesTo(p, Join(pieces, ","), cidrs, k) ==>
              Addresses(p, Hops(Join(pieces, ",")))[k] == HopAddress(p, pieces, k).value
  {
    ReadableMeans(p, pieces);
    if Readable(p, pieces) && AllNetworks(p, cidrs) {
      forall i | 0 <= i < |pieces|
        ensures Trusted(Networks(p, cidrs), HopAddress(p, pieces, i).value) <==> TrustedBy(p, cidrs, HopAddress(p, pieces, i).value)
      {
        TrustedMeans(p, cidrs, HopAddress(p, pieces, i).value);
      }
    }
  }

  // ----- Lengths and identities -----

  lemma {:induction false} Utf8LengthAdds(s: string, t: string)
    ensures Utf8Length(s + t) == Utf8Length(s) + Utf8Length(t)
  {
    if s == "" {
      assert s + t == t;
    } else {
      assert (s + t)[1..] == s[1..] + t;
      Utf8LengthAdds(s[1..], t);
    }
  }

  /** One byte up to U+007F, two up to U+07FF, three up to U+FFFF, four beyond. */
  lemma Utf8LengthOfOne(c: char)
    ensures Utf8Length([c]) == if c <= '\U{007F}' then 1 else if c <= '\U{07FF}' then 2 else if c <= '\U{FFFF}' then 3 else 4
  {}

  /** The identity of an IPv4 client is its dotted quad, and of a text that is no address, none. */
  lemma IdentityOfV4(p: Platform, s: string, a: Byte, b: Byte, c: Byte, d: Byte)
    requires ParseAddress(p, s) == Some(Address(V4, [a, b, c, d])) && s != ""
    ensures RateLimitIdentity(p, Some(s)) == "ipv4:" + Dotted(a, b, c, d)
  {
    QuadTextIsDotted(a, b, c, d);
  }

  lemma IdentityOfNobody(p: Platform, address: Option<string>)
    requires address.None? || address.value == "" || ParseAddress(p, address.value).None?
    ensures RateLimitIdentity(p, address) == "unattributed"
  {}

  lemma {:induction false} HexBytesAt(bytes: seq<Byte>, i: nat)
    requires i < |bytes|
    ensures HexBytes(bytes)[2 * i] == "0123456789abcdef"[bytes[i] / 16] && HexBytes(bytes)[2 * i + 1] == "0123456789abcdef"[bytes[i] % 16]
  {
    DigitTable(bytes[i] / 16);
    DigitTable(bytes[i] % 16);
    if i > 0 {
      HexBytesAt(bytes[1..], i - 1);
      var rest := HexBytes(bytes[1..]);
      assert HexBytes(bytes)[2 * i] == rest[2 * (i - 1)] && HexBytes(bytes)[2 * i + 1] == rest[2 * (i - 1) + 1];
    }
  }

  /** The identity of an IPv6 client is its /64, in hexadecimal. */
  lemma IdentityOfV6(p: Platform, s: string, bytes: seq<Byte>, i: nat)
    requires ParseAddress(p, s) == Some(Address(V6, bytes)) && s != "" && |bytes| == 16 && i < 8
    ensures var t := RateLimitIdentity(p, Some(s));
            && |t| == 24 && t[..8] == "ipv6-64:"
            && t[8 + 2 * i] == "0123456789abcdef"[bytes[i] / 16] && t[9 + 2 * i] == "0123456789abcdef"[bytes[i] % 16]
  {
    HexBytesAt(bytes[..8], i);
  }
}
