/** The IPv6 parser and printer of src/lib/client-address.ts, measured against two
    independent definitions: the textual forms of section 2.2 of RFC 4291 (`Spells`)
    and the canonical form of section 4.2 of RFC 5952 (`CanonicalText`). */
module Ipv6 {
  import opened Options
  import opened Text

  type Byte = n: nat | n < 256
  type Word = n: nat | n < 0x10000

  // ----- Bytes and words -----

  /** `(hi << 8) | lo` on bytes. */
  function MakeWord(hi: Byte, lo: Byte): Word { 256 * (hi as int) + lo as int }

  /** Eight big-endian words. */
  function WordsOf(bytes: seq<Byte>): (ws: seq<Word>)
    requires |bytes| == 16
    ensures |ws| == 8
  {
    seq(8, i requires 0 <= i < 8 => MakeWord(bytes[2 * i], bytes[2 * i + 1]))
  }

  /** `word >> 8` and `word & 0xff` of each word. */
  function BytesOf(ws: seq<Word>): (bytes: seq<Byte>)
    requires |ws| == 8
    ensures |bytes| == 16
  {
    seq(16, i requires 0 <= i < 16 => if i % 2 == 0 then ws[i / 2] / 256 else ws[i / 2] % 256)
  }

  lemma BytesWordsInverse(bytes: seq<Byte>)
    requires |bytes| == 16
    ensures BytesOf(WordsOf(bytes)) == bytes
  {}

  lemma WordsBytesInverse(ws: seq<Word>)
    requires |ws| == 8
    ensures WordsOf(BytesOf(ws)) == ws
  {
    var bytes := BytesOf(ws);
    forall i | 0 <= i < 8 ensures WordsOf(bytes)[i] == ws[i] {
      assert (2 * i) / 2 == i && (2 * i + 1) / 2 == i;
      assert bytes[2 * i] == ws[i] / 256 && bytes[2 * i + 1] == ws[i] % 256;
    }
  }

  // ----- Dotted quads -----

  /** The decimal spellings of a byte: no sign, no leading zero. */
  predicate IsByteNumeral(s: string) {
    IsNumeral(s, 10) && NumeralValue(s, 10) < 256 && Numeral(NumeralValue(s, 10), 10) == s
  }

  function ByteValue(s: string): Byte
    requires IsByteNumeral(s)
  {
    NumeralValue(s, 10)
  }

  predicate IsDottedQuad(s: string) {
    var parts := Split(s, '.');
    |parts| == 4 && forall i | 0 <= i < 4 :: IsByteNumeral(parts[i])
  }

  function QuadBytes(s: string): (bytes: seq<Byte>)
    requires IsDottedQuad(s)
    ensures |bytes| == 4
  {
    var parts := Split(s, '.');
    seq(4, i requires 0 <= i < 4 => ByteValue(parts[i]))
  }

  function QuadText(bytes: seq<Byte>): string
    requires |bytes| == 4
  {
    Join(seq(4, i requires 0 <= i < 4 => Numeral(bytes[i], 10)), ".")
  }

  /** Printing four bytes and reading them back is the identity. */
  lemma QuadRoundTrip(bytes: seq<Byte>)
    requires |bytes| == 4
    ensures IsDottedQuad(QuadText(bytes)) && QuadBytes(QuadText(bytes)) == bytes
  {
    var parts := seq(4, i requires 0 <= i < 4 => Numeral(bytes[i], 10));
    forall i | 0 <= i < 4 ensures '.' !in parts[i] && IsByteNumeral(parts[i]) && NumeralValue(parts[i], 10) == bytes[i] {
      NumeralRoundTrip(bytes[i], 10);
      NumeralHasOnlyDigits(parts[i], 10, '.');
    }
    SplitOfJoin(parts, '.');
  }

  lemma NumeralHasOnlyDigits(s: string, b: Radix, c: char)
    requires IsNumeral(s, b) && DigitValue(c).None?
    ensures c !in s
  {}

  // ----- The parser -----

  predicate IsHexWord(part: string) {
    |part| <= 4 && IsNumeral(part, 16)
  }

  function HexWord(part: string): Word
    requires IsHexWord(part)
  {
    HexValueBound(part);
    NumeralValue(part, 16)
  }

  lemma HexValueBound(s: string)
    requires IsHexWord(s)
    ensures NumeralValue(s, 16) < 0x10000
  {
    HexPrefixBound(s, 1, 16);
    if |s| > 1 { HexPrefixBound(s, 2, 256); }
    if |s| > 2 { HexPrefixBound(s, 3, 4096); }
    if |s| > 3 { HexPrefixBound(s, 4, 65536); }
    assert s[..|s|] == s;
  }

  /** The first `k` digits are below `bound` if the first `k - 1` are below a sixteenth of it. */
  lemma HexPrefixBound(s: string, k: nat, bound: nat)
    requires IsNumeral(s, 16) && 1 <= k <= |s| && bound % 16 == 0
    requires if k == 1 then bound == 16 else NumeralValue(Prefix(s, k - 1), 16) < bound / 16
    ensures NumeralValue(Prefix(s, k), 16) < bound
  {
    var t := Prefix(s, k);
    if k > 1 { assert t[..k - 1] == Prefix(s, k - 1); }
  }

  /** The first `k` digits of a numeral are a numeral. */
  function Prefix(s: string, k: nat): (t: string)
    requires IsNumeral(s, 16) && 1 <= k <= |s|
    ensures IsNumeral(t, 16) && |t| == k
  {
    s[..k]
  }

  function ParsePart(part: string, last: bool): Option<seq<Word>> {
    if '.' in part then
      if last && IsDottedQuad(part) then
        var q := QuadBytes(part);
        Some([MakeWord(q[0], q[1]), MakeWord(q[2], q[3])])
      else None
    else if IsHexWord(part) then Some([HexWord(part)])
    else None
  }

  function ParseParts(parts: seq<string>): Option<seq<Word>> {
    if parts == [] then Some([])
    else
      var first := ParsePart(parts[0], |parts| == 1);
      if first.Some? then Prepend(first.value, ParseParts(parts[1..])) else None
  }

  function Prepend(ws: seq<Word>, rest: Option<seq<Word>>): Option<seq<Word>> {
    if rest.Some? then Some(ws + rest.value) else None
  }

  lemma PrependTwice(a: seq<Word>, b: seq<Word>, rest: Option<seq<Word>>)
    ensures Prepend([], rest) == rest
    ensures Prepend(a + b, rest) == Prepend(a, Prepend(b, rest))
  {
    if rest.Some? {
      assert [] + rest.value == rest.value;
      assert a + b + rest.value == a + (b + rest.value);
    }
  }

  function ParseSide(s: string): Option<seq<Word>> {
    if s == "" then Some([]) else ParseParts(Split(s, ':'))
  }

  /** JavaScript's `s.split("::")`: separators are taken left to right without overlap. */
  function SplitDouble(s: string): (parts: seq<string>)
    ensures |parts| >= 1
  {
    if |s| < 2 then [s]
    else if s[0] == ':' && s[1] == ':' then [""] + SplitDouble(s[2..])
    else
      var rest := SplitDouble(s[1..]);
      [[s[0]] + rest[0]] + rest[1..]
  }

  function Zeros(n: nat): seq<Word> { seq(n, _ => 0) }

  function ParseIPv6(s: string): (r: Option<seq<Byte>>)
    ensures r.Some? ==> |r.value| == 16
  {
    var pieces := SplitDouble(s);
    if |pieces| > 2 then None else
    var left, right := ParseSide(pieces[0]), ParseSide(if |pieces| == 2 then pieces[1] else "");
    if left.None? || right.None? then None else
    var missing := 8 - |left.value| - |right.value|;
    if (|pieces| == 1 && missing != 0) || (|pieces| == 2 && missing < 1) then None
    else Some(BytesOf(left.value + Zeros(missing) + right.value))
  }

  // ----- The parser's loops -----

  method ParseIPv6Side(value: string) returns (r: Option<seq<Word>>)
    ensures r == ParseSide(value)
  {
    if value == "" { return Some([]); }
    var parts := Split(value, ':');
    var words: seq<Word> := [];
    assert parts[0..] == parts;
    PrependTwice([], [], ParseParts(parts));
    for index := 0 to |parts|
      invariant ParseParts(parts) == Prepend(words, ParseParts(parts[index..]))
    {
      var part := parts[index];
      assert parts[index..][0] == part && parts[index..][1..] == parts[index + 1..];
      var found: seq<Word>;
      if '.' in part {
        if index != |parts| - 1 || !IsDottedQuad(part) { return None; }
        var bytes := QuadBytes(part);
        found := [MakeWord(bytes[0], bytes[1]), MakeWord(bytes[2], bytes[3])];
      } else {
        if !IsHexWord(part) { return None; }
        found := [HexWord(part)];
      }
      PrependTwice(words, found, ParseParts(parts[index + 1..]));
      words := words + found;
    }
    assert parts[|parts|..] == [] && words + [] == words;
    r := Some(words);
  }

  method ParseIPv6Bytes(value: string) returns (r: Option<seq<Byte>>)
    ensures r == ParseIPv6(value)
  {
    var pieces := SplitDouble(value);
    if |pieces| > 2 { return None; }
    var left := ParseIPv6Side(pieces[0]);
    var right := ParseIPv6Side(if |pieces| == 2 then pieces[1] else "");
    if left.None? || right.None? { return None; }
    var missing := 8 - |left.value| - |right.value|;
    if (|pieces| == 1 && missing != 0) || (|pieces| == 2 && missing < 1) { return None; }
    var words := left.value + Zeros(missing) + right.value;
    var bytes := SpreadWords(words);
    r := Some(bytes);
  }

  /** Two bytes of the buffer per word. */
  method SpreadWords(words: seq<Word>) returns (r: seq<Byte>)
    requires |words| == 8
    ensures r == BytesOf(words)
  {
    var bytes := new Byte[16](_ => 0);
    ghost var want := BytesOf(words);
    for index := 0 to 8
      invariant forall k | 0 <= k < 2 * index :: bytes[k] == want[k]
    {
      assert (index * 2) / 2 == index && (index * 2 + 1) / 2 == index;
      bytes[index * 2] := words[index] / 256;
      bytes[index * 2 + 1] := words[index] % 256;
    }
    assert bytes[..] == want;
    r := bytes[..];
  }

  // ----- The textual forms of RFC 4291, section 2.2 -----

  /** `parts` spell `ws`: one word per group of one to four hexadecimal digits, and
      two words for a dotted quad, which only the last group may be. */
  predicate PartsSpell(parts: seq<string>, ws: seq<Word>) {
    if parts == [] then ws == []
    else if |parts| == 1 && IsDottedQuad(parts[0]) then
      var q := QuadBytes(parts[0]);
      ws == [MakeWord(q[0], q[1]), MakeWord(q[2], q[3])]
    else
      && IsHexWord(parts[0]) && |ws| >= 1 && ws[0] == HexWord(parts[0])
      && PartsSpell(parts[1..], ws[1..])
  }

  /** A colon-separated list of groups, possibly empty. */
  ghost predicate SideSpells(s: string, ws: seq<Word>) {
    exists parts: seq<string> :: s == Join(parts, ":") && PartsSpell(parts, ws)
  }

  /** `s` is a full form of `bytes`, or a form with one `::` for one or more zero words. */
  ghost predicate Spells(s: string, bytes: seq<Byte>)
    requires |bytes| == 16
  {
    SideSpells(s, WordsOf(bytes)) || exists l, r, lw, rw :: SpellsWithGap(s, bytes, l, r, lw, rw)
  }

  ghost predicate SpellsWithGap(s: string, bytes: seq<Byte>, l: string, r: string, lw: seq<Word>, rw: seq<Word>)
    requires |bytes| == 16
  {
    && s == l + "::" + r && SideSpells(l, lw) && SideSpells(r, rw)
    && |lw| + |rw| <= 7
    && WordsOf(bytes) == lw + Zeros(8 - |lw| - |rw|) + rw
  }

  // ----- Splitting on a double colon -----

  /** No two adjacent colons, and no colon at either end. */
  predicate Clean(s: string) {
    && (forall i | 0 <= i < |s| - 1 :: !(s[i] == ':' && s[i + 1] == ':'))
    && (s != "" ==> s[0] != ':' && s[|s| - 1] != ':')
  }

  /** A group of a colon-separated list. */
  predicate IsGroup(p: string) { p != "" && ':' !in p }

  predicate AllGroups(parts: seq<string>) {
    forall i | 0 <= i < |parts| :: IsGroup(parts[i])
  }

  lemma {:induction false} CleanJoin(parts: seq<string>)
    requires AllGroups(parts)
    ensures Clean(Join(parts, ":"))
    ensures parts != [] ==> Join(parts, ":") != ""
  {
    if |parts| >= 1 {
      var p := parts[0];
      assert IsGroup(p);
      assert forall i | 0 <= i < |p| :: p[i] in p;
      if |parts| > 1 {
        CleanJoin(parts[1..]);
        var rest := Join(parts[1..], ":");
        var s := Join(parts, ":");
        assert s == p + ":" + rest;
        forall i | 0 <= i < |s| - 1 ensures !(s[i] == ':' && s[i + 1] == ':') {
          if i < |p| {
            assert s[i] == p[i];
          } else {
            assert s[i + 1] == rest[i - |p|];
            assert i > |p| ==> s[i] == rest[i - |p| - 1];
          }
        }
      }
    }
  }

  lemma {:induction false} SplitDoubleOne(s: string)
    requires forall i | 0 <= i < |s| - 1 :: !(s[i] == ':' && s[i + 1] == ':')
    ensures SplitDouble(s) == [s]
  {
    if |s| >= 2 {
      SplitDoubleOne(s[1..]);
      assert !(s[0] == ':' && s[0 + 1] == ':');
      assert [s[0]] + s[1..] == s;
    }
  }

  lemma {:induction false} SplitDoubleTwo(l: string, r: string)
    requires Clean(l) && Clean(r)
    ensures SplitDouble(l + "::" + r) == [l, r]
  {
    SplitDoubleTwoFrom(l, r);
  }

  lemma {:induction false} SplitDoubleTwoFrom(l: string, r: string)
    requires forall i | 0 <= i < |l| - 1 :: !(l[i] == ':' && l[i + 1] == ':')
    requires l != "" ==> l[|l| - 1] != ':'
    requires Clean(r)
    ensures SplitDouble(l + "::" + r) == [l, r]
    decreases |l|
  {
    var s := l + "::" + r;
    if l == "" {
      assert s[2..] == r;
      SplitDoubleOne(r);
    } else {
      assert s[1..] == l[1..] + "::" + r;
      if |l| > 1 {
        assert !(l[0] == ':' && l[0 + 1] == ':');
      }
      SplitDoubleTwoFrom(l[1..], r);
      assert [l[0]] + l[1..] == l;
    }
  }

  /** Joining undoes splitting on `::`, for every string. */
  lemma {:induction false} JoinOfSplitDouble(s: string)
    ensures Join(SplitDouble(s), "::") == s
    decreases |s|
  {
    if |s| >= 2 {
      if s[0] == ':' && s[1] == ':' {
        JoinOfSplitDouble(s[2..]);
        assert SplitDouble(s)[1..] == SplitDouble(s[2..]);
        assert s == "::" + s[2..];
      } else {
        JoinOfSplitDouble(s[1..]);
        assert SplitDouble(s)[1..] == SplitDouble(s[1..])[1..];
        assert s == [s[0]] + s[1..];
      }
    }
  }

  lemma SplitDoublePieces(s: string)
    ensures |SplitDouble(s)| == 1 ==> s == SplitDouble(s)[0]
    ensures |SplitDouble(s)| == 2 ==> s == SplitDouble(s)[0] + "::" + SplitDouble(s)[1]
  {
    JoinOfSplitDouble(s);
  }

  // ----- The parser accepts exactly the textual forms -----

  lemma {:induction false} ParsePartsIffSpell(parts: seq<string>, ws: seq<Word>)
    ensures ParseParts(parts) == Some(ws) <==> PartsSpell(parts, ws)
  {
    if parts != [] {
      var p, rest := parts[0], ParseParts(parts[1..]);
      if IsDottedQuad(p) {
        DottedQuadHasDot(p);
        var q := QuadBytes(p);
        var two: seq<Word> := [MakeWord(q[0], q[1]), MakeWord(q[2], q[3])];
        assert two + [] == two && (|parts| == 1 ==> parts[1..] == []);
      }
      if IsHexWord(p) {
        NumeralHasOnlyDigits(p, 16, '.');
        if ws != [] {
          ParsePartsIffSpell(parts[1..], ws[1..]);
          assert [ws[0]] + ws[1..] == ws;
        }
        if rest.Some? {
          assert ([HexWord(p)] + rest.value)[1..] == rest.value;
        }
      }
    }
  }

  lemma DottedQuadHasDot(s: string)
    requires IsDottedQuad(s)
    ensures '.' in s
  {
    if '.' !in s { SplitOne(s, '.'); }
  }

  lemma {:induction false} SpellingPartsAreClean(parts: seq<string>, ws: seq<Word>)
    requires PartsSpell(parts, ws)
    ensures AllGroups(parts)
  {
    if parts != [] {
      var p := parts[0];
      if |parts| == 1 && IsDottedQuad(p) {
        DottedQuadHasDot(p);
        JoinOfSplit(p, '.');
        var quads := Split(p, '.');
        forall i | 0 <= i < |quads| ensures ':' !in quads[i] { NumeralHasOnlyDigits(quads[i], 10, ':'); }
        if ':' in p { JoinCharacters(quads, ".", ':'); }
      } else {
        NumeralHasOnlyDigits(p, 16, ':');
        SpellingPartsAreClean(parts[1..], ws[1..]);
        assert forall i | 1 <= i < |parts| :: parts[i] == parts[1..][i - 1];
      }
    }
  }

  lemma SideIsClean(s: string, ws: seq<Word>)
    requires SideSpells(s, ws)
    ensures Clean(s)
  {
    var parts :| s == Join(parts, ":") && PartsSpell(parts, ws);
    SpellingPartsAreClean(parts, ws);
    CleanJoin(parts);
  }

  lemma ParseSideIffSpells(s: string, ws: seq<Word>)
    ensures ParseSide(s) == Some(ws) <==> SideSpells(s, ws)
  {
    if ParseSide(s) == Some(ws) {
      if s == "" {
        assert PartsSpell([], ws) && s == Join([], ":");
      } else {
        ParsePartsIffSpell(Split(s, ':'), ws);
        JoinOfSplit(s, ':');
      }
    }
    if SideSpells(s, ws) {
      var parts :| s == Join(parts, ":") && PartsSpell(parts, ws);
      SpellingPartsAreClean(parts, ws);
      CleanJoin(parts);
      if parts != [] {
        SplitOfJoin(parts, ':');
        ParsePartsIffSpell(parts, ws);
      }
    }
  }

  lemma FullFormParses(s: string, bytes: seq<Byte>)
    requires |bytes| == 16 && SideSpells(s, WordsOf(bytes))
    ensures ParseIPv6(s) == Some(bytes)
  {
    var ws := WordsOf(bytes);
    SideIsClean(s, ws);
    SplitDoubleOne(s);
    ParseSideIffSpells(s, ws);
    assert ws + Zeros(0) + [] == ws;
    BytesWordsInverse(bytes);
  }

  lemma GapFormParses(s: string, bytes: seq<Byte>, l: string, r: string, lw: seq<Word>, rw: seq<Word>)
    requires |bytes| == 16 && SpellsWithGap(s, bytes, l, r, lw, rw)
    ensures ParseIPv6(s) == Some(bytes)
  {
    SideIsClean(l, lw);
    SideIsClean(r, rw);
    SplitDoubleTwo(l, r);
    ParseSideIffSpells(l, lw);
    ParseSideIffSpells(r, rw);
    GapShapeParses(s, l, r, lw, rw);
    BytesWordsInverse(bytes);
  }

  lemma GapShapeParses(s: string, l: string, r: string, lw: seq<Word>, rw: seq<Word>)
    requires SplitDouble(s) == [l, r] && ParseSide(l) == Some(lw) && ParseSide(r) == Some(rw) && |lw| + |rw| <= 7
    ensures ParseIPv6(s) == Some(BytesOf(lw + Zeros(8 - |lw| - |rw|) + rw))
  {}

  /** The parser returns `bytes` exactly on the texts that spell `bytes`. */
  lemma ParseIffSpells(s: string, bytes: seq<Byte>)
    requires |bytes| == 16
    ensures ParseIPv6(s) == Some(bytes) <==> Spells(s, bytes)
  {
    if ParseIPv6(s) == Some(bytes) {
      ParsedTextSpells(s, bytes);
    } else if SideSpells(s, WordsOf(bytes)) {
      FullFormParses(s, bytes);
    } else if Spells(s, bytes) {
      var l, r, lw, rw :| SpellsWithGap(s, bytes, l, r, lw, rw);
      GapFormParses(s, bytes, l, r, lw, rw);
    }
  }

  lemma ParsedTextSpells(s: string, bytes: seq<Byte>)
    requires |bytes| == 16 && ParseIPv6(s) == Some(bytes)
    ensures Spells(s, bytes)
  {
    SplitDoublePieces(s);
    if |SplitDouble(s)| == 1 {
      ParsedFullFormSpells(s, bytes);
    } else {
      ParsedGapFormSpells(s, bytes);
    }
  }

  lemma ParsedFullFormSpells(s: string, bytes: seq<Byte>)
    requires |bytes| == 16 && ParseIPv6(s) == Some(bytes) && SplitDouble(s) == [s]
    ensures SideSpells(s, WordsOf(bytes))
  {
    var lw := ParseSide(s).value;
    assert lw + Zeros(0) + [] == lw;
    WordsBytesInverse(lw);
    ParseSideIffSpells(s, lw);
  }

  lemma ParsedGapFormSpells(s: string, bytes: seq<Byte>)
    requires |bytes| == 16 && ParseIPv6(s) == Some(bytes)
    requires |SplitDouble(s)| == 2 && s == SplitDouble(s)[0] + "::" + SplitDouble(s)[1]
    ensures var pieces := SplitDouble(s);
            && ParseSide(pieces[0]).Some? && ParseSide(pieces[1]).Some?
            && SpellsWithGap(s, bytes, pieces[0], pieces[1], ParseSide(pieces[0]).value, ParseSide(pieces[1]).value)
  {
    var pieces := SplitDouble(s);
    var l, r := pieces[0], pieces[1];
    assert pieces == [l, r];
    ParsedGapShape(s, l, r, bytes);
    var lw, rw := ParseSide(l).value, ParseSide(r).value;
    WordsBytesInverse(lw + Zeros(8 - |lw| - |rw|) + rw);
    ParseSideIffSpells(l, lw);
    ParseSideIffSpells(r, rw);
  }

  lemma ParsedGapShape(s: string, l: string, r: string, bytes: seq<Byte>)
    requires SplitDouble(s) == [l, r] && ParseIPv6(s) == Some(bytes)
    ensures ParseSide(l).Some? && ParseSide(r).Some?
    ensures var lw, rw := ParseSide(l).value, ParseSide(r).value;
            |lw| + |rw| <= 7 && bytes == BytesOf(lw + Zeros(8 - |lw| - |rw|) + rw)
  {}

  // ----- The canonical form of RFC 5952, section 4.2 -----

  /** Words `start .. start + length` are all zero. */
  predicate ZeroRun(ws: seq<Word>, start: nat, length: nat) {
    start + length <= |ws| && forall i | start <= i < start + length :: ws[i] == 0
  }

  /** The run to shorten: a longest run of two or more zero words, and the first such. */
  ghost predicate IsBestRun(ws: seq<Word>, start: nat, length: nat) {
    && length >= 2 && ZeroRun(ws, start, length)
    && forall s: nat, n: nat | ZeroRun(ws, s, n) :: n < length || (n == length && start <= s)
  }

  ghost predicate HasBestRun(ws: seq<Word>) {
    exists start: nat, length: nat :: IsBestRun(ws, start, length)
  }

  function Hexes(ws: seq<Word>): seq<string> {
    seq(|ws|, i requires 0 <= i < |ws| => Numeral(ws[i], 16))
  }

  ghost function CanonicalText(bytes: seq<Byte>): string
    requires |bytes| == 16
  {
    var ws := WordsOf(bytes);
    if HasBestRun(ws) then
      var start: nat, length: nat :| IsBestRun(ws, start, length);
      Join(Hexes(ws[..start]), ":") + "::" + Join(Hexes(ws[start + length..]), ":")
    else Join(Hexes(ws), ":")
  }

  /** The best run is unique, so it alone decides the canonical text. */
  lemma CanonicalTextWithGap(bytes: seq<Byte>, start: nat, length: nat)
    requires |bytes| == 16 && IsBestRun(WordsOf(bytes), start, length)
    ensures CanonicalText(bytes) ==
            Join(Hexes(WordsOf(bytes)[..start]), ":") + "::" + Join(Hexes(WordsOf(bytes)[start + length..]), ":")
  {
    var ws := WordsOf(bytes);
    assert forall s: nat, n: nat | IsBestRun(ws, s, n) :: s == start && n == length;
  }

  lemma {:induction false} HexesSpell(ws: seq<Word>)
    ensures PartsSpell(Hexes(ws), ws)
  {
    var parts := Hexes(ws);
    if ws != [] {
      HexesSpell(ws[1..]);
      assert parts[1..] == Hexes(ws[1..]);
      HexWordLength(ws[0]);
      NumeralRoundTrip(ws[0], 16);
      if IsDottedQuad(parts[0]) {
        DottedQuadHasDot(parts[0]);
        NumeralHasOnlyDigits(parts[0], 16, '.');
      }
    }
  }

  lemma JoinedHexesSpell(ws: seq<Word>)
    ensures SideSpells(Join(Hexes(ws), ":"), ws)
  {
    HexesSpell(ws);
  }

  /** Dropping a zero run from the words leaves a spelling with a gap. */
  lemma GapTextSpells(bytes: seq<Byte>, start: nat, length: nat)
    requires |bytes| == 16 && length >= 2 && ZeroRun(WordsOf(bytes), start, length)
    ensures Spells(Join(Hexes(WordsOf(bytes)[..start]), ":") + "::" + Join(Hexes(WordsOf(bytes)[start + length..]), ":"), bytes)
  {
    var ws := WordsOf(bytes);
    var lw, rw := ws[..start], ws[start + length..];
    JoinedHexesSpell(lw);
    JoinedHexesSpell(rw);
    assert ws[start..start + length] == Zeros(length);
    assert ws == lw + Zeros(length) + rw;
    var l, r := Join(Hexes(lw), ":"), Join(Hexes(rw), ":");
    assert SpellsWithGap(l + "::" + r, bytes, l, r, lw, rw);
  }

  lemma CanonicalTextSpells(bytes: seq<Byte>)
    requires |bytes| == 16
    ensures Spells(CanonicalText(bytes), bytes)
  {
    var ws := WordsOf(bytes);
    if HasBestRun(ws) {
      var start: nat, length: nat :| IsBestRun(ws, start, length);
      CanonicalTextWithGap(bytes, start, length);
      GapTextSpells(bytes, start, length);
    } else {
      JoinedHexesSpell(ws);
    }
  }

  /** Reading the printed form gives back the bytes, for every 16-byte address. */
  lemma PrintedFormParsesBack(bytes: seq<Byte>)
    requires |bytes| == 16
    ensures ParseIPv6(CanonicalText(bytes)) == Some(bytes)
  {
    CanonicalTextSpells(bytes);
    ParseIffSpells(CanonicalText(bytes), bytes);
  }

  /** The printer is injective. */
  lemma PrinterInjective(a: seq<Byte>, b: seq<Byte>)
    requires |a| == 16 && |b| == 16
    ensures CanonicalText(a) == CanonicalText(b) <==> a == b
  {
    PrintedFormParsesBack(a);
    PrintedFormParsesBack(b);
  }

  predicate GapAt(s: string, i: nat) { i + 2 <= |s| && s[i] == ':' && s[i + 1] == ':' }

  /** The printed form holds at most one `::`, and one exactly when there is a run to shorten. */
  lemma AtMostOneGap(bytes: seq<Byte>)
    requires |bytes| == 16
    ensures forall i: nat, j: nat :: GapAt(CanonicalText(bytes), i) && GapAt(CanonicalText(bytes), j) ==> i == j
    ensures HasBestRun(WordsOf(bytes)) <==> exists i: nat :: GapAt(CanonicalText(bytes), i)
  {
    var ws := WordsOf(bytes);
    var s := CanonicalText(bytes);
    if HasBestRun(ws) {
      var start: nat, length: nat :| IsBestRun(ws, start, length);
      CanonicalTextWithGap(bytes, start, length);
      var l, r := Join(Hexes(ws[..start]), ":"), Join(Hexes(ws[start + length..]), ":");
      JoinedHexesSpell(ws[..start]);
      JoinedHexesSpell(ws[start + length..]);
      SideIsClean(l, ws[..start]);
      SideIsClean(r, ws[start + length..]);
      GapPosition(l, r);
      assert GapAt(s, |l|);
    } else {
      JoinedHexesSpell(ws);
      SideIsClean(s, ws);
    }
  }

  lemma GapPosition(l: string, r: string)
    requires Clean(l) && Clean(r)
    ensures forall i: nat :: GapAt(l + "::" + r, i) <==> i == |l|
  {}

  // ----- The printer's loop -----

  /** The first index at or after `start` whose word is not zero. */
  method EndOfZeros(words: seq<string>, start: nat) returns (end: nat)
    requires start < |words| && words[start] == "0"
    ensures start < end <= |words|
    ensures forall i | start <= i < end :: words[i] == "0"
    ensures end < |words| ==> words[end] != "0"
  {
    end := start;
    while end < |words| && words[end] == "0"
      invariant start <= end <= |words|
      invariant forall i | start <= i < end :: words[i] == "0"
    {
      end := end + 1;
    }
  }

  /** Every zero run that ends by `limit` is shorter than the best one, or as long and no earlier. */
  ghost predicate BestUpTo(ws: seq<Word>, limit: nat, start: int, length: int) {
    && limit <= |ws| && length >= 0
    && (start < 0 ==> length == 0)
    && (start >= 0 ==> length >= 2 && start + length <= limit && ZeroRun(ws, start, length))
    && forall s: nat, n: nat | n >= 2 && s + n <= limit && ZeroRun(ws, s, n) ::
         n < length || (n == length && start <= s)
  }

  /** Extending the scanned prefix past a maximal block of zeros. */
  lemma BestAfterBlock(ws: seq<Word>, from: nat, end: nat, start: int, length: nat)
    requires BestUpTo(ws, from, start, length)
    requires from < end <= |ws| && (from > 0 ==> ws[from - 1] != 0)
    requires ZeroRun(ws, from, end - from)
    ensures if end - from > length && end - from >= 2
            then BestUpTo(ws, end, from, end - from)
            else BestUpTo(ws, end, start, length)
  {
    assert forall s: nat, n: nat | s < from < s + n && ZeroRun(ws, s, n) :: ws[from - 1] == 0;
  }

  lemma BestAfterNonZero(ws: seq<Word>, from: nat, start: int, length: nat)
    requires BestUpTo(ws, from, start, length)
    requires from < |ws| && ws[from] != 0
    ensures BestUpTo(ws, from + 1, start, length)
  {
    assert forall s: nat, n: nat | n >= 2 && s + n == from + 1 && ZeroRun(ws, s, n) :: ws[from] == 0;
  }

  /** The scan for the run to shorten. */
  method ScanRuns(words: seq<string>, ghost ws: seq<Word>) returns (bestStart: int, bestLength: nat)
    requires |words| == |ws| && forall i | 0 <= i < |ws| :: words[i] == "0" <==> ws[i] == 0
    ensures BestUpTo(ws, |ws|, bestStart, bestLength)
  {
    bestStart, bestLength := -1, 0;
    var start := 0;
    while start < |words|
      invariant 0 <= start <= |ws|
      invariant 0 < start < |ws| && ws[start] == 0 ==> ws[start - 1] != 0
      invariant BestUpTo(ws, start, bestStart, bestLength)
    {
      if words[start] != "0" {
        BestAfterNonZero(ws, start, bestStart, bestLength);
        start := start + 1;
        continue;
      }
      var end := EndOfZeros(words, start);
      BestAfterBlock(ws, start, end, bestStart, bestLength);
      if end - start > bestLength && end - start >= 2 {
        bestStart, bestLength := start, end - start;
      }
      start := end;
    }
  }

  /** `formatIPv6` computes the canonical text. */
  method FormatIPv6(bytes: seq<Byte>) returns (text: string)
    requires |bytes| == 16
    ensures text == CanonicalText(bytes)
  {
    ghost var ws := WordsOf(bytes);
    var words := Hexes(WordsOf(bytes));
    ZeroHexes(ws);
    var bestStart, bestLength := ScanRuns(words, ws);
    if bestStart < 0 {
      NoRunFound(ws, bestStart, bestLength);
      return Join(words, ":");
    }
    BestRunFound(ws, bestStart, bestLength);
    CanonicalTextWithGap(bytes, bestStart, bestLength);
    HexesSlice(ws, bestStart, bestStart + bestLength);
    var left := Join(words[..bestStart], ":");
    var right := Join(words[bestStart + bestLength..], ":");
    text := left + "::" + right;
  }

  lemma ZeroHexes(ws: seq<Word>)
    ensures forall i | 0 <= i < |ws| :: Hexes(ws)[i] == "0" <==> ws[i] == 0
  {
    forall i | 0 <= i < |ws| ensures Hexes(ws)[i] == "0" <==> ws[i] == 0 { NumeralIsZero(ws[i], 16); }
  }

  lemma HexesSlice(ws: seq<Word>, i: nat, j: nat)
    requires i <= j <= |ws|
    ensures Hexes(ws)[..i] == Hexes(ws[..i]) && Hexes(ws)[j..] == Hexes(ws[j..])
  {}

  lemma BestRunFound(ws: seq<Word>, start: nat, length: nat)
    requires BestUpTo(ws, |ws|, start, length)
    ensures IsBestRun(ws, start, length)
  {}

  lemma NoRunFound(ws: seq<Word>, start: int, length: int)
    requires start < 0 && BestUpTo(ws, |ws|, start, length)
    ensures !HasBestRun(ws)
  {
    assert forall s: nat, n: nat | ZeroRun(ws, s, n) :: n < 2;
  }
}
