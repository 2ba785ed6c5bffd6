/** The string operations the gateway's parsers and printers are built from:
    splitting and joining on a separator, trimming, and positional numerals. */
module Text {
  import opened Options

  /** JavaScript's `s.split(c)` for a one-character separator. */
  function Split(s: string, c: char): (parts: seq<string>)
    ensures |parts| >= 1
    ensures forall p <- parts :: c !in p
  {
    if s == "" then [""]
    else if s[0] == c then [""] + Split(s[1..], c)
    else
      var rest := Split(s[1..], c);
      [[s[0]] + rest[0]] + rest[1..]
  }

  /** JavaScript's `parts.join(sep)`. */
  function Join(parts: seq<string>, sep: string): string {
    if |parts| == 0 then ""
    else if |parts| == 1 then parts[0]
    else parts[0] + sep + Join(parts[1..], sep)
  }

  lemma {:induction false} SplitOne(p: string, c: char)
    requires c !in p
    ensures Split(p, c) == [p]
  {
    if p != "" {
      SplitOne(p[1..], c);
      assert [p[0]] + p[1..] == p;
    }
  }

  lemma {:induction false} SplitFirst(p: string, c: char, rest: string)
    requires c !in p
    ensures Split(p + [c] + rest, c) == [p] + Split(rest, c)
  {
    var s := p + [c] + rest;
    if p == "" {
      assert s[1..] == rest;
    } else {
      SplitFirst(p[1..], c, rest);
      assert s[1..] == p[1..] + [c] + rest;
      assert [p[0]] + p[1..] == p;
    }
  }

  /** Splitting undoes joining when no part holds the separator. */
  lemma {:induction false} SplitOfJoin(parts: seq<string>, c: char)
    requires |parts| >= 1
    requires forall p <- parts :: c !in p
    ensures Split(Join(parts, [c]), c) == parts
  {
    if |parts| == 1 {
      SplitOne(parts[0], c);
    } else {
      SplitOfJoin(parts[1..], c);
      SplitFirst(parts[0], c, Join(parts[1..], [c]));
      assert [parts[0]] + parts[1..] == parts;
    }
  }

  /** Joining undoes splitting, for every string. */
  lemma {:induction false} JoinOfSplit(s: string, c: char)
    ensures Join(Split(s, c), [c]) == s
  {
    if s != "" {
      JoinOfSplit(s[1..], c);
      var rest := Split(s[1..], c);
      if s[0] == c {
        assert Split(s, c)[1..] == rest;
      } else if |rest| > 1 {
        assert Split(s, c)[1..] == rest[1..];
      }
    }
  }

  /** A joined text holds only characters of the parts and of the separator. */
  lemma {:induction false} JoinCharacters(parts: seq<string>, sep: string, c: char)
    requires c in Join(parts, sep)
    ensures c in sep || exists p <- parts :: c in p
  {
    if |parts| > 1 && c !in parts[0] && c !in sep {
      JoinCharacters(parts[1..], sep, c);
    }
  }

  // ----- White space -----

  /** The characters that `String.prototype.trim` removes. */
  predicate IsSpace(c: char) {
    || '\U{0009}' <= c <= '\U{000D}'
    || c == ' ' || c == '\U{00A0}' || c == '\U{1680}'
    || '\U{2000}' <= c <= '\U{200A}'
    || c == '\U{2028}' || c == '\U{2029}' || c == '\U{202F}'
    || c == '\U{205F}' || c == '\U{3000}' || c == '\U{FEFF}'
  }

  function TrimLeft(s: string): string {
    if s != "" && IsSpace(s[0]) then TrimLeft(s[1..]) else s
  }

  function TrimRight(s: string): string {
    if s != "" && IsSpace(s[|s| - 1]) then TrimRight(s[..|s| - 1]) else s
  }

  function Trim(s: string): string {
    TrimRight(TrimLeft(s))
  }

  predicate Trimmed(s: string) {
    s == "" || (!IsSpace(s[0]) && !IsSpace(s[|s| - 1]))
  }

  lemma TrimOfTrimmed(s: string)
    requires Trimmed(s)
    ensures Trim(s) == s
  {}

  /** Padding a trimmed text with one space on either side is undone by `trim`. */
  lemma TrimOfPadded(left: string, s: string, right: string)
    requires Trimmed(s)
    requires left in {"", " "} && right in {"", " "}
    ensures Trim(left + s + right) == s
  {
    if s == "" {
      TrimOfSpaces(left + s + right);
    } else {
      assert left + s + right == left + (s + right);
      TrimLeftOfPadded(left, s + right);
      TrimRightOfPadded(s, right);
    }
  }

  lemma {:induction false} TrimOfSpaces(s: string)
    requires forall i | 0 <= i < |s| :: IsSpace(s[i])
    ensures Trim(s) == ""
  {
    if s != "" { TrimOfSpaces(s[1..]); }
  }

  lemma TrimLeftOfPadded(left: string, t: string)
    requires left in {"", " "} && t != "" && !IsSpace(t[0])
    ensures TrimLeft(left + t) == t
  {
    if left == " " {
      assert (left + t)[1..] == t;
    } else {
      assert left + t == t;
    }
  }

  lemma TrimRightOfPadded(s: string, right: string)
    requires right in {"", " "} && s != "" && !IsSpace(s[|s| - 1])
    ensures TrimRight(s + right) == s
  {
    var t := s + right;
    if right == " " {
      assert t[..|t| - 1] == s;
    } else {
      assert t == s;
    }
  }

  lemma {:induction false} TrimLeftKeeps(s: string)
    ensures forall c <- TrimLeft(s) :: c in s
    ensures TrimLeft(s) == "" || !IsSpace(TrimLeft(s)[0])
  {
    if s != "" && IsSpace(s[0]) { TrimLeftKeeps(s[1..]); }
  }

  lemma {:induction false} TrimRightKeeps(s: string)
    ensures TrimRight(s) <= s
    ensures TrimRight(s) == "" || !IsSpace(TrimRight(s)[|TrimRight(s)| - 1])
  {
    if s != "" && IsSpace(s[|s| - 1]) { TrimRightKeeps(s[..|s| - 1]); }
  }

  /** What `trim` returns is trimmed and holds no new character. */
  lemma TrimTrims(s: string)
    ensures Trimmed(Trim(s)) && forall c <- Trim(s) :: c in s
  {
    TrimLeftKeeps(s);
    TrimRightKeeps(TrimLeft(s));
  }

  /** The parts of a split hold no new character. */
  lemma {:induction false} SplitCharacters(s: string, c: char, p: string, x: char)
    requires p in Split(s, c) && x in p
    ensures x in s
  {
    if s != "" {
      var rest := Split(s[1..], c);
      if p in rest {
        SplitCharacters(s[1..], c, p, x);
      } else if p != "" {
        assert p == [s[0]] + rest[0];
        if x != s[0] { SplitCharacters(s[1..], c, rest[0], x); }
      }
    }
  }

  function LowerChar(c: char): char {
    if 'A' <= c <= 'Z' then ((c as int) + 32) as char else c
  }

  function Lower(s: string): string {
    seq(|s|, i requires 0 <= i < |s| => LowerChar(s[i]))
  }

  predicate IsLower(s: string) {
    forall i | 0 <= i < |s| :: LowerChar(s[i]) == s[i]
  }

  lemma LowerOfLower(s: string)
    requires IsLower(s)
    ensures Lower(s) == s
  {}

  /** Number of bytes of the UTF-8 encoding. */
  function Utf8Length(s: string): nat {
    if s == "" then 0 else
    var c := s[0] as int;
    (if c < 0x80 then 1 else if c < 0x800 then 2 else if c < 0x1_0000 then 3 else 4) + Utf8Length(s[1..])
  }

  // ----- Numerals -----

  type Radix = b: nat | 2 <= b <= 16 witness 10

  function DigitChar(d: nat): char
    requires d < 16
  {
    if d < 10 then (('0' as int) + d) as char else (('a' as int) + d - 10) as char
  }

  function DigitValue(c: char): (d: Option<nat>)
    ensures d.Some? ==> d.value < 16 && DigitChar(d.value) == c
  {
    if '0' <= c <= '9' then Some(c as int - '0' as int)
    else if 'a' <= c <= 'f' then Some(c as int - 'a' as int + 10)
    else None
  }

  predicate IsDigit(c: char, b: Radix) {
    DigitValue(c).Some? && DigitValue(c).value < b
  }

  predicate IsNumeral(s: string, b: Radix) {
    s != "" && forall i | 0 <= i < |s| :: IsDigit(s[i], b)
  }

  /** `n.toString(b)`: no leading zeros, lower-case digits. */
  function Numeral(n: nat, b: Radix): (s: string)
    ensures IsNumeral(s, b)
    decreases n
  {
    if n < b then [DigitChar(n)] else Numeral(n / b, b) + [DigitChar(n % b)]
  }

  /** `parseInt(s, b)` on a well-formed numeral. */
  function NumeralValue(s: string, b: Radix): nat
    requires IsNumeral(s, b)
  {
    var last := DigitValue(s[|s| - 1]).value;
    if |s| == 1 then last else NumeralValue(s[..|s| - 1], b) * b + last
  }

  lemma {:induction false} NumeralRoundTrip(n: nat, b: Radix)
    ensures NumeralValue(Numeral(n, b), b) == n
    decreases n
  {
    if n >= b {
      var q, d := n / b, n % b;
      DivMod(n, b);
      NumeralRoundTrip(q, b);
      NumeralUnfolds(n, b);
      NumeralValueStep(Numeral(q, b), d, b);
    }
  }

  lemma DivMod(n: nat, b: Radix)
    ensures n == (n / b) * b + n % b && 0 <= n % b < b
    ensures n >= b ==> n / b < n
  {}

  lemma NumeralUnfolds(n: nat, b: Radix)
    requires n >= b
    ensures Numeral(n, b) == Numeral(n / b, b) + [DigitChar(n % b)]
  {}

  /** Appending a digit multiplies by the radix and adds the digit. */
  lemma NumeralValueStep(s: string, d: nat, b: Radix)
    requires IsNumeral(s, b) && d < b
    ensures IsNumeral(s + [DigitChar(d)], b)
    ensures NumeralValue(s + [DigitChar(d)], b) == NumeralValue(s, b) * b + d
  {
    var t := s + [DigitChar(d)];
    assert t[..|t| - 1] == s;
  }

  /** A 16-bit word prints in one to four hexadecimal digits. */
  lemma HexWordLength(n: nat)
    requires n < 0x10000
    ensures 1 <= |Numeral(n, 16)| <= 4
  {
    if n >= 16 {
      var q := n / 16;
      assert |Numeral(n, 16)| == |Numeral(q, 16)| + 1;
      if q >= 16 {
        var r := q / 16;
        assert r < 256;
        assert |Numeral(q, 16)| == |Numeral(r, 16)| + 1;
        assert r >= 16 ==> |Numeral(r, 16)| == |Numeral(r / 16, 16)| + 1;
      }
    }
  }

  lemma NumeralIsZero(n: nat, b: Radix)
    ensures Numeral(n, b) == "0" <==> n == 0
  {
    NumeralRoundTrip(n, b);
    assert IsNumeral("0", b);
    assert NumeralValue("0", b) == 0;
  }

  lemma NumeralInjective(m: nat, n: nat, b: Radix)
    requires Numeral(m, b) == Numeral(n, b)
    ensures m == n
  {
    NumeralRoundTrip(m, b);
    NumeralRoundTrip(n, b);
  }
}
