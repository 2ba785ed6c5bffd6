/** The compact texts as section 2 to 7 of RFC 8259 write JSON: the three names, decimal numbers,
    lists between brackets and commas, and strings that a reader of their escapes gets back; and the
    order in which keys are sorted. */
module JsonText {
  import opened Options
  import opened Text
  import opened Json

  // ----- Strings -----

  datatype Read = Read(value: string, rest: string)

  function Prefixed(c: char, r: Option<Read>): Option<Read> {
    if r.None? then None else Some(Read([c] + r.value.value, r.value.rest))
  }

  /** The characters that the two-character escapes stand for. */
  function ShortEscape(c: char): Option<char> {
    if c == '"' then Some('"')
    else if c == '\\' then Some('\\')
    else if c == '/' then Some('/')
    else if c == 'b' then Some('\U{0008}')
    else if c == 'f' then Some('\U{000C}')
    else if c == 'n' then Some('\U{000A}')
    else if c == 'r' then Some('\U{000D}')
    else if c == 't' then Some('\U{0009}')
    else None
  }

  /** Four hexadecimal digits as a character of the basic plane. */
  function HexEscape(t: string): Option<char>
    requires |t| == 4
  {
    var a, b, c, d := DigitValue(t[0]), DigitValue(t[1]), DigitValue(t[2]), DigitValue(t[3]);
    if a.None? || b.None? || c.None? || d.None? then None
    else
      var n := a.value * 4096 + b.value * 256 + c.value * 16 + d.value;
      if n < 0xD800 then Some(n as char) else None
  }

  /** Read a string after its opening quote: its characters, and what follows its closing quote. */
  function ReadString(t: string): Option<Read>
    decreases |t|
  {
    if t == "" then None
    else if t[0] == '"' then Some(Read("", t[1..]))
    else if t[0] != '\\' then (if t[0] < ' ' then None else Prefixed(t[0], ReadString(t[1..])))
    else if |t| >= 2 && ShortEscape(t[1]).Some? then Prefixed(ShortEscape(t[1]).value, ReadString(t[2..]))
    else if |t| >= 6 && t[1] == 'u' && HexEscape(t[2..6]).Some? then Prefixed(HexEscape(t[2..6]).value, ReadString(t[6..]))
    else None
  }

  lemma ReadControl(c: char, y: string)
    requires c < ' '
    ensures ReadString("\\u00" + [DigitChar(c as int / 16), DigitChar(c as int % 16)] + y) == Prefixed(c, ReadString(y))
  {
    var h, l := c as int / 16, c as int % 16;
    var e := "\\u00" + [DigitChar(h), DigitChar(l)];
    var t := e + y;
    assert t[0] == '\\' && t[1] == 'u' && t[2..6] == "00" + [DigitChar(h), DigitChar(l)] && t[6..] == y;
    assert DigitValue('0') == Some(0) && DigitValue(DigitChar(h)) == Some(h) && DigitValue(DigitChar(l)) == Some(l);
    assert h * 16 + l == c as int;
  }

  lemma ReadShort(e: char, c: char, y: string)
    requires ShortEscape(e) == Some(c)
    ensures ReadString(['\\', e] + y) == Prefixed(c, ReadString(y))
  {
    var t := ['\\', e] + y;
    assert t[0] == '\\' && t[1] == e && t[2..] == y;
  }

  lemma ReadEscaped(c: char, y: string)
    ensures ReadString(Escaped(c) + y) == Prefixed(c, ReadString(y))
  {
    if c == '"' { ReadShort('"', c, y); }
    else if c == '\\' { ReadShort('\\', c, y); }
    else if c == '\U{0008}' { ReadShort('b', c, y); }
    else if c == '\U{0009}' { ReadShort('t', c, y); }
    else if c == '\U{000A}' { ReadShort('n', c, y); }
    else if c == '\U{000C}' { ReadShort('f', c, y); }
    else if c == '\U{000D}' { ReadShort('r', c, y); }
    else if c < ' ' { ReadControl(c, y); }
    else { assert ([c] + y)[1..] == y; }
  }

  /** Only quotes, backslashes and control characters are escaped, in two characters where there is
      a short form and in six otherwise. */
  lemma EscapeForms(c: char)
    ensures Escaped(c) == [c] <==> c >= ' ' && c != '"' && c != '\\'
    ensures |Escaped(c)| == 1 || |Escaped(c)| == 2 || |Escaped(c)| == 6
    ensures |Escaped(c)| == 2 <==> c == '"' || c == '\\' || c == '\U{0008}' || c == '\t' || c == '\n' || c == '\U{000C}' || c == '\r'
  {}

  /** A quoted string is read back, whatever follows it. */
  lemma {:induction false} QuotedIsReadBack(s: string, y: string)
    ensures ReadString(Quoted(s) + y) == Some(Read(s, y))
  {
    if s == "" {
      assert (Quoted(s) + y)[1..] == y;
    } else {
      QuotedPeels(s, y);
      ReadEscaped(s[0], Quoted(s[1..]) + y);
      QuotedIsReadBack(s[1..], y);
      assert s == [s[0]] + s[1..];
    }
  }

  // ----- Names, numbers and lists -----

  function CompactAll(items: seq<Json>): (r: seq<string>)
    ensures |r| == |items|
  {
    seq(|items|, i requires 0 <= i < |items| => Compact(items[i]))
  }

  function MemberAll(ms: seq<Member>): (r: seq<string>)
    ensures |r| == |ms|
  {
    seq(|ms|, i requires 0 <= i < |ms| => "\"" + Quoted(ms[i].key) + ":" + Compact(ms[i].value))
  }

  lemma {:induction false} ItemsAreJoined(items: seq<Json>, first: bool)
    ensures CompactItems(items, first) == (if first || items == [] then "" else ",") + Join(CompactAll(items), ",") + "]"
  {
    if items != [] {
      var sep, v, rest := if first then "" else ",", Compact(items[0]), CompactAll(items[1..]);
      ItemsAreJoined(items[1..], false);
      assert CompactAll(items) == [v] + rest;
      JoinedCons(sep, v, rest, "]");
    }
  }

  lemma JoinedCons(sep: string, v: string, rest: seq<string>, close: string)
    ensures sep + v + ((if rest == [] then "" else ",") + Join(rest, ",") + close) == sep + Join([v] + rest, ",") + close
  {
    assert ([v] + rest)[1..] == rest;
    if rest == [] {
      assert sep + v + ("" + "" + close) == sep + v + close;
    } else {
      var j := Join(rest, ",");
      assert Join([v] + rest, ",") == v + "," + j;
      assert sep + v + ("," + j + close) == sep + (v + "," + j) + close;
    }
  }

  lemma {:induction false} MembersAreJoined(ms: seq<Member>, first: bool)
    ensures CompactMembers(ms, first) == (if first || ms == [] then "" else ",") + Join(MemberAll(ms), ",") + "}"
  {
    if ms != [] {
      var sep, m, rest := if first then "" else ",", "\"" + Quoted(ms[0].key) + ":" + Compact(ms[0].value), MemberAll(ms[1..]);
      MembersAreJoined(ms[1..], false);
      assert MemberAll(ms) == [m] + rest;
      JoinedCons(sep, m, rest, "}");
      MemberGroups(sep, Quoted(ms[0].key), Compact(ms[0].value));
    }
  }

  lemma MemberGroups(sep: string, k: string, v: string)
    ensures sep + ("\"" + k) + ":" + v == sep + ("\"" + k + ":" + v)
  {
    Assoc(sep, "\"" + k, ":");
    Assoc(sep, "\"" + k + ":", v);
  }

  /** What each kind of value is written as. */
  lemma CompactIsJson(v: Json)
    ensures v.Null? ==> Compact(v) == "null"
    ensures v == Bool(true) ==> Compact(v) == "true"
    ensures v == Bool(false) ==> Compact(v) == "false"
    ensures v.Num? ==> Compact(v) == Numeral(v.n, 10)
    ensures v.Str? ==> Compact(v) == "\"" + Quoted(v.s)
    ensures v.Arr? ==> Compact(v) == "[" + Join(CompactAll(v.items), ",") + "]"
    ensures v.Obj? ==> Compact(v) == "{" + Join(MemberAll(v.members), ",") + "}"
  {
    match v
    case Arr(items) =>
      ItemsAreJoined(items, true);
      assert "" + Join(CompactAll(items), ",") == Join(CompactAll(items), ",");
      Assoc("[", Join(CompactAll(items), ","), "]");
    case Obj(members) =>
      MembersAreJoined(members, true);
      assert "" + Join(MemberAll(members), ",") == Join(MemberAll(members), ",");
      Assoc("{", Join(MemberAll(members), ","), "}");
    case _ =>
  }

  // ----- The order of keys -----

  /** After a common beginning of length `k`, `a` ends or has the smaller character. */
  predicate FirstDifference(a: string, b: string, k: nat) {
    k <= |a| && k < |b| && a[..k] == b[..k] && (k == |a| || a[k] < b[k])
  }

  lemma {:induction false} LessIsLexicographic(a: string, b: string)
    ensures Less(a, b) <==> exists k: nat :: FirstDifference(a, b, k)
  {
    if b == "" {
    } else if a == "" {
      assert FirstDifference(a, b, 0);
    } else if a[0] == b[0] {
      LessIsLexicographic(a[1..], b[1..]);
      if k: nat :| FirstDifference(a[1..], b[1..], k) {
        assert a[..k + 1] == [a[0]] + a[1..][..k] && b[..k + 1] == [b[0]] + b[1..][..k];
        assert FirstDifference(a, b, k + 1);
      }
      if k: nat :| FirstDifference(a, b, k) {
        assert k > 0;
        assert a[..k][1..] == a[1..][..k - 1] && b[..k][1..] == b[1..][..k - 1];
        assert FirstDifference(a[1..], b[1..], k - 1);
      }
    } else {
      if Less(a, b) { assert FirstDifference(a, b, 0); }
      if k: nat :| FirstDifference(a, b, k) {
        if k > 0 { assert a[..k][0] == b[..k][0]; }
      }
    }
  }

  // ----- The canonical form -----

  function CanonicalAll(items: seq<Json>): (r: seq<Json>)
    ensures |r| == |items|
  {
    seq(|items|, i requires 0 <= i < |items| => Canonical(items[i]))
  }

  function CanonicalEach(ms: seq<Member>): (r: seq<Member>)
    ensures |r| == |ms|
  {
    seq(|ms|, i requires 0 <= i < |ms| => Member(ms[i].key, Canonical(ms[i].value)))
  }

  lemma {:induction false} CanonicalItemsAre(items: seq<Json>)
    ensures CanonicalItems(items) == CanonicalAll(items)
  {
    if items != [] {
      CanonicalItemsAre(items[1..]);
      assert CanonicalAll(items) == [Canonical(items[0])] + CanonicalAll(items[1..]);
    }
  }

  lemma {:induction false} CanonicalMembersAre(ms: seq<Member>)
    ensures CanonicalMembers(ms) == CanonicalEach(ms)
  {
    if ms != [] {
      CanonicalMembersAre(ms[1..]);
      assert CanonicalEach(ms) == [Member(ms[0].key, Canonical(ms[0].value))] + CanonicalEach(ms[1..]);
    }
  }

  /** At every depth: arrays keep their order, objects have the same members in order of their keys,
      and everything else is left alone. */
  lemma CanonicalIs(v: Json)
    ensures v.Arr? ==> Canonical(v) == Arr(CanonicalAll(v.items))
    ensures v.Obj? ==> Canonical(v).Obj? && Sorted(Canonical(v).members) && multiset(Canonical(v).members) == multiset(CanonicalEach(v.members))
    ensures !v.Arr? && !v.Obj? ==> Canonical(v) == v
  {
    match v
    case Arr(items) => CanonicalItemsAre(items);
    case Obj(members) =>
      CanonicalMembersAre(members);
      SortSorts(CanonicalMembers(members));
    case _ =>
  }
}
