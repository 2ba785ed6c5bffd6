/** The two JSON layouts against independent readings: the indented text is the compact one laid out
    anew by a scanner that knows only brackets, commas, colons and strings; and the compact text is
    JSON as RFC 8259 writes it. */
module JsonLayout {
  import opened Options
  import opened Text
  import opened Json

  // ----- Laying out a compact text -----

  /** Two blanks for each open bracket. */
  function Indent(depth: nat): string { if depth == 0 then "" else "  " + Indent(depth - 1) }

  predicate Empty(t: string) { |t| >= 2 && ((t[0] == '[' && t[1] == ']') || (t[0] == '{' && t[1] == '}')) }

  /** Outside strings: a line break after an opening bracket, after a comma and before a closing
      bracket, each followed by the indentation; a blank after a colon; empty lists stay as they are. */
  function LayOut(t: string, depth: nat): string
    decreases |t|
  {
    if t == "" then ""
    else if t[0] == '"' then "\"" + CopyString(t[1..], depth)
    else if Empty(t) then t[..2] + LayOut(t[2..], depth)
    else if t[0] == '[' || t[0] == '{' then [t[0]] + "\n" + Indent(depth + 1) + LayOut(t[1..], depth + 1)
    else if t[0] == ']' || t[0] == '}' then
      var outer := if depth == 0 then 0 else depth - 1;
      "\n" + Indent(outer) + [t[0]] + LayOut(t[1..], outer)
    else if t[0] == ',' then ",\n" + Indent(depth) + LayOut(t[1..], depth)
    else if t[0] == ':' then ": " + LayOut(t[1..], depth)
    else [t[0]] + LayOut(t[1..], depth)
  }

  /** Inside a string everything is copied, up to the quote that is not escaped. */
  function CopyString(t: string, depth: nat): string
    decreases |t|
  {
    if t == "" then ""
    else if t[0] == '\\' && |t| >= 2 then t[..2] + CopyString(t[2..], depth)
    else if t[0] == '"' then "\"" + LayOut(t[1..], depth)
    else [t[0]] + CopyString(t[1..], depth)
  }

  lemma {:induction false} SpacesAreIndent(depth: nat)
    ensures Spaces(2 * depth) == Indent(depth)
  {
    if depth > 0 {
      SpacesAreIndent(depth - 1);
      assert Spaces(2 * depth) == "  " + Spaces(2 * (depth - 1));
    }
  }

  // ----- Strings -----

  predicate Ordinary(c: char) { c != '"' && c != '\\' }

  lemma {:induction false} CopyOrdinary(p: string, y: string, depth: nat)
    requires forall i | 0 <= i < |p| :: Ordinary(p[i])
    ensures CopyString(p + y, depth) == p + CopyString(y, depth)
  {
    if p == "" {
      assert p + y == y;
    } else {
      assert (p + y)[1..] == p[1..] + y;
      CopyOrdinary(p[1..], y, depth);
      assert p == [p[0]] + p[1..];
    }
  }

  lemma CopyEscape(e: string, y: string, depth: nat)
    requires |e| >= 2 && e[0] == '\\' && forall i | 2 <= i < |e| :: Ordinary(e[i])
    ensures CopyString(e + y, depth) == e + CopyString(y, depth)
  {
    var head, tail := e[..2], e[2..];
    assert e + y == head + (tail + y);
    assert (e + y)[..2] == head && (e + y)[2..] == tail + y;
    CopyOrdinary(tail, y, depth);
    assert head + (tail + CopyString(y, depth)) == e + CopyString(y, depth);
  }

  lemma EscapedShape(c: char)
    ensures var e := Escaped(c);
            || (e == [c] && Ordinary(c))
            || (|e| >= 2 && e[0] == '\\' && forall i | 2 <= i < |e| :: Ordinary(e[i]))
  {}

  lemma {:induction false} CopyQuoted(s: string, y: string, depth: nat)
    ensures CopyString(Quoted(s) + y, depth) == Quoted(s) + LayOut(y, depth)
  {
    if s == "" {
      assert (Quoted(s) + y)[1..] == y;
    } else {
      var e, rest := Escaped(s[0]), Quoted(s[1..]);
      QuotedPeels(s, y);
      CopyQuoted(s[1..], y, depth);
      EscapedShape(s[0]);
      if e == [s[0]] && Ordinary(s[0]) { CopyOrdinary(e, rest + y, depth); } else { CopyEscape(e, rest + y, depth); }
      Assoc(e, rest, LayOut(y, depth));
    }
  }

  // ----- Values -----

  predicate Plain(c: char) { c !in "\"[]{},:" }

  lemma {:induction false} LayOutPlain(p: string, y: string, depth: nat)
    requires forall i | 0 <= i < |p| :: Plain(p[i])
    ensures LayOut(p + y, depth) == p + LayOut(y, depth)
  {
    if p == "" {
      assert p + y == y;
    } else {
      assert (p + y)[1..] == p[1..] + y;
      LayOutPlain(p[1..], y, depth);
      assert p == [p[0]] + p[1..];
    }
  }

  lemma LayOutString(s: string, y: string, depth: nat)
    ensures LayOut("\"" + (Quoted(s) + y), depth) == "\"" + (Quoted(s) + LayOut(y, depth))
  {
    var t := "\"" + (Quoted(s) + y);
    assert t[1..] == Quoted(s) + y;
    CopyQuoted(s, y, depth);
  }

  lemma LayOutOpening(c: char, y: string, depth: nat)
    requires (c == '[' || c == '{') && !Empty([c] + y)
    ensures LayOut([c] + y, depth) == [c] + "\n" + Indent(depth + 1) + LayOut(y, depth + 1)
  {
    assert ([c] + y)[1..] == y;
  }

  lemma LayOutClosing(c: char, y: string, depth: nat)
    requires c == ']' || c == '}'
    ensures LayOut([c] + y, depth + 1) == "\n" + Indent(depth) + [c] + LayOut(y, depth)
  {
    assert ([c] + y)[1..] == y;
  }

  lemma LayOutComma(y: string, depth: nat)
    ensures LayOut("," + y, depth) == ",\n" + Indent(depth) + LayOut(y, depth)
  {
    assert ("," + y)[1..] == y;
  }

  lemma LayOutColon(y: string, depth: nat)
    ensures LayOut(":" + y, depth) == ": " + LayOut(y, depth)
  {
    assert (":" + y)[1..] == y;
  }

  lemma LayOutEmpty(e: string, y: string, depth: nat)
    requires e == "[]" || e == "{}"
    ensures LayOut(e + y, depth) == e + LayOut(y, depth)
  {
    assert (e + y)[..2] == e && (e + y)[2..] == y;
  }

  /** The compact text of a value, laid out, is its indented text, whatever follows. */
  lemma {:induction false} LayOutValue(v: Json, y: string, depth: nat)
    ensures LayOut(Compact(v) + y, depth) == Pretty(v, 2 * depth) + LayOut(y, depth)
    decreases v, 2
  {
    match v
    case Null => LayOutPlain("null", y, depth);
    case Bool(b) => LayOutPlain(Compact(v), y, depth);
    case Num(n) => LayOutPlain(Numeral(n, 10), y, depth);
    case Str(s) =>
      Assoc("\"", Quoted(s), y);
      LayOutString(s, y, depth);
      Assoc("\"", Quoted(s), LayOut(y, depth));
    case Arr(items) => LayOutArray(items, y, depth);
    case Obj(members) => LayOutObject(members, y, depth);
  }

  lemma {:induction false} LayOutArray(items: seq<Json>, y: string, depth: nat)
    ensures LayOut(Compact(Arr(items)) + y, depth) == Pretty(Arr(items), 2 * depth) + LayOut(y, depth)
    decreases items, 1
  {
    if items == [] {
      LayOutEmpty("[]", y, depth);
    } else {
      LayOutValue(items[0], CompactItems(items[1..], false) + y, depth + 1);
      LayOutItems(items[1..], y, depth);
      ItemsOpen(items, y, depth);
    }
  }

  function ItemsLaidOut(items: seq<Json>, depth: nat, z: string): string {
    MoreItems(items, 2 * depth + 2) + ("\n" + Indent(depth) + "]" + z)
  }

  /** The items after the first, and the closing bracket. */
  lemma {:induction false} LayOutItems(items: seq<Json>, y: string, depth: nat)
    ensures LayOut(CompactItems(items, false) + y, depth + 1) == ItemsLaidOut(items, depth, LayOut(y, depth))
    decreases items, 0
  {
    if items == [] {
      LayOutClosing(']', y, depth);
    } else {
      LayOutValue(items[0], CompactItems(items[1..], false) + y, depth + 1);
      LayOutItems(items[1..], y, depth);
      ItemsFollow(items, y, depth);
    }
  }

  /** Both ways for items to stand: first in their array, or after another item. */
  lemma ItemsFollow(items: seq<Json>, y: string, depth: nat)
    requires items != []
    requires var rest := CompactItems(items[1..], false) + y;
             && LayOut(Compact(items[0]) + rest, depth + 1) == Pretty(items[0], 2 * (depth + 1)) + LayOut(rest, depth + 1)
             && LayOut(rest, depth + 1) == ItemsLaidOut(items[1..], depth, LayOut(y, depth))
    ensures LayOut(CompactItems(items, false) + y, depth + 1) == ItemsLaidOut(items, depth, LayOut(y, depth))
  {
    var t := Compact(items[0]) + (CompactItems(items[1..], false) + y);
    ItemShape(items, false, y);
    assert CompactItems(items, false) + y == "," + t;
    LayOutComma(t, depth + 1);
    NextItem(items, depth, LayOut(y, depth));
  }

  lemma ItemsOpen(items: seq<Json>, y: string, depth: nat)
    requires items != []
    requires var rest := CompactItems(items[1..], false) + y;
             && LayOut(Compact(items[0]) + rest, depth + 1) == Pretty(items[0], 2 * (depth + 1)) + LayOut(rest, depth + 1)
             && LayOut(rest, depth + 1) == ItemsLaidOut(items[1..], depth, LayOut(y, depth))
    ensures LayOut(Compact(Arr(items)) + y, depth) == Pretty(Arr(items), 2 * depth) + LayOut(y, depth)
  {
    var t := CompactItems(items, true) + y;
    Assoc("[", CompactItems(items, true), y);
    ItemsStart(items, true, y);
    LayOutOpening('[', t, depth);
    ItemShape(items, true, y);
    assert t == Compact(items[0]) + (CompactItems(items[1..], false) + y);
    ClosedArray(items, depth, LayOut(y, depth));
  }

  lemma Glue(h: string, i: string, v: string, more: string, close: string)
    ensures h + i + (v + (more + close)) == (h + (i + v + more)) + close
  {
    Assoc(h, i, v + (more + close));
    Assoc(i, v, more + close);
    Assoc(i + v, more, close);
    Assoc(h, i + v + more, close);
  }

  lemma GlueClosing(p: string, i: string, bracket: string, z: string)
    ensures p + ("\n" + i + bracket + z) == p + "\n" + i + bracket + z
  {
    Assoc(p, "\n" + i + bracket, z);
    Assoc(p, "\n" + i, bracket);
    Assoc(p, "\n", i);
  }

  function MoreItems(items: seq<Json>, indent: nat): string { if items == [] then "" else ",\n" + PrettyItems(items, indent) }

  lemma ItemLine(items: seq<Json>, depth: nat)
    requires items != []
    ensures PrettyItems(items, 2 * depth + 2) ==
            Indent(depth + 1) + Pretty(items[0], 2 * depth + 2) + MoreItems(items[1..], 2 * depth + 2)
  {
    SpacesAreIndent(depth + 1);
    var i, v, r := Indent(depth + 1), Pretty(items[0], 2 * depth + 2), PrettyItems(items[1..], 2 * depth + 2);
    if |items| == 1 {
      assert items[1..] == [] && r == "" && MoreItems(items[1..], 2 * depth + 2) == "";
      Assoc(i + v, "", "");
    } else {
      Assoc(i + v, ",\n", r);
    }
  }

  lemma NextItem(items: seq<Json>, depth: nat, z: string)
    requires items != []
    ensures ",\n" + Indent(depth + 1) + (Pretty(items[0], 2 * depth + 2) + ItemsLaidOut(items[1..], depth, z)) == ItemsLaidOut(items, depth, z)
  {
    ItemLine(items, depth);
    Glue(",\n", Indent(depth + 1), Pretty(items[0], 2 * depth + 2), MoreItems(items[1..], 2 * depth + 2), "\n" + Indent(depth) + "]" + z);
  }

  lemma ClosedArray(items: seq<Json>, depth: nat, z: string)
    requires items != []
    ensures ['['] + "\n" + Indent(depth + 1) + (Pretty(items[0], 2 * depth + 2) + ItemsLaidOut(items[1..], depth, z))
         == Pretty(Arr(items), 2 * depth) + z
  {
    SpacesAreIndent(depth);
    ItemLine(items, depth);
    assert ['['] + "\n" == "[\n";
    Glue("[\n", Indent(depth + 1), Pretty(items[0], 2 * depth + 2), MoreItems(items[1..], 2 * depth + 2), "\n" + Indent(depth) + "]" + z);
    GlueClosing("[\n" + PrettyItems(items, 2 * depth + 2), Indent(depth), "]", z);
  }

  lemma {:induction false} LayOutObject(ms: seq<Member>, y: string, depth: nat)
    ensures LayOut(Compact(Obj(ms)) + y, depth) == Pretty(Obj(ms), 2 * depth) + LayOut(y, depth)
    decreases ms, 1
  {
    if ms == [] {
      LayOutEmpty("{}", y, depth);
    } else {
      LayOutMember(ms, y, depth);
      LayOutMembers(ms[1..], y, depth);
      MembersOpen(ms, y, depth);
    }
  }

  function MembersLaidOut(ms: seq<Member>, depth: nat, z: string): string {
    MoreMembers(ms, 2 * depth + 2) + ("\n" + Indent(depth) + "}" + z)
  }

  /** Key, colon, blank and value of the first member. */
  lemma {:induction false} LayOutMember(ms: seq<Member>, y: string, depth: nat)
    requires ms != []
    ensures var rest := CompactMembers(ms[1..], false) + y;
            LayOut("\"" + (Quoted(ms[0].key) + (":" + (Compact(ms[0].value) + rest))), depth + 1) ==
            MemberText(ms[0], 2 * depth + 2) + LayOut(rest, depth + 1)
    decreases ms, 0
  {
    assert ms[0] in ms;
    var rest := CompactMembers(ms[1..], false) + y;
    LayOutString(ms[0].key, ":" + (Compact(ms[0].value) + rest), depth + 1);
    LayOutColon(Compact(ms[0].value) + rest, depth + 1);
    LayOutValue(ms[0].value, rest, depth + 1);
    SplitMember(ms[0], 2 * depth + 2, LayOut(rest, depth + 1));
  }

  lemma {:induction false} LayOutMembers(ms: seq<Member>, y: string, depth: nat)
    ensures LayOut(CompactMembers(ms, false) + y, depth + 1) == MembersLaidOut(ms, depth, LayOut(y, depth))
    decreases ms, 1
  {
    if ms == [] {
      LayOutClosing('}', y, depth);
    } else {
      LayOutMember(ms, y, depth);
      LayOutMembers(ms[1..], y, depth);
      MembersFollow(ms, y, depth);
    }
  }

  lemma MembersFollow(ms: seq<Member>, y: string, depth: nat)
    requires ms != []
    requires var rest := CompactMembers(ms[1..], false) + y;
             && LayOut("\"" + (Quoted(ms[0].key) + (":" + (Compact(ms[0].value) + rest))), depth + 1) ==
                MemberText(ms[0], 2 * depth + 2) + LayOut(rest, depth + 1)
             && LayOut(rest, depth + 1) == MembersLaidOut(ms[1..], depth, LayOut(y, depth))
    ensures LayOut(CompactMembers(ms, false) + y, depth + 1) == MembersLaidOut(ms, depth, LayOut(y, depth))
  {
    var first := Quoted(ms[0].key) + (":" + (Compact(ms[0].value) + (CompactMembers(ms[1..], false) + y)));
    MemberShape(ms, false, y);
    SepKey(",", first);
    LayOutComma("\"" + first, depth + 1);
    NextMember(ms, depth, LayOut(y, depth));
  }

  lemma MembersOpen(ms: seq<Member>, y: string, depth: nat)
    requires ms != []
    requires var rest := CompactMembers(ms[1..], false) + y;
             && LayOut("\"" + (Quoted(ms[0].key) + (":" + (Compact(ms[0].value) + rest))), depth + 1) ==
                MemberText(ms[0], 2 * depth + 2) + LayOut(rest, depth + 1)
             && LayOut(rest, depth + 1) == MembersLaidOut(ms[1..], depth, LayOut(y, depth))
    ensures LayOut(Compact(Obj(ms)) + y, depth) == Pretty(Obj(ms), 2 * depth) + LayOut(y, depth)
  {
    var t := CompactMembers(ms, true) + y;
    Assoc("{", CompactMembers(ms, true), y);
    MembersStart(ms, true, y);
    LayOutOpening('{', t, depth);
    MemberShape(ms, true, y);
    ClosedObject(ms, depth, LayOut(y, depth));
  }

  function MoreMembers(ms: seq<Member>, indent: nat): string { if ms == [] then "" else ",\n" + PrettyMembers(ms, indent) }

  /** Key, colon, blank and value. */
  function MemberText(m: Member, indent: nat): string { "\"" + (Quoted(m.key) + (": " + Pretty(m.value, indent))) }

  lemma MemberLine(ms: seq<Member>, depth: nat)
    requires ms != []
    ensures PrettyMembers(ms, 2 * depth + 2) ==
            Indent(depth + 1) + MemberText(ms[0], 2 * depth + 2) + MoreMembers(ms[1..], 2 * depth + 2)
  {
    SpacesAreIndent(depth + 1);
    var i, k, v := Indent(depth + 1), Quoted(ms[0].key), Pretty(ms[0].value, 2 * depth + 2);
    var r := PrettyMembers(ms[1..], 2 * depth + 2);
    MemberGlue(i, k, v);
    if |ms| == 1 {
      assert ms[1..] == [] && r == "";
      assert i + "\"" + k + ": " + v + "" + "" == i + "\"" + k + ": " + v + "";
    } else {
      Assoc(i + "\"" + k + ": " + v, ",\n", r);
    }
  }

  lemma MemberGlue(i: string, k: string, v: string)
    ensures i + "\"" + k + ": " + v == i + ("\"" + (k + (": " + v)))
  {
    Assoc(i + "\"" + k, ": ", v);
    Assoc(i + "\"", k, ": " + v);
    Assoc(i, "\"", k + (": " + v));
  }

  lemma SplitMember(m: Member, indent: nat, rest: string)
    ensures "\"" + (Quoted(m.key) + (": " + (Pretty(m.value, indent) + rest))) == MemberText(m, indent) + rest
  {
    var k, v := Quoted(m.key), Pretty(m.value, indent);
    Assoc(": ", v, rest);
    Assoc(k, ": " + v, rest);
    Assoc("\"", k + (": " + v), rest);
  }

  lemma NextMember(ms: seq<Member>, depth: nat, z: string)
    requires ms != []
    ensures ",\n" + Indent(depth + 1) + (MemberText(ms[0], 2 * depth + 2) + MembersLaidOut(ms[1..], depth, z)) == MembersLaidOut(ms, depth, z)
  {
    MemberLine(ms, depth);
    Glue(",\n", Indent(depth + 1), MemberText(ms[0], 2 * depth + 2), MoreMembers(ms[1..], 2 * depth + 2), "\n" + Indent(depth) + "}" + z);
  }

  lemma ClosedObject(ms: seq<Member>, depth: nat, z: string)
    requires ms != []
    ensures ['{'] + "\n" + Indent(depth + 1) + (MemberText(ms[0], 2 * depth + 2) + MembersLaidOut(ms[1..], depth, z))
         == Pretty(Obj(ms), 2 * depth) + z
  {
    SpacesAreIndent(depth);
    MemberLine(ms, depth);
    assert ['{'] + "\n" == "{\n";
    Glue("{\n", Indent(depth + 1), MemberText(ms[0], 2 * depth + 2), MoreMembers(ms[1..], 2 * depth + 2), "\n" + Indent(depth) + "}" + z);
    GlueClosing("{\n" + PrettyMembers(ms, 2 * depth + 2), Indent(depth), "}", z);
  }

  /** The indented text is the compact text, laid out. */
  lemma PrettyIsLaidOut(v: Json)
    ensures Pretty(v, 0) == LayOut(Compact(v), 0)
  {
    LayOutValue(v, "", 0);
    assert Compact(v) + "" == Compact(v) && Pretty(v, 0) + "" == Pretty(v, 0);
  }

  // ----- And back -----

  /** Blanks and line breaks outside strings, dropped. */
  function Squeeze(t: string): string
    decreases |t|
  {
    if t == "" then ""
    else if t[0] == '"' then "\"" + SqueezeString(t[1..])
    else if t[0] == ' ' || t[0] == '\n' then Squeeze(t[1..])
    else [t[0]] + Squeeze(t[1..])
  }

  function SqueezeString(t: string): string
    decreases |t|
  {
    if t == "" then ""
    else if t[0] == '\\' && |t| >= 2 then t[..2] + SqueezeString(t[2..])
    else if t[0] == '"' then "\"" + Squeeze(t[1..])
    else [t[0]] + SqueezeString(t[1..])
  }

  predicate Blank(s: string) { forall i | 0 <= i < |s| :: s[i] == ' ' || s[i] == '\n' }

  lemma {:induction false} SqueezeBlank(b: string, y: string)
    requires Blank(b)
    ensures Squeeze(b + y) == Squeeze(y)
  {
    if b == "" {
      assert b + y == y;
    } else {
      assert (b + y)[1..] == b[1..] + y;
      SqueezeBlank(b[1..], y);
    }
  }

  lemma {:induction false} IndentIsBlank(depth: nat)
    ensures Blank(Indent(depth)) && Blank("\n" + Indent(depth))
  {
    if depth > 0 { IndentIsBlank(depth - 1); }
  }

  /** A character followed by blanks. */
  lemma SqueezeAfter(c: char, b: string, y: string)
    requires c != '"' && c != ' ' && c != '\n' && Blank(b)
    ensures Squeeze([c] + (b + y)) == [c] + Squeeze(y)
  {
    SqueezeBlank(b, y);
    SqueezeOne(c, b + y);
  }

  lemma OpeningSqueezes(c: char, i: string, y: string)
    requires (c == '[' || c == '{' || c == ',') && Blank("\n" + i)
    ensures Squeeze([c] + "\n" + i + y) == [c] + Squeeze(y)
  {
    Assoc([c], "\n", i);
    Assoc([c], "\n" + i, y);
    SqueezeAfter(c, "\n" + i, y);
  }

  lemma ClosingSqueezes(c: char, i: string, y: string)
    requires (c == ']' || c == '}') && Blank("\n" + i)
    ensures Squeeze("\n" + i + [c] + y) == [c] + Squeeze(y)
  {
    Assoc("\n" + i, [c], y);
    SqueezeBlank("\n" + i, [c] + y);
    SqueezeOne(c, y);
  }

  lemma ColonSqueezes(y: string)
    ensures Squeeze(": " + y) == ":" + Squeeze(y)
  {
    assert ": " + y == [':'] + (" " + y);
    SqueezeAfter(':', " ", y);
  }

  /** Laying out adds nothing but blanks and line breaks outside strings: squeezing the layout of a
      text gives what squeezing the text itself gives. */
  lemma {:induction false} SqueezeOfLayOut(t: string, depth: nat)
    ensures Squeeze(LayOut(t, depth)) == Squeeze(t)
    decreases |t|
  {
    if t != "" {
      var c, rest := t[0], t[1..];
      assert t == [c] + rest;
      if c == '"' {
        SqueezeOfCopy(rest, depth);
        assert ("\"" + CopyString(rest, depth))[1..] == CopyString(rest, depth);
      } else if Empty(t) {
        SqueezeOfLayOut(t[2..], depth);
        EmptySqueezes(t, LayOut(t[2..], depth));
      } else if c == '[' || c == '{' {
        SqueezeOfLayOut(rest, depth + 1);
        OpeningCase(c, rest, depth);
      } else if c == ']' || c == '}' {
        SqueezeOfLayOut(rest, if depth == 0 then 0 else depth - 1);
        ClosingCase(c, rest, depth);
      } else if c == ',' {
        SqueezeOfLayOut(rest, depth);
        CommaCase(rest, depth);
      } else if c == ':' {
        SqueezeOfLayOut(rest, depth);
        ColonCase(rest, depth);
      } else {
        SqueezeOfLayOut(rest, depth);
        PlainCase(c, rest, depth);
      }
    }
  }

  lemma OpeningCase(c: char, y: string, depth: nat)
    requires (c == '[' || c == '{') && !Empty([c] + y) && Squeeze(LayOut(y, depth + 1)) == Squeeze(y)
    ensures Squeeze(LayOut([c] + y, depth)) == Squeeze([c] + y)
  {
    LayOutOpening(c, y, depth);
    IndentIsBlank(depth + 1);
    OpeningSqueezes(c, Indent(depth + 1), LayOut(y, depth + 1));
    SqueezeOne(c, y);
  }

  lemma ClosingCase(c: char, y: string, depth: nat)
    requires c == ']' || c == '}'
    requires var outer := if depth == 0 then 0 else depth - 1; Squeeze(LayOut(y, outer)) == Squeeze(y)
    ensures Squeeze(LayOut([c] + y, depth)) == Squeeze([c] + y)
  {
    var outer := if depth == 0 then 0 else depth - 1;
    assert ([c] + y)[1..] == y;
    IndentIsBlank(outer);
    ClosingSqueezes(c, Indent(outer), LayOut(y, outer));
    SqueezeOne(c, y);
  }

  lemma CommaCase(y: string, depth: nat)
    requires Squeeze(LayOut(y, depth)) == Squeeze(y)
    ensures Squeeze(LayOut([','] + y, depth)) == Squeeze([','] + y)
  {
    LayOutComma(y, depth);
    IndentIsBlank(depth);
    assert ",\n" == [','] + "\n";
    OpeningSqueezes(',', Indent(depth), LayOut(y, depth));
    SqueezeOne(',', y);
  }

  lemma ColonCase(y: string, depth: nat)
    requires Squeeze(LayOut(y, depth)) == Squeeze(y)
    ensures Squeeze(LayOut([':'] + y, depth)) == Squeeze([':'] + y)
  {
    LayOutColon(y, depth);
    ColonSqueezes(LayOut(y, depth));
    SqueezeOne(':', y);
  }

  lemma PlainCase(c: char, y: string, depth: nat)
    requires Plain(c) && Squeeze(LayOut(y, depth)) == Squeeze(y)
    ensures Squeeze(LayOut([c] + y, depth)) == Squeeze([c] + y)
  {
    LayOutPlain([c], y, depth);
    var z := LayOut(y, depth);
    assert ([c] + z)[1..] == z && ([c] + y)[1..] == y;
  }

  lemma EmptySqueezes(t: string, y: string)
    requires Empty(t) && Squeeze(y) == Squeeze(t[2..])
    ensures Squeeze(t[..2] + y) == Squeeze(t)
  {
    SqueezeTwo(t[0], t[1], y);
    SqueezeTwo(t[0], t[1], t[2..]);
    assert t[..2] == [t[0], t[1]] && t == [t[0], t[1]] + t[2..];
  }

  lemma SqueezeOne(c: char, y: string)
    requires c != '"' && c != ' ' && c != '\n'
    ensures Squeeze([c] + y) == [c] + Squeeze(y)
  {
    assert ([c] + y)[1..] == y;
  }

  lemma SqueezeTwo(a: char, b: char, y: string)
    requires a != '"' && a != ' ' && a != '\n' && b != '"' && b != ' ' && b != '\n'
    ensures Squeeze([a, b] + y) == [a, b] + Squeeze(y)
  {
    assert [a, b] + y == [a] + ([b] + y);
    SqueezeOne(a, [b] + y);
    SqueezeOne(b, y);
  }

  lemma {:induction false} SqueezeOfCopy(t: string, depth: nat)
    ensures SqueezeString(CopyString(t, depth)) == SqueezeString(t)
    decreases |t|
  {
    if t == "" {
    } else if t[0] == '\\' && |t| >= 2 {
      SqueezeOfCopy(t[2..], depth);
      var c := t[..2] + CopyString(t[2..], depth);
      assert c[..2] == t[..2] && c[2..] == CopyString(t[2..], depth);
    } else if t[0] == '"' {
      SqueezeOfLayOut(t[1..], depth);
      assert ("\"" + LayOut(t[1..], depth))[1..] == LayOut(t[1..], depth);
    } else {
      SqueezeOfCopy(t[1..], depth);
      var c := [t[0]] + CopyString(t[1..], depth);
      assert c[1..] == CopyString(t[1..], depth);
      assert !(t[0] == '\\' && |t| >= 2);
      if t[0] == '\\' { assert t[1..] == ""; }
    }
  }

  // ----- Compact texts hold no blanks to drop -----

  lemma {:induction false} SqueezeOrdinary(p: string, y: string)
    requires forall i | 0 <= i < |p| :: Ordinary(p[i])
    ensures SqueezeString(p + y) == p + SqueezeString(y)
  {
    if p == "" {
      assert p + y == y;
    } else {
      assert (p + y)[1..] == p[1..] + y;
      SqueezeOrdinary(p[1..], y);
      assert p == [p[0]] + p[1..];
    }
  }

  lemma SqueezeEscape(e: string, y: string)
    requires |e| >= 2 && e[0] == '\\' && forall i | 2 <= i < |e| :: Ordinary(e[i])
    ensures SqueezeString(e + y) == e + SqueezeString(y)
  {
    var head, tail := e[..2], e[2..];
    assert (e + y)[..2] == head && (e + y)[2..] == tail + y;
    SqueezeOrdinary(tail, y);
    assert head + (tail + SqueezeString(y)) == e + SqueezeString(y);
  }

  lemma {:induction false} SqueezeQuoted(s: string, y: string)
    ensures SqueezeString(Quoted(s) + y) == Quoted(s) + Squeeze(y)
  {
    if s == "" {
      assert (Quoted(s) + y)[1..] == y;
    } else {
      var e, rest := Escaped(s[0]), Quoted(s[1..]);
      QuotedPeels(s, y);
      SqueezeQuoted(s[1..], y);
      EscapedShape(s[0]);
      if e == [s[0]] && Ordinary(s[0]) { SqueezeOrdinary(e, rest + y); } else { SqueezeEscape(e, rest + y); }
      Assoc(e, rest, Squeeze(y));
    }
  }

  predicate Solid(c: char) { c != '"' && c != ' ' && c != '\n' }

  lemma {:induction false} SqueezeSolid(p: string, y: string)
    requires forall i | 0 <= i < |p| :: Solid(p[i])
    ensures Squeeze(p + y) == p + Squeeze(y)
  {
    if p == "" {
      assert p + y == y;
    } else {
      assert (p + y)[1..] == p[1..] + y;
      SqueezeSolid(p[1..], y);
      assert p == [p[0]] + p[1..];
    }
  }

  lemma SqueezeKey(s: string, y: string)
    ensures Squeeze("\"" + (Quoted(s) + y)) == "\"" + (Quoted(s) + Squeeze(y))
  {
    assert ("\"" + (Quoted(s) + y))[1..] == Quoted(s) + y;
    SqueezeQuoted(s, y);
  }

  lemma {:induction false} SqueezeValue(v: Json, y: string)
    ensures Squeeze(Compact(v) + y) == Compact(v) + Squeeze(y)
    decreases v, 1
  {
    match v
    case Str(s) =>
      Assoc("\"", Quoted(s), y);
      SqueezeKey(s, y);
      Assoc("\"", Quoted(s), Squeeze(y));
    case Arr(items) =>
      Assoc("[", CompactItems(items, true), y);
      SqueezeSolid("[", CompactItems(items, true) + y);
      SqueezeItems(items, true, y);
      Assoc("[", CompactItems(items, true), Squeeze(y));
    case Obj(members) =>
      Assoc("{", CompactMembers(members, true), y);
      SqueezeSolid("{", CompactMembers(members, true) + y);
      SqueezeMembers(members, true, y);
      Assoc("{", CompactMembers(members, true), Squeeze(y));
    case Num(n) => SqueezeSolid(Numeral(n, 10), y);
    case _ => SqueezeSolid(Compact(v), y);
  }

  lemma {:induction false} SqueezeItems(items: seq<Json>, first: bool, y: string)
    ensures Squeeze(CompactItems(items, first) + y) == CompactItems(items, first) + Squeeze(y)
    decreases items, 0
  {
    if items == [] {
      SqueezeSolid("]", y);
    } else {
      var sep, rest := if first then "" else ",", CompactItems(items[1..], false);
      ItemShape(items, first, y);
      ItemShape(items, first, Squeeze(y));
      SqueezeSolid(sep, Compact(items[0]) + (rest + y));
      SqueezeValue(items[0], rest + y);
      SqueezeItems(items[1..], false, y);
    }
  }

  lemma {:induction false} SqueezeMembers(ms: seq<Member>, first: bool, y: string)
    ensures Squeeze(CompactMembers(ms, first) + y) == CompactMembers(ms, first) + Squeeze(y)
    decreases ms, 0
  {
    if ms == [] {
      SqueezeSolid("}", y);
    } else {
      assert ms[0] in ms;
      var sep, k, v, rest := if first then "" else ",", Quoted(ms[0].key), Compact(ms[0].value), CompactMembers(ms[1..], false);
      MemberShape(ms, first, y);
      MemberShape(ms, first, Squeeze(y));
      SqueezeMembers(ms[1..], false, y);
      SqueezeValue(ms[0].value, rest + y);
      SqueezeSolid(":", v + (rest + y));
      SqueezeKey(ms[0].key, ":" + (v + (rest + y)));
      SepKey(sep, k + (":" + (v + (rest + y))));
      SqueezeSolid(sep, "\"" + (k + (":" + (v + (rest + y)))));
      SepKey(sep, k + (":" + (v + (rest + Squeeze(y)))));
    }
  }

  lemma SepKey(sep: string, y: string)
    requires sep == "" || sep == ","
    ensures (if sep == "" then "\"" else ",\"") + y == sep + ("\"" + y)
  {
    if sep == "," { assert ",\"" == "," + "\""; }
  }

  /** Dropping the blanks and line breaks outside strings from the indented text gives the compact
      one. */
  lemma SqueezedIsCompact(v: Json)
    ensures Squeeze(Pretty(v, 0)) == Compact(v)
  {
    PrettyIsLaidOut(v);
    SqueezeOfLayOut(Compact(v), 0);
    SqueezeValue(v, "");
    assert Compact(v) + "" == Compact(v);
  }
}
