/** The indented printer is uniquely readable, as the compact one is. */
module JsonPretty {
  import opened Options
  import opened Text
  import opened Json

  /** A value starts with the same character in both layouts. */
  lemma PrettyStarts(v: Json, indent: nat, x: string)
    ensures Pretty(v, indent) != "" && (Pretty(v, indent) + x)[0] == Compact(v)[0]
  {}

  lemma SameKind(v: Json, w: Json, indent: nat, x: string, y: string)
    requires Pretty(v, indent) + x == Pretty(w, indent) + y
    ensures v.Null? == w.Null? && v.Bool? == w.Bool? && v.Num? == w.Num?
    ensures v.Str? == w.Str? && v.Arr? == w.Arr? && v.Obj? == w.Obj?
  {
    PrettyStarts(v, indent, x);
    PrettyStarts(w, indent, y);
    FirstCharacter(v);
    FirstCharacter(w);
  }

  // ----- Lists -----

  /** What follows the first item. */
  function ItemsRest(items: seq<Json>, indent: nat, x: string): string
    requires items != []
  {
    if |items| == 1 then x else ",\n" + (PrettyItems(items[1..], indent) + x)
  }

  lemma ItemsShape(items: seq<Json>, indent: nat, x: string)
    requires items != []
    ensures PrettyItems(items, indent) + x == Spaces(indent) + (Pretty(items[0], indent) + ItemsRest(items, indent, x))
  {
    var s, v, sep, r := Spaces(indent), Pretty(items[0], indent), if |items| == 1 then "" else ",\n", PrettyItems(items[1..], indent);
    Assoc(s + v + sep, r, x);
    Assoc(s + v, sep, r + x);
    Assoc(s, v, sep + (r + x));
    if |items| == 1 { assert sep + (r + x) == x; }
  }

  function MembersRest(ms: seq<Member>, indent: nat, x: string): string
    requires ms != []
  {
    if |ms| == 1 then x else ",\n" + (PrettyMembers(ms[1..], indent) + x)
  }

  lemma MembersShape(ms: seq<Member>, indent: nat, x: string)
    requires ms != []
    ensures PrettyMembers(ms, indent) + x ==
            (Spaces(indent) + "\"") + (Quoted(ms[0].key) + (": " + (Pretty(ms[0].value, indent) + MembersRest(ms, indent, x))))
  {
    var s, k, v := Spaces(indent) + "\"", Quoted(ms[0].key), Pretty(ms[0].value, indent);
    var sep, r := if |ms| == 1 then "" else ",\n", PrettyMembers(ms[1..], indent);
    Assoc(s + k + ": " + v + sep, r, x);
    Assoc(s + k + ": " + v, sep, r + x);
    Assoc(s + k + ": ", v, sep + (r + x));
    Assoc(s + k, ": ", v + (sep + (r + x)));
    Assoc(s, k, ": " + (v + (sep + (r + x))));
    if |ms| == 1 { assert sep + (r + x) == x; }
  }

  /** The end of a list's body, before its closing bracket. */
  predicate Closes(x: string) { x != "" && x[0] == '\n' }

  /** Equal rests have equally many items left: a comma or the end of the list. */
  lemma SameRest(a: seq<Json>, b: seq<Json>, indent: nat, x: string, y: string)
    requires a != [] && b != [] && Closes(x) && Closes(y)
    requires ItemsRest(a, indent, x) == ItemsRest(b, indent, y)
    ensures (|a| == 1 <==> |b| == 1) && (|a| == 1 ==> x == y)
    ensures |a| > 1 ==> PrettyItems(a[1..], indent) + x == PrettyItems(b[1..], indent) + y
  {
    if |a| > 1 && |b| > 1 { Cancel(",\n", PrettyItems(a[1..], indent) + x, PrettyItems(b[1..], indent) + y); }
  }

  lemma SameMembersRest(a: seq<Member>, b: seq<Member>, indent: nat, x: string, y: string)
    requires a != [] && b != [] && Closes(x) && Closes(y)
    requires MembersRest(a, indent, x) == MembersRest(b, indent, y)
    ensures (|a| == 1 <==> |b| == 1) && (|a| == 1 ==> x == y)
    ensures |a| > 1 ==> PrettyMembers(a[1..], indent) + x == PrettyMembers(b[1..], indent) + y
  {
    if |a| > 1 && |b| > 1 { Cancel(",\n", PrettyMembers(a[1..], indent) + x, PrettyMembers(b[1..], indent) + y); }
  }

  // ----- Values -----

  function ArrayBody(items: seq<Json>, indent: nat, x: string): string {
    if items == [] then "]" + x else "\n" + (PrettyItems(items, indent + 2) + ("\n" + (Spaces(indent) + ("]" + x))))
  }

  lemma ArrayShape(items: seq<Json>, indent: nat, x: string)
    ensures Pretty(Arr(items), indent) + x == "[" + ArrayBody(items, indent, x)
  {
    if items == [] {
      assert "[]" + x == "[" + ("]" + x);
    } else {
      var l, s := PrettyItems(items, indent + 2), Spaces(indent);
      Assoc("[\n" + l + "\n" + s, "]", x);
      Assoc("[\n" + l + "\n", s, "]" + x);
      Assoc("[\n" + l, "\n", s + ("]" + x));
      Assoc("[\n", l, "\n" + (s + ("]" + x)));
      Assoc("[", "\n", l + ("\n" + (s + ("]" + x))));
    }
  }

  function ObjectBody(ms: seq<Member>, indent: nat, x: string): string {
    if ms == [] then "}" + x else "\n" + (PrettyMembers(ms, indent + 2) + ("\n" + (Spaces(indent) + ("}" + x))))
  }

  lemma ObjectShape(ms: seq<Member>, indent: nat, x: string)
    ensures Pretty(Obj(ms), indent) + x == "{" + ObjectBody(ms, indent, x)
  {
    if ms == [] {
      assert "{}" + x == "{" + ("}" + x);
    } else {
      var l, s := PrettyMembers(ms, indent + 2), Spaces(indent);
      Assoc("{\n" + l + "\n" + s, "}", x);
      Assoc("{\n" + l + "\n", s, "}" + x);
      Assoc("{\n" + l, "\n", s + ("}" + x));
      Assoc("{\n", l, "\n" + (s + ("}" + x)));
      Assoc("{", "\n", l + ("\n" + (s + ("}" + x))));
    }
  }

  /** The closing line of a list, and what follows it. */
  lemma SameClosing(indent: nat, bracket: string, x: string, y: string)
    requires "\n" + (Spaces(indent) + (bracket + x)) == "\n" + (Spaces(indent) + (bracket + y))
    ensures x == y
  {
    Cancel("\n", Spaces(indent) + (bracket + x), Spaces(indent) + (bracket + y));
    Cancel(Spaces(indent), bracket + x, bracket + y);
    Cancel(bracket, x, y);
  }

  /** A printed value is read back in one way only, whatever follows it. */
  lemma {:induction false} PrettyReads(v: Json, w: Json, indent: nat, x: string, y: string)
    requires Pretty(v, indent) + x == Pretty(w, indent) + y && Delimited(x) && Delimited(y)
    ensures v == w && x == y
    decreases v, 2
  {
    SameKind(v, w, indent, x, y);
    match v
    case Arr(items) =>
      ArrayShape(items, indent, x);
      ArrayShape(w.items, indent, y);
      Cancel("[", ArrayBody(items, indent, x), ArrayBody(w.items, indent, y));
      ArraysRead(items, w.items, indent, x, y);
    case Obj(members) =>
      ObjectShape(members, indent, x);
      ObjectShape(w.members, indent, y);
      Cancel("{", ObjectBody(members, indent, x), ObjectBody(w.members, indent, y));
      ObjectsRead(members, w.members, indent, x, y);
    case _ => CompactReads(v, w, x, y);
  }

  lemma {:induction false} ArraysRead(a: seq<Json>, b: seq<Json>, indent: nat, x: string, y: string)
    requires ArrayBody(a, indent, x) == ArrayBody(b, indent, y)
    ensures a == b && x == y
    decreases a, 1
  {
    if a == [] {
      assert ArrayBody(b, indent, y)[0] == ']';
      Cancel("]", x, y);
    } else {
      assert ArrayBody(a, indent, x)[0] == '\n';
      assert b != [];
      var ca, cb := "\n" + (Spaces(indent) + ("]" + x)), "\n" + (Spaces(indent) + ("]" + y));
      Cancel("\n", PrettyItems(a, indent + 2) + ca, PrettyItems(b, indent + 2) + cb);
      ItemsRead(a, b, indent + 2, ca, cb);
      SameClosing(indent, "]", x, y);
    }
  }

  lemma {:induction false} ItemsRead(a: seq<Json>, b: seq<Json>, indent: nat, x: string, y: string)
    requires a != [] && b != [] && Closes(x) && Closes(y) && PrettyItems(a, indent) + x == PrettyItems(b, indent) + y
    ensures a == b && x == y
    decreases a, 0
  {
    var ra, rb := ItemsRest(a, indent, x), ItemsRest(b, indent, y);
    ItemsShape(a, indent, x);
    ItemsShape(b, indent, y);
    Cancel(Spaces(indent), Pretty(a[0], indent) + ra, Pretty(b[0], indent) + rb);
    PrettyReads(a[0], b[0], indent, ra, rb);
    SameRest(a, b, indent, x, y);
    if |a| > 1 { ItemsRead(a[1..], b[1..], indent, x, y); }
    SameList(a, b);
  }

  lemma SameList(a: seq<Json>, b: seq<Json>)
    requires a != [] && b != [] && a[0] == b[0] && a[1..] == b[1..]
    ensures a == b
  {
    assert a == [a[0]] + a[1..] && b == [b[0]] + b[1..];
  }

  lemma {:induction false} ObjectsRead(a: seq<Member>, b: seq<Member>, indent: nat, x: string, y: string)
    requires ObjectBody(a, indent, x) == ObjectBody(b, indent, y)
    ensures a == b && x == y
    decreases a, 1
  {
    if a == [] {
      assert ObjectBody(b, indent, y)[0] == '}';
      Cancel("}", x, y);
    } else {
      assert ObjectBody(a, indent, x)[0] == '\n';
      assert b != [];
      var ca, cb := "\n" + (Spaces(indent) + ("}" + x)), "\n" + (Spaces(indent) + ("}" + y));
      Cancel("\n", PrettyMembers(a, indent + 2) + ca, PrettyMembers(b, indent + 2) + cb);
      MembersRead(a, b, indent + 2, ca, cb);
      SameClosing(indent, "}", x, y);
    }
  }

  lemma {:induction false} MembersRead(a: seq<Member>, b: seq<Member>, indent: nat, x: string, y: string)
    requires a != [] && b != [] && Closes(x) && Closes(y) && PrettyMembers(a, indent) + x == PrettyMembers(b, indent) + y
    ensures a == b && x == y
    decreases a, 0
  {
    assert a[0] in a;
    var ra, rb := MembersRest(a, indent, x), MembersRest(b, indent, y);
    var va, vb := Pretty(a[0].value, indent) + ra, Pretty(b[0].value, indent) + rb;
    MembersShape(a, indent, x);
    MembersShape(b, indent, y);
    Cancel(Spaces(indent) + "\"", Quoted(a[0].key) + (": " + va), Quoted(b[0].key) + (": " + vb));
    QuotedReads(a[0].key, b[0].key, ": " + va, ": " + vb);
    Cancel(": ", va, vb);
    PrettyReads(a[0].value, b[0].value, indent, ra, rb);
    SameMembersRest(a, b, indent, x, y);
    if |a| > 1 { MembersRead(a[1..], b[1..], indent, x, y); }
    assert a == [a[0]] + a[1..] && b == [b[0]] + b[1..];
  }

  /** The value that a text was printed from, if there is one. */
  ghost function ReadPretty(text: string): Option<Json> {
    if exists v :: Pretty(v, 0) + "\n" == text
    then var v :| Pretty(v, 0) + "\n" == text; Some(v)
    else None
  }

  /** There is only one, so reading undoes printing. */
  lemma ReadsWhatWasPrinted(v: Json)
    ensures ReadPretty(Pretty(v, 0) + "\n") == Some(v)
  {
    var w := ReadPretty(Pretty(v, 0) + "\n").value;
    PrettyReads(v, w, 0, "\n", "\n");
  }
}
