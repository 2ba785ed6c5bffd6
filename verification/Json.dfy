/** JSON values, their canonical form with sorted keys, and the compact printer
    `JSON.stringify` with its escapes; numbers are the non-negative integers that the
    gateway's canonical documents hold. */
module Json {
  import opened Text

  datatype Json =
    | Null
    | Bool(b: bool)
    | Num(n: nat)
    | Str(s: string)
    | Arr(items: seq<Json>)
    | Obj(members: seq<Member>)

  datatype Member = Member(key: string, value: Json)

  // ----- Sorting by key -----

  /** The order of `Array.prototype.sort` on strings. */
  predicate Less(a: string, b: string) {
    if b == "" then false
    else if a == "" then true
    else a[0] < b[0] || (a[0] == b[0] && Less(a[1..], b[1..]))
  }

  lemma {:induction false} LessIsTotal(a: string, b: string)
    ensures a == b || Less(a, b) || Less(b, a)
    ensures !(Less(a, b) && Less(b, a)) && !Less(a, a)
  {
    if a != "" && b != "" {
      LessIsTotal(a[1..], b[1..]);
      assert a == [a[0]] + a[1..] && b == [b[0]] + b[1..];
    }
    if a != "" { LessIsTotal(a[1..], a[1..]); }
  }

  lemma {:induction false} LessIsTransitive(a: string, b: string, c: string)
    requires Less(a, b) && Less(b, c)
    ensures Less(a, c)
  {
    if a != "" && a[0] == b[0] == c[0] { LessIsTransitive(a[1..], b[1..], c[1..]); }
  }

  function InsertMember(m: Member, ms: seq<Member>): seq<Member> {
    if ms == [] || !Less(ms[0].key, m.key) then [m] + ms
    else [ms[0]] + InsertMember(m, ms[1..])
  }

  function SortMembers(ms: seq<Member>): seq<Member> {
    if ms == [] then [] else InsertMember(ms[0], SortMembers(ms[1..]))
  }

  predicate Sorted(ms: seq<Member>) {
    forall i, j | 0 <= i < j < |ms| :: !Less(ms[j].key, ms[i].key)
  }

  predicate DistinctKeys(ms: seq<Member>) {
    forall i, j | 0 <= i < j < |ms| :: ms[i].key != ms[j].key
  }

  lemma {:induction false} InsertIsPermutation(m: Member, ms: seq<Member>)
    ensures multiset(InsertMember(m, ms)) == multiset(ms) + multiset{m}
  {
    if ms != [] && Less(ms[0].key, m.key) {
      InsertIsPermutation(m, ms[1..]);
      assert ms == [ms[0]] + ms[1..];
    }
  }

  /** A member no greater than those of a sorted list may go in front. */
  lemma SortedCons(m: Member, ms: seq<Member>)
    requires Sorted(ms) && forall x | x in ms :: !Less(x.key, m.key)
    ensures Sorted([m] + ms)
  {
    assert forall i | 0 <= i < |ms| :: ms[i] in ms;
  }

  lemma {:induction false} InsertKeepsSorted(m: Member, ms: seq<Member>)
    requires Sorted(ms)
    ensures Sorted(InsertMember(m, ms))
  {
    if ms == [] {
    } else if Less(ms[0].key, m.key) {
      TailMembers(ms);
      InsertKeepsSorted(m, ms[1..]);
      InsertIsPermutation(m, ms[1..]);
      LessIsTotal(ms[0].key, m.key);
      var r := InsertMember(m, ms[1..]);
      forall x | x in r ensures !Less(x.key, ms[0].key) {
        assert x in multiset(r);
        if x != m {
          assert x in multiset(ms[1..]);
          HeadIsLeast(ms, x);
        }
      }
      SortedCons(ms[0], r);
    } else {
      forall x | x in ms ensures !Less(x.key, m.key) {
        HeadIsLeast(ms, x);
        NotLessTransitive(m.key, ms[0].key, x.key);
      }
      SortedCons(m, ms);
    }
  }

  /** `<=` is transitive, told through its negation. */
  lemma NotLessTransitive(a: string, b: string, c: string)
    requires !Less(b, a) && !Less(c, b)
    ensures !Less(c, a)
  {
    LessIsTotal(a, b);
    LessIsTotal(b, c);
    LessIsTotal(a, c);
    if Less(a, b) && Less(b, c) { LessIsTransitive(a, b, c); }
  }

  lemma {:induction false} SortSorts(ms: seq<Member>)
    ensures Sorted(SortMembers(ms)) && multiset(SortMembers(ms)) == multiset(ms)
  {
    if ms != [] {
      SortSorts(ms[1..]);
      InsertKeepsSorted(ms[0], SortMembers(ms[1..]));
      InsertIsPermutation(ms[0], SortMembers(ms[1..]));
      assert ms == [ms[0]] + ms[1..];
    }
  }

  lemma {:induction false} SortOfSorted(ms: seq<Member>)
    requires Sorted(ms)
    ensures SortMembers(ms) == ms
  {
    if ms != [] {
      SortOfSorted(ms[1..]);
      assert ms == [ms[0]] + ms[1..];
      assert |ms| > 1 ==> !Less(ms[1].key, ms[0].key);
    }
  }

  lemma TailMembers(a: seq<Member>)
    requires a != []
    ensures multiset(a[1..]) == multiset(a) - multiset{a[0]}
    ensures Sorted(a) ==> Sorted(a[1..])
    ensures DistinctKeys(a) ==> DistinctKeys(a[1..])
  {
    assert a == [a[0]] + a[1..];
  }

  lemma HeadIsLeast(a: seq<Member>, m: Member)
    requires Sorted(a) && m in a
    ensures !Less(m.key, a[0].key)
  {
    LessIsTotal(m.key, m.key);
  }

  lemma OnlyMemberOfKey(a: seq<Member>, m: Member)
    requires DistinctKeys(a) && m in a && m.key == a[0].key
    ensures m == a[0]
  {}

  lemma SameHead(a: seq<Member>, b: seq<Member>)
    requires Sorted(a) && Sorted(b) && DistinctKeys(a) && a != [] && b != [] && a[0] in b && b[0] in a
    ensures a[0] == b[0]
  {
    HeadIsLeast(b, a[0]);
    HeadIsLeast(a, b[0]);
    LessIsTotal(a[0].key, b[0].key);
    OnlyMemberOfKey(a, b[0]);
  }

  /** A sorted list with distinct keys is determined by its members. */
  lemma {:induction false} SortedIsUnique(a: seq<Member>, b: seq<Member>)
    requires Sorted(a) && Sorted(b) && DistinctKeys(a) && multiset(a) == multiset(b)
    ensures a == b
    decreases |a|
  {
    assert |a| == |multiset(a)| == |multiset(b)| == |b|;
    if a != [] {
      assert a[0] in b && b[0] in a by { assert a[0] in multiset(a) && b[0] in multiset(b); }
      SameHead(a, b);
      TailMembers(a);
      TailMembers(b);
      SortedIsUnique(a[1..], b[1..]);
      assert a == [a[0]] + a[1..] && b == [b[0]] + b[1..];
    }
  }

  lemma {:induction false} SortKeepsDistinct(ms: seq<Member>)
    requires DistinctKeys(ms)
    ensures DistinctKeys(SortMembers(ms))
  {
    if ms != [] {
      SortKeepsDistinct(ms[1..]);
      SortSorts(ms[1..]);
      var rest := SortMembers(ms[1..]);
      forall i | 0 <= i < |rest| ensures rest[i].key != ms[0].key {
        assert rest[i] in multiset(ms[1..]);
        var k :| 0 <= k < |ms[1..]| && ms[1..][k] == rest[i];
        assert ms[k + 1] == rest[i];
      }
      InsertKeepsDistinct(ms[0], rest);
    }
  }

  lemma {:induction false} InsertKeepsDistinct(m: Member, ms: seq<Member>)
    requires DistinctKeys(ms) && forall i | 0 <= i < |ms| :: ms[i].key != m.key
    ensures DistinctKeys(InsertMember(m, ms))
  {
    if ms != [] && Less(ms[0].key, m.key) {
      var rest := ms[1..];
      assert forall i | 0 <= i < |rest| :: rest[i] == ms[i + 1];
      InsertKeepsDistinct(m, rest);
      InsertIsPermutation(m, rest);
      var r := InsertMember(m, rest);
      forall i | 0 <= i < |r| ensures r[i].key != ms[0].key {
        assert r[i] in multiset(r);
        if r[i] != m {
          var k :| 0 <= k < |rest| && rest[k] == r[i];
          assert ms[k + 1] == r[i];
        }
      }
    }
  }

  /** Members in another order sort to the same list. */
  lemma SortForgetsOrder(a: seq<Member>, b: seq<Member>)
    requires DistinctKeys(a) && multiset(a) == multiset(b)
    ensures SortMembers(a) == SortMembers(b)
  {
    SortSorts(a);
    SortSorts(b);
    SortKeepsDistinct(a);
    SortedIsUnique(SortMembers(a), SortMembers(b));
  }

  // ----- The canonical form -----

  function Canonical(v: Json): Json
    decreases v, 1
  {
    match v
    case Arr(items) => Arr(CanonicalItems(items))
    case Obj(members) => Obj(SortMembers(CanonicalMembers(members)))
    case _ => v
  }

  function CanonicalItems(items: seq<Json>): (r: seq<Json>)
    ensures |r| == |items|
    decreases items, 0
  {
    if items == [] then [] else [Canonical(items[0])] + CanonicalItems(items[1..])
  }

  function CanonicalMembers(ms: seq<Member>): (r: seq<Member>)
    ensures |r| == |ms|
    ensures forall i | 0 <= i < |ms| :: r[i].key == ms[i].key
    decreases ms, 0
  {
    if ms == [] then []
    else
      assert ms[0] in ms;
      [Member(ms[0].key, Canonical(ms[0].value))] + CanonicalMembers(ms[1..])
  }

  lemma {:induction false} InsertCommutes(m: Member, ms: seq<Member>)
    ensures CanonicalMembers(InsertMember(m, ms)) ==
            InsertMember(Member(m.key, Canonical(m.value)), CanonicalMembers(ms))
  {
    var m' := Member(m.key, Canonical(m.value));
    if ms == [] || !Less(ms[0].key, m.key) {
      assert ([m] + ms)[1..] == ms;
    } else {
      InsertCommutes(m, ms[1..]);
      var r := [ms[0]] + InsertMember(m, ms[1..]);
      assert r[1..] == InsertMember(m, ms[1..]);
      var c := CanonicalMembers(ms);
      assert c[1..] == CanonicalMembers(ms[1..]);
    }
  }

  lemma {:induction false} SortCommutes(ms: seq<Member>)
    ensures CanonicalMembers(SortMembers(ms)) == SortMembers(CanonicalMembers(ms))
  {
    if ms != [] {
      SortCommutes(ms[1..]);
      InsertCommutes(ms[0], SortMembers(ms[1..]));
      assert CanonicalMembers(ms)[1..] == CanonicalMembers(ms[1..]);
    }
  }

  /** Canonicalisation is idempotent. */
  lemma {:induction false} CanonicalIsIdempotent(v: Json)
    ensures Canonical(Canonical(v)) == Canonical(v)
    decreases v, 1
  {
    match v
    case Arr(items) => ItemsIdempotent(items);
    case Obj(members) =>
      MembersIdempotent(members);
      var c := CanonicalMembers(members);
      SortCommutes(c);
      SortSorts(c);
      SortOfSorted(SortMembers(c));
    case _ =>
  }

  lemma {:induction false} ItemsIdempotent(items: seq<Json>)
    ensures CanonicalItems(CanonicalItems(items)) == CanonicalItems(items)
    decreases items, 0
  {
    if items != [] {
      CanonicalIsIdempotent(items[0]);
      ItemsIdempotent(items[1..]);
      assert CanonicalItems(items)[1..] == CanonicalItems(items[1..]);
    }
  }

  lemma {:induction false} MembersIdempotent(ms: seq<Member>)
    ensures CanonicalMembers(CanonicalMembers(ms)) == CanonicalMembers(ms)
    decreases ms, 0
  {
    if ms != [] {
      assert ms[0] in ms;
      CanonicalIsIdempotent(ms[0].value);
      MembersIdempotent(ms[1..]);
      assert CanonicalMembers(ms)[1..] == CanonicalMembers(ms[1..]);
    }
  }

  /** The order in which an object's members are written does not matter. */
  lemma CanonicalForgetsOrder(a: seq<Member>, b: seq<Member>)
    requires DistinctKeys(a) && multiset(a) == multiset(b)
    ensures Canonical(Obj(a)) == Canonical(Obj(b))
  {
    SortForgetsOrder(a, b);
    SortCommutes(a);
    SortCommutes(b);
  }

  lemma {:induction false} CanonicalAppend(ms: seq<Member>, d: Member)
    ensures CanonicalMembers(ms + [d]) == CanonicalMembers(ms) + [Member(d.key, Canonical(d.value))]
  {
    if ms == [] {
      assert [] + [d] == [d] && [d][1..] == [];
    } else {
      CanonicalAppend(ms[1..], d);
      assert (ms + [d])[1..] == ms[1..] + [d];
    }
  }

  /** Objects with the same canonical form still have the same one after gaining the same member. */
  lemma CanonicalExtends(a: seq<Member>, b: seq<Member>, d: Member)
    requires Canonical(Obj(a)) == Canonical(Obj(b)) && DistinctKeys(a + [d])
    ensures Canonical(Obj(a + [d])) == Canonical(Obj(b + [d]))
  {
    SortSorts(CanonicalMembers(a));
    SortSorts(CanonicalMembers(b));
    CanonicalAppend(a, d);
    CanonicalAppend(b, d);
    var ca, cb := CanonicalMembers(a + [d]), CanonicalMembers(b + [d]);
    assert multiset(ca) == multiset(cb);
    CanonicalKeepsDistinct(a + [d]);
    SortForgetsOrder(ca, cb);
  }

  lemma CanonicalKeepsDistinct(ms: seq<Member>)
    requires DistinctKeys(ms)
    ensures DistinctKeys(CanonicalMembers(ms))
  {}

  // ----- The compact printer -----

  /** The escapes of `JSON.stringify`. */
  function Escaped(c: char): (e: string)
    ensures e != ""
  {
    if c == '"' then "\\\""
    else if c == '\\' then "\\\\"
    else if c == '\U{0008}' then "\\b"
    else if c == '\t' then "\\t"
    else if c == '\n' then "\\n"
    else if c == '\U{000C}' then "\\f"
    else if c == '\r' then "\\r"
    else if c < ' ' then "\\u00" + [DigitChar(c as int / 16), DigitChar(c as int % 16)]
    else [c]
  }

  /** The characters of a string, escaped, and the closing quote. */
  function Quoted(s: string): string {
    if s == "" then "\"" else Escaped(s[0]) + Quoted(s[1..])
  }

  function Compact(v: Json): (t: string)
    ensures t != ""
    decreases v, 1
  {
    match v
    case Null => "null"
    case Bool(b) => if b then "true" else "false"
    case Num(n) => Numeral(n, 10)
    case Str(s) => "\"" + Quoted(s)
    case Arr(items) => "[" + CompactItems(items, true)
    case Obj(members) => "{" + CompactMembers(members, true)
  }

  function CompactItems(items: seq<Json>, first: bool): (t: string)
    ensures t != ""
    decreases items, 0
  {
    if items == [] then "]"
    else (if first then "" else ",") + Compact(items[0]) + CompactItems(items[1..], false)
  }

  function CompactMembers(ms: seq<Member>, first: bool): (t: string)
    ensures t != ""
    decreases ms, 0
  {
    if ms == [] then "}"
    else
      assert ms[0] in ms;
      (if first then "" else ",") + ("\"" + Quoted(ms[0].key)) + ":" + Compact(ms[0].value) + CompactMembers(ms[1..], false)
  }

  // ----- Unique readability -----

  /** No digit can continue the number before `rest`. */
  predicate Delimited(rest: string) { rest == "" || !IsDigit(rest[0], 10) }

  lemma Cancel(head: string, x: string, y: string)
    requires head + x == head + y
    ensures x == y
  {
    assert (head + x)[|head|..] == x && (head + y)[|head|..] == y;
  }

  lemma EscapedReads(c: char, d: char, x: string, y: string)
    requires Escaped(c) + x == Escaped(d) + y
    ensures c == d && x == y
  {
    var a, b := Escaped(c), Escaped(d);
    assert a[0] == (a + x)[0] == (b + y)[0] == b[0];
    assert |a| > 1 ==> a[1] == (a + x)[1];
    assert |b| > 1 ==> b[1] == (b + y)[1];
    if |a| == 6 && |b| == 6 {
      assert a[4] == (a + x)[4] == (b + y)[4] == b[4] && a[5] == (a + x)[5] == (b + y)[5] == b[5];
    }
    Cancel(a, x, y);
  }

  /** The closing quote is not mistaken for an escaped character. */
  lemma QuotedStarts(s: string, x: string)
    ensures Quoted(s) != "" && ((Quoted(s) + x)[0] == '"' <==> s == "")
  {
    if s != "" {
      assert (Quoted(s) + x)[0] == Escaped(s[0])[0];
    }
  }

  lemma QuotedPeels(s: string, x: string)
    requires s != ""
    ensures Quoted(s) + x == Escaped(s[0]) + (Quoted(s[1..]) + x)
  {
    Assoc(Escaped(s[0]), Quoted(s[1..]), x);
  }

  lemma {:induction false} QuotedReads(s: string, t: string, x: string, y: string)
    requires Quoted(s) + x == Quoted(t) + y
    ensures s == t && x == y
  {
    QuotedStarts(s, x);
    QuotedStarts(t, y);
    if s == "" {
      Cancel("\"", x, y);
    } else {
      QuotedPeels(s, x);
      QuotedPeels(t, y);
      EscapedReads(s[0], t[0], Quoted(s[1..]) + x, Quoted(t[1..]) + y);
      QuotedReads(s[1..], t[1..], x, y);
      assert s == [s[0]] + s[1..] && t == [t[0]] + t[1..];
    }
  }

  lemma LongerContinues(a: string, x: string, b: string, y: string)
    requires a + x == b + y && |a| < |b|
    ensures x != "" && x[0] == b[|a|]
  {
    assert (a + x)[|a|] == x[0] && (b + y)[|a|] == b[|a|];
  }

  lemma NumeralReads(m: nat, n: nat, x: string, y: string)
    requires Numeral(m, 10) + x == Numeral(n, 10) + y && Delimited(x) && Delimited(y)
    ensures m == n && x == y
  {
    var a, b := Numeral(m, 10), Numeral(n, 10);
    if |a| < |b| { LongerContinues(a, x, b, y); }
    if |b| < |a| { LongerContinues(b, y, a, x); }
    assert a == (a + x)[..|a|] && b == (b + y)[..|b|];
    NumeralInjective(m, n, 10);
    Cancel(a, x, y);
  }

  /** Each kind of value is known by its first character. */
  lemma FirstCharacter(v: Json)
    ensures var c := Compact(v)[0];
            && (c == 'n' <==> v.Null?) && (c == 't' <==> v == Bool(true)) && (c == 'f' <==> v == Bool(false))
            && (IsDigit(c, 10) <==> v.Num?) && (c == '"' <==> v.Str?) && (c == '[' <==> v.Arr?) && (c == '{' <==> v.Obj?)
            && c != ']' && c != ','
  {
    if v.Num? { assert IsDigit(Numeral(v.n, 10)[0], 10); }
  }

  lemma SameFirstCharacter(v: Json, w: Json, x: string, y: string)
    requires Compact(v) + x == Compact(w) + y
    ensures v.Null? == w.Null? && v.Bool? == w.Bool? && v.Num? == w.Num?
    ensures v.Str? == w.Str? && v.Arr? == w.Arr? && v.Obj? == w.Obj?
    ensures v.Bool? ==> v == w
  {
    FirstCharacter(v);
    FirstCharacter(w);
    assert Compact(v)[0] == (Compact(v) + x)[0] == (Compact(w) + y)[0] == Compact(w)[0];
  }

  /** A printed value is read back in one way only, whatever follows it. */
  lemma {:induction false} CompactReads(v: Json, w: Json, x: string, y: string)
    requires Compact(v) + x == Compact(w) + y && Delimited(x) && Delimited(y)
    ensures v == w && x == y
    decreases v, 1
  {
    SameFirstCharacter(v, w, x, y);
    match v
    case Null => Cancel("null", x, y);
    case Bool(b) => Cancel(Compact(v), x, y);
    case Num(n) => NumeralReads(n, w.n, x, y);
    case Str(s) =>
      Strip("\"", Quoted(s), x, Quoted(w.s), y);
      QuotedReads(s, w.s, x, y);
    case Arr(items) =>
      Strip("[", CompactItems(items, true), x, CompactItems(w.items, true), y);
      ItemsRead(items, w.items, true, x, y);
    case Obj(members) =>
      Strip("{", CompactMembers(members, true), x, CompactMembers(w.members, true), y);
      MembersRead(members, w.members, true, x, y);
  }

  lemma Strip(head: string, a: string, x: string, b: string, y: string)
    requires (head + a) + x == (head + b) + y
    ensures a + x == b + y
  {
    assert (head + a) + x == head + (a + x) && (head + b) + y == head + (b + y);
    Cancel(head, a + x, b + y);
  }

  lemma {:induction false} ItemsRead(a: seq<Json>, b: seq<Json>, first: bool, x: string, y: string)
    requires CompactItems(a, first) + x == CompactItems(b, first) + y
    ensures a == b && x == y
    decreases a, 0
  {
    ItemsStart(a, first, x);
    ItemsStart(b, first, y);
    if a == [] {
      Cancel("]", x, y);
    } else {
      var sep := if first then "" else ",";
      var ra, rb := CompactItems(a[1..], false), CompactItems(b[1..], false);
      ItemShape(a, first, x);
      ItemShape(b, first, y);
      Cancel(sep, Compact(a[0]) + (ra + x), Compact(b[0]) + (rb + y));
      ItemsStart(a[1..], false, x);
      ItemsStart(b[1..], false, y);
      CompactReads(a[0], b[0], ra + x, rb + y);
      ItemsRead(a[1..], b[1..], false, x, y);
      assert a == [a[0]] + a[1..] && b == [b[0]] + b[1..];
    }
  }

  lemma ItemShape(items: seq<Json>, first: bool, x: string)
    requires items != []
    ensures CompactItems(items, first) + x ==
            (if first then "" else ",") + (Compact(items[0]) + (CompactItems(items[1..], false) + x))
  {
    var sep, v, r := if first then "" else ",", Compact(items[0]), CompactItems(items[1..], false);
    Assoc(sep + v, r, x);
    Assoc(sep, v, r + x);
  }

  /** The rest of a list starts with its bracket exactly when nothing is left. */
  lemma ItemsStart(items: seq<Json>, first: bool, x: string)
    ensures var t := CompactItems(items, first) + x;
            (t[0] == ']' <==> items == []) && (!first ==> Delimited(t))
  {
    if items != [] {
      FirstCharacter(items[0]);
      ItemShape(items, first, x);
    }
  }

  lemma {:induction false} MembersRead(a: seq<Member>, b: seq<Member>, first: bool, x: string, y: string)
    requires CompactMembers(a, first) + x == CompactMembers(b, first) + y
    ensures a == b && x == y
    decreases a, 0
  {
    MembersStart(a, first, x);
    MembersStart(b, first, y);
    if a == [] {
      Cancel("}", x, y);
    } else {
      assert a[0] in a;
      var sep := if first then "\"" else ",\"";
      var ra, rb := CompactMembers(a[1..], false), CompactMembers(b[1..], false);
      var va, vb := Compact(a[0].value), Compact(b[0].value);
      MemberShape(a, first, x);
      MemberShape(b, first, y);
      Cancel(sep, Quoted(a[0].key) + (":" + (va + (ra + x))), Quoted(b[0].key) + (":" + (vb + (rb + y))));
      QuotedReads(a[0].key, b[0].key, ":" + (va + (ra + x)), ":" + (vb + (rb + y)));
      Cancel(":", va + (ra + x), vb + (rb + y));
      MembersStart(a[1..], false, x);
      MembersStart(b[1..], false, y);
      CompactReads(a[0].value, b[0].value, ra + x, rb + y);
      MembersRead(a[1..], b[1..], false, x, y);
      assert a == [a[0]] + a[1..] && b == [b[0]] + b[1..];
    }
  }

  lemma MemberShape(ms: seq<Member>, first: bool, x: string)
    requires ms != []
    ensures CompactMembers(ms, first) + x ==
            (if first then "\"" else ",\"") +
            (Quoted(ms[0].key) + (":" + (Compact(ms[0].value) + (CompactMembers(ms[1..], false) + x))))
  {
    var q, v, r := Quoted(ms[0].key), Compact(ms[0].value), CompactMembers(ms[1..], false);
    var sep := if first then "" else ",";
    var p := sep + ("\"" + q);
    Assoc(p + ":" + v, r, x);
    Assoc(p + ":", v, r + x);
    Assoc(p, ":", v + (r + x));
    Assoc(sep, "\"", q);
    Assoc(sep + "\"", q, ":" + (v + (r + x)));
    assert sep + "\"" == if first then "\"" else ",\"";
  }

  lemma Assoc(a: string, b: string, c: string)
    ensures a + b + c == a + (b + c)
  {}

  lemma MembersStart(ms: seq<Member>, first: bool, x: string)
    ensures var t := CompactMembers(ms, first) + x;
            (t[0] == '}' <==> ms == []) && (!first ==> Delimited(t))
  {
    if ms != [] { MemberShape(ms, first, x); }
  }

  /** The compact printer is injective. */
  lemma CompactIsInjective(v: Json, w: Json)
    requires Compact(v) == Compact(w)
    ensures v == w
  {
    assert Compact(v) + "" == Compact(w) + "";
    CompactReads(v, w, "", "");
  }

  // ----- The indented printer, `JSON.stringify(v, null, 2)` -----

  function Spaces(n: nat): string { seq(n, _ => ' ') }

  function Pretty(v: Json, indent: nat): string
    decreases v, 1
  {
    match v
    case Arr(items) =>
      if items == [] then "[]" else "[\n" + PrettyItems(items, indent + 2) + "\n" + Spaces(indent) + "]"
    case Obj(members) =>
      if members == [] then "{}" else "{\n" + PrettyMembers(members, indent + 2) + "\n" + Spaces(indent) + "}"
    case _ => Compact(v)
  }

  function PrettyItems(items: seq<Json>, indent: nat): string
    decreases items, 0
  {
    if items == [] then ""
    else Spaces(indent) + Pretty(items[0], indent) + (if |items| == 1 then "" else ",\n") + PrettyItems(items[1..], indent)
  }

  function PrettyMembers(ms: seq<Member>, indent: nat): string
    decreases ms, 0
  {
    if ms == [] then ""
    else
      assert ms[0] in ms;
      Spaces(indent) + "\"" + Quoted(ms[0].key) + ": " + Pretty(ms[0].value, indent)
      + (if |ms| == 1 then "" else ",\n") + PrettyMembers(ms[1..], indent)
  }
}
