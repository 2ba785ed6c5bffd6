/** The patterns of manifest fields, letter by letter, and the file names that are refused. */
module ManifestPatterns {
  import opened Options
  import opened Text
  import opened Manifest

  const SMALL := "abcdefghijklmnopqrstuvwxyz"
  const CAPITAL := "ABCDEFGHIJKLMNOPQRSTUVWXYZ"
  const DIGITS := "0123456789"

  predicate Only(s: string, alphabet: string) { forall i | 0 <= i < |s| :: s[i] in alphabet }

  lemma LettersAre(c: char)
    ensures IsLowerLetter(c) <==> c in SMALL
    ensures 'A' <= c <= 'Z' <==> c in CAPITAL
    ensures IsDecimal(c) <==> c in DIGITS
  {
    SmallLetter(c);
    CapitalLetter(c);
  }

  lemma SmallLetter(c: char)
    ensures 'a' <= c <= 'z' <==> c in SMALL
  {
    if 'a' <= c <= 'z' { assert SMALL[c as int - 'a' as int] == c; }
  }

  lemma CapitalLetter(c: char)
    ensures 'A' <= c <= 'Z' <==> c in CAPITAL
  {
    if 'A' <= c <= 'Z' { assert CAPITAL[c as int - 'A' as int] == c; }
  }

  /** `^[a-z][a-z0-9_-]{0,63}$`. */
  lemma IdentifierIff(s: string)
    ensures IsIdentifier(s) <==> 1 <= |s| <= 64 && s[0] in SMALL && Only(s, SMALL + DIGITS + "_-")
  {
    forall i | 0 <= i < |s| { LettersAre(s[i]); }
  }

  /** `^[A-Za-z0-9][A-Za-z0-9._-]{0,127}$`. */
  lemma FilenameIff(s: string)
    ensures IsFilename(s) <==> 1 <= |s| <= 128 && s[0] in SMALL + CAPITAL + DIGITS && Only(s, SMALL + CAPITAL + DIGITS + "._-")
  {
    forall i | 0 <= i < |s| { LettersAre(s[i]); }
  }

  /** `^[A-Za-z0-9][A-Za-z0-9._:-]{0,159}$`. */
  lemma ReferenceIff(s: string)
    ensures IsReference(s) <==> 1 <= |s| <= 160 && s[0] in SMALL + CAPITAL + DIGITS && Only(s, SMALL + CAPITAL + DIGITS + "._:-")
  {
    forall i | 0 <= i < |s| { LettersAre(s[i]); }
  }

  /** `^[a-f0-9]{64}$`. */
  lemma Sha256Iff(s: string)
    ensures IsSha256(s) <==> |s| == 64 && Only(s, "0123456789abcdef")
  {}

  // ----- Forbidden names -----

  /** The name is `pre`, then a forbidden word in letters of any size, then `post`, and the word is
      set off by the ends of the name or by one of `.`, `_` and `-`. */
  predicate HoldsWord(s: string, pre: string, mid: string, post: string) {
    && s == pre + mid + post
    && Lower(mid) in ["credential", "credentials", "env", "private", "secret", "settings", "token"]
    && (pre == "" || pre[|pre| - 1] in "._-") && (post == "" || post[0] in "._-")
  }

  /** The name holds `VASI.settings` in letters of any size. */
  predicate HoldsSettings(s: string, pre: string, mid: string, post: string) {
    s == pre + mid + post && Lower(mid) == "vasi.settings"
  }

  lemma LowerSlice(s: string, i: nat, j: nat)
    requires i <= j <= |s|
    ensures Lower(s)[i..j] == Lower(s[i..j])
  {}

  lemma SeparatorsStay(c: char)
    ensures LowerChar(c) in "._-" <==> c in "._-"
  {}

  lemma WordsHaveLength(w: string)
    requires w in FORBIDDEN_WORDS
    ensures w != ""
  {}

  lemma WordFound(s: string, w: string, i: nat)
    requires w in FORBIDDEN_WORDS && i < |s| && WordAt(Lower(s), w, i)
    ensures HoldsWord(s, s[..i], s[i..i + |w|], s[i + |w|..])
  {
    var pre, mid, post := s[..i], s[i..i + |w|], s[i + |w|..];
    LowerSlice(s, i, i + |w|);
    if i > 0 { SeparatorsStay(s[i - 1]); }
    if i + |w| < |s| { SeparatorsStay(s[i + |w|]); }
    assert s == pre + mid + post;
  }

  lemma WordMakesForbidden(s: string, pre: string, mid: string, post: string)
    requires HoldsWord(s, pre, mid, post)
    ensures IsForbiddenName(s)
  {
    var i, w := |pre|, Lower(mid);
    assert w in FORBIDDEN_WORDS;
    WordsHaveLength(w);
    assert s[i..i + |w|] == mid;
    LowerSlice(s, i, i + |w|);
    if i > 0 { SeparatorsStay(s[i - 1]); }
    if i + |w| < |s| { SeparatorsStay(s[i + |w|]); }
    assert WordAt(Lower(s), w, i);
  }

  lemma SettingsMakeForbidden(s: string, pre: string, mid: string, post: string)
    requires HoldsSettings(s, pre, mid, post)
    ensures IsForbiddenName(s)
  {
    var i := |pre|;
    assert s[i..i + 13] == mid;
    LowerSlice(s, i, i + 13);
    assert SettingsFileAt(Lower(s), i);
  }

  lemma SettingsFound(s: string, i: nat)
    requires SettingsFileAt(Lower(s), i)
    ensures i + 13 <= |s| && HoldsSettings(s, s[..i], s[i..i + 13], s[i + 13..])
  {
    LowerSlice(s, i, i + 13);
    assert s == s[..i] + s[i..i + 13] + s[i + 13..];
  }

  /** Exactly the names that hold one of these words are refused. */
  lemma ForbiddenIff(s: string)
    ensures IsForbiddenName(s) <==>
            exists pre, mid, post :: HoldsWord(s, pre, mid, post) || HoldsSettings(s, pre, mid, post)
  {
    if IsForbiddenName(s) { ForbiddenHolds(s); }
    if pre, mid, post :| HoldsWord(s, pre, mid, post) || HoldsSettings(s, pre, mid, post) {
      if HoldsWord(s, pre, mid, post) { WordMakesForbidden(s, pre, mid, post); } else { SettingsMakeForbidden(s, pre, mid, post); }
    }
  }

  lemma ForbiddenHolds(s: string)
    requires IsForbiddenName(s)
    ensures exists pre, mid, post :: HoldsWord(s, pre, mid, post) || HoldsSettings(s, pre, mid, post)
  {
    var lower := Lower(s);
    if w, i :| w in FORBIDDEN_WORDS && 0 <= i < |lower| && WordAt(lower, w, i) {
      WordFound(s, w, i);
    } else {
      var i :| 0 <= i < |lower| && SettingsFileAt(lower, i);
      SettingsFound(s, i);
    }
  }

  // ----- Extensions -----

  lemma {:induction false} LastDotOf(base: string, ext: string)
    requires '.' !in ext
    ensures LastDot(base + "." + ext) == |base|
  {
    var s := base + "." + ext;
    if ext == "" {
      assert s[|s| - 1] == '.';
    } else {
      assert s[|s| - 1] == ext[|ext| - 1];
      assert s[..|s| - 1] == base + "." + ext[..|ext| - 1];
      LastDotOf(base, ext[..|ext| - 1]);
    }
  }

  /** The extension starts at the last dot, in small letters. */
  lemma ExtensionOf(base: string, ext: string)
    requires '.' !in ext
    ensures Extension(base + "." + ext) == Lower("." + ext)
  {
    LastDotOf(base, ext);
    var s := base + "." + ext;
    assert s[|base|..] == "." + ext;
  }

  lemma {:induction false} NoDot(s: string)
    requires '.' !in s
    ensures LastDot(s) == -1
  {
    if s != "" { NoDot(s[..|s| - 1]); }
  }

  /** Without a dot it is the last character, as JavaScript slices from -1. */
  lemma ExtensionWithoutDot(s: string)
    requires s != "" && '.' !in s
    ensures Extension(s) == Lower([s[|s| - 1]])
  {
    NoDot(s);
    assert s[|s| - 1..] == [s[|s| - 1]];
  }
}
