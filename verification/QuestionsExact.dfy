/** Exactly which questions and choices the owner console's text format can hold. */
module QuestionsExact {
  import opened Options
  import opened Text
  import opened Questions

  // ----- What a parsed question looks like -----

  /** The shape that parsing alone gives: fields trimmed and free of their separators, though a
      choice may still lack its id or label, and points may be anything. */
  predicate Shaped(q: Question) {
    && Clean(q.id, "|\n") && Clean(q.prompt, "|\n")
    && (forall i | 0 <= i < |q.choices| :: ShapedChoice(q.choices[i]))
    && (forall i | 0 <= i < |q.correct| :: Clean(q.correct[i], "|\n,"))
  }

  predicate ShapedChoice(c: Choice) { Tidy(c.id, "|\n;:") && Tidy(c.text, "|\n;:") }

  lemma TrimmedIsTidy(s: string, separators: string)
    requires Free(s, separators)
    ensures Tidy(Trim(s), separators)
  {
    TrimTrims(s);
    var t := Trim(s);
    forall i | 0 <= i < |t| ensures t[i] !in separators {
      assert t[i] in t;
      var k :| 0 <= k < |s| && s[k] == t[i];
    }
  }

  /** A part of a split is free of the separator and of whatever the whole is free of. */
  lemma PartIsFree(s: string, c: char, p: string, separators: string)
    requires p in Split(s, c) && Free(s, separators)
    ensures Free(p, [c]) && Free(p, separators)
  {
    forall i | 0 <= i < |p| ensures p[i] !in separators && p[i] != c {
      SplitCharacters(s, c, p, p[i]);
      var k :| 0 <= k < |s| && s[k] == p[i];
    }
  }

  lemma FreeOfMore(s: string, a: string, b: string, all: string)
    requires Free(s, a) && Free(s, b) && forall x <- all :: x in a || x in b
    ensures Free(s, all)
  {}

  lemma PartIsTidy(s: string, c: char, p: string, separators: string, all: string)
    requires p in Split(s, c) && Free(s, separators) && forall x <- all :: x == c || x in separators
    ensures Tidy(Trim(p), all)
  {
    PartIsFree(s, c, p, separators);
    FreeOfMore(p, [c], separators, all);
    TrimmedIsTidy(p, all);
  }

  lemma EntryIsShaped(entry: string)
    requires Free(entry, "|\n;") && ParseChoiceEntry(entry).Some?
    ensures ShapedChoice(ParseChoiceEntry(entry).value)
  {
    var parts := Split(entry, ':');
    PartIsTidy(entry, ':', parts[0], "|\n;", "|\n;:");
    PartIsTidy(entry, ':', parts[1], "|\n;", "|\n;:");
  }

  lemma {:induction false} EntriesAreShaped(entries: seq<string>)
    requires forall i | 0 <= i < |entries| :: Free(entries[i], "|\n;")
    ensures forall c <- ParseChoiceEntries(entries) :: ShapedChoice(c)
  {
    if entries != [] {
      EntriesAreShaped(entries[1..]);
      if ParseChoiceEntry(entries[0]).Some? { EntryIsShaped(entries[0]); }
    }
  }

  lemma ChoicesAreShaped(field: string)
    requires Free(field, "|\n")
    ensures forall c <- ParseChoiceEntries(Split(field, ';')) :: ShapedChoice(c)
  {
    var entries := Split(field, ';');
    forall i | 0 <= i < |entries| ensures Free(entries[i], "|\n;") {
      PartIsFree(field, ';', entries[i], "|\n");
      FreeOfMore(entries[i], ";", "|\n", "|\n;");
    }
    EntriesAreShaped(entries);
  }

  lemma {:induction false} NonEmptySelects(parts: seq<string>)
    ensures forall p <- NonEmpty(parts) :: p in parts && p != ""
  {
    if parts != [] { NonEmptySelects(parts[1..]); }
  }

  lemma CorrectIsShaped(field: string)
    requires Free(field, "|\n")
    ensures forall p <- NonEmpty(TrimAll(Split(field, ','))) :: Clean(p, "|\n,")
  {
    var parts := Split(field, ',');
    NonEmptySelects(TrimAll(parts));
    forall p <- NonEmpty(TrimAll(parts)) ensures Clean(p, "|\n,") {
      var k :| 0 <= k < |parts| && Trim(parts[k]) == p;
      PartIsTidy(field, ',', parts[k], "|\n", "|\n,");
    }
  }

  lemma LineIsShaped(line: string)
    requires Free(line, "\n") && ParseQuestionLine(line).Some?
    ensures Shaped(ParseQuestionLine(line).value)
  {
    var raw := Split(line, '|');
    var parts := TrimAll(raw);
    forall i | 0 <= i < |parts| ensures Tidy(parts[i], "|\n") { PartIsTidy(line, '|', raw[i], "\n", "|\n"); }
    ChoicesAreShaped(parts[3]);
    CorrectIsShaped(parts[4]);
    var q := ParseQuestionLine(line).value;
    assert forall i | 0 <= i < |q.choices| :: q.choices[i] in q.choices;
    assert forall i | 0 <= i < |q.correct| :: q.correct[i] in q.correct;
  }

  lemma {:induction false} LinesAreShaped(lines: seq<string>)
    requires forall i | 0 <= i < |lines| :: Free(lines[i], "\n")
    ensures forall q <- ParseQuestionLines(lines) :: Shaped(q)
  {
    if lines != [] {
      LinesAreShaped(lines[1..]);
      if ParseQuestionLine(lines[0]).Some? { LineIsShaped(lines[0]); }
    }
  }

  /** Every question that was read from a text has that shape. */
  lemma ParsedIsShaped(text: string)
    ensures forall q <- ParseQuestions(text) :: Shaped(q)
  {
    var lines := Split(text, '\n');
    forall i | 0 <= i < |lines| ensures Free(lines[i], "\n") { PartIsFree(text, '\n', lines[i], ""); }
    LinesAreShaped(lines);
  }

  // ----- Printing a question of that shape -----

  lemma {:induction false} JoinIsTidy(parts: seq<string>, sep: string, separators: string)
    requires |sep| == 1 && sep[0] !in separators && !IsSpace(sep[0])
    requires forall i | 0 <= i < |parts| :: Tidy(parts[i], separators)
    ensures Tidy(Join(parts, sep), separators)
  {
    if |parts| > 1 {
      JoinIsTidy(parts[1..], sep, separators);
      TidyConcat(parts[0], sep, Join(parts[1..], sep), separators);
    }
  }

  lemma TidyConcat(a: string, sep: string, b: string, separators: string)
    requires |sep| == 1 && sep[0] !in separators && !IsSpace(sep[0])
    requires Tidy(a, separators) && Tidy(b, separators)
    ensures Tidy(a + sep + b, separators)
  {
    var s := a + sep + b;
    forall i | 0 <= i < |s| ensures s[i] !in separators {
      if i < |a| { assert s[i] == a[i]; } else if i > |a| { assert s[i] == b[i - |a| - 1]; }
    }
  }

  lemma ChoiceTextIsTidy(c: Choice)
    requires ShapedChoice(c)
    ensures Tidy(ChoiceText(c), "|\n;")
  {
    assert Tidy(c.id, "|\n;") && Tidy(c.text, "|\n;");
    TidyConcat(c.id, ":", c.text, "|\n;");
  }

  lemma ChoicesFieldIsTidy(cs: seq<Choice>)
    requires forall i | 0 <= i < |cs| :: ShapedChoice(cs[i])
    ensures Tidy(Join(ChoiceTexts(cs), ";"), "|\n")
  {
    var texts := ChoiceTexts(cs);
    forall i | 0 <= i < |texts| ensures Tidy(texts[i], "|\n") { ChoiceTextIsTidy(cs[i]); }
    JoinIsTidy(texts, ";", "|\n");
  }

  lemma CorrectFieldIsTidy(correct: seq<string>)
    requires forall i | 0 <= i < |correct| :: Clean(correct[i], "|\n,")
    ensures Tidy(Join(correct, ","), "|\n")
  {
    forall i | 0 <= i < |correct| ensures Tidy(correct[i], "|\n") { WeakerClean(correct[i], "|\n,", "|\n"); }
    JoinIsTidy(correct, ",", "|\n");
  }

  lemma FieldsAreTidy(q: Question)
    requires Shaped(q)
    ensures forall i | 0 <= i < 6 :: Tidy(Fields(q)[i], "|\n")
  {
    ChoicesFieldIsTidy(q.choices);
    CorrectFieldIsTidy(q.correct);
    PointsFieldIsTidy(q.points);
    TypeFieldIsTidy(q.multiple);
  }

  lemma PointsFieldIsTidy(points: Option<nat>)
    ensures Tidy(PointsText(points), "|\n")
  {
    if points.Some? { NumeralIsClean(points.value); }
  }

  lemma TypeFieldIsTidy(multiple: bool)
    ensures Tidy(if multiple then "multiple" else "single", "|\n")
  {}

  lemma LineHasNoBreakEither(q: Question)
    requires Shaped(q)
    ensures '\n' !in QuestionLine(q)
  {
    FieldsAreTidy(q);
    if '\n' in QuestionLine(q) { JoinCharacters(Fields(q), " | ", '\n'); }
  }

  /** Its line splits into its six fields again, empty or not. */
  lemma LineSplitsAgain(q: Question)
    requires Shaped(q)
    ensures TrimAll(Split(QuestionLine(q), '|')) == Fields(q)
  {
    FieldsAreTidy(q);
    var fs := Fields(q);
    forall i | 0 <= i < 6 ensures Tidy(fs[i], "|") { assert Tidy(fs[i], "|\n"); }
    FieldsReadBack(fs);
  }

  // ----- A list that comes back whole comes back one by one -----

  lemma {:induction false} EachEntryCameBack(entries: seq<string>)
    ensures |ParseChoiceEntries(entries)| <= |entries|
    ensures |ParseChoiceEntries(entries)| == |entries| ==>
              forall i | 0 <= i < |entries| :: ParseChoiceEntry(entries[i]) == Some(ParseChoiceEntries(entries)[i])
  {
    if entries != [] {
      EachEntryCameBack(entries[1..]);
      assert entries == [entries[0]] + entries[1..];
    }
  }

  lemma {:induction false} EachLineCameBack(lines: seq<string>)
    ensures |ParseQuestionLines(lines)| <= |lines|
    ensures |ParseQuestionLines(lines)| == |lines| ==>
              forall i | 0 <= i < |lines| :: ParseQuestionLine(lines[i]) == Some(ParseQuestionLines(lines)[i])
  {
    if lines != [] {
      EachLineCameBack(lines[1..]);
      assert lines == [lines[0]] + lines[1..];
    }
  }

  /** A choice that is read back from its entry lacks nothing. */
  lemma ChoiceCameBack(c: Choice)
    requires ShapedChoice(c) && ParseChoiceEntry(ChoiceText(c)).Some?
    ensures ChoiceOk(c)
  {
    CleanWithout(c.id, "|\n;:", ':');
    CleanWithout(c.text, "|\n;:", ':');
    SplitFirst(c.id, ':', c.text);
    SplitOne(c.text, ':');
    assert Split(ChoiceText(c), ':') == [c.id, c.text];
  }

  lemma ChoicesCameBack(cs: seq<Choice>)
    requires cs != [] && forall i | 0 <= i < |cs| :: ShapedChoice(cs[i])
    requires ParseChoiceEntries(Split(Join(ChoiceTexts(cs), ";"), ';')) == cs
    ensures forall i | 0 <= i < |cs| :: ChoiceOk(cs[i])
  {
    var texts := ChoiceTexts(cs);
    forall i | 0 <= i < |texts| ensures ';' !in texts[i] {
      ChoiceTextIsTidy(cs[i]);
      CleanWithout(texts[i], "|\n;", ';');
    }
    SplitOfJoin(texts, ';');
    EachEntryCameBack(texts);
    forall i | 0 <= i < |cs| ensures ChoiceOk(cs[i]) { ChoiceCameBack(cs[i]); }
  }

  lemma QuestionCameBack(q: Question)
    requires Shaped(q) && ParseQuestionLine(QuestionLine(q)) == Some(q)
    ensures QuestionOk(q)
  {
    LineSplitsAgain(q);
    var fs := Fields(q);
    assert fs[3] != "" && fs[4] != "";
    assert q.choices != [] && q.correct != [];
    assert q.choices == ParseChoiceEntries(Split(fs[3], ';')) && q.points == ParsePoints(fs[5]);
    ChoicesCameBack(q.choices);
    PointsArePositive(q.points);
  }

  /** The printed points are at least one, whatever they were. */
  lemma PointsArePositive(points: Option<nat>)
    ensures ParsePoints(PointsText(points)).Some? && ParsePoints(PointsText(points)).value >= 1
  {
    if points.Some? { NumeralRoundTrip(points.value, 10); }
    NumeralRoundTrip(1, 10);
    assert Numeral(1, 10) == "1";
  }

  /** A list of questions is read back from its own text exactly when each of them is well formed:
      trimmed, non-empty fields without the separators of their level, at least one choice and one
      correct id, and positive points. */
  lemma QuestionsReadBackIffOk(qs: seq<Question>)
    ensures ParseQuestions(SerializeQuestions(qs)) == qs <==> forall i | 0 <= i < |qs| :: QuestionOk(qs[i])
  {
    if forall i | 0 <= i < |qs| :: QuestionOk(qs[i]) {
      QuestionsRoundTrip(qs);
    } else if ParseQuestions(SerializeQuestions(qs)) == qs {
      ReadBackIsOk(qs);
    }
  }

  lemma ReadBackIsOk(qs: seq<Question>)
    requires qs != [] && ParseQuestions(SerializeQuestions(qs)) == qs
    ensures forall i | 0 <= i < |qs| :: QuestionOk(qs[i])
  {
    ParsedIsShaped(SerializeQuestions(qs));
    var lines := QuestionLines(qs);
    forall i | 0 <= i < |lines| ensures '\n' !in lines[i] {
      assert qs[i] in qs;
      LineHasNoBreakEither(qs[i]);
    }
    SplitOfJoin(lines, '\n');
    EachLineCameBack(lines);
    forall i | 0 <= i < |qs| ensures QuestionOk(qs[i]) {
      assert qs[i] in qs;
      QuestionCameBack(qs[i]);
    }
  }

  // ----- Labels with a colon -----

  /** No list with a colon in a label comes back. */
  lemma ColonInLabelIsLost(qs: seq<Question>, i: nat, j: nat)
    requires i < |qs| && j < |qs[i].choices| && ':' in qs[i].choices[j].text
    ensures ParseQuestions(SerializeQuestions(qs)) != qs
  {
    QuestionsReadBackIffOk(qs);
    if QuestionOk(qs[i]) { CleanWithout(qs[i].choices[j].text, "|\n;:", ':'); }
  }

  /** A label `x:y` is read back as `x`, trimmed; with nothing before the colon, the choice is
      dropped. */
  lemma LabelIsCutAtColon(id: string, x: string, y: string)
    requires Clean(id, ":") && ':' !in x
    ensures ParseChoiceEntry(ChoiceText(Choice(id, x + ":" + y))) == if x == "" then None else Some(Choice(id, Trim(x)))
  {
    CleanWithout(id, ":", ':');
    SplitFirst(id, ':', x + ":" + y);
    SplitFirst(x, ':', y);
    TrimOfTrimmed(id);
  }

  // ----- Choices of a survey -----

  lemma ChoiceLineIsClean(line: string)
    requires Free(line, "\n") && ParseChoiceLine(line).Some?
    ensures Clean(ParseChoiceLine(line).value.id, "|\n") && Clean(ParseChoiceLine(line).value.text, "|\n")
  {
    var raw := Split(line, '|');
    PartIsTidy(line, '|', raw[0], "\n", "|\n");
    PartIsTidy(line, '|', raw[1], "\n", "|\n");
  }

  lemma {:induction false} ChoiceLinesAreClean(lines: seq<string>)
    requires forall i | 0 <= i < |lines| :: Free(lines[i], "\n")
    ensures forall c <- ParseChoiceLines(lines) :: Clean(c.id, "|\n") && Clean(c.text, "|\n")
  {
    if lines != [] {
      ChoiceLinesAreClean(lines[1..]);
      if ParseChoiceLine(lines[0]).Some? { ChoiceLineIsClean(lines[0]); }
    }
  }

  /** A list of choices is read back from its own text exactly when every id and label is trimmed,
      not empty, and free of `|` and line breaks. */
  lemma ChoicesReadBackIffClean(cs: seq<Choice>)
    ensures ParseChoices(SerializeChoices(cs)) == cs <==>
            forall i | 0 <= i < |cs| :: Clean(cs[i].id, "|\n") && Clean(cs[i].text, "|\n")
  {
    if forall i | 0 <= i < |cs| :: Clean(cs[i].id, "|\n") && Clean(cs[i].text, "|\n") {
      ChoicesRoundTrip(cs);
    }
    if ParseChoices(SerializeChoices(cs)) == cs {
      var text := SerializeChoices(cs);
      var lines := Split(text, '\n');
      forall i | 0 <= i < |lines| ensures Free(lines[i], "\n") { PartIsFree(text, '\n', lines[i], ""); }
      ChoiceLinesAreClean(lines);
      assert forall i | 0 <= i < |cs| :: cs[i] in cs;
    }
  }
}
