/** The text format of quiz questions and choices (src/components/owner/owner-console.tsx): what the
    owner's editor prints it reads back. */
module Questions {
  import opened Options
  import opened Text

  datatype Choice = Choice(id: string, text: string)

  /** `points` is absent when the text is not a non-negative decimal integer. */
  datatype Question = Question(
    id: string, prompt: string, multiple: bool, choices: seq<Choice>, correct: seq<string>, points: Option<nat>)

  function TrimAll(parts: seq<string>): (r: seq<string>)
    ensures |r| == |parts|
  {
    seq(|parts|, i requires 0 <= i < |parts| => Trim(parts[i]))
  }

  predicate NoneEmpty(parts: seq<string>) { forall i | 0 <= i < |parts| :: parts[i] != "" }

  // ----- Questions -----

  function ChoiceText(c: Choice): string { c.id + ":" + c.text }

  function ChoiceTexts(cs: seq<Choice>): (r: seq<string>)
    ensures |r| == |cs|
  {
    seq(|cs|, i requires 0 <= i < |cs| => ChoiceText(cs[i]))
  }

  /** `question.points || 1`. */
  function PointsText(points: Option<nat>): string {
    if points.Some? && points.value != 0 then Numeral(points.value, 10) else "1"
  }

  function Fields(q: Question): (fs: seq<string>)
    ensures |fs| == 6
  {
    [q.id, q.prompt, if q.multiple then "multiple" else "single",
     Join(ChoiceTexts(q.choices), ";"), Join(q.correct, ","), PointsText(q.points)]
  }

  function QuestionLine(q: Question): string { Join(Fields(q), " | ") }

  function QuestionLines(qs: seq<Question>): (r: seq<string>)
    ensures |r| == |qs|
  {
    seq(|qs|, i requires 0 <= i < |qs| => QuestionLine(qs[i]))
  }

  function SerializeQuestions(qs: seq<Question>): string { Join(QuestionLines(qs), "\n") }

  /** An entry `id:label`; anything after a second colon is dropped. */
  function ParseChoiceEntry(entry: string): Option<Choice> {
    var parts := Split(entry, ':');
    if |parts| >= 2 && parts[0] != "" && parts[1] != "" then Some(Choice(Trim(parts[0]), Trim(parts[1]))) else None
  }

  function ParseChoiceEntries(entries: seq<string>): seq<Choice> {
    if entries == [] then []
    else
      var c := ParseChoiceEntry(entries[0]);
      (if c.Some? then [c.value] else []) + ParseChoiceEntries(entries[1..])
  }

  function NonEmpty(parts: seq<string>): seq<string> {
    if parts == [] then [] else (if parts[0] != "" then [parts[0]] else []) + NonEmpty(parts[1..])
  }

  function ParsePoints(raw: string): Option<nat> {
    if IsNumeral(raw, 10) then Some(NumeralValue(raw, 10)) else None
  }

  function ParseQuestionLine(line: string): Option<Question> {
    var parts := TrimAll(Split(line, '|'));
    if |parts| < 6 || !NoneEmpty(parts) then None
    else Some(Question(parts[0], parts[1], parts[2] == "multiple", ParseChoiceEntries(Split(parts[3], ';')),
                       NonEmpty(TrimAll(Split(parts[4], ','))), ParsePoints(parts[5])))
  }

  function ParseQuestionLines(lines: seq<string>): seq<Question> {
    if lines == [] then []
    else
      var q := ParseQuestionLine(lines[0]);
      (if q.Some? then [q.value] else []) + ParseQuestionLines(lines[1..])
  }

  function ParseQuestions(value: string): seq<Question> { ParseQuestionLines(Split(value, '\n')) }

  // ----- Well-formed questions -----

  predicate Free(s: string, separators: string) { forall i | 0 <= i < |s| :: s[i] !in separators }

  /** Trimmed, and free of the separators that surround it. */
  predicate Tidy(s: string, separators: string) { Trimmed(s) && Free(s, separators) }

  predicate Clean(s: string, separators: string) { s != "" && Tidy(s, separators) }

  predicate ChoiceOk(c: Choice) { Clean(c.id, "|\n;:") && Clean(c.text, "|\n;:") }

  predicate QuestionOk(q: Question) {
    && Clean(q.id, "|\n") && Clean(q.prompt, "|\n")
    && |q.choices| >= 1 && (forall i | 0 <= i < |q.choices| :: ChoiceOk(q.choices[i]))
    && |q.correct| >= 1 && (forall i | 0 <= i < |q.correct| :: Clean(q.correct[i], "|\n,"))
    && q.points.Some? && q.points.value >= 1
  }

  /** Everything but a colon in a label, which the format cannot hold. */
  predicate ChoiceReadable(c: Choice) { Clean(c.id, "|\n;:") && Clean(c.text, "|\n;") && c.text[0] != ':' }

  predicate QuestionReadable(q: Question) {
    && Clean(q.id, "|\n") && Clean(q.prompt, "|\n")
    && |q.choices| >= 1 && (forall i | 0 <= i < |q.choices| :: ChoiceReadable(q.choices[i]))
    && |q.correct| >= 1 && (forall i | 0 <= i < |q.correct| :: Clean(q.correct[i], "|\n,"))
    && q.points.Some? && q.points.value >= 1
  }

  /** A label up to its first colon. */
  function CutChoice(c: Choice): Choice { Choice(c.id, Trim(Split(c.text, ':')[0])) }

  function CutChoices(cs: seq<Choice>): (r: seq<Choice>)
    ensures |r| == |cs|
  {
    seq(|cs|, i requires 0 <= i < |cs| => CutChoice(cs[i]))
  }

  function CutQuestion(q: Question): Question { q.(choices := CutChoices(q.choices)) }

  function CutQuestions(qs: seq<Question>): (r: seq<Question>)
    ensures |r| == |qs|
  {
    seq(|qs|, i requires 0 <= i < |qs| => CutQuestion(qs[i]))
  }

  // ----- Padding around a separator -----

  function Padded(fields: seq<string>, left: string): seq<string> {
    if fields == [] then []
    else if |fields| == 1 then [left + fields[0]]
    else [left + fields[0] + " "] + Padded(fields[1..], " ")
  }

  /** Joining with ` | ` is joining padded fields with `|`. */
  lemma {:induction false} JoinPadded(fields: seq<string>, left: string)
    requires fields != []
    ensures Join(Padded(fields, left), "|") == left + Join(fields, " | ")
  {
    if |fields| > 1 {
      JoinPadded(fields[1..], " ");
      var rest := Padded(fields[1..], " ");
      assert Padded(fields, left)[1..] == rest;
      assert rest != [];
      assert Join(Padded(fields, left), "|") == (left + fields[0] + " ") + "|" + (" " + Join(fields[1..], " | "));
      assert " " + "|" + " " == " | ";
      assert (left + fields[0] + " ") + "|" + (" " + Join(fields[1..], " | "))
          == left + (fields[0] + " | " + Join(fields[1..], " | "));
    }
  }

  lemma {:induction false} PaddedTrims(fields: seq<string>, left: string)
    requires left in {"", " "} && forall i | 0 <= i < |fields| :: Tidy(fields[i], "|")
    ensures TrimAll(Padded(fields, left)) == fields && |Padded(fields, left)| == |fields|
    ensures forall i | 0 <= i < |fields| :: '|' !in Padded(fields, left)[i]
  {
    if fields != [] {
      var f := fields[0];
      assert Tidy(f, "|");
      CleanWithout(f, "|", '|');
      if |fields| == 1 {
        TrimOfPadded(left, f, "");
        assert left + f + "" == left + f;
      } else {
        PaddedTrims(fields[1..], " ");
        TrimOfPadded(left, f, " ");
        TrimAllCons(left + f + " ", Padded(fields[1..], " "));
        assert fields == [f] + fields[1..];
      }
    }
  }

  lemma TrimAllCons(p: string, rest: seq<string>)
    ensures TrimAll([p] + rest) == [Trim(p)] + TrimAll(rest)
  {}

  /** Splitting a printed line at `|` and trimming gives back its fields. */
  lemma FieldsReadBack(fields: seq<string>)
    requires fields != [] && forall i | 0 <= i < |fields| :: Tidy(fields[i], "|")
    ensures TrimAll(Split(Join(fields, " | "), '|')) == fields
  {
    JoinPadded(fields, "");
    PaddedTrims(fields, "");
    assert "" + Join(fields, " | ") == Join(fields, " | ");
    SplitOfJoin(Padded(fields, ""), '|');
  }

  // ----- Joined fields are clean -----

  lemma CleanWithout(s: string, separators: string, c: char)
    requires Tidy(s, separators) && c in separators
    ensures c !in s
  {}

  lemma {:induction false} JoinIsClean(parts: seq<string>, sep: string, separators: string)
    requires parts != [] && |sep| == 1 && sep[0] !in separators
    requires forall i | 0 <= i < |parts| :: Clean(parts[i], separators)
    ensures Clean(Join(parts, sep), separators)
  {
    if |parts| > 1 {
      JoinIsClean(parts[1..], sep, separators);
      var rest := Join(parts[1..], sep);
      var s := parts[0] + sep + rest;
      assert Clean(parts[0], separators);
      forall i | 0 <= i < |s| ensures s[i] !in separators {
        if i < |parts[0]| { assert s[i] == parts[0][i]; }
        else if i > |parts[0]| { assert s[i] == rest[i - |parts[0]| - 1]; }
      }
      assert s[0] == parts[0][0] && s[|s| - 1] == rest[|rest| - 1];
    }
  }

  lemma WeakerClean(s: string, strong: string, weak: string)
    requires Clean(s, strong) && forall c <- weak :: c in strong
    ensures Clean(s, weak)
  {}

  lemma ChoiceTextIsClean(c: Choice)
    requires ChoiceReadable(c)
    ensures Clean(ChoiceText(c), "|\n;")
  {
    var s := ChoiceText(c);
    forall i | 0 <= i < |s| ensures s[i] !in "|\n;" {
      if i < |c.id| { assert s[i] == c.id[i]; }
      else if i > |c.id| { assert s[i] == c.text[i - |c.id| - 1]; }
      else { assert s[i] == ':'; }
    }
    assert s[0] == c.id[0] && s[|s| - 1] == c.text[|c.text| - 1];
  }

  /** The first part of a split that does not start with the separator is not empty. */
  lemma FirstPartNonEmpty(s: string, c: char)
    requires s != "" && s[0] != c
    ensures Split(s, c)[0] != ""
  {}

  /** Whatever an entry's label holds, it is read back up to its first colon. */
  lemma ChoiceReadsBack(c: Choice)
    requires ChoiceReadable(c)
    ensures ParseChoiceEntry(ChoiceText(c)) == Some(CutChoice(c))
  {
    CleanWithout(c.id, "|\n;:", ':');
    SplitFirst(c.id, ':', c.text);
    FirstPartNonEmpty(c.text, ':');
    TrimOfTrimmed(c.id);
  }

  lemma CutOfOk(c: Choice)
    requires ChoiceOk(c)
    ensures ChoiceReadable(c) && CutChoice(c) == c
  {
    CleanWithout(c.text, "|\n;:", ':');
    SplitOne(c.text, ':');
    TrimOfTrimmed(c.text);
  }

  lemma OneMoreEntry(text: string, rest: seq<string>, c: Choice)
    requires ParseChoiceEntry(text) == Some(c)
    ensures ParseChoiceEntries([text] + rest) == [c] + ParseChoiceEntries(rest)
  {
    assert ([text] + rest)[1..] == rest;
  }

  lemma ChoiceTextsCons(cs: seq<Choice>)
    requires cs != []
    ensures ChoiceTexts(cs) == [ChoiceText(cs[0])] + ChoiceTexts(cs[1..])
    ensures CutChoices(cs) == [CutChoice(cs[0])] + CutChoices(cs[1..])
  {}

  lemma {:induction false} ChoicesReadBack(cs: seq<Choice>)
    requires forall i | 0 <= i < |cs| :: ChoiceReadable(cs[i])
    ensures ParseChoiceEntries(ChoiceTexts(cs)) == CutChoices(cs)
  {
    if cs != [] {
      var text, rest := ChoiceText(cs[0]), ChoiceTexts(cs[1..]);
      ChoiceTextsCons(cs);
      ChoiceReadsBack(cs[0]);
      OneMoreEntry(text, rest, CutChoice(cs[0]));
      ChoicesReadBack(cs[1..]);
    }
  }

  lemma {:induction false} NonEmptyKeeps(parts: seq<string>)
    requires NoneEmpty(parts)
    ensures NonEmpty(parts) == parts
  {
    if parts != [] {
      NonEmptyKeeps(parts[1..]);
      assert parts == [parts[0]] + parts[1..];
    }
  }

  lemma CorrectReadsBack(correct: seq<string>)
    requires |correct| >= 1 && forall i | 0 <= i < |correct| :: Clean(correct[i], "|\n,")
    ensures NonEmpty(TrimAll(Split(Join(correct, ","), ','))) == correct
  {
    forall i | 0 <= i < |correct| ensures ',' !in correct[i] && Trim(correct[i]) == correct[i] {
      CleanWithout(correct[i], "|\n,", ',');
      TrimOfTrimmed(correct[i]);
    }
    SplitOfJoin(correct, ',');
    assert TrimAll(correct) == correct;
    NonEmptyKeeps(correct);
  }

  lemma NumeralIsClean(n: nat)
    ensures Clean(Numeral(n, 10), "|\n")
  {
    var s := Numeral(n, 10);
    forall i | 0 <= i < |s| ensures s[i] !in "|\n" && !IsSpace(s[i]) { assert IsDigit(s[i], 10); }
  }

  lemma FieldsAreClean(q: Question)
    requires QuestionReadable(q)
    ensures forall i | 0 <= i < 6 :: Clean(Fields(q)[i], "|\n")
  {
    var fs := Fields(q);
    var texts := ChoiceTexts(q.choices);
    forall i | 0 <= i < |texts| ensures Clean(texts[i], "|\n") {
      ChoiceTextIsClean(q.choices[i]);
      WeakerClean(texts[i], "|\n;", "|\n");
    }
    JoinIsClean(texts, ";", "|\n");
    forall i | 0 <= i < |q.correct| ensures Clean(q.correct[i], "|\n") { WeakerClean(q.correct[i], "|\n,", "|\n"); }
    JoinIsClean(q.correct, ",", "|\n");
    NumeralIsClean(q.points.value);
    assert Clean("multiple", "|\n") && Clean("single", "|\n");
  }

  lemma ChoiceFieldReadsBack(cs: seq<Choice>)
    requires |cs| >= 1 && forall i | 0 <= i < |cs| :: ChoiceReadable(cs[i])
    ensures ParseChoiceEntries(Split(Join(ChoiceTexts(cs), ";"), ';')) == CutChoices(cs)
  {
    var texts := ChoiceTexts(cs);
    forall i | 0 <= i < |texts| ensures ';' !in texts[i] {
      ChoiceTextIsClean(cs[i]);
      CleanWithout(texts[i], "|\n;", ';');
    }
    SplitOfJoin(texts, ';');
    ChoicesReadBack(cs);
  }

  lemma LineSplits(q: Question)
    requires QuestionReadable(q)
    ensures TrimAll(Split(QuestionLine(q), '|')) == Fields(q) && NoneEmpty(Fields(q))
  {
    FieldsAreClean(q);
    var fs := Fields(q);
    forall i | 0 <= i < 6 ensures Clean(fs[i], "|") { WeakerClean(fs[i], "|\n", "|"); }
    FieldsReadBack(fs);
  }

  lemma LineReadsBack(q: Question)
    requires QuestionReadable(q)
    ensures ParseQuestionLine(QuestionLine(q)) == Some(CutQuestion(q))
  {
    LineSplits(q);
    ChoiceFieldReadsBack(q.choices);
    CorrectReadsBack(q.correct);
    NumeralRoundTrip(q.points.value, 10);
    assert "multiple" != "single" by { assert |"multiple"| != |"single"|; }
  }

  lemma LineHasNoBreak(q: Question)
    requires QuestionReadable(q)
    ensures '\n' !in QuestionLine(q)
  {
    FieldsAreClean(q);
    if '\n' in QuestionLine(q) {
      JoinCharacters(Fields(q), " | ", '\n');
    }
  }

  lemma OneMoreQuestion(line: string, rest: seq<string>, q: Question)
    requires ParseQuestionLine(line) == Some(q)
    ensures ParseQuestionLines([line] + rest) == [q] + ParseQuestionLines(rest)
  {
    assert ([line] + rest)[1..] == rest;
  }

  lemma LinesCons(qs: seq<Question>)
    requires qs != []
    ensures QuestionLines(qs) == [QuestionLine(qs[0])] + QuestionLines(qs[1..])
  {}

  lemma CutCons(qs: seq<Question>)
    requires qs != []
    ensures CutQuestions(qs) == [CutQuestion(qs[0])] + CutQuestions(qs[1..])
  {}

  lemma {:induction false} LinesReadBack(qs: seq<Question>)
    requires forall i | 0 <= i < |qs| :: QuestionReadable(qs[i])
    ensures ParseQuestionLines(QuestionLines(qs)) == CutQuestions(qs)
  {
    if qs != [] {
      var line, rest := QuestionLine(qs[0]), QuestionLines(qs[1..]);
      LinesCons(qs);
      LineReadsBack(qs[0]);
      OneMoreQuestion(line, rest, CutQuestion(qs[0]));
      LinesReadBack(qs[1..]);
      CutCons(qs);
    }
  }

  /** A line, field by field. */
  lemma LineIs(q: Question)
    ensures QuestionLine(q) ==
            q.id + " | " + (q.prompt + " | " + ((if q.multiple then "multiple" else "single") + " | " +
            (Join(ChoiceTexts(q.choices), ";") + " | " + (Join(q.correct, ",") + " | " +
            (if q.points.None? || q.points.value == 0 then "1" else Numeral(q.points.value, 10))))))
    ensures forall i | 0 <= i < |q.choices| :: ChoiceTexts(q.choices)[i] == q.choices[i].id + ":" + q.choices[i].text
  {
    var fs := Fields(q);
    assert fs[1..][0] == fs[1] && fs[1..][1..] == fs[2..] && fs[2..][1..] == fs[3..] && fs[3..][1..] == fs[4..] && fs[4..][1..] == fs[5..];
    assert Join(fs[5..], " | ") == fs[5];
    assert Join(fs[4..], " | ") == fs[4] + " | " + fs[5];
    assert Join(fs[3..], " | ") == fs[3] + " | " + (fs[4] + " | " + fs[5]);
    assert Join(fs[2..], " | ") == fs[2] + " | " + Join(fs[3..], " | ");
    assert Join(fs[1..], " | ") == fs[1] + " | " + Join(fs[2..], " | ");
  }

  /** A list of questions that is well formed but for colons in its labels is read back with every
      label cut at its first colon, and otherwise unchanged. */
  lemma LabelsAreCutAtColons(qs: seq<Question>)
    requires forall i | 0 <= i < |qs| :: QuestionReadable(qs[i])
    ensures ParseQuestions(SerializeQuestions(qs)) == CutQuestions(qs)
  {
    if qs == [] {
      assert TrimAll(Split("", '|')) == [""];
      assert ParseQuestionLines([""]) == [] by { assert [""][1..] == []; }
    } else {
      forall i | 0 <= i < |qs| ensures '\n' !in QuestionLines(qs)[i] { LineHasNoBreak(qs[i]); }
      SplitOfJoin(QuestionLines(qs), '\n');
      LinesReadBack(qs);
    }
  }

  lemma CutOfOkQuestion(q: Question)
    requires QuestionOk(q)
    ensures QuestionReadable(q) && CutQuestion(q) == q
  {
    forall i | 0 <= i < |q.choices| ensures ChoiceReadable(q.choices[i]) && CutChoice(q.choices[i]) == q.choices[i] {
      CutOfOk(q.choices[i]);
    }
    assert CutChoices(q.choices) == q.choices;
  }

  /** Every list of well-formed questions is read back from its text: ids, prompts, types, choices,
      correct ids and points. */
  lemma QuestionsRoundTrip(qs: seq<Question>)
    requires forall i | 0 <= i < |qs| :: QuestionOk(qs[i])
    ensures ParseQuestions(SerializeQuestions(qs)) == qs
  {
    forall i | 0 <= i < |qs| ensures QuestionReadable(qs[i]) && CutQuestions(qs)[i] == qs[i] { CutOfOkQuestion(qs[i]); }
    LabelsAreCutAtColons(qs);
    assert CutQuestions(qs) == qs;
  }

  // ----- Choices of a survey -----

  function ChoiceLines(cs: seq<Choice>): (r: seq<string>)
    ensures |r| == |cs|
  {
    seq(|cs|, i requires 0 <= i < |cs| => Join([cs[i].id, cs[i].text], " | "))
  }

  lemma ChoiceLineIs(cs: seq<Choice>, i: nat)
    requires i < |cs|
    ensures ChoiceLines(cs)[i] == cs[i].id + " | " + cs[i].text
  {
    var parts := [cs[i].id, cs[i].text];
    assert parts[1..] == [cs[i].text] && Join(parts[1..], " | ") == cs[i].text;
  }

  function SerializeChoices(cs: seq<Choice>): string { Join(ChoiceLines(cs), "\n") }

  function ParseChoiceLine(line: string): Option<Choice> {
    var parts := TrimAll(Split(line, '|'));
    if |parts| >= 2 && parts[0] != "" && parts[1] != "" then Some(Choice(parts[0], parts[1])) else None
  }

  function ParseChoiceLines(lines: seq<string>): seq<Choice> {
    if lines == [] then []
    else
      var c := ParseChoiceLine(lines[0]);
      (if c.Some? then [c.value] else []) + ParseChoiceLines(lines[1..])
  }

  function ParseChoices(value: string): seq<Choice> { ParseChoiceLines(Split(value, '\n')) }

  lemma ChoiceLineReadsBack(c: Choice)
    requires Clean(c.id, "|\n") && Clean(c.text, "|\n")
    ensures ParseChoiceLine(Join([c.id, c.text], " | ")) == Some(c)
    ensures '\n' !in Join([c.id, c.text], " | ")
  {
    var fs := [c.id, c.text];
    WeakerClean(c.id, "|\n", "|");
    WeakerClean(c.text, "|\n", "|");
    FieldsReadBack(fs);
    CleanWithout(c.id, "|\n", '\n');
    CleanWithout(c.text, "|\n", '\n');
    if '\n' in Join(fs, " | ") { JoinCharacters(fs, " | ", '\n'); }
  }

  lemma OneMoreChoice(line: string, rest: seq<string>, c: Choice)
    requires ParseChoiceLine(line) == Some(c)
    ensures ParseChoiceLines([line] + rest) == [c] + ParseChoiceLines(rest)
  {
    assert ([line] + rest)[1..] == rest;
  }

  lemma {:induction false} ChoiceLinesReadBack(cs: seq<Choice>)
    requires forall i | 0 <= i < |cs| :: Clean(cs[i].id, "|\n") && Clean(cs[i].text, "|\n")
    ensures ParseChoiceLines(ChoiceLines(cs)) == cs
  {
    if cs != [] {
      var line, rest := Join([cs[0].id, cs[0].text], " | "), ChoiceLines(cs[1..]);
      assert ChoiceLines(cs) == [line] + rest;
      ChoiceLineReadsBack(cs[0]);
      OneMoreChoice(line, rest, cs[0]);
      ChoiceLinesReadBack(cs[1..]);
      assert cs == [cs[0]] + cs[1..];
    }
  }

  lemma ChoicesRoundTrip(cs: seq<Choice>)
    requires forall i | 0 <= i < |cs| :: Clean(cs[i].id, "|\n") && Clean(cs[i].text, "|\n")
    ensures ParseChoices(SerializeChoices(cs)) == cs
  {
    if cs == [] {
      assert ParseChoiceLines([""]) == [] by { assert [""][1..] == []; }
    } else {
      forall i | 0 <= i < |cs| ensures '\n' !in ChoiceLines(cs)[i] { ChoiceLineReadsBack(cs[i]); }
      SplitOfJoin(ChoiceLines(cs), '\n');
      ChoiceLinesReadBack(cs);
    }
  }
}
