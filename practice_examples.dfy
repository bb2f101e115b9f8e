/**
 * Worked inputs for the practice formatter, each derived from the general lemmas: first the
 * text is cut into its lines, then each line becomes an item.
 */
module PracticeExamples {
  import opened Text
  import opened Practice

  /** The items of a one-line text. */
  lemma OneLine(a: string)
    requires Trimmed(a) && '\n' !in a
    ensures PracticeItems(a) == [ItemFor(a)]
  {
    assert Join("\n", [a]) == a;
    PracticeLinesOfJoin([a]);
  }

  /** The items of a three-line text. */
  lemma ThreeLines(a: string, b: string, c: string)
    requires Trimmed(a) && Trimmed(b) && Trimmed(c) && '\n' !in a && '\n' !in b && '\n' !in c
    ensures PracticeItems(a + "\n" + b + "\n" + c) == [ItemFor(a), ItemFor(b), ItemFor(c)]
  {
    JoinAppend("\n", [a, b], [c]);
    assert [a, b] + [c] == [a, b, c];
    assert Join("\n", [a, b]) == a + "\n" + b;
    PracticeLinesOfJoin([a, b, c]);
    ItemsForThree(a, b, c);
  }

  lemma ItemsForThree(a: string, b: string, c: string)
    ensures ItemsFor([a, b, c]) == [ItemFor(a), ItemFor(b), ItemFor(c)]
  {
    ItemsForPointwise([a, b, c]);
  }

  /** A line that is only numbering leaves an empty question, tagged with the default kind. */
  lemma NumberingOnly()
    ensures PracticeItems("1)") == [PracticeItem("", Concept)]
  {
    NumberingOnlyLine("1)");
    OneLine("1)");
    NumberingOnlyItem("1)");
  }

  lemma NumberingOnlyLine(s: string)
    requires s == "1)"
    ensures Trimmed(s) && '\n' !in s
  {
  }

  lemma NumberingOnlyItem(s: string)
    requires s == "1)"
    ensures ItemFor(s) == PracticeItem("", Concept)
  {
    TrimLeftPrefix(s, "", Numbering);
    assert s + "" == s;
    assert Lower("") == "";
  }

  /** An empty text gives the fallback question. */
  lemma EmptyText()
    ensures PracticeItems("") == [FallbackItem]
  {
    PracticeItemsSpec("");
  }

  lemma ExplainKind(q: string)
    requires q == "Explain X"
    ensures Classify(q) == Concept
  {
    NotContainsMissingChar(Lower(q), "code", 0);
    NotContainsMissingChar(Lower(q), "apply", 4);
    NotContainsMissingChar(Lower(q), "scenario", 0);
  }

  lemma ApplyKind(q: string)
    requires q == "Apply X to Y"
    ensures Classify(q) == Applied
  {
    NotContainsMissingChar(Lower(q), "code", 0);
    assert OccursAt(Lower(q), "apply", 0);
  }

  lemma CodeKind(q: string)
    requires q == "Write code for X"
    ensures Classify(q) == Code
  {
    assert OccursAt(Lower(q), "code", 6);
  }

  /** A numbered line becomes its text after the numbering, tagged by that text. */
  lemma NumberedItem(num: string, q: string)
    requires forall i :: 0 <= i < |num| ==> num[i] in Numbering
    requires q == [] || q[0] !in Numbering
    ensures ItemFor(num + q) == PracticeItem(q, Classify(q))
  {
    TrimLeftPrefix(num, q, Numbering);
  }

  lemma MixedKindsShape(a: string, b: string, c: string)
    requires a == "1) " + "Explain X" && b == "2) " + "Apply X to Y" && c == "3) " + "Write code for X"
    ensures Trimmed(a) && Trimmed(b) && Trimmed(c) && '\n' !in a && '\n' !in b && '\n' !in c
  {
  }

  lemma ExplainItem()
    ensures ItemFor("1) " + "Explain X") == PracticeItem("Explain X", Concept)
  {
    NumberedItem("1) ", "Explain X");
    ExplainKind("Explain X");
  }

  lemma ApplyItem()
    ensures ItemFor("2) " + "Apply X to Y") == PracticeItem("Apply X to Y", Applied)
  {
    NumberedItem("2) ", "Apply X to Y");
    ApplyKind("Apply X to Y");
  }

  lemma CodeItem()
    ensures ItemFor("3) " + "Write code for X") == PracticeItem("Write code for X", Code)
  {
    NumberedItem("3) ", "Write code for X");
    CodeKind("Write code for X");
  }

  /** Numbered lines of the three kinds: the numbering goes, and each line gets its own tag. */
  lemma MixedKinds()
    ensures PracticeItems(("1) " + "Explain X") + "\n" + ("2) " + "Apply X to Y") + "\n" + ("3) " + "Write code for X"))
         == [PracticeItem("Explain X", Concept), PracticeItem("Apply X to Y", Applied),
             PracticeItem("Write code for X", Code)]
  {
    var a, b, c := "1) " + "Explain X", "2) " + "Apply X to Y", "3) " + "Write code for X";
    MixedKindsShape(a, b, c);
    ExplainItem();
    ApplyItem();
    CodeItem();
    ThreeLines(a, b, c);
  }

  /**
   * `lstrip` removes a set of characters, not one numbering prefix: digits that open the
   * question itself go too.
   */
  lemma LeadingDigitsOfQuestionRemoved()
    ensures ItemFor("1) " + "3 steps to apply X").question == "steps to apply X"
  {
    assert "1) " + "3 steps to apply X" == "1) 3 " + "steps to apply X";
    NumberedItem("1) 3 ", "steps to apply X");
  }
}
