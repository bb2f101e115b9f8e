/**
 * The practice formatter of the `practice` endpoint: the raw generated text is cut into
 * non-blank lines, each line loses its leading numbering and is tagged with a kind, and an
 * empty result is replaced by one fallback concept question.
 */
module Practice {
  import opened Text

  datatype Kind = Concept | Applied | Code

  /** A practice question and its kind tag (the optional answer is never filled in). */
  datatype PracticeItem = PracticeItem(question: string, kind: Kind)

  /** The characters `lstrip("0123456789). ")` removes. */
  const Numbering: set<char> := {'0', '1', '2', '3', '4', '5', '6', '7', '8', '9', ')', '.', ' '}

  /** The single item returned when the text has no non-blank line. */
  const FallbackItem := PracticeItem("Describe one key idea from the lesson in your own words.", Concept)

  /** `code` wins over `apply`/`scenario`, which win over the default `concept`. */
  function Classify(cleaned: string): (k: Kind)
    ensures k == Code <==> Contains(Lower(cleaned), "code")
    ensures k == Applied <==>
      !Contains(Lower(cleaned), "code") && (Contains(Lower(cleaned), "apply") || Contains(Lower(cleaned), "scenario"))
  {
    var lower := Lower(cleaned);
    if Contains(lower, "code") then Code
    else if Contains(lower, "apply") || Contains(lower, "scenario") then Applied
    else Concept
  }

  /**
   * The item of one line: the line with its leading numbering removed (a suffix of the line
   * that starts with no numbering character), tagged `code` when it mentions "code" in any
   * case, else `applied` when it mentions "apply" or "scenario", else `concept`.
   */
  predicate ItemOfLine(item: PracticeItem, line: string)
  {
    var q := item.question;
    && |q| <= |line| && q == line[|line| - |q|..]
    && (forall j :: 0 <= j < |line| - |q| ==> line[j] in Numbering)
    && (q == "" || q[0] !in Numbering)
    && (item.kind == Code <==> Contains(Lower(q), "code"))
    && (item.kind == Applied <==>
          !Contains(Lower(q), "code") && (Contains(Lower(q), "apply") || Contains(Lower(q), "scenario")))
  }

  /** The item made from one stripped, non-blank line. */
  function ItemFor(line: string): (item: PracticeItem)
    ensures |item.question| <= |line| && item.question == line[|line| - |item.question|..]
    ensures forall j :: 0 <= j < |line| - |item.question| ==> line[j] in Numbering
    ensures item.question == [] || item.question[0] !in Numbering
  {
    var cleaned := TrimLeft(line, Numbering);
    PracticeItem(cleaned, Classify(cleaned))
  }

  /** One item per line, in order. */
  function ItemsFor(lines: seq<string>): (items: seq<PracticeItem>)
    ensures |items| == |lines|
  {
    if |lines| == 0 then [] else ItemsFor(lines[..|lines| - 1]) + [ItemFor(lines[|lines| - 1])]
  }

  /** Each line gives the item at its own position. */
  lemma {:induction false} ItemsForPointwise(lines: seq<string>)
    ensures forall k :: 0 <= k < |lines| ==> ItemsFor(lines)[k] == ItemFor(lines[k])
  {
    if |lines| > 0 {
      var init := lines[..|lines| - 1];
      ItemsForPointwise(init);
      assert ItemsFor(lines) == ItemsFor(init) + [ItemFor(lines[|lines| - 1])];
      assert forall k :: 0 <= k < |init| ==> init[k] == lines[k];
    }
  }

  /** The stripped, non-blank lines of the raw text. */
  function PracticeLines(raw: string): (lines: seq<string>)
    ensures forall k :: 0 <= k < |lines| ==> Trimmed(lines[k])
  {
    NonBlankLinesTrimmed(SplitOn(raw, '\n'));
    NonBlankLines(SplitOn(raw, '\n'))
  }

  /** What the loop and the fallback together return. */
  function PracticeItems(raw: string): (items: seq<PracticeItem>)
    ensures |items| >= 1
    ensures PracticeLines(raw) == [] ==> items == [FallbackItem]
    ensures PracticeLines(raw) != [] ==> |items| == |PracticeLines(raw)|
  {
    var lines := PracticeLines(raw);
    if lines == [] then [FallbackItem] else ItemsFor(lines)
  }

  lemma ItemsForAppend(lines: seq<string>, line: string)
    ensures ItemsFor(lines + [line]) == ItemsFor(lines) + [ItemFor(line)]
  {
    assert (lines + [line])[..|lines|] == lines;
  }

  /** The loop body for one non-blank line: strip the numbering, then tag the kind. */
  method MakeItem(line: string) returns (item: PracticeItem)
    ensures item == ItemFor(line)
  {
    var cleaned := TrimLeft(line, Numbering);
    var kind := Concept;
    var lower := Lower(cleaned);
    if Contains(lower, "code") {
      kind := Code;
    } else if Contains(lower, "apply") || Contains(lower, "scenario") {
      kind := Applied;
    }
    item := PracticeItem(cleaned, kind);
  }

  /** What one more piece does to the items: nothing when it is blank, one item otherwise. */
  lemma CollectStep(segs: seq<string>, i: nat)
    requires i < |segs|
    ensures var line := Strip(segs[i]);
      && (line == "" ==> ItemsFor(NonBlankLines(segs[..i + 1])) == ItemsFor(NonBlankLines(segs[..i])))
      && (line != "" ==> ItemsFor(NonBlankLines(segs[..i + 1])) == ItemsFor(NonBlankLines(segs[..i])) + [ItemFor(line)])
  {
    assert segs[..i + 1] == segs[..i] + [segs[i]];
    NonBlankLinesSnoc(segs[..i], segs[i]);
    assert NonBlankLines(segs[..i]) + [] == NonBlankLines(segs[..i]);
    if Strip(segs[i]) != "" {
      ItemsForAppend(NonBlankLines(segs[..i]), Strip(segs[i]));
    }
  }

  /**
   * `practice_items` after the loop over the lines: strip each line, skip blank ones, and
   * append the item of every other one.
   */
  method CollectItems(segs: seq<string>) returns (items: seq<PracticeItem>)
    ensures items == ItemsFor(NonBlankLines(segs))
  {
    items := [];
    var i := 0;
    while i < |segs|
      invariant 0 <= i <= |segs|
      invariant items == ItemsFor(NonBlankLines(segs[..i]))
    {
      var cleaned := Strip(segs[i]);
      CollectStep(segs, i);
      if cleaned != "" {
        var item := MakeItem(cleaned);
        items := items + [item];
      }
      i := i + 1;
    }
    assert segs[..|segs|] == segs;
  }

  /** The practice formatter: the loop over the lines, then the fallback when it produced nothing. */
  method FormatPractice(raw: string) returns (items: seq<PracticeItem>)
    ensures items == PracticeItems(raw)
    ensures |items| >= 1
  {
    var segs := SplitOn(raw, '\n');
    items := CollectItems(segs);
    if items == [] {
      items := [FallbackItem];
    }
  }


  /** No line survives exactly when the raw text is all whitespace. */
  lemma PracticeLinesBlank(raw: string)
    ensures PracticeLines(raw) == [] <==> Blank(raw)
  {
    var segs := SplitOn(raw, '\n');
    NonBlankLinesEmpty(segs);
    JoinSplitOn(raw, '\n');
    JoinBlank("\n", segs);
    forall k | 0 <= k < |segs|
      ensures Strip(segs[k]) == "" <==> Blank(segs[k])
    {
      StripBlank(segs[k]);
    }
  }

  /**
   * The result is the fallback question when the text is all whitespace; otherwise it is one
   * item per non-blank line, in order, each the item of its line.
   */
  lemma PracticeItemsSpec(raw: string)
    ensures Blank(raw) ==> PracticeItems(raw) == [FallbackItem]
    ensures !Blank(raw) ==> var lines, items := PracticeLines(raw), PracticeItems(raw);
      && |lines| > 0 && |items| == |lines|
      && forall k :: 0 <= k < |items| ==> ItemOfLine(items[k], lines[k])
  {
    PracticeLinesBlank(raw);
    var lines := PracticeLines(raw);
    ItemsForPointwise(lines);
  }

  /** The lines of a text whose lines are trimmed and joined by line feeds are those lines. */
  lemma PracticeLinesOfJoin(xs: seq<string>)
    requires |xs| > 0
    requires forall k :: 0 <= k < |xs| ==> Trimmed(xs[k]) && '\n' !in xs[k]
    ensures PracticeLines(Join("\n", xs)) == xs
  {
    SplitOnJoin(xs, '\n');
    NonBlankLinesOfTrimmed(xs);
  }
}
