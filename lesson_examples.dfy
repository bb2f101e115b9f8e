/**
 * Worked inputs for `split_lesson_output`, each derived from the general lemmas: first the
 * text is cut into its lines, then the lines are segmented.
 */
module LessonOutputExamples {
  import opened Text
  import opened LessonOutput

  /** A line whose first character differs, ignoring case, from the marker's does not carry it. */
  lemma UnmarkedByFirstChar(line: string, marker: string)
    requires |line| > 0 && |marker| > 0 && LowerChar(line[0]) != marker[0]
    ensures !IsMarked(line, marker)
  {
  }

  /** A line that matches the marker position by position, ignoring case, carries it. */
  lemma MarkedByChars(line: string, marker: string)
    requires LowerPrefixFrom(line, marker, 0)
    ensures IsMarked(line, marker)
  {
    LowerPrefixFromSpec(line, marker);
  }

  /** The lines of a two-line text. */
  lemma TwoLines(a: string, b: string)
    requires Trimmed(a) && Trimmed(b) && '\n' !in a && '\n' !in b
    ensures LessonLines(a + "\n" + b) == [a, b]
  {
    assert Join("\n", [a, b]) == a + "\n" + b;
    LessonLinesOfJoin([a, b]);
  }

  /** The lines of a three-line text. */
  lemma ThreeLines(a: string, b: string, c: string)
    requires Trimmed(a) && Trimmed(b) && Trimmed(c) && '\n' !in a && '\n' !in b && '\n' !in c
    ensures LessonLines(a + "\n" + b + "\n" + c) == [a, b, c]
  {
    JoinAppend("\n", [a, b], [c]);
    assert [a, b] + [c] == [a, b, c];
    assert Join("\n", [a, b]) == a + "\n" + b;
    LessonLinesOfJoin([a, b, c]);
  }

  /** The line facts of the markers-only example. */
  lemma MarkersOnlyFacts(a: string, b: string)
    requires a == "Checkpoint: Q1" && b == "Recap: R1"
    ensures Trimmed(a) && Trimmed(b) && '\n' !in a && '\n' !in b
    ensures IsMarked(a, CheckpointMarker) && !IsMarked(a, RecapMarker) && IsMarked(b, RecapMarker)
  {
    MarkedByChars(a, CheckpointMarker);
    MarkedByChars(b, RecapMarker);
    UnmarkedByFirstChar(a, RecapMarker);
  }

  /**
   * Markers only, checkpoint first: because the first line is a marker line, the step is the
   * whole text, not the fallback sentence.
   */
  lemma MarkersOnly()
    ensures SplitLessonOutput("Checkpoint: Q1" + "\n" + "Recap: R1")
         == LessonParts("Checkpoint: Q1" + "\n" + "Recap: R1", "Checkpoint: Q1", "Recap: R1")
  {
    var a, b := "Checkpoint: Q1", "Recap: R1";
    MarkersOnlyFacts(a, b);
    TwoLines(a, b);
    MarkersOnlyLines(a, b);
  }

  /** Two lines, a checkpoint line then a recap line. */
  lemma MarkersOnlyLines(a: string, b: string)
    requires Trimmed(a) && Trimmed(b)
    requires IsMarked(a, CheckpointMarker) && !IsMarked(a, RecapMarker) && IsMarked(b, RecapMarker)
    ensures SegmentLines([a, b]) == LessonParts(a + "\n" + b, a, b)
  {
    var lines := [a, b];
    assert IsFirstMarked(lines, CheckpointMarker, 0);
    assert IsFirstMarked(lines, RecapMarker, 1);
    StepWholeTextWhenMarkerFirst(lines);
    assert Join("\n", lines) == a + "\n" + b;
    CheckpointThenRecap(lines, 0, 1);
    assert lines[0..1] == [a] && lines[1..] == [b];
    assert Join(" ", [a]) == a && Join(" ", [b]) == b;
  }

  /** The line facts of the introduction-then-checkpoint example. */
  lemma IntroThenCheckpointFacts(a: string, b: string)
    requires a == "Intro text" && b == "Checkpoint: What now?"
    ensures Trimmed(a) && Trimmed(b) && '\n' !in a && '\n' !in b
    ensures !IsMarked(a, CheckpointMarker) && !IsMarked(a, RecapMarker)
    ensures IsMarked(b, CheckpointMarker) && !IsMarked(b, RecapMarker)
  {
    UnmarkedByFirstChar(a, CheckpointMarker);
    UnmarkedByFirstChar(a, RecapMarker);
    CheckpointLineFacts(b);
  }

  /** The checkpoint line of the introduction-then-checkpoint example. */
  lemma CheckpointLineFacts(b: string)
    requires b == "Checkpoint: What now?"
    ensures IsMarked(b, CheckpointMarker) && !IsMarked(b, RecapMarker)
  {
    UnmarkedByFirstChar(b, RecapMarker);
    MarkedByChars(b, CheckpointMarker);
  }

  /** An introduction then a checkpoint: the step is the introduction, and the recap is the fallback. */
  lemma IntroThenCheckpoint()
    ensures SplitLessonOutput("Intro text" + "\n" + "Checkpoint: What now?")
         == LessonParts("Intro text", "Checkpoint: What now?", DefaultRecap)
  {
    var a, b := "Intro text", "Checkpoint: What now?";
    IntroThenCheckpointFacts(a, b);
    TwoLines(a, b);
    IntroThenCheckpointLines(a, b);
  }

  /** Two lines, an unmarked one then a checkpoint line. */
  lemma IntroThenCheckpointLines(a: string, b: string)
    requires Trimmed(a) && Trimmed(b)
    requires !IsMarked(a, CheckpointMarker) && !IsMarked(a, RecapMarker)
    requires IsMarked(b, CheckpointMarker) && !IsMarked(b, RecapMarker)
    ensures SegmentLines([a, b]) == LessonParts(a, b, DefaultRecap)
  {
    var lines := [a, b];
    assert NoneMarked(lines, RecapMarker);
    assert IsFirstMarked(lines, CheckpointMarker, 1);
    StepBeforeFirstMarker(lines, 1);
    assert lines[..1] == [a] && lines[1..] == [b];
    assert Join("\n", [a]) == a && Join(" ", [b]) == b;
    LoneCheckpointRunsToEnd(lines, 1);
    MissingMarkersDefault(lines);
  }

  /** The line facts of the recap-before-checkpoint example. */
  lemma RecapBeforeCheckpointFacts(a: string, b: string, c: string)
    requires a == "Intro" && b == "Recap: R" && c == "Checkpoint: Q"
    ensures Trimmed(a) && Trimmed(b) && Trimmed(c) && '\n' !in a && '\n' !in b && '\n' !in c
    ensures !IsMarked(a, CheckpointMarker) && !IsMarked(a, RecapMarker)
    ensures !IsMarked(b, CheckpointMarker) && IsMarked(b, RecapMarker) && IsMarked(c, CheckpointMarker)
  {
    UnmarkedByFirstChar(a, CheckpointMarker);
    UnmarkedByFirstChar(a, RecapMarker);
    UnmarkedByFirstChar(b, CheckpointMarker);
    MarkedByChars(b, RecapMarker);
    MarkedByChars(c, CheckpointMarker);
  }

  /** Recap before checkpoint: the recap runs on through the checkpoint line. */
  lemma RecapBeforeCheckpoint()
    ensures SplitLessonOutput("Intro" + "\n" + "Recap: R" + "\n" + "Checkpoint: Q")
         == LessonParts("Intro", "Checkpoint: Q", "Recap: R" + " " + "Checkpoint: Q")
  {
    var a, b, c := "Intro", "Recap: R", "Checkpoint: Q";
    RecapBeforeCheckpointFacts(a, b, c);
    ThreeLines(a, b, c);
    RecapBeforeCheckpointLines(a, b, c);
  }

  /** Three lines: an unmarked one, a recap line, then a checkpoint line. */
  lemma RecapBeforeCheckpointLines(a: string, b: string, c: string)
    requires Trimmed(a) && Trimmed(b) && Trimmed(c)
    requires !IsMarked(a, CheckpointMarker) && !IsMarked(a, RecapMarker)
    requires !IsMarked(b, CheckpointMarker) && IsMarked(b, RecapMarker) && IsMarked(c, CheckpointMarker)
    ensures SegmentLines([a, b, c]) == LessonParts(a, c, b + " " + c)
  {
    RecapBeforeCheckpointStep(a, b, c);
    RecapBeforeCheckpointTail(a, b, c);
  }

  lemma RecapBeforeCheckpointStep(a: string, b: string, c: string)
    requires Trimmed(a) && Trimmed(b) && Trimmed(c)
    requires !IsMarked(a, CheckpointMarker) && !IsMarked(a, RecapMarker) && IsMarked(b, RecapMarker)
    ensures SegmentLines([a, b, c]).step == a
  {
    var lines := [a, b, c];
    StepBeforeFirstMarker(lines, 1);
    assert lines[..1] == [a];
  }

  lemma RecapBeforeCheckpointTail(a: string, b: string, c: string)
    requires !IsMarked(a, CheckpointMarker) && !IsMarked(a, RecapMarker)
    requires !IsMarked(b, CheckpointMarker) && IsMarked(b, RecapMarker) && IsMarked(c, CheckpointMarker)
    ensures SegmentLines([a, b, c]).checkpoint == c && SegmentLines([a, b, c]).recap == b + " " + c
  {
    var lines := [a, b, c];
    assert IsFirstMarked(lines, RecapMarker, 1);
    assert IsFirstMarked(lines, CheckpointMarker, 2);
    RecapSwallowsCheckpoint(lines, 1, 2);
    assert lines[1..2] == [b] && lines[2..] == [c];
  }

  /** Empty text gives the three fallback texts. */
  lemma EmptyText()
    ensures SplitLessonOutput("") == LessonParts(DefaultStep, DefaultCheckpoint, DefaultRecap)
  {
    assert Strip("") == "";
    assert SplitOn("", '\n') == [""];
    assert NonBlankLines([""]) == [];
  }
}
