/**
 * `split_lesson_output`: cutting the model's free-form lesson text into a teaching step, a
 * checkpoint question and a recap line, using the first case-insensitive `checkpoint:` and
 * `recap:` marker lines, with fixed defaults.
 */
module LessonOutput {
  import opened Wrappers
  import opened Text

  const DefaultStep := "Let's continue learning..."
  /** The fallback checkpoint and recap each open with the capitalised form of their marker. */
  const DefaultCheckpoint := "Checkpoint:" + " What is one key idea here?"
  const DefaultRecap := "Recap:" + " Quick recap: key idea in one line."

  const CheckpointMarker := "checkpoint:"
  const RecapMarker := "recap:"

  datatype LessonParts = LessonParts(step: string, checkpoint: string, recap: string)

  /** `[line.strip() for line in text.strip().split('\n') if line.strip()]`. */
  function LessonLines(text: string): (lines: seq<string>)
    ensures forall k :: 0 <= k < |lines| ==> Trimmed(lines[k])
  {
    NonBlankLinesTrimmed(SplitOn(Strip(text), '\n'));
    NonBlankLines(SplitOn(Strip(text), '\n'))
  }

  /** `line.lower().startswith(marker)`. */
  predicate IsMarked(line: string, marker: string)
  {
    StartsWith(Lower(line), marker)
  }

  /** A line cannot carry both markers. */
  lemma MarkersExclusive(line: string)
    ensures !(IsMarked(line, CheckpointMarker) && IsMarked(line, RecapMarker))
  {
    if IsMarked(line, CheckpointMarker) {
      assert Lower(line)[0] == 'c';
    }
  }

  /** Line `i` is the first line carrying `marker`. */
  predicate IsFirstMarked(lines: seq<string>, marker: string, i: int)
  {
    0 <= i < |lines| && IsMarked(lines[i], marker)
    && forall j {:trigger IsMarked(lines[j], marker)} :: 0 <= j < i ==> !IsMarked(lines[j], marker)
  }

  /** No line carries `marker`. */
  predicate NoneMarked(lines: seq<string>, marker: string)
  {
    forall j {:trigger IsMarked(lines[j], marker)} :: 0 <= j < |lines| ==> !IsMarked(lines[j], marker)
  }

  /** `next((i for i, line in enumerate(lines) if ...), -1)`, with `None` for -1: the first marked line. */
  function FirstMarked(lines: seq<string>, marker: string): (r: Option<nat>)
    ensures r.Some? ==> IsFirstMarked(lines, marker, r.value)
    ensures r.None? ==> NoneMarked(lines, marker)
  {
    if |lines| == 0 then None
    else if IsMarked(lines[0], marker) then Some(0)
    else match FirstMarked(lines[1..], marker)
      case None => None
      case Some(i) => Some(i + 1)
  }

  /** The first marked line is the one `FirstMarked` finds. */
  lemma FirstMarkedFinds(lines: seq<string>, marker: string, i: nat)
    requires IsFirstMarked(lines, marker, i)
    ensures FirstMarked(lines, marker) == Some(i)
  {
  }

  /** With no marked line, `FirstMarked` finds nothing. */
  lemma FirstMarkedMisses(lines: seq<string>, marker: string)
    requires NoneMarked(lines, marker)
    ensures FirstMarked(lines, marker) == None
  {
  }

  /** `min(i for i in (checkpoint_idx, recap_idx, len(lines)) if i != -1)`. */
  function StepEnd(c: Option<nat>, r: Option<nat>, n: nat): (e: nat)
    ensures e <= n
    ensures c.Some? ==> e <= c.value
    ensures r.Some? ==> e <= r.value
    ensures e == n || (c.Some? && e == c.value) || (r.Some? && e == r.value)
  {
    var afterCheckpoint := if c.Some? && c.value < n then c.value else n;
    if r.Some? && r.value < afterCheckpoint then r.value else afterCheckpoint
  }

  /** `checkpoint_end`: the recap line when it comes after the checkpoint line, else the end. */
  function CheckpointEnd(c: nat, r: Option<nat>, n: nat): (e: nat)
    ensures c < n && (r.Some? ==> r.value <= n) ==> c < e <= n
    ensures r.Some? && c < r.value ==> e == r.value
    ensures (r.None? || r.value <= c) ==> e == n
  {
    if r.Some? && r.value > c then r.value else n
  }

  /** `split_lesson_output(text)`; text with no non-blank line gives the three fallback texts. */
  function SplitLessonOutput(text: string): (p: LessonParts)
    ensures LessonLines(text) == [] ==> p == LessonParts(DefaultStep, DefaultCheckpoint, DefaultRecap)
  {
    SegmentLines(LessonLines(text))
  }

  /**
   * The slicing half of `split_lesson_output`, applied to the trimmed non-blank lines. It is
   * total and never hands back an empty field; the checkpoint and the recap always open with
   * their marker, whether extracted or defaulted.
   */
  function SegmentLines(lines: seq<string>): (p: LessonParts)
    ensures p.step != "" && p.checkpoint != "" && p.recap != ""
    ensures IsMarked(p.checkpoint, CheckpointMarker) && IsMarked(p.recap, RecapMarker)
  {
    var c := FirstMarked(lines, CheckpointMarker);
    var r := FirstMarked(lines, RecapMarker);
    var stepEnd := StepEnd(c, r, |lines|);
    var stepLines := if stepEnd > 0 then lines[..stepEnd] else lines;
    DefaultsMarked();
    var checkpoint :=
      if c.Some? then
        var group := lines[c.value..CheckpointEnd(c.value, r, |lines|)];
        MarkedJoin(" ", group, CheckpointMarker);
        Join(" ", group)
      else DefaultCheckpoint;
    var recap :=
      if r.Some? then
        MarkedJoin(" ", lines[r.value..], RecapMarker);
        Join(" ", lines[r.value..])
      else DefaultRecap;
    var stepPart := Strip(Join("\n", stepLines));
    LessonParts(if stepPart == "" then DefaultStep else stepPart, checkpoint, recap)
  }

  /** The trimmed lines of a text whose lines are trimmed and joined by line feeds are those lines. */
  lemma LessonLinesOfJoin(xs: seq<string>)
    requires |xs| > 0
    requires forall k :: 0 <= k < |xs| ==> Trimmed(xs[k]) && '\n' !in xs[k]
    ensures LessonLines(Join("\n", xs)) == xs
  {
    JoinTrimmed("\n", xs);
    StripTrimmed(Join("\n", xs));
    SplitOnJoin(xs, '\n');
    NonBlankLinesOfTrimmed(xs);
  }

  /** Joining lines whose first line carries a marker gives a text that carries it. */
  lemma MarkedJoin(sep: string, xs: seq<string>, marker: string)
    requires |xs| > 0 && IsMarked(xs[0], marker)
    ensures IsMarked(Join(sep, xs), marker)
  {
    JoinEnds(sep, xs);
    LowerPrefixExtends(Join(sep, xs), xs[0], marker);
  }

  /** A text that starts with `a`, where `a` matches the marker ignoring case, carries the marker. */
  lemma MarkedByPrefix(s: string, a: string, marker: string)
    requires StartsWith(s, a) && LowerPrefixFrom(a, marker, 0)
    ensures IsMarked(s, marker)
  {
    LowerPrefixFromSpec(a, marker);
    LowerPrefixExtends(s, a, marker);
  }

  /** Both fallback texts carry their own marker. */
  lemma DefaultsMarked()
    ensures IsMarked(DefaultCheckpoint, CheckpointMarker)
    ensures IsMarked(DefaultRecap, RecapMarker)
  {
    assert LowerPrefixFrom("Checkpoint:", CheckpointMarker, 0);
    MarkedByPrefix(DefaultCheckpoint, "Checkpoint:", CheckpointMarker);
    assert LowerPrefixFrom("Recap:", RecapMarker, 0);
    MarkedByPrefix(DefaultRecap, "Recap:", RecapMarker);
  }

  /** Trimmed lines: what `LessonLines` produces. */
  predicate AllTrimmed(lines: seq<string>)
  {
    forall k :: 0 <= k < |lines| ==> Trimmed(lines[k])
  }

  /** The step of non-blank lines is those lines, line-feed joined, never the fallback. */
  lemma StepOfLines(lines: seq<string>)
    requires |lines| > 0 && AllTrimmed(lines)
    ensures Strip(Join("\n", lines)) == Join("\n", lines) != ""
  {
    JoinTrimmed("\n", lines);
    StripTrimmed(Join("\n", lines));
  }

  /**
   * When the first marker line, of either kind, is line `e > 0` (or there is none and `e` is
   * the number of lines), the step is exactly the lines before it, joined by line feeds: no
   * marker line leaks into the step.
   */
  lemma StepBeforeFirstMarker(lines: seq<string>, e: nat)
    requires AllTrimmed(lines)
    requires 0 < e <= |lines|
    requires forall j :: 0 <= j < e ==> !IsMarked(lines[j], CheckpointMarker) && !IsMarked(lines[j], RecapMarker)
    requires e == |lines| || IsMarked(lines[e], CheckpointMarker) || IsMarked(lines[e], RecapMarker)
    ensures SegmentLines(lines).step == Join("\n", lines[..e])
  {
    var c := FirstMarked(lines, CheckpointMarker);
    var r := FirstMarked(lines, RecapMarker);
    assert StepEnd(c, r, |lines|) == e;
    assert forall k :: 0 <= k < e ==> lines[..e][k] == lines[k];
    StepOfLines(lines[..e]);
  }

  /**
   * When the very first line carries a marker, the step is the whole text, marker lines
   * included, rather than the fallback sentence (the `step_end > 0` guard).
   */
  lemma StepWholeTextWhenMarkerFirst(lines: seq<string>)
    requires AllTrimmed(lines)
    requires |lines| > 0 && (IsMarked(lines[0], CheckpointMarker) || IsMarked(lines[0], RecapMarker))
    ensures SegmentLines(lines).step == Join("\n", lines)
  {
    var c := FirstMarked(lines, CheckpointMarker);
    var r := FirstMarked(lines, RecapMarker);
    assert StepEnd(c, r, |lines|) == 0;
    StepOfLines(lines);
  }

  /**
   * Checkpoint before recap: the checkpoint runs up to the recap line, the recap runs to the
   * end, and together, space-joined, they are the whole tail from the checkpoint line.
   */
  lemma CheckpointThenRecap(lines: seq<string>, c: nat, r: nat)
    requires IsFirstMarked(lines, CheckpointMarker, c)
    requires IsFirstMarked(lines, RecapMarker, r)
    requires c < r
    ensures var p := SegmentLines(lines);
      && p.checkpoint == Join(" ", lines[c..r])
      && p.recap == Join(" ", lines[r..])
      && p.checkpoint + " " + p.recap == Join(" ", lines[c..])
  {
    FirstMarkedFinds(lines, CheckpointMarker, c);
    FirstMarkedFinds(lines, RecapMarker, r);
    JoinAppend(" ", lines[c..r], lines[r..]);
    assert lines[c..r] + lines[r..] == lines[c..];
  }

  /**
   * Recap before checkpoint: the checkpoint runs to the end, and the recap, also running to
   * the end, swallows it: it is the lines from the recap line up to the checkpoint line,
   * then a space, then the whole checkpoint.
   */
  lemma RecapSwallowsCheckpoint(lines: seq<string>, r: nat, c: nat)
    requires IsFirstMarked(lines, RecapMarker, r)
    requires IsFirstMarked(lines, CheckpointMarker, c)
    requires r < c
    ensures var p := SegmentLines(lines);
      && p.checkpoint == Join(" ", lines[c..])
      && p.recap == Join(" ", lines[r..c]) + " " + p.checkpoint
  {
    FirstMarkedFinds(lines, CheckpointMarker, c);
    FirstMarkedFinds(lines, RecapMarker, r);
    assert CheckpointEnd(c, Some(r), |lines|) == |lines|;
    assert lines[c..|lines|] == lines[c..];
    JoinAppend(" ", lines[r..c], lines[c..]);
    assert lines[r..c] + lines[c..] == lines[r..];
  }

  /** A marker that no line carries gives its fallback text. */
  lemma MissingMarkersDefault(lines: seq<string>)
    ensures NoneMarked(lines, CheckpointMarker) ==> SegmentLines(lines).checkpoint == DefaultCheckpoint
    ensures NoneMarked(lines, RecapMarker) ==> SegmentLines(lines).recap == DefaultRecap
  {
  }

  /** The recap always runs from the first recap line to the end of the text. */
  lemma RecapRunsToEnd(lines: seq<string>, r: nat)
    requires IsFirstMarked(lines, RecapMarker, r)
    ensures SegmentLines(lines).recap == Join(" ", lines[r..])
  {
    FirstMarkedFinds(lines, RecapMarker, r);
  }

  /** Without a recap line, the checkpoint runs from the first checkpoint line to the end. */
  lemma LoneCheckpointRunsToEnd(lines: seq<string>, c: nat)
    requires IsFirstMarked(lines, CheckpointMarker, c) && NoneMarked(lines, RecapMarker)
    ensures SegmentLines(lines).checkpoint == Join(" ", lines[c..])
  {
    FirstMarkedFinds(lines, CheckpointMarker, c);
    FirstMarkedMisses(lines, RecapMarker);
    assert lines[c..|lines|] == lines[c..];
  }

  /** No line of the text holds a line feed. */
  lemma LessonLinesSingle(text: string)
    ensures forall k :: 0 <= k < |LessonLines(text)| ==> '\n' !in LessonLines(text)[k]
  {
    NonBlankLinesFree(SplitOn(Strip(text), '\n'), '\n');
  }

  /** The checkpoint and the recap are single lines: each is space-joined lines, or a fallback. */
  lemma SegmentSingleLine(lines: seq<string>)
    requires forall k :: 0 <= k < |lines| ==> '\n' !in lines[k]
    ensures var p := SegmentLines(lines); '\n' !in p.checkpoint && '\n' !in p.recap
  {
    var c := FirstMarked(lines, CheckpointMarker);
    var r := FirstMarked(lines, RecapMarker);
    if c.Some? {
      var xs := lines[c.value..CheckpointEnd(c.value, r, |lines|)];
      assert forall k :: 0 <= k < |xs| ==> xs[k] == lines[c.value + k];
      JoinFree(" ", xs, '\n');
    } else {
      assert '\n' !in DefaultCheckpoint;
    }
    if r.Some? {
      var xs := lines[r.value..];
      assert forall k :: 0 <= k < |xs| ==> xs[k] == lines[r.value + k];
      JoinFree(" ", xs, '\n');
    } else {
      assert '\n' !in DefaultRecap;
    }
  }

  /** The three fallback texts are already trimmed. */
  lemma DefaultsTrimmed()
    ensures Trimmed(DefaultStep) && Trimmed(DefaultCheckpoint) && Trimmed(DefaultRecap)
  {
  }

  /** Over trimmed lines, the step, the checkpoint and the recap all come out trimmed. */
  lemma SegmentTrimmed(lines: seq<string>)
    requires AllTrimmed(lines)
    ensures var p := SegmentLines(lines); Trimmed(p.step) && Trimmed(p.checkpoint) && Trimmed(p.recap)
  {
    DefaultsTrimmed();
    var c := FirstMarked(lines, CheckpointMarker);
    var r := FirstMarked(lines, RecapMarker);
    if c.Some? {
      var start := c.value;
      var xs := lines[start..CheckpointEnd(start, r, |lines|)];
      assert forall k :: 0 <= k < |xs| ==> xs[k] == lines[start + k];
      JoinTrimmed(" ", xs);
    }
    if r.Some? {
      var start := r.value;
      var xs := lines[start..];
      assert forall k :: 0 <= k < |xs| ==> xs[k] == lines[start + k];
      JoinTrimmed(" ", xs);
    }
  }

  /** `split_lesson_output` hands back a trimmed step, checkpoint and recap for every reply. */
  lemma SplitLessonOutputTrimmed(text: string)
    ensures var p := SplitLessonOutput(text); Trimmed(p.step) && Trimmed(p.checkpoint) && Trimmed(p.recap)
  {
    SegmentTrimmed(LessonLines(text));
  }
}
