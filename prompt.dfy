/**
 * Prompt assembly for a lesson step (`build_messages`): the request, the fixed texts, and the
 * user note built from fixed fragments in a fixed order.
 */
module Prompt {
  import opened Wrappers
  import opened Text

  /** `LessonStepRequest`; `None` stands for a field left out of the request. */
  datatype LessonRequest = LessonRequest(
    subject: string,
    topic: string,
    level: string,
    sessionId: Option<string>,
    lastAnswer: Option<string>,
    confusion: bool,
    misconceptions: Option<seq<string>>)

  /**
   * `SYSTEM_PROMPT`, line by line: line `i` of the prompt, for `i` below `SystemPromptLineCount`.
   * The prompt ends with a line feed, so its last line is empty.
   */
  function SystemPromptLine(i: nat): string
  {
    match i
    case 0 => "You are an AI Teaching Assistant focused on making complex concepts easy to understand."
    case 1 => ""
    case 2 => "Teaching Approach:"
    case 3 => "1. Start with a simple, real-world example that illustrates the concept"
    case 4 => "2. Explain the core idea in plain language"
    case 5 => "3. Break down the concept into small, digestible steps"
    case 6 => "4. Use analogies related to everyday life"
    case 7 => "5. Provide a clear, practical example"
    case 8 => "6. End with a simple question to check understanding"
    case 9 => ""
    case 10 => "Example Format:"
    case 11 => "[Real-world example]"
    case 12 => "[Simple explanation]"
    case 13 => "[Step-by-step breakdown]"
    case 14 => "[Practical application]"
    case 15 => "[Checkpoint question]"
    case 16 => ""
    case 17 => "Rules:"
    case 18 => "- Use simple, conversational language"
    case 19 => "- Keep explanations brief and to the point"
    case 20 => "- Avoid technical jargon"
    case 21 => "- Focus on understanding, not memorization"
    case 22 => "- Adapt to the student's level (beginner/intermediate)"
    case 23 => "- If the student is confused, try a different example"
    case _ => ""
  }

  const SystemPromptLineCount := 25

  /** `SYSTEM_PROMPT`: its lines joined by line feeds. */
  const SystemPrompt: string :=
    Join("\n", seq(SystemPromptLineCount, i requires 0 <= i < SystemPromptLineCount => SystemPromptLine(i)))

  /** The system prompt opens with the role line, followed by a line feed. */
  lemma SystemPromptOpening()
    ensures StartsWith(SystemPrompt, SystemPromptLine(0) + "\n")
  {
    var xs := seq(SystemPromptLineCount, i requires 0 <= i < SystemPromptLineCount => SystemPromptLine(i));
    JoinOpening("\n", xs);
  }

  /** The system prompt ends with a line feed, as the triple-quoted literal does. */
  lemma SystemPromptEnding()
    ensures SystemPrompt[|SystemPrompt| - 1] == '\n'
  {
    var xs := seq(SystemPromptLineCount, i requires 0 <= i < SystemPromptLineCount => SystemPromptLine(i));
    JoinEnding("\n", xs);
  }

  const MisconceptionsLabel := " Known misconceptions: "
  const AnswerLabel := " Learner previous answer: "
  const ConfusionSentence := " Learner is confused; re-explain with a different analogy."

  /** The extra user turn `lesson_step` appends after the assembled messages. */
  const LessonInstruction := "Please provide a clear, step-by-step explanation with a real-world example."

  /** `if req.misconceptions:` — present and non-empty. */
  predicate HasMisconceptions(req: LessonRequest)
  {
    req.misconceptions.Some? && |req.misconceptions.value| > 0
  }

  /** `if req.last_answer:` — present and non-empty. */
  predicate HasAnswer(req: LessonRequest)
  {
    req.lastAnswer.Some? && req.lastAnswer.value != ""
  }

  /** The fixed opening `Subject: .... Topic: .... Level: ....` of every user note. */
  function Header(req: LessonRequest): (h: string)
    ensures StartsWith(h, "Subject: ")
    ensures h[|h| - 1] == '.'
  {
    "Subject: " + req.subject + ". Topic: " + req.topic + ". Level: " + req.level + "."
  }

  /** The misconceptions fragment: empty unless there are misconceptions, then labelled and dot-terminated. */
  function MisconceptionNote(req: LessonRequest): (f: string)
    ensures f == "" <==> !HasMisconceptions(req)
    ensures HasMisconceptions(req) ==> StartsWith(f, MisconceptionsLabel) && f[|f| - 1] == '.'
  {
    if HasMisconceptions(req) then MisconceptionsLabel + Join(", ", req.misconceptions.value) + "." else ""
  }

  /** The previous-answer fragment: empty unless there is an answer, then labelled and dot-terminated. */
  function AnswerNote(req: LessonRequest): (f: string)
    ensures f == "" <==> !HasAnswer(req)
    ensures HasAnswer(req) ==> StartsWith(f, AnswerLabel) && f[|f| - 1] == '.'
  {
    if HasAnswer(req) then AnswerLabel + req.lastAnswer.value + "." else ""
  }

  /** The confusion fragment: the fixed sentence exactly when the flag is set. */
  function ConfusionNote(req: LessonRequest): (f: string)
    ensures f == "" <==> !req.confusion
  {
    if req.confusion then ConfusionSentence else ""
  }

  /** The content of the user turn: the header, then the optional fragments in their fixed order. */
  function UserNote(req: LessonRequest): (n: string)
    ensures |n| > 0 && n[|n| - 1] == '.'
  {
    Header(req) + MisconceptionNote(req) + AnswerNote(req) + ConfusionNote(req)
  }

  /** The note always opens with the header, and is nothing more exactly when no optional part applies. */
  lemma UserNoteHeader(req: LessonRequest)
    ensures StartsWith(UserNote(req), Header(req))
    ensures UserNote(req) == Header(req) <==> !HasMisconceptions(req) && !HasAnswer(req) && !req.confusion
  {
    var n := UserNote(req);
    assert n[..|Header(req)|] == Header(req);
  }

  /** Each known misconception is quoted in the note. */
  lemma UserNoteMentionsMisconception(req: LessonRequest, k: nat)
    requires HasMisconceptions(req) && k < |req.misconceptions.value|
    ensures Contains(UserNote(req), req.misconceptions.value[k])
  {
    var m := req.misconceptions.value[k];
    MisconceptionNoteMentions(req, k);
    ContainsWithin(Header(req), MisconceptionNote(req), AnswerNote(req) + ConfusionNote(req), m);
    assert UserNote(req) == Header(req) + MisconceptionNote(req) + (AnswerNote(req) + ConfusionNote(req));
  }

  lemma MisconceptionNoteMentions(req: LessonRequest, k: nat)
    requires HasMisconceptions(req) && k < |req.misconceptions.value|
    ensures Contains(MisconceptionNote(req), req.misconceptions.value[k])
  {
    var ms := req.misconceptions.value;
    JoinContainsEach(", ", ms, k);
    ContainsWithin(MisconceptionsLabel, Join(", ", ms), ".", ms[k]);
  }

  /** The learner's previous answer is quoted in the note when there is one. */
  lemma UserNoteMentionsAnswer(req: LessonRequest)
    requires HasAnswer(req)
    ensures Contains(UserNote(req), req.lastAnswer.value)
  {
    var a := req.lastAnswer.value;
    assert OccursAt(a, a, 0);
    ContainsWithin(AnswerLabel, a, ".", a);
    ContainsWithin(Header(req) + MisconceptionNote(req), AnswerNote(req), ConfusionNote(req), a);
  }

  /** The confusion sentence comes last, after the misconceptions and the previous answer. */
  lemma UserNoteEndsWithConfusion(req: LessonRequest)
    requires req.confusion
    ensures var n := UserNote(req);
      |ConfusionSentence| <= |n| && n[|n| - |ConfusionSentence|..] == ConfusionSentence
  {
  }

  /** `PracticeRequest`. */
  datatype PracticeRequest = PracticeRequest(subject: string, topic: string, level: string, sessionId: Option<string>)

  const PracticeOpening := "Create 5 practice questions for subject "
  const PracticeClosing := ". Mix conceptual, applied, and one small code or worked example. Return numbered items."

  /** The user turn of a practice request: the subject, topic and level set inside fixed wording. */
  function PracticeInstruction(req: PracticeRequest): (s: string)
    ensures StartsWith(s, PracticeOpening)
    ensures |PracticeClosing| <= |s| && s[|s| - |PracticeClosing|..] == PracticeClosing
  {
    PracticeOpening + req.subject + ", topic " + req.topic + ", level " + req.level + PracticeClosing
  }

  /** The practice instruction names the subject, the topic and the level it was asked for. */
  lemma PracticeInstructionMentions(req: PracticeRequest)
    ensures Contains(PracticeInstruction(req), req.subject)
    ensures Contains(PracticeInstruction(req), req.topic)
    ensures Contains(PracticeInstruction(req), req.level)
  {
    var s, t, l := req.subject, req.topic, req.level;
    ContainsSelf(s);
    ContainsSelf(t);
    ContainsSelf(l);
    var x, y := ", topic ", ", level ";
    ContainsWithin(PracticeOpening, s, x + t + y + l + PracticeClosing, s);
    ContainsWithin(PracticeOpening + s + x, t, y + l + PracticeClosing, t);
    ContainsWithin(PracticeOpening + s + x + t + y, l, PracticeClosing, l);
    Regroup(PracticeOpening, s, x, t, y, l, PracticeClosing);
  }

  /** Re-association of the seven-part practice prompt; `PracticeInstructionMentions` uses it to find each embedded value. */
  lemma Regroup(a: string, b: string, c: string, d: string, e: string, f: string, g: string)
    ensures var whole := a + b + c + d + e + f + g;
      && whole == a + b + (c + d + e + f + g)
      && whole == a + b + c + d + (e + f + g)
  {
  }
}
