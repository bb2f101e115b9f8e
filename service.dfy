/**
 * The two endpoints over the shared session store: `lesson_step` and `practice`. The store
 * is an object whose map is updated in place; the model's reply, which the service obtains
 * from a remote chat-completion call, is a parameter, and so is the fresh id that stands for
 * `uuid.uuid4()`.
 */
module Service {
  import opened Wrappers
  import opened Text
  import opened Session
  import opened Prompt
  import opened LessonOutput
  import opened Practice

  datatype LessonStepResponse = LessonStepResponse(sessionId: string, step: string, checkpointQuestion: string, recap: string)

  datatype PracticeResponse = PracticeResponse(sessionId: string, practice: seq<PracticeItem>)

  /** The `step` field of the response: step, checkpoint and recap separated by blank lines. */
  function FormatStep(parts: LessonParts): (s: string)
    ensures |s| == |parts.step| + |parts.checkpoint| + |parts.recap| + 4
    ensures StartsWith(s, parts.step)
    ensures s[|s| - |parts.recap|..] == parts.recap
  {
    parts.step + "\n\n" + parts.checkpoint + "\n\n" + parts.recap
  }

  /**
   * A formatted step whose checkpoint and recap are single lines reads back line by line:
   * the step's own lines, a blank line, the checkpoint, a blank line and the recap.
   */
  lemma FormatStepLinesOf(p: LessonParts)
    requires '\n' !in p.checkpoint && '\n' !in p.recap
    ensures SplitOn(FormatStep(p), '\n') == SplitOn(p.step, '\n') + ["", p.checkpoint, "", p.recap]
  {
    var tail := p.checkpoint + "\n\n" + p.recap;
    assert FormatStep(p) == p.step + ['\n'] + ("" + ['\n'] + tail);
    SplitOnAppend(p.step, "" + ['\n'] + tail, '\n');
    SplitOnAppend("", tail, '\n');
    assert SplitOn("", '\n') == [""];
    BlankLineBetween(p.checkpoint, p.recap);
  }

  /** Two single lines with a blank line between them read back as three lines. */
  lemma BlankLineBetween(c: string, r: string)
    requires '\n' !in c && '\n' !in r
    ensures SplitOn(c + "\n\n" + r, '\n') == [c, "", r]
  {
    assert c + "\n\n" + r == c + ['\n'] + ("" + ['\n'] + r);
    SplitOnAppend(c, "" + ['\n'] + r, '\n');
    SplitOnAppend("", r, '\n');
    SplitOnNone(c, '\n');
    SplitOnNone(r, '\n');
    assert SplitOn("", '\n') == [""];
  }

  /**
   * The step of a lesson response reads back line by line: the step's own lines, a blank
   * line, the checkpoint, a blank line and the recap, because neither the checkpoint nor the
   * recap holds a line feed.
   */
  lemma FormatStepLines(text: string)
    ensures var p := SplitLessonOutput(text);
      SplitOn(FormatStep(p), '\n') == SplitOn(p.step, '\n') + ["", p.checkpoint, "", p.recap]
  {
    LessonLinesSingle(text);
    SegmentSingleLine(LessonLines(text));
    FormatStepLinesOf(SplitLessonOutput(text));
  }

  /** Regrouping a two-turn append; `LessonStep` needs it to show its prompt ends with both user turns. */
  lemma AppendTwo<T>(a: seq<T>, x: T, y: T)
    ensures a + [x] + [y] == a + [x, y]
  {
  }

  /** `SESSIONS`: the one piece of state the service keeps between requests. */
  class SessionStore {
    var sessions: Store

    ghost predicate Valid()
      reads this
    {
      StoreInvariant(sessions)
    }

    /** The store starts empty. */
    constructor ()
      ensures Valid() && sessions == map[]
    {
      sessions := map[];
    }

    /** `get_or_create_session`, with `freshId` the uuid it would draw. */
    method GetOrCreate(sessionId: Option<string>, freshId: string) returns (id: string)
      requires Valid()
      requires freshId != "" && freshId !in sessions
      modifies this
      ensures Valid()
      ensures Resolution(id, sessions) == Resolve(old(sessions), sessionId, freshId)
    {
      if sessionId.Some? && sessionId.value != "" && sessionId.value in sessions {
        return sessionId.value;
      }
      id := if sessionId.Some? && sessionId.value != "" then sessionId.value else freshId;
      sessions := sessions[id := []];
    }

    /**
     * `build_messages`: the system turn, then the stored history of the request's session in
     * order (none for an absent or unknown id), then one user turn carrying the note.
     */
    method BuildMessages(req: LessonRequest) returns (messages: seq<Turn>)
      ensures var h := HistoryOf(sessions, req.sessionId);
        && messages == [Turn(System, SystemPrompt)] + h + [Turn(User, UserNote(req))]
        && |messages| == |h| + 2
    {
      var history := if req.sessionId.Some? && req.sessionId.value in sessions then sessions[req.sessionId.value] else [];
      var note := "Subject: " + req.subject + ". Topic: " + req.topic + ". Level: " + req.level + ".";
      assert note == Header(req);
      if req.misconceptions.Some? && |req.misconceptions.value| > 0 {
        note := note + (MisconceptionsLabel + Join(", ", req.misconceptions.value) + ".");
      }
      assert note == Header(req) + MisconceptionNote(req);
      if req.lastAnswer.Some? && req.lastAnswer.value != "" {
        note := note + (AnswerLabel + req.lastAnswer.value + ".");
      }
      assert note == Header(req) + MisconceptionNote(req) + AnswerNote(req);
      if req.confusion {
        note := note + ConfusionSentence;
      }
      assert note == UserNote(req);
      messages := [Turn(System, SystemPrompt)];
      messages := messages + history;
      messages := messages + [Turn(User, note)];
    }

    /**
     * `lesson_step`, given the model's reply `raw`: resolve the session, send the built
     * messages plus the lesson instruction, split the reply, append the raw reply to the
     * session's history as one assistant turn, and answer with the three parts.
     */
    method LessonStep(req: LessonRequest, freshId: string, raw: string)
      returns (resp: LessonStepResponse, prompt: seq<Turn>)
      requires Valid()
      requires freshId != "" && freshId !in sessions
      modifies this
      ensures Valid()
      ensures var r := Resolve(old(sessions), req.sessionId, freshId);
        && resp.sessionId == r.id
        && sessions == r.store[r.id := r.store[r.id] + [Turn(Assistant, raw)]]
        && prompt == [Turn(System, SystemPrompt)] + r.store[r.id]
                     + [Turn(User, UserNote(req)), Turn(User, LessonInstruction)]
      ensures var p := SplitLessonOutput(raw);
        resp.step == FormatStep(p) && resp.checkpointQuestion == p.checkpoint && resp.recap == p.recap
    {
      ghost var r := Resolve(sessions, req.sessionId, freshId);
      LessonStepHistory(sessions, req.sessionId, freshId, raw);
      var id := GetOrCreate(req.sessionId, freshId);
      var messages := BuildMessages(req.(sessionId := Some(id)));
      AppendTwo([Turn(System, SystemPrompt)] + r.store[r.id], Turn(User, UserNote(req)), Turn(User, LessonInstruction));
      messages := messages + [Turn(User, LessonInstruction)];
      prompt := messages;
      var parts := SplitLessonOutput(raw);
      var formatted := FormatStep(parts);
      sessions := sessions[id := sessions[id] + [Turn(Assistant, raw)]];
      resp := LessonStepResponse(id, formatted, parts.checkpoint, parts.recap);
    }

    /**
     * `practice`, given the model's reply `raw`: resolve the session, send the system turn
     * and the practice instruction, and answer with the formatted items. The store gains at
     * most the new session; no history is appended.
     */
    method Practice(req: PracticeRequest, freshId: string, raw: string)
      returns (resp: PracticeResponse, prompt: seq<Turn>)
      requires Valid()
      requires freshId != "" && freshId !in sessions
      modifies this
      ensures Valid()
      ensures Resolution(resp.sessionId, sessions) == Resolve(old(sessions), req.sessionId, freshId)
      ensures prompt == [Turn(System, SystemPrompt), Turn(User, PracticeInstruction(req))]
      ensures resp.practice == PracticeItems(raw)
    {
      var id := GetOrCreate(req.sessionId, freshId);
      prompt := [Turn(System, SystemPrompt), Turn(User, PracticeInstruction(req))];
      var items := FormatPractice(raw);
      resp := PracticeResponse(id, items);
    }
  }

  /**
   * A lesson step grows exactly the resolved session's history, by the one raw reply, and
   * leaves every other history as it was.
   */
  lemma LessonStepHistory(store: Store, sessionId: Option<string>, freshId: string, raw: string)
    requires StoreInvariant(store) && freshId != "" && freshId !in store
    ensures var r := Resolve(store, sessionId, freshId);
      var after := r.store[r.id := r.store[r.id] + [Turn(Assistant, raw)]];
      && StoreInvariant(after)
      && after.Keys == store.Keys + {r.id}
      && after[r.id] == HistoryOf(store, Some(r.id)) + [Turn(Assistant, raw)]
      && (forall id :: id in store && id != r.id ==> after[id] == store[id])
  {
    ResolveSpec(store, sessionId, freshId);
    ResolveKeepsInvariant(store, sessionId, freshId);
  }
}
