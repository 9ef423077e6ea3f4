/** What a decision says, in terms of the model's answers, the messages and the user's text. */
module AgentAnswers {
  import opened Common
  import opened Text
  import opened AgentMessages
  import opened AgentTurn
  import opened AgentSafety

  // ----- The appended message -----

  predicate Proposes(calls: seq<Call>) {
    exists i :: 0 <= i < |calls| && (calls[i].name == ProposeFromCv || calls[i].name == ProposeUpdate)
  }

  /** With a proposal exactly the commit calls go and the others stay, in order; without one all stay. */
  ghost predicate KeepsCalls(kept: seq<Call>, calls: seq<Call>) {
    if Proposes(calls) then
      exists at ::
        && Positions(at, calls, (c: Call) => c.name != CommitDraft) && |kept| == |at|
        && forall n :: 0 <= n < |at| ==> at[n] < |calls| && kept[n] == calls[at[n]]
    else kept == calls
  }

  /** The turn `u` is `t` with one message of this content and these calls, made with `n` answers of the model. */
  ghost predicate Says(cfg: Config, t: Turn, u: Turn, content: string, calls: seq<Call>, n: nat) {
    && |u.msgs| == |t.msgs| + 1 && u.msgs[..|t.msgs|] == t.msgs
    && u.msgs[|t.msgs|].Ai? && u.msgs[|t.msgs|].content == content && KeepsCalls(u.msgs[|t.msgs|].calls, calls)
    && u.modelCalls == t.modelCalls + n && u.count == t.count && u.passes == t.passes
    && (u.msgs[|t.msgs|].calls == [] ==> u.error.None? && u.node.End?)
    && (u.msgs[|t.msgs|].calls != [] && t.count < cfg.limit ==> u.error.None? && u.node.Tools?)
    && (u.msgs[|t.msgs|].calls != [] && t.count >= cfg.limit ==> u.error == Some(LoopLimit) && u.node.End?)
  }

  lemma {:induction false} WithoutCommitAt(calls: seq<Call>) returns (at: seq<nat>)
    ensures Positions(at, calls, (c: Call) => c.name != CommitDraft)
    ensures |WithoutCommit(calls)| == |at|
    ensures forall n :: 0 <= n < |at| ==> at[n] < |calls| && WithoutCommit(calls)[n] == calls[at[n]]
    decreases |calls|
  {
    if calls == [] {
      at := [];
    } else {
      var front, last := calls[..|calls| - 1], calls[|calls| - 1];
      at := WithoutCommitAt(front);
      PositionsGrow(at, front, last, (c: Call) => c.name != CommitDraft);
      assert front + [last] == calls;
      at := at + if last.name != CommitDraft then [|front|] else [];
    }
  }

  lemma StrippedKeeps(m: Message)
    requires m.Ai?
    ensures StripCommit(m).Ai? && StripCommit(m).content == m.content && KeepsCalls(StripCommit(m).calls, m.calls)
  {
    var at := WithoutCommitAt(m.calls);
    hide WithoutCommit, Positions;
  }

  lemma SaidIs(cfg: Config, t: Turn, m: Message, n: nat)
    requires m.Ai?
    ensures var s := StripCommit(m);
            Says(cfg, t, Turn(t.msgs + [s], t.count, LimitError(cfg, t.count, s), t.modelCalls + n, t.passes,
                              Route(cfg, t.msgs + [s], t.count, LimitError(cfg, t.count, s))), m.content, m.calls, n)
  {
    var s := StripCommit(m);
    StrippedKeeps(m);
    assert (t.msgs + [s])[|t.msgs|] == s;
    hide KeepsCalls, StripCommit;
  }

  // ----- When the model is asked -----

  /** Nothing the messages or the text settle by themselves. */
  predicate Asks(cfg: Config, t: Turn) {
    && t.node.Deciding? && t.error.None? && !InvalidUpdate(t.msgs) && !CommitDue(cfg, t.msgs) && !ReadDue(cfg, t.msgs)
    && !NarrationDue(cfg, t.msgs) && CanonicalSave(cfg, t.msgs, "").None?
  }

  predicate CallsSave(r: Reply) {
    exists i :: 0 <= i < |r.calls| && r.calls[i].name == SaveJob
  }

  predicate SoleSave(r: Reply) {
    |r.calls| == 1 && r.calls[0].name == SaveJob
  }

  /** A sole save call of the current message, with no other argument than a sound preview. */
  predicate SoundSave(r: Reply) {
    SoleSave(r) && Validate(r.calls[0].args) == Some(ByCurrentMessage)
  }

  /** A turn that names `save_job` and has not called it yet. */
  predicate NamedUnsaved(cfg: Config, t: Turn) {
    && cfg.saveAvailable && !cfg.oracles.optOut(UserText(t.msgs)) && NamesSaveJob(cfg.oracles, UserText(t.msgs))
    && !CalledTool(t.msgs, SaveJob)
  }

  /** A turn that may still save the pasted text. */
  predicate PassiveUnsaved(cfg: Config, t: Turn) {
    && cfg.saveAvailable && !cfg.oracles.optOut(UserText(t.msgs)) && !NamesSaveJob(cfg.oracles, UserText(t.msgs))
    && !cfg.oracles.soleUrl(UserText(t.msgs)) && !CalledTool(t.msgs, SaveJob)
  }

  /**
    A turn that neither has to save by name nor may still save the pasted text takes the model's first
    answer as it came; in the latter case too, unless it calls `save_job`, or has no calls and the text
    is large.
   */
  predicate TakesFirst(cfg: Config, t: Turn, r: Reply) {
    && !NamedUnsaved(cfg, t)
    && (PassiveUnsaved(cfg, t) ==> !CallsSave(r) && (r.calls != [] || !cfg.oracles.largeText(UserText(t.msgs))))
  }

  lemma AskedSays(cfg: Config, t: Turn, d: Draw)
    requires Asks(cfg, t)
    ensures var r := Respond(cfg, t.msgs, d);
            r.0.Ai? && Says(cfg, t, ChooseStep(cfg, t, d), r.0.content, r.0.calls, r.1)
  {
    hide InvalidUpdate, CommitDue, ReadDue, NarrationDue, Respond, StripCommit, LimitError, Route, Says, NamesSaveJob,
      CalledTool, ExplicitText, IsBlank;
    RespondSpeaks(cfg, t.msgs, d);
    SaidIs(cfg, t, Respond(cfg, t.msgs, d).0, Respond(cfg, t.msgs, d).1);
  }

  /** The first answer, where it is taken, is said with one question. */
  lemma AnswerIsSaid(cfg: Config, t: Turn, d: Draw)
    requires Asks(cfg, t) && TakesFirst(cfg, t, d.first)
    ensures Says(cfg, t, ChooseStep(cfg, t, d), d.first.content, d.first.calls, 1)
  {
    AskedSays(cfg, t, d);
    hide Asks, Says, ChooseStep, NamesSaveJob, CalledTool, Validate;
  }

  const NO_CONFIRMATION := "No confirmation was created and the JD was not saved."
  const NO_ACTION := "No action occurred: save_job was not executed, so no Job was created or reused."

  /** One call that saves the current message, under a fresh identifier. */
  function SaveCurrent(uuid: string): seq<Call> {
    [Call(CallId("canonical-save-current-message-" + uuid), SaveJob,
          Args(Absent, Absent, Str("current_message"), NoPreview, []))]
  }

  /** A turn that may save the pasted text and is answered by one save call saves it: as called, or corrected. */
  lemma PassiveSaveIsSaid(cfg: Config, t: Turn, d: Draw)
    requires Asks(cfg, t) && PassiveUnsaved(cfg, t) && SoleSave(d.first)
    ensures var u := ChooseStep(cfg, t, d);
            if SoundSave(d.first) then Says(cfg, t, u, d.first.content, d.first.calls, 1)
            else Says(cfg, t, u, "", SaveCurrent(d.uuid), 1)
  {
    AskedSays(cfg, t, d);
    hide Asks, Says, ChooseStep, NamesSaveJob, CalledTool, Validate;
  }

  /**
    Asked again, after plain text to a large message or after a save among other calls: one save call is
    taken or corrected as before, and any other call is replaced by the fixed refusal. Plain text is the
    answer to a large message, and the refusal after a wrong save.
   */
  lemma SecondAnswerIsSaid(cfg: Config, t: Turn, d: Draw)
    requires Asks(cfg, t) && PassiveUnsaved(cfg, t) && !SoleSave(d.first)
    requires CallsSave(d.first) || (d.first.calls == [] && cfg.oracles.largeText(UserText(t.msgs)))
    ensures var u := ChooseStep(cfg, t, d);
            if SoundSave(d.second) then Says(cfg, t, u, d.second.content, d.second.calls, 2)
            else if SoleSave(d.second) then Says(cfg, t, u, "", SaveCurrent(d.uuid), 2)
            else if d.first.calls == [] && d.second.calls == [] then Says(cfg, t, u, d.second.content, [], 2)
            else Says(cfg, t, u, NO_CONFIRMATION, [], 2)
  {
    AskedSays(cfg, t, d);
    SecondResponse(cfg, t, d);
    hide Asks, Says, ChooseStep, PassiveUnsaved, Validate, Respond;
  }

  lemma SecondResponse(cfg: Config, t: Turn, d: Draw)
    requires PassiveUnsaved(cfg, t) && !SoleSave(d.first)
    requires CallsSave(d.first) || (d.first.calls == [] && cfg.oracles.largeText(UserText(t.msgs)))
    ensures Respond(cfg, t.msgs, d)
            == (if SoundSave(d.second) || (d.first.calls == [] && d.second.calls == []) then Answer(d.second)
                else if SoleSave(d.second) then CurrentMessageCall(d.uuid)
                else PASSIVE_NO_CONFIRMATION, 2)
  {
    hide NamesSaveJob, CalledTool, Validate;
  }

  /**
    A turn that names `save_job` takes the first answer with calls of two; it is said if it is one save
    call, and is the fixed text otherwise.
   */
  lemma NamedAnswerIsSaid(cfg: Config, t: Turn, d: Draw)
    requires Asks(cfg, t) && NamedUnsaved(cfg, t)
    ensures var u, r, n := ChooseStep(cfg, t, d), if d.first.calls != [] then d.first else d.second,
                           if d.first.calls != [] then 1 else 2;
            if SoleSave(r) then Says(cfg, t, u, r.content, r.calls, n) else Says(cfg, t, u, NO_ACTION, [], n)
  {
    AskedSays(cfg, t, d);
    hide Asks, Says, ChooseStep, NamesSaveJob, CalledTool, Validate;
  }

  // ----- What settles a decision beforehand -----

  predicate MakesCall(m: Message, name: ToolName) {
    m.Ai? && exists k :: 0 <= k < |m.calls| && m.calls[k].name == name
  }

  /** A proposal that succeeded and left a draft. */
  predicate LeftDraft(m: Message) {
    && m.Tool? && (m.name == ProposeFromCv || m.name == ProposeUpdate) && m.payload.Some?
    && m.payload.value.ok == Yes && m.payload.value.data.Some?
    && (m.payload.value.data.value.kind != OtherKind || m.payload.value.data.value.isProfileDraft)
  }

  /** `save_job` stands at `i` with no letter, digit or underscore touching it on either side. */
  predicate WordAt(o: Oracles, text: string, i: nat) {
    && i + 8 <= |text| && text[i..i + 8] == "save_job"
    && (i == 0 || !TouchesWord(o, text[i - 1])) && (i + 8 == |text| || !TouchesWord(o, text[i + 8]))
  }

  lemma NamesSaveJobMeans(o: Oracles, text: string)
    ensures NamesSaveJob(o, text) <==> exists i: nat :: WordAt(o, text, i)
  {
    assert forall c :: IsWordChar(o, c) <==> TouchesWord(o, c);
    hide IsWordChar, TouchesWord;
    if NamesSaveJob(o, text) {
      var i :| 0 <= i <= |text| - 8 && NamedAt(o, text, i);
      assert WordAt(o, text, i);
    }
    if i: nat :| WordAt(o, text, i) {
      assert NamedAt(o, text, i);
    }
  }

  predicate TouchesWord(o: Oracles, c: char) {
    || 'a' <= c <= 'z' || 'A' <= c <= 'Z' || '0' <= c <= '9' || c == '_'
    || (c >= '\U{0080}' && o.wordOutsideAscii(c))
  }

  /** The read is due iff the text is the one question, nothing has read the CV and it has an experience section. */
  lemma ReadDueMeans(cfg: Config, msgs: seq<Message>)
    ensures ReadDue(cfg, msgs)
       <==> && cfg.readAvailable && Strip(UserText(msgs)) == RECENT_ROLE_QUESTION && cfg.experienceSection.Some?
            && forall i :: 0 <= i < |msgs| ==>
                 !MakesCall(msgs[i], ReadActiveCv) && !(msgs[i].Tool? && msgs[i].name == ReadActiveCv)
  {
    assert forall i :: 0 <= i < |msgs| ==> (HasCallTo(msgs[i], ReadActiveCv) <==> MakesCall(msgs[i], ReadActiveCv));
    hide HasCallTo, MakesCall, Strip;
  }

  /** A commit is due iff a draft was left since the last calls and no message asked for a commit. */
  lemma CommitDueMeans(cfg: Config, msgs: seq<Message>)
    ensures CommitDue(cfg, msgs)
       <==> && cfg.commitAvailable && (forall i :: 0 <= i < |msgs| ==> !MakesCall(msgs[i], CommitDraft))
            && exists j ::
                 && 0 <= j < |msgs| && LeftDraft(msgs[j])
                 && forall i :: j < i < |msgs| ==> !(msgs[i].Ai? && msgs[i].calls != [])
  {
    DraftReadyMeans(msgs);
    assert forall i :: 0 <= i < |msgs| ==> (IsDraftResult(msgs[i]) <==> LeftDraft(msgs[i]));
    assert forall i :: 0 <= i < |msgs| ==> (HasCallTo(msgs[i], CommitDraft) <==> MakesCall(msgs[i], CommitDraft));
    assert forall i :: 0 <= i < |msgs| ==> (HasCalls(msgs[i]) <==> msgs[i].Ai? && msgs[i].calls != []);
    hide IsDraftResult, LeftDraft, HasCallTo, MakesCall, HasCalls, DraftReady;
  }

  /** A result with a visible summary and an answer, under the tool's name or the id of a save call. */
  predicate IsSaveAnswer(msgs: seq<Message>, m: Message) {
    && m.Tool? && m.payload.Some? && m.payload.value.ok != Missing
    && m.payload.value.summary.Some? && !IsBlank(m.payload.value.summary.value)
    && (m.name == SaveJob
        || (!IsBlank(m.callId.text)
            && exists i, k ::
                 && 0 <= i < |msgs| && msgs[i].Ai? && 0 <= k < |msgs[i].calls|
                 && msgs[i].calls[k] == Call(m.callId, SaveJob, msgs[i].calls[k].args)))
  }

  predicate SavesCurrentMessage(m: Message) {
    m.Ai? && exists k ::
      0 <= k < |m.calls| && m.calls[k].name == SaveJob && m.calls[k].args.source == Str("current_message")
  }

  /** The turn names `save_job`, saved the current message, or was cancelled without a commit. */
  predicate TellsResult(cfg: Config, msgs: seq<Message>, result: Message)
    requires IsSaveAnswer(msgs, result)
  {
    || (cfg.saveAvailable && !cfg.oracles.optOut(UserText(msgs)) && NamesSaveJob(cfg.oracles, UserText(msgs)))
    || (exists i :: 0 <= i < |msgs| && SavesCurrentMessage(msgs[i]))
    || (&& result.payload.value.data.Some? && result.payload.value.data.value.outcome == Cancelled
        && result.payload.value.data.value.notCommitted)
  }

  /** `i` is the latest validated save result. */
  ghost predicate LatestSave(msgs: seq<Message>, i: nat) {
    i < |msgs| && IsSaveAnswer(msgs, msgs[i]) && forall j :: i < j < |msgs| ==> !IsSaveAnswer(msgs, msgs[j])
  }

  lemma SaveAnswerMeans(msgs: seq<Message>, m: Message)
    ensures IsSaveResult(msgs, m) <==> IsSaveAnswer(msgs, m)
  {
    hide IsBlank;
    if IsSaveAnswer(msgs, m) && m.name != SaveJob {
      var i, k :| 0 <= i < |msgs| && msgs[i].Ai? && 0 <= k < |msgs[i].calls|
                  && msgs[i].calls[k] == Call(m.callId, SaveJob, msgs[i].calls[k].args);
      assert msgs[i].calls[k].name == SaveJob && msgs[i].calls[k].id == m.callId;
    }
    if IsSaveResult(msgs, m) && m.name != SaveJob {
      var i, k :| 0 <= i < |msgs| && msgs[i].Ai? && 0 <= k < |msgs[i].calls|
                  && msgs[i].calls[k].name == SaveJob && msgs[i].calls[k].id == m.callId;
      assert msgs[i].calls[k] == Call(m.callId, SaveJob, msgs[i].calls[k].args);
    }
  }

  lemma CurrentMessageMeans(msgs: seq<Message>)
    ensures CalledWithCurrentMessage(msgs) <==> exists i :: 0 <= i < |msgs| && SavesCurrentMessage(msgs[i])
  {
    assert forall i :: 0 <= i < |msgs| ==> (HasCurrentMessageCall(msgs[i]) <==> SavesCurrentMessage(msgs[i]));
    hide HasCurrentMessageCall, SavesCurrentMessage;
  }

  /** A narration is due iff `save_job` was called and its latest validated result is one the turn tells. */
  lemma NarrationDueMeans(cfg: Config, msgs: seq<Message>)
    ensures NarrationDue(cfg, msgs)
       <==> CalledTool(msgs, SaveJob) && exists i: nat :: LatestSave(msgs, i) && TellsResult(cfg, msgs, msgs[i])
  {
    hide IsSaveAnswer, IsSaveResult, CalledTool, NamesSaveJob, CalledWithCurrentMessage, SavesCurrentMessage;
    forall i | 0 <= i < |msgs| ensures IsSaveResult(msgs, msgs[i]) <==> IsSaveAnswer(msgs, msgs[i]) {
      SaveAnswerMeans(msgs, msgs[i]);
    }
    SavedResultIsValidated(msgs);
    CurrentMessageMeans(msgs);
    var p := LatestSaveResult(msgs);
    if p.Some? {
      var i :| 0 <= i < |msgs| && IsSaveResult(msgs, msgs[i]) && msgs[i].payload == p
        && forall j :: i < j < |msgs| ==> !IsSaveResult(msgs, msgs[j]);
      assert LatestSave(msgs, i);
      assert forall j: nat :: LatestSave(msgs, j) ==> j == i;
    }
  }

  // ----- When it is not asked -----

  /** A failed profile update ends the turn without a message. */
  lemma FailedUpdateEnds(cfg: Config, t: Turn, d: Draw)
    requires t.node.Deciding? && t.error.None? && InvalidUpdate(t.msgs)
    ensures ChooseStep(cfg, t, d) == t.(error := Some(ProfileUpdateFailed), node := End)
  {}

  lemma DueSays(
      cfg: Config, t: Turn, m: Message, uuid: string, name: ToolName, args: Args, prefix: string, origin: Origin)
    requires m == OneCall(name, args, prefix + uuid, origin) && !name.ProposeFromCv? && !name.ProposeUpdate?
    ensures Says(cfg, t, Turn(t.msgs + [m], t.count, LimitError(cfg, t.count, m), t.modelCalls, t.passes,
                              Route(cfg, t.msgs + [m], t.count, LimitError(cfg, t.count, m))), "",
                 [Call(CallId(prefix + uuid), name, args)], 0)
  {
    SaidIs(cfg, t, m, 0);
  }

  /** A ready draft nobody has committed is committed by a call of its own, before the model is asked. */
  lemma ReadyDraftIsCommitted(cfg: Config, t: Turn, d: Draw)
    requires t.node.Deciding? && t.error.None? && !InvalidUpdate(t.msgs)
    requires cfg.commitAvailable && !RequestedCommit(t.msgs) && DraftReady(t.msgs)
    ensures Says(cfg, t, ChooseStep(cfg, t, d), "",
                 [Call(CallId("auto-commit-" + d.uuid), CommitDraft,
                       Args(Absent, Absent, Absent, NoPreview, [("draft_id", "current")]))], 0)
  {
    hide InvalidUpdate, RequestedCommit, DraftReady, Says, LimitError, Route;
    DueSays(cfg, t, AutoCommitCall(d.uuid), d.uuid, CommitDraft, NO_ARGS.(others := [("draft_id", "current")]),
            "auto-commit-", AutoCommit);
  }

  /** The one question about the most recent role is answered from the CV's experience section. */
  lemma RecentRoleIsRead(cfg: Config, t: Turn, d: Draw, section: string)
    requires t.node.Deciding? && t.error.None? && !InvalidUpdate(t.msgs) && !CommitDue(cfg, t.msgs)
    requires cfg.readAvailable && cfg.experienceSection == Some(section) && !CalledTool(t.msgs, ReadActiveCv)
    requires Strip(UserText(t.msgs)) == RECENT_ROLE_QUESTION
    ensures Says(cfg, t, ChooseStep(cfg, t, d), "",
                 [Call(CallId("canonical-read-active-cv-" + d.uuid), ReadActiveCv,
                       Args(Absent, Absent, Absent, NoPreview, [("mode", "section"), ("section_id", section)]))], 0)
  {
    hide InvalidUpdate, CommitDue, CalledTool, Strip, Says, LimitError, Route;
    DueSays(cfg, t, AutoReadCall(section, d.uuid), d.uuid, ReadActiveCv,
            NO_ARGS.(others := [("mode", "section"), ("section_id", section)]), "canonical-read-active-cv-", AutoRead);
  }

  /**
    The latest validated save result is told instead of asking the model when the turn names `save_job`,
    saved the current message or was cancelled, and nothing comes before it.
   */
  lemma ResultIsTold(cfg: Config, t: Turn, d: Draw, i: nat)
    requires t.node.Deciding? && t.error.None? && !InvalidUpdate(t.msgs) && !CommitDue(cfg, t.msgs)
    requires !ReadDue(cfg, t.msgs) && CalledTool(t.msgs, SaveJob)
    requires LatestSave(t.msgs, i) && TellsResult(cfg, t.msgs, t.msgs[i])
    ensures Says(cfg, t, ChooseStep(cfg, t, d), Narrate(t.msgs[i].payload.value), [], 0)
  {
    hide InvalidUpdate, CommitDue, ReadDue, CalledTool, IsSaveResult, Says, LimitError, Route, NamesSaveJob, Narrate,
      TellsResult, NarrationDue;
    NarrationDueMeans(cfg, t.msgs);
    LatestIsRead(t.msgs, i);
    SaidIs(cfg, t, Ai(Narrate(t.msgs[i].payload.value), [], Narration), 0);
  }

  lemma LatestIsRead(msgs: seq<Message>, i: nat)
    requires LatestSave(msgs, i)
    ensures LatestSaveResult(msgs) == msgs[i].payload && msgs[i].payload.Some?
  {
    hide IsSaveAnswer, IsSaveResult;
    forall j | 0 <= j < |msgs| ensures IsSaveResult(msgs, msgs[j]) <==> IsSaveAnswer(msgs, msgs[j]) {
      SaveAnswerMeans(msgs, msgs[j]);
    }
    SavedResultIsValidated(msgs);
  }

  /** `x` stands between the two fixed halves of the approved command. */
  predicate CommandWith(text: string, x: string) {
    && Strip(text) == COMMAND_HEAD + x + COMMAND_TAIL
    && !IsBlank(x) && forall i :: 0 <= i < |x| ==> x[i] != '\"' && x[i] != '\r' && x[i] != '\n'
  }

  lemma BetweenHalves(t: string, head: string, x: string, tail: string)
    ensures t == head + x + tail
            <==> |t| == |head| + |x| + |tail| && t[..|head|] == head && t[|head|..|t| - |tail|] == x
                 && t[|t| - |tail|..] == tail
  {
    if |t| == |head| + |x| + |tail| {
      assert t == t[..|head|] + t[|head|..|t| - |tail|] + t[|t| - |tail|..];
    }
  }

  /** The text of the approved command is exactly what stands between its two halves. */
  lemma ExplicitTextMeans(text: string, x: string)
    ensures ExplicitText(text) == Some(x) <==> CommandWith(text, x)
  {
    hide Strip;
    BetweenHalves(Strip(text), COMMAND_HEAD, x, COMMAND_TAIL);
  }

  /** A turn that may still call `save_job` of itself. */
  predicate MaySave(cfg: Config, t: Turn) {
    && t.node.Deciding? && t.error.None? && !InvalidUpdate(t.msgs) && !CommitDue(cfg, t.msgs) && !ReadDue(cfg, t.msgs)
    && cfg.saveAvailable && !cfg.oracles.optOut(UserText(t.msgs)) && !IsBlank(UserText(t.msgs))
    && !CalledTool(t.msgs, SaveJob)
  }

  /**
    A sole URL, the approved command and an obvious posting are saved by one call of their own, by URL, by
    text and as the current message, in this order and before the model is asked; nothing else is.
   */
  lemma TextIsSaved(cfg: Config, t: Turn, d: Draw)
    requires MaySave(cfg, t)
    ensures var u, text := ChooseStep(cfg, t, d), UserText(t.msgs);
            if cfg.oracles.soleUrl(text) then
              Says(cfg, t, u, "", [Call(CallId("canonical-save-url-" + d.uuid), SaveJob,
                                        Args(Str(Strip(text)), Absent, Absent, NoPreview, []))], 0)
            else if ExplicitText(text).Some? then
              Says(cfg, t, u, "", [Call(CallId("canonical-save-text-" + d.uuid), SaveJob,
                                        Args(Absent, Str(ExplicitText(text).value), Absent, NoPreview, []))], 0)
            else if !NamesSaveJob(cfg.oracles, text) && cfg.oracles.obviousJd(text) then
              Says(cfg, t, u, "", SaveCurrent(d.uuid), 0)
            else Asks(cfg, t)
  {
    hide InvalidUpdate, CommitDue, ReadDue, CalledTool, Strip, Says, LimitError, Route, NamesSaveJob, ExplicitText,
      IsBlank, LatestSaveResult;
    var text := UserText(t.msgs);
    if cfg.oracles.soleUrl(text) {
      var args := NO_ARGS.(url := Str(Strip(text)));
      DueSays(cfg, t, OneCall(SaveJob, args, "canonical-save-url-" + d.uuid, Canonical), d.uuid, SaveJob, args,
              "canonical-save-url-", Canonical);
    } else if ExplicitText(text).Some? {
      var args := NO_ARGS.(text := Str(ExplicitText(text).value));
      DueSays(cfg, t, OneCall(SaveJob, args, "canonical-save-text-" + d.uuid, Canonical), d.uuid, SaveJob, args,
              "canonical-save-text-", Canonical);
    } else if !NamesSaveJob(cfg.oracles, text) && cfg.oracles.obviousJd(text) {
      DueSays(cfg, t, CurrentMessageCall(d.uuid), d.uuid, SaveJob, NO_ARGS.(source := Str(CURRENT_MESSAGE)),
              "canonical-save-current-message-", Canonical);
    }
  }
}
