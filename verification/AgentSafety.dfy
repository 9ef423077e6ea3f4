/** What holds of every turn, whatever the model answers and the tools return. */
module AgentSafety {
  import opened Common
  import opened Text
  import opened AgentMessages
  import opened AgentTurn

  // ----- Shape, bounds and termination -----

  /** Decisions made: one more than passes once the current one is made. */
  function Decisions(t: Turn): nat {
    if t.node.Deciding? then t.passes else t.passes + 1
  }

  predicate Shape(cfg: Config, user: string, t: Turn) {
    && t.msgs != [] && t.msgs[0] == Human(user)
    && (forall i :: 1 <= i < |t.msgs| ==> !t.msgs[i].Human?)
    && t.count == t.passes <= cfg.limit
    && t.modelCalls <= 2 * Decisions(t)
    && match t.node
       case Deciding => t.error.None? && !HasCalls(Last(t))
       case Tools => t.error.None? && HasCalls(Last(t)) && t.count < cfg.limit
       case End => (t.error == Some(LoopLimit) <==> HasCalls(Last(t))) && (HasCalls(Last(t)) ==> t.count == cfg.limit)
  }

  lemma RespondSpeaks(cfg: Config, msgs: seq<Message>, d: Draw)
    ensures Respond(cfg, msgs, d).0.Ai? && Respond(cfg, msgs, d).1 <= 2
  {}

  lemma DecideSpeaks(cfg: Config, msgs: seq<Message>, count: nat, d: Draw)
    ensures var r := Decide(cfg, msgs, count, d);
            && r.modelCalls <= 2
            && (r.said.None? ==> r.error == Some(ProfileUpdateFailed))
            && (r.said.Some? ==> r.said.value.Ai? && r.error == LimitError(cfg, count, r.said.value))
  {
    hide Respond, CommitDue, ReadDue, NarrationDue, LatestSaveResult, Narrate, InvalidUpdate, LimitError,
      WithoutCommit, HasProposal;
    RespondSpeaks(cfg, msgs, d);
    CanonicalSpeaks(cfg, msgs, d.uuid);
  }

  lemma CanonicalSpeaks(cfg: Config, msgs: seq<Message>, uuid: string)
    ensures CanonicalSave(cfg, msgs, uuid).Some? ==> IsSoleSave(CanonicalSave(cfg, msgs, uuid).value)
  {}

  lemma ShapeKept(cfg: Config, user: string, t: Turn, m: Move)
    requires Shape(cfg, user, t) && Enabled(t, m)
    ensures Shape(cfg, user, Step(cfg, t, m))
  {
    hide Decide;
    match m
    case Choose(d) =>
      DecideSpeaks(cfg, t.msgs, t.count, d);
      var r := Decide(cfg, t.msgs, t.count, d);
      if r.said.Some? {
        assert (t.msgs + [r.said.value])[|t.msgs|] == r.said.value;
      }
    case RunTools(results) =>
      var more := ToolMessages(Last(t).calls, results);
      assert |more| > 0;
  }

  lemma {:induction false} ShapeHolds(cfg: Config, user: string, moves: seq<Move>)
    requires After(cfg, user, moves).Some?
    ensures Shape(cfg, user, After(cfg, user, moves).value)
    ensures |moves| == Decisions(After(cfg, user, moves).value) + After(cfg, user, moves).value.passes
  {
    hide Shape, Step, Decide;
    if moves == [] {
      StartHasShape(cfg, user);
    } else {
      var front, m := moves[..|moves| - 1], moves[|moves| - 1];
      ShapeHolds(cfg, user, front);
      ShapeKept(cfg, user, After(cfg, user, front).value, m);
      MoveCounts(cfg, user, After(cfg, user, front).value, m);
    }
  }

  lemma StartHasShape(cfg: Config, user: string)
    ensures Shape(cfg, user, StartTurn(user))
  {}

  lemma MoveCounts(cfg: Config, user: string, t: Turn, m: Move)
    requires Shape(cfg, user, t) && Enabled(t, m)
    ensures Decisions(Step(cfg, t, m)) + Step(cfg, t, m).passes == Decisions(t) + t.passes + 1
  {}

  /**
    Whatever model and tools do, a turn makes at most `limit` tool passes, counts exactly the passes it
    made, asks the model at most 2 * (limit + 1) times and ends within 2 * limit + 1 steps; the tool
    node's own limit check never fires.
   */
  lemma TurnIsBounded(cfg: Config, user: string, moves: seq<Move>)
    requires After(cfg, user, moves).Some?
    ensures var t := After(cfg, user, moves).value;
            && t.passes <= cfg.limit && t.count == t.passes
            && t.modelCalls <= 2 * (cfg.limit + 1)
            && |moves| <= 2 * cfg.limit + 1
            && (t.node.Tools? ==> t.count + 1 <= cfg.limit)
  {
    hide After;
    ShapeHolds(cfg, user, moves);
  }

  /** A turn ends with calls nobody ran iff its error is the loop limit, and then every pass was used. */
  lemma UnexecutedCallsIffLoopLimit(cfg: Config, user: string, moves: seq<Move>)
    requires After(cfg, user, moves).Some? && After(cfg, user, moves).value.node.End?
    ensures var t := After(cfg, user, moves).value;
            && t.msgs != []
            && (HasCalls(Last(t)) <==> t.error == Some(LoopLimit))
            && (HasCalls(Last(t)) ==> t.passes == cfg.limit)
  {
    hide After;
    ShapeHolds(cfg, user, moves);
  }

  // ----- Proposal before approval -----

  predicate NotBoth(m: Message) {
    !(HasProposal(m) && HasCallTo(m, CommitDraft))
  }

  lemma {:induction false} WithoutCommitHasNone(calls: seq<Call>)
    ensures forall i :: 0 <= i < |WithoutCommit(calls)| ==> WithoutCommit(calls)[i].name != CommitDraft
  {
    if calls != [] {
      WithoutCommitHasNone(calls[..|calls| - 1]);
    }
  }

  lemma StripSeparates(m: Message)
    ensures NotBoth(StripCommit(m))
  {
    if m.Ai? {
      WithoutCommitHasNone(m.calls);
    }
  }

  lemma DecisionSeparates(cfg: Config, msgs: seq<Message>, count: nat, d: Draw)
    requires Decide(cfg, msgs, count, d).said.Some?
    ensures NotBoth(Decide(cfg, msgs, count, d).said.value)
  {
    hide Respond, CommitDue, ReadDue, NarrationDue, LatestSaveResult, Narrate, InvalidUpdate, LimitError, StripCommit,
      CanonicalSave;
    CanonicalSpeaks(cfg, msgs, d.uuid);
    StripSeparates(Respond(cfg, msgs, d).0);
  }

  /** The draft scan finds a successful proposal result with no later message that has calls. */
  lemma {:induction false} DraftReadyMeans(msgs: seq<Message>)
    ensures DraftReady(msgs)
       <==> exists j :: 0 <= j < |msgs| && IsDraftResult(msgs[j]) && forall i :: j < i < |msgs| ==> !HasCalls(msgs[i])
  {
    if msgs != [] {
      var last, rest := msgs[|msgs| - 1], msgs[..|msgs| - 1];
      DraftReadyMeans(rest);
      if !HasCalls(last) && DraftReady(rest) && !IsDraftResult(last) {
        var j :| 0 <= j < |rest| && IsDraftResult(rest[j]) && forall i :: j < i < |rest| ==> !HasCalls(rest[i]);
        assert IsDraftResult(msgs[j]) && forall i :: j < i < |msgs| ==> !HasCalls(msgs[i]);
      }
      if !DraftReady(msgs) {
        forall j | 0 <= j < |msgs| && IsDraftResult(msgs[j]) ensures exists i :: j < i < |msgs| && HasCalls(msgs[i]) {
          if j < |msgs| - 1 && !HasCalls(last) {
            assert IsDraftResult(rest[j]);
            var i :| j < i < |rest| && HasCalls(rest[i]);
            assert HasCalls(msgs[i]);
          } else if HasCalls(last) {
            assert HasCalls(msgs[|msgs| - 1]);
          }
        }
      }
    }
  }

  /** Everything about commits in the messages so far. */
  predicate CommitShape(cfg: Config, t: Turn) {
    && (forall k :: 0 <= k < |t.msgs| ==> NotBoth(t.msgs[k]))
    && (forall k :: 0 <= k < |t.msgs| && IsAutoCommit(t.msgs[k]) ==>
          HasCallTo(t.msgs[k], CommitDraft) && DraftReady(t.msgs[..k]) && !RequestedCommit(t.msgs[..k])
            && !InvalidUpdate(t.msgs[..k]))
    && (cfg.commitAvailable && HasDraft(t.msgs) ==>
          RequestedCommit(t.msgs) || t.error == Some(ProfileUpdateFailed) || (t.node.Deciding? && DraftReady(t.msgs)))
  }

  predicate IsAutoCommit(m: Message) {
    m.Ai? && m.origin.AutoCommit?
  }

  predicate HasDraft(msgs: seq<Message>) {
    exists j :: 0 <= j < |msgs| && IsDraftResult(msgs[j])
  }

  lemma DecideCommits(cfg: Config, msgs: seq<Message>, count: nat, d: Draw)
    ensures var r := Decide(cfg, msgs, count, d);
            && (r.said.Some? && IsAutoCommit(r.said.value) <==> !InvalidUpdate(msgs) && CommitDue(cfg, msgs))
            && (r.said.Some? && IsAutoCommit(r.said.value) ==> HasCallTo(r.said.value, CommitDraft))
            && (InvalidUpdate(msgs) ==> r.error == Some(ProfileUpdateFailed))
  {
    hide CommitDue, ReadDue, NarrationDue, LatestSaveResult, Narrate, InvalidUpdate, LimitError, Respond,
      CanonicalSave, WithoutCommit, HasProposal;
    NotAutoCommit(cfg, msgs, d);
    assert AutoCommitCall(d.uuid).calls[0].name == CommitDraft;
  }

  lemma NotAutoCommit(cfg: Config, msgs: seq<Message>, d: Draw)
    ensures !IsAutoCommit(Respond(cfg, msgs, d).0)
    ensures CanonicalSave(cfg, msgs, d.uuid).Some? ==> !IsAutoCommit(CanonicalSave(cfg, msgs, d.uuid).value)
  {}

  lemma Grown(msgs: seq<Message>, more: seq<Message>)
    ensures RequestedCommit(msgs) ==> RequestedCommit(msgs + more)
    ensures HasDraft(msgs + more) <==> HasDraft(msgs) || HasDraft(more)
    ensures forall k :: 0 <= k <= |msgs| ==> (msgs + more)[..k] == msgs[..k]
    ensures forall k :: 0 <= k < |more| ==> (msgs + more)[|msgs| + k] == more[k]
  {
    var all := msgs + more;
    assert forall k :: 0 <= k < |msgs| ==> all[k] == msgs[k];
    if RequestedCommit(msgs) {
      var i :| 0 <= i < |msgs| && HasCallTo(msgs[i], CommitDraft);
      assert HasCallTo(all[i], CommitDraft);
    }
    if HasDraft(msgs) {
      var j :| 0 <= j < |msgs| && IsDraftResult(msgs[j]);
      assert IsDraftResult(all[j]);
    }
    if HasDraft(more) {
      var j :| 0 <= j < |more| && IsDraftResult(more[j]);
      assert IsDraftResult(all[|msgs| + j]);
    }
    if HasDraft(all) {
      var j :| 0 <= j < |all| && IsDraftResult(all[j]);
      assert j < |msgs| || more[j - |msgs|] == all[j];
    }
  }

  lemma CommitKeptByChoice(cfg: Config, user: string, t: Turn, d: Draw)
    requires Shape(cfg, user, t) && CommitShape(cfg, t) && Enabled(t, Choose(d))
    ensures CommitShape(cfg, ChooseStep(cfg, t, d))
  {
    hide Decide, DraftReady, InvalidUpdate, HasCallTo, NotBoth, HasDraft, Route;
    var r := Decide(cfg, t.msgs, t.count, d);
    DecideSpeaks(cfg, t.msgs, t.count, d);
    DecideCommits(cfg, t.msgs, t.count, d);
    if r.said.Some? {
      var m := r.said.value;
      DecisionSeparates(cfg, t.msgs, t.count, d);
      Grown(t.msgs, [m]);
      NoDraftIn(m);
      var all := t.msgs + [m];
      assert all[|t.msgs|] == m;
      assert all[..|t.msgs|] == t.msgs[..|t.msgs|] == t.msgs;
    }
  }

  lemma NoDraftIn(m: Message)
    requires m.Ai?
    ensures !HasDraft([m])
  {}

  lemma DraftInTail(msgs: seq<Message>, more: seq<Message>)
    requires HasDraft(more) && forall k :: 0 <= k < |more| ==> more[k].Tool?
    ensures DraftReady(msgs + more)
  {
    hide DraftReady, IsDraftResult;
    DraftReadyMeans(msgs + more);
    var j :| 0 <= j < |more| && IsDraftResult(more[j]);
    var all := msgs + more;
    assert IsDraftResult(all[|msgs| + j]);
    assert forall i :: |msgs| <= i < |all| ==> all[i] == more[i - |msgs|];
  }

  lemma ToolMessagesAreTools(calls: seq<Call>, results: seq<Option<Payload>>)
    requires |results| == |calls|
    ensures |ToolMessages(calls, results)| == |calls|
    ensures forall k :: 0 <= k < |calls| ==>
              ToolMessages(calls, results)[k].Tool? && ToolMessages(calls, results)[k].name == calls[k].name
  {}

  lemma ToolIsQuiet(m: Message)
    requires m.Tool?
    ensures NotBoth(m) && !IsAutoCommit(m)
  {}

  lemma CommitKeptByTools(cfg: Config, user: string, t: Turn, results: seq<Option<Payload>>)
    requires Shape(cfg, user, t) && CommitShape(cfg, t) && Enabled(t, RunTools(results))
    ensures CommitShape(cfg, ToolsStep(cfg, t, results))
  {
    hide DraftReady, InvalidUpdate, HasDraft, RequestedCommit, HasCallTo, NotBoth, IsAutoCommit, ToolMessages;
    var more := ToolMessages(Last(t).calls, results);
    ToolMessagesAreTools(Last(t).calls, results);
    var all := t.msgs + more;
    Grown(t.msgs, more);
    if HasDraft(more) {
      DraftInTail(t.msgs, more);
    }
    forall k | 0 <= k < |all|
      ensures if k < |t.msgs| then all[k] == t.msgs[k] else NotBoth(all[k]) && !IsAutoCommit(all[k])
    {
      if k >= |t.msgs| { ToolIsQuiet(all[k]); }
    }
  }

  lemma {:induction false} CommitHolds(cfg: Config, user: string, moves: seq<Move>)
    requires After(cfg, user, moves).Some?
    ensures CommitShape(cfg, After(cfg, user, moves).value)
  {
    hide Shape, CommitShape, ChooseStep, ToolsStep;
    if moves == [] {
      StartCommits(cfg, user);
    } else {
      var front, m := moves[..|moves| - 1], moves[|moves| - 1];
      CommitHolds(cfg, user, front);
      ShapeHolds(cfg, user, front);
      var t := After(cfg, user, front).value;
      match m
      case Choose(d) => CommitKeptByChoice(cfg, user, t, d);
      case RunTools(results) => CommitKeptByTools(cfg, user, t, results);
    }
  }

  lemma StartCommits(cfg: Config, user: string)
    ensures CommitShape(cfg, StartTurn(user))
  {}

  /**
    In every turn: no message asks for a proposal and a commit at once; at most one commit is issued
    automatically, only when a proposal result since the previous calls left a draft, none of them was
    an invalid update, and no commit was asked for before.
   */
  lemma ProposalBeforeApproval(cfg: Config, user: string, moves: seq<Move>)
    requires After(cfg, user, moves).Some?
    ensures var msgs := After(cfg, user, moves).value.msgs;
            && (forall k :: 0 <= k < |msgs| ==> NotBoth(msgs[k]))
            && (forall k :: 0 <= k < |msgs| && IsAutoCommit(msgs[k]) ==>
                  && (exists j :: 0 <= j < k && IsDraftResult(msgs[j]) && forall i :: j < i < k ==> !HasCalls(msgs[i]))
                  && (forall i :: 0 <= i < k ==> !HasCallTo(msgs[i], CommitDraft))
                  && !InvalidUpdate(msgs[..k]))
            && (forall j, k :: 0 <= j < k < |msgs| ==> !(IsAutoCommit(msgs[j]) && IsAutoCommit(msgs[k])))
  {
    hide After, DraftReady, InvalidUpdate, HasCallTo, NotBoth, IsDraftResult;
    CommitHolds(cfg, user, moves);
    var msgs := After(cfg, user, moves).value.msgs;
    forall k | 0 <= k < |msgs| && IsAutoCommit(msgs[k])
      ensures exists j :: 0 <= j < k && IsDraftResult(msgs[j]) && forall i :: j < i < k ==> !HasCalls(msgs[i])
      ensures forall i :: 0 <= i < k ==> !HasCallTo(msgs[i], CommitDraft)
    {
      var before := msgs[..k];
      DraftReadyMeans(before);
      assert forall i :: 0 <= i < k ==> before[i] == msgs[i];
      var j :| 0 <= j < |before| && IsDraftResult(before[j]) && forall i :: j < i < |before| ==> !HasCalls(before[i]);
      assert IsDraftResult(msgs[j]);
    }
  }

  /** A turn in which a proposal left a draft never ends without a commit request, unless a profile update failed. */
  lemma DraftLeadsToCommit(cfg: Config, user: string, moves: seq<Move>)
    requires After(cfg, user, moves).Some? && After(cfg, user, moves).value.node.End?
    requires cfg.commitAvailable && HasDraft(After(cfg, user, moves).value.msgs)
    ensures var t := After(cfg, user, moves).value; RequestedCommit(t.msgs) || t.error == Some(ProfileUpdateFailed)
  {
    hide After;
    CommitHolds(cfg, user, moves);
  }

  // ----- Save discipline -----

  /** Characters with ink survive stripping. */
  lemma {:induction false} StripLeftKeeps(s: string, c: char)
    requires c in s && !IsSpace(c)
    ensures c in StripLeft(s)
  {
    if IsSpace(s[0]) {
      assert s == [s[0]] + s[1..];
      StripLeftKeeps(s[1..], c);
    }
  }

  lemma {:induction false} StripRightKeeps(s: string, c: char)
    requires c in s && !IsSpace(c)
    ensures c in StripRight(s)
    decreases |s|
  {
    if IsSpace(s[|s| - 1]) {
      assert s == s[..|s| - 1] + [s[|s| - 1]];
      StripRightKeeps(s[..|s| - 1], c);
    }
  }

  lemma NoUnderscoreInQuestion()
    ensures '_' !in RECENT_ROLE_QUESTION
  {}

  /** The factual question never names the tool. */
  lemma QuestionDoesNotName(o: Oracles, text: string)
    requires Strip(text) == RECENT_ROLE_QUESTION
    ensures !NamesSaveJob(o, text)
  {
    if NamesSaveJob(o, text) {
      var i :| 0 <= i <= |text| - 8 && NamedAt(o, text, i);
      assert text[i..i + 8][4] == SAVE_JOB_WORD[4] == '_';
      assert text[i + 4] == '_';
      StripLeftKeeps(text, '_');
      StripRightKeeps(StripLeft(text), '_');
      NoUnderscoreInQuestion();
      assert false;
    }
  }

  lemma NoCallsYet(user: string)
    ensures var msgs := [Human(user)];
            !InvalidUpdate(msgs) && !DraftReady(msgs) && (forall n :: !CalledTool(msgs, n)) && UserText(msgs) == user
  {}

  predicate OpensWithSave(t: Turn) {
    |t.msgs| > 1 && (IsSoleSave(t.msgs[1]) || (t.msgs[1] == NAMED_NO_ACTION && |t.msgs| == 2 && t.node.End?))
  }

  lemma NamedFirstDecision(cfg: Config, user: string, d: Draw)
    requires Named(cfg, user)
    ensures OpensWithSave(ChooseStep(cfg, StartTurn(user), d))
  {
    hide NamesSaveJob, InvalidUpdate, DraftReady, CalledTool, Validate, Narrate, LatestSaveResult, HasProposal,
      IsBlank, ExplicitText, UserText, StripCommit;
    var msgs := [Human(user)];
    NoCallsYet(user);
    if Strip(user) == RECENT_ROLE_QUESTION {
      QuestionDoesNotName(cfg.oracles, user);
    }
    CanonicalSpeaks(cfg, msgs, d.uuid);
    NamedResponse(cfg, msgs, d);
    SaveIsNotStripped(Respond(cfg, msgs, d).0);
  }

  lemma NamedResponse(cfg: Config, msgs: seq<Message>, d: Draw)
    requires Named(cfg, UserText(msgs)) && !CalledTool(msgs, SaveJob)
    ensures IsSoleSave(Respond(cfg, msgs, d).0) || Respond(cfg, msgs, d).0 == NAMED_NO_ACTION
  {}

  lemma SaveIsNotStripped(m: Message)
    requires IsSoleSave(m) || (m.Ai? && m.calls == [])
    ensures StripCommit(m) == m
  {}

  lemma {:induction false} TurnsGrow(cfg: Config, user: string, moves: seq<Move>, n: nat)
    requires After(cfg, user, moves).Some? && n <= |moves|
    ensures After(cfg, user, moves[..n]).Some?
    ensures After(cfg, user, moves[..n]).value.msgs <= After(cfg, user, moves).value.msgs
    ensures After(cfg, user, moves[..n]).value.node.End? ==> n == |moves|
    decreases |moves|
  {
    hide ChooseStep, ToolsStep;
    if n == |moves| {
      assert moves[..n] == moves;
    } else {
      var front := moves[..|moves| - 1];
      assert front[..n] == moves[..n];
      TurnsGrow(cfg, user, front, n);
      StepGrows(cfg, After(cfg, user, front).value, moves[|moves| - 1]);
    }
  }

  lemma StepGrows(cfg: Config, t: Turn, m: Move)
    requires Enabled(t, m)
    ensures t.msgs <= Step(cfg, t, m).msgs && !t.node.End?
  {}

  /**
    On a turn that names `save_job`, the first assistant message is one sole `save_job` call, or the
    fixed no-action text with which the turn ends: no other assistant text comes before a save.
   */
  lemma NamedTurnOpensWithSave(cfg: Config, user: string, moves: seq<Move>)
    requires Named(cfg, user) && After(cfg, user, moves).Some? && moves != []
    ensures OpensWithSave(After(cfg, user, moves).value)
  {
    hide OpensWithSave, ChooseStep, Named;
    TurnsGrow(cfg, user, moves, 1);
    assert moves[..1][..0] == [];
    FirstMove(cfg, user, moves[..1]);
    var d := moves[0].draw;
    NamedFirstDecision(cfg, user, d);
    OpeningStays(cfg, user, ChooseStep(cfg, StartTurn(user), d), After(cfg, user, moves).value, |moves|);
    if |moves| == 1 {
      assert moves[..1] == moves;
    }
  }

  lemma FirstMove(cfg: Config, user: string, moves: seq<Move>)
    requires |moves| == 1 && After(cfg, user, moves).Some?
    ensures moves[0].Choose? && After(cfg, user, moves) == Some(ChooseStep(cfg, StartTurn(user), moves[0].draw))
  {}

  lemma OpeningStays(cfg: Config, user: string, first: Turn, t: Turn, n: nat)
    requires OpensWithSave(first) && first.msgs <= t.msgs && (first.node.End? ==> t == first)
    ensures OpensWithSave(t)
  {}

  // Passive turns

  /** The first message that calls `save_job` is one sole valid current-message call. */
  predicate FirstSaveIsCurrentMessage(msgs: seq<Message>) {
    !CalledTool(msgs, SaveJob)
    || exists k :: 0 <= k < |msgs| && IsSoleCurrentMessageSave(msgs[k]) && !CalledTool(msgs[..k], SaveJob)
  }

  lemma CurrentMessageCallIsValid(uuid: string)
    ensures IsSoleCurrentMessageSave(CurrentMessageCall(uuid))
  {}

  lemma PassiveResponse(cfg: Config, msgs: seq<Message>, d: Draw)
    requires Passive(cfg, UserText(msgs)) && !CalledTool(msgs, SaveJob)
    ensures var m := Respond(cfg, msgs, d).0; IsSoleCurrentMessageSave(m) || !HasCallTo(m, SaveJob)
  {
    hide Validate, NamesSaveJob, CalledTool;
    CurrentMessageCallIsValid(d.uuid);
  }

  lemma PassiveCanonical(cfg: Config, msgs: seq<Message>, uuid: string)
    requires Passive(cfg, UserText(msgs))
    ensures CanonicalSave(cfg, msgs, uuid).Some? ==> IsSoleCurrentMessageSave(CanonicalSave(cfg, msgs, uuid).value)
  {
    hide Validate, NamesSaveJob, CalledTool, ExplicitText, IsBlank;
    CurrentMessageCallIsValid(uuid);
    if ExplicitText(UserText(msgs)).Some? {
      ExplicitCommandNamesSaveJob(cfg.oracles, UserText(msgs));
    }
  }

  lemma {:induction false} WithoutCommitKeepsCalls(calls: seq<Call>)
    ensures forall c :: c in WithoutCommit(calls) ==> c in calls
  {
    if calls != [] {
      WithoutCommitKeepsCalls(calls[..|calls| - 1]);
    }
  }

  lemma StripAddsNoSave(m: Message)
    requires IsSoleCurrentMessageSave(m) || !HasCallTo(m, SaveJob)
    ensures IsSoleCurrentMessageSave(StripCommit(m)) || !HasCallTo(StripCommit(m), SaveJob)
  {
    hide Validate, StripCommit;
    if IsSoleCurrentMessageSave(m) {
      SaveIsNotStripped(m);
    } else {
      StripAddsNoCall(m, SaveJob);
    }
  }

  lemma StripAddsNoCall(m: Message, name: ToolName)
    ensures HasCallTo(StripCommit(m), name) ==> HasCallTo(m, name)
  {
    if m.Ai? {
      WithoutCommitKeepsCalls(m.calls);
      var calls := StripCommit(m).calls;
      if HasCallTo(StripCommit(m), name) {
        var i :| 0 <= i < |calls| && calls[i].name == name;
        assert calls[i] in m.calls;
      }
    }
  }

  lemma PassiveDecision(cfg: Config, msgs: seq<Message>, count: nat, d: Draw)
    requires Passive(cfg, UserText(msgs)) && !CalledTool(msgs, SaveJob)
    ensures var r := Decide(cfg, msgs, count, d);
            r.said.Some? ==> IsSoleCurrentMessageSave(r.said.value) || !HasCallTo(r.said.value, SaveJob)
  {
    hide Respond, CanonicalSave, InvalidUpdate, CommitDue, Passive, LatestSaveResult, Narrate, StripCommit, Validate,
      LimitError, CalledTool;
    PassiveResponse(cfg, msgs, d);
    PassiveCanonical(cfg, msgs, d.uuid);
    StripAddsNoSave(Respond(cfg, msgs, d).0);
  }

  lemma UserTextOfTurn(user: string, msgs: seq<Message>)
    requires msgs != [] && msgs[0] == Human(user)
    ensures UserText(msgs) == user
  {}

  lemma FirstSaveStays(msgs: seq<Message>, more: seq<Message>)
    requires FirstSaveIsCurrentMessage(msgs) && (CalledTool(msgs, SaveJob) || !CalledTool(more, SaveJob))
    ensures FirstSaveIsCurrentMessage(msgs + more)
  {
    hide IsSoleCurrentMessageSave;
    var all := msgs + more;
    assert forall k :: 0 <= k < |msgs| ==> all[k] == msgs[k] && all[..k] == msgs[..k];
    assert forall k :: |msgs| <= k < |all| ==> all[k] == more[k - |msgs|];
    if CalledTool(msgs, SaveJob) {
      var k :| 0 <= k < |msgs| && IsSoleCurrentMessageSave(msgs[k]) && !CalledTool(msgs[..k], SaveJob);
      assert IsSoleCurrentMessageSave(all[k]) && !CalledTool(all[..k], SaveJob);
    }
  }

  lemma PassiveKeptByChoice(cfg: Config, user: string, t: Turn, d: Draw)
    requires Passive(cfg, user) && Shape(cfg, user, t) && FirstSaveIsCurrentMessage(t.msgs) && Enabled(t, Choose(d))
    ensures FirstSaveIsCurrentMessage(ChooseStep(cfg, t, d).msgs)
  {
    hide Decide, Passive, Route, FirstSaveIsCurrentMessage, CalledTool, IsSoleCurrentMessageSave, HasCallTo;
    UserTextOfTurn(user, t.msgs);
    var r := Decide(cfg, t.msgs, t.count, d);
    DecideSpeaks(cfg, t.msgs, t.count, d);
    if r.said.Some? {
      var m := r.said.value;
      if CalledTool(t.msgs, SaveJob) || !HasCallTo(m, SaveJob) {
        OneMessage(m);
        FirstSaveStays(t.msgs, [m]);
      } else {
        PassiveDecision(cfg, t.msgs, t.count, d);
        FirstSaveAdded(t.msgs, m);
      }
    }
  }

  lemma OneMessage(m: Message)
    requires m.Ai?
    ensures CalledTool([m], SaveJob) <==> HasCallTo(m, SaveJob)
  {
    assert [m][0] == m;
  }

  lemma FirstSaveAdded(msgs: seq<Message>, m: Message)
    requires !CalledTool(msgs, SaveJob) && IsSoleCurrentMessageSave(m)
    ensures FirstSaveIsCurrentMessage(msgs + [m])
  {}

  lemma PassiveKeptByTools(cfg: Config, user: string, t: Turn, results: seq<Option<Payload>>)
    requires Shape(cfg, user, t) && FirstSaveIsCurrentMessage(t.msgs) && Enabled(t, RunTools(results))
    ensures FirstSaveIsCurrentMessage(ToolsStep(cfg, t, results).msgs)
  {
    hide FirstSaveIsCurrentMessage, IsSoleCurrentMessageSave, ToolMessages;
    var more := ToolMessages(Last(t).calls, results);
    ToolMessagesAreTools(Last(t).calls, results);
    if CalledTool(more, SaveJob) {
      var i :| 0 <= i < |more| && (HasCallTo(more[i], SaveJob) || (more[i].Tool? && more[i].name == SaveJob));
      assert Last(t).calls[i].name == SaveJob;
      assert HasCallTo(t.msgs[|t.msgs| - 1], SaveJob);
    }
    FirstSaveStays(t.msgs, more);
  }

  /**
    On a turn that does not name `save_job`, has no opt-out and is not a sole URL, the first message
    with a `save_job` call is one sole call that validates as a current-message save.
   */
  lemma {:induction false} PassiveTurnSavesCurrentMessage(cfg: Config, user: string, moves: seq<Move>)
    requires Passive(cfg, user) && After(cfg, user, moves).Some?
    ensures FirstSaveIsCurrentMessage(After(cfg, user, moves).value.msgs)
  {
    hide Passive, Shape, FirstSaveIsCurrentMessage, ChooseStep, ToolsStep;
    if moves == [] {
      StartHasNoSave(user);
    } else {
      var front, m := moves[..|moves| - 1], moves[|moves| - 1];
      PassiveTurnSavesCurrentMessage(cfg, user, front);
      ShapeHolds(cfg, user, front);
      var t := After(cfg, user, front).value;
      match m
      case Choose(d) => PassiveKeptByChoice(cfg, user, t, d);
      case RunTools(results) => PassiveKeptByTools(cfg, user, t, results);
    }
  }

  lemma StartHasNoSave(user: string)
    ensures FirstSaveIsCurrentMessage(StartTurn(user).msgs)
  {}

  /** A call the text itself settles always passes `save_job` validation, with that source. */
  lemma CanonicalCallsValidate(cfg: Config, msgs: seq<Message>, uuid: string)
    requires CanonicalSave(cfg, msgs, uuid).Some?
    ensures var m := CanonicalSave(cfg, msgs, uuid).value; var user := UserText(msgs);
            && IsSoleSave(m)
            && Validate(m.calls[0].args)
               == (if cfg.oracles.soleUrl(user) then Some(ByUrl(Strip(Strip(user))))
                   else if ExplicitText(user).Some? then Some(ByText(Strip(ExplicitText(user).value)))
                   else Some(ByCurrentMessage))
  {
    hide NamesSaveJob, CalledTool;
    var user := UserText(msgs);
    StripEmptyIffBlank(user);
    StripOfStripped(user);
  }

  lemma StripOfStripped(s: string)
    requires !IsBlank(s)
    ensures !IsBlank(Strip(s))
  {
    StripEmptyIffBlank(s);
    StripLeftStopsAtText(s);
    StripRightStops(StripLeft(s));
  }

  lemma {:induction false} StripRightStops(s: string)
    requires s != "" && !IsSpace(s[0])
    ensures !IsBlank(StripRight(s))
    decreases |s|
  {
    if IsSpace(s[|s| - 1]) {
      StripRightStops(s[..|s| - 1]);
    }
  }

  // ----- Narration -----

  /**
    A decision narrates without asking the model, and what it says is a function of the payload at the
    last position that holds a validated save result.
   */
  lemma NarrationIsOfLatestResult(cfg: Config, msgs: seq<Message>, count: nat, d: Draw)
    requires var r := Decide(cfg, msgs, count, d); r.said.Some? && r.said.value.Ai? && r.said.value.origin.Narration?
    ensures var r := Decide(cfg, msgs, count, d);
            && r.modelCalls == 0 && r.error.None? && r.said.value.calls == []
            && exists i ::
                 && 0 <= i < |msgs| && IsSaveResult(msgs, msgs[i])
                 && r.said.value.content == Narrate(msgs[i].payload.value)
                 && forall j :: i < j < |msgs| ==> !IsSaveResult(msgs, msgs[j])
  {
    hide Respond, CanonicalSave, InvalidUpdate, CommitDue, ReadDue, Narrate, StripCommit, IsSaveResult;
    NotNarration(cfg, msgs, d);
    SavedResultIsValidated(msgs);
  }

  lemma SavedResultIsValidated(msgs: seq<Message>)
    ensures forall i :: 0 <= i < |msgs| && IsSaveResult(msgs, msgs[i]) ==> msgs[i].Tool? && msgs[i].payload.Some?
  {}

  lemma NotNarration(cfg: Config, msgs: seq<Message>, d: Draw)
    ensures StripCommit(Respond(cfg, msgs, d).0).Ai? ==> !StripCommit(Respond(cfg, msgs, d).0).origin.Narration?
    ensures CanonicalSave(cfg, msgs, d.uuid).Some? ==>
              CanonicalSave(cfg, msgs, d.uuid).value.Ai? && !CanonicalSave(cfg, msgs, d.uuid).value.origin.Narration?
  {
    hide NamesSaveJob, Validate, CalledTool, IsBlank, Strip, ExplicitText, WithoutCommit;
  }

  lemma NarrationDueIff(cfg: Config, user: string, save: Message, result: Message)
    requires Named(cfg, user) && IsSoleSave(save) && result.Tool? && result.name == SaveJob
    ensures var msgs := [Human(user), save, result];
            && UserText(msgs) == user && !InvalidUpdate(msgs) && !DraftReady(msgs)
            && (NarrationDue(cfg, msgs) <==> Validated(result))
            && (Validated(result) ==> LatestSaveResult(msgs) == result.payload)
  {}

  lemma NamedSecondDecision(cfg: Config, user: string, save: Message, result: Message, count: nat, d: Draw)
    requires Named(cfg, user) && IsSoleSave(save) && result.Tool? && result.name == SaveJob
    ensures var r := Decide(cfg, [Human(user), save, result], count, d);
            && r.said.Some? && r.said.value.Ai?
            && (r.said.value.origin.Narration? <==> Validated(result))
            && (Validated(result) ==> r == Decision(Some(Ai(Narrate(result.payload.value), [], Narration)), None, 0))
  {
    hide Respond, CanonicalSave, InvalidUpdate, DraftReady, NarrationDue, LatestSaveResult, Narrate, StripCommit,
      Named, Validated, UserText, CalledTool;
    var msgs := [Human(user), save, result];
    NarrationDueIff(cfg, user, save, result);
    if Strip(user) == RECENT_ROLE_QUESTION {
      QuestionDoesNotName(cfg.oracles, user);
      NamedNames(cfg, user);
      assert false;
    }
    DecideSpeaks(cfg, msgs, count, d);
    NotNarration(cfg, msgs, d);
  }

  lemma NamedNames(cfg: Config, user: string)
    requires Named(cfg, user)
    ensures NamesSaveJob(cfg.oracles, user)
  {}

  /** After the call, one tool message; after that, the second decision. */
  lemma NamedThreeMoves(cfg: Config, user: string, moves: seq<Move>)
    requires Named(cfg, user) && |moves| == 3 && After(cfg, user, moves).Some?
    ensures var t := After(cfg, user, moves).value;
            && |t.msgs| == 4 && t.msgs[2].Tool? && t.msgs[3].Ai?
            && (t.msgs[3].origin.Narration? <==> Validated(t.msgs[2]))
            && (Validated(t.msgs[2]) ==>
                  t.msgs[3].content == Narrate(t.msgs[2].payload.value) && t.node.End? && t.error.None?)
  {
    hide OpensWithSave, ChooseStep, ToolsStep, Named, Validated, Narrate, Shape;
    var m1, m2 := moves[..1], moves[..2];
    assert m2[..1] == m1;
    TurnsGrow(cfg, user, moves, 1);
    TurnsGrow(cfg, user, moves, 2);
    NamedTurnOpensWithSave(cfg, user, m1);
    ShapeHolds(cfg, user, m1);
    FirstMove(cfg, user, m1);
    var t1, t2 := After(cfg, user, m1).value, After(cfg, user, m2).value;
    SaveThenTool(cfg, user, t1, moves[1], m1[0].draw);
    SecondStep(cfg, user, t1, t2, moves[2]);
  }

  lemma SaveThenTool(cfg: Config, user: string, t1: Turn, m: Move, d: Draw)
    requires Named(cfg, user) && OpensWithSave(t1) && t1 == ChooseStep(cfg, StartTurn(user), d) && !t1.node.End?
    requires Enabled(t1, m)
    requires Shape(cfg, user, t1)
    ensures m.RunTools? && |t1.msgs| == 2 && IsSoleSave(t1.msgs[1])
    ensures var t2 := Step(cfg, t1, m);
            && t2.node.Deciding? && t2.error.None? && t2.count == 1
            && |t2.msgs| == 3 && t2.msgs == [Human(user), t1.msgs[1], t2.msgs[2]] && t2.msgs[2].Tool?
            && t2.msgs[2].name == SaveJob
  {
    hide Decide, Named;
    assert t1.node.Tools?;
  }

  lemma SecondStep(cfg: Config, user: string, t1: Turn, t2: Turn, m: Move)
    requires Named(cfg, user) && |t1.msgs| == 2 && IsSoleSave(t1.msgs[1]) && t2.node.Deciding? && t2.error.None?
    requires |t2.msgs| == 3 && t2.msgs == [Human(user), t1.msgs[1], t2.msgs[2]] && t2.msgs[2].Tool?
    requires t2.msgs[2].name == SaveJob
    requires Enabled(t2, m)
    ensures var t := Step(cfg, t2, m);
            && |t.msgs| == 4 && t.msgs[..3] == t2.msgs && t.msgs[3].Ai?
            && (t.msgs[3].origin.Narration? <==> Validated(t.msgs[2]))
            && (Validated(t.msgs[2]) ==>
                  t.msgs[3].content == Narrate(t.msgs[2].payload.value) && t.node.End? && t.error.None?)
  {
    hide Decide, Named, Validated, Narrate, IsSoleSave;
    NamedSecondDecision(cfg, user, t1.msgs[1], t2.msgs[2], t2.count, m.draw);
  }

  /**
    On a turn that names `save_job`, the assistant message after the save is the narration of the tool
    result iff that result validates; then the turn is over. Otherwise the model words the answer itself.
   */
  lemma NamedTurnNarratesIffValidated(cfg: Config, user: string, moves: seq<Move>)
    requires Named(cfg, user) && After(cfg, user, moves).Some? && |moves| >= 3
    ensures var t := After(cfg, user, moves).value;
            && |t.msgs| >= 4 && t.msgs[2].Tool? && t.msgs[3].Ai?
            && (t.msgs[3].origin.Narration? <==> Validated(t.msgs[2]))
            && (Validated(t.msgs[2]) ==>
                  && t.msgs[3].content == Narrate(t.msgs[2].payload.value) && |moves| == 3
                  && t.node.End? && t.error.None?)
  {
    hide Step, Enabled, Named, Validated, Narrate;
    TurnsGrow(cfg, user, moves, 3);
    NamedThreeMoves(cfg, user, moves[..3]);
    assert |moves| == 3 ==> moves[..3] == moves;
  }
}
