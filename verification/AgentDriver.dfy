/** The two graph nodes as code that changes the turn state, against the steps they refine. */
module AgentDriver {
  import opened Common
  import opened Text
  import opened AgentMessages
  import opened AgentTurn
  import opened AgentSafety
  import opened AgentAnswers

  class TurnState {
    var msgs: seq<Message>
    var count: nat
    var error: Option<Error>
    var modelCalls: nat
    var passes: nat
    var node: Node

    ghost function Value(): Turn
      reads this
    {
      Turn(msgs, count, error, modelCalls, passes, node)
    }

    constructor (user: string)
      ensures Value() == StartTurn(user)
    {
      msgs, count, error, modelCalls, passes, node := [Human(user)], 0, None, 0, 0, Deciding;
    }

    /**
      Asks the model at most twice, rebinding the response, and returns what is to be said: the first
      answer wherever the turn takes it.
     */
    method Ask(cfg: Config, d: Draw) returns (response: Message, asked: nat)
      ensures (response, asked) == Respond(cfg, msgs, d)
      ensures TakesFirst(cfg, Value(), d.first) ==>
                response == Ai(d.first.content, d.first.calls, FromModel) && asked == 1
    {
      var user := UserText(msgs);
      var already := CalledTool(msgs, SaveJob);
      response, asked := Answer(d.first), 1;
      if Named(cfg, user) && !already {
        if !HasCalls(response) {
          response, asked := Answer(d.second), 2;
        }
        if !IsSoleSave(response) {
          response := NAMED_NO_ACTION;
        }
      } else if cfg.saveAvailable && !cfg.oracles.optOut(user) && !already && !cfg.oracles.soleUrl(user) {
        if IsSoleCurrentMessageSave(response) {
        } else if IsSoleSave(response) {
          response := CurrentMessageCall(d.uuid);
        } else if !HasCalls(response) && cfg.oracles.largeText(user) {
          response, asked := Answer(d.second), 2;
          if IsSoleCurrentMessageSave(response) {
          } else if IsSoleSave(response) {
            response := CurrentMessageCall(d.uuid);
          } else if HasCalls(response) {
            response := PASSIVE_NO_CONFIRMATION;
          }
        } else if HasCallTo(response, SaveJob) {
          response, asked := Answer(d.second), 2;
          if IsSoleCurrentMessageSave(response) {
          } else if IsSoleSave(response) {
            response := CurrentMessageCall(d.uuid);
          } else {
            response := PASSIVE_NO_CONFIRMATION;
          }
        }
      }
    }

    method Say(cfg: Config, m: Message)
      modifies this
      ensures Value() == old(Value()).(msgs := old(msgs) + [m], error := LimitError(cfg, old(count), m))
    {
      msgs := msgs + [m];
      error := if HasCalls(m) && count >= cfg.limit then Some(LoopLimit) else None;
    }

    /**
      One decision: at most one message and two model calls. A turn of the right shape keeps it and
      hands over to the tools only below the limit.
     */
    method DecisionNode(cfg: Config, ghost user: string, d: Draw)
      requires node.Deciding?
      modifies this
      ensures Value() == ChooseStep(cfg, old(Value()), d)
      ensures Asks(cfg, old(Value())) && TakesFirst(cfg, old(Value()), d.first) ==>
                Says(cfg, old(Value()), Value(), d.first.content, d.first.calls, 1)
      ensures !node.Deciding? && passes == old(passes) && modelCalls <= old(modelCalls) + 2
      ensures old(msgs) <= msgs && |msgs| <= |old(msgs)| + 1
      ensures Shape(cfg, user, old(Value())) ==>
                && Shape(cfg, user, Value())
                && (node.Tools? ==> passes < cfg.limit && msgs != [] && HasCalls(msgs[|msgs| - 1]))
    {
      hide Shape, HasCalls, Says, Asks, TakesFirst;
      ChoiceKeeps(cfg, user, Value(), d);
      hide Respond, InvalidUpdate, CommitDue, ReadDue, NarrationDue, CanonicalSave, StripCommit, Route,
        LatestSaveResult, Narrate, LimitError;
      if error.Some? {
        node := End;
        return;
      }
      if InvalidUpdate(msgs) {
        error := Some(ProfileUpdateFailed);
      } else if CommitDue(cfg, msgs) {
        Say(cfg, AutoCommitCall(d.uuid));
      } else if ReadDue(cfg, msgs) {
        Say(cfg, AutoReadCall(SectionOf(cfg, msgs), d.uuid));
      } else if NarrationDue(cfg, msgs) {
        NarrationHasResult(cfg, msgs);
        Say(cfg, Ai(Narrate(LatestSaveResult(msgs).value), [], Narration));
      } else {
        var save := CanonicalSave(cfg, msgs, d.uuid);
        if save.Some? {
          Say(cfg, save.value);
        } else {
          var response, asked := Ask(cfg, d);
          Say(cfg, StripCommit(response));
          modelCalls := modelCalls + asked;
        }
      }
      node := Route(cfg, msgs, count, error);
    }

    /**
      One pass, counted. On a turn of the right shape the count stays within the limit, the node's own
      limit error never fires, and the turn grows by one answer per call of the last message, under
      that call's id and name.
     */
    method ToolsNode(cfg: Config, ghost user: string, results: seq<Option<Payload>>)
      requires Enabled(Value(), RunTools(results))
      modifies this
      ensures Value() == ToolsStep(cfg, old(Value()), results)
      ensures node.Deciding? && count == old(count) + 1 && modelCalls == old(modelCalls) && old(msgs) <= msgs
      ensures Shape(cfg, user, old(Value())) ==>
                && Shape(cfg, user, Value()) && error.None? && count == passes <= cfg.limit
                && |msgs| == |old(msgs)| + |results|
                && forall i :: 0 <= i < |results| ==>
                     IsAnswer(msgs[|old(msgs)| + i], old(msgs[|msgs| - 1]).calls[i], results[i])
    {
      if Shape(cfg, user, Value()) {
        ShapeKept(cfg, user, Value(), RunTools(results));
      }
      var next := count + 1;
      if next > cfg.limit {
        error := Some(LoopLimit);
      } else {
        msgs := msgs + ToolMessages(msgs[|msgs| - 1].calls, results);
        passes := passes + 1;
      }
      count := next;
      node := Deciding;
    }
  }

  lemma ChoiceKeeps(cfg: Config, user: string, t: Turn, d: Draw)
    requires t.node.Deciding?
    ensures var u := ChooseStep(cfg, t, d);
            && !u.node.Deciding? && u.modelCalls <= t.modelCalls + 2 && t.msgs <= u.msgs && |u.msgs| <= |t.msgs| + 1
            && (Shape(cfg, user, t) ==>
                  Shape(cfg, user, u) && (u.node.Tools? ==> u.passes < cfg.limit && u.msgs != [] && HasCalls(Last(u))))
            && (Asks(cfg, t) && TakesFirst(cfg, t, d.first) ==> Says(cfg, t, u, d.first.content, d.first.calls, 1))
  {
    hide Decide, Shape, Asks, TakesFirst, Says;
    if Asks(cfg, t) && TakesFirst(cfg, t, d.first) {
      AnswerIsSaid(cfg, t, d);
    }
    DecideSpeaks(cfg, t.msgs, t.count, d);
    if Shape(cfg, user, t) {
      ShapeKept(cfg, user, t, Choose(d));
      if ChooseStep(cfg, t, d).node.Tools? {
        ShapeAtTools(cfg, user, ChooseStep(cfg, t, d));
      }
    }
  }

  lemma ShapeAtTools(cfg: Config, user: string, t: Turn)
    requires Shape(cfg, user, t) && t.node.Tools?
    ensures t.passes < cfg.limit && t.msgs != [] && HasCalls(Last(t))
  {}

  /** The tool's answer to a call. */
  predicate IsAnswer(m: Message, call: Call, result: Option<Payload>) {
    m.Tool? && m.callId == call.id && m.name == call.name && m.payload == result
  }

  function SectionOf(cfg: Config, msgs: seq<Message>): string
    requires ReadDue(cfg, msgs)
  {
    cfg.experienceSection.value
  }

  lemma NarrationHasResult(cfg: Config, msgs: seq<Message>)
    requires NarrationDue(cfg, msgs)
    ensures LatestSaveResult(msgs).Some?
  {
    hide LatestSaveResult;
  }
}
