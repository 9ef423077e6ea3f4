/**
  One agent turn: the decision node, the counting tool node and the router between them, driven by an
  arbitrary model and arbitrary tool results.
 */
module AgentTurn {
  import opened Common
  import opened Text
  import opened AgentMessages

  // ----- What the user's text asks for -----

  /** Text predicates the turn only consults; nothing is known about them. */
  datatype Oracles = Oracles(
    optOut: string -> bool, soleUrl: string -> bool, largeText: string -> bool, obviousJd: string -> bool,
    wordOutsideAscii: char -> bool)

  predicate IsWordChar(o: Oracles, c: char) {
    if c < '\U{0080}' then 'a' <= c <= 'z' || 'A' <= c <= 'Z' || '0' <= c <= '9' || c == '_'
    else o.wordOutsideAscii(c)
  }

  const SAVE_JOB_WORD := "save_job"

  predicate NamedAt(o: Oracles, text: string, i: int) {
    && OccursAt(text, SAVE_JOB_WORD, i)
    && (i == 0 || !IsWordChar(o, text[i - 1]))
    && (i + 8 == |text| || !IsWordChar(o, text[i + 8]))
  }

  /** The whole word `save_job` occurs. */
  predicate NamesSaveJob(o: Oracles, text: string) {
    exists i :: 0 <= i <= |text| - 8 && NamedAt(o, text, i)
  }

  const COMMAND_HEAD := "Please call " + SAVE_JOB_WORD + " exactly once with text=\""
  const COMMAND_TAIL := "\" Do not use source=current_message and do not call match_jobs."

  predicate IsCommandText(t: string) {
    t != "" && forall i :: 0 <= i < |t| ==> t[i] != '\"' && t[i] != '\r' && t[i] != '\n'
  }

  /** The text of the one approved explicit command. */
  function ExplicitText(text: string): Option<string> {
    var t, h, e := Strip(text), |COMMAND_HEAD|, |COMMAND_TAIL|;
    if |t| < h + e || t[..h] != COMMAND_HEAD || t[|t| - e..] != COMMAND_TAIL then None
    else
      var mid := t[h..|t| - e];
      if IsCommandText(mid) && !IsBlank(mid) then Some(mid) else None
  }

  const RECENT_ROLE_QUESTION := "What is " + "the most " + "recent role " + "and company " + "in my CV?"

  lemma {:induction false} StripLeftIsSuffix(s: string)
    ensures |StripLeft(s)| <= |s| && StripLeft(s) == s[|s| - |StripLeft(s)|..]
  {
    if s != [] && IsSpace(s[0]) {
      StripLeftIsSuffix(s[1..]);
    }
  }

  lemma {:induction false} StripRightIsPrefix(s: string)
    ensures StripRight(s) <= s
    decreases |s|
  {
    if s != [] && IsSpace(s[|s| - 1]) {
      StripRightIsPrefix(s[..|s| - 1]);
    }
  }

  lemma StripIsInside(s: string) returns (k: nat)
    ensures k + |Strip(s)| <= |s| && s[k..k + |Strip(s)|] == Strip(s)
  {
    StripLeftIsSuffix(s);
    StripRightIsPrefix(StripLeft(s));
    k := |s| - |StripLeft(s)|;
  }

  /** The explicit command always names `save_job`. */
  lemma ExplicitCommandNamesSaveJob(o: Oracles, text: string)
    requires ExplicitText(text).Some?
    ensures NamesSaveJob(o, text)
  {
    hide Strip, IsBlank, IsCommandText, NamedAt;
    var k := StripIsInside(text);
    var t := Strip(text);
    HeadNamesIt(o, t);
    NamedInside(o, text, k, t);
  }

  lemma HeadNamesIt(o: Oracles, t: string)
    requires |COMMAND_HEAD| <= |t| && t[..|COMMAND_HEAD|] == COMMAND_HEAD
    ensures 20 < |t| && t[12..20] == SAVE_JOB_WORD && t[11] == ' ' && t[20] == ' '
  {}

  lemma NamedInside(o: Oracles, text: string, k: nat, t: string)
    requires k + |t| <= |text| && text[k..k + |t|] == t
    requires 20 < |t| && t[12..20] == SAVE_JOB_WORD && t[11] == ' ' && t[20] == ' '
    ensures 0 <= k + 12 <= |text| - 8 && NamedAt(o, text, k + 12)
  {
    SliceOfSlice(text, k, k + |t|, 12, 20);
    assert text[k + 11] == t[11] && text[k + 20] == t[20];
  }

  lemma SliceOfSlice(s: string, a: nat, b: nat, c: nat, d: nat)
    requires a <= b <= |s| && c <= d <= b - a
    ensures s[a..b][c..d] == s[a + c..a + d]
  {
    var x, y := s[a..b][c..d], s[a + c..a + d];
    assert |x| == |y| && forall i :: 0 <= i < |x| ==> x[i] == y[i];
  }

  // ----- The decision -----

  datatype Config = Config(
    limit: nat, commitAvailable: bool, saveAvailable: bool, readAvailable: bool, experienceSection: Option<string>,
    oracles: Oracles)

  datatype Error = LoopLimit | ProfileUpdateFailed

  datatype Reply = Reply(content: string, calls: seq<Call>)

  /** Two answers of the model, of which a decision uses none, one or both, and a fresh identifier. */
  datatype Draw = Draw(first: Reply, second: Reply, uuid: string)

  datatype Decision = Decision(said: Option<Message>, error: Option<Error>, modelCalls: nat)

  const NAMED_NO_ACTION :=
    Ai("No action occurred: save_job was not executed, so no Job was created or reused.", [], FixedText)
  const PASSIVE_NO_CONFIRMATION := Ai("No confirmation was created and the JD was not saved.", [], FixedText)

  function Answer(r: Reply): Message {
    Ai(r.content, r.calls, FromModel)
  }

  function OneCall(name: ToolName, args: Args, id: string, origin: Origin): Message {
    Ai("", [Call(CallId(id), name, args)], origin)
  }

  function AutoCommitCall(uuid: string): Message {
    OneCall(CommitDraft, NO_ARGS.(others := [("draft_id", "current")]), "auto-commit-" + uuid, AutoCommit)
  }

  function AutoReadCall(section: string, uuid: string): Message {
    OneCall(ReadActiveCv, NO_ARGS.(others := [("mode", "section"), ("section_id", section)]),
            "canonical-read-active-cv-" + uuid, AutoRead)
  }

  function CurrentMessageCall(uuid: string): Message {
    OneCall(SaveJob, NO_ARGS.(source := Str(CURRENT_MESSAGE)), "canonical-save-current-message-" + uuid, Canonical)
  }

  /** The text of the first human message. */
  function UserText(msgs: seq<Message>): string {
    if msgs == [] then "" else if msgs[0].Human? then msgs[0].text else UserText(msgs[1..])
  }

  predicate Named(cfg: Config, user: string) {
    !cfg.oracles.optOut(user) && cfg.saveAvailable && NamesSaveJob(cfg.oracles, user)
  }

  /** A turn that may save the pasted text: not named, not opted out, not a sole URL. */
  predicate Passive(cfg: Config, user: string) {
    cfg.saveAvailable && !cfg.oracles.optOut(user) && !Named(cfg, user) && !cfg.oracles.soleUrl(user)
  }

  predicate CommitDue(cfg: Config, msgs: seq<Message>) {
    cfg.commitAvailable && !RequestedCommit(msgs) && DraftReady(msgs)
  }

  predicate ReadDue(cfg: Config, msgs: seq<Message>) {
    cfg.readAvailable && Strip(UserText(msgs)) == RECENT_ROLE_QUESTION && !CalledTool(msgs, ReadActiveCv)
      && cfg.experienceSection.Some?
  }

  predicate NarrationDue(cfg: Config, msgs: seq<Message>) {
    CalledTool(msgs, SaveJob)
    && match LatestSaveResult(msgs)
       case None => false
       case Some(p) => Named(cfg, UserText(msgs)) || CalledWithCurrentMessage(msgs) || IsCancellation(p)
  }

  /** One call whose source the text itself settles. */
  function CanonicalSave(cfg: Config, msgs: seq<Message>, uuid: string): Option<Message> {
    var user := UserText(msgs);
    if !cfg.saveAvailable || cfg.oracles.optOut(user) || CalledTool(msgs, SaveJob) || IsBlank(user) then None
    else if cfg.oracles.soleUrl(user) then
      Some(OneCall(SaveJob, NO_ARGS.(url := Str(Strip(user))), "canonical-save-url-" + uuid, Canonical))
    else if ExplicitText(user).Some? then
      Some(OneCall(SaveJob, NO_ARGS.(text := Str(ExplicitText(user).value)), "canonical-save-text-" + uuid, Canonical))
    else if !Named(cfg, user) && cfg.oracles.obviousJd(user) then Some(CurrentMessageCall(uuid))
    else None
  }

  /** A sole save call stands if it is a valid current-message call and is replaced by one otherwise. */
  function Canonicalized(m: Message, uuid: string): Message
    requires IsSoleSave(m)
  {
    if IsSoleCurrentMessageSave(m) then m else CurrentMessageCall(uuid)
  }

  /** What the model's answers become: the message, and how many answers were asked for. */
  function Respond(cfg: Config, msgs: seq<Message>, d: Draw): (Message, nat) {
    var user := UserText(msgs);
    var first, second := Answer(d.first), Answer(d.second);
    var already := CalledTool(msgs, SaveJob);
    if Named(cfg, user) && !already then
      var n := if HasCalls(first) then 1 else 2;
      var m := if HasCalls(first) then first else second;
      (if IsSoleSave(m) then m else NAMED_NO_ACTION, n)
    else if Passive(cfg, user) && !already then
      if IsSoleSave(first) then (Canonicalized(first, d.uuid), 1)
      else if !HasCalls(first) && cfg.oracles.largeText(user) then
        (if IsSoleSave(second) then Canonicalized(second, d.uuid)
         else if HasCalls(second) then PASSIVE_NO_CONFIRMATION else second, 2)
      else if HasCallTo(first, SaveJob) then
        (if IsSoleSave(second) then Canonicalized(second, d.uuid) else PASSIVE_NO_CONFIRMATION, 2)
      else (first, 1)
    else (first, 1)
  }

  /** A commit requested together with a proposal is dropped. */
  function WithoutCommit(calls: seq<Call>): seq<Call> {
    if calls == [] then []
    else
      var front, last := calls[..|calls| - 1], calls[|calls| - 1];
      WithoutCommit(front) + if last.name == CommitDraft then [] else [last]
  }

  function StripCommit(m: Message): Message {
    if m.Ai? && HasProposal(m) then m.(calls := WithoutCommit(m.calls)) else m
  }

  /** The limit is reached and the message asks for another pass. */
  function LimitError(cfg: Config, count: nat, m: Message): Option<Error> {
    if HasCalls(m) && count >= cfg.limit then Some(LoopLimit) else None
  }

  function Decide(cfg: Config, msgs: seq<Message>, count: nat, d: Draw): Decision {
    if InvalidUpdate(msgs) then Decision(None, Some(ProfileUpdateFailed), 0)
    else if CommitDue(cfg, msgs) then Saying(cfg, count, AutoCommitCall(d.uuid), 0)
    else if ReadDue(cfg, msgs) then Saying(cfg, count, AutoReadCall(cfg.experienceSection.value, d.uuid), 0)
    else if NarrationDue(cfg, msgs) then Saying(cfg, count, Ai(Narrate(LatestSaveResult(msgs).value), [], Narration), 0)
    else
      match CanonicalSave(cfg, msgs, d.uuid)
      case Some(m) => Saying(cfg, count, m, 0)
      case None =>
        var (m, n) := Respond(cfg, msgs, d);
        Saying(cfg, count, StripCommit(m), n)
  }

  function Saying(cfg: Config, count: nat, m: Message, n: nat): Decision {
    Decision(Some(m), LimitError(cfg, count, m), n)
  }

  // ----- The turn -----

  datatype Node = Deciding | Tools | End

  datatype Turn = Turn(msgs: seq<Message>, count: nat, error: Option<Error>, modelCalls: nat, passes: nat, node: Node)

  datatype Move = Choose(draw: Draw) | RunTools(results: seq<Option<Payload>>)

  function StartTurn(user: string): Turn {
    Turn([Human(user)], 0, None, 0, 0, Deciding)
  }

  function Last(t: Turn): Message
    requires t.msgs != []
  {
    t.msgs[|t.msgs| - 1]
  }

  /** The router: an error ends the turn, calls below the limit go to the tools. */
  function Route(cfg: Config, msgs: seq<Message>, count: nat, error: Option<Error>): Node {
    if error.Some? then End
    else
      match LastAi(msgs)
      case None => End
      case Some(m) => if HasCalls(m) && count < cfg.limit then Tools else End
  }

  function LastAi(msgs: seq<Message>): Option<Message> {
    if msgs == [] then None
    else if msgs[|msgs| - 1].Ai? then Some(msgs[|msgs| - 1])
    else LastAi(msgs[..|msgs| - 1])
  }

  /** One message for every call, under the call's own id and name. */
  function ToolMessages(calls: seq<Call>, results: seq<Option<Payload>>): seq<Message>
    requires |results| == |calls|
  {
    seq(|calls|, i requires 0 <= i < |calls| => Tool(calls[i].id, calls[i].name, results[i]))
  }

  predicate Enabled(t: Turn, m: Move) {
    match m
    case Choose(_) => t.node.Deciding?
    case RunTools(results) => t.node.Tools? && t.msgs != [] && HasCalls(Last(t)) && |results| == |Last(t).calls|
  }

  function ChooseStep(cfg: Config, t: Turn, d: Draw): Turn {
    if t.error.Some? then t.(node := End)
    else
      var r := Decide(cfg, t.msgs, t.count, d);
      var msgs := if r.said.Some? then t.msgs + [r.said.value] else t.msgs;
      Turn(msgs, t.count, r.error, t.modelCalls + r.modelCalls, t.passes, Route(cfg, msgs, t.count, r.error))
  }

  function ToolsStep(cfg: Config, t: Turn, results: seq<Option<Payload>>): Turn
    requires Enabled(t, RunTools(results))
  {
    if t.count + 1 > cfg.limit then t.(count := t.count + 1, error := Some(LoopLimit), node := Deciding)
    else t.(count := t.count + 1, passes := t.passes + 1, node := Deciding,
            msgs := t.msgs + ToolMessages(Last(t).calls, results))
  }

  function Step(cfg: Config, t: Turn, m: Move): Turn
    requires Enabled(t, m)
  {
    match m
    case Choose(d) => ChooseStep(cfg, t, d)
    case RunTools(results) => ToolsStep(cfg, t, results)
  }

  function After(cfg: Config, user: string, moves: seq<Move>): Option<Turn> {
    if moves == [] then Some(StartTurn(user))
    else
      match After(cfg, user, moves[..|moves| - 1])
      case None => None
      case Some(t) => if Enabled(t, moves[|moves| - 1]) then Some(Step(cfg, t, moves[|moves| - 1])) else None
  }
}
