/** Messages of one agent turn, the arguments of `save_job`, and what tool results say. */
module AgentMessages {
  import opened Common
  import opened Text

  datatype ToolName = SaveJob | CommitDraft | ProposeFromCv | ProposeUpdate | ReadActiveCv | OtherTool(name: string)

  /** A JSON argument value as far as validation looks at it. */
  datatype Value = Absent | Null | Str(text: string) | NotText

  datatype Preview = NoPreview | GoodPreview | BadPreview

  datatype Args = Args(url: Value, text: Value, source: Value, preview: Preview, others: seq<(string, string)>)

  const NO_ARGS := Args(Absent, Absent, Absent, NoPreview, [])

  const CURRENT_MESSAGE := "current_message"

  datatype CallId = CallId(text: string)

  datatype Call = Call(id: CallId, name: ToolName, args: Args)

  datatype OkFlag = Missing | Yes | No | Odd

  datatype DraftKind = NewDraft | ExistingDraft | CurrentDraft | ActiveContext | OtherKind

  datatype Outcome = Cancelled | Returned | Created | Retried | OtherOutcome

  datatype Data = Data(kind: DraftKind, isProfileDraft: bool, outcome: Outcome, notCommitted: bool)

  /** The dictionary a tool message parses to. */
  datatype Payload = Payload(ok: OkFlag, code: Option<string>, summary: Option<string>, data: Option<Data>)

  /** Where an assistant message comes from. */
  datatype Origin = FromModel | AutoCommit | AutoRead | Canonical | FixedText | Narration

  datatype Message =
    | Human(text: string)
    | Ai(content: string, calls: seq<Call>, origin: Origin)
    | Tool(callId: CallId, name: ToolName, payload: Option<Payload>)

  const INVALID_PROFILE_UPDATE := "INVALID_PROFILE_UPDATE"

  // ----- Calls -----

  predicate HasCalls(m: Message) {
    m.Ai? && m.calls != []
  }

  predicate HasCallTo(m: Message, name: ToolName) {
    m.Ai? && exists i :: 0 <= i < |m.calls| && m.calls[i].name == name
  }

  predicate HasProposal(m: Message) {
    HasCallTo(m, ProposeFromCv) || HasCallTo(m, ProposeUpdate)
  }

  predicate IsSoleSave(m: Message) {
    m.Ai? && |m.calls| == 1 && m.calls[0].name == SaveJob
  }

  // ----- `save_job` arguments -----

  datatype Source = ByUrl(url: string) | ByText(text: string) | ByCurrentMessage

  predicate IsTextual(v: Value) {
    !v.NotText?
  }

  /** Blank placeholders count as omitted. */
  function Given(v: Value): Option<string> {
    if v.Str? && !IsBlank(v.text) then Some(Strip(v.text)) else None
  }

  predicate NamesCurrentMessage(v: Value) {
    v == Str(CURRENT_MESSAGE)
  }

  /** Exactly one of url, text and the current message; a preview only with the current message. */
  function Validate(a: Args): Option<Source> {
    var url, text, source := Given(a.url), Given(a.text), NamesCurrentMessage(a.source);
    if a.others != [] || !IsTextual(a.url) || !IsTextual(a.text) then None
    else if !source && !a.source.Absent? && !a.source.Null? then None
    else if a.preview.BadPreview? || (a.preview.GoodPreview? && !source) then None
    else if source then (if url.None? && text.None? then Some(ByCurrentMessage) else None)
    else if url.Some? then (if text.None? then Some(ByUrl(url.value)) else None)
    else if text.Some? then Some(ByText(text.value))
    else None
  }

  predicate IsSoleCurrentMessageSave(m: Message) {
    IsSoleSave(m) && Validate(m.calls[0].args) == Some(ByCurrentMessage)
  }

  // ----- Scans -----

  predicate CalledTool(msgs: seq<Message>, name: ToolName) {
    exists i :: 0 <= i < |msgs| && (HasCallTo(msgs[i], name) || (msgs[i].Tool? && msgs[i].name == name))
  }

  predicate RequestedCommit(msgs: seq<Message>) {
    exists i :: 0 <= i < |msgs| && HasCallTo(msgs[i], CommitDraft)
  }

  predicate CalledWithCurrentMessage(msgs: seq<Message>) {
    exists i :: 0 <= i < |msgs| && msgs[i].Ai? && HasCurrentMessageCall(msgs[i])
  }

  predicate HasCurrentMessageCall(m: Message) {
    m.Ai? && exists k :: 0 <= k < |m.calls| && m.calls[k].name == SaveJob && NamesCurrentMessage(m.calls[k].args.source)
  }

  predicate LeavesDraft(p: Payload) {
    p.ok.Yes? && p.data.Some? && (!p.data.value.kind.OtherKind? || p.data.value.isProfileDraft)
  }

  predicate IsDraftResult(m: Message) {
    m.Tool? && (m.name == ProposeFromCv || m.name == ProposeUpdate) && m.payload.Some? && LeavesDraft(m.payload.value)
  }

  /** The newest-first scan for a draft, stopping at the previous assistant message with calls. */
  function DraftReady(msgs: seq<Message>): bool {
    if msgs == [] then false
    else
      var last, rest := msgs[|msgs| - 1], msgs[..|msgs| - 1];
      if HasCalls(last) then false else IsDraftResult(last) || DraftReady(rest)
  }

  /** The newest profile update of the last pass failed full-draft validation. */
  function InvalidUpdate(msgs: seq<Message>): bool {
    if msgs == [] then false
    else
      var last, rest := msgs[|msgs| - 1], msgs[..|msgs| - 1];
      if HasCalls(last) then false
      else if last.Tool? && last.name == ProposeUpdate then IsInvalidUpdate(last)
      else InvalidUpdate(rest)
  }

  predicate IsInvalidUpdate(m: Message) {
    m.Tool? && m.payload.Some? && m.payload.value.ok.No? && m.payload.value.code == Some(INVALID_PROFILE_UPDATE)
  }

  // ----- The latest validated save result -----

  predicate IsSaveCallId(msgs: seq<Message>, id: CallId) {
    !IsBlank(id.text)
    && exists i, k :: 0 <= i < |msgs| && msgs[i].Ai? && 0 <= k < |msgs[i].calls|
                      && msgs[i].calls[k].name == SaveJob && msgs[i].calls[k].id == id
  }

  predicate Validated(m: Message) {
    m.Tool? && m.payload.Some? && m.payload.value.summary.Some? && !IsBlank(m.payload.value.summary.value)
    && !m.payload.value.ok.Missing?
  }

  predicate IsSaveResult(msgs: seq<Message>, m: Message) {
    Validated(m) && (m.name == SaveJob || IsSaveCallId(msgs, m.callId))
  }

  /** The payload at the greatest position below `n` that holds a validated save result. */
  function LatestBelow(msgs: seq<Message>, n: nat): (p: Option<Payload>)
    requires n <= |msgs|
    ensures p.None? <==> forall i :: 0 <= i < n ==> !IsSaveResult(msgs, msgs[i])
    ensures p.Some? ==> exists i :: 0 <= i < n && IsSaveResult(msgs, msgs[i]) && msgs[i].payload == p
                          && forall j :: i < j < n ==> !IsSaveResult(msgs, msgs[j])
  {
    if n == 0 then None
    else if IsSaveResult(msgs, msgs[n - 1]) then msgs[n - 1].payload
    else LatestBelow(msgs, n - 1)
  }

  function LatestSaveResult(msgs: seq<Message>): Option<Payload> {
    LatestBelow(msgs, |msgs|)
  }

  predicate IsCancellation(p: Payload) {
    p.data.Some? && p.data.value.outcome.Cancelled? && p.data.value.notCommitted
  }

  // ----- Narration -----

  const CANCEL_SUMMARY := "JD ch\U{01B0}a \U{0111}\U{01B0}\U{1EE3}c l\U{01B0}u"
  const RETURNED_DEFAULT := "Returned existing job for exact content match"

  /** Case-insensitive test of ASCII letters, enough for the two words looked for. */
  function Lower(s: string): string {
    seq(|s|, i requires 0 <= i < |s| => if 'A' <= s[i] <= 'Z' then ((s[i] as int) + 32) as char else s[i])
  }

  predicate OccursAt(s: string, word: string, i: int) {
    0 <= i <= |s| - |word| && s[i..i + |word|] == word
  }

  predicate Contains(s: string, word: string) {
    exists i :: 0 <= i <= |s| - |word| && OccursAt(s, word, i)
  }

  function Narrate(p: Payload): string {
    var summary := if p.summary.Some? then Strip(p.summary.value) else "";
    var outcome := if p.data.Some? then p.data.value.outcome else OtherOutcome;
    if !p.ok.Yes? then
      if summary != "" then summary
      else if p.code.Some? && !IsBlank(p.code.value) then
        "save_job failed (" + Strip(p.code.value) + ")."
      else "save_job failed."
    else if outcome.Cancelled? then (if summary != "" then summary else CANCEL_SUMMARY)
    else if outcome.Returned? then
      var base := if summary != "" then summary else RETURNED_DEFAULT;
      (if Contains(Lower(base), "created") && !Contains(Lower(base), "return") then RETURNED_DEFAULT else base)
      + " No new Job was created."
    else if summary != "" then summary
    else "save_job completed."
  }

  predicate ClaimsCreation(summary: string) {
    Contains(Lower(summary), "created") && !Contains(Lower(summary), "return")
  }

  /**
    A validated result is narrated by its own summary; only a returned job adds a sentence, and a
    summary that claims creation without a return is replaced. The fallback wordings never show.
   */
  lemma NarrationOfValidated(m: Message)
    requires Validated(m)
    ensures var p, summary := m.payload.value, Strip(m.payload.value.summary.value);
            Narrate(p)
            == if p.ok.Yes? && p.data.Some? && p.data.value.outcome.Returned? then
                 (if ClaimsCreation(summary) then "Returned existing job for exact content match" else summary)
                 + " No new Job was created."
               else summary
  {
    StripEmptyIffBlank(m.payload.value.summary.value);
    hide Contains, Lower;
  }

  // ----- What the scans and the validation find -----

  /** The latest proposal of an update since the last calls was refused as an invalid draft. */
  lemma {:induction false} InvalidUpdateMeans(msgs: seq<Message>)
    ensures InvalidUpdate(msgs)
       <==> exists j ::
              && 0 <= j < |msgs| && msgs[j].Tool? && msgs[j].name == ProposeUpdate && msgs[j].payload.Some?
              && msgs[j].payload.value.ok == No && msgs[j].payload.value.code == Some("INVALID_PROFILE_UPDATE")
              && forall i :: j < i < |msgs| ==>
                   !HasCalls(msgs[i]) && !(msgs[i].Tool? && msgs[i].name == ProposeUpdate)
  {
    if msgs != [] {
      InvalidUpdateMeans(msgs[..|msgs| - 1]);
    }
  }

  /** A text argument that is not a blank placeholder. */
  predicate IsGiven(v: Value) {
    v.Str? && !IsBlank(v.text)
  }

  /** Exactly one of the URL, the text and the current message is given, the preview only with the last. */
  lemma ValidateMeans(a: Args)
    ensures var current := a.source == Str("current_message"); var r := Validate(a);
            && (r.Some?
                <==> && a.others == [] && a.url != NotText && a.text != NotText
                     && (current || a.source == Absent || a.source == Null)
                     && a.preview != BadPreview && (a.preview == GoodPreview ==> current)
                     && (current || IsGiven(a.url) || IsGiven(a.text))
                     && !(current && IsGiven(a.url)) && !(current && IsGiven(a.text))
                     && !(IsGiven(a.url) && IsGiven(a.text)))
            && (r.Some? ==>
                  r.value == if current then ByCurrentMessage
                             else if IsGiven(a.url) then ByUrl(Strip(a.url.text)) else ByText(Strip(a.text.text)))
  {
    hide IsBlank, Strip;
  }
}
