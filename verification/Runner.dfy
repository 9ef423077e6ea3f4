/**
  One streamed agent run: the merge queue between the graph pump and tool publications, the durable
  terminal callback, checkpoint cleanup, and the close that happens on every exit. Every `await` and
  `yield` is a step boundary, so a cancellation or a closed stream is the move `Stop` between any two.
 */
module Runner {
  import opened Common

  datatype Code = Code(name: string)
  datatype Text = Text(chars: string)

  const AGENT_EXECUTION_FAILED := Code("AGENT_EXECUTION_FAILED")

  datatype Kind = Completed | Failed | Interrupted

  datatype Event =
    | RunStarted | AssistantStatus | ToolStatus(id: int) | TextDelta(text: Text)
    | RunCompleted | RunFailed(code: Code)

  /** What the callback did: reported the outcome durable, reported it not durable, or raised. */
  datatype Reply = Accepted | Refused | Raised

  datatype Entry =
    | Emit(event: Event)
    | Report(kind: Kind, code: Option<Code>, text: Option<seq<Text>>, reply: Reply)
    | Cleanup

  /** The text events of one graph update. */
  type Deltas = es: seq<Event> | forall i :: 0 <= i < |es| ==> es[i].TextDelta?

  /** An interrupt chunk carries neither error nor text. */
  datatype Item = Status(id: int) | Chunk(error: Option<Code>, deltas: Deltas) | Interrupt | GraphError | GraphEnd

  datatype Pump = NotStarted | Streaming | Crashed | Ended

  datatype Phase =
    | Fresh | Opened | Merging | Draining | Joining | Reporting | Cleaning | Finishing | Ending
    | Closing | ClosingCleanup | Done

  datatype State = State(
    phase: Phase, pump: Pump, queue: seq<Item>, taken: seq<Item>, sending: seq<Event>,
    error: Option<Code>, pending: bool, parts: seq<Text>, activity: bool,
    kind: Kind, durable: bool, persisted: bool, log: seq<Entry>)

  const START := State(Fresh, NotStarted, [], [], [], None, false, [], false, Completed, false, false, [])

  datatype Move =
    | Begin
    | Assistant(shown: bool, recorded: bool)
    | Publish(id: int)
    | PumpChunk(error: Option<Code>, deltas: Deltas)
    | PumpInterrupt
    | PumpCrash
    | PumpEnd
    | Take
    | Send
    | Drained
    | Snapshot(error: Option<Code>, pending: bool)
    | Tell(reply: Reply)
    | Clean(ok: bool)
    | FinishActivity(shown: bool)
    | Last
    | Stop
    | CloseTell(reply: Reply)
    | CloseClean
    | CloseQuiet

  // ----- Steps -----

  function Enqueue(s: State, item: Item): State {
    s.(queue := s.queue + [item])
  }

  function Logged(s: State, e: Entry): State {
    s.(log := s.log + [e])
  }

  function EventsOf(item: Item): seq<Event> {
    match item
    case Status(id) => [ToolStatus(id)]
    case Chunk(_, deltas) => deltas
    case _ => []
  }

  /** The error an item leaves behind. */
  function ErrorAfter(error: Option<Code>, item: Item): Option<Code> {
    match item
    case Chunk(Some(code), _) => Some(code)
    case GraphError => Some(AGENT_EXECUTION_FAILED)
    case _ => error
  }

  function TakeStep(s: State): State
    requires s.queue != []
  {
    var item := s.queue[0];
    var s1 := s.(queue := s.queue[1..], taken := s.taken + [item]);
    if s.phase.Merging? then
      s1.(sending := EventsOf(item), error := ErrorAfter(s.error, item), pending := s.pending || item.Interrupt?,
          phase := if item.GraphEnd? then Draining else Merging)
    else
      match item
      case Status(_) => s1.(sending := EventsOf(item))
      case GraphError => s1.(error := if s.error.None? then Some(AGENT_EXECUTION_FAILED) else s.error)
      case _ => s1
  }

  function SendStep(s: State): State
    requires s.sending != []
  {
    var e := s.sending[0];
    Logged(s, Emit(e)).(sending := s.sending[1..], parts := if e.TextDelta? then s.parts + [e.text] else s.parts)
  }

  function Decide(s: State, error: Option<Code>, pending: bool): State {
    var error1 := if s.error.None? then error else s.error;
    var pending1 := if s.error.None? then s.pending || pending else s.pending;
    s.(phase := Reporting, error := error1, pending := pending1,
       kind := if pending1 && error1.None? then Interrupted else if error1.Some? then Failed else Completed)
  }

  function TellStep(s: State, reply: Reply): State {
    var text := if s.parts == [] then None else Some(s.parts);
    var s1 := Logged(s, Report(s.kind, if s.kind.Failed? then s.error else None, text, reply));
    match reply
    case Accepted =>
      s1.(durable := true, persisted := true, phase := if s.kind.Interrupted? then Finishing else Cleaning)
    case Refused => s1.(phase := Finishing)
    case Raised => s1.(phase := Closing)
  }

  function LastStep(s: State): State
    requires s.kind.Failed? ==> s.error.Some?
  {
    match s.kind
    case Completed => Logged(s, Emit(RunCompleted)).(phase := Closing)
    case Failed => Logged(s, Emit(RunFailed(s.error.value))).(phase := Closing)
    case Interrupted => s.(phase := Closing)
  }

  predicate InBody(p: Phase) {
    !p.Closing? && !p.ClosingCleanup? && !p.Done?
  }

  predicate Enabled(s: State, m: Move) {
    match m
    case Begin => s.phase.Fresh?
    case Assistant(_, _) => s.phase.Opened?
    case Publish(_) => !s.pump.NotStarted?
    case PumpChunk(_, _) => s.pump.Streaming?
    case PumpInterrupt => s.pump.Streaming?
    case PumpCrash => s.pump.Streaming?
    case PumpEnd => s.pump.Streaming? || s.pump.Crashed?
    case Take => (s.phase.Merging? || s.phase.Draining?) && s.sending == [] && s.queue != []
    case Send => (s.phase.Merging? || s.phase.Draining?) && s.sending != []
    case Drained => s.phase.Draining? && s.sending == [] && s.queue == []
    case Snapshot(_, _) => s.phase.Joining?
    case Tell(_) => s.phase.Reporting?
    case Clean(_) => s.phase.Cleaning?
    case FinishActivity(_) => s.phase.Finishing?
    case Last => s.phase.Ending? && (s.kind.Failed? ==> s.error.Some?)
    case Stop => InBody(s.phase)
    case CloseTell(_) => s.phase.Closing? && !s.persisted
    case CloseClean => s.phase.ClosingCleanup?
    case CloseQuiet => s.phase.Closing? && s.persisted
  }

  function Step(s: State, m: Move): State
    requires Enabled(s, m)
  {
    match m
    case Begin => Logged(s, Emit(RunStarted)).(phase := Opened)
    case Assistant(shown, recorded) =>
      (if shown then Logged(s, Emit(AssistantStatus))
       else s).(phase := Merging, activity := shown && recorded, pump := Streaming)
    case Publish(id) => Enqueue(s, Status(id))
    case PumpChunk(error, deltas) => Enqueue(s, Chunk(error, deltas))
    case PumpInterrupt => Enqueue(s, Interrupt)
    case PumpCrash => Enqueue(s, GraphError).(pump := Crashed)
    case PumpEnd => Enqueue(s, GraphEnd).(pump := Ended)
    case Take => TakeStep(s)
    case Send => SendStep(s)
    case Drained => s.(phase := Joining)
    case Snapshot(error, pending) => Decide(s, error, pending)
    case Tell(reply) => TellStep(s, reply)
    case Clean(ok) => Logged(s, Cleanup).(phase := if ok then Finishing else Closing)
    case FinishActivity(shown) =>
      (if s.durable && s.activity && shown then Logged(s, Emit(AssistantStatus)) else s).(phase := Ending)
    case Last => LastStep(s)
    case Stop => s.(phase := Closing)
    case CloseTell(reply) =>
      Logged(s, Report(Failed, Some(AGENT_EXECUTION_FAILED), None, reply))
      .(persisted := reply.Accepted?, phase := if reply.Accepted? then ClosingCleanup else Done)
    case CloseClean => Logged(s, Cleanup).(phase := Done)
    case CloseQuiet => s.(phase := Done)
  }

  /** The state after a run of moves, each enabled when it is made. */
  function After(moves: seq<Move>): Option<State> {
    if moves == [] then Some(START)
    else
      match After(moves[..|moves| - 1])
      case None => None
      case Some(s) => if Enabled(s, moves[|moves| - 1]) then Some(Step(s, moves[|moves| - 1])) else None
  }

  // ----- What a log says -----

  function Emitted(log: seq<Entry>): seq<Event> {
    if log == [] then []
    else
      var last := log[|log| - 1];
      Emitted(log[..|log| - 1]) + if last.Emit? then [last.event] else []
  }

  function Reports(log: seq<Entry>): seq<Entry> {
    if log == [] then []
    else
      var last := log[|log| - 1];
      Reports(log[..|log| - 1]) + if last.Report? then [last] else []
  }

  /** The outcomes the callback reported durable. */
  function Durable(log: seq<Entry>): seq<Kind> {
    if log == [] then []
    else
      var last := log[|log| - 1];
      Durable(log[..|log| - 1]) + if last.Report? && last.reply.Accepted? then [last.kind] else []
  }

  function Cleanups(log: seq<Entry>): nat {
    if log == [] then 0 else Cleanups(log[..|log| - 1]) + if log[|log| - 1].Cleanup? then 1 else 0
  }

  predicate Terminal(e: Event) {
    e.RunCompleted? || e.RunFailed?
  }

  predicate FromQueue(e: Event) {
    e.ToolStatus? || e.TextDelta?
  }

  function Streamed(es: seq<Event>): seq<Event> {
    if es == [] then []
    else Streamed(es[..|es| - 1]) + if FromQueue(es[|es| - 1]) then [es[|es| - 1]] else []
  }

  function Texts(es: seq<Event>): seq<Text> {
    if es == [] then []
    else Texts(es[..|es| - 1]) + if es[|es| - 1].TextDelta? then [es[|es| - 1].text] else []
  }

  function AllEvents(items: seq<Item>): seq<Event> {
    if items == [] then [] else AllEvents(items[..|items| - 1]) + EventsOf(items[|items| - 1])
  }

  function ErrorIn(items: seq<Item>): Option<Code> {
    if items == [] then None else ErrorAfter(ErrorIn(items[..|items| - 1]), items[|items| - 1])
  }

  // ----- Tallies -----

  /** What was told, what is durable, and how often the checkpoint was deleted. */
  datatype Tally = Tally(reports: seq<Entry>, durable: seq<Kind>, cleanups: nat)

  function TallyOf(log: seq<Entry>): Tally {
    Tally(Reports(log), Durable(log), Cleanups(log))
  }

  function Grown(t: Tally, e: Entry): Tally {
    match e
    case Emit(_) => t
    case Report(kind, _, _, reply) =>
      Tally(t.reports + [e], if reply.Accepted? then t.durable + [kind] else t.durable, t.cleanups)
    case Cleanup => t.(cleanups := t.cleanups + 1)
  }

  lemma Appended(log: seq<Entry>, e: Entry)
    ensures TallyOf(log + [e]) == Grown(TallyOf(log), e)
    ensures Emitted(log + [e]) == if e.Emit? then Emitted(log) + [e.event] else Emitted(log)
  {
    assert (log + [e])[..|log + [e]| - 1] == log;
  }

  predicate AfterDecision(p: Phase) {
    p.Reporting? || p.Cleaning? || p.Finishing? || p.Ending?
  }

  // ----- What each move logs -----

  /** The entry a move writes, if any. */
  function Entries(s: State, m: Move): (es: seq<Entry>)
    requires Enabled(s, m)
    ensures |es| <= 1
  {
    match m
    case Begin => [Emit(RunStarted)]
    case Assistant(shown, _) => if shown then [Emit(AssistantStatus)] else []
    case Send => [Emit(s.sending[0])]
    case Tell(reply) =>
      [Report(s.kind, if s.kind.Failed? then s.error else None, if s.parts == [] then None else Some(s.parts), reply)]
    case FinishActivity(shown) => if s.durable && s.activity && shown then [Emit(AssistantStatus)] else []
    case Last =>
      if s.kind.Completed? then [Emit(RunCompleted)]
      else if s.kind.Failed? then [Emit(RunFailed(s.error.value))]
      else []
    case CloseTell(reply) => [Report(Failed, Some(AGENT_EXECUTION_FAILED), None, reply)]
    case Clean(_) => [Cleanup]
    case CloseClean => [Cleanup]
    case _ => []
  }

  lemma LogStep(s: State, m: Move)
    requires Enabled(s, m)
    ensures Step(s, m).log == s.log + Entries(s, m)
  {
    hide EventsOf, ErrorAfter;
    match m
    case Take => assert TakeStep(s).log == s.log;
    case Send => assert SendStep(s).log == s.log + Entries(s, m);
    case Tell(reply) => assert TellStep(s, reply).log == s.log + Entries(s, m);
    case Last => assert LastStep(s).log == s.log + Entries(s, m);
    case _ =>
  }

  lemma LogEffects(s: State, m: Move)
    requires Enabled(s, m)
    ensures var es := Entries(s, m);
            && TallyOf(Step(s, m).log) == (if es == [] then TallyOf(s.log) else Grown(TallyOf(s.log), es[0]))
            && Emitted(Step(s, m).log) == (if es != [] && es[0].Emit? then Emitted(s.log) + [es[0].event]
                                           else Emitted(s.log))
  {
    hide Step, Emitted, TallyOf, Entries, Enabled;
    LogStep(s, m);
    var es := Entries(s, m);
    if es == [] {
      assert s.log + es == s.log;
    } else {
      Appended(s.log, es[0]);
      assert es == [es[0]];
    }
  }
}
