/** What a run tells, announces and deletes, in terms of the moves that were made and of the entries logged. */
module RunnerOutcome {
  import opened Common
  import opened Runner
  import opened RunnerProtocol
  import opened RunnerMerge

  // ----- The text told -----

  predicate IsTextEntry(e: Entry) {
    e.Emit? && e.event.TextDelta?
  }

  /** `told` is the text of the streamed text events, in order, and nothing if there is none. */
  ghost predicate TextOf(told: Option<seq<Text>>, log: seq<Entry>) {
    exists at ::
      && Positions(at, log, IsTextEntry)
      && (told.None? <==> at == [])
      && (told.Some? ==>
            && |told.value| == |at|
            && forall n :: 0 <= n < |at| ==> at[n] < |log| && told.value[n] == log[at[n]].event.text)
  }

  lemma {:induction false} TextsAt(log: seq<Entry>) returns (at: seq<nat>)
    ensures Positions(at, log, IsTextEntry) && |Texts(Emitted(log))| == |at|
    ensures forall n :: 0 <= n < |at| ==> at[n] < |log| && Texts(Emitted(log))[n] == log[at[n]].event.text
    decreases |log|
  {
    if log == [] {
      at := [];
    } else {
      var front, last := log[..|log| - 1], log[|log| - 1];
      at := TextsAt(front);
      PositionsGrow(at, front, last, IsTextEntry);
      TextsGrow(front, last);
      assert front + [last] == log;
      hide Positions, Texts, Emitted;
      at := at + if IsTextEntry(last) then [|front|] else [];
    }
  }

  lemma TextsGrow(log: seq<Entry>, e: Entry)
    ensures Texts(Emitted(log + [e])) == Texts(Emitted(log)) + if IsTextEntry(e) then [e.event.text] else []
  {
    hide Texts, Emitted, TallyOf;
    Appended(log, e);
    if e.Emit? {
      StreamAppended(Emitted(log), e.event);
    }
  }

  function ToldText(s: State): Option<seq<Text>> {
    if s.parts == [] then None else Some(s.parts)
  }

  lemma ToldIsStreamed(s: State)
    requires s.parts == Texts(Emitted(s.log))
    ensures TextOf(ToldText(s), s.log)
  {
    var at := TextsAt(s.log);
    hide Emitted, Texts, Positions;
  }

  // ----- What was told, by the moves made -----

  predicate TellsIn(moves: seq<Move>) {
    exists i :: 0 <= i < |moves| && moves[i].Tell?
  }

  predicate IsClosing(e: Entry) {
    e.Report? && e.kind == Failed && e.code == Some(Code("AGENT_EXECUTION_FAILED")) && e.text == None
  }

  predicate Beyond(p: Phase) {
    p.Cleaning? || p.Finishing? || p.Ending? || p.Closing? || p.ClosingCleanup? || p.Done?
  }

  predicate IsOutcome(e: Entry, s: State) {
    && e.Report? && e.kind == s.kind && e.code == s.error && (e.kind == Failed <==> e.code.Some?)
    && e.text == ToldText(s)
  }

  predicate Ledger(s: State, rs: seq<Entry>, told: bool) {
    if told then Beyond(s.phase) && rs != [] && IsOutcome(rs[0], s) && forall i :: 1 <= i < |rs| ==> IsClosing(rs[i])
    else !s.phase.Cleaning? && !s.phase.Finishing? && !s.phase.Ending? && forall i :: 0 <= i < |rs| ==> IsClosing(rs[i])
  }

  predicate SameOutcome(s: State, t: State) {
    && t.kind == s.kind && t.error == s.error && t.parts == s.parts
    && (Beyond(s.phase) ==> Beyond(t.phase))
    && (!s.phase.Cleaning? && !s.phase.Finishing? && !s.phase.Ending? ==>
          !t.phase.Cleaning? && !t.phase.Finishing? && !t.phase.Ending?)
  }

  lemma OutcomeOpening(s: State, m: Move)
    requires Enabled(s, m) && Opening(m)
    ensures SameOutcome(s, Step(s, m))
  {}

  lemma OutcomeClosing(s: State, m: Move)
    requires Enabled(s, m) && (AtClose(m) || m.Clean? || m.FinishActivity? || m.Last?)
    ensures SameOutcome(s, Step(s, m))
  {}

  lemma OutcomeUndecided(s: State, m: Move)
    requires Enabled(s, m) && (m.Take? || m.Send? || m.Snapshot?)
    ensures !Beyond(s.phase) && !Beyond(Step(s, m).phase)
  {
    hide EventsOf, ErrorAfter;
  }

  lemma OutcomeTold(s: State, reply: Reply)
    requires Enabled(s, Tell(reply)) && (s.kind.Failed? <==> s.error.Some?)
    ensures var t := Step(s, Tell(reply)); Beyond(t.phase) && IsOutcome(Entries(s, Tell(reply))[0], t)
  {}

  lemma EntryTold(s: State, m: Move)
    requires Enabled(s, m) && !m.Tell?
    ensures Entries(s, m) != [] && Entries(s, m)[0].Report? ==> IsClosing(Entries(s, m)[0])
  {}

  lemma ReportsGrow(s: State, m: Move)
    requires Enabled(s, m)
    ensures var es := Entries(s, m);
            Reports(Step(s, m).log) == Reports(s.log) + if es != [] && es[0].Report? then es else []
  {
    hide Step, Entries, Enabled, Reports, Durable, Cleanups, Emitted;
    LogEffects(s, m);
    assert Entries(s, m) == [] || Entries(s, m) == [Entries(s, m)[0]];
  }

  lemma LedgerGrows(s: State, t: State, rs: seq<Entry>, es: seq<Entry>, told: bool)
    requires Ledger(s, rs, told) && (SameOutcome(s, t) || (!Beyond(s.phase) && !Beyond(t.phase)))
    requires forall i :: 0 <= i < |es| ==> IsClosing(es[i])
    ensures Ledger(t, rs + es, told)
  {
    hide IsClosing;
  }

  lemma LedgerOpens(s: State, e: Entry, told: bool)
    requires Beyond(s.phase) && IsOutcome(e, s)
    ensures Ledger(s, [] + [e], told || true)
  {}

  lemma LedgerKept(s: State, m: Move, told: bool)
    requires Enabled(s, m) && Protocol(s) && Ledger(s, Reports(s.log), told)
    ensures Ledger(Step(s, m), Reports(Step(s, m).log), told || m.Tell?)
  {
    hide Protocol, Reports, Step, Entries, Ledger, Enabled, IsClosing, IsOutcome, SameOutcome, Beyond, Opening;
    ReportsGrow(s, m);
    if m.Tell? {
      TellOpens(s, m.reply);
    } else {
      EntryTold(s, m);
      OutcomeKept(s, m);
      var es := Entries(s, m);
      LedgerGrows(s, Step(s, m), Reports(s.log), if es != [] && es[0].Report? then es else [], told);
    }
  }

  lemma TellOpens(s: State, reply: Reply)
    requires Enabled(s, Tell(reply)) && Protocol(s)
    ensures Ledger(Step(s, Tell(reply)), Reports(Step(s, Tell(reply)).log), true)
  {
    hide Protocol, Reports, Step, Entries, Ledger, IsOutcome;
    ReportsGrow(s, Tell(reply));
    ProtocolUntold(s);
    OutcomeTold(s, reply);
    var e := Entries(s, Tell(reply));
    assert e == [e[0]] by { EntryIsReport(s, reply); }
    assert e[0].Report? by { EntryIsReport(s, reply); }
    LedgerOpens(Step(s, Tell(reply)), e[0], true);
  }

  lemma EntryIsReport(s: State, reply: Reply)
    requires Enabled(s, Tell(reply))
    ensures |Entries(s, Tell(reply))| == 1 && Entries(s, Tell(reply))[0].Report?
  {}

  lemma OutcomeKept(s: State, m: Move)
    requires Enabled(s, m) && !m.Tell?
    ensures SameOutcome(s, Step(s, m)) || (!Beyond(s.phase) && !Beyond(Step(s, m).phase))
  {
    hide Step, Enabled, SameOutcome, Beyond;
    if Opening(m) {
      OutcomeOpening(s, m);
    } else if m.Take? || m.Send? || m.Snapshot? {
      OutcomeUndecided(s, m);
    } else {
      OutcomeClosing(s, m);
    }
  }

  lemma ProtocolUntold(s: State)
    requires Protocol(s) && s.phase.Reporting?
    ensures TallyOf(s.log) == Tally([], [], 0) && (s.kind.Failed? <==> s.error.Some?)
  {
    hide TallyOf, Emitted;
  }

  lemma {:induction false} LedgerHolds(moves: seq<Move>)
    requires After(moves).Some?
    ensures var s := After(moves).value; Ledger(s, Reports(s.log), TellsIn(moves))
  {
    hide Protocol, Step, Enabled, Ledger, TellsIn;
    if moves == [] {
      LedgerAtStart();
    } else {
      var front, m := moves[..|moves| - 1], moves[|moves| - 1];
      LedgerHolds(front);
      ProtocolHolds(front);
      LedgerKept(After(front).value, m, TellsIn(front));
      assert front + [m] == moves;
      TellsGrow(front, m);
    }
  }

  lemma LedgerAtStart()
    ensures Ledger(START, Reports(START.log), TellsIn([]))
  {}

  lemma TellsGrow(front: seq<Move>, m: Move)
    ensures TellsIn(front + [m]) == (TellsIn(front) || m.Tell?)
  {
    var all := front + [m];
    assert forall i :: 0 <= i < |front| ==> all[i] == front[i];
    if m.Tell? {
      assert all[|front|].Tell?;
    }
  }

  /**
    A run that told its outcome told it once and first: the kind, the code of a failure and all the text
    that was streamed, or none if there was none. Anything else told is the failure of the close, which
    carries no text, and so is everything a run tells that never told its outcome.
   */
  lemma StoredTextIsStreamedText(moves: seq<Move>)
    requires After(moves).Some?
    ensures var log := After(moves).value.log; var rs := Reports(log);
            && (TellsIn(moves) ==>
                  && rs != [] && rs[0].Report? && (rs[0].code.Some? <==> rs[0].kind == Failed)
                  && TextOf(rs[0].text, log))
            && forall i :: (if TellsIn(moves) then 1 else 0) <= i < |rs| ==> IsClosing(rs[i])
  {
    hide After, Reports, Content, Protocol, TextOf, TellsIn;
    LedgerHolds(moves);
    MergeHolds(moves);
    ProtocolHolds(moves);
    var s := After(moves).value;
    assert s.parts == Texts(Emitted(s.log)) by { PartsAre(s); }
    ToldIsStreamed(s);
  }

  lemma PartsAre(s: State)
    requires Content(s)
    ensures s.parts == Texts(Emitted(s.log))
  {
    hide Emitted, Texts, Streamed, AllEvents;
  }

  // ----- What the queue decides and shows -----

  /** Each item shows its status, its text events, or nothing, in the items' order. */
  ghost predicate Shows(es: seq<Event>, items: seq<Item>) {
    exists parts :: |parts| == |items| && ShownBy(parts, items) && Joins(es, parts)
  }

  ghost predicate ShownBy(parts: seq<seq<Event>>, items: seq<Item>)
    requires |parts| == |items|
  {
    forall i :: 0 <= i < |items| ==>
      parts[i] == match items[i]
                  case Status(id) => [ToolStatus(id)]
                  case Chunk(_, deltas) => deltas
                  case _ => []
  }

  lemma {:induction false} AllEventsShow(items: seq<Item>)
    ensures Shows(AllEvents(items), items)
  {
    if items == [] {
      JoinsNothing<Event>();
      assert ShownBy([], []);
    } else {
      var front, last := items[..|items| - 1], items[|items| - 1];
      AllEventsShow(front);
      var parts :| |parts| == |front| && ShownBy(parts, front) && Joins(AllEvents(front), parts);
      JoinsMore(AllEvents(front), parts, EventsOf(last));
      assert ShownBy(parts + [EventsOf(last)], items);
    }
  }

  /** The failure an item reports. */
  function Failure(item: Item): Option<Code> {
    match item
    case Chunk(error, _) => error
    case GraphError => Some(Code("AGENT_EXECUTION_FAILED"))
    case _ => None
  }

  /** The latest failure among the items decides. */
  predicate LatestFailure(error: Option<Code>, items: seq<Item>) {
    if error.None? then forall i :: 0 <= i < |items| ==> Failure(items[i]).None?
    else
      exists i ::
        0 <= i < |items| && Failure(items[i]) == error && forall j :: i < j < |items| ==> Failure(items[j]).None?
  }

  lemma {:induction false} ErrorInIsLatest(items: seq<Item>)
    ensures LatestFailure(ErrorIn(items), items)
  {
    if items != [] {
      var front, last := items[..|items| - 1], items[|items| - 1];
      ErrorInIsLatest(front);
      assert forall i :: 0 <= i < |front| ==> items[i] == front[i];
      if Failure(last).None? && ErrorIn(front).Some? {
        var i :| 0 <= i < |front| && Failure(front[i]) == ErrorIn(front)
                 && forall j :: i < j < |front| ==> Failure(front[j]).None?;
        assert Failure(items[i]) == ErrorIn(items);
      }
    }
  }

  /**
    The outcome a run decides on: it failed iff an item or, if none did, the final snapshot reports an
    error; without an error it is interrupted iff an item or the snapshot says so. Everything queued up
    to then was streamed, item by item.
   */
  lemma OutcomeDecided(moves: seq<Move>, error: Option<Code>, pending: bool)
    requires After(moves).Some? && Enabled(After(moves).value, Snapshot(error, pending))
    ensures var s, latest := Step(After(moves).value, Snapshot(error, pending)), ErrorIn(PutBy(moves));
            && LatestFailure(latest, PutBy(moves)) && s.error == (if latest.Some? then latest else error)
            && s.kind == (if s.error.Some? then Failed
                          else if Interrupt in PutBy(moves) || pending then Interrupted else Completed)
            && (forall i :: 0 <= i < |s.queue| ==> s.queue[i].Status?)
            && s.taken + s.queue == PutBy(moves) && Shows(Streamed(Emitted(s.log)), s.taken)
  {
    var s := After(moves).value;
    hide After, Emitted, Streamed, AllEvents, ErrorIn, LatestFailure, Shows, Content, QueueOrder, Verdict, Step,
      Enabled, PutBy;
    MergeHolds(moves);
    PutIsTakenThenQueued(moves);
    DecideIs(s, error, pending);
    QueueHasStatuses(s);
    ErrorInIsLatest(PutBy(moves));
    AllEventsShow(s.taken);
    StatusesLeaveNoError(s.taken, s.queue);
    InEither(s.taken, s.queue, Interrupt);
  }

  lemma InEither(items: seq<Item>, more: seq<Item>, x: Item)
    ensures x in items + more <==> x in items || x in more
  {}

  lemma DecideIs(s: State, error: Option<Code>, pending: bool)
    requires Enabled(s, Snapshot(error, pending)) && Verdict(s) && Content(s) && QueueOrder(s)
    ensures var t, e := Step(s, Snapshot(error, pending)), ErrorIn(s.taken);
            && t.error == (if e.Some? then e else error)
            && t.kind == (if t.error.Some? then Failed
                          else if Interrupt in s.taken || pending then Interrupted else Completed)
            && t.log == s.log && t.taken == s.taken && t.queue == s.queue && GraphEnd in s.taken
            && Streamed(Emitted(s.log)) == AllEvents(s.taken)
  {
    hide Emitted, Streamed, AllEvents, ErrorIn, Texts, OnlyStatusAfterEnd;
  }

  // ----- What a run announces and deletes once it has told -----

  predicate EndsIn(moves: seq<Move>) {
    exists i :: 0 <= i < |moves| && moves[i].Last?
  }

  /** The last event announces the outcome told, and an interruption announces nothing. */
  predicate Announces(es: seq<Event>, told: Entry) {
    told.Report?
    && match told.kind
       case Completed => es != [] && es[|es| - 1] == RunCompleted
       case Failed => es != [] && told.code.Some? && es[|es| - 1] == RunFailed(told.code.value)
       case Interrupted => NoTerminal(es)
  }

  predicate FinalDurable(t: Tally) {
    t.durable == [Completed] || t.durable == [Failed]
  }

  predicate Finale(s: State, t: Tally, es: seq<Event>) {
    && t.reports != [] && Announces(es, t.reports[0])
    && match s.phase
       case Closing => BodyTold(t, s)
       case ClosingCleanup => t.cleanups == 0 && t.durable == [Failed]
       case Done => t.cleanups == if FinalDurable(t) then 1 else 0
       case _ => false
  }

  lemma FinaleOpens(s: State)
    requires Enabled(s, Last) && Protocol(s)
    ensures var t := Step(s, Last); Finale(t, TallyOf(t.log), Emitted(t.log))
  {
    hide Emitted, TallyOf;
    LogEffects(s, Last);
  }

  lemma FinaleKept(s: State, m: Move)
    requires Enabled(s, m) && Protocol(s) && Finale(s, TallyOf(s.log), Emitted(s.log))
    ensures var t := Step(s, m); Finale(t, TallyOf(t.log), Emitted(t.log))
  {
    hide Emitted, TallyOf, Protocol;
    LogEffects(s, m);
  }

  lemma EndsGrow(front: seq<Move>, m: Move)
    ensures EndsIn(front + [m]) == (EndsIn(front) || m.Last?)
  {
    var all := front + [m];
    assert forall i :: 0 <= i < |front| ==> all[i] == front[i];
    if m.Last? {
      assert all[|front|].Last?;
    }
  }

  lemma {:induction false} FinaleHolds(moves: seq<Move>)
    requires After(moves).Some? && EndsIn(moves)
    ensures var s := After(moves).value; Finale(s, TallyOf(s.log), Emitted(s.log))
  {
    hide Protocol, Step, Enabled, Finale, EndsIn, TallyOf, Emitted;
    if moves == [] {
      assert !EndsIn([]) by { NoEnd(); }
    } else {
      var front, m := moves[..|moves| - 1], moves[|moves| - 1];
      assert front + [m] == moves;
      EndsGrow(front, m);
      ProtocolHolds(front);
      if m.Last? {
        FinaleOpens(After(front).value);
      } else {
        FinaleHolds(front);
        FinaleKept(After(front).value, m);
      }
    }
  }

  lemma NoEnd()
    ensures !EndsIn([])
  {}

  /**
    A run that was not stopped before its last event announced the outcome it told first, an
    interruption by saying nothing; once it is over its checkpoint is deleted, once, exactly if a
    completion or a failure is durable.
   */
  lemma EndedRunsAnnounceAndDelete(moves: seq<Move>)
    requires After(moves).Some? && EndsIn(moves)
    ensures var s := After(moves).value; var log := s.log;
            && Reports(log) != [] && Announces(Emitted(log), Reports(log)[0])
            && (s.phase.Done? ==>
                  Cleanups(log) == if Durable(log) == [Completed] || Durable(log) == [Failed] then 1 else 0)
  {
    hide After, Emitted, Reports, Durable, Cleanups, EndsIn;
    FinaleHolds(moves);
  }
}
