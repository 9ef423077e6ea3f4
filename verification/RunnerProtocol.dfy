/** The durable terminal protocol of a run: what is told, made durable, cleaned up and announced. */
module RunnerProtocol {
  import opened Common
  import opened Runner

  predicate NoTerminal(es: seq<Event>) {
    forall i :: 0 <= i < |es| ==> !Terminal(es[i])
  }

  /** No terminal event, or one in last place that announces the first outcome told. */
  predicate TerminalLast(es: seq<Event>, rs: seq<Entry>) {
    NoTerminal(es)
    || (es != [] && rs != [] && rs[0].Report? && NoTerminal(es[..|es| - 1])
        && match es[|es| - 1]
           case RunCompleted => rs[0].kind.Completed?
           case RunFailed(code) => rs[0].kind.Failed? && rs[0].code == Some(code)
           case _ => false)
  }

  predicate IsReport(e: Entry, kind: Kind, reply: Reply) {
    e.Report? && e.kind == kind && e.reply == reply
  }

  /** The body told one outcome and then deleted the checkpoint iff it is durable and not an interruption. */
  predicate BodyTold(t: Tally, s: State) {
    && |t.reports| == 1 && t.reports[0].Report? && t.reports[0].kind == s.kind && !t.reports[0].reply.Raised?
    && (t.reports[0].reply.Accepted? <==> s.persisted) && s.durable == s.persisted
    && (s.kind.Failed? ==> t.reports[0].code == s.error)
    && t.durable == (if s.persisted then [s.kind] else [])
    && t.cleanups == (if s.persisted && !s.kind.Interrupted? then 1 else 0)
  }

  predicate Settled(t: Tally) {
    && |t.reports| <= 1
    && (forall i :: 0 <= i < |t.reports| ==> t.reports[i].Report?)
    && t.durable == (if |t.reports| == 1 && t.reports[0].reply.Accepted? then [t.reports[0].kind] else [])
    && (t.cleanups == 0 || (t.cleanups == 1 && t.durable != [] && !t.durable[0].Interrupted?))
  }

  /** The close told `Failed` because nothing was durable. */
  predicate ClosedOver(t: Tally, reply: Reply, cleanups: nat) {
    && 1 <= |t.reports| <= 2 && IsReport(t.reports[|t.reports| - 1], Failed, reply)
    && (forall i :: 0 <= i < |t.reports| - 1 ==> t.reports[i].Report? && !t.reports[i].reply.Accepted?)
    && t.durable == (if reply.Accepted? then [Failed] else [])
    && t.cleanups == cleanups
  }

  predicate Protocol(s: State) {
    var t, es := TallyOf(s.log), Emitted(s.log);
    NoTerminal(s.sending) && (AfterDecision(s.phase) ==> (s.kind.Failed? <==> s.error.Some?)) &&
    match s.phase
    case Cleaning => BodyTold(t.(cleanups := 1), s) && t.cleanups == 0 && s.persisted && !s.kind.Interrupted?
      && NoTerminal(es)
    case Finishing => BodyTold(t, s) && NoTerminal(es)
    case Ending => BodyTold(t, s) && NoTerminal(es)
    case Closing => Settled(t) && (s.persisted <==> t.durable != []) && TerminalLast(es, t.reports)
    case ClosingCleanup => ClosedOver(t, Accepted, 0) && s.persisted && TerminalLast(es, t.reports)
    case Done =>
      TerminalLast(es, t.reports)
      && (if s.persisted then (Settled(t) && t.durable != []) || ClosedOver(t, Accepted, 1)
          else ClosedOver(t, Refused, 0) || ClosedOver(t, Raised, 0))
    case _ => t == Tally([], [], 0) && NoTerminal(es) && !s.persisted && !s.durable
  }

  predicate Told(m: Move) {
    m.Tell? || m.Clean? || m.FinishActivity? || m.Last?
  }

  predicate AtClose(m: Move) {
    m.CloseTell? || m.CloseClean? || m.CloseQuiet?
  }

  lemma TellKeeps(s: State, reply: Reply)
    requires Protocol(s) && Enabled(s, Tell(reply))
    ensures Protocol(Step(s, Tell(reply)))
  {
    hide Emitted, TallyOf, ErrorAfter, EventsOf;
    var text := if s.parts == [] then None else Some(s.parts);
    Appended(s.log, Report(s.kind, if s.kind.Failed? then s.error else None, text, reply));
  }

  lemma CleanKeeps(s: State, ok: bool)
    requires Protocol(s) && Enabled(s, Clean(ok))
    ensures Protocol(Step(s, Clean(ok)))
  {
    hide Emitted, TallyOf, ErrorAfter, EventsOf;
    Appended(s.log, Cleanup);
  }

  lemma FinishKeeps(s: State, shown: bool)
    requires Protocol(s) && Enabled(s, FinishActivity(shown))
    ensures Protocol(Step(s, FinishActivity(shown)))
  {
    hide Emitted, TallyOf, ErrorAfter, EventsOf;
    Appended(s.log, Emit(AssistantStatus));
  }

  lemma LastKeeps(s: State)
    requires Protocol(s) && Enabled(s, Last)
    ensures Protocol(Step(s, Last))
  {
    hide Emitted, TallyOf, ErrorAfter, EventsOf;
    Appended(s.log, Emit(RunCompleted));
    if s.kind.Failed? {
      Appended(s.log, Emit(RunFailed(s.error.value)));
    }
  }

  lemma CloseTellKeeps(s: State, reply: Reply)
    requires Protocol(s) && Enabled(s, CloseTell(reply))
    ensures Protocol(Step(s, CloseTell(reply)))
  {
    hide Emitted, TallyOf, ErrorAfter, EventsOf;
    Appended(s.log, Report(Failed, Some(AGENT_EXECUTION_FAILED), None, reply));
  }

  lemma CloseCleanKeeps(s: State)
    requires Protocol(s) && Enabled(s, CloseClean)
    ensures Protocol(Step(s, CloseClean))
  {
    hide Emitted, TallyOf, ErrorAfter, EventsOf;
    Appended(s.log, Cleanup);
  }

  lemma CloseQuietKeeps(s: State)
    requires Protocol(s) && Enabled(s, CloseQuiet)
    ensures Protocol(Step(s, CloseQuiet))
  {
    hide Emitted, TallyOf;
  }

  lemma SendKeeps(s: State)
    requires Protocol(s) && Enabled(s, Send)
    ensures Protocol(Step(s, Send))
  {
    hide Emitted, TallyOf, ErrorAfter, EventsOf;
    Appended(s.log, Emit(s.sending[0]));
  }

  lemma StreamingKeeps(s: State, m: Move)
    requires Protocol(s) && Enabled(s, m) && !Told(m) && !AtClose(m) && !m.Send?
    ensures Protocol(Step(s, m))
  {
    hide Emitted, TallyOf, ErrorAfter;
    if m.Take? {
      assert NoTerminal(EventsOf(s.queue[0]));
    } else if m.Begin? {
      Appended(s.log, Emit(RunStarted));
    } else if m.Assistant? {
      Appended(s.log, Emit(AssistantStatus));
    }
  }

  lemma ProtocolKept(s: State, m: Move)
    requires Protocol(s) && Enabled(s, m)
    ensures Protocol(Step(s, m))
  {
    hide Protocol, Step, Enabled;
    match m
    case Tell(reply) => TellKeeps(s, reply);
    case Clean(ok) => CleanKeeps(s, ok);
    case FinishActivity(shown) => FinishKeeps(s, shown);
    case Last => LastKeeps(s);
    case CloseTell(reply) => CloseTellKeeps(s, reply);
    case CloseClean => CloseCleanKeeps(s);
    case CloseQuiet => CloseQuietKeeps(s);
    case Send => SendKeeps(s);
    case _ => StreamingKeeps(s, m);
  }

  lemma {:induction false} ProtocolHolds(moves: seq<Move>)
    requires After(moves).Some?
    ensures Protocol(After(moves).value)
  {
    hide Protocol, Step, Enabled;
    if moves == [] {
      ProtocolAtStart();
    } else {
      var front, m := moves[..|moves| - 1], moves[|moves| - 1];
      ProtocolHolds(front);
      ProtocolKept(After(front).value, m);
    }
  }

  lemma ProtocolAtStart()
    ensures Protocol(START)
  {}

  /**
    Whatever the queue, the callback and the cancellations do: at most one outcome is reported
    durable; the checkpoint is deleted at most once and only for a durable outcome that is not an
    interruption; at most one terminal event is sent, last, and it announces the first outcome told.
   */
  lemma DurableTerminal(moves: seq<Move>)
    requires After(moves).Some?
    ensures var s := After(moves).value;
            && |Durable(s.log)| <= 1
            && Cleanups(s.log) <= 1
            && (Cleanups(s.log) == 1 ==> Durable(s.log) == [Completed] || Durable(s.log) == [Failed])
            && TerminalLast(Emitted(s.log), Reports(s.log))
            && forall i :: 0 <= i < |Emitted(s.log)| - 1 ==>
                 Emitted(s.log)[i] != RunCompleted && !Emitted(s.log)[i].RunFailed?
  {
    hide After, Emitted, Reports, Durable, Cleanups;
    ProtocolHolds(moves);
    var s := After(moves).value;
    if s.phase.Done? && s.persisted {
      assert Settled(TallyOf(s.log)) || ClosedOver(TallyOf(s.log), Accepted, 1);
    }
  }

  /** Every entry before the first deletion is checked: the deletion comes after the durable report. */
  lemma {:induction false} CleanupComesAfter(moves: seq<Move>, n: nat)
    requires After(moves).Some? && n <= |After(moves).value.log|
    ensures var before := After(moves).value.log[..n]; Cleanups(before) > 0 ==>
              Durable(before) == [Completed] || Durable(before) == [Failed]
    decreases |moves|
  {
    hide Step, Enabled, Emitted, Reports, Durable, Cleanups;
    var s := After(moves).value;
    if n == |s.log| {
      assert s.log[..n] == s.log;
      DurableTerminal(moves);
    } else {
      assert moves != [];
      var front := moves[..|moves| - 1];
      LogStep(After(front).value, moves[|moves| - 1]);
      assert s.log[..n] == After(front).value.log[..n];
      CleanupComesAfter(front, n);
    }
  }

  predicate AllAccepted(log: seq<Entry>) {
    forall e :: e in log && e.Report? ==> e.reply.Accepted?
  }

  lemma {:induction false} ReportsIn(log: seq<Entry>)
    ensures forall e :: e in Reports(log) <==> e in log && e.Report?
  {
    if log != [] {
      ReportsIn(log[..|log| - 1]);
      assert forall e :: e in log <==> e in log[..|log| - 1] || e == log[|log| - 1];
    }
  }

  predicate UndoneAtClose(e: Entry) {
    IsReport(e, Failed, Refused) || IsReport(e, Failed, Raised)
  }

  /**
    A finished run whose callback accepted every outcome it was told has exactly one durable outcome;
    a finished run without one was refused, or its callback raised, when told of the close.
   */
  lemma DurableOnceIfAccepted(moves: seq<Move>)
    requires After(moves).Some? && After(moves).value.phase.Done?
    ensures var log := After(moves).value.log;
            && (AllAccepted(log) ==> |Durable(log)| == 1 && |Reports(log)| == 1)
            && (Durable(log) == [] ==> Reports(log) != [] && UndoneAtClose(Reports(log)[|Reports(log)| - 1]))
  {
    hide After, Emitted, Reports, Durable, Cleanups;
    ProtocolHolds(moves);
    var s := After(moves).value;
    ReportsIn(s.log);
    var rs := Reports(s.log);
    assert AllAccepted(s.log) ==> forall i :: 0 <= i < |rs| ==> rs[i] in rs && rs[i].Report? && rs[i].reply.Accepted?;
    assert AllAccepted(s.log) && rs != [] ==> rs[0].reply.Accepted?;
  }

  /** A durable interruption keeps its checkpoint and announces nothing. */
  lemma InterruptionKeepsCheckpoint(moves: seq<Move>)
    requires After(moves).Some? && Durable(After(moves).value.log) == [Interrupted]
    ensures Cleanups(After(moves).value.log) == 0 && NoTerminal(Emitted(After(moves).value.log))
  {
    hide After, Emitted, Reports, Durable, Cleanups;
    ProtocolHolds(moves);
    var s := After(moves).value;
    if s.phase.Done? && s.persisted {
      assert Settled(TallyOf(s.log)) || ClosedOver(TallyOf(s.log), Accepted, 1);
    }
  }

  /**
    A finished run that announced completion is durably completed iff the callback accepted the first
    outcome it was told; when it refused that and accepts the one told on closing, the run is announced
    as completed and durably failed.
   */
  lemma AnnouncedCompletionIsDurableIff(moves: seq<Move>)
    requires After(moves).Some? && After(moves).value.phase.Done?
    requires RunCompleted in Emitted(After(moves).value.log)
    ensures var log := After(moves).value.log;
            && Reports(log) != [] && Reports(log)[0].Report? && Reports(log)[0].kind == Completed
            && (Durable(log) == [Completed] <==> Reports(log)[0].reply == Accepted)
            && (Durable(log) == [Failed] <==> |Reports(log)| == 2 && IsReport(Reports(log)[1], Failed, Accepted))
  {
    hide After, Emitted, Reports, Durable, Cleanups;
    ProtocolHolds(moves);
  }

  /** That run exists: the completion is announced, and the failure is what is stored. */
  lemma CompletedButDurablyFailed()
    ensures exists moves :: After(moves).Some? && After(moves).value.phase.Done?
              && Emitted(After(moves).value.log) == [RunStarted, RunCompleted]
              && Durable(After(moves).value.log) == [Failed]
  {
    hide After, Step, Enabled, Emitted, TallyOf;
    var s := RefusedRun();
    RefusedLog();
  }

  const TOLD_COMPLETED := Report(Completed, None, None, Refused)
  const TOLD_FAILED := Report(Failed, Some(AGENT_EXECUTION_FAILED), None, Accepted)

  const REFUSED_LOG: seq<Entry> := [] + [Emit(RunStarted)] + [TOLD_COMPLETED] + [Emit(RunCompleted)] + [TOLD_FAILED]
    + [Cleanup]

  lemma EmptyLog()
    ensures Emitted([]) == [] && TallyOf([]) == Tally([], [], 0)
  {}

  lemma RefusedLog()
    ensures Emitted(REFUSED_LOG) == [RunStarted, RunCompleted] && Durable(REFUSED_LOG) == [Failed]
  {
    hide Emitted, Reports, Durable, Cleanups;
    EmptyLog();
    var l1 := [] + [Emit(RunStarted)];
    var l2 := l1 + [TOLD_COMPLETED];
    var l3 := l2 + [Emit(RunCompleted)];
    var l4 := l3 + [TOLD_FAILED];
    Appended([], Emit(RunStarted));
    Appended(l1, TOLD_COMPLETED);
    Appended(l2, Emit(RunCompleted));
    Appended(l3, TOLD_FAILED);
    Appended(l4, Cleanup);
  }

  lemma RefusedRun() returns (s: State)
    ensures exists moves :: After(moves) == Some(s)
    ensures s.phase.Done? && s.log == REFUSED_LOG
  {
    hide After;
    var m6, s6 := ReadyRun();
    var m7, s7 := Extend(m6, s6, Tell(Refused));
    var m8, s8 := Extend(m7, s7, FinishActivity(false));
    var m9, s9 := Extend(m8, s8, Last);
    var m10, s10 := Extend(m9, s9, CloseTell(Accepted));
    var m11, s11 := Extend(m10, s10, CloseClean);
    s := s11;
  }

  lemma ReadyRun() returns (moves: seq<Move>, s: State)
    ensures After(moves) == Some(s)
    ensures s == START.(phase := Reporting, pump := Ended, taken := [GraphEnd], log := [Emit(RunStarted)])
  {
    hide After;
    StartOfRun();
    var m1, s1 := Extend([], START, Begin);
    var m2, s2 := Extend(m1, s1, Assistant(false, false));
    var m3, s3 := Extend(m2, s2, PumpEnd);
    var m4, s4 := Extend(m3, s3, Take);
    var m5, s5 := Extend(m4, s4, Drained);
    moves, s := Extend(m5, s5, Snapshot(None, false));
  }

  lemma StartOfRun()
    ensures After([]) == Some(START)
  {}

  lemma Extend(moves: seq<Move>, s: State, m: Move) returns (more: seq<Move>, t: State)
    requires After(moves) == Some(s) && Enabled(s, m)
    ensures After(more) == Some(t) && t == Step(s, m)
  {
    more, t := moves + [m], Step(s, m);
    assert more[..|more| - 1] == moves;
  }
}
