/** The status events of a run, and what a deletion that fails keeps from happening. */
module RunnerStatus {
  import opened Common
  import opened Runner
  import opened RunnerProtocol
  import opened RunnerMerge
  import opened RunnerOutcome

  function Statuses(log: seq<Entry>): nat {
    if log == [] then 0
    else Statuses(log[..|log| - 1]) + if log[|log| - 1] == Emit(AssistantStatus) then 1 else 0
  }

  predicate StartShown(moves: seq<Move>) {
    exists i :: 0 <= i < |moves| && moves[i].Assistant? && moves[i].shown
  }

  predicate StartRecorded(moves: seq<Move>) {
    exists i :: 0 <= i < |moves| && moves[i].Assistant? && moves[i].shown && moves[i].recorded
  }

  predicate FinishShown(moves: seq<Move>) {
    exists i :: 0 <= i < |moves| && moves[i].FinishActivity? && moves[i].shown
  }

  predicate TellAccepted(moves: seq<Move>) {
    exists i :: 0 <= i < |moves| && moves[i] == Tell(Accepted)
  }

  predicate DeletionFailed(moves: seq<Move>) {
    exists i :: 0 <= i < |moves| && moves[i] == Clean(false)
  }

  /** Which of these moves were made. */
  datatype Made = Made(shown: bool, recorded: bool, finished: bool, accepted: bool, failed: bool)

  function MadeBy(moves: seq<Move>): Made {
    Made(StartShown(moves), StartRecorded(moves), FinishShown(moves), TellAccepted(moves), DeletionFailed(moves))
  }

  function Adding(made: Made, m: Move): Made {
    Made(made.shown || (m.Assistant? && m.shown), made.recorded || (m.Assistant? && m.shown && m.recorded),
         made.finished || (m.FinishActivity? && m.shown), made.accepted || m == Tell(Accepted),
         made.failed || m == Clean(false))
  }

  lemma MadeGrows(front: seq<Move>, m: Move)
    ensures MadeBy(front + [m]) == Adding(MadeBy(front), m)
  {
    var all := front + [m];
    assert all[|front|] == m && forall i :: 0 <= i < |front| ==> all[i] == front[i];
  }

  /** The status events are those the moves made so far account for. */
  predicate Shown(s: State, made: Made, statuses: nat) {
    && (s.phase.Fresh? || s.phase.Opened? ==> !made.shown && !made.recorded && !s.activity)
    && (!Beyond(s.phase) ==> !made.finished && !made.accepted && !made.failed)
    && (s.phase.Finishing? || s.phase.Cleaning? ==> !made.finished && !made.failed)
    && (s.phase.Ending? ==> !made.failed)
    && (InBody(s.phase) ==> s.activity == made.recorded && s.durable == made.accepted)
    && (made.finished ==> !made.failed)
    && statuses == (if made.shown then 1 else 0)
                   + (if made.finished && made.accepted && made.recorded then 1 else 0)
  }

  lemma StatusesGrow(s: State, m: Move)
    requires Enabled(s, m)
    ensures var es := Entries(s, m);
            Statuses(Step(s, m).log) == Statuses(s.log) + if es == [Emit(AssistantStatus)] then 1 else 0
  {
    hide Step, Entries, Enabled;
    LogStep(s, m);
    var es := Entries(s, m);
    if es == [] {
      assert s.log + es == s.log;
    } else {
      assert es == [es[0]] && (s.log + es)[..|s.log|] == s.log;
    }
  }

  lemma ShownByBody(s: State, m: Move, made: Made, n: nat)
    requires Enabled(s, m) && Shown(s, made, n)
    requires m.Begin? || m.Assistant? || m.Drained? || m.Snapshot? || m.Tell? || m.Clean? || m.FinishActivity?
    ensures Shown(Step(s, m), Adding(made, m), n + if Entries(s, m) == [Emit(AssistantStatus)] then 1 else 0)
  {
    hide EventsOf, ErrorAfter, TakeStep, SendStep, LastStep;
  }

  lemma ShownByQueue(s: State, m: Move, made: Made, n: nat)
    requires Enabled(s, m) && Shown(s, made, n)
    requires Put(m) != [] || m.Take? || (m.Send? && s.sending[0] != AssistantStatus)
    ensures Shown(Step(s, m), Adding(made, m), n + if Entries(s, m) == [Emit(AssistantStatus)] then 1 else 0)
  {
    hide EventsOf, ErrorAfter, LastStep, TellStep;
  }

  lemma ShownByClose(s: State, m: Move, made: Made, n: nat)
    requires Enabled(s, m) && Shown(s, made, n) && (AtClose(m) || m.Stop? || m.Last?)
    ensures Shown(Step(s, m), Adding(made, m), n + if Entries(s, m) == [Emit(AssistantStatus)] then 1 else 0)
  {
    hide EventsOf, ErrorAfter, TakeStep, SendStep, TellStep;
  }

  lemma ShownKept(s: State, m: Move, made: Made)
    requires Enabled(s, m) && Content(s) && Shown(s, made, Statuses(s.log))
    ensures Shown(Step(s, m), Adding(made, m), Statuses(Step(s, m).log))
  {
    StatusesGrow(s, m);
    hide Step, Entries, Enabled, Shown, Adding, Statuses;
    if Put(m) != [] || m.Take? || m.Send? {
      if m.Send? {
        assert s.sending[0] != AssistantStatus by { SendingIsQueued(s); }
      }
      ShownByQueue(s, m, made, Statuses(s.log));
    } else if AtClose(m) || m.Stop? || m.Last? {
      ShownByClose(s, m, made, Statuses(s.log));
    } else {
      ShownByBody(s, m, made, Statuses(s.log));
    }
  }

  lemma SendingIsQueued(s: State)
    requires Content(s) && Enabled(s, Send)
    ensures s.sending[0] != AssistantStatus
  {
    hide Emitted, Streamed, Texts, AllEvents;
    assert FromQueue(s.sending[0]);
  }

  lemma {:induction false} ShownHolds(moves: seq<Move>)
    requires After(moves).Some?
    ensures var s := After(moves).value; Shown(s, MadeBy(moves), Statuses(s.log))
  {
    hide Step, Enabled, Shown, MadeBy, Adding, Content;
    if moves == [] {
      NothingShown();
    } else {
      var front, m := moves[..|moves| - 1], moves[|moves| - 1];
      assert front + [m] == moves;
      ShownHolds(front);
      MergeHolds(front);
      MadeGrows(front, m);
      ShownKept(After(front).value, m, MadeBy(front));
    }
  }

  lemma NothingShown()
    ensures Shown(START, MadeBy([]), Statuses(START.log))
  {}

  /**
    Status events come once at the start, if shown, and once more at the end iff the start was recorded,
    the callback accepted the outcome and the finish is shown. A run whose deletion failed goes no further:
    neither that event nor the last one follows.
   */
  lemma StatusEventsAccountedFor(moves: seq<Move>)
    requires After(moves).Some?
    ensures Statuses(After(moves).value.log)
            == (if StartShown(moves) then 1 else 0)
               + (if StartRecorded(moves) && TellAccepted(moves) && FinishShown(moves) then 1 else 0)
    ensures DeletionFailed(moves) ==> !FinishShown(moves) && !EndsIn(moves)
  {
    hide After, Statuses, EndsIn, StartShown, StartRecorded, TellAccepted, FinishShown, DeletionFailed;
    ShownHolds(moves);
    if EndsIn(moves) && DeletionFailed(moves) {
      EndedDidNotFail(moves);
    }
  }

  /** The moves up to the last event did not include a failed deletion, and none is possible after it. */
  lemma {:induction false} EndedDidNotFail(moves: seq<Move>)
    requires After(moves).Some? && EndsIn(moves)
    ensures !DeletionFailed(moves)
  {
    hide Step, Enabled, Shown, MadeBy, EndsIn, DeletionFailed, Protocol;
    if moves == [] {
      NoEnd();
    } else {
      var front, m := moves[..|moves| - 1], moves[|moves| - 1];
      assert front + [m] == moves;
      EndsGrow(front, m);
      MadeGrows(front, m);
      if m.Last? {
        ShownHolds(front);
        LastAtEnding(After(front).value, MadeBy(front));
        MadeMeans(front);
        MadeMeans(moves);
      } else {
        EndedDidNotFail(front);
        FinaleHolds(front);
        CleanNotAfterEnd(After(front).value, m);
        MadeMeans(front);
        MadeMeans(moves);
      }
    }
  }

  lemma MadeMeans(moves: seq<Move>)
    ensures MadeBy(moves).failed == DeletionFailed(moves)
  {
    hide StartShown, StartRecorded, TellAccepted, FinishShown, DeletionFailed;
  }

  lemma LastAtEnding(s: State, made: Made)
    requires Enabled(s, Last) && Shown(s, made, Statuses(s.log))
    ensures !made.failed
  {
    hide Statuses;
  }

  lemma CleanNotAfterEnd(s: State, m: Move)
    requires Enabled(s, m) && Finale(s, TallyOf(s.log), Emitted(s.log))
    ensures !m.Clean?
  {
    hide TallyOf, Emitted;
  }
}
