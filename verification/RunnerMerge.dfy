/** The merge queue of a run: what is streamed, stored and decided is what was queued. */
module RunnerMerge {
  import opened Common
  import opened Runner
  import opened RunnerProtocol

  /** What the pump and the tools put on the queue, in order. */
  function PutBy(moves: seq<Move>): seq<Item> {
    if moves == [] then []
    else PutBy(moves[..|moves| - 1]) + Put(moves[|moves| - 1])
  }

  function Put(m: Move): seq<Item> {
    match m
    case Publish(id) => [Status(id)]
    case PumpChunk(error, deltas) => [Chunk(error, deltas)]
    case PumpInterrupt => [Interrupt]
    case PumpCrash => [GraphError]
    case PumpEnd => [GraphEnd]
    case _ => []
  }

  /** Nothing but tool publications follows the end marker. */
  predicate OnlyStatusAfterEnd(items: seq<Item>) {
    forall i, j :: 0 <= i < j < |items| && items[i].GraphEnd? ==> items[j].Status?
  }

  predicate Working(p: Phase) {
    p.Merging? || p.Draining? || p.Joining? || AfterDecision(p)
  }

  /** What was streamed, then what is still to be sent, is what was taken; the collected text is what was streamed. */
  predicate Content(s: State) {
    && Streamed(Emitted(s.log)) + s.sending == AllEvents(s.taken)
    && (forall i :: 0 <= i < |s.sending| ==> FromQueue(s.sending[i]))
    && s.parts == Texts(Emitted(s.log))
    && (!s.phase.Merging? && !s.phase.Draining? && InBody(s.phase) ==> s.sending == [])
  }

  /** The end marker is put once, last of the pump, and taking it ends the merge. */
  predicate QueueOrder(s: State) {
    && OnlyStatusAfterEnd(s.taken + s.queue)
    && (s.phase.Fresh? || s.phase.Opened? ==> s.pump.NotStarted?)
    && (s.pump.NotStarted? ==> s.taken == [] && s.queue == [])
    && (GraphEnd in s.taken || GraphEnd in s.queue ==> s.pump.Ended?)
    && (s.phase.Merging? ==> GraphEnd !in s.taken)
    && (Working(s.phase) && !s.phase.Merging? ==> GraphEnd in s.taken)
  }

  predicate Verdict(s: State) {
    if AfterDecision(s.phase) then
      && (ErrorIn(s.taken).Some? ==> s.error == ErrorIn(s.taken))
      && (Interrupt in s.taken ==> s.pending)
      && s.kind == (if s.error.Some? then Failed else if s.pending then Interrupted else Completed)
    else InBody(s.phase) ==> s.error == ErrorIn(s.taken) && (s.pending <==> Interrupt in s.taken)
  }

  lemma StreamAppended(es: seq<Event>, e: Event)
    ensures Streamed(es + [e]) == if FromQueue(e) then Streamed(es) + [e] else Streamed(es)
    ensures Texts(es + [e]) == if e.TextDelta? then Texts(es) + [e.text] else Texts(es)
  {
    assert (es + [e])[..|es|] == es;
  }

  lemma ItemAppended(items: seq<Item>, x: Item)
    ensures AllEvents(items + [x]) == AllEvents(items) + EventsOf(x)
    ensures ErrorIn(items + [x]) == ErrorAfter(ErrorIn(items), x)
  {
    assert (items + [x])[..|items|] == items;
  }

  predicate Opening(m: Move) {
    Put(m) != [] || m.Begin? || m.Assistant? || m.Drained? || m.Stop?
  }

  predicate Framed(s: State, m: Move, t: State) {
    && t.taken == s.taken && t.sending == s.sending && t.parts == s.parts && t.queue == s.queue + Put(m)
    && (InBody(t.phase) ==> InBody(s.phase))
    && (t.phase.Fresh? ==> s.phase.Fresh?) && (t.phase.Merging? ==> s.phase.Merging? || s.phase.Opened?)
    && (t.phase.Draining? ==> s.phase.Draining?)
    && (InBody(t.phase) && !t.phase.Merging? && !t.phase.Draining? ==>
          !s.phase.Merging? && (s.phase.Draining? ==> s.sending == []))
    && (Working(t.phase) && !t.phase.Merging? ==> Working(s.phase) && !s.phase.Merging?)
  }

  lemma FrameOpening(s: State, m: Move)
    requires Enabled(s, m) && Opening(m)
    ensures Framed(s, m, Step(s, m))
  {
    hide EventsOf, ErrorAfter;
  }

  lemma FrameTelling(s: State, m: Move)
    requires Enabled(s, m) && (m.Tell? || m.Snapshot? || m.Last?)
    ensures Framed(s, m, Step(s, m))
  {
    hide EventsOf, ErrorAfter, Step, Enabled, Framed;
    if m.Tell? {
      FrameTell(s, m);
    } else {
      FrameSnapshot(s, m);
    }
  }

  lemma FrameTell(s: State, m: Move)
    requires Enabled(s, m) && m.Tell?
    ensures Framed(s, m, Step(s, m))
  {
    hide EventsOf, ErrorAfter;
  }

  lemma FrameSnapshot(s: State, m: Move)
    requires Enabled(s, m) && (m.Snapshot? || m.Last?)
    ensures Framed(s, m, Step(s, m))
  {
    hide EventsOf, ErrorAfter;
  }

  lemma FrameClosing(s: State, m: Move)
    requires Enabled(s, m) && (AtClose(m) || m.Clean? || m.FinishActivity?)
    ensures Framed(s, m, Step(s, m))
  {
    hide EventsOf, ErrorAfter;
  }

  /** What every move but taking and sending leaves alone. */
  lemma Frame(s: State, m: Move)
    requires Enabled(s, m) && !m.Take? && !m.Send?
    ensures Framed(s, m, Step(s, m))
  {
    hide Step, Framed, Enabled;
    if Opening(m) {
      FrameOpening(s, m);
    } else if AtClose(m) || m.Clean? || m.FinishActivity? {
      FrameClosing(s, m);
    } else {
      FrameTelling(s, m);
    }
  }

  predicate PumpMoves(s: State, m: Move, t: State) {
    && (t.pump.NotStarted? ==> s.pump.NotStarted? && Put(m) == [])
    && (s.pump.Ended? ==> t.pump.Ended? || s.phase.Opened?) && (GraphEnd in Put(m) ==> t.pump.Ended?)
    && (t.phase.Fresh? || t.phase.Opened? ==> (s.phase.Fresh? || s.phase.Opened?) && (Put(m) != [] || t.pump == s.pump))
    && (s.pump.Ended? ==> Put(m) == [] || Put(m)[0].Status?)
    && (s.pump.NotStarted? ==> Put(m) == [])
  }

  lemma PumpOpening(s: State, m: Move)
    requires Enabled(s, m) && Opening(m)
    ensures PumpMoves(s, m, Step(s, m))
  {
    hide EventsOf, ErrorAfter;
  }

  lemma PumpStreaming(s: State, m: Move)
    requires Enabled(s, m) && (m.Take? || m.Send? || m.Snapshot? || m.Tell? || m.Last?)
    ensures PumpMoves(s, m, Step(s, m))
  {
    hide EventsOf, ErrorAfter, Step, Enabled, PumpMoves;
    if m.Take? || m.Send? {
      PumpMerging(s, m);
    } else {
      PumpTelling(s, m);
    }
  }

  lemma PumpMerging(s: State, m: Move)
    requires Enabled(s, m) && (m.Take? || m.Send?)
    ensures PumpMoves(s, m, Step(s, m))
  {
    hide EventsOf, ErrorAfter;
  }

  lemma PumpTelling(s: State, m: Move)
    requires Enabled(s, m) && (m.Snapshot? || m.Tell? || m.Last?)
    ensures PumpMoves(s, m, Step(s, m))
  {
    hide EventsOf, ErrorAfter;
  }

  lemma PumpClosing(s: State, m: Move)
    requires Enabled(s, m) && (AtClose(m) || m.Clean? || m.FinishActivity?)
    ensures PumpMoves(s, m, Step(s, m))
  {
    hide EventsOf, ErrorAfter;
  }

  lemma PumpFrame(s: State, m: Move)
    requires Enabled(s, m)
    ensures PumpMoves(s, m, Step(s, m))
  {
    hide Step, PumpMoves, Enabled;
    if Opening(m) {
      PumpOpening(s, m);
    } else if AtClose(m) || m.Clean? || m.FinishActivity? {
      PumpClosing(s, m);
    } else {
      PumpStreaming(s, m);
    }
  }

  lemma StepTake(s: State)
    requires Enabled(s, Take)
    ensures Step(s, Take) == TakeStep(s)
  {
    hide EventsOf, ErrorAfter, TakeStep;
  }

  lemma ContentTake(s: State)
    requires Content(s) && DrainsStatuses(s) && Enabled(s, Take)
    ensures Content(TakeStep(s))
  {
    hide Emitted, Streamed, Texts, AllEvents, ErrorAfter, EventsOf, InBody, FromQueue;
    ItemAppended(s.taken, s.queue[0]);
    EventsAreFromQueue(s.queue[0]);
    assert Streamed(Emitted(s.log)) + [] == Streamed(Emitted(s.log));
  }

  lemma EventsAreFromQueue(x: Item)
    ensures forall i :: 0 <= i < |EventsOf(x)| ==> FromQueue(EventsOf(x)[i])
  {}

  lemma ContentSend(s: State)
    requires Content(s) && Enabled(s, Send)
    ensures Content(SendStep(s))
  {
    hide Emitted, Streamed, Texts, AllEvents, TallyOf;
    var e := s.sending[0];
    Appended(s.log, Emit(e));
    StreamAppended(Emitted(s.log), e);
    assert Streamed(Emitted(s.log)) + [e] + s.sending[1..] == Streamed(Emitted(s.log)) + s.sending;
  }

  lemma StepSend(s: State)
    requires Enabled(s, Send)
    ensures Step(s, Send) == SendStep(s)
  {
    hide SendStep;
  }

  lemma AddedOutsideQueue(s: State, m: Move)
    requires Enabled(s, m) && !m.Send?
    ensures Streamed(Emitted(Step(s, m).log)) == Streamed(Emitted(s.log))
    ensures Texts(Emitted(Step(s, m).log)) == Texts(Emitted(s.log))
  {
    hide Step, Emitted, Streamed, Texts, TallyOf;
    LogEffects(s, m);
    var es := Entries(s, m);
    if es != [] && es[0].Emit? {
      StreamAppended(Emitted(s.log), es[0].event);
    }
  }

  /** While draining, what is left on the queue is statuses. */
  predicate DrainsStatuses(s: State) {
    s.phase.Draining? && s.queue != [] ==> s.queue[0].Status?
  }

  lemma DrainedItemIsStatus(s: State)
    requires QueueOrder(s)
    ensures DrainsStatuses(s)
  {
    if s.phase.Draining? && s.queue != [] {
      var i :| 0 <= i < |s.taken| && s.taken[i] == GraphEnd;
      var all := s.taken + s.queue;
      assert all[i].GraphEnd? && all[|s.taken|] == s.queue[0];
    }
  }

  lemma TakeFacts(s: State)
    requires s.queue != [] && (s.phase.Merging? || s.phase.Draining?)
    ensures var t := TakeStep(s);
            && t.taken == s.taken + [s.queue[0]] && t.queue == s.queue[1..] && t.pump == s.pump
            && t.phase == (if s.phase.Merging? && s.queue[0].GraphEnd? then Draining else s.phase)
  {
    hide EventsOf, ErrorAfter;
  }

  lemma TakeMembers(taken: seq<Item>, queue: seq<Item>, x: Item)
    requires queue != []
    ensures taken + [queue[0]] + queue[1..] == taken + queue
    ensures x in taken + [queue[0]] <==> x in taken || x == queue[0]
    ensures x in queue <==> x == queue[0] || x in queue[1..]
  {
    assert queue == [queue[0]] + queue[1..];
  }

  lemma OrderTake(s: State)
    requires QueueOrder(s) && Enabled(s, Take)
    ensures QueueOrder(TakeStep(s))
  {
    hide TakeStep, OnlyStatusAfterEnd;
    TakeFacts(s);
    TakeMembers(s.taken, s.queue, GraphEnd);
  }

  lemma OrderSend(s: State)
    requires QueueOrder(s) && Enabled(s, Send)
    ensures QueueOrder(SendStep(s))
  {
    hide EventsOf, ErrorAfter, OnlyStatusAfterEnd;
  }

  lemma PutKeepsOrder(taken: seq<Item>, queue: seq<Item>, x: Item, pump: Pump)
    requires OnlyStatusAfterEnd(taken + queue)
    requires GraphEnd in taken || GraphEnd in queue ==> x.Status?
    ensures OnlyStatusAfterEnd(taken + (queue + [x]))
  {
    var all := taken + queue;
    assert taken + (queue + [x]) == all + [x];
    assert forall i :: 0 <= i < |all| && all[i].GraphEnd? ==>
             all[i] == GraphEnd && (all[i] in taken || all[i] in queue);
  }

  lemma VerdictTake(s: State)
    requires Verdict(s) && DrainsStatuses(s) && Enabled(s, Take)
    ensures Verdict(TakeStep(s))
  {
    hide EventsOf, ErrorIn, ErrorAfter, TakeStep, DrainsStatuses;
    TakeDecides(s);
    ItemAppended(s.taken, s.queue[0]);
    TakeMembers(s.taken, s.queue, Interrupt);
  }

  lemma TakeDecides(s: State)
    requires DrainsStatuses(s) && Enabled(s, Take)
    ensures var t, x := TakeStep(s), s.queue[0];
            && t.taken == s.taken + [x] && t.error == ErrorAfter(s.error, x)
            && (t.pending <==> s.pending || x == Interrupt)
            && (t.phase.Merging? || t.phase.Draining?)
  {
    hide EventsOf;
  }

  predicate SameVerdict(s: State, t: State) {
    && t.taken == s.taken && t.error == s.error && t.pending == s.pending && t.kind == s.kind
    && (InBody(t.phase) ==> InBody(s.phase) && (AfterDecision(t.phase) <==> AfterDecision(s.phase)))
  }

  lemma VerdictOpening(s: State, m: Move)
    requires Enabled(s, m) && Opening(m)
    ensures SameVerdict(s, Step(s, m))
  {
    hide EventsOf, ErrorAfter;
  }

  lemma VerdictTelling(s: State, m: Move)
    requires Enabled(s, m) && (m.Tell? || m.Last? || m.Send?)
    ensures SameVerdict(s, Step(s, m))
  {
    hide EventsOf, ErrorAfter;
  }

  lemma VerdictClosing(s: State, m: Move)
    requires Enabled(s, m) && (AtClose(m) || m.Clean? || m.FinishActivity?)
    ensures SameVerdict(s, Step(s, m))
  {
    hide EventsOf, ErrorAfter;
  }

  lemma VerdictFrame(s: State, m: Move)
    requires Enabled(s, m) && !m.Take? && !m.Snapshot?
    ensures SameVerdict(s, Step(s, m))
  {
    hide Step, SameVerdict, Enabled;
    if Opening(m) {
      VerdictOpening(s, m);
    } else if AtClose(m) || m.Clean? || m.FinishActivity? {
      VerdictClosing(s, m);
    } else {
      VerdictTelling(s, m);
    }
  }

  lemma {:induction false} MergeHolds(moves: seq<Move>)
    requires After(moves).Some?
    ensures var s := After(moves).value; Content(s) && QueueOrder(s) && Verdict(s)
  {
    hide Content, QueueOrder, Verdict, Step, Enabled, DrainsStatuses, Framed, Emitted, Streamed, Texts;
    if moves == [] {
      MergeAtStart();
    } else {
      var front, m := moves[..|moves| - 1], moves[|moves| - 1];
      MergeHolds(front);
      var s := After(front).value;
      DrainedItemIsStatus(s);
      if m.Take? {
        StepTake(s);
        ContentTake(s);
        OrderTake(s);
        VerdictTake(s);
      } else if m.Send? {
        StepSend(s);
        ContentSend(s);
        OrderSend(s);
        VerdictSend(s);
      } else {
        Frame(s, m);
        AddedOutsideQueue(s, m);
        ContentFrame(s, m, Step(s, m));
        OrderOther(s, m);
        VerdictOther(s, m);
      }
    }
  }

  /** A move that streams nothing and frames the rest keeps the content. */
  lemma ContentFrame(s: State, m: Move, t: State)
    requires Content(s) && Framed(s, m, t)
    requires Streamed(Emitted(t.log)) == Streamed(Emitted(s.log)) && Texts(Emitted(t.log)) == Texts(Emitted(s.log))
    ensures Content(t)
  {}

  lemma OrderOther(s: State, m: Move)
    requires QueueOrder(s) && Enabled(s, m) && !m.Take? && !m.Send?
    ensures QueueOrder(Step(s, m))
  {
    hide Step, OnlyStatusAfterEnd;
    PumpFrame(s, m);
    Frame(s, m);
    if Put(m) != [] {
      PutKeepsOrder(s.taken, s.queue, Put(m)[0], s.pump);
      assert Put(m) == [Put(m)[0]];
    } else {
      assert s.queue + Put(m) == s.queue;
    }
  }

  lemma VerdictOther(s: State, m: Move)
    requires Verdict(s) && Enabled(s, m) && !m.Take? && !m.Send?
    ensures Verdict(Step(s, m))
  {
    hide EventsOf, ErrorIn, ErrorAfter, TellStep, LastStep;
    if !m.Snapshot? {
      VerdictFrame(s, m);
    }
  }

  lemma VerdictSend(s: State)
    requires Verdict(s) && Enabled(s, Send)
    ensures Verdict(SendStep(s))
  {
    hide ErrorIn;
  }

  lemma MergeAtStart()
    ensures Content(START) && QueueOrder(START) && Verdict(START)
  {}

  lemma {:induction false} PutIsTakenThenQueued(moves: seq<Move>)
    requires After(moves).Some?
    ensures var s := After(moves).value; s.taken + s.queue == PutBy(moves)
  {
    hide Step, Enabled;
    if moves != [] {
      var front, m := moves[..|moves| - 1], moves[|moves| - 1];
      PutIsTakenThenQueued(front);
      PutStep(After(front).value, m);
    }
  }

  lemma PutStep(s: State, m: Move)
    requires Enabled(s, m)
    ensures var t := Step(s, m); t.taken + t.queue == s.taken + s.queue + Put(m)
  {
    hide Step;
    if m.Take? {
      TakeMoves(s);
      StepTake(s);
    } else if m.Send? {
      assert Step(s, Send).taken == s.taken && Step(s, Send).queue == s.queue by { SendMoves(s); }
    } else {
      Frame(s, m);
    }
  }

  lemma TakeMoves(s: State)
    requires s.queue != []
    ensures TakeStep(s).taken + TakeStep(s).queue == s.taken + s.queue
  {}

  lemma SendMoves(s: State)
    requires Enabled(s, Send)
    ensures Step(s, Send).taken == s.taken && Step(s, Send).queue == s.queue
  {}

  lemma QueueHasStatuses(s: State)
    requires QueueOrder(s) && GraphEnd in s.taken
    ensures forall i :: 0 <= i < |s.queue| ==> s.queue[i].Status?
  {
    var i :| 0 <= i < |s.taken| && s.taken[i] == GraphEnd;
    var all := s.taken + s.queue;
    forall j | 0 <= j < |s.queue| ensures s.queue[j].Status? {
      assert all[i].GraphEnd? && all[|s.taken| + j] == s.queue[j];
    }
  }

  /**
    A run that reaches its outcome has streamed exactly the statuses and text put on the queue, in
    that order, up to statuses published after the drain; the outcome is the verdict of those items
    and of the final snapshot.
   */
  lemma NothingLost(moves: seq<Move>)
    requires After(moves).Some? && AfterDecision(After(moves).value.phase)
    ensures var s := After(moves).value;
            && s.taken + s.queue == PutBy(moves)
            && Streamed(Emitted(s.log)) == AllEvents(s.taken)
            && (forall i :: 0 <= i < |s.queue| ==> s.queue[i].Status?)
            && (ErrorIn(PutBy(moves)).Some? ==> s.kind == Failed && s.error == ErrorIn(PutBy(moves)))
            && (ErrorIn(PutBy(moves)).None? && Interrupt in PutBy(moves) ==> !s.kind.Completed?)
  {
    hide After, Emitted, Streamed, AllEvents, ErrorIn;
    MergeHolds(moves);
    PutIsTakenThenQueued(moves);
    var s := After(moves).value;
    QueueHasStatuses(s);
    StatusesLeaveNoError(s.taken, s.queue);
  }

  lemma {:induction false} StatusesLeaveNoError(items: seq<Item>, more: seq<Item>)
    requires forall i :: 0 <= i < |more| ==> more[i].Status?
    ensures ErrorIn(items + more) == ErrorIn(items)
    decreases |more|
  {
    if more == [] {
      assert items + more == items;
    } else {
      var front := more[..|more| - 1];
      StatusesLeaveNoError(items, front);
      assert (items + more)[..|items + more| - 1] == items + front;
    }
  }
}
