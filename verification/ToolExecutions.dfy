/**
  Tool executions: one row per run and call, its transitions, and the replay of its stored result. A
  transition may be judged on an earlier committed state, its `view`; it writes the columns it changed
  onto the current row, if the row checks accept that.
 */
module ToolExecutions {
  import opened Common
  import opened Text

  datatype Status = Pending | Running | Completed | Failed

  predicate Terminal(s: Status) {
    s.Completed? || s.Failed?
  }

  datatype ToolResult = ToolResult(ok: bool, code: Option<string>, summary: string, data: Option<string>)

  /** The result's own coupling: success has no code, failure a visible one. */
  predicate Valid(r: ToolResult) {
    r.summary != "" && (if r.ok then r.code.None? else r.code.Some? && !IsBlank(r.code.value))
  }

  /** Result, durable status and error code of a terminal row agree. */
  predicate Coupled(r: ToolResult, status: Status, error: Option<string>) {
    match status
    case Completed => r.ok && error.None? && r.code.None?
    case Failed => !r.ok && error.Some? && !IsBlank(error.value) && r.code == error
    case _ => false
  }

  datatype Exec =
    Exec(run: Id, call: Id, tool: string, status: Status, result: Option<ToolResult>, duration: Option<int>,
         error: Option<string>)

  /** `used` records every row id ever made. */
  datatype Table = Table(rows: map<Id, Exec>, used: set<Id>)

  const EMPTY := Table(map[], {})

  /** The stored result of a terminal row, re-validated; `None` stands for the raised error. */
  function LoadStored(row: Exec): Option<ToolResult> {
    if Terminal(row.status) && row.result.Some? && Valid(row.result.value)
      && Coupled(row.result.value, row.status, row.error) then row.result
    else None
  }

  /**
    Exactly a finished row with a visible, coupled result loads: a success of a completed row, without
    codes, or a failure of a failed row whose code the result repeats.
   */
  lemma LoadStoredMeans(row: Exec, r: ToolResult)
    ensures LoadStored(row) == Some(r)
       <==> && row.result == Some(r) && r.summary != ""
            && (|| (row.status == Completed && r.ok && r.code == None && row.error == None)
                || (row.status == Failed && !r.ok && r.code == row.error && row.error.Some?
                    && !IsBlank(row.error.value)))
  {
    hide IsBlank;
  }

  predicate HasIdentity(t: Table, id: Id, run: Id, call: Id) {
    id in t.rows && t.rows[id].run == run && t.rows[id].call == call
  }

  predicate IdentityTaken(t: Table, run: Id, call: Id) {
    exists id :: id in t.rows && HasIdentity(t, id, run, call)
  }

  predicate Allowed(from: Status, to: Status) {
    (from.Pending? && to.Running?) || (from.Running? && Terminal(to))
  }

  /** `GetOrCreate` reads first; an insert the unique identity refuses falls back to the rival's row. */
  datatype Move =
    | GetOrCreate(run: Id, call: Id, tool: string, id: Id)
    | MarkRunning(id: Id)
    | Complete(id: Id, result: ToolResult, duration: int)
    | Fail(id: Id, result: ToolResult, duration: int)
    | Delete(id: Id)

  function NewExec(run: Id, call: Id, tool: string): Exec {
    Exec(run, call, tool, Pending, None, None, None)
  }

  /** The table's own row checks. */
  predicate RowChecks(row: Exec) {
    && (row.duration.Some? ==> row.duration.value >= 0)
    && (Terminal(row.status) <==> row.duration.Some?) && (row.duration.Some? <==> row.result.Some?)
    && (row.status.Failed? <==> row.error.Some?)
  }

  /** What a transition leaves in memory; `None` when it raises. */
  function Left(seen: Exec, m: Move): Option<Exec> {
    match m
    case MarkRunning(_) => if Allowed(seen.status, Running) then Some(seen.(status := Running)) else None
    case Complete(_, result, duration) =>
      if duration >= 0 && Coupled(result, Completed, None) && Allowed(seen.status, Completed) then
        Some(seen.(status := Completed, duration := Some(duration), result := Some(result), error := None))
      else None
    case Fail(_, result, duration) =>
      if duration >= 0 && Coupled(result, Failed, result.code) && Allowed(seen.status, Failed) then
        Some(seen.(status := Failed, duration := Some(duration), result := Some(result), error := result.code))
      else None
    case _ => None
  }

  /** The current row with the changed columns written. */
  function Merge(seen: Exec, left: Exec, cur: Exec): Exec {
    cur.(status := Pick(seen.status, left.status, cur.status),
         duration := Pick(seen.duration, left.duration, cur.duration),
         result := Pick(seen.result, left.result, cur.result), error := Pick(seen.error, left.error, cur.error))
  }

  function Flush(seen: Exec, t: Table, m: Move): Table
    requires !m.GetOrCreate? && m.id in t.rows
  {
    match Left(seen, m)
    case None => t
    case Some(left) =>
      var row := Merge(seen, left, t.rows[m.id]);
      if RowChecks(row) then t.(rows := t.rows[m.id := row]) else t
  }

  function Apply(view: Table, t: Table, m: Move): Table {
    match m
    case GetOrCreate(run, call, tool, id) =>
      if IdentityTaken(view, run, call) || IdentityTaken(t, run, call) then t
      else Table(t.rows[id := NewExec(run, call, tool)], t.used + {id})
    case Delete(id) => if id in view.rows then t.(rows := t.rows - {id}) else t
    case _ => if m.id in view.rows && m.id in t.rows then Flush(view.rows[m.id], t, m) else t
  }

  /** Row ids are fresh, and results are validated objects. */
  predicate WellFormed(t: Table, m: Move) {
    match m
    case GetOrCreate(_, _, _, id) => id !in t.used
    case Complete(_, result, _) => Valid(result)
    case Fail(_, result, _) => Valid(result)
    case _ => true
  }

  // ----- Histories -----

  /** Committed states, the moves between them, and the state each move read. */
  ghost predicate History(h: seq<Table>, ms: seq<Move>, vs: seq<nat>) {
    && |h| == |ms| + 1 == |vs| + 1 && h[0] == EMPTY
    && forall i :: 0 <= i < |ms| ==> StepAt(h, ms, vs, i)
  }

  ghost predicate StepAt(h: seq<Table>, ms: seq<Move>, vs: seq<nat>, i: nat)
    requires i < |ms| && |h| == |ms| + 1 == |vs| + 1
  {
    vs[i] <= i && WellFormed(h[i], ms[i]) && h[i + 1] == Apply(h[vs[i]], h[i], ms[i])
  }

  ghost predicate OneRowPerCall(t: Table) {
    forall a, b :: a in t.rows && b in t.rows && a != b ==>
        t.rows[a].run != t.rows[b].run || t.rows[a].call != t.rows[b].call
  }

  /** A terminal row replays a result; any other has none. */
  predicate Replayable(row: Exec) {
    RowChecks(row) && (LoadStored(row).Some? <==> Terminal(row.status))
  }

  ghost predicate Inv(t: Table) {
    OneRowPerCall(t) && (forall id :: id in t.rows ==> Replayable(t.rows[id])) && t.rows.Keys <= t.used
  }

  lemma MergeReplays(seen: Exec, cur: Exec, m: Move)
    requires Replayable(seen) && Replayable(cur) && Left(seen, m).Some?
    requires m.Complete? || m.Fail? ==> Valid(m.result)
    ensures var row := Merge(seen, Left(seen, m).value, cur); RowChecks(row) ==> Replayable(row)
    ensures Merge(seen, Left(seen, m).value, cur).(status := cur.status, duration := cur.duration, result := cur.result,
                                                   error := cur.error) == cur
  {
    hide IsBlank;
  }

  lemma InvKept(view: Table, t: Table, m: Move)
    requires Inv(view) && Inv(t) && WellFormed(t, m)
    ensures Inv(Apply(view, t, m))
  {
    hide IsBlank, LoadStored, RowChecks, Replayable, Valid;
    match m
    case GetOrCreate(run, call, tool, id) =>
      NewIsReplayable(run, call, tool);
      assert forall o :: o in t.rows && t.rows[o].run == run && t.rows[o].call == call ==> HasIdentity(t, o, run, call);
    case Delete(_) =>
    case _ =>
      if m.id in view.rows && m.id in t.rows && Left(view.rows[m.id], m).Some? {
        MergeReplays(view.rows[m.id], t.rows[m.id], m);
      }
  }

  lemma NewIsReplayable(run: Id, call: Id, tool: string)
    ensures Replayable(NewExec(run, call, tool))
  {}

  function Rank(s: Status): nat {
    match s case Pending => 0 case Running => 1 case _ => 2
  }

  /** The same row later: same identity, never an earlier status. */
  predicate Advances(a: Exec, b: Exec) {
    a.run == b.run && a.call == b.call && a.tool == b.tool && Rank(a.status) <= Rank(b.status)
  }

  ghost predicate TableAdvances(a: Table, b: Table) {
    && a.used <= b.used
    && (forall id :: id in a.rows && id in b.rows ==> Advances(a.rows[id], b.rows[id]))
    && (forall id :: id in a.used && id in b.rows ==> id in a.rows)
  }

  /** However old the row a transition was judged on, the row checks never let a status go back. */
  lemma FlushAdvances(seen: Exec, t: Table, m: Move)
    requires !m.GetOrCreate? && m.id in t.rows && Replayable(seen) && Replayable(t.rows[m.id])
    ensures m.id in Flush(seen, t, m).rows && Advances(t.rows[m.id], Flush(seen, t, m).rows[m.id])
  {
    hide IsBlank, LoadStored, Coupled;
  }

  lemma MoveAdvances(view: Table, t: Table, m: Move)
    requires Inv(view) && Inv(t) && WellFormed(t, m)
    ensures TableAdvances(t, Apply(view, t, m))
  {
    hide IsBlank, Replayable, Valid, RowChecks, Left, Merge;
    if !m.GetOrCreate? && m.id in view.rows && m.id in t.rows {
      FlushAdvances(view.rows[m.id], t, m);
    }
  }

  lemma AdvancesChain(a: Table, b: Table, c: Table)
    requires TableAdvances(a, b) && TableAdvances(b, c) && a.rows.Keys <= a.used && b.rows.Keys <= b.used
    ensures TableAdvances(a, c)
  {}

  lemma AdvancesItself(a: Table)
    ensures TableAdvances(a, a)
  {}

  lemma {:induction false} HistoryKeeps(h: seq<Table>, ms: seq<Move>, vs: seq<nat>, i: nat, j: nat)
    requires History(h, ms, vs) && i <= j < |h|
    ensures Inv(h[i]) && Inv(h[j]) && TableAdvances(h[i], h[j])
    decreases j, i
  {
    hide Apply, WellFormed, TableAdvances, Replayable, OneRowPerCall;
    if j == 0 {
      NothingYet();
    } else {
      assert StepAt(h, ms, vs, j - 1);
      var v := vs[j - 1];
      HistoryKeeps(h, ms, vs, v, j - 1);
      InvKept(h[v], h[j - 1], ms[j - 1]);
      MoveAdvances(h[v], h[j - 1], ms[j - 1]);
      if i < j {
        HistoryKeeps(h, ms, vs, i, j - 1);
        AdvancesChain(h[i], h[j - 1], h[j]);
      } else {
        AdvancesItself(h[j]);
      }
    }
  }

  lemma NothingYet()
    ensures Inv(EMPTY) && TableAdvances(EMPTY, EMPTY)
  {}

  /**
    Over every history, with racing inserts and transitions judged on rows read earlier, a run and call
    identify at most one row, and a row's result loads iff the row is terminal.
   */
  lemma OneReplayableRowPerCall(h: seq<Table>, ms: seq<Move>, vs: seq<nat>, i: nat)
    requires History(h, ms, vs) && i < |h|
    ensures OneRowPerCall(h[i])
    ensures forall id :: id in h[i].rows ==>
              var row := h[i].rows[id];
              && (LoadStored(row).Some? <==> row.status == Completed || row.status == Failed)
              && (row.duration.Some? <==> row.status == Completed || row.status == Failed)
              && (row.duration.Some? ==> row.duration.value >= 0)
  {
    hide History, IsBlank, OneRowPerCall, LoadStored;
    HistoryKeeps(h, ms, vs, i, i);
  }

  /** The step at `n` takes the row to this rank. */
  predicate MovesAt(h: seq<Table>, n: nat, id: Id, rank: nat)
    requires n + 1 < |h|
  {
    id in h[n].rows && id in h[n + 1].rows && Rank(h[n].rows[id].status) < rank
      && Rank(h[n + 1].rows[id].status) == rank
  }

  /** Over every such history a row starts at most once (rank 1) and finishes at most once (rank 2). */
  lemma StartsAndFinishesOnce(h: seq<Table>, ms: seq<Move>, vs: seq<nat>, i: nat, j: nat, id: Id, rank: nat)
    requires History(h, ms, vs) && i < |ms| && j < |ms| && MovesAt(h, i, id, rank) && MovesAt(h, j, id, rank)
    ensures i == j
  {
    hide Rank, Inv, Apply, WellFormed;
    if i < j {
      HistoryKeeps(h, ms, vs, i + 1, j);
    } else if j < i {
      HistoryKeeps(h, ms, vs, j + 1, i);
    }
  }

  // ----- When a stored result stays -----

  /**
    A finish judged on the row while it ran overwrites the stored result of a row that has finished: a
    completion overwrites another completion, a failure anything, unless the result is the same. A
    completion over a failure is refused by the row checks.
   */
  predicate Overwrites(seen: Exec, cur: Exec, m: Move) {
    && Terminal(cur.status) && Left(seen, m).Some?
    && match m
       case Complete(_, result, _) => cur.status.Completed? && cur.result != Some(result)
       case Fail(_, result, _) => cur.result != Some(result)
       case _ => false
  }

  predicate OverwritesAt(view: Table, t: Table, m: Move, id: Id) {
    !m.GetOrCreate? && m.id == id && id in view.rows && id in t.rows && Overwrites(view.rows[id], t.rows[id], m)
  }

  lemma FlushReplayIff(seen: Exec, t: Table, m: Move)
    requires !m.GetOrCreate? && m.id in t.rows && Replayable(seen) && Replayable(t.rows[m.id])
    requires Terminal(t.rows[m.id].status)
    requires m.Complete? || m.Fail? ==> Valid(m.result)
    ensures m.id in Flush(seen, t, m).rows
    ensures LoadStored(Flush(seen, t, m).rows[m.id]) == LoadStored(t.rows[m.id]) <==> !Overwrites(seen, t.rows[m.id], m)
  {
    hide IsBlank;
  }

  /** One step keeps what a finished row replays, while the row exists, iff it is not such a finish. */
  lemma ReplayKeptIff(view: Table, t: Table, m: Move, id: Id)
    requires Inv(view) && Inv(t) && WellFormed(t, m) && id in t.rows && Terminal(t.rows[id].status)
    ensures var u := Apply(view, t, m);
            (id in u.rows ==> LoadStored(u.rows[id]) == LoadStored(t.rows[id])) <==> !OverwritesAt(view, t, m, id)
  {
    hide IsBlank, LoadStored, Replayable, Overwrites, Left, Merge, RowChecks, Valid;
    if !m.GetOrCreate? && !m.Delete? && m.id == id && m.id in view.rows {
      FlushReplayIff(view.rows[m.id], t, m);
    } else if m.Delete? {
      DeleteOverwritesNothing(view, t, m, id);
    }
  }

  lemma DeleteOverwritesNothing(view: Table, t: Table, m: Move, id: Id)
    requires m.Delete?
    ensures !OverwritesAt(view, t, m, id)
  {}

  ghost predicate OverwrittenAt(h: seq<Table>, ms: seq<Move>, vs: seq<nat>, id: Id, i: nat)
    requires History(h, ms, vs) && i < |ms|
  {
    StepAt(h, ms, vs, i) && OverwritesAt(h[vs[i]], h[i], ms[i], id)
  }

  /** What a finished row replays never changes while the row exists, step after step, iff no step overwrites it. */
  lemma {:induction false} ReplayIsStableIff(h: seq<Table>, ms: seq<Move>, vs: seq<nat>, a: nat, b: nat, id: Id)
    requires History(h, ms, vs) && a <= b < |h| && id in h[a].rows && id in h[b].rows && Terminal(h[a].rows[id].status)
    ensures forall i :: a <= i <= b ==> id in h[i].rows && Terminal(h[i].rows[id].status)
    ensures (forall i :: a <= i <= b && id in h[i].rows ==> LoadStored(h[i].rows[id]) == LoadStored(h[a].rows[id]))
       <==> (forall i :: a <= i < b ==> !OverwrittenAt(h, ms, vs, id, i))
    decreases b
  {
    hide IsBlank, LoadStored, Replayable, Apply, OverwritesAt, WellFormed, OneRowPerCall, RowChecks;
    if a < b {
      HistoryKeeps(h, ms, vs, b - 1, b);
      HistoryKeeps(h, ms, vs, a, b - 1);
      assert StepAt(h, ms, vs, b - 1);
      HistoryKeeps(h, ms, vs, vs[b - 1], b - 1);
      ReplayIsStableIff(h, ms, vs, a, b - 1, id);
      ReplayKeptIff(h[vs[b - 1]], h[b - 1], ms[b - 1], id);
      assert OverwrittenAt(h, ms, vs, id, b - 1) <==> OverwritesAt(h[vs[b - 1]], h[b - 1], ms[b - 1], id);
    }
  }

  /** Judged on the current row, no finish overwrites anything. */
  lemma CurrentReadsNeverOverwrite(t: Table, m: Move, id: Id)
    ensures !OverwritesAt(t, t, m, id)
  {
    hide IsBlank;
  }

  // ----- The repository -----

  datatype ToolError = NotFound | InvalidTransition | ResultCoupling | NegativeDuration

  class Repository {
    var rows: map<Id, Exec>
    ghost var used: set<Id>

    ghost function Value(): Table
      reads this
    {
      Table(rows, used)
    }

    constructor ()
      ensures Value() == EMPTY
    {
      rows, used := map[], {};
    }

    /** Returns the row of the identity, created by this call or not. */
    method GetOrCreatePending(run: Id, call: Id, tool: string, id: Id) returns (r: Id, created: bool)
      requires Inv(Value()) && id !in used
      modifies this
      ensures Value() == Apply(old(Value()), old(Value()), GetOrCreate(run, call, tool, id))
      ensures Inv(Value()) && HasIdentity(Value(), r, run, call)
      ensures forall o :: HasIdentity(Value(), o, run, call) ==> o == r
      ensures created <==> r == id
      ensures rows == if created then old(rows)[id := Exec(run, call, tool, Pending, None, None, None)] else old(rows)
    {
      hide IsBlank;
      ghost var before := Value();
      InvKept(before, before, GetOrCreate(run, call, tool, id));
      if exists o :: o in rows && rows[o].run == run && rows[o].call == call {
        r :| r in rows && rows[r].run == run && rows[r].call == call;
        assert HasIdentity(before, r, run, call);
        created := false;
      } else {
        assert !IdentityTaken(before, run, call);
        rows := rows[id := NewExec(run, call, tool)];
        used := used + {id};
        r, created := id, true;
      }
    }

    method Transition(
      id: Id, to: Status, result: Option<ToolResult>, duration: int, error: Option<string>)
      returns (r: Option<ToolError>)
      requires !to.Pending? && (Terminal(to) <==> result.Some?)
      modifies this`rows
      ensures r.None? <==> id in old(rows) && old(rows)[id].status == if to == Running then Pending else Running
      ensures r.Some? ==> r == Some(if id in old(rows) then InvalidTransition else NotFound)
      ensures r.Some? ==> rows == old(rows)
      ensures r.None? ==> rows == old(rows)[id := if to.Running? then old(rows)[id].(status := Running)
                                                  else old(rows)[id].(status := to, duration := Some(duration),
                                                                      result := result, error := error)]
    {
      if id !in rows {
        return Some(NotFound);
      }
      var row := rows[id];
      if !Allowed(row.status, to) {
        return Some(InvalidTransition);
      }
      row := row.(status := to);
      if Terminal(to) {
        row := row.(duration := Some(duration), result := result, error := error);
      }
      rows := rows[id := row];
      r := None;
    }

    method CompleteExecution(id: Id, result: ToolResult, duration: int) returns (r: Option<ToolError>)
      requires Inv(Value()) && Valid(result)
      modifies this`rows
      ensures Value() == Apply(old(Value()), old(Value()), Complete(id, result, duration)) && Inv(Value())
      ensures r.None? <==> duration >= 0 && result.ok && id in old(rows) && old(rows)[id].status == Running
      ensures r.None? ==> LoadStored(rows[id]) == Some(result)
      ensures rows == if r.Some? then old(rows)
                      else old(rows)[id := old(rows)[id].(status := Completed, duration := Some(duration),
                                                          result := Some(result), error := None)]
    {
      hide IsBlank;
      InvKept(Value(), Value(), Complete(id, result, duration));
      if duration < 0 {
        return Some(NegativeDuration);
      }
      if !Coupled(result, Completed, None) {
        return Some(ResultCoupling);
      }
      r := Transition(id, Completed, Some(result), duration, None);
    }

    method FailExecution(id: Id, result: ToolResult, duration: int) returns (r: Option<ToolError>)
      requires Inv(Value()) && Valid(result)
      modifies this`rows
      ensures Value() == Apply(old(Value()), old(Value()), Fail(id, result, duration)) && Inv(Value())
      ensures r.None? <==> duration >= 0 && !result.ok && id in old(rows) && old(rows)[id].status == Running
      ensures r.None? ==> LoadStored(rows[id]) == Some(result)
      ensures rows == if r.Some? then old(rows)
                      else old(rows)[id := old(rows)[id].(status := Failed, duration := Some(duration),
                                                          result := Some(result), error := result.code)]
    {
      hide IsBlank;
      InvKept(Value(), Value(), Fail(id, result, duration));
      if duration < 0 {
        return Some(NegativeDuration);
      }
      if !Coupled(result, Failed, result.code) {
        return Some(ResultCoupling);
      }
      r := Transition(id, Failed, Some(result), duration, result.code);
    }

    method MarkRunningRow(id: Id) returns (r: Option<ToolError>)
      modifies this`rows
      ensures r == Some(NotFound) <==> id !in old(rows)
      ensures r == Some(InvalidTransition) <==> id in old(rows) && old(rows)[id].status != Pending
      ensures r.None? || r == Some(NotFound) || r == Some(InvalidTransition)
      ensures rows == if r.Some? then old(rows) else old(rows)[id := old(rows)[id].(status := Running)]
      ensures Inv(old(Value())) ==> Value() == Apply(old(Value()), old(Value()), MarkRunning(id)) && Inv(Value())
    {
      if Inv(Value()) {
        InvKept(Value(), Value(), MarkRunning(id));
      }
      r := Transition(id, Running, None, 0, None);
    }

    method DeleteExecution(id: Id) returns (deleted: bool)
      modifies this`rows
      ensures Value() == Apply(old(Value()), old(Value()), Delete(id))
      ensures deleted <==> id in old(rows)
      ensures rows == old(rows) - {id}
    {
      deleted := id in rows;
      rows := rows - {id};
    }
  }
}
