/**
  Agent runs and attachments: allowed transitions, the fields each one couples, and what no history
  undoes. A transition may be judged on an earlier committed state, its `view`; it writes the columns
  it changed onto the current row, if the table's checks accept that.
 */
module RunsAndAttachments {
  import opened Common

  datatype Code = Code(name: string)
  datatype Approval = Approval(json: string)

  // ----- Runs -----

  datatype RunState = Running | Interrupted | Completed | Failed

  datatype Run =
    Run(state: RunState, approval: Option<Approval>, completedAt: Option<int>, error: Option<Code>, updatedAt: int)

  datatype RunMove =
    | Create(id: Id, now: int)
    | Interrupt(id: Id, approval: Approval, now: int)
    | Resume(id: Id, now: int)
    | CompleteRun(id: Id, now: int)
    | FailRun(id: Id, code: Code, now: int)
    | DeleteRun(id: Id)

  datatype RunTable = RunTable(runs: map<Id, Run>, used: set<Id>)

  const NO_RUNS := RunTable(map[], {})

  predicate RunAllowed(from: RunState, to: RunState) {
    (from.Running? && !to.Running?) || (from.Interrupted? && to.Running?)
  }

  predicate RunTerminal(s: RunState) {
    s.Completed? || s.Failed?
  }

  /** The table's row checks; it has none on the error code. */
  predicate RunChecks(r: Run) {
    (r.approval.Some? <==> r.state.Interrupted?) && (r.completedAt.Some? <==> RunTerminal(r.state))
  }

  /** The fields a transition leaves in memory, written field by field as the target state asks. */
  function RunLeft(seen: Run, to: RunState, approval: Option<Approval>, code: Option<Code>, now: int): Run {
    var run := seen.(state := to, updatedAt := now);
    match to
    case Interrupted => run.(approval := approval, completedAt := None)
    case Running => run.(approval := None, completedAt := None, error := None)
    case Completed => run.(approval := None, error := None, completedAt := Some(now))
    case Failed => run.(approval := None, error := code, completedAt := Some(now))
  }

  /** The current row with the changed columns written; a null approval is always written. */
  function RunMerge(seen: Run, left: Run, cur: Run): Run {
    Run(Pick(seen.state, left.state, cur.state),
        if left.state.Interrupted? then Pick(seen.approval, left.approval, cur.approval) else None,
        Pick(seen.completedAt, left.completedAt, cur.completedAt), Pick(seen.error, left.error, cur.error),
        Pick(seen.updatedAt, left.updatedAt, cur.updatedAt))
  }

  function TransitionRun(
    view: RunTable, t: RunTable, id: Id, to: RunState, approval: Option<Approval>, code: Option<Code>,
    now: int): RunTable
  {
    if id !in view.runs || id !in t.runs || !RunAllowed(view.runs[id].state, to) then t
    else
      var row := RunMerge(view.runs[id], RunLeft(view.runs[id], to, approval, code, now), t.runs[id]);
      if RunChecks(row) then t.(runs := t.runs[id := row]) else t
  }

  function ApplyRun(view: RunTable, t: RunTable, m: RunMove): RunTable {
    match m
    case Create(id, now) =>
      if id in t.used then t else RunTable(t.runs[id := Run(Running, None, None, None, now)], t.used + {id})
    case Interrupt(id, approval, now) => TransitionRun(view, t, id, Interrupted, Some(approval), None, now)
    case Resume(id, now) => TransitionRun(view, t, id, Running, None, None, now)
    case CompleteRun(id, now) => TransitionRun(view, t, id, Completed, None, None, now)
    case FailRun(id, code, now) => TransitionRun(view, t, id, Failed, None, Some(code), now)
    case DeleteRun(id) => if id in view.runs then t.(runs := t.runs - {id}) else t
  }

  /** Committed states, the moves between them, and the state each move read. */
  ghost predicate RunHistory(h: seq<RunTable>, ms: seq<RunMove>, vs: seq<nat>) {
    && |h| == |ms| + 1 == |vs| + 1 && h[0] == NO_RUNS
    && forall i :: 0 <= i < |ms| ==> RunStepAt(h, ms, vs, i)
  }

  ghost predicate RunStepAt(h: seq<RunTable>, ms: seq<RunMove>, vs: seq<nat>, i: nat)
    requires i < |ms| && |h| == |ms| + 1 == |vs| + 1
  {
    vs[i] <= i && h[i + 1] == ApplyRun(h[vs[i]], h[i], ms[i])
  }

  ghost predicate RunInv(t: RunTable) {
    (forall id :: id in t.runs ==> RunChecks(t.runs[id])) && t.runs.Keys <= t.used
  }

  lemma RunInvKept(view: RunTable, t: RunTable, m: RunMove)
    requires RunInv(t)
    ensures RunInv(ApplyRun(view, t, m)) && t.used <= ApplyRun(view, t, m).used
  {
    hide RunMerge, RunLeft;
  }

  lemma {:induction false} RunHistoryKeeps(h: seq<RunTable>, ms: seq<RunMove>, vs: seq<nat>, i: nat)
    requires RunHistory(h, ms, vs) && i < |h|
    ensures RunInv(h[i])
    decreases i
  {
    hide ApplyRun, RunChecks;
    if i > 0 {
      assert RunStepAt(h, ms, vs, i - 1);
      RunHistoryKeeps(h, ms, vs, i - 1);
      RunInvKept(h[vs[i - 1]], h[i - 1], ms[i - 1]);
    }
  }

  /**
    Over every history, however old the rows that were read, a run has an approval iff interrupted and
    an end time iff terminal.
   */
  lemma RunsAreCoupled(h: seq<RunTable>, ms: seq<RunMove>, vs: seq<nat>, i: nat, id: Id)
    requires RunHistory(h, ms, vs) && i < |h| && id in h[i].runs
    ensures var r := h[i].runs[id];
            (r.approval.Some? <==> r.state.Interrupted?) && (r.completedAt.Some? <==> RunTerminal(r.state))
  {
    hide RunHistory;
    RunHistoryKeeps(h, ms, vs, i);
  }

  predicate ErrorCoupled(r: Run) {
    r.error.Some? <==> r.state.Failed?
  }

  ghost predicate ErrorsCoupled(t: RunTable) {
    forall id :: id in t.runs ==> ErrorCoupled(t.runs[id])
  }

  /** A completion judged on the run while it was running lands on a failed run and leaves the error code there. */
  predicate KeepsError(view: RunTable, t: RunTable, m: RunMove) {
    m.CompleteRun? && m.id in view.runs && m.id in t.runs && view.runs[m.id].state.Running?
      && t.runs[m.id].state.Failed?
  }

  lemma TransitionErrors(seen: Run, cur: Run, to: RunState, approval: Option<Approval>, code: Option<Code>, now: int)
    requires RunChecks(seen) && RunChecks(cur) && ErrorCoupled(seen) && ErrorCoupled(cur) && RunAllowed(seen.state, to)
    requires (to.Interrupted? <==> approval.Some?) && (to.Failed? <==> code.Some?)
    ensures var row := RunMerge(seen, RunLeft(seen, to, approval, code, now), cur);
            RunChecks(row) ==> (ErrorCoupled(row) <==> !(to.Completed? && cur.state.Failed?))
    ensures to.Completed? ==> RunChecks(RunMerge(seen, RunLeft(seen, to, approval, code, now), cur))
  {}

  /** In one step the error code stays with failed runs iff the step is not such a completion. */
  lemma ErrorsCoupledIff(view: RunTable, t: RunTable, m: RunMove)
    requires RunInv(view) && RunInv(t) && ErrorsCoupled(view) && ErrorsCoupled(t)
    ensures ErrorsCoupled(ApplyRun(view, t, m)) <==> !KeepsError(view, t, m)
  {
    hide RunMerge, RunLeft, RunChecks, ErrorCoupled;
    FreshRunCoupled();
    if !m.Create? && !m.DeleteRun? && m.id in view.runs && m.id in t.runs {
      var seen, cur := view.runs[m.id], t.runs[m.id];
      match m
      case Interrupt(_, approval, now) =>
        if RunAllowed(seen.state, Interrupted) { TransitionErrors(seen, cur, Interrupted, Some(approval), None, now); }
      case Resume(_, now) =>
        if RunAllowed(seen.state, Running) { TransitionErrors(seen, cur, Running, None, None, now); }
      case CompleteRun(_, now) =>
        if RunAllowed(seen.state, Completed) {
          TransitionErrors(seen, cur, Completed, None, None, now);
          assert m.id in ApplyRun(view, t, m).runs;
        }
      case FailRun(_, code, now) =>
        if RunAllowed(seen.state, Failed) { TransitionErrors(seen, cur, Failed, None, Some(code), now); }
    }
  }

  lemma FreshRunCoupled()
    ensures forall now :: ErrorCoupled(Run(Running, None, None, None, now))
  {}

  ghost predicate KeptErrorAt(h: seq<RunTable>, ms: seq<RunMove>, vs: seq<nat>, i: nat)
    requires RunHistory(h, ms, vs) && i < |ms|
  {
    RunStepAt(h, ms, vs, i) && KeepsError(h[vs[i]], h[i], ms[i])
  }

  /** In a history a run has an error code iff it failed, throughout, iff no step is such a completion. */
  lemma {:induction false} ErrorsCoupledThroughoutIff(h: seq<RunTable>, ms: seq<RunMove>, vs: seq<nat>, n: nat)
    requires RunHistory(h, ms, vs) && n < |h|
    ensures (forall i :: 0 <= i <= n ==> ErrorsCoupled(h[i]))
       <==> (forall i :: 0 <= i < n ==> !KeptErrorAt(h, ms, vs, i))
    decreases n
  {
    hide RunInv, ApplyRun, ErrorsCoupled, KeepsError;
    if n == 0 {
      NoRunsCoupled();
    } else {
      ErrorsCoupledThroughoutIff(h, ms, vs, n - 1);
      assert RunStepAt(h, ms, vs, n - 1);
      assert KeptErrorAt(h, ms, vs, n - 1) <==> KeepsError(h[vs[n - 1]], h[n - 1], ms[n - 1]);
      RunHistoryKeeps(h, ms, vs, n - 1);
      RunHistoryKeeps(h, ms, vs, vs[n - 1]);
      if forall i :: 0 <= i <= n - 1 ==> ErrorsCoupled(h[i]) {
        ErrorsCoupledIff(h[vs[n - 1]], h[n - 1], ms[n - 1]);
      }
    }
  }

  lemma NoRunsCoupled()
    ensures ErrorsCoupled(NO_RUNS)
  {}

  /** The run ended as this finish would end it, in every column the finish writes. */
  predicate EndedBy(seen: Run, cur: Run, to: RunState, code: Option<Code>, now: int) {
    && cur.state == to && cur.completedAt == Some(now)
    && (seen.error != code ==> cur.error == code)
    && (seen.updatedAt != now ==> cur.updatedAt == now)
  }

  /**
    A finish judged on the run while it was running rewrites a run that has finished, unless that run
    ended just so. Interruptions and resumptions are refused by the row checks.
   */
  predicate Rewrites(seen: Run, cur: Run, m: RunMove) {
    && RunTerminal(cur.state) && seen.state.Running?
    && match m
       case CompleteRun(_, now) => !EndedBy(seen, cur, Completed, None, now)
       case FailRun(_, code, now) => !EndedBy(seen, cur, Failed, Some(code), now)
       case _ => false
  }

  predicate RewritesAt(view: RunTable, t: RunTable, m: RunMove, id: Id) {
    m.id == id && id in view.runs && id in t.runs && Rewrites(view.runs[id], t.runs[id], m)
  }

  lemma FinishLands(seen: Run, cur: Run, to: RunState, approval: Option<Approval>, code: Option<Code>, now: int)
    requires RunChecks(seen) && RunChecks(cur) && RunTerminal(cur.state) && RunAllowed(seen.state, to)
    ensures var row := RunMerge(seen, RunLeft(seen, to, approval, code, now), cur);
            && (RunChecks(row) <==> RunTerminal(to))
            && ((to.Completed? && code.None?) || to.Failed? ==> (row == cur <==> EndedBy(seen, cur, to, code, now)))
  {}

  /** One step leaves a terminal run exactly as it ended, or deletes it, iff it does not rewrite it. */
  lemma FinalIff(view: RunTable, t: RunTable, m: RunMove, id: Id)
    requires RunInv(view) && RunInv(t) && id in t.runs && RunTerminal(t.runs[id].state)
    ensures var u := ApplyRun(view, t, m);
            (id in u.runs ==> u.runs[id] == t.runs[id]) <==> !RewritesAt(view, t, m, id)
  {
    hide RunMerge, RunLeft, RunChecks, EndedBy;
    if !m.Create? && !m.DeleteRun? && m.id == id && id in view.runs {
      var seen, cur := view.runs[id], t.runs[id];
      match m
      case Interrupt(_, approval, now) =>
        if RunAllowed(seen.state, Interrupted) { FinishLands(seen, cur, Interrupted, Some(approval), None, now); }
      case Resume(_, now) =>
        if RunAllowed(seen.state, Running) { FinishLands(seen, cur, Running, None, None, now); }
      case CompleteRun(_, now) =>
        if RunAllowed(seen.state, Completed) { FinishLands(seen, cur, Completed, None, None, now); }
      case FailRun(_, code, now) =>
        if RunAllowed(seen.state, Failed) { FinishLands(seen, cur, Failed, None, Some(code), now); }
    }
  }

  ghost predicate RewrittenAt(h: seq<RunTable>, ms: seq<RunMove>, vs: seq<nat>, id: Id, i: nat)
    requires RunHistory(h, ms, vs) && i < |ms|
  {
    RunStepAt(h, ms, vs, i) && RewritesAt(h[vs[i]], h[i], ms[i], id)
  }

  /** A terminal run stays exactly as it ended, while it exists, iff no step rewrites it. */
  lemma {:induction false} TerminalRunsAreFinalIff(
    h: seq<RunTable>, ms: seq<RunMove>, vs: seq<nat>, a: nat, b: nat, id: Id)
    requires RunHistory(h, ms, vs) && a <= b < |h| && id in h[a].runs && RunTerminal(h[a].runs[id].state)
    ensures (forall i :: a <= i <= b && id in h[i].runs ==> h[i].runs[id] == h[a].runs[id])
       <==> (forall i :: a <= i < b ==> !RewrittenAt(h, ms, vs, id, i))
    ensures id in h[b].used && (id in h[b].runs ==> forall i :: a <= i <= b ==> id in h[i].runs)
    ensures id in h[b].runs ==> RunTerminal(h[b].runs[id].state)
    decreases b
  {
    hide RunInv, ApplyRun, RewritesAt;
    RunHistoryKeeps(h, ms, vs, a);
    KnownRun(h[a], id);
    if a < b {
      TerminalRunsAreFinalIff(h, ms, vs, a, b - 1, id);
      assert RunStepAt(h, ms, vs, b - 1);
      assert RewrittenAt(h, ms, vs, id, b - 1) <==> RewritesAt(h[vs[b - 1]], h[b - 1], ms[b - 1], id);
      RunHistoryKeeps(h, ms, vs, b - 1);
      RunHistoryKeeps(h, ms, vs, vs[b - 1]);
      RunInvKept(h[vs[b - 1]], h[b - 1], ms[b - 1]);
      if id in h[b - 1].runs {
        FinalIff(h[vs[b - 1]], h[b - 1], ms[b - 1], id);
        TerminalStays(h[vs[b - 1]], h[b - 1], ms[b - 1], id);
      } else {
        GoneRunStaysGone(h[vs[b - 1]], h[b - 1], ms[b - 1], id);
        NothingToRewrite(h[vs[b - 1]], h[b - 1], ms[b - 1], id);
      }
    }
  }

  lemma KnownRun(t: RunTable, id: Id)
    requires RunInv(t) && id in t.runs
    ensures id in t.used
  {}

  lemma GoneRunStaysGone(view: RunTable, t: RunTable, m: RunMove, id: Id)
    requires id in t.used && id !in t.runs
    ensures id !in ApplyRun(view, t, m).runs
  {
    hide RunMerge, RunLeft;
  }

  lemma NothingToRewrite(view: RunTable, t: RunTable, m: RunMove, id: Id)
    requires id !in t.runs
    ensures !RewritesAt(view, t, m, id)
  {}

  /** Even a rewritten run stays terminal: it never runs or waits again. */
  lemma TerminalStays(view: RunTable, t: RunTable, m: RunMove, id: Id)
    requires RunInv(view) && RunInv(t) && id in t.runs && RunTerminal(t.runs[id].state)
    ensures id in ApplyRun(view, t, m).runs ==> RunTerminal(ApplyRun(view, t, m).runs[id].state)
  {
    hide RunMerge, RunLeft, RunChecks, EndedBy;
    if !m.Create? && !m.DeleteRun? && m.id == id && id in view.runs {
      var seen, cur := view.runs[id], t.runs[id];
      FinalIff(view, t, m, id);
      match m
      case CompleteRun(_, now) => MergeState(seen, cur, Completed, None, None, now);
      case FailRun(_, code, now) => MergeState(seen, cur, Failed, None, Some(code), now);
      case _ => RewritesOnlyByFinish(seen, cur, m);
    }
  }

  lemma MergeState(seen: Run, cur: Run, to: RunState, approval: Option<Approval>, code: Option<Code>, now: int)
    ensures RunMerge(seen, RunLeft(seen, to, approval, code, now), cur).state == Pick(seen.state, to, cur.state)
  {}

  lemma RewritesOnlyByFinish(seen: Run, cur: Run, m: RunMove)
    requires !m.CompleteRun? && !m.FailRun?
    ensures !Rewrites(seen, cur, m)
  {}

  /** Judged on the current row, no transition rewrites a terminal run or keeps an error it should not. */
  lemma CurrentReadsKeepRuns(t: RunTable, m: RunMove, id: Id)
    ensures !RewritesAt(t, t, m, id) && !KeepsError(t, t, m)
  {}

  // ----- Attachments -----

  datatype FileState = Staged | Active | FailedFile | Archived | Deleting

  datatype File = File(state: FileState, pages: Option<int>, failure: Option<Code>, hash: Code, updatedAt: int)

  datatype FileTable = FileTable(files: map<Id, File>, used: set<Id>)

  const NO_FILES := FileTable(map[], {})

  datatype FileMove =
    | CreateStaged(id: Id, hash: Code, pages: Option<int>, now: int)
    | MarkActive(id: Id, pages: Option<int>, now: int)
    | MarkFailed(id: Id, code: Code, now: int)
    | RetryAsStaged(id: Id, now: int)
    | MarkArchived(id: Id, now: int)
    | MarkDeleting(id: Id, now: int)
    | Remove(id: Id)

  predicate FileAllowed(from: FileState, to: FileState) {
    match from
    case Staged => to.Active? || to.FailedFile? || to.Deleting?
    case FailedFile => to.Staged? || to.Deleting?
    case Active => to.Archived?
    case Archived => to.Deleting?
    case Deleting => false
  }

  predicate PagesOk(pages: Option<int>) {
    pages.None? || pages.value > 0
  }

  /** The table's row checks. */
  predicate FileChecks(f: File) {
    (f.failure.Some? <==> f.state.FailedFile?) && PagesOk(f.pages) && (f.state.Active? ==> f.pages.Some?)
  }

  /** At most one active row, by the partial unique index. */
  predicate ActiveFree(t: FileTable, id: Id) {
    forall o :: o in t.files && o != id ==> !t.files[o].state.Active?
  }

  predicate FileHashFree(t: FileTable, hash: Code) {
    forall o :: o in t.files ==> t.files[o].hash != hash
  }

  /** What a transition leaves in memory; `None` when it raises. */
  function FileLeft(seen: File, to: FileState, pages: Option<int>, code: Option<Code>, now: int): Option<File> {
    var effective := if pages.Some? then pages else seen.pages;
    if !FileAllowed(seen.state, to) || (to.Active? && (effective.None? || effective.value <= 0)) then None
    else
      Some(seen.(state := to, updatedAt := now, pages := if to.Active? then effective else seen.pages,
                 failure := if to.FailedFile? then code else None))
  }

  /** The current row with the changed columns written. */
  function FileMerge(seen: File, left: File, cur: File): File {
    File(Pick(seen.state, left.state, cur.state), Pick(seen.pages, left.pages, cur.pages),
         Pick(seen.failure, left.failure, cur.failure), cur.hash, Pick(seen.updatedAt, left.updatedAt, cur.updatedAt))
  }

  function StoreFile(t: FileTable, id: Id, f: File): FileTable {
    if FileChecks(f) && (f.state.Active? ==> ActiveFree(t, id)) then t.(files := t.files[id := f]) else t
  }

  function TransitionFile(
    view: FileTable, t: FileTable, id: Id, to: FileState, pages: Option<int>, code: Option<Code>, now: int): FileTable
  {
    if id !in view.files || id !in t.files then t
    else
      match FileLeft(view.files[id], to, pages, code, now)
      case None => t
      case Some(left) => StoreFile(t, id, FileMerge(view.files[id], left, t.files[id]))
  }

  predicate Removable(s: FileState) {
    s.Staged? || s.FailedFile? || s.Deleting?
  }

  function ApplyFile(view: FileTable, t: FileTable, m: FileMove): FileTable {
    match m
    case CreateStaged(id, hash, pages, now) =>
      if id in t.used || !PagesOk(pages) || !FileHashFree(t, hash) then t
      else FileTable(t.files[id := File(Staged, pages, None, hash, now)], t.used + {id})
    case MarkActive(id, pages, now) =>
      if PagesOk(pages) then TransitionFile(view, t, id, Active, pages, None, now) else t
    case MarkFailed(id, code, now) => TransitionFile(view, t, id, FailedFile, None, Some(code), now)
    case RetryAsStaged(id, now) => TransitionFile(view, t, id, Staged, None, None, now)
    case MarkArchived(id, now) => TransitionFile(view, t, id, Archived, None, None, now)
    case MarkDeleting(id, now) => TransitionFile(view, t, id, Deleting, None, None, now)
    case Remove(id) => if id in view.files && Removable(view.files[id].state) then t.(files := t.files - {id}) else t
  }

  /** Committed states, the moves between them, and the state each move read. */
  ghost predicate FileHistory(h: seq<FileTable>, ms: seq<FileMove>, vs: seq<nat>) {
    && |h| == |ms| + 1 == |vs| + 1 && h[0] == NO_FILES
    && forall i :: 0 <= i < |ms| ==> FileStepAt(h, ms, vs, i)
  }

  ghost predicate FileStepAt(h: seq<FileTable>, ms: seq<FileMove>, vs: seq<nat>, i: nat)
    requires i < |ms| && |h| == |ms| + 1 == |vs| + 1
  {
    vs[i] <= i && h[i + 1] == ApplyFile(h[vs[i]], h[i], ms[i])
  }

  ghost predicate FilesApart(t: FileTable) {
    forall a, b :: a in t.files && b in t.files && a != b ==>
      t.files[a].hash != t.files[b].hash && !(t.files[a].state.Active? && t.files[b].state.Active?)
  }

  ghost predicate FileInv(t: FileTable) {
    (forall id :: id in t.files ==> FileChecks(t.files[id])) && FilesApart(t) && t.files.Keys <= t.used
  }

  lemma StoreFileKeeps(t: FileTable, id: Id, f: File)
    requires FileInv(t) && id in t.files && f.hash == t.files[id].hash
    ensures FileInv(StoreFile(t, id, f)) && StoreFile(t, id, f).used == t.used
  {
    hide FileChecks;
  }

  lemma TransitionFileKeeps(
    view: FileTable, t: FileTable, id: Id, to: FileState, pages: Option<int>, code: Option<Code>, now: int)
    requires FileInv(t)
    ensures FileInv(TransitionFile(view, t, id, to, pages, code, now))
    ensures TransitionFile(view, t, id, to, pages, code, now).used == t.used
  {
    hide FileInv, StoreFile, FileLeft;
    if id in view.files && id in t.files && FileLeft(view.files[id], to, pages, code, now).Some? {
      StoreFileKeeps(t, id,
                     FileMerge(view.files[id], FileLeft(view.files[id], to, pages, code, now).value, t.files[id]));
    }
  }

  lemma FileInvKept(view: FileTable, t: FileTable, m: FileMove)
    requires FileInv(t)
    ensures FileInv(ApplyFile(view, t, m)) && t.used <= ApplyFile(view, t, m).used
  {
    hide TransitionFile;
    match m
    case CreateStaged(_, _, _, _) =>
    case Remove(_) =>
    case MarkActive(id, pages, now) => TransitionFileKeeps(view, t, id, Active, pages, None, now);
    case MarkFailed(id, code, now) => TransitionFileKeeps(view, t, id, FailedFile, None, Some(code), now);
    case RetryAsStaged(id, now) => TransitionFileKeeps(view, t, id, Staged, None, None, now);
    case MarkArchived(id, now) => TransitionFileKeeps(view, t, id, Archived, None, None, now);
    case MarkDeleting(id, now) => TransitionFileKeeps(view, t, id, Deleting, None, None, now);
  }

  lemma {:induction false} FileHistoryKeeps(h: seq<FileTable>, ms: seq<FileMove>, vs: seq<nat>, i: nat)
    requires FileHistory(h, ms, vs) && i < |h|
    ensures FileInv(h[i])
    decreases i
  {
    hide ApplyFile, FileInv;
    if i == 0 {
      NoFiles();
    } else {
      assert FileStepAt(h, ms, vs, i - 1);
      FileHistoryKeeps(h, ms, vs, i - 1);
      FileInvKept(h[vs[i - 1]], h[i - 1], ms[i - 1]);
    }
  }

  lemma NoFiles()
    ensures FileInv(NO_FILES)
  {}

  /**
    Over every history, however old the rows that were read, an attachment has a failure code iff it
    failed, an active one has a positive page count, at most one is active, and no two share a hash.
   */
  lemma FilesAreCoupled(h: seq<FileTable>, ms: seq<FileMove>, vs: seq<nat>, i: nat)
    requires FileHistory(h, ms, vs) && i < |h|
    ensures forall id :: id in h[i].files ==>
              var f := h[i].files[id];
              && (f.failure.Some? <==> f.state == FailedFile) && (f.pages.Some? ==> f.pages.value > 0)
              && (f.state == Active ==> f.pages.Some?)
    ensures FilesApart(h[i])
  {
    hide FileHistory, FilesApart;
    FileHistoryKeeps(h, ms, vs, i);
  }

  /** How far a file is on its one-way path; before activation it may go back and forth. */
  function Progress(s: FileState): nat {
    match s
    case Staged => 0
    case FailedFile => 0
    case Active => 1
    case Archived => 2
    case Deleting => 3
  }

  /**
    A transition judged on an earlier row takes an attachment back: activation of an archived or
    deleting one while no other is active, failure or retry of one once active, archiving of one being
    deleted.
   */
  predicate TakesBack(seen: File, t: FileTable, m: FileMove)
    requires m.id in t.files
  {
    var cur := t.files[m.id];
    match m
    case MarkActive(id, pages, _) =>
      && seen.state.Staged? && Progress(cur.state) > 1 && ActiveFree(t, id)
      && PagesOk(pages) && (pages.Some? || seen.pages.Some?)
      && ((pages.Some? && pages != seen.pages) || cur.pages.Some?)
    case MarkFailed(_, _, _) => seen.state.Staged? && Progress(cur.state) > 0
    case RetryAsStaged(_, _) => seen.state.FailedFile? && Progress(cur.state) > 0
    case MarkArchived(_, _) => seen.state.Active? && cur.state.Deleting?
    case _ => false
  }

  predicate TakesBackAt(view: FileTable, t: FileTable, m: FileMove, id: Id) {
    m.id == id && id in view.files && id in t.files && TakesBack(view.files[id], t, m)
  }

  lemma TransitionBackIff(view: FileTable, t: FileTable, m: FileMove, id: Id)
    requires m.id == id && id in view.files && id in t.files && FileChecks(view.files[id]) && FileChecks(t.files[id])
    requires !m.CreateStaged? && !m.Remove?
    ensures id in ApplyFile(view, t, m).files
    ensures Progress(ApplyFile(view, t, m).files[id].state) >= Progress(t.files[id].state)
       <==> !TakesBackAt(view, t, m, id)
  {
    hide ActiveFree;
  }

  /** One step takes an attachment back iff it is such a transition. */
  lemma NeverBackIff(view: FileTable, t: FileTable, m: FileMove, id: Id)
    requires FileInv(view) && FileInv(t) && id in t.files
    ensures var u := ApplyFile(view, t, m);
            (id in u.files ==> Progress(u.files[id].state) >= Progress(t.files[id].state))
              <==> !TakesBackAt(view, t, m, id)
  {
    hide ActiveFree, FileChecks, FilesApart;
    if m.id == id && id in view.files && !m.CreateStaged? && !m.Remove? {
      TransitionBackIff(view, t, m, id);
    }
  }

  ghost predicate TakenBackAt(h: seq<FileTable>, ms: seq<FileMove>, vs: seq<nat>, id: Id, i: nat)
    requires FileHistory(h, ms, vs) && i < |ms|
  {
    FileStepAt(h, ms, vs, i) && TakesBackAt(h[vs[i]], h[i], ms[i], id)
  }

  /** Progress only grows between two committed states. */
  ghost predicate OnlyForward(h: seq<FileTable>, id: Id, i: nat)
    requires i + 1 < |h|
  {
    id in h[i].files && id in h[i + 1].files ==> Progress(h[i].files[id].state) <= Progress(h[i + 1].files[id].state)
  }

  /** In a history an attachment only goes forward, step by step, iff no step takes it back. */
  lemma ForwardThroughoutIff(h: seq<FileTable>, ms: seq<FileMove>, vs: seq<nat>, id: Id, n: nat)
    requires FileHistory(h, ms, vs) && n < |h|
    ensures (forall i: nat :: i < n ==> OnlyForward(h, id, i))
       <==> (forall i: nat :: i < n ==> !TakenBackAt(h, ms, vs, id, i))
  {
    hide ApplyFile, TakesBackAt, FileInv;
    forall i: nat | i < n ensures OnlyForward(h, id, i) <==> !TakenBackAt(h, ms, vs, id, i) {
      assert FileStepAt(h, ms, vs, i);
      FileHistoryKeeps(h, ms, vs, i);
      FileHistoryKeeps(h, ms, vs, vs[i]);
      if id in h[i].files {
        NeverBackIff(h[vs[i]], h[i], ms[i], id);
      } else {
        NothingToTakeBack(h[vs[i]], h[i], ms[i], id);
      }
    }
  }

  lemma NothingToTakeBack(view: FileTable, t: FileTable, m: FileMove, id: Id)
    requires id !in t.files
    ensures !TakesBackAt(view, t, m, id)
  {}

  /**
    An archived attachment that is not taken back is archived or deleting later, while it exists, and
    never active again.
   */
  lemma {:induction false} ArchivedStaysArchived(
    h: seq<FileTable>, ms: seq<FileMove>, vs: seq<nat>, a: nat, b: nat, id: Id)
    requires FileHistory(h, ms, vs) && a <= b < |h| && id in h[a].files
    requires forall i: nat :: a <= i < b ==> !TakenBackAt(h, ms, vs, id, i)
    ensures id in h[b].used && (id in h[b].files ==> Progress(h[b].files[id].state) >= Progress(h[a].files[id].state))
    ensures id in h[b].files && h[a].files[id].state.Archived? ==>
              h[b].files[id].state.Archived? || h[b].files[id].state.Deleting?
    decreases b
  {
    hide ApplyFile, TakesBackAt, FileInv;
    FileHistoryKeeps(h, ms, vs, a);
    KnownFile(h[a], id);
    if a < b {
      ArchivedStaysArchived(h, ms, vs, a, b - 1, id);
      var v := vs[b - 1];
      assert FileStepAt(h, ms, vs, b - 1) && !TakenBackAt(h, ms, vs, id, b - 1);
      FileHistoryKeeps(h, ms, vs, b - 1);
      FileHistoryKeeps(h, ms, vs, v);
      FileInvKept(h[v], h[b - 1], ms[b - 1]);
      if id in h[b - 1].files {
        NeverBackIff(h[v], h[b - 1], ms[b - 1], id);
      } else {
        GoneFileStaysGone(h[v], h[b - 1], ms[b - 1], id);
      }
    }
  }

  lemma KnownFile(t: FileTable, id: Id)
    requires FileInv(t) && id in t.files
    ensures id in t.used
  {}

  lemma GoneFileStaysGone(view: FileTable, t: FileTable, m: FileMove, id: Id)
    requires id in t.used && id !in t.files
    ensures id !in ApplyFile(view, t, m).files
  {
    hide ActiveFree, FileHashFree;
  }

  /** An active or archived row leaves the table in a step iff the removal was judged on it while it was removable. */
  lemma ActiveRemovedIff(view: FileTable, t: FileTable, m: FileMove, id: Id)
    requires id in t.files && (t.files[id].state.Active? || t.files[id].state.Archived?)
    ensures id !in ApplyFile(view, t, m).files
       <==> m.Remove? && m.id == id && id in view.files && Removable(view.files[id].state)
  {
    hide ActiveFree, FileHashFree, FileChecks, FileLeft;
  }

  /** Judged on the current row, no transition takes an attachment back. */
  lemma CurrentReadsNeverTakeBack(t: FileTable, m: FileMove, id: Id)
    ensures !TakesBackAt(t, t, m, id)
  {
    hide ActiveFree;
  }

  // ----- What a move judged on the current row does -----

  /** Each move takes a run from one state to one other, and otherwise changes nothing. */
  lemma CurrentRunMovesMean(t: RunTable, id: Id, approval: Approval, code: Code, now: int)
    requires RunInv(t) && id in t.runs
    ensures var run := t.runs[id];
            && ApplyRun(t, t, Interrupt(id, approval, now))
               == (if run.state != Running then t
                   else t.(runs := t.runs[id := Run(Interrupted, Some(approval), None, run.error, now)]))
            && ApplyRun(t, t, Resume(id, now))
               == (if run.state != Interrupted then t
                   else t.(runs := t.runs[id := Run(Running, None, None, None, now)]))
            && ApplyRun(t, t, CompleteRun(id, now))
               == (if run.state != Running then t
                   else t.(runs := t.runs[id := Run(Completed, None, Some(now), None, now)]))
            && ApplyRun(t, t, FailRun(id, code, now))
               == (if run.state != Running then t
                   else t.(runs := t.runs[id := Run(Failed, None, Some(now), Some(code), now)]))
  {
    assert RunChecks(t.runs[id]);
  }

  /** New runs start running, new files staged; a run is deleted in any state, a file only if removable. */
  lemma CurrentRowsMean(t: RunTable, files: FileTable, id: Id, hash: Code, pages: Option<int>, now: int)
    ensures ApplyRun(t, t, Create(id, now))
            == if id in t.used then t
               else t.(runs := t.runs[id := Run(Running, None, None, None, now)], used := t.used + {id})
    ensures ApplyRun(t, t, DeleteRun(id)) == t.(runs := t.runs - {id})
    ensures ApplyFile(files, files, CreateStaged(id, hash, pages, now))
            == if || id in files.used || (pages.Some? && pages.value <= 0)
                  || (exists o :: o in files.files && files.files[o].hash == hash)
               then files
               else files.(files := files.files[id := File(Staged, pages, None, hash, now)], used := files.used + {id})
    ensures ApplyFile(files, files, Remove(id))
            == if && id in files.files
                  && (files.files[id].state == Staged || files.files[id].state == FailedFile
                      || files.files[id].state == Deleting)
               then files.(files := files.files - {id}) else files
  {
    assert id !in t.runs ==> t.runs - {id} == t.runs;
  }

  /** What may come next: activation or failure of a staged file, a retry, archiving of the active one, deletion. */
  predicate Precedes(from: FileState, to: FileState) {
    || (from == Staged && (to == Active || to == FailedFile)) || (from == FailedFile && to == Staged)
    || (from == Active && to == Archived)
    || (to == Deleting && (from == Staged || from == FailedFile || from == Archived))
  }

  /** A staged file becomes the active one if none is and it has pages; otherwise nothing changes. */
  lemma CurrentActivationMeans(t: FileTable, id: Id, pages: Option<int>, now: int)
    requires FileInv(t) && id in t.files
    ensures var file := t.files[id]; var shown := if pages.Some? then pages else file.pages;
            ApplyFile(t, t, MarkActive(id, pages, now))
            == if && file.state == Staged && shown.Some? && shown.value > 0
                  && (forall o :: o in t.files ==> t.files[o].state != Active)
               then t.(files := t.files[id := File(Active, shown, None, file.hash, now)]) else t
  {
    hide FilesApart;
    assert FileChecks(t.files[id]);
  }

  /** Each other move takes a file to one state, if that may come next, and otherwise changes nothing. */
  lemma CurrentFileMovesMean(t: FileTable, id: Id, code: Code, now: int)
    requires FileInv(t) && id in t.files
    ensures var file := t.files[id];
            && ApplyFile(t, t, MarkFailed(id, code, now))
               == (if file.state == Staged then
                     t.(files := t.files[id := File(FailedFile, file.pages, Some(code), file.hash, now)]) else t)
            && ApplyFile(t, t, RetryAsStaged(id, now))
               == (if file.state == FailedFile then
                     t.(files := t.files[id := File(Staged, file.pages, None, file.hash, now)]) else t)
            && ApplyFile(t, t, MarkArchived(id, now))
               == (if file.state == Active then
                     t.(files := t.files[id := File(Archived, file.pages, None, file.hash, now)]) else t)
            && ApplyFile(t, t, MarkDeleting(id, now))
               == (if file.state == Staged || file.state == FailedFile || file.state == Archived then
                     t.(files := t.files[id := File(Deleting, file.pages, None, file.hash, now)]) else t)
  {
    hide FilesApart, ActiveFree;
    assert FileChecks(t.files[id]);
  }

  // ----- The repositories -----

  datatype Refusal = NotFound | InvalidTransition | PagesRequired | Blocked

  class RunRepository {
    var runs: map<Id, Run>
    ghost var used: set<Id>

    ghost function Value(): RunTable
      reads this
    {
      RunTable(runs, used)
    }

    constructor ()
      ensures Value() == NO_RUNS
    {
      runs, used := map[], {};
    }

    /** One allowed transition, field by field. */
    method Transition(
      id: Id, to: RunState, approval: Option<Approval>, code: Option<Code>, setCompleted: bool, now: int)
      returns (r: Option<Refusal>)
      requires RunInv(Value()) && (to.Interrupted? <==> approval.Some?) && (to.Failed? <==> code.Some?)
      requires (setCompleted <==> RunTerminal(to))
      modifies this`runs
      ensures Value() == TransitionRun(old(Value()), old(Value()), id, to, approval, code, now) && RunInv(Value())
      ensures r.None?
         <==> id in old(runs) && old(runs)[id].state == (if to == Running then Interrupted else Running)
      ensures runs == if r.Some? then old(runs)
                      else old(runs)[id := Run(to, approval,
                                               if to == Completed || to == Failed then Some(now) else None,
                                               if to == Interrupted then old(runs)[id].error else code, now)]
    {
      if id !in runs {
        return Some(NotFound);
      }
      var run := runs[id];
      if !RunAllowed(run.state, to) {
        return Some(InvalidTransition);
      }
      assert RunChecks(run);
      run := run.(state := to, updatedAt := now);
      match to {
        case Interrupted => run := run.(approval := approval, completedAt := None);
        case Running => run := run.(approval := None, completedAt := None, error := None);
        case Completed => run := run.(approval := None, error := None, completedAt := Some(now));
        case Failed => run := run.(approval := None, error := code, completedAt := Some(now));
      }
      if setCompleted && run.completedAt.None? {
        run := run.(completedAt := Some(now));
      }
      if !setCompleted && to != Completed && to != Failed {
        run := run.(completedAt := None);
      }
      runs := runs[id := run];
      r := None;
    }
  }

  class FileRepository {
    var files: map<Id, File>
    ghost var used: set<Id>

    ghost function Value(): FileTable
      reads this
    {
      FileTable(files, used)
    }

    constructor ()
      ensures Value() == NO_FILES
    {
      files, used := map[], {};
    }

    method Transition(
      id: Id, to: FileState, pages: Option<int>, code: Option<Code>, now: int) returns (r: Option<Refusal>)
      requires FileInv(Value()) && (to.FailedFile? <==> code.Some?)
      modifies this`files
      ensures Value() == TransitionFile(old(Value()), old(Value()), id, to, pages, code, now) && FileInv(Value())
      ensures r == Some(NotFound) <==> id !in old(files)
      ensures r == Some(InvalidTransition) <==> id in old(files) && !Precedes(old(files)[id].state, to)
      ensures r == Some(PagesRequired)
         <==> && id in old(files) && Precedes(old(files)[id].state, to) && to == Active
              && (if pages.Some? then pages.value <= 0 else old(files)[id].pages.None?)
      ensures r == Some(Blocked) ==> to == Active && exists o :: o in files && o != id && files[o].state == Active
      ensures r.None? && to == Active ==> forall o :: o in files && o != id ==> files[o].state != Active
      ensures files == if r.Some? then old(files)
                       else old(files)[id := File(to, if to == Active && pages.Some? then pages
                                                      else old(files)[id].pages, code, old(files)[id].hash, now)]
    {
      hide FilesApart;
      TransitionFileKeeps(Value(), Value(), id, to, pages, code, now);
      if id !in files {
        return Some(NotFound);
      }
      var row := files[id];
      assert FileChecks(row);
      if !FileAllowed(row.state, to) {
        return Some(InvalidTransition);
      }
      match to {
        case Active =>
          var effective := if pages.Some? then pages else row.pages;
          if effective.None? || effective.value <= 0 {
            return Some(PagesRequired);
          }
          if exists o :: o in files && o != id && files[o].state.Active? {
            return Some(Blocked);
          }
          row := row.(pages := effective, failure := None);
        case FailedFile => row := row.(failure := code);
        case _ => row := row.(failure := None);
      }
      row := row.(state := to, updatedAt := now);
      files := files[id := row];
      r := None;
    }

    /** A row already being deleted is returned as it is. */
    method MarkDeletingRow(id: Id, now: int) returns (r: Option<Refusal>)
      requires FileInv(Value())
      modifies this`files
      ensures Value() == ApplyFile(old(Value()), old(Value()), MarkDeleting(id, now)) && FileInv(Value())
      ensures r.None? <==> id in old(files) && !old(files)[id].state.Active?
      ensures files == if r.Some? || old(files)[id].state == Deleting then old(files)
                       else old(files)[id := File(Deleting, old(files)[id].pages, None, old(files)[id].hash, now)]
    {
      if id in files && files[id].state == Deleting {
        return None;
      }
      r := Transition(id, Deleting, None, None, now);
    }

    method DeleteRow(id: Id) returns (r: Option<Refusal>)
      modifies this`files
      ensures Value() == ApplyFile(old(Value()), old(Value()), Remove(id))
      ensures files == if r.None? then old(files) - {id} else old(files)
      ensures r == Some(NotFound) <==> id !in old(files)
      ensures r == Some(Blocked)
         <==> id in old(files) && (old(files)[id].state == Active || old(files)[id].state == Archived)
      ensures r == None || r == Some(NotFound) || r == Some(Blocked)
    {
      if id !in files {
        return Some(NotFound);
      }
      if files[id].state == Active || files[id].state == Archived {
        return Some(Blocked);
      }
      files := files - {id};
      r := None;
    }
  }
}
