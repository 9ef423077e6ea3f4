/**
  The five-node tailoring graph with its one shared repair: node functions, routers and runs. The
  selector, the loader, the two rewrites and the guard are arbitrary; any of them may fail.
 */
module TailoringGraph {
  import opened Common

  datatype Patch = Patch(content: string)
  datatype Issue = Issue(code: string, path: string)

  datatype Node = Select | Load | Rewrite | Ground | Repair | End

  /** `outline` holds the section ids of the outline, some of which may be missing. */
  datatype State = State(
    node: Node, outline: seq<Option<Id>>, requested: seq<Id>, selected: seq<Id>,
    patch: Option<Patch>, repairs: nat, issues: seq<Issue>, failed: bool)

  /** The guard's answer: a guarded patch, a refusal with or without issues, or an exception. */
  datatype Verdict = Accepted(guarded: Patch) | Rejected(issues: seq<Issue>) | Raised

  /** One node step with what the outside world answered; `None` is an exception. */
  datatype Move =
    | Choose(selection: Option<seq<Id>>)
    | LoadContext(ok: bool)
    | WritePatch(patch: Option<Patch>)
    | Check(verdict: Verdict)
    | RepairPatch(patch: Option<Patch>)

  const SCHEMA_ISSUE := Issue("SCHEMA_VALIDATION_FAILED", "patch")

  function Initial(outline: seq<Option<Id>>, requested: seq<Id>): State {
    State(Select, outline, requested, [], None, 0, [], false)
  }

  // ----- Nodes -----

  predicate AllIn(ids: seq<Id>, outline: seq<Option<Id>>) {
    forall i :: 0 <= i < |ids| ==> Some(ids[i]) in outline
  }

  function SelectSections(s: State, selection: Option<seq<Id>>): State {
    if s.requested == [] && selection.None? then s.(failed := true)
    else
      var selected := if s.requested != [] then s.requested else selection.value;
      if !AllIn(selected, s.outline) then s.(failed := true)
      else s.(selected := selected)
  }

  function LoadSections(s: State, ok: bool): State {
    if ok then s else s.(failed := true)
  }

  function RewriteSections(s: State, patch: Option<Patch>): State {
    s.(patch := patch, issues := if patch.None? then [SCHEMA_ISSUE] else [])
  }

  function GroundPatch(s: State, verdict: Verdict): State {
    if s.patch.None? then (if s.repairs > 0 then s.(failed := true) else s)
    else if verdict.Accepted? then s.(patch := Some(verdict.guarded), issues := [], failed := false)
    else
      var found := if verdict.Rejected? && verdict.issues != [] then verdict.issues else [SCHEMA_ISSUE];
      s.(issues := found, failed := s.failed || s.repairs > 0)
  }

  function RepairOnce(s: State, patch: Option<Patch>): State {
    s.(patch := patch, repairs := 1, issues := if patch.None? then [SCHEMA_ISSUE] else [])
  }

  // ----- Routers and runs -----

  function ContinueOrEnd(s: State, next: Node): State {
    s.(node := if s.failed then End else next)
  }

  function AfterGround(s: State): State {
    s.(node := if s.failed || s.issues == [] then End else Repair)
  }

  /** The selector only answers with distinct ids, at least one and at most twenty. */
  predicate ValidSelection(selection: Option<seq<Id>>) {
    selection.None? || (1 <= |selection.value| <= 20 && |set id | id in selection.value| == |selection.value|)
  }

  predicate Enabled(s: State, m: Move) {
    match m
    case Choose(selection) => s.node.Select? && ValidSelection(selection)
    case LoadContext(_) => s.node.Load?
    case WritePatch(_) => s.node.Rewrite?
    case Check(_) => s.node.Ground?
    case RepairPatch(_) => s.node.Repair?
  }

  function Step(s: State, m: Move): State
    requires Enabled(s, m)
  {
    match m
    case Choose(selection) => ContinueOrEnd(SelectSections(s, selection), Load)
    case LoadContext(ok) => ContinueOrEnd(LoadSections(s, ok), Rewrite)
    case WritePatch(patch) => RewriteSections(s, patch).(node := Ground)
    case Check(verdict) => AfterGround(GroundPatch(s, verdict))
    case RepairPatch(patch) => RepairOnce(s, patch).(node := Ground)
  }

  function After(start: State, moves: seq<Move>): Option<State> {
    if moves == [] then Some(start)
    else
      match After(start, moves[..|moves| - 1])
      case None => None
      case Some(s) => if Enabled(s, moves[|moves| - 1]) then Some(Step(s, moves[|moves| - 1])) else None
  }

  /** Calls of the rewriting model in a run. */
  function Rewrites(moves: seq<Move>): nat {
    if moves == [] then 0
    else
      var last := moves[|moves| - 1];
      Rewrites(moves[..|moves| - 1]) + if last.WritePatch? || last.RepairPatch? then 1 else 0
  }

  // ----- What every run keeps -----

  /** The steps made when a node is reached. */
  predicate Reached(s: State, n: nat, rewrites: nat) {
    match s.node
    case Select => n == 0 && rewrites == 0
    case Load => n == 1 && rewrites == 0
    case Rewrite => n == 2 && rewrites == 0
    case Ground => (n == 3 && rewrites == 1 && s.repairs == 0) || (n == 5 && rewrites == 2 && s.repairs == 1)
    case Repair => n == 4 && rewrites == 1 && s.repairs == 0
    case End => n <= 6 && rewrites <= 2
  }

  predicate Kept(s: State, n: nat, rewrites: nat) {
    && Reached(s, n, rewrites)
    && (s.node.Select? || s.node.Load? || s.node.Rewrite? ==> s.repairs == 0)
    && (s.node.Ground? && s.patch.None? ==> s.issues != [])
    && (s.node.Repair? ==> s.issues != [])
    && (!s.node.End? ==> !s.failed)
    && AllIn(s.selected, s.outline)
    && (!s.node.Select? && !s.node.End? ==> s.selected != [] && (s.requested != [] ==> s.selected == s.requested))
  }

  lemma KeptByStep(s: State, m: Move, n: nat, rewrites: nat)
    requires Kept(s, n, rewrites) && Enabled(s, m)
    ensures Kept(Step(s, m), n + 1, rewrites + if m.WritePatch? || m.RepairPatch? then 1 else 0)
    ensures Step(s, m).outline == s.outline && Step(s, m).requested == s.requested
  {}

  lemma {:induction false} KeptHolds(outline: seq<Option<Id>>, requested: seq<Id>, moves: seq<Move>)
    requires After(Initial(outline, requested), moves).Some?
    ensures var s := After(Initial(outline, requested), moves).value;
            Kept(s, |moves|, Rewrites(moves)) && s.outline == outline && s.requested == requested
  {
    hide Step, Enabled, Kept;
    if moves == [] {
      KeptInitially(outline, requested);
    } else {
      var front := moves[..|moves| - 1];
      KeptHolds(outline, requested, front);
      KeptByStep(After(Initial(outline, requested), front).value, moves[|moves| - 1], |front|, Rewrites(front));
    }
  }

  lemma KeptInitially(outline: seq<Option<Id>>, requested: seq<Id>)
    ensures Kept(Initial(outline, requested), 0, 0)
  {}

  /**
    Every run has at most six node steps and two rewriting calls, works only on sections of the outline,
    and reaches the guard without a patch only with an issue.
   */
  lemma RunsAreBounded(outline: seq<Option<Id>>, requested: seq<Id>, moves: seq<Move>)
    requires After(Initial(outline, requested), moves).Some?
    ensures var s := After(Initial(outline, requested), moves).value;
            && |moves| <= 6 && Rewrites(moves) <= 2
            && AllIn(s.selected, outline)
            && (|moves| >= 1 && !s.node.End? ==> s.selected != [] && (requested != [] ==> s.selected == requested))
            && (s.node.Ground? && s.patch.None? ==> s.issues != [])
  {
    hide After, Rewrites;
    KeptHolds(outline, requested, moves);
  }

  /** A finished run has no error iff its last step was the guard accepting a patch, which is then the run's patch. */
  lemma NoErrorIffAccepted(outline: seq<Option<Id>>, requested: seq<Id>, moves: seq<Move>)
    requires After(Initial(outline, requested), moves).Some?
    requires After(Initial(outline, requested), moves).value.node.End?
    ensures moves != []
    ensures var s, last := After(Initial(outline, requested), moves).value, moves[|moves| - 1];
            !s.failed <==> last.Check? && last.verdict.Accepted? && s.patch == Some(last.verdict.guarded)
                           && After(Initial(outline, requested), moves[..|moves| - 1]).value.patch.Some?
  {
    hide Rewrites, AllIn, SelectSections;
    var front := moves[..|moves| - 1];
    KeptHolds(outline, requested, front);
    SelectKeepsPatch(After(Initial(outline, requested), front).value);
  }

  lemma SelectKeepsPatch(s: State)
    ensures forall x :: SelectSections(s, x).patch == s.patch && SelectSections(s, x).node == s.node
  {}

  // ----- What every run is -----

  /** The requested ids, or else the selector's, are all in the outline. */
  predicate SelectionHolds(outline: seq<Option<Id>>, requested: seq<Id>, selection: Option<seq<Id>>) {
    if requested != [] then forall i :: 0 <= i < |requested| ==> Some(requested[i]) in outline
    else selection.Some? && forall i :: 0 <= i < |selection.value| ==> Some(selection.value[i]) in outline
  }

  predicate Passes(patch: Option<Patch>, verdict: Verdict) {
    patch.Some? && verdict.Accepted?
  }

  /** What a refusal reports: the guard's issues, or the one that stands for a missing patch or none. */
  function Reported(patch: Option<Patch>, verdict: Verdict): seq<Issue> {
    if patch.Some? && verdict.Rejected? && verdict.issues != [] then verdict.issues
    else [Issue("SCHEMA_VALIDATION_FAILED", "patch")]
  }

  /** The guard is reached with this patch, after this many repairs. */
  predicate AtGuard(s: State, patch: Option<Patch>, repairs: nat) {
    s.node.Ground? && s.patch == patch && s.repairs == repairs && !s.failed
    && s.issues == if patch.None? then [Issue("SCHEMA_VALIDATION_FAILED", "patch")] else []
  }

  predicate Finished(s: State, failed: bool, patch: Option<Patch>, issues: seq<Issue>) {
    s.node.End? && s.failed == failed && s.patch == patch && s.issues == issues
  }

  /** The guard ends the run on an accepted patch, and on a refused one after the repair; a first one is repaired. */
  lemma GuardDecides(s: State, patch: Option<Patch>, repairs: nat, verdict: Verdict)
    requires AtGuard(s, patch, repairs)
    ensures var t := Step(s, Check(verdict));
            if Passes(patch, verdict) then Finished(t, false, Some(verdict.guarded), [])
            else if repairs == 0 then
              t.node.Repair? && !t.failed && t.patch == patch && t.repairs == 0 && t.issues == Reported(patch, verdict)
            else Finished(t, true, patch, Reported(patch, verdict))
  {}

  /** The first part of a run: selection, loading and the first rewrite. */
  predicate Opens(outline: seq<Option<Id>>, requested: seq<Id>, moves: seq<Move>, s: State) {
    && (|moves| >= 1 ==> moves[0].Choose?) && (|moves| >= 2 ==> moves[1].LoadContext?)
    && (|moves| >= 3 ==> moves[2].WritePatch?)
    && match |moves|
       case 0 => s == Initial(outline, requested)
       case 1 =>
         if SelectionHolds(outline, requested, moves[0].selection) then
           s.node.Load? && s.repairs == 0 && s.patch.None? && s.issues == [] && !s.failed
           && s.selected == if requested != [] then requested else moves[0].selection.value
         else Finished(s, true, None, [])
       case 2 =>
         if moves[1].ok then s.node.Rewrite? && s.repairs == 0 && s.issues == [] && !s.failed
         else Finished(s, true, None, [])
       case _ => AtGuard(s, moves[2].patch, 0)
  }

  lemma {:induction false} RunOpens(outline: seq<Option<Id>>, requested: seq<Id>, moves: seq<Move>)
    requires After(Initial(outline, requested), moves).Some? && |moves| <= 3
    ensures Opens(outline, requested, moves, After(Initial(outline, requested), moves).value)
    ensures |moves| >= 2 ==> SelectionHolds(outline, requested, moves[0].selection)
    ensures |moves| >= 3 ==> moves[1].ok
    decreases |moves|
  {
    if moves != [] {
      var front := moves[..|moves| - 1];
      RunOpens(outline, requested, front);
      if |moves| == 1 {
        KeptHolds(outline, requested, front);
      }
    }
  }

  /** The second part: the guard, and after a refusal the repair and the guard again. */
  predicate Closes(moves: seq<Move>, s: State)
    requires |moves| >= 4 && moves[2].WritePatch?
  {
    && moves[3].Check? && (|moves| >= 5 ==> moves[4].RepairPatch?) && (|moves| >= 6 ==> moves[5].Check?)
    && var patch, verdict := moves[2].patch, moves[3].verdict;
       if Passes(patch, verdict) then |moves| == 4 && Finished(s, false, Some(verdict.guarded), [])
       else if |moves| == 4 then
         s.node.Repair? && !s.failed && s.patch == patch && s.repairs == 0 && s.issues == Reported(patch, verdict)
       else if |moves| == 5 then AtGuard(s, moves[4].patch, 1)
       else |moves| == 6
            && var again, answer := moves[4].patch, moves[5].verdict;
               if Passes(again, answer) then Finished(s, false, Some(answer.guarded), [])
               else Finished(s, true, again, Reported(again, answer))
  }

  lemma {:induction false} RunCloses(outline: seq<Option<Id>>, requested: seq<Id>, moves: seq<Move>)
    requires After(Initial(outline, requested), moves).Some? && |moves| >= 4
    ensures moves[0].Choose? && SelectionHolds(outline, requested, moves[0].selection)
    ensures moves[1].LoadContext? && moves[1].ok
    ensures moves[2].WritePatch? && Closes(moves, After(Initial(outline, requested), moves).value)
    decreases |moves|
  {
    var front, m := moves[..|moves| - 1], moves[|moves| - 1];
    var s := After(Initial(outline, requested), front).value;
    if |moves| == 4 {
      RunOpens(outline, requested, front);
      GuardDecides(s, moves[2].patch, 0, m.verdict);
    } else {
      RunCloses(outline, requested, front);
      if |moves| == 6 {
        GuardDecides(s, moves[4].patch, 1, m.verdict);
      }
    }
  }

  predicate IsFinishedRun(outline: seq<Option<Id>>, requested: seq<Id>, moves: seq<Move>, s: State) {
    && moves != [] && moves[0].Choose?
    && if !SelectionHolds(outline, requested, moves[0].selection) then |moves| == 1 && Finished(s, true, None, [])
       else
         |moves| >= 2 && moves[1].LoadContext?
         && if !moves[1].ok then |moves| == 2 && Finished(s, true, None, [])
            else |moves| >= 4 && moves[2].WritePatch? && Closes(moves, s)
  }

  /**
    Every finished run is one of four: it failed to select, it failed to load, its first patch was
    accepted, or its first patch was refused, repaired exactly once and judged again.
   */
  lemma FinishedRunIs(outline: seq<Option<Id>>, requested: seq<Id>, moves: seq<Move>)
    requires After(Initial(outline, requested), moves).Some?
    requires After(Initial(outline, requested), moves).value.node.End?
    ensures IsFinishedRun(outline, requested, moves, After(Initial(outline, requested), moves).value)
  {
    hide After, SelectionHolds, Closes;
    if |moves| <= 3 {
      RunOpens(outline, requested, moves);
    } else {
      RunCloses(outline, requested, moves);
    }
  }

  predicate Repairs(moves: seq<Move>) {
    exists i :: 0 <= i < |moves| && moves[i].RepairPatch?
  }

  /**
    A finished run is repaired iff its first patch was refused; it has the error without a repair iff
    its selection or its loading failed.
   */
  lemma RepairedIffRefused(outline: seq<Option<Id>>, requested: seq<Id>, moves: seq<Move>)
    requires After(Initial(outline, requested), moves).Some?
    requires After(Initial(outline, requested), moves).value.node.End?
    ensures moves != [] && moves[0].Choose?
    ensures SelectionHolds(outline, requested, moves[0].selection) ==> |moves| >= 2 && moves[1].LoadContext?
    ensures var s := After(Initial(outline, requested), moves).value;
            s.failed && !Repairs(moves) <==>
              !SelectionHolds(outline, requested, moves[0].selection) || !moves[1].ok
    ensures Repairs(moves) <==>
              |moves| >= 4 && moves[2].WritePatch? && moves[3].Check? && !Passes(moves[2].patch, moves[3].verdict)
  {
    FinishedRunIs(outline, requested, moves);
    hide After;
    RunIsRepaired(outline, requested, moves, After(Initial(outline, requested), moves).value);
  }

  lemma RunIsRepaired(outline: seq<Option<Id>>, requested: seq<Id>, moves: seq<Move>, s: State)
    requires IsFinishedRun(outline, requested, moves, s) && s.node.End?
    ensures s.failed && !Repairs(moves) <==> !SelectionHolds(outline, requested, moves[0].selection) || !moves[1].ok
    ensures Repairs(moves) <==>
              |moves| >= 4 && moves[2].WritePatch? && moves[3].Check? && !Passes(moves[2].patch, moves[3].verdict)
  {
    hide SelectionHolds, Passes, Reported;
    if |moves| >= 5 {
      assert moves[4].RepairPatch?;
    } else {
      assert !Repairs(moves);
    }
  }
}
