/**
  Profile re-extraction operations and the drafts they own, as committed table states. SQLite has one
  writer at a time, so a transaction's writes land as one block; each read it made before its
  first write may come from another earlier committed state, its `Views`.
 */
module Reextract {
  import opened Common

  datatype OpState = Running | ReviewReady | Interrupted | Failed | Stale

  predicate Terminal(s: OpState) {
    s.Interrupted? || s.Failed? || s.Stale?
  }

  datatype Op = Op(profile: Id, source: Id, baseProfile: int, baseWorkspace: int, state: OpState, code: Option<string>)

  datatype Draft = Draft(source: Option<Id>, target: Id, op: Option<Id>, body: string, updatedAt: int)

  datatype Workspace = Workspace(active: Option<Id>, updatedAt: int)

  /**
    `profiles` maps a profile to its `updated_at`. `issued` records profile and source of every
    operation id ever made, `drafted` the owner and source of every draft id ever made.
   */
  datatype Db = Db(
    profiles: map<Id, int>, workspace: Option<Workspace>, drafts: map<Id, Draft>, ops: map<Id, Op>,
    issued: map<Id, (Id, Id)>, drafted: map<Id, Option<(Id, Id)>>)

  /** The committed states a transaction's reads came from, in the order of the reads. */
  datatype Views = Views(first: Db, second: Db, third: Db, fourth: Db)

  /** A transaction that reads the state it writes to, as an immediate one does. */
  function Current(db: Db): Views {
    Views(db, db, db, db)
  }

  /** What never changes about a draft row: its owner and, if it has one, its source. */
  function OwnerKey(d: Draft): Option<(Id, Id)> {
    if d.op.Some? && d.source.Some? then Some((d.op.value, d.source.value)) else None
  }

  const STALE_CODE := "PROFILE_REEXTRACT_STALE"

  // ----- Reads -----

  predicate OwnedByDraft(db: Db, op: Id) {
    exists d :: d in db.drafts && db.drafts[d].op == Some(op)
  }

  predicate ReviewPending(db: Db, profile: Id) {
    exists d :: d in db.drafts && db.drafts[d].target == profile && db.drafts[d].op.Some?
      && db.drafts[d].op.value in db.ops
  }

  predicate IsActionable(db: Db, profile: Id, op: Id) {
    op in db.ops && db.ops[op].profile == profile && !Terminal(db.ops[op].state)
  }

  predicate InProgress(db: Db, profile: Id) {
    exists o :: o in db.ops && IsActionable(db, profile, o)
  }

  predicate HasDraft(db: Db, profile: Id, op: Id) {
    exists d :: d in db.drafts && db.drafts[d].target == profile && db.drafts[d].op == Some(op)
  }

  // ----- Statements -----

  /** Terminal rows of the profile that no draft owns. */
  predicate Leftover(db: Db, profile: Id, o: Id) {
    o in db.ops && db.ops[o].profile == profile && Terminal(db.ops[o].state) && !OwnedByDraft(db, o)
  }

  function WithoutLeftovers(db: Db, profile: Id): Db {
    db.(ops := map o | o in db.ops && !Leftover(db, profile, o) :: db.ops[o])
  }

  /** The partial unique index and the foreign key of an operation row. */
  predicate CanInsertOp(db: Db, op: Op) {
    op.profile in db.profiles && (Terminal(op.state) || !InProgress(db, op.profile))
  }

  function InsertOp(db: Db, id: Id, op: Op): Db {
    db.(ops := db.ops[id := op], issued := db.issued[id := (op.profile, op.source)])
  }

  /** The writes of a claim; a violated constraint rolls the deletion back as well. */
  function ClaimWrites(db: Db, id: Id, op: Op): Db {
    var swept := WithoutLeftovers(db, op.profile);
    if CanInsertOp(swept, op) then InsertOp(swept, id, op) else db
  }

  function NewOp(profile: Id, source: Id, baseProfile: int, baseWorkspace: int): Op {
    Op(profile, source, baseProfile, baseWorkspace, Running, None)
  }

  function Claim(v: Views, db: Db, id: Id, op: Op): Db {
    if ReviewPending(v.first, op.profile) || InProgress(v.second, op.profile) then db else ClaimWrites(db, id, op)
  }

  predicate ClaimSucceeds(v: Views, db: Db, op: Op) {
    !ReviewPending(v.first, op.profile) && !InProgress(v.second, op.profile)
      && CanInsertOp(WithoutLeftovers(db, op.profile), op)
  }

  function MoveOp(db: Db, profile: Id, op: Id, from: OpState, to: OpState, code: Option<string>): Db {
    if op in db.ops && db.ops[op].profile == profile && db.ops[op].state == from then
      db.(ops := db.ops[op := db.ops[op].(state := to, code := code)])
    else db
  }

  /** Only a terminal target carries an error code. */
  function Transition(db: Db, profile: Id, op: Id, to: OpState, code: Option<string>): Db {
    if to.Running? || (Terminal(to) <==> code.None?) then db else MoveOp(db, profile, op, Running, to, code)
  }

  predicate ProfileUnmoved(db: Db, profile: Id, op: Op) {
    profile in db.profiles && db.profiles[profile] == op.baseProfile
  }

  predicate WorkspaceUnmoved(db: Db, profile: Id, op: Op) {
    db.workspace.Some? && db.workspace.value.active == Some(profile) && db.workspace.value.updatedAt == op.baseWorkspace
  }

  predicate BasesUnmoved(db: Db, profile: Id, op: Op) {
    ProfileUnmoved(db, profile, op) && WorkspaceUnmoved(db, profile, op)
  }

  /** A review-ready row of this profile was read, and its draft, profile or workspace not as it wants them. */
  predicate JudgedStale(v: Views, profile: Id, op: Id) {
    && op in v.first.ops && v.first.ops[op].profile == profile && v.first.ops[op].state.ReviewReady?
    && !(HasDraft(v.second, profile, op) && ProfileUnmoved(v.third, profile, v.first.ops[op])
         && WorkspaceUnmoved(v.fourth, profile, v.first.ops[op]))
  }

  function Reconcile(v: Views, db: Db, profile: Id, op: Id): Db {
    if JudgedStale(v, profile, op) then MoveOp(db, profile, op, ReviewReady, Stale, Some(STALE_CODE)) else db
  }

  /** Unique target, owner and source; the owner and the profile exist; an owned draft has a source. */
  predicate CanStoreDraft(db: Db, id: Id, d: Draft) {
    && d.target in db.profiles
    && (d.op.Some? ==> d.op.value in db.ops && d.source.Some?)
    && forall e :: e in db.drafts && e != id ==>
         db.drafts[e].target != d.target && (d.op.Some? ==> db.drafts[e].op != d.op)
           && (d.source.Some? ==> db.drafts[e].source != d.source)
  }

  predicate RowOf(db: Db, profile: Id, row: Id) {
    row in db.drafts && db.drafts[row].target == profile
  }

  /** Checks on the row that was read, then an update of its changed columns, if it is still there. */
  function UpdateDraft(view: Db, db: Db, row: Id, source: Option<Id>, op: Option<Id>, body: string, now: int): Db
    requires row in view.drafts
  {
    var seen := view.drafts[row];
    if seen.op != op || (seen.op.Some? && seen.source != source) || row !in db.drafts then db
    else
      var kept := if seen.source == source then db.drafts[row].source else source;
      var d := db.drafts[row].(source := kept, body := body, updatedAt := now);
      if CanStoreDraft(db, row, d) then db.(drafts := db.drafts[row := d]) else db
  }

  /** Checks on the profile and operation that were read, then an insert under the table's constraints. */
  function InsertDraft(
    v: Views, db: Db, id: Id, profile: Id, source: Option<Id>, op: Option<Id>, body: string, now: int): Db {
    var d := Draft(source, profile, op, body, now);
    if profile !in v.first.profiles then db
    else if op.Some? && (source.None? || !SourceMatches(v.second, profile, source.value, op.value)) then db
    else if id !in db.drafts && CanStoreDraft(db, id, d) then
      db.(drafts := db.drafts[id := d], drafted := db.drafted[id := OwnerKey(d)])
    else db
  }

  predicate SourceMatches(db: Db, profile: Id, source: Id, op: Id) {
    op in db.ops && db.ops[op].profile == profile && db.ops[op].source == source
  }

  /** `delete_operation`: the foreign key refuses while a draft refers to the row. */
  function DeleteOp(db: Db, profile: Id, op: Id, expected: Option<OpState>): Db {
    if op in db.ops && db.ops[op].profile == profile && (expected.Some? ==> db.ops[op].state == expected.value)
      && !OwnedByDraft(db, op) then
      db.(ops := db.ops - {op})
    else db
  }

  function DeleteDraft(view: Db, db: Db, row: Id, revision: Option<int>, owner: Option<Id>): Db {
    if row !in view.drafts || (revision.Some? && view.drafts[row].updatedAt != revision.value)
      || (owner.Some? && view.drafts[row].op != owner)
    then db
    else db.(drafts := db.drafts - {row})
  }

  function DropProfile(db: Db, profile: Id): Db {
    Db(db.profiles - {profile},
       match db.workspace
         case Some(w) => Some(if w.active == Some(profile) then w.(active := None) else w)
         case None => None,
       map d | d in db.drafts && db.drafts[d].target != profile :: db.drafts[d],
       map o | o in db.ops && db.ops[o].profile != profile :: db.ops[o],
       db.issued, db.drafted)
  }

  // ----- Histories -----

  datatype Move =
    | DoClaim(id: Id, op: Op)
    | DoTransition(profile: Id, opId: Id, to: OpState, code: Option<string>)
    | DoReconcile(profile: Id, opId: Id)
    | DoUpdateDraft(row: Id, source: Option<Id>, owner: Option<Id>, body: string, now: int)
    | DoInsertDraft(id: Id, profile: Id, source: Option<Id>, owner: Option<Id>, body: string, now: int)
    | DoDeleteDraft(row: Id, revision: Option<int>, owner: Option<Id>)
    | DoDeleteOp(profile: Id, opId: Id, expected: Option<OpState>)
    | DoSweep(profile: Id)
    | DoSetProfile(profile: Id, updatedAt: int)
    | DoSetWorkspace(workspace: Workspace)
    | DoDropProfile(profile: Id)

  function Apply(v: Views, db: Db, m: Move): Db {
    match m
    case DoClaim(id, op) => Claim(v, db, id, op)
    case DoTransition(profile, op, to, code) => Transition(db, profile, op, to, code)
    case DoReconcile(profile, op) => Reconcile(v, db, profile, op)
    case DoUpdateDraft(row, source, owner, body, now) =>
      if row in v.first.drafts then UpdateDraft(v.first, db, row, source, owner, body, now) else db
    case DoInsertDraft(id, profile, source, owner, body, now) =>
      InsertDraft(v, db, id, profile, source, owner, body, now)
    case DoDeleteDraft(row, revision, owner) => DeleteDraft(v.first, db, row, revision, owner)
    case DoDeleteOp(profile, op, expected) => DeleteOp(db, profile, op, expected)
    case DoSweep(profile) => WithoutLeftovers(db, profile)
    case DoSetProfile(profile, updatedAt) => db.(profiles := db.profiles[profile := updatedAt])
    case DoSetWorkspace(workspace) => db.(workspace := Some(workspace))
    case DoDropProfile(profile) => DropProfile(db, profile)
  }

  const EMPTY := Db(map[], None, map[], map[], map[], map[])

  /** `new_uuid` returns an id no row ever had; a claimed row starts running. */
  predicate IdIsNew(db: Db, m: Move) {
    match m
    case DoClaim(id, op) => id !in db.issued && op.state.Running? && op.code.None?
    case DoInsertDraft(id, _, _, _, _, _) => id !in db.drafted
    case _ => true
  }

  /** Every committed state follows from the one before, with each read from any state up to it. */
  ghost predicate History(h: seq<Db>) {
    h != [] && h[0] == EMPTY && forall i :: 0 <= i < |h| - 1 ==> FollowsAt(h, i)
  }

  ghost predicate FollowsAt(h: seq<Db>, i: nat)
    requires i + 1 < |h|
  {
    exists v, m :: ViewsUpTo(h, i, v) && IdIsNew(h[i], m) && h[i + 1] == Apply(v, h[i], m)
  }

  ghost predicate ViewsUpTo(h: seq<Db>, i: nat, v: Views)
    requires i < |h|
  {
    v.first in h[..i + 1] && v.second in h[..i + 1] && v.third in h[..i + 1] && v.fourth in h[..i + 1]
  }

  // ----- The invariant -----

  ghost predicate OneActionable(db: Db) {
    forall a, b :: a in db.ops && b in db.ops && a != b && !Terminal(db.ops[a].state) && !Terminal(db.ops[b].state) ==>
      db.ops[a].profile != db.ops[b].profile
  }

  /** An owned draft points to an existing operation of its own profile and source. */
  ghost predicate DraftsOwned(db: Db) {
    forall d :: d in db.drafts && db.drafts[d].op.Some? ==> OwnerMatches(db, db.drafts[d])
  }

  predicate OwnerMatches(db: Db, d: Draft)
    requires d.op.Some?
  {
    d.op.value in db.ops && db.ops[d.op.value].profile == d.target && Some(db.ops[d.op.value].source) == d.source
  }

  ghost predicate Recorded(db: Db) {
    forall o :: o in db.ops ==> o in db.issued && db.issued[o] == (db.ops[o].profile, db.ops[o].source)
  }

  ghost predicate DraftsRecorded(db: Db) {
    forall d :: d in db.drafts ==> d in db.drafted && db.drafted[d] == OwnerKey(db.drafts[d])
  }

  ghost predicate DraftsApart(db: Db) {
    forall d, e :: d in db.drafts && e in db.drafts && d != e ==>
      db.drafts[d].target != db.drafts[e].target && (db.drafts[d].op.Some? ==> db.drafts[d].op != db.drafts[e].op)
  }

  ghost predicate CodesCoupled(db: Db) {
    forall o :: o in db.ops ==> (Terminal(db.ops[o].state) <==> db.ops[o].code.Some?)
  }

  ghost predicate Inv(db: Db) {
    OneActionable(db) && DraftsOwned(db) && Recorded(db) && DraftsRecorded(db) && DraftsApart(db) && CodesCoupled(db)
  }

  /** Ids made before the view keep their record. */
  ghost predicate Later(view: Db, db: Db) {
    && (forall o :: o in view.issued ==> o in db.issued && db.issued[o] == view.issued[o])
    && (forall d :: d in view.drafted ==> d in db.drafted && db.drafted[d] == view.drafted[d])
  }

  // ----- Every statement keeps the invariant -----

  lemma SweepKeeps(db: Db, profile: Id)
    requires Inv(db)
    ensures Inv(WithoutLeftovers(db, profile))
    ensures forall d :: d in db.drafts && db.drafts[d].op.Some? ==>
              db.drafts[d].op.value in WithoutLeftovers(db, profile).ops
  {}

  lemma InsertOpKeeps(db: Db, id: Id, op: Op)
    requires Inv(db) && CanInsertOp(db, op) && id !in db.issued && op.state.Running? && op.code.None?
    ensures Inv(InsertOp(db, id, op))
  {
    assert id !in db.ops;
    assert forall o :: o in db.ops && db.ops[o].profile == op.profile && !Terminal(db.ops[o].state) ==>
             IsActionable(db, op.profile, o);
    forall d | d in db.drafts && db.drafts[d].op.Some? ensures OwnerMatches(InsertOp(db, id, op), db.drafts[d]) {
      assert OwnerMatches(db, db.drafts[d]);
    }
  }

  lemma ClaimKeeps(v: Views, db: Db, id: Id, op: Op)
    requires Inv(db) && id !in db.issued && op.state.Running? && op.code.None?
    ensures Inv(Claim(v, db, id, op)) && Later(db, Claim(v, db, id, op))
  {
    hide Inv, CanInsertOp, ReviewPending, InProgress;
    SweepKeeps(db, op.profile);
    if CanInsertOp(WithoutLeftovers(db, op.profile), op) {
      InsertOpKeeps(WithoutLeftovers(db, op.profile), id, op);
    }
  }

  lemma MoveOpKeeps(db: Db, profile: Id, op: Id, from: OpState, to: OpState, code: Option<string>)
    requires Inv(db) && !Terminal(from) && !to.Running? && (Terminal(to) <==> code.Some?)
    ensures Inv(MoveOp(db, profile, op, from, to, code))
  {
    var t := MoveOp(db, profile, op, from, to, code);
    forall d | d in t.drafts && t.drafts[d].op.Some? ensures OwnerMatches(t, t.drafts[d]) {
      assert OwnerMatches(db, db.drafts[d]);
    }
  }

  lemma StoreDraftKeeps(db: Db, id: Id, d: Draft, drafted: map<Id, Option<(Id, Id)>>)
    requires Inv(db) && CanStoreDraft(db, id, d) && (d.op.Some? ==> OwnerMatches(db, d))
    requires id in drafted && drafted[id] == OwnerKey(d)
    requires forall e :: e in db.drafted && e != id ==> e in drafted && drafted[e] == db.drafted[e]
    ensures Inv(db.(drafts := db.drafts[id := d], drafted := drafted))
  {
    var t := db.(drafts := db.drafts[id := d], drafted := drafted);
    forall e | e in t.drafts && t.drafts[e].op.Some? ensures OwnerMatches(t, t.drafts[e]) {
      if e != id {
        assert OwnerMatches(db, db.drafts[e]);
      }
    }
  }

  lemma UpdateDraftKeeps(view: Db, db: Db, row: Id, source: Option<Id>, op: Option<Id>, body: string, now: int)
    requires Inv(view) && Inv(db) && Later(view, db) && row in view.drafts
    ensures Inv(UpdateDraft(view, db, row, source, op, body, now))
  {
    hide CanStoreDraft, OneActionable, Recorded, DraftsApart, CodesCoupled;
    if UpdateDraft(view, db, row, source, op, body, now) != db {
      var seen, cur := view.drafts[row], db.drafts[row];
      if cur.op.Some? {
        assert OwnerMatches(db, cur);
      }
      if seen.op.Some? {
        assert OwnerMatches(view, seen);
      }
      assert OwnerKey(seen) == OwnerKey(cur);
      var kept := if seen.source == source then cur.source else source;
      var d := cur.(source := kept, body := body, updatedAt := now);
      StoreDraftKeeps(db, row, d, db.drafted);
      assert UpdateDraft(view, db, row, source, op, body, now)
             == db.(drafts := db.drafts[row := d], drafted := db.drafted);
    }
  }

  lemma InsertDraftKeeps(
    v: Views, db: Db, id: Id, profile: Id, source: Option<Id>, op: Option<Id>, body: string, now: int)
    requires Inv(v.second) && Inv(db) && Later(v.second, db) && id !in db.drafted
    ensures Inv(InsertDraft(v, db, id, profile, source, op, body, now))
    ensures Later(db, InsertDraft(v, db, id, profile, source, op, body, now))
  {
    hide OneActionable, DraftsApart, CodesCoupled;
    if InsertDraft(v, db, id, profile, source, op, body, now) != db {
      var d := Draft(source, profile, op, body, now);
      StoreDraftKeeps(db, id, d, db.drafted[id := OwnerKey(d)]);
    }
  }

  lemma ShrinkKeeps(db: Db, t: Db)
    requires Inv(db) && t.issued == db.issued && t.drafted == db.drafted
    requires forall o :: o in t.ops ==> o in db.ops && t.ops[o] == db.ops[o]
    requires forall d :: d in t.drafts ==>
               d in db.drafts && t.drafts[d] == db.drafts[d] && (t.drafts[d].op.Some? ==> t.drafts[d].op.value in t.ops)
    ensures Inv(t)
  {
    forall d | d in t.drafts && t.drafts[d].op.Some? ensures OwnerMatches(t, t.drafts[d]) {
      assert OwnerMatches(db, db.drafts[d]);
    }
  }

  lemma InvOwned(db: Db)
    requires Inv(db)
    ensures DraftsOwned(db) && Recorded(db)
  {}

  lemma DeletesKeep(v: Views, db: Db, m: Move)
    requires Inv(db) && (m.DoDeleteOp? || m.DoDeleteDraft? || m.DoDropProfile?)
    ensures Inv(Apply(v, db, m))
  {
    hide Inv;
    InvOwned(db);
    forall d | d in db.drafts && db.drafts[d].op.Some?
      ensures OwnerMatches(db, db.drafts[d]) && OwnedByDraft(db, db.drafts[d].op.value)
    {}
    ShrinkKeeps(db, Apply(v, db, m));
  }

  lemma ApplyKeeps(v: Views, db: Db, m: Move)
    requires Inv(v.first) && Later(v.first, db) && Inv(v.second) && Later(v.second, db) && Inv(db) && IdIsNew(db, m)
    ensures Inv(Apply(v, db, m)) && Later(db, Apply(v, db, m))
  {
    hide Inv, Claim, UpdateDraft, InsertDraft, MoveOp, WithoutLeftovers, Reconcile;
    match m
    case DoClaim(id, op) => ClaimKeeps(v, db, id, op);
    case DoTransition(profile, op, to, code) => TransitionKeeps(db, profile, op, to, code);
    case DoReconcile(profile, op) => ReconcileKeeps(v, db, profile, op);
    case DoUpdateDraft(row, source, owner, body, now) =>
      if row in v.first.drafts {
        UpdateDraftKeeps(v.first, db, row, source, owner, body, now);
        UpdateKeepsRecords(v.first, db, row, source, owner, body, now);
      }
    case DoInsertDraft(id, profile, source, owner, body, now) =>
      InsertDraftKeeps(v, db, id, profile, source, owner, body, now);
    case DoSweep(profile) => SweepKeeps(db, profile); SweepKeepsRecords(db, profile);
    case DoSetProfile(profile, updatedAt) => UntouchedKeeps(db, Apply(v, db, m));
    case DoSetWorkspace(workspace) => UntouchedKeeps(db, Apply(v, db, m));
    case _ => DeletesKeep(v, db, m);
  }

  lemma UntouchedKeeps(db: Db, t: Db)
    requires Inv(db) && t == db.(profiles := t.profiles, workspace := t.workspace)
    ensures Inv(t)
  {}

  lemma TransitionKeeps(db: Db, profile: Id, op: Id, to: OpState, code: Option<string>)
    requires Inv(db)
    ensures Inv(Transition(db, profile, op, to, code)) && Later(db, Transition(db, profile, op, to, code))
  {
    hide Inv;
    if !to.Running? && (Terminal(to) <==> code.Some?) {
      MoveOpKeeps(db, profile, op, Running, to, code);
    }
  }

  lemma ReconcileKeeps(v: Views, db: Db, profile: Id, op: Id)
    requires Inv(db)
    ensures Inv(Reconcile(v, db, profile, op)) && Later(db, Reconcile(v, db, profile, op))
  {
    hide Inv, JudgedStale;
    MoveOpKeeps(db, profile, op, ReviewReady, Stale, Some(STALE_CODE));
  }

  lemma UpdateKeepsRecords(view: Db, db: Db, row: Id, source: Option<Id>, op: Option<Id>, body: string, now: int)
    requires row in view.drafts
    ensures Later(db, UpdateDraft(view, db, row, source, op, body, now))
  {}

  lemma SweepKeepsRecords(db: Db, profile: Id)
    ensures Later(db, WithoutLeftovers(db, profile))
  {}

  // ----- Over whole histories -----

  lemma {:induction false} HistoryKeeps(h: seq<Db>, i: nat, j: nat)
    requires History(h) && i <= j < |h|
    ensures Inv(h[j]) && Later(h[i], h[j])
    decreases j, i
  {
    hide Inv, Later, Apply;
    if j == 0 {
      EmptyKeeps();
    } else {
      assert FollowsAt(h, j - 1);
      var v, m :| ViewsUpTo(h, j - 1, v) && IdIsNew(h[j - 1], m) && h[j] == Apply(v, h[j - 1], m);
      var a :| 0 <= a <= j - 1 && h[a] == v.first;
      var b :| 0 <= b <= j - 1 && h[b] == v.second;
      HistoryKeeps(h, a, j - 1);
      HistoryKeeps(h, a, a);
      HistoryKeeps(h, b, j - 1);
      HistoryKeeps(h, b, b);
      ApplyKeeps(v, h[j - 1], m);
      if i < j {
        HistoryKeeps(h, i, j - 1);
        LaterChains(h[i], h[j - 1], h[j]);
      } else {
        LaterItself(h[j]);
      }
    }
  }

  lemma EmptyKeeps()
    ensures Inv(EMPTY) && Later(EMPTY, EMPTY)
  {}

  lemma LaterItself(a: Db)
    ensures Later(a, a)
  {}

  lemma LaterChains(a: Db, b: Db, c: Db)
    requires Later(a, b) && Later(b, c)
    ensures Later(a, c)
  {}

  /**
    Over every interleaving of committed transactions, whatever earlier state each one read: a profile
    has at most one running or review-ready operation, every operation-owned draft points to an
    existing operation with its profile and source, no two drafts share a profile or an owner, and an
    operation has an error code iff it is terminal.
   */
  lemma EveryCommittedState(h: seq<Db>, i: nat)
    requires History(h) && i < |h|
    ensures OneActionable(h[i]) && DraftsOwned(h[i]) && DraftsApart(h[i]) && CodesCoupled(h[i])
  {
    HistoryKeeps(h, i, i);
  }

  // ----- Claims -----

  ghost predicate OnlyOp(db: Db, profile: Id, id: Id) {
    id in db.ops && db.ops[id].profile == profile && forall o :: o in db.ops && db.ops[o].profile == profile ==> o == id
  }

  /**
    A successful claim leaves exactly its own row for the profile iff, when it wrote, no draft owned a
    row of the profile.
   */
  lemma ClaimLeavesOneIff(v: Views, db: Db, id: Id, op: Op)
    requires Inv(db) && id !in db.issued && op.state.Running? && ClaimSucceeds(v, db, op)
    ensures OnlyOp(Claim(v, db, id, op), op.profile, id)
       <==> forall o :: o in db.ops && OwnedByDraft(db, o) ==> db.ops[o].profile != op.profile
  {
    hide DraftsOwned, DraftsApart, DraftsRecorded, CodesCoupled, OneActionable, ReviewPending;
    var t := Claim(v, db, id, op);
    SweptOfProfile(db, op.profile);
    assert forall o :: o in t.ops <==> o == id || o in WithoutLeftovers(db, op.profile).ops;
    if exists o :: o in db.ops && OwnedByDraft(db, o) && db.ops[o].profile == op.profile {
      var o :| o in db.ops && OwnedByDraft(db, o) && db.ops[o].profile == op.profile;
      assert o in t.ops && t.ops[o].profile == op.profile;
    }
  }

  /** When nothing of the profile is in progress, the sweep leaves exactly the rows a draft owns. */
  lemma SweptOfProfile(db: Db, profile: Id)
    requires !InProgress(WithoutLeftovers(db, profile), profile)
    ensures forall o :: o in WithoutLeftovers(db, profile).ops && db.ops[o].profile == profile <==>
              o in db.ops && db.ops[o].profile == profile && OwnedByDraft(db, o)
  {
    hide OwnedByDraft;
    var swept := WithoutLeftovers(db, profile);
    assert forall o :: o in swept.ops && swept.ops[o].profile == profile ==>
             IsActionable(swept, profile, o) || Terminal(swept.ops[o].state);
  }

  /**
    A claim that reads the state it writes to (it runs in an immediate transaction) answers a pending
    review if a draft owns an operation of the profile, else an operation in progress if one is
    actionable; otherwise it succeeds and leaves exactly one row for the profile.
   */
  lemma FreshClaim(db: Db, id: Id, op: Op)
    requires Inv(db) && id !in db.issued && op.state.Running? && op.profile in db.profiles
    ensures ClaimSucceeds(Current(db), db, op) <==> !ReviewPending(db, op.profile) && !InProgress(db, op.profile)
    ensures if ClaimSucceeds(Current(db), db, op) then OnlyOp(Claim(Current(db), db, id, op), op.profile, id)
            else Claim(Current(db), db, id, op) == db
  {
    if !ReviewPending(db, op.profile) && !InProgress(db, op.profile) {
      assert forall o :: IsActionable(WithoutLeftovers(db, op.profile), op.profile, o) ==>
               IsActionable(db, op.profile, o);
      assert ClaimSucceeds(Current(db), db, op);
      forall o | o in db.ops && OwnedByDraft(db, o) ensures db.ops[o].profile != op.profile {
        var d :| d in db.drafts && db.drafts[d].op == Some(o);
        assert OwnerMatches(db, db.drafts[d]);
      }
      ClaimLeavesOneIff(Current(db), db, id, op);
    }
  }

  const P := Id("p")
  const A := Id("a")
  const O1 := Id("o1")
  const O2 := Id("o2")
  const D := Id("d")
  const RUN := NewOp(P, A, 0, 0)

  /** A profile; a rival's claim, its draft, its review and its going stale for want of a workspace. */
  const BEFORE := EMPTY.(profiles := map[P := 0])
  const CLAIMED := BEFORE.(ops := map[O1 := RUN], issued := map[O1 := (P, A)])
  const DRAFTED := CLAIMED.(drafts := map[D := Draft(Some(A), P, Some(O1), "", 0)], drafted := map[D := Some((O1, A))])
  const REVIEWED := DRAFTED.(ops := map[O1 := RUN.(state := ReviewReady)])
  const STALE := DRAFTED.(ops := map[O1 := RUN.(state := Stale, code := Some(STALE_CODE))])

  /** A history in which a claim that read before the rival's run lands after it. */
  function Race(): seq<Db> {
    [EMPTY, BEFORE, CLAIMED, DRAFTED, REVIEWED, STALE, Claim(Current(BEFORE), STALE, O2, RUN)]
  }

  function RaceMoves(): seq<Move> {
    [DoSetProfile(P, 0), DoClaim(O1, RUN), DoInsertDraft(D, P, Some(A), Some(O1), "", 0),
     DoTransition(P, O1, ReviewReady, None), DoReconcile(P, O1), DoClaim(O2, RUN)]
  }

  /** A claim whose reads come from before a rival's run can leave two rows for one profile. */
  lemma StaleClaimLeavesTwo()
    ensures var h := Race();
            && History(h) && h[6] == Claim(Current(h[1]), h[5], O2, RUN)
            && ClaimSucceeds(Current(h[1]), h[5], RUN) && !OnlyOp(h[6], P, O2)
  {
    hide Apply, Claim, ClaimSucceeds, OnlyOp;
    var h := Race();
    StaleOutcome();
    forall i | 0 <= i < |h| - 1 ensures FollowsAt(h, i) {
      var seen := if i == 5 then 1 else i;
      RaceStep(i);
      assert h[..i + 1][seen] == h[seen];
      assert ViewsUpTo(h, i, Current(h[seen]));
    }
  }

  lemma RaceStep(i: nat)
    requires i < 6
    ensures var h, m := Race(), RaceMoves()[i];
            IdIsNew(h[i], m) && h[i + 1] == Apply(Current(h[if i == 5 then 1 else i]), h[i], m)
  {
    hide Claim, InsertDraft, Reconcile, Transition;
    ClaimedStep();
    DraftedStep();
    ReviewedStep();
    StaleStep();
    assert O1 != O2;
  }

  lemma ClaimedStep()
    ensures CLAIMED == Claim(Current(BEFORE), BEFORE, O1, RUN)
  {
    assert WithoutLeftovers(BEFORE, P) == BEFORE;
  }

  lemma DraftedStep()
    ensures DRAFTED == InsertDraft(Current(CLAIMED), CLAIMED, D, P, Some(A), Some(O1), "", 0)
  {}

  lemma ReviewedStep()
    ensures REVIEWED == Transition(DRAFTED, P, O1, ReviewReady, None)
  {}

  lemma StaleStep()
    ensures STALE == Reconcile(Current(REVIEWED), REVIEWED, P, O1)
  {}

  lemma StaleOutcome()
    ensures ClaimSucceeds(Current(BEFORE), STALE, RUN) && !OnlyOp(Claim(Current(BEFORE), STALE, O2, RUN), P, O2)
  {
    assert OwnedByDraft(STALE, O1) by { assert STALE.drafts[D].op == Some(O1); }
    assert WithoutLeftovers(STALE, P) == STALE;
    assert O1 != O2;
    assert O1 in Claim(Current(BEFORE), STALE, O2, RUN).ops;
  }

  // ----- Deletion and reconciliation -----

  /**
    Whatever its reads saw, reconciling a review-ready row leaves it, or makes it stale, as the draft,
    profile and workspace of the state it writes to demand, iff what it read judges the same as they do.
   */
  lemma ReviewReadyAfterReconcile(v: Views, db: Db, profile: Id, op: Id)
    requires op in db.ops && db.ops[op].profile == profile && db.ops[op].state.ReviewReady?
    ensures var t := Reconcile(v, db, profile, op);
            && op in t.ops && t.ops[op].(state := db.ops[op].state, code := db.ops[op].code) == db.ops[op]
            && ((t.ops[op].state.ReviewReady? <==> HasDraft(t, profile, op) && BasesUnmoved(t, profile, t.ops[op]))
                <==> (JudgedStale(v, profile, op) <==> JudgedStale(Current(db), profile, op)))
            && (t.ops[op].state.ReviewReady? || (t.ops[op].state.Stale? && t.ops[op].code == Some(STALE_CODE)))
  {
    var t := Reconcile(v, db, profile, op);
    assert t.drafts == db.drafts;
  }

  /** Running before review-ready before terminal. */
  function Rank(s: OpState): nat {
    if s.Running? then 0 else if s.ReviewReady? then 1 else 2
  }

  /** The same operation later: same owner, source and bases, and never an earlier stage; a terminal row is final. */
  ghost predicate OpAdvances(a: Op, b: Op) {
    && b.(state := a.state, code := a.code) == a
    && Rank(a.state) <= Rank(b.state)
    && (Terminal(a.state) ==> a == b)
  }

  ghost predicate OpsAdvance(a: Db, b: Db) {
    forall o :: o in a.ops && o in b.ops ==> OpAdvances(a.ops[o], b.ops[o])
  }

  lemma ApplyAdvances(v: Views, db: Db, m: Move)
    requires Recorded(db) && IdIsNew(db, m)
    ensures OpsAdvance(db, Apply(v, db, m))
    ensures forall o :: o in Apply(v, db, m).ops && o !in db.ops ==> o !in db.issued
  {
    hide CanStoreDraft, HasDraft, BasesUnmoved, OwnedByDraft, ReviewPending, InProgress, OwnerKey;
  }

  /** An operation row seen in two committed states has only advanced between them. */
  lemma {:induction false} OperationsAdvance(h: seq<Db>, i: nat, j: nat)
    requires History(h) && i <= j < |h|
    ensures OpsAdvance(h[i], h[j])
    ensures forall o :: o in h[i].issued && o in h[j].ops ==> forall k :: i <= k <= j ==> o in h[k].ops
    decreases j
  {
    hide Inv, Apply, OpAdvances;
    if i < j {
      assert FollowsAt(h, j - 1);
      var v, m :| ViewsUpTo(h, j - 1, v) && IdIsNew(h[j - 1], m) && h[j] == Apply(v, h[j - 1], m);
      OperationsAdvance(h, i, j - 1);
      HistoryKeeps(h, i, j - 1);
      HistoryKeeps(h, i, i);
      InvOwned(h[i]);
      InvOwned(h[j - 1]);
      ApplyAdvances(v, h[j - 1], m);
      AdvancesChain(h[i], h[j - 1], h[j]);
    } else {
      AdvancesItself(h[i]);
    }
  }

  lemma AdvancesItself(a: Db)
    ensures OpsAdvance(a, a)
  {}

  lemma AdvancesChain(a: Db, b: Db, c: Db)
    requires OpsAdvance(a, b) && OpsAdvance(b, c) && forall o :: o in a.ops && o in c.ops ==> o in b.ops
    ensures OpsAdvance(a, c)
  {}
}
