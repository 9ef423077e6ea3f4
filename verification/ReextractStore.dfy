/** The repository functions over the profile tables, changing the rows in place inside one transaction. */
module ReextractStore {
  import opened Common
  import opened Reextract

  datatype ClaimError = ReviewIsPending(operation: Id) | AlreadyInProgress(operation: Id) | Integrity

  datatype DraftError =
    | OwnerCannotChange | SourceCannotChange | ProfileNotFound | SourceRequired
    | OperationNotFound | OperationOfOtherProfile | SourceMismatch | Constraint

  class Store {
    var profiles: map<Id, int>
    var workspace: Option<Workspace>
    var drafts: map<Id, Draft>
    var ops: map<Id, Op>
    ghost var issued: map<Id, (Id, Id)>
    ghost var drafted: map<Id, Option<(Id, Id)>>

    ghost function Value(): Db
      reads this
    {
      Db(profiles, workspace, drafts, ops, issued, drafted)
    }

    constructor ()
      ensures Value() == EMPTY
    {
      profiles, workspace, drafts, ops, issued, drafted := map[], None, map[], map[], map[], map[];
    }

    predicate Owned(op: Id)
      reads this
    {
      exists d :: d in drafts && drafts[d].op == Some(op)
    }

    /** Deletes the terminal rows no draft owns; the count is the statement's row count. */
    method DeleteTerminalWithoutDraft(profile: Id) returns (count: nat)
      modifies this`ops
      ensures Value() == WithoutLeftovers(old(Value()), profile)
      ensures count == |old(ops)| - |ops|
    {
      var kept := map o | o in ops && !(ops[o].profile == profile && Terminal(ops[o].state) && !Owned(o)) :: ops[o];
      var gone := ops.Keys - kept.Keys;
      assert ops.Keys == kept.Keys + gone;
      assert |ops| == |ops.Keys| && |kept| == |kept.Keys|;
      count := |gone|;
      ops := kept;
    }

    /**
      Refuses while a review is pending or an operation is actionable; otherwise sweeps and inserts,
      and undoes the sweep when the insert violates a constraint.
     */
    method ClaimOperation(
      profile: Id, source: Id, baseProfile: int, baseWorkspace: int, id: Id) returns (r: Result<Id, ClaimError>)
      requires Inv(Value()) && id !in issued
      modifies this
      ensures Value() == Claim(Current(old(Value())), old(Value()), id,
                               NewOp(profile, source, baseProfile, baseWorkspace))
      ensures Inv(Value())
      ensures r.Ok?
         <==> ClaimSucceeds(Current(old(Value())), old(Value()), NewOp(profile, source, baseProfile, baseWorkspace))
      ensures r.Ok? ==> r.value == id && OnlyOp(Value(), profile, id)
      ensures r.Ok? ==>
                && ops[id] == Op(profile, source, baseProfile, baseWorkspace, Running, None)
                && KeepsOthers(old(Value()), Value(), profile, id)
      ensures r.Err? ==> Value() == old(Value())
      ensures r.Err? && r.error.ReviewIsPending? ==>
                r.error.operation in ops && ops[r.error.operation].profile == profile
                  && OwnedByDraft(Value(), r.error.operation)
      ensures r.Err? && r.error.AlreadyInProgress? ==> IsActionable(Value(), profile, r.error.operation)
      ensures r.Err? && r.error.Integrity? ==> profile !in profiles
    {
      hide Inv, OneActionable, DraftsApart, Recorded, DraftsRecorded, CodesCoupled, Leftover, KeepsOthers;
      ghost var before := Value();
      var op := NewOp(profile, source, baseProfile, baseWorkspace);
      ClaimKeeps(Current(before), before, id, op);
      InvOwned(before);
      if exists d :: d in drafts && drafts[d].target == profile && drafts[d].op.Some? && drafts[d].op.value in ops {
        var d :| d in drafts && drafts[d].target == profile && drafts[d].op.Some? && drafts[d].op.value in ops;
        assert OwnerMatches(before, drafts[d]);
        return Err(ReviewIsPending(drafts[d].op.value));
      }
      assert !ReviewPending(before, profile);
      if exists o :: o in ops && ops[o].profile == profile && !Terminal(ops[o].state) {
        var o :| o in ops && ops[o].profile == profile && !Terminal(ops[o].state);
        assert IsActionable(before, profile, o);
        return Err(AlreadyInProgress(o));
      }
      assert !InProgress(before, profile);
      var saved := ops;
      var _ := DeleteTerminalWithoutDraft(profile);
      if profile !in profiles {
        ops := saved;
        return Err(Integrity);
      }
      FreshClaim(before, id, op);
      ClaimKeepsOthers(before, id, op);
      ops := ops[id := op];
      issued := issued[id := (profile, source)];
      return Ok(id);
    }

    method TransitionRunning(profile: Id, id: Id, to: OpState, code: Option<string>) returns (moved: bool)
      requires !to.Running? && (Terminal(to) <==> code.Some?)
      modifies this`ops
      ensures Value() == Transition(old(Value()), profile, id, to, code)
      ensures moved <==> id in old(ops) && old(ops)[id].profile == profile && old(ops)[id].state == Running
      ensures moved ==> ops[id].state == to && ops[id].code == code
      ensures ops == if moved then old(ops)[id := old(ops)[id].(state := to, code := code)] else old(ops)
    {
      moved := id in ops && ops[id].profile == profile && ops[id].state == Running;
      if moved {
        ops := ops[id := ops[id].(state := to, code := code)];
      }
    }

    method ReconcileReviewReady(profile: Id, id: Id) returns (r: Option<Op>)
      requires Inv(Value())
      modifies this`ops
      ensures Value() == Reconcile(Current(old(Value())), old(Value()), profile, id) && Inv(Value())
      ensures r == if id in ops && ops[id].profile == profile then Some(ops[id]) else None
      ensures ops == old(ops)
              || (id in old(ops) && old(ops)[id].state == ReviewReady
                  && ops == old(ops)[id := old(ops)[id].(state := Stale, code := Some("PROFILE_REEXTRACT_STALE"))])
      ensures HasDraft(Value(), profile, id) && id in old(ops) && BasesUnmoved(Value(), profile, old(ops)[id]) ==>
                ops == old(ops)
      ensures r.Some? && r.value.state.ReviewReady? ==>
                HasDraft(Value(), profile, id) && BasesUnmoved(Value(), profile, r.value)
    {
      hide Inv;
      ghost var before := Value();
      ReconcileKeeps(Current(before), before, profile, id);
      if id !in ops || ops[id].profile != profile {
        return None;
      }
      if ops[id].state != ReviewReady {
        return Some(ops[id]);
      }
      var op := ops[id];
      var hasDraft := exists d :: d in drafts && drafts[d].target == profile && drafts[d].op == Some(id);
      var unmoved := profile in profiles && profiles[profile] == op.baseProfile && workspace.Some?
                     && workspace.value.active == Some(profile) && workspace.value.updatedAt == op.baseWorkspace;
      if !hasDraft || !unmoved {
        ops := ops[id := op.(state := Stale, code := Some(STALE_CODE))];
      }
      r := Some(ops[id]);
    }

    method UpsertDraft(
      profile: Id, source: Option<Id>, owner: Option<Id>, body: string, now: int, id: Id)
      returns (r: Result<Id, DraftError>)
      requires Inv(Value()) && id !in drafted && id !in drafts
      modifies this
      ensures Inv(Value()) && profiles == old(profiles) && ops == old(ops) && workspace == old(workspace)
      ensures r.Err? ==> Value() == old(Value())
      ensures r.Ok? ==>
                && r.value in drafts && drafts[r.value].target == profile && drafts[r.value].op == owner
                && drafts[r.value].body == body && drafts[r.value].source == source
                && drafts[r.value].updatedAt == now
                && drafts == old(drafts)[r.value := drafts[r.value]]
                && (r.value in old(drafts) || r.value == id)
      ensures r.Ok? && owner.Some? ==>
                owner.value in ops && ops[owner.value].profile == profile && Some(ops[owner.value].source) == source
      ensures (exists row :: RowOf(old(Value()), profile, row)) && r.Err? ==>
                !r.error.ProfileNotFound? && !r.error.OperationNotFound?
    {
      hide Inv, CanStoreDraft;
      ghost var before := Value();
      LaterItself(before);
      InvOwned(before);
      if exists row :: row in drafts && drafts[row].target == profile {
        var row :| row in drafts && drafts[row].target == profile;
        var d := drafts[row];
        if d.op != owner {
          return Err(OwnerCannotChange);
        }
        if d.op.Some? && d.source != source {
          return Err(SourceCannotChange);
        }
        UpdateDraftKeeps(before, before, row, source, owner, body, now);
        var changed := d.(source := source, body := body, updatedAt := now);
        if !CanStoreDraft(Db(profiles, workspace, drafts, ops, map[], map[]), row, changed) {
          return Err(Constraint);
        }
        SameConstraint(before, row, changed);
        if owner.Some? {
          assert OwnerMatches(before, d);
        }
        drafts := drafts[row := changed];
        return Ok(row);
      }
      assert !exists row :: RowOf(before, profile, row);
      if profile !in profiles {
        return Err(ProfileNotFound);
      }
      if owner.Some? {
        if source.None? {
          return Err(SourceRequired);
        }
        if owner.value !in ops {
          return Err(OperationNotFound);
        }
        if ops[owner.value].profile != profile {
          return Err(OperationOfOtherProfile);
        }
        if Some(ops[owner.value].source) != source {
          return Err(SourceMismatch);
        }
      }
      InsertDraftKeeps(Current(before), before, id, profile, source, owner, body, now);
      var d := Draft(source, profile, owner, body, now);
      if !CanStoreDraft(Db(profiles, workspace, drafts, ops, map[], map[]), id, d) {
        return Err(Constraint);
      }
      SameConstraint(before, id, d);
      drafts := drafts[id := d];
      drafted := drafted[id := OwnerKey(d)];
      return Ok(id);
    }

    method DeleteDraftForProfile(profile: Id, revision: Option<int>, owner: Option<Id>) returns (deleted: bool)
      requires Inv(Value())
      modifies this`drafts
      ensures Inv(Value())
      ensures deleted <==> exists row :: RowOf(old(Value()), profile, row)
                             && (revision.Some? ==> old(drafts)[row].updatedAt == revision.value)
                             && (owner.Some? ==> old(drafts)[row].op == owner)
      ensures deleted ==> (forall row :: !RowOf(Value(), profile, row))
                          && forall d :: d in old(drafts) && old(drafts)[d].target != profile ==>
                               d in drafts && drafts[d] == old(drafts)[d]
      ensures !deleted ==> drafts == old(drafts)
    {
      hide OneActionable, Recorded, DraftsRecorded, CodesCoupled;
      ghost var before := Value();
      if !(exists row :: row in drafts && drafts[row].target == profile) {
        return false;
      }
      var row :| row in drafts && drafts[row].target == profile;
      assert RowOf(before, profile, row);
      assert forall e :: RowOf(before, profile, e) ==> e == row;
      if (revision.Some? && drafts[row].updatedAt != revision.value) || (owner.Some? && drafts[row].op != owner) {
        return false;
      }
      DeletesKeep(Current(before), before, DoDeleteDraft(row, None, None));
      drafts := drafts - {row};
      deleted := true;
    }

    method DeleteOperation(profile: Id, id: Id, expected: Option<OpState>) returns (r: Result<bool, DraftError>)
      requires Inv(Value())
      modifies this`ops
      ensures Value() == DeleteOp(old(Value()), profile, id, expected) && Inv(Value())
      ensures r == Ok(true) <==> id in old(ops) && id !in ops
      ensures ops == if r == Ok(true) then old(ops) - {id} else old(ops)
      ensures r == Ok(false)
         <==> id !in old(ops) || old(ops)[id].profile != profile
              || (expected.Some? && old(ops)[id].state != expected.value)
      ensures r.Err?
         <==> id in ops && ops[id].profile == profile && (expected.Some? ==> ops[id].state == expected.value)
              && OwnedByDraft(Value(), id)
    {
      hide Inv;
      ghost var before := Value();
      DeletesKeep(Current(before), before, DoDeleteOp(profile, id, expected));
      if id !in ops || ops[id].profile != profile || (expected.Some? && ops[id].state != expected.value) {
        return Ok(false);
      }
      if Owned(id) {
        return Err(Constraint);
      }
      ops := ops - {id};
      return Ok(true);
    }
  }

  /** Apart from the row of `id`, only operations of the profile are gone, and nothing else has changed. */
  ghost predicate KeepsOthers(db: Db, t: Db, profile: Id, id: Id) {
    && t.profiles == db.profiles && t.workspace == db.workspace && t.drafts == db.drafts
    && (forall o :: o in t.ops && o != id ==> o in db.ops && t.ops[o] == db.ops[o])
    && (forall o :: o in db.ops && o != id && o !in t.ops ==> db.ops[o].profile == profile && Terminal(db.ops[o].state))
  }

  lemma ClaimKeepsOthers(db: Db, id: Id, op: Op)
    requires ClaimSucceeds(Current(db), db, op)
    ensures KeepsOthers(db, Claim(Current(db), db, id, op), op.profile, id)
    ensures Claim(Current(db), db, id, op).ops[id] == op
  {
    hide InProgress, ReviewPending, OwnedByDraft;
  }

  lemma SameConstraint(db: Db, id: Id, d: Draft)
    ensures CanStoreDraft(db, id, d)
            == CanStoreDraft(Db(db.profiles, db.workspace, db.drafts, db.ops, map[], map[]), id, d)
  {}
}
