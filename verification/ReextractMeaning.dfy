/** What each transaction on the profile tables changes, column by column, whatever states its reads came from. */
module ReextractMeaning {
  import opened Common
  import opened Reextract

  predicate Unfinished(o: Op) {
    o.state == Running || o.state == ReviewReady
  }

  predicate Owns(drafts: map<Id, Draft>, op: Id) {
    exists d :: d in drafts && drafts[d].op == Some(op)
  }

  /** The rows a sweep of the profile leaves. */
  predicate Survives(db: Db, profile: Id, o: Id) {
    o in db.ops && (db.ops[o].profile != profile || Unfinished(db.ops[o]) || Owns(db.drafts, o))
  }

  /** A sweep deletes exactly the finished rows of the profile that no draft owns. */
  lemma SweepMeans(db: Db, profile: Id)
    ensures WithoutLeftovers(db, profile) == db.(ops := map o | o in db.ops && Survives(db, profile, o) :: db.ops[o])
  {
    assert forall o :: o in db.ops ==> (OwnedByDraft(db, o) <==> Owns(db.drafts, o));
  }

  /**
    A claim refuses on a draft whose operation exists, on an unfinished operation, and on the table's
    constraints; else it stores its row and leaves of the profile's others what a sweep leaves.
   */
  lemma ClaimMeans(v: Views, db: Db, id: Id, op: Op)
    requires op.state == Running
    ensures var t := Claim(v, db, id, op);
            if || (exists d ::
                     && d in v.first.drafts && v.first.drafts[d].target == op.profile && v.first.drafts[d].op.Some?
                     && v.first.drafts[d].op.value in v.first.ops)
               || (exists o ::
                     o in v.second.ops && v.second.ops[o].profile == op.profile && Unfinished(v.second.ops[o]))
               || (exists o :: o in db.ops && db.ops[o].profile == op.profile && Unfinished(db.ops[o]))
               || op.profile !in db.profiles
            then t == db
            else t == db.(ops := (map o | o in db.ops && Survives(db, op.profile, o) :: db.ops[o])[id := op],
                          issued := db.issued[id := (op.profile, op.source)])
  {
    SweepMeans(db, op.profile);
    UnfinishedOf(v.second, op.profile);
    UnfinishedOf(db, op.profile);
    SweptUnfinished(db, op.profile);
    hide Survives, WithoutLeftovers;
  }

  lemma UnfinishedOf(db: Db, profile: Id)
    ensures InProgress(db, profile)
       <==> exists o :: o in db.ops && db.ops[o].profile == profile && Unfinished(db.ops[o])
  {
    assert forall o :: IsActionable(db, profile, o)
                  <==> o in db.ops && db.ops[o].profile == profile && Unfinished(db.ops[o]);
  }

  lemma SweptUnfinished(db: Db, profile: Id)
    ensures InProgress(WithoutLeftovers(db, profile), profile) <==> InProgress(db, profile)
  {
    var swept := WithoutLeftovers(db, profile);
    assert forall o :: IsActionable(swept, profile, o) <==> IsActionable(db, profile, o);
  }

  /** What a reconciliation read keeps the operation ready for review. */
  predicate StillReviewable(v: Views, profile: Id, id: Id, op: Op) {
    && (exists d :: d in v.second.drafts && v.second.drafts[d].target == profile && v.second.drafts[d].op == Some(id))
    && profile in v.third.profiles && v.third.profiles[profile] == op.baseProfile
    && v.fourth.workspace.Some? && v.fourth.workspace.value.active == Some(profile)
    && v.fourth.workspace.value.updatedAt == op.baseWorkspace
  }

  /** Exactly a row read and still stored as ready for review, and not reviewable any more, goes stale. */
  lemma ReconcileMeans(v: Views, db: Db, profile: Id, id: Id)
    ensures var t := Reconcile(v, db, profile, id);
            if && id in v.first.ops && v.first.ops[id].profile == profile && v.first.ops[id].state == ReviewReady
               && !StillReviewable(v, profile, id, v.first.ops[id])
               && id in db.ops && db.ops[id].profile == profile && db.ops[id].state == ReviewReady
            then t == db.(ops := db.ops[id := db.ops[id].(state := Stale, code := Some("PROFILE_REEXTRACT_STALE"))])
            else t == db
  {}

  /** No other draft has the target, the owner or the source of this one. */
  predicate IsAlone(db: Db, id: Id, d: Draft) {
    forall e :: e in db.drafts && e != id ==>
      && db.drafts[e].target != d.target && (d.op.Some? ==> db.drafts[e].op != d.op)
      && (d.source.Some? ==> db.drafts[e].source != d.source)
  }

  /** A draft is stored for an existing profile, alone, and owned only by a read operation of its own source. */
  lemma InsertDraftMeans(
      v: Views, db: Db, id: Id, profile: Id, source: Option<Id>, owner: Option<Id>, body: string, now: int)
    requires id !in db.drafts
    ensures var t := InsertDraft(v, db, id, profile, source, owner, body, now);
            var d := Draft(source, profile, owner, body, now);
            if && profile in v.first.profiles && profile in db.profiles && IsAlone(db, id, d)
               && (owner.Some? ==>
                     && source.Some? && owner.value in v.second.ops && v.second.ops[owner.value].profile == profile
                     && v.second.ops[owner.value].source == source.value && owner.value in db.ops)
            then t.drafts == db.drafts[id := d] && t == db.(drafts := t.drafts, drafted := t.drafted)
            else t == db
  {}

  /** An update keeps target and owner; what it read decides whether it may, and whether the source is written. */
  lemma UpdateDraftMeans(
      view: Db, db: Db, row: Id, source: Option<Id>, owner: Option<Id>, body: string, now: int)
    requires row in view.drafts && row in db.drafts
    ensures var t, seen, was := UpdateDraft(view, db, row, source, owner, body, now), view.drafts[row], db.drafts[row];
            var d := Draft(if seen.source == source then was.source else source, was.target, was.op, body, now);
            if && seen.op == owner && (owner.Some? ==> seen.source == source)
               && d.target in db.profiles && (d.op.Some? ==> d.op.value in db.ops && d.source.Some?)
               && IsAlone(db, row, d)
            then t == db.(drafts := db.drafts[row := d])
            else t == db
  {}

  /** What the deletions take: one row each, under their conditions, or everything of a profile. */
  lemma DeletionsMean(
      view: Db, db: Db, profile: Id, id: Id, expected: Option<OpState>, revision: Option<int>, owner: Option<Id>)
    ensures DeleteOp(db, profile, id, expected)
            == if && id in db.ops && db.ops[id].profile == profile
                  && (expected == None || expected == Some(db.ops[id].state)) && !Owns(db.drafts, id)
               then db.(ops := db.ops - {id}) else db
    ensures DeleteDraft(view, db, id, revision, owner)
            == if && id in view.drafts && (revision == None || revision == Some(view.drafts[id].updatedAt))
                  && (owner == None || owner == view.drafts[id].op)
               then db.(drafts := db.drafts - {id}) else db
  {
    assert OwnedByDraft(db, id) <==> Owns(db.drafts, id);
  }

  /** Dropping a profile takes its drafts and operations, unsets it as active, and leaves all else. */
  lemma DropProfileMeans(db: Db, profile: Id)
    ensures var t := DropProfile(db, profile);
            && (forall p :: p in t.profiles <==> p in db.profiles && p != profile)
            && (forall p :: p in t.profiles ==> t.profiles[p] == db.profiles[p])
            && (forall d :: d in t.drafts <==> d in db.drafts && db.drafts[d].target != profile)
            && (forall d :: d in t.drafts ==> t.drafts[d] == db.drafts[d])
            && (forall o :: o in t.ops <==> o in db.ops && db.ops[o].profile != profile)
            && (forall o :: o in t.ops ==> t.ops[o] == db.ops[o])
            && (t.workspace.Some? <==> db.workspace.Some?)
            && (t.workspace.Some? ==>
                  t.workspace.value == Workspace(if db.workspace.value.active == Some(profile) then None
                                                 else db.workspace.value.active, db.workspace.value.updatedAt))
  {}
}
