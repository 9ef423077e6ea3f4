/** The tailoring repository over its two tables: the read phase, then insert, conditional update and rollback. */
module TailoringStore {
  import opened Common
  import opened VersionChain

  datatype Miss = HeadChanged | ParentMismatch | FirstHasParent | ParentNotHead | Constraint

  class Store {
    var sessions: map<Id, Session>
    var versions: map<Id, Version>
    ghost var begun: set<Id>
    ghost var written: map<Id, (Id, nat)>

    ghost function Value(): Db
      reads this
    {
      Db(sessions, versions, begun, written)
    }

    constructor ()
      ensures Value() == EMPTY
    {
      sessions, versions, begun, written := map[], map[], {}, map[];
    }

    method CreateSession(id: Id)
      requires id !in begun
      modifies this
      ensures Value() == Apply(old(Value()), old(Value()), Open(id))
      ensures sessions == old(sessions)[id := Session(0, Generating, None)] && versions == old(versions)
    {
      sessions := sessions[id := Session(0, Generating, None)];
      begun := begun + {id};
    }

    /** The reads of a writer, each with its own refusal. */
    method CheckHead(w: Write) returns (r: Option<Miss>)
      ensures r.None? <==> HeadMatches(Value(), w)
      ensures r.None?
         <==> && w.session in sessions && sessions[w.session].latest == w.expected && w.parent == w.expectedParent
              && (w.expected == 0 ==> w.parent.None?)
              && (w.expected > 0 ==>
                    && w.parent.Some? && w.parent.value in versions
                    && versions[w.parent.value].session == w.session && versions[w.parent.value].number == w.expected)
    {
      if w.session !in sessions || sessions[w.session].latest != w.expected {
        return Some(HeadChanged);
      }
      if w.parent != w.expectedParent {
        return Some(ParentMismatch);
      }
      if w.expected == 0 {
        if w.expectedParent.Some? {
          return Some(FirstHasParent);
        }
      } else if w.expectedParent.None? || w.expectedParent.value !in versions
                || versions[w.expectedParent.value].session != w.session
                || versions[w.expectedParent.value].number != w.expected {
        return Some(ParentNotHead);
      }
      r := None;
    }

    /** Insert, then move the head if it is still the expected one; a miss undoes the insert. */
    method WriteVersion(ghost view: Db, w: Write) returns (r: Option<Miss>)
      requires HeadMatches(view, w)
      modifies this
      ensures Value() == Create(view, old(Value()), w)
      ensures r.None? <==> WriteLands(old(Value()), w)
      ensures r.None?
         <==> && w.session in old(sessions) && old(sessions)[w.session].latest == w.expected
              && w.id !in old(versions) && (w.parent.None? <==> w.expected == 0)
              && (forall x :: x in old(versions) ==>
                    old(versions)[x].session != w.session || old(versions)[x].number != w.expected + 1)
              && (w.parent.Some? ==>
                    w.parent.value in old(versions) && old(versions)[w.parent.value].session == w.session)
      ensures r.None? ==>
                && sessions == old(sessions)[w.session := Session(w.expected + 1, Ready, None)]
                && versions == old(versions)[w.id := Version(w.session, w.expected + 1, w.parent, w.content)]
      ensures r.Some? ==> Value() == old(Value())
    {
      var saved := versions;
      if w.id in versions || w.session !in sessions
         || (exists x :: x in versions && versions[x].session == w.session && versions[x].number == w.expected + 1)
         || (w.parent.Some? && (w.parent.value !in versions || versions[w.parent.value].session != w.session))
         || (w.expected + 1 == 1 && w.parent.Some?) || (w.expected + 1 != 1 && w.parent.None?) {
        return Some(Constraint);
      }
      assert CanInsert(Value(), w.id, NewVersion(w));
      versions := versions[w.id := Version(w.session, w.expected + 1, w.parent, w.content)];
      if sessions[w.session].latest != w.expected {
        versions := saved;
        return Some(HeadChanged);
      }
      sessions := sessions[w.session := Session(w.expected + 1, Ready, None)];
      written := written[w.id := (w.session, w.expected + 1)];
      r := None;
    }

    /** One writer alone in its transaction. */
    method CreateVersionCas(w: Write) returns (r: Option<Miss>)
      requires Inv(Value()) && w.id !in written
      modifies this
      ensures Value() == Create(old(Value()), old(Value()), w)
      ensures r.None? <==> HeadMatches(old(Value()), w)
      ensures r.None? ==>
                && sessions == old(sessions)[w.session := Session(w.expected + 1, Ready, None)]
                && versions == old(versions)[w.id := Version(w.session, w.expected + 1, w.parent, w.content)]
      ensures r.Some? ==> Value() == old(Value())
      ensures Inv(Value())
    {
      hide Inv, HeadMatches, CanInsert;
      ghost var before := Value();
      LaterItself(before);
      CreateKeeps(before, before, w);
      r := CheckHead(w);
      if r.None? {
        LoneWriterSucceeds(before, w);
        r := WriteVersion(before, w);
      }
    }

    /** Assigns the state columns; every marker goes through this flush. */
    method Flush(ghost view: Db, seen: Session, id: Id, state: SessionState, code: Option<string>)
      requires id in view.sessions && view.sessions[id] == seen
      modifies this`sessions
      ensures Value() == SetState(view, old(Value()), id, state, code)
    {
      if id in sessions {
        var row := sessions[id];
        if seen.state != state {
          row := row.(state := state);
        }
        if seen.code != code {
          row := row.(code := code);
        }
        if Coupled(row) {
          sessions := sessions[id := row];
        }
      }
    }

    method MarkGeneratingRow(id: Id) returns (ok: bool)
      modifies this`sessions
      ensures Value() == StartGeneration(old(Value()), old(Value()), id)
      ensures ok <==> id in old(sessions) && (old(sessions)[id].state == Ready || old(sessions)[id].state == Failed)
      ensures sessions == if ok then old(sessions)[id := Session(old(sessions)[id].latest, Generating, None)]
                          else old(sessions)
    {
      ok := id in sessions && (sessions[id].state == Ready || sessions[id].state == Failed);
      if ok {
        Flush(Value(), sessions[id], id, Generating, None);
      }
    }

    method RestoreReadyRow(id: Id) returns (ok: bool)
      modifies this`sessions
      ensures Value() == RestoreReady(old(Value()), old(Value()), id)
      ensures ok <==> id in old(sessions) && old(sessions)[id].latest > 0
      ensures sessions == if ok then old(sessions)[id := Session(old(sessions)[id].latest, Ready, None)]
                          else old(sessions)
    {
      ok := id in sessions && sessions[id].latest > 0;
      if ok {
        Flush(Value(), sessions[id], id, Ready, None);
      }
    }

    method DeleteSessionRow(id: Id) returns (deleted: bool)
      modifies this
      ensures Value() == DeleteSession(old(Value()), id)
      ensures deleted <==> id in old(sessions)
      ensures id !in sessions && (forall s :: s != id && s in old(sessions) ==> s in sessions)
      ensures forall v :: v in versions <==> v in old(versions) && old(versions)[v].session != id
    {
      deleted := id in sessions;
      sessions := sessions - {id};
      versions := map v | v in versions && versions[v].session != id :: versions[v];
    }
  }
}
