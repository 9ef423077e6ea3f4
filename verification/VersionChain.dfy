/**
  Tailoring sessions and their versions under concurrent writers. A transaction reads from an earlier
  committed state, the `view`; its writes land as one block on the current state or are rolled back.
 */
module VersionChain {
  import opened Common

  datatype SessionState = Generating | Ready | Failed | Deleting

  datatype Session = Session(latest: nat, state: SessionState, code: Option<string>)

  datatype Version = Version(session: Id, number: nat, parent: Option<Id>, content: string)

  /** `begun` and `written` record every session id, and session and number of every version id, ever used. */
  datatype Db = Db(sessions: map<Id, Session>, versions: map<Id, Version>, begun: set<Id>, written: map<Id, (Id, nat)>)

  datatype Write =
    Write(id: Id, session: Id, expected: nat, expectedParent: Option<Id>, parent: Option<Id>, content: string)

  const EMPTY := Db(map[], map[], {}, map[])

  // ----- Compare and swap -----

  /** The checks on what was read: the session's head and the expected parent. */
  predicate HeadMatches(view: Db, w: Write) {
    && w.session in view.sessions && view.sessions[w.session].latest == w.expected
    && w.parent == w.expectedParent
    && if w.expected == 0 then w.expectedParent.None?
       else w.expectedParent.Some? && w.expectedParent.value in view.versions
            && view.versions[w.expectedParent.value].session == w.session
            && view.versions[w.expectedParent.value].number == w.expected
  }

  /** Unique id and (session, number), an existing session and a parent of the same session. */
  predicate CanInsert(db: Db, id: Id, v: Version) {
    && id !in db.versions && v.session in db.sessions
    && (forall x :: x in db.versions ==> db.versions[x].session != v.session || db.versions[x].number != v.number)
    && (v.parent.Some? ==> v.parent.value in db.versions && db.versions[v.parent.value].session == v.session)
    && (v.number == 1 <==> v.parent.None?)
  }

  function NewVersion(w: Write): Version {
    Version(w.session, w.expected + 1, w.parent, w.content)
  }

  /** The insert holds and the conditional update of the head hits its row. */
  predicate WriteLands(db: Db, w: Write) {
    CanInsert(db, w.id, NewVersion(w)) && db.sessions[w.session].latest == w.expected
  }

  function Written(db: Db, w: Write): Db
    requires w.session in db.sessions
  {
    db.(versions := db.versions[w.id := NewVersion(w)], written := db.written[w.id := (w.session, w.expected + 1)],
        sessions := db.sessions[w.session := Session(w.expected + 1, Ready, None)])
  }

  predicate Succeeds(view: Db, db: Db, w: Write) {
    HeadMatches(view, w) && WriteLands(db, w)
  }

  function Create(view: Db, db: Db, w: Write): Db {
    if Succeeds(view, db, w) then Written(db, w) else db
  }

  // ----- Session state -----

  predicate Coupled(s: Session) {
    s.state.Failed? <==> s.code.Some?
  }

  /** Only columns that differ from the row that was read are written; the row check couples state and code. */
  function SetState(view: Db, db: Db, id: Id, state: SessionState, code: Option<string>): Db {
    if id !in view.sessions || id !in db.sessions then db
    else
      var seen, cur := view.sessions[id], db.sessions[id];
      var next := cur.(state := if seen.state == state then cur.state else state,
                       code := if seen.code == code then cur.code else code);
      if Coupled(next) then db.(sessions := db.sessions[id := next]) else db
  }

  function StartGeneration(view: Db, db: Db, id: Id): Db {
    if id in view.sessions && (view.sessions[id].state.Ready? || view.sessions[id].state.Failed?)
      then SetState(view, db, id, Generating, None)
    else db
  }

  function CompleteNoChange(view: Db, db: Db, id: Id, expected: nat): Db {
    if id in view.sessions && view.sessions[id].latest == expected then SetState(view, db, id, Ready, None) else db
  }

  function RestoreReady(view: Db, db: Db, id: Id): Db {
    if id in view.sessions && view.sessions[id].latest > 0 then SetState(view, db, id, Ready, None) else db
  }

  /** Deleting a session takes its versions with it. */
  function DeleteSession(db: Db, id: Id): Db {
    db.(sessions := db.sessions - {id},
        versions := map v | v in db.versions && db.versions[v].session != id :: db.versions[v])
  }

  /**
    What the markers do to a session that they read as it is: each sets the state and its code, where it
    applies, and nothing else; a session in another state, or of another head, stays as it is.
   */
  lemma MarkersMean(db: Db, id: Id, code: string, expected: nat)
    requires id in db.sessions
    ensures var s := db.sessions[id];
            && Apply(db, db, MarkFailed(id, code))
               == db.(sessions := db.sessions[id := Session(s.latest, Failed, Some(code))])
            && Apply(db, db, MarkDeleting(id)) == db.(sessions := db.sessions[id := Session(s.latest, Deleting, None)])
            && Apply(db, db, MarkGenerating(id))
               == (if s.state == Ready || s.state == Failed then
                     db.(sessions := db.sessions[id := Session(s.latest, Generating, None)])
                   else db)
            && Apply(db, db, NoChange(id, expected))
               == (if s.latest == expected then
                     db.(sessions := db.sessions[id := Session(s.latest, Ready, None)])
                   else db)
            && Apply(db, db, Restore(id))
               == (if s.latest > 0 then db.(sessions := db.sessions[id := Session(s.latest, Ready, None)]) else db)
  {}

  // ----- Histories -----

  datatype Move =
    | Open(session: Id)
    | DoCreate(w: Write)
    | MarkFailed(session: Id, code: string)
    | MarkGenerating(session: Id)
    | NoChange(session: Id, expected: nat)
    | Restore(session: Id)
    | MarkDeleting(session: Id)
    | Delete(session: Id)

  function Apply(view: Db, db: Db, m: Move): Db {
    match m
    case Open(id) => db.(sessions := db.sessions[id := Session(0, Generating, None)], begun := db.begun + {id})
    case DoCreate(w) => Create(view, db, w)
    case MarkFailed(id, code) => SetState(view, db, id, Failed, Some(code))
    case MarkGenerating(id) => StartGeneration(view, db, id)
    case NoChange(id, expected) => CompleteNoChange(view, db, id, expected)
    case Restore(id) => RestoreReady(view, db, id)
    case MarkDeleting(id) => SetState(view, db, id, Deleting, None)
    case Delete(id) => DeleteSession(db, id)
  }

  /** Fresh identifiers are never used twice. */
  predicate IdIsNew(db: Db, m: Move) {
    match m
    case Open(id) => id !in db.begun
    case DoCreate(w) => w.id !in db.written
    case _ => true
  }

  /** A history of committed states with the move and the view behind each step. */
  ghost predicate History(h: seq<Db>, ms: seq<Move>, vs: seq<nat>) {
    && |h| == |ms| + 1 == |vs| + 1 && h[0] == EMPTY
    && forall i :: 0 <= i < |ms| ==> StepAt(h, ms, vs, i)
  }

  ghost predicate StepAt(h: seq<Db>, ms: seq<Move>, vs: seq<nat>, i: nat)
    requires i < |ms| && |h| == |ms| + 1 == |vs| + 1
  {
    vs[i] <= i && IdIsNew(h[i], ms[i]) && h[i + 1] == Apply(h[vs[i]], h[i], ms[i])
  }

  // ----- The chain -----

  ghost predicate HasVersion(db: Db, s: Id, n: nat) {
    exists v :: v in db.versions && db.versions[v].session == s && db.versions[v].number == n
  }

  /** The parent of version 1 is none; of any other it is the version numbered just before. */
  predicate ParentIsPrevious(db: Db, v: Version) {
    if v.number == 1 then v.parent.None?
    else v.parent.Some? && v.parent.value in db.versions && db.versions[v.parent.value].session == v.session
         && db.versions[v.parent.value].number + 1 == v.number
  }

  ghost predicate InRange(db: Db) {
    forall v :: v in db.versions ==>
      db.versions[v].session in db.sessions && 1 <= db.versions[v].number <= db.sessions[db.versions[v].session].latest
  }

  ghost predicate NoGaps(db: Db) {
    forall s, n: nat :: s in db.sessions && 1 <= n <= db.sessions[s].latest ==> HasVersion(db, s, n)
  }

  ghost predicate NumbersApart(db: Db) {
    forall a, b ::
      a in db.versions && b in db.versions && a != b && db.versions[a].session == db.versions[b].session ==>
        db.versions[a].number != db.versions[b].number
  }

  ghost predicate Chained(db: Db) {
    forall v :: v in db.versions ==> ParentIsPrevious(db, db.versions[v])
  }

  ghost predicate CodesCoupled(db: Db) {
    forall s :: s in db.sessions ==> Coupled(db.sessions[s])
  }

  ghost predicate Recorded(db: Db) {
    && (forall v :: v in db.versions ==>
          v in db.written && db.written[v] == (db.versions[v].session, db.versions[v].number))
    && (forall s :: s in db.sessions ==> s in db.begun)
  }

  /** A version is only ever gone with its session. */
  ghost predicate Retained(db: Db) {
    forall v :: v in db.written ==>
      db.written[v].0 in db.begun && (db.written[v].0 in db.sessions ==> v in db.versions)
  }

  ghost predicate Inv(db: Db) {
    && InRange(db) && NoGaps(db) && NumbersApart(db) && Chained(db) && CodesCoupled(db) && Recorded(db)
    && Retained(db)
  }

  ghost predicate Later(view: Db, db: Db) {
    && (forall v :: v in view.written ==> v in db.written && db.written[v] == view.written[v])
    && view.begun <= db.begun
    && (forall s :: s in view.begun && s in db.sessions ==>
          s in view.sessions && view.sessions[s].latest <= db.sessions[s].latest)
  }

  /** `t` keeps the versions of the sessions it keeps, and their numbers. */
  ghost predicate Restricts(db: Db, t: Db) {
    && t.written == db.written && db.begun <= t.begun
    && (forall s :: s in t.sessions ==> s in t.begun && Coupled(t.sessions[s]))
    && (forall s :: s in t.sessions && s in db.begun ==>
          s in db.sessions && t.sessions[s].latest == db.sessions[s].latest)
    && (forall s :: s in t.sessions && s !in db.begun ==> t.sessions[s].latest == 0)
    && (forall v :: v in t.versions <==> v in db.versions && db.versions[v].session in t.sessions)
    && (forall v :: v in t.versions ==> t.versions[v] == db.versions[v])
  }

  lemma RestrictedGaps(db: Db, t: Db)
    requires NoGaps(db) && Recorded(db) && Restricts(db, t)
    ensures NoGaps(t)
  {
    forall s, n: nat | s in t.sessions && 1 <= n <= t.sessions[s].latest ensures HasVersion(t, s, n) {
      assert HasVersion(db, s, n);
      var v :| v in db.versions && db.versions[v].session == s && db.versions[v].number == n;
      assert v in t.versions && t.versions[v] == db.versions[v];
    }
  }

  lemma RestrictedChain(db: Db, t: Db)
    requires Chained(db) && Restricts(db, t)
    ensures Chained(t)
  {}

  lemma RestrictedNumbers(db: Db, t: Db)
    requires NumbersApart(db) && Restricts(db, t)
    ensures NumbersApart(t)
  {}

  lemma RestrictedRetains(db: Db, t: Db)
    requires Retained(db) && Recorded(db) && Restricts(db, t)
    ensures Retained(t)
  {}

  lemma RestrictedKeeps(db: Db, t: Db)
    requires Inv(db) && Restricts(db, t)
    ensures Inv(t) && Later(db, t)
  {
    hide NoGaps, Chained, Coupled, NumbersApart, Retained;
    RestrictedRetains(db, t);
    RestrictedGaps(db, t);
    RestrictedChain(db, t);
    RestrictedNumbers(db, t);
  }

  lemma OpenKeeps(view: Db, db: Db, id: Id)
    requires Inv(db) && id !in db.begun
    ensures Inv(Apply(view, db, Open(id))) && Later(db, Apply(view, db, Open(id)))
  {
    hide NoGaps, Chained, NumbersApart;
    RestrictedKeeps(db, Apply(view, db, Open(id)));
  }

  lemma DeleteKeeps(db: Db, id: Id)
    requires Inv(db)
    ensures Inv(DeleteSession(db, id)) && Later(db, DeleteSession(db, id))
  {
    hide NoGaps, Chained, NumbersApart;
    RestrictedKeeps(db, DeleteSession(db, id));
  }

  ghost predicate ParentHeads(db: Db, w: Write) {
    if w.expected == 0 then w.parent.None?
    else w.parent.Some? && w.parent.value in db.versions
         && db.versions[w.parent.value].session == w.session && db.versions[w.parent.value].number == w.expected
  }

  /** The parent that was read is still the head when the write lands. */
  lemma ParentIsHead(view: Db, db: Db, w: Write)
    requires Recorded(view) && Recorded(db) && Later(view, db) && Succeeds(view, db, w)
    ensures ParentHeads(db, w)
  {}

  lemma CreateKeeps(view: Db, db: Db, w: Write)
    requires Inv(view) && Inv(db) && Later(view, db) && w.id !in db.written
    ensures Inv(Create(view, db, w)) && Later(db, Create(view, db, w))
  {
    hide NoGaps, Chained, HasVersion, ParentIsPrevious, Written, InRange, NumbersApart, CodesCoupled, Retained;
    if Succeeds(view, db, w) {
      ParentIsHead(view, db, w);
      WrittenRetains(db, w);
      WrittenHasNoGaps(db, w);
      WrittenIsChained(db, w);
      WrittenKeepsRows(db, w);
    }
  }

  lemma WrittenKeepsRows(db: Db, w: Write)
    requires InRange(db) && NumbersApart(db) && CodesCoupled(db) && Recorded(db) && WriteLands(db, w)
    requires w.id !in db.written
    ensures var t := Written(db, w); InRange(t) && NumbersApart(t) && CodesCoupled(t) && Recorded(t) && Later(db, t)
  {}

  lemma WrittenRetains(db: Db, w: Write)
    requires Retained(db) && Recorded(db) && WriteLands(db, w)
    ensures Retained(Written(db, w))
  {}

  lemma WrittenHasNoGaps(db: Db, w: Write)
    requires NoGaps(db) && WriteLands(db, w)
    ensures NoGaps(Written(db, w))
  {
    var t := Written(db, w);
    forall s, n: nat | s in t.sessions && 1 <= n <= t.sessions[s].latest ensures HasVersion(t, s, n) {
      if s == w.session && n == w.expected + 1 {
        assert t.versions[w.id] == NewVersion(w);
      } else {
        assert HasVersion(db, s, n);
        var v :| v in db.versions && db.versions[v].session == s && db.versions[v].number == n;
        assert v in t.versions && t.versions[v] == db.versions[v];
      }
    }
  }

  lemma WrittenIsChained(db: Db, w: Write)
    requires Chained(db) && WriteLands(db, w) && ParentHeads(db, w)
    ensures Chained(Written(db, w))
  {}

  lemma StateKeeps(view: Db, db: Db, id: Id, state: SessionState, code: Option<string>)
    requires Inv(db)
    ensures Inv(SetState(view, db, id, state, code)) && Later(db, SetState(view, db, id, state, code))
  {
    hide NoGaps, Chained, NumbersApart, Coupled;
    RestrictedKeeps(db, SetState(view, db, id, state, code));
  }

  lemma ApplyKeeps(view: Db, db: Db, m: Move)
    requires Inv(view) && Inv(db) && Later(view, db) && IdIsNew(db, m)
    ensures Inv(Apply(view, db, m)) && Later(db, Apply(view, db, m))
  {
    hide Inv, Later, SetState, Create, DeleteSession;
    match m
    case Open(id) => OpenKeeps(view, db, id);
    case DoCreate(w) => CreateKeeps(view, db, w);
    case MarkFailed(id, code) => StateKeeps(view, db, id, Failed, Some(code));
    case MarkGenerating(id) => StateKeeps(view, db, id, Generating, None); LaterItself(db);
    case NoChange(id, _) => StateKeeps(view, db, id, Ready, None); LaterItself(db);
    case Restore(id) => StateKeeps(view, db, id, Ready, None); LaterItself(db);
    case MarkDeleting(id) => StateKeeps(view, db, id, Deleting, None);
    case Delete(id) => DeleteKeeps(db, id);
  }

  lemma LaterItself(a: Db)
    requires Inv(a)
    ensures Later(a, a)
  {}

  lemma LaterChains(a: Db, b: Db, c: Db)
    requires Later(a, b) && Later(b, c)
    ensures Later(a, c)
  {}

  lemma {:induction false} HistoryKeeps(h: seq<Db>, ms: seq<Move>, vs: seq<nat>, i: nat, j: nat)
    requires History(h, ms, vs) && i <= j < |h|
    ensures Inv(h[j]) && Later(h[i], h[j])
    decreases j, i
  {
    hide Inv, Later, Apply, IdIsNew;
    if j == 0 {
      EmptyKeeps();
    } else {
      assert StepAt(h, ms, vs, j - 1);
      var v := vs[j - 1];
      HistoryKeeps(h, ms, vs, v, j - 1);
      HistoryKeeps(h, ms, vs, v, v);
      ApplyKeeps(h[v], h[j - 1], ms[j - 1]);
      if i < j {
        HistoryKeeps(h, ms, vs, i, j - 1);
        LaterChains(h[i], h[j - 1], h[j]);
      } else {
        LaterItself(h[j]);
      }
    }
  }

  lemma EmptyKeeps()
    ensures Inv(EMPTY) && Later(EMPTY, EMPTY)
  {
    NothingKeeps(EMPTY);
  }

  lemma NothingKeeps(db: Db)
    requires db.sessions.Keys == {} && db.versions.Keys == {} && db.written.Keys == {}
    ensures Inv(db) && Later(db, db)
  {
    hide HasVersion, ParentIsPrevious, Coupled;
    assert forall s :: s in db.sessions <==> s in db.sessions.Keys;
    assert forall v :: v in db.versions <==> v in db.versions.Keys;
    assert forall v :: v in db.written <==> v in db.written.Keys;
  }

  /**
    Under every interleaving a session's versions are numbered 1..latest without gap or repeat, and
    each one's parent is exactly the version before it; a session has an error code iff it failed.
   */
  lemma VersionsFormOneChain(h: seq<Db>, ms: seq<Move>, vs: seq<nat>, i: nat)
    requires History(h, ms, vs) && i < |h|
    ensures InRange(h[i]) && NoGaps(h[i]) && NumbersApart(h[i]) && Chained(h[i]) && CodesCoupled(h[i])
  {
    HistoryKeeps(h, ms, vs, i, i);
  }

  ghost predicate WonAt(h: seq<Db>, ms: seq<Move>, vs: seq<nat>, i: nat, s: Id, expected: nat)
    requires History(h, ms, vs) && i < |ms|
  {
    StepAt(h, ms, vs, i) && ms[i].DoCreate? && ms[i].w.session == s && ms[i].w.expected == expected
      && Succeeds(h[vs[i]], h[i], ms[i].w)
  }

  /** Of all writers that expect the same head of a session, however they interleave, at most one succeeds. */
  lemma OneWriterPerHead(h: seq<Db>, ms: seq<Move>, vs: seq<nat>, i: nat, j: nat, s: Id, expected: nat)
    requires History(h, ms, vs) && i < |ms| && j < |ms|
    requires WonAt(h, ms, vs, i, s, expected) && WonAt(h, ms, vs, j, s, expected)
    ensures i == j
  {
    hide Inv, Succeeds, Apply, History;
    if i < j {
      WinnerMoves(h, ms, vs, i, j, s, expected);
    } else if j < i {
      WinnerMoves(h, ms, vs, j, i, s, expected);
    }
  }

  lemma WinnerMoves(h: seq<Db>, ms: seq<Move>, vs: seq<nat>, i: nat, j: nat, s: Id, expected: nat)
    requires History(h, ms, vs) && i < j < |ms|
    requires WonAt(h, ms, vs, i, s, expected)
    ensures !WonAt(h, ms, vs, j, s, expected)
  {
    hide HeadMatches, InRange, NoGaps, NumbersApart, Chained, CodesCoupled, Retained;
    HistoryKeeps(h, ms, vs, i + 1, j);
    HistoryKeeps(h, ms, vs, i + 1, i + 1);
    assert s in h[i + 1].sessions && h[i + 1].sessions[s].latest == expected + 1;
    assert s in h[i + 1].begun;
  }

  /** A writer that read the head it expects, and is alone, succeeds. */
  lemma LoneWriterSucceeds(db: Db, w: Write)
    requires Inv(db) && HeadMatches(db, w) && w.id !in db.written
    ensures Succeeds(db, db, w)
    ensures Create(db, db, w)
            == Db(db.sessions[w.session := Session(w.expected + 1, Ready, None)],
                  db.versions[w.id := Version(w.session, w.expected + 1, w.parent, w.content)],
                  db.begun, db.written[w.id := (w.session, w.expected + 1)])
  {}

  /**
    A writer lands, whatever it read, iff its session and its parent were as it expects when it read them
    and the session's head is still the expected one; then the version and the new head are stored, and
    otherwise nothing changes.
   */
  lemma WriterLandsIff(view: Db, db: Db, w: Write)
    requires Inv(view) && Inv(db) && Later(view, db) && w.id !in db.written
    ensures var t := Create(view, db, w);
            if HeadMatches(view, w) && w.session in db.sessions && db.sessions[w.session].latest == w.expected then
              t == Db(db.sessions[w.session := Session(w.expected + 1, Ready, None)],
                      db.versions[w.id := Version(w.session, w.expected + 1, w.parent, w.content)],
                      db.begun, db.written[w.id := (w.session, w.expected + 1)])
            else t == db
  {
    hide NoGaps, Chained, CodesCoupled;
  }

  /** The write does not look at the mark: a version of the head makes a session marked for deletion ready again. */
  lemma DeletingIsNotFinal(db: Db, w: Write)
    requires Inv(db) && HeadMatches(db, w) && w.id !in db.written
    ensures var marked := Apply(db, db, MarkDeleting(w.session));
            && marked.sessions[w.session].state.Deleting?
            && Create(db, marked, w).sessions[w.session].state.Ready?
            && Create(marked, marked, w).sessions[w.session].state.Ready?
  {
    assert Coupled(db.sessions[w.session]);
    LoneWriterSucceeds(db, w);
  }
}
