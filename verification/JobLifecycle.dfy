/**
  Job rows: lifecycle, row checks, and the revision-checked replacement of an extraction. A repository
  function may judge a row as an earlier committed state, its `view`, showed it; the flush then writes
  the columns it changed onto the current row, if the row checks accept that. Instants are microseconds.
 */
module JobLifecycle {
  import opened Common

  datatype Raw = Raw(content: string, hash: Id)
  datatype Doc = Doc(json: string)
  datatype Status = Received | Processing | Processed | Failed
  datatype Quality = Full | Partial | Unscorable

  datatype Embedding = Embedding(vector: Option<Doc>, model: Option<Id>, dimensions: Option<int>)

  datatype Job = Job(
    fromUrl: bool, raw: Option<Raw>, status: Status, failure: Option<Id>, extraction: Option<Doc>,
    quality: Option<Quality>,
    embedding: Embedding, updatedAt: int)

  /** `used` records every job id ever made. */
  datatype Table = Table(jobs: map<Id, Job>, used: set<Id>)

  const NO_EMBEDDING := Embedding(None, None, None)
  const EMPTY := Table(map[], {})

  predicate Scorable(q: Option<Quality>) {
    q == Some(Full) || q == Some(Partial)
  }

  predicate Complete(e: Embedding) {
    e.vector.Some? && e.model.Some? && e.dimensions.Some? && e.dimensions.value > 0
  }

  /** The table's own row checks. */
  predicate RowChecks(j: Job) {
    && (j.fromUrl || j.raw.Some?)
    && (j.status.Processed? ==> j.extraction.Some? && j.quality.Some?)
    && (j.status.Failed? <==> j.failure.Some?)
    && (if j.status.Processed? && Scorable(j.quality) then Complete(j.embedding) else j.embedding == NO_EMBEDDING)
  }

  predicate HashFree(t: Table, id: Id, raw: Option<Raw>) {
    forall o :: o in t.jobs && o != id && raw.Some? && t.jobs[o].raw.Some? ==>
        t.jobs[o].raw.value.hash != raw.value.hash
  }

  /** A flush that a row check or the unique hash refuses changes nothing. */
  function Store(t: Table, id: Id, j: Job): Table {
    if RowChecks(j) && HashFree(t, id, j.raw) then t.(jobs := t.jobs[id := j], used := t.used + {id}) else t
  }

  datatype Move =
    | CreateUrl(id: Id, now: int)
    | CreateText(id: Id, raw: Raw, now: int)
    | SetRaw(id: Id, raw: Raw, now: int)
    | MarkProcessing(id: Id, now: int)
    | Retry(id: Id, now: int)
    | MarkFailed(id: Id, code: Id, now: int)
    | MarkProcessed(id: Id, doc: Doc, quality: Quality, embedding: Embedding, now: int)
    | Replace(id: Id, expected: int, doc: Doc, quality: Quality, embedding: Embedding, now: int)
    | DeletePlaceholder(id: Id)
    | Delete(id: Id)

  /** The clock if it is later than the captured revision, else the next microsecond. */
  function StrictlyLater(captured: int, now: int): int {
    if now > captured then now else captured + 1
  }

  function NewJob(fromUrl: bool, raw: Option<Raw>, now: int): Job {
    Job(fromUrl, raw, Received, None, None, None, NO_EMBEDDING, now)
  }

  predicate IsPlaceholder(j: Job) {
    j.fromUrl && j.status.Received? && j.raw.None?
  }

  predicate ReplaceArguments(quality: Quality, e: Embedding) {
    !quality.Unscorable? && Complete(e)
  }

  /** What a function that reads a row leaves in memory; `None` when it raises. */
  function Left(seen: Job, m: Move): Option<Job> {
    match m
    case SetRaw(_, raw, now) => if IsPlaceholder(seen) then Some(seen.(raw := Some(raw), updatedAt := now)) else None
    case MarkProcessing(_, now) =>
      if seen.status.Received? then Some(seen.(status := Processing, updatedAt := now)) else None
    case Retry(_, now) =>
      if seen.status.Failed? then
        Some(seen.(status := Processing, failure := None, extraction := None, quality := None,
                   embedding := NO_EMBEDDING,
                   updatedAt := now))
      else None
    case MarkFailed(_, code, now) =>
      if seen.status.Received? || seen.status.Processing? then
        Some(seen.(status := Failed, failure := Some(code), updatedAt := now))
      else None
    case MarkProcessed(_, doc, quality, embedding, now) =>
      if seen.status.Processing? then
        Some(seen.(status := Processed, failure := None, extraction := Some(doc), quality := Some(quality),
                   embedding := if Scorable(Some(quality)) then embedding else NO_EMBEDDING, updatedAt := now))
      else None
    case _ => None
  }

  /** Null JSON columns are written even where nothing was read there. */
  function PickJson(seen: Option<Doc>, left: Option<Doc>, current: Option<Doc>, writesNull: bool): Option<Doc> {
    if left.None? && writesNull then None else Pick(seen, left, current)
  }

  /** The current row with the changed columns written. */
  function Merge(seen: Job, left: Job, cur: Job, m: Move): Job {
    Job(cur.fromUrl, Pick(seen.raw, left.raw, cur.raw), Pick(seen.status, left.status, cur.status),
        Pick(seen.failure, left.failure, cur.failure),
        PickJson(seen.extraction, left.extraction, cur.extraction, m.Retry?),
        Pick(seen.quality, left.quality, cur.quality),
        Embedding(PickJson(seen.embedding.vector, left.embedding.vector, cur.embedding.vector,
                           m.Retry? || m.MarkProcessed?),
                  Pick(seen.embedding.model, left.embedding.model, cur.embedding.model),
                  Pick(seen.embedding.dimensions, left.embedding.dimensions, cur.embedding.dimensions)),
        Pick(seen.updatedAt, left.updatedAt, cur.updatedAt))
  }

  /** One conditional update on id and captured revision. */
  function ReplaceRow(t: Table, m: Move): Table
    requires m.Replace?
  {
    if m.id in t.jobs && ReplaceArguments(m.quality, m.embedding) && t.jobs[m.id].updatedAt == m.expected then
      Store(t, m.id, t.jobs[m.id].(status := Processed, failure := None, extraction := Some(m.doc),
                                   quality := Some(m.quality),
                                   embedding := m.embedding, updatedAt := StrictlyLater(m.expected, m.now)))
    else t
  }

  function Apply(view: Table, t: Table, m: Move): Table {
    match m
    case CreateUrl(id, now) => if id in t.used then t else Store(t, id, NewJob(true, None, now))
    case CreateText(id, raw, now) => if id in t.used then t else Store(t, id, NewJob(false, Some(raw), now))
    case Replace(_, _, _, _, _, _) => ReplaceRow(t, m)
    case DeletePlaceholder(id) =>
      if id in view.jobs && IsPlaceholder(view.jobs[id]) then t.(jobs := t.jobs - {id}) else t
    case Delete(id) => if id in view.jobs then t.(jobs := t.jobs - {id}) else t
    case _ => if m.id in view.jobs && m.id in t.jobs then FlushRow(view.jobs[m.id], t, m) else t
  }

  function FlushRow(seen: Job, t: Table, m: Move): Table
    requires m.id in t.jobs
  {
    match Left(seen, m)
    case None => t
    case Some(left) => Store(t, m.id, Merge(seen, left, t.jobs[m.id], m))
  }

  // ----- Histories -----

  /** Committed states, the moves between them, and the state each move read. */
  ghost predicate History(h: seq<Table>, ms: seq<Move>, vs: seq<nat>) {
    && |h| == |ms| + 1 == |vs| + 1 && h[0] == EMPTY
    && forall i :: 0 <= i < |ms| ==> StepAt(h, ms, vs, i)
  }

  ghost predicate StepAt(h: seq<Table>, ms: seq<Move>, vs: seq<nat>, i: nat)
    requires i < |ms| && |h| == |ms| + 1 == |vs| + 1
  {
    vs[i] <= i && h[i + 1] == Apply(h[vs[i]], h[i], ms[i])
  }

  ghost predicate HashesApart(t: Table) {
    forall id :: id in t.jobs ==> HashFree(t, id, t.jobs[id].raw)
  }

  /** The row checks, and no scorable quality on a job that is not processed. */
  predicate Settled(j: Job) {
    RowChecks(j) && (!j.status.Processed? ==> !Scorable(j.quality))
  }

  ghost predicate Inv(t: Table) {
    (forall id :: id in t.jobs ==> Settled(t.jobs[id])) && t.jobs.Keys <= t.used && HashesApart(t)
  }

  lemma HashesKept(t: Table, id: Id, j: Job)
    requires HashesApart(t)
    ensures HashesApart(Store(t, id, j))
  {}

  lemma RemovalKeepsHashes(t: Table, id: Id)
    requires HashesApart(t)
    ensures HashesApart(t.(jobs := t.jobs - {id}))
  {}

  lemma StoreKeeps(t: Table, id: Id, j: Job)
    requires Inv(t) && (RowChecks(j) ==> Settled(j))
    ensures Inv(Store(t, id, j))
  {
    hide HashFree, HashesApart, RowChecks, Settled;
    HashesKept(t, id, j);
  }

  lemma MergeSettles(seen: Job, cur: Job, m: Move)
    requires Settled(seen) && Settled(cur) && Left(seen, m).Some?
    ensures var row := Merge(seen, Left(seen, m).value, cur, m); RowChecks(row) ==> Settled(row)
  {}

  lemma InvKept(view: Table, t: Table, m: Move)
    requires Inv(view) && Inv(t)
    ensures Inv(Apply(view, t, m))
  {
    hide HashFree, HashesApart, RowChecks, Store, Merge, Left;
    RemovalKeepsHashes(t, m.id);
    match m
    case CreateUrl(id, now) => StoreKeeps(t, id, NewJob(true, None, now));
    case CreateText(id, raw, now) => StoreKeeps(t, id, NewJob(false, Some(raw), now));
    case Replace(id, expected, doc, quality, e, now) =>
      if id in t.jobs {
        StoreKeeps(t, id, t.jobs[id].(status := Processed, failure := None, extraction := Some(doc),
                                      quality := Some(quality),
                                      embedding := e, updatedAt := StrictlyLater(expected, now)));
      }
    case DeletePlaceholder(_) =>
    case Delete(_) =>
    case _ =>
      if m.id in view.jobs && m.id in t.jobs && Left(view.jobs[m.id], m).Some? {
        MergeSettles(view.jobs[m.id], t.jobs[m.id], m);
        StoreKeeps(t, m.id, Merge(view.jobs[m.id], Left(view.jobs[m.id], m).value, t.jobs[m.id], m));
      }
  }

  lemma {:induction false} HistoryKeeps(h: seq<Table>, ms: seq<Move>, vs: seq<nat>, i: nat)
    requires History(h, ms, vs) && i < |h|
    ensures Inv(h[i])
    decreases i
  {
    hide Inv, Apply;
    if i == 0 {
      NothingYet();
    } else {
      assert StepAt(h, ms, vs, i - 1);
      HistoryKeeps(h, ms, vs, i - 1);
      HistoryKeeps(h, ms, vs, vs[i - 1]);
      InvKept(h[vs[i - 1]], h[i - 1], ms[i - 1]);
    }
  }

  lemma NothingYet()
    ensures Inv(EMPTY) && Clean(EMPTY)
  {}

  /**
    Over every history, whatever the clock returns and however old the rows are that were read: a job
    has a failure code iff it failed, content unless it came from a URL, a processed one extraction and
    quality, and the embedding is complete if the job is processed and scorable, and absent otherwise.
   */
  lemma EveryJobIsCoupled(h: seq<Table>, ms: seq<Move>, vs: seq<nat>, i: nat, id: Id)
    requires History(h, ms, vs) && i < |h| && id in h[i].jobs
    ensures var j := h[i].jobs[id];
            && (j.failure.Some? <==> j.status.Failed?)
            && (j.status.Processed? ==> j.extraction.Some? && j.quality.Some?)
            && (j.fromUrl || j.raw.Some?)
            && (if j.status == Processed && (j.quality == Some(Full) || j.quality == Some(Partial)) then
                  j.embedding.vector.Some? && j.embedding.model.Some? && j.embedding.dimensions.Some?
                  && j.embedding.dimensions.value > 0
                else j.embedding == Embedding(None, None, None))
  {
    hide History, HashFree, HashesApart;
    HistoryKeeps(h, ms, vs, i);
  }

  // ----- Results only for processed jobs -----

  predicate ResultsOnlyProcessed(j: Job) {
    !j.status.Processed? ==> j.extraction.None? && j.quality.None? && j.embedding == NO_EMBEDDING
  }

  ghost predicate Clean(t: Table) {
    forall id :: id in t.jobs ==> ResultsOnlyProcessed(t.jobs[id])
  }

  /** The unscorable processed row has no embedding, so the row checks let its status go. */
  predicate Unprotected(cur: Job) {
    cur.status.Processed? && cur.quality == Some(Unscorable)
  }

  /** A move judged on an earlier row takes the status of a processed job away and leaves its results behind. */
  predicate Leaks(seen: Job, cur: Job, m: Move) {
    Unprotected(cur)
    && ((m.MarkProcessing? && seen.status.Received?)
        || (m.Retry? && seen.status.Failed?)
        || (m.MarkFailed? && (seen.status.Received? || seen.status.Processing?)))
  }

  predicate LeaksAt(view: Table, t: Table, m: Move) {
    m.id in view.jobs && m.id in t.jobs && Leaks(view.jobs[m.id], t.jobs[m.id], m)
  }

  lemma StatusGoes(seen: Job, t: Table, m: Move)
    requires Settled(seen) && Inv(t) && m.id in t.jobs && t.jobs[m.id].status.Processed?
    requires m.MarkProcessing? || m.Retry? || m.MarkFailed?
    ensures var u := FlushRow(seen, t, m);
            && m.id in u.jobs
            && (if Leaks(seen, t.jobs[m.id], m) then
                  !u.jobs[m.id].status.Processed?
                    && (ResultsOnlyProcessed(seen) ==> !ResultsOnlyProcessed(u.jobs[m.id]))
                else u == t)
  {
    hide HashFree;
    var cur := t.jobs[m.id];
    assert HashFree(t, m.id, cur.raw);
    var q := cur.quality.value;
    assert q.Full? || q.Partial? || q.Unscorable?;
  }

  /** Results stay with processed jobs in one step iff the step does not leak. */
  lemma CleanIff(view: Table, t: Table, m: Move)
    requires Inv(view) && Inv(t) && Clean(view) && Clean(t)
    ensures Clean(Apply(view, t, m)) <==> !LeaksAt(view, t, m)
  {
    hide HashFree, RowChecks, Settled, Inv, Store, Merge, Left;
    var u := Apply(view, t, m);
    InvRow(t, m.id);
    InvRow(view, m.id);
    if m.id in view.jobs && m.id in t.jobs && (m.MarkProcessing? || m.Retry? || m.MarkFailed?) {
      if t.jobs[m.id].status.Processed? {
        StatusGoes(view.jobs[m.id], t, m);
      } else {
        CleanFlush(view.jobs[m.id], t, m);
      }
    } else {
      CleanOtherwise(view, t, m);
    }
  }

  lemma InvRow(t: Table, id: Id)
    requires Inv(t)
    ensures id in t.jobs ==> Settled(t.jobs[id])
  {}

  lemma CleanFlush(seen: Job, t: Table, m: Move)
    requires Settled(seen) && ResultsOnlyProcessed(seen) && Clean(t) && m.id in t.jobs
    requires !t.jobs[m.id].status.Processed?
    requires m.MarkProcessing? || m.Retry? || m.MarkFailed?
    ensures Clean(FlushRow(seen, t, m)) && !Leaks(seen, t.jobs[m.id], m)
  {
    hide HashFree;
  }

  lemma CleanOtherwise(view: Table, t: Table, m: Move)
    requires Clean(t) && !((m.MarkProcessing? || m.Retry? || m.MarkFailed?) && m.id in view.jobs && m.id in t.jobs)
    ensures Clean(Apply(view, t, m)) && !LeaksAt(view, t, m)
  {
    hide HashFree;
  }

  ghost predicate LeakedAt(h: seq<Table>, ms: seq<Move>, vs: seq<nat>, i: nat)
    requires History(h, ms, vs) && i < |ms|
  {
    StepAt(h, ms, vs, i) && LeaksAt(h[vs[i]], h[i], ms[i])
  }

  /** In a history no job keeps results it should not have, ever, iff no step leaks. */
  lemma {:induction false} CleanThroughoutIff(h: seq<Table>, ms: seq<Move>, vs: seq<nat>, n: nat)
    requires History(h, ms, vs) && n < |h|
    ensures (forall i :: 0 <= i <= n ==> Clean(h[i])) <==> (forall i :: 0 <= i < n ==> !LeakedAt(h, ms, vs, i))
    decreases n
  {
    hide Inv, Apply, Clean, LeaksAt;
    if n == 0 {
      NothingYet();
    } else {
      CleanThroughoutIff(h, ms, vs, n - 1);
      assert StepAt(h, ms, vs, n - 1);
      assert LeakedAt(h, ms, vs, n - 1) <==> LeaksAt(h[vs[n - 1]], h[n - 1], ms[n - 1]);
      HistoryKeeps(h, ms, vs, n - 1);
      HistoryKeeps(h, ms, vs, vs[n - 1]);
      if forall i :: 0 <= i <= n - 1 ==> Clean(h[i]) {
        CleanIff(h[vs[n - 1]], h[n - 1], ms[n - 1]);
      }
    }
  }

  // ----- No lost update, no ABA -----

  /** A processed row later: gone for good, unchanged, or still processed with a strictly later revision. */
  ghost predicate MovedOn(id: Id, j: Job, t: Table) {
    && id in t.used
    && (id in t.jobs ==> t.jobs[id] == j || (t.jobs[id].status.Processed? && t.jobs[id].updatedAt > j.updatedAt))
  }

  /** The revision a flush leaves. */
  function Revision(seen: Job, cur: Job, now: int): int {
    Pick(seen.updatedAt, now, cur.updatedAt)
  }

  /** Writing over a processed row with a revision that is not later. */
  predicate Backdates(seen: Job, cur: Job, m: Move, left: Job) {
    Revision(seen, cur, left.updatedAt) <= cur.updatedAt && Merge(seen, left, cur, m) != cur
  }

  /** The embedding a late result leaves on a scorable job: what it does not bring stays. */
  function Combined(e: Embedding, cur: Embedding): Embedding {
    Embedding(e.vector, Pick(None, e.model, cur.model), Pick(None, e.dimensions, cur.dimensions))
  }

  /**
    The row checks let a late result in: a scorable one with a complete embedding, an unscorable one
    only over an unscorable one.
   */
  predicate ResultFits(cur: Job, quality: Quality, e: Embedding) {
    if Scorable(Some(quality)) then Complete(Combined(e, cur.embedding)) else cur.quality == Some(Unscorable)
  }

  /**
    What disturbs a processed job: a leak; new raw content judged on the placeholder, or a processing
    judged on the job still being processed, that lands and does not carry a later revision. A scorable
    job is only overwritten by a scorable result.
   */
  predicate Disturbs(seen: Job, t: Table, m: Move)
    requires m.id in t.jobs
  {
    var cur := t.jobs[m.id];
    match m
    case SetRaw(id, raw, now) =>
      IsPlaceholder(seen) && HashFree(t, id, Some(raw)) && Backdates(seen, cur, m, Left(seen, m).value)
    case MarkProcessed(_, _, quality, e, now) =>
      && seen.status.Processing?
      && ResultFits(cur, quality, e)
      && Backdates(seen, cur, m, Left(seen, m).value)
    case _ => Leaks(seen, cur, m)
  }

  predicate DisturbsAt(view: Table, t: Table, m: Move, id: Id) {
    m.id == id && id in view.jobs && id in t.jobs && Disturbs(view.jobs[id], t, m)
  }

  lemma RawLands(seen: Job, t: Table, m: Move)
    requires Settled(seen) && Inv(t) && m.SetRaw? && m.id in t.jobs && t.jobs[m.id].status.Processed?
    ensures MovedOn(m.id, t.jobs[m.id], FlushRow(seen, t, m)) <==> !Disturbs(seen, t, m)
  {
    hide HashFree;
    assert m.id in t.used;
    assert HashFree(t, m.id, t.jobs[m.id].raw);
  }

  lemma ResultLands(seen: Job, t: Table, m: Move)
    requires Settled(seen) && Inv(t) && m.MarkProcessed? && m.id in t.jobs && t.jobs[m.id].status.Processed?
    ensures MovedOn(m.id, t.jobs[m.id], FlushRow(seen, t, m)) <==> !Disturbs(seen, t, m)
  {
    hide HashFree;
    var cur := t.jobs[m.id];
    assert m.id in t.used && HashFree(t, m.id, cur.raw);
    var q := cur.quality.value;
    assert q.Full? || q.Partial? || q.Unscorable?;
    if seen.status.Processing? {
      ProcessedMerge(seen, cur, m);
    }
  }

  /** A result judged on a processing row passes the row checks iff it is complete where it must be. */
  lemma ProcessedMerge(seen: Job, cur: Job, m: Move)
    requires Settled(seen) && Settled(cur) && m.MarkProcessed? && seen.status.Processing? && cur.status.Processed?
    ensures var row := Merge(seen, Left(seen, m).value, cur, m);
            && row.status.Processed? && row.raw == cur.raw
            && (RowChecks(row) <==> ResultFits(cur, m.quality, m.embedding))
  {
    var q := cur.quality.value;
    assert q.Full? || q.Partial? || q.Unscorable?;
    assert seen.embedding == NO_EMBEDDING;
  }

  /**
    One step leaves a processed job unchanged, gone, or processed with a strictly later revision iff it
    does not disturb it.
   */
  lemma MovedOnIff(view: Table, t: Table, m: Move, id: Id)
    requires Inv(view) && Inv(t) && id in t.jobs && t.jobs[id].status.Processed?
    ensures MovedOn(id, t.jobs[id], Apply(view, t, m)) <==> !DisturbsAt(view, t, m, id)
  {
    hide HashFree, RowChecks, Settled, Inv, Merge, Left, Disturbs;
    InvRow(t, id);
    InvRow(view, id);
    InvUsed(t, id);
    if m.id == id && id in view.jobs && (m.MarkProcessing? || m.Retry? || m.MarkFailed?) {
      StatusGoes(view.jobs[id], t, m);
      DisturbsIsLeaks(view.jobs[id], t, m);
    } else if m.id == id && id in view.jobs && m.SetRaw? {
      RawLands(view.jobs[id], t, m);
    } else if m.id == id && id in view.jobs && m.MarkProcessed? {
      ResultLands(view.jobs[id], t, m);
    } else {
      OtherwiseMovedOn(view, t, m, id);
    }
  }

  lemma InvUsed(t: Table, id: Id)
    requires Inv(t) && id in t.jobs
    ensures id in t.used
  {}

  lemma DisturbsIsLeaks(seen: Job, t: Table, m: Move)
    requires m.id in t.jobs && (m.MarkProcessing? || m.Retry? || m.MarkFailed?)
    ensures Disturbs(seen, t, m) <==> Leaks(seen, t.jobs[m.id], m)
  {}

  lemma OtherwiseMovedOn(view: Table, t: Table, m: Move, id: Id)
    requires id in t.jobs && id in t.used && t.jobs[id].status.Processed?
    requires !(m.id == id && id in view.jobs
               && (m.MarkProcessing? || m.Retry? || m.MarkFailed? || m.SetRaw? || m.MarkProcessed?))
    ensures MovedOn(id, t.jobs[id], Apply(view, t, m)) && !DisturbsAt(view, t, m, id)
  {
    hide HashFree, RowChecks;
  }

  /** No step from `a` on disturbs the job. */
  ghost predicate Undisturbed(h: seq<Table>, ms: seq<Move>, vs: seq<nat>, id: Id, a: nat, b: nat)
    requires History(h, ms, vs) && a <= b < |h|
  {
    forall i :: a <= i < b ==> !DisturbedAt(h, ms, vs, id, i)
  }

  ghost predicate DisturbedAt(h: seq<Table>, ms: seq<Move>, vs: seq<nat>, id: Id, i: nat)
    requires History(h, ms, vs) && i < |ms|
  {
    StepAt(h, ms, vs, i) && DisturbsAt(h[vs[i]], h[i], ms[i], id)
  }

  /** Once processed, an undisturbed job is gone for good, unchanged, or processed with a strictly later revision. */
  lemma {:induction false} UndisturbedMovesOn(h: seq<Table>, ms: seq<Move>, vs: seq<nat>, id: Id, a: nat, b: nat)
    requires History(h, ms, vs) && a <= b < |h| && id in h[a].jobs && h[a].jobs[id].status.Processed?
    requires Undisturbed(h, ms, vs, id, a, b)
    ensures MovedOn(id, h[a].jobs[id], h[b])
    decreases b
  {
    hide Inv, Apply, DisturbsAt;
    HistoryKeeps(h, ms, vs, a);
    InvUsed(h[a], id);
    if a < b {
      UndisturbedMovesOn(h, ms, vs, id, a, b - 1);
      assert StepAt(h, ms, vs, b - 1) && !DisturbedAt(h, ms, vs, id, b - 1);
      var v := vs[b - 1];
      HistoryKeeps(h, ms, vs, b - 1);
      HistoryKeeps(h, ms, vs, v);
      if id in h[b - 1].jobs {
        MovedOnIff(h[v], h[b - 1], ms[b - 1], id);
      } else {
        GoneStaysGone(h[v], h[b - 1], ms[b - 1], id);
      }
    }
  }

  lemma GoneStaysGone(view: Table, t: Table, m: Move, id: Id)
    requires id in t.used && id !in t.jobs
    ensures id in Apply(view, t, m).used && id !in Apply(view, t, m).jobs
  {
    hide HashFree, RowChecks, Merge;
  }

  /**
    The first step that disturbs a processed job is exactly where it stops moving on; up to then its
    revision never returns, whatever the clock does.
   */
  lemma MovesOnUntilDisturbed(h: seq<Table>, ms: seq<Move>, vs: seq<nat>, id: Id, a: nat, b: nat)
    requires History(h, ms, vs) && a <= b < |ms| && id in h[a].jobs && h[a].jobs[id].status.Processed?
    requires Undisturbed(h, ms, vs, id, a, b)
    ensures MovedOn(id, h[a].jobs[id], h[b])
    ensures id in h[b].jobs ==> (MovedOn(id, h[b].jobs[id], h[b + 1]) <==> !DisturbedAt(h, ms, vs, id, b))
  {
    hide Inv, Apply, DisturbsAt;
    UndisturbedMovesOn(h, ms, vs, id, a, b);
    assert StepAt(h, ms, vs, b);
    HistoryKeeps(h, ms, vs, b);
    HistoryKeeps(h, ms, vs, vs[b]);
    if id in h[b].jobs {
      MovedOnIff(h[vs[b]], h[b], ms[b], id);
    }
  }

  /**
    No lost update: a replacement with the revision captured from a processed job, after any history
    that did not disturb the job, lands iff the row is still exactly the captured one.
   */
  lemma ReplacementSeesItsCapture(
    h: seq<Table>, ms: seq<Move>, vs: seq<nat>, id: Id, a: nat, b: nat, doc: Doc, quality: Quality, e: Embedding,
    now: int)
    requires History(h, ms, vs) && a <= b < |h| && id in h[a].jobs && h[a].jobs[id].status.Processed?
    requires Undisturbed(h, ms, vs, id, a, b) && ReplaceArguments(quality, e)
    ensures var after := Apply(h[a], h[b], Replace(id, h[a].jobs[id].updatedAt, doc, quality, e, now));
            && (after != h[b] <==> id in h[b].jobs && h[b].jobs[id] == h[a].jobs[id])
            && (after != h[b] ==>
                  after.jobs[id].updatedAt > h[a].jobs[id].updatedAt && after.jobs[id].extraction == Some(doc))
  {
    hide HashFree, History, Undisturbed;
    UndisturbedMovesOn(h, ms, vs, id, a, b);
    HistoryKeeps(h, ms, vs, b);
    if id in h[b].jobs {
      assert HashFree(h[b], id, h[b].jobs[id].raw);
    }
  }

  /**
    Judged on a processing row whose revision the clock repeats, a second result overwrites a processed
    job and leaves the revision as it was: a replacement captured before it then lands over it.
   */
  lemma RepeatedClockHidesAResult(seen: Job, t: Table, id: Id, doc: Doc, e: Embedding)
    requires Settled(seen) && seen.status.Processing? && seen.extraction.None? && seen.quality.None?
    requires Inv(t) && id in t.jobs && t.jobs[id].status.Processed? && Complete(e) && t.jobs[id].extraction != Some(doc)
    ensures var m := MarkProcessed(id, doc, Full, e, seen.updatedAt); var u := FlushRow(seen, t, m);
            && Disturbs(seen, t, m) && u.jobs[id].extraction == Some(doc)
            && u.jobs[id].updatedAt == t.jobs[id].updatedAt
  {
    hide HashFree;
    var m := MarkProcessed(id, doc, Full, e, seen.updatedAt);
    assert HashFree(t, id, t.jobs[id].raw);
    ProcessedMerge(seen, t.jobs[id], m);
  }

  // ----- Current reads -----

  /** A function that reads the row it writes leaves exactly what it assigned. */
  lemma CurrentReadsWriteAll(t: Table, m: Move)
    requires m.id in t.jobs && Left(t.jobs[m.id], m).Some?
    ensures Apply(t, t, m) == Store(t, m.id, Left(t.jobs[m.id], m).value)
  {
    hide HashFree, RowChecks, Store;
  }

  /** It never disturbs a processed job, and never leaks. */
  lemma CurrentReadsAreSafe(t: Table, m: Move, id: Id)
    requires id in t.jobs && t.jobs[id].status.Processed?
    ensures !DisturbsAt(t, t, m, id) && !LeaksAt(t, t, m)
  {
    hide HashFree;
  }

  /**
    Some next step with current reads changes the row and leaves its revision as it was, if the clock
    repeats itself.
   */
  ghost predicate RevisionCanRepeat(t: Table, id: Id)
    requires id in t.jobs
  {
    exists m :: id in Apply(t, t, m).jobs && Apply(t, t, m).jobs[id] != t.jobs[id]
      && Apply(t, t, m).jobs[id].updatedAt == t.jobs[id].updatedAt
  }

  /** With current reads the revision check is safe against a repeating clock iff the captured job was processed. */
  lemma RevisionRepeatsIffUnprocessed(t: Table, id: Id)
    requires Inv(t) && id in t.jobs
    ensures RevisionCanRepeat(t, id) <==> !t.jobs[id].status.Processed?
  {
    hide HashFree, DisturbsAt, LeaksAt;
    var j := t.jobs[id];
    if j.status.Processed? {
      forall m ensures id in Apply(t, t, m).jobs ==>
          Apply(t, t, m).jobs[id] == j || Apply(t, t, m).jobs[id].updatedAt != j.updatedAt {
        CurrentReadsAreSafe(t, m, id);
        MovedOnIff(t, t, m, id);
      }
    } else {
      SomeChange(t, id);
    }
  }

  lemma SomeChange(t: Table, id: Id)
    requires Inv(t) && id in t.jobs && !t.jobs[id].status.Processed?
    ensures RevisionCanRepeat(t, id)
  {
    hide HashFree, Merge;
    var j := t.jobs[id];
    var m := if j.status.Failed? then Retry(id, j.updatedAt) else MarkFailed(id, Id("code"), j.updatedAt);
    CurrentReadsWriteAll(t, m);
    assert HashFree(t, id, j.raw);
    assert Apply(t, t, m).jobs[id].status != j.status;
  }
}
