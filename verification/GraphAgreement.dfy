/** After a complete rebuild of a SQLite snapshot, all three checks accept every ready profile. */
module GraphAgreement {
  import opened Common
  import opened Text
  import opened Stamps
  import opened GraphModel
  import opened ScopedIds
  import opened SyncPrograms
  import opened SqliteSide
  import opened GraphSync
  import opened GraphInvariant
  import opened GraphRebuild
  import opened GraphCounts
  import opened GraphChecks

  /** Profile and attachment ids hold no colon and are not blank; job ids are not blank. */
  predicate CleanIds(db: Sqlite) {
    && (forall i :: 0 <= i < |db.profiles| ==>
          && Colons(db.profiles[i].id) == 0 && !IsBlank(db.profiles[i].id)
          && Colons(db.profiles[i].attachmentId) == 0 && !IsBlank(db.profiles[i].attachmentId)
          && (db.profiles[i].attachmentId in db.documents ==>
                CleanDocument(db.documents[db.profiles[i].attachmentId])))
    && (forall i :: 0 <= i < |db.jobs| ==> !IsBlank(db.jobs[i].id))
  }

  predicate CleanDocument(row: DocumentRow) {
    row.document.Some? ==> Colons(row.document.value.attachmentId) == 0
  }

  lemma LoadedProfileIsItsRow(db: Sqlite, row: ProfileRow)
    requires LoadProfile(db, row).Ok? && row in db.profiles && CleanIds(db)
    ensures SourceOf(LoadProfile(db, row).value) && LoadProfile(db, row).value.candidate.pid == Id(row.id)
  {}

  lemma SnapshotIsKeyed(db: Sqlite, t: Taxonomy)
    requires LoadInputs(db, t).Ok? && PrimaryKeys(db) && CleanIds(db)
    ensures SnapshotKeys(LoadInputs(db, t).value)
  {
    var input := LoadInputs(db, t).value;
    LoadedProfileIdsDistinct(db, db.profiles);
    LoadedJobIdsDistinct(db.jobs);
    LoadedProfilesAreReadyRows(db, db.profiles);
    forall i | 0 <= i < |input.profiles| ensures SourceOf(input.profiles[i]) {
      assert input.profiles[i] in input.profiles;
      var k :| 0 <= k < |db.profiles| && db.profiles[k].state.Ready?
          && LoadProfile(db, db.profiles[k]) == Ok(input.profiles[i]);
      LoadedProfileIsItsRow(db, db.profiles[k]);
    }
  }

  lemma {:induction false} FoundByKey(rows: seq<ProfileRow>, i: nat)
    requires i < |rows| && forall a, b :: 0 <= a < b < |rows| ==> rows[a].id != rows[b].id
    ensures FindProfile(rows, rows[i].id) == Some(rows[i])
    decreases |rows|
  {
    if i < |rows| - 1 {
      assert rows[..|rows| - 1][i] == rows[i];
      FoundByKey(rows[..|rows| - 1], i);
    }
  }

  /** Where a ready row went, after a successful preflight. */
  lemma ReadyRowLoaded(db: Sqlite, t: Taxonomy, i: nat) returns (k: nat)
    requires LoadInputs(db, t).Ok? && PrimaryKeys(db) && CleanIds(db)
    requires i < |db.profiles| && db.profiles[i].state.Ready?
    ensures var input := LoadInputs(db, t).value;
            && k < |input.profiles| && LoadProfile(db, db.profiles[i]) == Ok(input.profiles[k])
            && input.profiles[k].candidate.pid == Id(db.profiles[i].id)
    ensures ProfileRowOf(db, db.profiles[i].id) == Some(db.profiles[i])
  {
    var input := LoadInputs(db, t).value;
    LoadedProfilesAreReadyRows(db, db.profiles);
    LoadedProfileIsItsRow(db, db.profiles[i]);
    FoundByKey(db.profiles, i);
    k :| 0 <= k < |input.profiles| && input.profiles[k] == LoadProfile(db, db.profiles[i]).value;
  }

  // ----- Revisions -----

  lemma InstantsUpdate(jobs: map<Id, JobNode>, j: JobInput)
    ensures Instants(JobStamps(jobs[j.jid := JobNodeOf(j)]))
            == Instants(JobStamps(jobs))[j.jid := InstantOf(j.updatedAt)]
  {}

  lemma {:induction false} JobRevisionsAgree(rows: seq<JobRow>)
    requires LoadJobs(rows).Ok?
    ensures SourceRevisions(ScorableRows(rows)) == Instants(JobStamps(JobMap(LoadJobs(rows).value)))
    decreases |rows|
  {
    if rows != [] {
      var front, last := rows[..|rows| - 1], rows[|rows| - 1];
      JobRevisionsAgree(front);
      if Scorable(last) {
        var js, j := LoadJobs(front).value, LoadJob(last).value;
        var before, row := ScorableRows(front), SourceRow(Id(last.id), last.updatedAt);
        assert (js + [j])[..|js|] == js && (before + [row])[..|before|] == before;
        InstantsUpdate(JobMap(js), j);
      } else {
        assert ScorableRows(front) + [] == ScorableRows(front);
      }
    }
  }

  lemma {:induction false} CandidateStamp(ps: seq<ReadyProfile>, i: nat)
    requires i < |ps| && forall a, b :: 0 <= a < b < |ps| ==> ps[a].candidate.pid != ps[b].candidate.pid
    ensures ps[i].candidate.pid in CandidateMap(ps)
         && CandidateMap(ps)[ps[i].candidate.pid] == IsoUtc(ps[i].candidate.updatedAt)
    decreases |ps|
  {
    if i < |ps| - 1 {
      assert ps[..|ps| - 1][i] == ps[i];
      CandidateStamp(ps[..|ps| - 1], i);
    }
  }

  lemma {:induction false} JobIdsNonBlank(rows: seq<JobRow>)
    requires LoadJobs(rows).Ok? && forall i :: 0 <= i < |rows| ==> !IsBlank(rows[i].id)
    ensures Readable(JobStamps(JobMap(LoadJobs(rows).value)))
    decreases |rows|
  {
    if rows != [] {
      var front, last := rows[..|rows| - 1], rows[|rows| - 1];
      JobIdsNonBlank(front);
      if Scorable(last) {
        var js := LoadJobs(front).value;
        assert (js + [LoadJob(last).value])[..|js|] == js;
      }
    }
  }

  lemma RebuiltRevisionNodes(input: RebuildInputs, g: Graph, k: nat)
    requires WellFormed(g) && SnapshotKeys(input) && k < |input.profiles|
    ensures var r, c := RunAll(RebuildProgram(input), g).skill, input.profiles[k].candidate;
            c.pid in r.candidates && r.candidates[c.pid] == IsoUtc(c.updatedAt) && r.jobs == JobMap(input.jobs)
  {
    RebuildEqualsProjection(input, g);
    CandidateStamp(input.profiles, k);
  }

  lemma OwnInstants(candidates: map<Id, StampText>, pid: Id, updatedAt: PyDatetime)
    requires pid in candidates && candidates[pid] == IsoUtc(updatedAt) && !IsBlank(pid.text)
    ensures var own := map k | k in candidates && k == pid :: candidates[k];
            Readable(own) && Instants(own) == map[pid := InstantOf(updatedAt)]
  {}

  /** The revision check accepts each ready profile on the rebuilt graph. */
  lemma RebuiltRevisionsAccepted(db: Sqlite, t: Taxonomy, g: Graph, i: nat, jobRows: seq<RevisionRow>)
    requires LoadInputs(db, t).Ok? && PrimaryKeys(db) && CleanIds(db) && WellFormed(g)
    requires i < |db.profiles| && db.profiles[i].state.Ready?
    requires Lists(jobRows, JobStamps(RunAll(RebuildProgram(LoadInputs(db, t).value), g).skill.jobs))
    ensures var r := RunAll(RebuildProgram(LoadInputs(db, t).value), g);
            RevisionVerdict(db, db.profiles[i].id, CandidateRowsOf(r, Id(db.profiles[i].id)), jobRows)
  {
    var input, row := LoadInputs(db, t).value, db.profiles[i];
    SnapshotIsKeyed(db, t);
    var k := ReadyRowLoaded(db, t, i);
    RebuiltRevisionNodes(input, g, k);
    JobRevisionsAgree(db.jobs);
    JobIdsNonBlank(db.jobs);
    hide RunAll, RebuildProgram, LoadInputs, WellFormed;
    var r := RunAll(RebuildProgram(input), g);
    OwnInstants(r.skill.candidates, Id(row.id), row.updatedAt);
    RevisionVerdictExact(db, r, row.id, jobRows);
  }

  // ----- Active CV -----

  lemma {:induction false} SourceNodeKept(ps: seq<ReadyProfile>, i: nat)
    requires i < |ps| && forall a, b :: 0 <= a < b < |ps| ==> ps[a].candidate.pid != ps[b].candidate.pid
    requires forall a :: 0 <= a < |ps| ==> SourceOf(ps[a])
    ensures SourceCvId(ps[i].source) in ProjectedCvs(ps).cvs
         && ProjectedCvs(ps).cvs[SourceCvId(ps[i].source)] == SourceNode(ps[i].source)
    decreases |ps|
  {
    if i < |ps| - 1 {
      assert ps[..|ps| - 1][i] == ps[i];
      SourceNodeKept(ps[..|ps| - 1], i);
      SourcesDiffer(ps[i], ps[|ps| - 1]);
    }
  }

  lemma OnlyItsOwnLink(ps: seq<ReadyProfile>, k: nat, l: Link)
    requires k < |ps| && forall a, b :: 0 <= a < b < |ps| ==> ps[a].candidate.pid != ps[b].candidate.pid
    requires l in ProjectedLinks(ps) && l.dst == ps[k].candidate.pid
    ensures l == ProfileLink(ps[k])
  {}

  lemma ProjectingRows(g: Graph, ps: seq<ReadyProfile>, k: nat, rows: seq<CvNode>)
    requires k < |ps| && forall a, b :: 0 <= a < b < |ps| ==> ps[a].candidate.pid != ps[b].candidate.pid
    requires forall a :: 0 <= a < |ps| ==> SourceOf(ps[a])
    requires g.cv == ProjectedCvs(ps) && g.projectsTo == ProjectedLinks(ps)
    requires ListsProjecting(rows, g, ps[k].candidate.pid)
    ensures rows != [] && rows[0] == SourceNode(ps[k].source)
  {
    SourceNodeKept(ps, k);
    assert ps[k] in ps;
    assert ProfileLink(ps[k]) in g.projectsTo;
    assert SourceNode(ps[k].source) in rows;
    assert rows[0] in rows;
    var l :| l in g.projectsTo && l.dst == ps[k].candidate.pid && l.src in g.cv.cvs && g.cv.cvs[l.src] == rows[0];
    OnlyItsOwnLink(ps, k, l);
  }

  lemma OneProjectingCv(input: RebuildInputs, k: nat, rows: seq<CvNode>, g: Graph)
    requires WellFormed(g) && SnapshotKeys(input) && k < |input.profiles|
    requires ListsProjecting(rows, RunAll(RebuildProgram(input), g), input.profiles[k].candidate.pid)
    ensures rows != [] && rows[0] == SourceNode(input.profiles[k].source)
  {
    RebuildEqualsProjection(input, g);
    ProjectingRows(RunAll(RebuildProgram(input), g), input.profiles, k, rows);
  }

  /** The stored document, if any, names the attachment it is filed under. */
  predicate DocumentNamesAttachment(db: Sqlite, row: ProfileRow) {
    row.attachmentId in db.documents && db.documents[row.attachmentId].document.Some? ==>
      db.documents[row.attachmentId].document.value.attachmentId == row.attachmentId
  }

  lemma VerdictOnSource(db: Sqlite, row: ProfileRow, p: ReadyProfile, rows: seq<CvNode>)
    requires LoadProfile(db, row) == Ok(p) && !IsBlank(row.attachmentId)
    requires ProfileRowOf(db, row.id) == Some(row)
    requires rows != [] && rows[0] == SourceNode(p.source)
    ensures ActiveCvVerdict(db, row.id, GraphActiveCv(rows)) <==> DocumentNamesAttachment(db, row)
  {}

  /**
    The active-CV check accepts a ready profile on the rebuilt graph iff the stored document names
    the attachment it is filed under: the graph takes the id from the document, the check from the profile.
   */
  lemma RebuiltActiveCvAccepted(db: Sqlite, t: Taxonomy, g: Graph, i: nat, rows: seq<CvNode>)
    requires LoadInputs(db, t).Ok? && PrimaryKeys(db) && CleanIds(db) && WellFormed(g)
    requires i < |db.profiles| && db.profiles[i].state.Ready?
    requires ListsProjecting(rows, RunAll(RebuildProgram(LoadInputs(db, t).value), g), Id(db.profiles[i].id))
    ensures ActiveCvVerdict(db, db.profiles[i].id, GraphActiveCv(rows)) <==> DocumentNamesAttachment(db, db.profiles[i])
  {
    SnapshotIsKeyed(db, t);
    var k := ReadyRowLoaded(db, t, i);
    OneProjectingCv(LoadInputs(db, t).value, k, rows, g);
    VerdictOnSource(db, db.profiles[i], LoadInputs(db, t).value.profiles[k], rows);
  }

  // ----- Skill relationships -----

  lemma {:induction false} ProfileSlice(ps: seq<ReadyProfile>, i: nat)
    requires i < |ps| && forall a, b :: 0 <= a < b < |ps| ==> ps[a].candidate.pid != ps[b].candidate.pid
    ensures var own := RowMap(HasSkill, ps[i].candidate.pid, CandidateRows(ps[i].candidate));
            forall e: EdgeKey :: e.rel == HasSkill && e.owner == ps[i].candidate.pid ==>
              (e in ProfileEdges(ps) <==> e in own) && (e in own ==> ProfileEdges(ps)[e] == own[e])
    decreases |ps|
  {
    var front, c := ps[..|ps| - 1], ps[|ps| - 1].candidate;
    MergeSkillRowsSplit(map[], HasSkill, c.pid, CandidateRows(c));
    if i < |front| {
      assert front[i] == ps[i];
      ProfileSlice(front, i);
    } else {
      NoEdgesYet(front, c.pid);
    }
  }

  function JobRowMap(j: JobInput): map<EdgeKey, SkillRel> {
    RowMap(Requires, j.jid, RequiredRows(j)) + RowMap(Prefers, j.jid, PreferredRows(j))
  }

  lemma JobRowMapOwned(j: JobInput)
    ensures forall e :: e in JobRowMap(j) ==> e.owner == j.jid && !e.rel.HasSkill?
  {
    hide RequiredRows, PreferredRows;
    MergeSkillRowsSplit(map[], Requires, j.jid, RequiredRows(j));
    MergeSkillRowsSplit(map[], Prefers, j.jid, PreferredRows(j));
  }

  lemma JobEdgesGrow(js: seq<JobInput>)
    requires js != []
    ensures JobEdges(js) == JobEdges(js[..|js| - 1]) + JobRowMap(js[|js| - 1])
  {
    hide RowMap, RequiredRows, PreferredRows;
  }

  lemma {:induction false} JobSlice(js: seq<JobInput>, i: nat)
    requires i < |js| && forall a, b :: 0 <= a < b < |js| ==> js[a].jid != js[b].jid
    ensures forall e: EdgeKey :: !e.rel.HasSkill? && e.owner == js[i].jid ==>
              (e in JobEdges(js) <==> e in JobRowMap(js[i]))
                && (e in JobRowMap(js[i]) ==> JobEdges(js)[e] == JobRowMap(js[i])[e])
    decreases |js|
  {
    var front, j := js[..|js| - 1], js[|js| - 1];
    JobEdgesGrow(js);
    JobRowMapOwned(j);
    if i < |front| {
      assert front[i] == js[i];
      JobSlice(front, i);
    } else {
      NoEdgesOfNewJob(front, j.jid);
    }
    hide JobEdges, JobRowMap;
  }

  lemma ExpectedJobDistinct(j: JobInput)
    requires DistinctKeys(RequiredRows(j)) && DistinctKeys(PreferredRows(j))
    ensures Distinct(ExpectedJob(j))
  {}

  lemma ExpectedIsStored(
    j: JobInput, rel: RelType, rows: seq<SkillRow>, edges: map<EdgeKey, SkillRel>, stored: seq<Selected>)
    requires (rel == Requires && rows == RequiredRows(j)) || (rel == Prefers && rows == PreferredRows(j))
    requires DistinctKeys(rows)
    requires forall e: EdgeKey :: !e.rel.HasSkill? && e.owner == j.jid ==>
               (e in edges <==> e in JobRowMap(j)) && (e in JobRowMap(j) ==> edges[e] == JobRowMap(j)[e])
    requires ListsEdges(stored, edges, {Requires, Prefers}, j.jid)
    ensures forall x :: x in ExpectedOf(rel, rows) ==> x in stored
  {
    RowMapValues(rel, j.jid, rows);
    MergeSkillRowsSplit(map[], Requires, j.jid, RequiredRows(j));
    MergeSkillRowsSplit(map[], Prefers, j.jid, PreferredRows(j));
    forall x | x in ExpectedOf(rel, rows) ensures x in stored {
      var i :| 0 <= i < |rows| && ExpectedOf(rel, rows)[i] == x;
      assert EdgeKey(rel, j.jid, rows[i].key) in JobRowMap(j);
    }
  }

  lemma JobRowsStored(j: JobInput, edges: map<EdgeKey, SkillRel>, stored: seq<Selected>)
    requires DistinctKeys(RequiredRows(j)) && DistinctKeys(PreferredRows(j))
    requires forall e: EdgeKey :: !e.rel.HasSkill? && e.owner == j.jid ==>
               (e in edges <==> e in JobRowMap(j)) && (e in JobRowMap(j) ==> edges[e] == JobRowMap(j)[e])
    requires ListsEdges(stored, edges, {Requires, Prefers}, j.jid)
    ensures multiset(ExpectedJob(j)) == multiset(stored)
  {
    ExpectedJobDistinct(j);
    ExpectedIsStored(j, Requires, RequiredRows(j), edges, stored);
    ExpectedIsStored(j, Prefers, PreferredRows(j), edges, stored);
    forall x | x in stored ensures x in ExpectedJob(j) {
      StoredIsExpected(j, edges, x);
    }
    SameElementsSameMultiset(ExpectedJob(j), stored);
  }

  lemma StoredIsExpected(j: JobInput, edges: map<EdgeKey, SkillRel>, x: Selected)
    requires DistinctKeys(RequiredRows(j)) && DistinctKeys(PreferredRows(j))
    requires !x.rel.HasSkill? && EdgeKey(x.rel, j.jid, x.key) in JobRowMap(j)
    requires x.props == JobRowMap(j)[EdgeKey(x.rel, j.jid, x.key)]
    ensures x in ExpectedJob(j)
  {
    var rows := if x.rel.Requires? then RequiredRows(j) else PreferredRows(j);
    MergeSkillRowsSplit(map[], Requires, j.jid, RequiredRows(j));
    MergeSkillRowsSplit(map[], Prefers, j.jid, PreferredRows(j));
    RowMapValues(x.rel, j.jid, rows);
    assert EdgeKey(x.rel, j.jid, x.key) in RowEdges(x.rel, j.jid, rows);
    var r :| r in rows && r.key == x.key;
    var i :| 0 <= i < |rows| && rows[i] == r;
    assert ExpectedOf(x.rel, rows)[i] == x;
  }

  /**
    On the rebuilt graph the selected-skill check accepts every ready profile with every scorable
    job, given distinct keys per list and at most 201 relationships per read.
   */
  lemma RebuiltSkillsAccepted(
    input: RebuildInputs, g: Graph, i: nat, k: nat, candidate: seq<Selected>, job: seq<Selected>)
    requires WellFormed(g) && SnapshotKeys(input) && Unique(input)
    requires i < |input.profiles| && k < |input.jobs|
    requires var edges := RunAll(RebuildProgram(input), g).skill.edges;
             && ListsEdges(candidate, edges, {HasSkill}, input.profiles[i].candidate.pid)
             && ListsEdges(job, edges, {Requires, Prefers}, input.jobs[k].jid)
    requires |candidate| <= READ_LIMIT && |job| <= READ_LIMIT && NoBlankKeys(candidate) && NoBlankKeys(job)
    ensures SkillVerdict(ExpectedOf(HasSkill, CandidateRows(input.profiles[i].candidate)), candidate)
    ensures SkillVerdict(ExpectedJob(input.jobs[k]), job)
  {
    var edges := RunAll(RebuildProgram(input), g).skill.edges;
    RebuildEqualsProjection(input, g);
    ProfileEdgesOwners(input.profiles);
    JobEdgesOwners(input.jobs);
    ProfileSlice(input.profiles, i);
    JobSlice(input.jobs, k);
    var c := input.profiles[i].candidate;
    DistinctRowsStored(HasSkill, c.pid, CandidateRows(c), edges, candidate);
    JobRowsStored(input.jobs[k], edges, job);
    VerdictIsEquality(ExpectedOf(HasSkill, CandidateRows(c)), candidate);
    VerdictIsEquality(ExpectedJob(input.jobs[k]), job);
  }
}
