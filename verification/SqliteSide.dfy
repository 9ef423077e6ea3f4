/** The SQLite rows that rebuild and the consistency checks read, and the read-only rebuild preflight. */
module SqliteSide {
  import opened Common
  import opened Stamps
  import opened GraphModel
  import opened SyncPrograms

  datatype ProfileState = Pending | Ready | Deleting
  /** `skills` is the parsed profile document; None stands for JSON that fails validation. */
  datatype ProfileRow = ProfileRow(
    id: string, attachmentId: string, state: ProfileState, sourceHash: Option<string>,
    skills: Option<seq<CandidateSkill>>, updatedAt: PyDatetime)
  datatype AttachmentRow = AttachmentRow(originalName: string, updatedAt: PyDatetime)
  datatype DocumentRow = DocumentRow(
    document: Option<CvDocument>, extractionVersion: string, sourceHash: string, updatedAt: PyDatetime)
  /** `embedding` is None when the stored vector fails the locked contract. */
  datatype JobRow = JobRow(
    id: string, processed: bool, quality: Option<string>, extraction: Option<JobExtraction>,
    embedding: Option<seq<real>>, updatedAt: PyDatetime)

  /** Profiles in id order and jobs in (created_at, id) order, as the queries return them. */
  datatype Sqlite = Sqlite(
    profiles: seq<ProfileRow>, attachments: map<string, AttachmentRow>,
    documents: map<string, DocumentRow>, jobs: seq<JobRow>)

  datatype RebuildError =
    | CandidateInvalid | CvActiveMissing | CvInvalid | EmbeddingConfigMismatch | JobInvalid | ProjectionFailed

  predicate Scorable(row: JobRow) {
    row.processed && (row.quality == Some("full") || row.quality == Some("partial"))
  }

  function LoadProfile(db: Sqlite, row: ProfileRow): Result<ReadyProfile, RebuildError> {
    if row.sourceHash.None? || row.skills.None? then Err(CandidateInvalid)
    else if row.attachmentId !in db.attachments then Err(CvActiveMissing)
    else
      var attachment := db.attachments[row.attachmentId];
      var candidate := CandidateInput(Id(row.id), row.skills.value, row.updatedAt);
      if row.attachmentId !in db.documents then
        Ok(ReadyProfile(candidate, Legacy(LegacyCv(row.id, row.attachmentId, attachment.originalName,
                                                   row.sourceHash.value, attachment.updatedAt))))
      else
        var doc := db.documents[row.attachmentId];
        if doc.document.None? then Err(CvInvalid)
        else Ok(ReadyProfile(candidate, Structured(CvInput(row.id, doc.document.value, attachment.originalName,
                                                           doc.extractionVersion, Some(doc.sourceHash),
                                                           doc.updatedAt, true))))
  }

  function LoadProfiles(db: Sqlite, rows: seq<ProfileRow>): Result<seq<ReadyProfile>, RebuildError> {
    if rows == [] then Ok([])
    else
      var front, last := LoadProfiles(db, rows[..|rows| - 1]), rows[|rows| - 1];
      if front.Err? || !last.state.Ready? then front
      else
        match LoadProfile(db, last)
        case Ok(p) => Ok(front.value + [p])
        case Err(e) => Err(e)
  }

  function LoadJob(row: JobRow): Result<JobInput, RebuildError>
    requires Scorable(row)
  {
    if row.embedding.None? then Err(EmbeddingConfigMismatch)
    else if row.extraction.None? then Err(JobInvalid)
    else Ok(JobInput(Id(row.id), row.extraction.value, row.quality.value, row.embedding.value, row.updatedAt))
  }

  function LoadJobs(rows: seq<JobRow>): Result<seq<JobInput>, RebuildError> {
    if rows == [] then Ok([])
    else
      var front, last := LoadJobs(rows[..|rows| - 1]), rows[|rows| - 1];
      if front.Err? || !Scorable(last) then front
      else
        match LoadJob(last)
        case Ok(j) => Ok(front.value + [j])
        case Err(e) => Err(e)
  }

  /** Profiles are read before jobs; the first invalid row decides the error. */
  function LoadInputs(db: Sqlite, t: Taxonomy): Result<RebuildInputs, RebuildError> {
    match LoadProfiles(db, db.profiles)
    case Err(e) => Err(e)
    case Ok(profiles) =>
      match LoadJobs(db.jobs)
      case Err(e) => Err(e)
      case Ok(jobs) => Ok(RebuildInputs(profiles, jobs, t))
  }

  /** The two reading loops, appending row by row and stopping at the first bad row. */
  method LoadRebuildInputs(db: Sqlite, t: Taxonomy) returns (r: Result<RebuildInputs, RebuildError>)
    ensures r == LoadInputs(db, t)
  {
    var ready: seq<ReadyProfile> := [];
    for i := 0 to |db.profiles|
      invariant LoadProfiles(db, db.profiles[..i]) == Ok(ready)
    {
      assert db.profiles[..i + 1][..i] == db.profiles[..i];
      if db.profiles[i].state.Ready? {
        match LoadProfile(db, db.profiles[i]) {
          case Ok(p) => ready := ready + [p];
          case Err(e) =>
            FirstBadProfileDecides(db, i, e);
            return Err(e);
        }
      }
    }
    assert db.profiles[..|db.profiles|] == db.profiles;
    var scorable: seq<JobInput> := [];
    for i := 0 to |db.jobs|
      invariant LoadJobs(db.jobs[..i]) == Ok(scorable)
    {
      assert db.jobs[..i + 1][..i] == db.jobs[..i];
      if Scorable(db.jobs[i]) {
        match LoadJob(db.jobs[i]) {
          case Ok(j) => scorable := scorable + [j];
          case Err(e) =>
            FirstBadJobDecides(db.jobs, i, e);
            return Err(e);
        }
      }
    }
    assert db.jobs[..|db.jobs|] == db.jobs;
    return Ok(RebuildInputs(ready, scorable, t));
  }

  lemma FirstBadProfileDecides(db: Sqlite, i: nat, e: RebuildError)
    requires i < |db.profiles| && LoadProfiles(db, db.profiles[..i + 1]) == Err(e)
    ensures LoadProfiles(db, db.profiles) == Err(e)
  {
    BadPrefixDecides(db, db.profiles, i + 1, e);
  }

  lemma {:induction false} BadPrefixDecides(db: Sqlite, rows: seq<ProfileRow>, k: nat, e: RebuildError)
    requires k <= |rows| && LoadProfiles(db, rows[..k]) == Err(e)
    ensures LoadProfiles(db, rows) == Err(e)
    decreases |rows|
  {
    if k == |rows| {
      assert rows[..k] == rows;
    } else {
      assert rows[..|rows| - 1][..k] == rows[..k];
      BadPrefixDecides(db, rows[..|rows| - 1], k, e);
    }
  }

  lemma {:induction false} FirstBadJobDecides(rows: seq<JobRow>, i: nat, e: RebuildError)
    requires i < |rows| && LoadJobs(rows[..i + 1]) == Err(e)
    ensures LoadJobs(rows) == Err(e)
    decreases |rows|
  {
    if i + 1 == |rows| {
      assert rows[..i + 1] == rows;
    } else {
      assert rows[..|rows| - 1][..i + 1] == rows[..i + 1];
      FirstBadJobDecides(rows[..|rows| - 1], i, e);
    }
  }

  // ----- What a successful preflight says about the rows -----

  /** The loaded profiles are exactly the ready rows, each projected from its own row. */
  lemma {:induction false} LoadedProfilesAreReadyRows(db: Sqlite, rows: seq<ProfileRow>)
    requires LoadProfiles(db, rows).Ok?
    ensures var ps := LoadProfiles(db, rows).value;
            && (forall i :: 0 <= i < |rows| && rows[i].state.Ready? ==>
                  LoadProfile(db, rows[i]).Ok? && LoadProfile(db, rows[i]).value in ps)
            && (forall p :: p in ps ==>
                  exists i :: 0 <= i < |rows| && rows[i].state.Ready? && LoadProfile(db, rows[i]) == Ok(p))
    decreases |rows|
  {
    if rows != [] {
      var n := |rows| - 1;
      LoadedProfilesAreReadyRows(db, rows[..n]);
      var ps, front := LoadProfiles(db, rows).value, LoadProfiles(db, rows[..n]).value;
      forall i | 0 <= i < |rows| && rows[i].state.Ready?
        ensures LoadProfile(db, rows[i]).Ok? && LoadProfile(db, rows[i]).value in ps
      {
        if i < n {
          assert rows[..n][i] == rows[i];
        }
      }
      forall p | p in ps
        ensures exists i :: 0 <= i < |rows| && rows[i].state.Ready? && LoadProfile(db, rows[i]) == Ok(p)
      {
        if p in front {
          var i :| 0 <= i < n && rows[..n][i].state.Ready? && LoadProfile(db, rows[..n][i]) == Ok(p);
          assert rows[i] == rows[..n][i];
        } else {
          assert rows[n].state.Ready? && LoadProfile(db, rows[n]) == Ok(p);
        }
      }
    }
  }

  /** The loaded jobs are exactly the scorable rows. */
  lemma {:induction false} LoadedJobsAreScorableRows(rows: seq<JobRow>)
    requires LoadJobs(rows).Ok?
    ensures var js := LoadJobs(rows).value;
            && (forall i :: 0 <= i < |rows| && Scorable(rows[i]) ==>
                  LoadJob(rows[i]).Ok? && LoadJob(rows[i]).value in js)
            && (forall j :: j in js ==> exists i :: 0 <= i < |rows| && Scorable(rows[i]) && LoadJob(rows[i]) == Ok(j))
    decreases |rows|
  {
    if rows != [] {
      var n := |rows| - 1;
      LoadedJobsAreScorableRows(rows[..n]);
      var js, front := LoadJobs(rows).value, LoadJobs(rows[..n]).value;
      forall i | 0 <= i < |rows| && Scorable(rows[i]) ensures LoadJob(rows[i]).Ok? && LoadJob(rows[i]).value in js {
        if i < n {
          assert rows[..n][i] == rows[i];
        }
      }
      forall j | j in js ensures exists i :: 0 <= i < |rows| && Scorable(rows[i]) && LoadJob(rows[i]) == Ok(j) {
        if j in front {
          var i :| 0 <= i < n && Scorable(rows[..n][i]) && LoadJob(rows[..n][i]) == Ok(j);
          assert rows[i] == rows[..n][i];
        } else {
          assert Scorable(rows[n]) && LoadJob(rows[n]) == Ok(j);
        }
      }
    }
  }

  /** Primary keys: no two profile rows, and no two job rows, share an id. */
  ghost predicate PrimaryKeys(db: Sqlite) {
    && (forall i, j :: 0 <= i < j < |db.profiles| ==> db.profiles[i].id != db.profiles[j].id)
    && (forall i, j :: 0 <= i < j < |db.jobs| ==> db.jobs[i].id != db.jobs[j].id)
  }

  lemma {:induction false} LoadedProfileIdsDistinct(db: Sqlite, rows: seq<ProfileRow>)
    requires LoadProfiles(db, rows).Ok?
    requires forall i, j :: 0 <= i < j < |rows| ==> rows[i].id != rows[j].id
    ensures var ps := LoadProfiles(db, rows).value;
            forall i, j :: 0 <= i < j < |ps| ==> ps[i].candidate.pid != ps[j].candidate.pid
    decreases |rows|
  {
    if rows != [] {
      var n := |rows| - 1;
      LoadedProfileIdsDistinct(db, rows[..n]);
      LoadedProfilesAreReadyRows(db, rows[..n]);
      var ps, front := LoadProfiles(db, rows).value, LoadProfiles(db, rows[..n]).value;
      if ps != front {
        forall i | 0 <= i < |front| ensures front[i].candidate.pid != ps[|front|].candidate.pid {
          assert front[i] in front;
          var k :| 0 <= k < n && rows[..n][k].state.Ready? && LoadProfile(db, rows[..n][k]) == Ok(front[i]);
          assert rows[k].id != rows[n].id;
        }
      }
    }
  }

  lemma {:induction false} LoadedJobIdsDistinct(rows: seq<JobRow>)
    requires LoadJobs(rows).Ok?
    requires forall i, j :: 0 <= i < j < |rows| ==> rows[i].id != rows[j].id
    ensures var js := LoadJobs(rows).value; forall i, j :: 0 <= i < j < |js| ==> js[i].jid != js[j].jid
    decreases |rows|
  {
    if rows != [] {
      var n := |rows| - 1;
      LoadedJobIdsDistinct(rows[..n]);
      LoadedJobsAreScorableRows(rows[..n]);
      var js, front := LoadJobs(rows).value, LoadJobs(rows[..n]).value;
      if js != front {
        forall i | 0 <= i < |front| ensures front[i].jid != js[|front|].jid {
          assert front[i] in front;
          var k :| 0 <= k < n && Scorable(rows[..n][k]) && LoadJob(rows[..n][k]) == Ok(front[i]);
          assert rows[k].id != rows[n].id;
        }
      }
    }
  }

  // ----- What the preflight reads, row by row -----

  /** What is wrong with a ready profile row, in the order it is looked for. */
  function ProfileFault(db: Sqlite, row: ProfileRow): Option<RebuildError> {
    if row.sourceHash.None? || row.skills.None? then Some(CandidateInvalid)
    else if row.attachmentId !in db.attachments then Some(CvActiveMissing)
    else if row.attachmentId in db.documents && db.documents[row.attachmentId].document.None? then Some(CvInvalid)
    else None
  }

  /** The profile carries its row's skills and the CV of its attachment, structured iff there is a document. */
  predicate ReadFrom(db: Sqlite, row: ProfileRow, p: ReadyProfile)
    requires ProfileFault(db, row).None?
  {
    var attachment := db.attachments[row.attachmentId];
    && p.candidate.pid == Id(row.id) && p.candidate.skills == row.skills.value && p.candidate.updatedAt == row.updatedAt
    && (row.attachmentId !in db.documents ==>
          && p.source.Legacy?
          && p.source.legacy == LegacyCv(row.id, row.attachmentId, attachment.originalName, row.sourceHash.value,
                                     attachment.updatedAt))
    && (row.attachmentId in db.documents ==>
          var doc := db.documents[row.attachmentId];
          && p.source.Structured?
          && p.source.cv == CvInput(row.id, doc.document.value, attachment.originalName, doc.extractionVersion,
                                   Some(doc.sourceHash), doc.updatedAt, true))
  }

  ghost predicate ReadsProfiles(db: Sqlite, rows: seq<ProfileRow>, r: Result<seq<ReadyProfile>, RebuildError>) {
    match r
    case Ok(ps) =>
      exists at ::
        && Positions(at, rows, (row: ProfileRow) => row.state == Ready) && |ps| == |at|
        && forall k :: 0 <= k < |at| ==>
             at[k] < |rows| && ProfileFault(db, rows[at[k]]).None? && ReadFrom(db, rows[at[k]], ps[k])
    case Err(e) =>
      exists i ::
        && 0 <= i < |rows| && rows[i].state == Ready && ProfileFault(db, rows[i]) == Some(e)
        && forall j :: 0 <= j < i && rows[j].state == Ready ==> ProfileFault(db, rows[j]).None?
  }

  /** A processed job of full or partial quality. */
  predicate IsUsable(row: JobRow) {
    row.processed && (row.quality == Some("full") || row.quality == Some("partial"))
  }

  function JobFault(row: JobRow): Option<RebuildError> {
    if row.embedding.None? then Some(EmbeddingConfigMismatch)
    else if row.extraction.None? then Some(JobInvalid)
    else None
  }

  predicate ReadFromJob(row: JobRow, j: JobInput)
    requires JobFault(row).None? && IsUsable(row)
  {
    && j.jid == Id(row.id) && j.extraction == row.extraction.value && Some(j.quality) == row.quality
    && j.embedding == row.embedding.value && j.updatedAt == row.updatedAt
  }

  ghost predicate ReadsJobs(rows: seq<JobRow>, r: Result<seq<JobInput>, RebuildError>) {
    match r
    case Ok(js) =>
      exists at ::
        && Positions(at, rows, IsUsable) && |js| == |at|
        && forall k :: 0 <= k < |at| ==>
             && at[k] < |rows| && IsUsable(rows[at[k]]) && JobFault(rows[at[k]]).None?
             && ReadFromJob(rows[at[k]], js[k])
    case Err(e) =>
      exists i ::
        && 0 <= i < |rows| && IsUsable(rows[i]) && JobFault(rows[i]) == Some(e)
        && forall j :: 0 <= j < i && IsUsable(rows[j]) ==> JobFault(rows[j]).None?
  }

  /** Every ready row is loaded, in order, or the first faulty one decides the error. */
  lemma {:induction false} ProfilesAreRead(db: Sqlite, rows: seq<ProfileRow>)
    ensures ReadsProfiles(db, rows, LoadProfiles(db, rows))
    decreases |rows|
  {
    if rows == [] {
      NoPositions((row: ProfileRow) => row.state == Ready);
    } else {
      var front, last := rows[..|rows| - 1], rows[|rows| - 1];
      assert front + [last] == rows;
      ProfilesAreRead(db, front);
      OneMoreProfile(db, front, LoadProfiles(db, front), last);
    }
  }

  lemma ProfileIsReadFrom(db: Sqlite, row: ProfileRow)
    ensures match LoadProfile(db, row)
            case Ok(p) => ProfileFault(db, row).None? && ReadFrom(db, row, p)
            case Err(e) => ProfileFault(db, row) == Some(e)
  {}

  lemma OneMoreProfile(db: Sqlite, rows: seq<ProfileRow>, r: Result<seq<ReadyProfile>, RebuildError>, row: ProfileRow)
    requires ReadsProfiles(db, rows, r)
    ensures ReadsProfiles(db, rows + [row],
                          if r.Err? || !row.state.Ready? then r
                          else
                            match LoadProfile(db, row)
                            case Ok(p) => Ok(r.value + [p])
                            case Err(e) => Err(e))
  {
    hide LoadProfile, ReadFrom, ProfileFault, Positions;
    ProfileIsReadFrom(db, row);
    var all := rows + [row];
    assert forall i :: 0 <= i < |rows| ==> all[i] == rows[i];
    if r.Ok? {
      var at: seq<nat> :| Positions(at, rows, (x: ProfileRow) => x.state == Ready) && |r.value| == |at|
        && forall k :: 0 <= k < |at| ==>
             at[k] < |rows| && ProfileFault(db, rows[at[k]]).None? && ReadFrom(db, rows[at[k]], r.value[k]);
      PositionsGrow(at, rows, row, (x: ProfileRow) => x.state == Ready);
      if row.state.Ready? && LoadProfile(db, row).Err? {
        ReadyHaveNoFault(db, rows, at);
        assert all[|rows|] == row;
      } else if row.state.Ready? {
        var more, ps := at + [|rows|], r.value + [LoadProfile(db, row).value];
        assert forall k :: 0 <= k < |more| ==>
          more[k] < |all| && ProfileFault(db, all[more[k]]).None? && ReadFrom(db, all[more[k]], ps[k]);
      } else {
        assert at + [] == at;
      }
    } else {
      var i :| 0 <= i < |rows| && rows[i].state == Ready && ProfileFault(db, rows[i]) == Some(r.error)
        && forall j :: 0 <= j < i && rows[j].state == Ready ==> ProfileFault(db, rows[j]).None?;
      assert all[i].state == Ready;
    }
  }

  lemma ReadyHaveNoFault(db: Sqlite, rows: seq<ProfileRow>, at: seq<nat>)
    requires Positions(at, rows, (x: ProfileRow) => x.state == Ready)
    requires forall k :: 0 <= k < |at| ==> at[k] < |rows| && ProfileFault(db, rows[at[k]]).None?
    ensures forall j: nat :: j < |rows| && rows[j].state == Ready ==> ProfileFault(db, rows[j]).None?
  {
    hide ProfileFault;
    forall j: nat | j < |rows| && rows[j].state == Ready ensures ProfileFault(db, rows[j]).None? {
      assert j in at;
    }
  }

  /** Every processed full or partial job is loaded, in order, or the first faulty one decides the error. */
  lemma {:induction false} JobsAreRead(rows: seq<JobRow>)
    ensures ReadsJobs(rows, LoadJobs(rows))
    decreases |rows|
  {
    if rows == [] {
      NoPositions(IsUsable);
    } else {
      var front, last := rows[..|rows| - 1], rows[|rows| - 1];
      assert front + [last] == rows;
      JobsAreRead(front);
      OneMoreJob(front, LoadJobs(front), last);
    }
  }

  lemma JobIsReadFrom(row: JobRow)
    ensures Scorable(row) <==> IsUsable(row)
    ensures Scorable(row) ==>
              match LoadJob(row)
              case Ok(j) => JobFault(row).None? && ReadFromJob(row, j)
              case Err(e) => JobFault(row) == Some(e)
  {}

  lemma OneMoreJob(rows: seq<JobRow>, r: Result<seq<JobInput>, RebuildError>, row: JobRow)
    requires ReadsJobs(rows, r)
    ensures ReadsJobs(rows + [row],
                      if r.Err? || !Scorable(row) then r
                      else
                        match LoadJob(row)
                        case Ok(j) => Ok(r.value + [j])
                        case Err(e) => Err(e))
  {
    hide LoadJob, ReadFromJob, JobFault, Positions, IsUsable, Scorable;
    JobIsReadFrom(row);
    var all := rows + [row];
    assert forall i :: 0 <= i < |rows| ==> all[i] == rows[i];
    if r.Ok? {
      var at: seq<nat> :| Positions(at, rows, IsUsable) && |r.value| == |at|
        && forall k :: 0 <= k < |at| ==>
             && at[k] < |rows| && IsUsable(rows[at[k]]) && JobFault(rows[at[k]]).None?
             && ReadFromJob(rows[at[k]], r.value[k]);
      PositionsGrow(at, rows, row, IsUsable);
      if IsUsable(row) && LoadJob(row).Err? {
        ScorableHaveNoFault(rows, at);
        assert all[|rows|] == row;
      } else if IsUsable(row) {
        var more, js := at + [|rows|], r.value + [LoadJob(row).value];
        assert forall k :: 0 <= k < |more| ==>
          && more[k] < |all| && IsUsable(all[more[k]]) && JobFault(all[more[k]]).None?
          && ReadFromJob(all[more[k]], js[k]);
      } else {
        assert at + [] == at;
      }
    } else {
      var i :| 0 <= i < |rows| && IsUsable(rows[i]) && JobFault(rows[i]) == Some(r.error)
        && forall j :: 0 <= j < i && IsUsable(rows[j]) ==> JobFault(rows[j]).None?;
      assert IsUsable(all[i]);
    }
  }

  lemma ScorableHaveNoFault(rows: seq<JobRow>, at: seq<nat>)
    requires Positions(at, rows, IsUsable)
    requires forall k :: 0 <= k < |at| ==> at[k] < |rows| && JobFault(rows[at[k]]).None?
    ensures forall j: nat :: j < |rows| && IsUsable(rows[j]) ==> JobFault(rows[j]).None?
  {
    hide JobFault, IsUsable;
    forall j: nat | j < |rows| && IsUsable(rows[j]) ensures JobFault(rows[j]).None? {
      assert j in at;
    }
  }

  /** The preflight reads profiles, then jobs; its inputs or its first error are those of the rows. */
  lemma InputsAreRead(db: Sqlite, t: Taxonomy)
    ensures exists ps, js ::
              && ReadsProfiles(db, db.profiles, ps) && ReadsJobs(db.jobs, js)
              && LoadInputs(db, t) == if ps.Err? then Err(ps.error)
                                      else if js.Err? then Err(js.error)
                                      else Ok(RebuildInputs(ps.value, js.value, t))
  {
    hide ReadsProfiles, ReadsJobs, LoadProfiles, LoadJobs;
    ProfilesAreRead(db, db.profiles);
    JobsAreRead(db.jobs);
  }
}
