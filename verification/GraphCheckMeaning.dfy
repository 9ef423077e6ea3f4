/** What the revision check and the active-CV check compare, row by row and node by node. */
module GraphCheckMeaning {
  import opened Common
  import opened Text
  import opened Stamps
  import opened GraphModel
  import opened SqliteSide
  import opened GraphChecks
  import opened GraphAgreement

  /** The stored text stands for the instant of the row's time: its wall clock less its offset, if it has one. */
  predicate SameInstant(at: PyDatetime, stamp: StampText) {
    var instant := match at case Naive(local) => local case Aware(local, offset) => local - offset;
    match stamp
    case IsoZ(local) => local == instant
    case IsoOffset(local, offset) => local - offset == instant
    case NotIso(_) => false
  }

  lemma InstantsAgree(at: PyDatetime, stamp: StampText)
    ensures NormalizeText(stamp) == Some(InstantOf(at)) <==> SameInstant(at, stamp)
  {}

  // ----- Revisions -----

  /** The map of the scorable jobs' instants. */
  ghost predicate Dates(m: map<Id, int>, rows: seq<JobRow>) {
    && (forall i :: 0 <= i < |rows| && IsUsable(rows[i]) ==>
          Id(rows[i].id) in m && m[Id(rows[i].id)] == InstantOf(rows[i].updatedAt))
    && (forall k :: k in m ==> exists i :: 0 <= i < |rows| && IsUsable(rows[i]) && Id(rows[i].id) == k)
  }

  lemma OneMoreDate(m: map<Id, int>, rows: seq<JobRow>, row: JobRow)
    requires Dates(m, rows) && forall i :: 0 <= i < |rows| ==> rows[i].id != row.id
    ensures Dates(if IsUsable(row) then m[Id(row.id) := InstantOf(row.updatedAt)] else m, rows + [row])
  {
    hide IsUsable, InstantOf;
    var all, more := rows + [row], if IsUsable(row) then m[Id(row.id) := InstantOf(row.updatedAt)] else m;
    forall k | k in more ensures exists i :: 0 <= i < |all| && IsUsable(all[i]) && Id(all[i].id) == k {
      if k in m {
        var i :| 0 <= i < |rows| && IsUsable(rows[i]) && Id(rows[i].id) == k;
        assert all[i] == rows[i];
      } else {
        assert IsUsable(all[|rows|]) && Id(all[|rows|].id) == k;
      }
    }
  }

  /** What the rows of the scorable jobs read as, when no id comes twice. */
  lemma {:induction false} SourceRevisionsAt(rows: seq<JobRow>)
    requires forall i, j :: 0 <= i < j < |rows| ==> rows[i].id != rows[j].id
    ensures Dates(SourceRevisions(ScorableRows(rows)), rows)
    decreases |rows|
  {
    if rows != [] {
      var front, last := rows[..|rows| - 1], rows[|rows| - 1];
      SourceRevisionsAt(front);
      JobIsReadFrom(last);
      OneMoreDate(SourceRevisions(ScorableRows(front)), front, last);
      assert front + [last] == rows;
      hide Scorable, IsUsable, Dates, InstantOf;
      if IsUsable(last) {
        var more := ScorableRows(front) + [SourceRow(Id(last.id), last.updatedAt)];
        assert ScorableRows(rows) == more && more[..|more| - 1] == ScorableRows(front);
      } else {
        assert ScorableRows(rows) == ScorableRows(front) + [] == ScorableRows(front);
      }
    }
  }

  /** Every scorable job has its node, every node its scorable job, and their revisions are one instant. */
  ghost predicate JobsAgree(rows: seq<JobRow>, nodes: map<Id, JobNode>) {
    && (forall i :: 0 <= i < |rows| && IsUsable(rows[i]) ==>
          Id(rows[i].id) in nodes && SameInstant(rows[i].updatedAt, nodes[Id(rows[i].id)].stamp))
    && (forall k :: k in nodes ==> exists i :: 0 <= i < |rows| && IsUsable(rows[i]) && Id(rows[i].id) == k)
  }

  function OwnStamp(nodes: map<Id, StampText>, pid: string): map<Id, StampText> {
    map k | k in nodes && k == Id(pid) :: nodes[k]
  }

  /** The profile has its Candidate with its revision, or neither is there. */
  ghost predicate CandidateAgrees(rows: seq<ProfileRow>, pid: string, nodes: map<Id, StampText>) {
    && (Id(pid) in nodes <==> exists i :: 0 <= i < |rows| && rows[i].id == pid)
    && forall i :: 0 <= i < |rows| && rows[i].id == pid && Id(pid) in nodes ==>
         SameInstant(rows[i].updatedAt, nodes[Id(pid)])
  }

  lemma JobsAgreeIff(rows: seq<JobRow>, nodes: map<Id, JobNode>)
    requires forall i, j :: 0 <= i < j < |rows| ==> rows[i].id != rows[j].id
    requires Readable(JobStamps(nodes))
    ensures SourceRevisions(ScorableRows(rows)) == Instants(JobStamps(nodes)) <==> JobsAgree(rows, nodes)
  {
    SourceRevisionsAt(rows);
    InstantsOfNodes(nodes);
    hide SourceRevisions, ScorableRows, Instants, JobStamps, Readable, JobsAgree, Dates;
    var m, n := SourceRevisions(ScorableRows(rows)), Instants(JobStamps(nodes));
    if m == n {
      DatedJobsAgree(rows, nodes, n);
    }
    if JobsAgree(rows, nodes) {
      AgreedDates(rows, nodes, m, n);
    }
  }

  lemma InstantsOfNodes(nodes: map<Id, JobNode>)
    requires Readable(JobStamps(nodes))
    ensures var n := Instants(JobStamps(nodes));
            n.Keys == nodes.Keys && forall k :: k in n ==> NormalizeText(nodes[k].stamp) == Some(n[k])
  {
    hide NormalizeText, IsBlank;
    assert forall k :: k in nodes ==> k in JobStamps(nodes) && NormalizeText(JobStamps(nodes)[k]).Some?;
  }

  lemma DatedJobsAgree(rows: seq<JobRow>, nodes: map<Id, JobNode>, n: map<Id, int>)
    requires Dates(n, rows) && n.Keys == nodes.Keys
    requires forall k :: k in n ==> NormalizeText(nodes[k].stamp) == Some(n[k])
    ensures JobsAgree(rows, nodes)
  {
    hide InstantOf, NormalizeText, SameInstant, IsUsable;
    forall i | 0 <= i < |rows| && IsUsable(rows[i])
      ensures Id(rows[i].id) in nodes && SameInstant(rows[i].updatedAt, nodes[Id(rows[i].id)].stamp)
    {
      assert Id(rows[i].id) in n.Keys;
      InstantsAgree(rows[i].updatedAt, nodes[Id(rows[i].id)].stamp);
    }
    assert forall k :: k in nodes ==> k in n.Keys;
  }

  lemma AgreedDates(rows: seq<JobRow>, nodes: map<Id, JobNode>, m: map<Id, int>, n: map<Id, int>)
    requires Dates(m, rows) && n.Keys == nodes.Keys && JobsAgree(rows, nodes)
    requires forall k :: k in n ==> NormalizeText(nodes[k].stamp) == Some(n[k])
    ensures m == n
  {
    hide InstantOf, NormalizeText, SameInstant, IsUsable;
    assert forall k :: k in n <==> k in n.Keys;
    forall k ensures k in m <==> k in n {}
    forall k | k in m ensures m[k] == n[k] {
      var i :| 0 <= i < |rows| && IsUsable(rows[i]) && Id(rows[i].id) == k;
      InstantsAgree(rows[i].updatedAt, nodes[k].stamp);
    }
  }

  lemma {:induction false} LookedUp(rows: seq<ProfileRow>, pid: string)
    ensures FindProfile(rows, pid).None? <==> forall i :: 0 <= i < |rows| ==> rows[i].id != pid
    decreases |rows|
  {
    if rows != [] {
      LookedUp(rows[..|rows| - 1], pid);
    }
  }

  lemma CandidateAgreesIff(db: Sqlite, pid: string, nodes: map<Id, StampText>)
    requires forall i, j :: 0 <= i < j < |db.profiles| ==> db.profiles[i].id != db.profiles[j].id
    requires Readable(OwnStamp(nodes, pid))
    ensures SqliteCandidate(db, pid) == Instants(OwnStamp(nodes, pid)) <==> CandidateAgrees(db.profiles, pid, nodes)
  {
    var own := OwnStamp(nodes, pid);
    LookedUp(db.profiles, pid);
    hide FindProfile, InstantOf, NormalizeText, SameInstant;
    assert Id(pid) in nodes ==> Id(pid) in own && NormalizeText(own[Id(pid)]).Some?;
    assert forall k :: k in Instants(own) <==> k == Id(pid) && k in nodes;
    if i :| 0 <= i < |db.profiles| && db.profiles[i].id == pid {
      FoundByKey(db.profiles, i);
      if Id(pid) in nodes {
        InstantsAgree(db.profiles[i].updatedAt, nodes[Id(pid)]);
        assert Instants(own) == map[Id(pid) := NormalizeText(nodes[Id(pid)]).value];
      } else {
        assert Id(pid) in SqliteCandidate(db, pid);
      }
    } else {
      assert SqliteCandidate(db, pid) == map[];
      if Id(pid) in nodes {
        assert Id(pid) in Instants(own);
      } else {
        assert Instants(own) == map[];
      }
    }
  }

  /**
    On a graph whose stamps can be read, the revision check accepts a profile iff its Candidate and all
    jobs agree, row by row, with what SQLite holds; otherwise iff SQLite holds neither.
   */
  lemma RevisionCheckMeans(db: Sqlite, g: Graph, pid: string, jobRows: seq<RevisionRow>)
    requires PrimaryKeys(db) && Lists(jobRows, JobStamps(g.skill.jobs))
    ensures RevisionVerdict(db, pid, CandidateRowsOf(g, Id(pid)), jobRows)
            == if Readable(OwnStamp(g.skill.candidates, pid)) && Readable(JobStamps(g.skill.jobs)) then
                 CandidateAgrees(db.profiles, pid, g.skill.candidates) && JobsAgree(db.jobs, g.skill.jobs)
               else CandidateAgrees(db.profiles, pid, map[]) && JobsAgree(db.jobs, map[])
  {
    RevisionVerdictExact(db, g, pid, jobRows);
    NothingAgrees(db, pid);
    if Readable(OwnStamp(g.skill.candidates, pid)) && Readable(JobStamps(g.skill.jobs)) {
      CandidateAgreesIff(db, pid, g.skill.candidates);
      JobsAgreeIff(db.jobs, g.skill.jobs);
    }
    hide CandidateAgrees, JobsAgree, Lists, RevisionVerdict, SourceRevisions, ScorableRows, SqliteCandidate, Instants,
      Readable;
  }

  lemma NothingAgrees(db: Sqlite, pid: string)
    requires PrimaryKeys(db)
    ensures SqliteCandidate(db, pid) == map[] <==> CandidateAgrees(db.profiles, pid, map[])
    ensures SourceRevisions(ScorableRows(db.jobs)) == map[] <==> JobsAgree(db.jobs, map[])
  {
    var none: map<Id, StampText>, noJobs: map<Id, JobNode> := map[], map[];
    assert OwnStamp(none, pid) == none && Instants(none) == map[];
    assert JobStamps(noJobs) == map[];
    CandidateAgreesIff(db, pid, none);
    JobsAgreeIff(db.jobs, noJobs);
  }

  // ----- Active CV -----

  /** A first row that names an attachment and whose stamp can be read. */
  predicate NamesCv(rows: seq<CvNode>, attachmentId: string) {
    && rows != [] && rows[0].attachmentId == Id(attachmentId) && !IsBlank(attachmentId)
    && NormalizeText(rows[0].stamp).Some?
  }

  /**
    The active-CV check accepts no CV where there is no profile; none or the profile's own where its
    attachment has no document; and exactly the profile's own at the document's instant where it has one.
   */
  lemma ActiveCvCheckMeans(db: Sqlite, pid: string, rows: seq<CvNode>)
    requires PrimaryKeys(db)
    ensures (forall i :: 0 <= i < |db.profiles| ==> db.profiles[i].id != pid) ==>
              (ActiveCvVerdict(db, pid, GraphActiveCv(rows)) <==> !exists a :: NamesCv(rows, a))
    ensures forall i :: 0 <= i < |db.profiles| && db.profiles[i].id == pid ==>
              var a := db.profiles[i].attachmentId;
              ActiveCvVerdict(db, pid, GraphActiveCv(rows))
              <==> if a in db.documents then
                     NamesCv(rows, a) && SameInstant(db.documents[a].updatedAt, rows[0].stamp)
                   else forall b :: NamesCv(rows, b) ==> b == a
  {
    LookedUp(db.profiles, pid);
    if GraphActiveCv(rows).Some? {
      assert NamesCv(rows, rows[0].attachmentId.text);
    }
    forall i | 0 <= i < |db.profiles| && db.profiles[i].id == pid
      ensures var a := db.profiles[i].attachmentId;
              ActiveCvVerdict(db, pid, GraphActiveCv(rows))
              <==> if a in db.documents then
                     NamesCv(rows, a) && SameInstant(db.documents[a].updatedAt, rows[0].stamp)
                   else forall b :: NamesCv(rows, b) ==> b == a
    {
      FoundByKey(db.profiles, i);
    }
  }
}
