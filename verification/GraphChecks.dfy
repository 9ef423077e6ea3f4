/**
  The three consistency checks: Candidate/Job revisions, the active CV, and the selected skill
  relationships. What each verdict decides, and what it decides after a rebuild.
 */
module GraphChecks {
  import opened Common
  import opened Text
  import opened Stamps
  import opened GraphModel
  import opened ScopedIds
  import opened SyncPrograms
  import opened SqliteSide
  import opened GraphSync
  import opened GraphRebuild
  import opened GraphCounts

  // ----- Revisions -----

  datatype RevisionRow = RevisionRow(id: Id, stamp: StampText)
  datatype SourceRow = SourceRow(id: Id, updatedAt: PyDatetime)

  predicate UsableRow(row: RevisionRow) {
    !IsBlank(row.id.text) && NormalizeText(row.stamp).Some?
  }

  /** Graph rows to instants; one unusable row spoils the whole reading. */
  function GraphRevisions(rows: seq<RevisionRow>): Option<map<Id, int>> {
    if rows == [] then Some(map[])
    else
      var front, last := GraphRevisions(rows[..|rows| - 1]), rows[|rows| - 1];
      if front.None? || !UsableRow(last) then None
      else Some(front.value[last.id := NormalizeText(last.stamp).value])
  }

  method ReadGraphRevisions(rows: seq<RevisionRow>) returns (r: Option<map<Id, int>>)
    ensures r == GraphRevisions(rows)
  {
    var normalized: map<Id, int> := map[];
    for i := 0 to |rows|
      invariant GraphRevisions(rows[..i]) == Some(normalized)
    {
      assert rows[..i + 1][..i] == rows[..i];
      if !UsableRow(rows[i]) {
        UnusableRowSpoils(rows, i);
        return None;
      }
      normalized := normalized[rows[i].id := NormalizeText(rows[i].stamp).value];
    }
    assert rows[..|rows|] == rows;
    return Some(normalized);
  }

  lemma {:induction false} UnusableRowSpoils(rows: seq<RevisionRow>, i: nat)
    requires i < |rows| && !UsableRow(rows[i])
    ensures GraphRevisions(rows).None?
    decreases |rows|
  {
    if i < |rows| - 1 {
      UnusableRowSpoils(rows[..|rows| - 1], i);
    }
  }

  function SourceRevisions(rows: seq<SourceRow>): map<Id, int> {
    if rows == [] then map[]
    else SourceRevisions(rows[..|rows| - 1])[rows[|rows| - 1].id := InstantOf(rows[|rows| - 1].updatedAt)]
  }

  method ReadSourceRevisions(rows: seq<SourceRow>) returns (r: map<Id, int>)
    ensures r == SourceRevisions(rows)
  {
    r := map[];
    for i := 0 to |rows|
      invariant r == SourceRevisions(rows[..i])
    {
      assert rows[..i + 1][..i] == rows[..i];
      r := r[rows[i].id := InstantOf(rows[i].updatedAt)];
    }
    assert rows[..|rows|] == rows;
  }

  function ScorableRows(rows: seq<JobRow>): seq<SourceRow> {
    if rows == [] then []
    else
      var last := rows[|rows| - 1];
      ScorableRows(rows[..|rows| - 1]) + if Scorable(last) then [SourceRow(Id(last.id), last.updatedAt)] else []
  }

  /** Primary-key lookup. */
  function FindProfile(rows: seq<ProfileRow>, pid: string): Option<ProfileRow> {
    if rows == [] then None
    else if rows[|rows| - 1].id == pid then Some(rows[|rows| - 1])
    else FindProfile(rows[..|rows| - 1], pid)
  }

  function ProfileRowOf(db: Sqlite, pid: string): Option<ProfileRow> {
    FindProfile(db.profiles, pid)
  }

  /** The rows of a node map in some order; the queries order them by id, the verdict does not depend on it. */
  ghost predicate Lists(rows: seq<RevisionRow>, nodes: map<Id, StampText>) {
    && (forall r :: r in rows ==> r.id in nodes && nodes[r.id] == r.stamp)
    && (forall k :: k in nodes ==> RevisionRow(k, nodes[k]) in rows)
  }

  function JobStamps(jobs: map<Id, JobNode>): map<Id, StampText> {
    map j | j in jobs :: jobs[j].stamp
  }

  function CandidateRowsOf(g: Graph, pid: Id): seq<RevisionRow> {
    if pid in g.skill.candidates then [RevisionRow(pid, g.skill.candidates[pid])] else []
  }

  function SqliteCandidate(db: Sqlite, pid: string): map<Id, int> {
    match ProfileRowOf(db, pid)
    case None => map[]
    case Some(row) => map[Id(row.id) := InstantOf(row.updatedAt)]
  }

  /** `_snapshots_match`: unreadable graph rows are read as no rows at all. */
  function RevisionVerdict(db: Sqlite, pid: string, candidateRows: seq<RevisionRow>, jobRows: seq<RevisionRow>): bool {
    var c, j := GraphRevisions(candidateRows), GraphRevisions(jobRows);
    var graph := if c.Some? && j.Some? then (c.value, j.value) else (map[], map[]);
    SqliteCandidate(db, pid) == graph.0 && SourceRevisions(ScorableRows(db.jobs)) == graph.1
  }

  /** A node map with instants for its stamps. */
  function Instants(nodes: map<Id, StampText>): map<Id, int> {
    map k | k in nodes && NormalizeText(nodes[k]).Some? :: NormalizeText(nodes[k]).value
  }

  predicate Readable(nodes: map<Id, StampText>) {
    forall k :: k in nodes ==> !IsBlank(k.text) && NormalizeText(nodes[k]).Some?
  }

  lemma {:induction false} GraphRevisionsKeys(rows: seq<RevisionRow>)
    requires GraphRevisions(rows).Some?
    ensures forall r :: r in rows ==> UsableRow(r)
    ensures forall k :: k in GraphRevisions(rows).value ==> exists r :: r in rows && r.id == k
    ensures forall r :: r in rows ==> r.id in GraphRevisions(rows).value
    ensures forall k :: k in GraphRevisions(rows).value ==>
              exists r :: r in rows && r.id == k && NormalizeText(r.stamp) == Some(GraphRevisions(rows).value[k])
    decreases |rows|
  {
    if rows != [] {
      var front, last := rows[..|rows| - 1], rows[|rows| - 1];
      GraphRevisionsKeys(front);
      assert forall r :: r in rows <==> r in front || r == last;
    }
  }

  lemma {:induction false} UsableRowsRead(rows: seq<RevisionRow>)
    requires forall r :: r in rows ==> UsableRow(r)
    ensures GraphRevisions(rows).Some?
    decreases |rows|
  {
    if rows != [] {
      UsableRowsRead(rows[..|rows| - 1]);
      assert rows[|rows| - 1] in rows;
    }
  }

  /** However the rows of a node map are listed, the reading is the map itself, or nothing. */
  lemma ListedRevisions(rows: seq<RevisionRow>, nodes: map<Id, StampText>)
    requires Lists(rows, nodes)
    ensures Readable(nodes) ==> GraphRevisions(rows) == Some(Instants(nodes))
    ensures !Readable(nodes) ==> GraphRevisions(rows) == None
  {
    if Readable(nodes) {
      UsableRowsRead(rows);
      GraphRevisionsKeys(rows);
      assert GraphRevisions(rows).value == Instants(nodes);
    } else {
      var k :| k in nodes && !(!IsBlank(k.text) && NormalizeText(nodes[k]).Some?);
      assert RevisionRow(k, nodes[k]) in rows;
      if GraphRevisions(rows).Some? {
        GraphRevisionsKeys(rows);
      }
    }
  }

  /**
    The revision check is exact: with readable nodes it accepts iff the requested Candidate and all
    Jobs carry exactly the SQLite revisions. With an unreadable node it accepts only an empty SQLite.
   */
  lemma RevisionVerdictExact(db: Sqlite, g: Graph, pid: string, jobRows: seq<RevisionRow>)
    requires Lists(jobRows, JobStamps(g.skill.jobs))
    ensures var own := map k | k in g.skill.candidates && k == Id(pid) :: g.skill.candidates[k];
            var jobs := JobStamps(g.skill.jobs);
            RevisionVerdict(db, pid, CandidateRowsOf(g, Id(pid)), jobRows)
              == if Readable(own) && Readable(jobs)
                 then SqliteCandidate(db, pid) == Instants(own)
                   && SourceRevisions(ScorableRows(db.jobs)) == Instants(jobs)
                 else SqliteCandidate(db, pid) == map[] && SourceRevisions(ScorableRows(db.jobs)) == map[]
  {
    var own := map k | k in g.skill.candidates && k == Id(pid) :: g.skill.candidates[k];
    assert Lists(CandidateRowsOf(g, Id(pid)), own);
    ListedRevisions(CandidateRowsOf(g, Id(pid)), own);
    ListedRevisions(jobRows, JobStamps(g.skill.jobs));
  }

  // ----- Active CV -----

  datatype ActiveCv = ActiveCv(attachmentId: string, instant: int)

  /** The first projecting CV row; a blank id or an unreadable stamp reads as no CV. */
  function GraphActiveCv(rows: seq<CvNode>): Option<ActiveCv> {
    if rows == [] || IsBlank(rows[0].attachmentId.text) || NormalizeText(rows[0].stamp).None? then None
    else Some(ActiveCv(rows[0].attachmentId.text, NormalizeText(rows[0].stamp).value))
  }

  function ActiveCvVerdict(db: Sqlite, pid: string, graph: Option<ActiveCv>): bool {
    match ProfileRowOf(db, pid)
    case None => graph.None?
    case Some(row) =>
      if row.attachmentId !in db.documents then graph.None? || graph.value.attachmentId == row.attachmentId
      else
        && graph.Some? && graph.value.attachmentId == row.attachmentId
        && graph.value.instant == InstantOf(db.documents[row.attachmentId].updatedAt)
  }

  /** The CV nodes with a PROJECTS_TO into the Candidate, in some order. */
  ghost predicate ListsProjecting(rows: seq<CvNode>, g: Graph, pid: Id) {
    && (forall r :: r in rows ==>
          exists l :: l in g.projectsTo && l.dst == pid && l.src in g.cv.cvs && g.cv.cvs[l.src] == r)
    && (forall l :: l in g.projectsTo && l.dst == pid && l.src in g.cv.cvs ==> g.cv.cvs[l.src] in rows)
  }

  // ----- Selected skill relationships -----

  datatype Selected = Selected(rel: RelType, key: Key, props: SkillRel)

  const READ_LIMIT := 201

  function ExpectedOf(rel: RelType, rows: seq<SkillRow>): seq<Selected> {
    seq(|rows|, i requires 0 <= i < |rows| => Selected(rel, rows[i].key, rows[i].props))
  }

  function ExpectedJob(j: JobInput): seq<Selected> {
    ExpectedOf(Requires, RequiredRows(j)) + ExpectedOf(Prefers, PreferredRows(j))
  }

  /** The stored relationships of one owner, each once, in the order the query returns them. */
  ghost predicate ListsEdges(rows: seq<Selected>, edges: map<EdgeKey, SkillRel>, rels: set<RelType>, owner: Id) {
    && Distinct(rows)
    && (forall r :: r in rows ==>
          r.rel in rels && EdgeKey(r.rel, owner, r.key) in edges && edges[EdgeKey(r.rel, owner, r.key)] == r.props)
    && (forall e :: e in edges && e.rel in rels && e.owner == owner ==> Selected(e.rel, e.key, edges[e]) in rows)
  }

  function ReadRows(stored: seq<Selected>): seq<Selected> {
    stored[..Min(|stored|, READ_LIMIT)]
  }

  /** A blank canonical key is a parse error; otherwise multisets are compared. */
  function SkillVerdict(expected: seq<Selected>, stored: seq<Selected>): bool {
    && (forall r :: r in ReadRows(stored) ==> !IsBlank(r.key.text))
    && multiset(expected) == multiset(ReadRows(stored))
  }

  predicate NoBlankKeys(rows: seq<Selected>) {
    forall r :: r in rows ==> !IsBlank(r.key.text)
  }

  /** At most 201 stored relationships, or fewer than 201 expected: the verdict is equality. */
  lemma VerdictIsEquality(expected: seq<Selected>, stored: seq<Selected>)
    requires NoBlankKeys(stored)
    requires |stored| <= READ_LIMIT || |expected| < READ_LIMIT
    ensures SkillVerdict(expected, stored) <==> multiset(expected) == multiset(stored)
  {
    if |stored| <= READ_LIMIT {
      assert ReadRows(stored) == stored;
    } else {
      assert |multiset(expected)| == |expected| && |multiset(ReadRows(stored))| == READ_LIMIT;
      assert |multiset(stored)| == |stored|;
    }
  }

  lemma {:induction false} SameElementsSameMultiset<T>(a: seq<T>, b: seq<T>)
    requires Distinct(a) && Distinct(b)
    requires forall x :: x in a <==> x in b
    ensures multiset(a) == multiset(b)
  {
    CountsAtMostOne(a);
    CountsAtMostOne(b);
    forall x: T ensures multiset(a)[x] == multiset(b)[x] {
      assert x in a <==> x in multiset(a);
      assert x in b <==> x in multiset(b);
    }
  }

  lemma {:induction false} CountsAtMostOne<T>(s: seq<T>)
    requires Distinct(s)
    ensures forall x :: multiset(s)[x] <= 1
    decreases |s|
  {
    if s != [] {
      var front, last := s[..|s| - 1], s[|s| - 1];
      CountsAtMostOne(front);
      assert s == front + [last];
      assert last !in front;
    }
  }

  /** What is stored for rows written once, as a set. */
  lemma {:induction false} RowMapValues(rel: RelType, owner: Id, rows: seq<SkillRow>)
    requires DistinctKeys(rows)
    ensures forall i :: 0 <= i < |rows| ==>
              EdgeKey(rel, owner, rows[i].key) in RowMap(rel, owner, rows)
              && RowMap(rel, owner, rows)[EdgeKey(rel, owner, rows[i].key)] == rows[i].props
    decreases |rows|
  {
    if rows != [] {
      RowMapValues(rel, owner, rows[..|rows| - 1]);
    }
  }

  /** The edges of an owner, when they are those of distinct rows, hold the expected multiset. */
  lemma DistinctRowsStored(
    rel: RelType, owner: Id, rows: seq<SkillRow>, edges: map<EdgeKey, SkillRel>, stored: seq<Selected>)
    requires DistinctKeys(rows)
    requires forall e: EdgeKey :: e.rel == rel && e.owner == owner ==>
               (e in edges <==> e in RowMap(rel, owner, rows))
                 && (e in edges ==> edges[e] == RowMap(rel, owner, rows)[e])
    requires ListsEdges(stored, edges, {rel}, owner)
    ensures multiset(ExpectedOf(rel, rows)) == multiset(stored)
  {
    RowMapValues(rel, owner, rows);
    MergeSkillRowsSplit(map[], rel, owner, rows);
    var expected := ExpectedOf(rel, rows);
    forall x ensures x in expected <==> x in stored {
      if x in expected {
        var i :| 0 <= i < |expected| && expected[i] == x;
        assert EdgeKey(rel, owner, rows[i].key) in edges;
      }
      if x in stored {
        assert EdgeKey(rel, owner, x.key) in RowEdges(rel, owner, rows);
        var r :| r in rows && r.key == x.key;
        var i :| 0 <= i < |rows| && rows[i] == r;
        assert expected[i] == x;
      }
    }
    SameElementsSameMultiset(expected, stored);
  }

  lemma RepeatsCountTwice<T>(s: seq<T>, i: nat, j: nat)
    requires i < j < |s| && s[i] == s[j]
    ensures multiset(s)[s[i]] >= 2
  {
    assert s == s[..j] + [s[j]] + s[j + 1..];
    assert s[i] in s[..j];
  }
}
