/**
  What the synced skill relationships and the lists the integrity check expects say in terms of the
  profile and job they were made from, field by field.
 */
module GraphMeaning {
  import opened Common
  import opened Text
  import opened Stamps
  import opened GraphModel
  import opened ScopedIds
  import opened SyncPrograms
  import opened GraphSync
  import opened GraphCounts
  import opened GraphChecks
  import opened GraphVerdict

  // ----- Rows as maps -----

  /** The last row of its key. */
  ghost predicate LastOfKey(rows: seq<SkillRow>, i: nat) {
    i < |rows| && forall j :: i < j < |rows| ==> rows[j].key != rows[i].key
  }

  lemma RowMapKeys(rel: RelType, owner: Id, rows: seq<SkillRow>)
    ensures forall e :: e in RowMap(rel, owner, rows) <==>
              e.rel == rel && e.owner == owner && exists i :: 0 <= i < |rows| && rows[i].key == e.key
  {
    MergeSkillRowsSplit(map[], rel, owner, rows);
    hide MergeSkillRows;
    forall i | 0 <= i < |rows| ensures EdgeKey(rel, owner, rows[i].key) in RowEdges(rel, owner, rows) {
      assert rows[i] in rows;
    }
  }

  lemma {:induction false} RowMapLast(rel: RelType, owner: Id, rows: seq<SkillRow>, i: nat)
    requires LastOfKey(rows, i)
    ensures EdgeKey(rel, owner, rows[i].key) in RowMap(rel, owner, rows)
    ensures RowMap(rel, owner, rows)[EdgeKey(rel, owner, rows[i].key)] == rows[i].props
    decreases |rows|
  {
    if i < |rows| - 1 {
      assert LastOfKey(rows[..|rows| - 1], i);
      RowMapLast(rel, owner, rows[..|rows| - 1], i);
    }
  }

  // ----- Candidate -----

  /** Where the skills that are not excluded stand, and that they are what is projected. */
  lemma {:induction false} NonExcludedAt(skills: seq<CandidateSkill>) returns (at: seq<nat>)
    ensures Positions(at, skills, (s: CandidateSkill) => !s.excluded)
    ensures |NonExcluded(skills)| == |at|
    ensures forall n :: 0 <= n < |at| ==> at[n] < |skills| && NonExcluded(skills)[n] == skills[at[n]]
    decreases |skills|
  {
    if skills == [] {
      at := [];
    } else {
      var front, last := skills[..|skills| - 1], skills[|skills| - 1];
      at := NonExcludedAt(front);
      PositionsGrow(at, front, last, (s: CandidateSkill) => !s.excluded);
      assert front + [last] == skills;
      at := at + if !last.excluded then [|front|] else [];
    }
  }

  ghost predicate KeptKey(skills: seq<CandidateSkill>, k: Key) {
    exists i :: 0 <= i < |skills| && !skills[i].excluded && skills[i].key == k
  }

  /** The last skill of its key that is not excluded. */
  ghost predicate LastKept(skills: seq<CandidateSkill>, i: nat) {
    i < |skills| && !skills[i].excluded && forall j :: i < j < |skills| && !skills[j].excluded ==>
        skills[j].key != skills[i].key
  }

  lemma KeptRows(c: CandidateInput)
    ensures forall k ::
              (exists n :: 0 <= n < |CandidateRows(c)| && CandidateRows(c)[n].key == k) <==> KeptKey(c.skills, k)
  {
    var at := NonExcludedAt(c.skills);
    var rows := CandidateRows(c);
    hide NonExcluded;
    forall k ensures (exists n :: 0 <= n < |rows| && rows[n].key == k) <==> KeptKey(c.skills, k) {
      if n :| 0 <= n < |rows| && rows[n].key == k {
        assert at[n] in at && c.skills[at[n]].key == k;
      }
      if i :| 0 <= i < |c.skills| && !c.skills[i].excluded && c.skills[i].key == k {
        assert i in at;
        var n :| 0 <= n < |at| && at[n] == i;
        assert rows[n].key == k;
      }
    }
  }

  lemma KeptRowLast(c: CandidateInput, i: nat) returns (n: nat)
    requires LastKept(c.skills, i)
    ensures LastOfKey(CandidateRows(c), n) && CandidateRows(c)[n].key == c.skills[i].key
    ensures var s := c.skills[i];
            CandidateRows(c)[n].props == SkillRel(s.confidence, s.years, Some(s.proficiency), s.evidence)
  {
    var at := NonExcludedAt(c.skills);
    var rows := CandidateRows(c);
    hide NonExcluded;
    assert i in at;
    n :| 0 <= n < |at| && at[n] == i;
    forall m | n < m < |rows| ensures rows[m].key != rows[n].key {
      assert at[m] in at && at[n] < at[m];
    }
  }

  /** The properties of a HAS_SKILL relationship to a skill of a profile. */
  predicate CarriesSkill(p: SkillRel, s: CandidateSkill) {
    && p.confidence == s.confidence && p.years == s.years && p.proficiency == Some(s.proficiency)
    && p.evidence == s.evidence
  }

  /** The HAS_SKILL relationships that a profile's skill list stands for. */
  ghost predicate EdgesOfProfile(edges: map<EdgeKey, SkillRel>, pid: Id, skills: seq<CandidateSkill>) {
    && (forall k :: EdgeKey(HasSkill, pid, k) in edges <==> KeptKey(skills, k))
    && (forall i: nat :: LastKept(skills, i) ==>
          && EdgeKey(HasSkill, pid, skills[i].key) in edges
          && CarriesSkill(edges[EdgeKey(HasSkill, pid, skills[i].key)], skills[i]))
  }

  /** Nothing changed outside some relationships of one owner. */
  ghost predicate OthersKept(
    edges: map<EdgeKey, SkillRel>, before: map<EdgeKey, SkillRel>, rels: set<RelType>, owner: Id)
  {
    forall e: EdgeKey :: !(e.rel in rels && e.owner == owner) ==>
      (e in edges <==> e in before) && (e in edges ==> edges[e] == before[e])
  }

  lemma ProfileRowsMean(c: CandidateInput)
    ensures EdgesOfProfile(RowMap(HasSkill, c.pid, CandidateRows(c)), c.pid, c.skills)
    ensures forall e :: e in RowMap(HasSkill, c.pid, CandidateRows(c)) ==> e.rel == HasSkill && e.owner == c.pid
  {
    KeptRows(c);
    RowMapKeys(HasSkill, c.pid, CandidateRows(c));
    var m := RowMap(HasSkill, c.pid, CandidateRows(c));
    hide RowMap, CandidateRows;
    forall i: nat | LastKept(c.skills, i)
      ensures EdgeKey(HasSkill, c.pid, c.skills[i].key) in m
      ensures CarriesSkill(m[EdgeKey(HasSkill, c.pid, c.skills[i].key)], c.skills[i])
    {
      var n := KeptRowLast(c, i);
      RowMapLast(HasSkill, c.pid, CandidateRows(c), n);
    }
  }

  lemma ProfileOver(m: map<EdgeKey, SkillRel>, rows: map<EdgeKey, SkillRel>, pid: Id, skills: seq<CandidateSkill>)
    requires EdgesOfProfile(rows, pid, skills) && forall e :: e in rows ==> e.rel == HasSkill && e.owner == pid
    ensures EdgesOfProfile(WithoutOwners(m, {HasSkill}, {pid}) + rows, pid, skills)
    ensures OthersKept(WithoutOwners(m, {HasSkill}, {pid}) + rows, m, {HasSkill}, pid)
  {
    hide KeptKey, LastKept, CarriesSkill;
  }

  /** The instant as it is written into the graph. */
  predicate WrittenAs(stamp: StampText, at: PyDatetime) {
    match at
    case Naive(local) => stamp == IsoZ(local)
    case Aware(local, offset) => stamp == IsoOffset(local, offset)
  }

  /**
    After a complete candidate sync, from any graph, the Candidate carries the profile's instant and has a
    HAS_SKILL relationship to a key iff a skill of that key is not excluded, with the properties of the
    last such skill; every other relationship is as it was.
   */
  lemma CandidateSyncMeans(c: CandidateInput, t: Taxonomy, g: Graph)
    ensures var r := RunAll(CandidateProgram(c, t), g).skill;
            && c.pid in r.candidates && WrittenAs(r.candidates[c.pid], c.updatedAt)
            && EdgesOfProfile(r.edges, c.pid, c.skills) && OthersKept(r.edges, g.skill.edges, {HasSkill}, c.pid)
            && (forall k :: KeptKey(c.skills, k) ==> k in r.skills)
  {
    SyncCandidateExact(c, t, g);
    ProfileRowsMean(c);
    ProfileOver(g.skill.edges, RowMap(HasSkill, c.pid, CandidateRows(c)), c.pid, c.skills);
    KeptRows(c);
    hide RunAll, CandidateProgram, CandidateRows, RowMap, EdgesOfProfile, OthersKept, WithoutOwners, KeptKey;
    forall k | KeptKey(c.skills, k) ensures k in SkillKeys(CandidateRows(c)) {
      var n :| 0 <= n < |CandidateRows(c)| && CandidateRows(c)[n].key == k;
      assert CandidateRows(c)[n] in CandidateRows(c);
    }
  }

  /** What the skill check expects of a profile: its skills that are not excluded, in order, each as synced. */
  lemma ExpectedCandidateMeans(c: CandidateInput)
    ensures exists at ::
              && Positions(at, c.skills, (s: CandidateSkill) => !s.excluded)
              && |ExpectedOf(HasSkill, CandidateRows(c))| == |at|
              && forall n :: 0 <= n < |at| ==>
                   && at[n] < |c.skills|
                   && var x, s := ExpectedOf(HasSkill, CandidateRows(c))[n], c.skills[at[n]];
                      x.rel == HasSkill && x.key == s.key && CarriesSkill(x.props, s)
  {
    var at := NonExcludedAt(c.skills);
  }

  /** The kept skills, by position, have keys that differ and are not blank. */
  ghost predicate CleanKeys(skills: seq<CandidateSkill>, at: seq<nat>) {
    && (forall n :: 0 <= n < |at| ==> at[n] < |skills| && !IsBlank(skills[at[n]].key.text))
    && (forall m, n :: 0 <= m < n < |at| && at[m] < |skills| && at[n] < |skills| ==>
          skills[at[m]].key != skills[at[n]].key)
  }

  /**
    After a complete candidate sync, from any graph, the skill check accepts the profile iff the skills
    that are not excluded are at most 201 and have keys that differ and are not blank.
   */
  lemma AcceptedProfileMeans(c: CandidateInput, t: Taxonomy, g: Graph, stored: seq<Selected>)
    requires ListsEdges(stored, RunAll(CandidateProgram(c, t), g).skill.edges, {HasSkill}, c.pid)
    ensures exists at ::
              && Positions(at, c.skills, (s: CandidateSkill) => !s.excluded)
              && (SkillVerdict(ExpectedOf(HasSkill, CandidateRows(c)), stored)
                  <==> |at| <= 201 && CleanKeys(c.skills, at))
  {
    hide RunAll, CandidateProgram, ListsEdges, SkillVerdict;
    SyncedCandidateAccepted(c, t, g, stored);
    var at := NonExcludedAt(c.skills);
    var rows, expected := CandidateRows(c), ExpectedOf(HasSkill, CandidateRows(c));
    hide NonExcluded;
    assert forall n :: 0 <= n < |at| ==> rows[n].key == c.skills[at[n]].key && expected[n].key == rows[n].key;
    hide CandidateRows, ExpectedOf, Positions;
    assert NoBlankKeys(expected) <==> forall n :: 0 <= n < |at| ==> !IsBlank(expected[n].key.text);
    assert CleanKeys(c.skills, at) <==> DistinctKeys(rows) && NoBlankKeys(expected);
  }

  // ----- Job -----

  ghost predicate LastOf(skills: seq<JobSkill>, i: nat) {
    i < |skills| && forall j :: i < j < |skills| ==> skills[j].key != skills[i].key
  }

  ghost predicate NamesKey(skills: seq<JobSkill>, k: Key) {
    exists i :: 0 <= i < |skills| && skills[i].key == k
  }

  /** The properties of a REQUIRES or PREFERS relationship to a skill of a job. */
  predicate CarriesJobSkill(p: SkillRel, s: JobSkill) {
    p.confidence == s.confidence && p.years == None && p.proficiency == None && p.evidence == s.evidence
  }

  /** The relationships of one type that a job's skill list stands for. */
  ghost predicate EdgesOfList(edges: map<EdgeKey, SkillRel>, rel: RelType, jid: Id, skills: seq<JobSkill>) {
    && (forall k :: EdgeKey(rel, jid, k) in edges <==> NamesKey(skills, k))
    && (forall i: nat :: LastOf(skills, i) ==>
          && EdgeKey(rel, jid, skills[i].key) in edges
          && CarriesJobSkill(edges[EdgeKey(rel, jid, skills[i].key)], skills[i]))
  }

  lemma JobRowsMean(rel: RelType, jid: Id, skills: seq<JobSkill>)
    ensures EdgesOfList(RowMap(rel, jid, Map(JobSkillRow, skills)), rel, jid, skills)
    ensures forall e :: e in RowMap(rel, jid, Map(JobSkillRow, skills)) ==> e.rel == rel && e.owner == jid
  {
    var rows := Map(JobSkillRow, skills);
    var m := RowMap(rel, jid, rows);
    RowMapKeys(rel, jid, rows);
    assert forall i :: 0 <= i < |skills| ==> rows[i].key == skills[i].key;
    hide RowMap;
    forall i: nat | LastOf(skills, i)
      ensures EdgeKey(rel, jid, skills[i].key) in m
      ensures CarriesJobSkill(m[EdgeKey(rel, jid, skills[i].key)], skills[i])
    {
      RowMapLast(rel, jid, rows, i);
    }
  }

  lemma ListsOver(
    m: map<EdgeKey, SkillRel>, req: map<EdgeKey, SkillRel>, pre: map<EdgeKey, SkillRel>, jid: Id,
    required: seq<JobSkill>, preferred: seq<JobSkill>)
    requires EdgesOfList(req, Requires, jid, required) && EdgesOfList(pre, Prefers, jid, preferred)
    requires forall e :: e in req ==> e.rel == Requires && e.owner == jid
    requires forall e :: e in pre ==> e.rel == Prefers && e.owner == jid
    ensures var all := WithoutOwners(m, {Requires, Prefers}, {jid}) + req + pre;
            && EdgesOfList(all, Requires, jid, required) && EdgesOfList(all, Prefers, jid, preferred)
            && OthersKept(all, m, {Requires, Prefers}, jid)
  {
    hide NamesKey, LastOf, CarriesJobSkill;
  }

  /**
    After a complete job sync, from any graph, the Job carries the extraction's fields and has a REQUIRES
    and a PREFERS relationship to exactly the keys of the two lists, each with the properties of the last
    skill of its key; every other relationship is as it was.
   */
  lemma JobSyncMeans(j: JobInput, t: Taxonomy, g: Graph)
    ensures var r, x := RunAll(JobProgram(j, t), g).skill, j.extraction;
            && j.jid in r.jobs
            && var node := r.jobs[j.jid];
            && node.title == x.title && node.company == x.company && node.location == x.location
            && node.workMode == x.workMode && node.seniority == x.seniority
            && node.quality == j.quality && node.embedding == j.embedding && WrittenAs(node.stamp, j.updatedAt)
            && EdgesOfList(r.edges, Requires, j.jid, x.required) && EdgesOfList(r.edges, Prefers, j.jid, x.preferred)
            && OthersKept(r.edges, g.skill.edges, {Requires, Prefers}, j.jid)
  {
    SyncJobExact(j, t, g);
    JobRowsMean(Requires, j.jid, j.extraction.required);
    JobRowsMean(Prefers, j.jid, j.extraction.preferred);
    ListsOver(g.skill.edges, RowMap(Requires, j.jid, RequiredRows(j)), RowMap(Prefers, j.jid, PreferredRows(j)), j.jid,
              j.extraction.required, j.extraction.preferred);
    hide RunAll, JobProgram, RowMap, EdgesOfList, OthersKept, WithoutOwners;
  }

  /** What the skill check expects of a job: the required skills, then the preferred ones, each as synced. */
  lemma ExpectedJobMeans(j: JobInput)
    ensures var all, req, pre := ExpectedJob(j), j.extraction.required, j.extraction.preferred;
            && |all| == |req| + |pre|
            && (forall i :: 0 <= i < |req| ==>
                  all[i].rel == Requires && all[i].key == req[i].key && CarriesJobSkill(all[i].props, req[i]))
            && (forall i :: 0 <= i < |pre| ==>
                  && all[|req| + i].rel == Prefers && all[|req| + i].key == pre[i].key
                  && CarriesJobSkill(all[|req| + i].props, pre[i]))
  {}

  // ----- Seeding and deletion -----

  /** A taxonomy row between two of these skills. */
  predicate Relates(rows: seq<RelatedRow>, i: nat, skills: set<Key>, e: RelatedKey) {
    i < |rows| && rows[i].edge == e && e.from in skills && e.to in skills
  }

  lemma {:induction false} RelatedRowsMean(rows: seq<RelatedRow>, skills: set<Key>, e: RelatedKey)
    ensures var m := MergeRelatedRows(map[], rows, skills);
            && (e in m <==> exists i: nat :: Relates(rows, i, skills, e))
            && (e in m ==> exists i: nat ::
                  && Relates(rows, i, skills, e) && m[e] == rows[i].props
                  && forall j :: i < j < |rows| ==> rows[j].edge != e)
    decreases |rows|
  {
    if rows != [] {
      var front, last := rows[..|rows| - 1], rows[|rows| - 1];
      RelatedRowsMean(front, skills, e);
      assert forall i: nat :: i < |front| ==> (Relates(front, i, skills, e) <==> Relates(rows, i, skills, e));
      if last.edge == e && e.from in skills && e.to in skills {
        assert Relates(rows, |rows| - 1, skills, e);
      } else if e in MergeRelatedRows(map[], front, skills) {
        var i: nat :| Relates(front, i, skills, e) && MergeRelatedRows(map[], front, skills)[e] == front[i].props
          && forall j :: i < j < |front| ==> front[j].edge != e;
        assert Relates(rows, i, skills, e) && rows[i] == front[i] && last.edge != e;
      }
    }
  }

  /**
    Seeding adds the seed skills, and a RELATED_TO for every taxonomy row between skills that are then
    there, with the properties of the last such row; nothing else moves.
   */
  lemma SeedMeans(t: Taxonomy, g: Graph, e: RelatedKey)
    ensures var r := RunAll(SeedProgram(t), g).skill;
            && (forall k :: k in r.skills <==> k in g.skill.skills || k in t.seedKeys)
            && (e in r.related <==> e in g.skill.related || exists i: nat :: Relates(t.related, i, r.skills, e))
            && ((exists i: nat :: Relates(t.related, i, r.skills, e)) ==>
                  exists i: nat ::
                    && Relates(t.related, i, r.skills, e) && r.related[e] == t.related[i].props
                    && forall j :: i < j < |t.related| ==> t.related[j].edge != e)
            && RunAll(SeedProgram(t), g) == g.(skill := g.skill.(skills := r.skills, related := r.related))
  {
    SeedExact(t, [], g);
    assert [] + SeedProgram(t) == SeedProgram(t) && RunAll([], g) == g;
    RelatedRowsMean(t.related, RunAll(SeedProgram(t), g).skill.skills, e);
    hide SeedProgram, RunAll, Relates, MergeRelatedRows;
  }

  /** Deleting a job takes its node and its relationships, and nothing else. */
  lemma DeleteJobMeans(jid: Id, g: Graph)
    ensures var r := Apply(DeleteJob(jid), g);
            && r == g.(skill := g.skill.(jobs := r.skill.jobs, edges := r.skill.edges))
            && (forall k :: k in r.skill.jobs <==> k in g.skill.jobs && k != jid)
            && (forall k :: k in r.skill.jobs ==> r.skill.jobs[k] == g.skill.jobs[k])
            && (forall k :: EdgeKey(Requires, jid, k) !in r.skill.edges && EdgeKey(Prefers, jid, k) !in r.skill.edges)
            && OthersKept(r.skill.edges, g.skill.edges, {Requires, Prefers}, jid)
  {}
}
