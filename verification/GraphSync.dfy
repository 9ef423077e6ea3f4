/**
  What a complete sync leaves behind, from any graph, and why a sync cut off after any statement
  is repaired by running it again.
 */
module GraphSync {
  import opened Common
  import opened Stamps
  import opened GraphModel
  import opened ScopedIds
  import opened SyncPrograms

  /** The skill edges a list of parameter rows stands for; a repeated key keeps its last row. */
  function RowMap(rel: RelType, owner: Id, rows: seq<SkillRow>): map<EdgeKey, SkillRel> {
    MergeSkillRows(map[], rel, owner, rows)
  }

  function RelatedMap(t: Taxonomy, skills: set<Key>): map<RelatedKey, RelatedProps> {
    MergeRelatedRows(map[], t.related, skills)
  }

  lemma RunIf(p: seq<Stmt>, issued: bool, s: Stmt, g: Graph)
    requires !issued ==> Apply(s, RunAll(p, g)) == RunAll(p, g)
    ensures RunAll(p + If(issued, s), g) == Apply(s, RunAll(p, g))
  {
    if issued {
      RunAllSnoc(p, s, g);
    } else {
      assert p + [] == p;
    }
  }

  lemma RunTwo(s1: Stmt, s2: Stmt, g: Graph)
    ensures RunAll([s1, s2], g) == Apply(s2, Apply(s1, g))
  {
    assert RunAll([s1], g) == Apply(s1, g) by {
      assert [s1][..0] == [];
    }
    assert [s1, s2] == [s1] + [s2];
    RunAllSnoc([s1], s2, g);
  }

  lemma NoRowsNoEffect(g: Graph, rel: RelType, owner: Id)
    ensures Apply(MergeSkillEdges(rel, owner, []), g) == g
  {}

  /** Seed skills and RELATED_TO, on any graph. */
  lemma SeedExact(t: Taxonomy, p: seq<Stmt>, g: Graph)
    ensures var before, after := RunAll(p, g), RunAll(p + SeedProgram(t), g);
            && after == before.(skill := after.skill)
            && after.skill == before.skill.(skills := after.skill.skills, related := after.skill.related)
            && after.skill.skills == before.skill.skills + ToSet(t.seedKeys)
            && after.skill.related == before.skill.related + RelatedMap(t, after.skill.skills)
  {
    var before := RunAll(p, g);
    var seed, rel := MergeSeedSkills(t.seedKeys), MergeRelated(t.related);
    if t.seedKeys == [] {
      assert before.skill.skills + ToSet(t.seedKeys) == before.skill.skills;
    }
    RunIf(p, t.seedKeys != [], seed, g);
    var p1 := p + If(t.seedKeys != [], seed);
    assert p1 + If(t.related != [], rel) == p + SeedProgram(t);
    RunIf(p1, t.related != [], rel, g);
    MergeRelatedRowsSplit(before.skill.related, t.related, RunAll(p1, g).skill.skills);
  }

  /** Skill edges merged for a present owner, if there are any rows. */
  lemma MergeEdgesStep(p: seq<Stmt>, rel: RelType, owner: Id, rows: seq<SkillRow>, g: Graph)
    requires OwnerPresent(RunAll(p, g).skill, rel, owner)
    ensures var before := RunAll(p, g);
            RunAll(p + If(rows != [], MergeSkillEdges(rel, owner, rows)), g)
              == before.(skill := before.skill.(skills := before.skill.skills + SkillKeys(rows),
                                                edges := before.skill.edges + RowMap(rel, owner, rows)))
  {
    var before := RunAll(p, g);
    NoRowsNoEffect(before, rel, owner);
    RunIf(p, rows != [], MergeSkillEdges(rel, owner, rows), g);
    MergeSkillRowsSplit(before.skill.edges, rel, owner, rows);
    hide RunAll, MergeSkillRows;
  }

  // ----- Candidate -----

  /**
    A complete candidate sync, from any graph: the Candidate carries the new stamp, its HAS_SKILL
    edges are exactly the non-excluded skills, and nothing else but shared Skills and RELATED_TO moves.
   */
  lemma SyncCandidateExact(c: CandidateInput, t: Taxonomy, g: Graph)
    ensures var r, rows := RunAll(CandidateProgram(c, t), g), CandidateRows(c);
            && r.cv == g.cv && r.projectsTo == g.projectsTo && r.skill.jobs == g.skill.jobs
            && r.skill.candidates == g.skill.candidates[c.pid := IsoUtc(c.updatedAt)]
            && r.skill.edges == WithoutOwners(g.skill.edges, {HasSkill}, {c.pid}) + RowMap(HasSkill, c.pid, rows)
            && r.skill.skills == g.skill.skills + SkillKeys(rows) + ToSet(t.seedKeys)
            && r.skill.related == g.skill.related + RelatedMap(t, r.skill.skills)
  {
    hide CandidateRows, IsoUtc, RowMap, RelatedMap, SeedProgram, RunAll;
    var rows := CandidateRows(c);
    var p := [MergeCandidate(c.pid, IsoUtc(c.updatedAt)), ClearHasSkill(c.pid)];
    RunTwo(p[0], p[1], g);
    MergeEdgesStep(p, HasSkill, c.pid, rows, g);
    SeedExact(t, p + If(rows != [], MergeSkillEdges(HasSkill, c.pid, rows)), g);
    assert CandidateProgram(c, t) == p + If(rows != [], MergeSkillEdges(HasSkill, c.pid, rows)) + SeedProgram(t);
  }

  // ----- Job -----

  /** A complete job sync, from any graph: only this Job's node and REQUIRES/PREFERS edges are replaced. */
  lemma SyncJobExact(j: JobInput, t: Taxonomy, g: Graph)
    ensures var r := RunAll(JobProgram(j, t), g);
            && r.cv == g.cv && r.projectsTo == g.projectsTo && r.skill.candidates == g.skill.candidates
            && r.skill.jobs == g.skill.jobs[j.jid := JobNodeOf(j)]
            && r.skill.edges == WithoutOwners(g.skill.edges, {Requires, Prefers}, {j.jid})
                                + RowMap(Requires, j.jid, RequiredRows(j)) + RowMap(Prefers, j.jid, PreferredRows(j))
            && r.skill.skills == g.skill.skills + SkillKeys(RequiredRows(j)) + SkillKeys(PreferredRows(j))
               + ToSet(t.seedKeys)
            && r.skill.related == g.skill.related + RelatedMap(t, r.skill.skills)
  {
    hide RequiredRows, PreferredRows, JobNodeOf, RowMap, RelatedMap, SeedProgram, RunAll;
    var req, pre := RequiredRows(j), PreferredRows(j);
    var p2 := [MergeJob(j.jid, JobNodeOf(j)), ClearJobSkills(j.jid)];
    var p3 := p2 + If(req != [], MergeSkillEdges(Requires, j.jid, req));
    var p4 := p3 + If(pre != [], MergeSkillEdges(Prefers, j.jid, pre));
    RunTwo(p2[0], p2[1], g);
    MergeEdgesStep(p2, Requires, j.jid, req, g);
    MergeEdgesStep(p3, Prefers, j.jid, pre, g);
    SeedExact(t, p4, g);
    assert JobProgram(j, t) == p4 + SeedProgram(t);
  }

  // ----- CV -----

  /** PROJECTS_TO after a CV sync: the active CV alone enters its Candidate, an archived one enters none. */
  function ProjectionAfter(g: Graph, cvId: Id, pid: Id, isActive: bool): set<Link> {
    if isActive then
      WithoutDst(g.projectsTo, {pid}) + (if pid in g.skill.candidates then {Link(cvId, pid)} else {})
    else WithoutSrc(g.projectsTo, {cvId})
  }

  lemma ProjectionExact(p: seq<Stmt>, cvId: Id, pid: Id, isActive: bool, g: Graph)
    requires cvId in RunAll(p, g).cv.cvs
    ensures var before := RunAll(p, g);
            RunAll(p + ProjectionProgram(cvId, pid, isActive), g)
              == before.(projectsTo := ProjectionAfter(before, cvId, pid, isActive))
  {
    hide RunAll;
    if isActive {
      RunAllSnoc(p, ClearAllProjectsTo(pid), g);
      RunAllSnoc(p + [ClearAllProjectsTo(pid)], MergeProjectsTo(cvId, pid), g);
      assert p + ProjectionProgram(cvId, pid, isActive) == p + [ClearAllProjectsTo(pid)] + [MergeProjectsTo(cvId, pid)];
    } else {
      RunAllSnoc(p, ClearThisCvProjectsTo(cvId), g);
    }
  }

  /** The part of the CV graph the clear statement leaves. */
  function Cleared(g: Graph, cvId: Id): CvGraph {
    DetachOwned(g.cv, {cvId})
  }

  function SectionLinks(cvId: Id, rows: seq<SectionRow>): set<Link> {
    set r | r in rows :: Link(cvId, r.id)
  }

  lemma MergeSectionsExact(g: CvGraph, cvId: Id, rows: seq<SectionRow>)
    requires cvId in g.cvs
    ensures MergeSectionsOn(g, cvId, rows)
         == g.(sections := g.sections + MergeSectionRows(map[], rows),
               hasSection := g.hasSection + SectionLinks(cvId, rows))
  {
    MergeSectionRowsSplit(g.sections, rows);
  }

  lemma {:induction false} AllSectionsPresent(m: map<Id, EntryNode>, rows: seq<EntryRow>, sections: set<Id>)
    requires forall r :: r in rows ==> r.sectionId in sections
    ensures MergeEntryRows(m, rows, sections) == MergeEntryRows(m, rows, set r | r in rows :: r.sectionId)
    decreases |rows|
  {
    if rows != [] {
      var front, all := rows[..|rows| - 1], set r | r in rows :: r.sectionId;
      assert forall r :: r in front ==> r in rows;
      AllSectionsPresent(m, front, sections);
      AllSectionsPresent(m, front, all);
      assert rows[|rows| - 1] in rows;
    }
  }

  /** The entry nodes a list of entry rows stands for. */
  function EntryMap(rows: seq<EntryRow>): map<Id, EntryNode> {
    MergeEntryRows(map[], rows, set r | r in rows :: r.sectionId)
  }

  function AllEntryLinks(rows: seq<EntryRow>): set<Link> {
    set r | r in rows :: Link(r.sectionId, r.id)
  }

  lemma MergeEntriesExact(g: CvGraph, rows: seq<EntryRow>)
    requires forall r :: r in rows ==> r.sectionId in g.sections
    ensures MergeEntriesOn(g, rows) == WithEntries(g, rows)
  {
    MergeEntryRowsSplit(g.entries, rows, g.sections.Keys);
    AllSectionsPresent(map[], rows, g.sections.Keys);
    assert EntryLinks(rows, g.sections.Keys) == AllEntryLinks(rows);
  }

  lemma {:induction false} EntryRowsUnderSections(cvId: Id, sections: seq<CvSection>)
    ensures forall r :: r in EntryRows(cvId, sections) ==> r.sectionId in SectionIds(SectionRows(cvId, sections))
    decreases |sections|
  {
    if sections != [] {
      var front, last := sections[..|sections| - 1], sections[|sections| - 1];
      EntryRowsUnderSections(cvId, front);
      var all := SectionRows(cvId, sections);
      assert all == SectionRows(cvId, front) + [SectionRowOf(cvId, last, |front|)];
      assert all[|front|] in all;
      assert forall r :: r in SectionRows(cvId, front) ==> r in all;
    }
  }

  lemma CvClearedWithNode(cv: CvInput, g: Graph)
    ensures var cvId := CvIdOf(cv);
            RunAll([MergeCv(cvId, CvNodeOf(cv)), ClearCvOwned(cvId)], g)
              == g.(cv := Cleared(g, cvId).(cvs := g.cv.cvs[cvId := CvNodeOf(cv)]))
  {
    RunTwo(MergeCv(CvIdOf(cv), CvNodeOf(cv)), ClearCvOwned(CvIdOf(cv)), g);
  }

  /** The CV subgraph once the sections are merged. */
  function WithSections(cv: CvInput, g: Graph): CvGraph {
    var cvId, base := CvIdOf(cv), Cleared(g, CvIdOf(cv));
    var rows := SectionRows(cvId, cv.document.sections);
    base.(cvs := g.cv.cvs[cvId := CvNodeOf(cv)],
          sections := base.sections + MergeSectionRows(map[], rows),
          hasSection := base.hasSection + SectionLinks(cvId, rows))
  }

  function CvHead(cv: CvInput): seq<Stmt> {
    var cvId := CvIdOf(cv);
    var rows := SectionRows(cvId, cv.document.sections);
    [MergeCv(cvId, CvNodeOf(cv)), ClearCvOwned(cvId)] + If(rows != [], MergeSections(cvId, rows))
  }

  lemma MergeSectionsStep(p: seq<Stmt>, w: CvGraph, cvId: Id, rows: seq<SectionRow>, g: Graph)
    requires RunAll(p, g) == g.(cv := w) && cvId in w.cvs
    ensures RunAll(p + If(rows != [], MergeSections(cvId, rows)), g)
         == g.(cv := w.(sections := w.sections + MergeSectionRows(map[], rows),
                        hasSection := w.hasSection + SectionLinks(cvId, rows)))
  {
    MergeSectionsExact(w, cvId, rows);
    if rows == [] {
      assert w.sections + map[] == w.sections;
      assert w.hasSection + SectionLinks(cvId, []) == w.hasSection;
    }
    RunIf(p, rows != [], MergeSections(cvId, rows), g);
  }

  lemma CvHeadExact(cv: CvInput, g: Graph)
    ensures RunAll(CvHead(cv), g) == g.(cv := WithSections(cv, g))
  {
    var cvId := CvIdOf(cv);
    CvClearedWithNode(cv, g);
    MergeSectionsStep([MergeCv(cvId, CvNodeOf(cv)), ClearCvOwned(cvId)],
                      Cleared(g, cvId).(cvs := g.cv.cvs[cvId := CvNodeOf(cv)]),
                      cvId, SectionRows(cvId, cv.document.sections), g);
  }

  /** The CV subgraph a complete sync writes over what the clear left. */
  function CvResult(cv: CvInput, g: Graph): CvGraph {
    WithEntries(WithSections(cv, g), EntryRows(CvIdOf(cv), cv.document.sections))
  }

  function WithEntries(g: CvGraph, rows: seq<EntryRow>): CvGraph {
    g.(entries := g.entries + EntryMap(rows), hasEntry := g.hasEntry + AllEntryLinks(rows))
  }

  function CvBody(cv: CvInput): seq<Stmt> {
    var rows := EntryRows(CvIdOf(cv), cv.document.sections);
    CvHead(cv) + If(rows != [], MergeEntries(rows))
  }

  lemma EntrySectionsMerged(cv: CvInput, g: Graph)
    ensures forall r :: r in EntryRows(CvIdOf(cv), cv.document.sections) ==> r.sectionId in WithSections(cv, g).sections
  {
    EntryRowsUnderSections(CvIdOf(cv), cv.document.sections);
    MergeSectionRowsSplit(map[], SectionRows(CvIdOf(cv), cv.document.sections));
  }

  lemma MergeEntriesStep(p: seq<Stmt>, w: CvGraph, rows: seq<EntryRow>, g: Graph)
    requires RunAll(p, g) == g.(cv := w)
    requires forall r :: r in rows ==> r.sectionId in w.sections
    ensures RunAll(p + If(rows != [], MergeEntries(rows)), g) == g.(cv := WithEntries(w, rows))
  {
    MergeEntriesExact(w, rows);
    if rows == [] {
      assert w.entries + map[] == w.entries;
      assert w.hasEntry + AllEntryLinks([]) == w.hasEntry;
    }
    RunIf(p, rows != [], MergeEntries(rows), g);
  }

  lemma CvBodyExact(cv: CvInput, g: Graph)
    ensures RunAll(CvBody(cv), g) == g.(cv := CvResult(cv, g))
  {
    CvHeadExact(cv, g);
    EntrySectionsMerged(cv, g);
    MergeEntriesStep(CvHead(cv), WithSections(cv, g), EntryRows(CvIdOf(cv), cv.document.sections), g);
  }

  /**
    A complete CV sync, from any graph: the CV node, its sections and entries are those of the
    document, what other CVs own is kept, and PROJECTS_TO is as the active flag demands.
   */
  lemma SyncCvExact(cv: CvInput, g: Graph)
    ensures RunAll(CvProgram(cv), g)
         == Graph(g.skill, CvResult(cv, g), ProjectionAfter(g, CvIdOf(cv), Id(cv.profileId), cv.isActive))
  {
    var cvId := CvIdOf(cv);
    CvBodyExact(cv, g);
    ProjectionExact(CvBody(cv), cvId, Id(cv.profileId), cv.isActive, g);
    assert CvProgram(cv) == CvBody(cv) + ProjectionProgram(cvId, Id(cv.profileId), cv.isActive);
  }

  /** The metadata-only projection of a profile without a structured document. */
  lemma ProjectLegacyExact(cv: LegacyCv, g: Graph)
    ensures RunAll(LegacyProgram(cv), g)
         == Graph(g.skill, g.cv.(cvs := g.cv.cvs[LegacyCvId(cv) := LegacyCvNode(cv)]),
                  ProjectionAfter(g, LegacyCvId(cv), Id(cv.profileId), true))
  {
    var m := MergeCv(LegacyCvId(cv), LegacyCvNode(cv));
    assert RunAll([m], g) == Apply(m, g) by {
      assert [m][..0] == [];
    }
    ProjectionExact([m], LegacyCvId(cv), Id(cv.profileId), true, g);
  }
}
