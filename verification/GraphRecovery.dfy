/**
  Crash convergence and idempotence: running a sync again over what any cut of it left gives the
  same graph as one uninterrupted run; and a sync leaves other owners' branches alone.
 */
module GraphRecovery {
  import opened Common
  import opened Stamps
  import opened GraphModel
  import opened ScopedIds
  import opened SyncPrograms
  import opened GraphSync
  import opened GraphInvariant

  // ----- Skill edges -----

  lemma MergeThenRemoveOwner(
    m: map<EdgeKey, SkillRel>, rel: RelType, owner: Id, rows: seq<SkillRow>, rels: set<RelType>)
    requires rel in rels
    ensures WithoutOwners(MergeSkillRows(m, rel, owner, rows), rels, {owner}) == WithoutOwners(m, rels, {owner})
  {
    MergeSkillRowsSplit(m, rel, owner, rows);
  }

  /** A RELATED_TO merge over fewer Skills writes a part of what a merge over more Skills writes. */
  lemma {:induction false} RelatedMonotone(rows: seq<RelatedRow>, few: set<Key>, many: set<Key>)
    requires few <= many
    ensures var part, whole := MergeRelatedRows(map[], rows, few), MergeRelatedRows(map[], rows, many);
            forall e :: e in part ==> e in whole && e.from in few && e.to in few && part[e] == whole[e]
    decreases |rows|
  {
    if rows != [] {
      RelatedMonotone(rows[..|rows| - 1], few, many);
    }
  }

  lemma RelatedOverlay(m: map<RelatedKey, RelatedProps>, t: Taxonomy, few: set<Key>, many: set<Key>)
    requires few <= many
    ensures MergeRelatedRows(m, t.related, few) + RelatedMap(t, many) == m + RelatedMap(t, many)
  {
    RelatedMonotone(t.related, few, many);
    MergeRelatedRowsSplit(m, t.related, few);
  }

  // ----- Candidate -----

  lemma ClearedTwice(m: map<EdgeKey, SkillRel>, rels: set<RelType>, owner: Id)
    ensures WithoutOwners(WithoutOwners(m, rels, {owner}), rels, {owner}) == WithoutOwners(m, rels, {owner})
  {}

  function CandidateSkills(c: CandidateInput, t: Taxonomy, g: Graph): set<Key> {
    g.skill.skills + SkillKeys(CandidateRows(c)) + ToSet(t.seedKeys)
  }

  /** `h` differs from `g` only in what a candidate sync overwrites. */
  ghost predicate CandidateRepairable(c: CandidateInput, t: Taxonomy, g: Graph, h: Graph) {
    var all := CandidateSkills(c, t, g);
    && h.cv == g.cv && h.projectsTo == g.projectsTo && h.skill.jobs == g.skill.jobs
    && h.skill.candidates[c.pid := IsoUtc(c.updatedAt)] == g.skill.candidates[c.pid := IsoUtc(c.updatedAt)]
    && WithoutOwners(h.skill.edges, {HasSkill}, {c.pid}) == WithoutOwners(g.skill.edges, {HasSkill}, {c.pid})
    && g.skill.skills <= h.skill.skills <= all
    && h.skill.related + RelatedMap(t, all) == g.skill.related + RelatedMap(t, all)
  }

  lemma CandidateStatementRepairable(c: CandidateInput, t: Taxonomy, g: Graph, h: Graph, s: Stmt)
    requires CandidateRepairable(c, t, g, h) && s in CandidateProgram(c, t)
    ensures CandidateRepairable(c, t, g, Apply(s, h))
  {
    hide CandidateRows, IsoUtc, RelatedMap, MergeSkillRows, MergeRelatedRows, SkillKeys, ToSet;
    match s
    case MergeSkillEdges(_, _, rows) =>
      assert rows == CandidateRows(c);
      CandidateEdgesRepairable(c, t, g, h);
    case MergeSeedSkills(_) => hide WithoutOwners;
    case MergeRelated(_) =>
      hide WithoutOwners;
      RelatedOverlay(h.skill.related, t, h.skill.skills, CandidateSkills(c, t, g));
    case MergeCandidate(_, _) => hide WithoutOwners;
    case ClearHasSkill(_) => ClearedTwice(h.skill.edges, {HasSkill}, c.pid);
    case _ =>
  }

  lemma CandidateEdgesRepairable(c: CandidateInput, t: Taxonomy, g: Graph, h: Graph)
    requires CandidateRepairable(c, t, g, h)
    ensures CandidateRepairable(c, t, g, Apply(MergeSkillEdges(HasSkill, c.pid, CandidateRows(c)), h))
  {
    MergeThenRemoveOwner(h.skill.edges, HasSkill, c.pid, CandidateRows(c), {HasSkill});
    hide CandidateRows, IsoUtc, RelatedMap, MergeSkillRows, WithoutOwners;
  }

  lemma NothingToRepair(c: CandidateInput, t: Taxonomy, g: Graph)
    ensures CandidateRepairable(c, t, g, RunAll([], g))
  {}

  lemma {:induction false} CandidateCutRepairable(c: CandidateInput, t: Taxonomy, g: Graph, k: nat)
    requires k <= |CandidateProgram(c, t)|
    ensures CandidateRepairable(c, t, g, RunAll(CandidateProgram(c, t)[..k], g))
    decreases k
  {
    hide CandidateRepairable, CandidateProgram, Apply;
    var p := CandidateProgram(c, t);
    if k == 0 {
      NothingToRepair(c, t, g);
    } else {
      CandidateCutRepairable(c, t, g, k - 1);
      assert p[..k][..k - 1] == p[..k - 1];
      CandidateStatementRepairable(c, t, g, RunAll(p[..k - 1], g), p[k - 1]);
    }
  }

  /** A candidate sync cut off anywhere, then run in full, ends where one full run ends. */
  lemma CandidateCutThenRunConverges(c: CandidateInput, t: Taxonomy, g: Graph, k: nat)
    requires k <= |CandidateProgram(c, t)|
    ensures var p := CandidateProgram(c, t); RunAll(p, RunAll(p[..k], g)) == RunAll(p, g)
  {
    var h := RunAll(CandidateProgram(c, t)[..k], g);
    CandidateCutRepairable(c, t, g, k);
    SyncCandidateExact(c, t, g);
    SyncCandidateExact(c, t, h);
    assert CandidateSkills(c, t, h) == CandidateSkills(c, t, g);
  }

  // ----- Job -----

  function JobSkills(j: JobInput, t: Taxonomy, g: Graph): set<Key> {
    g.skill.skills + SkillKeys(RequiredRows(j)) + SkillKeys(PreferredRows(j)) + ToSet(t.seedKeys)
  }

  ghost predicate JobRepairable(j: JobInput, t: Taxonomy, g: Graph, h: Graph) {
    var all := JobSkills(j, t, g);
    && h.cv == g.cv && h.projectsTo == g.projectsTo && h.skill.candidates == g.skill.candidates
    && h.skill.jobs[j.jid := JobNodeOf(j)] == g.skill.jobs[j.jid := JobNodeOf(j)]
    && WithoutOwners(h.skill.edges, {Requires, Prefers}, {j.jid})
       == WithoutOwners(g.skill.edges, {Requires, Prefers}, {j.jid})
    && g.skill.skills <= h.skill.skills <= all
    && h.skill.related + RelatedMap(t, all) == g.skill.related + RelatedMap(t, all)
  }

  lemma JobStatementRepairable(j: JobInput, t: Taxonomy, g: Graph, h: Graph, s: Stmt)
    requires JobRepairable(j, t, g, h) && s in JobProgram(j, t)
    ensures JobRepairable(j, t, g, Apply(s, h))
  {
    hide RequiredRows, PreferredRows, JobNodeOf, RelatedMap, MergeSkillRows, MergeRelatedRows;
    match s
    case MergeSkillEdges(rel, _, rows) =>
      assert rows == RequiredRows(j) || rows == PreferredRows(j);
      JobEdgesRepairable(j, t, g, h, rel, rows);
    case MergeSeedSkills(_) => hide WithoutOwners;
    case MergeRelated(_) =>
      hide WithoutOwners;
      RelatedOverlay(h.skill.related, t, h.skill.skills, JobSkills(j, t, g));
    case MergeJob(_, _) => hide WithoutOwners;
    case ClearJobSkills(_) => ClearedTwice(h.skill.edges, {Requires, Prefers}, j.jid);
    case _ =>
  }

  lemma JobEdgesRepairable(j: JobInput, t: Taxonomy, g: Graph, h: Graph, rel: RelType, rows: seq<SkillRow>)
    requires JobRepairable(j, t, g, h) && !rel.HasSkill? && (rows == RequiredRows(j) || rows == PreferredRows(j))
    ensures JobRepairable(j, t, g, Apply(MergeSkillEdges(rel, j.jid, rows), h))
  {
    MergeThenRemoveOwner(h.skill.edges, rel, j.jid, rows, {Requires, Prefers});
    hide RequiredRows, PreferredRows, JobNodeOf, RelatedMap, MergeSkillRows, WithoutOwners;
  }

  lemma {:induction false} JobCutRepairable(j: JobInput, t: Taxonomy, g: Graph, k: nat)
    requires k <= |JobProgram(j, t)|
    ensures JobRepairable(j, t, g, RunAll(JobProgram(j, t)[..k], g))
    decreases k
  {
    var p := JobProgram(j, t);
    if k > 0 {
      JobCutRepairable(j, t, g, k - 1);
      assert p[..k][..k - 1] == p[..k - 1];
      JobStatementRepairable(j, t, g, RunAll(p[..k - 1], g), p[k - 1]);
    }
  }

  /** A job sync cut off anywhere, then run in full, ends where one full run ends. */
  lemma JobCutThenRunConverges(j: JobInput, t: Taxonomy, g: Graph, k: nat)
    requires k <= |JobProgram(j, t)|
    ensures var p := JobProgram(j, t); RunAll(p, RunAll(p[..k], g)) == RunAll(p, g)
  {
    var h := RunAll(JobProgram(j, t)[..k], g);
    JobCutRepairable(j, t, g, k);
    SyncJobExact(j, t, g);
    SyncJobExact(j, t, h);
    assert JobSkills(j, t, h) == JobSkills(j, t, g);
  }

  // ----- CV -----

  /** What both graphs keep once this CV's branch is cleared. */
  ghost predicate SameOutside(cvId: Id, g: CvGraph, h: CvGraph) {
    var a, b := DetachOwned(g, {cvId}), DetachOwned(h, {cvId});
    a.sections == b.sections && a.entries == b.entries && a.hasSection == b.hasSection && a.hasEntry == b.hasEntry
  }

  lemma OwnSections(g: CvGraph, cvId: Id, s: Id)
    requires Owned(g) && CvWf(g) && Colons(cvId.text) == 1 && InScope(cvId.text, s.text) && s in g.sections
    ensures Link(cvId, s) in g.hasSection
  {
    var l :| l in g.hasSection && l.dst == s;
    OwnerUnique(l.src.text, cvId.text, s.text);
    assert l == Link(cvId, s);
  }

  /** An entry already there under an id scoped to one of the CV's sections is below that CV. */
  lemma OwnEntries(g: CvGraph, cvId: Id, l: Link)
    requires Owned(g) && CvWf(g) && Colons(cvId.text) == 1 && InScope(cvId.text, l.src.text)
    requires InScope(l.src.text, l.dst.text)
    requires l.dst in g.entries
    ensures l.dst in Reached(g.hasEntry, Reached(g.hasSection, {cvId}))
  {
    var m :| m in g.hasEntry && m.dst == l.dst;
    var owner := SectionOwner(g, m.src);
    InScopeTransitive(cvId.text, l.src.text, l.dst.text);
    InScopeTransitive(owner.src.text, m.src.text, m.dst.text);
    OwnerUnique(cvId.text, owner.src.text, l.dst.text);
    assert Link(cvId, m.src) in g.hasSection && m.src in Reached(g.hasSection, {cvId});
  }

  lemma ClearSameOutside(g: CvGraph, cvId: Id)
    ensures SameOutside(cvId, g, DetachOwned(g, {cvId}))
  {}

  /** Adding nodes that are already reached, or new, changes nothing outside what is reached. */
  lemma OverlayOutside<V>(m: map<Id, V>, added: map<Id, V>, reached: set<Id>)
    requires forall k :: k in added && k in m ==> k in reached
    ensures (m + added) - (reached + added.Keys) == m - reached
  {}

  lemma LinksOutside(links: set<Link>, added: set<Link>, reached: set<Id>, ids: set<Id>)
    requires forall l :: l in added ==> l.dst in ids
    requires forall l :: l in links && l.dst in ids ==> l.dst in reached
    ensures WithoutDst(links + added, reached + ids) == WithoutDst(links, reached)
  {}

  lemma SectionsSameOutside(g: CvGraph, cvId: Id, rows: seq<SectionRow>)
    requires Owned(g) && CvWf(g) && Colons(cvId.text) == 1 && Scoping(MergeSections(cvId, rows))
    ensures SameOutside(cvId, g, MergeSectionsOn(g, cvId, rows))
  {
    if cvId in g.cvs {
      var secs, ids, links := Reached(g.hasSection, {cvId}), SectionIds(rows), SectionLinks(cvId, rows);
      forall s | s in ids && s in g.sections ensures s in secs {
        OwnSections(g, cvId, s);
        assert Link(cvId, s) in g.hasSection;
      }
      MergeSectionRowsSplit(map[], rows);
      MergeSectionsExact(g, cvId, rows);
      var added := MergeSectionRows(map[], rows);
      assert Reached(g.hasSection + links, {cvId}) == secs + ids by {
        forall r | r in rows ensures r.id in Reached(g.hasSection + links, {cvId}) {
          assert Link(cvId, r.id) in g.hasSection + links;
        }
      }
      NewSectionsSameOutside(g, cvId, added, links);
    }
  }

  lemma NewSectionsSameOutside(g: CvGraph, cvId: Id, added: map<Id, SectionNode>, links: set<Link>)
    requires CvWf(g)
    requires Reached(g.hasSection + links, {cvId}) == Reached(g.hasSection, {cvId}) + added.Keys
    requires forall s :: s in added && s in g.sections ==> s in Reached(g.hasSection, {cvId})
    requires forall l :: l in links ==> l.dst in added
    ensures SameOutside(cvId, g, g.(sections := g.sections + added, hasSection := g.hasSection + links))
  {
    var secs := Reached(g.hasSection, {cvId});
    OverlayOutside(g.sections, added, secs);
    LinksOutside(g.hasSection, links, secs, added.Keys);
    assert Reached(g.hasEntry, secs + added.Keys) == Reached(g.hasEntry, secs);
    var kept := WithoutDst(g.hasEntry, Reached(g.hasEntry, secs));
    assert WithoutSrc(kept, secs + added.Keys) == WithoutSrc(kept, secs);
  }

  lemma EntriesSameOutside(g: CvGraph, cvId: Id, rows: seq<EntryRow>)
    requires Owned(g) && CvWf(g) && Colons(cvId.text) == 1 && Scoping(MergeEntries(rows))
    requires forall r :: r in rows ==> InScope(cvId.text, r.sectionId.text)
    ensures SameOutside(cvId, g, MergeEntriesOn(g, rows))
  {
    var secs, links := Reached(g.hasSection, {cvId}), EntryLinks(rows, g.sections.Keys);
    var added := MergeEntryRows(map[], rows, g.sections.Keys);
    MergeEntryRowsSplit(g.entries, rows, g.sections.Keys);
    forall l | l in links
      ensures l.src in secs && l.dst in added && (l.dst in g.entries ==> l.dst in Reached(g.hasEntry, secs))
    {
      OwnSections(g, cvId, l.src);
      assert Link(cvId, l.src) in g.hasSection;
      if l.dst in g.entries {
        OwnEntries(g, cvId, l);
      }
    }
    forall e | e in added ensures exists l :: l in links && l.dst == e {
      var r :| r in rows && r.sectionId in g.sections.Keys && r.id == e;
      assert Link(r.sectionId, r.id) in links;
    }
    NewEntriesSameOutside(g, cvId, added, links);
  }

  lemma NewEntriesSameOutside(g: CvGraph, cvId: Id, added: map<Id, EntryNode>, links: set<Link>)
    requires var secs := Reached(g.hasSection, {cvId});
             && (forall l :: l in links ==>
                  l.src in secs && l.dst in added && (l.dst in g.entries ==> l.dst in Reached(g.hasEntry, secs)))
             && (forall e :: e in added ==> exists l :: l in links && l.dst == e)
    requires CvWf(g)
    ensures SameOutside(cvId, g, g.(entries := g.entries + added, hasEntry := g.hasEntry + links))
  {}

  ghost predicate CvRepairable(cv: CvInput, g: Graph, h: Graph) {
    && WellFormed(h) && Owned(h.cv)
    && SameOutside(CvIdOf(cv), g.cv, h.cv)
    && SameElsewhere(cv, g, h)
  }

  /** The parts a CV sync does not touch, or overwrites whatever they were. */
  predicate SameElsewhere(cv: CvInput, g: Graph, h: Graph) {
    var cvId := CvIdOf(cv);
    && h.skill == g.skill
    && h.cv.cvs[cvId := CvNodeOf(cv)] == g.cv.cvs[cvId := CvNodeOf(cv)]
    && ProjectionAfter(h, cvId, Id(cv.profileId), cv.isActive)
       == ProjectionAfter(g, cvId, Id(cv.profileId), cv.isActive)
  }

  /** The statements a CV sync may issue. */
  predicate Issues(cv: CvInput, s: Stmt) {
    var cvId, pid := CvIdOf(cv), Id(cv.profileId);
    match s
    case MergeCv(c, n) => c == cvId && n == CvNodeOf(cv)
    case ClearCvOwned(c) => c == cvId
    case MergeSections(c, rows) => c == cvId && rows == SectionRows(cvId, cv.document.sections)
    case MergeEntries(rows) => rows == EntryRows(cvId, cv.document.sections)
    case ClearAllProjectsTo(p) => cv.isActive && p == pid
    case MergeProjectsTo(c, p) => cv.isActive && c == cvId && p == pid
    case ClearThisCvProjectsTo(c) => !cv.isActive && c == cvId
    case _ => false
  }

  lemma ProgramIssues(cv: CvInput, k: nat)
    requires k < |CvProgram(cv)|
    ensures Issues(cv, CvProgram(cv)[k])
  {
    hide SectionRows, EntryRows, CvNodeOf;
  }

  lemma CvContentRepairable(cv: CvInput, h: Graph, s: Stmt)
    requires UuidParts(cv) && Issues(cv, s) && WellFormed(h) && Owned(h.cv)
    ensures SameOutside(CvIdOf(cv), h.cv, Apply(s, h).cv) && Scoping(s)
  {
    hide SameOutside, MergeSectionsOn, MergeEntriesOn, DetachOwned, SectionRows, EntryRows, Owned, UuidParts, CvIdOf;
    var cvId := CvIdOf(cv);
    CvIdColons(cv);
    CvRowsScoped(cvId, cv.document.sections);
    match s
    case ClearCvOwned(_) => ClearSameOutside(h.cv, cvId);
    case MergeSections(_, rows) => SectionsSameOutside(h.cv, cvId, rows);
    case MergeEntries(rows) => EntriesSameOutside(h.cv, cvId, rows);
    case _ => NothingOutside(cvId, h.cv, Apply(s, h).cv);
  }

  lemma CvRowsScoped(cvId: Id, sections: seq<CvSection>)
    ensures Scoping(MergeSections(cvId, SectionRows(cvId, sections)))
    ensures Scoping(MergeEntries(EntryRows(cvId, sections)))
    ensures forall r :: r in EntryRows(cvId, sections) ==> InScope(cvId.text, r.sectionId.text)
  {
    SectionRowsScoped(cvId, sections);
    EntryRowsScoped(cvId, sections);
    forall r | r in EntryRows(cvId, sections) ensures InScope(cvId.text, r.sectionId.text) {
      var row :| row in SectionRows(cvId, sections) && row.id == r.sectionId;
    }
  }

  /** CV nodes are not part of what is kept outside. */
  lemma NothingOutside(cvId: Id, g: CvGraph, h: CvGraph)
    requires h == g.(cvs := h.cvs)
    ensures SameOutside(cvId, g, h)
  {}

  lemma IssuedKeepsSameElsewhere(cv: CvInput, h: Graph, s: Stmt)
    requires Issues(cv, s)
    ensures SameElsewhere(cv, h, Apply(s, h))
  {}

  lemma IssuedKeepsShape(cv: CvInput, h: Graph, s: Stmt)
    requires Issues(cv, s) && Scoping(s) && WellFormed(h) && Owned(h.cv)
    ensures WellFormed(Apply(s, h)) && Owned(Apply(s, h).cv)
  {
    ApplyKeepsWellFormed(s, h);
    StatementKeepsOwnedIff(s, h);
  }

  lemma CvStatementRepairable(cv: CvInput, g: Graph, h: Graph, s: Stmt)
    requires UuidParts(cv) && CvRepairable(cv, g, h) && Issues(cv, s)
    ensures CvRepairable(cv, g, Apply(s, h))
  {
    CvContentRepairable(cv, h, s);
    IssuedKeepsSameElsewhere(cv, h, s);
    IssuedKeepsShape(cv, h, s);
    RepairableStep(cv, g, h, Apply(s, h));
  }

  lemma RepairableStep(cv: CvInput, g: Graph, h: Graph, r: Graph)
    requires CvRepairable(cv, g, h) && SameOutside(CvIdOf(cv), h.cv, r.cv) && SameElsewhere(cv, h, r)
    requires WellFormed(r) && Owned(r.cv)
    ensures CvRepairable(cv, g, r)
  {}

  /** Any statements of the sync, in any order and with any repeats, leave something repairable. */
  lemma {:induction false} IssuedRepairable(cv: CvInput, g: Graph, p: seq<Stmt>)
    requires UuidParts(cv) && Inv(g)
    requires forall i :: 0 <= i < |p| ==> Issues(cv, p[i])
    ensures CvRepairable(cv, g, RunAll(p, g))
    decreases |p|
  {
    if p != [] {
      IssuedRepairable(cv, g, p[..|p| - 1]);
      CvStatementRepairable(cv, g, RunAll(p[..|p| - 1], g), p[|p| - 1]);
    }
  }

  /** A CV sync cut off anywhere, then run in full, ends where one full run ends. */
  lemma CvCutThenRunConverges(cv: CvInput, g: Graph, k: nat)
    requires UuidParts(cv) && Inv(g) && k <= |CvProgram(cv)|
    ensures var p := CvProgram(cv); RunAll(p, RunAll(p[..k], g)) == RunAll(p, g)
  {
    forall i | 0 <= i < k ensures Issues(cv, CvProgram(cv)[..k][i]) {
      ProgramIssues(cv, i);
    }
    IssuedRepairable(cv, g, CvProgram(cv)[..k]);
    SyncCvExact(cv, g);
    SyncCvExact(cv, RunAll(CvProgram(cv)[..k], g));
  }

  // ----- Other owners -----

  /** Both maps hold the same node under this id. */
  predicate Same<V(==)>(a: map<Id, V>, b: map<Id, V>, id: Id) {
    id in a && id in b && a[id] == b[id]
  }

  /**
    After a complete CV sync the CV owns exactly the sections of its document, and every section and
    entry of any other CV is still there, under the same owner and with the same properties.
   */
  lemma SyncCvOwnsExactlyItsDocument(cv: CvInput, g: Graph)
    requires UuidParts(cv) && Inv(g)
    ensures var cvId, r := CvIdOf(cv), RunAll(CvProgram(cv), g).cv;
            && Reached(r.hasSection, {cvId}) == SectionIds(SectionRows(cvId, cv.document.sections))
            && (forall l: Link :: l.src != cvId ==> (l in r.hasSection <==> l in g.cv.hasSection))
            && (forall l :: l in g.cv.hasSection && l.src != cvId ==> Same(r.sections, g.cv.sections, l.dst))
  {
    hide CvResult, Reached, SectionRows, SectionIds, Inv, UuidParts, RunAll, CvProgram, Same;
    SyncCvExact(cv, g);
    ResultOwnsItsSections(cv, g);
    ResultKeepsOtherSections(cv, g);
  }

  lemma ResultOwnsItsSections(cv: CvInput, g: Graph)
    ensures Reached(CvResult(cv, g).hasSection, {CvIdOf(cv)})
            == SectionIds(SectionRows(CvIdOf(cv), cv.document.sections))
  {}

  lemma ResultKeepsOtherSections(cv: CvInput, g: Graph)
    requires UuidParts(cv) && Inv(g)
    ensures var cvId, r := CvIdOf(cv), CvResult(cv, g);
            && (forall l: Link :: l.src != cvId ==> (l in r.hasSection <==> l in g.cv.hasSection))
            && (forall l :: l in g.cv.hasSection && l.src != cvId ==> Same(r.sections, g.cv.sections, l.dst))
  {
    var cvId := CvIdOf(cv);
    var rows := SectionRows(cvId, cv.document.sections);
    MergeSectionRowsSplit(map[], rows);
    assert CvWf(g.cv);
    hide Inv, UuidParts, EntryRows, MergeEntryRows, MergeSectionRows, SectionRows;
    forall l | l in g.cv.hasSection && l.src != cvId
      ensures l.dst !in Reached(g.cv.hasSection, {cvId}) && l.dst !in SectionIds(rows)
    {
      OtherSectionApart(cv, g, l);
    }
  }

  lemma OtherSectionApart(cv: CvInput, g: Graph, l: Link)
    requires UuidParts(cv) && Inv(g) && l in g.cv.hasSection && l.src != CvIdOf(cv)
    ensures l.dst !in Reached(g.cv.hasSection, {CvIdOf(cv)})
    ensures l.dst !in SectionIds(SectionRows(CvIdOf(cv), cv.document.sections))
  {
    var cvId := CvIdOf(cv);
    CvIdColons(cv);
    SectionRowsScoped(cvId, cv.document.sections);
    if l.dst in Reached(g.cv.hasSection, {cvId}) {
      OwnerUnique(l.src.text, cvId.text, l.dst.text);
    }
    if l.dst in SectionIds(SectionRows(cvId, cv.document.sections)) {
      OwnerUnique(l.src.text, cvId.text, l.dst.text);
    }
  }

  /** What an entry sync adds does not meet the entries below another CV's sections. */
  lemma EntryRowsAvoid(cv: CvInput, g: CvGraph, other: Id, l: Link)
    requires UuidParts(cv) && Owned(g) && CvWf(g) && other != CvIdOf(cv)
    requires l in g.hasEntry && l.src in Reached(g.hasSection, {other})
    ensures forall row :: row in EntryRows(CvIdOf(cv), cv.document.sections) ==>
              row.id != l.dst && row.sectionId != l.src
    ensures l.dst !in Reached(g.hasEntry, Reached(g.hasSection, {CvIdOf(cv)}))
    ensures l.src !in Reached(g.hasSection, {CvIdOf(cv)})
  {
    var cvId := CvIdOf(cv);
    CvIdColons(cv);
    SectionRowsScoped(cvId, cv.document.sections);
    EntryRowsScoped(cvId, cv.document.sections);
    var rows := EntryRows(cvId, cv.document.sections);
    assert Link(other, l.src) in g.hasSection;
    InScopeTransitive(other.text, l.src.text, l.dst.text);
    if InScope(cvId.text, l.src.text) {
      OwnerUnique(other.text, cvId.text, l.src.text);
    }
    forall row | row in EntryRows(cvId, cv.document.sections) ensures row.id != l.dst && row.sectionId != l.src {
      var sec :| sec in SectionRows(cvId, cv.document.sections) && sec.id == row.sectionId;
      if row.id == l.dst {
        InScopeTransitive(cvId.text, row.sectionId.text, row.id.text);
        OwnerUnique(other.text, cvId.text, l.dst.text);
      }
    }
    OwnedIsClosed(g, cvId);
  }

  /** The entries of each section of another CV are likewise untouched. */
  lemma SyncCvKeepsOtherEntries(cv: CvInput, g: Graph, other: Id)
    requires UuidParts(cv) && Inv(g) && other != CvIdOf(cv)
    ensures var r := RunAll(CvProgram(cv), g).cv;
            forall l :: l in g.cv.hasEntry && l.src in Reached(g.cv.hasSection, {other}) ==>
              l in r.hasEntry && Same(r.entries, g.cv.entries, l.dst)
  {
    var cvId := CvIdOf(cv);
    var rows := EntryRows(cvId, cv.document.sections);
    SyncCvExact(cv, g);
    MergeEntryRowsSplit(map[], rows, set r | r in rows :: r.sectionId);
    forall l | l in g.cv.hasEntry && l.src in Reached(g.cv.hasSection, {other})
      ensures l in CvResult(cv, g).hasEntry && Same(CvResult(cv, g).entries, g.cv.entries, l.dst)
    {
      EntryRowsAvoid(cv, g.cv, other, l);
    }
  }

  /** The two rows of one entry id name one section. */
  ghost predicate OneSectionEach(rows: seq<EntryRow>) {
    forall a, b :: a in rows && b in rows && a.id == b.id ==> a.sectionId == b.sectionId
  }

  predicate OwnEntry(g: CvGraph, cvId: Id, s: Id, e: Id) {
    Link(cvId, s) in g.hasSection && Link(s, e) in g.hasEntry
  }

  /**
    After a complete sync every entry below the CV has one section iff no entry id of the document is
    made in two sections; `EntryIdsCollideIff` says when that can happen.
   */
  lemma SyncedEntriesHaveOneSectionIff(cv: CvInput, g: Graph)
    requires UuidParts(cv) && Inv(g)
    ensures var cvId, r := CvIdOf(cv), RunAll(CvProgram(cv), g).cv;
            (forall e, s1, s2 :: OwnEntry(r, cvId, s1, e) && OwnEntry(r, cvId, s2, e) ==> s1 == s2)
            <==> OneSectionEach(EntryRows(cvId, cv.document.sections))
  {
    var cvId := CvIdOf(cv);
    var rows := EntryRows(cvId, cv.document.sections);
    SyncCvExact(cv, g);
    var r := CvResult(cv, g);
    forall s, e | Link(cvId, s) in r.hasSection
      ensures Link(s, e) in r.hasEntry <==> Link(s, e) in AllEntryLinks(rows)
    {
      OwnEntriesAreRows(cv, g, s, e);
    }
    forall row | row in rows ensures OwnEntry(r, cvId, row.sectionId, row.id) {
      EntryRowsScoped(cvId, cv.document.sections);
      assert Link(row.sectionId, row.id) in AllEntryLinks(rows);
    }
  }

  /** Below a section of the synced CV there are only the entries of its rows. */
  lemma OwnEntriesAreRows(cv: CvInput, g: Graph, s: Id, e: Id)
    requires UuidParts(cv) && Inv(g) && Link(CvIdOf(cv), s) in CvResult(cv, g).hasSection
    ensures Link(s, e) in CvResult(cv, g).hasEntry
       <==> Link(s, e) in AllEntryLinks(EntryRows(CvIdOf(cv), cv.document.sections))
  {
    var cvId := CvIdOf(cv);
    CvIdColons(cv);
    SectionRowsScoped(cvId, cv.document.sections);
    if Link(s, e) in Cleared(g, cvId).hasEntry {
      OwnSections(g.cv, cvId, s);
    }
  }
}
