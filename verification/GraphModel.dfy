/** The JobAgent part of the Neo4j graph, and a semantics for each Cypher statement run on it. */
module GraphModel {
  import opened Common
  import opened Stamps

  /** A node identity and a canonical skill key, kept apart from free text. */
  datatype Key = Key(text: string)

  datatype SkillRel = SkillRel(
    confidence: real, years: Option<real>, proficiency: Option<string>, evidence: seq<string>)
  datatype RelType = HasSkill | Requires | Prefers
  datatype EdgeKey = EdgeKey(rel: RelType, owner: Id, key: Key)
  datatype SkillRow = SkillRow(key: Key, props: SkillRel)
  datatype RelatedProps = RelatedProps(weight: real, source: string)
  datatype RelatedKey = RelatedKey(from: Key, to: Key)
  datatype RelatedRow = RelatedRow(edge: RelatedKey, props: RelatedProps)

  datatype JobNode = JobNode(
    title: string, company: string, location: Option<string>, workMode: string, seniority: string,
    quality: string, embedding: seq<real>, stamp: StampText)
  datatype CvNode = CvNode(
    originalName: string, extractionVersion: string, attachmentId: Id, sourceHash: Option<string>,
    stamp: StampText)
  datatype SectionNode = SectionNode(heading: string, kind: string, ordinal: nat, entryCount: nat)
  datatype EntryNode = EntryNode(
    ordinal: nat, title: Option<string>, subtitle: Option<string>, dateText: Option<string>,
    preview: string)
  datatype SectionRow = SectionRow(id: Id, node: SectionNode)
  datatype EntryRow = EntryRow(id: Id, sectionId: Id, node: EntryNode)

  /** A relationship from an owning node to an owned one. */
  datatype Link = Link(src: Id, dst: Id)

  /*
    Nodes are keyed by the property that carries a uniqueness constraint, relationships by their
    endpoints, because every relationship is written by a MERGE on a bound pair of nodes.
   */

  /** Candidate, Job and Skill nodes with HAS_SKILL, REQUIRES, PREFERS and RELATED_TO. */
  datatype SkillGraph = SkillGraph(
    candidates: map<Id, StampText>, jobs: map<Id, JobNode>, skills: set<Key>,
    edges: map<EdgeKey, SkillRel>, related: map<RelatedKey, RelatedProps>)

  /** CV, CVSection and CVEntry nodes with HAS_SECTION and HAS_ENTRY. */
  datatype CvGraph = CvGraph(
    cvs: map<Id, CvNode>, sections: map<Id, SectionNode>, entries: map<Id, EntryNode>,
    hasSection: set<Link>, hasEntry: set<Link>)

  /** PROJECTS_TO links a CV to a Candidate. */
  datatype Graph = Graph(skill: SkillGraph, cv: CvGraph, projectsTo: set<Link>)

  const EMPTY_SKILLS := SkillGraph(map[], map[], {}, map[], map[])
  const EMPTY_CVS := CvGraph(map[], map[], map[], {}, {})
  const EMPTY_GRAPH := Graph(EMPTY_SKILLS, EMPTY_CVS, {})

  datatype Stmt =
    | MergeCandidate(pid: Id, stamp: StampText)
    | ClearHasSkill(pid: Id)
    | MergeJob(jid: Id, job: JobNode)
    | ClearJobSkills(jid: Id)
    | MergeSkillEdges(rel: RelType, owner: Id, skillRows: seq<SkillRow>)
    | MergeSeedSkills(seedKeys: seq<Key>)
    | MergeRelated(relatedRows: seq<RelatedRow>)
    | MergeCv(cvId: Id, cv: CvNode)
    | ClearCvOwned(cvId: Id)
    | MergeSections(cvId: Id, sectionRows: seq<SectionRow>)
    | MergeEntries(entryRows: seq<EntryRow>)
    | ClearAllProjectsTo(pid: Id)
    | MergeProjectsTo(cvId: Id, pid: Id)
    | ClearThisCvProjectsTo(cvId: Id)
    | DeleteCvBranch(cvId: Id)
    | DeleteProfileBranch(pid: Id)
    | DeleteJob(jid: Id)
    | ClearEntries | ClearSections | ClearCvs | ClearCandidates | ClearJobs | ClearSkills

  // ----- MERGE by key under UNWIND: a later row overwrites an earlier one -----

  function MergeSkillRows(m: map<EdgeKey, SkillRel>, rel: RelType, owner: Id, rows: seq<SkillRow>)
    : map<EdgeKey, SkillRel>
  {
    if rows == [] then m
    else
      var last := rows[|rows| - 1];
      MergeSkillRows(m, rel, owner, rows[..|rows| - 1])[EdgeKey(rel, owner, last.key) := last.props]
  }

  function MergeRelatedRows(m: map<RelatedKey, RelatedProps>, rows: seq<RelatedRow>, skills: set<Key>)
    : map<RelatedKey, RelatedProps>
  {
    if rows == [] then m
    else
      var last := rows[|rows| - 1];
      var rest := MergeRelatedRows(m, rows[..|rows| - 1], skills);
      if last.edge.from in skills && last.edge.to in skills then rest[last.edge := last.props] else rest
  }

  function MergeSectionRows(m: map<Id, SectionNode>, rows: seq<SectionRow>): map<Id, SectionNode> {
    if rows == [] then m
    else MergeSectionRows(m, rows[..|rows| - 1])[rows[|rows| - 1].id := rows[|rows| - 1].node]
  }

  function MergeEntryRows(m: map<Id, EntryNode>, rows: seq<EntryRow>, sections: set<Id>): map<Id, EntryNode> {
    if rows == [] then m
    else
      var last := rows[|rows| - 1];
      var rest := MergeEntryRows(m, rows[..|rows| - 1], sections);
      if last.sectionId in sections then rest[last.id := last.node] else rest
  }

  function SkillKeys(rows: seq<SkillRow>): set<Key> {
    set r | r in rows :: r.key
  }

  function RowEdges(rel: RelType, owner: Id, rows: seq<SkillRow>): set<EdgeKey> {
    set r | r in rows :: EdgeKey(rel, owner, r.key)
  }

  function SectionIds(rows: seq<SectionRow>): set<Id> {
    set r | r in rows :: r.id
  }

  // ----- DETACH DELETE of a set of nodes: incident relationships go with them -----

  function DetachEntries(g: CvGraph, ids: set<Id>): CvGraph {
    g.(entries := g.entries - ids, hasEntry := WithoutDst(g.hasEntry, ids))
  }

  function DetachSections(g: CvGraph, ids: set<Id>): CvGraph {
    g.(sections := g.sections - ids,
       hasSection := WithoutDst(g.hasSection, ids),
       hasEntry := WithoutSrc(g.hasEntry, ids))
  }

  function DetachCvs(g: CvGraph, ids: set<Id>): CvGraph {
    g.(cvs := g.cvs - ids, hasSection := WithoutSrc(g.hasSection, ids))
  }

  function WithoutSrc(links: set<Link>, ids: set<Id>): set<Link> {
    set l | l in links && l.src !in ids
  }

  function WithoutDst(links: set<Link>, ids: set<Id>): set<Link> {
    set l | l in links && l.dst !in ids
  }

  function WithoutOwners(m: map<EdgeKey, SkillRel>, rels: set<RelType>, ids: set<Id>): map<EdgeKey, SkillRel> {
    map e | e in m && !(e.rel in rels && e.owner in ids) :: m[e]
  }

  function DetachCandidates(g: SkillGraph, ids: set<Id>): SkillGraph {
    g.(candidates := g.candidates - ids, edges := WithoutOwners(g.edges, {HasSkill}, ids))
  }

  function DetachJobs(g: SkillGraph, ids: set<Id>): SkillGraph {
    g.(jobs := g.jobs - ids, edges := WithoutOwners(g.edges, {Requires, Prefers}, ids))
  }

  function DetachSkills(g: SkillGraph, keys: set<Key>): SkillGraph {
    g.(skills := g.skills - keys,
       edges := map e | e in g.edges && e.key !in keys :: g.edges[e],
       related := map p | p in g.related && p.from !in keys && p.to !in keys :: g.related[p])
  }

  // ----- Patterns -----

  /** Nodes reached from a set of nodes over one relationship type. */
  function Reached(links: set<Link>, srcs: set<Id>): set<Id> {
    set l | l in links && l.src in srcs :: l.dst
  }

  /** CVs whose PROJECTS_TO enters the Candidate. */
  function ProjectingCvs(projectsTo: set<Link>, pid: Id): set<Id> {
    set l | l in projectsTo && l.dst == pid :: l.src
  }

  /** DETACH DELETE of everything owned by some CVs, leaving the CV nodes. */
  function DetachOwned(g: CvGraph, cvIds: set<Id>): CvGraph {
    var secs := Reached(g.hasSection, cvIds);
    DetachSections(DetachEntries(g, Reached(g.hasEntry, secs)), secs)
  }

  predicate OwnerPresent(g: SkillGraph, rel: RelType, owner: Id) {
    if rel.HasSkill? then owner in g.candidates else owner in g.jobs
  }

  // ----- One atomic statement -----

  /** The Skill is merged before its owner is matched, so it survives a missing owner. */
  function MergeEdgesOn(g: SkillGraph, rel: RelType, owner: Id, rows: seq<SkillRow>): SkillGraph {
    g.(skills := g.skills + SkillKeys(rows),
       edges := if OwnerPresent(g, rel, owner) then MergeSkillRows(g.edges, rel, owner, rows) else g.edges)
  }

  function MergeSectionsOn(g: CvGraph, cvId: Id, rows: seq<SectionRow>): CvGraph {
    if cvId in g.cvs then
      g.(sections := MergeSectionRows(g.sections, rows),
         hasSection := g.hasSection + set r | r in rows :: Link(cvId, r.id))
    else g
  }

  function EntryLinks(rows: seq<EntryRow>, sections: set<Id>): set<Link> {
    set r | r in rows && r.sectionId in sections :: Link(r.sectionId, r.id)
  }

  function MergeEntriesOn(g: CvGraph, rows: seq<EntryRow>): CvGraph {
    g.(entries := MergeEntryRows(g.entries, rows, g.sections.Keys),
       hasEntry := g.hasEntry + EntryLinks(rows, g.sections.Keys))
  }

  /** Deletes some CV nodes, everything they own, and their PROJECTS_TO. */
  function DetachBranches(g: Graph, cvIds: set<Id>): Graph {
    g.(cv := DetachCvs(DetachOwned(g.cv, cvIds), cvIds), projectsTo := WithoutSrc(g.projectsTo, cvIds))
  }

  function RemoveCandidates(g: Graph, ids: set<Id>): Graph {
    g.(skill := DetachCandidates(g.skill, ids), projectsTo := WithoutDst(g.projectsTo, ids))
  }

  function Apply(s: Stmt, g: Graph): Graph {
    match s
    case MergeCandidate(pid, stamp) => g.(skill := g.skill.(candidates := g.skill.candidates[pid := stamp]))
    case ClearHasSkill(pid) => g.(skill := g.skill.(edges := WithoutOwners(g.skill.edges, {HasSkill}, {pid})))
    case MergeJob(jid, job) => g.(skill := g.skill.(jobs := g.skill.jobs[jid := job]))
    case ClearJobSkills(jid) =>
      g.(skill := g.skill.(edges := WithoutOwners(g.skill.edges, {Requires, Prefers}, {jid})))
    case MergeSkillEdges(rel, owner, rows) => g.(skill := MergeEdgesOn(g.skill, rel, owner, rows))
    case MergeSeedSkills(keys) => g.(skill := g.skill.(skills := g.skill.skills + ToSet(keys)))
    case MergeRelated(rows) =>
      g.(skill := g.skill.(related := MergeRelatedRows(g.skill.related, rows, g.skill.skills)))
    case MergeCv(cvId, cv) => g.(cv := g.cv.(cvs := g.cv.cvs[cvId := cv]))
    case ClearCvOwned(cvId) => g.(cv := DetachOwned(g.cv, {cvId}))
    case MergeSections(cvId, rows) => g.(cv := MergeSectionsOn(g.cv, cvId, rows))
    case MergeEntries(rows) => g.(cv := MergeEntriesOn(g.cv, rows))
    case ClearAllProjectsTo(pid) => g.(projectsTo := WithoutDst(g.projectsTo, {pid}))
    case MergeProjectsTo(cvId, pid) =>
      if cvId in g.cv.cvs && pid in g.skill.candidates
      then g.(projectsTo := g.projectsTo + {Link(cvId, pid)}) else g
    case ClearThisCvProjectsTo(cvId) => g.(projectsTo := WithoutSrc(g.projectsTo, {cvId}))
    case DeleteCvBranch(cvId) => DetachBranches(g, {cvId})
    case DeleteProfileBranch(pid) =>
      if pid in g.skill.candidates then
        RemoveCandidates(DetachBranches(g, ProjectingCvs(g.projectsTo, pid)), {pid})
      else g
    case DeleteJob(jid) => g.(skill := DetachJobs(g.skill, {jid}))
    case ClearEntries => g.(cv := DetachEntries(g.cv, g.cv.entries.Keys))
    case ClearSections => g.(cv := DetachSections(g.cv, g.cv.sections.Keys))
    case ClearCvs =>
      g.(cv := DetachCvs(g.cv, g.cv.cvs.Keys), projectsTo := WithoutSrc(g.projectsTo, g.cv.cvs.Keys))
    case ClearCandidates => RemoveCandidates(g, g.skill.candidates.Keys)
    case ClearJobs => g.(skill := DetachJobs(g.skill, g.skill.jobs.Keys))
    case ClearSkills => g.(skill := DetachSkills(g.skill, g.skill.skills))
  }

  /** A program of statements run to its end. */
  function RunAll(program: seq<Stmt>, g: Graph): Graph {
    if program == [] then g
    else Apply(program[|program| - 1], RunAll(program[..|program| - 1], g))
  }

  // ----- No dangling relationship: what the graph store itself guarantees -----

  ghost predicate SkillWf(g: SkillGraph) {
    && (forall e :: e in g.edges ==> OwnerPresent(g, e.rel, e.owner) && e.key in g.skills)
    && (forall p :: p in g.related ==> p.from in g.skills && p.to in g.skills)
  }

  ghost predicate CvWf(g: CvGraph) {
    && (forall l :: l in g.hasSection ==> l.src in g.cvs && l.dst in g.sections)
    && (forall l :: l in g.hasEntry ==> l.src in g.sections && l.dst in g.entries)
  }

  ghost predicate WellFormed(g: Graph) {
    && SkillWf(g.skill)
    && CvWf(g.cv)
    && (forall l :: l in g.projectsTo ==> l.src in g.cv.cvs && l.dst in g.skill.candidates)
  }

  // ----- Laws of the folds -----

  lemma {:induction false} MergeSkillRowsSplit(
    m: map<EdgeKey, SkillRel>, rel: RelType, owner: Id, rows: seq<SkillRow>)
    ensures MergeSkillRows(m, rel, owner, rows) == m + MergeSkillRows(map[], rel, owner, rows)
    ensures MergeSkillRows(map[], rel, owner, rows).Keys == RowEdges(rel, owner, rows)
    decreases |rows|
  {
    if rows != [] {
      var front := rows[..|rows| - 1];
      MergeSkillRowsSplit(m, rel, owner, front);
      RowEdgesSnoc(rel, owner, rows);
      hide RowEdges;
    }
  }

  lemma RowEdgesSnoc(rel: RelType, owner: Id, rows: seq<SkillRow>)
    requires rows != []
    ensures RowEdges(rel, owner, rows)
         == RowEdges(rel, owner, rows[..|rows| - 1]) + {EdgeKey(rel, owner, rows[|rows| - 1].key)}
  {
    assert rows == rows[..|rows| - 1] + [rows[|rows| - 1]];
  }

  lemma {:induction false} MergeSectionRowsSplit(m: map<Id, SectionNode>, rows: seq<SectionRow>)
    ensures MergeSectionRows(m, rows) == m + MergeSectionRows(map[], rows)
    ensures MergeSectionRows(map[], rows).Keys == SectionIds(rows)
    decreases |rows|
  {
    if rows != [] {
      var front, last := rows[..|rows| - 1], rows[|rows| - 1];
      MergeSectionRowsSplit(m, front);
      assert SectionIds(rows) == SectionIds(front) + {last.id};
    }
  }

  lemma {:induction false} MergeEntryRowsSplit(m: map<Id, EntryNode>, rows: seq<EntryRow>, sections: set<Id>)
    ensures MergeEntryRows(m, rows, sections) == m + MergeEntryRows(map[], rows, sections)
    ensures MergeEntryRows(map[], rows, sections).Keys == set r | r in rows && r.sectionId in sections :: r.id
    decreases |rows|
  {
    if rows != [] {
      var front, last := rows[..|rows| - 1], rows[|rows| - 1];
      MergeEntryRowsSplit(m, front, sections);
      assert forall r :: r in rows <==> r in front || r == last;
      assert (set r | r in rows && r.sectionId in sections :: r.id)
          == (set r | r in front && r.sectionId in sections :: r.id)
             + (if last.sectionId in sections then {last.id} else {});
    }
  }

  lemma {:induction false} MergeRelatedRowsSplit(
    m: map<RelatedKey, RelatedProps>, rows: seq<RelatedRow>, skills: set<Key>)
    ensures MergeRelatedRows(m, rows, skills) == m + MergeRelatedRows(map[], rows, skills)
    ensures MergeRelatedRows(map[], rows, skills).Keys
         == set r | r in rows && r.edge.from in skills && r.edge.to in skills :: r.edge
    decreases |rows|
  {
    if rows != [] {
      var front, last := rows[..|rows| - 1], rows[|rows| - 1];
      MergeRelatedRowsSplit(m, front, skills);
      OneMoreEdge(rows, skills);
    }
  }

  lemma OneMoreEdge(rows: seq<RelatedRow>, skills: set<Key>)
    requires rows != []
    ensures var last := rows[|rows| - 1];
            (set r | r in rows && r.edge.from in skills && r.edge.to in skills :: r.edge)
              == (set r | r in rows[..|rows| - 1] && r.edge.from in skills && r.edge.to in skills :: r.edge)
                 + (if last.edge.from in skills && last.edge.to in skills then {last.edge} else {})
  {
    assert forall r :: r in rows <==> r in rows[..|rows| - 1] || r == rows[|rows| - 1];
  }

  lemma {:induction false} RunAllAppend(p: seq<Stmt>, q: seq<Stmt>, g: Graph)
    ensures RunAll(p + q, g) == RunAll(q, RunAll(p, g))
    decreases |q|
  {
    if q == [] {
      assert p + q == p;
    } else {
      assert (p + q)[..|p + q| - 1] == p + q[..|q| - 1];
      RunAllAppend(p, q[..|q| - 1], g);
    }
  }

  lemma RunAllSnoc(p: seq<Stmt>, s: Stmt, g: Graph)
    ensures RunAll(p + [s], g) == Apply(s, RunAll(p, g))
  {}

  // ----- Every statement keeps the graph free of dangling relationships -----

  lemma BranchDeleteKeepsWellFormed(g: Graph, cvIds: set<Id>)
    requires WellFormed(g)
    ensures WellFormed(DetachBranches(g, cvIds))
    ensures DetachBranches(g, cvIds).skill == g.skill
  {}

  lemma RemoveCandidatesKeepsWellFormed(g: Graph, ids: set<Id>)
    requires WellFormed(g)
    ensures WellFormed(RemoveCandidates(g, ids))
  {}

  lemma MergeKeepsWellFormed(s: Stmt, g: Graph)
    requires WellFormed(g)
    requires s.MergeSkillEdges? || s.MergeRelated? || s.MergeSections? || s.MergeEntries?
    ensures WellFormed(Apply(s, g))
  {
    match s
    case MergeSkillEdges(rel, owner, rows) => MergeSkillRowsSplit(g.skill.edges, rel, owner, rows);
    case MergeRelated(rows) => MergeRelatedRowsSplit(g.skill.related, rows, g.skill.skills);
    case MergeSections(cvId, rows) => MergeSectionRowsSplit(g.cv.sections, rows);
    case MergeEntries(rows) => MergeEntryRowsSplit(g.cv.entries, rows, g.cv.sections.Keys);
  }

  /** No statement, run on a graph without dangling relationships, leaves one. */
  lemma ApplyKeepsWellFormed(s: Stmt, g: Graph)
    requires WellFormed(g)
    ensures WellFormed(Apply(s, g))
  {
    hide WellFormed;
    match s
    case MergeSkillEdges(_, _, _) => MergeKeepsWellFormed(s, g);
    case MergeRelated(_) => MergeKeepsWellFormed(s, g);
    case MergeSections(_, _) => MergeKeepsWellFormed(s, g);
    case MergeEntries(_) => MergeKeepsWellFormed(s, g);
    case ClearCvOwned(cvId) => ClearKeepsWellFormed(g, cvId);
    case DeleteCvBranch(cvId) => BranchDeleteKeepsWellFormed(g, {cvId});
    case DeleteProfileBranch(pid) =>
      var cvIds := ProjectingCvs(g.projectsTo, pid);
      BranchDeleteKeepsWellFormed(g, cvIds);
      RemoveCandidatesKeepsWellFormed(DetachBranches(g, cvIds), {pid});
    case ClearCandidates => RemoveCandidatesKeepsWellFormed(g, g.skill.candidates.Keys);
    case _ => PlainKeepsWellFormed(s, g);
  }

  lemma ClearKeepsWellFormed(g: Graph, cvId: Id)
    requires WellFormed(g)
    ensures WellFormed(Apply(ClearCvOwned(cvId), g))
  {}

  predicate IsPlain(s: Stmt) {
    !s.MergeSkillEdges? && !s.MergeRelated? && !s.MergeSections? && !s.MergeEntries? && !s.ClearCvOwned?
      && !s.DeleteCvBranch?
    && !s.DeleteProfileBranch? && !s.ClearCandidates?
  }

  lemma PlainKeepsWellFormed(s: Stmt, g: Graph)
    requires WellFormed(g) && IsPlain(s)
    ensures WellFormed(Apply(s, g))
  {}

  lemma {:induction false} RunAllKeepsWellFormed(p: seq<Stmt>, g: Graph)
    requires WellFormed(g)
    ensures WellFormed(RunAll(p, g))
    decreases |p|
  {
    if p != [] {
      RunAllKeepsWellFormed(p[..|p| - 1], g);
      ApplyKeepsWellFormed(p[|p| - 1], RunAll(p[..|p| - 1], g));
    }
  }
}
