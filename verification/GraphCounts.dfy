/** The counts printed after a rebuild are the sums over its inputs. */
module GraphCounts {
  import opened Common
  import opened GraphModel
  import opened ScopedIds
  import opened SyncPrograms
  import opened GraphSync
  import opened GraphInvariant
  import opened GraphRebuild

  /** Entity and relationship totals, each over its own endpoint labels. */
  datatype Counts = Counts(
    cv: nat, cvSection: nat, cvEntry: nat, candidate: nat, job: nat, skill: nat, projectsTo: nat,
    hasSection: nat, hasEntry: nat, hasSkill: nat, requires_: nat, prefers: nat, relatedTo: nat)

  function EdgesOfType(m: map<EdgeKey, SkillRel>, rel: RelType): set<EdgeKey> {
    OfType(m.Keys, rel)
  }

  function OfType(edges: set<EdgeKey>, rel: RelType): set<EdgeKey> {
    set e | e in edges && e.rel == rel
  }

  /** What is counted, one query each. */
  datatype Counted =
    | CvNodes | SectionNodes | EntryNodes | CandidateNodes | JobNodes | SkillNodes
    | ProjectsToLinks | SectionLinksOf | EntryLinksOf | HasSkillLinks | RequiresLinks | PrefersLinks | RelatedLinks

  const COUNT_ORDER: seq<Counted> :=
    [CvNodes, SectionNodes, EntryNodes, CandidateNodes, JobNodes, SkillNodes,
     ProjectsToLinks, SectionLinksOf, EntryLinksOf, HasSkillLinks, RequiresLinks, PrefersLinks, RelatedLinks]

  /** The answer to one counting query. */
  function CountOf(g: Graph, key: Counted): nat {
    match key
    case CvNodes => |g.cv.cvs|
    case SectionNodes => |g.cv.sections|
    case EntryNodes => |g.cv.entries|
    case CandidateNodes => |g.skill.candidates|
    case JobNodes => |g.skill.jobs|
    case SkillNodes => |g.skill.skills|
    case ProjectsToLinks => |g.projectsTo|
    case SectionLinksOf => |g.cv.hasSection|
    case EntryLinksOf => |g.cv.hasEntry|
    case HasSkillLinks => |EdgesOfType(g.skill.edges, HasSkill)|
    case RequiresLinks => |EdgesOfType(g.skill.edges, Requires)|
    case PrefersLinks => |EdgesOfType(g.skill.edges, Prefers)|
    case RelatedLinks => |g.skill.related|
  }

  function CountGraph(g: Graph): Counts {
    Counts(|g.cv.cvs|, |g.cv.sections|, |g.cv.entries|, |g.skill.candidates|, |g.skill.jobs|, |g.skill.skills|,
           |g.projectsTo|, |g.cv.hasSection|, |g.cv.hasEntry|, |EdgesOfType(g.skill.edges, HasSkill)|,
           |EdgesOfType(g.skill.edges, Requires)|, |EdgesOfType(g.skill.edges, Prefers)|, |g.skill.related|)
  }

  function ProfileSkillTotal(ps: seq<ReadyProfile>): nat {
    if ps == [] then 0
    else ProfileSkillTotal(ps[..|ps| - 1]) + |NonExcluded(ps[|ps| - 1].candidate.skills)|
  }

  function RequiredTotal(js: seq<JobInput>): nat {
    if js == [] then 0 else RequiredTotal(js[..|js| - 1]) + |js[|js| - 1].extraction.required|
  }

  function PreferredTotal(js: seq<JobInput>): nat {
    if js == [] then 0 else PreferredTotal(js[..|js| - 1]) + |js[|js| - 1].extraction.preferred|
  }

  function SectionTotal(ps: seq<ReadyProfile>): nat {
    if ps == [] then 0 else SectionTotal(ps[..|ps| - 1]) + |SourceSections(ps[|ps| - 1].source)|
  }

  function EntriesIn(sections: seq<CvSection>): nat {
    if sections == [] then 0 else EntriesIn(sections[..|sections| - 1]) + |sections[|sections| - 1].entries|
  }

  function EntryTotal(ps: seq<ReadyProfile>): nat {
    if ps == [] then 0 else EntryTotal(ps[..|ps| - 1]) + EntriesIn(SourceSections(ps[|ps| - 1].source))
  }

  // ----- Uniqueness the schemas do not enforce -----

  predicate DistinctKeys(rows: seq<SkillRow>) {
    forall i, j :: 0 <= i < j < |rows| ==> rows[i].key != rows[j].key
  }

  /** Section ids differ and do not continue each other, and entry ids differ within a section. */
  ghost predicate DistinctSections(sections: seq<CvSection>) {
    && ApartSections(sections)
    && (forall i, j :: 0 <= i < j < |sections| ==> sections[i].id != sections[j].id)
    && (forall i :: 0 <= i < |sections| ==> DistinctEntries(sections[i].entries))
  }

  predicate DistinctEntries(entries: seq<CvEntry>) {
    forall i, j :: 0 <= i < j < |entries| ==> entries[i].id != entries[j].id
  }

  ghost predicate Unique(input: RebuildInputs) {
    && (forall i :: 0 <= i < |input.profiles| ==>
          DistinctKeys(CandidateRows(input.profiles[i].candidate))
            && DistinctSections(SourceSections(input.profiles[i].source)))
    && (forall i :: 0 <= i < |input.jobs| ==>
          DistinctKeys(RequiredRows(input.jobs[i])) && DistinctKeys(PreferredRows(input.jobs[i])))
  }

  // ----- Skill edges -----

  lemma RowEdgesSize(rel: RelType, owner: Id, rows: seq<SkillRow>)
    requires DistinctKeys(rows)
    ensures |RowEdges(rel, owner, rows)| == |rows|
  {
    var ids := seq(|rows|, i requires 0 <= i < |rows| => EdgeKey(rel, owner, rows[i].key));
    DistinctSetSize(ids);
    assert RowEdges(rel, owner, rows) == ToSet(ids) by {
      forall r | r in rows ensures EdgeKey(rel, owner, r.key) in ids {
        var i :| 0 <= i < |rows| && rows[i] == r;
        assert ids[i] == EdgeKey(rel, owner, r.key);
      }
      forall e | e in ids ensures e in RowEdges(rel, owner, rows) {
        var i :| 0 <= i < |ids| && ids[i] == e;
        assert rows[i] in rows;
      }
    }
  }

  lemma OfTypeUnion(edges: set<EdgeKey>, added: set<EdgeKey>, rel: RelType, counted: RelType)
    requires edges !! added && forall e :: e in added ==> e.rel == rel
    ensures |OfType(edges + added, counted)| == |OfType(edges, counted)| + (if rel == counted then |added| else 0)
  {
    if rel == counted {
      assert OfType(edges + added, counted) == OfType(edges, counted) + added;
      assert OfType(edges, counted) !! added;
    } else {
      assert OfType(edges + added, counted) == OfType(edges, counted);
    }
  }

  /** Rows of an owner without edges of this type yet add one edge each. */
  lemma AddedEdges(m: map<EdgeKey, SkillRel>, rel: RelType, owner: Id, rows: seq<SkillRow>, counted: RelType)
    requires DistinctKeys(rows)
    requires forall e :: e in m ==> e.rel != rel || e.owner != owner
    ensures |EdgesOfType(m + RowMap(rel, owner, rows), counted)|
         == |EdgesOfType(m, counted)| + (if rel == counted then |rows| else 0)
  {
    RowEdgesSize(rel, owner, rows);
    MergeSkillRowsSplit(map[], rel, owner, rows);
    hide MergeSkillRows, DistinctKeys;
    assert (m + RowMap(rel, owner, rows)).Keys == m.Keys + RowEdges(rel, owner, rows);
    OfTypeUnion(m.Keys, RowEdges(rel, owner, rows), rel, counted);
  }

  lemma {:induction false} ProfileEdgeCount(ps: seq<ReadyProfile>)
    requires forall i, j :: 0 <= i < j < |ps| ==> ps[i].candidate.pid != ps[j].candidate.pid
    requires forall i :: 0 <= i < |ps| ==> DistinctKeys(CandidateRows(ps[i].candidate))
    ensures |EdgesOfType(ProfileEdges(ps), HasSkill)| == ProfileSkillTotal(ps)
    decreases |ps|
  {
    if ps == [] {
      assert EdgesOfType(ProfileEdges(ps), HasSkill) == {};
    } else {
      var front, c := ps[..|ps| - 1], ps[|ps| - 1].candidate;
      ProfileEdgeCount(front);
      NoEdgesYet(front, c.pid);
      AddedEdges(ProfileEdges(front), HasSkill, c.pid, CandidateRows(c), HasSkill);
    }
  }

  lemma NoEdgesOfNewJob(js: seq<JobInput>, jid: Id)
    requires forall i :: 0 <= i < |js| ==> js[i].jid != jid
    ensures forall e :: e in JobEdges(js) ==> e.owner != jid
  {
    JobEdgesOwners(js);
  }

  lemma OneJobEdgeCount(front: seq<JobInput>, j: JobInput, counted: RelType)
    requires forall i :: 0 <= i < |front| ==> front[i].jid != j.jid
    requires DistinctKeys(RequiredRows(j)) && DistinctKeys(PreferredRows(j))
    ensures var req, pre := RowMap(Requires, j.jid, RequiredRows(j)), RowMap(Prefers, j.jid, PreferredRows(j));
            |EdgesOfType(JobEdges(front) + req + pre, counted)|
              == |EdgesOfType(JobEdges(front), counted)| + (if counted == Requires then |RequiredRows(j)| else 0)
                 + (if counted == Prefers then |PreferredRows(j)| else 0)
  {
    NoEdgesOfNewJob(front, j.jid);
    MergeSkillRowsSplit(map[], Requires, j.jid, RequiredRows(j));
    AddedEdges(JobEdges(front), Requires, j.jid, RequiredRows(j), counted);
    AddedEdges(JobEdges(front) + RowMap(Requires, j.jid, RequiredRows(j)), Prefers, j.jid, PreferredRows(j), counted);
  }

  lemma {:induction false} JobEdgeCount(js: seq<JobInput>)
    requires forall i, j :: 0 <= i < j < |js| ==> js[i].jid != js[j].jid
    requires forall i :: 0 <= i < |js| ==> DistinctKeys(RequiredRows(js[i])) && DistinctKeys(PreferredRows(js[i]))
    ensures |EdgesOfType(JobEdges(js), Requires)| == RequiredTotal(js)
    ensures |EdgesOfType(JobEdges(js), Prefers)| == PreferredTotal(js)
    decreases |js|
  {
    if js == [] {
      assert EdgesOfType(JobEdges(js), Requires) == {} == EdgesOfType(JobEdges(js), Prefers);
    } else {
      var front, j := js[..|js| - 1], js[|js| - 1];
      JobEdgeCount(front);
      OneJobEdgeCount(front, j, Requires);
      OneJobEdgeCount(front, j, Prefers);
    }
  }

  // ----- Nodes -----

  lemma {:induction false} CandidateCount(ps: seq<ReadyProfile>)
    requires forall i, j :: 0 <= i < j < |ps| ==> ps[i].candidate.pid != ps[j].candidate.pid
    ensures |CandidateMap(ps)| == |ps|
    decreases |ps|
  {
    if ps != [] {
      var front := ps[..|ps| - 1];
      CandidateCount(front);
      CandidateMapKeys(front);
      assert ps[|ps| - 1].candidate.pid !in CandidateMap(front);
    }
  }

  lemma {:induction false} JobCount(js: seq<JobInput>)
    requires forall i, j :: 0 <= i < j < |js| ==> js[i].jid != js[j].jid
    ensures |JobMap(js)| == |js|
    ensures forall k :: k in JobMap(js) ==> exists i :: 0 <= i < |js| && js[i].jid == k
    decreases |js|
  {
    if js != [] {
      var front := js[..|js| - 1];
      JobCount(front);
      forall k | k in JobMap(js) ensures exists i :: 0 <= i < |js| && js[i].jid == k {
        if k in JobMap(front) {
          var i :| 0 <= i < |front| && front[i].jid == k;
          assert js[i].jid == k;
        } else {
          assert js[|js| - 1].jid == k;
        }
      }
      assert forall i :: 0 <= i < |front| ==> front[i].jid != js[|js| - 1].jid;
    }
  }

  // ----- CV branches -----

  lemma SectionRowsCount(cvId: Id, sections: seq<CvSection>)
    requires forall i, j :: 0 <= i < j < |sections| ==> sections[i].id != sections[j].id
    ensures |SectionIds(SectionRows(cvId, sections))| == |sections|
    ensures |SectionLinks(cvId, SectionRows(cvId, sections))| == |sections|
  {
    var rows := SectionRows(cvId, sections);
    var ids := seq(|rows|, i requires 0 <= i < |rows| => rows[i].id);
    var links := seq(|rows|, i requires 0 <= i < |rows| => Link(cvId, rows[i].id));
    forall i, j | 0 <= i < j < |rows| ensures rows[i].id != rows[j].id {
      if rows[i].id == rows[j].id {
        ScopedInjective(cvId.text, sections[i].id, sections[j].id);
      }
    }
    DistinctSetSize(ids);
    DistinctSetSize(links);
    forall r | r in rows ensures r.id in ids && Link(cvId, r.id) in links {
      var i :| 0 <= i < |rows| && rows[i] == r;
      assert ids[i] == r.id && links[i] == Link(cvId, r.id);
    }
    assert SectionIds(rows) == ToSet(ids);
    assert SectionLinks(cvId, rows) == ToSet(links);
  }

  function RowIds(rows: seq<EntryRow>): set<Id> {
    set r | r in rows :: r.id
  }

  lemma SectionEntriesCount(cvId: Id, section: CvSection)
    requires DistinctEntries(section.entries)
    ensures |RowIds(SectionEntryRows(cvId, section))| == |section.entries|
    ensures |AllEntryLinks(SectionEntryRows(cvId, section))| == |section.entries|
  {
    var rows := SectionEntryRows(cvId, section);
    var ids := seq(|rows|, i requires 0 <= i < |rows| => rows[i].id);
    var links := seq(|rows|, i requires 0 <= i < |rows| => Link(rows[i].sectionId, rows[i].id));
    forall i, j | 0 <= i < j < |rows| ensures rows[i].id != rows[j].id {
      if rows[i].id == rows[j].id {
        ScopedInjective(ScopedSectionId(cvId.text, section.id), section.entries[i].id, section.entries[j].id);
      }
    }
    DistinctSetSize(ids);
    DistinctSetSize(links);
    forall r | r in rows ensures r.id in ids && Link(r.sectionId, r.id) in links {
      var i :| 0 <= i < |rows| && rows[i] == r;
      assert ids[i] == r.id && links[i] == Link(r.sectionId, r.id);
    }
    assert RowIds(rows) == ToSet(ids);
    assert AllEntryLinks(rows) == ToSet(links);
  }

  lemma {:induction false} EntryRowsCount(cvId: Id, sections: seq<CvSection>)
    requires DistinctSections(sections)
    ensures |RowIds(EntryRows(cvId, sections))| == EntriesIn(sections)
    ensures |AllEntryLinks(EntryRows(cvId, sections))| == EntriesIn(sections)
    decreases |sections|
  {
    if sections == [] {
      assert RowIds(EntryRows(cvId, sections)) == {} && AllEntryLinks(EntryRows(cvId, sections)) == {};
    } else {
      var front, last := sections[..|sections| - 1], sections[|sections| - 1];
      var before, rows := EntryRows(cvId, front), SectionEntryRows(cvId, last);
      EntryRowsCount(cvId, front);
      SectionEntriesCount(cvId, last);
      LastSectionApart(cvId, sections);
      assert RowIds(before + rows) == RowIds(before) + RowIds(rows);
      assert AllEntryLinks(before + rows) == AllEntryLinks(before) + AllEntryLinks(rows);
      assert RowIds(before) !! RowIds(rows);
      assert AllEntryLinks(before) !! AllEntryLinks(rows);
    }
  }

  /** Entries of different sections have different ids. */
  lemma LastSectionApart(cvId: Id, sections: seq<CvSection>)
    requires sections != [] && DistinctSections(sections)
    ensures var front, last := sections[..|sections| - 1], sections[|sections| - 1];
            forall a, b :: a in EntryRows(cvId, front) && b in SectionEntryRows(cvId, last) ==> a.id != b.id
  {
    var front, last := sections[..|sections| - 1], sections[|sections| - 1];
    EntryRowsScoped(cvId, front);
    forall a, b | a in EntryRows(cvId, front) && b in SectionEntryRows(cvId, last) ensures a.id != b.id {
      var rows := SectionEntryRows(cvId, last);
      var k :| 0 <= k < |rows| && rows[k] == b;
      ColonsScoped(b.sectionId.text, last.entries[k].id);
      var srows := SectionRows(cvId, front);
      var i :| 0 <= i < |srows| && srows[i].id == a.sectionId;
      if a.id == b.id {
        OwnerAmongApart(a.sectionId.text, b.sectionId.text, a.id.text);
        ScopedKeepsScope(cvId.text, sections[i].id, last.id);
        ScopedKeepsScope(cvId.text, last.id, sections[i].id);
        ScopedInjective(cvId.text, sections[i].id, last.id);
      }
    }
  }

  lemma SourceRowsScoped(source: ProfileCv)
    ensures var cvId := SourceCvId(source);
            && (forall s :: s in SectionIds(SourceSectionRows(source)) ==> InScope(cvId.text, s.text))
            && (forall e :: e in RowIds(SourceEntryRows(source)) ==> InScope(cvId.text, e.text))
  {
    var cvId, sections := SourceCvId(source), SourceSections(source);
    SectionRowsScoped(cvId, sections);
    EntryRowsScoped(cvId, sections);
    forall r | r in EntryRows(cvId, sections) ensures InScope(cvId.text, r.id.text) {
      InScopeTransitive(cvId.text, r.sectionId.text, r.id.text);
    }
  }

  /** `id` was made in the scope of the CV of one of the profiles. */
  ghost predicate UnderSome(ps: seq<ReadyProfile>, id: Id) {
    exists i :: 0 <= i < |ps| && InScope(SourceCvId(ps[i].source).text, id.text)
  }

  lemma UnderSomeMore(ps: seq<ReadyProfile>, id: Id)
    requires ps != [] && (UnderSome(ps[..|ps| - 1], id) || InScope(SourceCvId(ps[|ps| - 1].source).text, id.text))
    ensures UnderSome(ps, id)
  {
    if UnderSome(ps[..|ps| - 1], id) {
      var i :| 0 <= i < |ps| - 1 && InScope(SourceCvId(ps[..|ps| - 1][i].source).text, id.text);
      assert InScope(SourceCvId(ps[i].source).text, id.text);
    }
  }

  /** Where each node and link of the projected CV graph comes from. */
  lemma {:induction false} ProjectedCvsScoped(ps: seq<ReadyProfile>)
    ensures var g := ProjectedCvs(ps);
            && (forall s :: s in g.sections ==> UnderSome(ps, s))
            && (forall l :: l in g.hasSection ==> l.dst in g.sections)
            && (forall e :: e in g.entries ==> UnderSome(ps, e))
            && (forall l :: l in g.hasEntry ==> l.dst in g.entries)
    decreases |ps|
  {
    hide UnderSome;
    if ps != [] {
      var p := ps[|ps| - 1];
      ProjectedCvsScoped(ps[..|ps| - 1]);
      SourceRowsScoped(p.source);
      MergeSectionRowsSplit(map[], SourceSectionRows(p.source));
      EntryMapKeys(SourceEntryRows(p.source));
      var g := ProjectedCvs(ps);
      forall s | s in g.sections ensures UnderSome(ps, s) {
        UnderSomeMore(ps, s);
      }
      forall e | e in g.entries ensures UnderSome(ps, e) {
        UnderSomeMore(ps, e);
      }
    }
  }

  lemma EntryMapKeys(rows: seq<EntryRow>)
    ensures EntryMap(rows).Keys == RowIds(rows)
  {
    MergeEntryRowsSplit(map[], rows, set r | r in rows :: r.sectionId);
  }

  /** A further profile's CV nodes are all new. */
  lemma NewBranchApart(front: seq<ReadyProfile>, p: ReadyProfile)
    requires SourceOf(p)
    requires forall i :: 0 <= i < |front| ==> SourceOf(front[i]) && front[i].candidate.pid != p.candidate.pid
    ensures ProjectedCvs(front).sections.Keys !! SectionIds(SourceSectionRows(p.source))
    ensures ProjectedCvs(front).entries.Keys !! RowIds(SourceEntryRows(p.source))
  {
    hide SourceOf, SectionRows, EntryRows, ProjectedCvs;
    ProjectedCvsScoped(front);
    SourceRowsScoped(p.source);
    var g := ProjectedCvs(front);
    forall id | UnderSome(front, id) ensures !InScope(SourceCvId(p.source).text, id.text) {
      var i :| 0 <= i < |front| && InScope(SourceCvId(front[i].source).text, id.text);
      SourceCvIdUnderProfile(front[i]);
      SourceCvIdUnderProfile(p);
      SourcesDiffer(front[i], p);
      if InScope(SourceCvId(p.source).text, id.text) {
        OwnerUnique(SourceCvId(front[i].source).text, SourceCvId(p.source).text, id.text);
      }
    }
  }

  /** The sizes of a CV graph: CVs, sections with their links, entries with theirs. */
  predicate Sizes(g: CvGraph, cvs: nat, sections: nat, entries: nat) {
    && |g.cvs| == cvs
    && |g.sections| == sections && |g.hasSection| == sections
    && |g.entries| == entries && |g.hasEntry| == entries
  }

  lemma {:induction false} BranchCounts(ps: seq<ReadyProfile>)
    requires forall i, j :: 0 <= i < j < |ps| ==> ps[i].candidate.pid != ps[j].candidate.pid
    requires forall i :: 0 <= i < |ps| ==> SourceOf(ps[i]) && DistinctSections(SourceSections(ps[i].source))
    ensures Sizes(ProjectedCvs(ps), |ps|, SectionTotal(ps), EntryTotal(ps))
    decreases |ps|
  {
    hide SourceOf, DistinctSections, AddSource;
    if ps != [] {
      BranchCounts(ps[..|ps| - 1]);
      OneBranchCounts(ps[..|ps| - 1], ps[|ps| - 1]);
      assert ps == ps[..|ps| - 1] + [ps[|ps| - 1]];
    }
  }

  lemma OneBranchCounts(front: seq<ReadyProfile>, p: ReadyProfile)
    requires SourceOf(p) && DistinctSections(SourceSections(p.source))
    requires forall i :: 0 <= i < |front| ==> SourceOf(front[i]) && front[i].candidate.pid != p.candidate.pid
    requires Sizes(ProjectedCvs(front), |front|, SectionTotal(front), EntryTotal(front))
    ensures var ps := front + [p]; Sizes(ProjectedCvs(ps), |ps|, SectionTotal(ps), EntryTotal(ps))
  {
    hide SourceOf, DistinctSections, AddSource, SectionRows;
    var g, h := ProjectedCvs(front), AddSource(ProjectedCvs(front), p.source);
    SourceCounts(p);
    BranchAdds(front, p);
    SizesOf(g, h, |front|, SectionTotal(front), EntryTotal(front), |SourceSections(p.source)|,
            EntriesIn(SourceSections(p.source)));
    assert (front + [p])[..|front|] == front;
  }

  lemma SizesOf(g: CvGraph, h: CvGraph, cvs: nat, sections: nat, entries: nat, moreSections: nat, moreEntries: nat)
    requires Sizes(g, cvs, sections, entries)
    requires |h.cvs| == |g.cvs| + 1
    requires |h.sections| == |g.sections| + moreSections && |h.hasSection| == |g.hasSection| + moreSections
    requires |h.entries| == |g.entries| + moreEntries && |h.hasEntry| == |g.hasEntry| + moreEntries
    ensures Sizes(h, cvs + 1, sections + moreSections, entries + moreEntries)
  {}

  lemma SourceCounts(p: ReadyProfile)
    requires SourceOf(p) && DistinctSections(SourceSections(p.source))
    ensures |SectionIds(SourceSectionRows(p.source))| == |SourceSections(p.source)|
    ensures |SectionLinks(SourceCvId(p.source), SourceSectionRows(p.source))| == |SourceSections(p.source)|
    ensures |RowIds(SourceEntryRows(p.source))| == EntriesIn(SourceSections(p.source))
    ensures |AllEntryLinks(SourceEntryRows(p.source))| == EntriesIn(SourceSections(p.source))
  {
    SectionRowsCount(SourceCvId(p.source), SourceSections(p.source));
    EntryRowsCount(SourceCvId(p.source), SourceSections(p.source));
  }

  lemma BranchAdds(front: seq<ReadyProfile>, p: ReadyProfile)
    requires SourceOf(p)
    requires forall i :: 0 <= i < |front| ==> SourceOf(front[i]) && front[i].candidate.pid != p.candidate.pid
    ensures var g, h := ProjectedCvs(front), AddSource(ProjectedCvs(front), p.source);
            && |h.cvs| == |g.cvs| + 1
            && |h.sections| == |g.sections| + |SectionIds(SourceSectionRows(p.source))|
            && |h.hasSection| == |g.hasSection| + |SectionLinks(SourceCvId(p.source), SourceSectionRows(p.source))|
            && |h.entries| == |g.entries| + |RowIds(SourceEntryRows(p.source))|
            && |h.hasEntry| == |g.hasEntry| + |AllEntryLinks(SourceEntryRows(p.source))|
  {
    NewBranchApart(front, p);
    ProjectedCvsScoped(front);
    NewCvNode(front, p);
    AddedSourceSizes(ProjectedCvs(front), p.source);
  }

  lemma NewCvNode(front: seq<ReadyProfile>, p: ReadyProfile)
    requires SourceOf(p)
    requires forall i :: 0 <= i < |front| ==> SourceOf(front[i]) && front[i].candidate.pid != p.candidate.pid
    ensures SourceCvId(p.source) !in ProjectedCvs(front).cvs
  {
    ProjectedCvsKeys(front);
    forall q | q in front ensures SourceCvId(q.source) != SourceCvId(p.source) {
      SourcesDiffer(q, p);
    }
  }

  lemma AddedSourceSizes(g: CvGraph, source: ProfileCv)
    requires SourceCvId(source) !in g.cvs
    requires g.sections.Keys !! SectionIds(SourceSectionRows(source))
    requires g.entries.Keys !! RowIds(SourceEntryRows(source))
    requires (forall l :: l in g.hasSection ==> l.dst in g.sections)
    requires (forall l :: l in g.hasEntry ==> l.dst in g.entries)
    ensures var h := AddSource(g, source);
            && |h.cvs| == |g.cvs| + 1
            && |h.sections| == |g.sections| + |SectionIds(SourceSectionRows(source))|
            && |h.hasSection| == |g.hasSection| + |SectionLinks(SourceCvId(source), SourceSectionRows(source))|
            && |h.entries| == |g.entries| + |RowIds(SourceEntryRows(source))|
            && |h.hasEntry| == |g.hasEntry| + |AllEntryLinks(SourceEntryRows(source))|
  {
    MergeSectionRowsSplit(map[], SourceSectionRows(source));
    EntryMapKeys(SourceEntryRows(source));
    DisjointUnionSize(g.sections, MergeSectionRows(map[], SourceSectionRows(source)));
    DisjointUnionSize(g.entries, EntryMap(SourceEntryRows(source)));
    assert g.hasSection !! SectionLinks(SourceCvId(source), SourceSectionRows(source));
    assert g.hasEntry !! AllEntryLinks(SourceEntryRows(source));
  }

  lemma DisjointUnionSize<K, V>(a: map<K, V>, b: map<K, V>)
    requires a.Keys !! b.Keys
    ensures |a + b| == |a.Keys| + |b.Keys|
  {}

  lemma {:induction false} LinkCount(ps: seq<ReadyProfile>)
    requires forall i, j :: 0 <= i < j < |ps| ==> ps[i].candidate.pid != ps[j].candidate.pid
    ensures |ProjectedLinks(ps)| == |ps|
    decreases |ps|
  {
    if ps == [] {
      assert ProjectedLinks(ps) == {};
    } else {
      var front, p := ps[..|ps| - 1], ps[|ps| - 1];
      LinkCount(front);
      assert forall q :: q in ps <==> q in front || q == p;
      assert ProjectedLinks(ps) == ProjectedLinks(front) + {ProfileLink(p)};
      assert ProfileLink(p) !in ProjectedLinks(front) by {
        forall q | q in front ensures ProfileLink(q) != ProfileLink(p) {
          var i :| 0 <= i < |front| && front[i] == q;
          assert ps[i].candidate.pid != ps[|ps| - 1].candidate.pid;
        }
      }
    }
  }

  lemma EdgesSplitByType(input: RebuildInputs)
    ensures var m := ProfileEdges(input.profiles) + JobEdges(input.jobs);
            && EdgesOfType(m, HasSkill) == EdgesOfType(ProfileEdges(input.profiles), HasSkill)
            && EdgesOfType(m, Requires) == EdgesOfType(JobEdges(input.jobs), Requires)
            && EdgesOfType(m, Prefers) == EdgesOfType(JobEdges(input.jobs), Prefers)
  {
    ProfileEdgesOwners(input.profiles);
    JobEdgesOwners(input.jobs);
  }

  /**
    With distinct keys per skill list and unique section and entry ids, every count after a rebuild,
    from any earlier graph, is the sum over the inputs.
   */
  lemma RebuildCountsAreInputSums(input: RebuildInputs, g: Graph)
    requires WellFormed(g) && SnapshotKeys(input) && Unique(input)
    ensures var ps, js := input.profiles, input.jobs;
            var skills := ProfileKeys(ps) + JobKeys(js) + ToSet(input.taxonomy.seedKeys);
            CountGraph(RunAll(RebuildProgram(input), g))
              == Counts(|ps|, SectionTotal(ps), EntryTotal(ps), |ps|, |js|, |skills|,
                        |ps|, SectionTotal(ps), EntryTotal(ps),
                        ProfileSkillTotal(ps), RequiredTotal(js), PreferredTotal(js),
                        |RelatedMap(input.taxonomy, skills)|)
  {
    RebuildEqualsProjection(input, g);
    BranchCounts(input.profiles);
    CandidateCount(input.profiles);
    JobCount(input.jobs);
    LinkCount(input.profiles);
    EdgesSplitByType(input);
    ProfileEdgeCount(input.profiles);
    JobEdgeCount(input.jobs);
  }
}
