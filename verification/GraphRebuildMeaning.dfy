/** What the graph says after a complete rebuild, in terms of the profiles, documents and jobs it was made from. */
module GraphRebuildMeaning {
  import opened Common
  import opened Stamps
  import opened GraphModel
  import opened ScopedIds
  import opened SyncPrograms
  import opened GraphSync
  import opened GraphInvariant
  import opened GraphRebuild
  import opened GraphCounts
  import opened GraphAgreement
  import opened GraphMeaning
  import opened GraphCvMeaning

  // ----- Skills -----

  lemma {:induction false} CandidatesMean(ps: seq<ReadyProfile>)
    ensures forall pid :: pid in CandidateMap(ps) <==> exists i :: 0 <= i < |ps| && ps[i].candidate.pid == pid
    decreases |ps|
  {
    if ps != [] {
      var front := ps[..|ps| - 1];
      CandidatesMean(front);
      forall pid ensures pid in CandidateMap(ps) <==> exists i :: 0 <= i < |ps| && ps[i].candidate.pid == pid {
        if i :| 0 <= i < |front| && front[i].candidate.pid == pid {
          assert ps[i].candidate.pid == pid;
        }
        assert ps[|front|].candidate.pid == pid ==> pid in CandidateMap(ps);
        if i :| 0 <= i < |ps| && ps[i].candidate.pid == pid && i < |front| {
          assert front[i].candidate.pid == pid;
        }
      }
    }
  }

  predicate ShowsJob(node: JobNode, j: JobInput) {
    && node.title == j.extraction.title && node.company == j.extraction.company
    && node.location == j.extraction.location && node.workMode == j.extraction.workMode
    && node.seniority == j.extraction.seniority && node.quality == j.quality
    && node.embedding == j.embedding && WrittenAs(node.stamp, j.updatedAt)
  }

  lemma {:induction false} JobsMean(js: seq<JobInput>)
    requires forall a, b :: 0 <= a < b < |js| ==> js[a].jid != js[b].jid
    ensures forall jid :: jid in JobMap(js) <==> exists i :: 0 <= i < |js| && js[i].jid == jid
    ensures forall i :: 0 <= i < |js| ==> js[i].jid in JobMap(js) && ShowsJob(JobMap(js)[js[i].jid], js[i])
    decreases |js|
  {
    if js != [] {
      var front := js[..|js| - 1];
      JobsMean(front);
      hide ShowsJob;
      NodeShowsJob(js[|front|]);
      forall jid ensures jid in JobMap(js) <==> exists i :: 0 <= i < |js| && js[i].jid == jid {
        if i :| 0 <= i < |front| && front[i].jid == jid {
          assert js[i].jid == jid;
        }
        assert js[|front|].jid == jid ==> jid in JobMap(js);
        if i :| 0 <= i < |js| && js[i].jid == jid && i < |front| {
          assert front[i].jid == jid;
        }
      }
      forall i | 0 <= i < |js| ensures js[i].jid in JobMap(js) && ShowsJob(JobMap(js)[js[i].jid], js[i]) {
        if i < |front| {
          assert front[i] == js[i] && js[i].jid != js[|front|].jid;
        }
      }
    }
  }

  lemma NodeShowsJob(j: JobInput)
    ensures ShowsJob(JobNodeOf(j), j)
  {}

  lemma ProfileEdgesMean(ps: seq<ReadyProfile>, i: nat)
    requires i < |ps| && forall a, b :: 0 <= a < b < |ps| ==> ps[a].candidate.pid != ps[b].candidate.pid
    ensures EdgesOfProfile(ProfileEdges(ps), ps[i].candidate.pid, ps[i].candidate.skills)
  {
    ProfileSlice(ps, i);
    ProfileRowsMean(ps[i].candidate);
    hide RowMap, ProfileEdges, KeptKey, LastKept, CarriesSkill;
  }

  lemma SameEdgesMean(
    m: map<EdgeKey, SkillRel>, own: map<EdgeKey, SkillRel>, rel: RelType, jid: Id, skills: seq<JobSkill>)
    requires EdgesOfList(own, rel, jid, skills)
    requires forall e: EdgeKey :: e.rel == rel && e.owner == jid ==>
               (e in m <==> e in own) && (e in own ==> m[e] == own[e])
    ensures EdgesOfList(m, rel, jid, skills)
  {
    hide NamesKey, LastOf, CarriesJobSkill;
  }

  lemma OwnEdgesMean(j: JobInput)
    ensures EdgesOfList(JobRowMap(j), Requires, j.jid, j.extraction.required)
    ensures EdgesOfList(JobRowMap(j), Prefers, j.jid, j.extraction.preferred)
  {
    var req, pre := RowMap(Requires, j.jid, RequiredRows(j)), RowMap(Prefers, j.jid, PreferredRows(j));
    JobRowsMean(Requires, j.jid, j.extraction.required);
    JobRowsMean(Prefers, j.jid, j.extraction.preferred);
    hide RowMap, NamesKey, LastOf, CarriesJobSkill;
    SameEdgesMean(req + pre, req, Requires, j.jid, j.extraction.required);
    SameEdgesMean(req + pre, pre, Prefers, j.jid, j.extraction.preferred);
  }

  lemma JobEdgesMean(js: seq<JobInput>, i: nat)
    requires i < |js| && forall a, b :: 0 <= a < b < |js| ==> js[a].jid != js[b].jid
    ensures EdgesOfList(JobEdges(js), Requires, js[i].jid, js[i].extraction.required)
    ensures EdgesOfList(JobEdges(js), Prefers, js[i].jid, js[i].extraction.preferred)
  {
    hide JobRowMap, JobEdges, EdgesOfList;
    JobSlice(js, i);
    OwnEdgesMean(js[i]);
    SameEdgesMean(JobEdges(js), JobRowMap(js[i]), Requires, js[i].jid, js[i].extraction.required);
    SameEdgesMean(JobEdges(js), JobRowMap(js[i]), Prefers, js[i].jid, js[i].extraction.preferred);
  }

  /** Relationships of one kind of owner are not disturbed by those of the other. */
  lemma ProfileApart(
    profiles: map<EdgeKey, SkillRel>, jobs: map<EdgeKey, SkillRel>, pid: Id, skills: seq<CandidateSkill>)
    requires (forall e :: e in jobs ==> !e.rel.HasSkill?) && EdgesOfProfile(profiles, pid, skills)
    ensures EdgesOfProfile(profiles + jobs, pid, skills)
  {
    hide KeptKey, LastKept, CarriesSkill;
  }

  lemma ListApart(
    profiles: map<EdgeKey, SkillRel>, jobs: map<EdgeKey, SkillRel>, rel: RelType, jid: Id, skills: seq<JobSkill>)
    requires (forall e :: e in profiles ==> e.rel.HasSkill?) && rel != HasSkill && EdgesOfList(jobs, rel, jid, skills)
    ensures EdgesOfList(profiles + jobs, rel, jid, skills)
  {
    hide NamesKey, LastOf, CarriesJobSkill;
  }

  // ----- CVs -----

  /** The part of a graph that one CV owns is as in another. */
  ghost predicate SameBranch(r: CvGraph, own: CvGraph, c: Id) {
    && (forall s :: Link(c, s) in r.hasSection <==> Link(c, s) in own.hasSection)
    && (forall s :: s in own.sections ==> s in r.sections && r.sections[s] == own.sections[s])
    && (forall e :: e in own.entries ==> e in r.entries && r.entries[e] == own.entries[e])
    && (forall s, e :: s in own.sections ==> (Link(s, e) in r.hasEntry <==> Link(s, e) in own.hasEntry))
  }

  function OwnBranch(source: ProfileCv): CvGraph {
    AddSource(EMPTY_CVS, source)
  }

  lemma OwnBranchIds(source: ProfileCv)
    ensures var own := OwnBranch(source);
            && own.sections.Keys == SectionIds(SourceSectionRows(source))
            && own.entries.Keys == RowIds(SourceEntryRows(source))
            && own.hasSection == SectionLinks(SourceCvId(source), SourceSectionRows(source))
            && own.hasEntry == AllEntryLinks(SourceEntryRows(source))
            && forall l :: l in own.hasEntry ==> l.src in own.sections
  {
    MergeSectionRowsSplit(map[], SourceSectionRows(source));
    EntryMapKeys(SourceEntryRows(source));
    EntryRowsUnderSections(SourceCvId(source), SourceSections(source));
    hide SectionRows, EntryRows, MergeSectionRows;
  }

  /** Every link of the projected CV graph starts at a source's CV, or at a section that is there. */
  lemma {:induction false} ProjectedOwners(ps: seq<ReadyProfile>)
    ensures var g := ProjectedCvs(ps);
            && (forall l :: l in g.hasSection ==> exists i :: 0 <= i < |ps| && l.src == SourceCvId(ps[i].source))
            && (forall l :: l in g.hasEntry ==> l.src in g.sections)
    decreases |ps|
  {
    if ps != [] {
      var front, p := ps[..|ps| - 1], ps[|ps| - 1];
      ProjectedOwners(front);
      OwnBranchIds(p.source);
      AddedBranch(ProjectedCvs(front), p.source);
      hide AddSource, SectionLinks, AllEntryLinks;
      var g := ProjectedCvs(ps);
      forall l | l in g.hasSection ensures exists i :: 0 <= i < |ps| && l.src == SourceCvId(ps[i].source) {
        if l in ProjectedCvs(front).hasSection {
          var i :| 0 <= i < |front| && l.src == SourceCvId(front[i].source);
          assert ps[i] == front[i];
        } else {
          assert l.src == SourceCvId(ps[|ps| - 1].source);
        }
      }
    }
  }

  /** Adding a source adds exactly its own branch. */
  lemma AddedBranch(g: CvGraph, source: ProfileCv)
    ensures var own, r := OwnBranch(source), AddSource(g, source);
            && r.cvs == g.cvs[SourceCvId(source) := SourceNode(source)]
            && r.sections == g.sections + own.sections && r.entries == g.entries + own.entries
            && r.hasSection == g.hasSection + own.hasSection && r.hasEntry == g.hasEntry + own.hasEntry
            && forall l :: l in own.hasSection ==> l.src == SourceCvId(source)
  {
    var none: map<Id, SectionNode>, nothing: map<Id, EntryNode> := map[], map[];
    var sections, entries := MergeSectionRows(map[], SourceSectionRows(source)), EntryMap(SourceEntryRows(source));
    assert none + sections == sections && nothing + entries == entries;
    hide EntryMap, MergeSectionRows, SectionRows, EntryRows;
  }

  /** Nodes and links of another CV leave a branch as it is. */
  lemma BranchKept(g: CvGraph, added: CvGraph, r: CvGraph, own: CvGraph, c: Id)
    requires SameBranch(g, own, c) && g.sections.Keys !! added.sections.Keys && g.entries.Keys !! added.entries.Keys
    requires r.sections == g.sections + added.sections && r.entries == g.entries + added.entries
    requires r.hasSection == g.hasSection + added.hasSection && r.hasEntry == g.hasEntry + added.hasEntry
    requires forall l :: l in added.hasSection ==> l.src != c
    requires forall l :: l in added.hasEntry ==> l.src in added.sections
    ensures SameBranch(r, own, c)
  {}

  /** A branch whose nodes are all new is there as it was added. */
  lemma BranchNew(g: CvGraph, own: CvGraph, r: CvGraph, c: Id)
    requires g.sections.Keys !! own.sections.Keys && g.entries.Keys !! own.entries.Keys
    requires r.sections == g.sections + own.sections && r.entries == g.entries + own.entries
    requires r.hasSection == g.hasSection + own.hasSection && r.hasEntry == g.hasEntry + own.hasEntry
    requires forall l :: l in g.hasSection ==> l.src != c
    requires forall l :: l in g.hasEntry ==> l.src in g.sections
    ensures SameBranch(r, own, c)
  {}

  /** A source's own branch is in the projected CV graph, undisturbed by the other profiles. */
  lemma {:induction false} BranchProjected(ps: seq<ReadyProfile>, i: nat)
    requires i < |ps| && forall a :: 0 <= a < |ps| ==> SourceOf(ps[a])
    requires forall a, b :: 0 <= a < b < |ps| ==> ps[a].candidate.pid != ps[b].candidate.pid
    ensures SourceCvId(ps[i].source) in ProjectedCvs(ps).cvs
    ensures ProjectedCvs(ps).cvs[SourceCvId(ps[i].source)] == SourceNode(ps[i].source)
    ensures SameBranch(ProjectedCvs(ps), OwnBranch(ps[i].source), SourceCvId(ps[i].source))
    decreases |ps|
  {
    hide AddSource, OwnBranch, SectionLinks, AllEntryLinks, SourceOf, SectionIds, RowIds, SameBranch;
    var front, p := ps[..|ps| - 1], ps[|ps| - 1];
    var g, own, r := ProjectedCvs(front), OwnBranch(p.source), ProjectedCvs(ps);
    OwnBranchIds(p.source);
    AddedBranch(g, p.source);
    NewBranchApart(front, p);
    if i < |front| {
      assert front[i] == ps[i];
      BranchProjected(front, i);
      SourcesDiffer(ps[i], p);
      BranchKept(g, own, r, OwnBranch(ps[i].source), SourceCvId(ps[i].source));
    } else {
      ProjectedOwners(front);
      forall a | 0 <= a < |front| ensures SourceCvId(front[a].source) != SourceCvId(p.source) {
        SourcesDiffer(front[a], p);
      }
      BranchNew(g, own, r, SourceCvId(p.source));
    }
  }

  lemma SectionsThere(cv: CvInput)
    ensures forall i: nat :: i < |cv.document.sections| ==>
              Id(SectionIdText(cv, i)) in OwnBranch(Structured(cv)).sections
  {
    OwnBranchIds(Structured(cv));
    IdTexts(cv);
    var rows := SectionRows(CvIdOf(cv), cv.document.sections);
    forall i: nat | i < |cv.document.sections| ensures Id(SectionIdText(cv, i)) in SectionIds(rows) {
      assert rows[i] in rows;
    }
  }

  /** The branch of a structured source shows its document. */
  lemma OwnBranchShows(cv: CvInput, r: CvGraph)
    requires UuidParts(cv) && SameBranch(r, OwnBranch(Structured(cv)), CvIdOf(cv))
    ensures ShowsSections(r, cv) && ShowsEntries(r, cv)
  {
    EmptyGraphInv();
    ResultShows(cv, EMPTY_GRAPH);
    OwnIsResult(cv);
    SectionsThere(cv);
    var own, result := OwnBranch(Structured(cv)), CvResult(cv, EMPTY_GRAPH);
    assert SameBranch(r, result, CvIdOf(cv)) by {
      hide OwnBranch, CvResult;
    }
    hide OwnBranch, CvResult, SameBranch, ShowsSections, ShowsEntries, SectionIdText, UuidParts, CvIdOf;
    SameShows(cv, result, r);
  }

  lemma OwnIsResult(cv: CvInput)
    ensures var own, result := OwnBranch(Structured(cv)), CvResult(cv, EMPTY_GRAPH);
            && own.sections == result.sections && own.entries == result.entries
            && own.hasSection == result.hasSection && own.hasEntry == result.hasEntry
  {
    hide SectionRows, EntryRows, MergeSectionRows, EntryMap;
    var empty := Cleared(EMPTY_GRAPH, CvIdOf(cv));
    assert empty.sections == map[] && empty.entries == map[] && empty.hasSection == {} && empty.hasEntry == {};
  }

  lemma SameShows(cv: CvInput, own: CvGraph, r: CvGraph)
    requires ShowsSections(own, cv) && ShowsEntries(own, cv) && SameBranch(r, own, CvIdOf(cv))
    requires forall i: nat :: i < |cv.document.sections| ==> Id(SectionIdText(cv, i)) in own.sections
    ensures ShowsSections(r, cv) && ShowsEntries(r, cv)
  {
    IdTexts(cv);
    hide SectionIdText, EntryIdText, ShowsSection, ShowsEntry, EntryUnder, LastSection;
  }

  // ----- The whole rebuild -----

  /** A profile's CV: its document's branch, or the metadata alone. */
  ghost predicate ShowsSource(r: CvGraph, source: ProfileCv) {
    match source
    case Structured(cv) =>
      && Id(CvIdText(cv)) in r.cvs && ShowsCv(r.cvs[Id(CvIdText(cv))], cv)
      && ShowsSections(r, cv) && ShowsEntries(r, cv)
    case Legacy(l) =>
      var c := Id(l.profileId + ":" + l.attachmentId);
      && c in r.cvs && r.cvs[c].originalName == l.originalName
      && r.cvs[c].extractionVersion == "legacy-reprocess-required" && r.cvs[c].attachmentId == Id(l.attachmentId)
      && r.cvs[c].sourceHash == Some(l.sourceHash) && WrittenAs(r.cvs[c].stamp, l.updatedAt)
      && forall s :: Link(c, s) !in r.hasSection
  }

  /** `profile:attachment` of a profile's source. */
  function SourceText(source: ProfileCv): string {
    match source
    case Structured(cv) => cv.profileId + ":" + cv.document.attachmentId
    case Legacy(l) => l.profileId + ":" + l.attachmentId
  }

  lemma SourceShown(ps: seq<ReadyProfile>, i: nat)
    requires i < |ps| && forall a :: 0 <= a < |ps| ==> SourceOf(ps[a])
    requires forall a, b :: 0 <= a < b < |ps| ==> ps[a].candidate.pid != ps[b].candidate.pid
    ensures ShowsSource(ProjectedCvs(ps), ps[i].source)
  {
    hide ProjectedCvs, SameBranch, OwnBranch;
    BranchProjected(ps, i);
    match ps[i].source
    case Structured(cv) => StructuredShown(cv, ProjectedCvs(ps));
    case Legacy(l) => LegacyShown(l, ProjectedCvs(ps));
  }

  lemma StructuredShown(cv: CvInput, r: CvGraph)
    requires UuidParts(cv) && CvIdOf(cv) in r.cvs && r.cvs[CvIdOf(cv)] == CvNodeOf(cv)
    requires SameBranch(r, OwnBranch(Structured(cv)), CvIdOf(cv))
    ensures ShowsSource(r, Structured(cv))
  {
    hide SameBranch, OwnBranch, ShowsSections, ShowsEntries;
    IdTexts(cv);
    OwnBranchShows(cv, r);
  }

  lemma LegacyShown(l: LegacyCv, r: CvGraph)
    requires LegacyCvId(l) in r.cvs && r.cvs[LegacyCvId(l)] == LegacyCvNode(l)
    requires SameBranch(r, OwnBranch(Legacy(l)), LegacyCvId(l))
    ensures ShowsSource(r, Legacy(l))
  {
    OwnBranchIds(Legacy(l));
    NoRowsAddNothing(EMPTY_CVS, LegacyCvId(l));
    hide OwnBranch, SectionRows, EntryRows;
  }

  /** The Candidates are the profiles, each with its instant and its skills. */
  ghost predicate ShowsProfiles(r: SkillGraph, ps: seq<ReadyProfile>) {
    && (forall pid :: pid in r.candidates <==> exists i :: 0 <= i < |ps| && ps[i].candidate.pid == pid)
    && (forall i :: 0 <= i < |ps| ==>
          && ps[i].candidate.pid in r.candidates
          && WrittenAs(r.candidates[ps[i].candidate.pid], ps[i].candidate.updatedAt)
          && EdgesOfProfile(r.edges, ps[i].candidate.pid, ps[i].candidate.skills))
  }

  /** The Jobs are the given ones, each with its fields and its two skill lists. */
  ghost predicate ShowsJobs(r: SkillGraph, js: seq<JobInput>) {
    && (forall jid :: jid in r.jobs <==> exists i :: 0 <= i < |js| && js[i].jid == jid)
    && (forall i :: 0 <= i < |js| ==>
          && js[i].jid in r.jobs && ShowsJob(r.jobs[js[i].jid], js[i])
          && EdgesOfList(r.edges, Requires, js[i].jid, js[i].extraction.required)
          && EdgesOfList(r.edges, Prefers, js[i].jid, js[i].extraction.preferred))
  }

  /** Each profile has one CV, which shows its source, and that CV alone projects to it. */
  ghost predicate ShowsCvs(r: Graph, ps: seq<ReadyProfile>) {
    && (forall c :: c in r.cv.cvs <==> exists i :: 0 <= i < |ps| && c == Id(SourceText(ps[i].source)))
    && (forall i :: 0 <= i < |ps| ==> ShowsSource(r.cv, ps[i].source))
    && (forall l :: l in r.projectsTo <==>
          exists i :: 0 <= i < |ps| && l == Link(Id(SourceText(ps[i].source)), ps[i].candidate.pid))
  }

  lemma OneProfileShown(input: RebuildInputs, i: nat)
    requires SnapshotKeys(input) && i < |input.profiles|
    ensures var r, c := ProjectedSkills(input), input.profiles[i].candidate;
            && c.pid in r.candidates && WrittenAs(r.candidates[c.pid], c.updatedAt)
            && EdgesOfProfile(r.edges, c.pid, c.skills)
  {
    var ps := input.profiles;
    JobEdgesOwners(input.jobs);
    hide ProfileEdges, JobEdges, CandidateMap, JobMap, EdgesOfProfile, ProfileKeys, JobKeys, RelatedMap, SourceOf;
    ProfileEdgesMean(ps, i);
    StampShown(ps, i);
    ProfileApart(ProfileEdges(ps), JobEdges(input.jobs), ps[i].candidate.pid, ps[i].candidate.skills);
  }

  lemma ProfilesShown(input: RebuildInputs)
    requires SnapshotKeys(input)
    ensures ShowsProfiles(ProjectedSkills(input), input.profiles)
  {
    CandidatesMean(input.profiles);
    assert ProjectedSkills(input).candidates == CandidateMap(input.profiles);
    hide ProjectedSkills, CandidateMap, EdgesOfProfile, WrittenAs, SnapshotKeys;
    forall i | 0 <= i < |input.profiles|
      ensures var r, c := ProjectedSkills(input), input.profiles[i].candidate;
              && c.pid in r.candidates && WrittenAs(r.candidates[c.pid], c.updatedAt)
              && EdgesOfProfile(r.edges, c.pid, c.skills)
    {
      OneProfileShown(input, i);
    }
  }

  lemma OneJobShown(input: RebuildInputs, i: nat)
    requires SnapshotKeys(input) && i < |input.jobs|
    ensures var edges, j := ProjectedSkills(input).edges, input.jobs[i];
            && EdgesOfList(edges, Requires, j.jid, j.extraction.required)
            && EdgesOfList(edges, Prefers, j.jid, j.extraction.preferred)
  {
    var js, edges := input.jobs, ProfileEdges(input.profiles);
    ProfileEdgesOwners(input.profiles);
    hide ProfileEdges, JobEdges, CandidateMap, JobMap, EdgesOfList, ProfileKeys, JobKeys, RelatedMap, SourceOf;
    JobEdgesMean(js, i);
    ListApart(edges, JobEdges(js), Requires, js[i].jid, js[i].extraction.required);
    ListApart(edges, JobEdges(js), Prefers, js[i].jid, js[i].extraction.preferred);
  }

  lemma JobsShown(input: RebuildInputs)
    requires SnapshotKeys(input)
    ensures ShowsJobs(ProjectedSkills(input), input.jobs)
  {
    JobsMean(input.jobs);
    assert ProjectedSkills(input).jobs == JobMap(input.jobs);
    hide ProjectedSkills, JobMap, EdgesOfList, ShowsJob, SnapshotKeys;
    forall i | 0 <= i < |input.jobs|
      ensures var edges, j := ProjectedSkills(input).edges, input.jobs[i];
              && EdgesOfList(edges, Requires, j.jid, j.extraction.required)
              && EdgesOfList(edges, Prefers, j.jid, j.extraction.preferred)
    {
      OneJobShown(input, i);
    }
  }

  lemma CvsShown(input: RebuildInputs)
    requires SnapshotKeys(input)
    ensures ShowsCvs(Projection(input), input.profiles)
  {
    var ps := input.profiles;
    assert forall a, b :: 0 <= a < b < |ps| ==> ps[a].candidate.pid != ps[b].candidate.pid;
    assert forall a :: 0 <= a < |ps| ==> SourceOf(ps[a]);
    SourcesMean(ps);
    hide ProjectedSkills, ProjectedCvs, ProjectedLinks, ShowsSource, SourceText, SourceOf, SnapshotKeys;
    forall i | 0 <= i < |ps| ensures ShowsSource(ProjectedCvs(ps), ps[i].source) {
      SourceShown(ps, i);
    }
  }

  /**
    After a complete rebuild, from any graph: the Candidates are the ready profiles, each with its instant
    and exactly the HAS_SKILL relationships of its skill list; the Jobs are the scorable jobs with their
    fields, REQUIRES and PREFERS; each profile has one CV, which shows its document, and that CV alone
    projects to it. Skill relationships of other owners are not there.
   */
  lemma RebuildMeans(input: RebuildInputs, g: Graph)
    requires WellFormed(g) && SnapshotKeys(input)
    ensures var r := RunAll(RebuildProgram(input), g);
            && ShowsProfiles(r.skill, input.profiles) && ShowsJobs(r.skill, input.jobs) && ShowsCvs(r, input.profiles)
            && (forall e :: e in r.skill.edges ==>
                  if e.rel == HasSkill then e.owner in r.skill.candidates else e.owner in r.skill.jobs)
  {
    hide RunAll, RebuildProgram, Projection, ShowsProfiles, ShowsJobs, ShowsCvs, WellFormed, SnapshotKeys;
    RebuildEqualsProjection(input, g);
    ProfilesShown(input);
    JobsShown(input);
    CvsShown(input);
    NoOtherEdges(input);
    ProjectionParts(input);
  }

  lemma ProjectionParts(input: RebuildInputs)
    ensures Projection(input).skill == ProjectedSkills(input)
  {}

  lemma NoOtherEdges(input: RebuildInputs)
    ensures var r := ProjectedSkills(input);
            forall e :: e in r.edges ==> if e.rel == HasSkill then e.owner in r.candidates else e.owner in r.jobs
  {
    ProfileEdgesOwners(input.profiles);
    JobEdgesOwners(input.jobs);
    CandidatesMean(input.profiles);
    JobIdsMean(input.jobs);
    hide ProfileEdges, JobEdges, CandidateMap, JobMap;
  }

  lemma {:induction false} JobIdsMean(js: seq<JobInput>)
    ensures forall i :: 0 <= i < |js| ==> js[i].jid in JobMap(js)
    decreases |js|
  {
    if js != [] {
      JobIdsMean(js[..|js| - 1]);
      assert forall i :: 0 <= i < |js| - 1 ==> js[..|js| - 1][i] == js[i];
    }
  }

  lemma StampShown(ps: seq<ReadyProfile>, i: nat)
    requires i < |ps| && forall a, b :: 0 <= a < b < |ps| ==> ps[a].candidate.pid != ps[b].candidate.pid
    ensures ps[i].candidate.pid in CandidateMap(ps)
    ensures WrittenAs(CandidateMap(ps)[ps[i].candidate.pid], ps[i].candidate.updatedAt)
  {
    CandidateStamp(ps, i);
  }

  lemma SourcesMean(ps: seq<ReadyProfile>)
    ensures forall c :: c in ProjectedCvs(ps).cvs <==> exists i :: 0 <= i < |ps| && c == Id(SourceText(ps[i].source))
    ensures forall l :: l in ProjectedLinks(ps) <==>
              exists i :: 0 <= i < |ps| && l == Link(Id(SourceText(ps[i].source)), ps[i].candidate.pid)
  {
    ProjectedCvsKeys(ps);
    assert forall i :: 0 <= i < |ps| ==> ps[i] in ps && SourceCvId(ps[i].source) == Id(SourceText(ps[i].source));
  }
}
