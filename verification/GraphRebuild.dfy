/**
  Rebuild agreement: whatever the graph held, a complete rebuild ends with the projection of the
  SQLite snapshot, and the printed counts are the sums over the inputs.
 */
module GraphRebuild {
  import opened Common
  import opened Stamps
  import opened GraphModel
  import opened ScopedIds
  import opened SyncPrograms
  import opened GraphSync
  import opened GraphRecovery
  import opened GraphInvariant

  // ----- The projection of a snapshot, with no reference to any statement -----

  function CandidateMap(ps: seq<ReadyProfile>): map<Id, StampText> {
    if ps == [] then map[]
    else
      var c := ps[|ps| - 1].candidate;
      CandidateMap(ps[..|ps| - 1])[c.pid := IsoUtc(c.updatedAt)]
  }

  function JobMap(js: seq<JobInput>): map<Id, JobNode> {
    if js == [] then map[] else JobMap(js[..|js| - 1])[js[|js| - 1].jid := JobNodeOf(js[|js| - 1])]
  }

  function ProfileEdges(ps: seq<ReadyProfile>): map<EdgeKey, SkillRel> {
    if ps == [] then map[]
    else
      var c := ps[|ps| - 1].candidate;
      ProfileEdges(ps[..|ps| - 1]) + RowMap(HasSkill, c.pid, CandidateRows(c))
  }

  function JobEdges(js: seq<JobInput>): map<EdgeKey, SkillRel> {
    if js == [] then map[]
    else
      var j := js[|js| - 1];
      JobEdges(js[..|js| - 1]) + RowMap(Requires, j.jid, RequiredRows(j)) + RowMap(Prefers, j.jid, PreferredRows(j))
  }

  function ProfileKeys(ps: seq<ReadyProfile>): set<Key> {
    if ps == [] then {} else ProfileKeys(ps[..|ps| - 1]) + SkillKeys(CandidateRows(ps[|ps| - 1].candidate))
  }

  function JobKeys(js: seq<JobInput>): set<Key> {
    if js == [] then {}
    else JobKeys(js[..|js| - 1]) + SkillKeys(RequiredRows(js[|js| - 1])) + SkillKeys(PreferredRows(js[|js| - 1]))
  }

  function ProjectedSkills(input: RebuildInputs): SkillGraph {
    var skills := ProfileKeys(input.profiles) + JobKeys(input.jobs) + ToSet(input.taxonomy.seedKeys);
    SkillGraph(CandidateMap(input.profiles), JobMap(input.jobs), skills,
               ProfileEdges(input.profiles) + JobEdges(input.jobs), RelatedMap(input.taxonomy, skills))
  }

  function SourceCvId(source: ProfileCv): Id {
    match source
    case Structured(cv) => CvIdOf(cv)
    case Legacy(legacy) => LegacyCvId(legacy)
  }

  function SourceNode(source: ProfileCv): CvNode {
    match source
    case Structured(cv) => CvNodeOf(cv)
    case Legacy(legacy) => LegacyCvNode(legacy)
  }

  /** A metadata-only CV has no sections. */
  function SourceSections(source: ProfileCv): seq<CvSection> {
    match source
    case Structured(cv) => cv.document.sections
    case Legacy(_) => []
  }

  function SourceSectionRows(source: ProfileCv): seq<SectionRow> {
    SectionRows(SourceCvId(source), SourceSections(source))
  }

  function SourceEntryRows(source: ProfileCv): seq<EntryRow> {
    EntryRows(SourceCvId(source), SourceSections(source))
  }

  function AddSource(g: CvGraph, source: ProfileCv): CvGraph {
    CvGraph(
      g.cvs[SourceCvId(source) := SourceNode(source)],
      g.sections + MergeSectionRows(map[], SourceSectionRows(source)),
      g.entries + EntryMap(SourceEntryRows(source)),
      g.hasSection + SectionLinks(SourceCvId(source), SourceSectionRows(source)),
      g.hasEntry + AllEntryLinks(SourceEntryRows(source)))
  }

  function ProjectedCvs(ps: seq<ReadyProfile>): CvGraph {
    if ps == [] then EMPTY_CVS else AddSource(ProjectedCvs(ps[..|ps| - 1]), ps[|ps| - 1].source)
  }

  function ProfileLink(p: ReadyProfile): Link {
    Link(SourceCvId(p.source), p.candidate.pid)
  }

  function ProjectedLinks(ps: seq<ReadyProfile>): set<Link> {
    set p | p in ps :: ProfileLink(p)
  }

  function Projection(input: RebuildInputs): Graph {
    Graph(ProjectedSkills(input), ProjectedCvs(input.profiles), ProjectedLinks(input.profiles))
  }

  // ----- What the preflight gives: primary keys, and sources that belong to their profile -----

  predicate SourceOf(p: ReadyProfile) {
    match p.source
    case Structured(cv) => p.candidate.pid == Id(cv.profileId) && cv.isActive && UuidParts(cv)
    case Legacy(legacy) => p.candidate.pid == Id(legacy.profileId) && UuidLegacy(legacy)
  }

  ghost predicate SnapshotKeys(input: RebuildInputs) {
    && (forall i, j :: 0 <= i < j < |input.profiles| ==>
          input.profiles[i].candidate.pid != input.profiles[j].candidate.pid)
    && (forall i, j :: 0 <= i < j < |input.jobs| ==> input.jobs[i].jid != input.jobs[j].jid)
    && (forall i :: 0 <= i < |input.profiles| ==> SourceOf(input.profiles[i]))
  }

  // ----- Clear -----

  lemma ClearsEntriesAndSections(g: Graph)
    requires WellFormed(g)
    ensures Apply(ClearSections, Apply(ClearEntries, g))
         == g.(cv := g.cv.(sections := map[], entries := map[], hasSection := {}, hasEntry := {}))
  {}

  lemma ClearsCvsAndCandidates(g: Graph)
    requires WellFormed(g) && g.cv.sections == map[] && g.cv.entries == map[] && g.cv.hasSection == {}
    requires g.cv.hasEntry == {}
    ensures Apply(ClearCandidates, Apply(ClearCvs, g))
         == Graph(g.skill.(candidates := map[],
                           edges := WithoutOwners(g.skill.edges, {HasSkill}, g.skill.candidates.Keys)),
                  EMPTY_CVS, {})
  {}

  lemma ClearsJobsAndSkills(g: SkillGraph)
    requires SkillWf(g) && g.candidates == map[]
    ensures DetachSkills(DetachJobs(g, g.jobs.Keys), g.skills) == EMPTY_SKILLS
  {}

  lemma RunSixth(a: Stmt, b: Stmt, c: Stmt, d: Stmt, e: Stmt, f: Stmt, g: Graph)
    ensures RunAll([a, b, c, d, e, f], g) == Apply(f, Apply(e, Apply(d, Apply(c, Apply(b, Apply(a, g))))))
  {
    RunTwo(a, b, g);
    RunAllSnoc([a, b], c, g);
    RunAllSnoc([a, b] + [c], d, g);
    RunAllSnoc([a, b] + [c] + [d], e, g);
    RunAllSnoc([a, b] + [c] + [d] + [e], f, g);
    assert [a, b] + [c] + [d] + [e] + [f] == [a, b, c, d, e, f];
  }

  /** The six label-scoped statements empty the JobAgent graph, whatever it held. */
  lemma ClearEmpties(g: Graph)
    requires WellFormed(g)
    ensures RunAll(ClearProgram(), g) == EMPTY_GRAPH
  {
    RunSixth(ClearEntries, ClearSections, ClearCvs, ClearCandidates, ClearJobs, ClearSkills, g);
    var g2 := Apply(ClearSections, Apply(ClearEntries, g));
    ClearsEntriesAndSections(g);
    ClearsCvsAndCandidates(g2);
    var g4 := Apply(ClearCandidates, Apply(ClearCvs, g2));
    ClearsJobsAndSkills(g4.skill);
  }

  // ----- Candidates -----

  lemma {:induction false} ProfileEdgesOwners(ps: seq<ReadyProfile>)
    ensures forall e :: e in ProfileEdges(ps) ==>
              e.rel.HasSkill? && exists i :: 0 <= i < |ps| && e.owner == ps[i].candidate.pid
    decreases |ps|
  {
    if ps != [] {
      var front, c := ps[..|ps| - 1], ps[|ps| - 1].candidate;
      ProfileEdgesOwners(front);
      MergeSkillRowsSplit(map[], HasSkill, c.pid, CandidateRows(c));
      forall e | e in ProfileEdges(ps)
        ensures e.rel.HasSkill? && exists i :: 0 <= i < |ps| && e.owner == ps[i].candidate.pid
      {
        if e in ProfileEdges(front) {
          var i :| 0 <= i < |front| && e.owner == front[i].candidate.pid;
          assert e.owner == ps[i].candidate.pid;
        } else {
          assert e.owner == ps[|ps| - 1].candidate.pid;
        }
      }
    }
  }

  function SkillsAfterProfiles(ps: seq<ReadyProfile>, t: Taxonomy): set<Key> {
    if ps == [] then {} else ProfileKeys(ps) + ToSet(t.seedKeys)
  }

  lemma RelatedGrows(t: Taxonomy, few: set<Key>, many: set<Key>)
    requires few <= many
    ensures RelatedMap(t, few) + RelatedMap(t, many) == RelatedMap(t, many)
  {
    RelatedMonotone(t.related, few, many);
  }

  /** A candidate without HAS_SKILL edges yet: its sync only adds. */
  lemma NewCandidateOnlyAdds(c: CandidateInput, t: Taxonomy, g: Graph)
    requires forall e :: e in g.skill.edges && e.rel.HasSkill? ==> e.owner != c.pid
    requires g.skill.related == RelatedMap(t, g.skill.skills)
    ensures var skills := g.skill.skills + SkillKeys(CandidateRows(c)) + ToSet(t.seedKeys);
            RunAll(CandidateProgram(c, t), g)
              == g.(skill := SkillGraph(g.skill.candidates[c.pid := IsoUtc(c.updatedAt)], g.skill.jobs, skills,
                                        g.skill.edges + RowMap(HasSkill, c.pid, CandidateRows(c)),
                                        RelatedMap(t, skills)))
  {
    SyncCandidateExact(c, t, g);
    assert WithoutOwners(g.skill.edges, {HasSkill}, {c.pid}) == g.skill.edges;
    RelatedGrows(t, g.skill.skills, g.skill.skills + SkillKeys(CandidateRows(c)) + ToSet(t.seedKeys));
  }

  function ProfileStage(ps: seq<ReadyProfile>, t: Taxonomy): Graph {
    var skills := SkillsAfterProfiles(ps, t);
    EMPTY_GRAPH.(skill := SkillGraph(CandidateMap(ps), map[], skills, ProfileEdges(ps), RelatedMap(t, skills)))
  }

  lemma NoEdgesYet(ps: seq<ReadyProfile>, pid: Id)
    requires forall i :: 0 <= i < |ps| ==> ps[i].candidate.pid != pid
    ensures forall e :: e in ProfileEdges(ps) ==> e.owner != pid
  {
    ProfileEdgesOwners(ps);
  }

  lemma {:induction false} CandidatesProjected(ps: seq<ReadyProfile>, t: Taxonomy)
    requires forall i, j :: 0 <= i < j < |ps| ==> ps[i].candidate.pid != ps[j].candidate.pid
    ensures RunAll(CandidatePrograms(ps, t), EMPTY_GRAPH) == ProfileStage(ps, t)
    decreases |ps|
  {
    hide RunAll, CandidateProgram, CandidateRows, SkillsAfterProfiles;
    if ps == [] {
      NoCandidates(t);
    } else {
      var front, c := ps[..|ps| - 1], ps[|ps| - 1].candidate;
      CandidatesProjected(front, t);
      RunAllAppend(CandidatePrograms(front, t), CandidateProgram(c, t), EMPTY_GRAPH);
      NoEdgesYet(front, c.pid);
      NewCandidateOnlyAdds(c, t, ProfileStage(front, t));
      OneMoreProfile(ps, t);
    }
  }

  lemma NoCandidates(t: Taxonomy)
    ensures RunAll(CandidatePrograms([], t), EMPTY_GRAPH) == ProfileStage([], t)
  {
    MergeRelatedRowsSplit(map[], t.related, {});
    assert RelatedMap(t, {}) == map[];
  }

  lemma OneMoreProfile(ps: seq<ReadyProfile>, t: Taxonomy)
    requires ps != []
    ensures SkillsAfterProfiles(ps[..|ps| - 1], t) + SkillKeys(CandidateRows(ps[|ps| - 1].candidate))
            + ToSet(t.seedKeys)
         == SkillsAfterProfiles(ps, t)
  {
    hide CandidateRows;
  }

  // ----- Jobs -----

  lemma {:induction false} JobEdgesOwners(js: seq<JobInput>)
    ensures forall e :: e in JobEdges(js) ==> !e.rel.HasSkill? && exists i :: 0 <= i < |js| && e.owner == js[i].jid
    decreases |js|
  {
    if js != [] {
      var front, j := js[..|js| - 1], js[|js| - 1];
      JobEdgesOwners(front);
      MergeSkillRowsSplit(map[], Requires, j.jid, RequiredRows(j));
      MergeSkillRowsSplit(map[], Prefers, j.jid, PreferredRows(j));
      forall e | e in JobEdges(js)
        ensures !e.rel.HasSkill? && exists i :: 0 <= i < |js| && e.owner == js[i].jid
      {
        if e in JobEdges(front) {
          var i :| 0 <= i < |front| && e.owner == front[i].jid;
          assert e.owner == js[i].jid;
        } else {
          assert e.owner == js[|js| - 1].jid;
        }
      }
    }
  }

  function SkillsAfterJobs(ps: seq<ReadyProfile>, js: seq<JobInput>, t: Taxonomy): set<Key> {
    if ps == [] && js == [] then {} else ProfileKeys(ps) + JobKeys(js) + ToSet(t.seedKeys)
  }

  function SkillStage(ps: seq<ReadyProfile>, js: seq<JobInput>, t: Taxonomy): Graph {
    var skills := SkillsAfterJobs(ps, js, t);
    EMPTY_GRAPH.(skill := SkillGraph(CandidateMap(ps), JobMap(js), skills,
                                     ProfileEdges(ps) + JobEdges(js), RelatedMap(t, skills)))
  }

  /** A job without skill edges yet: its sync only adds. */
  lemma NewJobOnlyAdds(j: JobInput, t: Taxonomy, g: Graph)
    requires forall e :: e in g.skill.edges && !e.rel.HasSkill? ==> e.owner != j.jid
    requires g.skill.related == RelatedMap(t, g.skill.skills)
    ensures var skills := g.skill.skills + SkillKeys(RequiredRows(j)) + SkillKeys(PreferredRows(j)) + ToSet(t.seedKeys);
            RunAll(JobProgram(j, t), g)
              == g.(skill := SkillGraph(g.skill.candidates, g.skill.jobs[j.jid := JobNodeOf(j)], skills,
                                        g.skill.edges + RowMap(Requires, j.jid, RequiredRows(j))
                                        + RowMap(Prefers, j.jid, PreferredRows(j)),
                                        RelatedMap(t, skills)))
  {
    hide JobProgram, RunAll, RequiredRows, PreferredRows;
    SyncJobExact(j, t, g);
    assert WithoutOwners(g.skill.edges, {Requires, Prefers}, {j.jid}) == g.skill.edges;
    RelatedGrows(t, g.skill.skills,
                 g.skill.skills + SkillKeys(RequiredRows(j)) + SkillKeys(PreferredRows(j)) + ToSet(t.seedKeys));
  }

  lemma NoJobEdgesYet(ps: seq<ReadyProfile>, js: seq<JobInput>, jid: Id)
    requires forall i :: 0 <= i < |js| ==> js[i].jid != jid
    ensures forall e :: e in ProfileEdges(ps) + JobEdges(js) && !e.rel.HasSkill? ==> e.owner != jid
  {
    ProfileEdgesOwners(ps);
    JobEdgesOwners(js);
  }

  lemma MapsAssociate<K, V>(a: map<K, V>, b: map<K, V>, c: map<K, V>, d: map<K, V>)
    ensures a + b + c + d == a + (b + c + d)
  {}

  lemma {:induction false} JobsProjected(ps: seq<ReadyProfile>, js: seq<JobInput>, t: Taxonomy)
    requires forall i, j :: 0 <= i < j < |js| ==> js[i].jid != js[j].jid
    ensures RunAll(JobPrograms(js, t), SkillStage(ps, [], t)) == SkillStage(ps, js, t)
    decreases |js|
  {
    hide Apply, JobProgram, ProfileEdges, SkillsAfterProfiles, ProfileStage, SkillKeys, WellFormed;
    if js != [] {
      var front, j := js[..|js| - 1], js[|js| - 1];
      JobsProjected(ps, front, t);
      RunAllAppend(JobPrograms(front, t), JobProgram(j, t), SkillStage(ps, [], t));
      NoJobEdgesYet(ps, front, j.jid);
      NewJobOnlyAdds(j, t, SkillStage(ps, front, t));
      assert SkillsAfterJobs(ps, front, t) + SkillKeys(RequiredRows(j)) + SkillKeys(PreferredRows(j))
             + ToSet(t.seedKeys)
          == SkillsAfterJobs(ps, js, t);
      MapsAssociate(ProfileEdges(ps), JobEdges(front), RowMap(Requires, j.jid, RequiredRows(j)),
                    RowMap(Prefers, j.jid, PreferredRows(j)));
    }
  }

  lemma SkillStageStart(ps: seq<ReadyProfile>, t: Taxonomy)
    ensures SkillStage(ps, [], t) == ProfileStage(ps, t)
  {
    assert ProfileEdges(ps) + map[] == ProfileEdges(ps);
    assert SkillsAfterJobs(ps, [], t) == SkillsAfterProfiles(ps, t);
  }

  // ----- CVs -----

  /** On a graph that does not know this CV or an edge into its Candidate, projecting it only adds. */
  lemma NewSourceOnlyAdds(p: ReadyProfile, g: Graph)
    requires SourceOf(p) && CvWf(g.cv) && p.candidate.pid in g.skill.candidates
    requires SourceCvId(p.source) !in g.cv.cvs
    requires forall l :: l in g.projectsTo ==> l.dst != p.candidate.pid
    ensures RunAll(ProfileCvProgram(p.source), g)
         == Graph(g.skill, AddSource(g.cv, p.source), g.projectsTo + {ProfileLink(p)})
  {
    assert WithoutDst(g.projectsTo, {p.candidate.pid}) == g.projectsTo;
    match p.source
    case Structured(cv) =>
      SyncCvExact(cv, g);
      NothingToClear(g.cv, CvIdOf(cv));
    case Legacy(legacy) =>
      ProjectLegacyExact(legacy, g);
      NoRowsAddNothing(g.cv, LegacyCvId(legacy));
  }

  lemma NothingToClear(g: CvGraph, cvId: Id)
    requires CvWf(g) && cvId !in g.cvs
    ensures DetachOwned(g, {cvId}) == g
  {}

  lemma NoRowsAddNothing(g: CvGraph, cvId: Id)
    ensures SectionRows(cvId, []) == [] && EntryRows(cvId, []) == []
    ensures g.sections + MergeSectionRows(map[], []) == g.sections && g.entries + EntryMap([]) == g.entries
    ensures g.hasSection + SectionLinks(cvId, []) == g.hasSection && g.hasEntry + AllEntryLinks([]) == g.hasEntry
  {}

  lemma SourceCvIdUnderProfile(p: ReadyProfile)
    requires SourceOf(p)
    ensures InScope(p.candidate.pid.text, SourceCvId(p.source).text) && Colons(p.candidate.pid.text) == 0
    ensures Colons(SourceCvId(p.source).text) == 1
  {
    match p.source
    case Structured(cv) =>
      ColonsScoped(cv.profileId, cv.document.attachmentId);
    case Legacy(legacy) =>
      ColonsScoped(legacy.profileId, legacy.attachmentId);
  }

  lemma {:induction false} ProjectedCvsKeys(ps: seq<ReadyProfile>)
    ensures ProjectedCvs(ps).cvs.Keys == set p | p in ps :: SourceCvId(p.source)
    decreases |ps|
  {
    if ps != [] {
      ProjectedCvsKeys(ps[..|ps| - 1]);
      assert forall p :: p in ps <==> p in ps[..|ps| - 1] || p == ps[|ps| - 1];
    }
  }

  lemma SourcesDiffer(p: ReadyProfile, q: ReadyProfile)
    requires SourceOf(p) && SourceOf(q) && p.candidate.pid != q.candidate.pid
    ensures SourceCvId(p.source) != SourceCvId(q.source)
  {
    SourceCvIdUnderProfile(p);
    SourceCvIdUnderProfile(q);
    if SourceCvId(q.source) == SourceCvId(p.source) {
      OwnerUnique(q.candidate.pid.text, p.candidate.pid.text, SourceCvId(p.source).text);
    }
  }

  lemma {:induction false} CvsProjected(ps: seq<ReadyProfile>, g: Graph)
    requires WellFormed(g) && g.cv == EMPTY_CVS && g.projectsTo == {}
    requires forall i, j :: 0 <= i < j < |ps| ==> ps[i].candidate.pid != ps[j].candidate.pid
    requires forall i :: 0 <= i < |ps| ==> SourceOf(ps[i]) && ps[i].candidate.pid in g.skill.candidates
    ensures RunAll(ProfileCvPrograms(ps), g) == Graph(g.skill, ProjectedCvs(ps), ProjectedLinks(ps))
    decreases |ps|
  {
    hide WellFormed, ProjectedCvs, ProjectedLinks, ProfileCvPrograms, RunAll, SourceOf;
    if ps == [] {
      NoCvsProjected(g);
    } else {
      CvsProjected(ps[..|ps| - 1], g);
      CvsStep(ps[..|ps| - 1], ps[|ps| - 1], g);
      assert ps == ps[..|ps| - 1] + [ps[|ps| - 1]];
    }
  }

  lemma NoCvsProjected(g: Graph)
    requires g.cv == EMPTY_CVS && g.projectsTo == {}
    ensures RunAll(ProfileCvPrograms([]), g) == Graph(g.skill, ProjectedCvs([]), ProjectedLinks([]))
  {}

  lemma CvsStep(front: seq<ReadyProfile>, p: ReadyProfile, g: Graph)
    requires WellFormed(g) && SourceOf(p) && p.candidate.pid in g.skill.candidates
    requires forall i :: 0 <= i < |front| ==> SourceOf(front[i]) && front[i].candidate.pid != p.candidate.pid
    requires RunAll(ProfileCvPrograms(front), g) == Graph(g.skill, ProjectedCvs(front), ProjectedLinks(front))
    ensures RunAll(ProfileCvPrograms(front + [p]), g)
            == Graph(g.skill, ProjectedCvs(front + [p]), ProjectedLinks(front + [p]))
  {
    hide RunAll, WellFormed, SourceOf, AddSource, ProjectedCvs, ProfileCvPrograms, ProfileLink, ProjectedLinks;
    FrontAndLast(front, p);
    RunAllAppend(ProfileCvPrograms(front), ProfileCvProgram(p.source), g);
    OneMoreSource(front, p, g);
  }

  lemma FrontAndLast(front: seq<ReadyProfile>, p: ReadyProfile)
    ensures ProfileCvPrograms(front + [p]) == ProfileCvPrograms(front) + ProfileCvProgram(p.source)
    ensures ProjectedCvs(front + [p]) == AddSource(ProjectedCvs(front), p.source)
    ensures ProjectedLinks(front + [p]) == ProjectedLinks(front) + {ProfileLink(p)}
  {
    hide AddSource, ProfileLink, ProfileCvProgram;
    assert (front + [p])[..|front|] == front;
    assert forall q :: q in front + [p] <==> q in front || q == p;
  }

  lemma OneMoreSource(front: seq<ReadyProfile>, p: ReadyProfile, g: Graph)
    requires WellFormed(g) && SourceOf(p) && p.candidate.pid in g.skill.candidates
    requires forall i :: 0 <= i < |front| ==> SourceOf(front[i]) && front[i].candidate.pid != p.candidate.pid
    requires RunAll(ProfileCvPrograms(front), g) == Graph(g.skill, ProjectedCvs(front), ProjectedLinks(front))
    ensures RunAll(ProfileCvProgram(p.source), RunAll(ProfileCvPrograms(front), g))
         == Graph(g.skill, AddSource(ProjectedCvs(front), p.source), ProjectedLinks(front) + {ProfileLink(p)})
  {
    var h := RunAll(ProfileCvPrograms(front), g);
    RunAllKeepsWellFormed(ProfileCvPrograms(front), g);
    ProjectedCvsKeys(front);
    forall q | q in front ensures SourceCvId(q.source) != SourceCvId(p.source) && q.candidate.pid != p.candidate.pid {
      SourcesDiffer(q, p);
    }
    NewSourceOnlyAdds(p, h);
  }

  lemma {:induction false} CandidateMapKeys(ps: seq<ReadyProfile>)
    ensures CandidateMap(ps).Keys == set p | p in ps :: p.candidate.pid
    decreases |ps|
  {
    if ps != [] {
      CandidateMapKeys(ps[..|ps| - 1]);
      assert forall p :: p in ps <==> p in ps[..|ps| - 1] || p == ps[|ps| - 1];
    }
  }

  // ----- Rebuild -----

  lemma SkillsRebuilt(input: RebuildInputs, g: Graph)
    requires WellFormed(g) && SnapshotKeys(input)
    ensures var t := input.taxonomy;
            RunAll(ClearProgram() + CandidatePrograms(input.profiles, t) + JobPrograms(input.jobs, t), g)
              == SkillStage(input.profiles, input.jobs, t)
  {
    var t := input.taxonomy;
    ClearEmpties(g);
    RunAllAppend(ClearProgram(), CandidatePrograms(input.profiles, t), g);
    CandidatesProjected(input.profiles, t);
    SkillStageStart(input.profiles, t);
    RunAllAppend(ClearProgram() + CandidatePrograms(input.profiles, t), JobPrograms(input.jobs, t), g);
    JobsProjected(input.profiles, input.jobs, t);
  }

  lemma BodyRebuilt(input: RebuildInputs, g: Graph)
    requires WellFormed(g) && SnapshotKeys(input)
    ensures RunAll(RebuildBody(input), g)
         == Graph(SkillStage(input.profiles, input.jobs, input.taxonomy).skill,
                  ProjectedCvs(input.profiles), ProjectedLinks(input.profiles))
  {
    var t := input.taxonomy;
    var p := ClearProgram() + CandidatePrograms(input.profiles, t) + JobPrograms(input.jobs, t);
    SkillsRebuilt(input, g);
    RunAllKeepsWellFormed(p, g);
    RunAllAppend(p, ProfileCvPrograms(input.profiles), g);
    CvsOnStage(input);
  }

  lemma CvsOnStage(input: RebuildInputs)
    requires SnapshotKeys(input) && WellFormed(SkillStage(input.profiles, input.jobs, input.taxonomy))
    ensures var stage := SkillStage(input.profiles, input.jobs, input.taxonomy);
            RunAll(ProfileCvPrograms(input.profiles), stage)
              == Graph(stage.skill, ProjectedCvs(input.profiles), ProjectedLinks(input.profiles))
  {
    CandidateMapKeys(input.profiles);
    CvsProjected(input.profiles, SkillStage(input.profiles, input.jobs, input.taxonomy));
  }

  /** With nothing to project, the rebuild still seeds the taxonomy. */
  lemma SeededWhenEmpty(input: RebuildInputs, g: Graph)
    requires input.profiles == [] && input.jobs == []
    requires RunAll(RebuildBody(input), g)
          == Graph(SkillStage([], [], input.taxonomy).skill, ProjectedCvs([]), ProjectedLinks([]))
    ensures RunAll(RebuildProgram(input), g) == Projection(input)
  {
    hide RunAll, RebuildBody;
    var t := input.taxonomy;
    SeedExact(t, RebuildBody(input), g);
    MergeRelatedRowsSplit(map[], t.related, {});
    assert RelatedMap(t, {}) == map[];
    assert {} + ToSet(t.seedKeys) == ProjectedSkills(input).skills;
  }

  /**
    From any graph the store can hold, a complete rebuild ends with the projection of its inputs:
    nothing stale survives and nothing is missing.
   */
  lemma RebuildEqualsProjection(input: RebuildInputs, g: Graph)
    requires WellFormed(g) && SnapshotKeys(input)
    ensures RunAll(RebuildProgram(input), g) == Projection(input)
  {
    hide RunAll, RebuildBody, WellFormed, SnapshotKeys, ProjectedCvs, ProjectedLinks, RelatedMap;
    BodyRebuilt(input, g);
    if input.profiles == [] && input.jobs == [] {
      SeededWhenEmpty(input, g);
    }
  }
}
