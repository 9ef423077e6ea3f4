/**
  The sync, delete and rebuild services as they run: statement after statement on a graph store
  whose connection may break before any of them.
 */
module GraphDriver {
  import opened Common
  import opened Text
  import opened Stamps
  import opened GraphModel
  import opened ScopedIds
  import opened SyncPrograms
  import opened SqliteSide
  import opened GraphCounts
  import opened GraphMeaning

  datatype SyncError = InvalidInput | Neo4jSyncFailed
  datatype DeleteError = BadId | GraphFailed

  /** The graph after the statements the connection lived for. */
  function Issued(p: seq<Stmt>, budget: nat): seq<Stmt> {
    p[..Min(budget, |p|)]
  }

  /** From (g0, b0) the program reached (g1, b1); `ok` iff every statement was accepted. */
  predicate Ran(p: seq<Stmt>, ok: bool, g0: Graph, b0: nat, g1: Graph, b1: nat) {
    && g1 == RunAll(Issued(p, b0), g0)
    && b1 == b0 - Min(b0, |p|)
    && (ok <==> |p| <= b0)
  }

  lemma RanThen(p: seq<Stmt>, q: seq<Stmt>, ok: bool, g0: Graph, b0: nat, g1: Graph, b1: nat, g2: Graph, b2: nat)
    requires Ran(p, true, g0, b0, g1, b1) && Ran(q, ok, g1, b1, g2, b2)
    ensures Ran(p + q, ok, g0, b0, g2, b2)
  {
    assert Issued(p, b0) == p;
    assert Issued(p + q, b0) == p + Issued(q, b1);
    RunAllAppend(p, Issued(q, b1), g0);
  }

  lemma RanStopped(p: seq<Stmt>, q: seq<Stmt>, g0: Graph, b0: nat, g1: Graph, b1: nat)
    requires Ran(p, false, g0, b0, g1, b1)
    ensures Ran(p + q, false, g0, b0, g1, b1)
  {
    assert Issued(p + q, b0) == Issued(p, b0);
  }

  /** Some prefix of the program ran; all of it when `ok`. */
  ghost predicate RanSome(p: seq<Stmt>, ok: bool, g0: Graph, g1: Graph) {
    exists n :: 0 <= n <= |p| && g1 == RunAll(p[..n], g0) && (ok ==> n == |p|)
  }

  lemma RanIsSome(p: seq<Stmt>, ok: bool, g0: Graph, b0: nat, g1: Graph, b1: nat)
    requires Ran(p, ok, g0, b0, g1, b1)
    ensures RanSome(p, ok, g0, g1)
  {}

  lemma SomeThen(p: seq<Stmt>, q: seq<Stmt>, ok: bool, g0: Graph, g1: Graph, g2: Graph)
    requires RanSome(p, true, g0, g1) && RanSome(q, ok, g1, g2)
    ensures RanSome(p + q, ok, g0, g2)
  {
    assert p[..|p|] == p;
    var n :| 0 <= n <= |q| && g2 == RunAll(q[..n], g1) && (ok ==> n == |q|);
    assert (p + q)[..|p| + n] == p + q[..n];
    RunAllAppend(p, q[..n], g0);
  }

  lemma SomeStopped(p: seq<Stmt>, q: seq<Stmt>, g0: Graph, g1: Graph)
    requires RanSome(p, false, g0, g1)
    ensures RanSome(p + q, false, g0, g1)
  {
    var n :| 0 <= n <= |p| && g1 == RunAll(p[..n], g0);
    assert (p + q)[..n] == p[..n];
  }

  lemma AllAreCounted(values: map<Counted, nat>, g: Graph)
    requires forall k :: 0 <= k < |COUNT_ORDER| ==>
               COUNT_ORDER[k] in values && values[COUNT_ORDER[k]] == CountOf(g, COUNT_ORDER[k])
    ensures forall key :: key in values && values[key] == CountOf(g, key)
  {
    hide CountOf;
    forall key ensures key in values && values[key] == CountOf(g, key) {
      assert exists k :: 0 <= k < |COUNT_ORDER| && COUNT_ORDER[k] == key by {
        IsCounted(key);
      }
    }
  }

  function CountsFrom(values: map<Counted, nat>): Counts
    requires forall key :: key in values
  {
    Counts(
      values[CvNodes], values[SectionNodes], values[EntryNodes],
      values[CandidateNodes], values[JobNodes], values[SkillNodes],
      values[ProjectsToLinks], values[SectionLinksOf], values[EntryLinksOf],
      values[HasSkillLinks], values[RequiresLinks], values[PrefersLinks], values[RelatedLinks])
  }

  lemma CountsFromIsCountGraph(values: map<Counted, nat>, g: Graph)
    requires forall key :: key in values && values[key] == CountOf(g, key)
    ensures CountsFrom(values) == CountGraph(g)
  {
    NodeCounts(g);
    LinkCounts(g);
    hide CountOf, EdgesOfType;
  }

  lemma NodeCounts(g: Graph)
    ensures CountOf(g, CvNodes) == |g.cv.cvs| && CountOf(g, SectionNodes) == |g.cv.sections|
    ensures CountOf(g, EntryNodes) == |g.cv.entries| && CountOf(g, CandidateNodes) == |g.skill.candidates|
    ensures CountOf(g, JobNodes) == |g.skill.jobs| && CountOf(g, SkillNodes) == |g.skill.skills|
  {}

  lemma LinkCounts(g: Graph)
    ensures CountOf(g, ProjectsToLinks) == |g.projectsTo|
    ensures CountOf(g, SectionLinksOf) == |g.cv.hasSection| && CountOf(g, EntryLinksOf) == |g.cv.hasEntry|
    ensures CountOf(g, HasSkillLinks) == |EdgesOfType(g.skill.edges, HasSkill)|
    ensures CountOf(g, RequiresLinks) == |EdgesOfType(g.skill.edges, Requires)|
    ensures CountOf(g, PrefersLinks) == |EdgesOfType(g.skill.edges, Prefers)|
    ensures CountOf(g, RelatedLinks) == |g.skill.related|
  {}

  lemma IsCounted(key: Counted)
    ensures exists k :: 0 <= k < |COUNT_ORDER| && COUNT_ORDER[k] == key
  {
    assert COUNT_ORDER[match key
      case CvNodes => 0 case SectionNodes => 1 case EntryNodes => 2 case CandidateNodes => 3 case JobNodes => 4
      case SkillNodes => 5 case ProjectsToLinks => 6 case SectionLinksOf => 7 case EntryLinksOf => 8
      case HasSkillLinks => 9 case RequiresLinks => 10 case PrefersLinks => 11 case RelatedLinks => 12] == key;
  }

  lemma SomeNothing(g: Graph)
    ensures RanSome([], true, g, g)
  {
    assert RunAll([][..0], g) == g;
  }

  lemma {:induction false} CandidateProgramsPrefix(ps: seq<ReadyProfile>, t: Taxonomy, k: nat)
    requires k <= |ps|
    ensures CandidatePrograms(ps[..k], t) <= CandidatePrograms(ps, t)
    decreases |ps|
  {
    if k == |ps| {
      assert ps[..k] == ps;
    } else {
      assert ps[..|ps| - 1][..k] == ps[..k];
      CandidateProgramsPrefix(ps[..|ps| - 1], t, k);
    }
  }

  lemma {:induction false} JobProgramsPrefix(js: seq<JobInput>, t: Taxonomy, k: nat)
    requires k <= |js|
    ensures JobPrograms(js[..k], t) <= JobPrograms(js, t)
    decreases |js|
  {
    if k == |js| {
      assert js[..k] == js;
    } else {
      assert js[..|js| - 1][..k] == js[..k];
      JobProgramsPrefix(js[..|js| - 1], t, k);
    }
  }

  lemma {:induction false} ProfileCvProgramsPrefix(ps: seq<ReadyProfile>, k: nat)
    requires k <= |ps|
    ensures ProfileCvPrograms(ps[..k]) <= ProfileCvPrograms(ps)
    decreases |ps|
  {
    if k == |ps| {
      assert ps[..k] == ps;
    } else {
      assert ps[..|ps| - 1][..k] == ps[..k];
      ProfileCvProgramsPrefix(ps[..|ps| - 1], k);
    }
  }

  lemma PrefixRanSome(p: seq<Stmt>, q: seq<Stmt>, g0: Graph, g1: Graph)
    requires p <= q && RanSome(p, false, g0, g1)
    ensures RanSome(q, false, g0, g1)
  {
    SomeStopped(p, q[|p|..], g0, g1);
    assert p + q[|p|..] == q;
  }

  lemma OkIsSome(p: seq<Stmt>, g0: Graph, g1: Graph)
    requires RanSome(p, true, g0, g1)
    ensures g1 == RunAll(p, g0) && RanSome(p, false, g0, g1)
  {
    assert p[..|p|] == p;
  }

  /** Blank means empty after stripping. */
  predicate Blank(s: string) {
    Strip(s) == ""
  }

  predicate CvInputValid(cv: CvInput) {
    !Blank(cv.originalName) && !Blank(cv.extractionVersion) && !Blank(cv.profileId)
    && (cv.sourceHash.Some? ==> !Blank(cv.sourceHash.value))
  }

  predicate JobInputValid(j: JobInput) {
    !Blank(j.jid.text) && (j.quality == "full" || j.quality == "partial")
  }

  lemma CandidateRunMeans(c: CandidateInput, t: Taxonomy, g0: Graph, b0: nat)
    ensures forall g1, b1 :: Ran(CandidateProgram(c, t), true, g0, b0, g1, b1) ==>
              && EdgesOfProfile(g1.skill.edges, c.pid, c.skills)
              && OthersKept(g1.skill.edges, g0.skill.edges, {HasSkill}, c.pid)
  {
    hide CandidateProgram, EdgesOfProfile, OthersKept;
    CandidateSyncMeans(c, t, g0);
    var p := CandidateProgram(c, t);
    assert |p| <= b0 ==> Issued(p, b0) == p;
  }

  lemma BlankInputs(cv: CvInput)
    ensures CvInputValid(cv)
       <==> !IsBlank(cv.originalName) && !IsBlank(cv.extractionVersion) && !IsBlank(cv.profileId)
            && (cv.sourceHash.Some? ==> !IsBlank(cv.sourceHash.value))
  {
    StripEmptyIffBlank(cv.originalName);
    StripEmptyIffBlank(cv.extractionVersion);
    StripEmptyIffBlank(cv.profileId);
    if cv.sourceHash.Some? {
      StripEmptyIffBlank(cv.sourceHash.value);
    }
  }

  /** `CVDocument` to parameter rows: two nested appending loops. */
  method BuildEntryRows(cvId: Id, sections: seq<CvSection>) returns (rows: seq<EntryRow>)
    ensures rows == EntryRows(cvId, sections)
  {
    rows := [];
    for i := 0 to |sections|
      invariant rows == EntryRows(cvId, sections[..i])
    {
      var section := sections[i];
      ghost var before := rows;
      for k := 0 to |section.entries|
        invariant rows == before + SectionEntryRows(cvId, section)[..k]
      {
        rows := rows + [EntryRowOf(cvId, section, section.entries[k], k)];
      }
      assert SectionEntryRows(cvId, section)[..|section.entries|] == SectionEntryRows(cvId, section);
      assert sections[..i + 1][..i] == sections[..i];
    }
    assert sections[..|sections|] == sections;
  }

  class GraphStore {
    var graph: Graph
    /** Statements the store accepts before the connection breaks: the environment's choice. */
    var budget: nat

    method Run(s: Stmt) returns (ok: bool)
      modifies this
      ensures Ran([s], ok, old(graph), old(budget), graph, budget)
    {
      if budget == 0 {
        return false;
      }
      assert [s][..0] == [];
      graph, budget := Apply(s, graph), budget - 1;
      return true;
    }

    /** Runs the statement when it is wanted, after an earlier success. */
    method RunIf(wanted: bool, s: Stmt) returns (ok: bool)
      modifies this
      ensures Ran(If(wanted, s), ok, old(graph), old(budget), graph, budget)
    {
      ok := true;
      if wanted {
        ok := Run(s);
      }
    }

    method ProjectSeed(t: Taxonomy) returns (ok: bool)
      modifies this
      ensures Ran(SeedProgram(t), ok, old(graph), old(budget), graph, budget)
    {
      ghost var p, q := If(t.seedKeys != [], MergeSeedSkills(t.seedKeys)), If(t.related != [], MergeRelated(t.related));
      ok := RunIf(t.seedKeys != [], MergeSeedSkills(t.seedKeys));
      if !ok {
        RanStopped(p, q, old(graph), old(budget), graph, budget);
        return;
      }
      ghost var g1, b1 := graph, budget;
      ok := RunIf(t.related != [], MergeRelated(t.related));
      RanThen(p, q, ok, old(graph), old(budget), g1, b1, graph, budget);
    }

    /** Merge the node, clear the owner's edges. */
    method RunTwo(s1: Stmt, s2: Stmt) returns (ok: bool)
      modifies this
      ensures Ran([s1, s2], ok, old(graph), old(budget), graph, budget)
    {
      assert [s1] + [s2] == [s1, s2];
      ok := Run(s1);
      if !ok {
        RanStopped([s1], [s2], old(graph), old(budget), graph, budget);
        return;
      }
      ghost var g1, b1 := graph, budget;
      ok := Run(s2);
      RanThen([s1], [s2], ok, old(graph), old(budget), g1, b1, graph, budget);
    }

    method SyncCandidate(c: CandidateInput, t: Taxonomy) returns (ok: bool)
      modifies this
      ensures Ran(CandidateProgram(c, t), ok, old(graph), old(budget), graph, budget)
      ensures ok ==>
                && EdgesOfProfile(graph.skill.edges, c.pid, c.skills)
                && OthersKept(graph.skill.edges, old(graph).skill.edges, {HasSkill}, c.pid)
    {
      CandidateRunMeans(c, t, graph, budget);
      hide EdgesOfProfile, OthersKept;
      var rows := CandidateRows(c);
      var m, cl := MergeCandidate(c.pid, IsoUtc(c.updatedAt)), ClearHasSkill(c.pid);
      var me := MergeSkillEdges(HasSkill, c.pid, rows);
      ghost var p2, p3 := [m, cl], [m, cl] + If(rows != [], me);
      ok := RunTwo(m, cl);
      if !ok {
        RanStopped(p2, If(rows != [], me), old(graph), old(budget), graph, budget);
        RanStopped(p3, SeedProgram(t), old(graph), old(budget), graph, budget);
        return;
      }
      ghost var g1, b1 := graph, budget;
      ok := RunIf(rows != [], me);
      RanThen(p2, If(rows != [], me), ok, old(graph), old(budget), g1, b1, graph, budget);
      if !ok {
        RanStopped(p3, SeedProgram(t), old(graph), old(budget), graph, budget);
        return;
      }
      ghost var g2, b2 := graph, budget;
      ok := ProjectSeed(t);
      RanThen(p3, SeedProgram(t), ok, old(graph), old(budget), g2, b2, graph, budget);
    }

    /** Only a processed full or partial Job with an id reaches the store. */
    method SyncJob(j: JobInput, t: Taxonomy) returns (r: Result<(), SyncError>)
      modifies this
      ensures !JobInputValid(j) ==> r == Err(InvalidInput) && graph == old(graph) && budget == old(budget)
      ensures JobInputValid(j) ==>
                Ran(JobProgram(j, t), r.Ok?, old(graph), old(budget), graph, budget) && r != Err(InvalidInput)
      ensures r == Err(InvalidInput) <==> IsBlank(j.jid.text) || (j.quality != "full" && j.quality != "partial")
    {
      StripEmptyIffBlank(j.jid.text);
      if !JobInputValid(j) {
        return Err(InvalidInput);
      }
      var ok := RunJob(j, t);
      r := if ok then Ok(()) else Err(Neo4jSyncFailed);
    }

    method RunJob(j: JobInput, t: Taxonomy) returns (ok: bool)
      modifies this
      ensures Ran(JobProgram(j, t), ok, old(graph), old(budget), graph, budget)
    {
      var req, pre := RequiredRows(j), PreferredRows(j);
      var m, cl := MergeJob(j.jid, JobNodeOf(j)), ClearJobSkills(j.jid);
      var mr, mp := MergeSkillEdges(Requires, j.jid, req), MergeSkillEdges(Prefers, j.jid, pre);
      ghost var p2 := [m, cl];
      ghost var p3 := p2 + If(req != [], mr);
      ghost var p4 := p3 + If(pre != [], mp);
      ok := RunTwo(m, cl);
      if !ok {
        RanStopped(p2, If(req != [], mr), old(graph), old(budget), graph, budget);
        RanStopped(p3, If(pre != [], mp), old(graph), old(budget), graph, budget);
        RanStopped(p4, SeedProgram(t), old(graph), old(budget), graph, budget);
        return;
      }
      ghost var g1, b1 := graph, budget;
      ok := RunIf(req != [], mr);
      RanThen(p2, If(req != [], mr), ok, old(graph), old(budget), g1, b1, graph, budget);
      if !ok {
        RanStopped(p3, If(pre != [], mp), old(graph), old(budget), graph, budget);
        RanStopped(p4, SeedProgram(t), old(graph), old(budget), graph, budget);
        return;
      }
      ghost var g2, b2 := graph, budget;
      ok := RunIf(pre != [], mp);
      RanThen(p3, If(pre != [], mp), ok, old(graph), old(budget), g2, b2, graph, budget);
      if !ok {
        RanStopped(p4, SeedProgram(t), old(graph), old(budget), graph, budget);
        return;
      }
      ghost var g3, b3 := graph, budget;
      ok := ProjectSeed(t);
      RanThen(p4, SeedProgram(t), ok, old(graph), old(budget), g3, b3, graph, budget);
    }

    method RunProjection(cvId: Id, pid: Id, isActive: bool) returns (ok: bool)
      modifies this
      ensures Ran(ProjectionProgram(cvId, pid, isActive), ok, old(graph), old(budget), graph, budget)
    {
      if isActive {
        ok := RunTwo(ClearAllProjectsTo(pid), MergeProjectsTo(cvId, pid));
      } else {
        ok := Run(ClearThisCvProjectsTo(cvId));
      }
    }

    /** The payload is built and checked before the first statement. */
    method SyncCv(cv: CvInput) returns (r: Result<(), SyncError>)
      modifies this
      ensures !CvInputValid(cv) ==> r == Err(InvalidInput) && graph == old(graph) && budget == old(budget)
      ensures CvInputValid(cv) ==>
                Ran(CvProgram(cv), r.Ok?, old(graph), old(budget), graph, budget) && r != Err(InvalidInput)
      ensures r == Err(InvalidInput)
         <==> IsBlank(cv.originalName) || IsBlank(cv.extractionVersion) || IsBlank(cv.profileId)
              || (cv.sourceHash.Some? && IsBlank(cv.sourceHash.value))
    {
      BlankInputs(cv);
      if !CvInputValid(cv) {
        return Err(InvalidInput);
      }
      var sections := SectionRows(CvIdOf(cv), cv.document.sections);
      var entries := BuildEntryRows(CvIdOf(cv), cv.document.sections);
      var ok := RunCv(cv, sections, entries);
      r := if ok then Ok(()) else Err(Neo4jSyncFailed);
    }

    method RunCv(cv: CvInput, sections: seq<SectionRow>, entries: seq<EntryRow>) returns (ok: bool)
      requires sections == SectionRows(CvIdOf(cv), cv.document.sections)
      requires entries == EntryRows(CvIdOf(cv), cv.document.sections)
      modifies this
      ensures Ran(CvProgram(cv), ok, old(graph), old(budget), graph, budget)
    {
      var cvId, pid := CvIdOf(cv), Id(cv.profileId);
      var m, cl := MergeCv(cvId, CvNodeOf(cv)), ClearCvOwned(cvId);
      ghost var tail := ProjectionProgram(cvId, pid, cv.isActive);
      ghost var p3 := [m, cl] + If(sections != [], MergeSections(cvId, sections));
      ghost var p4 := p3 + If(entries != [], MergeEntries(entries));
      ok := RunTwo(m, cl);
      if !ok {
        RanStopped([m, cl], If(sections != [], MergeSections(cvId, sections)), old(graph), old(budget), graph, budget);
        RanStopped(p3, If(entries != [], MergeEntries(entries)), old(graph), old(budget), graph, budget);
        RanStopped(p4, tail, old(graph), old(budget), graph, budget);
        return;
      }
      ghost var g1, b1 := graph, budget;
      ok := RunIf(sections != [], MergeSections(cvId, sections));
      RanThen([m, cl], If(sections != [], MergeSections(cvId, sections)), ok,
              old(graph), old(budget), g1, b1, graph, budget);
      if !ok {
        RanStopped(p3, If(entries != [], MergeEntries(entries)), old(graph), old(budget), graph, budget);
        RanStopped(p4, tail, old(graph), old(budget), graph, budget);
        return;
      }
      ghost var g2, b2 := graph, budget;
      ok := RunIf(entries != [], MergeEntries(entries));
      RanThen(p3, If(entries != [], MergeEntries(entries)), ok, old(graph), old(budget), g2, b2, graph, budget);
      if !ok {
        RanStopped(p4, tail, old(graph), old(budget), graph, budget);
        return;
      }
      ghost var g3, b3 := graph, budget;
      ok := RunProjection(cvId, pid, cv.isActive);
      RanThen(p4, tail, ok, old(graph), old(budget), g3, b3, graph, budget);
    }

    method ProjectLegacy(cv: LegacyCv) returns (ok: bool)
      modifies this
      ensures Ran(LegacyProgram(cv), ok, old(graph), old(budget), graph, budget)
    {
      var m := MergeCv(LegacyCvId(cv), LegacyCvNode(cv));
      ghost var tail := ProjectionProgram(LegacyCvId(cv), Id(cv.profileId), true);
      ok := Run(m);
      if !ok {
        RanStopped([m], tail, old(graph), old(budget), graph, budget);
        return;
      }
      ghost var g1, b1 := graph, budget;
      ok := RunProjection(LegacyCvId(cv), Id(cv.profileId), true);
      RanThen([m], tail, ok, old(graph), old(budget), g1, b1, graph, budget);
    }

    method DeleteCv(cvId: string) returns (r: Result<(), DeleteError>)
      modifies this
      ensures Blank(cvId) ==> r == Err(BadId) && graph == old(graph) && budget == old(budget)
      ensures !Blank(cvId) ==>
                Ran([DeleteCvBranch(Id(Strip(cvId)))], r.Ok?, old(graph), old(budget), graph, budget)
    {
      if Blank(cvId) {
        return Err(BadId);
      }
      var ok := Run(DeleteCvBranch(Id(Strip(cvId))));
      r := if ok then Ok(()) else Err(GraphFailed);
    }

    method DeleteProfile(profileId: string) returns (r: Result<(), DeleteError>)
      modifies this
      ensures Blank(profileId) ==> r == Err(BadId) && graph == old(graph) && budget == old(budget)
      ensures !Blank(profileId) ==>
                Ran([DeleteProfileBranch(Id(Strip(profileId)))], r.Ok?, old(graph), old(budget), graph, budget)
    {
      if Blank(profileId) {
        return Err(BadId);
      }
      var ok := Run(DeleteProfileBranch(Id(Strip(profileId))));
      r := if ok then Ok(()) else Err(GraphFailed);
    }

    /** Deletes, then re-reads the node count; success means the node is gone. */
    method DeleteJobNode(jobId: string) returns (r: Result<(), DeleteError>)
      modifies this
      ensures Blank(jobId) ==> r == Err(BadId) && graph == old(graph)
      ensures r.Ok? ==> Id(Strip(jobId)) !in graph.skill.jobs
      ensures !Blank(jobId) ==> graph == RunAll(Issued([DeleteJob(Id(Strip(jobId)))], old(budget)), old(graph))
      ensures !Blank(jobId) ==> (r.Ok? <==> old(budget) >= 2)
    {
      if Blank(jobId) {
        return Err(BadId);
      }
      var ok := Run(DeleteJob(Id(Strip(jobId))));
      if !ok || budget == 0 {
        return Err(GraphFailed);
      }
      assert graph == Apply(DeleteJob(Id(Strip(jobId))), old(graph)) by {
        assert Issued([DeleteJob(Id(Strip(jobId)))], old(budget)) == [] + [DeleteJob(Id(Strip(jobId)))];
        RunAllSnoc([], DeleteJob(Id(Strip(jobId))), old(graph));
      }
      budget := budget - 1;
      var remaining := if Id(Strip(jobId)) in graph.skill.jobs then 1 else 0;
      if remaining != 0 {
        return Err(GraphFailed);
      }
      return Ok(());
    }

    /** The label-scoped clear, one statement per label. */
    method ClearJobAgentGraph() returns (ok: bool)
      modifies this
      ensures Ran(ClearProgram(), ok, old(graph), old(budget), graph, budget)
    {
      var statements := ClearProgram();
      ok := true;
      var i := 0;
      while i < |statements|
        invariant 0 <= i <= |statements|
        invariant Ran(statements[..i], true, old(graph), old(budget), graph, budget)
      {
        ghost var g1, b1 := graph, budget;
        ok := Run(statements[i]);
        assert statements[..i + 1] == statements[..i] + [statements[i]];
        RanThen(statements[..i], [statements[i]], ok, old(graph), old(budget), g1, b1, graph, budget);
        i := i + 1;
        if !ok {
          RanStopped(statements[..i], statements[i..], old(graph), old(budget), graph, budget);
          assert statements[..i] + statements[i..] == statements;
          return;
        }
      }
      assert statements[..i] == statements;
    }

    method ProjectCandidates(profiles: seq<ReadyProfile>, t: Taxonomy) returns (ok: bool)
      modifies this
      ensures RanSome(CandidatePrograms(profiles, t), ok, old(graph), graph)
    {
      hide RanSome, Ran, CandidateProgram, JobProgram, RunAll;
      ok := true;
      SomeNothing(graph);
      for i := 0 to |profiles|
        invariant ok && RanSome(CandidatePrograms(profiles[..i], t), true, old(graph), graph)
      {
        ghost var g1, b1 := graph, budget;
        ghost var p, q := CandidatePrograms(profiles[..i], t), CandidateProgram(profiles[i].candidate, t);
        ok := SyncCandidate(profiles[i].candidate, t);
        RanIsSome(q, ok, g1, b1, graph, budget);
        SomeThen(p, q, ok, old(graph), g1, graph);
        assert profiles[..i + 1][..i] == profiles[..i];
        if !ok {
          CandidateProgramsPrefix(profiles, t, i + 1);
          PrefixRanSome(p + q, CandidatePrograms(profiles, t), old(graph), graph);
          return;
        }
      }
      assert profiles[..|profiles|] == profiles;
    }

    method ProjectJobs(jobs: seq<JobInput>, t: Taxonomy) returns (ok: bool)
      modifies this
      ensures RanSome(JobPrograms(jobs, t), ok, old(graph), graph)
    {
      hide RanSome, Ran, CandidateProgram, JobProgram, RunAll;
      ok := true;
      SomeNothing(graph);
      for i := 0 to |jobs|
        invariant ok && RanSome(JobPrograms(jobs[..i], t), true, old(graph), graph)
      {
        ghost var g1, b1 := graph, budget;
        ghost var p, q := JobPrograms(jobs[..i], t), JobProgram(jobs[i], t);
        var r := SyncJob(jobs[i], t);
        if r == Err(InvalidInput) {
          OkIsSome(p, old(graph), graph);
          JobProgramsPrefix(jobs, t, i);
          PrefixRanSome(p, JobPrograms(jobs, t), old(graph), graph);
          return false;
        }
        RanIsSome(q, r.Ok?, g1, b1, graph, budget);
        SomeThen(p, q, r.Ok?, old(graph), g1, graph);
        assert jobs[..i + 1][..i] == jobs[..i];
        if r.Err? {
          JobProgramsPrefix(jobs, t, i + 1);
          PrefixRanSome(p + q, JobPrograms(jobs, t), old(graph), graph);
          return false;
        }
      }
      assert jobs[..|jobs|] == jobs;
    }

    method ProjectCvs(profiles: seq<ReadyProfile>) returns (ok: bool)
      modifies this
      ensures RanSome(ProfileCvPrograms(profiles), ok, old(graph), graph)
    {
      ok := true;
      SomeNothing(graph);
      for i := 0 to |profiles|
        invariant ok && RanSome(ProfileCvPrograms(profiles[..i]), true, old(graph), graph)
      {
        ghost var g1 := graph;
        ghost var p, q := ProfileCvPrograms(profiles[..i]), ProfileCvProgram(profiles[i].source);
        ok := ProjectCv(profiles[i].source);
        SomeThen(p, q, ok, old(graph), g1, graph);
        assert profiles[..i + 1][..i] == profiles[..i];
        if !ok {
          ProfileCvProgramsPrefix(profiles, i + 1);
          PrefixRanSome(p + q, ProfileCvPrograms(profiles), old(graph), graph);
          return;
        }
      }
      assert profiles[..|profiles|] == profiles;
    }

    method ProjectCv(source: ProfileCv) returns (ok: bool)
      modifies this
      ensures RanSome(ProfileCvProgram(source), ok, old(graph), graph)
    {
      match source {
        case Structured(cv) =>
          var r := SyncCv(cv);
          ok := r.Ok?;
          if r == Err(InvalidInput) {
            SomeNothing(graph);
            OkIsSome([], graph, graph);
            PrefixRanSome([], ProfileCvProgram(source), old(graph), graph);
          } else {
            RanIsSome(CvProgram(cv), ok, old(graph), old(budget), graph, budget);
          }
        case Legacy(legacy) =>
          ok := ProjectLegacy(legacy);
          RanIsSome(LegacyProgram(legacy), ok, old(graph), old(budget), graph, budget);
      }
    }

    /** One read a count; all of them or nothing. */
    method CountNodesAndLinks() returns (r: Option<Counts>)
      modifies this`budget
      ensures r.Some? <==> old(budget) >= |COUNT_ORDER|
      ensures r.Some? ==> r.value == CountGraph(graph)
    {
      hide CountOf, CountGraph;
      var values: map<Counted, nat> := map[];
      for i := 0 to |COUNT_ORDER|
        invariant budget == old(budget) - i
        invariant forall k :: 0 <= k < i ==>
                    COUNT_ORDER[k] in values && values[COUNT_ORDER[k]] == CountOf(graph, COUNT_ORDER[k])
      {
        if budget == 0 {
          return None;
        }
        budget := budget - 1;
        values := values[COUNT_ORDER[i] := CountOf(graph, COUNT_ORDER[i])];
      }
      AllAreCounted(values, graph);
      CountsFromIsCountGraph(values, graph);
      return Some(CountsFrom(values));
    }

    /**
      Preflight, clear, project, count. A preflight error leaves the graph alone, success means the
      whole rebuild program ran and the counts are those of the graph it left, and any other failure
      leaves what some cut of that program leaves.
     */
    method RebuildGraph(db: Sqlite, t: Taxonomy) returns (r: Result<Counts, RebuildError>)
      modifies this
      ensures LoadInputs(db, t).Err? ==> r == Err(LoadInputs(db, t).error) && graph == old(graph)
      ensures LoadInputs(db, t).Ok? ==>
                RanSome(RebuildProgram(LoadInputs(db, t).value), r.Ok?, old(graph), graph)
      ensures r.Ok? ==> r.value == CountGraph(graph)
    {
      var loaded := LoadRebuildInputs(db, t);
      if loaded.Err? {
        return Err(loaded.error);
      }
      var ok := RunRebuild(loaded.value);
      if !ok {
        return Err(ProjectionFailed);
      }
      var counts := CountNodesAndLinks();
      r := if counts.Some? then Ok(counts.value) else Err(ProjectionFailed);
    }

    method RunRebuild(input: RebuildInputs) returns (ok: bool)
      modifies this
      ensures RanSome(RebuildProgram(input), ok, old(graph), graph)
    {
      ok := RunRebuildBody(input);
      if input.profiles == [] && input.jobs == [] {
        if ok {
          ghost var g1, b1 := graph, budget;
          ok := ProjectSeed(input.taxonomy);
          RanIsSome(SeedProgram(input.taxonomy), ok, g1, b1, graph, budget);
          SomeThen(RebuildBody(input), SeedProgram(input.taxonomy), ok, old(graph), g1, graph);
        } else {
          SomeStopped(RebuildBody(input), SeedProgram(input.taxonomy), old(graph), graph);
        }
      }
    }

    method RunRebuildBody(input: RebuildInputs) returns (ok: bool)
      modifies this
      ensures RanSome(RebuildBody(input), ok, old(graph), graph)
    {
      var t := input.taxonomy;
      ghost var p, q := ClearProgram() + CandidatePrograms(input.profiles, t), JobPrograms(input.jobs, t);
      ghost var r := ProfileCvPrograms(input.profiles);
      ok := ClearAndProjectCandidates(input);
      if !ok {
        SomeStopped(p, q, old(graph), graph);
        SomeStopped(p + q, r, old(graph), graph);
        return;
      }
      ghost var g1 := graph;
      ok := ProjectJobs(input.jobs, t);
      SomeThen(p, q, ok, old(graph), g1, graph);
      if !ok {
        SomeStopped(p + q, r, old(graph), graph);
        return;
      }
      ghost var g2 := graph;
      ok := ProjectCvs(input.profiles);
      SomeThen(p + q, r, ok, old(graph), g2, graph);
    }

    method ClearAndProjectCandidates(input: RebuildInputs) returns (ok: bool)
      modifies this
      ensures RanSome(ClearProgram() + CandidatePrograms(input.profiles, input.taxonomy), ok, old(graph), graph)
    {
      ghost var p, q := ClearProgram(), CandidatePrograms(input.profiles, input.taxonomy);
      ok := ClearJobAgentGraph();
      RanIsSome(p, ok, old(graph), old(budget), graph, budget);
      if !ok {
        SomeStopped(p, q, old(graph), graph);
        return;
      }
      ghost var g1 := graph;
      ok := ProjectCandidates(input.profiles, input.taxonomy);
      SomeThen(p, q, ok, old(graph), g1, graph);
    }
  }
}
