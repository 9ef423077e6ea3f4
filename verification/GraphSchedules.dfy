/**
  Concurrency at the grain of single statements: for any schedule of sync, delete and rebuild
  statements, exactly when the invariants hold all along, and the schedules that break them.
 */
module GraphSchedules {
  import opened Common
  import opened GraphModel
  import opened ScopedIds
  import opened SyncPrograms
  import opened GraphSync
  import opened GraphInvariant

  /** A statement that some operation issues. */
  ghost predicate Issued(s: Stmt) {
    exists o :: UuidOperation(o) && s in ProgramOf(o)
  }

  /** A schedule: statements of any number of running operations, in any order. */
  ghost predicate Schedule(p: seq<Stmt>) {
    forall i :: 0 <= i < |p| ==> Issued(p[i])
  }

  lemma {:induction false} WellOrderedScoping(p: seq<Stmt>, s: Stmt)
    requires WellOrdered(p) && s in p
    ensures Scoping(s)
    decreases |p|
  {
    if s in p[..|p| - 1] {
      WellOrderedScoping(p[..|p| - 1], s);
    }
  }

  lemma IssuedScoping(s: Stmt)
    requires Issued(s)
    ensures Scoping(s)
  {
    var o :| UuidOperation(o) && s in ProgramOf(o);
    ProgramWellOrdered(o);
    WellOrderedScoping(ProgramOf(o), s);
  }

  lemma RunNext(p: seq<Stmt>, k: nat, g: Graph)
    requires k < |p|
    ensures RunAll(p[..k + 1], g) == Apply(p[k], RunAll(p[..k], g))
  {
    assert p[..k + 1][..k] == p[..k];
  }

  lemma NothingRun(g: Graph)
    ensures RunAll([], g) == g
  {}

  // ----- Ownership -----

  ghost predicate OwnedThroughout(p: seq<Stmt>, g: Graph, n: nat)
    requires n <= |p|
  {
    forall k :: 0 <= k <= n ==> Owned(RunAll(p[..k], g).cv)
  }

  ghost predicate StepsKeepOwned(p: seq<Stmt>, g: Graph, n: nat)
    requires n <= |p|
  {
    forall k :: 0 <= k < n ==> KeepsOwned(p[k], RunAll(p[..k], g).cv)
  }

  lemma {:induction false} OwnedUpTo(p: seq<Stmt>, g: Graph, n: nat)
    requires Schedule(p) && WellFormed(g) && Owned(g.cv) && n <= |p|
    ensures OwnedThroughout(p, g, n) <==> StepsKeepOwned(p, g, n)
    decreases n
  {
    hide RunAll, Owned, KeepsOwned, WellFormed, Issued;
    if n == 0 {
      assert p[..0] == [];
      NothingRun(g);
    } else {
      OwnedUpTo(p, g, n - 1);
      assert OwnedThroughout(p, g, n) <==> OwnedThroughout(p, g, n - 1) && Owned(RunAll(p[..n], g).cv);
      assert StepsKeepOwned(p, g, n) <==> StepsKeepOwned(p, g, n - 1) && KeepsOwned(p[n - 1], RunAll(p[..n - 1], g).cv);
      if OwnedThroughout(p, g, n - 1) {
        OwnedStep(p, g, n - 1);
      }
    }
  }

  lemma OwnedStep(p: seq<Stmt>, g: Graph, k: nat)
    requires Schedule(p) && WellFormed(g) && k < |p| && Owned(RunAll(p[..k], g).cv)
    ensures Owned(RunAll(p[..k + 1], g).cv) <==> KeepsOwned(p[k], RunAll(p[..k], g).cv)
  {
    assert Issued(p[k]);
    IssuedScoping(p[k]);
    RunNext(p, k, g);
    RunAllKeepsWellFormed(p[..k], g);
    StatementKeepsOwnedIff(p[k], RunAll(p[..k], g));
  }

  /**
    Under any schedule every section and entry keeps its one owning CV all along iff each clear of
    sections or CVs comes when no relationship to what they own remains.
   */
  lemma OwnedThroughoutIff(p: seq<Stmt>, g: Graph)
    requires Schedule(p) && WellFormed(g) && Owned(g.cv)
    ensures OwnedThroughout(p, g, |p|) <==> StepsKeepOwned(p, g, |p|)
  {
    OwnedUpTo(p, g, |p|);
  }

  /** Without a rebuild in the schedule nothing can break ownership. */
  lemma AnyInterleavingKeepsOwned(p: seq<Stmt>, g: Graph)
    requires Schedule(p) && WellFormed(g) && Owned(g.cv)
    requires forall i :: 0 <= i < |p| ==> !p[i].ClearSections? && !p[i].ClearCvs?
    ensures OwnedThroughout(p, g, |p|)
  {
    OwnedThroughoutIff(p, g);
  }

  // ----- One section per entry -----

  ghost predicate ApartThroughout(p: seq<Stmt>, g: Graph, n: nat)
    requires n <= |p|
  {
    forall k :: 0 <= k <= n ==> Apart(RunAll(p[..k], g).cv.sections.Keys)
  }

  ghost predicate StepsKeepApart(p: seq<Stmt>, g: Graph, n: nat)
    requires n <= |p|
  {
    forall k :: 0 <= k < n ==> KeepsApart(p[k], RunAll(p[..k], g).cv)
  }

  /**
    Section ids never continue each other under any schedule iff each section merge brings ids apart
    from those its graph holds, for example from an older document of the same CV.
   */
  lemma {:induction false} ApartThroughoutIff(p: seq<Stmt>, g: Graph, n: nat)
    requires Apart(g.cv.sections.Keys) && n <= |p|
    ensures ApartThroughout(p, g, n) <==> StepsKeepApart(p, g, n)
    decreases n
  {
    if n == 0 {
      assert p[..0] == [];
    } else {
      ApartThroughoutIff(p, g, n - 1);
      assert ApartThroughout(p, g, n) <==> ApartThroughout(p, g, n - 1) && Apart(RunAll(p[..n], g).cv.sections.Keys);
      assert StepsKeepApart(p, g, n) <==> StepsKeepApart(p, g, n - 1) && KeepsApart(p[n - 1], RunAll(p[..n - 1], g).cv);
      if ApartThroughout(p, g, n - 1) {
        RunNext(p, n - 1, g);
        StatementKeepsApartIff(p[n - 1], RunAll(p[..n - 1], g));
      }
    }
  }

  // ----- One projection a Candidate -----

  ghost predicate ProjectionThroughout(p: seq<Stmt>, g: Graph, n: nat)
    requires n <= |p|
  {
    forall k :: 0 <= k <= n ==> SingleProjection(RunAll(p[..k], g).projectsTo)
  }

  ghost predicate StepsKeepProjection(p: seq<Stmt>, g: Graph, n: nat)
    requires n <= |p|
  {
    forall k :: 0 <= k < n ==> KeepsProjection(p[k], RunAll(p[..k], g))
  }

  /**
    Under any schedule a Candidate has at most one active CV all along iff no `PROJECTS_TO` is merged
    while another CV's still enters the Candidate.
   */
  lemma {:induction false} ProjectionThroughoutIff(p: seq<Stmt>, g: Graph, n: nat)
    requires SingleProjection(g.projectsTo) && n <= |p|
    ensures ProjectionThroughout(p, g, n) <==> StepsKeepProjection(p, g, n)
    decreases n
  {
    if n == 0 {
      assert p[..0] == [];
    } else {
      ProjectionThroughoutIff(p, g, n - 1);
      assert ProjectionThroughout(p, g, n)
        <==> ProjectionThroughout(p, g, n - 1) && SingleProjection(RunAll(p[..n], g).projectsTo);
      assert StepsKeepProjection(p, g, n)
        <==> StepsKeepProjection(p, g, n - 1) && KeepsProjection(p[n - 1], RunAll(p[..n - 1], g));
      if ProjectionThroughout(p, g, n - 1) {
        RunNext(p, n - 1, g);
        StatementKeepsProjectionIff(p[n - 1], RunAll(p[..n - 1], g));
      }
    }
  }

  // ----- Schedules that break them -----

  lemma RunThree(a: Stmt, b: Stmt, c: Stmt, g: Graph)
    ensures RunAll([a, b, c], g) == Apply(c, Apply(b, Apply(a, g)))
  {
    assert [a, b, c] == [a, b] + [c];
    RunAllSnoc([a, b], c, g);
    RunTwo(a, b, g);
  }

  /**
    Two active syncs for one Candidate that both clear before either merges leave two PROJECTS_TO,
    exactly when they are for different CVs.
   */
  lemma InterleavedActiveSyncs(g: Graph, a: Id, b: Id, pid: Id)
    requires SingleProjection(g.projectsTo)
    requires a in g.cv.cvs && b in g.cv.cvs && pid in g.skill.candidates
    ensures var clear := ClearAllProjectsTo(pid);
            var p := [clear, clear, MergeProjectsTo(a, pid), MergeProjectsTo(b, pid)];
            SingleProjection(RunAll(p, g).projectsTo) <==> a == b
  {
    hide RunAll;
    var c, m, n := ClearAllProjectsTo(pid), MergeProjectsTo(a, pid), MergeProjectsTo(b, pid);
    assert [c, c, m, n] == [c, c, m] + [n];
    RunAllSnoc([c, c, m], n, g);
    RunThree(c, c, m, g);
    BothClearThenBothMerge(g, a, b, pid);
  }

  lemma BothClearThenBothMerge(g: Graph, a: Id, b: Id, pid: Id)
    requires SingleProjection(g.projectsTo)
    requires a in g.cv.cvs && b in g.cv.cvs && pid in g.skill.candidates
    ensures var cleared := Apply(ClearAllProjectsTo(pid), Apply(ClearAllProjectsTo(pid), g));
            var r := Apply(MergeProjectsTo(b, pid), Apply(MergeProjectsTo(a, pid), cleared));
            SingleProjection(r.projectsTo) <==> a == b
  {}

  /**
    A sync that merges its entries between a rebuild's clear of entries and its clear of sections
    leaves entries without a section, exactly when one of their sections was there.
   */
  lemma EntriesBetweenClearsIff(g: Graph, rows: seq<EntryRow>)
    requires WellFormed(g) && Owned(g.cv) && Scoping(MergeEntries(rows))
    ensures Owned(RunAll([ClearEntries, MergeEntries(rows), ClearSections], g).cv)
       <==> forall r :: r in rows ==> r.sectionId !in g.cv.sections
  {
    RunThree(ClearEntries, MergeEntries(rows), ClearSections, g);
    var cleared := Apply(ClearEntries, g);
    var merged := Apply(MergeEntries(rows), cleared);
    ApplyKeepsWellFormed(ClearEntries, g);
    ApplyKeepsWellFormed(MergeEntries(rows), cleared);
    StatementKeepsOwnedIff(ClearEntries, g);
    StatementKeepsOwnedIff(MergeEntries(rows), cleared);
    StatementKeepsOwnedIff(ClearSections, merged);
    NoEntriesAfterClear(g);
    forall r | r in rows && r.sectionId in g.cv.sections ensures Link(r.sectionId, r.id) in merged.cv.hasEntry {
      assert Link(r.sectionId, r.id) in EntryLinks(rows, g.cv.sections.Keys);
    }
  }

  lemma NoEntriesAfterClear(g: Graph)
    requires WellFormed(g)
    ensures Apply(ClearEntries, g).cv == g.cv.(entries := map[], hasEntry := {})
  {}

  /** The same one level up, between the clear of sections and the clear of CVs. */
  lemma SectionsBetweenClearsIff(g: Graph, cvId: Id, rows: seq<SectionRow>)
    requires WellFormed(g) && Owned(g.cv) && g.cv.hasEntry == {} && Scoping(MergeSections(cvId, rows))
    ensures Owned(RunAll([ClearSections, MergeSections(cvId, rows), ClearCvs], g).cv)
       <==> cvId !in g.cv.cvs || rows == []
  {
    hide RunAll, MergeSectionRows, Owned;
    RunThree(ClearSections, MergeSections(cvId, rows), ClearCvs, g);
    var cleared := Apply(ClearSections, g);
    var merged := Apply(MergeSections(cvId, rows), cleared);
    ApplyKeepsWellFormed(ClearSections, g);
    ApplyKeepsWellFormed(MergeSections(cvId, rows), cleared);
    StatementKeepsOwnedIff(ClearSections, g);
    StatementKeepsOwnedIff(MergeSections(cvId, rows), cleared);
    StatementKeepsOwnedIff(ClearCvs, merged);
    ClearSectionsKeepsOwnedIff(g.cv);
    if cvId in g.cv.cvs && rows != [] {
      assert Link(cvId, rows[0].id) in merged.cv.hasSection;
    }
  }

  /** A rebuild against a sync of any CV with an entry, from the empty graph, ends with an orphan. */
  lemma RebuildOrphansASync(cv: CvInput, input: RebuildInputs)
    requires UuidParts(cv) && EntryRows(CvIdOf(cv), cv.document.sections) != []
    ensures var rows := EntryRows(CvIdOf(cv), cv.document.sections);
            !Owned(RunAll(CvHead(cv) + [ClearEntries, MergeEntries(rows), ClearSections], EMPTY_GRAPH).cv)
    ensures CvHead(cv) + [MergeEntries(EntryRows(CvIdOf(cv), cv.document.sections))] <= CvProgram(cv)
    ensures [ClearEntries, ClearSections] <= RebuildProgram(input)
  {
    hide EntryRows, SectionRows, Owned, WellFormed, RunAll, InScope, WithSections;
    var cvId := CvIdOf(cv);
    var rows := EntryRows(cvId, cv.document.sections);
    HeadOwned(cv);
    CvHeadExact(cv, EMPTY_GRAPH);
    EntrySectionsMerged(cv, EMPTY_GRAPH);
    EntryRowsScoped(cvId, cv.document.sections);
    RunAllAppend(CvHead(cv), [ClearEntries, MergeEntries(rows), ClearSections], EMPTY_GRAPH);
    assert rows[0] in rows && Scoping(MergeEntries(rows));
    EntriesBetweenClearsIff(RunAll(CvHead(cv), EMPTY_GRAPH), rows);
    RebuildStart(input);
  }

  lemma RebuildStart(input: RebuildInputs)
    ensures [ClearEntries, ClearSections] <= RebuildProgram(input)
  {
    hide CandidatePrograms, JobPrograms, ProfileCvPrograms, SeedProgram;
    assert ClearProgram() <= RebuildBody(input) <= RebuildProgram(input);
  }

  lemma HeadOwned(cv: CvInput)
    requires UuidParts(cv)
    ensures WellFormed(RunAll(CvHead(cv), EMPTY_GRAPH)) && Owned(RunAll(CvHead(cv), EMPTY_GRAPH).cv)
  {
    var k := |CvHead(cv)|;
    assert CvProgram(cv)[..k] == CvHead(cv);
    EmptyGraphInv();
    CvProgramWellOrdered(cv);
    WellOrderedPrefix(CvProgram(cv), k);
    WellOrderedKeepsInv(CvHead(cv), EMPTY_GRAPH);
  }
}
