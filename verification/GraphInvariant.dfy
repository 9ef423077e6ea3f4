/**
  Ownership and projection invariants of the graph, kept at every crash point of every history of
  syncs, deletes and rebuilds, and what concurrent statement interleavings can break.
 */
module GraphInvariant {
  import opened Common
  import opened GraphModel
  import opened ScopedIds
  import opened SyncPrograms
  import opened Stamps

  function Targets(links: set<Link>): set<Id> {
    set l | l in links :: l.dst
  }

  /** Every section and entry has an owner, and every owner is the scope its node's id was made in. */
  ghost predicate Owned(g: CvGraph) {
    && (forall c :: c in g.cvs ==> Colons(c.text) == 1)
    && (forall l :: l in g.hasSection ==> InScope(l.src.text, l.dst.text))
    && (forall l :: l in g.hasEntry ==> InScope(l.src.text, l.dst.text))
    && g.sections.Keys == Targets(g.hasSection)
    && g.entries.Keys == Targets(g.hasEntry)
  }

  /** At most one PROJECTS_TO enters each Candidate. */
  ghost predicate SingleProjection(projectsTo: set<Link>) {
    forall l1, l2 :: l1 in projectsTo && l2 in projectsTo && l1.dst == l2.dst ==> l1 == l2
  }

  ghost predicate Inv(g: Graph) {
    WellFormed(g) && Owned(g.cv) && SingleProjection(g.projectsTo)
  }

  /** The CV an entry belongs to over its section. */
  ghost predicate Below(g: CvGraph, cvId: Id, e: Id) {
    exists s :: Link(cvId, s) in g.hasSection && Link(s, e) in g.hasEntry
  }

  /**
    The invariant read out: a section has exactly one CV, an entry is below exactly one CV, a Candidate
    has at most one active CV; and when no section id continues another, an entry has exactly one section.
   */
  lemma InvMeansExactlyOneOwner(g: Graph)
    requires Inv(g)
    ensures forall s :: s in g.cv.sections ==> exists c :: Link(c, s) in g.cv.hasSection
    ensures forall s, c1, c2 :: Link(c1, s) in g.cv.hasSection && Link(c2, s) in g.cv.hasSection ==> c1 == c2
    ensures forall e :: e in g.cv.entries ==> exists c :: Below(g.cv, c, e)
    ensures forall e, c1, c2 :: Below(g.cv, c1, e) && Below(g.cv, c2, e) ==> c1 == c2
    ensures Apart(g.cv.sections.Keys) ==>
              forall e, s1, s2 :: Link(s1, e) in g.cv.hasEntry && Link(s2, e) in g.cv.hasEntry ==> s1 == s2
    ensures forall pid, c1, c2 :: Link(c1, pid) in g.projectsTo && Link(c2, pid) in g.projectsTo ==> c1 == c2
  {
    assert CvWf(g.cv) && Owned(g.cv) && SingleProjection(g.projectsTo);
    hide Owned, Below, CvWf, SingleProjection, Apart, Inv;
    OneCvPerSection(g.cv);
    OneCvPerEntry(g.cv);
    OneSectionPerEntry(g.cv);
    OneActiveCv(g.projectsTo);
  }

  lemma OneActiveCv(projectsTo: set<Link>)
    requires SingleProjection(projectsTo)
    ensures forall pid, c1, c2 :: Link(c1, pid) in projectsTo && Link(c2, pid) in projectsTo ==> c1 == c2
  {}

  lemma OneCvPerSection(g: CvGraph)
    requires CvWf(g) && Owned(g)
    ensures forall s :: s in g.sections ==> exists c :: Link(c, s) in g.hasSection
    ensures forall s, c1, c2 :: Link(c1, s) in g.hasSection && Link(c2, s) in g.hasSection ==> c1 == c2
  {
    forall s | s in g.sections ensures exists c :: Link(c, s) in g.hasSection {
      var l := SectionOwner(g, s);
    }
    forall s, c1, c2 | Link(c1, s) in g.hasSection && Link(c2, s) in g.hasSection ensures c1 == c2 {
      OwnerUnique(c1.text, c2.text, s.text);
    }
  }

  lemma OneCvPerEntry(g: CvGraph)
    requires CvWf(g) && Owned(g)
    ensures forall e :: e in g.entries ==> exists c :: Below(g, c, e)
    ensures forall e, c1, c2 :: Below(g, c1, e) && Below(g, c2, e) ==> c1 == c2
  {
    forall e | e in g.entries ensures exists c :: Below(g, c, e) {
      var l :| l in g.hasEntry && l.dst == e;
      var m := SectionOwner(g, l.src);
      assert l == Link(l.src, e);
      assert Below(g, m.src, e);
    }
    hide Owned, Below;
    forall e, c1, c2 | Below(g, c1, e) && Below(g, c2, e) ensures c1 == c2 {
      BelowInScope(g, c1, e);
      BelowInScope(g, c2, e);
      OwnerUnique(c1.text, c2.text, e.text);
    }
  }

  lemma OneSectionPerEntry(g: CvGraph)
    requires CvWf(g) && Owned(g)
    ensures Apart(g.sections.Keys) ==>
              forall e, s1, s2 :: Link(s1, e) in g.hasEntry && Link(s2, e) in g.hasEntry ==> s1 == s2
  {
    forall e, s1, s2 | Apart(g.sections.Keys) && Link(s1, e) in g.hasEntry && Link(s2, e) in g.hasEntry
      ensures s1 == s2
    {
      assert Link(s1, e).src in g.sections && Link(s2, e).src in g.sections;
      OwnerAmongApart(s1.text, s2.text, e.text);
    }
  }

  lemma SectionOwner(g: CvGraph, s: Id) returns (l: Link)
    requires Owned(g) && s in g.sections
    ensures l in g.hasSection && l == Link(l.src, s)
  {
    l :| l in g.hasSection && l.dst == s;
  }

  lemma BelowInScope(g: CvGraph, cvId: Id, e: Id)
    requires Owned(g) && CvWf(g) && Below(g, cvId, e)
    ensures InScope(cvId.text, e.text) && Colons(cvId.text) == 1
  {
    var s :| Link(cvId, s) in g.hasSection && Link(s, e) in g.hasEntry;
    InScopeTransitive(cvId.text, s.text, e.text);
  }

  // ----- One statement -----

  /** The ids a sync writes are made by scoping. */
  predicate Scoping(s: Stmt) {
    match s
    case MergeCv(cvId, _) => Colons(cvId.text) == 1
    case MergeSections(cvId, rows) => forall r :: r in rows ==> InScope(cvId.text, r.id.text)
    case MergeEntries(rows) => forall r :: r in rows ==> InScope(r.sectionId.text, r.id.text)
    case _ => true
  }

  lemma DetachOwnedKeepsOwned(g: CvGraph, cvIds: set<Id>)
    requires CvWf(g) && Owned(g)
    ensures Owned(DetachOwned(g, cvIds))
  {}

  lemma DetachBranchesKeepsOwned(g: Graph, cvIds: set<Id>)
    requires CvWf(g.cv) && Owned(g.cv)
    ensures Owned(DetachBranches(g, cvIds).cv)
  {}

  lemma MergeSectionsKeepsOwned(g: CvGraph, cvId: Id, rows: seq<SectionRow>)
    requires Owned(g) && Scoping(MergeSections(cvId, rows))
    ensures Owned(MergeSectionsOn(g, cvId, rows))
  {
    if cvId in g.cvs {
      MergeSectionRowsSplit(g.sections, rows);
      MergeSectionRowsSplit(map[], rows);
      var r := MergeSectionsOn(g, cvId, rows);
      var added := set row | row in rows :: Link(cvId, row.id);
      assert r.sections.Keys == g.sections.Keys + SectionIds(rows);
      assert Targets(r.hasSection) == Targets(g.hasSection) + Targets(added);
      assert Targets(added) == SectionIds(rows) by {
        forall row | row in rows ensures row.id in Targets(added) {
          assert Link(cvId, row.id) in added;
        }
      }
    }
  }

  lemma MergeEntriesKeepsOwned(g: CvGraph, rows: seq<EntryRow>)
    requires Owned(g) && Scoping(MergeEntries(rows))
    ensures Owned(MergeEntriesOn(g, rows))
  {
    hide MergeEntryRows, InScope;
    MergeEntryRowsSplit(g.entries, rows, g.sections.Keys);
    var r, added := MergeEntriesOn(g, rows), EntryLinks(rows, g.sections.Keys);
    TargetsUnion(g.hasEntry, added);
    EntryTargets(rows, g.sections.Keys);
  }

  lemma TargetsUnion(a: set<Link>, b: set<Link>)
    ensures Targets(a + b) == Targets(a) + Targets(b)
  {}

  lemma EntryTargets(rows: seq<EntryRow>, sections: set<Id>)
    ensures Targets(EntryLinks(rows, sections)) == set row | row in rows && row.sectionId in sections :: row.id
  {
    forall row | row in rows && row.sectionId in sections ensures row.id in Targets(EntryLinks(rows, sections)) {
      assert Link(row.sectionId, row.id) in EntryLinks(rows, sections);
    }
  }

  lemma ClearEntriesKeepsOwned(g: CvGraph)
    requires CvWf(g) && Owned(g)
    ensures Owned(DetachEntries(g, g.entries.Keys)) && DetachEntries(g, g.entries.Keys).hasEntry == {}
    ensures DetachEntries(g, g.entries.Keys).entries == map[]
  {}

  lemma ClearSectionsKeepsOwnedIff(g: CvGraph)
    requires CvWf(g) && Owned(g)
    ensures Owned(DetachSections(g, g.sections.Keys)) <==> g.hasEntry == {}
    ensures DetachSections(g, g.sections.Keys).hasSection == {}
  {
    var r := DetachSections(g, g.sections.Keys);
    assert r.sections == map[] && r.hasSection == {} && r.hasEntry == {};
    assert Targets(r.hasEntry) == {} && Targets(r.hasSection) == {};
    if g.hasEntry != {} {
      var l :| l in g.hasEntry;
      assert l.dst in Targets(g.hasEntry) && l.dst in r.entries;
    }
  }

  lemma ClearCvsKeepsOwnedIff(g: CvGraph)
    requires CvWf(g) && Owned(g)
    ensures Owned(DetachCvs(g, g.cvs.Keys)) <==> g.hasSection == {}
  {
    var r := DetachCvs(g, g.cvs.Keys);
    assert r.cvs == map[] && r.hasSection == {};
    if g.hasSection != {} {
      var l :| l in g.hasSection;
      assert l.dst in Targets(g.hasSection) && l.dst in r.sections;
    }
  }

  // ----- One statement: exactly when it keeps the invariant -----

  /** When `s` keeps ownership, judged on the graph it runs on. */
  predicate KeepsOwned(s: Stmt, g: CvGraph) {
    match s
    case ClearSections => g.hasEntry == {}
    case ClearCvs => g.hasSection == {}
    case _ => true
  }

  /** When `s` keeps one projection a Candidate: no other CV's edge enters the Candidate then. */
  predicate KeepsProjection(s: Stmt, g: Graph) {
    s.MergeProjectsTo? && s.cvId in g.cv.cvs && s.pid in g.skill.candidates ==>
      forall l :: l in g.projectsTo && l.dst == s.pid ==> l.src == s.cvId
  }

  /**
    Whatever statements of other runs came just before it, a statement keeps ownership unless it
    clears sections or CVs while a relationship to what they own remains.
   */
  lemma StatementKeepsOwnedIff(s: Stmt, g: Graph)
    requires CvWf(g.cv) && Owned(g.cv) && Scoping(s)
    ensures Owned(Apply(s, g).cv) <==> KeepsOwned(s, g.cv)
  {
    match s
    case ClearCvOwned(cvId) => DetachOwnedKeepsOwned(g.cv, {cvId});
    case MergeSections(cvId, rows) => MergeSectionsKeepsOwned(g.cv, cvId, rows);
    case MergeEntries(rows) => MergeEntriesKeepsOwned(g.cv, rows);
    case DeleteCvBranch(cvId) => DetachBranchesKeepsOwned(g, {cvId});
    case DeleteProfileBranch(pid) => DetachBranchesKeepsOwned(g, ProjectingCvs(g.projectsTo, pid));
    case ClearEntries => ClearEntriesKeepsOwned(g.cv);
    case ClearSections => ClearSectionsKeepsOwnedIff(g.cv);
    case ClearCvs => ClearCvsKeepsOwnedIff(g.cv);
    case _ =>
  }

  /** When `s` keeps section ids from continuing each other. */
  ghost predicate KeepsApart(s: Stmt, g: CvGraph) {
    s.MergeSections? && s.cvId in g.cvs ==> Apart(g.sections.Keys + SectionIds(s.sectionRows))
  }

  lemma StatementKeepsApartIff(s: Stmt, g: Graph)
    requires Apart(g.cv.sections.Keys)
    ensures Apart(Apply(s, g).cv.sections.Keys) <==> KeepsApart(s, g.cv)
  {
    if s.MergeSections? {
      MergeSectionRowsSplit(g.cv.sections, s.sectionRows);
    }
  }

  /** A statement keeps one projection a Candidate iff it does not add an edge beside another CV's. */
  lemma StatementKeepsProjectionIff(s: Stmt, g: Graph)
    requires SingleProjection(g.projectsTo)
    ensures SingleProjection(Apply(s, g).projectsTo) <==> KeepsProjection(s, g)
  {
    if s.MergeProjectsTo? && s.cvId in g.cv.cvs && s.pid in g.skill.candidates {
      var made := Link(s.cvId, s.pid);
      assert made in Apply(s, g).projectsTo;
      forall l | l in g.projectsTo && l.dst == s.pid && SingleProjection(Apply(s, g).projectsTo)
        ensures l.src == s.cvId
      {
        assert l in Apply(s, g).projectsTo;
      }
    }
  }

  // ----- Statement sequences -----

  /** A statement that is safe only directly after another one. */
  predicate Dependent(s: Stmt) {
    s.MergeSections? || s.MergeProjectsTo? || s.ClearSections? || s.ClearCvs?
  }

  /** `s` may follow the statements of `front`. */
  predicate Fits(front: seq<Stmt>, s: Stmt) {
    match s
    case MergeSections(cvId, _) => front != [] && front[|front| - 1] == ClearCvOwned(cvId)
    case MergeProjectsTo(_, pid) => front != [] && front[|front| - 1] == ClearAllProjectsTo(pid)
    case ClearSections => front != [] && front[|front| - 1] == ClearEntries
    case ClearCvs => front != [] && front[|front| - 1] == ClearSections
    case _ => true
  }

  predicate WellOrdered(p: seq<Stmt>) {
    p == [] || (WellOrdered(p[..|p| - 1]) && Scoping(p[|p| - 1]) && Fits(p[..|p| - 1], p[|p| - 1]))
  }

  lemma {:induction false} WellOrderedKeepsInv(p: seq<Stmt>, g: Graph)
    requires Inv(g) && WellOrdered(p)
    ensures Inv(RunAll(p, g))
    decreases |p|
  {
    if p != [] {
      var front, last := p[..|p| - 1], p[|p| - 1];
      WellOrderedKeepsInv(front, g);
      FittingStatementKeepsInv(front, last, g);
    }
  }

  lemma FittingStatementKeepsInv(front: seq<Stmt>, last: Stmt, g: Graph)
    requires Inv(g) && Inv(RunAll(front, g)) && Scoping(last) && Fits(front, last)
    ensures Inv(Apply(last, RunAll(front, g)))
  {
    var before := RunAll(front, g);
    if Dependent(last) {
      var earlier := RunAll(front[..|front| - 1], g);
      assert before == Apply(front[|front| - 1], earlier);
      RunAllKeepsWellFormed(front[..|front| - 1], g);
      ClearedBefore(last, front[|front| - 1], earlier);
    }
    ApplyKeepsWellFormed(last, before);
    StatementKeepsOwnedIff(last, before);
    StatementKeepsProjectionIff(last, before);
  }

  lemma ClearedBefore(s: Stmt, previous: Stmt, g: Graph)
    requires WellFormed(g) && Fits([previous], s)
    ensures KeepsOwned(s, Apply(previous, g).cv) && KeepsProjection(s, Apply(previous, g))
    ensures s.MergeSections? ==> forall l :: l in Apply(previous, g).cv.hasSection ==> l.src != s.cvId
  {}

  /** Section rows that do not continue each other. */
  ghost predicate ApartRows(s: Stmt) {
    s.MergeSections? ==> Apart(SectionIds(s.sectionRows))
  }

  lemma {:induction false} WellOrderedKeepsApart(p: seq<Stmt>, g: Graph)
    requires Inv(g) && WellOrdered(p) && Apart(g.cv.sections.Keys)
    requires forall i :: 0 <= i < |p| ==> ApartRows(p[i])
    ensures Apart(RunAll(p, g).cv.sections.Keys)
    decreases |p|
  {
    if p != [] {
      var front, last := p[..|p| - 1], p[|p| - 1];
      WellOrderedKeepsApart(front, g);
      WellOrderedKeepsInv(front, g);
      assert ApartRows(last);
      var before := RunAll(front, g);
      if last.MergeSections? && last.cvId in before.cv.cvs {
        var earlier := RunAll(front[..|front| - 1], g);
        assert before == Apply(front[|front| - 1], earlier);
        RunAllKeepsWellFormed(front[..|front| - 1], g);
        ClearedBefore(last, front[|front| - 1], earlier);
        ApartFromOthers(before.cv, last.cvId, last.sectionRows);
      }
      StatementKeepsApartIff(last, before);
    }
  }

  /** Sections merged for a CV that has none are apart from those of every other CV. */
  lemma ApartFromOthers(g: CvGraph, cvId: Id, rows: seq<SectionRow>)
    requires CvWf(g) && Owned(g) && Scoping(MergeSections(cvId, rows)) && cvId in g.cvs
    requires Apart(g.sections.Keys) && Apart(SectionIds(rows))
    requires forall l :: l in g.hasSection ==> l.src != cvId
    ensures Apart(g.sections.Keys + SectionIds(rows))
  {
    forall a, b | a in g.sections && b in SectionIds(rows)
      ensures !InScope(a.text, b.text) && !InScope(b.text, a.text)
    {
      var l :| l in g.hasSection && l.dst == a;
      if InScope(a.text, b.text) {
        InScopeTransitive(l.src.text, a.text, b.text);
        OwnerUnique(l.src.text, cvId.text, b.text);
      }
      if InScope(b.text, a.text) {
        InScopeTransitive(cvId.text, b.text, a.text);
        OwnerUnique(l.src.text, cvId.text, a.text);
      }
    }
  }

  // ----- Histories: each operation runs its program up to a cut, where a crash may fall -----

  datatype Operation =
    | SyncCandidate(c: CandidateInput, t: Taxonomy)
    | SyncJob(j: JobInput, t: Taxonomy)
    | SyncCv(cv: CvInput)
    | ProjectLegacy(legacy: LegacyCv)
    | RemoveCv(cvId: Id)
    | RemoveProfile(pid: Id)
    | RemoveJob(jid: Id)
    | Rebuild(input: RebuildInputs)

  function ProgramOf(o: Operation): seq<Stmt> {
    match o
    case SyncCandidate(c, t) => CandidateProgram(c, t)
    case SyncJob(j, t) => JobProgram(j, t)
    case SyncCv(cv) => CvProgram(cv)
    case ProjectLegacy(legacy) => LegacyProgram(legacy)
    case RemoveCv(cvId) => [DeleteCvBranch(cvId)]
    case RemoveProfile(pid) => [DeleteProfileBranch(pid)]
    case RemoveJob(jid) => [DeleteJob(jid)]
    case Rebuild(input) => RebuildProgram(input)
  }

  predicate UuidLegacy(cv: LegacyCv) {
    Colons(cv.profileId) == 0 && Colons(cv.attachmentId) == 0
  }

  predicate UuidSource(source: ProfileCv) {
    match source
    case Structured(cv) => UuidParts(cv)
    case Legacy(legacy) => UuidLegacy(legacy)
  }

  /** Profile and attachment ids are UUIDs. */
  predicate UuidOperation(o: Operation) {
    match o
    case SyncCv(cv) => UuidParts(cv)
    case ProjectLegacy(legacy) => UuidLegacy(legacy)
    case Rebuild(input) => forall i :: 0 <= i < |input.profiles| ==> UuidSource(input.profiles[i].source)
    case _ => true
  }

  /** No section id of a document continues another after a colon. */
  ghost predicate ApartOperation(o: Operation) {
    match o
    case SyncCv(cv) => ApartSections(cv.document.sections)
    case Rebuild(input) =>
      forall i :: 0 <= i < |input.profiles| ==> ApartSource(input.profiles[i].source)
    case _ => true
  }

  ghost predicate ApartSource(source: ProfileCv) {
    source.Structured? ==> ApartSections(source.cv.document.sections)
  }

  datatype CutRun = CutRun(op: Operation, cut: nat)

  function StateAfter(history: seq<CutRun>, g: Graph): Graph {
    if history == [] then g
    else
      var last, before := history[|history| - 1], StateAfter(history[..|history| - 1], g);
      RunAll(ProgramOf(last.op)[..Min(last.cut, |ProgramOf(last.op)|)], before)
  }

  lemma {:induction false} WellOrderedAppend(p: seq<Stmt>, q: seq<Stmt>)
    requires WellOrdered(p) && WellOrdered(q)
    ensures WellOrdered(p + q)
    decreases |q|
  {
    if q == [] {
      assert p + q == p;
    } else {
      var front, last := q[..|q| - 1], q[|q| - 1];
      WellOrderedAppend(p, front);
      assert (p + q)[..|p + q| - 1] == p + front;
      assert Fits(front, last) ==> Fits(p + front, last);
    }
  }

  lemma {:induction false} WellOrderedPrefix(p: seq<Stmt>, k: nat)
    requires WellOrdered(p) && k <= |p|
    ensures WellOrdered(p[..k])
    decreases |p|
  {
    if k == |p| {
      assert p[..k] == p;
    } else {
      WellOrderedPrefix(p[..|p| - 1], k);
      assert p[..|p| - 1][..k] == p[..k];
    }
  }

  lemma WellOrderedOne(s: Stmt)
    requires Scoping(s) && !Dependent(s)
    ensures WellOrdered([s])
  {
    assert [s][..|[s]| - 1] == [];
    assert WellOrdered([s][..|[s]| - 1]);
  }

  lemma WellOrderedThen(p: seq<Stmt>, issued: bool, s: Stmt)
    requires WellOrdered(p) && Scoping(s) && Fits(p, s)
    ensures WellOrdered(p + If(issued, s))
  {
    if issued {
      assert (p + [s])[..|p|] == p;
    } else {
      assert p + [] == p;
    }
  }

  lemma WellOrderedTwo(s1: Stmt, s2: Stmt)
    requires Scoping(s1) && !Dependent(s1) && Scoping(s2) && Fits([s1], s2)
    ensures WellOrdered([s1, s2])
  {
    WellOrderedOne(s1);
    assert [s1, s2][..1] == [s1];
  }

  lemma SeedThenWellOrdered(p: seq<Stmt>, t: Taxonomy)
    requires WellOrdered(p)
    ensures WellOrdered(p + SeedProgram(t))
  {
    var p1 := p + If(t.seedKeys != [], MergeSeedSkills(t.seedKeys));
    WellOrderedThen(p, t.seedKeys != [], MergeSeedSkills(t.seedKeys));
    WellOrderedThen(p1, t.related != [], MergeRelated(t.related));
    assert p1 + If(t.related != [], MergeRelated(t.related)) == p + SeedProgram(t);
  }

  lemma CandidateProgramWellOrdered(c: CandidateInput, t: Taxonomy)
    ensures WellOrdered(CandidateProgram(c, t))
  {
    var m, cl := MergeCandidate(c.pid, IsoUtc(c.updatedAt)), ClearHasSkill(c.pid);
    var rows := CandidateRows(c);
    WellOrderedTwo(m, cl);
    WellOrderedThen([m, cl], rows != [], MergeSkillEdges(HasSkill, c.pid, rows));
    SeedThenWellOrdered([m, cl] + If(rows != [], MergeSkillEdges(HasSkill, c.pid, rows)), t);
  }

  lemma JobProgramWellOrdered(j: JobInput, t: Taxonomy)
    ensures WellOrdered(JobProgram(j, t))
  {
    var m, cl := MergeJob(j.jid, JobNodeOf(j)), ClearJobSkills(j.jid);
    var mr, mp := MergeSkillEdges(Requires, j.jid, RequiredRows(j)), MergeSkillEdges(Prefers, j.jid, PreferredRows(j));
    WellOrderedTwo(m, cl);
    var p3 := [m, cl] + If(RequiredRows(j) != [], mr);
    WellOrderedThen([m, cl], RequiredRows(j) != [], mr);
    WellOrderedThen(p3, PreferredRows(j) != [], mp);
    SeedThenWellOrdered(p3 + If(PreferredRows(j) != [], mp), t);
  }

  lemma ProjectionThenWellOrdered(p: seq<Stmt>, cvId: Id, pid: Id, isActive: bool)
    requires WellOrdered(p)
    ensures WellOrdered(p + ProjectionProgram(cvId, pid, isActive))
  {
    if isActive {
      WellOrderedTwo(ClearAllProjectsTo(pid), MergeProjectsTo(cvId, pid));
    } else {
      WellOrderedOne(ClearThisCvProjectsTo(cvId));
    }
    WellOrderedAppend(p, ProjectionProgram(cvId, pid, isActive));
  }

  lemma CvProgramWellOrdered(cv: CvInput)
    requires UuidParts(cv)
    ensures WellOrdered(CvProgram(cv))
  {
    var cvId := CvIdOf(cv);
    CvIdColons(cv);
    SectionRowsScoped(cvId, cv.document.sections);
    EntryRowsScoped(cvId, cv.document.sections);
    var sections, entries := SectionRows(cvId, cv.document.sections), EntryRows(cvId, cv.document.sections);
    var p2 := [MergeCv(cvId, CvNodeOf(cv)), ClearCvOwned(cvId)];
    WellOrderedTwo(p2[0], p2[1]);
    WellOrderedThen(p2, sections != [], MergeSections(cvId, sections));
    var p3 := p2 + If(sections != [], MergeSections(cvId, sections));
    WellOrderedThen(p3, entries != [], MergeEntries(entries));
    ProjectionThenWellOrdered(p3 + If(entries != [], MergeEntries(entries)), cvId, Id(cv.profileId), cv.isActive);
  }

  lemma LegacyProgramWellOrdered(cv: LegacyCv)
    requires UuidLegacy(cv)
    ensures WellOrdered(LegacyProgram(cv))
  {
    ColonsScoped(cv.profileId, cv.attachmentId);
    var m := MergeCv(LegacyCvId(cv), LegacyCvNode(cv));
    WellOrderedOne(m);
    ProjectionThenWellOrdered([m], LegacyCvId(cv), Id(cv.profileId), true);
  }

  lemma ClearProgramWellOrdered()
    ensures WellOrdered(ClearProgram())
  {
    WellOrderedTwo(ClearEntries, ClearSections);
    var p3 := [ClearEntries, ClearSections, ClearCvs];
    assert p3[..2] == [ClearEntries, ClearSections];
    assert WellOrdered(p3);
    WellOrderedThen(p3, true, ClearCandidates);
    WellOrderedThen(p3 + [ClearCandidates], true, ClearJobs);
    WellOrderedThen(p3 + [ClearCandidates] + [ClearJobs], true, ClearSkills);
    assert ClearProgram() == p3 + [ClearCandidates] + [ClearJobs] + [ClearSkills];
  }

  lemma {:induction false} CandidateProgramsWellOrdered(profiles: seq<ReadyProfile>, t: Taxonomy)
    ensures WellOrdered(CandidatePrograms(profiles, t))
    decreases |profiles|
  {
    if profiles != [] {
      var front := profiles[..|profiles| - 1];
      CandidateProgramsWellOrdered(front, t);
      CandidateProgramWellOrdered(profiles[|profiles| - 1].candidate, t);
      WellOrderedAppend(CandidatePrograms(front, t), CandidateProgram(profiles[|profiles| - 1].candidate, t));
    }
  }

  lemma {:induction false} JobProgramsWellOrdered(jobs: seq<JobInput>, t: Taxonomy)
    ensures WellOrdered(JobPrograms(jobs, t))
    decreases |jobs|
  {
    if jobs != [] {
      JobProgramsWellOrdered(jobs[..|jobs| - 1], t);
      JobProgramWellOrdered(jobs[|jobs| - 1], t);
      WellOrderedAppend(JobPrograms(jobs[..|jobs| - 1], t), JobProgram(jobs[|jobs| - 1], t));
    }
  }

  lemma {:induction false} ProfileCvProgramsWellOrdered(profiles: seq<ReadyProfile>)
    requires forall i :: 0 <= i < |profiles| ==> UuidSource(profiles[i].source)
    ensures WellOrdered(ProfileCvPrograms(profiles))
    decreases |profiles|
  {
    if profiles != [] {
      var front, last := profiles[..|profiles| - 1], profiles[|profiles| - 1];
      ProfileCvProgramsWellOrdered(front);
      match last.source {
        case Structured(cv) => CvProgramWellOrdered(cv);
        case Legacy(legacy) => LegacyProgramWellOrdered(legacy);
      }
      WellOrderedAppend(ProfileCvPrograms(front), ProfileCvProgram(last.source));
    }
  }

  lemma WellOrderedFour(a: seq<Stmt>, b: seq<Stmt>, c: seq<Stmt>, d: seq<Stmt>)
    requires WellOrdered(a) && WellOrdered(b) && WellOrdered(c) && WellOrdered(d)
    ensures WellOrdered(a + b + c + d)
  {
    WellOrderedAppend(a, b);
    WellOrderedAppend(a + b, c);
    WellOrderedAppend(a + b + c, d);
  }

  lemma RebuildBodyWellOrdered(input: RebuildInputs)
    requires UuidOperation(Rebuild(input))
    ensures WellOrdered(RebuildBody(input))
  {
    ClearProgramWellOrdered();
    CandidateProgramsWellOrdered(input.profiles, input.taxonomy);
    JobProgramsWellOrdered(input.jobs, input.taxonomy);
    ProfileCvProgramsWellOrdered(input.profiles);
    WellOrderedFour(ClearProgram(), CandidatePrograms(input.profiles, input.taxonomy),
                    JobPrograms(input.jobs, input.taxonomy), ProfileCvPrograms(input.profiles));
  }

  lemma RebuildProgramWellOrdered(input: RebuildInputs)
    requires UuidOperation(Rebuild(input))
    ensures WellOrdered(RebuildProgram(input))
  {
    RebuildBodyWellOrdered(input);
    SeedThenWellOrdered(RebuildBody(input), input.taxonomy);
  }

  lemma ProgramWellOrdered(o: Operation)
    requires UuidOperation(o)
    ensures WellOrdered(ProgramOf(o))
  {
    match o
    case SyncCandidate(c, t) => CandidateProgramWellOrdered(c, t);
    case SyncJob(j, t) => JobProgramWellOrdered(j, t);
    case SyncCv(cv) => CvProgramWellOrdered(cv);
    case ProjectLegacy(legacy) => LegacyProgramWellOrdered(legacy);
    case RemoveCv(cvId) => WellOrderedOne(DeleteCvBranch(cvId));
    case RemoveProfile(pid) => WellOrderedOne(DeleteProfileBranch(pid));
    case RemoveJob(jid) => WellOrderedOne(DeleteJob(jid));
    case Rebuild(input) => RebuildProgramWellOrdered(input);
  }

  /**
    Over every history of operations, each cut off after any statement and for any section and entry
    ids, the graph keeps the invariant.
   */
  lemma {:induction false} EveryHistoryKeepsInv(history: seq<CutRun>, g: Graph)
    requires Inv(g)
    requires forall i :: 0 <= i < |history| ==> UuidOperation(history[i].op)
    ensures Inv(StateAfter(history, g))
    decreases |history|
  {
    if history != [] {
      var last := history[|history| - 1];
      EveryHistoryKeepsInv(history[..|history| - 1], g);
      ProgramWellOrdered(last.op);
      var p := ProgramOf(last.op);
      WellOrderedPrefix(p, Min(last.cut, |p|));
      WellOrderedKeepsInv(p[..Min(last.cut, |p|)], StateAfter(history[..|history| - 1], g));
    }
  }

  /** When moreover no document's section ids continue each other, an entry never has two sections. */
  lemma {:induction false} EveryHistoryKeepsApart(history: seq<CutRun>, g: Graph)
    requires Inv(g) && Apart(g.cv.sections.Keys)
    requires forall i :: 0 <= i < |history| ==> UuidOperation(history[i].op) && ApartOperation(history[i].op)
    ensures Apart(StateAfter(history, g).cv.sections.Keys)
    decreases |history|
  {
    if history != [] {
      var last, before := history[|history| - 1], StateAfter(history[..|history| - 1], g);
      EveryHistoryKeepsApart(history[..|history| - 1], g);
      EveryHistoryKeepsInv(history[..|history| - 1], g);
      ProgramWellOrdered(last.op);
      ProgramApart(last.op);
      var p := ProgramOf(last.op);
      WellOrderedPrefix(p, Min(last.cut, |p|));
      WellOrderedKeepsApart(p[..Min(last.cut, |p|)], before);
    }
  }

  /** Every section merge of an operation is that of one of its documents. */
  lemma ProgramApart(o: Operation)
    requires ApartOperation(o)
    ensures forall s :: s in ProgramOf(o) ==> ApartRows(s)
  {
    hide SeedProgram, CandidateProgram, JobProgram, CvProgram, CandidatePrograms, JobPrograms, ProfileCvPrograms,
      ApartSections, SectionRows;
    match o
    case SyncCv(cv) => CvProgramApart(cv);
    case SyncCandidate(c, t) => CandidateMergesNoSections(c, t);
    case SyncJob(j, t) => JobMergesNoSections(j, t);
    case Rebuild(input) => RebuildProgramApart(input);
    case _ =>
  }

  lemma RebuildProgramApart(input: RebuildInputs)
    requires ApartOperation(Rebuild(input))
    ensures forall s :: s in RebuildProgram(input) ==> ApartRows(s)
  {
    hide CandidatePrograms, JobPrograms, ProfileCvPrograms, ApartSections;
    CandidatesMergeNoSections(input.profiles, input.taxonomy);
    JobsMergeNoSections(input.jobs, input.taxonomy);
    ProfileCvProgramsApart(input.profiles);
  }

  lemma CvProgramApart(cv: CvInput)
    requires ApartSections(cv.document.sections)
    ensures forall s :: s in CvProgram(cv) ==> ApartRows(s)
  {
    SectionRowsScoped(CvIdOf(cv), cv.document.sections);
  }

  lemma {:induction false} ProfileCvProgramsApart(profiles: seq<ReadyProfile>)
    requires forall i :: 0 <= i < |profiles| ==> ApartSource(profiles[i].source)
    ensures forall s :: s in ProfileCvPrograms(profiles) ==> ApartRows(s)
    decreases |profiles|
  {
    if profiles != [] {
      ProfileCvProgramsApart(profiles[..|profiles| - 1]);
      assert ApartSource(profiles[|profiles| - 1].source);
      match profiles[|profiles| - 1].source {
        case Structured(cv) => CvProgramApart(cv);
        case Legacy(legacy) =>
      }
    }
  }

  lemma CandidateMergesNoSections(c: CandidateInput, t: Taxonomy)
    ensures forall s :: s in CandidateProgram(c, t) ==> !s.MergeSections?
  {}

  lemma JobMergesNoSections(j: JobInput, t: Taxonomy)
    ensures forall s :: s in JobProgram(j, t) ==> !s.MergeSections?
  {}

  lemma {:induction false} CandidatesMergeNoSections(profiles: seq<ReadyProfile>, t: Taxonomy)
    ensures forall s :: s in CandidatePrograms(profiles, t) ==> !s.MergeSections?
    decreases |profiles|
  {
    hide CandidateProgram;
    if profiles != [] {
      CandidatesMergeNoSections(profiles[..|profiles| - 1], t);
      CandidateMergesNoSections(profiles[|profiles| - 1].candidate, t);
    }
  }

  lemma {:induction false} JobsMergeNoSections(jobs: seq<JobInput>, t: Taxonomy)
    ensures forall s :: s in JobPrograms(jobs, t) ==> !s.MergeSections?
    decreases |jobs|
  {
    hide JobProgram;
    if jobs != [] {
      JobsMergeNoSections(jobs[..|jobs| - 1], t);
      JobMergesNoSections(jobs[|jobs| - 1], t);
    }
  }

  lemma EmptyGraphInv()
    ensures Inv(EMPTY_GRAPH) && Apart(EMPTY_GRAPH.cv.sections.Keys)
  {}

  // ----- Deletes -----

  /** Deleting a key no CV carries changes nothing. */
  lemma DeleteAbsentCvIsNoop(g: Graph, cvId: Id)
    requires WellFormed(g) && cvId !in g.cv.cvs
    ensures Apply(DeleteCvBranch(cvId), g) == g
  {}

  /**
    A CV branch is removed only by its scoped key. In particular the bare attachment id, which is
    what `delete_cv_branch` documents, names no CV and removes nothing.
   */
  lemma DeleteCvBranchNeedsScopedKey(g: Graph, key: string, profileId: string, attachmentId: string)
    requires Inv(g) && Id(CvScope(profileId, attachmentId)) in g.cv.cvs
    ensures Id(CvScope(profileId, attachmentId)) !in Apply(DeleteCvBranch(Id(key)), g).cv.cvs
       <==> key == CvScope(profileId, attachmentId)
    ensures Colons(key) == 0 ==> Apply(DeleteCvBranch(Id(key)), g) == g
  {
    if Colons(key) == 0 {
      DeleteAbsentCvIsNoop(g, Id(key));
    }
  }

  /** By its scoped key, the whole branch goes and every other CV keeps its sections and entries. */
  lemma DeleteCvBranchExact(g: Graph, cvId: Id)
    requires Inv(g)
    ensures var r := Apply(DeleteCvBranch(cvId), g);
            && r.skill == g.skill
            && r.cv.cvs == g.cv.cvs - {cvId}
            && r.cv.hasSection == (set l | l in g.cv.hasSection && l.src != cvId)
            && r.cv.sections == g.cv.sections - Reached(g.cv.hasSection, {cvId})
            && r.cv.hasEntry == (set l | l in g.cv.hasEntry && l.src !in Reached(g.cv.hasSection, {cvId}))
  {
    OwnedIsClosed(g.cv, cvId);
  }

  /** Nothing a CV owns has another owner outside it. */
  lemma OwnedIsClosed(g: CvGraph, cvId: Id)
    requires CvWf(g) && Owned(g)
    ensures var secs := Reached(g.hasSection, {cvId});
            && (forall l :: l in g.hasSection && l.dst in secs ==> l.src == cvId)
            && (forall l :: l in g.hasEntry && l.dst in Reached(g.hasEntry, secs) ==> l.src in secs)
  {
    var secs := Reached(g.hasSection, {cvId});
    forall l | l in g.hasSection && l.dst in secs ensures l.src == cvId {
      OwnerUnique(l.src.text, cvId.text, l.dst.text);
    }
    forall l | l in g.hasEntry && l.dst in Reached(g.hasEntry, secs) ensures l.src in secs {
      var m :| m in g.hasEntry && m.src in secs && m.dst == l.dst;
      OwnerOfEntry(g, cvId, m, l);
    }
  }

  lemma OwnerOfEntry(g: CvGraph, cvId: Id, m: Link, l: Link)
    requires CvWf(g) && Owned(g) && m in g.hasEntry && l in g.hasEntry && m.dst == l.dst
    requires m.src in Reached(g.hasSection, {cvId})
    ensures l.src in Reached(g.hasSection, {cvId})
  {
    assert Link(cvId, m.src) in g.hasSection;
    var owner := SectionOwner(g, l.src);
    InScopeTransitive(cvId.text, m.src.text, l.dst.text);
    InScopeTransitive(owner.src.text, l.src.text, l.dst.text);
    OwnerUnique(cvId.text, owner.src.text, l.dst.text);
  }

  /** Profile deletion reaches a CV only over PROJECTS_TO: a CV whose edge a crash removed stays behind. */
  lemma DeleteProfileReachesOnlyActiveCv(g: Graph, pid: Id, cvId: Id)
    requires Inv(g) && pid in g.skill.candidates && cvId in g.cv.cvs
    ensures var r := Apply(DeleteProfileBranch(pid), g);
            && pid !in r.skill.candidates
            && (cvId !in r.cv.cvs <==> Link(cvId, pid) in g.projectsTo)
  {}
}
