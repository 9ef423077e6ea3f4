/** Sync inputs read from SQLite, and the statement program each sync, delete and clear issues. */
module SyncPrograms {
  import opened Common
  import opened Stamps
  import opened GraphModel
  import opened ScopedIds
  import opened Text

  // ----- Inputs -----

  datatype CandidateSkill = CandidateSkill(
    key: Key, confidence: real, years: Option<real>, proficiency: string, evidence: seq<string>, excluded: bool)
  datatype CandidateInput = CandidateInput(pid: Id, skills: seq<CandidateSkill>, updatedAt: PyDatetime)

  datatype JobSkill = JobSkill(key: Key, confidence: real, evidence: seq<string>)
  datatype JobExtraction = JobExtraction(
    title: string, company: string, location: Option<string>, workMode: string, seniority: string,
    required: seq<JobSkill>, preferred: seq<JobSkill>)
  datatype JobInput = JobInput(
    jid: Id, extraction: JobExtraction, quality: string, embedding: seq<real>, updatedAt: PyDatetime)

  datatype CvEntry = CvEntry(
    id: string, title: Option<string>, subtitle: Option<string>, dateText: Option<string>,
    body: string, bullets: seq<string>)
  /** Ordinals are positions: document validation demands contiguous ordinals from zero. */
  datatype CvSection = CvSection(id: string, heading: string, kind: string, entries: seq<CvEntry>)
  datatype CvDocument = CvDocument(attachmentId: string, sections: seq<CvSection>)
  datatype CvInput = CvInput(
    profileId: string, document: CvDocument, originalName: string, extractionVersion: string,
    sourceHash: Option<string>, updatedAt: PyDatetime, isActive: bool)

  /** Seed skills and approved relationships; taxonomy loading rejects an unknown endpoint. */
  datatype Taxonomy = Taxonomy(seedKeys: seq<Key>, related: seq<RelatedRow>)

  // ----- Parameter rows -----

  function NonExcluded(skills: seq<CandidateSkill>): seq<CandidateSkill> {
    if skills == [] then []
    else
      var last := skills[|skills| - 1];
      NonExcluded(skills[..|skills| - 1]) + if last.excluded then [] else [last]
  }

  function CandidateSkillRow(s: CandidateSkill): SkillRow {
    SkillRow(s.key, SkillRel(s.confidence, s.years, Some(s.proficiency), s.evidence))
  }

  function JobSkillRow(s: JobSkill): SkillRow {
    SkillRow(s.key, SkillRel(s.confidence, None, None, s.evidence))
  }

  function CandidateRows(c: CandidateInput): seq<SkillRow> {
    Map(CandidateSkillRow, NonExcluded(c.skills))
  }

  function RequiredRows(j: JobInput): seq<SkillRow> {
    Map(JobSkillRow, j.extraction.required)
  }

  function PreferredRows(j: JobInput): seq<SkillRow> {
    Map(JobSkillRow, j.extraction.preferred)
  }

  function JobNodeOf(j: JobInput): JobNode {
    var e := j.extraction;
    JobNode(e.title, e.company, e.location, e.workMode, e.seniority, j.quality, j.embedding, IsoUtc(j.updatedAt))
  }

  const PREVIEW_MAX_CHARS := 240

  function JoinBullets(bullets: seq<string>): string {
    if bullets == [] then ""
    else
      var front, last := JoinBullets(bullets[..|bullets| - 1]), bullets[|bullets| - 1];
      if IsBlank(last) then front
      else if forall b :: b in bullets[..|bullets| - 1] ==> IsBlank(b) then last
      else front + " " + last
  }

  /** The stripped body, else the non-blank bullets joined by spaces; at most 240 characters. */
  function EntryPreview(e: CvEntry): (p: string)
    ensures |p| <= PREVIEW_MAX_CHARS
  {
    var source := if Strip(e.body) != "" then Strip(e.body) else JoinBullets(e.bullets);
    source[..Min(|source|, PREVIEW_MAX_CHARS)]
  }

  function CvIdOf(cv: CvInput): Id {
    Id(CvScope(cv.profileId, cv.document.attachmentId))
  }

  function CvNodeOf(cv: CvInput): CvNode {
    CvNode(cv.originalName, cv.extractionVersion, Id(cv.document.attachmentId), cv.sourceHash, IsoUtc(cv.updatedAt))
  }

  function SectionRowOf(cvId: Id, section: CvSection, ordinal: nat): SectionRow {
    SectionRow(Id(ScopedSectionId(cvId.text, section.id)),
               SectionNode(section.heading, section.kind, ordinal, |section.entries|))
  }

  function EntryRowOf(cvId: Id, section: CvSection, e: CvEntry, ordinal: nat): EntryRow {
    EntryRow(Id(ScopedEntryId(cvId.text, section.id, e.id)), Id(ScopedSectionId(cvId.text, section.id)),
             EntryNode(ordinal, e.title, e.subtitle, e.dateText, EntryPreview(e)))
  }

  function SectionRows(cvId: Id, sections: seq<CvSection>): seq<SectionRow> {
    seq(|sections|, i requires 0 <= i < |sections| => SectionRowOf(cvId, sections[i], i))
  }

  function SectionEntryRows(cvId: Id, section: CvSection): seq<EntryRow> {
    seq(|section.entries|, i requires 0 <= i < |section.entries| => EntryRowOf(cvId, section, section.entries[i], i))
  }

  function EntryRows(cvId: Id, sections: seq<CvSection>): seq<EntryRow> {
    if sections == [] then []
    else EntryRows(cvId, sections[..|sections| - 1]) + SectionEntryRows(cvId, sections[|sections| - 1])
  }

  // ----- Programs: a statement with no rows is not issued -----

  function If(issued: bool, s: Stmt): seq<Stmt> {
    if issued then [s] else []
  }

  function SeedProgram(t: Taxonomy): seq<Stmt> {
    If(t.seedKeys != [], MergeSeedSkills(t.seedKeys)) + If(t.related != [], MergeRelated(t.related))
  }

  function CandidateProgram(c: CandidateInput, t: Taxonomy): seq<Stmt> {
    [MergeCandidate(c.pid, IsoUtc(c.updatedAt)), ClearHasSkill(c.pid)]
    + If(CandidateRows(c) != [], MergeSkillEdges(HasSkill, c.pid, CandidateRows(c)))
    + SeedProgram(t)
  }

  function JobProgram(j: JobInput, t: Taxonomy): seq<Stmt> {
    [MergeJob(j.jid, JobNodeOf(j)), ClearJobSkills(j.jid)]
    + If(RequiredRows(j) != [], MergeSkillEdges(Requires, j.jid, RequiredRows(j)))
    + If(PreferredRows(j) != [], MergeSkillEdges(Prefers, j.jid, PreferredRows(j)))
    + SeedProgram(t)
  }

  function ProjectionProgram(cvId: Id, pid: Id, isActive: bool): seq<Stmt> {
    if isActive then [ClearAllProjectsTo(pid), MergeProjectsTo(cvId, pid)] else [ClearThisCvProjectsTo(cvId)]
  }

  function CvProgram(cv: CvInput): seq<Stmt> {
    var cvId := CvIdOf(cv);
    var sections, entries := SectionRows(cvId, cv.document.sections), EntryRows(cvId, cv.document.sections);
    [MergeCv(cvId, CvNodeOf(cv)), ClearCvOwned(cvId)]
    + If(sections != [], MergeSections(cvId, sections))
    + If(entries != [], MergeEntries(entries))
    + ProjectionProgram(cvId, Id(cv.profileId), cv.isActive)
  }

  /** A ready profile whose attachment has no structured document yet. */
  datatype LegacyCv = LegacyCv(
    profileId: string, attachmentId: string, originalName: string, sourceHash: string, updatedAt: PyDatetime)

  const LEGACY_EXTRACTION_VERSION := "legacy-reprocess-required"

  function LegacyCvId(cv: LegacyCv): Id {
    Id(CvScope(cv.profileId, cv.attachmentId))
  }

  function LegacyCvNode(cv: LegacyCv): CvNode {
    CvNode(cv.originalName, LEGACY_EXTRACTION_VERSION, Id(cv.attachmentId), Some(cv.sourceHash), IsoUtc(cv.updatedAt))
  }

  function LegacyProgram(cv: LegacyCv): seq<Stmt> {
    [MergeCv(LegacyCvId(cv), LegacyCvNode(cv))] + ProjectionProgram(LegacyCvId(cv), Id(cv.profileId), true)
  }

  function ClearProgram(): seq<Stmt> {
    [ClearEntries, ClearSections, ClearCvs, ClearCandidates, ClearJobs, ClearSkills]
  }

  /** One ready profile with its structured CV, or its metadata-only stand-in. */
  datatype ProfileCv = Structured(cv: CvInput) | Legacy(legacy: LegacyCv)
  datatype ReadyProfile = ReadyProfile(candidate: CandidateInput, source: ProfileCv)
  datatype RebuildInputs = RebuildInputs(profiles: seq<ReadyProfile>, jobs: seq<JobInput>, taxonomy: Taxonomy)

  function ProfileCvProgram(source: ProfileCv): seq<Stmt> {
    match source
    case Structured(cv) => CvProgram(cv)
    case Legacy(legacy) => LegacyProgram(legacy)
  }

  function CandidatePrograms(profiles: seq<ReadyProfile>, t: Taxonomy): seq<Stmt> {
    if profiles == [] then []
    else CandidatePrograms(profiles[..|profiles| - 1], t) + CandidateProgram(profiles[|profiles| - 1].candidate, t)
  }

  function JobPrograms(jobs: seq<JobInput>, t: Taxonomy): seq<Stmt> {
    if jobs == [] then []
    else JobPrograms(jobs[..|jobs| - 1], t) + JobProgram(jobs[|jobs| - 1], t)
  }

  function ProfileCvPrograms(profiles: seq<ReadyProfile>): seq<Stmt> {
    if profiles == [] then []
    else ProfileCvPrograms(profiles[..|profiles| - 1]) + ProfileCvProgram(profiles[|profiles| - 1].source)
  }

  function RebuildBody(input: RebuildInputs): seq<Stmt> {
    ClearProgram()
    + CandidatePrograms(input.profiles, input.taxonomy)
    + JobPrograms(input.jobs, input.taxonomy)
    + ProfileCvPrograms(input.profiles)
  }

  /** Clear, candidates, jobs, CVs; the seed alone when there is nothing to project. */
  function RebuildProgram(input: RebuildInputs): seq<Stmt> {
    if input.profiles == [] && input.jobs == [] then RebuildBody(input) + SeedProgram(input.taxonomy)
    else RebuildBody(input)
  }

  // ----- Demands on the inputs that validation upstream provides or leaves open -----

  /** Profile and attachment ids are UUIDs, which hold no colon. */
  predicate UuidParts(cv: CvInput) {
    Colons(cv.profileId) == 0 && Colons(cv.document.attachmentId) == 0
  }

  /** No section id continues another after a colon: exactly then no two sections can share an entry id. */
  ghost predicate ApartSections(sections: seq<CvSection>) {
    forall i, j :: 0 <= i < |sections| && 0 <= j < |sections| ==> !InScope(sections[i].id, sections[j].id)
  }

  // ----- Rows are in scope -----

  lemma CvIdColons(cv: CvInput)
    requires UuidParts(cv)
    ensures Colons(CvIdOf(cv).text) == 1
  {
    ColonsScoped(cv.profileId, cv.document.attachmentId);
  }

  lemma SectionRowsScoped(cvId: Id, sections: seq<CvSection>)
    ensures forall r :: r in SectionRows(cvId, sections) ==> InScope(cvId.text, r.id.text)
    ensures ApartSections(sections) ==> Apart(SectionIds(SectionRows(cvId, sections)))
  {
    var rows := SectionRows(cvId, sections);
    forall r | r in rows ensures InScope(cvId.text, r.id.text) {
      var i :| 0 <= i < |rows| && rows[i] == r;
      ColonsScoped(cvId.text, sections[i].id);
    }
    if ApartSections(sections) {
      forall a, b | a in SectionIds(rows) && b in SectionIds(rows) ensures !InScope(a.text, b.text) {
        var i :| 0 <= i < |rows| && rows[i].id == a;
        var j :| 0 <= j < |rows| && rows[j].id == b;
        ScopedKeepsScope(cvId.text, sections[i].id, sections[j].id);
      }
    }
  }

  lemma {:induction false} EntryRowsScoped(cvId: Id, sections: seq<CvSection>)
    ensures forall r :: r in EntryRows(cvId, sections) ==>
              InScope(r.sectionId.text, r.id.text) && r.sectionId in SectionIds(SectionRows(cvId, sections))
    decreases |sections|
  {
    if sections != [] {
      var front, last := sections[..|sections| - 1], sections[|sections| - 1];
      EntryRowsScoped(cvId, front);
      var all := SectionRows(cvId, sections);
      assert all == SectionRows(cvId, front) + [SectionRowOf(cvId, last, |front|)];
      forall r | r in SectionEntryRows(cvId, last)
        ensures InScope(r.sectionId.text, r.id.text) && r.sectionId == SectionRowOf(cvId, last, |front|).id
      {
        var rows := SectionEntryRows(cvId, last);
        var i :| 0 <= i < |rows| && rows[i] == r;
        ColonsScoped(r.sectionId.text, last.entries[i].id);
      }
      assert all[|front|] in all;
      assert forall r :: r in SectionRows(cvId, front) ==> r in all;
    }
  }
}
