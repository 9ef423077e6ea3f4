/** What a synced CV branch says in terms of the document it was made from, field by field. */
module GraphCvMeaning {
  import opened Common
  import opened Text
  import opened Stamps
  import opened GraphModel
  import opened ScopedIds
  import opened SyncPrograms
  import opened GraphSync
  import opened GraphInvariant
  import opened GraphRecovery
  import opened GraphMeaning

  /** The last section of its id. */
  ghost predicate LastSection(sections: seq<CvSection>, i: nat) {
    i < |sections| && forall j :: i < j < |sections| ==> sections[j].id != sections[i].id
  }

  /** `profile:attachment:section`. */
  function SectionIdText(cv: CvInput, i: nat): string
    requires i < |cv.document.sections|
  {
    cv.profileId + ":" + cv.document.attachmentId + ":" + cv.document.sections[i].id
  }

  function EntryIdText(cv: CvInput, i: nat, k: nat): string
    requires i < |cv.document.sections| && k < |cv.document.sections[i].entries|
  {
    SectionIdText(cv, i) + ":" + cv.document.sections[i].entries[k].id
  }

  lemma {:induction false} SectionRowsMean(m: map<Id, SectionNode>, rows: seq<SectionRow>, i: nat)
    requires i < |rows| && forall j :: i < j < |rows| ==> rows[j].id != rows[i].id
    ensures rows[i].id in MergeSectionRows(m, rows) && MergeSectionRows(m, rows)[rows[i].id] == rows[i].node
    decreases |rows|
  {
    if i < |rows| - 1 {
      assert rows[..|rows| - 1][i] == rows[i];
      SectionRowsMean(m, rows[..|rows| - 1], i);
    }
  }

  lemma {:induction false} EntryRowsMean(m: map<Id, EntryNode>, rows: seq<EntryRow>, sections: set<Id>, i: nat)
    requires i < |rows| && rows[i].sectionId in sections && forall j :: i < j < |rows| ==> rows[j].id != rows[i].id
    ensures rows[i].id in MergeEntryRows(m, rows, sections)
    ensures MergeEntryRows(m, rows, sections)[rows[i].id] == rows[i].node
    decreases |rows|
  {
    if i < |rows| - 1 {
      assert rows[..|rows| - 1][i] == rows[i];
      EntryRowsMean(m, rows[..|rows| - 1], sections, i);
    }
  }

  /** The number of entries before a section. */
  function EntriesBefore(sections: seq<CvSection>, i: nat): nat
    requires i <= |sections|
  {
    if i == 0 then 0 else EntriesBefore(sections, i - 1) + |sections[i - 1].entries|
  }

  lemma {:induction false} EntriesBeforeFront(sections: seq<CvSection>, i: nat)
    requires i < |sections|
    ensures EntriesBefore(sections, i) == EntriesBefore(sections[..|sections| - 1], i)
  {
    if i > 0 {
      EntriesBeforeFront(sections, i - 1);
    }
  }

  /** Entry `k` of section `i` is row `EntriesBefore(i) + k`. */
  lemma {:induction false} EntryRowAt(cvId: Id, sections: seq<CvSection>, i: nat, k: nat)
    requires i < |sections| && k < |sections[i].entries|
    ensures |EntryRows(cvId, sections)| == EntriesBefore(sections, |sections|)
    ensures EntriesBefore(sections, i) + k < |EntryRows(cvId, sections)|
    ensures EntryRows(cvId, sections)[EntriesBefore(sections, i) + k]
            == EntryRowOf(cvId, sections[i], sections[i].entries[k], k)
    decreases |sections|
  {
    var front, last := sections[..|sections| - 1], |sections| - 1;
    EntryRowsLength(cvId, front);
    EntriesBeforeFront(sections, last);
    if i < last {
      EntryRowAt(cvId, front, i, k);
      EntriesBeforeFront(sections, i);
    }
  }

  lemma {:induction false} EntryRowsLength(cvId: Id, sections: seq<CvSection>)
    ensures |EntryRows(cvId, sections)| == EntriesBefore(sections, |sections|)
    decreases |sections|
  {
    if sections != [] {
      EntryRowsLength(cvId, sections[..|sections| - 1]);
      EntriesBeforeFront(sections, |sections| - 1);
    }
  }

  /** `profile:attachment`. */
  function CvIdText(cv: CvInput): string {
    cv.profileId + ":" + cv.document.attachmentId
  }

  lemma IdTexts(cv: CvInput)
    ensures CvIdOf(cv).text == CvIdText(cv)
    ensures forall i: nat :: i < |cv.document.sections| ==>
              ScopedSectionId(CvIdOf(cv).text, cv.document.sections[i].id) == SectionIdText(cv, i)
  {}

  predicate ShowsSection(node: SectionNode, section: CvSection, i: nat) {
    && node.heading == section.heading && node.kind == section.kind && node.ordinal == i
    && node.entryCount == |section.entries|
  }

  predicate ShowsEntry(node: EntryNode, e: CvEntry, k: nat) {
    && node.ordinal == k && node.title == e.title && node.subtitle == e.subtitle && node.dateText == e.dateText
    && node.preview == EntryPreview(e)
  }

  /** No entry after entry `k` of section `i` has its identity. */
  ghost predicate LastEntry(cv: CvInput, i: nat, k: nat) {
    && i < |cv.document.sections| && k < |cv.document.sections[i].entries|
    && forall a: nat, b: nat ::
         a < |cv.document.sections| && b < |cv.document.sections[a].entries| && (a > i || (a == i && b > k)) ==>
           EntryIdText(cv, a, b) != EntryIdText(cv, i, k)
  }

  lemma SectionsMean(cv: CvInput, g: Graph)
    ensures var r := CvResult(cv, g);
            && (forall s :: Link(CvIdOf(cv), s) in r.hasSection <==>
                  exists i: nat :: i < |cv.document.sections| && s == Id(SectionIdText(cv, i)))
            && (forall i: nat :: LastSection(cv.document.sections, i) ==>
                  && Id(SectionIdText(cv, i)) in r.sections
                  && ShowsSection(r.sections[Id(SectionIdText(cv, i))], cv.document.sections[i], i))
  {
    var cvId, sections := CvIdOf(cv), cv.document.sections;
    var rows, r := SectionRows(cvId, sections), CvResult(cv, g);
    IdTexts(cv);
    assert forall i: nat :: i < |sections| ==> rows[i].id == Id(SectionIdText(cv, i));
    forall s
      ensures Link(cvId, s) in r.hasSection <==> exists i: nat :: i < |sections| && s == Id(SectionIdText(cv, i))
    {
      if i: nat :| i < |sections| && s == Id(SectionIdText(cv, i)) {
        assert rows[i] in rows;
      }
    }
    forall i: nat | LastSection(sections, i)
      ensures Id(SectionIdText(cv, i)) in r.sections
      ensures ShowsSection(r.sections[Id(SectionIdText(cv, i))], sections[i], i)
    {
      forall j | i < j < |rows| ensures rows[j].id != rows[i].id {
        if rows[j].id == rows[i].id {
          ScopedInjective(cvId.text, sections[j].id, sections[i].id);
        }
      }
      SectionRowsMean(map[], rows, i);
    }
  }

  /** Every row is the row of some entry. */
  lemma {:induction false} EntryRowFrom(cvId: Id, sections: seq<CvSection>, n: nat) returns (i: nat, k: nat)
    requires n < |EntryRows(cvId, sections)|
    ensures i < |sections| && k < |sections[i].entries| && n == EntriesBefore(sections, i) + k
    decreases |sections|
  {
    var front, last := sections[..|sections| - 1], |sections| - 1;
    EntryRowsLength(cvId, front);
    EntriesBeforeFront(sections, last);
    if n < |EntryRows(cvId, front)| {
      i, k := EntryRowFrom(cvId, front, n);
      EntriesBeforeFront(sections, i);
    } else {
      i, k := last, n - |EntryRows(cvId, front)|;
    }
  }

  lemma {:induction false} EntriesBeforeRises(sections: seq<CvSection>, i: nat, j: nat)
    requires i < j <= |sections|
    ensures EntriesBefore(sections, i) + |sections[i].entries| <= EntriesBefore(sections, j)
    decreases j
  {
    if i + 1 < j {
      EntriesBeforeRises(sections, i, j - 1);
    }
  }

  /** The row of an entry: its section's identity, its own, and its fields. */
  predicate RowOfEntry(row: EntryRow, cv: CvInput, i: nat, k: nat)
    requires i < |cv.document.sections| && k < |cv.document.sections[i].entries|
  {
    && row.id == Id(EntryIdText(cv, i, k)) && row.sectionId == Id(SectionIdText(cv, i))
    && ShowsEntry(row.node, cv.document.sections[i].entries[k], k)
  }

  lemma EntryRowMeans(cv: CvInput, i: nat, k: nat)
    requires i < |cv.document.sections| && k < |cv.document.sections[i].entries|
    ensures var rows, n := EntryRows(CvIdOf(cv), cv.document.sections), EntriesBefore(cv.document.sections, i) + k;
            n < |rows| && RowOfEntry(rows[n], cv, i, k)
  {
    EntryRowAt(CvIdOf(cv), cv.document.sections, i, k);
    IdTexts(cv);
  }

  /** After the row of the last entry of its identity no row has that identity. */
  lemma LastEntryRow(cv: CvInput, i: nat, k: nat, m: nat)
    requires LastEntry(cv, i, k)
    requires EntriesBefore(cv.document.sections, i) + k < m < |EntryRows(CvIdOf(cv), cv.document.sections)|
    ensures EntryRows(CvIdOf(cv), cv.document.sections)[m].id != Id(EntryIdText(cv, i, k))
  {
    hide EntryRows, ShowsEntry, EntryIdText, SectionIdText;
    var a, b := EntryRowFrom(CvIdOf(cv), cv.document.sections, m);
    EntryRowMeans(cv, a, b);
    if a < i {
      EntriesBeforeRises(cv.document.sections, a, i);
    }
  }

  lemma EntryNodeMeans(cv: CvInput, g: Graph, i: nat, k: nat)
    requires LastEntry(cv, i, k)
    ensures var e, r := Id(EntryIdText(cv, i, k)), CvResult(cv, g);
            e in r.entries && ShowsEntry(r.entries[e], cv.document.sections[i].entries[k], k)
  {
    var rows := EntryRows(CvIdOf(cv), cv.document.sections);
    var n := EntriesBefore(cv.document.sections, i) + k;
    EntryRowMeans(cv, i, k);
    hide EntryRows, ShowsEntry, EntryIdText, SectionIdText, LastEntry, MergeEntryRows;
    forall m | n < m < |rows| ensures rows[m].id != rows[n].id {
      LastEntryRow(cv, i, k, m);
    }
    assert rows[n] in rows;
    EntryRowsMean(map[], rows, set row | row in rows :: row.sectionId, n);
    hide WithSections;
  }

  /** `e` is the identity of entry `k` of section `a`, which has the identity of section `i`. */
  predicate EntryUnder(cv: CvInput, i: nat, a: nat, k: nat, e: Id)
    requires i < |cv.document.sections|
  {
    && a < |cv.document.sections| && k < |cv.document.sections[a].entries|
    && SectionIdText(cv, a) == SectionIdText(cv, i) && e == Id(EntryIdText(cv, a, k))
  }

  /** Below each of its sections the synced CV has exactly the entries of the document. */
  lemma EntryLinksMean(cv: CvInput, g: Graph, i: nat, e: Id)
    requires UuidParts(cv) && Inv(g) && i < |cv.document.sections|
    ensures Link(Id(SectionIdText(cv, i)), e) in CvResult(cv, g).hasEntry <==>
              exists a: nat, k: nat :: EntryUnder(cv, i, a, k, e)
  {
    var cvId, sections, s := CvIdOf(cv), cv.document.sections, Id(SectionIdText(cv, i));
    var rows := EntryRows(cvId, sections);
    SectionsMean(cv, g);
    OwnEntriesAreRows(cv, g, s, e);
    hide EntryRows, SectionRows, CvResult, EntryIdText, SectionIdText, Inv, UuidParts, ShowsEntry;
    if Link(s, e) in AllEntryLinks(rows) {
      var row :| row in rows && row.sectionId == s && row.id == e;
      var n :| 0 <= n < |rows| && rows[n] == row;
      var a, k := EntryRowFrom(cvId, sections, n);
      EntryRowMeans(cv, a, k);
      assert EntryUnder(cv, i, a, k, e);
    }
    if a: nat, k: nat :| EntryUnder(cv, i, a, k, e) {
      EntryRowMeans(cv, a, k);
      assert rows[EntriesBefore(sections, a) + k] in rows;
    }
  }

  // ----- The preview -----

  /** The parts are the bullets that are not blank, found at these positions. */
  ghost predicate InkAt(at: seq<nat>, parts: seq<string>, bullets: seq<string>) {
    && Positions(at, bullets, (b: string) => !IsBlank(b)) && |parts| == |at|
    && forall n :: 0 <= n < |at| ==> at[n] < |bullets| && parts[n] == bullets[at[n]]
  }

  lemma InkGrows(at: seq<nat>, parts: seq<string>, bullets: seq<string>, last: string)
    requires InkAt(at, parts, bullets)
    ensures if IsBlank(last) then InkAt(at, parts, bullets + [last])
            else InkAt(at + [|bullets|], parts + [last], bullets + [last])
  {
    hide IsBlank, Positions;
    PositionsGrow(at, bullets, last, (b: string) => !IsBlank(b));
    assert at + [] == at;
  }

  /** The bullets that are not blank, joined by spaces. */
  lemma {:induction false} JoinedBullets(bullets: seq<string>) returns (at: seq<nat>, parts: seq<string>)
    ensures InkAt(at, parts, bullets) && JoinBullets(bullets) == Spaced(parts)
    decreases |bullets|
  {
    if bullets == [] {
      at, parts := [], [];
    } else {
      var front, last := bullets[..|bullets| - 1], bullets[|bullets| - 1];
      at, parts := JoinedBullets(front);
      assert front + [last] == bullets;
      InkGrows(at, parts, front, last);
      NoneKept(front, at) by { assert InkAt(at, parts, front); }
      SpacedAppend(parts, last);
      hide Positions, Spaced, IsBlank, InkAt;
      if !IsBlank(last) {
        at, parts := at + [|front|], parts + [last];
      }
    }
  }

  lemma NoneKept(bullets: seq<string>, at: seq<nat>)
    requires Positions(at, bullets, (b: string) => !IsBlank(b))
    ensures at == [] <==> forall b :: b in bullets ==> IsBlank(b)
  {
    hide IsBlank;
    if at != [] {
      assert at[0] in at && bullets[at[0]] in bullets;
    } else {
      forall b | b in bullets ensures IsBlank(b) {
        var n: nat :| n < |bullets| && bullets[n] == b;
        assert n !in at;
      }
    }
  }

  /** At most 240 characters of the body between its outer white space; of the joined bullets when the body is blank. */
  lemma PreviewMeans(e: CvEntry)
    ensures !IsBlank(e.body) ==>
              exists i: nat, j: nat ::
                && i < j <= |e.body| && IsBlank(e.body[..i]) && IsBlank(e.body[j..])
                && !IsSpace(e.body[i]) && !IsSpace(e.body[j - 1])
                && EntryPreview(e) == e.body[i..if j - i <= 240 then j else i + 240]
    ensures IsBlank(e.body) ==>
              exists at: seq<nat>, parts: seq<string> ::
                && InkAt(at, parts, e.bullets)
                && EntryPreview(e) == Spaced(parts)[..if |Spaced(parts)| <= 240 then |Spaced(parts)| else 240]
  {
    StripEmptyIffBlank(e.body);
    if IsBlank(e.body) {
      var at, parts := JoinedBullets(e.bullets);
    } else {
      var i, j := StripMeans(e.body);
      assert EntryPreview(e) == e.body[i..j][..Min(j - i, 240)];
    }
  }

  // ----- The whole sync -----

  /** An active CV alone projects to its Candidate, if that is there; an archived one to none; nothing else moves. */
  ghost predicate ProjectsAs(after: set<Link>, before: set<Link>, cvId: Id, pid: Id, isActive: bool, present: bool) {
    forall l :: l in after <==>
      if isActive then (if l.dst == pid then present && l.src == cvId else l in before)
      else l in before && l.src != cvId
  }

  /** The node carries the document's data. */
  predicate ShowsCv(node: CvNode, cv: CvInput) {
    && node.originalName == cv.originalName && node.extractionVersion == cv.extractionVersion
    && node.attachmentId == Id(cv.document.attachmentId) && node.sourceHash == cv.sourceHash
    && WrittenAs(node.stamp, cv.updatedAt)
  }

  /** The CV owns exactly the document's sections, each with the fields of the last of its identity. */
  ghost predicate ShowsSections(r: CvGraph, cv: CvInput) {
    && (forall s :: Link(Id(CvIdText(cv)), s) in r.hasSection <==>
          exists i: nat :: i < |cv.document.sections| && s == Id(SectionIdText(cv, i)))
    && (forall i: nat :: LastSection(cv.document.sections, i) ==>
          && Id(SectionIdText(cv, i)) in r.sections
          && ShowsSection(r.sections[Id(SectionIdText(cv, i))], cv.document.sections[i], i))
  }

  /** Below each of them are exactly the document's entries, each with the fields of the last of its identity. */
  ghost predicate ShowsEntries(r: CvGraph, cv: CvInput) {
    && (forall i: nat, e :: i < |cv.document.sections| ==>
          (Link(Id(SectionIdText(cv, i)), e) in r.hasEntry <==> exists a: nat, k: nat :: EntryUnder(cv, i, a, k, e)))
    && (forall i: nat, k: nat :: LastEntry(cv, i, k) ==>
          && Id(EntryIdText(cv, i, k)) in r.entries
          && ShowsEntry(r.entries[Id(EntryIdText(cv, i, k))], cv.document.sections[i].entries[k], k))
  }

  lemma ResultShows(cv: CvInput, g: Graph)
    requires UuidParts(cv) && Inv(g)
    ensures ShowsSections(CvResult(cv, g), cv) && ShowsEntries(CvResult(cv, g), cv)
  {
    SectionsMean(cv, g);
    IdTexts(cv);
    hide CvResult, Inv, UuidParts, SectionIdText, EntryIdText, ShowsSection, ShowsEntry, EntryUnder,
      LastSection;
    forall i: nat, e | i < |cv.document.sections|
      ensures Link(Id(SectionIdText(cv, i)), e) in CvResult(cv, g).hasEntry <==>
                exists a: nat, k: nat :: EntryUnder(cv, i, a, k, e)
    {
      EntryLinksMean(cv, g, i, e);
    }
    forall i: nat, k: nat | LastEntry(cv, i, k)
      ensures Id(EntryIdText(cv, i, k)) in CvResult(cv, g).entries
      ensures ShowsEntry(CvResult(cv, g).entries[Id(EntryIdText(cv, i, k))], cv.document.sections[i].entries[k], k)
    {
      assert LastEntry(cv, i, k);
      EntryNodeMeans(cv, g, i, k);
    }
  }

  /**
    After a complete CV sync, on any reachable graph: the CV node carries the document's data, it owns
    exactly the sections and below them exactly the entries of the document, each with the fields of the
    last of its identity, and it projects as its active flag demands.
   */
  lemma CvSyncMeans(cv: CvInput, g: Graph)
    requires UuidParts(cv) && Inv(g)
    ensures var r, c, pid := RunAll(CvProgram(cv), g), Id(CvIdText(cv)), Id(cv.profileId);
            && c in r.cv.cvs && ShowsCv(r.cv.cvs[c], cv) && ShowsSections(r.cv, cv) && ShowsEntries(r.cv, cv)
            && ProjectsAs(r.projectsTo, g.projectsTo, c, pid, cv.isActive, pid in g.skill.candidates)
            && r.skill == g.skill
  {
    SyncCvExact(cv, g);
    ResultShows(cv, g);
    IdTexts(cv);
    assert CvResult(cv, g).cvs[CvIdOf(cv)] == CvNodeOf(cv);
    hide RunAll, CvProgram, ShowsSections, ShowsEntries;
  }
}
