/** What the three reading modes offer as candidates, and when their identities are unique. */
module CvCandidates {
  import opened Common
  import opened Json
  import opened Cursor
  import opened CvReader
  import opened CvWalk

  /** `blob` is the joined text a search looks at. */
  datatype Entry = Entry(id: Codes, head: Head, body: Codes, bullets: seq<Codes>, blob: Codes)
  datatype Section = Section(id: Codes, entries: seq<Entry>)
  datatype Chunk = Chunk(ordinal: nat, text: Codes)

  function EntryIdentity(id: Codes): Codes {
    ToCodes("entry:") + id
  }

  function ChunkIdentity(ordinal: nat): Codes {
    ToCodes("chunk:") + Digits(ordinal)
  }

  function EntryText(e: Entry): Codes {
    (match e.head.title case Some(t) => t case None => []) + (e.body + Flat(e.bullets))
  }

  function EntryCandidate(e: Entry): Candidate {
    Candidate(EntryIdentity(e.id), Record(map[Body := e.body], e.head, Some(e.bullets), false), EntryText(e))
  }

  function EntryMatch(e: Entry): Candidate {
    var excerpt := Prefix(e.blob, EXCERPT_CHARS);
    Candidate(EntryIdentity(e.id), Record(map[Body := e.body, Excerpt := excerpt], e.head, Some(e.bullets), false),
              excerpt + EntryText(e))
  }

  function ChunkCandidate(c: Chunk): Candidate {
    Candidate(ChunkIdentity(c.ordinal), Record(map[Text := c.text], NO_HEAD, None, false), c.text)
  }

  function ChunkMatch(c: Chunk): Candidate {
    var excerpt := Prefix(c.text, EXCERPT_CHARS);
    Candidate(ChunkIdentity(c.ordinal), Record(map[Text := c.text, Excerpt := excerpt], NO_HEAD, None, false), excerpt)
  }

  // ----- What a candidate shows -----

  /** The first 400 characters. */
  predicate IsExcerpt(excerpt: Codes, whole: Codes) {
    if |whole| <= 400 then excerpt == whole else excerpt == whole[..400]
  }

  /** Title if any, body and bullets, one after another. */
  ghost predicate IsEntryText(text: Codes, e: Entry) {
    Joins(text, (if e.head.title.Some? then [e.head.title.value] else []) + [e.body] + e.bullets)
  }

  ghost predicate ShowsEntry(c: Candidate, e: Entry) {
    && c.identity == ToCodes("entry:") + e.id && IsEntryText(c.text, e)
    && c.record == Record(map[Body := e.body], e.head, Some(e.bullets), false)
  }

  predicate ShowsChunk(c: Candidate, chunk: Chunk) {
    && c.identity == ToCodes("chunk:") + Digits(chunk.ordinal) && c.text == chunk.text
    && c.record == Record(map[Text := chunk.text], Head(None, None, None, None), None, false)
  }

  /** A found row shows its excerpt as well, charged in front of an entry's text and instead of a chunk's. */
  ghost predicate ShowsRow(c: Candidate, row: Row) {
    exists excerpt, rest :: c.text == excerpt + rest && ShowsRowWith(c, row, excerpt, rest)
  }

  ghost predicate ShowsRowWith(c: Candidate, row: Row, excerpt: Codes, rest: Codes) {
    match row
    case EntryRow(e) =>
      && c.identity == ToCodes("entry:") + e.id && IsExcerpt(excerpt, e.blob) && IsEntryText(rest, e)
      && c.record == Record(map[Body := e.body, Excerpt := excerpt], e.head, Some(e.bullets), false)
    case ChunkRow(k) =>
      && c.identity == ToCodes("chunk:") + Digits(k.ordinal) && IsExcerpt(excerpt, k.text) && rest == []
      && c.record == Record(map[Text := k.text, Excerpt := excerpt], Head(None, None, None, None), None, false)
  }

  lemma {:induction false} FlatJoins(parts: seq<Codes>)
    ensures Joins(Flat(parts), parts)
  {
    if parts == [] {
      JoinsNothing<Code>();
    } else {
      FlatJoins(parts[..|parts| - 1]);
      JoinsMore(Flat(parts[..|parts| - 1]), parts[..|parts| - 1], parts[|parts| - 1]);
      assert parts[..|parts| - 1] + [parts[|parts| - 1]] == parts;
    }
  }

  lemma {:induction false} FlatAppend(a: seq<Codes>, b: seq<Codes>)
    ensures Flat(a + b) == Flat(a) + Flat(b)
    decreases |b|
  {
    if b == [] {
      assert a + b == a;
    } else {
      FlatAppend(a, b[..|b| - 1]);
      assert (a + b)[..|a + b| - 1] == a + b[..|b| - 1];
    }
  }

  lemma EntryTextJoins(e: Entry)
    ensures IsEntryText(EntryText(e), e)
  {
    var head: seq<Codes> := if e.head.title.Some? then [e.head.title.value] else [];
    var parts := head + [e.body] + e.bullets;
    FlatAppend(head, [e.body]);
    FlatAppend(head + [e.body], e.bullets);
    assert Flat(head) == (if e.head.title.Some? then e.head.title.value else []) && Flat([e.body]) == e.body;
    assert Flat(parts) == EntryText(e);
    FlatJoins(parts);
  }

  lemma EntryShows(e: Entry)
    ensures ShowsEntry(EntryCandidate(e), e)
  {
    hide EntryText, IsEntryText, ToCodes;
    EntryTextJoins(e);
  }

  lemma ChunkShows(c: Chunk)
    ensures ShowsChunk(ChunkCandidate(c), c)
  {
    hide ToCodes, Digits;
  }

  lemma MatchShows(row: Row)
    ensures ShowsRow(RowMatch(row), row)
  {
    hide EntryText, IsEntryText, ToCodes;
    match row
    case EntryRow(e) =>
      EntryTextJoins(e);
      var excerpt := Prefix(e.blob, EXCERPT_CHARS);
      assert ShowsRowWith(RowMatch(row), row, excerpt, EntryText(e));
    case ChunkRow(c) =>
      var excerpt := Prefix(c.text, EXCERPT_CHARS);
      assert excerpt + [] == excerpt && ShowsRowWith(RowMatch(row), row, excerpt, []);
  }

  ghost predicate ShowsEntries(cs: seq<Candidate>, es: seq<Entry>) {
    |cs| == |es| && forall k :: 0 <= k < |es| ==> ShowsEntry(cs[k], es[k])
  }

  lemma EntriesShow(es: seq<Entry>)
    ensures ShowsEntries(Map(EntryCandidate, es), es)
  {
    hide EntryCandidate, ShowsEntry;
    forall k | 0 <= k < |es| ensures ShowsEntry(EntryCandidate(es[k]), es[k]) {
      EntryShows(es[k]);
    }
  }

  method SectionCandidates(sections: seq<Section>, id: Codes) returns (r: Option<seq<Candidate>>)
    ensures r.None? <==> forall i :: 0 <= i < |sections| ==> sections[i].id != id
    ensures r.Some? ==> exists i :: 0 <= i < |sections| && sections[i].id == id
                          && (forall j :: 0 <= j < i ==> sections[j].id != id)
                          && r.value == Map(EntryCandidate, sections[i].entries)
                          && ShowsEntries(r.value, sections[i].entries)
  {
    for i := 0 to |sections|
      invariant forall j :: 0 <= j < i ==> sections[j].id != id
    {
      if sections[i].id == id {
        var entries := sections[i].entries;
        var out: seq<Candidate> := [];
        for k := 0 to |entries|
          invariant out == Map(EntryCandidate, entries[..k])
        {
          out := out + [EntryCandidate(entries[k])];
        }
        assert entries[..|entries|] == entries;
        EntriesShow(entries);
        return Some(out);
      }
    }
    r := None;
  }

  function FromOrdinal(rows: seq<Chunk>, ordinal: nat): seq<Chunk> {
    if rows == [] then []
    else
      var front, last := rows[..|rows| - 1], rows[|rows| - 1];
      FromOrdinal(front, ordinal) + if last.ordinal >= ordinal then [last] else []
  }

  /** The candidates show exactly the chunks at or after the ordinal, in order. */
  ghost predicate ShowsFrom(cs: seq<Candidate>, rows: seq<Chunk>, ordinal: nat) {
    exists at ::
      && Positions(at, rows, (c: Chunk) => c.ordinal >= ordinal) && |cs| == |at|
      && forall k :: 0 <= k < |at| ==> at[k] < |rows| && ShowsChunk(cs[k], rows[at[k]])
  }

  lemma {:induction false} FromOrdinalAt(rows: seq<Chunk>, ordinal: nat) returns (at: seq<nat>)
    ensures Positions(at, rows, (c: Chunk) => c.ordinal >= ordinal) && |FromOrdinal(rows, ordinal)| == |at|
    ensures forall k :: 0 <= k < |at| ==> at[k] < |rows| && FromOrdinal(rows, ordinal)[k] == rows[at[k]]
    decreases |rows|
  {
    if rows == [] {
      at := [];
    } else {
      var front, last := rows[..|rows| - 1], rows[|rows| - 1];
      at := FromOrdinalAt(front, ordinal);
      PositionsGrow(at, front, last, (c: Chunk) => c.ordinal >= ordinal);
      assert front + [last] == rows;
      at := at + if last.ordinal >= ordinal then [|front|] else [];
    }
  }

  lemma ChunksShow(rows: seq<Chunk>, ordinal: nat)
    ensures ShowsFrom(Map(ChunkCandidate, FromOrdinal(rows, ordinal)), rows, ordinal)
  {
    hide ChunkCandidate, ShowsChunk, FromOrdinal, Positions;
    var at := FromOrdinalAt(rows, ordinal);
    forall k | 0 <= k < |at| ensures at[k] < |rows| && ShowsChunk(ChunkCandidate(rows[at[k]]), rows[at[k]]) {
      ChunkShows(rows[at[k]]);
    }
  }

  /** No row at or after the ordinal is the not-found error. */
  method ChunkCandidates(rows: seq<Chunk>, ordinal: nat) returns (r: Option<seq<Candidate>>)
    ensures r == if FromOrdinal(rows, ordinal) == [] then None
            else Some(Map(ChunkCandidate, FromOrdinal(rows, ordinal)))
    ensures r.None? <==> forall i :: 0 <= i < |rows| ==> rows[i].ordinal < ordinal
    ensures r.Some? ==> ShowsFrom(r.value, rows, ordinal)
  {
    if rows == [] {
      return None;
    }
    var out: seq<Candidate> := [];
    for i := 0 to |rows|
      invariant out == Map(ChunkCandidate, FromOrdinal(rows[..i], ordinal))
      invariant out == [] <==> forall j :: 0 <= j < i ==> rows[j].ordinal < ordinal
    {
      assert rows[..i + 1][..i] == rows[..i];
      if rows[i].ordinal >= ordinal {
        out := out + [ChunkCandidate(rows[i])];
      }
    }
    assert rows[..|rows|] == rows;
    ChunksShow(rows, ordinal);
    r := if out == [] then None else Some(out);
  }

  datatype Row = EntryRow(entry: Entry) | ChunkRow(chunk: Chunk)

  function FlatEntries(sections: seq<Section>): seq<Row> {
    if sections == [] then []
    else FlatEntries(sections[..|sections| - 1]) + EntryRows(sections[|sections| - 1].entries)
  }

  function EntryRows(es: seq<Entry>): seq<Row> {
    Map((e: Entry) => EntryRow(e), es)
  }

  function ChunkRows(cs: seq<Chunk>): seq<Row> {
    Map((c: Chunk) => ChunkRow(c), cs)
  }

  function FirstRows(rows: seq<Row>): seq<Row> {
    if |rows| <= SCAN_CEILING then rows else rows[..SCAN_CEILING]
  }

  function RowMatch(row: Row): Candidate {
    match row
    case EntryRow(e) => EntryMatch(e)
    case ChunkRow(c) => ChunkMatch(c)
  }

  /** The text a query is looked for in. */
  function Searched(row: Row): Codes {
    match row
    case EntryRow(e) => e.blob
    case ChunkRow(c) => c.text
  }

  /** The rows a query hits, in order. */
  function MatchedRows(rows: seq<Row>, hit: Codes -> bool): seq<Row> {
    if rows == [] then []
    else
      var last := rows[|rows| - 1];
      MatchedRows(rows[..|rows| - 1], hit) + if hit(Searched(last)) then [last] else []
  }

  function RowHit(row: Row, hit: Codes -> bool): seq<Candidate> {
    if hit(Searched(row)) then [RowMatch(row)] else []
  }

  function Hits(rows: seq<Row>, hit: Codes -> bool): seq<Candidate> {
    Map(RowMatch, MatchedRows(rows, hit))
  }

  /** The hits among the rows a scan has passed; a scan past the ceiling has passed only the first 2000. */
  ghost predicate Scanned(rows: seq<Row>, hit: Codes -> bool, scanned: nat, out: seq<Candidate>) {
    && out == Hits(FirstRows(rows), hit)
    && (scanned <= SCAN_CEILING ==> scanned == |rows|)
    && (scanned > SCAN_CEILING ==> |rows| >= SCAN_CEILING)
  }

  lemma ScanOne(rows: seq<Row>, row: Row, hit: Codes -> bool, scanned: nat, out: seq<Candidate>)
    requires Scanned(rows, hit, scanned, out)
    ensures Scanned(rows + [row], hit, scanned + 1, if scanned + 1 > SCAN_CEILING then out else out + RowHit(row, hit))
  {
    hide Hits, RowHit;
    if scanned + 1 > SCAN_CEILING {
      assert FirstRows(rows + [row]) == FirstRows(rows);
    } else {
      HitsStep(rows, row, hit);
    }
  }

  lemma HitsStep(rows: seq<Row>, row: Row, hit: Codes -> bool)
    ensures Hits(rows + [row], hit) == Hits(rows, hit) + RowHit(row, hit)
  {
    hide RowMatch, Searched;
    assert (rows + [row])[..|rows|] == rows;
  }

  lemma ScanRest(rows: seq<Row>, all: seq<Row>, hit: Codes -> bool, scanned: nat, out: seq<Candidate>)
    requires Scanned(rows, hit, scanned, out) && scanned > SCAN_CEILING && rows <= all
    ensures Scanned(all, hit, scanned, out)
  {
    assert FirstRows(all) == FirstRows(rows);
  }

  lemma NothingScanned(hit: Codes -> bool)
    ensures Scanned([], hit, 0, [])
  {}

  lemma ScannedAll(rows: seq<Row>, hit: Codes -> bool, scanned: nat, out: seq<Candidate>)
    requires Scanned(rows, hit, scanned, out)
    ensures out == Hits(FirstRows(rows), hit)
  {}

  /** The rows of the sections before `s` and the first `e` entries of section `s`. */
  function RowsUpTo(sections: seq<Section>, s: nat, e: nat): seq<Row>
    requires s < |sections| && e <= |sections[s].entries|
  {
    FlatEntries(sections[..s]) + EntryRows(sections[s].entries[..e])
  }

  lemma RowsStep(sections: seq<Section>, s: nat, e: nat)
    requires s < |sections| && e < |sections[s].entries|
    ensures RowsUpTo(sections, s, e + 1) == RowsUpTo(sections, s, e) + [EntryRow(sections[s].entries[e])]
  {}

  lemma RowsOfSection(sections: seq<Section>, s: nat)
    requires s < |sections|
    ensures RowsUpTo(sections, s, 0) == FlatEntries(sections[..s])
    ensures RowsUpTo(sections, s, |sections[s].entries|) == FlatEntries(sections[..s + 1])
  {
    assert sections[..s + 1][..s] == sections[..s];
    assert sections[s].entries[..|sections[s].entries|] == sections[s].entries;
  }

  lemma {:induction false} FlatPrefix(sections: seq<Section>, s: nat)
    requires s <= |sections|
    ensures FlatEntries(sections[..s]) <= FlatEntries(sections)
    decreases |sections|
  {
    if s == |sections| {
      assert sections[..s] == sections;
    } else {
      var front := sections[..|sections| - 1];
      assert front[..s] == sections[..s];
      FlatPrefix(front, s);
    }
  }

  lemma RowsPrefix(sections: seq<Section>, s: nat, e: nat)
    requires s < |sections| && e <= |sections[s].entries|
    ensures RowsUpTo(sections, s, e) <= FlatEntries(sections)
  {
    hide FlatEntries;
    var es := sections[s].entries;
    RowsOfSection(sections, s);
    FlatPrefix(sections, s + 1);
    assert EntryRows(es) == EntryRows(es[..e]) + EntryRows(es[e..]);
    assert es[..|es|] == es;
  }

  lemma ChunkStep(chunks: seq<Chunk>, c: nat)
    requires c < |chunks|
    ensures ChunkRows(chunks[..c + 1]) == ChunkRows(chunks[..c]) + [ChunkRow(chunks[c])]
    ensures ChunkRows(chunks[..c + 1]) <= ChunkRows(chunks)
  {}

  // ----- What a search finds -----

  /** The rows are the entries of the sections, section by section, and then the chunks. */
  ghost predicate Lists(rows: seq<Row>, sections: seq<Section>, chunks: seq<Chunk>) {
    exists parts: seq<seq<Row>> ::
      && Joins(rows, parts) && |parts| == |sections| + 1
      && (forall s :: 0 <= s < |sections| ==> AreEntries(parts[s], sections[s].entries))
      && AreChunks(parts[|sections|], chunks)
  }

  ghost predicate AreEntries(rows: seq<Row>, es: seq<Entry>) {
    |rows| == |es| && forall e :: 0 <= e < |es| ==> rows[e] == EntryRow(es[e])
  }

  ghost predicate AreChunks(rows: seq<Row>, chunks: seq<Chunk>) {
    |rows| == |chunks| && forall c :: 0 <= c < |chunks| ==> rows[c] == ChunkRow(chunks[c])
  }

  /** The query hits an entry's blob or a chunk's text. */
  predicate IsHit(row: Row, hit: Codes -> bool) {
    hit(if row.EntryRow? then row.entry.blob else row.chunk.text)
  }

  /** The first rows, 2000 at most, whose text hits are found, in order, and nothing else. */
  ghost predicate Finds(out: seq<Candidate>, rows: seq<Row>, hit: Codes -> bool) {
    exists at ::
      && Positions(at, if |rows| <= 2000 then rows else rows[..2000], (r: Row) => IsHit(r, hit))
      && |out| == |at| && forall k :: 0 <= k < |at| ==> at[k] < |rows| && ShowsRow(out[k], rows[at[k]])
  }

  lemma {:induction false} SectionsAreListed(sections: seq<Section>) returns (parts: seq<seq<Row>>)
    ensures Joins(FlatEntries(sections), parts) && |parts| == |sections|
    ensures forall s :: 0 <= s < |sections| ==> AreEntries(parts[s], sections[s].entries)
    decreases |sections|
  {
    if sections == [] {
      parts := [];
      JoinsNothing<Row>();
    } else {
      var front, last := sections[..|sections| - 1], sections[|sections| - 1];
      parts := SectionsAreListed(front);
      JoinsMore(FlatEntries(front), parts, EntryRows(last.entries));
      parts := parts + [EntryRows(last.entries)];
    }
  }

  lemma RowsAreListed(sections: seq<Section>, chunks: seq<Chunk>)
    ensures Lists(FlatEntries(sections) + ChunkRows(chunks), sections, chunks)
  {
    var parts := SectionsAreListed(sections);
    hide FlatEntries, Joins, AreEntries;
    JoinsMore(FlatEntries(sections), parts, ChunkRows(chunks));
    assert AreChunks((parts + [ChunkRows(chunks)])[|sections|], chunks);
  }

  lemma {:induction false} MatchedAt(rows: seq<Row>, hit: Codes -> bool) returns (at: seq<nat>)
    ensures Positions(at, rows, (r: Row) => IsHit(r, hit))
    ensures |MatchedRows(rows, hit)| == |at|
    ensures forall k :: 0 <= k < |at| ==> at[k] < |rows| && MatchedRows(rows, hit)[k] == rows[at[k]]
    decreases |rows|
  {
    if rows == [] {
      at := [];
    } else {
      var front, last := rows[..|rows| - 1], rows[|rows| - 1];
      at := MatchedAt(front, hit);
      PositionsGrow(at, front, last, (r: Row) => IsHit(r, hit));
      assert front + [last] == rows;
      at := at + if IsHit(last, hit) then [|front|] else [];
    }
  }

  lemma HitsAreFound(rows: seq<Row>, hit: Codes -> bool)
    ensures Finds(Hits(FirstRows(rows), hit), rows, hit)
  {
    hide RowMatch, ShowsRow, MatchedRows, Positions;
    var first := FirstRows(rows);
    var at := MatchedAt(first, hit);
    forall k | 0 <= k < |at| ensures at[k] < |rows| && ShowsRow(Hits(first, hit)[k], rows[at[k]]) {
      MatchShows(rows[at[k]]);
    }
  }

  /**
    The nested scan with its early exits finds the rows that hit among the first 2000, in order, where
    all entries come before the chunks.
   */
  method SearchCandidates(sections: seq<Section>, chunks: seq<Chunk>, hit: Codes -> bool) returns (out: seq<Candidate>)
    ensures out == Hits(FirstRows(FlatEntries(sections) + ChunkRows(chunks)), hit)
    ensures exists rows :: Lists(rows, sections, chunks) && Finds(out, rows, hit)
  {
    RowsAreListed(sections, chunks);
    HitsAreFound(FlatEntries(sections) + ChunkRows(chunks), hit);
    hide Scanned, RowHit, Hits, FirstRows, FlatEntries, ChunkRows, RowsUpTo, Lists, Finds;
    ghost var all := FlatEntries(sections);
    var scanned: nat;
    out, scanned := ScanEntries(sections, hit);
    assert chunks[..0] == [];
    assert all + ChunkRows([]) == all by { NoChunkRows(); }
    for c := 0 to |chunks|
      invariant Scanned(all + ChunkRows(chunks[..c]), hit, scanned, out)
    {
      ghost var rows := all + ChunkRows(chunks[..c]);
      ScanOne(rows, ChunkRow(chunks[c]), hit, scanned, out);
      ChunkStep(chunks, c);
      assert rows + [ChunkRow(chunks[c])] == all + ChunkRows(chunks[..c + 1]);
      scanned := scanned + 1;
      if scanned > SCAN_CEILING {
        ScanRest(all + ChunkRows(chunks[..c + 1]), all + ChunkRows(chunks), hit, scanned, out);
        ScannedAll(all + ChunkRows(chunks), hit, scanned, out);
        return;
      }
      out := out + RowHit(ChunkRow(chunks[c]), hit);
    }
    assert chunks[..|chunks|] == chunks;
    ScannedAll(all + ChunkRows(chunks), hit, scanned, out);
  }

  lemma NoChunkRows()
    ensures ChunkRows([]) == []
  {}

  method ScanEntries(sections: seq<Section>, hit: Codes -> bool) returns (out: seq<Candidate>, scanned: nat)
    ensures Scanned(FlatEntries(sections), hit, scanned, out)
  {
    hide Scanned, RowHit, Hits, FirstRows, RowsUpTo;
    out, scanned := [], 0;
    NothingScanned(hit);
    for s := 0 to |sections|
      invariant Scanned(FlatEntries(sections[..s]), hit, scanned, out)
    {
      var entries := sections[s].entries;
      RowsOfSection(sections, s);
      for e := 0 to |entries|
        invariant Scanned(RowsUpTo(sections, s, e), hit, scanned, out)
      {
        ScanOne(RowsUpTo(sections, s, e), EntryRow(entries[e]), hit, scanned, out);
        RowsStep(sections, s, e);
        scanned := scanned + 1;
        if scanned > SCAN_CEILING {
          RowsPrefix(sections, s, e + 1);
          ScanRest(RowsUpTo(sections, s, e + 1), FlatEntries(sections), hit, scanned, out);
          return;
        }
        out := out + RowHit(EntryRow(entries[e]), hit);
      }
    }
    assert sections[..|sections|] == sections;
  }

  // ----- When identities are unique -----

  lemma PrefixedApart(p: Codes, s: Codes, t: Codes)
    ensures p + s == p + t <==> s == t
  {
    if p + s == p + t {
      assert (p + s)[|p|..] == s && (p + t)[|p|..] == t;
    }
  }

  /**
    Section pages meet the walk's demand iff the section repeats no entry id, which the document schema
    does not check.
   */
  lemma SectionIdentitiesUniqueIff(es: seq<Entry>)
    ensures UniqueIdentities(Map(EntryCandidate, es)) <==> forall i, j :: 0 <= i < j < |es| ==> es[i].id != es[j].id
  {
    hide EntryText, ToCodes;
    forall i, j | 0 <= i < j < |es|
      ensures Map(EntryCandidate, es)[i].identity == Map(EntryCandidate, es)[j].identity <==> es[i].id == es[j].id
    {
      PrefixedApart(ToCodes("entry:"), es[i].id, es[j].id);
    }
  }

  lemma ChunkIdentityApart(m: nat, n: nat)
    ensures ChunkIdentity(m) == ChunkIdentity(n) <==> m == n
  {
    hide ToCodes, ReadNumber;
    PrefixedApart(ToCodes("chunk:"), Digits(m), Digits(n));
    WrittenNumberReads(m, []);
    WrittenNumberReads(n, []);
    assert Digits(m) + [] == Digits(m) && Digits(n) + [] == Digits(n);
  }

  ghost predicate DistinctOrdinals(rows: seq<Chunk>) {
    forall i, j :: 0 <= i < j < |rows| ==> rows[i].ordinal != rows[j].ordinal
  }

  lemma {:induction false} FromOrdinalKeepsDistinct(rows: seq<Chunk>, ordinal: nat)
    requires DistinctOrdinals(rows)
    ensures forall c :: c in FromOrdinal(rows, ordinal) <==> c in rows && c.ordinal >= ordinal
    ensures DistinctOrdinals(FromOrdinal(rows, ordinal))
    decreases |rows|
  {
    if rows != [] {
      var front, last := rows[..|rows| - 1], rows[|rows| - 1];
      FromOrdinalKeepsDistinct(front, ordinal);
      var g := FromOrdinal(front, ordinal);
      assert forall c :: c in rows <==> c in front || c == last;
      forall i | 0 <= i < |g| ensures g[i].ordinal != last.ordinal {
        assert g[i] in front;
      }
    }
  }

  /** Chunk rows carry distinct ordinals, so chunk pages always meet it. */
  lemma ChunkIdentitiesUnique(rows: seq<Chunk>, ordinal: nat)
    requires DistinctOrdinals(rows)
    ensures UniqueIdentities(Map(ChunkCandidate, FromOrdinal(rows, ordinal)))
  {
    hide ChunkIdentity, FromOrdinal;
    FromOrdinalKeepsDistinct(rows, ordinal);
    var f := FromOrdinal(rows, ordinal);
    var cs := Map(ChunkCandidate, f);
    forall i, j | 0 <= i < j < |cs| ensures cs[i].identity != cs[j].identity {
      assert cs[i] == ChunkCandidate(f[i]) && cs[j] == ChunkCandidate(f[j]);
      ChunkIdentityApart(f[i].ordinal, f[j].ordinal);
    }
  }

  /** Two rows a search would give the same identity: entries with one id, in any sections, or one chunk twice. */
  predicate SameRow(r: Row, q: Row) {
    (r.EntryRow? && q.EntryRow? && r.entry.id == q.entry.id)
    || (r.ChunkRow? && q.ChunkRow? && r.chunk.ordinal == q.chunk.ordinal)
  }

  lemma RowIdentities(r: Row, q: Row)
    ensures RowMatch(r).identity == RowMatch(q).identity <==> SameRow(r, q)
  {
    hide EntryText, ToCodes, Prefix;
    match (r, q)
    case (EntryRow(e), EntryRow(f)) => PrefixedApart(ToCodes("entry:"), e.id, f.id);
    case (ChunkRow(c), ChunkRow(d)) => ChunkIdentityApart(c.ordinal, d.ordinal);
    case (EntryRow(e), ChunkRow(d)) => EntryNeverChunk(e.id, d.ordinal);
    case (ChunkRow(c), EntryRow(f)) => EntryNeverChunk(f.id, c.ordinal);
  }

  /** Search pages have unique identities iff no two hits are entries with one id, across all sections, or one chunk. */
  lemma SearchIdentitiesUniqueIff(rows: seq<Row>, hit: Codes -> bool)
    ensures UniqueIdentities(Hits(rows, hit)) <==> HitsApart(rows, hit)
  {
    hide RowMatch, MatchedRows, SameRow, Positions;
    var m := MatchedRows(rows, hit);
    var at := MatchedAt(rows, hit);
    var cs := Hits(rows, hit);
    assert |cs| == |m| && forall i :: 0 <= i < |m| ==> cs[i] == RowMatch(m[i]);
    forall i, j | 0 <= i < j < |m| ensures cs[i].identity != cs[j].identity <==> !SameRow(m[i], m[j]) {
      RowIdentities(m[i], m[j]);
    }
    ApartByPosition(rows, hit, m, at);
  }

  lemma ApartByPosition(rows: seq<Row>, hit: Codes -> bool, m: seq<Row>, at: seq<nat>)
    requires Positions(at, rows, (r: Row) => IsHit(r, hit)) && |m| == |at|
    requires forall k :: 0 <= k < |at| ==> at[k] < |rows| && m[k] == rows[at[k]]
    ensures HitsApart(rows, hit) <==> forall k, l :: 0 <= k < l < |m| ==> !SameRow(m[k], m[l])
  {
    hide SameRow;
    if HitsApart(rows, hit) {
      forall k, l | 0 <= k < l < |m| ensures !SameRow(m[k], m[l]) {
        assert at[k] in at && at[l] in at && at[k] < at[l];
      }
    }
    if forall k, l :: 0 <= k < l < |m| ==> !SameRow(m[k], m[l]) {
      forall i: nat, j: nat | i < j < |rows| && IsHit(rows[i], hit) && IsHit(rows[j], hit)
        ensures !SameRow(rows[i], rows[j])
      {
        assert i in at && j in at;
        var k, l :| 0 <= k < |at| && 0 <= l < |at| && at[k] == i && at[l] == j;
        assert !(l < k) && l != k;
      }
    }
  }

  ghost predicate HitsApart(rows: seq<Row>, hit: Codes -> bool) {
    forall i, j :: 0 <= i < j < |rows| && IsHit(rows[i], hit) && IsHit(rows[j], hit) ==> !SameRow(rows[i], rows[j])
  }

  /** An entry and a chunk never share an identity. */
  lemma EntryNeverChunk(id: Codes, n: nat)
    ensures EntryIdentity(id) != ChunkIdentity(n)
  {
    assert EntryIdentity(id)[0] == 101 && ChunkIdentity(n)[0] == 99;
  }

  // ----- Continuing a chunk walk -----

  /** The selector of a chunk request; an omitted ordinal counts as 0. */
  function ChunkSelector(ordinal: Option<nat>): Codes {
    ChunkIdentity(if ordinal.Some? then ordinal.value else 0)
  }

  /** A cursor of a chunk walk resumes iff the request names the same start, where no ordinal means 0. */
  lemma ChunkContinuationNeedsOrdinal(b: Binding, id: Codes, made: Option<nat>, asked: Option<nat>)
    requires b.selector == ChunkSelector(made)
    requires var c := ReaderCursor(b.attachmentId, b.sourceHash, b.mode, b.selector, id); Presentable(c) && Unsplit(c)
    ensures BindCursor(Some(CursorAt(b, id)), b.attachmentId, b.sourceHash, b.mode, ChunkSelector(asked))
            == Resume(Some(id))
       <==> (if made.Some? then made.value else 0) == (if asked.Some? then asked.value else 0)
  {
    hide BindCursor, ChunkIdentity, EncodeReader, Presentable, Unsplit;
    BindingExact(ReaderCursor(b.attachmentId, b.sourceHash, b.mode, b.selector, id),
                 b.attachmentId, b.sourceHash, b.mode, ChunkSelector(asked));
    ChunkIdentityApart(if made.Some? then made.value else 0, if asked.Some? then asked.value else 0);
  }
}
