/** The text a page really carries, against the characters it accounts for. */
module CvRealText {
  import opened Common
  import opened Json
  import opened CvReader
  import opened CvWalk
  import opened CvCandidates

  function RealTotal(rs: seq<Record>): nat {
    Sum(RealLength, rs)
  }

  /** What a candidate shown whole carries beyond the characters it is charged for. */
  function Surplus(c: Candidate): int {
    RealLength(c.record) - |c.text|
  }

  function SurplusTotal(w: seq<Candidate>): int {
    RealTotal(Map((c: Candidate) => c.record, w)) - TextTotal(w)
  }

  /** No candidate is charged for more than its record carries. */
  predicate Charged(c: Candidate) {
    Surplus(c) >= 0
  }

  lemma {:induction false} SurplusAdds(w: seq<Candidate>)
    ensures SurplusTotal(w) == if w == [] then 0 else SurplusTotal(w[..|w| - 1]) + Surplus(w[|w| - 1])
  {
    hide RealLength;
    if w != [] {
      var all := Map((c: Candidate) => c.record, w);
      assert all[..|w| - 1] == Map((c: Candidate) => c.record, w[..|w| - 1]);
    }
  }

  lemma {:induction false} SurplusNotNegative(w: seq<Candidate>)
    requires forall j :: 0 <= j < |w| ==> Charged(w[j])
    ensures SurplusTotal(w) >= 0
    decreases |w|
  {
    hide RealLength, SurplusTotal;
    SurplusAdds(w);
    if w != [] {
      SurplusNotNegative(w[..|w| - 1]);
    }
  }

  lemma PageReal(w: seq<Candidate>, caps: Caps, b: Binding)
    requires ValidCaps(caps)
    ensures var p := PageOf(w, caps, b); var k := |p.records|;
            && k <= |w|
            && (!p.truncated ==> RealTotal(p.records) == p.used + SurplusTotal(w[..k]))
            && (p.truncated ==>
                  (k > 0
                  && RealTotal(p.records) == TextTotal(w[..k - 1]) + SurplusTotal(w[..k - 1])
                     + RealLength(p.records[k - 1])))
  {
    hide PageOf, TextTotal, RealLength, Cut;
    var p := PageOf(w, caps, b);
    PageShowsPrefix(w, caps, b);
    var k := |p.records|;
    if p.truncated {
      assert p.records[..k - 1] == Map((c: Candidate) => c.record, w[..k - 1]);
    } else {
      assert p.records == Map((c: Candidate) => c.record, w[..k]);
    }
  }

  /** The room the page had left for its last record. */
  function LastRoom(w: seq<Candidate>, k: nat, caps: Caps): int
    requires 0 < k <= |w|
  {
    caps.chars - TextTotal(w[..k - 1])
  }

  /** A cut record that carries no more than its room: nothing escapes the cut, and the cut text fills it. */
  predicate CutFills(c: Candidate, room: int) {
    OptionLength(c.record.head.title) + AsideLength(c.record.head) == 0 && FieldsLength(c.record.fields) >= room
  }

  lemma CutRecordReal(c: Candidate, room: int)
    requires Charged(c) && 0 < room < |c.text|
    ensures RealLength(Cut(c.record, room)) >= room
    ensures RealLength(Cut(c.record, room)) <= room <==> CutFills(c, room)
  {
    hide CutFields;
    CutIsAPrefix(c.record, room);
  }

  /**
    Any reading mode: the text on a page is within the cap iff, on an uncut page, accounted and
    surplus characters together are; on a cut page, iff no whole record has a surplus and the cut one
    fills its room exactly.
   */
  lemma PageWithinCapIff(w: seq<Candidate>, caps: Caps, b: Binding)
    requires ValidCaps(caps) && forall j :: 0 <= j < |w| ==> Charged(w[j])
    ensures var p := PageOf(w, caps, b); var k := |p.records|;
            && k <= |w|
            && (!p.truncated ==> (RealTotal(p.records) <= caps.chars <==> p.used + SurplusTotal(w[..k]) <= caps.chars))
            && (p.truncated ==>
                  (k > 0
                  && (RealTotal(p.records) <= caps.chars
                      <==> SurplusTotal(w[..k - 1]) == 0 && CutFills(w[k - 1], LastRoom(w, k, caps)))))
  {
    hide PageOf, TextTotal, RealLength, Cut, SurplusTotal, CutFills;
    var p := PageOf(w, caps, b);
    var k := |p.records|;
    PageReal(w, caps, b);
    if p.truncated {
      LastRecordReal(w, caps, b);
      SurplusNotNegative(w[..k - 1]);
    }
  }

  lemma LastRecordReal(w: seq<Candidate>, caps: Caps, b: Binding)
    requires ValidCaps(caps) && PageOf(w, caps, b).truncated && forall j :: 0 <= j < |w| ==> Charged(w[j])
    ensures var p := PageOf(w, caps, b); var k := |p.records|;
            && 0 < k <= |w|
            && RealLength(p.records[k - 1]) >= LastRoom(w, k, caps)
            && (RealLength(p.records[k - 1]) <= LastRoom(w, k, caps) <==> CutFills(w[k - 1], LastRoom(w, k, caps)))
  {
    hide PageOf, TextTotal, RealLength, Cut, CutFills;
    var p := PageOf(w, caps, b);
    var k := |p.records|;
    PageShowsPrefix(w, caps, b);
    CutPageIsFull(w, caps, b);
    assert w[..k][..k - 1] == w[..k - 1];
    var room := LastRoom(w, k, caps);
    CutRecordReal(w[k - 1], room);
    MarkedReal(Cut(w[k - 1].record, room));
  }

  lemma MarkedReal(r: Record)
    ensures RealLength(r.(marked := true)) == RealLength(r)
  {}

  lemma CutPageIsFull(w: seq<Candidate>, caps: Caps, b: Binding)
    ensures PageOf(w, caps, b).truncated ==> PageOf(w, caps, b).used == caps.chars
  {
    hide TextTotal, Shown, CursorAt;
  }

  // ----- The three modes -----

  /** Chunk mode: the text on a page is exactly the characters it reports. */
  lemma ChunkPageReal(rows: seq<Chunk>, caps: Caps, b: Binding)
    requires ValidCaps(caps)
    ensures var p := PageOf(Map(ChunkCandidate, rows), caps, b); RealTotal(p.records) == p.used <= caps.chars
  {
    hide PageOf, TextTotal, CutFields, SurplusTotal;
    var w := Map(ChunkCandidate, rows);
    var p := PageOf(w, caps, b);
    var k := |p.records|;
    PageReal(w, caps, b);
    PageShowsPrefix(w, caps, b);
    CutPageIsFull(w, caps, b);
    NoSurplus(w[..k]);
    if p.truncated {
      NoSurplus(w[..k - 1]);
      LastRecordReal(w, caps, b);
      RoomIsShort(w, caps, b);
      ChunkFills(rows[k - 1], LastRoom(w, k, caps));
    }
  }

  lemma ChunkFills(c: Chunk, room: int)
    requires room < |c.text|
    ensures CutFills(ChunkCandidate(c), room)
  {}

  lemma {:induction false} NoSurplus(w: seq<Candidate>)
    requires forall j :: 0 <= j < |w| ==> Surplus(w[j]) == 0
    ensures SurplusTotal(w) == 0
    decreases |w|
  {
    hide SurplusTotal, Surplus;
    SurplusAdds(w);
    if w != [] {
      NoSurplus(w[..|w| - 1]);
    }
  }

  /** Subtitles, dates and locations of some entries. */
  function AsideTotal(es: seq<Entry>): nat {
    Sum((e: Entry) => AsideLength(e.head), es)
  }

  lemma {:induction false} EntriesSurplus(es: seq<Entry>)
    ensures SurplusTotal(Map(EntryCandidate, es)) == AsideTotal(es)
    decreases |es|
  {
    hide SurplusTotal, AsideLength;
    SurplusAdds(Map(EntryCandidate, es));
    if es != [] {
      var front := es[..|es| - 1];
      EntriesSurplus(front);
      assert Map(EntryCandidate, es)[..|es| - 1] == Map(EntryCandidate, front);
      EntrySurplus(es[|es| - 1]);
    }
  }

  lemma EntrySurplus(e: Entry)
    ensures Surplus(EntryCandidate(e)) == AsideLength(e.head)
  {}

  /**
    Section mode: on an uncut page the text is within the cap iff the accounted characters and the
    subtitles, dates and locations of its entries together are. On a cut page, iff no entry on it has
    any of these, the cut entry has no title, and its body fills what was left.
   */
  lemma SectionPageWithinCapIff(es: seq<Entry>, caps: Caps, b: Binding)
    requires ValidCaps(caps)
    ensures var w := Map(EntryCandidate, es); var p := PageOf(w, caps, b); var k := |p.records|;
            && k <= |es|
            && (!p.truncated ==> (RealTotal(p.records) <= caps.chars <==> p.used + AsideTotal(es[..k]) <= caps.chars))
            && (p.truncated ==>
                  (k > 0
                  && (RealTotal(p.records) <= caps.chars
                      <==> AsideTotal(es[..k]) == 0 && OptionLength(es[k - 1].head.title) == 0
                           && |es[k - 1].body| >= LastRoom(w, k, caps))))
  {
    hide PageOf, TextTotal, SurplusTotal, AsideTotal, AsideLength, RealTotal;
    var w := Map(EntryCandidate, es);
    var p := PageOf(w, caps, b);
    var k := |p.records|;
    forall j | 0 <= j < |w| ensures Charged(w[j]) {
      EntrySurplus(es[j]);
    }
    PageWithinCapIff(w, caps, b);
    assert w[..k] == Map(EntryCandidate, es[..k]);
    EntriesSurplus(es[..k]);
    if p.truncated {
      assert w[..k - 1] == Map(EntryCandidate, es[..k - 1]);
      EntriesSurplus(es[..k - 1]);
      AsideStep(es, k - 1);
      assert FieldsLength(w[k - 1].record.fields) == |es[k - 1].body|;
    }
  }

  lemma AsideStep(es: seq<Entry>, j: nat)
    requires j < |es|
    ensures AsideTotal(es[..j + 1]) == AsideTotal(es[..j]) + AsideLength(es[j].head)
  {
    assert es[..j + 1][..j] == es[..j];
  }

  /** A row of search hits: what its match carries beyond its charge. */
  function RowSurplus(row: Row): nat {
    match row
    case EntryRow(e) => AsideLength(e.head)
    case ChunkRow(c) => |c.text|
  }

  function RowSurplusTotal(rows: seq<Row>): nat {
    Sum(RowSurplus, rows)
  }

  lemma RowMatchSurplus(row: Row)
    ensures Surplus(RowMatch(row)) == RowSurplus(row)
  {}

  lemma {:induction false} RowsSurplus(rows: seq<Row>)
    ensures SurplusTotal(Map(RowMatch, rows)) == RowSurplusTotal(rows)
    decreases |rows|
  {
    hide SurplusTotal, RowSurplus, RowMatch;
    SurplusAdds(Map(RowMatch, rows));
    if rows != [] {
      var front := rows[..|rows| - 1];
      RowsSurplus(front);
      assert Map(RowMatch, rows)[..|rows| - 1] == Map(RowMatch, front);
      RowMatchSurplus(rows[|rows| - 1]);
    }
  }

  /**
    A cut match that stays within its room: any chunk does, an entry when excerpt and body fill it and
    nothing else is shown.
   */
  predicate CutRowFills(row: Row, room: int) {
    match row
    case EntryRow(e) =>
      OptionLength(e.head.title) + AsideLength(e.head) == 0 && |e.body| + Min(|e.blob|, EXCERPT_CHARS) >= room
    case ChunkRow(c) => true
  }

  lemma CutRowFillsIff(row: Row, room: int)
    requires 0 < room < |RowMatch(row).text|
    ensures CutFills(RowMatch(row), room) <==> CutRowFills(row, room)
  {}

  /**
    Search mode: on an uncut page the text is within the cap iff the accounted characters, the
    subtitles, dates and locations of its entries and the full texts of its chunks together are. On a
    cut page, iff no whole match has any of these and the cut match fills its room.
   */
  lemma SearchPageWithinCapIff(rows: seq<Row>, caps: Caps, b: Binding)
    requires ValidCaps(caps)
    ensures var w := Map(RowMatch, rows); var p := PageOf(w, caps, b); var k := |p.records|;
            && k <= |rows|
            && (!p.truncated ==> (RealTotal(p.records) <= caps.chars
                                  <==> p.used + RowSurplusTotal(rows[..k]) <= caps.chars))
            && (p.truncated ==>
                  (k > 0
                  && (RealTotal(p.records) <= caps.chars
                      <==> RowSurplusTotal(rows[..k - 1]) == 0 && CutRowFills(rows[k - 1], LastRoom(w, k, caps)))))
  {
    hide PageOf, TextTotal, SurplusTotal, RowSurplusTotal, RowSurplus, RealTotal, RowMatch, CutFills, CutRowFills;
    var w := Map(RowMatch, rows);
    var p := PageOf(w, caps, b);
    var k := |p.records|;
    forall j | 0 <= j < |w| ensures Charged(w[j]) {
      RowMatchSurplus(rows[j]);
    }
    PageWithinCapIff(w, caps, b);
    assert w[..k] == Map(RowMatch, rows[..k]);
    RowsSurplus(rows[..k]);
    if p.truncated {
      assert w[..k - 1] == Map(RowMatch, rows[..k - 1]);
      RowsSurplus(rows[..k - 1]);
      RoomIsShort(w, caps, b);
      CutRowFillsIff(rows[k - 1], LastRoom(w, k, caps));
    }
  }

  lemma RoomIsShort(w: seq<Candidate>, caps: Caps, b: Binding)
    requires ValidCaps(caps) && PageOf(w, caps, b).truncated
    ensures var k := |PageOf(w, caps, b).records|; 0 < k <= |w| && 0 < LastRoom(w, k, caps) < |w[k - 1].text|
  {
    hide PageOf, TextTotal, Cut;
    PageShowsPrefix(w, caps, b);
    CutPageIsFull(w, caps, b);
    var k := |PageOf(w, caps, b).records|;
    assert w[..k][..k - 1] == w[..k - 1];
  }

  /**
    One entry with 500 characters of body and a subtitle, read with a cap of 500: nothing is cut and
    the page is over it.
   */
  lemma SubtitleEscapesTheCap(e: Entry, b: Binding)
    requires e.head.title.None? && |e.body| == 500 && e.bullets == [] && OptionLength(e.head.subtitle) > 0
    ensures var p := PageOf([EntryCandidate(e)], Caps(1, 500), b);
            !p.truncated && p.used == 500 && RealTotal(p.records) > 500
  {
    var es, caps := [e], Caps(1, 500);
    var w := Map(EntryCandidate, es);
    assert w == [EntryCandidate(e)];
    SectionPageWithinCapIff(es, caps, b);
    OneCandidatePage(EntryCandidate(e), caps, b);
    assert es[..1] == es;
    assert AsideTotal(es) == AsideLength(e.head) by { AsideStep(es, 0); }
  }

  lemma OneCandidatePage(c: Candidate, caps: Caps, b: Binding)
    requires ValidCaps(caps) && |c.text| <= caps.chars
    ensures var p := PageOf([c], caps, b); |p.records| == 1 && !p.truncated && p.used == |c.text|
  {
    hide CursorAt, Shown;
    assert [c][..0] == [] && [c][..1] == [c];
    TotalStep([c], 0);
    assert OnPage([c], 0, caps) && !OnPage([c], 1, caps);
  }
}
