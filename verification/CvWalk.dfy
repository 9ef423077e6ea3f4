/** Walks over the reader's pages, and exactly when they show every candidate once. */
module CvWalk {
  import opened Common
  import opened Json
  import opened Cursor
  import opened CvReader

  /** What one request with this cursor returns; an unusable cursor ends the walk. */
  function Request(cands: seq<Candidate>, caps: Caps, b: Binding, cursor: Option<string>): Option<Page> {
    match BindCursor(cursor, b.attachmentId, b.sourceHash, b.mode, b.selector)
    case Resume(after) => Some(PageOf(cands[StartOf(cands, after)..], caps, b))
    case _ => None
  }

  /** The pages of at most `n` requests, each with the cursor of the one before. */
  function Walk(cands: seq<Candidate>, caps: Caps, b: Binding, cursor: Option<string>, n: nat): seq<Page>
    decreases n
  {
    hide *;
    if n == 0 then []
    else
      match Request(cands, caps, b, cursor)
      case None => []
      case Some(p) => [p] + if p.next.None? then [] else Walk(cands, caps, b, p.next, n - 1)
  }

  ghost predicate UniqueIdentities(cands: seq<Candidate>) {
    forall i, j :: 0 <= i < j < |cands| ==> cands[i].identity != cands[j].identity
  }

  /** Cursor fields that survive the codec: visible, and no surrogate pair split over two code points. */
  ghost predicate Encodable(cands: seq<Candidate>, b: Binding) {
    forall i :: 0 <= i < |cands| ==>
      var c := ReaderCursor(b.attachmentId, b.sourceHash, b.mode, b.selector, cands[i].identity);
      Presentable(c) && Unsplit(c)
  }

  /** The pages one after another show every candidate exactly once, in order. */
  ghost predicate Tiles(ps: seq<Page>, cands: seq<Candidate>, caps: Caps) {
    if ps == [] then cands == []
    else ShowsPrefix(ps[0], cands, caps) && Tiles(ps[1..], cands[|ps[0].records|..], caps)
  }

  /**
    Resuming after candidate `j` continues with candidate `j + 1` iff no earlier candidate has its
    identity.
   */
  lemma CursorResumesAfter(cands: seq<Candidate>, j: nat)
    requires j < |cands|
    ensures StartOf(cands, Some(cands[j].identity)) == j + 1
       <==> forall i :: 0 <= i < j ==> cands[i].identity != cands[j].identity
  {}

  lemma ResumedRequest(cands: seq<Candidate>, caps: Caps, b: Binding, j: nat)
    requires Encodable(cands, b) && j < |cands|
    ensures Request(cands, caps, b, Some(CursorAt(b, cands[j].identity)))
         == Some(PageOf(cands[StartOf(cands, Some(cands[j].identity))..], caps, b))
  {
    hide Presentable, Unsplit, PageOf, BindCursor, EncodeReader, StartOf;
    BindingExact(ReaderCursor(b.attachmentId, b.sourceHash, b.mode, b.selector, cands[j].identity),
                 b.attachmentId, b.sourceHash, b.mode, b.selector);
  }

  /** No earlier candidate has the identity of candidate `j`. */
  ghost predicate FirstSeen(cands: seq<Candidate>, j: nat)
    requires j < |cands|
  {
    forall i :: 0 <= i < j ==> cands[i].identity != cands[j].identity
  }

  /**
    Page after page from position `s`: every page that offers a cursor ends at a candidate whose
    identity did not occur before.
   */
  ghost predicate CleanStops(cands: seq<Candidate>, caps: Caps, b: Binding, s: nat)
    requires s <= |cands|
    decreases |cands| - s
  {
    var p := PageOf(cands[s..], caps, b);
    p.next.Some? ==> FirstSeen(cands, s + |p.records| - 1) && CleanStops(cands, caps, b, s + |p.records|)
  }

  lemma {:induction false} CleanWalkTiles(
    cands: seq<Candidate>, caps: Caps, b: Binding, cursor: Option<string>, s: nat, n: nat)
    requires Encodable(cands, b) && ValidCaps(caps) && s <= |cands| && n > |cands| - s && CleanStops(cands, caps, b, s)
    requires Request(cands, caps, b, cursor) == Some(PageOf(cands[s..], caps, b))
    ensures var ps := Walk(cands, caps, b, cursor, n);
            && Tiles(ps, cands[s..], caps)
            && 0 < |ps| <= |cands| - s + 1
            && ps[|ps| - 1].next == None
    decreases n
  {
    hide PageOf, ShowsPrefix, Request, CursorAt, Encodable, StartOf, Walk, FirstSeen;
    var w := cands[s..];
    var p := PageOf(w, caps, b);
    var ps := Walk(cands, caps, b, cursor, n);
    PageShowsPrefix(w, caps, b);
    PageNext(w, caps, b);
    WalkStep(cands, caps, b, cursor, s, n);
    var k := |p.records|;
    assert w[k..] == cands[s + k..];
    if p.next.None? {
      assert ps == [p] && ps[1..] == [];
    } else {
      var e := WalkGoesOn(cands, caps, b, s);
      CleanWalkTiles(cands, caps, b, p.next, s + k, n - 1);
      assert ps[1..] == Walk(cands, caps, b, p.next, n - 1);
    }
  }

  /** How many records the pages show in all. */
  function RecordCount(ps: seq<Page>): nat {
    if ps == [] then 0 else |ps[0].records| + RecordCount(ps[1..])
  }

  lemma {:induction false} TilesShowEachOnce(ps: seq<Page>, cands: seq<Candidate>, caps: Caps)
    requires Tiles(ps, cands, caps)
    ensures RecordCount(ps) == |cands|
    decreases |ps|
  {
    hide ShowsPrefix;
    if ps != [] {
      PrefixFits(ps[0], cands, caps);
      TilesShowEachOnce(ps[1..], cands[|ps[0].records|..], caps);
    }
  }

  lemma PrefixFits(p: Page, w: seq<Candidate>, caps: Caps)
    requires ShowsPrefix(p, w, caps)
    ensures |p.records| <= |w|
  {}

  /** The next page of a walk starts at the page's end or before it. */
  lemma WalkGoesOn(cands: seq<Candidate>, caps: Caps, b: Binding, s: nat) returns (e: nat)
    requires Encodable(cands, b) && ValidCaps(caps) && s <= |cands| && PageOf(cands[s..], caps, b).next.Some?
    ensures var p := PageOf(cands[s..], caps, b); var k := |p.records|;
            && e <= s + k && Request(cands, caps, b, p.next) == Some(PageOf(cands[e..], caps, b))
            && (e == s + k <==> FirstSeen(cands, s + k - 1))
  {
    hide PageOf, Request, CursorAt, Encodable;
    var w := cands[s..];
    var k := |PageOf(w, caps, b).records|;
    PageNext(w, caps, b);
    assert w[k - 1] == cands[s + k - 1];
    ResumedRequest(cands, caps, b, s + k - 1);
    CursorResumesAfter(cands, s + k - 1);
    e := StartOf(cands, Some(cands[s + k - 1].identity));
  }

  lemma WalkStep(cands: seq<Candidate>, caps: Caps, b: Binding, cursor: Option<string>, s: nat, n: nat)
    requires n > 0 && s <= |cands| && Request(cands, caps, b, cursor) == Some(PageOf(cands[s..], caps, b))
    ensures var p := PageOf(cands[s..], caps, b);
            Walk(cands, caps, b, cursor, n) == [p] + if p.next.None? then [] else Walk(cands, caps, b, p.next, n - 1)
    ensures var p := PageOf(cands[s..], caps, b);
            RecordCount(Walk(cands, caps, b, cursor, n))
              == |p.records| + if p.next.None? then 0 else RecordCount(Walk(cands, caps, b, p.next, n - 1))
  {
    hide PageOf, Request;
    var ps := Walk(cands, caps, b, cursor, n);
    assert ps[1..] == if ps[0].next.None? then [] else Walk(cands, caps, b, ps[0].next, n - 1);
  }

  /** A walk shows at least what lies ahead, or a record per request. */
  lemma {:induction false} WalkShowsAtLeast(
    cands: seq<Candidate>, caps: Caps, b: Binding, cursor: Option<string>, s: nat, n: nat)
    requires Encodable(cands, b) && ValidCaps(caps) && s <= |cands|
    requires Request(cands, caps, b, cursor) == Some(PageOf(cands[s..], caps, b))
    ensures RecordCount(Walk(cands, caps, b, cursor, n)) >= Min(n, |cands| - s)
    decreases n
  {
    hide PageOf, Request, Encodable, Walk, RecordCount, FirstSeen;
    if n > 0 {
      WalkStep(cands, caps, b, cursor, s, n);
      PageNext(cands[s..], caps, b);
      var p := PageOf(cands[s..], caps, b);
      if p.next.Some? {
        var e := WalkGoesOn(cands, caps, b, s);
        WalkShowsAtLeast(cands, caps, b, p.next, e, n - 1);
      }
    }
  }

  /** After an unclean stop a walk shows some record twice. */
  lemma {:induction false} UncleanWalkShowsMore(
    cands: seq<Candidate>, caps: Caps, b: Binding, cursor: Option<string>, s: nat, n: nat)
    requires Encodable(cands, b) && ValidCaps(caps) && s <= |cands| && n > |cands| - s && !CleanStops(cands, caps, b, s)
    requires Request(cands, caps, b, cursor) == Some(PageOf(cands[s..], caps, b))
    ensures RecordCount(Walk(cands, caps, b, cursor, n)) > |cands| - s
    decreases n
  {
    hide PageOf, Request, Encodable, Walk;
    WalkStep(cands, caps, b, cursor, s, n);
    var p := PageOf(cands[s..], caps, b);
    var e := WalkGoesOn(cands, caps, b, s);
    if FirstSeen(cands, s + |p.records| - 1) {
      UncleanWalkShowsMore(cands, caps, b, p.next, e, n - 1);
    } else {
      WalkShowsAtLeast(cands, caps, b, p.next, e, n - 1);
    }
  }

  /**
    The exact condition: a walk with enough requests shows every candidate once and in order iff no
    page that offers a cursor ends at a candidate whose identity occurred before; it then ends within
    n + 1 pages. Otherwise it shows some record twice.
   */
  lemma WalkTilesIff(cands: seq<Candidate>, caps: Caps, b: Binding, n: nat)
    requires Encodable(cands, b) && ValidCaps(caps) && n > |cands|
    ensures var ps := Walk(cands, caps, b, None, n);
            && (Tiles(ps, cands, caps) <==> CleanStops(cands, caps, b, 0))
            && (CleanStops(cands, caps, b, 0) ==> 0 < |ps| <= |cands| + 1 && ps[|ps| - 1].next == None)
            && (!CleanStops(cands, caps, b, 0) ==> RecordCount(ps) > |cands|)
  {
    hide PageOf, Encodable, Walk, Tiles, CleanStops;
    FirstRequest(cands, caps, b);
    assert cands[0..] == cands;
    if CleanStops(cands, caps, b, 0) {
      CleanWalkTiles(cands, caps, b, None, 0, n);
    } else {
      UncleanWalkShowsMore(cands, caps, b, None, 0, n);
      if Tiles(Walk(cands, caps, b, None, n), cands, caps) {
        TilesShowEachOnce(Walk(cands, caps, b, None, n), cands, caps);
      }
    }
  }

  lemma FirstRequest(cands: seq<Candidate>, caps: Caps, b: Binding)
    ensures Request(cands, caps, b, None) == Some(PageOf(cands[0..], caps, b))
  {
    hide PageOf;
    BindNone(b);
  }

  lemma PageNext(w: seq<Candidate>, caps: Caps, b: Binding)
    requires ValidCaps(caps)
    ensures var p := PageOf(w, caps, b);
            && |p.records| <= |w|
            && (p.next.None? ==> |p.records| == |w|)
            && (p.next.Some? ==> |p.records| > 0 && p.next == Some(CursorAt(b, w[|p.records| - 1].identity)))
  {}

  lemma {:induction false} UniqueStopsAreClean(cands: seq<Candidate>, caps: Caps, b: Binding, s: nat)
    requires UniqueIdentities(cands) && s <= |cands|
    ensures CleanStops(cands, caps, b, s)
    decreases |cands| - s
  {
    hide PageOf;
    var p := PageOf(cands[s..], caps, b);
    if p.next.Some? {
      UniqueStopsAreClean(cands, caps, b, s + |p.records|);
    }
  }

  /**
    With unique candidate identities, following `next_cursor` from the first page returns every
    candidate exactly once and in source order, cuts only the last record of a page, keeps the
    accounted characters of every page within the cap, and ends within n + 1 pages.
   */
  lemma FullWalk(cands: seq<Candidate>, caps: Caps, b: Binding)
    requires UniqueIdentities(cands) && Encodable(cands, b) && ValidCaps(caps)
    ensures var ps := Walk(cands, caps, b, None, |cands| + 1);
            && Tiles(ps, cands, caps)
            && 0 < |ps| <= |cands| + 1
            && ps[|ps| - 1].next == None
  {
    hide PageOf, Encodable, Walk, Tiles, CleanStops;
    UniqueStopsAreClean(cands, caps, b, 0);
    WalkTilesIff(cands, caps, b, |cands| + 1);
  }

  /**
    Three candidates with one identity, one result a page: the second page offers the cursor it was
    asked with, and the walk never ends.
   */
  lemma {:induction false} RepeatedIdentityNeverEnds(c: Candidate, caps: Caps, b: Binding, n: nat)
    requires ValidCaps(caps) && caps.results == 1 && Encodable([c, c, c], b)
    ensures |Walk([c, c, c], caps, b, None, n)| == n
    ensures |Walk([c, c, c], caps, b, Some(CursorAt(b, c.identity)), n)| == n
    decreases n
  {
    hide CursorAt, Request, PageOf;
    if n > 0 {
      RepeatedIdentityNeverEnds(c, caps, b, n - 1);
      RepeatedRequests(c, caps, b);
    }
  }

  lemma RepeatedRequests(c: Candidate, caps: Caps, b: Binding)
    requires ValidCaps(caps) && caps.results == 1 && Encodable([c, c, c], b)
    ensures var cursor := Some(CursorAt(b, c.identity));
            && Request([c, c, c], caps, b, None).Some? && Request([c, c, c], caps, b, None).value.next == cursor
            && Request([c, c, c], caps, b, cursor).Some? && Request([c, c, c], caps, b, cursor).value.next == cursor
  {
    hide BindCursor, EncodeReader, PageOf, Presentable, Unsplit;
    var cands := [c, c, c];
    assert cands[0] == c;
    BindingExact(ReaderCursor(b.attachmentId, b.sourceHash, b.mode, b.selector, c.identity),
                 b.attachmentId, b.sourceHash, b.mode, b.selector);
    BindNone(b);
    assert cands[0..] == cands && cands[1..][0] == c;
    OneRecordPage(cands[0..], caps, b);
    OneRecordPage(cands[1..], caps, b);
  }

  lemma BindNone(b: Binding)
    ensures BindCursor(None, b.attachmentId, b.sourceHash, b.mode, b.selector) == Resume(None)
  {}

  lemma OneRecordPage(w: seq<Candidate>, caps: Caps, b: Binding)
    requires ValidCaps(caps) && caps.results == 1 && |w| > 1
    ensures PageOf(w, caps, b).next == Some(CursorAt(b, w[0].identity))
  {
    hide CursorAt, Shown;
    EmptyTotal(w);
    assert !OnPage(w, 1, caps);
    assert OnPage(w, 0, caps);
    assert |PageOf(w, caps, b).records| == 1;
  }
}
