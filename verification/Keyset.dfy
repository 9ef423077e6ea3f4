/** Keyset pages over a table that other writers change, and whole walks of them. */
module Keyset {
  import opened Common

  // ----- Any listing order -----

  /** `after(a, b)`: b is listed later than a. */
  ghost predicate StrictTotal<K(!new)>(after: (K, K) -> bool) {
    && (forall a :: !after(a, a))
    && (forall a, b, c :: after(a, b) && after(b, c) ==> after(a, c))
    && (forall a, b :: a == b || after(a, b) || after(b, a))
  }

  ghost predicate Sorted<K>(after: (K, K) -> bool, l: seq<K>) {
    forall i, j :: 0 <= i < j < |l| ==> after(l[i], l[j])
  }

  /** `ORDER BY`: every row once, in listing order. */
  ghost predicate ListOf<K>(after: (K, K) -> bool, rows: set<K>, l: seq<K>) {
    Sorted(after, l) && ToSet(l) == rows
  }

  /** The rows a cursor's condition leaves. */
  ghost function Rest<K>(filter: (K, K) -> bool, rows: set<K>, cursor: Option<K>): set<K> {
    if cursor.None? then rows else set k | k in rows && filter(cursor.value, k)
  }

  /** `WHERE filter ORDER BY .. LIMIT limit + 1`, shown without the extra row, which only decides the next cursor. */
  ghost predicate IsPage<K(!new)>(
    after: (K, K) -> bool, filter: (K, K) -> bool, rows: set<K>, cursor: Option<K>, limit: nat,
                            page: seq<K>, next: Option<K>)
    requires limit > 0
  {
    exists full :: ListOf(after, Rest(filter, rows, cursor), full) && PageOfList(full, limit, page, next)
  }

  ghost predicate PageOfList<K>(full: seq<K>, limit: nat, page: seq<K>, next: Option<K>)
    requires limit > 0
  {
    && page == (if |full| <= limit then full else full[..limit])
    && next == (if |full| > limit then Some(full[limit - 1]) else None)
  }

  lemma {:induction false} ListIsUnique<K(!new)>(after: (K, K) -> bool, a: seq<K>, b: seq<K>)
    requires StrictTotal(after) && Sorted(after, a) && Sorted(after, b) && ToSet(a) == ToSet(b)
    ensures a == b
    decreases |a|
  {
    if a == [] || b == [] {
      NoElements(a);
      NoElements(b);
    } else {
      FirstIsLeast(after, a, b);
      SetOfTail(after, a);
      SetOfTail(after, b);
      ListIsUnique(after, a[1..], b[1..]);
      assert a == [a[0]] + a[1..] && b == [b[0]] + b[1..];
    }
  }

  lemma NoElements<K>(l: seq<K>)
    ensures ToSet(l) == {} <==> l == []
  {
    if l != [] {
      assert l[0] in ToSet(l);
    }
  }

  lemma FirstIsLeast<K(!new)>(after: (K, K) -> bool, a: seq<K>, b: seq<K>)
    requires StrictTotal(after) && Sorted(after, a) && Sorted(after, b) && ToSet(a) == ToSet(b) && a != [] && b != []
    ensures a[0] == b[0]
  {
    assert a[0] in ToSet(b) && b[0] in ToSet(a);
    var i :| 0 <= i < |b| && b[i] == a[0];
    var j :| 0 <= j < |a| && a[j] == b[0];
  }

  lemma SetOfTail<K(!new)>(after: (K, K) -> bool, a: seq<K>)
    requires StrictTotal(after) && Sorted(after, a) && a != []
    ensures ToSet(a[1..]) == ToSet(a) - {a[0]} && Sorted(after, a[1..])
  {}

  // ----- Walks -----

  datatype Page<K> = Page(rows: seq<K>, next: Option<K>)

  function Flat<K>(pages: seq<Page<K>>): seq<K> {
    if pages == [] then [] else pages[0].rows + Flat(pages[1..])
  }

  /** A finished walk: request i sees the table as it is then, and asks from the cursor of the page before. */
  ghost predicate IsWalk<K(!new)>(
    after: (K, K) -> bool, filter: (K, K) -> bool, tables: seq<set<K>>, pages: seq<Page<K>>,
                            cursor: Option<K>, limit: nat)
    requires limit > 0
    decreases |pages|
  {
    && pages != [] && |tables| == |pages|
    && IsPage(after, filter, tables[0], cursor, limit, pages[0].rows, pages[0].next)
    && if pages[0].next.None? then |pages| == 1
       else IsWalk(after, filter, tables[1..], pages[1..], pages[0].next, limit)
  }

  /** Between requests rows come and go only where the walk has already been. */
  ghost predicate UnchangedAhead<K>(after: (K, K) -> bool, tables: seq<set<K>>, pages: seq<Page<K>>)
    requires |tables| == |pages|
  {
    forall i :: 0 <= i < |pages| - 1 && pages[i].next.Some? ==>
      Rest(after, tables[i + 1], pages[i].next) == Rest(after, tables[i], pages[i].next)
  }

  /** On these rows the cursor condition selects what the order lists later. */
  ghost predicate FilterFits<K>(after: (K, K) -> bool, filter: (K, K) -> bool, rows: set<K>) {
    forall c, k :: c in rows && k in rows ==> filter(c, k) == after(c, k)
  }

  lemma PageRows<K(!new)>(after: (K, K) -> bool, rows: set<K>, cursor: Option<K>, limit: nat, p: Page<K>)
    requires StrictTotal(after) && limit > 0 && IsPage(after, after, rows, cursor, limit, p.rows, p.next)
    ensures |p.rows| <= limit && ToSet(p.rows) <= Rest(after, rows, cursor) && Sorted(after, p.rows)
    ensures p.next.None? ==> ToSet(p.rows) == Rest(after, rows, cursor)
    ensures p.next.Some? ==> |p.rows| == limit && p.next == Some(p.rows[limit - 1]) && p.next.value in rows
    ensures p.next.Some? ==> Rest(after, rows, cursor) == ToSet(p.rows) + Rest(after, Rest(after, rows, cursor), p.next)
    ensures p.next.Some? ==> Rest(after, Rest(after, rows, cursor), p.next) == Rest(after, rows, p.next)
  {
    var ahead := Rest(after, rows, cursor);
    var full :| ListOf(after, ahead, full) && PageOfList(full, limit, p.rows, p.next);
    assert forall k :: k in p.rows ==> k in ToSet(full);
    if p.next.Some? {
      var last := full[limit - 1];
      assert last in ToSet(full) && p.rows[limit - 1] == last;
      assert forall k :: k in ToSet(p.rows) ==> k in p.rows;
      SplitAt(after, full, limit);
      forall k | k in Rest(after, rows, p.next) ensures k in ahead {
        if cursor.Some? {
          assert after(cursor.value, last) && after(last, k);
        }
      }
    }
  }

  /** The rows after the last one of a prefix are those of the rest of the list. */
  lemma SplitAt<K(!new)>(after: (K, K) -> bool, l: seq<K>, n: nat)
    requires StrictTotal(after) && Sorted(after, l) && 0 < n < |l|
    ensures ToSet(l) == ToSet(l[..n]) + Rest(after, ToSet(l), Some(l[n - 1]))
  {
    forall k | k in ToSet(l) ensures k in ToSet(l[..n]) || k in Rest(after, ToSet(l), Some(l[n - 1])) {
      var i :| 0 <= i < |l| && l[i] == k;
      if i < n {
        assert l[..n][i] == k;
      }
    }
  }

  lemma AppendSorted<K(!new)>(after: (K, K) -> bool, a: seq<K>, b: seq<K>)
    requires StrictTotal(after) && Sorted(after, a) && Sorted(after, b) && a != []
    requires forall k :: k in b ==> after(a[|a| - 1], k)
    ensures Sorted(after, a + b)
  {
    forall i, j | 0 <= i < j < |a + b| ensures after((a + b)[i], (a + b)[j]) {
      if i < |a| <= j {
        assert b[j - |a|] in b;
        assert i < |a| - 1 ==> after(a[i], a[|a| - 1]);
      }
    }
  }

  /**
    A finished walk whose tables change only behind it lists every row that was ahead at its start,
    once and in order; every page but the last is full.
   */
  lemma {:induction false} WalkIsFullList<K(!new)>(
    after: (K, K) -> bool, tables: seq<set<K>>, pages: seq<Page<K>>, cursor: Option<K>, limit: nat)
    requires StrictTotal(after) && limit > 0 && IsWalk(after, after, tables, pages, cursor, limit)
    requires UnchangedAhead(after, tables, pages)
    ensures ListOf(after, Rest(after, tables[0], cursor), Flat(pages))
    ensures (|pages| - 1) * limit <= |Flat(pages)| <= |pages| * limit
    decreases |pages|
  {
    hide StrictTotal, IsPage;
    var p := pages[0];
    PageRows(after, tables[0], cursor, limit, p);
    if p.next.None? {
      assert pages[1..] == [] && Flat(pages) == p.rows;
    } else {
      assert Rest(after, tables[1], p.next) == Rest(after, tables[0], p.next);
      UnchangedLater(after, tables, pages);
      WalkIsFullList(after, tables[1..], pages[1..], p.next, limit);
      var rest := Flat(pages[1..]);
      assert tables[1..][0] == tables[1];
      assert forall k :: k in rest ==> k in ToSet(rest);
      AppendSorted(after, p.rows, rest);
      assert ToSet(p.rows + rest) == ToSet(p.rows) + ToSet(rest);
      Bounds(|pages|, limit, |rest|);
    }
  }

  lemma Bounds(n: nat, limit: nat, rest: nat)
    requires n > 1 && (n - 2) * limit <= rest <= (n - 1) * limit
    ensures (n - 1) * limit <= limit + rest <= n * limit
  {}

  lemma UnchangedLater<K>(after: (K, K) -> bool, tables: seq<set<K>>, pages: seq<Page<K>>)
    requires |tables| == |pages| > 0 && UnchangedAhead(after, tables, pages)
    ensures UnchangedAhead(after, tables[1..], pages[1..])
  {}

  /** A walk whose cursor condition fits the order is a walk by the order. */
  lemma {:induction false} FittingFilter<K(!new)>(
    after: (K, K) -> bool, filter: (K, K) -> bool, tables: seq<set<K>>, pages: seq<Page<K>>,
                                            cursor: Option<K>, limit: nat, all: set<K>)
    requires StrictTotal(after) && limit > 0 && FilterFits(after, filter, all) && (cursor.Some? ==> cursor.value in all)
    requires IsWalk(after, filter, tables, pages, cursor, limit) && forall i :: 0 <= i < |tables| ==> tables[i] <= all
    ensures IsWalk(after, after, tables, pages, cursor, limit)
    decreases |pages|
  {
    hide StrictTotal;
    assert tables[0] <= all;
    assert Rest(filter, tables[0], cursor) == Rest(after, tables[0], cursor);
    if pages[0].next.Some? {
      hide IsPage;
      PageRows(after, tables[0], cursor, limit, pages[0]);
      assert forall i :: 0 <= i < |tables[1..]| ==> tables[1..][i] == tables[i + 1];
      FittingFilter(after, filter, tables[1..], pages[1..], pages[0].next, limit, all);
    }
  }

  // ----- Newest first -----

  predicate LessText(a: string, b: string) {
    b != "" && (a == "" || a[0] < b[0] || (a[0] == b[0] && LessText(a[1..], b[1..])))
  }

  lemma {:induction false} LessTextNotSelf(a: string)
    ensures !LessText(a, a)
  {
    if a != "" {
      LessTextNotSelf(a[1..]);
    }
  }

  lemma {:induction false} LessTextChains(a: string, b: string, c: string)
    requires LessText(a, b) && LessText(b, c)
    ensures LessText(a, c)
  {
    if a != "" && a[0] == b[0] && b[0] == c[0] {
      LessTextChains(a[1..], b[1..], c[1..]);
    }
  }

  lemma {:induction false} LessTextTotal(a: string, b: string)
    ensures a == b || LessText(a, b) || LessText(b, a)
  {
    if a != "" && b != "" && a[0] == b[0] {
      LessTextTotal(a[1..], b[1..]);
      assert a == [a[0]] + a[1..] && b == [b[0]] + b[1..];
    }
  }

  /** `a` ends, or has the smaller character, at position `n`, up to which the two agree. */
  predicate PartsAt(a: string, b: string, n: nat) {
    n <= |a| && n < |b| && a[..n] == b[..n] && (n == |a| || a[n] < b[n])
  }

  /** Texts compare at the first position where they part. */
  lemma {:induction false} LessTextMeans(a: string, b: string)
    ensures LessText(a, b) <==> exists n: nat :: PartsAt(a, b, n)
  {
    if a != "" && b != "" && a[0] == b[0] {
      LessTextMeans(a[1..], b[1..]);
      assert a == [a[0]] + a[1..] && b == [b[0]] + b[1..];
      if LessText(a, b) {
        var n: nat :| PartsAt(a[1..], b[1..], n);
        assert PartsAt(a, b, n + 1);
      }
      if n: nat :| PartsAt(a, b, n) {
        assert n > 0 && a[1..][..n - 1] == a[..n][1..] && b[1..][..n - 1] == b[..n][1..];
        assert PartsAt(a[1..], b[1..], n - 1);
      }
    } else {
      assert LessText(a, b) ==> PartsAt(a, b, 0);
      assert forall n: nat :: PartsAt(a, b, n) && n > 0 ==> a[..n][0] == b[..n][0];
    }
  }

  /** Conversations use all three parts; messages, attachments, runs and jobs have no middle one. */
  datatype Key = Key(first: int, middle: int, id: string)

  /** The tuple comparison of the conversation query. */
  predicate Earlier(a: Key, b: Key) {
    a.first < b.first || (a.first == b.first && (a.middle < b.middle || (a.middle == b.middle && LessText(a.id, b.id))))
  }

  predicate NewestFirst(a: Key, b: Key) {
    Earlier(b, a)
  }

  /** The two-part condition of the other four queries. */
  predicate BeforeCursor(cursor: Key, k: Key) {
    k.first < cursor.first || (k.first == cursor.first && LessText(k.id, cursor.id))
  }

  /** Greatest first part first, then greatest middle part, then the id that compares greater. */
  ghost predicate InListingOrder(l: seq<Key>) {
    forall i, j :: 0 <= i < j < |l| ==>
      && l[i].first >= l[j].first && (l[i].first == l[j].first ==> l[i].middle >= l[j].middle)
      && (l[i].first == l[j].first && l[i].middle == l[j].middle ==> exists n: nat :: PartsAt(l[j].id, l[i].id, n))
  }

  lemma SortedIsInListingOrder(l: seq<Key>)
    requires Sorted(NewestFirst, l)
    ensures InListingOrder(l)
  {
    hide LessText, PartsAt;
    forall i, j | 0 <= i < j < |l| && LessText(l[j].id, l[i].id) ensures exists n: nat :: PartsAt(l[j].id, l[i].id, n) {
      LessTextMeans(l[j].id, l[i].id);
    }
    assert forall i, j :: 0 <= i < j < |l| ==> NewestFirst(l[i], l[j]);
  }

  lemma NewestFirstIsTotal()
    ensures StrictTotal(NewestFirst)
  {
    hide LessText;
    forall a: Key ensures !NewestFirst(a, a) {
      LessTextNotSelf(a.id);
    }
    forall a, b, c | NewestFirst(a, b) && NewestFirst(b, c) ensures NewestFirst(a, c) {
      if LessText(b.id, a.id) && LessText(c.id, b.id) {
        LessTextChains(c.id, b.id, a.id);
      }
    }
    forall a: Key, b: Key ensures a == b || NewestFirst(a, b) || NewestFirst(b, a) {
      LessTextTotal(a.id, b.id);
    }
  }

  lemma EarlierOneWay(a: Key, b: Key)
    ensures !(Earlier(a, b) && Earlier(b, a))
  {
    if LessText(a.id, b.id) && LessText(b.id, a.id) {
      LessTextChains(a.id, b.id, a.id);
      LessTextNotSelf(a.id);
    }
  }

  ghost predicate TwoPart(tables: seq<set<Key>>) {
    forall i, k :: 0 <= i < |tables| && k in tables[i] ==> k.middle == 0
  }

  ghost function AllRows<K>(tables: seq<set<K>>): set<K> {
    if tables == [] then {} else tables[0] + AllRows(tables[1..])
  }

  lemma {:induction false} InAllRows<K>(tables: seq<set<K>>)
    ensures forall i :: 0 <= i < |tables| ==> tables[i] <= AllRows(tables)
    ensures forall k :: k in AllRows(tables) ==> exists i :: 0 <= i < |tables| && k in tables[i]
  {
    if tables != [] {
      InAllRows(tables[1..]);
      forall i | 0 <= i < |tables| ensures tables[i] <= AllRows(tables) {
        if i > 0 {
          assert tables[1..][i - 1] == tables[i];
        }
      }
      forall k | k in AllRows(tables) ensures exists i :: 0 <= i < |tables| && k in tables[i] {
        if k !in tables[0] {
          var i :| 0 <= i < |tables[1..]| && k in tables[1..][i];
          assert tables[i + 1] == tables[1..][i];
        }
      }
    }
  }

  ghost predicate NewerOnly(start: set<Key>, rows: set<Key>) {
    start <= rows && forall k, base :: k in rows && k !in start && base in start ==> Earlier(base, k)
  }

  /** Rows that arrive during the walk are newer than every row there was at its start; none leaves. */
  ghost predicate OnlyNewerArrive(tables: seq<set<Key>>) {
    tables != [] && forall i :: 0 <= i < |tables| ==> NewerOnly(tables[0], tables[i])
  }

  /** Pages show rows of the table the walk started from, as long as only newer rows arrive. */
  lemma {:induction false} NewerRowsStayBehind(
    tables: seq<set<Key>>, pages: seq<Page<Key>>, cursor: Option<Key>, limit: nat, start: set<Key>)
    requires limit > 0 && IsWalk(NewestFirst, NewestFirst, tables, pages, cursor, limit)
    requires forall i :: 0 <= i < |tables| ==> NewerOnly(start, tables[i])
    requires if cursor.Some? then cursor.value in start else tables[0] == start
    ensures UnchangedAhead(NewestFirst, tables, pages)
    decreases |pages|
  {
    hide IsPage, Earlier;
    NewestFirstIsTotal();
    PageRows(NewestFirst, tables[0], cursor, limit, pages[0]);
    assert NewerOnly(start, tables[0]);
    if pages[0].next.Some? {
      assert NewerOnly(start, tables[1]);
      RestIsOfStart(start, tables[0], cursor);
      var last := pages[0].next.value;
      assert last in pages[0].rows && last in ToSet(pages[0].rows);
      RestIsOfStart(start, tables[0], pages[0].next);
      RestIsOfStart(start, tables[1], pages[0].next);
      assert forall i :: 0 <= i < |tables[1..]| ==> tables[1..][i] == tables[i + 1];
      NewerRowsStayBehind(tables[1..], pages[1..], pages[0].next, limit, start);
      forall i | 0 <= i < |pages| - 1 && pages[i].next.Some?
        ensures Rest(NewestFirst, tables[i + 1], pages[i].next) == Rest(NewestFirst, tables[i], pages[i].next)
      {
        if i > 0 {
          assert pages[1..][i - 1] == pages[i] && tables[1..][i] == tables[i + 1] && tables[1..][i - 1] == tables[i];
        }
      }
    }
  }

  lemma RestIsOfStart(start: set<Key>, rows: set<Key>, cursor: Option<Key>)
    requires NewerOnly(start, rows) && (if cursor.Some? then cursor.value in start else rows == start)
    ensures Rest(NewestFirst, rows, cursor) == Rest(NewestFirst, start, cursor)
  {
    NewestFirstIsTotal();
    if cursor.Some? {
      forall k | k in rows && k !in start ensures !NewestFirst(cursor.value, k) {
        EarlierOneWay(cursor.value, k);
      }
    }
  }

  /**
    Walking messages, attachments, runs or jobs newest first by the last returned key lists the table as
    it was at the start: everything, once, in order, although newer rows arrive in between.
   */
  lemma NewestFirstWalk(tables: seq<set<Key>>, pages: seq<Page<Key>>, limit: nat)
    requires limit > 0 && TwoPart(tables) && IsWalk(NewestFirst, BeforeCursor, tables, pages, None, limit)
    requires OnlyNewerArrive(tables)
    ensures ListOf(NewestFirst, tables[0], Flat(pages)) && InListingOrder(Flat(pages))
    ensures (|pages| - 1) * limit <= |tables[0]| <= |pages| * limit
  {
    hide IsPage, IsWalk, UnchangedAhead;
    NewestFirstIsTotal();
    InAllRows(tables);
    WalkHasTable(tables, pages, limit);
    FittingFilter(NewestFirst, BeforeCursor, tables, pages, None, limit, AllRows(tables));
    ConversationWalk(tables, pages, limit);
  }

  lemma WalkHasTable(tables: seq<set<Key>>, pages: seq<Page<Key>>, limit: nat)
    requires limit > 0 && IsWalk(NewestFirst, BeforeCursor, tables, pages, None, limit)
    ensures |tables| == |pages| > 0
  {}

  /** The three-part walk over conversations, as long as no listed conversation is touched meanwhile. */
  lemma ConversationWalk(tables: seq<set<Key>>, pages: seq<Page<Key>>, limit: nat)
    requires limit > 0 && IsWalk(NewestFirst, NewestFirst, tables, pages, None, limit) && OnlyNewerArrive(tables)
    ensures ListOf(NewestFirst, tables[0], Flat(pages)) && InListingOrder(Flat(pages))
    ensures (|pages| - 1) * limit <= |tables[0]| <= |pages| * limit
  {
    hide IsPage, IsWalk, Earlier;
    NewestFirstIsTotal();
    assert forall i :: 0 <= i < |tables| ==> NewerOnly(tables[0], tables[i]);
    NewerRowsStayBehind(tables, pages, None, limit, tables[0]);
    WalkIsFullList(NewestFirst, tables, pages, None, limit);
    SortedIsInListingOrder(Flat(pages));
    SortedIsDistinct(Flat(pages));
    DistinctSetSize(Flat(pages));
  }

  lemma SortedIsDistinct(l: seq<Key>)
    requires Sorted(NewestFirst, l)
    ensures Distinct(l)
  {
    NewestFirstIsTotal();
  }

  // ----- Chunks: filtered by (created_at, ordinal), listed by ordinal -----

  datatype ChunkKey = ChunkKey(created: int, ordinal: int)

  predicate ByOrdinal(a: ChunkKey, b: ChunkKey) {
    a.ordinal < b.ordinal || (a.ordinal == b.ordinal && a.created < b.created)
  }

  predicate AfterChunk(cursor: ChunkKey, k: ChunkKey) {
    k.created > cursor.created || (k.created == cursor.created && k.ordinal > cursor.ordinal)
  }

  /** One attachment's chunks have distinct ordinals. */
  ghost predicate OrdinalsApart(rows: set<ChunkKey>) {
    forall a, b :: a in rows && b in rows && a.ordinal == b.ordinal ==> a == b
  }

  ghost predicate CreatedInOrder(rows: set<ChunkKey>) {
    forall a, b :: a in rows && b in rows && a.ordinal < b.ordinal ==> a.created <= b.created
  }

  /**
    After every chunk the cursor condition leaves exactly the later chunks iff creation times never
    fall along the ordinals.
   */
  lemma ChunkFilterFitsIff(rows: set<ChunkKey>)
    requires OrdinalsApart(rows)
    ensures FilterFits(ByOrdinal, AfterChunk, rows) <==> CreatedInOrder(rows)
  {}

  lemma ByOrdinalIsTotal()
    ensures StrictTotal(ByOrdinal)
  {}

  lemma AfterChunkIsTotal()
    ensures StrictTotal(AfterChunk)
  {}

  /** A finished walk over chunks that do not change meanwhile. */
  ghost predicate SteadyWalk(rows: set<ChunkKey>, tables: seq<set<ChunkKey>>, pages: seq<Page<ChunkKey>>, limit: nat)
    requires limit > 0
  {
    (forall i :: 0 <= i < |tables| ==> tables[i] == rows) && IsWalk(ByOrdinal, AfterChunk, tables, pages, None, limit)
  }

  ghost predicate EveryWalkComplete(rows: set<ChunkKey>, limit: nat)
    requires limit > 0
  {
    forall tables, pages :: SteadyWalk(rows, tables, pages, limit) ==> ListOf(ByOrdinal, rows, Flat(pages))
  }

  /** When creation times never fall, every walk lists all chunks once, in source order, at any page size. */
  lemma ChunkWalk(rows: set<ChunkKey>, tables: seq<set<ChunkKey>>, pages: seq<Page<ChunkKey>>, limit: nat)
    requires limit > 0 && OrdinalsApart(rows) && CreatedInOrder(rows) && SteadyWalk(rows, tables, pages, limit)
    ensures ListOf(ByOrdinal, rows, Flat(pages))
    ensures forall i, j :: 0 <= i < j < |Flat(pages)| ==> Flat(pages)[i].ordinal < Flat(pages)[j].ordinal
  {
    hide IsPage;
    ByOrdinalIsTotal();
    ChunkFilterFitsIff(rows);
    FittingFilter(ByOrdinal, AfterChunk, tables, pages, None, limit, rows);
    WalkIsFullList(ByOrdinal, tables, pages, None, limit);
    RisesInOrdinal(rows, Flat(pages));
  }

  lemma RisesInOrdinal(rows: set<ChunkKey>, l: seq<ChunkKey>)
    requires OrdinalsApart(rows) && ListOf(ByOrdinal, rows, l)
    ensures forall i, j :: 0 <= i < j < |l| ==> l[i].ordinal < l[j].ordinal
  {
    forall i, j | 0 <= i < j < |l| ensures l[i].ordinal < l[j].ordinal {
      assert l[i] in ToSet(l) && l[j] in ToSet(l) && ByOrdinal(l[i], l[j]);
    }
  }

  /** Walks at one chunk a page are all complete iff creation times never fall; there always is one. */
  lemma SingleChunkWalksCompleteIff(rows: set<ChunkKey>)
    requires OrdinalsApart(rows)
    ensures EveryWalkComplete(rows, 1) <==> CreatedInOrder(rows)
    ensures exists tables, pages :: SteadyWalk(rows, tables, pages, 1)
  {
    hide IsWalk, ByOrdinal, AfterChunk;
    ByOrdinalIsTotal();
    AfterChunkIsTotal();
    var tables, pages := FinishedWalk(ByOrdinal, AfterChunk, rows, None, 1);
    assert SteadyWalk(rows, tables, pages, 1);
    if CreatedInOrder(rows) {
      forall tables, pages | SteadyWalk(rows, tables, pages, 1) ensures ListOf(ByOrdinal, rows, Flat(pages)) {
        ChunkWalk(rows, tables, pages, 1);
      }
    }
    if EveryWalkComplete(rows, 1) {
      SinglePagesRise(rows, tables, pages, None);
      RisingInBoth(rows, Flat(pages));
    }
  }

  /** One chunk a page, each page holds a chunk later than the one before in the cursor's own order. */
  lemma {:induction false} SinglePagesRise(
    rows: set<ChunkKey>, tables: seq<set<ChunkKey>>, pages: seq<Page<ChunkKey>>, cursor: Option<ChunkKey>)
    requires IsWalk(ByOrdinal, AfterChunk, tables, pages, cursor, 1)
    requires forall i :: 0 <= i < |tables| ==> tables[i] == rows
    ensures Sorted(AfterChunk, Flat(pages)) && forall k :: k in Flat(pages) ==> k in Rest(AfterChunk, rows, cursor)
    decreases |pages|
  {
    hide ByOrdinal;
    AfterChunkIsTotal();
    var p := pages[0];
    assert tables[0] == rows;
    var full :| ListOf(ByOrdinal, Rest(AfterChunk, rows, cursor), full) && PageOfList(full, 1, p.rows, p.next);
    assert forall k :: k in p.rows ==> k in ToSet(full);
    if p.next.None? {
      assert pages[1..] == [] && Flat(pages) == p.rows;
    } else {
      hide StrictTotal;
      SinglePagesRise(rows, tables[1..], pages[1..], p.next);
      var rest := Flat(pages[1..]);
      assert p.rows == [p.next.value];
      AppendSorted(AfterChunk, p.rows, rest);
      forall k | k in rest ensures k in Rest(AfterChunk, rows, cursor) {
        RestChains(AfterChunk, rows, cursor, p.next.value, k);
      }
    }
  }

  lemma RestChains<K(!new)>(filter: (K, K) -> bool, rows: set<K>, cursor: Option<K>, c: K, k: K)
    requires StrictTotal(filter) && c in Rest(filter, rows, cursor) && k in Rest(filter, rows, Some(c))
    ensures k in Rest(filter, rows, cursor) && k != c
  {}

  lemma RisingInBoth(rows: set<ChunkKey>, l: seq<ChunkKey>)
    requires ListOf(ByOrdinal, rows, l) && Sorted(AfterChunk, l)
    ensures CreatedInOrder(rows)
  {
    forall a, b | a in rows && b in rows && a.ordinal < b.ordinal ensures a.created <= b.created {
      assert a in ToSet(l) && b in ToSet(l);
      var i :| 0 <= i < |l| && l[i] == a;
      var j :| 0 <= j < |l| && l[j] == b;
      assert i < j ==> AfterChunk(l[i], l[j]);
    }
  }

  /** The pair that breaks a walk: a page after the first misses the second, one after the second repeats the first. */
  lemma FallingPairIsSkipped(rows: set<ChunkKey>, c: ChunkKey, k: ChunkKey)
    requires c in rows && k in rows && c.ordinal < k.ordinal && k.created < c.created
    ensures k !in Rest(AfterChunk, rows, Some(c)) && k in Rest(ByOrdinal, rows, Some(c))
    ensures c in Rest(AfterChunk, rows, Some(k)) && c !in Rest(ByOrdinal, rows, Some(k))
  {}

  // ----- Walks end -----

  lemma {:induction false} LeastOf<K(!new)>(after: (K, K) -> bool, rows: set<K>) returns (least: K)
    requires StrictTotal(after) && rows != {}
    ensures least in rows && forall k :: k in rows && k != least ==> after(least, k)
    decreases |rows|
  {
    least :| least in rows;
    if rows != {least} {
      var other := LeastOf(after, rows - {least});
      if after(other, least) {
        least := other;
      }
    }
  }

  lemma {:induction false} ListExists<K(!new)>(after: (K, K) -> bool, rows: set<K>) returns (l: seq<K>)
    requires StrictTotal(after)
    ensures ListOf(after, rows, l)
    decreases |rows|
  {
    l := [];
    if rows == {} {
      assert ToSet(l) == {};
    } else {
      var least := LeastOf(after, rows);
      var rest := ListExists(after, rows - {least});
      l := [least] + rest;
      assert forall k :: k in rest ==> k in ToSet(rest);
      AppendSorted(after, [least], rest);
      assert ToSet(l) == {least} + ToSet(rest);
    }
  }

  /** Over a table that does not change, a walk by any cursor order that is strict comes to an end. */
  lemma {:induction false} FinishedWalk<K(!new)>(
    after: (K, K) -> bool, filter: (K, K) -> bool, rows: set<K>, cursor: Option<K>, limit: nat)
    returns (tables: seq<set<K>>, pages: seq<Page<K>>)
    requires StrictTotal(after) && StrictTotal(filter) && limit > 0
    ensures IsWalk(after, filter, tables, pages, cursor, limit)
    ensures forall i :: 0 <= i < |tables| ==> tables[i] == rows
    decreases |Rest(filter, rows, cursor)|
  {
    var full := ListExists(after, Rest(filter, rows, cursor));
    if |full| <= limit {
      tables, pages := [rows], [Page(full, None)];
      assert IsPage(after, filter, tables[0], cursor, limit, full, None);
    } else {
      var c := full[limit - 1];
      assert c in ToSet(full);
      forall k | k in Rest(filter, rows, Some(c)) ensures k in Rest(filter, rows, cursor) && k != c {
        RestChains(filter, rows, cursor, c, k);
      }
      SmallerSet(Rest(filter, rows, Some(c)), Rest(filter, rows, cursor), c);
      var laterTables, laterPages := FinishedWalk(after, filter, rows, Some(c), limit);
      tables, pages := [rows] + laterTables, [Page(full[..limit], Some(c))] + laterPages;
      assert IsPage(after, filter, tables[0], cursor, limit, full[..limit], Some(c));
      assert tables[1..] == laterTables && pages[1..] == laterPages;
    }
  }

  lemma {:induction false} SmallerSet<K>(a: set<K>, b: set<K>, x: K)
    requires x in b && forall k :: k in a ==> k in b && k != x
    ensures |a| < |b|
    decreases |a|
  {
    if a != {} {
      var y :| y in a;
      SmallerSet(a - {y}, b - {y}, x);
    }
  }
}
