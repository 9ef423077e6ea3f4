/** The bounded active-CV reader: records, in-place truncation, and one page. */
module CvReader {
  import opened Common
  import opened Json
  import opened Cursor

  const MIN_RESULTS := 1
  const MAX_RESULTS := 10
  const MIN_CHARS := 500
  const MAX_CHARS := 12000
  const EXCERPT_CHARS := 400
  const SCAN_CEILING := 2000

  // ----- Records -----

  /** The text fields truncation knows, in the order it visits them. */
  datatype TextKey = Body | Text | Excerpt

  /** What a record says about an entry besides its text; truncation leaves all four alone. */
  datatype Head = Head(title: Option<Codes>, subtitle: Option<Codes>, dateText: Option<Codes>, location: Option<Codes>)

  const NO_HEAD := Head(None, None, None, None)

  datatype Record = Record(fields: map<TextKey, Codes>, head: Head, bullets: Option<seq<Codes>>, marked: bool)

  datatype Candidate = Candidate(identity: Codes, record: Record, text: Codes)

  function Flat(parts: seq<Codes>): Codes {
    if parts == [] then [] else Flat(parts[..|parts| - 1]) + parts[|parts| - 1]
  }

  function FieldText(fields: map<TextKey, Codes>, k: TextKey): Codes {
    if k in fields then fields[k] else []
  }

  function FieldsLength(fields: map<TextKey, Codes>): nat {
    |FieldText(fields, Body)| + |FieldText(fields, Text)| + |FieldText(fields, Excerpt)|
  }

  function OptionLength(t: Option<Codes>): nat {
    match t case Some(text) => |text| case None => 0
  }

  /** Subtitle, date and location: shown with every entry, never charged and never cut. */
  function AsideLength(h: Head): nat {
    OptionLength(h.subtitle) + OptionLength(h.dateText) + OptionLength(h.location)
  }

  /** Every character of CV text a record carries. */
  function RealLength(r: Record): nat {
    FieldsLength(r.fields) + OptionLength(r.head.title) + AsideLength(r.head)
    + (match r.bullets case Some(bs) => |Flat(bs)| case None => 0)
  }

  // ----- Truncation in place -----

  function Prefix(s: Codes, n: int): Codes {
    if n <= 0 then [] else if n < |s| then s[..n] else s
  }

  /** Characters in the fields visited before position `i`. */
  function SpentBefore(fields: map<TextKey, Codes>, i: nat): nat {
    (if i > 0 then |FieldText(fields, Body)| else 0) + (if i > 1 then |FieldText(fields, Text)| else 0)
    + (if i > 2 then |FieldText(fields, Excerpt)| else 0)
  }

  /** What is left of a budget when field `k` is reached. */
  function RoomFor(fields: map<TextKey, Codes>, budget: int, k: TextKey): int {
    budget - SpentBefore(fields, Position(k))
  }

  function Position(k: TextKey): nat {
    match k case Body => 0 case Text => 1 case Excerpt => 2
  }

  /** The fields once the first `n` have been visited. */
  function CutSome(fields: map<TextKey, Codes>, budget: int, n: nat): map<TextKey, Codes> {
    map k | k in fields :: if Position(k) < n then Prefix(fields[k], RoomFor(fields, budget, k)) else fields[k]
  }

  function CutFields(fields: map<TextKey, Codes>, budget: int): map<TextKey, Codes> {
    CutSome(fields, budget, 3)
  }

  lemma CutOneMore(fields: map<TextKey, Codes>, budget: int, k: TextKey)
    ensures CutSome(fields, budget, Position(k) + 1)
         == if k !in fields then CutSome(fields, budget, Position(k))
            else CutSome(fields, budget, Position(k))[k := Prefix(fields[k], RoomFor(fields, budget, k))]
  {
    hide Prefix, RoomFor;
  }

  /** The record with one budget spent on body, text and excerpt; bullets go only when it is used up. */
  function Cut(r: Record, budget: int): Record {
    r.(fields := CutFields(r.fields, budget),
       bullets := if budget > 0 && r.bullets.Some? && FieldsLength(r.fields) >= budget then Some([]) else r.bullets)
  }

  function CutText(fields: map<TextKey, Codes>): Codes {
    FieldText(fields, Body) + FieldText(fields, Text) + FieldText(fields, Excerpt)
  }

  /**
    Truncation keeps the first `budget` characters of the three fields read one after another, adds
    or drops no field, leaves title, subtitle, date and location alone, and drops the bullets exactly
    when the fields use up a positive budget.
   */
  lemma CutIsAPrefix(r: Record, budget: nat)
    ensures CutText(Cut(r, budget).fields) == Prefix(CutText(r.fields), budget)
    ensures Cut(r, budget).fields.Keys == r.fields.Keys && Cut(r, budget).head == r.head
    ensures FieldsLength(Cut(r, budget).fields) == Min(budget, FieldsLength(r.fields))
    ensures Cut(r, budget).marked == r.marked
    ensures Cut(r, budget).bullets
            == if r.bullets.Some? && 0 < budget <= |CutText(r.fields)| then Some([]) else r.bullets
  {
    hide Prefix, RoomFor;
    var b, t, e := FieldText(r.fields, Body), FieldText(r.fields, Text), FieldText(r.fields, Excerpt);
    CutFieldText(r.fields, budget, Body);
    CutFieldText(r.fields, budget, Text);
    CutFieldText(r.fields, budget, Excerpt);
    PrefixOfThree(b, t, e, budget);
    assert CutText(r.fields) == b + t + e;
    assert |CutText(Cut(r, budget).fields)| == FieldsLength(Cut(r, budget).fields);
  }

  lemma CutFieldText(fields: map<TextKey, Codes>, budget: int, k: TextKey)
    ensures FieldText(CutFields(fields, budget), k)
            == Prefix(FieldText(fields, k), budget - SpentBefore(fields, Position(k)))
  {}

  lemma PrefixOfThree(b: Codes, t: Codes, e: Codes, n: nat)
    ensures Prefix(b + t + e, n) == Prefix(b, n) + Prefix(t, n - |b|) + Prefix(e, n - |b| - |t|)
    ensures |Prefix(b + t + e, n)| == Min(n, |b| + |t| + |e|)
  {}

  class RecordBox {
    var fields: map<TextKey, Codes>
    var head: Head
    var bullets: Option<seq<Codes>>
    var marked: bool

    ghost function Value(): Record
      reads this
    {
      Record(fields, head, bullets, marked)
    }

    constructor (r: Record)
      ensures Value() == r
    {
      fields, head, bullets, marked := r.fields, r.head, r.bullets, r.marked;
    }

    method Truncate(budget: int)
      modifies this
      ensures Value() == Cut(old(Value()), budget)
    {
      hide CutSome, Prefix, RoomFor, SpentBefore;
      if budget <= 0 {
        BlankFields();
        BlankedIsCut(old(fields), budget);
        return;
      }
      ghost var was := fields;
      var remaining := budget;
      var keys := [Body, Text, Excerpt];
      NothingCutYet(was, budget);
      for i := 0 to 3
        invariant head == old(head) && bullets == old(bullets) && marked == old(marked)
        invariant fields == CutSome(was, budget, i)
        invariant remaining == if budget <= SpentBefore(was, i) then 0 else budget - SpentBefore(was, i)
      {
        CutOneMore(was, budget, keys[i]);
        CutLooksAt(was, budget, keys[i], remaining);
        if keys[i] in fields {
          var val := fields[keys[i]];
          if |val| <= remaining {
            remaining := remaining - |val|;
          } else {
            fields := fields[keys[i] := val[..remaining]];
            remaining := 0;
          }
        }
      }
      AllSpent(was);
      if bullets.Some? && remaining == 0 {
        bullets := Some([]);
      }
    }

    method BlankFields()
      modifies this`fields
      ensures fields == map k | k in old(fields) :: []
    {
      if Body in fields { fields := fields[Body := []]; }
      if Text in fields { fields := fields[Text := []]; }
      if Excerpt in fields { fields := fields[Excerpt := []]; }
      assert forall k :: k in old(fields) ==> k == Body || k == Text || k == Excerpt;
      assert fields.Keys == old(fields).Keys;
    }
  }

  lemma BlankedIsCut(fields: map<TextKey, Codes>, budget: int)
    requires budget <= 0
    ensures (map k | k in fields :: []) == CutFields(fields, budget)
  {}

  lemma NothingCutYet(fields: map<TextKey, Codes>, budget: int)
    ensures CutSome(fields, budget, 0) == fields && SpentBefore(fields, 0) == 0
  {}

  lemma AllSpent(fields: map<TextKey, Codes>)
    ensures SpentBefore(fields, 3) == FieldsLength(fields)
  {}

  /** When field `k` is reached it is still whole, and what is left of the budget decides its cut. */
  lemma CutLooksAt(fields: map<TextKey, Codes>, budget: int, k: TextKey, remaining: int)
    requires remaining == if budget <= SpentBefore(fields, Position(k)) then 0
             else budget - SpentBefore(fields, Position(k))
    ensures k in CutSome(fields, budget, Position(k)) <==> k in fields
    ensures k in fields ==> CutSome(fields, budget, Position(k))[k] == fields[k]
    ensures k in fields ==>
              Prefix(fields[k], RoomFor(fields, budget, k)) == if |fields[k]| <= remaining then fields[k]
                else fields[k][..remaining]
    ensures SpentBefore(fields, Position(k) + 1) == SpentBefore(fields, Position(k)) + |FieldText(fields, k)|
  {}

  // ----- One page -----

  datatype Page = Page(records: seq<Record>, used: int, truncated: bool, next: Option<string>)

  datatype Binding = Binding(attachmentId: Codes, sourceHash: Codes, mode: Codes, selector: Codes)

  datatype Caps = Caps(results: int, chars: int)

  predicate ValidCaps(caps: Caps) {
    MIN_RESULTS <= caps.results <= MAX_RESULTS && MIN_CHARS <= caps.chars <= MAX_CHARS
  }

  function TextTotal(w: seq<Candidate>): nat {
    Sum((c: Candidate) => |c.text|, w)
  }

  /** The first position at or after `from` holding the identity, or the end. */
  function FirstIndex(cands: seq<Candidate>, id: Codes, from: nat): (i: nat)
    requires from <= |cands|
    ensures from <= i <= |cands|
    ensures i < |cands| ==> cands[i].identity == id
    ensures forall j :: from <= j < i ==> cands[j].identity != id
    decreases |cands| - from
  {
    if from == |cands| || cands[from].identity == id then from else FirstIndex(cands, id, from + 1)
  }

  /** Where a page starts: after the first candidate with the cursor's identity; past the end if none. */
  function StartOf(cands: seq<Candidate>, after: Option<Codes>): (start: nat)
    ensures start <= |cands|
  {
    match after
    case None => 0
    case Some(id) => Min(FirstIndex(cands, id, 0) + 1, |cands|)
  }

  /** Position `j` of the window is on the page: a result slot and at least one character are left. */
  predicate OnPage(w: seq<Candidate>, j: nat, caps: Caps)
    requires j <= |w|
  {
    j < |w| && j < caps.results && TextTotal(w[..j]) < caps.chars
  }

  /** Candidate `j` as the page shows it. */
  function Shown(w: seq<Candidate>, j: nat, caps: Caps): Record
    requires j < |w|
  {
    var room := caps.chars - TextTotal(w[..j]);
    if |w[j].text| > room then Cut(w[j].record, room).(marked := true) else w[j].record
  }

  function CursorAt(b: Binding, identity: Codes): string {
    EncodeReader(ReaderCursor(b.attachmentId, b.sourceHash, b.mode, b.selector, identity))
  }

  /**
    The page a window yields, stated without the loop: its records are the positions `OnPage`, it
    accounts for at most the cap, and it offers a cursor iff something was cut or is left.
   */
  ghost predicate IsPage(w: seq<Candidate>, caps: Caps, b: Binding, p: Page) {
    var k := |p.records|;
    && k <= |w|
    && (forall j: nat :: j < k ==> OnPage(w, j, caps))
    && !OnPage(w, k, caps)
    && (forall j: nat :: j < k ==> p.records[j] == Shown(w, j, caps))
    && p.truncated == (TextTotal(w[..k]) > caps.chars)
    && p.used == Min(TextTotal(w[..k]), caps.chars)
    && p.next == (if k > 0 && (p.truncated || k < |w|) then Some(CursorAt(b, w[k - 1].identity)) else None)
  }

  lemma EmptyTotal(w: seq<Candidate>)
    ensures TextTotal(w[..0]) == 0
  {}

  lemma TotalStep(w: seq<Candidate>, j: nat)
    requires j < |w|
    ensures TextTotal(w[..j + 1]) == TextTotal(w[..j]) + |w[j].text|
  {
    assert w[..j + 1][..j] == w[..j];
  }

  method StartAfter(cands: seq<Candidate>, after: Option<Codes>) returns (start: nat)
    ensures start == StartOf(cands, after)
    ensures after.None? ==> start == 0
    ensures after.Some? && (forall i :: 0 <= i < |cands| ==> cands[i].identity != after.value) ==> start == |cands|
    ensures after.Some? && (exists i :: 0 <= i < |cands| && cands[i].identity == after.value) ==>
              0 < start <= |cands| && cands[start - 1].identity == after.value
              && forall i :: 0 <= i < start - 1 ==> cands[i].identity != after.value
  {
    start := 0;
    if after.Some? {
      for i := 0 to |cands|
        invariant FirstIndex(cands, after.value, 0) == FirstIndex(cands, after.value, i)
      {
        if cands[i].identity == after.value {
          return i + 1;
        }
      }
      start := |cands|;
    }
  }

  method FillPage(w: seq<Candidate>, caps: Caps) returns (records: seq<Record>, used: int, truncated: bool)
    requires ValidCaps(caps)
    ensures |records| <= |w| && !OnPage(w, |records|, caps)
    ensures forall j: nat :: j < |records| ==> OnPage(w, j, caps) && records[j] == Shown(w, j, caps)
    ensures truncated == (TextTotal(w[..|records|]) > caps.chars)
    ensures used == Min(TextTotal(w[..|records|]), caps.chars)
  {
    hide Cut, TextTotal;
    records, used, truncated := [], 0, false;
    var idx := 0;
    EmptyTotal(w);
    while idx < |w| && !truncated && |records| < caps.results && caps.chars - used > 0
      invariant 0 <= idx == |records| <= |w|
      invariant forall j: nat :: j < idx ==> OnPage(w, j, caps) && records[j] == Shown(w, j, caps)
      invariant truncated == (TextTotal(w[..idx]) > caps.chars)
      invariant used == Min(TextTotal(w[..idx]), caps.chars)
    {
      var cand := w[idx];
      var remaining := caps.chars - used;
      TotalStep(w, idx);
      if |cand.text| > remaining {
        var box := new RecordBox(cand.record);
        box.Truncate(remaining);
        box.marked := true;
        records := records + [Record(box.fields, box.head, box.bullets, box.marked)];
        used := used + remaining;
        truncated := true;
      } else {
        records := records + [cand.record];
        used := used + |cand.text|;
      }
      idx := idx + 1;
    }
  }

  /** The page shows as long a prefix as the caps allow, and leads on from its last record unless it shows all whole. */
  ghost predicate FillsPage(p: Page, w: seq<Candidate>, caps: Caps, b: Binding) {
    var k := |p.records|;
    && ShowsPrefix(p, w, caps)
    && (k < |w| ==> k == caps.results || p.used == caps.chars)
    && (p.next.None? <==> k == |w| && !p.truncated)
    && (p.next.Some? ==>
          && 0 < k <= |w|
          && p.next.value == EncodeReader(ReaderCursor(b.attachmentId, b.sourceHash, b.mode, b.selector,
                                                       w[k - 1].identity)))
  }

  lemma PageFills(w: seq<Candidate>, caps: Caps, b: Binding, p: Page)
    requires ValidCaps(caps) && IsPage(w, caps, b, p)
    ensures FillsPage(p, w, caps, b)
  {
    PageIsPageOf(w, caps, b, p);
    PageShowsPrefix(w, caps, b);
    hide TextTotal, Shown, ShowsPrefix;
  }

  method PageCandidates(cands: seq<Candidate>, after: Option<Codes>, caps: Caps, b: Binding) returns (p: Page)
    requires ValidCaps(caps)
    ensures IsPage(cands[StartOf(cands, after)..], caps, b, p)
    ensures FillsPage(p, cands[StartOf(cands, after)..], caps, b)
  {
    hide Shown, TextTotal, CursorAt, StartOf, FillsPage;
    var start := StartAfter(cands, after);
    var w := cands[start..];
    var records, used, truncated := FillPage(w, caps);
    var hasMore := |records| > 0 && |records| < |w|;
    if |records| >= caps.results && start + |records| < |cands| {
      hasMore := true;
    }
    var next: Option<string> := None;
    if |records| > 0 && (truncated || hasMore) {
      next := Some(CursorAt(b, w[|records| - 1].identity));
    }
    assert truncated ==> |records| > 0 by { EmptyTotal(w); }
    p := Page(records, used, truncated, next);
    PageFills(w, caps, b, p);
  }

  // ----- The page as a function of its window -----

  /** The first position from `j` on that is not on the page. */
  function Reach(w: seq<Candidate>, caps: Caps, j: nat): (k: nat)
    requires j <= |w|
    ensures j <= k <= |w| && !OnPage(w, k, caps)
    ensures forall i: nat :: j <= i < k ==> OnPage(w, i, caps)
    decreases |w| - j
  {
    if OnPage(w, j, caps) then Reach(w, caps, j + 1) else j
  }

  function PageOf(w: seq<Candidate>, caps: Caps, b: Binding): (p: Page)
    ensures |p.records| <= |w| && (p.next.Some? ==> p.records != [])
  {
    var k := Reach(w, caps, 0);
    var total := TextTotal(w[..k]);
    Page(seq(k, j requires 0 <= j < k => Shown(w, j, caps)), Min(total, caps.chars), total > caps.chars,
         if k > 0 && (total > caps.chars || k < |w|) then Some(CursorAt(b, w[k - 1].identity)) else None)
  }

  /** A page is determined by its window. */
  lemma PageIsPageOf(w: seq<Candidate>, caps: Caps, b: Binding, p: Page)
    ensures IsPage(w, caps, b, p) <==> p == PageOf(w, caps, b)
  {
    hide Shown, TextTotal, CursorAt, OnPage;
    var q := PageOf(w, caps, b);
    if IsPage(w, caps, b, p) {
      var k := Reach(w, caps, 0);
      assert !(|p.records| < k) && !(k < |p.records|);
      assert p.records == q.records;
    }
  }

  /** The page shows the first `|records|` of `w`: all whole, or all but the last whole and the last cut. */
  ghost predicate ShowsPrefix(p: Page, w: seq<Candidate>, caps: Caps) {
    var k := |p.records|;
    && k <= |w| && k <= caps.results && p.used <= caps.chars
    && (forall j: nat :: j < k && (j < k - 1 || !p.truncated) ==> p.records[j] == w[j].record)
    && (!p.truncated ==> p.used == TextTotal(w[..k]))
    && (p.truncated ==> k > 0 && LastCut(p, w[..k]))
  }

  /** The last record is cut to the characters the page had left for it, at least one and not all. */
  ghost predicate LastCut(p: Page, w: seq<Candidate>)
    requires 0 < |w| == |p.records|
  {
    var k := |w| - 1;
    var room := p.used - TextTotal(w[..k]);
    0 < room < |w[k].text| && p.records[k] == Cut(w[k].record, room).(marked := true)
  }

  lemma TotalGrows(w: seq<Candidate>, i: nat, j: nat)
    requires i <= j <= |w|
    ensures TextTotal(w[..i]) <= TextTotal(w[..j])
  {
    assert w[..j] == w[..i] + w[i..j];
    SumAppend((c: Candidate) => |c.text|, w[..i], w[i..j]);
  }

  lemma PageShowsPrefix(w: seq<Candidate>, caps: Caps, b: Binding)
    requires ValidCaps(caps)
    ensures ShowsPrefix(PageOf(w, caps, b), w, caps)
    ensures w != [] ==> PageOf(w, caps, b).records != []
  {
    hide Cut, TextTotal, CursorAt;
    var p := PageOf(w, caps, b);
    var k := |p.records|;
    EmptyTotal(w);
    assert w != [] ==> OnPage(w, 0, caps);
    assert k > 0 ==> OnPage(w, k - 1, caps);
    forall j: nat | j < k && (j < k - 1 || !p.truncated) ensures p.records[j] == w[j].record {
      TotalStep(w, j);
      TotalGrows(w, j + 1, k);
      assert j < k - 1 ==> OnPage(w, j + 1, caps);
    }
    if k > 0 {
      TotalStep(w, k - 1);
    }
    if p.truncated {
      assert w[..k][..k - 1] == w[..k - 1];
      assert 0 < caps.chars - TextTotal(w[..k - 1]) < |w[k - 1].text|;
    }
  }
}
