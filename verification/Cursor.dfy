/** The opaque cursor codec shared by the paged readers, and the revision-bound reader cursor. */
module Cursor {
  import opened Common
  import opened Text
  import opened Base64Url
  import opened Json

  // ----- Text transport -----

  function ToBytes(t: Codes): seq<Byte>
    requires forall i :: 0 <= i < |t| ==> t[i] < 128
  {
    seq(|t|, i requires 0 <= i < |t| => t[i] as Byte)
  }

  /** ASCII only: what `json.dumps` writes is never anything else. */
  function FromBytes(b: seq<Byte>): Option<Codes> {
    if forall i :: 0 <= i < |b| ==> b[i] < 128 then
      Some(seq(|b|, i requires 0 <= i < |b| => b[i] as int))
    else None
  }

  function Encode(ms: seq<Member>): string
    requires ms != [] && WritableMembers(ms)
  {
    ObjectIsAscii(ms);
    EncodeUrl(ToBytes(WriteObject(ms)))
  }

  /** The characters rejected before decoding. */
  predicate Rejected(c: char) {
    c == '+' || c == '/' || c == ' ' || c == '\n' || c == '\r' || c == '\t'
  }

  function Decode(cursor: string): Option<seq<Member>> {
    var text := Strip(cursor);
    if text == "" || exists i :: 0 <= i < |text| && Rejected(text[i]) then None
    else
      match DecodeUrl(text)
      case None => None
      case Some(bytes) =>
        match FromBytes(bytes)
        case None => None
        case Some(codes) => ReadObject(codes)
  }

  lemma ObjectIsAscii(ms: seq<Member>)
    requires ms != [] && WritableMembers(ms)
    ensures forall i :: 0 <= i < |WriteObject(ms)| ==> WriteObject(ms)[i] < 128
  {
    MembersAreAscii(ms);
  }

  lemma UrlTextIsClean(s: string)
    requires IsUrlText(s)
    ensures Strip(s) == s && forall i :: 0 <= i < |s| ==> !Rejected(s[i])
  {}

  /** The transport loses nothing: decoding gives the members with split surrogate pairs joined. */
  lemma DecodeOfEncode(ms: seq<Member>)
    requires ms != [] && WritableMembers(ms)
    ensures Decode(Encode(ms)) == Some(JoinedMembers(ms))
  {
    hide ReadObject, WriteMembers, JoinedMembers, DecodeUrl, EncodeUrl, Strip;
    ObjectIsAscii(ms);
    var codes := WriteObject(ms);
    var bytes := ToBytes(codes);
    PaddingRestored(bytes);
    UrlTextIsClean(EncodeUrl(bytes));
    UrlRoundTrip(bytes);
    FromToBytes(codes);
    WrittenObjectReads(ms);
  }

  lemma FromToBytes(t: Codes)
    requires forall i :: 0 <= i < |t| ==> t[i] < 128
    ensures FromBytes(ToBytes(t)) == Some(t)
  {
    var b := ToBytes(t);
    assert forall i :: 0 <= i < |b| ==> b[i] as int == t[i];
    assert FromBytes(b).value == t;
  }

  predicate NoSplitPairs(ms: seq<Member>) {
    forall i :: 0 <= i < |ms| ==> NoSplitPair(ms[i].key) && (ms[i].value.JStr? ==> NoSplitPair(ms[i].value.text))
  }

  lemma {:induction false} JoinedMembersKeep(ms: seq<Member>)
    requires NoSplitPairs(ms)
    ensures JoinedMembers(ms) == ms
    decreases |ms|
  {
    if ms != [] {
      JoinedKeeps(ms[0].key);
      if ms[0].value.JStr? {
        JoinedKeeps(ms[0].value.text);
      }
      assert forall i :: 0 <= i < |ms[1..]| ==> ms[1..][i] == ms[i + 1];
      JoinedMembersKeep(ms[1..]);
      assert ms == [ms[0]] + ms[1..];
    }
  }

  /** `decode(encode(p)) == p` for every payload of strings and naturals without a split surrogate pair. */
  lemma CursorRoundTrip(ms: seq<Member>)
    requires ms != [] && WritableMembers(ms) && NoSplitPairs(ms)
    ensures Decode(Encode(ms)) == Some(ms)
  {
    DecodeOfEncode(ms);
    JoinedMembersKeep(ms);
  }

  // ----- Fields -----

  function ToCodes(s: string): Codes {
    seq(|s|, i requires 0 <= i < |s| => s[i] as int)
  }

  /** The value under a key; a repeated key keeps its last value. */
  function Field(ms: seq<Member>, key: Codes): Option<JValue> {
    if ms == [] then None
    else if ms[|ms| - 1].key == key then Some(ms[|ms| - 1].value)
    else Field(ms[..|ms| - 1], key)
  }

  predicate KeysAre(ms: seq<Member>, keys: set<Codes>) {
    (set m | m in ms :: m.key) == keys
  }

  predicate BlankCodes(s: Codes) {
    forall i :: 0 <= i < |s| ==> IsSpaceCode(s[i])
  }

  // ----- The active-CV reader cursor -----

  datatype ReaderCursor =
    ReaderCursor(attachmentId: Codes, sourceHash: Codes, mode: Codes, selector: Codes, after: Codes)

  function ReaderMembers(c: ReaderCursor): (ms: seq<Member>)
    ensures ms != [] && WritableMembers(ms)
  {
    [Member(ToCodes("after"), JStr(c.after)), Member(ToCodes("attachment_id"), JStr(c.attachmentId)),
     Member(ToCodes("mode"), JStr(c.mode)), Member(ToCodes("selector"), JStr(c.selector)),
     Member(ToCodes("source_hash"), JStr(c.sourceHash)), Member(ToCodes("v"), JInt(1))]
  }

  function EncodeReader(c: ReaderCursor): string {
    Encode(ReaderMembers(c))
  }

  function ReaderKeys(): set<Codes> {
    {ToCodes("after"), ToCodes("attachment_id"), ToCodes("mode"), ToCodes("selector"), ToCodes("source_hash"),
     ToCodes("v")}
  }

  /** Python compares the version with 1, so `true` passes as well. */
  predicate IsVersionOne(v: Option<JValue>) {
    v == Some(JInt(1)) || v == Some(JTrue)
  }

  function TextField(ms: seq<Member>, key: string): Option<Codes> {
    match Field(ms, ToCodes(key))
    case Some(JStr(text)) => Some(text)
    case _ => None
  }

  function ReaderOf(ms: seq<Member>): Option<ReaderCursor> {
    if !KeysAre(ms, ReaderKeys()) || !IsVersionOne(Field(ms, ToCodes("v"))) then None
    else
      var a, h, m, s, p := TextField(ms, "attachment_id"), TextField(ms, "source_hash"), TextField(ms, "mode"),
                           TextField(ms, "selector"), TextField(ms, "after");
      if a.None? || h.None? || m.None? || s.None? || p.None? then None
      else if BlankCodes(a.value) || BlankCodes(m.value) || BlankCodes(s.value) || BlankCodes(p.value) then None
      else Some(ReaderCursor(a.value, h.value, m.value, s.value, p.value))
  }

  function DecodeReader(cursor: string): Option<ReaderCursor> {
    match Decode(cursor)
    case None => None
    case Some(ms) => ReaderOf(ms)
  }

  /** Everything but the source hash must have a visible character. */
  predicate Presentable(c: ReaderCursor) {
    !BlankCodes(c.attachmentId) && !BlankCodes(c.mode) && !BlankCodes(c.selector) && !BlankCodes(c.after)
  }

  predicate Unsplit(c: ReaderCursor) {
    NoSplitPair(c.attachmentId) && NoSplitPair(c.sourceHash) && NoSplitPair(c.mode)
    && NoSplitPair(c.selector) && NoSplitPair(c.after)
  }

  function JoinedCursor(c: ReaderCursor): ReaderCursor {
    ReaderCursor(Joined(c.attachmentId), Joined(c.sourceHash), Joined(c.mode), Joined(c.selector), Joined(c.after))
  }

  lemma NameKeeps(s: string)
    requires forall i :: 0 <= i < |s| ==> s[i] < '\U{D7FF}'
    ensures Joined(ToCodes(s)) == ToCodes(s)
  {
    JoinedKeeps(ToCodes(s));
  }

  lemma {:induction false} JoinedMembersAt(ms: seq<Member>)
    ensures |JoinedMembers(ms)| == |ms|
    ensures forall i :: 0 <= i < |ms| ==> JoinedMembers(ms)[i] == Member(Joined(ms[i].key), JoinedValue(ms[i].value))
    decreases |ms|
  {
    hide Joined, JoinedValue;
    if ms != [] {
      JoinedMembersAt(ms[1..]);
    }
  }

  lemma JoinedReaderMembers(c: ReaderCursor)
    ensures JoinedMembers(ReaderMembers(c)) == ReaderMembers(JoinedCursor(c))
  {
    hide Joined, ToCodes, JoinedMembers, NoSplitPair;
    NameKeeps("after");
    NameKeeps("attachment_id");
    NameKeeps("mode");
    NameKeeps("selector");
    NameKeeps("source_hash");
    NameKeeps("v");
    JoinedMembersAt(ReaderMembers(c));
  }

  /** With distinct keys every member is found under its own. */
  lemma {:induction false} FieldAt(ms: seq<Member>, k: nat)
    requires k < |ms| && forall i :: k < i < |ms| ==> ms[i].key != ms[k].key
    ensures Field(ms, ms[k].key) == Some(ms[k].value)
    decreases |ms|
  {
    if k < |ms| - 1 {
      FieldAt(ms[..|ms| - 1], k);
    }
  }

  lemma ReaderKeysApart()
    ensures Distinct(["after", "attachment_id", "mode", "selector", "source_hash", "v"])
    ensures Distinct(Map(ToCodes, ["after", "attachment_id", "mode", "selector", "source_hash", "v"]))
  {
    assert |ToCodes("after")| == 5 && |ToCodes("attachment_id")| == 13 && |ToCodes("mode")| == 4;
    assert |ToCodes("selector")| == 8 && |ToCodes("source_hash")| == 11 && |ToCodes("v")| == 1;
  }

  lemma ReaderKeysPresent(c: ReaderCursor)
    ensures KeysAre(ReaderMembers(c), ReaderKeys())
  {}

  lemma ReaderFields(c: ReaderCursor)
    ensures var ms := ReaderMembers(c);
            && Field(ms, ToCodes("after")) == Some(JStr(c.after))
            && Field(ms, ToCodes("attachment_id")) == Some(JStr(c.attachmentId))
            && Field(ms, ToCodes("mode")) == Some(JStr(c.mode))
            && Field(ms, ToCodes("selector")) == Some(JStr(c.selector))
            && Field(ms, ToCodes("source_hash")) == Some(JStr(c.sourceHash)) && Field(ms, ToCodes("v")) == Some(JInt(1))
  {
    hide Field, ToCodes;
    ReaderKeysApart();
    var ms := ReaderMembers(c);
    var names := Map(ToCodes, ["after", "attachment_id", "mode", "selector", "source_hash", "v"]);
    assert forall i :: 0 <= i < 6 ==> ms[i].key == names[i];
    forall k: nat | k < 6 ensures Field(ms, ms[k].key) == Some(ms[k].value) {
      FieldAt(ms, k);
    }
    assert ms[0].key == ToCodes("after") && ms[1].key == ToCodes("attachment_id") && ms[2].key == ToCodes("mode");
    assert ms[3].key == ToCodes("selector") && ms[4].key == ToCodes("source_hash") && ms[5].key == ToCodes("v");
  }

  lemma ReaderOfMembers(c: ReaderCursor)
    ensures ReaderOf(ReaderMembers(c)) == if Presentable(c) then Some(c) else None
  {
    hide ToCodes, BlankCodes, Field, KeysAre, ReaderMembers, ReaderKeys;
    ReaderKeysPresent(c);
    ReaderFields(c);
  }

  /**
    The reader cursor round trip is exact: a cursor decodes to itself iff its fields are visible and
    none holds a high surrogate directly before a low one.
   */
  lemma ReaderRoundTripIff(c: ReaderCursor)
    ensures DecodeReader(EncodeReader(c)) == Some(c) <==> Presentable(c) && Unsplit(c)
  {
    hide Joined, ReaderOf, Decode, Encode, JoinedMembers;
    DecodeOfEncode(ReaderMembers(c));
    JoinedReaderMembers(c);
    ReaderOfMembers(JoinedCursor(c));
    if Unsplit(c) {
      JoinedKeeps(c.attachmentId);
      JoinedKeeps(c.sourceHash);
      JoinedKeeps(c.mode);
      JoinedKeeps(c.selector);
      JoinedKeeps(c.after);
    } else {
      JoinedShortens(c.attachmentId);
      JoinedShortens(c.sourceHash);
      JoinedShortens(c.mode);
      JoinedShortens(c.selector);
      JoinedShortens(c.after);
    }
  }

  // ----- What is accepted -----

  /** The last member of that key stands at `i` and has that value. */
  predicate HoldsAt(ms: seq<Member>, key: Codes, v: JValue, i: nat) {
    i < |ms| && ms[i] == Member(key, v) && forall j :: i < j < |ms| ==> ms[j].key != key
  }

  ghost predicate Holds(ms: seq<Member>, key: string, v: JValue) {
    exists i: nat :: HoldsAt(ms, ToCodes(key), v, i)
  }

  lemma {:induction false} FieldHoldsAt(ms: seq<Member>, key: Codes, v: JValue)
    ensures Field(ms, key) == Some(v) <==> exists i: nat :: HoldsAt(ms, key, v, i)
    decreases |ms|
  {
    if ms != [] {
      var front, last := ms[..|ms| - 1], ms[|ms| - 1];
      if last.key == key {
        assert HoldsAt(ms, key, last.value, |ms| - 1);
        assert forall i: nat :: HoldsAt(ms, key, v, i) ==> i == |ms| - 1;
      } else {
        FieldHoldsAt(front, key, v);
        assert forall i: nat :: HoldsAt(front, key, v, i) <==> HoldsAt(ms, key, v, i);
      }
    }
  }

  lemma FieldHolds(ms: seq<Member>, key: string, v: JValue)
    ensures Field(ms, ToCodes(key)) == Some(v) <==> Holds(ms, key, v)
  {
    FieldHoldsAt(ms, ToCodes(key), v);
    hide Field, ToCodes, HoldsAt;
  }

  predicate HasInk(s: Codes) {
    exists i :: 0 <= i < |s| && !IsSpaceCode(s[i])
  }

  /** Exactly the six keys, the version 1, and five texts that are visible but for the source hash. */
  ghost predicate IsReaderPayload(ms: seq<Member>, c: ReaderCursor) {
    && (set m | m in ms :: m.key) == {ToCodes("after"), ToCodes("attachment_id"), ToCodes("mode"), ToCodes("selector"),
                                      ToCodes("source_hash"), ToCodes("v")}
    && (Holds(ms, "v", JInt(1)) || Holds(ms, "v", JTrue))
    && Holds(ms, "attachment_id", JStr(c.attachmentId)) && Holds(ms, "source_hash", JStr(c.sourceHash))
    && Holds(ms, "mode", JStr(c.mode)) && Holds(ms, "selector", JStr(c.selector)) && Holds(ms, "after", JStr(c.after))
    && HasInk(c.attachmentId) && HasInk(c.mode) && HasInk(c.selector) && HasInk(c.after)
  }

  /** A text decodes to a reader cursor iff it carries exactly its payload; any other is malformed. */
  lemma DecodeReaderMeans(text: string, c: ReaderCursor)
    ensures DecodeReader(text) == Some(c) <==> Decode(text).Some? && IsReaderPayload(Decode(text).value, c)
  {
    hide Decode, ToCodes, Field, Holds, IsSpaceCode;
    if Decode(text).Some? {
      var ms := Decode(text).value;
      FieldHolds(ms, "v", JInt(1));
      FieldHolds(ms, "v", JTrue);
      FieldHolds(ms, "attachment_id", JStr(c.attachmentId));
      FieldHolds(ms, "source_hash", JStr(c.sourceHash));
      FieldHolds(ms, "mode", JStr(c.mode));
      FieldHolds(ms, "selector", JStr(c.selector));
      FieldHolds(ms, "after", JStr(c.after));
    }
  }

  /** A cursor that decodes has text between its spaces, without standard letters, padding spaces or line ends. */
  lemma DecodedTextIsClean(cursor: string)
    requires Decode(cursor).Some?
    ensures var text := Strip(cursor);
            text != "" && forall i :: 0 <= i < |text| ==>
                            text[i] != '+' && text[i] != '/' && text[i] != ' ' && text[i] != '\n' && text[i] != '\r'
                              && text[i] != '\t'
  {
    hide Strip, DecodeUrl, ReadObject;
  }

  // ----- Binding -----

  datatype Bound = Resume(after: Option<Codes>) | CvChanged | Malformed

  /** No cursor starts over; any other must decode and name the current revision, mode and selector. */
  function BindCursor(
    cursor: Option<string>, attachmentId: Codes, sourceHash: Codes, mode: Codes, selector: Codes): Bound {
    match cursor
    case None => Resume(None)
    case Some(text) =>
      match DecodeReader(text)
      case None => Malformed
      case Some(c) =>
        if c.attachmentId != attachmentId || c.sourceHash != sourceHash then CvChanged
        else if c.mode != mode || c.selector != selector then Malformed
        else Resume(Some(c.after))
  }

  /**
    A cursor the reader handed out resumes iff attachment, source hash, mode and selector are those
    it was made for; a changed revision is reported before a changed request.
   */
  lemma BindingExact(c: ReaderCursor, attachmentId: Codes, sourceHash: Codes, mode: Codes, selector: Codes)
    requires Presentable(c) && Unsplit(c)
    ensures var b := BindCursor(Some(EncodeReader(c)), attachmentId, sourceHash, mode, selector);
            var sameCv := c.attachmentId == attachmentId && c.sourceHash == sourceHash;
            var sameRequest := c.mode == mode && c.selector == selector;
            && (b == Resume(Some(c.after)) <==> sameCv && sameRequest)
            && (b == CvChanged <==> !sameCv)
            && (b == Malformed <==> sameCv && !sameRequest)
  {
    ReaderRoundTripIff(c);
  }

  /** Any text is malformed, of a changed CV, of another request, or resumes after the record it names. */
  lemma BindingOfAnyText(text: string, attachmentId: Codes, sourceHash: Codes, mode: Codes, selector: Codes)
    ensures var b := BindCursor(Some(text), attachmentId, sourceHash, mode, selector);
            match DecodeReader(text)
            case None => b == Malformed
            case Some(c) =>
              && (b == CvChanged <==> c.attachmentId != attachmentId || c.sourceHash != sourceHash)
              && (b == Resume(Some(c.after)) <==> c == ReaderCursor(attachmentId, sourceHash, mode, selector, c.after))
              && (b == CvChanged || b == Malformed || b == Resume(Some(c.after)))
  {
    hide DecodeReader;
  }

  // ----- The three page cursors -----

  /**
    The field validators of the cursor models: how an instant is written, and how a JSON value is read
    as an instant, a normalised identifier or an ordinal. Their text formats are left open.
   */
  datatype Validators<!T> =
    Validators(show: T -> Codes, instant: JValue -> Option<T>, uuid: JValue -> Option<Codes>,
               ordinal: JValue -> Option<nat>)

  /** A written instant reads back, a normalised identifier is its own normal form, a natural is an ordinal. */
  ghost predicate Faithful<T(!new)>(f: Validators<T>) {
    && (forall t :: f.instant(JStr(f.show(t))) == Some(t) && NoSplitPair(f.show(t)))
    && (forall v :: f.uuid(v).Some? ==> NoSplitPair(f.uuid(v).value) && f.uuid(JStr(f.uuid(v).value)) == f.uuid(v))
    && (forall n: nat :: f.ordinal(JInt(n)) == Some(n))
  }

  /** The named member of a payload, as its validator reads it. */
  function Checked<U>(ms: seq<Member>, name: string, read: JValue -> Option<U>): Option<U> {
    match Field(ms, ToCodes(name))
    case None => None
    case Some(v) => read(v)
  }

  function HistoryMembers(createdAt: Codes, id: Codes): (ms: seq<Member>)
    ensures ms != [] && WritableMembers(ms)
  {
    [Member(ToCodes("created_at"), JStr(createdAt)), Member(ToCodes("id"), JStr(id))]
  }

  function EncodeHistory<T>(f: Validators<T>, createdAt: T, id: Codes): Option<string> {
    match f.uuid(JStr(id))
    case None => None
    case Some(normal) => Some(Encode(HistoryMembers(f.show(createdAt), normal)))
  }

  function DecodeHistory<T>(f: Validators<T>, cursor: string): Option<(T, Codes)> {
    match Decode(cursor)
    case None => None
    case Some(ms) =>
      var createdAt, id := Checked(ms, "created_at", f.instant), Checked(ms, "id", f.uuid);
      if KeysAre(ms, {ToCodes("created_at"), ToCodes("id")}) && createdAt.Some? && id.Some?
        then Some((createdAt.value, id.value))
      else None
  }

  function ChunkMembers(createdAt: Codes, ordinal: nat): (ms: seq<Member>)
    ensures ms != [] && WritableMembers(ms)
  {
    [Member(ToCodes("created_at"), JStr(createdAt)), Member(ToCodes("ordinal"), JInt(ordinal))]
  }

  function EncodeChunk<T>(f: Validators<T>, createdAt: T, ordinal: nat): string {
    Encode(ChunkMembers(f.show(createdAt), ordinal))
  }

  function DecodeChunk<T>(f: Validators<T>, cursor: string): Option<(T, nat)> {
    match Decode(cursor)
    case None => None
    case Some(ms) =>
      var createdAt, ordinal := Checked(ms, "created_at", f.instant), Checked(ms, "ordinal", f.ordinal);
      if KeysAre(ms, {ToCodes("created_at"), ToCodes("ordinal")}) && createdAt.Some? && ordinal.Some? then
        Some((createdAt.value, ordinal.value))
      else None
  }

  function ConversationMembers(id: Codes, lastOpenedAt: Codes, updatedAt: Codes): (ms: seq<Member>)
    ensures ms != [] && WritableMembers(ms)
  {
    [Member(ToCodes("id"), JStr(id)), Member(ToCodes("last_opened_at"), JStr(lastOpenedAt)),
     Member(ToCodes("updated_at"), JStr(updatedAt))]
  }

  function EncodeConversation<T>(f: Validators<T>, lastOpenedAt: T, updatedAt: T, id: Codes): Option<string> {
    match f.uuid(JStr(id))
    case None => None
    case Some(normal) => Some(Encode(ConversationMembers(normal, f.show(lastOpenedAt), f.show(updatedAt))))
  }

  function DecodeConversation<T>(f: Validators<T>, cursor: string): Option<(T, T, Codes)> {
    match Decode(cursor)
    case None => None
    case Some(ms) =>
      var lastOpened, updated, id :=
        Checked(ms, "last_opened_at", f.instant), Checked(ms, "updated_at", f.instant), Checked(ms, "id", f.uuid);
      if KeysAre(ms, {ToCodes("id"), ToCodes("last_opened_at"), ToCodes("updated_at")})
        && lastOpened.Some? && updated.Some? && id.Some? then Some((lastOpened.value, updated.value, id.value))
      else None
  }

  lemma CheckedHolds<U>(ms: seq<Member>, name: string, read: JValue -> Option<U>, x: U)
    ensures Checked(ms, name, read) == Some(x) <==> exists v :: Holds(ms, name, v) && read(v) == Some(x)
  {
    hide Field, ToCodes, Holds;
    match Field(ms, ToCodes(name)) {
      case Some(v) => FieldHolds(ms, name, v);
      case None =>
    }
    forall v | Holds(ms, name, v) ensures Field(ms, ToCodes(name)) == Some(v) {
      FieldHolds(ms, name, v);
    }
  }

  /**
    A text is a history cursor iff it carries exactly the two keys, each with a value its validator
    accepts; what it decodes to is what the validators read.
   */
  lemma DecodeHistoryMeans<T(!new)>(f: Validators<T>, cursor: string, createdAt: T, id: Codes)
    ensures DecodeHistory(f, cursor) == Some((createdAt, id))
       <==> && Decode(cursor).Some?
            && var ms := Decode(cursor).value;
               && (set m | m in ms :: m.key) == {ToCodes("created_at"), ToCodes("id")}
               && (exists v :: Holds(ms, "created_at", v) && f.instant(v) == Some(createdAt))
               && (exists v :: Holds(ms, "id", v) && f.uuid(v) == Some(id))
  {
    hide Decode, ToCodes, Holds, Checked;
    if Decode(cursor).Some? {
      CheckedHolds(Decode(cursor).value, "created_at", f.instant, createdAt);
      CheckedHolds(Decode(cursor).value, "id", f.uuid, id);
    }
  }

  /** The same for a chunk cursor. */
  lemma DecodeChunkMeans<T(!new)>(f: Validators<T>, cursor: string, createdAt: T, ordinal: nat)
    ensures DecodeChunk(f, cursor) == Some((createdAt, ordinal))
       <==> && Decode(cursor).Some?
            && var ms := Decode(cursor).value;
               && (set m | m in ms :: m.key) == {ToCodes("created_at"), ToCodes("ordinal")}
               && (exists v :: Holds(ms, "created_at", v) && f.instant(v) == Some(createdAt))
               && (exists v :: Holds(ms, "ordinal", v) && f.ordinal(v) == Some(ordinal))
  {
    hide Decode, ToCodes, Holds, Checked;
    if Decode(cursor).Some? {
      CheckedHolds(Decode(cursor).value, "created_at", f.instant, createdAt);
      CheckedHolds(Decode(cursor).value, "ordinal", f.ordinal, ordinal);
    }
  }

  /** The same for a conversation cursor. */
  lemma DecodeConversationMeans<T(!new)>(
    f: Validators<T>, cursor: string, lastOpenedAt: T, updatedAt: T, id: Codes)
    ensures DecodeConversation(f, cursor) == Some((lastOpenedAt, updatedAt, id))
       <==> && Decode(cursor).Some?
            && var ms := Decode(cursor).value;
               && (set m | m in ms :: m.key) == {ToCodes("id"), ToCodes("last_opened_at"), ToCodes("updated_at")}
               && (exists v :: Holds(ms, "last_opened_at", v) && f.instant(v) == Some(lastOpenedAt))
               && (exists v :: Holds(ms, "updated_at", v) && f.instant(v) == Some(updatedAt))
               && (exists v :: Holds(ms, "id", v) && f.uuid(v) == Some(id))
  {
    hide Decode, ToCodes, Holds, Checked;
    if Decode(cursor).Some? {
      CheckedHolds(Decode(cursor).value, "last_opened_at", f.instant, lastOpenedAt);
      CheckedHolds(Decode(cursor).value, "updated_at", f.instant, updatedAt);
      CheckedHolds(Decode(cursor).value, "id", f.uuid, id);
    }
  }

  lemma NamesApart()
    ensures Distinct(Map(ToCodes, ["created_at", "id", "ordinal", "last_opened_at", "updated_at"]))
    ensures NoSplitPair(ToCodes("created_at")) && NoSplitPair(ToCodes("id")) && NoSplitPair(ToCodes("ordinal"))
    ensures NoSplitPair(ToCodes("last_opened_at")) && NoSplitPair(ToCodes("updated_at"))
  {
    assert |ToCodes("created_at")| == |ToCodes("updated_at")| == 10 && |ToCodes("id")| == 2
           && |ToCodes("ordinal")| == 7;
    assert |ToCodes("last_opened_at")| == 14;
    assert ToCodes("created_at")[0] != ToCodes("updated_at")[0];
  }

  /** A payload the codec returns unchanged has each of its members under its own name. */
  lemma FoundByName(ms: seq<Member>, names: seq<string>)
    requires ms != [] && |ms| == |names| && forall i :: 0 <= i < |ms| ==> ms[i].key == ToCodes(names[i])
    requires forall i, j :: 0 <= i < j < |ms| ==> ms[i].key != ms[j].key
    requires WritableMembers(ms) && NoSplitPairs(ms)
    ensures Decode(Encode(ms)) == Some(ms)
    ensures forall i :: 0 <= i < |ms| ==> Field(ms, ToCodes(names[i])) == Some(ms[i].value)
    ensures KeysAre(ms, set name | name in names :: ToCodes(name))
  {
    hide Decode, Encode, Field, ToCodes;
    CursorRoundTrip(ms);
    forall i | 0 <= i < |ms| ensures Field(ms, ToCodes(names[i])) == Some(ms[i].value) {
      FieldAt(ms, i);
    }
    var keys, named := set m | m in ms :: m.key, set name | name in names :: ToCodes(name);
    forall k | k in keys ensures k in named {
      var i :| 0 <= i < |ms| && ms[i].key == k;
      assert names[i] in names;
    }
    forall k | k in named ensures k in keys {
      var i :| 0 <= i < |names| && ToCodes(names[i]) == k;
      assert ms[i] in ms;
    }
  }

  /** A history cursor that could be made decodes to the instant and the normalised id it was made from. */
  lemma HistoryRoundTrip<T(!new)>(f: Validators<T>, createdAt: T, id: Codes)
    requires Faithful(f) && f.uuid(JStr(id)).Some?
    ensures EncodeHistory(f, createdAt, id).Some?
    ensures DecodeHistory(f, EncodeHistory(f, createdAt, id).value) == Some((createdAt, f.uuid(JStr(id)).value))
  {
    hide Decode, Encode, Field, ToCodes, KeysAre;
    NamesApart();
    var normal := f.uuid(JStr(id)).value;
    var names := ["created_at", "id"];
    var all := Map(ToCodes, ["created_at", "id", "ordinal", "last_opened_at", "updated_at"]);
    assert all[0] == ToCodes("created_at") && all[1] == ToCodes("id");
    FoundByName(HistoryMembers(f.show(createdAt), normal), names);
    assert (set name | name in names :: ToCodes(name)) == {ToCodes("created_at"), ToCodes("id")};
    assert names[0] == "created_at" && names[1] == "id";
  }

  /** The same for a chunk cursor and its ordinal. */
  lemma ChunkRoundTrip<T(!new)>(f: Validators<T>, createdAt: T, ordinal: nat)
    requires Faithful(f)
    ensures DecodeChunk(f, EncodeChunk(f, createdAt, ordinal)) == Some((createdAt, ordinal))
  {
    hide Decode, Encode, Field, ToCodes, KeysAre;
    NamesApart();
    var names := ["created_at", "ordinal"];
    var all := Map(ToCodes, ["created_at", "id", "ordinal", "last_opened_at", "updated_at"]);
    assert all[0] == ToCodes("created_at") && all[2] == ToCodes("ordinal");
    FoundByName(ChunkMembers(f.show(createdAt), ordinal), names);
    assert (set name | name in names :: ToCodes(name)) == {ToCodes("created_at"), ToCodes("ordinal")};
    assert names[0] == "created_at" && names[1] == "ordinal";
  }

  /** The same for a conversation cursor and its two instants. */
  lemma ConversationRoundTrip<T(!new)>(f: Validators<T>, lastOpenedAt: T, updatedAt: T, id: Codes)
    requires Faithful(f) && f.uuid(JStr(id)).Some?
    ensures EncodeConversation(f, lastOpenedAt, updatedAt, id).Some?
    ensures DecodeConversation(f, EncodeConversation(f, lastOpenedAt, updatedAt, id).value)
         == Some((lastOpenedAt, updatedAt, f.uuid(JStr(id)).value))
  {
    var normal := f.uuid(JStr(id)).value;
    assert f.uuid(JStr(normal)) == Some(normal);
    assert f.instant(JStr(f.show(lastOpenedAt))) == Some(lastOpenedAt)
           && f.instant(JStr(f.show(updatedAt))) == Some(updatedAt);
    ConversationFound(normal, f.show(lastOpenedAt), f.show(updatedAt));
    hide Decode, Encode, Field, ToCodes, KeysAre, Faithful, ConversationMembers;
  }

  lemma ConversationFound(id: Codes, lastOpenedAt: Codes, updatedAt: Codes)
    requires NoSplitPair(id) && NoSplitPair(lastOpenedAt) && NoSplitPair(updatedAt)
    ensures var ms := ConversationMembers(id, lastOpenedAt, updatedAt);
            && Decode(Encode(ms)) == Some(ms)
            && Field(ms, ToCodes("id")) == Some(JStr(id))
            && Field(ms, ToCodes("last_opened_at")) == Some(JStr(lastOpenedAt))
            && Field(ms, ToCodes("updated_at")) == Some(JStr(updatedAt))
            && KeysAre(ms, {ToCodes("id"), ToCodes("last_opened_at"), ToCodes("updated_at")})
  {
    hide Decode, Encode, Field, ToCodes, KeysAre;
    NamesApart();
    var names := ["id", "last_opened_at", "updated_at"];
    var all := Map(ToCodes, ["created_at", "id", "ordinal", "last_opened_at", "updated_at"]);
    assert all[1] == ToCodes("id") && all[3] == ToCodes("last_opened_at") && all[4] == ToCodes("updated_at");
    FoundByName(ConversationMembers(id, lastOpenedAt, updatedAt), names);
    assert (set name | name in names :: ToCodes(name))
           == {ToCodes("id"), ToCodes("last_opened_at"), ToCodes("updated_at")};
    assert names[0] == "id" && names[1] == "last_opened_at" && names[2] == "updated_at";
  }
}
