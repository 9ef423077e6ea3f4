/**
  The integrity verdict on graphs: what it says about the stored relationships of a Candidate or Job,
  and so about every graph an interrupted sync leaves.
 */
module GraphVerdict {
  import opened Common
  import opened Text
  import opened Stamps
  import opened GraphModel
  import opened SyncPrograms
  import opened GraphSync
  import opened GraphChecks
  import opened GraphCounts

  /** The relationships of some types that one owner has. */
  function OwnEdges(edges: map<EdgeKey, SkillRel>, rels: set<RelType>, owner: Id): map<EdgeKey, SkillRel> {
    map e | e in edges && e.rel in rels && e.owner == owner :: edges[e]
  }

  function IdOf(x: Selected, owner: Id): EdgeKey {
    EdgeKey(x.rel, owner, x.key)
  }

  /** The relationships a list stands for; a repeated type and key keeps its last element. */
  function EdgeMap(xs: seq<Selected>, owner: Id): map<EdgeKey, SkillRel> {
    if xs == [] then map[]
    else EdgeMap(xs[..|xs| - 1], owner)[IdOf(xs[|xs| - 1], owner) := xs[|xs| - 1].props]
  }

  /** No type and key twice. */
  ghost predicate DistinctIds(xs: seq<Selected>) {
    forall i, j :: 0 <= i < j < |xs| ==> xs[i].rel != xs[j].rel || xs[i].key != xs[j].key
  }

  lemma {:induction false} MapMembers(xs: seq<Selected>, owner: Id)
    requires DistinctIds(xs)
    ensures forall x ::
              x in xs <==> IdOf(x, owner) in EdgeMap(xs, owner) && EdgeMap(xs, owner)[IdOf(x, owner)] == x.props
    ensures forall e :: e in EdgeMap(xs, owner) ==> e.owner == owner
    ensures |EdgeMap(xs, owner)| == |xs|
    decreases |xs|
  {
    if xs != [] {
      var front, last := xs[..|xs| - 1], xs[|xs| - 1];
      MapMembers(front, owner);
      assert forall x :: x in xs <==> x in front || x == last;
      forall x | x in front ensures IdOf(x, owner) != IdOf(last, owner) {
        var i :| 0 <= i < |front| && front[i] == x;
        assert xs[i] == x;
      }
      if IdOf(last, owner) in EdgeMap(front, owner) {
        SharedId(xs, owner);
      }
    }
  }

  lemma SharedId(xs: seq<Selected>, owner: Id)
    requires xs != [] && IdOf(xs[|xs| - 1], owner) in EdgeMap(xs[..|xs| - 1], owner)
    ensures !DistinctIds(xs)
  {
    var i := WhereFrom(xs[..|xs| - 1], owner, IdOf(xs[|xs| - 1], owner));
    assert xs[i] == xs[..|xs| - 1][i];
  }

  lemma {:induction false} WhereFrom(xs: seq<Selected>, owner: Id, e: EdgeKey) returns (i: nat)
    requires e in EdgeMap(xs, owner)
    ensures i < |xs| && IdOf(xs[i], owner) == e
    decreases |xs|
  {
    if IdOf(xs[|xs| - 1], owner) == e {
      i := |xs| - 1;
    } else {
      i := WhereFrom(xs[..|xs| - 1], owner, e);
    }
  }

  /** A listing of an owner's relationships has every type and key once, and stands for exactly them. */
  lemma ListingIsMap(stored: seq<Selected>, edges: map<EdgeKey, SkillRel>, rels: set<RelType>, owner: Id)
    requires ListsEdges(stored, edges, rels, owner)
    ensures DistinctIds(stored) && EdgeMap(stored, owner) == OwnEdges(edges, rels, owner)
    ensures |stored| == |OwnEdges(edges, rels, owner)|
  {
    forall i, j | 0 <= i < j < |stored| ensures stored[i].rel != stored[j].rel || stored[i].key != stored[j].key {
      assert stored[i] in stored && stored[j] in stored;
    }
    MapMembers(stored, owner);
    var m, own := EdgeMap(stored, owner), OwnEdges(edges, rels, owner);
    forall e ensures e in m <==> e in own {
      if e in m {
        assert Selected(e.rel, e.key, m[e]) in stored;
      }
      if e in own {
        assert Selected(e.rel, e.key, edges[e]) in stored;
      }
    }
    forall e | e in m ensures m[e] == own[e] {
      assert Selected(e.rel, e.key, m[e]) in stored;
    }
  }

  /** Against a list without repeats, equal multisets are equal relationships without repeats. */
  lemma SameMultisetIff(a: seq<Selected>, b: seq<Selected>, owner: Id)
    requires DistinctIds(b)
    ensures multiset(a) == multiset(b) <==> DistinctIds(a) && EdgeMap(a, owner) == EdgeMap(b, owner)
  {
    MapMembers(b, owner);
    IdsApart(b);
    if multiset(a) == multiset(b) {
      assert forall x :: x in a <==> x in multiset(a);
      assert forall x :: x in b <==> x in multiset(b);
      RepeatFree(a, b);
      MapMembers(a, owner);
      SameMembersSameMap(a, b, owner);
    }
    if DistinctIds(a) && EdgeMap(a, owner) == EdgeMap(b, owner) {
      MapMembers(a, owner);
      IdsApart(a);
      SameElementsSameMultiset(a, b);
    }
  }

  lemma IdsApart(xs: seq<Selected>)
    requires DistinctIds(xs)
    ensures Distinct(xs)
  {}

  lemma RepeatFree(a: seq<Selected>, b: seq<Selected>)
    requires multiset(a) == multiset(b) && DistinctIds(b)
    ensures DistinctIds(a)
  {
    IdsApart(b);
    CountsAtMostOne(b);
    forall i, j | 0 <= i < j < |a| ensures a[i].rel != a[j].rel || a[i].key != a[j].key {
      assert a[i] in multiset(a) && a[j] in multiset(a);
      assert a[i] in b && a[j] in b;
      if a[i] == a[j] {
        RepeatsCountTwice(a, i, j);
      }
    }
  }

  lemma SameMembersSameMap(a: seq<Selected>, b: seq<Selected>, owner: Id)
    requires DistinctIds(a) && DistinctIds(b) && forall x :: x in a <==> x in b
    ensures EdgeMap(a, owner) == EdgeMap(b, owner)
  {
    MapMembers(a, owner);
    MapMembers(b, owner);
    var m, n := EdgeMap(a, owner), EdgeMap(b, owner);
    forall e | e in m ensures e in n && n[e] == m[e] {
      assert Selected(e.rel, e.key, m[e]) in a;
    }
    forall e | e in n ensures e in m {
      assert Selected(e.rel, e.key, n[e]) in b;
    }
  }

  /**
    The verdict on a graph, for any types of relationship and any owner: it accepts with at most 201
    stored relationships iff the expected ones have no type and key twice, are at most 201, have no
    blank key, and are exactly the stored ones.
   */
  lemma VerdictOnGraph(
    expected: seq<Selected>, stored: seq<Selected>, edges: map<EdgeKey, SkillRel>, rels: set<RelType>, owner: Id)
    requires ListsEdges(stored, edges, rels, owner)
    ensures SkillVerdict(expected, stored) && |OwnEdges(edges, rels, owner)| <= READ_LIMIT
       <==> DistinctIds(expected) && |expected| <= READ_LIMIT && NoBlankKeys(expected)
            && EdgeMap(expected, owner) == OwnEdges(edges, rels, owner)
  {
    ListingIsMap(stored, edges, rels, owner);
    if |stored| <= READ_LIMIT {
      assert ReadRows(stored) == stored;
      SameMultisetIff(expected, stored, owner);
      if multiset(expected) == multiset(stored) {
        assert |expected| == |multiset(expected)| == |multiset(stored)| == |stored|;
        assert forall x :: x in expected <==> x in multiset(expected);
        assert forall x :: x in stored <==> x in multiset(stored);
      }
    } else if DistinctIds(expected) && EdgeMap(expected, owner) == OwnEdges(edges, rels, owner) {
      MapMembers(expected, owner);
    }
  }

  /** With more than 201 stored, whatever the verdict accepts is not what is stored. */
  lemma OverLimitAcceptsOnlyWrong(
    expected: seq<Selected>, stored: seq<Selected>, edges: map<EdgeKey, SkillRel>, rels: set<RelType>, owner: Id)
    requires ListsEdges(stored, edges, rels, owner) && |OwnEdges(edges, rels, owner)| > READ_LIMIT
    ensures SkillVerdict(expected, stored) ==>
              |expected| == READ_LIMIT && EdgeMap(expected, owner) != OwnEdges(edges, rels, owner)
  {
    ListingIsMap(stored, edges, rels, owner);
    if SkillVerdict(expected, stored) {
      assert |expected| == |multiset(expected)| == |multiset(ReadRows(stored))| == READ_LIMIT;
      MapSizeAtMost(expected, owner);
    }
  }

  lemma {:induction false} MapSizeAtMost(xs: seq<Selected>, owner: Id)
    ensures |EdgeMap(xs, owner)| <= |xs|
    decreases |xs|
  {
    if xs != [] {
      MapSizeAtMost(xs[..|xs| - 1], owner);
    }
  }

  /**
    The read limit is the exact boundary: on a graph without blank keys the verdict means "exactly the
    stored relationships, each once" for every expected list iff the owner has at most 201. Past it, the
    first 201 alone are accepted and the true list is refused.
   */
  lemma VerdictExactIffWithinLimit(
    stored: seq<Selected>, edges: map<EdgeKey, SkillRel>, rels: set<RelType>, owner: Id)
    requires ListsEdges(stored, edges, rels, owner) && NoBlankKeys(stored)
    ensures (forall expected :: SkillVerdict(expected, stored) <==> StandsFor(expected, edges, rels, owner))
       <==> |OwnEdges(edges, rels, owner)| <= READ_LIMIT
    ensures |OwnEdges(edges, rels, owner)| > READ_LIMIT ==>
              && StandsFor(stored, edges, rels, owner) && !SkillVerdict(stored, stored)
              && SkillVerdict(ReadRows(stored), stored) && !StandsFor(ReadRows(stored), edges, rels, owner)
  {
    ListingIsMap(stored, edges, rels, owner);
    if |stored| <= READ_LIMIT {
      forall expected ensures SkillVerdict(expected, stored) <==> StandsFor(expected, edges, rels, owner) {
        VerdictOnGraph(expected, stored, edges, rels, owner);
        if StandsFor(expected, edges, rels, owner) {
          StandsForStored(expected, stored, edges, rels, owner);
        }
      }
    } else {
      var first := ReadRows(stored);
      assert |multiset(stored)| == |stored| && |multiset(ReadRows(stored))| == READ_LIMIT;
      MapSizeAtMost(first, owner);
      assert SkillVerdict(first, stored) && !StandsFor(first, edges, rels, owner);
    }
  }

  /** The list names exactly the owner's relationships, each once. */
  ghost predicate StandsFor(
    expected: seq<Selected>, edges: map<EdgeKey, SkillRel>, rels: set<RelType>, owner: Id)
  {
    DistinctIds(expected) && EdgeMap(expected, owner) == OwnEdges(edges, rels, owner)
  }

  lemma StandsForStored(
    expected: seq<Selected>, stored: seq<Selected>, edges: map<EdgeKey, SkillRel>, rels: set<RelType>, owner: Id)
    requires ListsEdges(stored, edges, rels, owner) && StandsFor(expected, edges, rels, owner) && NoBlankKeys(stored)
    ensures NoBlankKeys(expected) && |expected| == |stored|
  {
    ListingIsMap(stored, edges, rels, owner);
    MapMembers(expected, owner);
    MapMembers(stored, owner);
  }

  /** When no more is stored than is expected, the verdict alone has that meaning. */
  lemma VerdictWithoutSurplus(
    expected: seq<Selected>, stored: seq<Selected>, edges: map<EdgeKey, SkillRel>, rels: set<RelType>, owner: Id)
    requires ListsEdges(stored, edges, rels, owner) && |OwnEdges(edges, rels, owner)| <= |expected|
    ensures SkillVerdict(expected, stored)
       <==> DistinctIds(expected) && |expected| <= READ_LIMIT && NoBlankKeys(expected)
            && EdgeMap(expected, owner) == OwnEdges(edges, rels, owner)
  {
    VerdictOnGraph(expected, stored, edges, rels, owner);
    if |OwnEdges(edges, rels, owner)| > READ_LIMIT {
      OverLimitAcceptsOnlyWrong(expected, stored, edges, rels, owner);
    }
  }

  // ----- Expected lists as maps -----

  lemma {:induction false} ExpectedMap(rel: RelType, owner: Id, rows: seq<SkillRow>)
    ensures EdgeMap(ExpectedOf(rel, rows), owner) == RowMap(rel, owner, rows)
    decreases |rows|
  {
    if rows != [] {
      var front := rows[..|rows| - 1];
      ExpectedMap(rel, owner, front);
      assert ExpectedOf(rel, rows)[..|rows| - 1] == ExpectedOf(rel, front);
    }
  }

  lemma ExpectedIds(rel: RelType, rows: seq<SkillRow>)
    ensures DistinctIds(ExpectedOf(rel, rows)) <==> DistinctKeys(rows)
  {
    var xs := ExpectedOf(rel, rows);
    assert forall i :: 0 <= i < |rows| ==> xs[i].rel == rel && xs[i].key == rows[i].key;
  }

  lemma {:induction false} MapAppend(a: seq<Selected>, b: seq<Selected>, owner: Id)
    ensures EdgeMap(a + b, owner) == EdgeMap(a, owner) + EdgeMap(b, owner)
    decreases |b|
  {
    if b == [] {
      assert a + b == a;
    } else {
      MapAppend(a, b[..|b| - 1], owner);
      assert (a + b)[..|a + b| - 1] == a + b[..|b| - 1];
    }
  }

  lemma ExpectedJobIds(j: JobInput)
    ensures DistinctIds(ExpectedJob(j)) <==> DistinctKeys(RequiredRows(j)) && DistinctKeys(PreferredRows(j))
  {
    hide RequiredRows, PreferredRows;
    var req, pre := ExpectedOf(Requires, RequiredRows(j)), ExpectedOf(Prefers, PreferredRows(j));
    ExpectedIds(Requires, RequiredRows(j));
    ExpectedIds(Prefers, PreferredRows(j));
    TwoTypesIds(req, pre);
  }

  lemma TwoTypesIds(a: seq<Selected>, b: seq<Selected>)
    requires (forall x :: x in a ==> x.rel == Requires) && (forall x :: x in b ==> x.rel == Prefers)
    ensures DistinctIds(a + b) <==> DistinctIds(a) && DistinctIds(b)
  {
    var all := a + b;
    assert forall i :: 0 <= i < |a| ==> all[i] == a[i] && a[i] in a;
    assert forall i :: 0 <= i < |b| ==> all[|a| + i] == b[i] && b[i] in b;
    if DistinctIds(all) {
      forall i, j | 0 <= i < j < |b| ensures b[i].rel != b[j].rel || b[i].key != b[j].key {
        assert all[|a| + i] == b[i] && all[|a| + j] == b[j];
      }
    }
  }

  lemma ExpectedJobMap(j: JobInput)
    ensures EdgeMap(ExpectedJob(j), j.jid)
            == RowMap(Requires, j.jid, RequiredRows(j)) + RowMap(Prefers, j.jid, PreferredRows(j))
  {
    hide RequiredRows, PreferredRows;
    MapAppend(ExpectedOf(Requires, RequiredRows(j)), ExpectedOf(Prefers, PreferredRows(j)), j.jid);
    ExpectedMap(Requires, j.jid, RequiredRows(j));
    ExpectedMap(Prefers, j.jid, PreferredRows(j));
  }

  lemma RowMapOwners(rel: RelType, owner: Id, rows: seq<SkillRow>)
    ensures forall e :: e in RowMap(rel, owner, rows) ==> e.rel == rel && e.owner == owner
    ensures RowMap(rel, owner, rows) == map[] <==> rows == []
    ensures RowMap(rel, owner, []) == map[]
  {
    MergeSkillRowsSplit(map[], rel, owner, rows);
    if rows != [] {
      assert EdgeKey(rel, owner, rows[|rows| - 1].key) in RowMap(rel, owner, rows);
    }
  }

  // ----- Cut candidate syncs -----

  /** The HAS_SKILL relationships a candidate sync leaves when it is cut after `k` statements. */
  function CandidateEdgesAt(c: CandidateInput, g: Graph, k: nat): map<EdgeKey, SkillRel> {
    if k <= 1 then OwnEdges(g.skill.edges, {HasSkill}, c.pid)
    else if k == 2 then map[]
    else RowMap(HasSkill, c.pid, CandidateRows(c))
  }

  lemma RunPrefix(p: seq<Stmt>, k: nat, g: Graph)
    requires 0 < k <= |p|
    ensures RunAll(p[..k], g) == Apply(p[k - 1], RunAll(p[..k - 1], g))
  {
    assert p[..k][..k - 1] == p[..k - 1];
  }

  lemma SeedsTouchNoEdges(s: Stmt, t: Taxonomy, g: Graph)
    requires s in SeedProgram(t)
    ensures var u := Apply(s, g).skill;
            u.edges == g.skill.edges && u.candidates == g.skill.candidates && u.jobs == g.skill.jobs
  {}

  lemma ClearedOwn(edges: map<EdgeKey, SkillRel>, rels: set<RelType>, owner: Id)
    ensures OwnEdges(WithoutOwners(edges, rels, {owner}), rels, owner) == map[]
  {}

  lemma MergedOwn(g: SkillGraph, rel: RelType, owner: Id, rows: seq<SkillRow>, rels: set<RelType>)
    requires rel in rels && OwnerPresent(g, rel, owner)
    ensures var u := MergeEdgesOn(g, rel, owner, rows);
            && OwnEdges(u.edges, rels, owner) == OwnEdges(g.edges, rels, owner) + RowMap(rel, owner, rows)
            && u.candidates == g.candidates && u.jobs == g.jobs
  {
    MergeSkillRowsSplit(g.edges, rel, owner, rows);
    RowMapOwners(rel, owner, rows);
    hide MergeSkillRows;
  }

  lemma CandidateStatements(c: CandidateInput, t: Taxonomy, k: nat)
    requires k < |CandidateProgram(c, t)|
    ensures var s := CandidateProgram(c, t)[k];
            && (k == 0 ==> s == MergeCandidate(c.pid, IsoUtc(c.updatedAt)))
            && (k == 1 ==> s == ClearHasSkill(c.pid))
            && (k == 2 && CandidateRows(c) != [] ==> s == MergeSkillEdges(HasSkill, c.pid, CandidateRows(c)))
            && (k > 2 || (k == 2 && CandidateRows(c) == []) ==> s in SeedProgram(t))
  {
    hide CandidateRows, IsoUtc, SeedProgram;
  }

  lemma {:induction false} CandidateCutEdges(c: CandidateInput, t: Taxonomy, g: Graph, k: nat)
    requires k <= |CandidateProgram(c, t)|
    ensures var h := RunAll(CandidateProgram(c, t)[..k], g);
            && OwnEdges(h.skill.edges, {HasSkill}, c.pid) == CandidateEdgesAt(c, g, k)
            && (k > 0 ==> c.pid in h.skill.candidates && h.skill.candidates[c.pid] == IsoUtc(c.updatedAt))
    decreases k
  {
    hide CandidateRows, IsoUtc, SeedProgram, CandidateProgram, RunAll, Apply;
    var p := CandidateProgram(c, t);
    RowMapOwners(HasSkill, c.pid, CandidateRows(c));
    if k == 0 {
      NothingRun(p, g);
    } else {
      CandidateCutEdges(c, t, g, k - 1);
      RunPrefix(p, k, g);
      CandidateStatements(c, t, k - 1);
      CandidateStatementEdges(c, t, RunAll(p[..k - 1], g), p[k - 1]);
    }
  }

  lemma NothingRun(p: seq<Stmt>, g: Graph)
    ensures RunAll(p[..0], g) == g
  {}

  lemma CandidateStatementEdges(c: CandidateInput, t: Taxonomy, h: Graph, s: Stmt)
    requires s == MergeCandidate(c.pid, IsoUtc(c.updatedAt)) || s == ClearHasSkill(c.pid) || s in SeedProgram(t)
             || s == MergeSkillEdges(HasSkill, c.pid, CandidateRows(c))
    ensures var u := Apply(s, h).skill;
            && (s == MergeCandidate(c.pid, IsoUtc(c.updatedAt)) ==>
                  u.edges == h.skill.edges && c.pid in u.candidates && u.candidates[c.pid] == IsoUtc(c.updatedAt))
            && (s == ClearHasSkill(c.pid) ==>
                  OwnEdges(u.edges, {HasSkill}, c.pid) == map[] && u.candidates == h.skill.candidates)
            && (s in SeedProgram(t) ==> u.edges == h.skill.edges && u.candidates == h.skill.candidates)
            && (s == MergeSkillEdges(HasSkill, c.pid, CandidateRows(c)) && c.pid in h.skill.candidates
                  && OwnEdges(h.skill.edges, {HasSkill}, c.pid) == map[] ==>
                  OwnEdges(u.edges, {HasSkill}, c.pid) == RowMap(HasSkill, c.pid, CandidateRows(c))
                    && u.candidates == h.skill.candidates)
  {
    hide CandidateRows, IsoUtc, SeedProgram, OwnEdges, RowMap, MergeEdgesOn, WithoutOwners;
    var u, own := Apply(s, h).skill, OwnEdges(h.skill.edges, {HasSkill}, c.pid);
    ClearedOwn(h.skill.edges, {HasSkill}, c.pid);
    if s in SeedProgram(t) {
      SeedsTouchNoEdges(s, t, h);
    }
    if s == MergeSkillEdges(HasSkill, c.pid, CandidateRows(c)) && c.pid in h.skill.candidates && own == map[] {
      MergedOwn(h.skill, HasSkill, c.pid, CandidateRows(c), {HasSkill});
      assert own + RowMap(HasSkill, c.pid, CandidateRows(c)) == RowMap(HasSkill, c.pid, CandidateRows(c));
    }
  }

  /** What the check means for a candidate sync cut after `k` statements, from any graph. */
  lemma CutCandidateVerdict(c: CandidateInput, t: Taxonomy, g: Graph, k: nat, stored: seq<Selected>)
    requires k <= |CandidateProgram(c, t)|
    requires ListsEdges(stored, RunAll(CandidateProgram(c, t)[..k], g).skill.edges, {HasSkill}, c.pid)
    ensures var expected := ExpectedOf(HasSkill, CandidateRows(c));
            && (SkillVerdict(expected, stored) && |CandidateEdgesAt(c, g, k)| <= READ_LIMIT
                <==> DistinctKeys(CandidateRows(c)) && |expected| <= READ_LIMIT && NoBlankKeys(expected)
                     && RowMap(HasSkill, c.pid, CandidateRows(c)) == CandidateEdgesAt(c, g, k))
            && (k == 2 ==> (SkillVerdict(expected, stored) <==> CandidateRows(c) == []))
            && (k > 2 ==> (SkillVerdict(expected, stored)
                           <==> DistinctKeys(CandidateRows(c)) && |expected| <= READ_LIMIT && NoBlankKeys(expected)))
    ensures var h := RunAll(CandidateProgram(c, t)[..k], g);
            k > 0 ==>
              c.pid in h.skill.candidates && NormalizeText(h.skill.candidates[c.pid]) == Some(InstantOf(c.updatedAt))
  {
    hide RunAll, CandidateProgram, CandidateRows, ListsEdges, SkillVerdict, EdgeMap, OwnEdges, DistinctIds,
      NormalizeText, InstantOf, IsoUtc, RowMap, DistinctKeys;
    var rows := CandidateRows(c);
    var expected, edges := ExpectedOf(HasSkill, rows), RunAll(CandidateProgram(c, t)[..k], g).skill.edges;
    StampRead(c.updatedAt);
    CandidateCutEdges(c, t, g, k);
    ExpectedMap(HasSkill, c.pid, rows);
    ExpectedIds(HasSkill, rows);
    VerdictOnGraph(expected, stored, edges, {HasSkill}, c.pid);
    if k >= 2 {
      MapSizeAtMost(expected, c.pid);
      VerdictWithoutSurplus(expected, stored, edges, {HasSkill}, c.pid);
      RowMapOwners(HasSkill, c.pid, rows);
      NoKeys();
    }
  }

  lemma StampRead(at: PyDatetime)
    ensures NormalizeText(IsoUtc(at)) == Some(InstantOf(at))
  {}

  lemma NoKeys()
    ensures DistinctKeys([]) && NoBlankKeys([])
  {}

  /**
    After a complete candidate sync, from any graph, the selected-skill check accepts the profile it
    came from iff its non-excluded skills have distinct, non-blank keys and are at most 201.
   */
  lemma SyncedCandidateAccepted(c: CandidateInput, t: Taxonomy, g: Graph, stored: seq<Selected>)
    requires ListsEdges(stored, RunAll(CandidateProgram(c, t), g).skill.edges, {HasSkill}, c.pid)
    ensures var expected := ExpectedOf(HasSkill, CandidateRows(c));
            SkillVerdict(expected, stored) <==>
              DistinctKeys(CandidateRows(c)) && |expected| <= READ_LIMIT && NoBlankKeys(expected)
  {
    hide RunAll, ListsEdges, SkillVerdict, CandidateRows, DistinctKeys, SeedProgram, IsoUtc;
    var p := CandidateProgram(c, t);
    assert p[..|p|] == p;
    CutCandidateVerdict(c, t, g, |p|, stored);
    if |p| == 2 {
      NoKeys();
    }
  }

  // ----- Cut job syncs -----

  /** Where the preferred skills are written in a job sync. */
  function PrefersAt(j: JobInput): nat {
    if RequiredRows(j) == [] then 2 else 3
  }

  /** The REQUIRES and PREFERS relationships a job sync leaves when it is cut after `k` statements. */
  function JobEdgesAt(j: JobInput, g: Graph, k: nat): map<EdgeKey, SkillRel> {
    if k <= 1 then OwnEdges(g.skill.edges, {Requires, Prefers}, j.jid)
    else (if k > 2 then RowMap(Requires, j.jid, RequiredRows(j)) else map[])
         + (if k > PrefersAt(j) then RowMap(Prefers, j.jid, PreferredRows(j)) else map[])
  }

  lemma JobStatements(j: JobInput, t: Taxonomy, k: nat)
    requires k < |JobProgram(j, t)|
    ensures var s := JobProgram(j, t)[k];
            && (k == 0 ==> s == MergeJob(j.jid, JobNodeOf(j)))
            && (k == 1 ==> s == ClearJobSkills(j.jid))
            && (k == 2 && RequiredRows(j) != [] ==> s == MergeSkillEdges(Requires, j.jid, RequiredRows(j)))
            && (k == PrefersAt(j) && PreferredRows(j) != [] ==> s == MergeSkillEdges(Prefers, j.jid, PreferredRows(j)))
            && (k > PrefersAt(j) || (k == PrefersAt(j) && PreferredRows(j) == []) ==> s in SeedProgram(t))
  {
    hide RequiredRows, PreferredRows, JobNodeOf, SeedProgram;
  }

  lemma JobStatementEdges(j: JobInput, t: Taxonomy, h: Graph, s: Stmt)
    requires s == MergeJob(j.jid, JobNodeOf(j)) || s == ClearJobSkills(j.jid) || s in SeedProgram(t)
             || s == MergeSkillEdges(Requires, j.jid, RequiredRows(j))
             || s == MergeSkillEdges(Prefers, j.jid, PreferredRows(j))
    ensures var u, rels := Apply(s, h).skill, {Requires, Prefers};
            var own := OwnEdges(h.skill.edges, rels, j.jid);
            && (s == MergeJob(j.jid, JobNodeOf(j)) ==> u.edges == h.skill.edges && j.jid in u.jobs)
            && (s == ClearJobSkills(j.jid) ==> OwnEdges(u.edges, rels, j.jid) == map[] && u.jobs == h.skill.jobs)
            && (s in SeedProgram(t) ==> u.edges == h.skill.edges && u.jobs == h.skill.jobs)
            && (s == MergeSkillEdges(Requires, j.jid, RequiredRows(j)) && j.jid in h.skill.jobs ==>
                  OwnEdges(u.edges, rels, j.jid) == own + RowMap(Requires, j.jid, RequiredRows(j))
                    && u.jobs == h.skill.jobs)
            && (s == MergeSkillEdges(Prefers, j.jid, PreferredRows(j)) && j.jid in h.skill.jobs ==>
                  OwnEdges(u.edges, rels, j.jid) == own + RowMap(Prefers, j.jid, PreferredRows(j))
                    && u.jobs == h.skill.jobs)
  {
    hide RequiredRows, PreferredRows, JobNodeOf, SeedProgram, OwnEdges, RowMap, MergeEdgesOn, WithoutOwners;
    var rels := {Requires, Prefers};
    ClearedOwn(h.skill.edges, rels, j.jid);
    if s in SeedProgram(t) {
      SeedsTouchNoEdges(s, t, h);
    }
    if j.jid in h.skill.jobs {
      MergedOwn(h.skill, Requires, j.jid, RequiredRows(j), rels);
      MergedOwn(h.skill, Prefers, j.jid, PreferredRows(j), rels);
    }
  }

  lemma {:induction false} JobCutEdges(j: JobInput, t: Taxonomy, g: Graph, k: nat)
    requires k <= |JobProgram(j, t)|
    ensures var h := RunAll(JobProgram(j, t)[..k], g);
            && OwnEdges(h.skill.edges, {Requires, Prefers}, j.jid) == JobEdgesAt(j, g, k)
            && (k > 0 ==> j.jid in h.skill.jobs)
    decreases k
  {
    hide RequiredRows, PreferredRows, JobNodeOf, SeedProgram, JobProgram, RunAll, Apply, OwnEdges, RowMap;
    var p := JobProgram(j, t);
    RowMapOwners(Requires, j.jid, RequiredRows(j));
    RowMapOwners(Prefers, j.jid, PreferredRows(j));
    if k == 0 {
      NothingRun(p, g);
    } else {
      JobCutEdges(j, t, g, k - 1);
      RunPrefix(p, k, g);
      JobStatements(j, t, k - 1);
      JobStatementEdges(j, t, RunAll(p[..k - 1], g), p[k - 1]);
    }
  }

  /** What the check means for a job sync cut after `k` statements, from any graph. */
  lemma CutJobVerdict(j: JobInput, t: Taxonomy, g: Graph, k: nat, stored: seq<Selected>)
    requires k <= |JobProgram(j, t)|
    requires ListsEdges(stored, RunAll(JobProgram(j, t)[..k], g).skill.edges, {Requires, Prefers}, j.jid)
    ensures var expected, whole := ExpectedJob(j), DistinctKeys(RequiredRows(j)) && DistinctKeys(PreferredRows(j));
            && (SkillVerdict(expected, stored) && |JobEdgesAt(j, g, k)| <= READ_LIMIT
                <==> whole && |expected| <= READ_LIMIT && NoBlankKeys(expected)
                     && RowMap(Requires, j.jid, RequiredRows(j)) + RowMap(Prefers, j.jid, PreferredRows(j))
                        == JobEdgesAt(j, g, k))
            && (k == 2 ==> (SkillVerdict(expected, stored) <==> RequiredRows(j) == [] && PreferredRows(j) == []))
            && (k == 3 && RequiredRows(j) != [] ==>
                  (SkillVerdict(expected, stored)
                   <==> whole && PreferredRows(j) == [] && |expected| <= READ_LIMIT && NoBlankKeys(expected)))
            && (k > PrefersAt(j) ==> (SkillVerdict(expected, stored)
                                      <==> whole && |expected| <= READ_LIMIT && NoBlankKeys(expected)))
  {
    hide RunAll, JobProgram, RequiredRows, PreferredRows, ListsEdges, SkillVerdict, EdgeMap, OwnEdges, DistinctIds,
      RowMap, DistinctKeys, NoBlankKeys;
    var rels := {Requires, Prefers};
    var expected, edges := ExpectedJob(j), RunAll(JobProgram(j, t)[..k], g).skill.edges;
    JobCutEdges(j, t, g, k);
    ExpectedJobMap(j);
    ExpectedJobIds(j);
    RowMapOwners(Requires, j.jid, RequiredRows(j));
    RowMapOwners(Prefers, j.jid, PreferredRows(j));
    VerdictOnGraph(expected, stored, edges, rels, j.jid);
    if k >= 2 {
      JobEdgesNoMore(j, g, k);
      VerdictWithoutSurplus(expected, stored, edges, rels, j.jid);
      NoKeys();
      TypesApart(j);
    }
  }

  /** Without the preferred rows the required ones alone are the whole only if there are none. */
  lemma TypesApart(j: JobInput)
    ensures var req, pre := RowMap(Requires, j.jid, RequiredRows(j)), RowMap(Prefers, j.jid, PreferredRows(j));
            && (req + pre == req <==> PreferredRows(j) == [])
            && (req + pre == map[] <==> RequiredRows(j) == [] && PreferredRows(j) == [])
            && req + map[] == req && map[] + pre == pre
  {
    hide RowMap, RequiredRows, PreferredRows;
    RowMapOwners(Requires, j.jid, RequiredRows(j));
    RowMapOwners(Prefers, j.jid, PreferredRows(j));
    var req, pre := RowMap(Requires, j.jid, RequiredRows(j)), RowMap(Prefers, j.jid, PreferredRows(j));
    if pre != map[] {
      var e :| e in pre;
      assert e in req + pre && e !in req;
    }
    if req != map[] {
      var e :| e in req;
      assert e in req + pre;
    }
  }

  lemma JobEdgesNoMore(j: JobInput, g: Graph, k: nat)
    requires k >= 2
    ensures |JobEdgesAt(j, g, k)| <= |ExpectedJob(j)|
  {
    hide RequiredRows, PreferredRows;
    var req, pre := RowMap(Requires, j.jid, RequiredRows(j)), RowMap(Prefers, j.jid, PreferredRows(j));
    ExpectedMap(Requires, j.jid, RequiredRows(j));
    ExpectedMap(Prefers, j.jid, PreferredRows(j));
    MapSizeAtMost(ExpectedOf(Requires, RequiredRows(j)), j.jid);
    MapSizeAtMost(ExpectedOf(Prefers, PreferredRows(j)), j.jid);
    UnionSize(if k > 2 then req else map[], if k > PrefersAt(j) then pre else map[]);
  }

  lemma UnionSize<K, V>(a: map<K, V>, b: map<K, V>)
    ensures |a + b| <= |a| + |b|
  {
    assert (a + b).Keys == a.Keys + b.Keys;
    KeySetsUnion(a.Keys, b.Keys);
    assert |a.Keys| == |a| && |b.Keys| == |b| && |(a + b).Keys| == |a + b|;
  }

  lemma KeySetsUnion<K>(a: set<K>, b: set<K>)
    ensures |a + b| <= |a| + |b|
  {
    assert |a + b| + |a * b| == |a| + |b|;
  }
}
