/**
  The colon-joined identities of CV, CVSection and CVEntry nodes, and when they name one owner.
 */
module ScopedIds {
  import opened Common

  function Scoped(owner: string, local: string): string {
    owner + ":" + local
  }

  /** `profile_id:attachment_id`, the CV node's identity. */
  function CvScope(profileId: string, attachmentId: string): string {
    Scoped(profileId, attachmentId)
  }

  function ScopedSectionId(cvId: string, sectionId: string): string {
    Scoped(cvId, sectionId)
  }

  function ScopedEntryId(cvId: string, sectionId: string, entryId: string): string {
    Scoped(Scoped(cvId, sectionId), entryId)
  }

  /** The number of colons in a text. */
  function Colons(s: string): nat {
    if s == "" then 0 else (if s[0] == ':' then 1 else 0) + Colons(s[1..])
  }

  /** `id` was made by putting something in the scope of `owner`. */
  predicate InScope(owner: string, id: string) {
    |owner| < |id| && id[..|owner|] == owner && id[|owner|] == ':'
  }

  /** No id continues another after a colon. */
  ghost predicate Apart(ids: set<Id>) {
    forall a, b :: a in ids && b in ids ==> !InScope(a.text, b.text)
  }

  /** Two owners of one id are equal, or one is in the scope of the other. */
  lemma OwnerAmongApart(a: string, b: string, id: string)
    requires InScope(a, id) && InScope(b, id)
    ensures a == b || InScope(a, b) || InScope(b, a)
  {
    if |a| < |b| {
      assert b[..|a|] == id[..|a|] && b[|a|] == id[|a|];
    } else if |b| < |a| {
      assert a[..|b|] == id[..|b|] && a[|b|] == id[|b|];
    } else {
      assert a == id[..|a|] == b;
    }
  }

  lemma InScopeTransitive(a: string, b: string, c: string)
    requires InScope(a, b) && InScope(b, c)
    ensures InScope(a, c)
  {
    assert c[..|a|] == b[..|a|] && c[|a|] == b[|a|];
  }

  /** Putting both ids under one owner neither makes nor removes a scope between them. */
  lemma ScopedKeepsScope(owner: string, a: string, b: string)
    ensures InScope(Scoped(owner, a), Scoped(owner, b)) <==> InScope(a, b)
  {
    var x, y, n := Scoped(owner, a), Scoped(owner, b), |owner| + 1;
    assert x[n..] == a && y[n..] == b && x[..n] == y[..n] == owner + ":";
    if InScope(x, y) {
      assert b[..|a|] == y[n..|x|] == x[n..];
      assert b[|a|] == y[|x|];
    }
    if InScope(a, b) {
      assert y[..|x|] == y[..n] + b[..|a|] == x;
      assert y[|x|] == b[|a|];
    }
  }

  lemma {:induction false} ColonsAppend(a: string, b: string)
    ensures Colons(a + b) == Colons(a) + Colons(b)
  {
    if a == "" {
      assert a + b == b;
    } else {
      assert (a + b)[1..] == a[1..] + b;
      ColonsAppend(a[1..], b);
    }
  }

  lemma ColonsScoped(owner: string, local: string)
    ensures Colons(Scoped(owner, local)) == Colons(owner) + 1 + Colons(local)
    ensures InScope(owner, Scoped(owner, local))
  {
    ColonsAppend(owner + ":", local);
    ColonsAppend(owner, ":");
    assert Colons(":") == 1;
    assert Scoped(owner, local)[..|owner|] == owner;
  }

  /** Owners with equally many colons cannot share a scoped id. */
  lemma OwnerUnique(a: string, b: string, id: string)
    requires InScope(a, id) && InScope(b, id)
    requires Colons(a) == Colons(b)
    ensures a == b
  {
    if |a| < |b| {
      ShorterOwnerHasFewerColons(a, b, id);
    } else if |b| < |a| {
      ShorterOwnerHasFewerColons(b, a, id);
    }
  }

  lemma ShorterOwnerHasFewerColons(a: string, b: string, id: string)
    requires InScope(a, id) && InScope(b, id) && |a| < |b|
    ensures Colons(a) < Colons(b)
  {
    var rest := b[|a| + 1..];
    assert b[..|a|] == id[..|a|] && b[|a|] == id[|a|];
    assert b == Scoped(a, rest);
    ColonsScoped(a, rest);
  }

  /** Two scoped ids under one owner are equal only for equal local ids. */
  lemma ScopedInjective(owner: string, a: string, b: string)
    requires Scoped(owner, a) == Scoped(owner, b)
    ensures a == b
  {
    assert Scoped(owner, a)[|owner| + 1..] == a;
    assert Scoped(owner, b)[|owner| + 1..] == b;
  }

  /**
    Two sections of one CV can hold entries with the same graph identity exactly when one section
    id continues the other after a colon.
   */
  lemma EntryIdsCollideIff(cvId: string, s1: string, s2: string)
    requires s1 != s2
    ensures (exists e1, e2 :: e1 != "" && e2 != "" && ScopedEntryId(cvId, s1, e1) == ScopedEntryId(cvId, s2, e2))
       <==> (InScope(s1, s2) || InScope(s2, s1))
  {
    if InScope(s1, s2) {
      CollisionOf(cvId, s1, s2);
    }
    if InScope(s2, s1) {
      CollisionOf(cvId, s2, s1);
    }
    forall e1, e2 | e1 != "" && e2 != "" && ScopedEntryId(cvId, s1, e1) == ScopedEntryId(cvId, s2, e2)
      ensures InScope(s1, s2) || InScope(s2, s1)
    {
      CollisionForcesScope(cvId, s1, e1, s2, e2);
    }
  }

  lemma ScopedAssoc(a: string, b: string, c: string)
    ensures Scoped(Scoped(a, b), c) == Scoped(a, Scoped(b, c))
  {}

  lemma CollisionOf(cvId: string, s1: string, s2: string)
    requires InScope(s1, s2)
    ensures exists e1, e2 :: e1 != "" && e2 != "" && ScopedEntryId(cvId, s1, e1) == ScopedEntryId(cvId, s2, e2)
    ensures exists e1, e2 :: e1 != "" && e2 != "" && ScopedEntryId(cvId, s2, e1) == ScopedEntryId(cvId, s1, e2)
  {
    var tail := s2[|s1| + 1..];
    assert s2 == Scoped(s1, tail);
    ScopedAssoc(cvId, s1, Scoped(tail, "x"));
    ScopedAssoc(cvId, s2, "x");
    ScopedAssoc(s1, tail, "x");
    assert ScopedEntryId(cvId, s1, Scoped(tail, "x")) == ScopedEntryId(cvId, s2, "x");
  }

  lemma CollisionForcesScope(cvId: string, s1: string, e1: string, s2: string, e2: string)
    requires s1 != s2 && ScopedEntryId(cvId, s1, e1) == ScopedEntryId(cvId, s2, e2)
    ensures InScope(s1, s2) || InScope(s2, s1)
  {
    ScopedAssoc(cvId, s1, e1);
    ScopedAssoc(cvId, s2, e2);
    ScopedInjective(cvId, Scoped(s1, e1), Scoped(s2, e2));
    var whole := Scoped(s1, e1);
    assert whole[..|s1|] == s1 && whole[..|s2|] == s2;
    if |s1| == |s2| {
      assert false;
    } else if |s1| < |s2| {
      assert s2[..|s1|] == whole[..|s1|] && s2[|s1|] == whole[|s1|] == ':';
    } else {
      assert s1[..|s2|] == whole[..|s2|] && s1[|s2|] == whole[|s2|] == ':';
    }
  }
}
