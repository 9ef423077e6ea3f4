/** Shared datatypes and small sequence helpers. */
module Common {
  datatype Option<+T> = None | Some(value: T)

  datatype Result<+T, +E> = Ok(value: T) | Err(error: E)

  /** An identifier or another text that is only compared. */
  datatype Id = Id(text: string)

  /** A column after a flush: written iff the value left in memory differs from the one that was read. */
  function Pick<T(==)>(seen: T, left: T, current: T): T {
    if left == seen then current else left
  }

  /** No value occurs at two positions. */
  ghost predicate Distinct<T>(s: seq<T>) {
    forall i, j :: 0 <= i < j < |s| ==> s[i] != s[j]
  }

  function ToSet<T>(s: seq<T>): set<T> {
    set x | x in s
  }

  function Min(a: int, b: int): int {
    if a <= b then a else b
  }

  function Map<A, B>(f: A -> B, s: seq<A>): (r: seq<B>)
    ensures |r| == |s|
    ensures forall i :: 0 <= i < |s| ==> r[i] == f(s[i])
  {
    seq(|s|, i requires 0 <= i < |s| => f(s[i]))
  }

  ghost predicate Increasing(at: seq<nat>) {
    forall i, j :: 0 <= i < j < |at| ==> at[i] < at[j]
  }

  /** `at` holds exactly the positions of the elements to keep, in order. */
  ghost predicate Positions<T>(at: seq<nat>, s: seq<T>, keep: T -> bool) {
    Increasing(at) && forall i: nat :: i in at <==> i < |s| && keep(s[i])
  }

  lemma NoPositions<T>(keep: T -> bool)
    ensures Positions([], [], keep)
  {}

  /** One more element adds its position, if it is to be kept. */
  lemma PositionsGrow<T>(at: seq<nat>, s: seq<T>, x: T, keep: T -> bool)
    requires Positions(at, s, keep)
    ensures Positions(at + if keep(x) then [|s|] else [], s + [x], keep)
  {
    var more := at + if keep(x) then [|s|] else [];
    forall i, j | 0 <= i < j < |more| ensures more[i] < more[j] {
      if j == |at| {
        assert at[i] in at;
      }
    }
    forall i: nat ensures i in more <==> i < |s + [x]| && keep((s + [x])[i]) {
      assert i in more <==> i in at || (keep(x) && i == |s|);
    }
  }

  predicate IsStretch<T(==)>(part: seq<T>, whole: seq<T>, start: nat, end: nat) {
    start <= end <= |whole| && whole[start..end] == part
  }

  ghost predicate JoinsAt<T>(whole: seq<T>, parts: seq<seq<T>>, at: seq<nat>) {
    && |at| == |parts| + 1 && at[0] == 0 && at[|parts|] == |whole|
    && forall i :: 0 <= i < |parts| ==> IsStretch(parts[i], whole, at[i], at[i + 1])
  }

  /** `whole` is the parts, one after another. */
  ghost predicate Joins<T>(whole: seq<T>, parts: seq<seq<T>>) {
    exists at: seq<nat> :: JoinsAt(whole, parts, at)
  }

  lemma JoinsNothing<T>()
    ensures Joins<T>([], [])
  {
    var at: seq<nat> := [0];
    assert JoinsAt<T>([], [], at);
  }

  lemma JoinsMore<T>(whole: seq<T>, parts: seq<seq<T>>, part: seq<T>)
    requires Joins(whole, parts)
    ensures Joins(whole + part, parts + [part])
  {
    var at: seq<nat> :| JoinsAt(whole, parts, at);
    var all, list, ends := whole + part, parts + [part], at + [|whole| + |part|];
    forall i | 0 <= i < |list| ensures IsStretch(list[i], all, ends[i], ends[i + 1]) {
      if i < |parts| {
        assert IsStretch(parts[i], whole, at[i], at[i + 1]);
        assert all[ends[i]..ends[i + 1]] == whole[at[i]..at[i + 1]];
      }
    }
    assert JoinsAt(all, list, ends);
  }

  /** Sum of a measure over a sequence. */
  function Sum<A>(f: A -> nat, s: seq<A>): nat {
    if s == [] then 0 else Sum(f, s[..|s| - 1]) + f(s[|s| - 1])
  }

  lemma {:induction false} SumAppend<A>(f: A -> nat, s: seq<A>, t: seq<A>)
    ensures Sum(f, s + t) == Sum(f, s) + Sum(f, t)
    decreases |t|
  {
    if t == [] {
      assert s + t == s;
    } else {
      var front, last := t[..|t| - 1], t[|t| - 1];
      assert (s + t)[..|s + t| - 1] == s + front;
      SumAppend(f, s, front);
    }
  }

  lemma {:induction false} DistinctSetSize<T>(s: seq<T>)
    requires Distinct(s)
    ensures |ToSet(s)| == |s|
    decreases |s|
  {
    if s == [] {
      assert ToSet(s) == {};
    } else {
      var front, last := s[..|s| - 1], s[|s| - 1];
      DistinctSetSize(front);
      assert ToSet(s) == ToSet(front) + {last};
      assert last !in front;
    }
  }

  lemma {:induction false} SetSizeAtMost<T>(s: seq<T>)
    ensures |ToSet(s)| <= |s|
    decreases |s|
  {
    if s == [] {
      assert ToSet(s) == {};
    } else {
      SetSizeAtMost(s[..|s| - 1]);
      assert ToSet(s) == ToSet(s[..|s| - 1]) + {s[|s| - 1]};
    }
  }

  lemma {:induction false} FullSizeIsDistinct<T>(s: seq<T>)
    requires |ToSet(s)| == |s|
    ensures Distinct(s)
    decreases |s|
  {
    if s != [] {
      var front, last := s[..|s| - 1], s[|s| - 1];
      assert ToSet(s) == ToSet(front) + {last};
      SetSizeAtMost(front);
      assert last !in front;
      FullSizeIsDistinct(front);
    }
  }
}
