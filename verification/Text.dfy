/** Python string helpers used by several components. */
module Text {
  /** Code points that `str.strip` and `str.split` treat as white space. */
  predicate IsSpaceCode(n: int) {
    9 <= n <= 13 || 28 <= n <= 32 || n == 0x85 || n == 0xA0 || n == 0x1680 || 0x2000 <= n <= 0x200A
    || n == 0x2028 || n == 0x2029 || n == 0x202F || n == 0x205F || n == 0x3000
  }

  predicate IsSpace(c: char) {
    IsSpaceCode(c as int)
  }

  function StripLeft(s: string): string {
    if s != [] && IsSpace(s[0]) then StripLeft(s[1..]) else s
  }

  function StripRight(s: string): string {
    if s != [] && IsSpace(s[|s| - 1]) then StripRight(s[..|s| - 1]) else s
  }

  function Strip(s: string): string {
    StripRight(StripLeft(s))
  }

  predicate IsBlank(s: string) {
    forall i :: 0 <= i < |s| ==> IsSpace(s[i])
  }

  /** `s.strip() == ""` is the same as having only white space. */
  lemma {:induction false} StripEmptyIffBlank(s: string)
    ensures Strip(s) == "" <==> IsBlank(s)
  {
    StripLeftEmptyIffBlank(s);
    if !IsBlank(s) {
      StripLeftStopsAtText(s);
      StripRightKeepsText(StripLeft(s));
    }
  }

  lemma {:induction false} StripLeftEmptyIffBlank(s: string)
    ensures StripLeft(s) == "" <==> IsBlank(s)
  {
    if s != [] && IsSpace(s[0]) {
      StripLeftEmptyIffBlank(s[1..]);
      assert IsBlank(s[1..]) ==> IsBlank(s) by {
        if IsBlank(s[1..]) {
          forall i | 0 <= i < |s| ensures IsSpace(s[i]) {
            if i > 0 {
              assert s[i] == s[1..][i - 1];
            }
          }
        }
      }
    }
  }

  lemma {:induction false} StripLeftStopsAtText(s: string)
    requires !IsBlank(s)
    ensures StripLeft(s) != "" && !IsSpace(StripLeft(s)[0])
  {
    if IsSpace(s[0]) {
      var i :| 0 <= i < |s| && !IsSpace(s[i]);
      assert s[1..][i - 1] == s[i];
      StripLeftStopsAtText(s[1..]);
    }
  }

  lemma {:induction false} StripRightKeepsText(s: string)
    requires s != "" && !IsSpace(s[0])
    ensures StripRight(s) != ""
    decreases |s|
  {
    if IsSpace(s[|s| - 1]) {
      StripRightKeepsText(s[..|s| - 1]);
    }
  }

  /** Only white space goes, and all of it at both ends. */
  lemma {:induction false} StripMeans(s: string) returns (i: nat, j: nat)
    requires !IsBlank(s)
    ensures i < j <= |s| && Strip(s) == s[i..j]
    ensures IsBlank(s[..i]) && IsBlank(s[j..]) && !IsSpace(s[i]) && !IsSpace(s[j - 1])
  {
    i := StripLeftMeans(s);
    j := StripRightMeans(s[i..]);
    assert s[i..][..j] == s[i..i + j] && s[i..][j..] == s[i + j..];
    j := i + j;
  }

  lemma {:induction false} StripLeftMeans(s: string) returns (i: nat)
    requires !IsBlank(s)
    ensures i < |s| && StripLeft(s) == s[i..] && IsBlank(s[..i]) && !IsSpace(s[i])
  {
    if IsSpace(s[0]) {
      var k :| 0 <= k < |s| && !IsSpace(s[k]);
      assert s[1..][k - 1] == s[k];
      i := StripLeftMeans(s[1..]);
      assert s[1..][i..] == s[i + 1..];
      forall k | 0 <= k < i + 1 ensures IsSpace(s[k]) {
        assert k > 0 ==> s[1..][..i][k - 1] == s[k];
      }
      i := i + 1;
    } else {
      i := 0;
    }
  }

  lemma {:induction false} StripRightMeans(s: string) returns (j: nat)
    requires s != "" && !IsSpace(s[0])
    ensures 0 < j <= |s| && StripRight(s) == s[..j] && IsBlank(s[j..]) && !IsSpace(s[j - 1])
    decreases |s|
  {
    if IsSpace(s[|s| - 1]) {
      var front := s[..|s| - 1];
      j := StripRightMeans(front);
      assert front[..j] == s[..j];
      forall k | 0 <= k < |s| - j ensures IsSpace(s[j..][k]) {
        assert k < |front| - j ==> front[j..][k] == s[j..][k];
      }
    } else {
      j := |s|;
    }
  }

  /** `" ".join(parts)`. */
  function Spaced(parts: seq<string>): string {
    if |parts| == 0 then "" else if |parts| == 1 then parts[0] else parts[0] + " " + Spaced(parts[1..])
  }

  lemma {:induction false} SpacedAppend(parts: seq<string>, last: string)
    ensures Spaced(parts + [last]) == if parts == [] then last else Spaced(parts) + " " + last
  {
    if |parts| > 1 {
      assert (parts + [last])[1..] == parts[1..] + [last];
      SpacedAppend(parts[1..], last);
    } else if |parts| == 1 {
      assert (parts + [last])[1..] == [last];
    }
  }
}
