/** The recent-context window: newest messages first, within a count and a character budget. */
module ContextBudget {
  import opened Common

  datatype Message = Message(id: Id, role: string, content: string)

  function Kept(messages: seq<Message>, exclude: set<Id>): seq<Message> {
    if messages == [] then []
    else
      var front, last := messages[..|messages| - 1], messages[|messages| - 1];
      Kept(front, exclude) + if last.id in exclude then [] else [last]
  }

  /** Only the newest message is ever cut. */
  function Shortened(w: seq<Message>, j: nat, budget: nat): Message
    requires j < |w|
  {
    if j == 0 && |w[0].content| > budget then w[0].(content := w[0].content[..budget]) else w[j]
  }

  function Shown(w: seq<Message>, n: nat, budget: nat): seq<Message>
    requires n <= |w|
  {
    seq(n, j requires 0 <= j < n => Shortened(w, j, budget))
  }

  function Chars(messages: seq<Message>): nat {
    Sum((m: Message) => |m.content|, messages)
  }

  function Reversed<T>(s: seq<T>): (r: seq<T>)
    ensures |r| == |s| && forall i :: 0 <= i < |s| ==> r[i] == s[|s| - 1 - i]
  {
    seq(|s|, i requires 0 <= i < |s| => s[|s| - 1 - i])
  }

  /** `n` newest messages fit: within the count, and within the budget once the newest is cut. */
  predicate Fits(w: seq<Message>, n: nat, maxMessages: nat, budget: nat)
    requires n <= |w|
  {
    n <= maxMessages && Chars(Shown(w, n, budget)) <= budget
  }

  lemma ShownGrows(w: seq<Message>, n: nat, budget: nat)
    requires n < |w|
    ensures Shown(w, n + 1, budget) == Shown(w, n, budget) + [Shortened(w, n, budget)]
    ensures Chars(Shown(w, n + 1, budget)) == Chars(Shown(w, n, budget)) + |Shortened(w, n, budget).content|
  {}

  lemma {:induction false} FitsShrinks(w: seq<Message>, m: nat, n: nat, maxMessages: nat, budget: nat)
    requires m <= n <= |w| && Fits(w, n, maxMessages, budget)
    ensures Fits(w, m, maxMessages, budget)
    decreases n
  {
    if m < n {
      ShownGrows(w, n - 1, budget);
      FitsShrinks(w, m, n - 1, maxMessages, budget);
    }
  }

  lemma KeptSplits(messages: seq<Message>, i: nat, exclude: set<Id>)
    requires i < |messages|
    ensures Kept(messages[..i + 1], exclude)
            == Kept(messages[..i], exclude) + if messages[i].id in exclude then [] else [messages[i]]
  {
    assert messages[..i + 1][..i] == messages[..i];
  }

  lemma {:induction false} KeptPrefix(messages: seq<Message>, i: nat, exclude: set<Id>)
    requires i <= |messages|
    ensures Kept(messages[..i], exclude) <= Kept(messages, exclude)
    decreases |messages|
  {
    if i == |messages| {
      assert messages[..i] == messages;
    } else {
      var front := messages[..|messages| - 1];
      assert front[..i] == messages[..i];
      KeptPrefix(front, i, exclude);
    }
  }

  lemma {:induction false} KeptAt(messages: seq<Message>, exclude: set<Id>) returns (at: seq<nat>)
    ensures Positions(at, messages, (m: Message) => m.id !in exclude) && |Kept(messages, exclude)| == |at|
    ensures forall k :: 0 <= k < |at| ==> at[k] < |messages| && Kept(messages, exclude)[k] == messages[at[k]]
    decreases |messages|
  {
    if messages == [] {
      at := [];
    } else {
      var front, last := messages[..|messages| - 1], messages[|messages| - 1];
      at := KeptAt(front, exclude);
      PositionsGrow(at, front, last, (m: Message) => m.id !in exclude);
      assert front + [last] == messages;
      at := at + if last.id in exclude then [] else [|front|];
    }
  }

  /** The message as the window shows it: only the newest is ever cut, to the whole budget. */
  predicate ShownAs(shown: Message, m: Message, newest: bool, budget: nat) {
    && shown.id == m.id && shown.role == m.role
    && shown.content == if newest && |m.content| > budget then m.content[..budget] else m.content
  }

  /**
    Oldest first, the window shows the newest of the messages at these positions, within both caps;
    it misses one only if it is full or the next does not fit behind what it shows.
   */
  ghost predicate IsWindow(
    window: seq<Message>, messages: seq<Message>, at: seq<nat>, maxMessages: nat, budget: nat)
    requires forall k :: 0 <= k < |at| ==> at[k] < |messages|
  {
    var n := |window|;
    && n <= |at| && n <= maxMessages && Chars(Reversed(window)) <= budget
    && (forall j :: 0 <= j < n ==> ShownAs(window[n - 1 - j], messages[at[j]], j == 0, budget))
    && (n < |at| ==>
          n == maxMessages || (n > 0 && Chars(Reversed(window)) + |messages[at[n]].content| > budget))
  }

  ghost predicate Shows(window: seq<Message>, messages: seq<Message>, maxMessages: nat, budget: nat, exclude: set<Id>) {
    exists at: seq<nat> ::
      && Positions(at, messages, (m: Message) => m.id !in exclude)
      && (forall k :: 0 <= k < |at| ==> at[k] < |messages|) && IsWindow(window, messages, at, maxMessages, budget)
  }

  lemma ReversedTwice<T>(s: seq<T>)
    ensures Reversed(Reversed(s)) == s
  {}

  /** The longest run that fits is cut short only by a cap. */
  lemma CutShort(w: seq<Message>, n: nat, maxMessages: nat, budget: nat)
    requires n < |w| && Fits(w, n, maxMessages, budget) && !Fits(w, n + 1, maxMessages, budget)
    ensures n == maxMessages || (n > 0 && Chars(Shown(w, n, budget)) + |w[n].content| > budget)
  {
    ShownGrows(w, n, budget);
    if n == 0 && maxMessages > 0 {
      NewestAlwaysFits(w, maxMessages, budget);
    }
  }

  lemma WindowShows(messages: seq<Message>, n: nat, maxMessages: nat, budget: nat, exclude: set<Id>)
    requires var w := Kept(messages, exclude);
             n <= |w| && forall m: nat :: m <= |w| ==> (Fits(w, m, maxMessages, budget) <==> m <= n)
    ensures Shows(Reversed(Shown(Kept(messages, exclude), n, budget)), messages, maxMessages, budget, exclude)
  {
    var w := Kept(messages, exclude);
    var at := KeptAt(messages, exclude);
    var shown := Shown(w, n, budget);
    assert Fits(w, n, maxMessages, budget);
    ReversedTwice(shown);
    if n < |w| {
      assert !Fits(w, n + 1, maxMessages, budget);
      CutShort(w, n, maxMessages, budget);
    }
    ShownInOrder(messages, w, at, n, budget);
    hide Kept, Positions, Chars, Shown, ShownAs;
    assert IsWindow(Reversed(shown), messages, at, maxMessages, budget);
  }

  lemma ShownInOrder(messages: seq<Message>, w: seq<Message>, at: seq<nat>, n: nat, budget: nat)
    requires n <= |w| == |at| && forall k :: 0 <= k < |at| ==> at[k] < |messages| && w[k] == messages[at[k]]
    ensures var window := Reversed(Shown(w, n, budget));
            |window| == n && forall j :: 0 <= j < n ==> ShownAs(window[n - 1 - j], messages[at[j]], j == 0, budget)
  {
    var window := Reversed(Shown(w, n, budget));
    forall j | 0 <= j < n ensures ShownAs(window[n - 1 - j], messages[at[j]], j == 0, budget) {
      assert window[n - 1 - j] == Shortened(w, j, budget);
    }
  }

  /**
    The window is the largest run of newest messages, without the excluded ones, that fits both caps,
    listed oldest first; every shorter run fits, no longer one does, and only the newest may be cut.
   */
  method ApplyRecentContextBudget(
    messages: seq<Message>, maxMessages: nat, budget: nat, exclude: set<Id>) returns (window: seq<Message>)
    ensures var w := Kept(messages, exclude);
            && |window| <= |w|
            && window == Reversed(Shown(w, |window|, budget))
            && (forall n: nat :: n <= |w| ==> (Fits(w, n, maxMessages, budget) <==> n <= |window|))
    ensures Shows(window, messages, maxMessages, budget, exclude)
  {
    hide Fits, Shown, Shows;
    ghost var w := Kept(messages, exclude);
    var selected: seq<Message> := [];
    var used := 0;
    EmptyWindow(w, maxMessages, budget);
    var i := 0;
    while i < |messages|
      invariant 0 <= i <= |messages|
      invariant |selected| <= |w| && Kept(messages[..i], exclude) == w[..|selected|]
      invariant selected == Shown(w, |selected|, budget) && used == Chars(selected)
      invariant Fits(w, |selected|, maxMessages, budget)
    {
      KeptSplits(messages, i, exclude);
      KeptPrefix(messages, i + 1, exclude);
      if |selected| >= maxMessages {
        WindowIsFull(w, |selected|, maxMessages, budget);
        break;
      }
      var row := messages[i];
      if row.id in exclude {
        i := i + 1;
        continue;
      }
      assert |selected| < |w| && w[|selected|] == row;
      ShownGrows(w, |selected|, budget);
      var content := row.content;
      if selected != [] && used + |content| > budget {
        NextDoesNotFit(w, |selected|, maxMessages, budget);
        break;
      }
      if selected == [] && |content| > budget {
        content := content[..budget];
      }
      NextFits(w, |selected|, maxMessages, budget, used, |content|);
      assert Kept(messages[..i + 1], exclude) == w[..|selected| + 1];
      selected := selected + [row.(content := content)];
      used := used + |content|;
      i := i + 1;
    }
    if i == |messages| {
      assert messages[..i] == messages;
    }
    WindowIsMaximal(w, |selected|, maxMessages, budget);
    WindowShows(messages, |selected|, maxMessages, budget, exclude);
    window := Reversed(selected);
  }

  lemma EmptyWindow(w: seq<Message>, maxMessages: nat, budget: nat)
    ensures Shown(w, 0, budget) == [] && Fits(w, 0, maxMessages, budget)
  {}

  lemma WindowIsFull(w: seq<Message>, n: nat, maxMessages: nat, budget: nat)
    requires n <= |w| && n >= maxMessages
    ensures n < |w| ==> !Fits(w, n + 1, maxMessages, budget)
  {}

  lemma NextDoesNotFit(w: seq<Message>, n: nat, maxMessages: nat, budget: nat)
    requires 0 < n < |w| && Chars(Shown(w, n, budget)) + |w[n].content| > budget
    ensures !Fits(w, n + 1, maxMessages, budget)
  {
    ShownGrows(w, n, budget);
  }

  lemma NextFits(w: seq<Message>, n: nat, maxMessages: nat, budget: nat, used: nat, size: nat)
    requires n < |w| && n < maxMessages && used == Chars(Shown(w, n, budget))
    requires size == |Shortened(w, n, budget).content|
    requires used + size <= budget
    ensures Fits(w, n + 1, maxMessages, budget)
  {
    ShownGrows(w, n, budget);
  }

  lemma WindowIsMaximal(w: seq<Message>, n: nat, maxMessages: nat, budget: nat)
    requires n <= |w| && Fits(w, n, maxMessages, budget) && (n == |w| || !Fits(w, n + 1, maxMessages, budget))
    ensures forall m: nat :: m <= |w| ==> (Fits(w, m, maxMessages, budget) <==> m <= n)
  {
    forall m: nat | m <= |w| ensures Fits(w, m, maxMessages, budget) <==> m <= n {
      if m <= n {
        FitsShrinks(w, m, n, maxMessages, budget);
      } else if Fits(w, m, maxMessages, budget) {
        FitsShrinks(w, n + 1, m, maxMessages, budget);
      }
    }
  }

  /** The newest message is always in the window of a positive count, cut to the budget if it must be. */
  lemma NewestAlwaysFits(w: seq<Message>, maxMessages: nat, budget: nat)
    requires w != [] && maxMessages > 0
    ensures Fits(w, 1, maxMessages, budget) && |Shortened(w, 0, budget).content| == Min(|w[0].content|, budget)
  {
    ShownGrows(w, 0, budget);
    EmptyWindow(w, maxMessages, budget);
  }
}
