/**
  What `fetchLLMCommentary` does with the completion service's answer before
  accepting it. Think blocks are deleted and the result is trimmed (Clean).
  That text is split on newline runs, each piece is trimmed, and pieces that
  are short, start with a dash, look like a numbered item or are a whole
  starred stage direction are dropped (PrimaryLines). When fewer than three
  pieces survive and the cleaned text is longer than 80 code units, inline
  starred actions are deleted instead, the text is split after sentence
  ends, and pieces of more than 20 code units are kept (SecondaryLines). The
  answer is accepted with at least three lines, of which the first four are
  returned (Sanitise). Each regular expression is modelled by a function that
  does what the JavaScript engine does with it.
*/
module Sanitizer {
  import opened Wrappers
  import opened JsText
  import opened JsArray

  const ThinkOpen: string := "<think>"
  const ThinkClose: string := "</think>"

  /** `s.indexOf(w, from)`, absent for -1. */
  function IndexOfFrom(s: string, w: string, from: nat): (r: Option<nat>)
    ensures r.Some? ==> from <= r.value && OccursAt(s, w, r.value)
    ensures r.Some? ==> forall k :: from <= k < r.value ==> !OccursAt(s, w, k)
    ensures r.None? ==> forall k :: from <= k ==> !OccursAt(s, w, k)
    decreases |s| - from
  {
    if from + |w| > |s| then None
    else if OccursAt(s, w, from) then Some(from)
    else IndexOfFrom(s, w, from + 1)
  }

  /**
    `s.replace(/<think>[\s\S]*?<\/think>/g, "")`, applied to `s[i..]`:
    scanning left to right, each "<think>" together with the nearest
    "</think>" after it and everything between them is deleted; the scan
    resumes after the deleted block and never rescans what it has emitted.
  */
  function StripThinkFrom(s: string, i: nat): (r: string)
    requires i <= |s|
    ensures |r| <= |s| - i
    decreases |s| - i
  {
    if i >= |s| then []
    else if OccursAt(s, ThinkOpen, i) then
      match IndexOfFrom(s, ThinkClose, i + |ThinkOpen|)
      case Some(j) => StripThinkFrom(s, j + |ThinkClose|)
      // no "</think>" after this "<think>", so no later "<think>" is closed either
      case None => s[i..]
    else [s[i]] + StripThinkFrom(s, i + 1)
  }

  function StripThink(s: string): (r: string)
    ensures |r| <= |s|
  {
    StripThinkFrom(s, 0)
  }

  /** Text without a "<think>" passes through unchanged. */
  lemma {:induction false} StripThinkNoTag(s: string, i: nat)
    requires i <= |s|
    requires IndexOfFrom(s, ThinkOpen, i).None?
    ensures StripThinkFrom(s, i) == s[i..]
    decreases |s| - i
  {
    if i < |s| {
      assert !OccursAt(s, ThinkOpen, i);
      StripThinkNoTag(s, i + 1);
      SliceCons(s, i, |s|);
    }
  }

  /** Before the first match, the search can start one place later. */
  lemma IndexOfFromSkip(s: string, w: string, i: nat, a: nat)
    requires IndexOfFrom(s, w, i) == Some(a) && i < a
    ensures !OccursAt(s, w, i) && IndexOfFrom(s, w, i + 1) == Some(a)
  {
  }

  /** A character that does not start "<think>" is kept. */
  lemma StripThinkKeep(s: string, i: nat)
    requires i < |s| && !OccursAt(s, ThinkOpen, i)
    ensures StripThinkFrom(s, i) == [s[i]] + StripThinkFrom(s, i + 1)
  {
  }

  lemma SlicePrepend(s: string, i: nat, a: nat, rest: string)
    requires i < a <= |s|
    ensures [s[i]] + (s[i + 1..a] + rest) == s[i..a] + rest
  {
    SliceCons(s, i, a);
  }

  /**
    The first "<think>" from `i` on is at `a` and the first "</think>" after
    it at `b`: the text before `a` is kept, the block is deleted, and the
    scan goes on after it.
  */
  lemma {:induction false} StripThinkFirstBlock(s: string, i: nat, a: nat, b: nat)
    requires i <= |s|
    requires IndexOfFrom(s, ThinkOpen, i) == Some(a)
    requires IndexOfFrom(s, ThinkClose, a + |ThinkOpen|) == Some(b)
    ensures StripThinkFrom(s, i) == s[i..a] + StripThinkFrom(s, b + |ThinkClose|)
    decreases a - i
  {
    if i < a {
      var rest := StripThinkFrom(s, b + |ThinkClose|);
      assert StripThinkFrom(s, i + 1) == s[i + 1..a] + rest by {
        IndexOfFromSkip(s, ThinkOpen, i, a);
        StripThinkFirstBlock(s, i + 1, a, b);
      }
      assert StripThinkFrom(s, i) == [s[i]] + StripThinkFrom(s, i + 1) by {
        IndexOfFromSkip(s, ThinkOpen, i, a);
        StripThinkKeep(s, i);
      }
      SlicePrepend(s, i, a, rest);
    } else {
      StripThinkAtOpen(s, a, b);
    }
  }

  /** At a "<think>" closed at `b`, the scan jumps past the "</think>". */
  lemma StripThinkAtOpen(s: string, a: nat, b: nat)
    requires a <= |s| && OccursAt(s, ThinkOpen, a)
    requires IndexOfFrom(s, ThinkClose, a + |ThinkOpen|) == Some(b)
    ensures b + |ThinkClose| <= |s|
    ensures StripThinkFrom(s, a) == s[a..a] + StripThinkFrom(s, b + |ThinkClose|)
  {
    assert s[a..a] == [];
  }

  /** A "<think>" that is never closed, and everything after it, is kept. */
  lemma {:induction false} StripThinkUnclosed(s: string, i: nat, a: nat)
    requires i <= |s|
    requires IndexOfFrom(s, ThinkOpen, i) == Some(a)
    requires IndexOfFrom(s, ThinkClose, a + |ThinkOpen|).None?
    ensures StripThinkFrom(s, i) == s[i..]
    decreases a - i
  {
    if i < a {
      assert !OccursAt(s, ThinkOpen, i);
      StripThinkUnclosed(s, i + 1, a);
      SliceCons(s, i, |s|);
    }
  }

  /** The first index at or after `q` that is not "\n" (or |s|). */
  function NewlineRunEnd(s: string, q: nat): (e: nat)
    requires q <= |s|
    ensures q <= e <= |s|
    ensures forall k :: q <= k < e ==> s[k] == '\n'
    ensures e < |s| ==> s[e] != '\n'
    decreases |s| - q
  {
    if q < |s| && s[q] == '\n' then NewlineRunEnd(s, q + 1) else q
  }

  /** The split loop for `/\n+/`: the current piece starts at `p`, a match is tried at `q`. */
  function SplitNewlinesFrom(s: string, p: nat, q: nat): (pieces: seq<string>)
    requires p <= q <= |s|
    requires '\n' !in s[p..q]
    ensures |pieces| >= 1
    ensures forall i :: 0 <= i < |pieces| ==> '\n' !in pieces[i]
    decreases |s| - q
  {
    if q >= |s| then [s[p..]]
    else if s[q] == '\n' then
      var e := NewlineRunEnd(s, q);
      [s[p..q]] + SplitNewlinesFrom(s, e, e)
    else
      assert s[p..q + 1] == s[p..q] + [s[q]];
      SplitNewlinesFrom(s, p, q + 1)
  }

  /** `s.split(/\n+/)`: the pieces between maximal runs of "\n". */
  function SplitNewlines(s: string): (pieces: seq<string>)
    ensures |pieces| >= 1
    ensures forall i :: 0 <= i < |pieces| ==> '\n' !in pieces[i]
  {
    SplitNewlinesFrom(s, 0, 0)
  }

  /** The newline run found at `e + q` is the one found at `q` in `s[e..]`, shifted. */
  lemma {:induction false} NewlineRunEndShift(s: string, e: nat, q: nat)
    requires e + q <= |s|
    ensures NewlineRunEnd(s, e + q) == e + NewlineRunEnd(s[e..], q)
    decreases |s| - e - q
  {
    if e + q < |s| {
      assert s[e..][q] == s[e + q];
      if s[e + q] == '\n' {
        NewlineRunEndShift(s, e, q + 1);
      }
    }
  }

  /** Splitting from offset `e` of `s` is splitting `s[e..]`. */
  lemma {:induction false} SplitNewlinesShift(s: string, e: nat, p: nat, q: nat)
    requires e <= |s| && p <= q <= |s| - e
    requires '\n' !in s[e..][p..q]
    ensures s[e + p..e + q] == s[e..][p..q]
    ensures SplitNewlinesFrom(s, e + p, e + q) == SplitNewlinesFrom(s[e..], p, q)
    decreases |s| - e - q
  {
    var t := s[e..];
    assert s[e + p..e + q] == t[p..q];
    if q < |t| {
      assert t[q] == s[e + q];
      if t[q] == '\n' {
        var n := NewlineRunEnd(t, q);
        NewlineRunEndShift(s, e, q);
        SplitNewlinesShift(s, e, n, n);
      } else {
        assert t[p..q + 1] == t[p..q] + [t[q]];
        SplitNewlinesShift(s, e, p, q + 1);
      }
    } else {
      assert s[e + p..] == t[p..];
    }
  }

  /** With no newline from `p` on, the rest of the text is one piece. */
  lemma {:induction false} SplitNewlinesFromNone(s: string, p: nat, q: nat)
    requires p <= q <= |s|
    requires forall k :: p <= k < |s| ==> s[k] != '\n'
    requires '\n' !in s[p..q]
    ensures SplitNewlinesFrom(s, p, q) == [s[p..]]
    decreases |s| - q
  {
    if q < |s| {
      assert s[p..q + 1] == s[p..q] + [s[q]];
      SplitNewlinesFromNone(s, p, q + 1);
    }
  }

  /**
    Before the first newline run `s[m..e]`, the scan keeps extending the
    first piece; at the run it cuts `s[..m]` off and resumes at `e`.
  */
  lemma {:induction false} SplitNewlinesHead(s: string, m: nat, e: nat, q: nat)
    requires q <= m < e <= |s|
    requires forall k :: 0 <= k < m ==> s[k] != '\n'
    requires forall k :: m <= k < e ==> s[k] == '\n'
    requires e == |s| || s[e] != '\n'
    requires '\n' !in s[0..q]
    ensures SplitNewlinesFrom(s, 0, q) == [s[..m]] + SplitNewlinesFrom(s, e, e)
    decreases m - q
  {
    if q < m {
      assert s[0..q + 1] == s[0..q] + [s[q]];
      SplitNewlinesHead(s, m, e, q + 1);
    } else {
      assert NewlineRunEnd(s, q) == e;
    }
  }

  /** A text without "\n" is a single piece. */
  lemma SplitNewlinesNone(a: string)
    requires '\n' !in a
    ensures SplitNewlines(a) == [a]
  {
    SplitNewlinesFromNone(a, 0, 0);
    assert a[0..] == a;
  }

  /**
    The text is cut at every maximal newline run: the piece before the run
    comes first, and the rest is split after the run.
  */
  lemma SplitNewlinesCut(a: string, r: string, b: string)
    requires '\n' !in a
    requires |r| > 0 && forall k :: 0 <= k < |r| ==> r[k] == '\n'
    requires b == [] || b[0] != '\n'
    ensures SplitNewlines(a + r + b) == [a] + SplitNewlines(b)
  {
    var s := a + r + b;
    var e := |a| + |r|;
    assert s[..|a|] == a;
    assert s[e..] == b;
    assert forall k :: 0 <= k < |a| ==> s[k] == a[k];
    assert forall k :: |a| <= k < e ==> s[k] == r[k - |a|];
    assert s[0..0] == [];
    SplitNewlinesHead(s, |a|, e, 0);
    assert b[0..0] == [];
    SplitNewlinesShift(s, e, 0, 0);
  }

  /** `s` with every "\n" deleted. */
  function RemoveNewlines(s: string): string {
    if s == [] then [] else (if s[0] == '\n' then [] else [s[0]]) + RemoveNewlines(s[1..])
  }

  function Concat(pieces: seq<string>): string {
    if pieces == [] then [] else pieces[0] + Concat(pieces[1..])
  }

  lemma {:induction false} RemoveNewlinesAppend(a: string, b: string)
    ensures RemoveNewlines(a + b) == RemoveNewlines(a) + RemoveNewlines(b)
  {
    if a == [] {
      assert a + b == b;
    } else {
      var h := if a[0] == '\n' then [] else [a[0]];
      assert RemoveNewlines(a + b) == h + RemoveNewlines(a[1..] + b) by {
        assert (a + b)[0] == a[0];
        assert (a + b)[1..] == a[1..] + b;
      }
      RemoveNewlinesAppend(a[1..], b);
      assert h + (RemoveNewlines(a[1..]) + RemoveNewlines(b)) == (h + RemoveNewlines(a[1..])) + RemoveNewlines(b);
    }
  }

  lemma {:induction false} RemoveNewlinesNone(s: string)
    requires '\n' !in s
    ensures RemoveNewlines(s) == s
  {
    if s != [] {
      assert s[0] in s;
      assert forall c :: c in s[1..] ==> c in s;
      RemoveNewlinesNone(s[1..]);
    }
  }

  lemma {:induction false} RemoveNewlinesAll(s: string)
    requires forall i :: 0 <= i < |s| ==> s[i] == '\n'
    ensures RemoveNewlines(s) == []
  {
    if s != [] {
      RemoveNewlinesAll(s[1..]);
    }
  }

  lemma ConcatCons(x: string, rest: seq<string>)
    ensures Concat([x] + rest) == x + Concat(rest)
  {
    assert ([x] + rest)[1..] == rest;
  }

  lemma RemoveNewlinesThree(a: string, b: string, c: string)
    requires '\n' !in a
    requires forall k :: 0 <= k < |b| ==> b[k] == '\n'
    ensures RemoveNewlines(a + (b + c)) == a + RemoveNewlines(c)
  {
    assert RemoveNewlines(b + c) == RemoveNewlines(c) by {
      RemoveNewlinesAppend(b, c);
      RemoveNewlinesAll(b);
      assert [] + RemoveNewlines(c) == RemoveNewlines(c);
    }
    assert RemoveNewlines(a + (b + c)) == a + RemoveNewlines(b + c) by {
      RemoveNewlinesAppend(a, b + c);
      RemoveNewlinesNone(a);
    }
  }

  /** Removing newlines from `s[p..]` cut at `q` and `e`. */
  lemma RemoveNewlinesAround(s: string, p: nat, q: nat, e: nat)
    requires p <= q <= e <= |s|
    requires '\n' !in s[p..q]
    requires forall k :: q <= k < e ==> s[k] == '\n'
    ensures RemoveNewlines(s[p..]) == s[p..q] + RemoveNewlines(s[e..])
  {
    assert s[p..] == s[p..q] + (s[q..e] + s[e..]);
    assert forall k :: 0 <= k < e - q ==> s[q..e][k] == s[q + k];
    RemoveNewlinesThree(s[p..q], s[q..e], s[e..]);
  }

  lemma {:induction false} SplitNewlinesFromKeepsText(s: string, p: nat, q: nat)
    requires p <= q <= |s|
    requires '\n' !in s[p..q]
    ensures Concat(SplitNewlinesFrom(s, p, q)) == RemoveNewlines(s[p..])
    decreases |s| - q
  {
    if q >= |s| {
      ConcatCons(s[p..], []);
      RemoveNewlinesNone(s[p..]);
    } else if s[q] == '\n' {
      var e := NewlineRunEnd(s, q);
      SplitNewlinesFromKeepsText(s, e, e);
      ConcatCons(s[p..q], SplitNewlinesFrom(s, e, e));
      RemoveNewlinesAround(s, p, q, e);
    } else {
      assert s[p..q + 1] == s[p..q] + [s[q]];
      SplitNewlinesFromKeepsText(s, p, q + 1);
    }
  }

  /**
    Splitting on newline runs loses only the newlines: the pieces, joined,
    are the text with every "\n" removed.
  */
  lemma SplitNewlinesKeepsText(s: string)
    ensures Concat(SplitNewlines(s)) == RemoveNewlines(s)
  {
    SplitNewlinesFromKeepsText(s, 0, 0);
  }

  /** `lines.map((l) => l.trim())`. */
  function TrimAll(lines: seq<string>): (r: seq<string>)
    ensures |r| == |lines|
    ensures forall i :: 0 <= i < |r| ==> r[i] == Trim(lines[i]) && IsTrimmed(r[i])
  {
    if lines == [] then [] else [Trim(lines[0])] + TrimAll(lines[1..])
  }

  /** Length of the run of ASCII digits `\d` at the start of `s`. */
  function DigitRun(s: string): (n: nat)
    ensures n <= |s|
    ensures forall i :: 0 <= i < n ==> IsDigit(s[i])
    ensures n < |s| ==> !IsDigit(s[n])
  {
    if s != [] && IsDigit(s[0]) then 1 + DigitRun(s[1..]) else 0
  }

  /** `l.match(/^\d+\./)`: the greedy digit run, if any, is followed by ".". */
  predicate IsNumberedItem(l: string) {
    var n := DigitRun(l);
    0 < n < |l| && l[n] == '.'
  }

  /**
    Backtracking finds no other match: `^\d+\.` matches exactly when some
    non-empty all-digit prefix is followed by ".".
  */
  lemma NumberedItemIff(l: string)
    ensures IsNumberedItem(l) <==>
      exists k :: 1 <= k < |l| && (forall j :: 0 <= j < k ==> IsDigit(l[j])) && l[k] == '.'
  {
    var n := DigitRun(l);
    if exists k :: 1 <= k < |l| && (forall j :: 0 <= j < k ==> IsDigit(l[j])) && l[k] == '.' {
      var k :| 1 <= k < |l| && (forall j :: 0 <= j < k ==> IsDigit(l[j])) && l[k] == '.';
      assert !IsDigit(l[k]);
      assert n == k;
    }
  }

  /** `l.match(/^\*[^*]+\*$/)`: the whole line is "*", at least one non-"*", "*". */
  predicate IsStarAction(l: string) {
    && |l| >= 3 && l[0] == '*' && l[|l| - 1] == '*'
    && forall j :: 0 < j < |l| - 1 ==> l[j] != '*'
  }

  /** The filter of the first split. */
  predicate KeepPrimary(l: string) {
    && Utf16Length(l) > 15
    && !StartsWith(l, "-")
    && !IsNumberedItem(l)
    && !IsStarAction(l)
    && !StartsWith(l, "---")
  }

  /** The `!l.startsWith("---")` test never removes a line the `"-"` test kept. */
  lemma TripleDashRedundant(l: string)
    ensures StartsWith(l, "---") ==> StartsWith(l, "-")
  {
    if StartsWith(l, "---") {
      assert l[..1] == l[..3][..1];
    }
  }

  // `s.replace(/\*[^*]+\*/g, "")`, applied to `s[i..]`: each "*" followed
  // by one or more non-"*" characters and a closing "*" is deleted, left to
  // right.
  function StripActionsFrom(s: string, i: nat): (r: string)
    requires i <= |s|
    ensures |r| <= |s| - i
    decreases |s| - i
  {
    if i >= |s| then []
    else if s[i] == '*' then
      match IndexOfFrom(s, "*", i + 1)
      case Some(j) =>
        if j > i + 1 then StripActionsFrom(s, j + 1) else [s[i]] + StripActionsFrom(s, i + 1)
      // no later "*" at all, so nothing further can match
      case None => s[i..]
    else [s[i]] + StripActionsFrom(s, i + 1)
  }

  function StripActions(s: string): (r: string)
    ensures |r| <= |s|
  {
    StripActionsFrom(s, 0)
  }

  /** A one-character pattern occurs exactly where that character is. */
  lemma StarAt(s: string, i: nat)
    requires i < |s|
    ensures OccursAt(s, "*", i) <==> s[i] == '*'
  {
    assert "*"[0] == '*';
  }

  /** A suffix without "*" passes through unchanged. */
  lemma {:induction false} StripActionsNoStar(s: string, i: nat)
    requires i <= |s|
    requires IndexOfFrom(s, "*", i).None?
    ensures StripActionsFrom(s, i) == s[i..]
    decreases |s| - i
  {
    if i < |s| {
      StarAt(s, i);
      StripActionsNoStar(s, i + 1);
      SliceCons(s, i, |s|);
    }
  }

  /** Everything before the first "*" from `i` on is kept. */
  lemma {:induction false} StripActionsBefore(s: string, i: nat, a: nat)
    requires i <= |s|
    requires IndexOfFrom(s, "*", i) == Some(a)
    ensures a < |s| && s[a] == '*'
    ensures StripActionsFrom(s, i) == s[i..a] + StripActionsFrom(s, a)
    decreases a - i
  {
    StarAt(s, a);
    if i < a {
      var rest := StripActionsFrom(s, a);
      IndexOfFromSkip(s, "*", i, a);
      StarAt(s, i);
      StripActionsBefore(s, i + 1, a);
      assert StripActionsFrom(s, i) == [s[i]] + StripActionsFrom(s, i + 1);
      SlicePrepend(s, i, a, rest);
    } else {
      assert s[i..i] == [];
    }
  }

  lemma SliceAppendOne(s: string, i: nat, a: nat, rest: string)
    requires i <= a < |s|
    ensures s[i..a] + ([s[a]] + rest) == s[i..a + 1] + rest
  {
    assert s[i..a + 1] == s[i..a] + [s[a]];
  }

  /** At a "*" closed at `b` with something in between, removal jumps past `b`. */
  lemma StripActionsAtSpan(s: string, a: nat, b: nat)
    requires a < |s| && s[a] == '*'
    requires IndexOfFrom(s, "*", a + 1) == Some(b) && b > a + 1
    ensures StripActionsFrom(s, a) == StripActionsFrom(s, b + 1)
  {
  }

  /** At a "*" directly followed by "*", the first is kept. */
  lemma StripActionsAtPair(s: string, a: nat)
    requires a < |s| && s[a] == '*'
    requires IndexOfFrom(s, "*", a + 1) == Some(a + 1)
    ensures StripActionsFrom(s, a) == [s[a]] + StripActionsFrom(s, a + 1)
  {
  }

  /**
    The first "*" from `i` is at `a` and the next one at `b`, with at least
    one character between them: the text before `a` is kept, the span from
    `a` to `b` is deleted, and removal goes on after it.
  */
  lemma StripActionsSpan(s: string, i: nat, a: nat, b: nat)
    requires i <= |s|
    requires IndexOfFrom(s, "*", i) == Some(a)
    requires IndexOfFrom(s, "*", a + 1) == Some(b) && b > a + 1
    ensures b < |s|
    ensures StripActionsFrom(s, i) == s[i..a] + StripActionsFrom(s, b + 1)
  {
    StripActionsBefore(s, i, a);
    StripActionsAtSpan(s, a, b);
  }

  /**
    Two adjacent "*" do not enclose an action: the first is kept and
    removal goes on from the second.
  */
  lemma StripActionsPair(s: string, i: nat, a: nat)
    requires i <= |s|
    requires IndexOfFrom(s, "*", i) == Some(a)
    requires IndexOfFrom(s, "*", a + 1) == Some(a + 1)
    ensures a + 1 < |s|
    ensures StripActionsFrom(s, i) == s[i..a + 1] + StripActionsFrom(s, a + 1)
  {
    StripActionsBefore(s, i, a);
    StripActionsAtPair(s, a);
    SliceAppendOne(s, i, a, StripActionsFrom(s, a + 1));
  }

  /** A "*" with no later "*" is kept, with everything after it. */
  lemma StripActionsLoneStar(s: string, i: nat, a: nat)
    requires i <= |s|
    requires IndexOfFrom(s, "*", i) == Some(a)
    requires IndexOfFrom(s, "*", a + 1).None?
    ensures StripActionsFrom(s, i) == s[i..]
  {
    StripActionsBefore(s, i, a);
    assert s[i..a] + s[a..] == s[i..];
  }

  /** Where the stars of "a *b* c" are. */
  lemma StarsOfExample(s: string)
    requires s == "a *b* c"
    ensures IndexOfFrom(s, "*", 0) == Some(2)
    ensures IndexOfFrom(s, "*", 3) == Some(4)
    ensures IndexOfFrom(s, "*", 5).None?
  {
    StarAt(s, 0);
    StarAt(s, 1);
    StarAt(s, 2);
    StarAt(s, 3);
    StarAt(s, 4);
    StarAt(s, 5);
    StarAt(s, 6);
  }

  /** In "a *b* c" the action "*b*" is deleted and the text around it kept. */
  lemma StripActionsDeletes()
    ensures StripActions("a *b* c") == "a  c"
  {
    var s := "a *b* c";
    StarsOfExample(s);
    StripActionsSpan(s, 0, 2, 4);
    StripActionsNoStar(s, 5);
    assert s[0..2] + s[5..] == "a  c";
  }

  /** "**" encloses no action and is kept. */
  lemma StripActionsExamples()
    ensures StripActions("**") == "**"
  {
    var d := "**";
    StarAt(d, 0);
    StarAt(d, 1);
    assert IndexOfFrom(d, "*", 1) == Some(1);
    StripActionsPair(d, 0, 0);
    StripActionsLoneStar(d, 1, 1);
  }

  predicate IsSentenceEnd(c: char) {
    c == '!' || c == '?' || c == '.'
  }

  /** Length of the whitespace run `\s*` at the start of `s`. */
  function SpaceRun(s: string): (n: nat)
    ensures n <= |s|
    ensures forall i :: 0 <= i < n ==> IsSpace(s[i])
  {
    if s != [] && IsSpace(s[0]) then 1 + SpaceRun(s[1..]) else 0
  }

  /**
    Length of the match of `(?<=[!?.])(?:\s{2,}|\n+)` at position `q`, 0 for
    none: after a sentence end, a run of two or more whitespace characters
    (taken whole), or else a single "\n" standing alone.
  */
  function SeparatorAt(s: string, q: nat): (n: nat)
    requires q <= |s|
    ensures q + n <= |s|
    ensures n > 0 ==> q > 0 && IsSentenceEnd(s[q - 1])
    ensures forall i :: q <= i < q + n ==> IsSpace(s[i])
  {
    if q == 0 || !IsSentenceEnd(s[q - 1]) then 0
    else
      var w := SpaceRun(s[q..]);
      if w >= 2 then w
      else if w == 1 && s[q] == '\n' then 1
      else 0
  }

  /**
    The split loop of `String.prototype.split` with a regular expression:
    `p` is where the current piece starts, `q` where a separator is tried.
  */
  function SplitSentencesFrom(s: string, p: nat, q: nat): (pieces: seq<string>)
    requires p <= q <= |s|
    ensures |pieces| >= 1
    decreases |s| - q
  {
    if q >= |s| then [s[p..]]
    else
      var n := SeparatorAt(s, q);
      if n > 0 then [s[p..q]] + SplitSentencesFrom(s, q + n, q + n)
      else SplitSentencesFrom(s, p, q + 1)
  }

  /** `s.split(/(?<=[!?.])(?:\s{2,}|\n+)/)`. */
  function SplitSentences(s: string): (pieces: seq<string>)
    ensures |pieces| >= 1
  {
    SplitSentencesFrom(s, 0, 0)
  }

  lemma SentenceEndNotSpace(c: char)
    ensures IsSentenceEnd(c) ==> !IsSpace(c)
  {
  }

  /** Every piece but the last is non-empty and ends with "!", "?" or ".". */
  predicate PiecesEndSentences(pieces: seq<string>) {
    forall i :: 0 <= i < |pieces| - 1 ==> pieces[i] != [] && IsSentenceEnd(pieces[i][|pieces[i]| - 1])
  }

  lemma PiecesEndSentencesCons(x: string, rest: seq<string>)
    requires x != [] && IsSentenceEnd(x[|x| - 1])
    requires PiecesEndSentences(rest)
    ensures PiecesEndSentences([x] + rest)
  {
    forall i | 1 <= i < |rest| ensures ([x] + rest)[i] == rest[i - 1] { }
  }

  lemma {:induction false} SplitSentencesFromEnds(s: string, p: nat, q: nat)
    requires p <= q <= |s|
    requires p == 0 || IsSpace(s[p - 1])
    ensures PiecesEndSentences(SplitSentencesFrom(s, p, q))
    decreases |s| - q
  {
    if q < |s| {
      var n := SeparatorAt(s, q);
      if n > 0 {
        // a separator follows a sentence end, and the previous separator ends in whitespace
        SentenceEndNotSpace(s[q - 1]);
        assert q != p;
        assert IsSpace(s[q + n - 1]);
        SplitSentencesFromEnds(s, q + n, q + n);
        assert s[p..q][q - p - 1] == s[q - 1];
        PiecesEndSentencesCons(s[p..q], SplitSentencesFrom(s, q + n, q + n));
      } else {
        SplitSentencesFromEnds(s, p, q + 1);
      }
    }
  }

  /**
    The sentence split cuts only right after "!", "?" or ".": every piece
    but the last is non-empty and ends with one of them.
  */
  lemma SplitSentencesEnds(s: string)
    ensures PiecesEndSentences(SplitSentences(s))
  {
    SplitSentencesFromEnds(s, 0, 0);
  }

  predicate KeepSecondary(l: string) {
    Utf16Length(l) > 20
  }

  function Clean(content: string): (cleaned: string)
    ensures IsTrimmed(cleaned)
  {
    Trim(StripThink(content))
  }

  /**
    The first segmentation keeps exactly the trimmed newline-separated pieces
    that pass KeepPrimary: every kept line passes, and every passing piece is
    kept. PrimaryLinesCut and PrimaryLinesOne give the order.
  */
  function PrimaryLines(cleaned: string): (lines: seq<string>)
    ensures forall i :: 0 <= i < |lines| ==>
      KeepPrimary(lines[i]) && IsTrimmed(lines[i]) && '\n' !in lines[i]
    ensures forall i :: 0 <= i < |SplitNewlines(cleaned)| && KeepPrimary(Trim(SplitNewlines(cleaned)[i])) ==>
      Trim(SplitNewlines(cleaned)[i]) in lines
  {
    var pieces := SplitNewlines(cleaned);
    var trimmed := TrimAll(pieces);
    assert forall i :: 0 <= i < |trimmed| ==> '\n' !in trimmed[i] by {
      forall i | 0 <= i < |trimmed| ensures '\n' !in trimmed[i] {
        TrimChars(pieces[i]);
      }
    }
    Filter(trimmed, KeepPrimary)
  }

  /**
    Every line the first split keeps is trimmed and longer than 15 code
    units; it does not start with "-", does not start with digits followed by
    ".", and is not a whole "*...*" stage direction.
  */
  lemma PrimaryLineShape(cleaned: string, i: int)
    requires 0 <= i < |PrimaryLines(cleaned)|
    ensures var l := PrimaryLines(cleaned)[i];
      && Utf16Length(l) > 15 && IsTrimmed(l) && '\n' !in l
      && l[0] != '-'
      && !(exists k :: 1 <= k < |l| && (forall j :: 0 <= j < k ==> IsDigit(l[j])) && l[k] == '.')
      && !(l[0] == '*' && l[|l| - 1] == '*' && forall j :: 0 < j < |l| - 1 ==> l[j] != '*')
  {
    var l := PrimaryLines(cleaned)[i];
    NumberedItemIff(l);
    assert l[..1] == [l[0]];
  }

  /** The second segmentation keeps exactly the trimmed sentence pieces longer than 20. */
  function SecondaryLines(cleaned: string): (lines: seq<string>)
    ensures forall i :: 0 <= i < |lines| ==> Utf16Length(lines[i]) > 20 && IsTrimmed(lines[i])
    ensures forall i :: 0 <= i < |SplitSentences(StripActions(cleaned))|
                        && KeepSecondary(Trim(SplitSentences(StripActions(cleaned))[i])) ==>
      Trim(SplitSentences(StripActions(cleaned))[i]) in lines
  {
    var trimmed := TrimAll(SplitSentences(StripActions(cleaned)));
    Filter(trimmed, KeepSecondary)
  }

  /** A text without a newline gives at most one line: its trim, when that passes. */
  lemma PrimaryLinesOne(a: string)
    requires '\n' !in a
    ensures PrimaryLines(a) == if KeepPrimary(Trim(a)) then [Trim(a)] else []
  {
    SplitNewlinesNone(a);
    assert TrimAll([a]) == [Trim(a)];
    FilterSingle(Trim(a), KeepPrimary);
  }

  /**
    At a newline run, the first segmentation gives the line before it (when
    that passes) followed by the lines of the rest, in order.
  */
  lemma PrimaryLinesCut(a: string, r: string, b: string)
    requires '\n' !in a
    requires |r| > 0 && forall k :: 0 <= k < |r| ==> r[k] == '\n'
    requires b == [] || b[0] != '\n'
    ensures PrimaryLines(a + r + b) == (if KeepPrimary(Trim(a)) then [Trim(a)] else []) + PrimaryLines(b)
  {
    var rest := SplitNewlines(b);
    SplitNewlinesCut(a, r, b);
    assert TrimAll([a] + rest) == [Trim(a)] + TrimAll(rest);
    FilterAppend([Trim(a)], TrimAll(rest), KeepPrimary);
    FilterSingle(Trim(a), KeepPrimary);
  }

  /** The second segmentation runs only when the first kept fewer than 3 lines of a long text. */
  predicate UsesSecondary(cleaned: string) {
    |PrimaryLines(cleaned)| < 3 && Utf16Length(cleaned) > 80
  }

  /** `lines` after the possible reassignment at the fallback split. */
  function UsableLines(cleaned: string): (lines: seq<string>)
    ensures lines == if UsesSecondary(cleaned) then SecondaryLines(cleaned) else PrimaryLines(cleaned)
    ensures forall i :: 0 <= i < |lines| ==> Utf16Length(lines[i]) > 15 && IsTrimmed(lines[i])
  {
    if UsesSecondary(cleaned) then SecondaryLines(cleaned) else PrimaryLines(cleaned)
  }

  /**
    Everything after the completion call: `reply` is the message content,
    None when the call failed, timed out, answered with a non-2xx status or
    had no content. Returns None for `null`.
  */
  function Sanitise(reply: Option<string>): (r: Option<seq<string>>)
    ensures r.Some? ==> reply.Some? && reply.value != ""
    ensures r.Some? ==> 3 <= |r.value| <= 4
    ensures r.Some? ==> forall i :: 0 <= i < |r.value| ==>
      Utf16Length(r.value[i]) > 15 && IsTrimmed(r.value[i])
  {
    match reply
    case None => None
    case Some(content) =>
      if content == "" then None
      else
        var lines := UsableLines(Clean(content));
        if |lines| >= 3 then Some(Take(lines, 4)) else None
  }

  /**
    The acceptance gate: a non-empty answer is accepted exactly when at least
    3 usable lines remain, and then the result is their first min(4, n).
  */
  lemma AcceptanceGate(content: string)
    requires content != ""
    ensures var lines := UsableLines(Clean(content));
      && (Sanitise(Some(content)).Some? <==> |lines| >= 3)
      && (|lines| >= 3 ==> Sanitise(Some(content)) == Some(Take(lines, 4)))
  {
  }

  /** Exactly 3 usable lines come back as they are; 5 are cut to the first 4. */
  lemma ThreeAndFiveLines(content: string)
    requires content != ""
    ensures var lines := UsableLines(Clean(content));
      && (|lines| == 3 ==> Sanitise(Some(content)) == Some(lines))
      && (|lines| == 5 ==> Sanitise(Some(content)) == Some(lines[..4]))
      && (|lines| < 3 ==> Sanitise(Some(content)).None?)
  {
    var lines := UsableLines(Clean(content));
    if |lines| == 5 { assert Take(lines, 4) == lines[..4]; }
  }

  /** No occurrence of `w` can span a newline run when `w` has no newline. */
  lemma NoOccurrenceAcross(x: string, y: string, w: string)
    requires |w| > 0 && '\n' !in w
    requires forall k :: 0 <= k <= |x| - |w| ==> !OccursAt(x, w, k)
    requires forall k :: 0 <= k <= |y| - |w| ==> !OccursAt(y, w, k)
    ensures forall k :: 0 <= k <= |x + "\n\n" + y| - |w| ==> !OccursAt(x + "\n\n" + y, w, k)
  {
    var s := x + "\n\n" + y;
    forall k | 0 <= k <= |s| - |w| ensures !OccursAt(s, w, k) {
      if k + |w| <= |x| {
        assert !OccursAt(x, w, k);
        var j :| 0 <= j < |w| && x[k + j] != w[j];
        assert s[k + j] == x[k + j];
      } else if k >= |x| + 2 {
        assert !OccursAt(y, w, k - |x| - 2);
        var j :| 0 <= j < |w| && y[k - |x| - 2 + j] != w[j];
        assert s[k + j] == y[k - |x| - 2 + j];
      } else {
        var m := if k < |x| then |x| else k;
        assert s[m] == '\n';
        assert w[m - k] in w;
      }
    }
  }

  /** Text with no "<think>" and no whitespace at its ends is not changed by cleaning. */
  lemma CleanUntouched(content: string)
    requires forall k :: 0 <= k <= |content| - |ThinkOpen| ==> !OccursAt(content, ThinkOpen, k)
    requires IsTrimmed(content)
    ensures Clean(content) == content
  {
    assert IndexOfFrom(content, ThinkOpen, 0).None?;
    StripThinkNoTag(content, 0);
    assert content[0..] == content;
  }

  /** A cleaned text whose first segmentation keeps 3 or 4 lines is accepted as those lines. */
  lemma AcceptedWhenPrimaryFits(content: string)
    requires content != "" && Clean(content) == content
    requires 3 <= |PrimaryLines(content)| <= 4
    ensures Sanitise(Some(content)) == Some(PrimaryLines(content))
  {
    assert Take(PrimaryLines(content), 4) == PrimaryLines(content);
  }

  /** The cleaning step of ThreeGoodLinesAccepted. */
  lemma ThreeLinesClean(l1: string, l2: string, l3: string)
    requires |l1| > 0 && |l3| > 0
    requires IsTrimmed(l1) && IsTrimmed(l3)
    requires !Contains(l1, ThinkOpen) && !Contains(l2, ThinkOpen) && !Contains(l3, ThinkOpen)
    ensures Clean(l1 + "\n\n" + (l2 + "\n\n" + l3)) == l1 + "\n\n" + (l2 + "\n\n" + l3)
  {
    var tail := l2 + "\n\n" + l3;
    var content := l1 + "\n\n" + tail;
    assert '\n' !in ThinkOpen;
    NoOccurrenceAcross(l2, l3, ThinkOpen);
    NoOccurrenceAcross(l1, tail, ThinkOpen);
    assert content[0] == l1[0] && content[|content| - 1] == l3[|l3| - 1];
    CleanUntouched(content);
  }

  /** A good line on its own is kept as it is. */
  lemma PrimaryLinesGood(l: string)
    requires KeepPrimary(l) && IsTrimmed(l) && '\n' !in l
    ensures PrimaryLines(l) == [l]
  {
    PrimaryLinesOne(l);
  }

  /** A good line before a blank line comes first, as it is. */
  lemma PrimaryLinesGoodCut(l: string, b: string)
    requires KeepPrimary(l) && IsTrimmed(l) && '\n' !in l
    requires b == [] || b[0] != '\n'
    ensures PrimaryLines(l + "\n\n" + b) == [l] + PrimaryLines(b)
  {
    PrimaryLinesCut(l, "\n\n", b);
  }

  /** The segmentation step of ThreeGoodLinesAccepted. */
  lemma ThreeLinesPrimary(l1: string, l2: string, l3: string)
    requires KeepPrimary(l1) && KeepPrimary(l2) && KeepPrimary(l3)
    requires IsTrimmed(l1) && IsTrimmed(l2) && IsTrimmed(l3)
    requires '\n' !in l1 && '\n' !in l2 && '\n' !in l3
    requires |l2| > 0 && |l3| > 0
    ensures PrimaryLines(l1 + "\n\n" + (l2 + "\n\n" + l3)) == [l1, l2, l3]
  {
    var tail := l2 + "\n\n" + l3;
    var p3, p2, p1 := PrimaryLines(l3), PrimaryLines(tail), PrimaryLines(l1 + "\n\n" + tail);
    assert p3 == [l3] by {
      PrimaryLinesGood(l3);
    }
    assert p2 == [l2] + p3 by {
      assert l3[0] in l3;
      PrimaryLinesGoodCut(l2, l3);
    }
    assert p1 == [l1] + p2 by {
      assert tail[0] == l2[0] && l2[0] in l2;
      PrimaryLinesGoodCut(l1, tail);
    }
    ConsThree(p1, p2, p3, l1, l2, l3);
  }

  lemma ConsThree<T>(a: seq<T>, b: seq<T>, c: seq<T>, x: T, y: T, z: T)
    requires a == [x] + b && b == [y] + c && c == [z]
    ensures a == [x, y, z]
  {
  }

  /**
    An answer of three good lines separated by blank lines is accepted as
    exactly those three lines.
  */
  lemma ThreeGoodLinesAccepted(l1: string, l2: string, l3: string)
    requires KeepPrimary(l1) && KeepPrimary(l2) && KeepPrimary(l3)
    requires IsTrimmed(l1) && IsTrimmed(l2) && IsTrimmed(l3)
    requires '\n' !in l1 && '\n' !in l2 && '\n' !in l3
    requires !Contains(l1, ThinkOpen) && !Contains(l2, ThinkOpen) && !Contains(l3, ThinkOpen)
    ensures Sanitise(Some(l1 + "\n\n" + l2 + "\n\n" + l3)) == Some([l1, l2, l3])
  {
    var content := l1 + "\n\n" + (l2 + "\n\n" + l3);
    assert l1 + "\n\n" + l2 + "\n\n" + l3 == content;
    assert |l1| > 0 && |l2| > 0 && |l3| > 0;
    ThreeLinesClean(l1, l2, l3);
    ThreeLinesPrimary(l1, l2, l3);
    AcceptedWhenPrimaryFits(content);
  }
}
