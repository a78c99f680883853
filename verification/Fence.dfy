/**
  The Markdown form of a block of session text: a fenced code block whose fence no line of
  the text can close. Reading follows section 4.5 of the CommonMark Spec 0.31, fenced code
  blocks, with the line endings of its section 2.1.
 */
module Fence {
  import opened Wrappers

  const TICK := '`'

  function Ticks(n: nat): (s: string)
    ensures |s| == n && forall i :: 0 <= i < n ==> s[i] == TICK
  {
    seq(n, i => TICK)
  }

  /** The run of backticks a text ends with. */
  function TrailingRun(t: string): nat {
    if t == "" || t[|t| - 1] != TICK then 0 else 1 + TrailingRun(t[..|t| - 1])
  }

  function LongestRun(t: string): nat {
    if t == "" then 0
    else Max(LongestRun(t[..|t| - 1]), TrailingRun(t))
  }

  function Max(a: nat, b: nat): nat {
    if a > b then a else b
  }

  function FenceLength(t: string): nat {
    Max(3, LongestRun(t) + 1)
  }

  function Fenced(t: string, n: nat): string {
    Ticks(n) + "\n" + t + "\n" + Ticks(n) + "\n"
  }

  method Markdown(t: string) returns (r: string)
    ensures r == Fenced(t, FenceLength(t))
  {
    var longest, run := 0, 0;
    for i := 0 to |t|
      invariant run == TrailingRun(t[..i]) && longest == LongestRun(t[..i])
    {
      assert t[..i + 1][..i] == t[..i];
      if t[i] != TICK {
        run := 0;
        continue;
      }
      run := run + 1;
      longest := Max(longest, run);
    }
    assert t[..|t|] == t;
    var fence := Ticks(Max(3, longest + 1));
    return fence + "\n" + t + "\n" + fence + "\n";
  }

  // ----- reading a fenced block

  /** Where a line starts: the beginning, or after a line feed, a return, or both together. */
  predicate LineStart(d: string, p: nat) {
    && p <= |d|
    && (p == 0 || d[p - 1] == '\n' || (d[p - 1] == '\r' && !(p < |d| && d[p] == '\n')))
  }

  /** Past the characters equal to c from p on, at most limit of them. */
  function Skip(d: string, p: nat, c: char, limit: nat): (q: nat)
    requires p <= |d|
    ensures p <= q <= |d| && q <= p + limit
    ensures forall i :: p <= i < q ==> d[i] == c
    ensures q < |d| && q < p + limit ==> d[q] != c
    decreases limit
  {
    if limit > 0 && p < |d| && d[p] == c then Skip(d, p + 1, c, limit - 1) else p
  }

  /** Whether only spaces and tabs stand between p and the end of its line. */
  predicate BlankToEnd(d: string, p: nat)
    requires p <= |d|
    decreases |d| - p
  {
    p == |d| || d[p] == '\n' || d[p] == '\r' || ((d[p] == ' ' || d[p] == '\t') && BlankToEnd(d, p + 1))
  }

  /** A closing fence: up to three spaces, at least n backticks, then nothing but blanks. */
  predicate Closes(d: string, p: nat, n: nat)
    requires p <= |d|
  {
    var ticks := Skip(d, p, ' ', 3);
    var after := Skip(d, ticks, TICK, |d|);
    after - ticks >= n && BlankToEnd(d, after)
  }

  predicate ClosingAt(d: string, p: nat, n: nat) {
    LineStart(d, p) && Closes(d, p, n)
  }

  /** The first line from p on that closes a fence of n, or the end of the document. */
  function ClosingLine(d: string, p: nat, n: nat): (q: nat)
    requires p <= |d|
    ensures p <= q <= |d|
    ensures forall i :: p <= i < q ==> !ClosingAt(d, i, n)
    decreases |d| - p
  {
    if p == |d| || ClosingAt(d, p, n) then p else ClosingLine(d, p + 1, n)
  }

  /** The end of the line that p is on, its ending included. */
  function NextLine(d: string, p: nat): (q: nat)
    requires p <= |d|
    ensures p <= q <= |d|
    decreases |d| - p
  {
    if p == |d| then p
    else if LineStart(d, p + 1) then p + 1
    else NextLine(d, p + 1)
  }

  /** The lines of the block a document opens with, or None when it opens with no fence. */
  function Content(d: string): Option<string> {
    var n := Skip(d, 0, TICK, |d|);
    var body := NextLine(d, n);
    if n < 3 || TICK in d[n..body] then None else Some(d[body..ClosingLine(d, body, n)])
  }

  // ----- the text comes back

  lemma {:induction false} TrailingRunMeasures(t: string, a: nat)
    requires a <= |t| && forall i :: a <= i < |t| ==> t[i] == TICK
    ensures |t| - a <= TrailingRun(t)
    decreases |t|
  {
    if a < |t| {
      TrailingRunMeasures(t[..|t| - 1], a);
    }
  }

  /** No run of backticks anywhere in a text is longer than the longest that was measured. */
  lemma {:induction false} LongestRunMeasures(t: string, a: nat, b: nat)
    requires a <= b <= |t| && forall i :: a <= i < b ==> t[i] == TICK
    ensures b - a <= LongestRun(t)
    decreases |t|
  {
    if t != "" {
      if b == |t| {
        TrailingRunMeasures(t, a);
      } else {
        LongestRunMeasures(t[..|t| - 1], a, b);
      }
    }
  }

  lemma {:induction false} TrailingRunIsThere(t: string)
    ensures TrailingRun(t) <= |t| && forall i :: |t| - TrailingRun(t) <= i < |t| ==> t[i] == TICK
  {
    if t != "" && t[|t| - 1] == TICK {
      TrailingRunIsThere(t[..|t| - 1]);
    }
  }

  /** The longest run measured is one that is there, so the fence is no longer than it has to be. */
  lemma {:induction false} LongestRunIsThere(t: string) returns (a: nat, b: nat)
    ensures a <= b <= |t| && b - a == LongestRun(t) && forall i :: a <= i < b ==> t[i] == TICK
    ensures FenceLength(t) == if b - a < 3 then 3 else b - a + 1
  {
    if t == "" {
      a, b := 0, 0;
    } else {
      TrailingRunIsThere(t);
      a, b := LongestRunIsThere(t[..|t| - 1]);
      if TrailingRun(t) >= b - a {
        a, b := |t| - TrailingRun(t), |t|;
      }
    }
  }

  /** A fenced text, position by position. */
  predicate Laid(d: string, t: string, n: nat) {
    && |d| == n + 1 + |t| + 1 + n + 1
    && (forall i :: 0 <= i < n ==> d[i] == TICK)
    && d[n] == '\n'
    && (forall i :: n + 1 <= i < n + 1 + |t| ==> d[i] == t[i - n - 1])
    && d[n + 1 + |t|] == '\n'
    && (forall i :: n + 2 + |t| <= i < n + 2 + |t| + n ==> d[i] == TICK)
    && d[|d| - 1] == '\n'
  }

  lemma FencedIsLaid(t: string, n: nat)
    ensures Laid(Fenced(t, n), t, n)
  {
  }

  lemma NoLineOfTextCloses(d: string, t: string, n: nat, p: nat)
    requires Laid(d, t, n) && n > LongestRun(t) && n + 1 <= p <= n + 1 + |t|
    ensures !Closes(d, p, n)
  {
    var end := n + 1 + |t|;
    var ticks := Skip(d, p, ' ', 3);
    var after := Skip(d, ticks, TICK, |d|);
    assert ticks <= end;
    assert after <= end;
    if after - ticks >= n {
      var a, b := ticks - (n + 1), after - (n + 1);
      forall i | a <= i < b ensures t[i] == TICK {
        assert d[n + 1 + i] == TICK;
      }
      LongestRunMeasures(t, a, b);
    }
  }

  lemma SkipIs(d: string, p: nat, c: char, limit: nat, q: nat)
    requires p <= q <= |d| && q <= p + limit && (forall i :: p <= i < q ==> d[i] == c)
    requires q < |d| && q < p + limit ==> d[q] != c
    ensures Skip(d, p, c, limit) == q
  {
  }

  lemma {:induction false} ClosingLineIs(d: string, p: nat, n: nat, q: nat)
    requires p <= q <= |d| && ClosingAt(d, q, n)
    requires forall i :: p <= i < q ==> !ClosingAt(d, i, n)
    ensures ClosingLine(d, p, n) == q
    decreases q - p
  {
    hide ClosingAt;
    if p < q {
      ClosingLineIs(d, p + 1, n, q);
    }
  }

  /** A fence line of the document's own length closes it. */
  lemma FenceCloses(d: string, p: nat, n: nat)
    requires p + n < |d| && n > 0 && (forall i :: p <= i < p + n ==> d[i] == TICK) && d[p + n] == '\n'
    ensures Closes(d, p, n)
  {
    SkipIs(d, p, ' ', 3, p);
    SkipIs(d, p, TICK, |d|, p + n);
  }

  lemma TextRunsToFence(d: string, t: string, n: nat)
    requires Laid(d, t, n) && n > LongestRun(t)
    ensures ClosingLine(d, n + 1, n) == n + 2 + |t|
  {
    hide Closes;
    var close := n + 2 + |t|;
    FenceCloses(d, close, n);
    forall p | n + 1 <= p < close ensures !Closes(d, p, n) {
      NoLineOfTextCloses(d, t, n, p);
    }
    ClosingLineIs(d, n + 1, n, close);
  }

  lemma OpeningLine(d: string, t: string, n: nat)
    requires Laid(d, t, n)
    ensures Skip(d, 0, TICK, |d|) == n && NextLine(d, n) == n + 1 && d[n..n + 1] == "\n"
  {
    SkipIs(d, 0, TICK, |d|, n);
    assert LineStart(d, n + 1);
  }

  /**
    Whatever the text, what is read back from its Markdown form is the text, character for
    character, and the line ending that was put after it.
   */
  lemma FencedTextComesBack(t: string)
    ensures Content(Fenced(t, FenceLength(t))) == Some(t + "\n")
  {
    hide Fenced, ClosingLine, NextLine, Skip;
    var n := FenceLength(t);
    var d := Fenced(t, n);
    FencedIsLaid(t, n);
    OpeningLine(d, t, n);
    TextRunsToFence(d, t, n);
    assert d[n + 1..n + 2 + |t|] == t + "\n";
  }

  /** A fence only as long as a run of the text's own is not enough. */
  lemma LongestRunAloneIsNotEnough(n: nat)
    requires n >= 3
    ensures LongestRun(Ticks(n)) == n
    ensures Content(Fenced(Ticks(n), n)) == Some("")
  {
    hide Fenced, Skip, NextLine, ClosingLine, Closes;
    var t := Ticks(n);
    TrailingRunIs(n);
    var d := Fenced(t, n);
    FencedIsLaid(t, n);
    OpeningLine(d, t, n);
    FenceCloses(d, n + 1, n);
    ClosingLineIs(d, n + 1, n, n + 1);
    assert d[n + 1..n + 1] == "";
  }

  lemma {:induction false} TrailingRunIs(n: nat)
    ensures TrailingRun(Ticks(n)) == n && LongestRun(Ticks(n)) == n
  {
    if n > 0 {
      TrailingRunIs(n - 1);
      assert Ticks(n)[..n - 1] == Ticks(n - 1);
    }
  }
}
