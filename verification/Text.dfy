/** The string searches the scanners are written with, over sequences of characters. */
module Text {
  import opened Wrappers

  /** The first place at or after from that holds c. */
  function FindChar(s: string, c: char, from: nat): (r: Option<nat>)
    requires from <= |s|
    ensures r.Some? ==> from <= r.value < |s| && s[r.value] == c && forall j :: from <= j < r.value ==> s[j] != c
    ensures r.None? ==> forall j :: from <= j < |s| ==> s[j] != c
    decreases |s| - from
  {
    if from == |s| then None
    else if s[from] == c then Some(from)
    else FindChar(s, c, from + 1)
  }

  predicate PairAt(s: string, c: char, d: char, i: int) {
    0 <= i && i + 1 < |s| && s[i] == c && s[i + 1] == d
  }

  /** The first place at or after from where the two characters c and d start. */
  function FindPair(s: string, c: char, d: char, from: nat): (r: Option<nat>)
    requires from <= |s|
    ensures r.Some? ==> from <= r.value && PairAt(s, c, d, r.value) && forall j :: from <= j < r.value ==> !PairAt(s, c, d, j)
    ensures r.None? ==> forall j :: from <= j ==> !PairAt(s, c, d, j)
    decreases |s| - from
  {
    if from == |s| then None
    else if PairAt(s, c, d, from) then Some(from)
    else FindPair(s, c, d, from + 1)
  }

  predicate HasPrefix(s: string, pat: string) {
    |pat| <= |s| && s[..|pat|] == pat
  }

  /** Unicode's white space, as Go's strings package trims and splits on it. */
  predicate IsSpace(c: char) {
    || '\t' <= c <= '\r' || c == ' ' || c == '\U{85}' || c == '\U{A0}' || c == '\U{1680}'
    || '\U{2000}' <= c <= '\U{200A}' || c == '\U{2028}' || c == '\U{2029}' || c == '\U{202F}'
    || c == '\U{205F}' || c == '\U{3000}'
  }

  predicate Digit(c: char) { '0' <= c <= '9' }

  predicate AsciiLetter(c: char) { 'a' <= c <= 'z' || 'A' <= c <= 'Z' }

  /** The last place that holds c. */
  function FindLast(s: string, c: char): (r: Option<nat>)
    ensures r.Some? ==> r.value < |s| && s[r.value] == c && forall j :: r.value < j < |s| ==> s[j] != c
    ensures r.None? ==> c !in s
  {
    if s == "" then None
    else if s[|s| - 1] == c then Some(|s| - 1)
    else FindLast(s[..|s| - 1], c)
  }

  lemma FindLastKnown(s: string, c: char, i: nat)
    requires i < |s| && s[i] == c && forall j :: i < j < |s| ==> s[j] != c
    ensures FindLast(s, c) == Some(i)
  {
  }

  /** A string cut at the first c, and whether there was one. */
  function Cut(s: string, c: char): (r: (string, string, bool))
    ensures c !in r.0
    ensures if r.2 then s == r.0 + [c] + r.1 else s == r.0 && r.1 == ""
  {
    var at := FindChar(s, c, 0);
    if at.None? then (s, "", false) else (s[..at.value], s[at.value + 1..], true)
  }

  lemma CutOf(before: string, after: string, c: char)
    requires c !in before
    ensures Cut(before + [c] + after, c) == (before, after, true)
  {
    var s := before + [c] + after;
    assert s[|before|] == c && forall j :: 0 <= j < |before| ==> s[j] == before[j];
    assert FindChar(s, c, 0) == Some(|before|);
    assert s[..|before|] == before && s[|before| + 1..] == after;
  }

  lemma CutOfNone(s: string, c: char)
    requires c !in s
    ensures Cut(s, c) == (s, "", false)
  {
  }

  /** The parts between the separators, of which there is always at least one. */
  function Split(s: string, c: char): (parts: seq<string>)
    ensures parts != [] && forall i :: 0 <= i < |parts| ==> c !in parts[i]
    decreases |s|
  {
    var at := FindChar(s, c, 0);
    if at.None? then [s] else [s[..at.value]] + Split(s[at.value + 1..], c)
  }

  function Join(parts: seq<string>, c: char): string
    requires parts != []
  {
    if |parts| == 1 then parts[0] else parts[0] + [c] + Join(parts[1..], c)
  }

  lemma {:induction false} JoinOfSplit(s: string, c: char)
    ensures Join(Split(s, c), c) == s
    decreases |s|
  {
    var at := FindChar(s, c, 0);
    if at.Some? {
      JoinOfSplit(s[at.value + 1..], c);
      assert Split(s, c)[1..] == Split(s[at.value + 1..], c);
      assert s == s[..at.value] + [c] + s[at.value + 1..];
    }
  }

  lemma {:induction false} SplitOfJoin(parts: seq<string>, c: char)
    requires parts != [] && forall i :: 0 <= i < |parts| ==> c !in parts[i]
    ensures Split(Join(parts, c), c) == parts
    decreases |parts|
  {
    var s := Join(parts, c);
    if |parts| == 1 {
      assert FindChar(s, c, 0) == None;
    } else {
      var rest := Join(parts[1..], c);
      SplitOfJoin(parts[1..], c);
      assert s[|parts[0]|] == c && forall j :: 0 <= j < |parts[0]| ==> s[j] == parts[0][j];
      assert FindChar(s, c, 0) == Some(|parts[0]|);
      assert s[..|parts[0]|] == parts[0] && s[|parts[0]| + 1..] == rest;
    }
  }

  /** A character no part holds, other than the separator, is in no join of them. */
  lemma {:induction false} JoinHolds(parts: seq<string>, c: char, d: char)
    requires parts != [] && d != c
    ensures d in Join(parts, c) <==> exists i :: 0 <= i < |parts| && d in parts[i]
    decreases |parts|
  {
    if |parts| > 1 {
      JoinHolds(parts[1..], c, d);
      assert forall i :: 0 < i < |parts| ==> parts[i] == parts[1..][i - 1];
    }
  }
}
