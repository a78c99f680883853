/**
  wrapText: breaking the lines of a prompt that are wider than the terminal. The greedy
  break is compared with every other way to break the same words in the same order.
 */
module Wrap {
  import opened Text

  predicate Word(w: string) {
    w != "" && forall i :: 0 <= i < |w| ==> !IsSpace(w[i])
  }

  predicate Words(ws: seq<string>) {
    forall i :: 0 <= i < |ws| ==> Word(ws[i])
  }

  /** The end of the word that runs from a position. */
  function WordEnd(s: string, from: nat): (end: nat)
    requires from <= |s|
    ensures from <= end <= |s| && (end < |s| ==> IsSpace(s[end]))
    ensures forall i :: from <= i < end ==> !IsSpace(s[i])
    decreases |s| - from
  {
    if from < |s| && !IsSpace(s[from]) then WordEnd(s, from + 1) else from
  }

  /** The words of a line: its maximal runs of characters that are not space. */
  function Fields(s: string): (ws: seq<string>)
    ensures Words(ws)
    ensures forall i :: 0 <= i < |ws| ==> forall c :: c in ws[i] ==> c in s
    decreases |s|
  {
    if s == "" then []
    else if IsSpace(s[0]) then Fields(s[1..])
    else
      var end := WordEnd(s, 1);
      assert Word(s[..end]);
      [s[..end]] + Fields(s[end..])
  }

  lemma {:induction false} FieldsOfLine(ws: seq<string>)
    requires Words(ws) && ws != []
    ensures Fields(Join(ws, ' ')) == ws
    decreases |ws|
  {
    hide IsSpace, WordEnd;
    var line, w := Join(ws, ' '), ws[0];
    assert line[..|w|] == w && line[0] == w[0];
    assert |ws| > 1 ==> line[|w|] == ' ';
    WordEndIs(line, 1, |w|);
    if |ws| == 1 {
      assert line[|w|..] == "";
    } else {
      FieldsOfLine(ws[1..]);
      assert line[|w|..] == " " + Join(ws[1..], ' ');
      assert line[|w|..][1..] == Join(ws[1..], ' ');
      assert Fields(line[|w|..]) == ws[1..];
    }
  }

  lemma {:induction false} WordEndIs(s: string, from: nat, end: nat)
    requires from <= end <= |s| && (end < |s| ==> IsSpace(s[end])) && forall i :: from <= i < end ==> !IsSpace(s[i])
    ensures WordEnd(s, from) == end
    decreases end - from
  {
    if from < end {
      WordEndIs(s, from + 1, end);
    }
  }

  // ----- breaking a line's words

  /** The width of words set on one line with a space between them. */
  function Width(ws: seq<string>): nat
    requires ws != []
  {
    if |ws| == 1 then |ws[0]| else Width(ws[..|ws| - 1]) + 1 + |ws[|ws| - 1]|
  }

  lemma {:induction false} JoinAppends(ws: seq<string>, w: string)
    requires ws != []
    ensures Join(ws + [w], ' ') == Join(ws, ' ') + " " + w
    decreases |ws|
  {
    if |ws| == 1 {
      assert (ws + [w])[1..] == [w];
    } else {
      JoinAppends(ws[1..], w);
      assert (ws + [w])[1..] == ws[1..] + [w];
    }
  }

  lemma {:induction false} WidthOfLine(ws: seq<string>)
    requires ws != []
    ensures |Join(ws, ' ')| == Width(ws)
  {
    if |ws| > 1 {
      var front := ws[..|ws| - 1];
      WidthOfLine(front);
      JoinAppends(front, ws[|ws| - 1]);
      assert front + [ws[|ws| - 1]] == ws;
    }
  }

  /** How many words the first line takes, given that it takes k: as many more as fit. */
  function Taken(ws: seq<string>, k: nat, width: nat): (n: nat)
    requires 1 <= k <= |ws|
    ensures k <= n <= |ws|
    ensures n == k || Width(ws[..n]) <= width
    ensures n < |ws| ==> Width(ws[..n + 1]) > width
    decreases |ws| - k
  {
    if k < |ws| && Width(ws[..k + 1]) <= width then Taken(ws, k + 1, width) else k
  }

  /** The greedy break: each line takes the words that fit. */
  function Groups(ws: seq<string>, width: nat): seq<seq<string>>
    decreases |ws|
  {
    if ws == [] then []
    else
      var n := Taken(ws, 1, width);
      [ws[..n]] + Groups(ws[n..], width)
  }

  function Flatten(groups: seq<seq<string>>): seq<string> {
    if groups == [] then [] else groups[0] + Flatten(groups[1..])
  }

  /** A line a break may have: it fits, or it is one word too wide to fit. */
  predicate Allowed(group: seq<string>, width: nat) {
    group != [] && (|group| == 1 || Width(group) <= width)
  }

  /** A way to break words, in order, over allowed lines. */
  predicate Breaks(groups: seq<seq<string>>, ws: seq<string>, width: nat) {
    Flatten(groups) == ws && forall i :: 0 <= i < |groups| ==> Allowed(groups[i], width)
  }

  lemma {:induction false} GroupsBreak(ws: seq<string>, width: nat)
    ensures Breaks(Groups(ws, width), ws, width)
    decreases |ws|
  {
    hide Width, Taken;
    if ws != [] {
      var n := Taken(ws, 1, width);
      GroupsBreak(ws[n..], width);
      assert Groups(ws, width)[1..] == Groups(ws[n..], width);
      assert ws == ws[..n] + ws[n..];
    }
  }

  lemma {:induction false} WidthGrows(ws: seq<string>, m: nat, n: nat)
    requires 1 <= m <= n <= |ws|
    ensures Width(ws[..m]) <= Width(ws[..n])
    ensures m < n ==> Width(ws[..m]) + 1 <= Width(ws[..n])
    decreases n
  {
    if m < n {
      WidthGrows(ws, m, n - 1);
      assert ws[..n][..n - 1] == ws[..n - 1];
    }
  }

  lemma {:induction false} WidthWithoutFirst(ws: seq<string>)
    requires |ws| > 1
    ensures Width(ws[1..]) < Width(ws)
  {
    var front := ws[..|ws| - 1];
    if |ws| == 2 {
      assert ws[1..] == [ws[1]];
    } else {
      WidthWithoutFirst(front);
      assert ws[1..][..|ws| - 2] == front[1..];
    }
  }

  /** The first line takes at least as many words as any allowed line would. */
  lemma TakesTheMost(ws: seq<string>, k: nat, width: nat)
    requires 1 <= k <= |ws| && Allowed(ws[..k], width)
    ensures k <= Taken(ws, 1, width)
  {
    var n := Taken(ws, 1, width);
    if n < k {
      WidthGrows(ws, n + 1, k);
    }
  }

  /** Fewer words never need more lines. */
  lemma {:induction false} DroppingOneWord(ws: seq<string>, width: nat)
    requires ws != []
    ensures |Groups(ws[1..], width)| <= |Groups(ws, width)|
    decreases |ws|, 0
  {
    hide Width, Taken;
    var n := Taken(ws, 1, width);
    if |ws| > 1 && n > 1 {
      var rest := ws[1..];
      WidthWithoutFirst(ws[..n]);
      assert ws[..n][1..] == rest[..n - 1];
      TakesTheMost(rest, n - 1, width);
      var m := Taken(rest, 1, width);
      assert rest[m..] == ws[n..][m + 1 - n..];
      DroppingWords(ws[n..], m + 1 - n, width);
    } else if |ws| > 1 {
      assert Groups(ws, width) == [ws[..1]] + Groups(ws[1..], width);
    }
  }

  lemma {:induction false} DroppingWords(ws: seq<string>, k: nat, width: nat)
    requires k <= |ws|
    ensures |Groups(ws[k..], width)| <= |Groups(ws, width)|
    decreases |ws|, 1
  {
    if k > 0 {
      DroppingOneWord(ws, width);
      DroppingWords(ws[1..], k - 1, width);
      assert ws[1..][k - 1..] == ws[k..];
    } else {
      assert ws[0..] == ws;
    }
  }

  /** No way to break the same words in the same order uses fewer lines than the greedy one. */
  lemma {:induction false} GreedyIsMinimal(ws: seq<string>, groups: seq<seq<string>>, width: nat)
    requires Breaks(groups, ws, width)
    ensures |Groups(ws, width)| <= |groups|
    decreases |groups|
  {
    hide Width, Taken;
    if groups != [] {
      var k := |groups[0]|;
      assert ws[..k] == groups[0] && ws[k..] == Flatten(groups[1..]);
      TakesTheMost(ws, k, width);
      var n := Taken(ws, 1, width);
      GreedyIsMinimal(ws[k..], groups[1..], width);
      DroppingWords(ws[k..], n - k, width);
      assert ws[k..][n - k..] == ws[n..];
    }
  }

  // ----- one line

  function Lines(groups: seq<seq<string>>): (r: seq<string>)
    requires forall i :: 0 <= i < |groups| ==> groups[i] != []
    ensures |r| == |groups| && forall i :: 0 <= i < |groups| ==> r[i] == Join(groups[i], ' ')
  {
    seq(|groups|, i requires 0 <= i < |groups| => Join(groups[i], ' '))
  }

  /** What a line becomes: itself when it fits, its words broken greedily when it does not. */
  function Pieces(line: string, width: nat): (r: seq<string>)
    ensures r != []
  {
    if |line| <= width then [line]
    else
      GroupsBreak(Fields(line), width);
      if Fields(line) == [] then [""] else Lines(Groups(Fields(line), width))
  }

  lemma LinesOfMore(group: seq<string>, groups: seq<seq<string>>)
    requires group != [] && forall i :: 0 <= i < |groups| ==> groups[i] != []
    ensures Lines([group] + groups) == [Join(group, ' ')] + Lines(groups)
  {
  }

  /** The word after a line begun at start makes it this wide. */
  lemma NextWord(ws: seq<string>, start: nat, i: nat)
    requires start < i < |ws|
    ensures Width(ws[start..i + 1]) == |Join(ws[start..i], ' ')| + 1 + |ws[i]|
    ensures Join(ws[start..i + 1], ' ') == Join(ws[start..i], ' ') + " " + ws[i]
  {
    WidthOfLine(ws[start..i]);
    JoinAppends(ws[start..i], ws[i]);
    assert ws[start..i + 1] == ws[start..i] + [ws[i]];
    assert ws[start..i + 1][..i - start] == ws[start..i];
  }

  /** The text of the greedy break of words from a position on. */
  function Broken(ws: seq<string>, start: nat, width: nat): seq<string>
    requires start <= |ws|
  {
    GroupsBreak(ws[start..], width);
    Lines(Groups(ws[start..], width))
  }

  /** The greedy break has a line open at start that has taken the words up to i. */
  predicate LineOpen(ws: seq<string>, start: nat, i: nat, width: nat) {
    start < i <= |ws| && Taken(ws[start..], 1, width) == Taken(ws[start..], i - start, width)
  }

  lemma WordFits(ws: seq<string>, start: nat, i: nat, width: nat)
    requires LineOpen(ws, start, i, width) && i < |ws| && Width(ws[start..i + 1]) <= width
    ensures LineOpen(ws, start, i + 1, width)
  {
    assert ws[start..][..i + 1 - start] == ws[start..i + 1];
  }

  /** A line is full, or the words are out: what is left to break starts at i. */
  lemma LineDone(ws: seq<string>, start: nat, i: nat, width: nat)
    requires LineOpen(ws, start, i, width) && (i < |ws| ==> Width(ws[start..i + 1]) > width)
    ensures Broken(ws, start, width) == [Join(ws[start..i], ' ')] + Broken(ws, i, width)
  {
    var rest := ws[start..];
    assert i < |ws| ==> rest[..i + 1 - start] == ws[start..i + 1];
    assert Taken(rest, 1, width) == i - start;
    assert rest[..i - start] == ws[start..i] && rest[i - start..] == ws[i..];
    GroupsBreak(ws[i..], width);
    LinesOfMore(ws[start..i], Groups(ws[i..], width));
  }

  /** Breaks one line too wide for the terminal, appending what it becomes. */
  method BreakLine(line: string, width: nat) returns (pieces: seq<string>)
    requires |line| > width
    ensures pieces == Pieces(line, width)
  {
    hide Groups, Taken, Lines, Join, Width, Fields, Broken;
    var ws := Fields(line);
    var cur := "";
    pieces := [];
    ghost var start := 0;
    GroupsBreak(ws, width);
    assert ws[0..] == ws;
    ghost var all := Broken(ws, 0, width);
    for i := 0 to |ws|
      invariant 0 <= start <= i
      invariant if i == 0 then cur == "" else cur != "" && LineOpen(ws, start, i, width) && cur == Join(ws[start..i], ' ')
      invariant all == pieces + Broken(ws, start, width)
    {
      var word := ws[i];
      assert Word(word);
      OneWord(ws, i, width);
      if cur == "" {
        cur := word;
      } else {
        NextWord(ws, start, i);
        if |cur| + 1 + |word| <= width {
          WordFits(ws, start, i, width);
          cur := cur + " " + word;
        } else {
          LineDone(ws, start, i, width);
          pieces := pieces + [cur];
          cur := word;
          start := i;
        }
      }
    }
    if ws != [] {
      LineDone(ws, start, |ws|, width);
      NoText(ws, width);
    }
    pieces := pieces + [cur];
    TextIsPieces(line, width);
  }

  lemma OneWord(ws: seq<string>, i: nat, width: nat)
    requires i < |ws|
    ensures LineOpen(ws, i, i + 1, width) && Join(ws[i..i + 1], ' ') == ws[i]
  {
    assert ws[i..i + 1] == [ws[i]];
  }

  lemma NoText(ws: seq<string>, width: nat)
    ensures Broken(ws, |ws|, width) == []
  {
    assert ws[|ws|..] == [];
  }

  lemma TextIsPieces(line: string, width: nat)
    requires |line| > width
    ensures Pieces(line, width) == if Fields(line) == [] then [""] else Broken(Fields(line), 0, width)
  {
    assert Fields(line)[0..] == Fields(line);
  }

  /** A piece that is wider than the terminal is one word. */
  lemma PiecesFit(line: string, width: nat, i: nat)
    requires i < |Pieces(line, width)|
    ensures var p := Pieces(line, width)[i]; |p| <= width || Fields(p) == [p]
    ensures forall c :: c in Pieces(line, width)[i] ==> c in line || c == ' '
  {
    var ws := Fields(line);
    if |line| > width && ws != [] {
      GroupsBreak(ws, width);
      var group := Groups(ws, width)[i];
      assert Allowed(group, width);
      GroupIsSlice(Groups(ws, width), i);
      if |group| > 1 {
        WidthOfLine(group);
      } else {
        assert group == [group[0]] && Join(group, ' ') == group[0];
        FieldsOfLine(group);
      }
      forall c | c in Join(group, ' ') && c != ' ' ensures c in line {
        JoinHolds(group, ' ', c);
        var j :| 0 <= j < |group| && c in group[j];
        assert group[j] in ws;
      }
    }
  }

  lemma {:induction false} GroupIsSlice(groups: seq<seq<string>>, i: nat)
    requires i < |groups|
    ensures forall w :: w in groups[i] ==> w in Flatten(groups)
    ensures Words(Flatten(groups)) ==> Words(groups[i])
  {
    if i > 0 {
      GroupIsSlice(groups[1..], i - 1);
    }
    assert forall w :: w in groups[i] ==> w in Flatten(groups);
    if Words(Flatten(groups)) {
      forall j | 0 <= j < |groups[i]| ensures Word(groups[i][j]) {
        assert groups[i][j] in Flatten(groups);
      }
    }
  }

  function FieldsOf(lines: seq<string>): (r: seq<seq<string>>)
    ensures |r| == |lines| && forall i :: 0 <= i < |r| ==> r[i] == Fields(lines[i])
  {
    if lines == [] then [] else [Fields(lines[0])] + FieldsOf(lines[1..])
  }

  lemma {:induction false} FieldsOfLines(groups: seq<seq<string>>)
    requires forall i :: 0 <= i < |groups| ==> groups[i] != [] && Words(groups[i])
    ensures FieldsOf(Lines(groups)) == groups
  {
    if groups != [] {
      FieldsOfLine(groups[0]);
      LinesOfMore(groups[0], groups[1..]);
      assert [groups[0]] + groups[1..] == groups;
      assert Lines(groups)[1..] == Lines(groups[1..]);
      FieldsOfLines(groups[1..]);
    }
  }

  lemma OneLine(line: string)
    ensures FieldsOf([line]) == [Fields(line)] && Flatten(FieldsOf([line])) == Fields(line)
  {
    assert [line][1..] == [];
    assert [Fields(line)][1..] == [];
    assert Fields(line) + Flatten([]) == Fields(line);
  }

  lemma BreakParts(groups: seq<seq<string>>, ws: seq<string>, width: nat, i: nat)
    requires Breaks(groups, ws, width) && Words(ws) && i < |groups|
    ensures groups[i] != [] && Words(groups[i])
  {
    hide Width, Word;
    assert Allowed(groups[i], width);
    GroupIsSlice(groups, i);
  }

  lemma BreakFlattens(groups: seq<seq<string>>, ws: seq<string>, width: nat)
    requires Breaks(groups, ws, width)
    ensures Flatten(groups) == ws
  {
  }

  /**
    What becomes of a line keeps its words in order. One that fits is left as it is; one
    that is broken takes the fewest lines its words could take.
   */
  lemma PiecesKeepWords(line: string, width: nat)
    ensures Flatten(FieldsOf(Pieces(line, width))) == Fields(line)
    ensures |line| <= width ==> Pieces(line, width) == [line]
    ensures |line| > width && Fields(line) != [] ==>
              Breaks(FieldsOf(Pieces(line, width)), Fields(line), width) &&
              forall groups :: Breaks(groups, Fields(line), width) ==> |Pieces(line, width)| <= |groups|
  {
    hide Groups, Breaks, Join;
    var ws := Fields(line);
    if |line| <= width {
      OneLine(line);
    } else if ws == [] {
      OneLine("");
    } else {
      GroupsBreak(ws, width);
      var groups := Groups(ws, width);
      forall i | 0 <= i < |groups| ensures groups[i] != [] && Words(groups[i]) {
        BreakParts(groups, ws, width, i);
      }
      FieldsOfLines(groups);
      BreakFlattens(groups, ws, width);
      forall other | Breaks(other, ws, width) ensures |groups| <= |other| {
        GreedyIsMinimal(ws, other, width);
      }
    }
  }

  // ----- the whole text

  function AllPieces(lines: seq<string>, width: nat): (r: seq<string>)
    ensures lines != [] ==> r != []
  {
    if lines == [] then [] else AllPieces(lines[..|lines| - 1], width) + Pieces(lines[|lines| - 1], width)
  }

  function Wrapped(s: string, width: int): string {
    if width <= 0 then s else Join(AllPieces(Split(s, '\n'), width), '\n')
  }

  lemma FittingLine(line: string, width: nat)
    requires |line| <= width
    ensures Pieces(line, width) == [line]
  {
  }

  lemma NoPieces(width: nat)
    ensures AllPieces([], width) == []
  {
  }

  lemma AllPiecesOfMore(lines: seq<string>, k: nat, width: nat)
    requires k < |lines|
    ensures AllPieces(lines[..k + 1], width) == AllPieces(lines[..k], width) + Pieces(lines[k], width)
  {
    hide Pieces;
    assert lines[..k + 1][..k] == lines[..k];
  }

  method WrapText(s: string, width: int) returns (r: string)
    ensures r == Wrapped(s, width)
  {
    hide Pieces, AllPieces, Split, Join;
    if width <= 0 {
      return s;
    }
    var out := [];
    var lines := Split(s, '\n');
    assert AllPieces(lines[..0], width) == [] by { NoPieces(width); }
    for k := 0 to |lines|
      invariant out == AllPieces(lines[..k], width)
    {
      AllPiecesOfMore(lines, k, width);
      if |lines[k]| <= width {
        FittingLine(lines[k], width);
        out := out + [lines[k]];
      } else {
        var pieces := BreakLine(lines[k], width);
        out := out + pieces;
      }
    }
    assert lines[..|lines|] == lines;
    return Join(out, '\n');
  }

  /** A line that wrapping leaves alone. */
  predicate Settled(line: string, width: nat) {
    '\n' !in line && (|line| <= width || Fields(line) == [line])
  }

  lemma {:induction false} PiecesSettle(lines: seq<string>, width: nat)
    requires forall i :: 0 <= i < |lines| ==> '\n' !in lines[i]
    ensures forall i :: 0 <= i < |AllPieces(lines, width)| ==> Settled(AllPieces(lines, width)[i], width)
  {
    if lines != [] {
      var last := |lines| - 1;
      PiecesSettle(lines[..last], width);
      forall i | 0 <= i < |Pieces(lines[last], width)| ensures Settled(Pieces(lines[last], width)[i], width) {
        PiecesFit(lines[last], width, i);
      }
    }
  }

  lemma SettledStays(line: string, width: nat)
    requires Settled(line, width)
    ensures Pieces(line, width) == [line]
  {
    if |line| > width {
      var ws := [line];
      assert Groups(ws, width) == [ws] by {
        assert Taken(ws, 1, width) == 1 && ws[..1] == ws && ws[1..] == [];
      }
      assert Lines([ws]) == [Join(ws, ' ')];
    }
  }

  lemma {:induction false} AllSettled(lines: seq<string>, width: nat)
    requires forall i :: 0 <= i < |lines| ==> Settled(lines[i], width)
    ensures AllPieces(lines, width) == lines
  {
    hide Pieces, Settled;
    if lines != [] {
      AllSettled(lines[..|lines| - 1], width);
      SettledStays(lines[|lines| - 1], width);
    }
  }

  /** Wrapping text that was wrapped to the same width changes nothing. */
  lemma WrappingTwice(s: string, width: int)
    ensures Wrapped(Wrapped(s, width), width) == Wrapped(s, width)
  {
    if width > 0 {
      var lines := AllPieces(Split(s, '\n'), width);
      PiecesSettle(Split(s, '\n'), width);
      SplitOfJoin(lines, '\n');
      AllSettled(lines, width);
    }
  }

  /** Every line of the result is within the width, or is one word too wide for any line. */
  lemma WrappedLinesFit(s: string, width: int, i: nat)
    requires width > 0 && i < |Split(Wrapped(s, width), '\n')|
    ensures Settled(Split(Wrapped(s, width), '\n')[i], width)
  {
    var lines := AllPieces(Split(s, '\n'), width);
    PiecesSettle(Split(s, '\n'), width);
    SplitOfJoin(lines, '\n');
  }

  // ----- what words are, and the fewest lines

  /** The words of a text are those in front of a space and those behind it. */
  lemma {:induction false} FieldsOfSplit(a: string, space: char, b: string)
    requires IsSpace(space)
    ensures Fields(a + [space] + b) == Fields(a) + Fields(b)
    decreases |a|
  {
    hide IsSpace, Fields;
    var s := a + [space] + b;
    FieldsStep(s);
    FieldsStep(a);
    if a == "" {
      assert s[0] == space && s[1..] == b;
    } else if IsSpace(a[0]) {
      assert s[0] == a[0] && s[1..] == a[1..] + [space] + b;
      FieldsOfSplit(a[1..], space, b);
    } else {
      var end := WordEnd(a, 1);
      FirstWordBeforeSpace(a, space, b, end);
      FieldsOfSplit(a[end..], space, b);
    }
  }

  lemma FieldsStep(s: string)
    ensures Fields(s) ==
            if s == "" then [] else if IsSpace(s[0]) then Fields(s[1..]) else [s[..WordEnd(s, 1)]] + Fields(s[WordEnd(s, 1)..])
  {
  }

  lemma FirstWordBeforeSpace(a: string, space: char, b: string, end: nat)
    requires IsSpace(space) && a != "" && !IsSpace(a[0]) && end == WordEnd(a, 1)
    ensures var s := a + [space] + b;
            && s[0] == a[0] && WordEnd(s, 1) == end
            && s[..end] == a[..end] && s[end..] == a[end..] + [space] + b
  {
    hide IsSpace, WordEnd;
    var s := a + [space] + b;
    assert s == a + ([space] + b);
    CutInFront(a, [space] + b, end);
    assert a[end..] + ([space] + b) == a[end..] + [space] + b;
    CutInFront(a, [space] + b, |a|);
    assert s[|a|] == s[|a|..][0] == space;
    SameFirstWord(a, s);
  }

  lemma SameFirstWord(a: string, s: string)
    requires 0 < |a| < |s| && IsSpace(s[|a|]) && forall i :: 0 <= i < |a| ==> s[i] == a[i]
    ensures WordEnd(s, 1) == WordEnd(a, 1)
  {
    hide IsSpace;
    WordEndIs(s, 1, WordEnd(a, 1));
  }

  lemma CutInFront(a: string, b: string, end: nat)
    requires end <= |a|
    ensures (a + b)[..end] == a[..end] && (a + b)[end..] == a[end..] + b
    ensures forall i :: 0 <= i < |a| ==> (a + b)[i] == a[i]
  {
  }

  /** A text with no space in it is one word, if it is anything. */
  lemma FieldsOfWord(w: string)
    ensures Word(w) ==> Fields(w) == [w]
    ensures Fields("") == []
  {
    if Word(w) {
      WordEndIs(w, 1, |w|);
      assert w[|w|..] == "" && w[..|w|] == w;
    }
  }

  lemma WidthFromFront(ws: seq<string>)
    requires |ws| > 1
    ensures Width(ws) == |ws[0]| + 1 + Width(ws[1..])
  {
    WidthOfLine(ws);
    WidthOfLine(ws[1..]);
  }

  /** Words set with one space between them take no more room than the text they are from. */
  lemma {:induction false} FieldsAreNoWider(s: string)
    ensures Fields(s) != [] ==> Width(Fields(s)) <= |s|
    decreases |s|
  {
    hide IsSpace, Width;
    if s != "" {
      if IsSpace(s[0]) {
        FieldsAreNoWider(s[1..]);
      } else {
        var end := WordEnd(s, 1);
        var rest := s[end..];
        if rest == "" {
          assert Fields(s) == [s[..end]];
          WidthOfOne(s[..end]);
        } else {
          FieldsAreNoWider(rest[1..]);
          assert Fields(rest) == Fields(rest[1..]);
          assert Fields(s)[1..] == Fields(rest);
          if Fields(rest) == [] {
            assert Fields(s) == [s[..end]];
            WidthOfOne(s[..end]);
          } else {
            WidthFromFront(Fields(s));
          }
        }
      }
    }
  }

  lemma WidthOfOne(w: string)
    ensures Width([w]) == |w|
  {
  }

  /** Lines an operator could be shown instead: none blank, each within the width or of one word. */
  predicate Showable(lines: seq<string>, width: nat) {
    forall i :: 0 <= i < |lines| ==> Fields(lines[i]) != [] && (|lines[i]| <= width || |Fields(lines[i])| == 1)
  }

  lemma FieldsOfEach(lines: seq<string>, width: nat)
    requires Showable(lines, width)
    ensures var groups := FieldsOf(lines);
            |groups| == |lines| && forall i :: 0 <= i < |groups| ==> Allowed(groups[i], width)
  {
    forall i | 0 <= i < |lines| ensures Allowed(FieldsOf(lines)[i], width) {
      FieldsAreNoWider(lines[i]);
    }
  }

  /**
    A line that is broken becomes as few lines as it can: no other lines with the same words
    in the same order, however they are spaced, are fewer.
   */
  lemma PiecesAreFewest(line: string, width: nat, others: seq<string>)
    requires |line| > width && Fields(line) != []
    requires Showable(others, width) && Flatten(FieldsOf(others)) == Fields(line)
    ensures |Pieces(line, width)| <= |others|
  {
    hide Fields, Groups;
    FieldsOfEach(others, width);
    GreedyIsMinimal(Fields(line), FieldsOf(others), width);
    GroupsBreak(Fields(line), width);
  }
}
