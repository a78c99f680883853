/**
  The group references of a citation replacement: which dollars begin one, what each names,
  and when a name is a group number.
 */
module Citations {
  import opened Wrappers
  import opened Text

  /** What counts as a name character: Unicode's letters and digits and '_', exact on ASCII. */
  predicate Faithful(word: char -> bool) {
    forall c: char :: c < 128 as char ==> (word(c) <==> AsciiLetter(c) || Digit(c) || c == '_')
  }

  datatype Ref = Ref(name: string, num: int, start: nat, end: nat)

  // ----- numbers

  const NUMBER_CAP: int := 100_000_000

  predicate AllDigits(s: string) {
    forall i :: 0 <= i < |s| ==> Digit(s[i])
  }

  function Value(digits: string): nat
    requires AllDigits(digits)
  {
    if digits == "" then 0 else Value(digits[..|digits| - 1]) * 10 + (digits[|digits| - 1] as int - '0' as int)
  }

  /** A canonical decimal of at most nine digits: what names a numbered group. */
  predicate IsNumber(name: string) {
    AllDigits(name) && 1 <= |name| <= 9 && (|name| > 1 ==> name[0] != '0')
  }

  function NumberOf(name: string): int {
    if IsNumber(name) then Value(name) else -1
  }

  function Pow10(n: nat): nat {
    if n == 0 then 1 else 10 * Pow10(n - 1)
  }

  lemma {:induction false} ValueBounds(digits: string)
    requires AllDigits(digits)
    ensures Value(digits) < Pow10(|digits|)
    ensures digits != "" && digits[0] != '0' ==> Value(digits) >= Pow10(|digits| - 1)
  {
    if |digits| > 1 {
      ValueBounds(digits[..|digits| - 1]);
    } else if |digits| == 1 {
      assert digits[..0] == "";
    }
  }

  lemma Powers()
    ensures Pow10(8) == NUMBER_CAP && Pow10(9) == 10 * NUMBER_CAP
  {
    assert Pow10(2) == 100 && Pow10(4) == 10_000 && Pow10(6) == 1_000_000;
  }

  lemma {:induction false} Pow10Grows(m: nat, n: nat)
    requires m <= n
    ensures Pow10(m) <= Pow10(n)
  {
    if m < n {
      Pow10Grows(m, n - 1);
    }
  }

  /**
    The number a name stands for, read digit by digit with the cap checked before each: the
    running number stays below ten times the cap.
   */
  method NumberOfName(name: string) returns (num: int)
    requires name != ""
    ensures num == NumberOf(name)
    ensures -1 <= num < 10 * NUMBER_CAP
  {
    Powers();
    num := 0;
    for j := 0 to |name|
      invariant AllDigits(name[..j]) && num == Value(name[..j])
      invariant 0 <= num < 10 * NUMBER_CAP
      invariant name[0] != '0' ==> j <= 9
    {
      assert name[..j + 1][..j] == name[..j];
      ValueBounds(name[..j]);
      if !Digit(name[j]) || num >= NUMBER_CAP {
        if name[0] != '0' && j < 9 {
          Pow10Grows(j, 8);
        }
        num := -1;
        break;
      }
      num := num * 10 + (name[j] as int - '0' as int);
    }
    assert name[..|name|] == name;
    if name[0] == '0' && |name| > 1 {
      num := -1;
    }
  }

  function Decimal(n: nat): (s: string)
    ensures s != "" && AllDigits(s) && Value(s) == n && (|s| > 1 ==> s[0] != '0')
  {
    var last := ['0' + (n % 10) as char];
    if n < 10 then
      assert last[..0] == "";
      last
    else
      var front := Decimal(n / 10);
      var s := front + last;
      assert s[..|s| - 1] == front;
      assert front[0] != '0' by { if |front| == 1 { assert front[..0] == ""; } }
      s
  }

  lemma {:induction false} ValueIsOneToOne(a: string, b: string)
    requires AllDigits(a) && AllDigits(b) && |a| == |b| && Value(a) == Value(b)
    ensures a == b
  {
    if a != "" {
      var last := |a| - 1;
      ValueIsOneToOne(a[..last], b[..last]);
      assert a == a[..last] + [a[last]] && b == b[..last] + [b[last]];
    }
  }

  lemma SameValueSameLength(a: string, b: string)
    requires AllDigits(a) && AllDigits(b) && a != "" && b != "" && Value(a) == Value(b)
    requires (|a| > 1 ==> a[0] != '0') && (|b| > 1 ==> b[0] != '0')
    ensures |a| <= |b|
  {
    ValueBounds(a);
    ValueBounds(b);
    if |a| > |b| {
      Pow10Grows(|b|, |a| - 1);
    }
  }

  /** A group number prints as the name it was read from, and every number under the cap is read back. */
  lemma PrintingTheNumber(name: string, n: nat)
    ensures NumberOf(name) >= 0 ==> Decimal(NumberOf(name)) == name
    ensures n < 10 * NUMBER_CAP ==> NumberOf(Decimal(n)) == n
  {
    if IsNumber(name) {
      var s := Decimal(Value(name));
      SameValueSameLength(s, name);
      SameValueSameLength(name, s);
      ValueIsOneToOne(s, name);
    }
    if n < 10 * NUMBER_CAP {
      Powers();
      ValueBounds(Decimal(n));
      if |Decimal(n)| > 9 {
        Pow10Grows(9, |Decimal(n)| - 1);
      }
    }
  }

  // ----- one reference

  /** The end of the run of name characters that starts at from. */
  function RunEnd(s: string, from: nat, word: char -> bool): (end: nat)
    requires from <= |s|
    ensures from <= end <= |s| && (end < |s| ==> !word(s[end]))
    ensures forall i :: from <= i < end ==> word(s[i])
    decreases |s| - from
  {
    if from < |s| && word(s[from]) then RunEnd(s, from + 1, word) else from
  }

  /** The reference that begins at the dollar at start, if one does. */
  function RefAt(s: string, start: nat, word: char -> bool): (r: Option<Ref>)
    requires start < |s| && s[start] == '$'
    ensures r.Some? ==>
              && r.value.start == start && start + 1 < r.value.end <= |s|
              && (s[start..r.value.end] == "$" + r.value.name || s[start..r.value.end] == "${" + r.value.name + "}")
              && r.value.name != "" && (forall i :: 0 <= i < |r.value.name| ==> word(r.value.name[i]))
              && r.value.num == NumberOf(r.value.name)
  {
    var brace := start + 1 < |s| && s[start + 1] == '{';
    var from := if brace then start + 2 else start + 1;
    var end := RunEnd(s, from, word);
    if end == from then None
    else if brace && !(end < |s| && s[end] == '}') then None
    else
      var name := s[from..end];
      Some(Ref(name, NumberOf(name), start, if brace then end + 1 else end))
  }

  /** Reads a leading "name" or "{name}" behind the dollar at start. */
  method Extract(s: string, start: nat, word: char -> bool) returns (r: Option<Ref>)
    requires start < |s| && s[start] == '$'
    ensures r == RefAt(s, start, word)
  {
    var from := start + 1;
    if from == |s| {
      return None;
    }
    var brace := false;
    if s[from] == '{' {
      brace := true;
      from := from + 1;
    }
    var i := from;
    while i < |s| && word(s[i])
      invariant from <= i <= |s|
      invariant RunEnd(s, from, word) == RunEnd(s, i, word)
    {
      i := i + 1;
    }
    if i == from {
      return None;
    }
    var name := s[from..i];
    if brace {
      if i >= |s| || s[i] != '}' {
        return None;
      }
      i := i + 1;
    }
    var num := NumberOfName(name);
    return Some(Ref(name, num, start, i));
  }

  predicate Name(s: string, word: char -> bool) {
    s != "" && forall i :: 0 <= i < |s| ==> word(s[i])
  }

  /** A name in braces stands behind the dollar at start. */
  predicate BracedAt(s: string, start: nat, name: string) {
    start < |s| && start + |name| + 3 <= |s| && s[start..start + |name| + 3] == "${" + name + "}"
  }

  /** A bare name stands behind the dollar at start, and ends there. */
  predicate BareAt(s: string, start: nat, name: string, word: char -> bool) {
    && start + |name| + 1 <= |s| && s[start..start + |name| + 1] == "$" + name
    && (start + |name| + 1 < |s| ==> !word(s[start + |name| + 1]))
  }

  lemma RunEndIs(s: string, from: nat, end: nat, word: char -> bool)
    requires from <= end <= |s| && (end < |s| ==> !word(s[end])) && forall i :: from <= i < end ==> word(s[i])
    ensures RunEnd(s, from, word) == end
    decreases end - from
  {
    if from < end {
      RunEndIs(s, from + 1, end, word);
    }
  }

  /**
    A dollar begins a reference exactly when a whole name stands behind it, bare or in
    braces; the reference is to that name, with its number, and covers just that.
   */
  lemma RefIsANameBehindTheDollar(s: string, start: nat, word: char -> bool, name: string)
    requires start < |s| && s[start] == '$' && Faithful(word)
    ensures RefAt(s, start, word).Some? <==>
            exists n: string :: Name(n, word) && (BracedAt(s, start, n) || BareAt(s, start, n, word))
    ensures Name(name, word) && BracedAt(s, start, name) ==>
              RefAt(s, start, word) == Some(Ref(name, NumberOf(name), start, start + |name| + 3))
    ensures Name(name, word) && BareAt(s, start, name, word) ==>
              RefAt(s, start, word) == Some(Ref(name, NumberOf(name), start, start + |name| + 1))
  {
    hide NumberOf, RefAt;
    if RefAt(s, start, word).Some? {
      RefIsItsName(s, start, word);
    }
    forall n: string | Name(n, word) && (BracedAt(s, start, n) || BareAt(s, start, n, word))
      ensures RefAt(s, start, word) ==
              Some(Ref(n, NumberOf(n), start, if BracedAt(s, start, n) then start + |n| + 3 else start + |n| + 1))
      ensures !(BracedAt(s, start, n) && BareAt(s, start, n, word))
    {
      NameIsRef(s, start, word, n);
    }
  }

  lemma NameIsRef(s: string, start: nat, word: char -> bool, name: string)
    requires start < |s| && s[start] == '$' && Faithful(word) && Name(name, word)
    requires BracedAt(s, start, name) || BareAt(s, start, name, word)
    ensures RefAt(s, start, word) ==
            Some(Ref(name, NumberOf(name), start, if BracedAt(s, start, name) then start + |name| + 3 else start + |name| + 1))
    ensures !(BracedAt(s, start, name) && BareAt(s, start, name, word))
  {
    hide NumberOf, RefAt, BracedAt, BareAt;
    if BracedAt(s, start, name) {
      BracedIsRef(s, start, word, name);
    }
    if BareAt(s, start, name, word) {
      BareIsRef(s, start, word, name);
    }
  }

  lemma BracedIsRef(s: string, start: nat, word: char -> bool, name: string)
    requires start < |s| && s[start] == '$' && Faithful(word) && Name(name, word) && BracedAt(s, start, name)
    ensures start + 1 < |s| && s[start + 1] == '{'
    ensures RefAt(s, start, word) == Some(Ref(name, NumberOf(name), start, start + |name| + 3))
  {
    hide NumberOf, RunEnd, BareAt;
    var r := s[start..start + |name| + 3];
    var end := start + 2 + |name|;
    assert !word('}');
    assert s[start + 1] == r[1] == '{' && s[end] == r[|name| + 2] == '}';
    assert forall i :: start + 2 <= i < end ==> s[i] == r[i - start] == name[i - start - 2];
    RunEndIs(s, start + 2, end, word);
    assert s[start + 2..end] == name;
  }

  lemma BareIsRef(s: string, start: nat, word: char -> bool, name: string)
    requires start < |s| && s[start] == '$' && Faithful(word) && Name(name, word) && BareAt(s, start, name, word)
    ensures start + 1 < |s| && s[start + 1] != '{'
    ensures RefAt(s, start, word) == Some(Ref(name, NumberOf(name), start, start + |name| + 1))
  {
    hide NumberOf, RunEnd, BracedAt;
    var r := s[start..start + |name| + 1];
    var end := start + 1 + |name|;
    assert !word('{') && word(name[0]);
    assert forall i :: start + 1 <= i < end ==> s[i] == r[i - start] == name[i - start - 1];
    RunEndIs(s, start + 1, end, word);
    assert s[start + 1..end] == name;
  }

  lemma RefIsItsName(s: string, start: nat, word: char -> bool)
    requires start < |s| && s[start] == '$' && RefAt(s, start, word).Some?
    ensures var n := RefAt(s, start, word).value.name; Name(n, word) && (BracedAt(s, start, n) || BareAt(s, start, n, word))
  {
    hide NumberOf;
    var r := RefAt(s, start, word).value;
    var brace := s[start + 1] == '{';
    if brace {
      assert s[start..r.end] == "${" + r.name + "}";
    } else {
      assert s[start..r.end] == "$" + r.name;
    }
  }

  // ----- every reference

  function Refs(s: string, pos: nat, word: char -> bool): seq<Ref>
    requires pos <= |s|
    decreases |s| - pos
  {
    var dollar := FindChar(s, '$', pos);
    if dollar.None? then []
    else
      var start := dollar.value;
      if start + 1 < |s| && s[start + 1] == '$' then Refs(s, start + 2, word)
      else
        var r := RefAt(s, start, word);
        if r.None? then Refs(s, start + 1, word) else [r.value] + Refs(s, r.value.end, word)
  }

  method ReplaceRefs(s: string, word: char -> bool) returns (refs: seq<Ref>)
    ensures refs == Refs(s, 0, word)
  {
    hide RefAt, Refs;
    refs := [];
    var pos := 0;
    ghost var all := Refs(s, 0, word);
    while pos < |s|
      invariant 0 <= pos <= |s|
      invariant all == refs + Refs(s, pos, word)
      decreases |s| - pos
    {
      var dollar := FindChar(s, '$', pos);
      RefsStep(s, pos, word);
      if dollar.None? {
        return;
      }
      var start := dollar.value;
      pos := start + 1;
      if pos < |s| && s[pos] == '$' {
        pos := pos + 1;
        continue;
      }
      var r := Extract(s, start, word);
      if r.None? {
        continue;
      }
      assert refs + ([r.value] + Refs(s, r.value.end, word)) == (refs + [r.value]) + Refs(s, r.value.end, word);
      refs := refs + [r.value];
      pos := r.value.end;
    }
    RefsStep(s, pos, word);
  }

  lemma RefsStep(s: string, pos: nat, word: char -> bool)
    requires pos <= |s|
    ensures var dollar := FindChar(s, '$', pos);
            if dollar.None? then Refs(s, pos, word) == []
            else if dollar.value + 1 < |s| && s[dollar.value + 1] == '$'
            then Refs(s, pos, word) == Refs(s, dollar.value + 2, word)
            else
              var r := RefAt(s, dollar.value, word);
              Refs(s, pos, word) == if r.None? then Refs(s, dollar.value + 1, word) else [r.value] + Refs(s, r.value.end, word)
    ensures pos == |s| ==> Refs(s, pos, word) == []
  {
    hide RefAt;
  }

  /** How many dollars stand unbroken in front of a position. */
  function DollarsBefore(s: string, p: nat): nat
    requires p <= |s|
  {
    if p > 0 && s[p - 1] == '$' then 1 + DollarsBefore(s, p - 1) else 0
  }

  /**
    A dollar is live when the dollars before it pair off; a live one followed by a name, or
    by a name in braces, is a reference. Nothing here depends on scanning from the left.
   */
  predicate Live(s: string, p: int, word: char -> bool) {
    0 <= p < |s| && s[p] == '$' && DollarsBefore(s, p) % 2 == 0 && RefAt(s, p, word).Some?
  }

  predicate Listed(refs: seq<Ref>, p: int) {
    exists k :: 0 <= k < |refs| && refs[k].start == p
  }

  ghost predicate ListsLive(s: string, refs: seq<Ref>, pos: nat, word: char -> bool) {
    && (forall k :: 0 <= k < |refs| ==>
          pos <= refs[k].start && Live(s, refs[k].start, word) && RefAt(s, refs[k].start, word) == Some(refs[k]))
    && (forall k, l :: 0 <= k < l < |refs| ==> refs[k].end <= refs[l].start)
    && (forall p :: pos <= p && Live(s, p, word) ==> Listed(refs, p))
  }

  /** A place the scan may stand: no dollar there is the second of a pair. */
  predicate Even(s: string, pos: nat) {
    pos <= |s| && (pos < |s| && s[pos] == '$' ==> DollarsBefore(s, pos) % 2 == 0)
  }

  lemma NoDollarInside(s: string, r: Ref, word: char -> bool, i: nat)
    requires Faithful(word) && r.start < i < r.end <= |s| && s[r.start] == '$' && RefAt(s, r.start, word) == Some(r)
    ensures s[i] != '$'
  {
    var text := s[r.start..r.end];
    assert s[i] == text[i - r.start];
    assert forall c :: c in r.name ==> word(c);
    assert !word('$');
  }

  lemma DollarIsNoName(s: string, p: nat, word: char -> bool)
    requires Faithful(word) && p + 1 < |s| && s[p] == '$' && s[p + 1] == '$'
    ensures RefAt(s, p, word).None?
  {
  }

  lemma NothingLive(s: string, pos: nat, word: char -> bool)
    requires forall j :: pos <= j < |s| ==> s[j] != '$'
    ensures ListsLive(s, [], pos, word)
  {
    hide RefAt;
  }

  lemma EvenAtDollar(s: string, pos: nat, start: nat, word: char -> bool)
    requires Even(s, pos) && pos <= start < |s| && s[start] == '$' && forall j :: pos <= j < start ==> s[j] != '$'
    ensures DollarsBefore(s, start) % 2 == 0
    ensures Live(s, start, word) <==> RefAt(s, start, word).Some?
  {
    hide RefAt;
  }

  lemma PairSkipped(s: string, pos: nat, start: nat, word: char -> bool)
    requires Faithful(word) && pos <= start && start + 1 < |s| && s[start] == '$' && s[start + 1] == '$'
    requires DollarsBefore(s, start) % 2 == 0 && forall j :: pos <= j < start ==> s[j] != '$'
    ensures Even(s, start + 2) && forall p :: pos <= p < start + 2 ==> !Live(s, p, word)
  {
    hide RefAt, Faithful;
    DollarIsNoName(s, start, word);
    assert DollarsBefore(s, start + 1) == DollarsBefore(s, start) + 1;
    assert DollarsBefore(s, start + 2) == DollarsBefore(s, start) + 2;
  }

  lemma DeadSkipped(s: string, pos: nat, start: nat, word: char -> bool)
    requires pos <= start < |s| && s[start] == '$' && !(start + 1 < |s| && s[start + 1] == '$')
    requires RefAt(s, start, word).None? && forall j :: pos <= j < start ==> s[j] != '$'
    ensures Even(s, start + 1) && forall p :: pos <= p < start + 1 ==> !Live(s, p, word)
  {
    hide RefAt;
  }

  lemma EvenBehind(s: string, r: Ref, word: char -> bool)
    requires Faithful(word) && r.start + 1 < r.end <= |s| && s[r.start] == '$' && RefAt(s, r.start, word) == Some(r)
    ensures Even(s, r.end)
  {
    hide RefAt, Faithful;
    NoDollarInside(s, r, word, r.end - 1);
  }

  lemma {:induction false} RefsListLive(s: string, pos: nat, word: char -> bool)
    requires Faithful(word) && pos <= |s| && Even(s, pos)
    ensures ListsLive(s, Refs(s, pos, word), pos, word)
    decreases |s| - pos
  {
    hide RefAt, Faithful, ListsLive, Live, DollarsBefore, Even;
    var dollar := FindChar(s, '$', pos);
    if dollar.None? {
      NothingLive(s, pos, word);
    } else {
      var start := dollar.value;
      EvenAtDollar(s, pos, start, word);
      if start + 1 < |s| && s[start + 1] == '$' {
        PairSkipped(s, pos, start, word);
        RefsListLive(s, start + 2, word);
        SkipTo(s, Refs(s, start + 2, word), pos, start + 2, word);
      } else {
        var r := RefAt(s, start, word);
        if r.None? {
          DeadSkipped(s, pos, start, word);
          RefsListLive(s, start + 1, word);
          SkipTo(s, Refs(s, start + 1, word), pos, start + 1, word);
        } else {
          EvenBehind(s, r.value, word);
          RefsListLive(s, r.value.end, word);
          TakeOne(s, r.value, Refs(s, r.value.end, word), pos, word);
        }
      }
    }
  }

  lemma SkipTo(s: string, refs: seq<Ref>, pos: nat, next: nat, word: char -> bool)
    requires ListsLive(s, refs, next, word) && pos <= next
    requires forall p :: pos <= p < next ==> !Live(s, p, word)
    ensures ListsLive(s, refs, pos, word)
  {
    hide Live, RefAt;
  }

  lemma TakeOne(s: string, r: Ref, rest: seq<Ref>, pos: nat, word: char -> bool)
    requires Faithful(word) && ListsLive(s, rest, r.end, word)
    requires pos <= r.start < r.end <= |s| && Live(s, r.start, word) && RefAt(s, r.start, word) == Some(r)
    requires forall p :: pos <= p < r.start ==> s[p] != '$'
    ensures ListsLive(s, [r] + rest, pos, word)
  {
    hide RefAt, Faithful;
    var refs := [r] + rest;
    forall p | pos <= p && Live(s, p, word) ensures Listed(refs, p) {
      if p >= r.end {
        var k :| 0 <= k < |rest| && rest[k].start == p;
        assert refs[k + 1].start == p;
      } else if p > r.start {
        NoDollarInside(s, r, word, p);
      } else {
        assert refs[0].start == p;
      }
    }
  }

  /**
    The scanner returns exactly the live references of a replacement: each is where a live
    dollar stands and says what stands there, they are disjoint and increasing, and no live
    one is missed.
   */
  lemma ReplaceRefsAreTheLiveOnes(s: string, word: char -> bool)
    requires Faithful(word)
    ensures ListsLive(s, Refs(s, 0, word), 0, word)
  {
    RefsListLive(s, 0, word);
  }

  // ----- rendering

  /** A replacement with the text of each reference put in its place. */
  function Substitute(s: string, refs: seq<Ref>, pos: nat, text: Ref -> string): string
    requires pos <= |s|
    requires forall k :: 0 <= k < |refs| ==> pos <= refs[k].start <= refs[k].end <= |s|
    requires forall k, l :: 0 <= k < l < |refs| ==> refs[k].end <= refs[l].start
    decreases |refs|
  {
    if refs == [] then s[pos..]
    else s[pos..refs[0].start] + text(refs[0]) + Substitute(s, refs[1..], refs[0].end, text)
  }

  /** Ranges that stand in a text, in order and apart. */
  predicate InPlace(s: string, refs: seq<Ref>, pos: nat) {
    && pos <= |s|
    && (forall k :: 0 <= k < |refs| ==> pos <= refs[k].start <= refs[k].end <= |s|)
    && forall k, l :: 0 <= k < l < |refs| ==> refs[k].end <= refs[l].start
  }

  lemma {:induction false} SubstitutingBack(s: string, refs: seq<Ref>, pos: nat, text: Ref -> string)
    requires InPlace(s, refs, pos)
    requires forall k :: 0 <= k < |refs| ==> text(refs[k]) == s[refs[k].start..refs[k].end]
    ensures Substitute(s, refs, pos, text) == s[pos..]
    decreases |refs|
  {
    if refs != [] {
      var r := refs[0];
      SubstitutingBack(s, refs[1..], r.end, text);
      assert s[pos..] == s[pos..r.start] + s[r.start..r.end] + s[r.end..];
    }
  }

  /** Each reference the scanner returns, replaced by its own text, gives the replacement back. */
  lemma SubstitutingSourceIsIdentity(s: string, word: char -> bool, text: Ref -> string)
    requires Faithful(word)
    requires forall r: Ref :: 0 <= r.start <= r.end <= |s| ==> text(r) == s[r.start..r.end]
    ensures InPlace(s, Refs(s, 0, word), 0) && Substitute(s, Refs(s, 0, word), 0, text) == s
  {
    hide Refs, RefAt;
    ReplaceRefsAreTheLiveOnes(s, word);
    var refs := Refs(s, 0, word);
    forall k | 0 <= k < |refs| ensures 0 <= refs[k].start <= refs[k].end <= |s| {
      RefStands(s, refs[k].start, word);
    }
    SubstitutingBack(s, refs, 0, text);
    assert s[0..] == s;
  }

  lemma RefStands(s: string, start: nat, word: char -> bool)
    requires start < |s| && s[start] == '$' && RefAt(s, start, word).Some?
    ensures RefAt(s, start, word).value.start <= RefAt(s, start, word).value.end <= |s|
  {
  }
}
