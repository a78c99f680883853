/**
  The "${VAR}" and "${file:PATH}" references of a configuration value: what scanning one
  finds, and what expanding one puts in their place.
 */
module References {
  import opened Wrappers
  import opened Text

  datatype Target = Variable(name: string) | File(path: string)

  /** A reference and the half-open range of the whole of it in the value. */
  datatype Reference = Reference(target: Target, start: nat, end: nat)

  datatype SyntaxError = NeverClosed | NamesNothing | NamesNoFile | NotAName

  const OPEN := "${"
  const CLOSE := "}"
  const FILE_PREFIX := "file:"

  /** The shell's rule: a letter or underscore, then letters, digits and underscores. */
  predicate ValidName(s: string) {
    && s != [] && (AsciiLetter(s[0]) || s[0] == '_')
    && forall i :: 0 <= i < |s| ==> AsciiLetter(s[i]) || Digit(s[i]) || s[i] == '_'
  }

  function Classify(body: string): Result<Target, SyntaxError> {
    if body == "" then Err(NamesNothing)
    else if HasPrefix(body, FILE_PREFIX) then
      if body == FILE_PREFIX then Err(NamesNoFile) else Ok(File(body[|FILE_PREFIX|..]))
    else if ValidName(body) then Ok(Variable(body))
    else Err(NotAName)
  }

  function Prepend(refs: seq<Reference>, r: Result<seq<Reference>, SyntaxError>): Result<seq<Reference>, SyntaxError> {
    if r.Err? then r else Ok(refs + r.value)
  }

  /** The "${" that begins a reference. */
  predicate Opens(v: string, p: int) {
    PairAt(v, '$', '{', p)
  }

  /** What scanning finds from a position on. */
  function Scan(v: string, from: nat): Result<seq<Reference>, SyntaxError>
    requires from <= |v|
    decreases |v| - from
  {
    var opening := FindPair(v, '$', '{', from);
    if opening.None? then Ok([])
    else
      var closing := FindChar(v, '}', opening.value);
      if closing.None? then Err(NeverClosed)
      else
        var target := Classify(v[opening.value + 2..closing.value]);
        if target.Err? then Err(target.error)
        else Prepend([Reference(target.value, opening.value, closing.value + 1)], Scan(v, closing.value + 1))
  }

  lemma PrependTwice(refs: seq<Reference>, found: Reference, r: Result<seq<Reference>, SyntaxError>)
    ensures Prepend(refs, Prepend([found], r)) == Prepend(refs + [found], r)
    ensures Prepend([], r) == r
  {
    if r.Ok? {
      assert refs + ([found] + r.value) == (refs + [found]) + r.value;
      assert [] + r.value == r.value;
    }
  }

  method ScanReferences(v: string) returns (r: Result<seq<Reference>, SyntaxError>)
    ensures r == Scan(v, 0)
  {
    hide Prepend, ValidName, Classify;
    var refs := [];
    var i := 0;
    PrependTwice([], Reference(File(""), 0, 0), Scan(v, 0));
    while i < |v|
      invariant 0 <= i <= |v|
      invariant Scan(v, 0) == Prepend(refs, Scan(v, i))
      decreases |v| - i
    {
      var opening := FindPair(v, '$', '{', i);
      if opening.None? {
        break;
      }
      var closing := FindChar(v, '}', opening.value);
      if closing.None? {
        PrependErr(refs, NeverClosed);
        return Err(NeverClosed);
      }
      var body := v[opening.value + 2..closing.value];
      if body == "" {
        ClassifyNothing();
        PrependErr(refs, NamesNothing);
        return Err(NamesNothing);
      }
      var found: Reference;
      if HasPrefix(body, FILE_PREFIX) {
        var path := body[|FILE_PREFIX|..];
        if path == "" {
          ClassifyNoFile(body);
          PrependErr(refs, NamesNoFile);
          return Err(NamesNoFile);
        }
        found := Reference(File(path), opening.value, closing.value + 1);
      } else {
        if !ValidName(body) {
          ClassifyNotAName(body);
          PrependErr(refs, NotAName);
          return Err(NotAName);
        }
        found := Reference(Variable(body), opening.value, closing.value + 1);
      }
      ClassifyFound(body, found.target);
      assert Scan(v, i) == Prepend([found], Scan(v, closing.value + 1));
      PrependTwice(refs, found, Scan(v, closing.value + 1));
      refs := refs + [found];
      i := closing.value + 1;
    }
    assert Scan(v, i) == Ok([]);
    PrependNothing(refs);
    return Ok(refs);
  }

  lemma ClassifyNothing()
    ensures Classify("") == Err(NamesNothing)
  {
  }

  lemma ClassifyNoFile(body: string)
    requires HasPrefix(body, FILE_PREFIX) && body[|FILE_PREFIX|..] == ""
    ensures Classify(body) == Err(NamesNoFile)
  {
    assert body == FILE_PREFIX;
  }

  lemma ClassifyNotAName(body: string)
    requires body != "" && !HasPrefix(body, FILE_PREFIX) && !ValidName(body)
    ensures Classify(body) == Err(NotAName)
  {
  }

  lemma ClassifyFound(body: string, target: Target)
    requires body != ""
    requires if HasPrefix(body, FILE_PREFIX)
             then body[|FILE_PREFIX|..] != "" && target == File(body[|FILE_PREFIX|..])
             else ValidName(body) && target == Variable(body)
    ensures Classify(body) == Ok(target)
  {
  }

  lemma PrependErr(refs: seq<Reference>, e: SyntaxError)
    ensures Prepend(refs, Err(e)) == Err(e)
  {
  }

  lemma PrependNothing(refs: seq<Reference>)
    ensures Prepend(refs, Ok([])) == Ok(refs)
  {
    assert refs + [] == refs;
  }

  // ----- what a scan is, without scanning

  function Body(t: Target): string {
    match t
    case Variable(name) => name
    case File(path) => FILE_PREFIX + path
  }

  /** How a reference is written. */
  function Source(t: Target): string {
    OPEN + Body(t) + CLOSE
  }

  predicate Covers(refs: seq<Reference>, p: int) {
    exists k :: 0 <= k < |refs| && refs[k].start <= p < refs[k].end
  }

  /** One reference, written where it says it is, with no closing brace but its last. */
  predicate WrittenAt(v: string, r: Reference) {
    && r.start + 3 <= r.end <= |v|
    && v[r.start..r.end] == Source(r.target)
    && Nameable(r.target)
    && '}' !in Body(r.target)
  }

  /** What a reference may name: a variable by the shell's rule, or a file by a path that is there. */
  predicate Nameable(t: Target) {
    match t
    case Variable(name) => ShellName(name)
    case File(path) => path != ""
  }

  predicate ShellName(name: string) {
    && |name| > 0 && !('0' <= name[0] && name[0] <= '9')
    && forall i :: 0 <= i < |name| ==>
         || name[i] == '_' || ('0' <= name[i] && name[i] <= '9')
         || ('a' <= name[i] && name[i] <= 'z') || ('A' <= name[i] && name[i] <= 'Z')
  }

  lemma ValidNameIs(name: string)
    ensures ValidName(name) <==> ShellName(name)
  {
    assert forall i :: 0 <= i < |name| ==> (AsciiLetter(name[i]) || Digit(name[i]) || name[i] == '_' <==>
      || name[i] == '_' || ('0' <= name[i] && name[i] <= '9')
      || ('a' <= name[i] && name[i] <= 'z') || ('A' <= name[i] && name[i] <= 'Z'));
  }

  lemma ClassifiedIsNameable(t: Target)
    ensures Classify(Body(t)) == Ok(t) <==> Nameable(t)
  {
    match t
    case File(path) => assert Body(t)[|FILE_PREFIX|..] == path;
    case Variable(name) =>
      ValidNameIs(name);
      assert HasPrefix(name, FILE_PREFIX) ==> name[4] == ':';
      if HasPrefix(name, FILE_PREFIX) {
        assert Classify(name) != Ok(Variable(name));
      }
  }

  /** Ranges in order, apart, and between two positions. */
  predicate Spread(refs: seq<Reference>, from: nat, top: nat) {
    && (forall k :: 0 <= k < |refs| ==> from <= refs[k].start <= refs[k].end <= top)
    && (forall k, l :: 0 <= k < l < |refs| ==> refs[k].end <= refs[l].start)
  }

  ghost predicate AllCovered(v: string, refs: seq<Reference>, from: nat) {
    forall p :: from <= p && Opens(v, p) ==> Covers(refs, p)
  }

  predicate AllWritten(v: string, refs: seq<Reference>) {
    forall k :: 0 <= k < |refs| ==> WrittenAt(v, refs[k])
  }

  /**
    The references of a value from a position on, said as a property of the ranges alone:
    they are written there, in bounds, disjoint and increasing, and every "${" is in one.
   */
  ghost predicate Tiles(v: string, refs: seq<Reference>, from: nat) {
    AllWritten(v, refs) && Spread(refs, from, |v|) && AllCovered(v, refs, from)
  }

  lemma CoversShift(refs: seq<Reference>, p: int)
    requires refs != []
    ensures Covers(refs, p) <==> refs[0].start <= p < refs[0].end || Covers(refs[1..], p)
  {
    if Covers(refs[1..], p) {
      var k :| 0 <= k < |refs[1..]| && refs[1..][k].start <= p < refs[1..][k].end;
      assert refs[k + 1].start <= p < refs[k + 1].end;
    }
    if Covers(refs, p) && !(refs[0].start <= p < refs[0].end) {
      var k :| 0 <= k < |refs| && refs[k].start <= p < refs[k].end;
      assert refs[1..][k - 1].start <= p < refs[1..][k - 1].end;
    }
  }

  lemma DropFirst(v: string, refs: seq<Reference>, from: nat)
    requires Tiles(v, refs, from) && refs != []
    ensures Tiles(v, refs[1..], refs[0].end)
  {
    hide WrittenAt;
    forall p | refs[0].end <= p && Opens(v, p) ensures Covers(refs[1..], p) {
      CoversShift(refs, p);
    }
  }

  lemma ClassifiedBody(body: string)
    requires Classify(body).Ok?
    ensures Body(Classify(body).value) == body
  {
    if HasPrefix(body, FILE_PREFIX) {
      assert body == FILE_PREFIX + body[|FILE_PREFIX|..];
    }
  }

  /** The first reference of a scan is written where the scan says it is. */
  lemma FirstIsWritten(v: string, o: nat, c: nat)
    requires Opens(v, o) && o + 2 <= c < |v| && v[c] == '}'
    requires forall j :: o <= j < c ==> v[j] != '}'
    requires Classify(v[o + 2..c]).Ok?
    ensures WrittenAt(v, Reference(Classify(v[o + 2..c]).value, o, c + 1))
  {
    var body := v[o + 2..c];
    ClassifiedBody(body);
    ClassifiedIsNameable(Classify(body).value);
    assert v[o..c + 1] == [v[o], v[o + 1]] + body + [v[c]];
  }

  lemma {:induction false} ScanTiles(v: string, from: nat)
    requires from <= |v| && Scan(v, from).Ok?
    ensures Tiles(v, Scan(v, from).value, from)
    decreases |v| - from
  {
    hide WrittenAt, Classify;
    var refs := Scan(v, from).value;
    var opening := FindPair(v, '$', '{', from);
    if opening.Some? {
      var o := opening.value;
      var c := FindChar(v, '}', o).value;
      FirstIsWritten(v, o, c);
      ScanTiles(v, c + 1);
      var rest := Scan(v, c + 1).value;
      assert refs == [refs[0]] + rest && refs[1..] == rest;
      assert forall k :: 0 < k < |refs| ==> refs[k] == rest[k - 1];
      forall p | from <= p && Opens(v, p) ensures Covers(refs, p) {
        CoversShift(refs, p);
      }
    }
  }

  /** A written reference opens and closes where its range says, and nowhere between. */
  lemma WrittenOpensAndCloses(v: string, r: Reference)
    requires WrittenAt(v, r)
    ensures Opens(v, r.start) && v[r.end - 1] == '}' && v[r.start + 2..r.end - 1] == Body(r.target)
    ensures forall j :: r.start <= j < r.end - 1 ==> v[j] != '}'
    ensures Classify(v[r.start + 2..r.end - 1]) == Ok(r.target) && r.start + 3 <= r.end <= |v|
  {
    hide Classify;
    var body := Body(r.target);
    ClassifiedIsNameable(r.target);
    assert v[r.start..r.end] == OPEN + body + CLOSE;
    WrittenAround(v, r.start, r.end, body);
  }

  lemma WrittenAround(v: string, start: nat, end: nat, body: string)
    requires start + 3 <= end <= |v| && v[start..end] == OPEN + body + CLOSE && '}' !in body
    ensures v[start] == '$' && v[start + 1] == '{' && v[end - 1] == '}' && v[start + 2..end - 1] == body
    ensures forall j :: start <= j < end - 1 ==> v[j] != '}'
  {
    var s := v[start..end];
    assert |s| == |body| + 3 && s[0] == '$' && s[1] == '{' && s[|s| - 1] == '}';
    assert s[2..|s| - 1] == body;
    assert forall i :: 0 <= i < |s| ==> s[i] == v[start + i];
    assert v[start + 2..end - 1] == s[2..|s| - 1];
    forall j | start <= j < end - 1 ensures v[j] != '}' {
      assert v[j] == s[j - start];
      assert j >= start + 2 ==> s[j - start] == body[j - start - 2];
    }
  }

  lemma NoOpening(v: string, from: nat)
    requires from <= |v| && AllCovered(v, [], from)
    ensures FindPair(v, '$', '{', from) == None
  {
    var opening := FindPair(v, '$', '{', from);
    assert opening.Some? ==> Opens(v, opening.value) && Covers([], opening.value);
  }

  /** With a tiling, the next "${" is the first reference's. */
  lemma FirstOpening(v: string, refs: seq<Reference>, from: nat)
    requires from <= |v| && refs != [] && Spread(refs, from, |v|) && AllCovered(v, refs, from)
    requires Opens(v, refs[0].start)
    ensures FindPair(v, '$', '{', from) == Some(refs[0].start)
  {
    var o := FindPair(v, '$', '{', from).value;
    assert Opens(v, o) && Covers(refs, o);
    var k :| 0 <= k < |refs| && refs[k].start <= o < refs[k].end;
    assert refs[0].start <= refs[0].end <= refs[k].end;
    assert o <= refs[0].start;
  }

  lemma {:induction false} TilesScan(v: string, refs: seq<Reference>, from: nat)
    requires from <= |v| && Tiles(v, refs, from)
    ensures Scan(v, from) == Ok(refs)
    decreases |v| - from
  {
    hide WrittenAt, Classify;
    if refs == [] {
      NoOpening(v, from);
    } else {
      var r := refs[0];
      assert WrittenAt(v, r);
      WrittenOpensAndCloses(v, r);
      FirstOpening(v, refs, from);
      assert FindChar(v, '}', r.start) == Some(r.end - 1);
      DropFirst(v, refs, from);
      TilesScan(v, refs[1..], r.end);
      assert [r] + refs[1..] == refs;
    }
  }

  /**
    A value scans to these references exactly when they are written where they say they
    are, in order and apart, with no "${" left outside them. There is at most one such
    list, and a value that has none does not scan.
   */
  lemma ScanIsTheTiling(v: string, refs: seq<Reference>)
    ensures Scan(v, 0) == Ok(refs) <==> Tiles(v, refs, 0)
  {
    if Scan(v, 0) == Ok(refs) {
      ScanTiles(v, 0);
    } else if Tiles(v, refs, 0) {
      TilesScan(v, refs, 0);
    }
  }

  /** Where a scan stops, and why: at an opening that is never closed, or whose body names nothing it may. */
  predicate BreaksAt(v: string, o: nat, e: SyntaxError) {
    && Opens(v, o)
    && if forall j :: o <= j < |v| ==> v[j] != '}' then e == NeverClosed
       else exists c :: o <= c < |v| && v[c] == '}' && (forall j :: o <= j < c ==> v[j] != '}') && NamesNone(v[o + 2..c], e)
  }

  /** Why a body is no reference's. */
  predicate NamesNone(body: string, e: SyntaxError) {
    if body == "" then e == NamesNothing
    else if body == FILE_PREFIX then e == NamesNoFile
    else !(|body| > |FILE_PREFIX| && body[..|FILE_PREFIX|] == FILE_PREFIX) && !ShellName(body) && e == NotAName
  }

  lemma ClassifyRefuses(body: string)
    requires Classify(body).Err?
    ensures NamesNone(body, Classify(body).error)
  {
    ValidNameIs(body);
    if |body| > |FILE_PREFIX| && body[..|FILE_PREFIX|] == FILE_PREFIX {
      assert HasPrefix(body, FILE_PREFIX);
    }
  }

  lemma OneMoreCovers(r: Reference, rest: seq<Reference>, p: int)
    requires r.start <= p && (p < r.end || Covers(rest, p))
    ensures Covers([r] + rest, p)
  {
    var refs := [r] + rest;
    if p < r.end {
      assert refs[0].start <= p < refs[0].end;
    } else {
      var k :| 0 <= k < |rest| && rest[k].start <= p < rest[k].end;
      assert refs[k + 1].start <= p < refs[k + 1].end;
    }
  }

  lemma OneMoreSpread(r: Reference, rest: seq<Reference>, from: nat, top: nat)
    requires from <= r.start <= r.end <= top && Spread(rest, r.end, top)
    ensures Spread([r] + rest, from, top)
  {
  }

  lemma NoneSpread(from: nat, top: nat)
    ensures Spread([], from, top)
  {
  }

  /**
    A scan that fails says what is wrong at the first opening that is wrong: in front of it
    every opening is in a reference, and those are the references of what is in front of it.
   */
  lemma {:induction false} ScanBreaks(v: string, from: nat) returns (refs: seq<Reference>, o: nat)
    requires from <= |v| && Scan(v, from).Err?
    ensures from <= o < |v| && BreaksAt(v, o, Scan(v, from).error)
    ensures AllWritten(v, refs) && Spread(refs, from, o)
    ensures forall p :: from <= p < o && Opens(v, p) ==> Covers(refs, p)
    decreases |v| - from
  {
    hide WrittenAt, Classify, ValidName, Covers, Spread, NamesNone;
    o := FindPair(v, '$', '{', from).value;
    refs := [];
    assert Spread([], from, o) by { NoneSpread(from, o); }
    var closing := FindChar(v, '}', o);
    if closing.Some? {
      var c := closing.value;
      var body := v[o + 2..c];
      if Classify(body).Err? {
        ClassifyRefuses(body);
      } else {
        var r := Reference(Classify(body).value, o, c + 1);
        FirstIsWritten(v, o, c);
        var rest, further := ScanBreaks(v, c + 1);
        refs := [r] + rest;
        forall p | from <= p < further && Opens(v, p) ensures Covers(refs, p) {
          assert o <= p;
          OneMoreCovers(r, rest, p);
        }
        assert Spread(refs, from, further) by { OneMoreSpread(r, rest, from, further); }
        o := further;
      }
    }
  }

  // ----- expanding

  type Lookup = string -> Option<string>
  type ReadFile = Option<string -> Result<string, string>>

  datatype ExpandError = Syntax(error: SyntaxError) | NotSet(name: string) | FilesRefused(reference: string) | Unreadable(cause: string)

  /** What one reference is replaced by. */
  function Resolve(t: Target, lookup: Lookup, readFile: ReadFile): Result<string, ExpandError> {
    match t
    case File(path) =>
      if readFile.None? then Err(FilesRefused(Source(t)))
      else
        var content := readFile.value(path);
        if content.Err? then Err(Unreadable(content.error)) else Ok(content.value)
    case Variable(name) =>
      var value := lookup(name);
      if value.None? then Err(NotSet(name)) else Ok(value.value)
  }

  /** Concatenation of two expansions, the first error winning. */
  function Append(a: Result<string, ExpandError>, b: Result<string, ExpandError>): Result<string, ExpandError> {
    if a.Err? then a else if b.Err? then b else Ok(a.value + b.value)
  }

  /** The value from a position on, with each of its references replaced. */
  function Fill(v: string, refs: seq<Reference>, at: nat, lookup: Lookup, readFile: ReadFile): Result<string, ExpandError>
    requires at <= |v| && Spread(refs, at, |v|)
    decreases |refs|
  {
    if refs == [] then Ok(v[at..])
    else
      var r := refs[0];
      Append(Ok(v[at..r.start]),
        Append(Resolve(r.target, lookup, readFile), Fill(v, refs[1..], r.end, lookup, readFile)))
  }

  function Expand(v: string, lookup: Lookup, readFile: ReadFile): Result<string, ExpandError> {
    var scanned := Scan(v, 0);
    if scanned.Err? then Err(Syntax(scanned.error))
    else
      ScanTiles(v, 0);
      Fill(v, scanned.value, 0, lookup, readFile)
  }

  lemma AppendAssociates(a: Result<string, ExpandError>, b: Result<string, ExpandError>, c: Result<string, ExpandError>)
    ensures Append(Append(a, b), c) == Append(a, Append(b, c))
  {
    if a.Ok? && b.Ok? && c.Ok? {
      assert (a.value + b.value) + c.value == a.value + (b.value + c.value);
    }
  }

  lemma SourceIsSlice(v: string, r: Reference)
    requires WrittenAt(v, r)
    ensures r.start <= r.end <= |v| && v[r.start..r.end] == Source(r.target)
  {
  }

  /** One more reference filled in: what is left to expand is what comes after it. */
  lemma FillOne(v: string, refs: seq<Reference>, at: nat, out: string, resolved: string, lookup: Lookup, readFile: ReadFile)
    requires at <= |v| && Spread(refs, at, |v|) && refs != []
    requires Resolve(refs[0].target, lookup, readFile) == Ok(resolved)
    ensures Spread(refs[1..], refs[0].end, |v|)
    ensures Append(Ok(out), Fill(v, refs, at, lookup, readFile)) ==
            Append(Ok(out + v[at..refs[0].start] + resolved), Fill(v, refs[1..], refs[0].end, lookup, readFile))
  {
    hide Resolve;
    var lit: Result<string, ExpandError> := Ok(v[at..refs[0].start]);
    var rest := Fill(v, refs[1..], refs[0].end, lookup, readFile);
    AppendAssociates(Ok(out), lit, Append(Ok(resolved), rest));
    AppendAssociates(Append(Ok(out), lit), Ok(resolved), rest);
  }

  method ExpandReferences(v: string, lookup: Lookup, readFile: ReadFile) returns (r: Result<string, ExpandError>)
    ensures r == Expand(v, lookup, readFile)
  {
    hide WrittenAt, Scan;
    var scanned := ScanReferences(v);
    if scanned.Err? {
      return Err(Syntax(scanned.error));
    }
    ScanTiles(v, 0);
    var refs := scanned.value;
    if refs == [] {
      assert v[0..] == v;
      return Ok(v);
    }
    var out, at := "", 0;
    ghost var all := Fill(v, refs, 0, lookup, readFile);
    assert all == Append(Ok(""), all) by {
      if all.Ok? { assert "" + all.value == all.value; }
    }
    assert refs[0..] == refs;
    for i := 0 to |refs|
      invariant 0 <= at <= |v| && Spread(refs[i..], at, |v|)
      invariant forall k :: i <= k < |refs| ==> WrittenAt(v, refs[k])
      invariant all == Append(Ok(out), Fill(v, refs[i..], at, lookup, readFile))
    {
      var ref := refs[i];
      assert refs[i..][0] == ref && refs[i..][1..] == refs[i + 1..];
      var resolved := "";
      match ref.target {
        case File(path) =>
          if readFile.None? {
            assert WrittenAt(v, ref);
            SourceIsSlice(v, ref);
            return Err(FilesRefused(v[ref.start..ref.end]));
          }
          var content := readFile.value(path);
          if content.Err? {
            return Err(Unreadable(content.error));
          }
          resolved := content.value;
        case Variable(name) =>
          var value := lookup(name);
          if value.None? {
            return Err(NotSet(name));
          }
          resolved := value.value;
      }
      FillOne(v, refs[i..], at, out, resolved, lookup, readFile);
      out := out + v[at..ref.start];
      out := out + resolved;
      at := ref.end;
    }
    return Ok(out + v[at..]);
  }

  // ----- when an expansion succeeds, and what it is

  /** That something stands for a target. */
  predicate Stands(t: Target, lookup: Lookup, readFile: ReadFile) {
    match t
    case Variable(name) => lookup(name).Some?
    case File(path) => readFile.Some? && readFile.value(path).Ok?
  }

  predicate StandsFor(t: Target, text: string, lookup: Lookup, readFile: ReadFile) {
    match t
    case Variable(name) => lookup(name) == Some(text)
    case File(path) => readFile.Some? && readFile.value(path) == Ok(text)
  }

  /** The error of a reference that nothing stands for. */
  predicate Fails(v: string, r: Reference, lookup: Lookup, readFile: ReadFile, e: ExpandError)
    requires r.start <= r.end <= |v|
  {
    match r.target
    case Variable(name) => lookup(name).None? && e == NotSet(name)
    case File(path) =>
      if readFile.None? then e == FilesRefused(v[r.start..r.end])
      else readFile.value(path).Err? && e == Unreadable(readFile.value(path).error)
  }

  /** The literals between references, with texts in the references' places. */
  function Woven(v: string, refs: seq<Reference>, at: nat, texts: seq<string>): string
    requires at <= |v| && Spread(refs, at, |v|) && |texts| == |refs|
    decreases |refs|
  {
    if refs == [] then v[at..]
    else v[at..refs[0].start] + texts[0] + Woven(v, refs[1..], refs[0].end, texts[1..])
  }

  lemma OneResolves(v: string, r: Reference, lookup: Lookup, readFile: ReadFile)
    requires WrittenAt(v, r)
    ensures var x := Resolve(r.target, lookup, readFile);
            && (x.Ok? <==> Stands(r.target, lookup, readFile))
            && (x.Ok? ==> StandsFor(r.target, x.value, lookup, readFile))
            && (x.Err? ==> Fails(v, r, lookup, readFile, x.error))
  {
    SourceIsSlice(v, r);
  }

  /** What filling comes to: every reference stands for a text, or the first that does not is the error. */
  ghost predicate FilledRight(v: string, refs: seq<Reference>, at: nat, lookup: Lookup, readFile: ReadFile,
                              r: Result<string, ExpandError>)
    requires at <= |v| && Spread(refs, at, |v|)
  {
    match r
    case Ok(text) =>
      exists texts: seq<string> :: |texts| == |refs| && text == Woven(v, refs, at, texts) &&
        forall k :: 0 <= k < |refs| ==> StandsFor(refs[k].target, texts[k], lookup, readFile)
    case Err(e) =>
      exists k :: 0 <= k < |refs| && Fails(v, refs[k], lookup, readFile, e) &&
        forall j :: 0 <= j < k ==> Stands(refs[j].target, lookup, readFile)
  }

  lemma {:induction false} FillIsRight(v: string, refs: seq<Reference>, at: nat, lookup: Lookup, readFile: ReadFile)
    requires at <= |v| && Spread(refs, at, |v|) && AllWritten(v, refs)
    ensures FilledRight(v, refs, at, lookup, readFile, Fill(v, refs, at, lookup, readFile))
    decreases |refs|
  {
    hide WrittenAt, Resolve, Stands, StandsFor, Fails, FilledRight, Woven;
    if refs == [] {
      NothingToFill(v, at, lookup, readFile);
    } else {
      var r, rest := refs[0], refs[1..];
      assert WrittenAt(v, r);
      OneResolves(v, r, lookup, readFile);
      FillIsRight(v, rest, r.end, lookup, readFile);
      var x, filled := Resolve(r.target, lookup, readFile), Fill(v, rest, r.end, lookup, readFile);
      if x.Err? {
        FailsFirst(v, refs, at, lookup, readFile, x.error);
      } else if filled.Err? {
        FailsLater(v, refs, at, lookup, readFile, filled.error);
      } else {
        WovenOn(v, refs, at, lookup, readFile, x.value, filled.value);
      }
    }
  }

  lemma NothingToFill(v: string, at: nat, lookup: Lookup, readFile: ReadFile)
    requires at <= |v|
    ensures FilledRight(v, [], at, lookup, readFile, Ok(v[at..]))
  {
    var none: seq<string> := [];
    assert Woven(v, [], at, none) == v[at..];
  }

  lemma FailsFirst(v: string, refs: seq<Reference>, at: nat, lookup: Lookup, readFile: ReadFile, e: ExpandError)
    requires at <= |v| && refs != [] && Spread(refs, at, |v|) && Fails(v, refs[0], lookup, readFile, e)
    ensures FilledRight(v, refs, at, lookup, readFile, Err(e))
  {
    hide Stands, StandsFor, Fails, Woven;
  }

  lemma FailsLater(v: string, refs: seq<Reference>, at: nat, lookup: Lookup, readFile: ReadFile, e: ExpandError)
    requires at <= |v| && refs != [] && Spread(refs, at, |v|) && Stands(refs[0].target, lookup, readFile)
    requires FilledRight(v, refs[1..], refs[0].end, lookup, readFile, Err(e))
    ensures FilledRight(v, refs, at, lookup, readFile, Err(e))
  {
    hide Stands, StandsFor, Fails, Woven;
    var rest := refs[1..];
    var k :| 0 <= k < |rest| && Fails(v, rest[k], lookup, readFile, e) &&
             forall j :: 0 <= j < k ==> Stands(rest[j].target, lookup, readFile);
    assert refs[k + 1] == rest[k] && forall j :: 0 < j < k + 1 ==> refs[j] == rest[j - 1];
  }

  lemma WovenOn(v: string, refs: seq<Reference>, at: nat, lookup: Lookup, readFile: ReadFile, first: string, text: string)
    requires at <= |v| && refs != [] && Spread(refs, at, |v|) && StandsFor(refs[0].target, first, lookup, readFile)
    requires FilledRight(v, refs[1..], refs[0].end, lookup, readFile, Ok(text))
    ensures FilledRight(v, refs, at, lookup, readFile, Ok(v[at..refs[0].start] + (first + text)))
  {
    hide StandsFor, Fails, Woven;
    var rest := refs[1..];
    var texts: seq<string> :| |texts| == |rest| && text == Woven(v, rest, refs[0].end, texts) &&
      forall k :: 0 <= k < |rest| ==> StandsFor(rest[k].target, texts[k], lookup, readFile);
    var all := [first] + texts;
    WovenFirst(v, refs, at, first, texts);
    assert forall k :: 0 < k < |refs| ==> refs[k] == rest[k - 1] && all[k] == texts[k - 1];
  }

  lemma WovenFirst(v: string, refs: seq<Reference>, at: nat, first: string, texts: seq<string>)
    requires at <= |v| && refs != [] && Spread(refs, at, |v|) && |texts| == |refs| - 1
    ensures Spread(refs[1..], refs[0].end, |v|)
    ensures Woven(v, refs, at, [first] + texts) == v[at..refs[0].start] + (first + Woven(v, refs[1..], refs[0].end, texts))
  {
    var literal, rest := v[at..refs[0].start], Woven(v, refs[1..], refs[0].end, texts);
    assert ([first] + texts)[1..] == texts;
    assert literal + first + rest == literal + (first + rest);
  }

  lemma StandsOrFails(v: string, r: Reference, lookup: Lookup, readFile: ReadFile, e: ExpandError)
    requires r.start <= r.end <= |v| && Fails(v, r, lookup, readFile, e)
    ensures !Stands(r.target, lookup, readFile)
  {
  }

  lemma StandingFor(t: Target, text: string, lookup: Lookup, readFile: ReadFile)
    requires StandsFor(t, text, lookup, readFile)
    ensures Stands(t, lookup, readFile)
  {
  }

  /**
    A value whose references are these expands exactly when every variable of them is set and
    every file of them can be read. Then it is the value's literals with what each stands
    for in its place; otherwise the error is that of the first for which nothing stands.
   */
  lemma ExpandsWhenAllStand(v: string, refs: seq<Reference>, lookup: Lookup, readFile: ReadFile)
    requires Tiles(v, refs, 0)
    ensures var r := Expand(v, lookup, readFile);
            && (r.Ok? <==> forall k :: 0 <= k < |refs| ==> Stands(refs[k].target, lookup, readFile))
            && FilledRight(v, refs, 0, lookup, readFile, r)
  {
    hide Stands, StandsFor, Fails, WrittenAt, Scan, Fill;
    ScanIsTheTiling(v, refs);
    FillIsRight(v, refs, 0, lookup, readFile);
    var r := Expand(v, lookup, readFile);
    match r {
      case Ok(text) =>
        var texts: seq<string> :| |texts| == |refs| && text == Woven(v, refs, 0, texts) &&
          forall k :: 0 <= k < |refs| ==> StandsFor(refs[k].target, texts[k], lookup, readFile);
        forall k | 0 <= k < |refs| ensures Stands(refs[k].target, lookup, readFile) {
          StandingFor(refs[k].target, texts[k], lookup, readFile);
        }
      case Err(e) =>
        var k :| 0 <= k < |refs| && Fails(v, refs[k], lookup, readFile, e);
        StandsOrFails(v, refs[k], lookup, readFile, e);
    }
  }

  /** A value whose syntax is wrong is not expanded: the error is the scan's, at the first opening that is wrong. */
  lemma BrokenSyntaxIsReported(v: string, lookup: Lookup, readFile: ReadFile)
    requires forall refs :: !Tiles(v, refs, 0)
    ensures var r := Expand(v, lookup, readFile);
            && r.Err? && r.error.Syntax?
            && exists refs, o: nat ::
                 && o < |v| && BreaksAt(v, o, r.error.error) && AllWritten(v, refs) && Spread(refs, 0, o)
                 && forall p :: 0 <= p < o && Opens(v, p) ==> Covers(refs, p)
  {
    hide WrittenAt, BreaksAt, Classify;
    if Scan(v, 0).Ok? {
      ScanTiles(v, 0);
    }
    var refs, o := ScanBreaks(v, 0);
  }

  // ----- what expansion keeps

  /** An environment in which every reference stands for its own text. */
  ghost predicate Verbatim(lookup: Lookup, readFile: ReadFile) {
    && (forall name :: lookup(name) == Some(Source(Variable(name))))
    && readFile.Some? && (forall path :: readFile.value(path) == Ok(Source(File(path))))
  }

  lemma {:induction false} FillVerbatim(v: string, refs: seq<Reference>, at: nat, lookup: Lookup, readFile: ReadFile)
    requires at <= |v| && Tiles(v, refs, at) && Verbatim(lookup, readFile)
    ensures Fill(v, refs, at, lookup, readFile) == Ok(v[at..])
    decreases |refs|
  {
    hide Classify, Opens, Covers, Source;
    if refs != [] {
      var r := refs[0];
      DropFirst(v, refs, at);
      FillVerbatim(v, refs[1..], r.end, lookup, readFile);
      assert Resolve(r.target, lookup, readFile) == Ok(v[r.start..r.end]);
      assert v[at..] == v[at..r.start] + (v[r.start..r.end] + v[r.end..]);
    }
  }

  /** Expanding each reference to its own source text gives the value back, character for character. */
  lemma ExpandingVerbatimIsIdentity(v: string, lookup: Lookup, readFile: ReadFile)
    requires Verbatim(lookup, readFile) && Scan(v, 0).Ok?
    ensures Expand(v, lookup, readFile) == Ok(v)
  {
    ScanTiles(v, 0);
    FillVerbatim(v, Scan(v, 0).value, 0, lookup, readFile);
    assert v[0..] == v;
  }

  // ----- two values, one after the other

  function Shift(refs: seq<Reference>, distance: nat): seq<Reference> {
    seq(|refs|, i requires 0 <= i < |refs| => Reference(refs[i].target, refs[i].start + distance, refs[i].end + distance))
  }

  /** Whether joining the two makes a "${" neither of them had. */
  predicate JoinOpens(a: string, b: string) {
    a != [] && b != [] && a[|a| - 1] == '$' && b[0] == '{'
  }

  lemma JoinedSpread(ra: seq<Reference>, rb: seq<Reference>, from: nat, n: nat, m: nat)
    requires Spread(ra, from, n) && Spread(rb, 0, m) && from <= n
    ensures Spread(ra + Shift(rb, n), from, n + m)
  {
    var refs := ra + Shift(rb, n);
    assert forall k :: |ra| <= k < |refs| ==> refs[k].start == rb[k - |ra|].start + n && refs[k].end == rb[k - |ra|].end + n;
  }

  lemma WrittenInFront(a: string, b: string, r: Reference)
    requires WrittenAt(a, r)
    ensures WrittenAt(a + b, r)
  {
    hide Classify, Source, Body;
    assert (a + b)[r.start..r.end] == a[r.start..r.end];
  }

  lemma WrittenBehind(a: string, b: string, r: Reference)
    requires WrittenAt(b, r)
    ensures WrittenAt(a + b, Reference(r.target, r.start + |a|, r.end + |a|))
  {
    hide Classify, Source, Body;
    assert (a + b)[r.start + |a|..r.end + |a|] == b[r.start..r.end];
  }

  lemma JoinedWritten(a: string, b: string, ra: seq<Reference>, rb: seq<Reference>)
    requires AllWritten(a, ra) && AllWritten(b, rb)
    ensures AllWritten(a + b, ra + Shift(rb, |a|))
  {
    hide WrittenAt;
    var refs := ra + Shift(rb, |a|);
    forall k | 0 <= k < |refs| ensures WrittenAt(a + b, refs[k]) {
      if k < |ra| {
        WrittenInFront(a, b, ra[k]);
      } else {
        WrittenBehind(a, b, rb[k - |ra|]);
      }
    }
  }

  lemma JoinedCovered(a: string, b: string, ra: seq<Reference>, rb: seq<Reference>)
    requires AllCovered(a, ra, 0) && AllCovered(b, rb, 0) && !JoinOpens(a, b)
    ensures AllCovered(a + b, ra + Shift(rb, |a|), 0)
  {
    var refs := ra + Shift(rb, |a|);
    forall p | 0 <= p && Opens(a + b, p) ensures Covers(refs, p) {
      if p + 2 <= |a| {
        assert Opens(a, p) && Covers(ra, p);
        var k :| 0 <= k < |ra| && ra[k].start <= p < ra[k].end;
        assert refs[k] == ra[k];
      } else if p >= |a| {
        assert Opens(b, p - |a|) && Covers(rb, p - |a|);
        var k :| 0 <= k < |rb| && rb[k].start <= p - |a| < rb[k].end;
        assert refs[|ra| + k].start <= p < refs[|ra| + k].end;
      }
    }
  }

  lemma SpreadRest(refs: seq<Reference>, from: nat, top: nat)
    requires Spread(refs, from, top) && refs != []
    ensures from <= refs[0].start <= refs[0].end <= top && Spread(refs[1..], refs[0].end, top)
  {
  }

  lemma ShiftSpread(rb: seq<Reference>, from: nat, top: nat, n: nat)
    requires Spread(rb, from, top)
    ensures Spread(Shift(rb, n), from + n, top + n) && |Shift(rb, n)| == |rb|
    ensures rb != [] ==> Shift(rb, n)[0] == Reference(rb[0].target, rb[0].start + n, rb[0].end + n)
    ensures rb != [] ==> Shift(rb, n)[1..] == Shift(rb[1..], n)
  {
  }

  lemma FillNone(v: string, refs: seq<Reference>, at: nat, lookup: Lookup, readFile: ReadFile)
    requires at <= |v| && refs == []
    ensures Spread(refs, at, |v|) && Fill(v, refs, at, lookup, readFile) == Ok(v[at..])
  {
  }

  lemma AppendOk(a: string, b: string)
    ensures Append(Ok(a), Ok(b)) == Ok(a + b)
  {
  }

  lemma FillStep(v: string, refs: seq<Reference>, at: nat, lookup: Lookup, readFile: ReadFile)
    requires at <= |v| && Spread(refs, at, |v|) && refs != []
    ensures Spread(refs[1..], refs[0].end, |v|)
    ensures Fill(v, refs, at, lookup, readFile) ==
            Append(Ok(v[at..refs[0].start]),
              Append(Resolve(refs[0].target, lookup, readFile), Fill(v, refs[1..], refs[0].end, lookup, readFile)))
  {
  }

  /** v is a followed by b, said without building it. */
  predicate Joins(v: string, a: string, b: string) {
    |v| == |a| + |b| && v[..|a|] == a && v[|a|..] == b
  }

  lemma Slices(v: string, a: string, b: string, i: nat, j: nat)
    requires Joins(v, a, b) && i <= j
    ensures |v| == |a| + |b|
    ensures j <= |a| ==> v[i..j] == a[i..j]
    ensures j <= |b| ==> v[i + |a|..j + |a|] == b[i..j]
    ensures i <= |a| <= j <= |v| ==> v[i..j] == a[i..] + v[|a|..j]
  {
    assert forall k :: 0 <= k < |a| ==> v[k] == v[..|a|][k];
    assert forall k :: 0 <= k < |b| ==> v[k + |a|] == v[|a|..][k];
  }

  lemma {:induction false} FillShifted(v: string, a: string, b: string, rb: seq<Reference>, at: nat, lookup: Lookup, readFile: ReadFile)
    requires at <= |b| && Spread(rb, at, |b|) && Joins(v, a, b)
    ensures Spread(Shift(rb, |a|), at + |a|, |v|)
    ensures Fill(v, Shift(rb, |a|), at + |a|, lookup, readFile) == Fill(b, rb, at, lookup, readFile)
    decreases |rb|
  {
    hide Resolve, Append, Fill, Shift, Spread;
    ShiftSpread(rb, at, |b|, |a|);
    Slices(v, a, b, at, |b|);
    if rb == [] {
      FillNone(v, Shift(rb, |a|), at + |a|, lookup, readFile);
      FillNone(b, rb, at, lookup, readFile);
    } else {
      var refs, r := Shift(rb, |a|), rb[0];
      SpreadRest(rb, at, |b|);
      FillStep(b, rb, at, lookup, readFile);
      FillShifted(v, a, b, rb[1..], r.end, lookup, readFile);
      FillStep(v, refs, at + |a|, lookup, readFile);
      Slices(v, a, b, at, r.start);
    }
  }

  /** Literal text in front of the first reference of what follows it. */
  lemma LiteralFirst(v: string, a: string, b: string, shifted: seq<Reference>, at: nat, lookup: Lookup, readFile: ReadFile)
    requires at <= |a| && Spread(shifted, |a|, |v|) && Joins(v, a, b)
    ensures Spread(shifted, at, |v|)
    ensures Fill(v, shifted, at, lookup, readFile) ==
            Append(Ok(a[at..]), Fill(v, shifted, |a|, lookup, readFile))
  {
    hide Resolve, Append, Fill;
    Slices(v, a, b, at, |v|);
    if shifted == [] {
      assert v[at..|v|] == v[at..] && v[|a|..|v|] == v[|a|..];
      FillNone(v, shifted, at, lookup, readFile);
      FillNone(v, shifted, |a|, lookup, readFile);
      AppendOk(a[at..], v[|a|..]);
    } else {
      var r := shifted[0];
      SpreadRest(shifted, |a|, |v|);
      FillStep(v, shifted, at, lookup, readFile);
      FillStep(v, shifted, |a|, lookup, readFile);
      Slices(v, a, b, at, r.start);
      AppendOk(a[at..], v[|a|..r.start]);
      AppendAssociates(Ok(a[at..]), Ok(v[|a|..r.start]),
        Append(Resolve(r.target, lookup, readFile), Fill(v, shifted[1..], r.end, lookup, readFile)));
    }
  }

  lemma {:induction false} FillJoined(v: string, a: string, b: string, ra: seq<Reference>, rb: seq<Reference>, at: nat, lookup: Lookup, readFile: ReadFile)
    requires at <= |a| && Spread(ra, at, |a|) && Spread(rb, 0, |b|) && Joins(v, a, b)
    ensures Spread(ra + Shift(rb, |a|), at, |v|)
    ensures Fill(v, ra + Shift(rb, |a|), at, lookup, readFile) ==
            Append(Fill(a, ra, at, lookup, readFile), Fill(b, rb, 0, lookup, readFile))
    decreases |ra|
  {
    hide Resolve, Append, Fill, Shift, Spread, Joins;
    var refs, shifted := ra + Shift(rb, |a|), Shift(rb, |a|);
    JoinedSpread(ra, rb, at, |a|, |b|);
    Slices(v, a, b, 0, 0);
    if ra == [] {
      FillNone(a, ra, at, lookup, readFile);
      FillJoinedFirst(v, a, b, rb, at, lookup, readFile);
      assert refs == shifted;
    } else {
      var r := ra[0];
      SpreadRest(ra, at, |a|);
      FillStep(a, ra, at, lookup, readFile);
      FillJoined(v, a, b, ra[1..], rb, r.end, lookup, readFile);
      assert refs[0] == r && refs[1..] == ra[1..] + shifted;
      FillStep(v, refs, at, lookup, readFile);
      Slices(v, a, b, at, r.start);
      Regroup(Ok(a[at..r.start]), Resolve(r.target, lookup, readFile),
        Fill(a, ra[1..], r.end, lookup, readFile), Fill(b, rb, 0, lookup, readFile));
    }
  }

  lemma Regroup(a: Result<string, ExpandError>, b: Result<string, ExpandError>, c: Result<string, ExpandError>, d: Result<string, ExpandError>)
    ensures Append(a, Append(b, Append(c, d))) == Append(Append(a, Append(b, c)), d)
  {
    hide Append;
    AppendAssociates(a, Append(b, c), d);
    AppendAssociates(b, c, d);
  }

  lemma FillJoinedFirst(v: string, a: string, b: string, rb: seq<Reference>, at: nat, lookup: Lookup, readFile: ReadFile)
    requires at <= |a| && Spread(rb, 0, |b|) && Joins(v, a, b)
    ensures Spread(Shift(rb, |a|), at, |v|)
    ensures Fill(v, Shift(rb, |a|), at, lookup, readFile) ==
            Append(Ok(a[at..]), Fill(b, rb, 0, lookup, readFile))
  {
    hide Resolve, Append, Fill, Shift, Spread, Joins;
    Slices(v, a, b, 0, 0);
    ShiftSpread(rb, 0, |b|, |a|);
    FillShifted(v, a, b, rb, 0, lookup, readFile);
    LiteralFirst(v, a, b, Shift(rb, |a|), at, lookup, readFile);
  }

  /**
    Expansion is a homomorphism: two values that scan, joined without making a new "${",
    expand to the first expansion followed by the second, and fail as the first of them does.
   */
  lemma ExpansionOfJoin(a: string, b: string, lookup: Lookup, readFile: ReadFile)
    requires Scan(a, 0).Ok? && Scan(b, 0).Ok? && !JoinOpens(a, b)
    ensures Expand(a + b, lookup, readFile) ==
            Append(Expand(a, lookup, readFile), Expand(b, lookup, readFile))
  {
    hide WrittenAt, Scan;
    var ra, rb := Scan(a, 0).value, Scan(b, 0).value;
    ScanTiles(a, 0);
    ScanTiles(b, 0);
    JoinedWritten(a, b, ra, rb);
    JoinedCovered(a, b, ra, rb);
    JoinedSpread(ra, rb, 0, |a|, |b|);
    TilesScan(a + b, ra + Shift(rb, |a|), 0);
    FillJoined(a + b, a, b, ra, rb, 0, lookup, readFile);
  }
}
