/**
  Workers resuming one journaled run, in any interleaving, over a journal whose append is
  fenced on the tail: what a claim decides, and whose records land where.
 */
module Claim {
  import opened Wrappers

  datatype Content = Meta | Claimed | Answer | Entry(text: string)

  /** A stored record, with the number it was written at and the opening that wrote it, None for its creator. */
  datatype Record = Record(number: nat, writer: Option<nat>, content: Content)

  /** What an open journal remembers: the last number it knows of, and the tail it fences on. */
  datatype Handle = Handle(lastSeq: nat, tail: nat)

  /** How the store answers a publish: it works, its acknowledgement is lost, or it fails. */
  datatype Fate = Acked | AckLost | Failed

  datatype Appended = Stored | Skipped | Gap | Locked | Unreachable

  datatype Check = Duplicate | Next | SkipsAhead

  function CheckAppend(lastSeq: nat, number: nat): Check {
    if number <= lastSeq then Duplicate
    else if number > lastSeq + 1 then SkipsAhead
    else Next
  }

  /**
    The journal's append: a duplicate is dropped and a number that skips ahead refused
    before anything is sent; a moved tail refuses too, unless what stands at the number is
    this opening's own record, whose acknowledgement was lost.
   */
  function Append(records: seq<Record>, h: Handle, w: nat, number: nat, content: Content, fate: Fate)
    : (seq<Record>, Handle, Appended)
  {
    match CheckAppend(h.lastSeq, number)
    case Duplicate => (records, h, Skipped)
    case SkipsAhead => (records, h, Gap)
    case Next =>
      if fate.Failed? then (records, h, Unreachable)
      else if h.tail != |records| then
        if 0 < number <= |records| && records[number - 1].writer == Some(w)
        then (records, Handle(number, number), Stored)
        else (records, h, Locked)
      else
        var more := records + [Record(number, Some(w), content)];
        if fate.Acked? then (more, Handle(number, |more|), Stored) else (more, h, Unreachable)
  }

  /** One opening of the run, from the read it resumes on to the records it writes. */
  datatype Phase =
    | Loaded(view: nat)                                 // the fold read this many records
    | Open(view: nat, h: Handle)
    | Holding(view: nat, openedAt: nat, h: Handle)      // the claim landed
    | Running(view: nat, openedAt: nat, h: Handle, position: nat)
    | Ended

  /** The run's records and its openings; wrote is what each was told it had written. */
  datatype World = World(records: seq<Record>, workers: seq<Phase>, wrote: seq<seq<Content>>)

  datatype Action =
    | Load
    | OpenRun(w: nat)
    | TakeClaim(w: nat, fate: Fate)
    | SupplyAnswer(w: nat, fate: Fate)
    | Start(w: nat)
    | Emit(w: nat, text: string, fate: Fate)
    | Leave(w: nat)                                     // it returned, or its process is gone

  function LastNumber(records: seq<Record>): nat {
    if records == [] then 0 else records[|records| - 1].number
  }

  function Set(s: World, records: seq<Record>, w: nat, phase: Phase, wrote: seq<Content>): World
    requires w < |s.workers| == |s.wrote|
  {
    World(records, s.workers[w := phase], s.wrote[w := s.wrote[w] + wrote])
  }

  /** What an append that worked, or was dropped as a duplicate, tells the one who made it. */
  function Told(r: Appended, content: Content): seq<Content> {
    if r.Stored? || r.Skipped? then [content] else []
  }

  function Step(s: World, a: Action): Option<World>
    requires |s.workers| == |s.wrote|
  {
    match a
    case Load => Some(World(s.records, s.workers + [Loaded(|s.records|)], s.wrote + [[]]))
    case OpenRun(w) =>
      if w < |s.workers| && s.workers[w].Loaded?
      then Some(Set(s, s.records, w, Open(s.workers[w].view, Handle(LastNumber(s.records), |s.records|)), []))
      else None
    case TakeClaim(w, fate) =>
      if w < |s.workers| && s.workers[w].Open? then
        var Open(view, h) := s.workers[w];
        var (records, after, r) := Append(s.records, h, w, h.lastSeq + 1, Claimed, fate);
        Some(Set(s, records, w, if r.Stored? then Holding(view, h.tail, after) else Ended, Told(r, Claimed)))
      else None
    case SupplyAnswer(w, fate) =>
      if w < |s.workers| && s.workers[w].Holding? then
        var Holding(view, openedAt, h) := s.workers[w];
        var (records, after, r) := Append(s.records, h, w, h.lastSeq + 1, Answer, fate);
        Some(Set(s, records, w, if r.Stored? then Holding(view, openedAt, after) else Ended, Told(r, Answer)))
      else None
    case Start(w) =>
      if w < |s.workers| && s.workers[w].Holding? then
        var Holding(view, openedAt, h) := s.workers[w];
        Some(Set(s, s.records, w, Running(view, openedAt, h, h.lastSeq), []))
      else None
    case Emit(w, text, fate) =>
      if w < |s.workers| && s.workers[w].Running? then
        var Running(view, openedAt, h, position) := s.workers[w];
        // the position moves on before the append, and stays moved when that fails
        var (records, after, r) := Append(s.records, h, w, position + 1, Entry(text), fate);
        Some(Set(s, records, w, Running(view, openedAt, after, position + 1), Told(r, Entry(text))))
      else None
    case Leave(w) =>
      if w < |s.workers| then Some(Set(s, s.records, w, Ended, [])) else None
  }

  function Run(s: World, actions: seq<Action>): Option<World>
    requires |s.workers| == |s.wrote|
    decreases |actions|
  {
    if actions == [] then Some(s)
    else
      var next := Step(s, actions[0]);
      if next.None? then None else Run(next.value, actions[1..])
  }

  /** A run that has been created, by nobody who is resuming it. */
  function Begin(): World {
    World([Record(1, None, Meta)], [], [])
  }

  // ----- invariants

  predicate Numbered(records: seq<Record>) {
    forall i :: 0 <= i < |records| ==> records[i].number == i + 1
  }

  /** The run changes hands only at a claim. */
  predicate HandsOverAtClaims(records: seq<Record>) {
    && records != [] && records[0].writer == None
    && forall i :: 0 < i < |records| ==>
         records[i].writer != None && (records[i].writer != records[i - 1].writer ==> records[i].content == Claimed)
  }

  predicate WritersBelow(records: seq<Record>, n: nat) {
    forall i :: 0 <= i < |records| && records[i].writer.Some? ==> records[i].writer.value < n
  }

  /** What one opening has in the journal, in order. */
  function Own(records: seq<Record>, w: nat): seq<Content> {
    if records == [] then []
    else
      var last := records[|records| - 1];
      Own(records[..|records| - 1], w) + if last.writer == Some(w) then [last.content] else []
  }

  predicate NoneBeyond(records: seq<Record>, from: nat, w: nat) {
    forall i :: from <= i < |records| ==> records[i].writer != Some(w)
  }

  predicate HoldsFrom(records: seq<Record>, view: nat, openedAt: nat, h: Handle, w: nat) {
    && view <= openedAt < h.tail <= |records| && h.lastSeq == h.tail
    && records[h.tail - 1].writer == Some(w) && records[openedAt] == Record(openedAt + 1, Some(w), Claimed)
  }

  /** All it was told of is there, and at most one record it was not told of. */
  predicate AllButOneTold(own: seq<Content>, wrote: seq<Content>) {
    wrote <= own && |own| <= |wrote| + 1
  }

  /** An opening that has claimed the run wrote the record its handle stands behind. */
  predicate Books(records: seq<Record>, p: Phase, w: nat, wrote: seq<Content>) {
    match p
    case Loaded(view) => view <= |records| && wrote == [] == Own(records, w) && NoneBeyond(records, 0, w)
    case Open(view, h) =>
      view <= h.tail <= |records| && h.lastSeq == h.tail && wrote == [] == Own(records, w) && NoneBeyond(records, 0, w)
    case Holding(view, openedAt, h) =>
      HoldsFrom(records, view, openedAt, h, w) && Own(records, w) == wrote && NoneBeyond(records, h.tail, w)
    case Running(view, openedAt, h, position) =>
      && HoldsFrom(records, view, openedAt, h, w) && h.lastSeq <= position
      && if position == h.lastSeq then Own(records, w) == wrote && NoneBeyond(records, h.tail, w)
         else AllButOneTold(Own(records, w), wrote)
    case Ended => AllButOneTold(Own(records, w), wrote)
  }

  predicate Shaped(records: seq<Record>, workers: nat) {
    Numbered(records) && HandsOverAtClaims(records) && WritersBelow(records, workers)
  }

  predicate Inv(s: World) {
    && |s.workers| == |s.wrote| && Shaped(s.records, |s.workers|)
    && forall w :: 0 <= w < |s.workers| ==> Books(s.records, s.workers[w], w, s.wrote[w])
  }

  lemma OwnOfMore(records: seq<Record>, r: Record, w: nat)
    ensures Own(records + [r], w) == Own(records, w) + if r.writer == Some(w) then [r.content] else []
  {
    assert (records + [r])[..|records|] == records;
  }

  lemma {:induction false} NoneIsNothing(records: seq<Record>, w: nat)
    requires NoneBeyond(records, 0, w)
    ensures Own(records, w) == []
  {
    if records != [] {
      NoneIsNothing(records[..|records| - 1], w);
    }
  }

  /** The journal after one opening's step: as it was, or with one record more of that opening. */
  predicate GrewBy(records: seq<Record>, more: seq<Record>, w: nat) {
    more == records || (|more| == |records| + 1 && more[..|records|] == records && more[|records|].writer == Some(w))
  }

  lemma BooksOfOthers(records: seq<Record>, more: seq<Record>, w: nat, p: Phase, v: nat, wrote: seq<Content>)
    requires GrewBy(records, more, w) && v != w && Books(records, p, v, wrote)
    ensures Books(more, p, v, wrote)
  {
    hide Own;
    if more != records {
      assert more == records + [more[|records|]];
      OwnOfMore(records, more[|records|], v);
    }
  }

  lemma SetKeepsInv(s: World, records: seq<Record>, w: nat, phase: Phase, wrote: seq<Content>)
    requires Inv(s) && w < |s.workers| && GrewBy(s.records, records, w) && Shaped(records, |s.workers|)
    requires Books(records, phase, w, s.wrote[w] + wrote)
    ensures Inv(Set(s, records, w, phase, wrote))
  {
    hide Books, Shaped, GrewBy;
    var t := Set(s, records, w, phase, wrote);
    forall v | 0 <= v < |t.workers| ensures Books(records, t.workers[v], v, t.wrote[v]) {
      if v != w {
        BooksOfOthers(s.records, records, w, s.workers[v], v, s.wrote[v]);
      }
    }
  }

  /**
    What an opening that wrote nothing beyond its handle appends: one record, exactly when
    its number is next, it still holds the tail and the store is reached; and it is told of
    it when the acknowledgement is not lost. It is never told of a duplicate.
   */
  lemma AppendsOne(s: World, w: nat, h: Handle, number: nat, content: Content, fate: Fate)
    requires Shaped(s.records, |s.workers|) && w < |s.workers| && h.lastSeq == h.tail <= |s.records|
    requires h.lastSeq < number && (number == h.lastSeq + 1 ==> NoneBeyond(s.records, h.tail, w))
    requires content != Claimed ==> h.tail > 0 && s.records[h.tail - 1].writer == Some(w)
    ensures var (records, after, r) := Append(s.records, h, w, number, content, fate);
            var lands := number == h.lastSeq + 1 && h.tail == |s.records| && !fate.Failed?;
            && records == (if lands then s.records + [Record(|s.records| + 1, Some(w), content)] else s.records)
            && Shaped(records, |s.workers|) && GrewBy(s.records, records, w)
            && (r.Stored? <==> lands && fate.Acked?) && !r.Skipped?
            && (r.Gap? <==> number > h.lastSeq + 1)
            && after == if r.Stored? then Handle(|records|, |records|) else h
  {
    var (records, after, r) := Append(s.records, h, w, number, content, fate);
    if number == h.lastSeq + 1 && h.tail < |s.records| {
      assert s.records[h.tail].writer != Some(w);
    }
  }

  lemma LoadKeepsInv(s: World)
    requires Inv(s)
    ensures Inv(Step(s, Load).value)
  {
    hide HoldsFrom, Own, AllButOneTold;
    var t := Step(s, Load).value;
    NoneIsNothing(s.records, |s.workers|);
    forall v | 0 <= v < |t.workers| ensures Books(t.records, t.workers[v], v, t.wrote[v]) {
      assert v < |s.workers| ==> Books(s.records, s.workers[v], v, s.wrote[v]);
    }
  }

  lemma OpenKeepsInv(s: World, w: nat)
    requires Inv(s) && Step(s, OpenRun(w)).Some?
    ensures Inv(Step(s, OpenRun(w)).value)
  {
    hide Own;
    assert Books(s.records, s.workers[w], w, s.wrote[w]);
    SetKeepsInv(s, s.records, w, Step(s, OpenRun(w)).value.workers[w], []);
  }

  lemma ClaimKeepsInv(s: World, w: nat, fate: Fate)
    requires Inv(s) && Step(s, TakeClaim(w, fate)).Some?
    ensures Inv(Step(s, TakeClaim(w, fate)).value)
  {
    hide Shaped, Own;
    assert Books(s.records, s.workers[w], w, s.wrote[w]);
    var t := Step(s, TakeClaim(w, fate)).value;
    var h := s.workers[w].h;
    AppendsOne(s, w, h, h.lastSeq + 1, Claimed, fate);
    OwnOfMore(s.records, Record(|s.records| + 1, Some(w), Claimed), w);
    SetKeepsInv(s, t.records, w, t.workers[w], if t.workers[w].Holding? then [Claimed] else []);
  }

  lemma AnswerKeepsInv(s: World, w: nat, fate: Fate)
    requires Inv(s) && Step(s, SupplyAnswer(w, fate)).Some?
    ensures Inv(Step(s, SupplyAnswer(w, fate)).value)
  {
    hide Shaped, Own;
    assert Books(s.records, s.workers[w], w, s.wrote[w]);
    var t := Step(s, SupplyAnswer(w, fate)).value;
    var h := s.workers[w].h;
    AppendsOne(s, w, h, h.lastSeq + 1, Answer, fate);
    OwnOfMore(s.records, Record(|s.records| + 1, Some(w), Answer), w);
    SetKeepsInv(s, t.records, w, t.workers[w], if t.workers[w].Holding? then [Answer] else []);
  }

  lemma StartKeepsInv(s: World, w: nat)
    requires Inv(s) && Step(s, Start(w)).Some?
    ensures Inv(Step(s, Start(w)).value)
  {
    hide Shaped, Own, HoldsFrom;
    assert Books(s.records, s.workers[w], w, s.wrote[w]);
    assert s.wrote[w] + [] == s.wrote[w];
    SetKeepsInv(s, s.records, w, Step(s, Start(w)).value.workers[w], []);
  }

  lemma EmitKeepsInv(s: World, w: nat, text: string, fate: Fate)
    requires Inv(s) && Step(s, Emit(w, text, fate)).Some?
    ensures Inv(Step(s, Emit(w, text, fate)).value)
  {
    hide Shaped, Own;
    assert Books(s.records, s.workers[w], w, s.wrote[w]);
    var t := Step(s, Emit(w, text, fate)).value;
    var Running(_, _, h, position) := s.workers[w];
    AppendsOne(s, w, h, position + 1, Entry(text), fate);
    OwnOfMore(s.records, Record(|s.records| + 1, Some(w), Entry(text)), w);
    var told := if t.workers[w].h == h then [] else [Entry(text)];
    assert s.wrote[w] + [] == s.wrote[w];
    SetKeepsInv(s, t.records, w, t.workers[w], told);
  }

  lemma LeaveKeepsInv(s: World, w: nat)
    requires Inv(s) && Step(s, Leave(w)).Some?
    ensures Inv(Step(s, Leave(w)).value)
  {
    hide Shaped, Own, HoldsFrom;
    assert Books(s.records, s.workers[w], w, s.wrote[w]);
    assert s.wrote[w] + [] == s.wrote[w];
    SetKeepsInv(s, s.records, w, Ended, []);
  }

  lemma StepKeepsInv(s: World, a: Action)
    requires Inv(s) && Step(s, a).Some?
    ensures Inv(Step(s, a).value)
  {
    hide Inv, Step;
    match a {
      case Load => LoadKeepsInv(s);
      case OpenRun(w) => OpenKeepsInv(s, w);
      case TakeClaim(w, fate) => ClaimKeepsInv(s, w, fate);
      case SupplyAnswer(w, fate) => AnswerKeepsInv(s, w, fate);
      case Start(w) => StartKeepsInv(s, w);
      case Emit(w, text, fate) => EmitKeepsInv(s, w, text, fate);
      case Leave(w) => LeaveKeepsInv(s, w);
    }
  }

  lemma {:induction false} RunKeepsInv(s: World, actions: seq<Action>)
    requires Inv(s) && Run(s, actions).Some?
    ensures Inv(Run(s, actions).value)
    decreases |actions|
  {
    hide Inv, Step;
    Sized(s);
    if actions != [] {
      StepKeepsInv(s, actions[0]);
      Sized(Step(s, actions[0]).value);
      RunKeepsInv(Step(s, actions[0]).value, actions[1..]);
    }
  }

  lemma Sized(s: World)
    requires Inv(s)
    ensures |s.workers| == |s.wrote|
  {
  }

  lemma InvOf(actions: seq<Action>)
    requires Run(Begin(), actions).Some?
    ensures Inv(Run(Begin(), actions).value)
  {
    assert Inv(Begin());
    RunKeepsInv(Begin(), actions);
  }

  // ----- what every interleaving keeps

  predicate Holds(s: World, w: nat) {
    w < |s.workers| && (s.workers[w].Holding? || s.workers[w].Running?) && s.workers[w].h.tail == |s.records|
  }

  /** At most one opening that has claimed the run can still write to it. */
  lemma OneHolder(actions: seq<Action>, v: nat, w: nat)
    requires Run(Begin(), actions).Some?
    requires var s := Run(Begin(), actions).value; Holds(s, v) && Holds(s, w)
    ensures v == w
  {
    hide Run, Own;
    InvOf(actions);
    var s := Run(Begin(), actions).value;
    assert Books(s.records, s.workers[v], v, s.wrote[v]) && Books(s.records, s.workers[w], w, s.wrote[w]);
  }

  lemma {:induction false} ClaimBehind(records: seq<Record>, i: nat) returns (c: nat)
    requires HandsOverAtClaims(records) && 0 < i < |records|
    ensures 0 < c <= i && records[c].content == Claimed
    ensures forall k :: c <= k <= i ==> records[k].writer == records[i].writer
  {
    if records[i].writer != records[i - 1].writer {
      c := i;
    } else {
      c := ClaimBehind(records, i - 1);
    }
  }

  /**
    Records are numbered without a gap, and each one written after the run was created
    stands behind a claim by its own opening, with nobody else's record between: whoever
    lost the run wrote nothing into it afterwards.
   */
  lemma EveryRecordStandsBehindItsClaim(actions: seq<Action>, i: nat)
    requires Run(Begin(), actions).Some? && 0 < i < |Run(Begin(), actions).value.records|
    ensures var records := Run(Begin(), actions).value.records;
            && (forall k :: 0 <= k < |records| ==> records[k].number == k + 1)
            && exists c :: 0 < c <= i && records[c].content == Claimed &&
                 forall k :: c <= k <= i ==> records[k].writer == records[i].writer
  {
    hide Run, Own;
    InvOf(actions);
    var c := ClaimBehind(Run(Begin(), actions).value.records, i);
  }

  /** An opening whose next append would land: it has the tail, and no append of it has failed. */
  predicate CanWrite(s: World, w: nat) {
    && w < |s.workers|
    && match s.workers[w]
       case Open(_, h) => h.tail == |s.records|
       case Holding(_, _, h) => h.tail == |s.records|
       case Running(_, _, h, position) => h.tail == |s.records| && position == h.lastSeq
       case _ => false
  }

  /**
    What a running worker emits lands on the journal's next number, last, and it is told so
    exactly when it still has the tail, no append of it failed before, and this one works:
    none is folded away as a duplicate. After one that did not work it can write no more,
    though it goes on running and holding the tail: the number it left behind is a gap.
   */
  lemma EveryEmitLandsFresh(actions: seq<Action>, w: nat, text: string, fate: Fate)
    requires Run(Begin(), actions).Some?
    requires var s := Run(Begin(), actions).value; w < |s.workers| == |s.wrote| && s.workers[w].Running?
    ensures var s := Run(Begin(), actions).value; var t := Step(s, Emit(w, text, fate)).value;
            && t.workers[w].Running? && |t.wrote| == |s.wrote|
            && t.records == (if CanWrite(s, w) && !fate.Failed?
                             then s.records + [Record(|s.records| + 1, Some(w), Entry(text))] else s.records)
            && t.wrote[w] == s.wrote[w] + (if CanWrite(s, w) && fate.Acked? then [Entry(text)] else [])
            && (CanWrite(t, w) <==> CanWrite(s, w) && fate.Acked?)
  {
    hide Run, Own;
    InvOf(actions);
    var s := Run(Begin(), actions).value;
    assert Books(s.records, s.workers[w], w, s.wrote[w]);
    var Running(_, _, h, position) := s.workers[w];
    AppendsOne(s, w, h, position + 1, Entry(text), fate);
  }

  /** An opening that is past reading the run and can no longer write to it. */
  predicate Lost(s: World, w: nat) {
    w < |s.workers| && !s.workers[w].Loaded? && !CanWrite(s, w)
  }

  /** Only an opening that can write does, and one record a step. */
  lemma StepGrows(s: World, a: Action)
    requires Inv(s) && Step(s, a).Some? && !a.Load?
    ensures var t := Step(s, a).value;
            && GrewBy(s.records, t.records, a.w) && (t.records != s.records ==> CanWrite(s, a.w))
            && (!CanWrite(s, a.w) && !s.workers[a.w].Loaded? ==> Lost(t, a.w) && t.wrote[a.w] == s.wrote[a.w])
  {
    hide Own, Shaped;
    var p := s.workers[a.w];
    assert Books(s.records, p, a.w, s.wrote[a.w]);
    if a.TakeClaim? {
      AppendsOne(s, a.w, p.h, p.h.lastSeq + 1, Claimed, a.fate);
    } else if a.SupplyAnswer? {
      AppendsOne(s, a.w, p.h, p.h.lastSeq + 1, Answer, a.fate);
    } else if a.Emit? {
      AppendsOne(s, a.w, p.h, p.position + 1, Entry(a.text), a.fate);
    }
  }

  lemma StepsOnlyItsOwn(s: World, a: Action, w: nat)
    requires |s.workers| == |s.wrote| && Step(s, a).Some? && w < |s.workers| && (a.Load? || a.w != w)
    ensures var t := Step(s, a).value;
            w < |t.workers| == |t.wrote| && t.workers[w] == s.workers[w] && t.wrote[w] == s.wrote[w]
    ensures a.Load? ==> Step(s, a).value.records == s.records
  {
  }

  /** Nobody else's step gives it back, and none of its own writes. */
  lemma LostStaysLost(s: World, w: nat, a: Action)
    requires Inv(s) && Lost(s, w) && Step(s, a).Some?
    ensures var t := Step(s, a).value;
            && w < |t.workers| == |t.wrote| && Lost(t, w)
            && Own(t.records, w) == Own(s.records, w) && t.wrote[w] == s.wrote[w]
  {
    hide Own, Shaped, Step;
    var t := Step(s, a).value;
    assert Books(s.records, s.workers[w], w, s.wrote[w]);
    if !a.Load? {
      StepGrows(s, a);
    }
    if a.Load? || a.w != w {
      StepsOnlyItsOwn(s, a, w);
    }
    if t.records != s.records {
      assert t.records == s.records + [t.records[|s.records|]];
      OwnOfMore(s.records, t.records[|s.records|], w);
    }
    StepKeepsInv(s, a);
  }

  lemma {:induction false} LostForGood(s: World, w: nat, later: seq<Action>)
    requires Inv(s) && Lost(s, w) && Run(s, later).Some?
    ensures var t := Run(s, later).value;
            Lost(t, w) && Own(t.records, w) == Own(s.records, w) && w < |t.wrote| && t.wrote[w] == s.wrote[w]
    decreases |later|
  {
    hide Own, Step;
    if later != [] {
      hide Lost, Books, Shaped;
      LostStaysLost(s, w, later[0]);
      StepKeepsInv(s, later[0]);
      LostForGood(Step(s, later[0]).value, w, later[1..]);
    }
  }

  /**
    A claim succeeds exactly when no record landed since the run was opened and the store
    took it and said so; from one that did not, whatever happens later, that opening appends
    nothing more.
   */
  lemma LoserAppendsNothing(actions: seq<Action>, w: nat, fate: Fate, later: seq<Action>)
    requires Run(Begin(), actions).Some?
    requires var s := Run(Begin(), actions).value; w < |s.workers| == |s.wrote| && s.workers[w].Open?
    requires Run(Run(Begin(), actions).value, [TakeClaim(w, fate)] + later).Some?
    ensures var s := Run(Begin(), actions).value; var t := Step(s, TakeClaim(w, fate)).value;
            var u := Run(s, [TakeClaim(w, fate)] + later).value;
            && (t.workers[w].Holding? <==> s.workers[w].h.tail == |s.records| && fate.Acked?)
            && (s.workers[w].h.tail != |s.records| ==> t.records == s.records)
            && (!t.workers[w].Holding? ==> Own(u.records, w) == Own(t.records, w) && w < |u.wrote| && u.wrote[w] == [])
  {
    hide Own, Shaped;
    InvOf(actions);
    var s := Run(Begin(), actions).value;
    var t := Step(s, TakeClaim(w, fate)).value;
    assert Books(s.records, s.workers[w], w, s.wrote[w]);
    var h := s.workers[w].h;
    AppendsOne(s, w, h, h.lastSeq + 1, Claimed, fate);
    assert ([TakeClaim(w, fate)] + later)[1..] == later;
    if !t.workers[w].Holding? {
      StepKeepsInv(s, TakeClaim(w, fate));
      LostForGood(t, w, later);
    }
  }

  /**
    The same for one that did hold the run: once it can no longer write, because another
    took the tail or because an append of its own failed, no later schedule has it write.
   */
  lemma OnceLostNothingMore(actions: seq<Action>, w: nat, later: seq<Action>)
    requires Run(Begin(), actions).Some? && Lost(Run(Begin(), actions).value, w)
    requires |Run(Begin(), actions).value.workers| == |Run(Begin(), actions).value.wrote|
    requires Run(Run(Begin(), actions).value, later).Some?
    ensures var s := Run(Begin(), actions).value; var t := Run(s, later).value;
            Own(t.records, w) == Own(s.records, w)
  {
    hide Run, Own;
    InvOf(actions);
    LostForGood(Run(Begin(), actions).value, w, later);
  }

  /**
    What an opening has in the journal is what it was told it wrote, in that order, and at
    most one record more, whose acknowledgement was lost; none more while it can still write.
   */
  lemma WroteIsWhatStands(actions: seq<Action>, w: nat)
    requires Run(Begin(), actions).Some?
    requires var s := Run(Begin(), actions).value; w < |s.workers| == |s.wrote|
    ensures var s := Run(Begin(), actions).value; var own := Own(s.records, w);
            && s.wrote[w] <= own && |own| <= |s.wrote[w]| + 1
            && (CanWrite(s, w) ==> own == s.wrote[w])
  {
    hide Run, Own;
    InvOf(actions);
    var s := Run(Begin(), actions).value;
    assert Books(s.records, s.workers[w], w, s.wrote[w]);
  }

  // ----- what the order is for

  /**
    The number a worker continues from is read behind its claim. Read in front of it, the
    first record would carry the claim's own number and be dropped, reported as written.
   */
  lemma NumberReadBeforeTheClaimLosesARecord(records: seq<Record>, before: Handle, w: nat, text: string, fate: Fate)
    requires before.tail == |records|
    ensures var (claimed, h, r) := Append(records, before, w, before.lastSeq + 1, Claimed, Acked);
            && r.Stored?
            && Append(claimed, h, w, before.lastSeq + 1, Entry(text), fate) == (claimed, h, Skipped)
  {
  }

  /**
    An append whose acknowledgement was lost has stored its record, and making it again finds
    that record, whatever others stored since, and stores nothing twice; to another opening
    the same append says that the run is locked.
   */
  lemma LostAckIsAdopted(records: seq<Record>, h: Handle, w: nat, v: nat, content: Content, since: seq<Record>, fate: Fate)
    requires Numbered(records) && h.tail == |records| == h.lastSeq && v != w && !fate.Failed?
    ensures var number := |records| + 1;
            var (more, after, r) := Append(records, h, w, number, content, AckLost);
            && r.Unreachable? && after == h && more == records + [Record(number, Some(w), content)]
            && Append(more + since, h, w, number, content, fate) == (more + since, Handle(number, number), Stored)
            && Append(more + since, h, v, number, content, fate) == (more + since, h, Locked)
  {
    var number := |records| + 1;
    var more := records + [Record(number, Some(w), content)];
    assert (more + since)[number - 1] == Record(number, Some(w), content);
  }

  // ----- whether what a worker resumes on is still all there is

  lemma {:induction false} RunOfJoin(s: World, a: seq<Action>, b: seq<Action>)
    requires Inv(s)
    ensures Run(s, a + b).Some? ==> Run(s, a).Some?
    ensures Run(s, a).Some? ==> Inv(Run(s, a).value) && Run(s, a + b) == Run(Run(s, a).value, b)
    decreases |a|
  {
    hide Inv, Step;
    Sized(s);
    if a == [] {
      assert a + b == b;
    } else {
      assert (a + b)[0] == a[0] && (a + b)[1..] == a[1..] + b;
      if Step(s, a[0]).Some? {
        StepKeepsInv(s, a[0]);
        Sized(Step(s, a[0]).value);
        RunOfJoin(Step(s, a[0]).value, a[1..], b);
      }
    }
  }

  lemma RunOfOne(s: World, a: Action)
    requires |s.workers| == |s.wrote|
    ensures Run(s, [a]) == Step(s, a)
  {
    assert [a][1..] == [];
    if Step(s, a).Some? {
      assert Run(Step(s, a).value, []) == Step(s, a);
    }
  }

  /** Whether a step puts a record into the journal. */
  predicate Stores(s: World, a: Action)
    requires |s.workers| == |s.wrote| && Step(s, a).Some?
  {
    |Step(s, a).value.records| > |s.records|
  }

  /** A step stores a record exactly when it is an append by an opening that can write, and the store is reached. */
  lemma StoresExactlyWhen(actions: seq<Action>, a: Action)
    requires Run(Begin(), actions).Some?
    requires |Run(Begin(), actions).value.workers| == |Run(Begin(), actions).value.wrote|
    requires Step(Run(Begin(), actions).value, a).Some?
    ensures var s := Run(Begin(), actions).value;
            Stores(s, a) <==>
            (a.TakeClaim? || a.SupplyAnswer? || a.Emit?) && CanWrite(s, a.w) && !a.fate.Failed?
  {
    hide Run, Own, Shaped;
    InvOf(actions);
    var s := Run(Begin(), actions).value;
    if a.TakeClaim? || a.SupplyAnswer? || a.Emit? {
      var p := s.workers[a.w];
      assert Books(s.records, p, a.w, s.wrote[a.w]);
      AppendsOne(s, a.w, p.h, if a.Emit? then p.position + 1 else p.h.lastSeq + 1,
                 if a.TakeClaim? then Claimed else if a.SupplyAnswer? then Answer else Entry(a.text), a.fate);
    }
  }

  /** Whether no step of a schedule does. */
  predicate NothingStored(s: World, actions: seq<Action>)
    requires |s.workers| == |s.wrote| && Run(s, actions).Some?
    decreases |actions|
  {
    actions == [] || (!Stores(s, actions[0]) && NothingStored(Step(s, actions[0]).value, actions[1..]))
  }

  lemma StepOnlyAdds(s: World, a: Action)
    requires |s.workers| == |s.wrote| && Step(s, a).Some?
    ensures s.records <= Step(s, a).value.records
    ensures |s.workers| <= |Step(s, a).value.workers| == |Step(s, a).value.wrote|
  {
  }

  lemma {:induction false} RunOnlyAdds(s: World, actions: seq<Action>)
    requires |s.workers| == |s.wrote| && Run(s, actions).Some?
    ensures s.records <= Run(s, actions).value.records
    ensures |s.workers| <= |Run(s, actions).value.workers| == |Run(s, actions).value.wrote|
    ensures NothingStored(s, actions) <==> Run(s, actions).value.records == s.records
    decreases |actions|
  {
    hide Step;
    if actions != [] {
      StepOnlyAdds(s, actions[0]);
      RunOnlyAdds(Step(s, actions[0]).value, actions[1..]);
    }
  }

  /** A worker that has read the run and is not yet past opening it did nothing in between. */
  lemma {:induction false} StillLoaded(s: World, w: nat, actions: seq<Action>)
    requires |s.workers| == |s.wrote| && Run(s, actions).Some? && w < |s.workers|
    requires w < |Run(s, actions).value.workers| && Run(s, actions).value.workers[w].Loaded?
    ensures Run(s, actions).value.workers[w] == s.workers[w]
    decreases |actions|
  {
    if actions != [] {
      StillLoaded(Step(s, actions[0]).value, w, actions[1..]);
    }
  }

  /** Where an opening stands in the journal stays with it while it runs. */
  predicate OpenedWith(p: Phase, view: nat, openedAt: nat) {
    match p
    case Loaded(_) => false
    case Open(v, h) => v == view && h.tail == openedAt
    case Holding(v, at, _) => v == view && at == openedAt
    case Running(v, at, _, _) => v == view && at == openedAt
    case Ended => true
  }

  lemma {:induction false} StaysOpenedWith(s: World, w: nat, actions: seq<Action>, view: nat, openedAt: nat)
    requires |s.workers| == |s.wrote| && Run(s, actions).Some? && w < |s.workers|
    requires OpenedWith(s.workers[w], view, openedAt)
    ensures var t := Run(s, actions).value; w < |t.workers| && OpenedWith(t.workers[w], view, openedAt)
    decreases |actions|
  {
    if actions != [] {
      StaysOpenedWith(Step(s, actions[0]).value, w, actions[1..], view, openedAt);
    }
  }

  /** The world a worker read the run in, and the one it opened the run in. */
  function Read(before: seq<Action>): World
    requires Run(Begin(), before).Some?
  {
    Run(Begin(), before).value
  }

  /**
    What a worker resumes on is the run as it stood when it was read. It is all that stands
    in front of its claim exactly when no step between that read and the opening stored a record.
   */
  lemma FoldIsCurrentUnlessAppendedTo(before: seq<Action>, mid: seq<Action>, rest: seq<Action>)
    requires Run(Begin(), before).Some? && |Read(before).workers| == |Read(before).wrote|
    requires var w := |Read(before).workers|;
             var r := Run(Begin(), before + ([Load] + (mid + ([OpenRun(w)] + rest))));
             r.Some? && w < |r.value.workers| && (r.value.workers[w].Holding? || r.value.workers[w].Running?)
    ensures Run(Step(Read(before), Load).value, mid).Some?
    ensures var w := |Read(before).workers|;
            var t := Run(Begin(), before + ([Load] + (mid + ([OpenRun(w)] + rest)))).value;
            var openedAt := t.workers[w].openedAt;
            && openedAt < |t.records| && t.records[openedAt] == Record(openedAt + 1, Some(w), Claimed)
            && (Read(before).records == t.records[..openedAt] <==>
                NothingStored(Step(Read(before), Load).value, mid))
  {
    hide Inv, Step, NothingStored, Books, Run;
    var s := Read(before);
    var w := |s.workers|;
    RunOfNone();
    RunOfJoin(Begin(), before, [Load] + (mid + ([OpenRun(w)] + rest)));
    RunOfJoin(s, [Load], mid + ([OpenRun(w)] + rest));
    RunOfOne(s, Load);
    var loaded := Step(s, Load).value;
    Loads(s);
    RunOfJoin(loaded, mid, [OpenRun(w)] + rest);
    var opening := Run(loaded, mid).value;
    RunOfJoin(opening, [OpenRun(w)], rest);
    Sized(opening);
    RunOfOne(opening, OpenRun(w));
    var entered := Step(opening, OpenRun(w)).value;
    RunOnlyAdds(loaded, mid);
    Opens(opening, w);
    StillLoaded(loaded, w, mid);
    Sized(entered);
    StaysOpenedWith(entered, w, rest, |s.records|, |opening.records|);
    RunOnlyAdds(entered, rest);
    RunKeepsInv(entered, rest);
    Stands(Run(entered, rest).value, w);
  }

  lemma RunOfNone()
    ensures Run(Begin(), []) == Some(Begin()) && Inv(Begin())
  {
  }

  lemma Loads(s: World)
    requires |s.workers| == |s.wrote|
    ensures var t := Step(s, Load).value;
            && Step(s, Load).Some? && t.records == s.records && |t.workers| == |t.wrote| == |s.workers| + 1
            && t.workers[|s.workers|] == Loaded(|s.records|)
  {
  }

  lemma Opens(s: World, w: nat)
    requires |s.workers| == |s.wrote| && Step(s, OpenRun(w)).Some? && w < |s.workers|
    ensures s.workers[w].Loaded?
    ensures var t := Step(s, OpenRun(w)).value;
            t.records == s.records && w < |t.workers| && OpenedWith(t.workers[w], s.workers[w].view, |s.records|)
  {
  }

  lemma Stands(s: World, w: nat)
    requires Inv(s) && w < |s.workers| && (s.workers[w].Holding? || s.workers[w].Running?)
    ensures var at := s.workers[w].openedAt; at < |s.records| && s.records[at] == Record(at + 1, Some(w), Claimed)
  {
    hide Own;
    assert Books(s.records, s.workers[w], w, s.wrote[w]);
  }

  /**
    It can happen: while one worker runs, any that has read the run and not yet opened it
    may open it after the next record, take it, and go on from what it read before.
   */
  lemma StaleFold(actions: seq<Action>, v: nat, w: nat, text: string)
    requires Run(Begin(), actions).Some?
    requires var s := Run(Begin(), actions).value;
             CanWrite(s, v) && s.workers[v].Running? && w < |s.workers| == |s.wrote| && s.workers[w].Loaded?
    ensures var s := Run(Begin(), actions).value;
            var r := Run(s, [Emit(v, text, Acked), OpenRun(w), TakeClaim(w, Acked)]);
            && r.Some? && w < |r.value.workers| && r.value.workers[w].Holding?
            && r.value.workers[w].view <= |s.records| < r.value.workers[w].openedAt
  {
    InvOf(actions);
    var s := Run(Begin(), actions).value;
    assert Books(s.records, s.workers[v], v, s.wrote[v]) && Books(s.records, s.workers[w], w, s.wrote[w]);
    var a := [Emit(v, text, Acked), OpenRun(w), TakeClaim(w, Acked)];
    StepKeepsInv(s, a[0]);
    var s1 := Step(s, a[0]).value;
    StepKeepsInv(s1, a[1]);
    var s2 := Step(s1, a[1]).value;
    var s3 := Step(s2, a[2]).value;
    assert a[1..][1..] == a[2..] && a[2..][1..] == [];
    assert Run(s2, a[2..]) == Some(s3);
    assert Run(s1, a[1..]) == Some(s3);
  }
}
