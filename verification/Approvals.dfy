/**
  The approvals a run's confirm gate honors: standing grants, staged until the call that
  got them is answered and then journaled, and one-shot approvals, spent when they are
  read. A conversation is followed across crashes and resumes, against its journal.
 */
module Approvals {
  import opened Wrappers

  /** The journal records that bear on approvals. */
  datatype Record = Decision(tool: string) | CallApproval(id: string) | Terminal | Other

  /** The tools a journal grants, in journal order: what folding it restores. */
  function Decisions(records: seq<Record>): seq<string> {
    if records == [] then []
    else Decisions(records[..|records| - 1]) +
         if records[|records| - 1].Decision? then [records[|records| - 1].tool] else []
  }

  /** The one-shot approvals still live: those since the last terminal record. */
  function LiveCalls(records: seq<Record>): set<string> {
    if records == [] then {}
    else
      var before, last := LiveCalls(records[..|records| - 1]), records[|records| - 1];
      if last.Terminal? then {} else if last.CallApproval? then before + {last.id} else before
  }

  function Elements<T>(s: seq<T>): set<T> {
    set x | x in s
  }

  predicate Distinct<T(==)>(s: seq<T>) {
    forall i, j :: 0 <= i < j < |s| ==> s[i] != s[j]
  }

  function AsDecisions(tools: seq<string>): (rs: seq<Record>)
    ensures |rs| == |tools| && forall i :: 0 <= i < |tools| ==> rs[i] == Decision(tools[i])
  {
    seq(|tools|, i requires 0 <= i < |tools| => Decision(tools[i]))
  }

  // ----- one process's approvals

  datatype Held = Held(granted: set<string>, staged: seq<string>, calls: set<string>)

  const NOTHING := Held({}, [], {})

  function AfterGrant(h: Held, tool: string): Held {
    if tool in h.granted then h else h.(granted := h.granted + {tool}, staged := h.staged + [tool])
  }

  function AfterTake(h: Held, id: string): Held {
    h.(calls := h.calls - {id})
  }

  class Journal {
    var records: seq<Record>

    constructor ()
      ensures records == []
    {
      records := [];
    }

    method Append(r: Record, stored: bool) returns (ok: bool)
      modifies this
      ensures ok == stored && records == if stored then old(records) + [r] else old(records)
    {
      if stored {
        records := records + [r];
      }
      ok := stored;
    }
  }

  class JournalApprovals {
    var granted: set<string>
    var staged: seq<string>
    var calls: set<string>
    const journal: Journal

    ghost function State(): Held
      reads this
    {
      Held(granted, staged, calls)
    }

    constructor (journal: Journal)
      ensures State() == NOTHING && this.journal == journal
    {
      this.journal := journal;
      granted, staged, calls := {}, [], {};
    }

    method Grant(tool: string)
      modifies this
      ensures State() == AfterGrant(old(State()), tool)
      ensures granted == old(granted) + {tool} && calls == old(calls)
      ensures staged == if tool in old(granted) then old(staged) else old(staged) + [tool]
    {
      if tool in granted {
        return;
      }
      granted := granted + {tool};
      staged := staged + [tool];
    }

    /**
      Journals the grants taken since the last flush, in the order they were given. An
      append that fails ends it, with what is staged left as it was.
     */
    method Flush(stored: seq<bool>) returns (ok: bool)
      requires |stored| == |staged|
      modifies this, journal
      ensures granted == old(granted) && calls == old(calls)
      ensures ok <==> false !in stored
      ensures ok ==> staged == [] && journal.records == old(journal.records) + AsDecisions(old(staged))
      ensures !ok ==>
                && staged == old(staged)
                && exists n :: 0 <= n < |stored| && !stored[n] &&
                     journal.records == old(journal.records) + AsDecisions(staged[..n])
    {
      for i := 0 to |staged|
        invariant staged == old(staged) && granted == old(granted) && calls == old(calls)
        invariant forall k :: 0 <= k < i ==> stored[k]
        invariant journal.records == old(journal.records) + AsDecisions(staged[..i])
      {
        var done := journal.Append(Decision(staged[i]), stored[i]);
        if !done {
          return false;
        }
        assert AsDecisions(staged[..i + 1]) == AsDecisions(staged[..i]) + [Decision(staged[i])];
      }
      assert staged[..|staged|] == staged;
      staged := [];
      return true;
    }

    method TakeCall(id: string) returns (taken: bool)
      modifies this
      ensures taken <==> id in old(calls)
      ensures State() == AfterTake(old(State()), id)
      ensures calls == old(calls) - {id} && granted == old(granted) && staged == old(staged)
    {
      if id !in calls {
        return false;
      }
      calls := calls - {id};
      return true;
    }

    method Seed(tools: seq<string>, ids: set<string>)
      modifies this
      ensures State() == Held(old(granted) + Elements(tools), old(staged), old(calls) + ids)
    {
      for i := 0 to |tools|
        invariant granted == old(granted) + Elements(tools[..i]) && staged == old(staged) && calls == old(calls)
      {
        assert tools[..i + 1] == tools[..i] + [tools[i]];
        granted := granted + {tools[i]};
      }
      assert tools[..|tools|] == tools;
      calls := calls + ids;
    }

    method Clear()
      modifies this
      ensures State() == NOTHING
      ensures granted == {} && staged == [] && calls == {}
    {
      granted, staged, calls := {}, [], {};
    }
  }

  // ----- the gate

  /** What putting the question came to. */
  datatype Prompt = Always | Once | Declined | Aborted | Put | Failed

  datatype Verdict = Allowed | NoOperator | Refused | Ended | Pending

  /** The gate's decision on one call, over the approvals it holds. */
  method Approve(a: JournalApprovals, canPrompt: bool, contextLive: bool, id: string, tool: string, answer: Prompt)
    returns (v: Verdict, asked: bool)
    modifies a
    ensures v.Allowed? ==> canPrompt && contextLive
    ensures v.Allowed? <==> canPrompt && contextLive &&
                            (tool in old(a.granted) || id in old(a.calls) || answer.Always? || answer.Once?)
    ensures !v.Allowed? ==> a.State() == old(a.State())
    ensures asked <==> canPrompt && contextLive && tool !in old(a.granted) && id !in old(a.calls)
    ensures v.Allowed? && tool in old(a.granted) ==> a.State() == old(a.State())
    ensures v.Allowed? && tool !in old(a.granted) && id in old(a.calls) ==> a.State() == AfterTake(old(a.State()), id)
    ensures v.Allowed? && asked ==>
              a.State() == if answer.Always? then AfterGrant(old(a.State()), tool) else old(a.State())
    ensures v.NoOperator? <==> !canPrompt
    ensures canPrompt && !contextLive ==> v.Ended?
    ensures asked ==> (v.Ended? <==> answer.Aborted?) && (v.Pending? <==> answer.Put?)
  {
    asked := false;
    if !canPrompt {
      return NoOperator, asked;
    }
    if !contextLive {
      return Ended, asked;
    }
    if tool in a.granted {
      return Allowed, asked;
    }
    var taken := a.TakeCall(id);
    if taken {
      return Allowed, asked;
    }
    assert a.calls == old(a.calls);
    asked := true;
    match answer {
      case Aborted => return Ended, asked;
      case Put => return Pending, asked;
      case Failed => return Refused, asked;
      case Always =>
        a.Grant(tool);
        return Allowed, asked;
      case Once => return Allowed, asked;
      case Declined => return Refused, asked;
    }
  }

  // ----- a conversation, process after process

  /**
    One process over its conversation's journal. seeded is what it restored, base where the
    journal then ended, dropped whether it left the approvals out, and spent the one-shot
    ids it has let through; broken is a flush that failed, which ends the process. The rest
    is the history of the conversation: what its processes let through by one-shot ids, the
    ids a resume restored after that, and whether the journal was given a grant it held.
   */
  datatype Run = Run(
    held: Held, records: seq<Record>, seeded: Held, base: nat, dropped: bool, spent: seq<string>, broken: bool,
    dispatched: multiset<string>, revived: multiset<string>, regranted: bool)

  const FIRST := Run(NOTHING, [], NOTHING, 0, false, [], false, multiset{}, multiset{}, false)

  datatype Op =
    | Grant(tool: string)
    | Take(id: string)
    | Flush(stored: nat)      // how many appends succeed before one fails, if one does
    | Journal(record: Record) // a result, a terminal record, an answer supplied while suspended
    | Clear                   // a fresh conversation, with a fresh journal
    | Resume(drop: bool)      // whatever was in memory is gone; drop when the tool set moved

  /** The grants this process has journaled. */
  function Flushed(r: Run): seq<string>
    requires r.base <= |r.records|
  {
    Decisions(r.records[r.base..])
  }

  /** The grants that were journaled when this process began. */
  function Inherited(r: Run): seq<string>
    requires r.base <= |r.records|
  {
    Decisions(r.records[..r.base])
  }

  /** Whether a process that left the approvals out is about to journal one the journal already held. */
  predicate Regrants(r: Run, tools: seq<string>)
    requires r.base <= |r.records|
  {
    r.dropped && exists t :: t in tools && t in Inherited(r)
  }

  /** What a flush writes before the write that fails, if one does. */
  function Written(r: Run, stored: nat): (tools: seq<string>)
    ensures tools <= r.held.staged && (|tools| == stored || |tools| == |r.held.staged| < stored)
  {
    if stored >= |r.held.staged| then r.held.staged else r.held.staged[..stored]
  }

  function Do(r: Run, op: Op): Option<Run>
    requires r.base <= |r.records|
  {
    match op
    case Grant(tool) => if r.broken then None else Some(r.(held := AfterGrant(r.held, tool)))
    case Take(id) =>
      if r.broken then None
      else if id !in r.held.calls then Some(r)
      else Some(r.(held := AfterTake(r.held, id), spent := r.spent + [id], dispatched := r.dispatched + multiset{id}))
    case Flush(stored) =>
      if r.broken then None
      else
        var tools := Written(r, stored);
        var s := r.(records := r.records + AsDecisions(tools), regranted := r.regranted || Regrants(r, tools));
        if stored >= |r.held.staged| then Some(s.(held := r.held.(staged := []))) else Some(s.(broken := true))
    case Journal(record) => if record.Decision? then None else Some(r.(records := r.records + [record]))
    case Clear => if r.broken then None else Some(FIRST)
    case Resume(drop) =>
      var restored := if drop then NOTHING else Held(Elements(Decisions(r.records)), [], LiveCalls(r.records));
      Some(Run(restored, r.records, restored, |r.records|, drop, [], false, r.dispatched,
               r.revived + multiset(set id | id in restored.calls && id in r.dispatched), r.regranted))
  }

  function DoAll(ops: seq<Op>): (r: Option<Run>)
    ensures r.Some? ==> r.value.base <= |r.value.records|
  {
    if ops == [] then Some(FIRST)
    else
      var before := DoAll(ops[..|ops| - 1]);
      if before.None? then None else Do(before.value, ops[|ops| - 1])
  }

  // ----- standing grants

  lemma DecisionsOfOneMore(records: seq<Record>, r: Record)
    ensures Decisions(records + [r]) == Decisions(records) + if r.Decision? then [r.tool] else []
    ensures Decisions([]) == []
  {
    assert (records + [r])[..|records|] == records;
  }

  lemma {:induction false} DecisionsOfJoin(a: seq<Record>, b: seq<Record>)
    ensures Decisions(a + b) == Decisions(a) + Decisions(b)
  {
    hide Decisions;
    DecisionsOfOneMore([], Other);
    if b == [] {
      assert a + b == a;
    } else {
      var front, last := b[..|b| - 1], b[|b| - 1];
      DecisionsOfJoin(a, front);
      DecisionsOfOneMore(a + front, last);
      DecisionsOfOneMore(front, last);
      assert a + b == (a + front) + [last] && b == front + [last];
    }
  }

  lemma {:induction false} DecisionsOfTools(tools: seq<string>)
    ensures Decisions(AsDecisions(tools)) == tools
  {
    hide Decisions;
    DecisionsOfOneMore([], Other);
    if tools == [] {
      assert AsDecisions(tools) == [];
    } else {
      var front, last := tools[..|tools| - 1], tools[|tools| - 1];
      DecisionsOfTools(front);
      DecisionsOfOneMore(AsDecisions(front), Decision(last));
      assert AsDecisions(tools) == AsDecisions(front) + [Decision(last)] && front + [last] == tools;
    }
  }

  lemma ElementsOfMore(a: seq<string>, b: seq<string>)
    ensures Elements(a + b) == Elements(a) + Elements(b)
  {
  }

  lemma DistinctParts(a: seq<string>, b: seq<string>)
    ensures Distinct(a + b) <==> Distinct(a) && Distinct(b) && Elements(a) !! Elements(b)
  {
    if Distinct(a + b) {
      assert forall i :: 0 <= i < |a| ==> (a + b)[i] == a[i];
      assert forall i :: 0 <= i < |b| ==> (a + b)[|a| + i] == b[i];
      forall t | t in Elements(a) ensures t !in Elements(b) {
        var i :| 0 <= i < |a| && a[i] == t;
        assert forall j :: 0 <= j < |b| ==> b[j] == (a + b)[|a| + j] != (a + b)[i];
      }
    } else if Distinct(a) && Distinct(b) {
      var i, j :| 0 <= i < j < |a + b| && (a + b)[i] == (a + b)[j];
      assert i < |a| <= j;
      assert a[i] in Elements(a) && b[j - |a|] in Elements(b);
    }
  }

  /** The journal is what was inherited and what this process flushed. */
  lemma JournalSplits(r: Run)
    requires r.base <= |r.records|
    ensures Decisions(r.records) == Inherited(r) + Flushed(r)
    ensures Elements(Decisions(r.records)) == Elements(Inherited(r)) + Elements(Flushed(r))
  {
    assert r.records == r.records[..r.base] + r.records[r.base..];
    DecisionsOfJoin(r.records[..r.base], r.records[r.base..]);
    ElementsOfMore(Inherited(r), Flushed(r));
  }

  /** What every process keeps of its grants, whatever it resumed on. */
  predicate GrantsInv(r: Run) {
    && r.base <= |r.records|
    && r.held.granted == r.seeded.granted + Elements(Flushed(r)) + Elements(r.held.staged)
    && Distinct(Flushed(r)) && Distinct(r.held.staged)
    && (!r.broken ==> Elements(Flushed(r)) !! Elements(r.held.staged))
    && r.seeded.granted !! Elements(Flushed(r)) && r.seeded.granted !! Elements(r.held.staged)
    && r.seeded.granted == (if r.dropped then {} else Elements(Inherited(r)))
    && (r.regranted <==> !Distinct(Decisions(r.records)))
  }

  lemma JournalMore(r: Run, more: seq<Record>)
    requires r.base <= |r.records|
    ensures var s := r.(records := r.records + more);
            && Flushed(s) == Flushed(r) + Decisions(more) && Inherited(s) == Inherited(r)
            && Decisions(s.records) == Decisions(r.records) + Decisions(more)
  {
    var s := r.(records := r.records + more);
    assert s.records[..r.base] == r.records[..r.base];
    assert s.records[r.base..] == r.records[r.base..] + more;
    DecisionsOfJoin(r.records[r.base..], more);
    DecisionsOfJoin(r.records, more);
  }

  /** A flush gives the journal a grant twice exactly when it regrants one left out at the resume. */
  lemma FlushTwice(r: Run, tools: seq<string>)
    requires GrantsInv(r) && !r.broken && Distinct(tools) && Elements(tools) <= Elements(r.held.staged)
    ensures Distinct(Decisions(r.records) + tools) <==> Distinct(Decisions(r.records)) && !Regrants(r, tools)
  {
    hide Decisions, Flushed, Inherited, Distinct;
    DistinctParts(Decisions(r.records), tools);
    JournalSplits(r);
    if Regrants(r, tools) {
      var t :| t in tools && t in Inherited(r);
      assert t in Elements(tools) && t in Elements(Inherited(r));
    } else if r.dropped {
      forall t | t in Elements(tools) ensures t !in Elements(Inherited(r)) {
        assert t in tools;
      }
    }
  }

  lemma PartOfStage(staged: seq<string>, n: nat)
    requires Distinct(staged) && n <= |staged|
    ensures Distinct(staged[..n]) && Elements(staged[..n]) <= Elements(staged)
  {
  }

  lemma FlushKeepsGrants(r: Run, stored: nat)
    requires GrantsInv(r) && !r.broken
    ensures GrantsInv(Do(r, Flush(stored)).value)
  {
    hide Decisions, Flushed, Inherited, Distinct, Regrants;
    var tools := Written(r, stored);
    PartOfStage(r.held.staged, |tools|);
    assert r.held.staged[..|r.held.staged|] == r.held.staged;
    DecisionsOfTools(tools);
    JournalMore(r, AsDecisions(tools));
    ElementsOfMore(Flushed(r), tools);
    DistinctParts(Flushed(r), tools);
    FlushTwice(r, tools);
    var s := Do(r, Flush(stored)).value;
    SameJournal(r.(records := r.records + AsDecisions(tools)), s);
    NoElements();
  }

  lemma NoElements()
    ensures Elements<string>([]) == {} && Distinct<string>([])
  {
  }

  lemma SameJournal(r: Run, s: Run)
    requires r.base == s.base <= |r.records| && r.records == s.records
    ensures Flushed(r) == Flushed(s) && Inherited(r) == Inherited(s)
  {
  }

  lemma GrantKeepsGrants(r: Run, tool: string)
    requires GrantsInv(r) && !r.broken
    ensures GrantsInv(Do(r, Grant(tool)).value)
  {
    hide Decisions, Inherited;
    SameJournal(r, Do(r, Grant(tool)).value);
    hide Flushed;
    if tool !in r.held.granted {
      ElementsOfMore(r.held.staged, [tool]);
      assert Elements([tool]) == {tool};
      DistinctParts(r.held.staged, [tool]);
    }
  }

  lemma ResumeKeepsGrants(r: Run, drop: bool)
    requires GrantsInv(r)
    ensures GrantsInv(Do(r, Resume(drop)).value)
  {
    hide Decisions;
    var s := Do(r, Resume(drop)).value;
    assert s.records[s.base..] == [] && s.records[..s.base] == r.records;
    DecisionsOfOneMore([], Other);
    NoElements();
  }

  lemma DoKeepsGrants(r: Run, op: Op)
    requires GrantsInv(r) && Do(r, op).Some?
    ensures GrantsInv(Do(r, op).value)
  {
    hide Decisions, Regrants;
    match op {
      case Grant(tool) => GrantKeepsGrants(r, tool);
      case Take(_) => SameJournal(r, Do(r, op).value);
      case Flush(stored) => FlushKeepsGrants(r, stored);
      case Journal(record) =>
        JournalMore(r, [record]);
        DecisionsOfOneMore([], record);
        assert [] + [record] == [record];
        assert Flushed(r) + [] == Flushed(r) && Decisions(r.records) + [] == Decisions(r.records);
      case Clear => ClearKeepsGrants();
      case Resume(drop) => ResumeKeepsGrants(r, drop);
    }
  }

  lemma ClearKeepsGrants()
    ensures GrantsInv(FIRST)
  {
    assert FIRST.records[0..] == [] && FIRST.records[..0] == [];
  }

  lemma {:induction false} GrantsInvOf(ops: seq<Op>)
    requires DoAll(ops).Some?
    ensures GrantsInv(DoAll(ops).value)
  {
    hide GrantsInv, Do;
    if ops == [] {
      ClearKeepsGrants();
    } else {
      GrantsInvOf(ops[..|ops| - 1]);
      DoKeepsGrants(DoAll(ops[..|ops| - 1]).value, ops[|ops| - 1]);
    }
  }

  /**
    Over every sequence of grants, takes, flushes, clears, crashes and resumes, those that
    leave the approvals out included: what is granted is what the process restored, what it
    has journaled since and what is staged, three things that share nothing and hold each
    grant once; a flush that broke has only left what it wrote on the stage.
   */
  lemma GrantedIsSeededPlusJournaledPlusStaged(ops: seq<Op>)
    requires DoAll(ops).Some?
    ensures var r := DoAll(ops).value;
            && r.held.granted == r.seeded.granted + Elements(Flushed(r)) + Elements(r.held.staged)
            && Distinct(Flushed(r)) && Distinct(r.held.staged)
            && r.seeded.granted !! Elements(Flushed(r)) && r.seeded.granted !! Elements(r.held.staged)
            && (!r.broken ==> Distinct(Flushed(r) + r.held.staged))
  {
    hide DoAll, Flushed;
    GrantsInvOf(ops);
    DistinctParts(Flushed(DoAll(ops).value), DoAll(ops).value.held.staged);
  }

  /** The k-th operation flushes a grant its process had left out, into the journal that is still the conversation's. */
  predicate RegrantsAt(ops: seq<Op>, k: nat)
    requires k < |ops|
  {
    && ops[k].Flush? && DoAll(ops[..k]).Some?
    && Regrants(DoAll(ops[..k]).value, Written(DoAll(ops[..k]).value, ops[k].stored))
    && forall j :: k < j < |ops| ==> !ops[j].Clear?
  }

  lemma RegrantsAtPrefix(ops: seq<Op>, k: nat)
    requires k < |ops| - 1
    ensures RegrantsAt(ops, k) <==> RegrantsAt(ops[..|ops| - 1], k) && !ops[|ops| - 1].Clear?
  {
    hide DoAll, Regrants, Written;
    var before := ops[..|ops| - 1];
    assert before[..k] == ops[..k] && before[k] == ops[k];
    assert forall j :: k < j < |before| ==> before[j] == ops[j];
  }

  lemma DoRegrants(r: Run, op: Op)
    requires r.base <= |r.records| && Do(r, op).Some?
    ensures Do(r, op).value.regranted <==>
            !op.Clear? && (r.regranted || (op.Flush? && Regrants(r, Written(r, op.stored))))
  {
    hide Regrants, Written, Decisions, LiveCalls;
  }

  lemma LastDone(ops: seq<Op>)
    requires ops != [] && DoAll(ops).Some?
    ensures DoAll(ops[..|ops| - 1]).Some? && Do(DoAll(ops[..|ops| - 1]).value, ops[|ops| - 1]) == DoAll(ops)
  {
    hide Do;
  }

  lemma {:induction false} RegrantedOverTheRun(ops: seq<Op>)
    requires DoAll(ops).Some?
    ensures DoAll(ops).value.regranted <==> exists k :: 0 <= k < |ops| && RegrantsAt(ops, k)
  {
    hide DoAll, Do, RegrantsAt;
    if ops == [] {
      NothingDone();
    } else {
      var n := |ops| - 1;
      var before, op := ops[..n], ops[n];
      LastDone(ops);
      RegrantedOverTheRun(before);
      DoRegrants(DoAll(before).value, op);
      assert RegrantsAt(ops, n) <==> op.Flush? && Regrants(DoAll(before).value, Written(DoAll(before).value, op.stored))
        by { RegrantsAtLast(ops); }
      forall k | 0 <= k < n ensures RegrantsAt(ops, k) <==> RegrantsAt(before, k) && !op.Clear? {
        RegrantsAtPrefix(ops, k);
      }
    }
  }

  lemma RegrantsAtLast(ops: seq<Op>)
    requires ops != [] && DoAll(ops[..|ops| - 1]).Some?
    ensures var n := |ops| - 1; var r := DoAll(ops[..n]).value;
            RegrantsAt(ops, n) <==> ops[n].Flush? && Regrants(r, Written(r, ops[n].stored))
  {
    hide DoAll, Regrants, Written;
  }

  /**
    The journal holds a grant twice exactly when some process that left the approvals out at
    its resume went on to flush a grant the journal already held. A flush does that exactly
    when the process left them out and a tool it writes is among those it inherited.
   */
  lemma JournalHoldsAGrantTwice(ops: seq<Op>, stored: nat)
    requires DoAll(ops).Some?
    ensures var r := DoAll(ops).value;
            && (!Distinct(Decisions(r.records)) <==> exists k :: 0 <= k < |ops| && RegrantsAt(ops, k))
            && (!r.broken ==>
                  (Distinct(Decisions(Do(r, Flush(stored)).value.records)) <==>
                   Distinct(Decisions(r.records)) && !Regrants(r, Written(r, stored))))
  {
    hide DoAll, Decisions, Regrants, RegrantsAt;
    GrantsInvOf(ops);
    RegrantedOverTheRun(ops);
    var r := DoAll(ops).value;
    if !r.broken {
      FlushKeepsGrants(r, stored);
    }
  }

  /**
    A resume that leaves nothing out takes back the grants this process had staged and not
    journaled, and no other unless they were inherited; and it restores one the process did
    not hold exactly when the process had left the approvals out and an inherited grant was
    neither flushed nor staged by it again.
   */
  lemma ResumeRestoresTheFlushed(ops: seq<Op>)
    requires DoAll(ops).Some?
    ensures var r := DoAll(ops).value; var s := Do(r, Resume(false)).value;
            && s.held.granted == Elements(Inherited(r)) + Elements(Flushed(r))
            && r.held.granted - s.held.granted ==
               (Elements(r.held.staged) - Elements(Flushed(r))) - (if r.dropped then Elements(Inherited(r)) else {})
            && (!r.broken && !r.dropped ==> s.held.granted == r.held.granted - Elements(r.held.staged))
            && (!(s.held.granted <= r.held.granted) <==>
                r.dropped && exists t :: t in Inherited(r) && t !in Flushed(r) && t !in r.held.staged)
            && s.held.staged == []
            && (forall id :: id in s.held.calls <==> ApprovedSinceTerminal(r.records, id))
  {
    hide DoAll, Flushed, Inherited, Decisions, LiveCalls, Distinct;
    GrantsInvOf(ops);
    var r := DoAll(ops).value;
    JournalSplits(r);
    var s := Do(r, Resume(false)).value;
    if t :| t in s.held.granted && t !in r.held.granted {
      assert t in Elements(Inherited(r)) + Elements(Flushed(r));
      assert t in Inherited(r) && t !in Flushed(r) && t !in r.held.staged;
    }
    if r.dropped {
      forall t | t in Inherited(r) && t !in Flushed(r) && t !in r.held.staged ensures t in s.held.granted - r.held.granted {
        assert t in Elements(Inherited(r));
      }
    }
    forall id ensures id in LiveCalls(r.records) <==> ApprovedSinceTerminal(r.records, id) {
      LiveCallsAre(r.records, id);
    }
  }

  /** Both can happen: a grant left out at a resume comes back, or is journaled again. */
  lemma LeftOutGrants(a: string)
    ensures var ops := [Grant(a), Flush(1), Resume(true)];
            var back, again := ops + [Resume(false)], ops + [Grant(a), Flush(1)];
            && DoAll(ops).Some? && a !in DoAll(ops).value.held.granted
            && DoAll(back).Some? && a in DoAll(back).value.held.granted
            && DoAll(again).Some? && Decisions(DoAll(again).value.records) == [a, a]
  {
    hide DoAll, Decisions, Regrants;
    var one, two, ops := [Grant(a)], [Grant(a), Flush(1)], [Grant(a), Flush(1), Resume(true)];
    assert [] + one == one && one + [Flush(1)] == two && two + [Resume(true)] == ops;
    NothingDone();
    Next([], Grant(a));
    assert DoAll(one).value.held.staged == [a];
    Next(one, Flush(1));
    assert [] + AsDecisions([a]) == AsDecisions([a]);
    assert DoAll(two).value.records == AsDecisions([a]);
    Next(two, Resume(true));
    DecisionsOfTools([a]);
    Next(ops, Resume(false));
    Next(ops, Grant(a));
    Next(ops + [Grant(a)], Flush(1));
    assert ops + [Grant(a)] + [Flush(1)] == ops + [Grant(a), Flush(1)];
    assert DoAll(ops + [Grant(a)]).value.held.staged == [a];
    DecisionsOfJoin(AsDecisions([a]), AsDecisions([a]));
  }

  lemma Next(ops: seq<Op>, op: Op)
    requires DoAll(ops).Some?
    ensures DoAll(ops + [op]) == Do(DoAll(ops).value, op)
  {
    hide Do;
    assert (ops + [op])[..|ops|] == ops;
  }

  lemma NothingDone()
    ensures DoAll([]) == Some(FIRST)
  {
  }

  // ----- one-shot approvals

  /** A one-shot approval of this id stands in the journal with no terminal record behind it. */
  predicate ApprovedSinceTerminal(records: seq<Record>, id: string) {
    exists k :: 0 <= k < |records| && records[k] == CallApproval(id) && NoTerminalFrom(records, k)
  }

  predicate NoTerminalFrom(records: seq<Record>, k: nat) {
    forall j :: k <= j < |records| ==> !records[j].Terminal?
  }

  lemma {:induction false} LiveCallsAre(records: seq<Record>, id: string)
    ensures id in LiveCalls(records) <==> ApprovedSinceTerminal(records, id)
  {
    if records != [] {
      var n := |records| - 1;
      var before := records[..n];
      LiveCallsAre(before, id);
      if ApprovedSinceTerminal(before, id) && !records[n].Terminal? {
        var k :| 0 <= k < |before| && before[k] == CallApproval(id) && NoTerminalFrom(before, k);
        assert records[k] == CallApproval(id) && NoTerminalFrom(records, k);
      }
      if records[n] == CallApproval(id) {
        assert NoTerminalFrom(records, n);
      }
      if ApprovedSinceTerminal(records, id) {
        var k :| 0 <= k < |records| && records[k] == CallApproval(id) && NoTerminalFrom(records, k);
        if k < n {
          assert before[k] == CallApproval(id) && NoTerminalFrom(before, k);
        }
      }
    }
  }

  /** A one-shot id is still to be spent by this process or was spent by it once; over all of them, once and once more for each time it was restored after that. */
  ghost predicate CallsInv(r: Run) {
    && r.base <= |r.records| && Distinct(r.spent)
    && (forall id :: id in r.spent ==> id !in r.held.calls && id in r.seeded.calls && id in r.dispatched)
    && r.held.calls <= r.seeded.calls
    && forall id :: r.dispatched[id] + (if id in r.held.calls then 1 else 0) <= 1 + r.revived[id]
  }

  lemma DoKeepsCalls(r: Run, op: Op)
    requires r.base <= |r.records| && CallsInv(r) && Do(r, op).Some?
    ensures CallsInv(Do(r, op).value)
  {
    hide Regrants, Flushed, Inherited, Decisions, LiveCalls, CallsInv;
    match op {
      case Take(id) => TakeKeepsCalls(r, id);
      case Resume(drop) => ResumeKeepsCalls(r, drop);
      case Clear => NothingSpent();
      case _ => CallsInvCarries(r, Do(r, op).value);
    }
  }

  lemma CallsInvCarries(r: Run, s: Run)
    requires CallsInv(r) && s.base == r.base && |r.records| <= |s.records| && s.spent == r.spent
    requires s.held.calls == r.held.calls && s.seeded == r.seeded
    requires s.dispatched == r.dispatched && s.revived == r.revived
    ensures CallsInv(s)
  {
  }

  lemma TakeKeepsCalls(r: Run, id: string)
    requires CallsInv(r) && !r.broken
    ensures CallsInv(Do(r, Take(id)).value)
  {
  }

  lemma ResumeKeepsCalls(r: Run, drop: bool)
    requires CallsInv(r)
    ensures CallsInv(Do(r, Resume(drop)).value)
  {
    hide LiveCalls, Decisions;
    var s := Do(r, Resume(drop)).value;
    var again := set id | id in s.held.calls && id in r.dispatched;
    forall id ensures s.dispatched[id] + (if id in s.held.calls then 1 else 0) <= 1 + s.revived[id] {
      assert multiset(again)[id] == if id in again then 1 else 0;
    }
  }

  lemma {:induction false} CallsInvOf(ops: seq<Op>)
    requires DoAll(ops).Some?
    ensures CallsInv(DoAll(ops).value)
  {
    hide CallsInv, Do;
    if ops == [] {
      NothingSpent();
    } else {
      CallsInvOf(ops[..|ops| - 1]);
      DoKeepsCalls(DoAll(ops[..|ops| - 1]).value, ops[|ops| - 1]);
    }
  }

  lemma NothingSpent()
    ensures CallsInv(FIRST)
  {
  }

  /** Within one process a one-shot id is let through at most once, and only one it restored. */
  lemma OneShotIsSpentOnce(ops: seq<Op>, id: string)
    requires DoAll(ops).Some?
    ensures var r := DoAll(ops).value;
            && multiset(r.spent)[id] <= 1
            && (id in r.spent ==> id in r.seeded.calls && id !in r.held.calls)
  {
    hide DoAll;
    CallsInvOf(ops);
    OnceInDistinct(DoAll(ops).value.spent, id);
  }

  /**
    Across processes: in any run, an id that was let through is let through again by the
    next process exactly when no terminal record stands behind its approval.
   */
  lemma SpentAgainUnlessTerminal(ops: seq<Op>, id: string)
    requires DoAll(ops).Some? && id in DoAll(ops).value.dispatched
    ensures var r := DoAll(ops).value; var s := DoAll(ops + [Resume(false)] + [Take(id)]);
            && s.Some?
            && s.value.dispatched[id] == r.dispatched[id] + (if ApprovedSinceTerminal(r.records, id) then 1 else 0)
            && (ApprovedSinceTerminal(r.records, id) <==> id in DoAll(ops + [Resume(false)]).value.held.calls)
  {
    hide DoAll;
    Next(ops, Resume(false));
    Next(ops + [Resume(false)], Take(id));
    LiveCallsAre(DoAll(ops).value.records, id);
  }

  /** No resume finds an id that was let through with its approval still standing. */
  predicate TerminalBetween(ops: seq<Op>, id: string) {
    forall k :: 0 <= k < |ops| && ops[k] == Resume(false) && DoAll(ops[..k]).Some? ==>
                  id in DoAll(ops[..k]).value.dispatched ==> !ApprovedSinceTerminal(DoAll(ops[..k]).value.records, id)
  }

  lemma {:induction false} NotRevived(ops: seq<Op>, id: string)
    requires DoAll(ops).Some? && TerminalBetween(ops, id)
    ensures DoAll(ops).value.revived[id] == 0
  {
    hide ApprovedSinceTerminal, LiveCalls, Regrants;
    if ops != [] {
      var n := |ops| - 1;
      assert forall k :: 0 <= k < n ==> ops[..n][..k] == ops[..k] && ops[..n][k] == ops[k];
      NotRevived(ops[..n], id);
      var r := DoAll(ops[..n]).value;
      LiveCallsAre(r.records, id);
      if ops[n] == Resume(false) {
        var again := set i | i in LiveCalls(r.records) && i in r.dispatched;
        assert id !in again && multiset(again)[id] == 0;
      }
    }
  }

  /**
    Over the whole chain of processes an id is let through at most once, and once more for
    each resume that restored it after that; where a terminal record was journaled between
    its being let through and every resume, at most once.
   */
  lemma OneShotOverTheChain(ops: seq<Op>, id: string)
    requires DoAll(ops).Some?
    ensures var r := DoAll(ops).value;
            && r.dispatched[id] <= 1 + r.revived[id]
            && (TerminalBetween(ops, id) ==> r.dispatched[id] <= 1)
  {
    hide DoAll, TerminalBetween;
    CallsInvOf(ops);
    if TerminalBetween(ops, id) {
      NotRevived(ops, id);
    }
  }

  /** A crash between the dispatch and the terminal record is such a case. */
  lemma CrashRestoresOneShot(id: string)
    ensures var ops := [Journal(CallApproval(id)), Resume(false), Take(id)];
            && DoAll(ops).Some? && id in DoAll(ops).value.dispatched
            && ApprovedSinceTerminal(DoAll(ops).value.records, id)
            && DoAll(ops + [Resume(false)] + [Take(id)]).Some?
            && DoAll(ops + [Resume(false)] + [Take(id)]).value.dispatched[id] == 2
  {
    hide DoAll, Regrants, Decisions;
    NothingDone();
    var a, b, ops := [Journal(CallApproval(id))], [Journal(CallApproval(id)), Resume(false)],
                     [Journal(CallApproval(id)), Resume(false), Take(id)];
    assert [] + a == a && a + [Resume(false)] == b && b + [Take(id)] == ops;
    Next([], Journal(CallApproval(id)));
    Next(a, Resume(false));
    Next(b, Take(id));
    var records := DoAll(a).value.records;
    assert records == [CallApproval(id)] && records[0] == CallApproval(id) && NoTerminalFrom(records, 0);
    LiveCallsAre(records, id);
    SpentAgainUnlessTerminal(ops, id);
  }

  lemma {:induction false} OnceInDistinct(s: seq<string>, x: string)
    requires Distinct(s)
    ensures multiset(s)[x] <= 1
  {
    if s != [] {
      var front := s[..|s| - 1];
      OnceInDistinct(front, x);
      assert s == front + [s[|s| - 1]];
    }
  }
}
