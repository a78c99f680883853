/**
  What a session costs: the counters a run keeps while it works, the counters a resume
  restores from the journal, and what each process of the session reports as its own use.
 */
module Usage {
  import opened Wrappers
  import opened Toolkit

  /** What is counted and journaled: one model reply, or one answered tool call. */
  datatype Work =
    | Reply(uncached: nat, written: nat, cacheRead: nat, cacheCreate: nat, thinking: nat)
    | ToolResult(kind: Kind, dispatched: bool)

  datatype Counters = Counters(
    llmCalls: nat, toolCalls: nat, remoteCalls: nat, mcpCalls: nat, buckets: map<Kind, nat>,
    inTokens: nat, outTokens: nat, cacheReadTokens: nat, cacheCreateTokens: nat, thinkingTokens: nat)

  const Zero := Counters(0, 0, 0, 0, map[], 0, 0, 0, 0, 0)

  function Bucket(c: Counters, k: Kind): nat {
    if k in c.buckets then c.buckets[k] else 0
  }

  function Count(c: Counters, w: Work): Counters {
    match w
    case Reply(uncached, written, cacheRead, cacheCreate, thinking) =>
      c.(llmCalls := c.llmCalls + 1, inTokens := c.inTokens + uncached, outTokens := c.outTokens + written,
         cacheReadTokens := c.cacheReadTokens + cacheRead, cacheCreateTokens := c.cacheCreateTokens + cacheCreate,
         thinkingTokens := c.thinkingTokens + thinking)
    case ToolResult(kind, dispatched) =>
      c.(toolCalls := c.toolCalls + 1, buckets := c.buckets[kind := Bucket(c, kind) + 1],
         remoteCalls := c.remoteCalls + if dispatched && kind.Remote? then 1 else 0,
         mcpCalls := c.mcpCalls + if dispatched && kind.MCP? then 1 else 0)
  }

  /** The counters after some work, from the counters before it. */
  function Counted(c: Counters, work: seq<Work>): Counters {
    if work == [] then c else Count(Counted(c, work[..|work| - 1]), work[|work| - 1])
  }

  // ----- the live counters and the fold

  class RunStats {
    var llmCalls: nat
    var toolCalls: nat
    var remoteCalls: nat
    var mcpCalls: nat
    var buckets: map<Kind, nat>
    var inTokens: nat
    var outTokens: nat
    var cacheReadTokens: nat
    var cacheCreateTokens: nat
    var thinkingTokens: nat

    function Totals(): Counters
      reads this
    {
      Counters(llmCalls, toolCalls, remoteCalls, mcpCalls, buckets,
               inTokens, outTokens, cacheReadTokens, cacheCreateTokens, thinkingTokens)
    }

    constructor ()
      ensures Totals() == Zero
    {
      llmCalls, toolCalls, remoteCalls, mcpCalls, buckets := 0, 0, 0, 0, map[];
      inTokens, outTokens, cacheReadTokens, cacheCreateTokens, thinkingTokens := 0, 0, 0, 0, 0;
    }

    /** A resume restores the journal's counters before anything runs. */
    method Restore(c: Counters)
      modifies this
      ensures Totals() == c
    {
      llmCalls, toolCalls, remoteCalls, mcpCalls := c.llmCalls, c.toolCalls, c.remoteCalls, c.mcpCalls;
      buckets := c.buckets;
      inTokens, outTokens, thinkingTokens := c.inTokens, c.outTokens, c.thinkingTokens;
      cacheReadTokens, cacheCreateTokens := c.cacheReadTokens, c.cacheCreateTokens;
    }

    method CountReply(r: Work)
      requires r.Reply?
      modifies this
      ensures Totals() == Count(old(Totals()), r)
    {
      llmCalls := llmCalls + 1;
      inTokens := inTokens + r.uncached;
      outTokens := outTokens + r.written;
      cacheReadTokens := cacheReadTokens + r.cacheRead;
      cacheCreateTokens := cacheCreateTokens + r.cacheCreate;
      thinkingTokens := thinkingTokens + r.thinking;
    }

    method CountToolResult(kind: Kind, dispatched: bool)
      modifies this
      ensures Totals() == Count(old(Totals()), ToolResult(kind, dispatched))
    {
      toolCalls := toolCalls + 1;
      buckets := buckets[kind := if kind in buckets then buckets[kind] + 1 else 1];
      if !dispatched {
        return;
      }
      match kind {
        case Remote => remoteCalls := remoteCalls + 1;
        case MCP => mcpCalls := mcpCalls + 1;
        case _ =>
      }
    }
  }

  /** The counters a resume folds out of the journal. */
  method Fold(journal: seq<Work>) returns (c: Counters)
    ensures c == Counted(Zero, journal)
  {
    c := Zero;
    for i := 0 to |journal|
      invariant c == Counted(Zero, journal[..i])
    {
      assert journal[..i + 1][..i] == journal[..i];
      match journal[i] {
        case Reply(uncached, written, cacheRead, cacheCreate, thinking) =>
          c := c.(llmCalls := c.llmCalls + 1,
                  inTokens := c.inTokens + uncached,
                  outTokens := c.outTokens + written,
                  cacheReadTokens := c.cacheReadTokens + cacheRead,
                  cacheCreateTokens := c.cacheCreateTokens + cacheCreate,
                  thinkingTokens := c.thinkingTokens + thinking);
        case ToolResult(kind, dispatched) =>
          c := c.(toolCalls := c.toolCalls + 1, buckets := c.buckets[kind := Bucket(c, kind) + 1]);
          if dispatched {
            match kind {
              case Remote => c := c.(remoteCalls := c.remoteCalls + 1);
              case MCP => c := c.(mcpCalls := c.mcpCalls + 1);
              case _ =>
            }
          }
      }
    }
    assert journal[..|journal|] == journal;
  }

  function Buckets(c: Counters): nat {
    Bucket(c, Unknown) + Bucket(c, Application) + Bucket(c, Builtin) +
    Bucket(c, Remote) + Bucket(c, MCP) + Bucket(c, Custom)
  }

  /** The buckets partition the tool calls, and a dispatch counter is part of its own bucket. */
  lemma {:induction false} BucketsPartition(work: seq<Work>)
    ensures Partitioned(Counted(Zero, work))
  {
    hide Partitioned, Count;
    if work == [] {
      ZeroIsPartitioned();
    } else {
      BucketsPartition(work[..|work| - 1]);
      CountKeepsPartition(Counted(Zero, work[..|work| - 1]), work[|work| - 1]);
    }
  }

  predicate Partitioned(c: Counters) {
    && Buckets(c) == c.toolCalls
    && c.remoteCalls <= Bucket(c, Remote) && c.mcpCalls <= Bucket(c, MCP)
  }

  lemma ZeroIsPartitioned()
    ensures Partitioned(Zero)
  {
  }

  lemma CountKeepsPartition(c: Counters, w: Work)
    requires Partitioned(c)
    ensures Partitioned(Count(c, w))
  {
    if w.ToolResult? {
      var d := Count(c, w);
      assert forall k: Kind :: Bucket(d, k) == if k == w.kind then Bucket(c, k) + 1 else Bucket(c, k);
      assert Buckets(d) == Buckets(c) + 1 by {
        match w.kind { case Unknown => case Application => case Builtin => case Remote => case MCP => case Custom => }
      }
    }
  }

  /** Where the calls of a kind stand in some work. */
  function CallsOf(work: seq<Work>, k: Kind): set<nat> {
    set i | 0 <= i < |work| && work[i].ToolResult? && work[i].kind == k
  }

  function DispatchesOf(work: seq<Work>, k: Kind): set<nat> {
    set i | 0 <= i < |work| && work[i].ToolResult? && work[i].kind == k && work[i].dispatched
  }

  lemma CallsOfMore(work: seq<Work>, k: Kind)
    requires work != []
    ensures var last := work[|work| - 1];
            |CallsOf(work, k)| == |CallsOf(work[..|work| - 1], k)| + (if last.ToolResult? && last.kind == k then 1 else 0)
  {
    var n := |work| - 1;
    var sofar, more := CallsOf(work[..n], k), CallsOf(work, k);
    assert n !in sofar;
    assert forall i :: 0 <= i < n ==> work[..n][i] == work[i];
    assert more == if work[n].ToolResult? && work[n].kind == k then sofar + {n} else sofar;
  }

  lemma DispatchesOfMore(work: seq<Work>, k: Kind)
    requires work != []
    ensures var last := work[|work| - 1];
            |DispatchesOf(work, k)| ==
            |DispatchesOf(work[..|work| - 1], k)| + (if last.ToolResult? && last.kind == k && last.dispatched then 1 else 0)
  {
    var n := |work| - 1;
    var sofar, more := DispatchesOf(work[..n], k), DispatchesOf(work, k);
    assert n !in sofar;
    assert forall i :: 0 <= i < n ==> work[..n][i] == work[i];
    assert more == if work[n].ToolResult? && work[n].kind == k && work[n].dispatched then sofar + {n} else sofar;
  }

  /** A call goes to the bucket of its own kind, and to that kind's counter when it was dispatched. */
  lemma {:induction false} BucketsHoldTheirKind(work: seq<Work>, k: Kind)
    ensures var c := Counted(Zero, work);
            && Bucket(c, k) == |CallsOf(work, k)|
            && c.remoteCalls == |DispatchesOf(work, Remote)| && c.mcpCalls == |DispatchesOf(work, MCP)|
  {
    hide CallsOf, DispatchesOf;
    if work == [] {
      NoCalls(k);
      NoCalls(Remote);
      NoCalls(MCP);
    } else {
      BucketsHoldTheirKind(work[..|work| - 1], k);
      CallsOfMore(work, k);
      DispatchesOfMore(work, Remote);
      DispatchesOfMore(work, MCP);
    }
  }

  lemma NoCalls(k: Kind)
    ensures CallsOf([], k) == {} == DispatchesOf([], k)
  {
  }

  // ----- the counts as sums

  /** Some part of each piece of work, added up. */
  function Total(work: seq<Work>, part: Work -> int): int {
    if work == [] then 0 else Total(work[..|work| - 1], part) + part(work[|work| - 1])
  }

  function UncachedOf(w: Work): int { if w.Reply? then w.uncached else 0 }
  function WrittenOf(w: Work): int { if w.Reply? then w.written else 0 }
  function ReadOf(w: Work): int { if w.Reply? then w.cacheRead else 0 }
  function CreatedOf(w: Work): int { if w.Reply? then w.cacheCreate else 0 }
  function ThoughtOf(w: Work): int { if w.Reply? then w.thinking else 0 }
  function IsReply(w: Work): int { if w.Reply? then 1 else 0 }
  function IsCall(w: Work): int { if w.ToolResult? then 1 else 0 }

  /** Each counter is the sum of its own part over the work. */
  lemma {:induction false} CountersAreSums(work: seq<Work>)
    ensures var c := Counted(Zero, work);
            && c.llmCalls == Total(work, IsReply) && c.toolCalls == Total(work, IsCall)
            && c.inTokens == Total(work, UncachedOf) && c.outTokens == Total(work, WrittenOf)
            && c.cacheReadTokens == Total(work, ReadOf) && c.cacheCreateTokens == Total(work, CreatedOf)
            && c.thinkingTokens == Total(work, ThoughtOf)
  {
    if work != [] {
      CountersAreSums(work[..|work| - 1]);
    }
  }

  // ----- what a process reports

  datatype TokenUsage = TokenUsage(
    input: int, output: int, cacheRead: int, cacheCreate: int, uncached: int, reasoning: int)

  /** What a resume restored; its input is the raw restored tier, and it has no uncached one. */
  datatype Seed = Seed(usage: TokenUsage, calls: int, remoteCalls: int, mcpCalls: int)

  datatype Outcome = Outcome(
    usage: TokenUsage, toolCalls: int, remoteCalls: int, mcpCalls: int,
    session: Option<TokenUsage>, sessionLlmCalls: int)

  function SeedOf(c: Counters): Seed {
    Seed(TokenUsage(c.inTokens, c.outTokens, c.cacheReadTokens, c.cacheCreateTokens, 0, c.thinkingTokens),
         c.toolCalls, c.remoteCalls, c.mcpCalls)
  }

  /** What the root span records: with a seed, this process's part and the session's beside it. */
  function RunOutcome(stats: Counters, seed: Option<Seed>): Outcome {
    var usage := TokenUsage(stats.inTokens + stats.cacheReadTokens + stats.cacheCreateTokens, stats.outTokens,
                            stats.cacheReadTokens, stats.cacheCreateTokens, stats.inTokens, stats.thinkingTokens);
    match seed
    case None => Outcome(usage, stats.toolCalls, stats.remoteCalls, stats.mcpCalls, None, 0)
    case Some(from) =>
      Outcome(
        TokenUsage(usage.input - (from.usage.input + from.usage.cacheRead + from.usage.cacheCreate),
                   usage.output - from.usage.output,
                   usage.cacheRead - from.usage.cacheRead,
                   usage.cacheCreate - from.usage.cacheCreate,
                   usage.uncached - from.usage.input,
                   usage.reasoning - from.usage.reasoning),
        stats.toolCalls - from.calls,
        stats.remoteCalls - from.remoteCalls,
        stats.mcpCalls - from.mcpCalls,
        Some(usage),
        stats.llmCalls)
  }

  /** The part of a report that is summed over a session's processes. */
  datatype Tally = Tally(usage: TokenUsage, toolCalls: int, remoteCalls: int, mcpCalls: int)

  const Nothing := Tally(TokenUsage(0, 0, 0, 0, 0, 0), 0, 0, 0)

  function Plus(a: Tally, b: Tally): Tally {
    Tally(TokenUsage(a.usage.input + b.usage.input, a.usage.output + b.usage.output,
                     a.usage.cacheRead + b.usage.cacheRead, a.usage.cacheCreate + b.usage.cacheCreate,
                     a.usage.uncached + b.usage.uncached, a.usage.reasoning + b.usage.reasoning),
          a.toolCalls + b.toolCalls, a.remoteCalls + b.remoteCalls, a.mcpCalls + b.mcpCalls)
  }

  function Reported(o: Outcome): Tally {
    Tally(o.usage, o.toolCalls, o.remoteCalls, o.mcpCalls)
  }

  /** What one piece of work costs, told from the work alone. */
  function Cost(w: Work): Tally {
    match w
    case Reply(uncached, written, cacheRead, cacheCreate, thinking) =>
      Tally(TokenUsage(uncached + cacheRead + cacheCreate, written, cacheRead, cacheCreate, uncached, thinking), 0, 0, 0)
    case ToolResult(kind, dispatched) =>
      Tally(TokenUsage(0, 0, 0, 0, 0, 0), 1,
            if dispatched && kind == Remote then 1 else 0, if dispatched && kind == MCP then 1 else 0)
  }

  function CostOf(work: seq<Work>): Tally {
    if work == [] then Nothing else Plus(CostOf(work[..|work| - 1]), Cost(work[|work| - 1]))
  }

  function CostOfMaybe(w: Option<Work>): Tally {
    if w.Some? then Cost(w.value) else Nothing
  }

  lemma PlusLaws(a: Tally, b: Tally, c: Tally)
    ensures Plus(a, Plus(b, c)) == Plus(Plus(a, b), c) && Plus(a, b) == Plus(b, a)
    ensures Plus(a, Nothing) == a == Plus(Nothing, a)
    ensures Plus(a, b) == a <==> b == Nothing
  {
  }

  lemma {:induction false} CostOfJoin(a: seq<Work>, b: seq<Work>)
    ensures CostOf(a + b) == Plus(CostOf(a), CostOf(b))
  {
    hide Plus, Cost;
    PlusLaws(CostOf(a), CostOf(b[..if b == [] then 0 else |b| - 1]), if b == [] then Nothing else Cost(b[|b| - 1]));
    if b == [] {
      assert a + b == a;
    } else {
      CostOfJoin(a, b[..|b| - 1]);
      assert (a + b)[..|a + b| - 1] == a + b[..|b| - 1];
    }
  }

  /** One piece of work more is its cost more, with a seed and without. */
  lemma OneMoreIsReported(c: Counters, w: Work, seed: Option<Seed>)
    ensures Reported(RunOutcome(Count(c, w), seed)) == Plus(Reported(RunOutcome(c, seed)), Cost(w))
  {
  }

  lemma NothingIsReported(restored: Counters)
    ensures Reported(RunOutcome(restored, Some(SeedOf(restored)))) == Nothing
  {
  }

  lemma NothingWithoutSeed()
    ensures Reported(RunOutcome(Zero, None)) == Nothing
  {
  }

  /** Whatever was restored, a process reports exactly the cost of its own work. */
  lemma {:induction false} ReportIsOwnWork(restored: Counters, work: seq<Work>)
    ensures Reported(RunOutcome(Counted(restored, work), Some(SeedOf(restored)))) == CostOf(work)
  {
    hide Reported, RunOutcome, Count, Cost, Plus, SeedOf;
    NothingIsReported(restored);
    if work != [] {
      var sofar, last := work[..|work| - 1], work[|work| - 1];
      ReportIsOwnWork(restored, sofar);
      OneMoreIsReported(Counted(restored, sofar), last, Some(SeedOf(restored)));
    }
  }

  lemma {:induction false} ReportWithoutSeed(work: seq<Work>)
    ensures Reported(RunOutcome(Counted(Zero, work), None)) == CostOf(work)
  {
    hide Reported, RunOutcome, Count, Cost, Plus;
    NothingWithoutSeed();
    if work != [] {
      var sofar, last := work[..|work| - 1], work[|work| - 1];
      ReportWithoutSeed(sofar);
      OneMoreIsReported(Counted(Zero, sofar), last, None);
    }
  }

  /** And so is each amount a report is of, the input being the sum of its three tiers. */
  lemma {:induction false} CostIsSums(work: seq<Work>)
    ensures var c := CostOf(work);
            && c.usage.input == Total(work, UncachedOf) + Total(work, ReadOf) + Total(work, CreatedOf)
            && c.usage.output == Total(work, WrittenOf) && c.usage.reasoning == Total(work, ThoughtOf)
            && c.usage.cacheRead == Total(work, ReadOf) && c.usage.cacheCreate == Total(work, CreatedOf)
            && c.usage.uncached == Total(work, UncachedOf) && c.toolCalls == Total(work, IsCall)
            && c.remoteCalls == |DispatchesOf(work, Remote)| && c.mcpCalls == |DispatchesOf(work, MCP)|
  {
    hide DispatchesOf;
    if work == [] {
      NoCalls(Remote);
      NoCalls(MCP);
    } else {
      CostIsSums(work[..|work| - 1]);
      DispatchesOfMore(work, Remote);
      DispatchesOfMore(work, MCP);
    }
  }

  /** Input is its three tiers, and what was dispatched is part of what was called. */
  predicate Consistent(t: Tally) {
    && t.usage.input == t.usage.uncached + t.usage.cacheRead + t.usage.cacheCreate
    && t.usage.uncached >= 0 && t.usage.cacheRead >= 0 && t.usage.cacheCreate >= 0
    && t.usage.output >= 0 && t.usage.reasoning >= 0
    && t.remoteCalls >= 0 && t.mcpCalls >= 0 && t.remoteCalls + t.mcpCalls <= t.toolCalls
  }

  lemma {:induction false} CostIsConsistent(work: seq<Work>)
    ensures Consistent(CostOf(work))
  {
    if work != [] {
      CostIsConsistent(work[..|work| - 1]);
    }
  }

  // ----- a session as a chain of processes

  /**
    One process on a session. Worked may first record the answer to a deferred call, does
    work that is journaled, and may do a last piece whose record does not land, which ends
    it. Returned finds the run complete and hands back the stored answer, running nothing.
   */
  datatype Sitting =
    | Worked(supplied: Option<Work>, work: seq<Work>, lost: Option<Work>)
    | Returned

  /** The journaled work, None before the session exists, and what its processes reported. */
  datatype Session = Session(journal: Option<seq<Work>>, reports: seq<Outcome>)

  function Items(w: Option<Work>): seq<Work> {
    if w.Some? then [w.value] else []
  }

  function Sit(s: Session, a: Sitting): Option<Session> {
    match (s.journal, a)
    case (None, Worked(supplied, work, lost)) =>
      if supplied.Some? then None
      else Some(Session(Some(work), s.reports + [RunOutcome(Counted(Zero, work + Items(lost)), None)]))
    case (Some(journal), Worked(supplied, work, lost)) =>
      if supplied.Some? && !supplied.value.ToolResult? then None
      else
        // the answer is counted into the folded state the seed is taken from
        var restored := Counted(Zero, journal + Items(supplied));
        Some(Session(Some(journal + Items(supplied) + work),
                     s.reports + [RunOutcome(Counted(restored, work + Items(lost)), Some(SeedOf(restored)))]))
    case (None, Returned) => None
    case (Some(journal), Returned) =>
      Some(Session(s.journal, s.reports + [RunOutcome(Counted(Zero, journal), None)]))
  }

  function Sat(sittings: seq<Sitting>): Option<Session> {
    if sittings == [] then Some(Session(None, []))
    else
      var s := Sat(sittings[..|sittings| - 1]);
      if s.None? then None else Sit(s.value, sittings[|sittings| - 1])
  }

  lemma SatIsSit(sittings: seq<Sitting>, a: Sitting)
    requires Sat(sittings).Some?
    ensures Sat(sittings + [a]) == Sit(Sat(sittings).value, a)
  {
    hide Sit;
    assert (sittings + [a])[..|sittings|] == sittings;
  }

  function Sum(reports: seq<Outcome>): Tally {
    if reports == [] then Nothing else Plus(Sum(reports[..|reports| - 1]), Reported(reports[|reports| - 1]))
  }

  function Journaled(s: Session): seq<Work> {
    if s.journal.Some? then s.journal.value else []
  }

  /** What sets a process's report apart from what it put in the journal. */
  datatype Owed = Owed(
    supplied: Tally,     // the answers recorded ahead of a resume, which are no process's work
    lost: Tally,         // work paid for whose record did not land
    repeated: Tally)     // a finished run's journal, reported again by a return

  const Even := Owed(Nothing, Nothing, Nothing)

  function OwedBy(s: Session, a: Sitting): Owed {
    match a
    case Worked(supplied, work, lost) => Owed(CostOfMaybe(supplied), CostOfMaybe(lost), Nothing)
    case Returned => Owed(Nothing, Nothing, CostOf(Journaled(s)))
  }

  function OwedOver(sittings: seq<Sitting>): Owed {
    if sittings == [] then Even
    else
      var sofar := sittings[..|sittings| - 1];
      if Sat(sofar).None? then Even
      else
        var before, now := OwedOver(sofar), OwedBy(Sat(sofar).value, sittings[|sittings| - 1]);
        Owed(Plus(before.supplied, now.supplied), Plus(before.lost, now.lost), Plus(before.repeated, now.repeated))
  }

  function OwnWork(a: Sitting): Tally {
    if a.Worked? then CostOf(a.work) else Nothing
  }

  lemma CostOfItems(w: Option<Work>)
    ensures CostOf(Items(w)) == CostOfMaybe(w)
  {
    if w.Some? {
      assert CostOf([w.value][..0]) == Nothing;
    }
  }

  lemma NothingCostsNothing()
    ensures CostOf([]) == Nothing && Plus(Nothing, Nothing) == Nothing
  {
  }

  function LastReport(s: Session): Tally
    requires s.reports != []
  {
    Reported(s.reports[|s.reports| - 1])
  }

  lemma SitReports(s: Session, a: Sitting)
    requires Sit(s, a).Some?
    ensures Sit(s, a).value.reports != []
    ensures LastReport(Sit(s, a).value) == Plus(OwnWork(a), Plus(OwedBy(s, a).lost, OwedBy(s, a).repeated))
  {
    hide Counted, RunOutcome, CostOf, Reported, Plus;
    PlusLaws(CostOf(Journaled(s)), Nothing, Nothing);
    match a
    case Returned => ReportWithoutSeed(Journaled(s));
    case Worked(supplied, work, lost) =>
      PlusLaws(CostOfMaybe(lost), Nothing, Nothing);
      CostOfItems(lost);
      CostOfJoin(work, Items(lost));
      if s.journal.None? {
        ReportWithoutSeed(work + Items(lost));
      } else {
        ReportIsOwnWork(Counted(Zero, Journaled(s) + Items(supplied)), work + Items(lost));
      }
  }

  lemma SitAddsOne(s: Session, a: Sitting)
    requires Sit(s, a).Some?
    ensures Sit(s, a).value.reports != []
    ensures Sum(Sit(s, a).value.reports) == Plus(Sum(s.reports), LastReport(Sit(s, a).value))
  {
    hide Counted, RunOutcome, Reported, Plus, SeedOf;
    assert Sit(s, a).value.reports[..|s.reports|] == s.reports;
  }

  lemma SitJournals(s: Session, a: Sitting)
    requires Sit(s, a).Some?
    ensures CostOf(Journaled(Sit(s, a).value)) == Plus(CostOf(Journaled(s)), Plus(OwedBy(s, a).supplied, OwnWork(a)))
  {
    hide Counted, RunOutcome, CostOf, Reported, Plus, SeedOf, Sum;
    NothingCostsNothing();
    PlusLaws(CostOf(Journaled(s)), Nothing, Nothing);
    if a.Worked? {
      PlusLaws(CostOf(Journaled(s)), OwedBy(s, a).supplied, OwnWork(a));
      PlusLaws(CostOf(a.work), Nothing, Nothing);
      CostOfItems(a.supplied);
      CostOfJoin(Journaled(s), Items(a.supplied));
      CostOfJoin(Journaled(s) + Items(a.supplied), a.work);
    }
  }

  lemma Carry(sum: Tally, before: Owed, held: Tally, own: Tally, now: Owed)
    requires Plus(sum, before.supplied) == Plus(held, Plus(before.lost, before.repeated))
    ensures Plus(Plus(sum, Plus(own, Plus(now.lost, now.repeated))), Plus(before.supplied, now.supplied)) ==
            Plus(Plus(held, Plus(now.supplied, own)),
                 Plus(Plus(before.lost, now.lost), Plus(before.repeated, now.repeated)))
  {
  }

  predicate Balanced(s: Session, owed: Owed) {
    Plus(Sum(s.reports), owed.supplied) == Plus(CostOf(Journaled(s)), Plus(owed.lost, owed.repeated))
  }

  /**
    The books of every session: what its processes report, with the answers recorded ahead
    of a resume, is what the journal holds, with the work lost and the work repeated.
   */
  lemma {:induction false} BooksBalance(sittings: seq<Sitting>)
    requires Sat(sittings).Some?
    ensures Balanced(Sat(sittings).value, OwedOver(sittings))
  {
    hide Sit, CostOf, CostOfMaybe, Plus, LastReport, OwedBy;
    NothingCostsNothing();
    if sittings != [] {
      var sofar, a := sittings[..|sittings| - 1], sittings[|sittings| - 1];
      var s := Sat(sofar).value;
      BooksBalance(sofar);
      SitReports(s, a);
      SitJournals(s, a);
      SitAddsOne(s, a);
      Carry(Sum(s.reports), OwedOver(sofar), CostOf(Journaled(s)), OwnWork(a), OwedBy(s, a));
    }
  }

  predicate Plain(a: Sitting) {
    a.Worked? && a.supplied.None? && a.lost.None?
  }

  lemma {:induction false} PlainOwesNothing(sittings: seq<Sitting>)
    requires forall i :: 0 <= i < |sittings| ==> Plain(sittings[i])
    ensures OwedOver(sittings) == Even
  {
    hide Plus, CostOf, Sat;
    NothingCostsNothing();
    if sittings != [] {
      PlainOwesNothing(sittings[..|sittings| - 1]);
    }
  }

  /** Where every piece of work landed and nothing was answered from outside, the reports sum to the journal. */
  lemma ReportsSumToTheSession(sittings: seq<Sitting>)
    requires Sat(sittings).Some? && forall i :: 0 <= i < |sittings| ==> Plain(sittings[i])
    ensures var s := Sat(sittings).value;
            && Sum(s.reports) == CostOf(Journaled(s)) == Reported(RunOutcome(Counted(Zero, Journaled(s)), None))
            && Consistent(Sum(s.reports))
  {
    hide Sat, CostOf, Sum, RunOutcome, Counted, Plus, Consistent, OwedOver;
    BooksBalance(sittings);
    PlainOwesNothing(sittings);
    var s := Sat(sittings).value;
    PlusLaws(Sum(s.reports), Nothing, Nothing);
    PlusLaws(CostOf(Journaled(s)), Nothing, Nothing);
    CostIsConsistent(Journaled(s));
    ReportWithoutSeed(Journaled(s));
  }

  /** Every process's own report is consistent, whatever it resumed on. */
  lemma EveryReportIsConsistent(s: Session, a: Sitting)
    requires Sit(s, a).Some?
    ensures Sit(s, a).value.reports != [] && Consistent(LastReport(Sit(s, a).value))
  {
    hide CostOf, Counted, RunOutcome, Consistent, Reported;
    match a
    case Returned =>
      ReportWithoutSeed(Journaled(s));
      CostIsConsistent(Journaled(s));
    case Worked(supplied, work, lost) =>
      CostIsConsistent(work + Items(lost));
      ReportWithoutSeed(work + Items(lost));
      ReportIsOwnWork(Counted(Zero, Journaled(s) + Items(supplied)), work + Items(lost));
  }

  lemma SumsStayConsistent(a: Tally, b: Tally)
    requires Consistent(a) && Consistent(b)
    ensures Consistent(Plus(a, b)) && Consistent(Nothing)
  {
  }

  predicate OwedIsSane(o: Owed) {
    Consistent(o.lost) && Consistent(o.repeated) && o.supplied.usage == Nothing.usage
  }

  lemma AnswersCostNoTokens(answer: Option<Work>)
    requires answer.Some? ==> answer.value.ToolResult?
    ensures CostOfMaybe(answer).usage == Nothing.usage
  {
  }

  lemma PieceIsConsistent(w: Option<Work>)
    ensures Consistent(CostOfMaybe(w)) && Consistent(Nothing)
  {
  }

  lemma SuppliedIsAnAnswer(s: Session, a: Sitting)
    requires Sit(s, a).Some?
    ensures a.Worked? && a.supplied.Some? ==> a.supplied.value.ToolResult?
  {
    hide Counted, RunOutcome, SeedOf;
  }

  lemma {:induction false} OwedByIsSane(s: Session, a: Sitting)
    requires a.Worked? && a.supplied.Some? ==> a.supplied.value.ToolResult?
    ensures OwedIsSane(OwedBy(s, a))
  {
    hide CostOf, CostOfMaybe, Consistent, Plus;
    PieceIsConsistent(None);
    CostIsConsistent(Journaled(s));
    if a.Worked? {
      PieceIsConsistent(a.lost);
      AnswersCostNoTokens(a.supplied);
    }
  }

  lemma {:induction false} OwedOverIsSane(sittings: seq<Sitting>)
    requires Sat(sittings).Some?
    ensures OwedIsSane(OwedOver(sittings))
  {
    hide Consistent, Sit, OwedBy;
    SumsStayConsistent(CostOf([]), CostOf([])) by { CostIsConsistent([]); }
    if sittings != [] {
      var sofar, a := sittings[..|sittings| - 1], sittings[|sittings| - 1];
      OwedOverIsSane(sofar);
      var before, now := OwedOver(sofar), OwedBy(Sat(sofar).value, a);
      SuppliedIsAnAnswer(Sat(sofar).value, a);
      OwedByIsSane(Sat(sofar).value, a);
      SumsStayConsistent(before.lost, now.lost);
      SumsStayConsistent(before.repeated, now.repeated);
    }
  }

  /** Tokens are never under-reported, and over-reported exactly when some were lost or repeated. */
  lemma TokensAreNeverUnderReported(sittings: seq<Sitting>)
    requires Sat(sittings).Some?
    ensures var s := Sat(sittings).value; var sum := Sum(s.reports).usage; var held := CostOf(Journaled(s)).usage;
            && sum.input >= held.input && sum.output >= held.output
            && (sum == held <==> OwedOver(sittings).lost.usage == OwedOver(sittings).repeated.usage == Nothing.usage)
  {
    hide Sat, CostOf, Sum, OwedOver;
    BooksBalance(sittings);
    OwedOverIsSane(sittings);
  }

  function Replies(work: seq<Work>): nat {
    if work == [] then 0 else Replies(work[..|work| - 1]) + if work[|work| - 1].Reply? then 1 else 0
  }

  lemma {:induction false} RepliesAreCounted(work: seq<Work>)
    ensures Counted(Zero, work).llmCalls == Replies(work)
  {
    if work != [] {
      RepliesAreCounted(work[..|work| - 1]);
    }
  }

  lemma CountedOneMore(c: Counters, work: seq<Work>, w: Work)
    ensures Counted(c, work + [w]) == Count(Counted(c, work), w) && Counted(c, []) == c
  {
    hide Count;
    assert (work + [w])[..|work|] == work;
  }

  lemma {:induction false} CountedOfJoin(c: Counters, a: seq<Work>, b: seq<Work>)
    ensures Counted(c, a + b) == Counted(Counted(c, a), b)
  {
    hide Count, Counted;
    if b == [] {
      CountedOneMore(Counted(c, a), [], ToolResult(Unknown, false));
      assert a + b == a;
    } else {
      var front, w := b[..|b| - 1], b[|b| - 1];
      CountedOfJoin(c, a, front);
      CountedOneMore(c, a + front, w);
      CountedOneMore(Counted(c, a), front, w);
      assert a + b == (a + front) + [w] && b == front + [w];
    }
  }

  lemma SessionViewOf(stats: Counters, seed: Seed)
    ensures RunOutcome(stats, Some(seed)).session == Some(RunOutcome(stats, None).usage)
    ensures RunOutcome(stats, Some(seed)).sessionLlmCalls == stats.llmCalls
    ensures RunOutcome(stats, None).session == None
  {
  }

  /** Beside its own use, a resumed process shows the whole session's as the journal then holds it. */
  lemma ResumedReportShowsTheSession(s: Session, a: Sitting)
    requires Sit(s, a).Some? && s.journal.Some? && a.Worked? && a.lost.None?
    ensures Sit(s, a).value.reports != []
    ensures var t := Sit(s, a).value; var last := t.reports[|t.reports| - 1];
            && last.session == Some(CostOf(Journaled(t)).usage)
            && last.sessionLlmCalls == Replies(Journaled(t))
  {
    hide Counted, RunOutcome, CostOf, SeedOf, Replies;
    var before := Journaled(s) + Items(a.supplied);
    assert a.work + Items(a.lost) == a.work;
    CountedOfJoin(Zero, before, a.work);
    SessionViewOf(Counted(Zero, before + a.work), SeedOf(Counted(Zero, before)));
    ReportWithoutSeed(before + a.work);
    RepliesAreCounted(before + a.work);
  }

  /** The return of a finished run adds the whole session to the sum again. */
  lemma ReturnCountsTheSessionAgain(sittings: seq<Sitting>)
    requires Sat(sittings).Some? && Sat(sittings).value.journal.Some?
    ensures var s := Sat(sittings).value; var again := Sat(sittings + [Returned]);
            && again.Some? && Journaled(again.value) == Journaled(s)
            && Sum(again.value.reports) == Plus(Sum(s.reports), CostOf(Journaled(s)))
            && (Sum(again.value.reports) == Sum(s.reports) <==> CostOf(Journaled(s)) == Nothing)
  {
    hide Sat, CostOf, Counted, RunOutcome, Sum, Plus;
    var s := Sat(sittings).value;
    SatIsSit(sittings, Returned);
    PlusLaws(Sum(s.reports), CostOf(Journaled(s)), Nothing);
    PlusLaws(CostOf(Journaled(s)), Nothing, Nothing);
    PlusLaws(Nothing, CostOf(Journaled(s)), Nothing);
    SitReports(s, Returned);
    SitJournals(s, Returned);
    SitAddsOne(s, Returned);
  }

  lemma OneMoreCall(held: Tally, answer: Work, own: Tally)
    requires answer.ToolResult?
    ensures Plus(held, Plus(CostOfMaybe(Some(answer)), own)).toolCalls == held.toolCalls + 1 + own.toolCalls
  {
  }

  /** The answer recorded ahead of a resume is in the session's count and in no process's. */
  lemma SuppliedCallIsNobodys(sittings: seq<Sitting>, answer: Work, work: seq<Work>)
    requires Sat(sittings).Some? && Sat(sittings).value.journal.Some? && answer.ToolResult?
    ensures var s := Sat(sittings).value; var t := Sat(sittings + [Worked(Some(answer), work, None)]);
            && t.Some? && Journaled(t.value) == Journaled(s) + [answer] + work
            && Sum(t.value.reports) == Plus(Sum(s.reports), CostOf(work))
            && CostOf(Journaled(t.value)).toolCalls == CostOf(Journaled(s)).toolCalls + 1 + CostOf(work).toolCalls
  {
    hide Sat, CostOf, Counted, RunOutcome, Sum, Plus, SeedOf;
    var s := Sat(sittings).value;
    var a := Worked(Some(answer), work, None);
    SatIsSit(sittings, a);
    SitReports(s, a);
    SitJournals(s, a);
    SitAddsOne(s, a);
    PlusLaws(CostOf(work), Nothing, Nothing);
    PlusLaws(Nothing, Nothing, Nothing);
    OneMoreCall(CostOf(Journaled(s)), answer, CostOf(work));
  }
}
