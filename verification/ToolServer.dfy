/**
  The tool server: calls arriving from several goroutines, a fixed number of slots, and a
  reply set for each call. A step is one thing the handler or the goroutine of one call
  does; calls interleave freely, and every send may fail.
 */
module ToolServers {
  import opened Wrappers
  import opened Wire
  import opened ReplyStreams

  /** What the tool's own goroutine came back with. */
  datatype ToolOutcome = DeferredLater | HarnessError(text: string) | NoResult | Output(output: string)

  // The texts a caller's model reads are shortened; what each is sent for is not.
  const DEFERRAL_REFUSAL := "deferred"
  const NO_RESULT := "tool returned no result"

  function ReplyOf(o: ToolOutcome): Message {
    match o
    case DeferredLater => ToolReply(true, DEFERRAL_REFUSAL, "")
    case HarnessError(text) => ToolReply(true, text, "")
    case NoResult => ToolReply(true, NO_RESULT, "")
    case Output(output) => ToolReply(false, output, "")
  }

  /** That a reply says what the tool came back with: an error unless it is an output, and its text. */
  predicate Says(m: Message, o: ToolOutcome) {
    && m.ToolReply? && (m.isError <==> !o.Output?) && m.replyCode == ""
    && (o.Output? ==> m.output == o.output)
    && (o.HarnessError? ==> m.output == o.text)
    && (o.DeferredLater? ==> m.output == "deferred") && (o.NoResult? ==> m.output == "tool returned no result")
  }

  datatype Refusal = UnknownTool | AtCapacity

  function RefusalReason(r: Refusal): string {
    if r.UnknownTool? then "unavailable" else "full"
  }

  function RefusalReply(r: Refusal): Message {
    ToolReply(true, RefusalReason(r), if r.AtCapacity? then "capacity" else "")
  }

  const KEEPALIVE := Event("running-tool")

  datatype Phase =
    | Arrived
    | Refusing(refusal: Refusal)  // the refusing ack is next
    | Declined(refusal: Refusal)  // the ack is out, its terminal reply is next
    | Accepted                    // holds a slot, the ack is next
    | Running(alive: bool)        // the tool runs; keepalives until one fails
    | Replying(reply: Message)    // the tool is done, the terminal reply is next
    | Leaving                     // all that is left is the slot
    | Over

  /**
    One call: where it is, what it sent, and a history of its slot and its tool: what the
    tool came back with, or what the call was refused for.
   */
  datatype ToolCall = ToolCall(
    tool: string, phase: Phase, out: seq<Sent>, acquired: nat, released: nat, ran: nat,
    finished: Option<ToolOutcome>, refused: Option<Refusal>)

  function Arrive(tool: string): ToolCall {
    ToolCall(tool, Arrived, [], 0, 0, 0, None, None)
  }

  datatype Action =
    | Admit
    | SendAck(attempt: Attempt)
    | SendRefusal(attempt: Attempt)
    | Tick(attempt: Attempt)
    | Finish(outcome: ToolOutcome)
    | SendReply(attempt: Attempt)
    | Leave

  /** A send on a call's own stream: what is out after it, and whether it went out. */
  function Send(c: ToolCall, body: Message, attempt: Attempt): (ToolCall, bool) {
    (c.(out := After(c.out, ReplyStreams.Call(body, attempt))),
     ReplyStreams.Refusal(c.out, ReplyStreams.Call(body, attempt)) == None)
  }

  /** Whether the slot table has room is all a call learns of the others. */
  function CallStep(c: ToolCall, a: Action, known: bool, room: bool): Option<ToolCall> {
    match a
    case Admit =>
      if !c.phase.Arrived? then None
      else if !known then Some(c.(phase := Refusing(UnknownTool), refused := Some(UnknownTool)))
      else if room then Some(c.(phase := Accepted, acquired := c.acquired + 1))
      else Some(c.(phase := Refusing(AtCapacity), refused := Some(AtCapacity)))
    case SendAck(attempt) =>
      if c.phase.Accepted? then
        var (d, ok) := Send(c, Ack(true, "", ""), attempt);
        Some(if ok then d.(phase := Running(true), ran := d.ran + 1) else d.(phase := Leaving))
      else if c.phase.Refusing? then
        var (d, ok) := Send(c, Ack(false, RefusalReason(c.phase.refusal), ""), attempt);
        Some(d.(phase := if ok then Declined(c.phase.refusal) else Over))
      else None
    case SendRefusal(attempt) =>
      if c.phase.Declined? then Some(Send(c, RefusalReply(c.phase.refusal), attempt).0.(phase := Over)) else None
    case Tick(attempt) =>
      if c.phase.Running? && c.phase.alive then
        var (d, ok) := Send(c, KEEPALIVE, attempt);
        Some(d.(phase := Running(ok)))
      else if c.phase.Running? then Some(c)
      else None
    case Finish(outcome) =>
      if c.phase.Running? then Some(c.(phase := Replying(ReplyOf(outcome)), finished := Some(outcome))) else None
    case SendReply(attempt) =>
      if c.phase.Replying? then Some(Send(c, c.phase.reply, attempt).0.(phase := Leaving)) else None
    case Leave =>
      if c.phase.Leaving? then Some(c.(phase := Over, released := c.released + 1)) else None
  }

  // ----- what one call keeps, however its sends fall out

  /** How far an output has got through one of the two sets a server sends. */
  datatype Shape = Nothing | Declining | Serving | Answered | Unlawful

  function Next(shape: Shape, body: Message): Shape {
    match shape
    case Nothing => if body.Ack? then (if body.accepted then Serving else Declining) else Unlawful
    case Declining => if body.ToolReply? && body.isError then Answered else Unlawful
    case Serving => if body == KEEPALIVE then Serving else if body.ToolReply? then Answered else Unlawful
    case Answered => Unlawful
    case Unlawful => Unlawful
  }

  function ShapeOf(out: seq<Sent>): Shape {
    if out == [] then Nothing else Next(ShapeOf(out[..|out| - 1]), out[|out| - 1].body)
  }

  predicate ToldYes(out: seq<Sent>) {
    out != [] && out[0].body.Ack? && out[0].body.accepted
  }

  /** What the shapes mean, message by message: ack(no) reply, or ack(yes) keepalive* reply, and their prefixes. */
  lemma {:induction false} ShapeIsASet(out: seq<Sent>)
    ensures ShapeOf(out) == Nothing <==> out == []
    ensures ShapeOf(out) == Declining <==> |out| == 1 && ToldNo(out)
    ensures ShapeOf(out) == Serving <==> ToldYes(out) && forall i :: 1 <= i < |out| ==> out[i].body == KEEPALIVE
    ensures ShapeOf(out) == Answered <==>
            && |out| >= 2 && out[|out| - 1].body.ToolReply?
            && (if ToldYes(out) then forall i :: 1 <= i < |out| - 1 ==> out[i].body == KEEPALIVE
                else ToldNo(out) && |out| == 2 && out[1].body.isError)
  {
    if out != [] {
      var front := out[..|out| - 1];
      ShapeIsASet(front);
      assert ShapeOf(out) == Next(ShapeOf(front), out[|out| - 1].body);
      assert |out| > 1 ==> ToldYes(front) == ToldYes(out) && ToldNo(front) == ToldNo(out);
      assert forall i :: 1 <= i < |front| ==> front[i] == out[i];
    }
  }

  predicate ToldNo(out: seq<Sent>) {
    out != [] && out[0].body.Ack? && !out[0].body.accepted
  }

  predicate HoldsSlot(c: ToolCall) {
    c.phase.Accepted? || c.phase.Running? || c.phase.Replying? || c.phase.Leaving?
  }

  predicate PhaseFits(c: ToolCall) {
    match c.phase
    case Arrived => c.out == [] && c.acquired == 0
    case Refusing(_) => c.out == [] && c.acquired == 0
    case Declined(_) => ShapeOf(c.out) == Declining && c.acquired == 0
    case Accepted => c.out == []
    case Running(_) => ShapeOf(c.out) == Serving
    case Replying(reply) => ShapeOf(c.out) == Serving && reply.ToolReply?
    case Leaving => true
    case Over => true
  }

  predicate CallInv(c: ToolCall) {
    && Numbered(c.out) && ShapeOf(c.out) != Unlawful && PhaseFits(c)
    && c.acquired <= 1 && (HoldsSlot(c) ==> c.acquired == 1)
    && c.released == (if HoldsSlot(c) then 0 else c.acquired)
    && c.ran == (if ToldYes(c.out) then 1 else 0)
    && c.ran <= c.acquired
  }

  /** A send moves an output one message along, or leaves it where it was. */
  lemma SendMovesShape(c: ToolCall, body: Message, attempt: Attempt)
    requires Numbered(c.out)
    ensures var (d, ok) := Send(c, body, attempt);
            && Numbered(d.out) && d == c.(out := d.out)
            && ShapeOf(d.out) == (if ok then Next(ShapeOf(c.out), body) else ShapeOf(c.out))
            && (ok ==> d.out != [])
            && ToldYes(d.out) == (ToldYes(c.out) || (ok && c.out == [] && body.Ack? && body.accepted))
  {
    var out := Send(c, body, attempt).0.out;
    assert out != c.out ==> out[..|out| - 1] == c.out;
  }

  lemma AcceptKeepsInv(c: ToolCall, attempt: Attempt, known: bool, room: bool)
    requires CallInv(c) && c.phase.Accepted?
    ensures CallInv(CallStep(c, SendAck(attempt), known, room).value)
  {
    SendMovesShape(c, Ack(true, "", ""), attempt);
  }

  lemma DeclineKeepsInv(c: ToolCall, attempt: Attempt, known: bool, room: bool)
    requires CallInv(c) && c.phase.Refusing?
    ensures CallInv(CallStep(c, SendAck(attempt), known, room).value)
  {
    SendMovesShape(c, Ack(false, RefusalReason(c.phase.refusal), ""), attempt);
  }

  lemma LaterSendKeepsInv(c: ToolCall, body: Message, attempt: Attempt, phase: Phase)
    requires CallInv(c) && c.out != [] && Next(ShapeOf(c.out), body) != Unlawful
    requires var d := Send(c, body, attempt).0.(phase := phase);
             (phase.Over? || phase.Leaving? || (phase.Running? && Next(ShapeOf(c.out), body) == ShapeOf(c.out) == Serving)) &&
             HoldsSlot(d) == HoldsSlot(c)
    ensures CallInv(Send(c, body, attempt).0.(phase := phase))
  {
    SendMovesShape(c, body, attempt);
  }

  lemma CallStepKeepsInv(c: ToolCall, a: Action, known: bool, room: bool)
    requires CallInv(c) && CallStep(c, a, known, room).Some?
    ensures CallInv(CallStep(c, a, known, room).value)
  {
    var d := CallStep(c, a, known, room).value;
    ShapeIsASet(c.out);
    match a {
      case Admit =>
      case SendAck(attempt) =>
        if c.phase.Accepted? {
          AcceptKeepsInv(c, attempt, known, room);
        } else {
          DeclineKeepsInv(c, attempt, known, room);
        }
      case SendRefusal(attempt) => LaterSendKeepsInv(c, RefusalReply(c.phase.refusal), attempt, d.phase);
      case Tick(attempt) => if c.phase.alive { LaterSendKeepsInv(c, KEEPALIVE, attempt, d.phase); }
      case Finish(_) =>
      case SendReply(attempt) => LaterSendKeepsInv(c, c.phase.reply, attempt, d.phase);
      case Leave =>
    }
  }

  // ----- what one call's messages say

  /** A call's history agrees with where it is, and its replies with its history. */
  predicate Truthful(c: ToolCall) {
    && (c.phase.Arrived? ==> c.refused.None? && c.finished.None?)
    && (c.phase.Refusing? || c.phase.Declined? ==> c.refused == Some(c.phase.refusal))
    && (c.phase.Accepted? || c.phase.Running? ==> c.finished.None?)
    && (c.phase.Accepted? || c.phase.Running? || c.phase.Replying? || c.phase.Leaving? ==> c.refused.None?)
    && (c.refused.Some? ==> c.acquired == 0)
    && (c.phase.Replying? ==> c.finished.Some? && Says(c.phase.reply, c.finished.value))
    && forall k :: 0 <= k < |c.out| ==> MessageIsTrue(c, c.out[k].body)
  }

  /** That a message of a call tells what became of it. */
  predicate MessageIsTrue(c: ToolCall, m: Message) {
    && (m.Ack? ==> (m.accepted <==> c.refused.None?))
    && (m.Ack? && c.refused.Some? ==> m.reason == if c.refused.value.AtCapacity? then "full" else "unavailable")
    && (m.ToolReply? && c.refused.None? ==> c.finished.Some? && Says(m, c.finished.value))
    && (m.ToolReply? && c.refused.Some? ==>
          && m.isError && m.replyCode == (if c.refused.value.AtCapacity? then "capacity" else "")
          && m.output == if c.refused.value.AtCapacity? then "full" else "unavailable")
  }

  lemma SendIsTrue(c: ToolCall, d: ToolCall, body: Message, attempt: Attempt)
    requires Truthful(c) && d.out == Send(c, body, attempt).0.out && d.refused == c.refused && d.finished == c.finished
    requires MessageIsTrue(c, body)
    ensures forall k :: 0 <= k < |d.out| ==> MessageIsTrue(d, d.out[k].body)
  {
    assert forall k :: 0 <= k < |c.out| ==> d.out[k] == c.out[k];
  }

  lemma CallStepIsTrue(c: ToolCall, a: Action, known: bool, room: bool)
    requires CallInv(c) && Truthful(c) && CallStep(c, a, known, room).Some?
    ensures Truthful(CallStep(c, a, known, room).value)
  {
    hide MessageIsTrue;
    var d := CallStep(c, a, known, room).value;
    match a {
      case Admit => assert c.out == [];
      case SendAck(attempt) =>
        var ack := if c.phase.Accepted? then Ack(true, "", "") else Ack(false, RefusalReason(c.phase.refusal), "");
        assert MessageIsTrue(c, ack) by { AckIsTrue(c); }
        SendIsTrue(c, d, ack, attempt);
      case SendRefusal(attempt) =>
        assert MessageIsTrue(c, RefusalReply(c.phase.refusal)) by { RefusalIsTrue(c); }
        SendIsTrue(c, d, RefusalReply(c.phase.refusal), attempt);
      case Tick(attempt) =>
        if c.phase.alive {
          assert MessageIsTrue(c, KEEPALIVE) by { KeepaliveIsTrue(c); }
          SendIsTrue(c, d, KEEPALIVE, attempt);
        }
      case Finish(outcome) =>
        assert Says(ReplyOf(outcome), outcome);
        ServingSaysNothing(c, d);
      case SendReply(attempt) =>
        assert MessageIsTrue(c, c.phase.reply) by { ReplyIsTrue(c); }
        SendIsTrue(c, d, c.phase.reply, attempt);
      case Leave => SameIsTrue(c, d);
    }
  }

  lemma SameIsTrue(c: ToolCall, d: ToolCall)
    requires Truthful(c) && d.out == c.out && d.refused == c.refused && d.finished == c.finished
    ensures forall k :: 0 <= k < |d.out| ==> MessageIsTrue(d, d.out[k].body)
  {
  }

  lemma AckIsTrue(c: ToolCall)
    requires Truthful(c) && (c.phase.Accepted? || c.phase.Refusing?)
    ensures c.phase.Accepted? ==> MessageIsTrue(c, Ack(true, "", ""))
    ensures c.phase.Refusing? ==> MessageIsTrue(c, Ack(false, RefusalReason(c.phase.refusal), ""))
  {
  }

  lemma RefusalIsTrue(c: ToolCall)
    requires Truthful(c) && c.phase.Declined?
    ensures MessageIsTrue(c, RefusalReply(c.phase.refusal))
  {
  }

  lemma KeepaliveIsTrue(c: ToolCall)
    ensures MessageIsTrue(c, KEEPALIVE)
  {
  }

  lemma ReplyIsTrue(c: ToolCall)
    requires Truthful(c) && c.phase.Replying?
    ensures MessageIsTrue(c, c.phase.reply)
  {
  }

  /** Until its tool is done a served call has sent no reply, so its messages say nothing of the outcome. */
  lemma ServingSaysNothing(c: ToolCall, d: ToolCall)
    requires CallInv(c) && Truthful(c) && c.phase.Running? && d.out == c.out && d.refused == c.refused
    ensures forall k :: 0 <= k < |d.out| ==> MessageIsTrue(d, d.out[k].body)
  {
    ShapeIsASet(c.out);
    forall k | 0 <= k < |d.out| ensures MessageIsTrue(d, d.out[k].body) {
      assert MessageIsTrue(c, c.out[k].body);
      assert k == 0 || c.out[k].body == KEEPALIVE;
    }
  }

  // ----- the server: its calls, and its slots

  datatype Server = Server(tools: set<string>, concurrency: nat, inUse: nat, calls: seq<ToolCall>)

  datatype Event = Incoming(tool: string) | On(call: nat, action: Action)

  function Step(s: Server, e: Event): Option<Server> {
    match e
    case Incoming(tool) => Some(s.(calls := s.calls + [Arrive(tool)]))
    case On(i, a) =>
      if i >= |s.calls| then None
      else
        var c := s.calls[i];
        var next := CallStep(c, a, c.tool in s.tools, s.inUse < s.concurrency);
        if next.None? then None
        else Some(s.(calls := s.calls[i := next.value], inUse := SlotsAfter(s.inUse, c, next.value)))
  }

  /** The channel of slots: a call puts one in when it is admitted and takes it out last. */
  function SlotsAfter(inUse: nat, before: ToolCall, after: ToolCall): nat {
    if after.acquired > before.acquired then inUse + 1
    else if after.released > before.released then (if inUse > 0 then inUse - 1 else 0)
    else inUse
  }

  function Run(s: Server, events: seq<Event>): Option<Server>
    decreases |events|
  {
    if events == [] then Some(s)
    else
      var next := Step(s, events[0]);
      if next.None? then None else Run(next.value, events[1..])
  }

  function Begin(tools: set<string>, concurrency: nat): Server {
    Server(tools, concurrency, 0, [])
  }

  function Holders(calls: seq<ToolCall>): set<nat> {
    set i | 0 <= i < |calls| && HoldsSlot(calls[i])
  }

  predicate Inv(s: Server) {
    && (forall i :: 0 <= i < |s.calls| ==> CallInv(s.calls[i]))
    && s.inUse == |Holders(s.calls)| <= s.concurrency
  }

  /** One call moving changes the count of holders by as much as it changes the channel. */
  lemma HoldersAfter(calls: seq<ToolCall>, i: nat, d: ToolCall)
    requires i < |calls|
    ensures |Holders(calls[i := d])| ==
            |Holders(calls)| + (if HoldsSlot(d) then 1 else 0) - (if HoldsSlot(calls[i]) then 1 else 0)
  {
    var others := Holders(calls) - {i};
    assert Holders(calls) == if HoldsSlot(calls[i]) then others + {i} else others;
    assert Holders(calls[i := d]) == if HoldsSlot(d) then others + {i} else others;
  }

  lemma CallStepMovesSlots(c: ToolCall, a: Action, known: bool, inUse: nat, concurrency: nat)
    requires CallInv(c) && CallStep(c, a, known, inUse < concurrency).Some? && inUse <= concurrency
    requires HoldsSlot(c) ==> inUse > 0
    ensures var d := CallStep(c, a, known, inUse < concurrency).value;
            && SlotsAfter(inUse, c, d) ==
               inUse + (if HoldsSlot(d) then 1 else 0) - (if HoldsSlot(c) then 1 else 0)
            && SlotsAfter(inUse, c, d) <= concurrency
  {
  }

  lemma StepKeepsInv(s: Server, e: Event)
    requires Inv(s) && Step(s, e).Some?
    ensures Inv(Step(s, e).value)
  {
    var t := Step(s, e).value;
    match e {
      case Incoming(_) =>
        assert Holders(t.calls) == Holders(s.calls);
      case On(i, a) =>
        var c := s.calls[i];
        assert CallInv(c) && (HoldsSlot(c) ==> i in Holders(s.calls));
        CallStepKeepsInv(c, a, c.tool in s.tools, s.inUse < s.concurrency);
        CallStepMovesSlots(c, a, c.tool in s.tools, s.inUse, s.concurrency);
        HoldersAfter(s.calls, i, t.calls[i]);
    }
  }

  lemma {:induction false} RunKeepsInv(s: Server, events: seq<Event>)
    requires Inv(s) && Run(s, events).Some?
    ensures Inv(Run(s, events).value)
    ensures Run(s, events).value.concurrency == s.concurrency
    decreases |events|
  {
    if events != [] {
      StepKeepsInv(s, events[0]);
      RunKeepsInv(Step(s, events[0]).value, events[1..]);
    }
  }

  lemma InvOf(tools: set<string>, concurrency: nat, events: seq<Event>)
    requires Run(Begin(tools, concurrency), events).Some?
    ensures Inv(Run(Begin(tools, concurrency), events).value)
    ensures Run(Begin(tools, concurrency), events).value.concurrency == concurrency
  {
    assert Holders([]) == {};
    RunKeepsInv(Begin(tools, concurrency), events);
  }

  /**
    In every run the slots in use are the accepted calls not yet finished, and never more
    than the server allows.
   */
  lemma SlotsAreTheUnfinishedCalls(tools: set<string>, concurrency: nat, events: seq<Event>)
    requires Run(Begin(tools, concurrency), events).Some?
    ensures var s := Run(Begin(tools, concurrency), events).value;
            && s.inUse == |set i | 0 <= i < |s.calls| && s.calls[i].acquired > s.calls[i].released|
            && s.inUse <= concurrency
  {
    InvOf(tools, concurrency, events);
    var s := Run(Begin(tools, concurrency), events).value;
    assert Holders(s.calls) == set i | 0 <= i < |s.calls| && s.calls[i].acquired > s.calls[i].released;
  }

  /**
    A call is refused for capacity exactly when it names a tool the server has and every
    slot is held by an unfinished call; an unknown tool is told so, full or not.
   */
  lemma RefusedOnlyWhenFull(tools: set<string>, concurrency: nat, events: seq<Event>, i: nat)
    requires Run(Begin(tools, concurrency), events).Some?
    requires var s := Run(Begin(tools, concurrency), events).value; i < |s.calls| && s.calls[i].phase.Arrived?
    ensures var s := Run(Begin(tools, concurrency), events).value;
            var admitted := Step(s, On(i, Admit));
            var unfinished := set k | 0 <= k < |s.calls| && s.calls[k].acquired > s.calls[k].released;
            && admitted.Some?
            && (admitted.value.calls[i].phase == Refusing(AtCapacity) <==>
                  (s.calls[i].tool in s.tools && |unfinished| == concurrency))
            && (admitted.value.calls[i].phase == Refusing(UnknownTool) <==> s.calls[i].tool !in s.tools)
  {
    InvOf(tools, concurrency, events);
    SlotsAreTheUnfinishedCalls(tools, concurrency, events);
  }

  /**
    Whatever fails, a call takes at most one slot and gives each one back exactly once by
    the time it is over; a tool runs at most once, and only for a call that was told so.
   */
  lemma SlotsComeBackOnce(tools: set<string>, concurrency: nat, events: seq<Event>, i: nat)
    requires Run(Begin(tools, concurrency), events).Some?
    requires i < |Run(Begin(tools, concurrency), events).value.calls|
    ensures var c := Run(Begin(tools, concurrency), events).value.calls[i];
            && c.released <= c.acquired <= 1 && c.ran <= c.acquired
            && (c.phase.Over? ==> c.released == c.acquired)
            && (c.ran == 1 <==> ToldYes(c.out))
  {
    InvOf(tools, concurrency, events);
  }

  /**
    What a caller is sent is numbered without a gap and is a prefix of ack(no) reply or of
    ack(yes) keepalive* reply, however many sends of it failed and wherever.
   */
  lemma EveryOutputIsAPrefixOfASet(tools: set<string>, concurrency: nat, events: seq<Event>, i: nat)
    requires Run(Begin(tools, concurrency), events).Some?
    requires i < |Run(Begin(tools, concurrency), events).value.calls|
    ensures var out := Run(Begin(tools, concurrency), events).value.calls[i].out;
            && (forall k :: 0 <= k < |out| ==> out[k].number == k + 1)
            && (forall k :: 0 <= k < |out| ==> (out[k].body.Ack? <==> k == 0))
            && (forall k :: 0 < k < |out| ==>
                  if k < |out| - 1 then out[k].body == Message.Event("running-tool")
                  else out[k].body == Message.Event("running-tool") || out[k].body.ToolReply?)
            && (out != [] && !ToldYes(out) ==> |out| <= 2 && (|out| == 2 ==> out[1].body.ToolReply? && out[1].body.isError))
  {
    InvOf(tools, concurrency, events);
    ShapeIsASet(Run(Begin(tools, concurrency), events).value.calls[i].out);
  }

  predicate AllTruthful(s: Server) {
    forall i :: 0 <= i < |s.calls| ==> Truthful(s.calls[i])
  }

  lemma {:induction false} RunIsTrue(s: Server, events: seq<Event>)
    requires Inv(s) && AllTruthful(s) && Run(s, events).Some?
    ensures AllTruthful(Run(s, events).value)
    decreases |events|
  {
    hide Truthful, CallStep, CallInv;
    if events != [] {
      StepKeepsInv(s, events[0]);
      var t := Step(s, events[0]).value;
      match events[0] {
        case Incoming(tool) => assert Truthful(Arrive(tool)) by { ArriveIsTrue(tool); }
        case On(i, a) => CallStepIsTrue(s.calls[i], a, s.calls[i].tool in s.tools, s.inUse < s.concurrency);
      }
      RunIsTrue(t, events[1..]);
    }
  }

  lemma ArriveIsTrue(tool: string)
    ensures Truthful(Arrive(tool))
  {
  }

  /**
    In every run a reply says what happened. One to an accepted call is an error exactly
    when its tool returned no output, with the output's text or the harness's; one to a
    refused call is an error, with the capacity code exactly when it was refused for want of
    a slot; and the ack accepts exactly the calls that were not refused.
   */
  lemma RepliesSayWhatHappened(tools: set<string>, concurrency: nat, events: seq<Event>, i: nat, k: nat)
    requires Run(Begin(tools, concurrency), events).Some?
    requires var s := Run(Begin(tools, concurrency), events).value; i < |s.calls| && k < |s.calls[i].out|
    ensures var c := Run(Begin(tools, concurrency), events).value.calls[i]; var m := c.out[k].body;
            && (m.Ack? ==> (m.accepted <==> c.refused.None?))
            && (m.Ack? && c.refused.Some? ==> m.reason == if c.refused.value.AtCapacity? then "full" else "unavailable")
            && (m.ToolReply? && c.refused.None? ==>
                  && c.finished.Some? && (m.isError <==> !c.finished.value.Output?) && m.replyCode == ""
                  && (c.finished.value.Output? ==> m.output == c.finished.value.output)
                  && (c.finished.value.HarnessError? ==> m.output == c.finished.value.text))
            && (m.ToolReply? && c.refused.Some? ==>
                  && m.isError && m.replyCode == (if c.refused == Some(AtCapacity) then "capacity" else "")
                  && m.output == if c.refused == Some(AtCapacity) then "full" else "unavailable")
            && (c.refused.Some? ==> c.acquired == 0 && c.ran == 0)
  {
    hide CallStep;
    assert Inv(Begin(tools, concurrency)) by { assert Holders([]) == {}; }
    RunIsTrue(Begin(tools, concurrency), events);
    InvOf(tools, concurrency, events);
    var c := Run(Begin(tools, concurrency), events).value.calls[i];
    assert Truthful(c) && CallInv(c);
    assert MessageIsTrue(c, c.out[k].body);
    ShapeIsASet(c.out);
  }

  // ----- the loop that waits for a tool

  /** What the wait's select picked: the tool's outcome, or a tick of the keepalive timer. */
  datatype Wake = ToolDone(outcome: ToolOutcome) | Ticked(attempt: Attempt)

  /** A running call, stepped through what its wait wakes for until the tool is done. */
  function Await(c: ToolCall, wakes: seq<Wake>): ToolCall
    requires c.phase.Running?
    decreases |wakes|
  {
    if wakes == [] then c
    else
      match wakes[0]
      case ToolDone(outcome) => CallStep(c, Finish(outcome), true, true).value
      case Ticked(attempt) => Await(CallStep(c, Tick(attempt), true, true).value, wakes[1..])
  }

  /** The wait itself, over the call's stream; it refines the steps of the call. */
  method AwaitTool(wakes: seq<Wake>, stream: ReplyStream, ghost c: ToolCall) returns (res: Option<ToolOutcome>)
    requires stream.Valid() && c.phase == Running(true) && c.out == stream.sink.wire
    modifies stream, stream.sink
    ensures stream.Valid() && stream.sink.wire == Await(c, wakes).out
    ensures res.Some? ==> Await(c, wakes).phase.Replying? && Says(Await(c, wakes).phase.reply, res.value)
    ensures res.Some? ==> Await(c, wakes).finished == Some(res.value)
    ensures res.None? ==> Await(c, wakes).phase.Running?
  {
    var alive := true;
    var i := 0;
    ghost var at := c;
    while i < |wakes|
      invariant 0 <= i <= |wakes| && stream.Valid()
      invariant at.phase == Running(alive) && at.out == stream.sink.wire
      invariant Await(c, wakes) == Await(at, wakes[i..])
    {
      match wakes[i] {
        case ToolDone(outcome) => return Some(outcome);
        case Ticked(attempt) =>
          at := CallStep(at, Tick(attempt), true, true).value;
          if alive {
            var err := stream.Event("running-tool", attempt);
            alive := err.None?;
          }
          i := i + 1;
      }
    }
    return None;
  }
}
