/**
  One question of a task, from the moment a handler is asked to what became of the answer.
  A select loop reads its events from a list: the order the runtime would have picked.
 */
module Questions {
  import opened Wrappers
  import opened Wire

  datatype AnswerKind = Choice | Confirmed | Index | Value | NoOperator | Waiting

  datatype ElicitReply = ElicitReply(
    answer: AnswerKind, choice: string, confirmed: bool, index: int, value: string)

  datatype Answer = Answer(
    toolUseId: string, kind: ElicitKind, answer: AnswerKind, choice: string, confirmed: bool, value: string)

  /** That an answer decides for the call what a reply decided for the question. */
  predicate Decides(a: Answer, ask: ElicitRequest, reply: ElicitReply) {
    && a.toolUseId == ask.toolUseId && a.kind == ask.kind
    && a.choice == reply.choice && a.confirmed == reply.confirmed
    && if reply.answer == Index
       then 0 <= reply.index < |ask.options| && a.answer == Value && a.value == ask.options[reply.index]
       else a.answer == reply.answer && a.value == reply.value
  }

  /** The answer a later request carries, which names a selected option by its text. */
  function NewAnswer(ask: ElicitRequest, reply: ElicitReply): (a: Option<Answer>)
    ensures a.None? <==> reply.answer == Index && !(0 <= reply.index < |ask.options|)
    ensures a.Some? ==> Decides(a.value, ask, reply)
  {
    if reply.answer != Index then
      Some(Answer(ask.toolUseId, ask.kind, reply.answer, reply.choice, reply.confirmed, reply.value))
    else if 0 <= reply.index < |ask.options| then
      Some(Answer(ask.toolUseId, ask.kind, Value, reply.choice, reply.confirmed, ask.options[reply.index]))
    else None
  }

  // ----- how often to say somebody is still there

  const NANOS: int := 1_000_000
  const MAX_MILLIS: int := 0x7fff_ffff_ffff_ffff / NANOS

  /** A product as Go's int64 holds it. */
  function Int64(x: int): int {
    (x + 0x8000_0000_0000_0000) % 0x1_0000_0000_0000_0000 - 0x8000_0000_0000_0000
  }

  /** A third of the window in nanoseconds, truncating toward zero as Go divides. */
  function AckInterval(ask: ElicitRequest): int {
    if ask.waitMillis <= 0 then 0
    else
      var window := Int64(ask.waitMillis * NANOS);
      if window >= 0 then window / 3 else -(-window / 3)
  }

  /**
    While the window fits an int64 of nanoseconds, two acks may be lost before it closes.
   */
  lemma ThreeIntervalsFitTheWindow(ask: ElicitRequest)
    requires ask.waitMillis <= MAX_MILLIS
    ensures AckInterval(ask) > 0 <==> ask.waitMillis > 0
    ensures ask.waitMillis > 0 ==> 3 * AckInterval(ask) <= ask.waitMillis * NANOS < 3 * (AckInterval(ask) + 1)
  {
    if ask.waitMillis > 0 {
      var window := ask.waitMillis * NANOS;
      assert 3 <= window <= 0x7fff_ffff_ffff_ffff;
      assert Int64(window) == window;
    }
  }

  // ----- waiting for a person

  /** What an Answer call came back with: an error, no ack, or what the ack said. */
  datatype Reply = CallFailed | NoAck | Acked(accepted: bool)

  predicate Refused(r: Reply) {
    r == CallFailed || r == Acked(false)
  }

  datatype HandlerResult = Decided(reply: ElicitReply) | Dismissed | HandlerFailed

  datatype Event = HandlerDone(result: HandlerResult) | ContextDone | Ticked(reply: Reply)

  datatype Wait = Answered(result: HandlerResult) | Canceled | StillWaiting

  /**
    The wait a list of events leads to and the replies to the waiting acks sent on the way.
    A refused ack ends the acking, not the wait.
   */
  function WaitOf(events: seq<Event>, quiet: bool): (Wait, seq<Reply>) {
    if events == [] then (StillWaiting, [])
    else
      match events[0]
      case HandlerDone(result) => (Answered(result), [])
      case ContextDone => (Canceled, [])
      case Ticked(reply) =>
        var rest := WaitOf(events[1..], quiet || Refused(reply));
        (rest.0, if quiet then rest.1 else [reply] + rest.1)
  }

  /** With no window nothing is said and only the handler ends the wait. */
  function WaitSilently(events: seq<Event>): Wait {
    if events == [] then StillWaiting
    else if events[0].HandlerDone? then Answered(events[0].result)
    else WaitSilently(events[1..])
  }

  function WaitFor(ask: ElicitRequest, events: seq<Event>): (Wait, seq<Reply>) {
    if AckInterval(ask) <= 0 then (WaitSilently(events), []) else WaitOf(events, false)
  }

  lemma OneAck(acks: seq<Reply>, reply: Reply, rest: seq<Reply>)
    ensures acks + ([reply] + rest) == acks + [reply] + rest
  {
  }

  /** After a refused ack only the handler and the caller's context are left to wait on. */
  method WaitQuietly(events: seq<Event>) returns (wait: Wait)
    ensures (wait, []) == WaitOf(events, true)
  {
    wait := StillWaiting;
    for i := 0 to |events|
      invariant wait == StillWaiting && WaitOf(events, true) == WaitOf(events[i..], true)
    {
      assert events[i..][0] == events[i] && events[i..][1..] == events[i + 1..];
      match events[i] {
        case HandlerDone(result) => return Answered(result);
        case ContextDone => return Canceled;
        case Ticked(_) =>
      }
    }
    assert events[|events|..] == [];
  }

  method WaitForAnswer(ask: ElicitRequest, events: seq<Event>) returns (wait: Wait, acks: seq<Reply>)
    ensures (wait, acks) == WaitFor(ask, events)
  {
    wait, acks := StillWaiting, [];
    var i := 0;
    if AckInterval(ask) <= 0 {
      while i < |events|
        invariant 0 <= i <= |events| && wait == StillWaiting && acks == []
        invariant WaitSilently(events) == WaitSilently(events[i..])
      {
        assert events[i..][0] == events[i] && events[i..][1..] == events[i + 1..];
        if events[i].HandlerDone? {
          return Answered(events[i].result), acks;
        }
        i := i + 1;
      }
      assert events[i..] == [];
      return;
    }
    while i < |events|
      invariant 0 <= i <= |events| && wait == StillWaiting
      invariant WaitOf(events, false).0 == WaitOf(events[i..], false).0
      invariant WaitOf(events, false).1 == acks + WaitOf(events[i..], false).1
    {
      assert acks + [] == acks;
      assert events[i..][0] == events[i] && events[i..][1..] == events[i + 1..];
      match events[i] {
        case HandlerDone(result) => return Answered(result), acks;
        case ContextDone => return Canceled, acks;
        case Ticked(reply) =>
          OneAck(acks, reply, WaitOf(events[i + 1..], Refused(reply)).1);
          acks := acks + [reply];
          i := i + 1;
          if Refused(reply) {
            assert acks + [] == acks;
            wait := WaitQuietly(events[i..]);
            return;
          }
      }
    }
    assert events[i..] == [] && acks + [] == acks;
  }

  /** The first event that ends the wait, or the end of the list. */
  function Ending(events: seq<Event>): (n: nat)
    ensures n <= |events|
    ensures forall i :: 0 <= i < n ==> events[i].Ticked?
    ensures n < |events| ==> !events[n].Ticked?
  {
    if events == [] || !events[0].Ticked? then 0 else 1 + Ending(events[1..])
  }

  /**
    The acks are the ticks before the ending, in order, up to and including the first that
    was refused: none is sent after a refusal or after the answer is in hand, and none is
    skipped before.
   */
  lemma {:induction false} AcksStopAtRefusal(events: seq<Event>)
    ensures var (wait, acks) := WaitOf(events, false);
            && |acks| <= Ending(events)
            && (forall i :: 0 <= i < |acks| ==> events[i].reply == acks[i])
            && (forall i :: 0 <= i < |acks| - 1 ==> acks[i] == Acked(true) || acks[i] == NoAck)
            && (|acks| < Ending(events) ==> acks != [] && acks[|acks| - 1] in {CallFailed, Acked(false)})
  {
    if events != [] && events[0].Ticked? {
      if Refused(events[0].reply) {
        QuietSaysNothing(events[1..]);
      } else {
        AcksStopAtRefusal(events[1..]);
      }
    }
  }

  lemma {:induction false} QuietSaysNothing(events: seq<Event>)
    ensures WaitOf(events, true).1 == []
    ensures WaitOf(events, true).0 == WaitOf(events, false).0
  {
    if events != [] && events[0].Ticked? {
      QuietSaysNothing(events[1..]);
      if !Refused(events[0].reply) {
        assert WaitOf(events, false).0 == WaitOf(events[1..], false).0;
      }
    }
  }

  // ----- what became of the question

  datatype Outcome = Outcome(answered: bool, held: Option<Answer>)

  const NOTHING := Outcome(false, None)

  /** What went to the agent for one question. */
  datatype Outgoing = WaitingAck | Delivered(reply: ElicitReply)

  function Repeat(n: nat): (acks: seq<Outgoing>)
    ensures |acks| == n && forall i :: 0 <= i < n ==> acks[i] == WaitingAck
  {
    seq(n, i => WaitingAck)
  }

  predicate DecidedWith(wait: Wait) {
    wait.Answered? && wait.result.Decided?
  }

  /** What becomes of a question, given how the wait ended and how the agent took the answer. */
  function OutcomeOf(ask: ElicitRequest, wait: Wait, taken: Reply): Outcome {
    if !DecidedWith(wait) then NOTHING
    else if taken != CallFailed then Outcome(true, None)
    else if wait.result.reply.answer == NoOperator then NOTHING
    else Outcome(false, NewAnswer(ask, wait.result.reply))
  }

  method AnswerQuestion(ask: ElicitRequest, events: seq<Event>, taken: Reply)
    returns (outcome: Outcome, sent: seq<Outgoing>)
    ensures var (wait, acks) := WaitFor(ask, events);
            && outcome == OutcomeOf(ask, wait, taken)
            && sent == Repeat(|acks|) +
                 if wait.Answered? && wait.result.Decided? then [Delivered(wait.result.reply)] else []
  {
    var wait, acks := WaitForAnswer(ask, events);
    sent := Repeat(|acks|);
    if !DecidedWith(wait) {
      return NOTHING, sent;
    }
    var reply := wait.result.reply;
    sent := sent + [Delivered(reply)];
    if taken != CallFailed {
      return Outcome(true, None), sent;
    }
    if reply.answer == NoOperator {
      return NOTHING, sent;
    }
    var held := NewAnswer(ask, reply);
    if held.None? {
      return NOTHING, sent;
    }
    return Outcome(false, held), sent;
  }

  /** What became of a question, told from how its wait ended and how the agent took the answer. */
  predicate Became(ask: ElicitRequest, wait: Wait, taken: Reply, o: Outcome) {
    var decided := wait.Answered? && wait.result.Decided?;
    && (o.answered <==> decided && taken != CallFailed)
    && (o.held.Some? <==>
        && decided && taken == CallFailed && wait.result.reply.answer != NoOperator
        && (wait.result.reply.answer == Index ==> 0 <= wait.result.reply.index < |ask.options|))
    && (o.held.Some? ==> Decides(o.held.value, ask, wait.result.reply))
  }

  /**
    No question is both answered and held, and one nobody decided is neither. One that was
    decided and could not be sent is held, if its choice is one the question offered; and
    what is held decides what the person decided.
   */
  lemma AnsweredOrHeld(ask: ElicitRequest, events: seq<Event>, taken: Reply)
    ensures var wait := WaitFor(ask, events).0; var o := OutcomeOf(ask, wait, taken);
            && !(o.answered && o.held.Some?)
            && Became(ask, wait, taken, o)
  {
    OutcomeBecame(ask, WaitFor(ask, events).0, taken);
  }

  lemma OutcomeBecame(ask: ElicitRequest, wait: Wait, taken: Reply)
    ensures Became(ask, wait, taken, OutcomeOf(ask, wait, taken))
  {
  }

  /** The first time the handler is done, or the end of the list. */
  function Done(events: seq<Event>): (n: nat)
    ensures n <= |events|
    ensures forall i :: 0 <= i < n ==> !events[i].HandlerDone?
    ensures n < |events| ==> events[n].HandlerDone?
  {
    if events == [] || events[0].HandlerDone? then 0 else 1 + Done(events[1..])
  }

  /**
    What the wait comes to is what ended it: the handler's result, or the caller's context.
    A question with no window waits for its handler whatever the context does.
   */
  lemma WaitEndsWithItsEnding(ask: ElicitRequest, events: seq<Event>)
    ensures var wait := WaitFor(ask, events).0; var n := Ending(events); var m := Done(events);
            && (AckInterval(ask) > 0 ==>
                  wait == (if n == |events| then StillWaiting
                           else if events[n].HandlerDone? then Answered(events[n].result) else Canceled))
            && (AckInterval(ask) <= 0 ==> wait == if m == |events| then StillWaiting else Answered(events[m].result))
            && (AckInterval(ask) <= 0 ==> WaitFor(ask, events).1 == [])
  {
    if AckInterval(ask) > 0 {
      EndsWith(events, false);
    } else {
      SilentEndsWith(events);
    }
  }

  lemma {:induction false} EndsWith(events: seq<Event>, quiet: bool)
    ensures var n := Ending(events);
            WaitOf(events, quiet).0 == (if n == |events| then StillWaiting
                                        else if events[n].HandlerDone? then Answered(events[n].result) else Canceled)
  {
    if events != [] && events[0].Ticked? {
      EndsWith(events[1..], quiet || Refused(events[0].reply));
    }
  }

  lemma {:induction false} SilentEndsWith(events: seq<Event>)
    ensures var m := Done(events);
            WaitSilently(events) == if m == |events| then StillWaiting else Answered(events[m].result)
  {
    if events != [] && !events[0].HandlerDone? {
      SilentEndsWith(events[1..]);
    }
  }

  /**
    A person's decision is meant to survive the question being gone, which the agent says
    with an error or with a refusing ack. The outcome reports it undelivered exactly when
    the call failed: a refusing ack to the answer itself is reported as answered, and the
    decision is kept nowhere.
   */
  lemma DecisionSurvivesUnlessAckRefuses(ask: ElicitRequest, wait: Wait, taken: Reply)
    requires DecidedWith(wait) && wait.result.reply.answer != NoOperator
    requires NewAnswer(ask, wait.result.reply).Some? && Refused(taken)
    ensures OutcomeOf(ask, wait, taken).held == NewAnswer(ask, wait.result.reply) <==> taken != Acked(false)
    ensures taken == Acked(false) ==> OutcomeOf(ask, wait, taken) == Outcome(true, None)
  {
  }
}
