/**
  The reader of one tool call's reply set, and its agreement with the server: on what the
  answer was, across a channel that loses messages, and on when to stop waiting.
 */
module ToolSets {
  import opened Wrappers
  import opened Wire
  import opened ReplyStreams
  import ToolServers
  import Gaps

  /** What one bounded read came back with. */
  datatype Arrival =
    | Heard(message: Message)
    | Quiet          // the idle bound expired with the caller's own context alive
    | Broken         // the reader or the caller's context failed
    | Oversize
    | Malformed

  datatype ReplyError = AgentUnavailable | ReadFailed | TooLarge | InvalidMessage | ProtocolMismatch

  /** What a set reads to, and None while it has not ended. */
  function Read(acked: bool, arrivals: seq<Arrival>): Option<Result<Message, ReplyError>>
    decreases |arrivals|
  {
    if arrivals == [] then None
    else
      match arrivals[0]
      case Quiet => Some(Err(AgentUnavailable))
      case Broken => Some(Err(ReadFailed))
      case Oversize => Some(Err(ReplyError.TooLarge))
      case Malformed => Some(Err(InvalidMessage))
      case Heard(m) =>
        if m.ToolReply? then Some(Ok(m))
        else if m.Event? || (m.Ack? && !acked) then Read(acked || m.Ack?, arrivals[1..])
        else Some(Err(ProtocolMismatch))
  }

  class ToolSet {
    var acked: bool

    constructor ()
      ensures !acked
    {
      acked := false;
    }

    method Reply(arrivals: seq<Arrival>) returns (r: Option<Result<Message, ReplyError>>)
      modifies this
      ensures r == Read(old(acked), arrivals)
    {
      var i := 0;
      while i < |arrivals|
        invariant 0 <= i <= |arrivals|
        invariant Read(old(acked), arrivals) == Read(acked, arrivals[i..])
      {
        var next := Next(arrivals[i]);
        if next.Err? {
          return Some(Err(next.error));
        }
        match next.value {
          case Ack(_, _, _) =>
            if acked {
              return Some(Err(ProtocolMismatch));
            }
            acked := true;
          case Event(_) =>
          case ToolReply(_, _, _) => return Some(Ok(next.value));
          case _ => return Some(Err(ProtocolMismatch));
        }
        i := i + 1;
      }
      return None;
    }

    method Next(a: Arrival) returns (r: Result<Message, ReplyError>)
      ensures a.Heard? ==> r == Ok(a.message)
      ensures !a.Heard? ==> r.Err? && Some(Err(r.error)) == Read(acked, [a])
    {
      match a
      case Heard(m) => r := Ok(m);
      case Quiet => r := Err(AgentUnavailable);
      case Broken => r := Err(ReadFailed);
      case Oversize => r := Err(ReplyError.TooLarge);
      case Malformed => r := Err(InvalidMessage);
    }
  }

  // ----- agreeing on the answer

  function Hearing(ms: seq<Sent>): seq<Arrival> {
    seq(|ms|, i requires 0 <= i < |ms| => Heard(ms[i].body))
  }

  predicate OneAck(ms: seq<Sent>) {
    forall i, j :: 0 <= i < j < |ms| ==> !(ms[i].body.Ack? && ms[j].body.Ack?)
  }

  /** A set that reads to its reply: at most one ack, keepalives, and the reply last. */
  predicate Readable(ms: seq<Sent>, acked: bool) {
    && ms != [] && ms[|ms| - 1].body.ToolReply?
    && (forall i :: 0 <= i < |ms| - 1 ==> ms[i].body.Event? || ms[i].body.Ack?)
    && OneAck(ms)
    && (acked ==> forall i :: 0 <= i < |ms| ==> !ms[i].body.Ack?)
  }

  lemma {:induction false} ReadableReads(ms: seq<Sent>, acked: bool)
    requires Readable(ms, acked)
    ensures Read(acked, Hearing(ms)) == Some(Ok(ms[|ms| - 1].body))
    decreases |ms|
  {
    if |ms| > 1 {
      assert Hearing(ms)[1..] == Hearing(ms[1..]);
      ReadableReads(ms[1..], acked || ms[0].body.Ack?);
    }
  }

  predicate AllBut(ms: seq<Sent>, n: nat)
    requires n <= |ms|
  {
    forall i :: 0 <= i < n ==> ms[i].body.Event? || ms[i].body.Ack?
  }

  /** A channel that only loses messages puts no second ack and nothing foreign in a set. */
  lemma {:induction false} DeliveryStaysInSet(sent: seq<Sent>, kept: seq<bool>)
    requires |sent| == |kept| && OneAck(sent) && AllBut(sent, |sent|)
    ensures var got := Gaps.Deliver(sent, kept);
            && OneAck(got) && AllBut(got, |got|)
            && ((forall i :: 0 <= i < |sent| ==> !sent[i].body.Ack?) ==> forall i :: 0 <= i < |got| ==> !got[i].body.Ack?)
  {
    if sent != [] {
      var last := |sent| - 1;
      var before := Gaps.Deliver(sent[..last], kept[..last]);
      DeliveryStaysInSet(sent[..last], kept[..last]);
      if kept[last] {
        assert Gaps.Deliver(sent, kept) == before + [sent[last]];
        assert sent[last].body.Ack? ==> forall i :: 0 <= i < last ==> !sent[..last][i].body.Ack?;
      } else {
        assert Gaps.Deliver(sent, kept) == before;
      }
    }
  }

  lemma DeliveredIsReadable(sent: seq<Sent>, kept: seq<bool>)
    requires |sent| == |kept| && Readable(sent, false) && kept[|kept| - 1]
    ensures var got := Gaps.Deliver(sent, kept);
            Readable(got, false) && got[|got| - 1] == sent[|sent| - 1]
  {
    var last := |sent| - 1;
    DeliveryStaysInSet(sent[..last], kept[..last]);
    assert Gaps.Deliver(sent, kept) == Gaps.Deliver(sent[..last], kept[..last]) + [sent[last]];
  }

  /**
    The server and the reader agree, on what the tool came back with and on what a call was
    refused for. Whatever the server's run, the calls beside it and the
    sends that failed, a call whose reply went out reads to exactly that reply once the
    reply is delivered, whichever of the messages before it were lost.
   */
  lemma ReaderReturnsWhatTheServerAnswered(
      tools: set<string>, concurrency: nat, events: seq<ToolServers.Event>, call: nat, kept: seq<bool>)
    requires ToolServers.Run(ToolServers.Begin(tools, concurrency), events).Some?
    requires var s := ToolServers.Run(ToolServers.Begin(tools, concurrency), events).value;
             && call < |s.calls| && |kept| == |s.calls[call].out| > 0 && kept[|kept| - 1]
             && s.calls[call].out[|kept| - 1].body.ToolReply?
    ensures var c := ToolServers.Run(ToolServers.Begin(tools, concurrency), events).value.calls[call];
            var answer := c.out[|c.out| - 1].body;
            && Read(false, Hearing(Gaps.Deliver(c.out, kept))) == Some(Ok(answer))
            && (c.refused.None? ==>
                  && c.finished.Some? && (answer.isError <==> !c.finished.value.Output?)
                  && (c.finished.value.Output? ==> answer.output == c.finished.value.output)
                  && (c.finished.value.HarnessError? ==> answer.output == c.finished.value.text))
            && (c.refused.Some? ==>
                  answer.isError && (answer.replyCode == "capacity" <==> c.refused == Some(ToolServers.AtCapacity)))
  {
    ToolServers.RepliesSayWhatHappened(tools, concurrency, events, call, |kept| - 1);
    ToolServers.EveryOutputIsAPrefixOfASet(tools, concurrency, events, call);
    var out := ToolServers.Run(ToolServers.Begin(tools, concurrency), events).value.calls[call].out;
    assert Readable(out, false);
    DeliveredIsReadable(out, kept);
    ReadableReads(Gaps.Deliver(out, kept), false);
  }

  /** A second ack ends the read with an error, wherever keepalives put it. */
  lemma {:induction false} SecondAckIsRejected(acked: bool, before: seq<Arrival>, rest: seq<Arrival>, ack: Message)
    requires forall i :: 0 <= i < |before| ==> before[i].Heard? && (before[i].message.Event? || before[i].message.Ack?)
    requires ack.Ack? && (acked || exists i :: 0 <= i < |before| && before[i].message.Ack?)
    ensures Read(acked, before + [Heard(ack)] + rest) == Some(Err(ProtocolMismatch))
    decreases |before|
  {
    var all := before + [Heard(ack)] + rest;
    if before != [] {
      assert all[0] == before[0] && all[1..] == before[1..] + [Heard(ack)] + rest;
      if !(acked && before[0].message.Ack?) {
        SecondAckIsRejected(acked || before[0].message.Ack?, before[1..], rest, ack);
      }
    }
  }

  /** What a read stops at, and what it then returns: the reply, or the error of what came instead. */
  predicate StopsAt(a: Arrival, acked: bool, r: Result<Message, ReplyError>) {
    match a
    case Quiet => r == Err(AgentUnavailable)
    case Broken => r == Err(ReadFailed)
    case Oversize => r == Err(ReplyError.TooLarge)
    case Malformed => r == Err(InvalidMessage)
    case Heard(m) =>
      if m.ToolReply? then r == Ok(m) else !m.Event? && !(m.Ack? && !acked) && r == Err(ProtocolMismatch)
  }

  /**
    A read goes on over keepalives and one ack, and stops at the first other thing: at a
    reply with it, at silence, a failure, an oversize or a malformed message, a second ack or
    a foreign message with the error of that, whatever would have come after.
   */
  lemma {:induction false} ReadsToTheFirstOther(acked: bool, before: seq<Arrival>, stop: Arrival, rest: seq<Arrival>)
    requires forall i :: 0 <= i < |before| ==> before[i].Heard? && (before[i].message.Event? || before[i].message.Ack?)
    requires forall i :: 0 <= i < |before| && before[i].message.Ack? ==>
               !acked && forall j :: 0 <= j < i ==> !before[j].message.Ack?
    requires var all := acked || exists i :: 0 <= i < |before| && before[i].message.Ack?;
             stop.Heard? ==> !stop.message.Event? && (stop.message.Ack? ==> all)
    ensures var all := acked || exists i :: 0 <= i < |before| && before[i].message.Ack?;
            var r := Read(acked, before + [stop] + rest);
            r.Some? && StopsAt(stop, all, r.value)
    decreases |before|
  {
    var whole := before + [stop] + rest;
    if before != [] {
      var now := acked || before[0].message.Ack?;
      assert whole[0] == before[0] && whole[1..] == before[1..] + [stop] + rest;
      assert forall i :: 0 <= i < |before[1..]| ==> before[1..][i] == before[i + 1];
      ReadsToTheFirstOther(now, before[1..], stop, rest);
      assert (now || exists i :: 0 <= i < |before[1..]| && before[1..][i].message.Ack?) <==>
             (acked || exists i :: 0 <= i < |before| && before[i].message.Ack?) by {
        if i :| 0 < i < |before| && before[i].message.Ack? {
          assert before[1..][i - 1].message.Ack?;
        }
      }
    }
  }

  // ----- agreeing on when to stop waiting

  const KEEPALIVE_INTERVAL: nat := 10_000
  const DEFAULT_IDLE_TIMEOUT: nat := 120_000

  /** How long a client waits for each message: what was asked for, raised to the floor. */
  function IdleTimeout(configured: Option<int>): (idle: nat)
    ensures idle >= 3 * KEEPALIVE_INTERVAL
    ensures configured.Some? && configured.value >= 3 * KEEPALIVE_INTERVAL ==> idle == configured.value
    ensures configured.Some? && 0 < configured.value < 3 * KEEPALIVE_INTERVAL ==> idle == 3 * KEEPALIVE_INTERVAL
    ensures configured.None? || configured.value <= 0 ==> idle == DEFAULT_IDLE_TIMEOUT
  {
    if configured.None? || configured.value <= 0 then DEFAULT_IDLE_TIMEOUT
    else if configured.value < 3 * KEEPALIVE_INTERVAL then 3 * KEEPALIVE_INTERVAL
    else configured.value
  }

  /** A message put on the wire: when it was sent, how long it took, and whether it was lost. */
  datatype Beat = Beat(sentAt: nat, delay: nat, lost: bool, message: Sent)

  /** What a reader that last heard something at some time hears of the rest of a call. */
  function Hear(beats: seq<Beat>, lastHeard: nat, idle: nat): seq<Arrival> {
    if beats == [] then []
    else if beats[0].lost then Hear(beats[1..], lastHeard, idle)
    else
      var at := beats[0].sentAt + beats[0].delay;
      if at >= lastHeard + idle then [Quiet]
      else [Heard(beats[0].message.body)] + Hear(beats[1..], at, idle)
  }

  /**
    A call that is running: something is sent within every keepalive interval, delivery
    takes less than one, and no two messages in a row are lost.
   */
  predicate Steady(beats: seq<Beat>, from: nat, justLost: bool) {
    beats != [] ==>
      && from <= beats[0].sentAt <= from + KEEPALIVE_INTERVAL
      && beats[0].delay < KEEPALIVE_INTERVAL
      && !(justLost && beats[0].lost)
      && Steady(beats[1..], beats[0].sentAt, beats[0].lost)
  }

  function Flags(beats: seq<Beat>): seq<bool> {
    seq(|beats|, i requires 0 <= i < |beats| => !beats[i].lost)
  }

  function Sends(beats: seq<Beat>): seq<Sent> {
    seq(|beats|, i requires 0 <= i < |beats| => beats[i].message)
  }

  /** A reader that has heard within the interval hears everything that is not lost. */
  lemma {:induction false} SteadyIsHeard(beats: seq<Beat>, from: nat, justLost: bool, lastHeard: nat, idle: nat)
    requires Steady(beats, from, justLost) && idle >= 3 * KEEPALIVE_INTERVAL
    requires from <= lastHeard + if justLost then KEEPALIVE_INTERVAL else 0
    ensures Hear(beats, lastHeard, idle) == Hearing(Heeded(beats))
    decreases |beats|
  {
    if beats != [] {
      var b := beats[0];
      if b.lost {
        SteadyIsHeard(beats[1..], b.sentAt, true, lastHeard, idle);
      } else {
        SteadyIsHeard(beats[1..], b.sentAt, false, b.sentAt + b.delay, idle);
        assert Hearing([b.message] + Heeded(beats[1..])) == [Heard(b.message.body)] + Hearing(Heeded(beats[1..]));
      }
    }
  }

  /** The messages of the beats that were not lost. */
  function Heeded(beats: seq<Beat>): seq<Sent> {
    if beats == [] then []
    else if beats[0].lost then Heeded(beats[1..])
    else [beats[0].message] + Heeded(beats[1..])
  }

  lemma {:induction false} HeededIsDelivered(beats: seq<Beat>)
    ensures Heeded(beats) == Gaps.Deliver(Sends(beats), Flags(beats))
    decreases |beats|
  {
    if beats != [] {
      HeededIsDelivered(beats[1..]);
      DeliverFromFront(Sends(beats), Flags(beats));
      assert Sends(beats)[1..] == Sends(beats[1..]) && Flags(beats)[1..] == Flags(beats[1..]);
    }
  }

  lemma {:induction false} DeliverFromFront(sent: seq<Sent>, kept: seq<bool>)
    requires |sent| == |kept| > 0
    ensures Gaps.Deliver(sent, kept) == (if kept[0] then [sent[0]] else []) + Gaps.Deliver(sent[1..], kept[1..])
  {
    var last := |sent| - 1;
    if last == 0 {
      assert Gaps.Deliver(sent[..0], kept[..0]) == [];
    } else {
      DeliverFromFront(sent[..last], kept[..last]);
      assert sent[..last][1..] == sent[1..][..last - 1] && kept[..last][1..] == kept[1..][..last - 1];
    }
  }

  // ----- the server's side of the wait, on a clock

  predicate GoesOut(a: Attempt) {
    a.marshals && a.size <= MAX_MESSAGE_SIZE && a.sinkTakes
  }

  /** How many of a call's ticks send a keepalive: all up to the first whose send fails, and none after. */
  function TicksSent(ticks: seq<Attempt>): (n: nat)
    ensures n <= |ticks|
    ensures n == |ticks| <==> AllGoOut(ticks)
  {
    if ticks == [] || !GoesOut(ticks[0]) then 0 else 1 + TicksSent(ticks[1..])
  }

  predicate AllGoOut(ticks: seq<Attempt>) {
    forall i :: 0 <= i < |ticks| ==> GoesOut(ticks[i])
  }

  function Wakes(ticks: seq<Attempt>, outcome: ToolServers.ToolOutcome): seq<ToolServers.Wake> {
    if ticks == [] then [ToolServers.ToolDone(outcome)]
    else [ToolServers.Ticked(ticks[0])] + Wakes(ticks[1..], outcome)
  }

  function Keepalives(from: nat, n: nat): (ms: seq<Sent>)
    ensures |ms| == n && forall i :: 0 <= i < n ==> ms[i] == Sent(from + i + 1, ToolServers.KEEPALIVE, false)
  {
    seq(n, i requires 0 <= i < n => Sent(from + i + 1, ToolServers.KEEPALIVE, false))
  }

  lemma TickSends(c: ToolServers.ToolCall, tick: Attempt)
    requires c.phase.Running? && c.out != []
    ensures var next := ToolServers.CallStep(c, ToolServers.Tick(tick), true, true); var sends := c.phase.alive && GoesOut(tick);
            && next.Some? && next.value.phase == ToolServers.Running(sends)
            && next.value.out == c.out + Keepalives(|c.out|, if sends then 1 else 0)
  {
  }

  lemma KeepalivesJoin(from: nat, n: nat)
    ensures Keepalives(from, 1) + Keepalives(from + 1, n) == Keepalives(from, n + 1) && Keepalives(from, 0) == []
  {
  }

  lemma AwaitTick(c: ToolServers.ToolCall, tick: Attempt, rest: seq<ToolServers.Wake>)
    requires c.phase.Running?
    ensures var next := ToolServers.CallStep(c, ToolServers.Tick(tick), true, true);
            && next.Some? && next.value.phase.Running?
            && ToolServers.Await(c, [ToolServers.Ticked(tick)] + rest) == ToolServers.Await(next.value, rest)
  {
    assert ([ToolServers.Ticked(tick)] + rest)[1..] == rest;
  }

  lemma AwaitDone(c: ToolServers.ToolCall, outcome: ToolServers.ToolOutcome)
    requires c.phase.Running?
    ensures var d := ToolServers.Await(c, [ToolServers.ToolDone(outcome)]);
            d.phase.Replying? && ToolServers.Says(d.phase.reply, outcome) && d.out == c.out
  {
  }

  /** What the wait for a tool puts on the wire over its ticks. */
  lemma {:induction false} AwaitSends(c: ToolServers.ToolCall, ticks: seq<Attempt>, outcome: ToolServers.ToolOutcome)
    requires c.phase.Running? && c.out != []
    ensures var d := ToolServers.Await(c, Wakes(ticks, outcome));
            && d.phase.Replying? && ToolServers.Says(d.phase.reply, outcome)
            && d.out == c.out + Keepalives(|c.out|, if c.phase.alive then TicksSent(ticks) else 0)
    decreases |ticks|
  {
    hide ToolServers.CallStep, ToolServers.Await, Keepalives, GoesOut;
    KeepalivesJoin(|c.out|, 0);
    if ticks == [] {
      AwaitDone(c, outcome);
    } else {
      TickSends(c, ticks[0]);
      AwaitTick(c, ticks[0], Wakes(ticks[1..], outcome));
      AwaitSends(ToolServers.CallStep(c, ToolServers.Tick(ticks[0]), true, true).value, ticks[1..], outcome);
      KeepalivesJoin(|c.out|, TicksSent(ticks[1..]));
    }
  }

  /** What a served call has sent once its reply is out: the server's own steps, the ack and the reply taken. */
  function ServedOut(tool: string, ack: Attempt, ticks: seq<Attempt>, outcome: ToolServers.ToolOutcome, reply: Attempt)
    : (out: seq<Sent>)
    requires GoesOut(ack) && GoesOut(reply)
    ensures |out| == TicksSent(ticks) + 2 && ToolServers.Says(out[|out| - 1].body, outcome)
    ensures Readable(out, false)
  {
    var admitted := ToolServers.CallStep(ToolServers.Arrive(tool), ToolServers.Admit, true, true).value;
    var running := ToolServers.CallStep(admitted, ToolServers.SendAck(ack), true, true).value;
    AwaitSends(running, ticks, outcome);
    ToolServers.CallStep(ToolServers.Await(running, Wakes(ticks, outcome)), ToolServers.SendReply(reply), true, true).value.out
  }

  /** How one message crosses: in what time, if at all. */
  datatype Crossing = Crossing(delay: nat, lost: bool)

  /** A call's messages on the clock: the ack as it starts, a keepalive each interval, the reply as its tool is done. */
  function BeatsOf(out: seq<Sent>, start: nat, runs: nat, net: seq<Crossing>): (beats: seq<Beat>)
    requires |net| == |out|
    ensures |beats| == |out|
    ensures forall i :: 0 <= i < |out| ==>
              beats[i] == Beat(start + if i < |out| - 1 then i * KEEPALIVE_INTERVAL else runs, net[i].delay, net[i].lost, out[i])
  {
    seq(|out|, i requires 0 <= i < |out| =>
      Beat(start + if i < |out| - 1 then i * KEEPALIVE_INTERVAL else runs, net[i].delay, net[i].lost, out[i]))
  }

  /** A channel that delivers within an interval, loses no two messages in a row, and does not lose the last. */
  predicate Fair(net: seq<Crossing>) {
    && net != [] && !net[|net| - 1].lost
    && (forall i :: 0 <= i < |net| ==> net[i].delay < KEEPALIVE_INTERVAL)
    && forall i :: 0 <= i < |net| - 1 ==> !(net[i].lost && net[i + 1].lost)
  }

  /** When a reader that began to wait at some time last heard any of these. */
  function LastHeard(beats: seq<Beat>, from: nat): nat {
    if beats == [] then from
    else LastHeard(beats[1..], if beats[0].lost then from else beats[0].sentAt + beats[0].delay)
  }

  /** Messages sent no further apart than an interval, of which no two in a row are lost, are steady. */
  lemma {:induction false} EvenlySpaced(beats: seq<Beat>, from: nat, justLost: bool)
    requires beats != [] ==> from <= beats[0].sentAt <= from + KEEPALIVE_INTERVAL && !(justLost && beats[0].lost)
    requires forall i :: 0 <= i < |beats| ==> beats[i].delay < KEEPALIVE_INTERVAL
    requires forall i :: 0 <= i < |beats| - 1 ==>
               && beats[i].sentAt <= beats[i + 1].sentAt <= beats[i].sentAt + KEEPALIVE_INTERVAL
               && !(beats[i].lost && beats[i + 1].lost)
    ensures Steady(beats, from, justLost)
    decreases |beats|
  {
    if beats != [] {
      var rest := beats[1..];
      assert forall i :: 0 <= i < |rest| ==> rest[i] == beats[i + 1];
      EvenlySpaced(rest, beats[0].sentAt, beats[0].lost);
    }
  }

  /** Behind a steady part everything is heard, so what comes last is what can find the reader gone. */
  lemma {:induction false} HearsLast(beats: seq<Beat>, last: Beat, from: nat, justLost: bool, lastHeard: nat, idle: nat)
    requires Steady(beats, from, justLost) && idle >= 3 * KEEPALIVE_INTERVAL
    requires from <= lastHeard + if justLost then KEEPALIVE_INTERVAL else 0
    ensures Hear(beats + [last], lastHeard, idle) ==
            Hearing(Heeded(beats)) + Hear([last], LastHeard(beats, lastHeard), idle)
    decreases |beats|
  {
    if beats == [] {
      assert beats + [last] == [last] && Hearing([]) == [];
    } else {
      var b := beats[0];
      assert (beats + [last])[0] == b && (beats + [last])[1..] == beats[1..] + [last];
      if b.lost {
        HearsLast(beats[1..], last, b.sentAt, true, lastHeard, idle);
      } else {
        HearsLast(beats[1..], last, b.sentAt, false, b.sentAt + b.delay, idle);
        assert Hearing([b.message] + Heeded(beats[1..])) == [Heard(b.message.body)] + Hearing(Heeded(beats[1..]));
      }
    }
  }

  /** Some of a set's messages ahead of its reply do not end the read. */
  lemma {:induction false} ReadsOn(ms: seq<Sent>, acked: bool, rest: seq<Arrival>)
    requires AllBut(ms, |ms|) && OneAck(ms) && (acked ==> forall i :: 0 <= i < |ms| ==> !ms[i].body.Ack?)
    ensures exists now :: Read(acked, Hearing(ms) + rest) == Read(now, rest)
    decreases |ms|
  {
    if ms == [] {
      assert Hearing(ms) + rest == rest;
      assert Read(acked, Hearing(ms) + rest) == Read(acked, rest);
    } else {
      assert (Hearing(ms) + rest)[0] == Heard(ms[0].body) && (Hearing(ms) + rest)[1..] == Hearing(ms[1..]) + rest;
      ReadsOn(ms[1..], acked || ms[0].body.Ack?, rest);
    }
  }

  lemma {:induction false} LastHeardInTime(beats: seq<Beat>, from: nat, bound: nat)
    requires from < bound && forall i :: 0 <= i < |beats| ==> beats[i].sentAt + beats[i].delay < bound
    ensures LastHeard(beats, from) < bound
    decreases |beats|
  {
    if beats != [] {
      LastHeardInTime(beats[1..], if beats[0].lost then from else beats[0].sentAt + beats[0].delay, bound);
    }
  }

  /** What the last message of a call is heard as, by a reader that heard the ones before it. */
  lemma ReplyIsHeardOrNot(out: seq<Sent>, beats: seq<Beat>, start: nat, idle: nat)
    requires Readable(out, false) && |beats| == |out| && idle >= 3 * KEEPALIVE_INTERVAL
    requires forall i :: 0 <= i < |out| ==> beats[i].message == out[i]
    requires !beats[|beats| - 1].lost && Steady(beats[..|beats| - 1], start, false)
    ensures var last := beats[|beats| - 1];
            Read(false, Hear(beats, start, idle)) ==
            if last.sentAt + last.delay >= LastHeard(beats[..|beats| - 1], start) + idle
            then Some(Err(AgentUnavailable)) else Some(Ok(last.message.body))
  {
    var n := |beats| - 1;
    var front, last := beats[..n], beats[n];
    HearsLast(front, last, start, false, start, idle);
    assert beats == front + [last];
    HeededIsDelivered(front);
    assert Sends(front) == out[..n];
    DeliveryStaysInSet(out[..n], Flags(front));
    ReadsOn(Heeded(front), false, Hear([last], LastHeard(front, start), idle));
    assert [last][1..] == [];
  }

  /**
    A call on the clock of the server that serves it: the ack, the keepalives its ticks send,
    and the reply when the tool is done, over a fair channel, to a reader with any configured
    wait. The reader gives up exactly when the reply takes an idle window from what it last
    heard. Where every tick's send went out it never does, and returns the reply; where one
    did not, no more are sent, and it gives up on a call that runs an idle window longer.
   */
  lemma RunningCallIsNeverGivenUp(tool: string, ack: Attempt, ticks: seq<Attempt>, outcome: ToolServers.ToolOutcome,
                                  reply: Attempt, start: nat, runs: nat, net: seq<Crossing>, configured: Option<int>)
    requires GoesOut(ack) && GoesOut(reply)
    requires |ticks| * KEEPALIVE_INTERVAL <= runs <= (|ticks| + 1) * KEEPALIVE_INTERVAL
    requires Fair(net) && |net| == TicksSent(ticks) + 2
    ensures var out := ServedOut(tool, ack, ticks, outcome, reply);
            var beats := BeatsOf(out, start, runs, net);
            var idle, front, answer := IdleTimeout(configured), beats[..|beats| - 1], out[|out| - 1].body;
            var r := Read(false, Hear(beats, start, idle));
            && ToolServers.Says(answer, outcome)
            && r == (if start + runs + net[|net| - 1].delay >= LastHeard(front, start) + idle
                     then Some(Err(AgentUnavailable)) else Some(Ok(answer)))
            && (AllGoOut(ticks) ==> r == Some(Ok(answer)))
            && (!AllGoOut(ticks) && runs >= (TicksSent(ticks) + 1) * KEEPALIVE_INTERVAL + idle ==>
                  r == Some(Err(AgentUnavailable)))
  {
    hide Read, Hear, Steady, Readable, LastHeard, ServedOut, GoesOut, AllGoOut, ToolServers.ReplyOf;
    var out := ServedOut(tool, ack, ticks, outcome, reply);
    var beats := BeatsOf(out, start, runs, net);
    var idle, n := IdleTimeout(configured), |beats| - 1;
    EvenlySpaced(beats[..n], start, false);
    ReplyIsHeardOrNot(out, beats, start, idle);
    if TicksSent(ticks) == |ticks| {
      EvenlySpaced(beats, start, false);
      SteadyReads(out, beats, start, idle);
    } else {
      LastHeardInTime(beats[..n], start, start + n * KEEPALIVE_INTERVAL);
    }
  }

  /** A reader hears the whole of a call that is steady to its end. */
  lemma SteadyReads(out: seq<Sent>, beats: seq<Beat>, start: nat, idle: nat)
    requires Readable(out, false) && |beats| == |out| && idle >= 3 * KEEPALIVE_INTERVAL
    requires forall i :: 0 <= i < |out| ==> beats[i].message == out[i]
    requires Steady(beats, start, false) && !beats[|beats| - 1].lost
    ensures Read(false, Hear(beats, start, idle)) == Some(Ok(out[|out| - 1].body))
  {
    SteadyIsHeard(beats, start, false, start, idle);
    HeededIsDelivered(beats);
    assert Sends(beats) == out;
    DeliveredIsReadable(out, Flags(beats));
    ReadableReads(Gaps.Deliver(out, Flags(beats)), false);
  }

  /** The floor is as low as it can be: lose two keepalives in a row and the call is given up. */
  lemma TwoLostInARowIsGivenUp(ack: Sent, k1: Sent, k2: Sent, k3: Sent)
    ensures var beats := [Beat(0, 0, false, ack), Beat(KEEPALIVE_INTERVAL, 0, true, k1),
                          Beat(2 * KEEPALIVE_INTERVAL, 0, true, k2), Beat(3 * KEEPALIVE_INTERVAL, 0, false, k3)];
            Hear(beats, 0, IdleTimeout(Some(1))) == [Heard(ack.body), Quiet]
  {
    var beats := [Beat(0, 0, false, ack), Beat(KEEPALIVE_INTERVAL, 0, true, k1),
                  Beat(2 * KEEPALIVE_INTERVAL, 0, true, k2), Beat(3 * KEEPALIVE_INTERVAL, 0, false, k3)];
    var idle := IdleTimeout(Some(1));
    assert beats[1..][1..] == beats[2..] && beats[2..][1..] == beats[3..];
    assert Hear(beats[3..], 0, idle) == [Quiet];
    assert Hear(beats[2..], 0, idle) == [Quiet];
    assert Hear(beats[1..], 0, idle) == [Quiet];
  }
}
