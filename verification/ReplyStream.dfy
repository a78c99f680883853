/**
  The sender of one reply set: ReplyStream numbers what goes out, and only what goes out.
  A run of the stream is a list of calls, each with the environment's answer for it.
 */
module ReplyStreams {
  import opened Wrappers
  import opened Wire

  /** What the environment decides about one send: marshaling, the encoded size, the sink. */
  datatype Attempt = Attempt(marshals: bool, size: nat, sinkTakes: bool)

  datatype Call = Call(body: Message, attempt: Attempt)

  datatype SendError = AckNotFirst | UnknownQuestion | MarshalFailed | TooLarge | SinkRefused

  /** Why a call puts nothing on the wire, the checks in their order. */
  function Refusal(out: seq<Sent>, c: Call): (r: Option<SendError>)
    ensures r.None? <==>
            && c.attempt.marshals && c.attempt.size <= MAX_MESSAGE_SIZE && c.attempt.sinkTakes
            && (c.body.Ack? ==> out == []) && (c.body.Elicit? ==> c.body.ask.kind != Unnamed)
  {
    if c.body.Ack? && out != [] then Some(AckNotFirst)
    else if c.body.Elicit? && c.body.ask.kind == Unnamed then Some(UnknownQuestion)
    else if !c.attempt.marshals then Some(MarshalFailed)
    else if c.attempt.size > MAX_MESSAGE_SIZE then Some(TooLarge)
    else if !c.attempt.sinkTakes then Some(SinkRefused)
    else None
  }

  /** What is on the wire after a call, given what was on it before. */
  function After(out: seq<Sent>, c: Call): seq<Sent> {
    if Refusal(out, c) == None then out + [Sent(|out| + 1, c.body, c.body.Terminal())] else out
  }

  /** What a fresh stream has on the wire after a list of calls. */
  function Run(calls: seq<Call>): seq<Sent> {
    RunFrom([], calls)
  }

  function RunFrom(out: seq<Sent>, calls: seq<Call>): seq<Sent>
    decreases |calls|
  {
    if calls == [] then out else RunFrom(After(out, calls[0]), calls[1..])
  }

  /** The transport's side of a reply set: it appends what it takes and nothing else. */
  class Sink {
    var wire: seq<Sent>

    constructor ()
      ensures wire == []
    {
      wire := [];
    }

    method Take(m: Sent, takes: bool) returns (ok: bool)
      modifies this
      ensures ok == takes
      ensures wire == if takes then old(wire) + [m] else old(wire)
    {
      if takes {
        wire := wire + [m];
      }
      ok := takes;
    }
  }

  class ReplyStream {
    const sink: Sink
    var number: nat

    /** The counter is how many messages the sink took. */
    ghost predicate Valid()
      reads this, sink
    {
      number == |sink.wire|
    }

    constructor (sink: Sink)
      requires sink.wire == []
      ensures Valid() && this.sink == sink && number == 0
    {
      this.sink := sink;
      number := 0;
    }

    method Ack(body: Message, attempt: Attempt) returns (err: Option<SendError>)
      requires Valid() && body.Ack?
      modifies this, sink
      ensures Valid() && err == Refusal(old(sink.wire), Call(body, attempt))
      ensures sink.wire == After(old(sink.wire), Call(body, attempt))
    {
      if number != 0 {
        return Some(AckNotFirst);
      }
      var encoded := Encode(body, false, attempt);
      if encoded.Err? {
        return Some(encoded.error);
      }
      var ok := sink.Take(encoded.value, attempt.sinkTakes);
      if !ok {
        return Some(SinkRefused);
      }
      number := number + 1;
      return None;
    }

    method Event(block: string, attempt: Attempt) returns (err: Option<SendError>)
      requires Valid()
      modifies this, sink
      ensures Valid() && err == Refusal(old(sink.wire), Call(Message.Event(block), attempt))
      ensures sink.wire == After(old(sink.wire), Call(Message.Event(block), attempt))
    {
      err := Send(Message.Event(block), false, attempt);
    }

    method Terminate(body: Message, attempt: Attempt) returns (err: Option<SendError>)
      requires Valid() && body.Terminal()
      modifies this, sink
      ensures Valid() && err == Refusal(old(sink.wire), Call(body, attempt))
      ensures sink.wire == After(old(sink.wire), Call(body, attempt))
    {
      err := Send(body, true, attempt);
    }

    method Elicit(ask: ElicitRequest, attempt: Attempt) returns (err: Option<SendError>)
      requires Valid()
      modifies this, sink
      ensures Valid() && err == Refusal(old(sink.wire), Call(Message.Elicit(ask), attempt))
      ensures sink.wire == After(old(sink.wire), Call(Message.Elicit(ask), attempt))
    {
      if ask.kind == Unnamed {
        return Some(UnknownQuestion);
      }
      err := Send(Message.Elicit(ask), false, attempt);
    }

    /** Stamps the number the message would occupy; the counter moves only once it is out. */
    method Send(body: Message, final: bool, attempt: Attempt) returns (err: Option<SendError>)
      requires Valid() && !body.Ack? && final == body.Terminal()
      requires body.Elicit? ==> body.ask.kind != Unnamed
      modifies this, sink
      ensures Valid() && err == Refusal(old(sink.wire), Call(body, attempt))
      ensures sink.wire == After(old(sink.wire), Call(body, attempt))
    {
      var encoded := Encode(body, final, attempt);
      if encoded.Err? {
        return Some(encoded.error);
      }
      var ok := sink.Take(encoded.value, attempt.sinkTakes);
      if !ok {
        return Some(SinkRefused);
      }
      number := number + 1;
      return None;
    }

    method Encode(body: Message, final: bool, attempt: Attempt) returns (r: Result<Sent, SendError>)
      ensures r.Ok? <==> attempt.marshals && attempt.size <= MAX_MESSAGE_SIZE
      ensures r.Ok? ==> r.value == Sent(number + 1, body, final)
      ensures r.Err? ==> r.error == if attempt.marshals then TooLarge else MarshalFailed
    {
      if !attempt.marshals {
        return Err(MarshalFailed);
      }
      if attempt.size > MAX_MESSAGE_SIZE {
        return Err(TooLarge);
      }
      return Ok(Sent(number + 1, body, final));
    }
  }

  // ----- what every run of a stream keeps

  predicate Numbered(out: seq<Sent>) {
    forall i :: 0 <= i < |out| ==> out[i].number == i + 1
  }

  predicate AckOnlyFirst(out: seq<Sent>) {
    forall i :: 0 <= i < |out| && out[i].body.Ack? ==> i == 0
  }

  predicate FinalIsTerminal(out: seq<Sent>) {
    forall i :: 0 <= i < |out| ==> (out[i].final <==> out[i].body.TaskResult? || out[i].body.TaskError? || out[i].body.ToolReply?)
  }

  lemma {:induction false} RunFromKeeps(out: seq<Sent>, calls: seq<Call>)
    requires Numbered(out) && AckOnlyFirst(out) && FinalIsTerminal(out)
    ensures Numbered(RunFrom(out, calls)) && AckOnlyFirst(RunFrom(out, calls))
    ensures FinalIsTerminal(RunFrom(out, calls))
    decreases |calls|
  {
    if calls != [] {
      RunFromKeeps(After(out, calls[0]), calls[1..]);
    }
  }

  /**
    Whatever is called, and however the sink, the encoder and the size cap answer, what
    went out is numbered 1..n in order, and an ack that went out is unique and is number 1.
   */
  lemma NumberingIsGapFree(calls: seq<Call>)
    ensures forall i :: 0 <= i < |Run(calls)| ==> Run(calls)[i].number == i + 1
    ensures forall i :: 0 <= i < |Run(calls)| && Run(calls)[i].body.Ack? ==> Run(calls)[i].number == 1
    ensures forall i :: 0 <= i < |Run(calls)| ==>
              var body := Run(calls)[i].body;
              Run(calls)[i].final <==> body.TaskResult? || body.TaskError? || body.ToolReply?
  {
    RunFromKeeps([], calls);
  }

  lemma {:induction false} RunFromSplits(out: seq<Sent>, xs: seq<Call>, ys: seq<Call>)
    ensures RunFrom(out, xs + ys) == RunFrom(RunFrom(out, xs), ys)
    decreases |xs|
  {
    if xs == [] {
      assert xs + ys == ys;
    } else {
      assert (xs + ys)[0] == xs[0] && (xs + ys)[1..] == xs[1..] + ys;
      RunFromSplits(After(out, xs[0]), xs[1..], ys);
    }
  }

  /** A send that failed burns no number: the run goes on as if it had not been made. */
  lemma FailedSendLeavesNoTrace(before: seq<Call>, failed: Call, rest: seq<Call>)
    requires Refusal(Run(before), failed) != None
    ensures Run(before + [failed] + rest) == Run(before + rest)
  {
    RunFromSplits([], before + [failed], rest);
    RunFromSplits([], before, [failed]);
    RunFromSplits([], before, rest);
    var out := Run(before);
    assert [failed][1..] == [] && RunFrom(out, [failed]) == After(out, failed);
  }

  /** What went out is exactly the bodies of the calls that were not refused, in call order. */
  lemma {:induction false} EverythingTakenGoesOut(calls: seq<Call>, k: nat)
    requires k < |calls|
    ensures Run(calls[..k]) <= Run(calls[..k + 1]) <= Run(calls)
    ensures Refusal(Run(calls[..k]), calls[k]) == None <==>
            |Run(calls[..k + 1])| == |Run(calls[..k])| + 1
    ensures Refusal(Run(calls[..k]), calls[k]) == None ==>
            Run(calls)[|Run(calls[..k])|] == Sent(|Run(calls[..k])| + 1, calls[k].body, calls[k].body.Terminal())
  {
    var out := Run(calls[..k]);
    assert calls[..k + 1] == calls[..k] + [calls[k]];
    RunFromSplits([], calls[..k], [calls[k]]);
    assert [calls[k]][1..] == [] && RunFrom(out, [calls[k]]) == After(out, calls[k]);
    assert calls == calls[..k + 1] + calls[k + 1..];
    RunFromSplits([], calls[..k + 1], calls[k + 1..]);
    RunOnlyAppends(After(out, calls[k]), calls[k + 1..]);
  }

  lemma {:induction false} RunOnlyAppends(out: seq<Sent>, calls: seq<Call>)
    ensures out <= RunFrom(out, calls)
    decreases |calls|
  {
    if calls != [] {
      RunOnlyAppends(After(out, calls[0]), calls[1..]);
    }
  }
}
