/**
  A chat session delivering an answer its run gave up on: the request is sent again only
  while the worker says no turn took it.
 */
module ChatAnswers {
  import opened Wrappers
  import opened Questions
  import opened TaskTurns
  import TaskStreams
  import Wire

  const CODE_CAPACITY := "capacity"
  const CODE_CONVERSATION_BUSY := "conversation_busy"
  const CODE_TURN_NOT_TAKEN := "turn_not_taken"

  const ATTEMPTS: nat := 3

  /** The three refusals taken before a turn could have consumed the answer. */
  predicate AnswerNotTaken(code: string) {
    code == CODE_CAPACITY || code == CODE_CONVERSATION_BUSY || code == CODE_TURN_NOT_TAKEN
  }

  /**
    One attempt as it turned out: whether the session's context ended in the wait before
    it, what RunTask came back with, and whether some turn of the worker took the answer.
   */
  datatype Try = Try(contextEnded: bool, failed: bool, result: Option<string>, error: Option<string>, taken: bool)

  /** What the worker promises: a request it refused for one of the three was not taken. */
  predicate WorkerKeepsItsWord(env: seq<Try>) {
    forall i :: (0 <= i < |env| && !env[i].failed && env[i].error.Some?
                 && env[i].error.value in {"capacity", "conversation_busy", "turn_not_taken"}) ==> !env[i].taken
  }

  datatype SendFailure = ContextEnded | SetUnreadable | EndedWith(code: string) | StayedBusy

  predicate AskedToWait(t: Try) {
    !t.failed && t.error.Some? && AnswerNotTaken(t.error.value)
  }

  /** How many of the first n sends a turn took. */
  function Taken(env: seq<Try>, n: nat): nat
    requires n <= |env|
  {
    if n == 0 then 0 else Taken(env, n - 1) + if env[n - 1].taken then 1 else 0
  }

  /**
    Sends the answer up to three times. It goes on only past an ending that took no turn,
    so at most one of the sends is taken, whatever the worker does.
   */
  method SendAnswer(env: seq<Try>) returns (failure: Option<SendFailure>, sends: nat)
    requires |env| == ATTEMPTS && WorkerKeepsItsWord(env)
    ensures 1 <= sends <= ATTEMPTS
    ensures forall i :: 0 <= i < sends - 1 ==>
              !env[i].failed && env[i].error.Some? && env[i].error.value in {"capacity", "conversation_busy", "turn_not_taken"}
    ensures forall i :: 1 <= i < sends ==> !env[i].contextEnded
    ensures Taken(env, sends - 1) == 0 && Taken(env, sends) <= 1
    ensures var last := env[sends - 1];
            failure == (if last.failed then Some(SetUnreadable)
                        else if last.error.None? then None
                        else if last.error.value !in {"capacity", "conversation_busy", "turn_not_taken"}
                        then Some(EndedWith(last.error.value))
                        else if sends == ATTEMPTS then Some(StayedBusy)
                        else Some(ContextEnded))
    ensures failure == Some(ContextEnded) ==> env[sends].contextEnded
  {
    sends := 0;
    for attempt := 0 to ATTEMPTS
      invariant sends == attempt
      invariant forall i :: 0 <= i < attempt ==> AskedToWait(env[i]) && (i > 0 ==> !env[i].contextEnded)
      invariant Taken(env, attempt) == 0
    {
      if attempt > 0 && env[attempt].contextEnded {
        return Some(ContextEnded), sends;
      }
      sends := sends + 1;
      var out := env[attempt];
      if out.failed {
        return Some(SetUnreadable), sends;
      }
      if out.error.None? {
        return None, sends;
      }
      if !AnswerNotTaken(out.error.value) {
        return Some(EndedWith(out.error.value)), sends;
      }
    }
    return Some(StayedBusy), sends;
  }

  /** The attempt a finished task turns into, as far as the session reads it. */
  function TryOf(t: Turn, taken: bool): Try {
    Try(false, t.returned.Some?, t.result, t.error, taken)
  }

  /**
    An attempt reads as delivered exactly when its set ended with a result, or ended at the
    end of its input with no terminal message at all: the session cannot tell those apart.
   */
  lemma DeliveredMeansResultOrEndOfInput(req: Request, schedule: seq<Action>, taken: bool)
    requires Run(Begin(req), schedule).Some?
    requires var t := Run(Begin(req), schedule).value; t.reader.Closed? && t.begun
    ensures var t := Run(Begin(req), schedule).value; var a := TryOf(t, taken);
            (!a.failed && a.error.None?) <==>
            (t.result.Some? || t.endErr == Some(TaskStreams.EndOfInput))
  {
    EndingIsClassified(req, schedule);
    InvOf(req, schedule);
  }

  /** The second case is real: one ack, then the end of input. */
  lemma EndOfInputReadsAsDelivered(req: Request)
    requires req.prompt == ""
    ensures var schedule := [Submit(Allow(""), true),
                             Read(TaskStreams.Got(Wire.Ack(true, "", "")), 0),
                             Read(TaskStreams.Failed(TaskStreams.EndOfInput), 0), Close];
            var r := Run(Begin(req), schedule);
            r.Some? && r.value.reader.Closed? && r.value.result.None? &&
            var a := TryOf(r.value, false); !a.failed && a.error.None?
  {
    var a := [Submit(Allow(""), true), Read(TaskStreams.Got(Wire.Ack(true, "", "")), 0),
              Read(TaskStreams.Failed(TaskStreams.EndOfInput), 0), Close];
    var s1 := Step(Begin(req), a[0]).value;
    var s2 := Step(s1, a[1]).value;
    var s3 := Step(s2, a[2]).value;
    var s4 := Step(s3, a[3]).value;
    assert a[1..][1..] == a[2..] && a[2..][1..] == a[3..] && a[3..][1..] == [];
    assert Run(s3, a[3..]) == Some(s4);
    assert Run(s2, a[2..]) == Some(s4);
    assert Run(s1, a[1..]) == Some(s4);
  }
}
