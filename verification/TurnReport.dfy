/**
  What a turn reports, told from the request, the messages it received and how its questions
  were settled: the hooks an ack fires, the prompt that goes out, what is kept of a question,
  and what the end of the turn says.
 */
module TurnReports {
  import opened Wrappers
  import opened Wire
  import opened Questions
  import opened TaskTurns
  import TaskStreams

  lemma {:induction false} RunOfJoin(t: Turn, a: seq<Action>, b: seq<Action>)
    ensures Run(t, a + b).Some? ==> Run(t, a).Some?
    ensures Run(t, a).Some? ==> Run(t, a + b) == Run(Run(t, a).value, b)
    decreases |a|
  {
    hide Step;
    if a == [] {
      assert a + b == b;
    } else {
      assert (a + b)[0] == a[0] && (a + b)[1..] == a[1..] + b;
      if Step(t, a[0]).Some? {
        RunOfJoin(Step(t, a[0]).value, a[1..], b);
      }
    }
  }

  // ----- the acks

  /** The reasons of the acks that refuse, in the order they arrived. */
  function RefusalsIn(ms: seq<Message>): seq<string> {
    if ms == [] then []
    else
      var m := ms[|ms| - 1];
      RefusalsIn(ms[..|ms| - 1]) + if m.Ack? && !m.accepted then [m.reason] else []
  }

  /** The conversations of the acks that accept: the request's own, else the one the ack names. */
  function AcceptancesIn(token: string, ms: seq<Message>): seq<string> {
    if ms == [] then []
    else
      var m := ms[|ms| - 1];
      AcceptancesIn(token, ms[..|ms| - 1]) +
      if m.Ack? && m.accepted then [if token != "" then token else m.token] else []
  }

  function RefusedHooks(hooks: seq<Hook>): seq<string> {
    if hooks == [] then []
    else
      var h := hooks[|hooks| - 1];
      RefusedHooks(hooks[..|hooks| - 1]) + if h.TurnRefused? then [h.reason] else []
  }

  function AcceptedHooks(hooks: seq<Hook>): seq<string> {
    if hooks == [] then []
    else
      var h := hooks[|hooks| - 1];
      AcceptedHooks(hooks[..|hooks| - 1]) + if h.TurnAccepted? then [h.conversation] else []
  }

  /** An accepted turn is resumed right before exactly when the request carried a token, and started exactly when only its ack did. */
  predicate AcceptedRight(hooks: seq<Hook>, token: string, k: nat)
    requires k < |hooks| && hooks[k].TurnAccepted?
  {
    && (token != "" <==> k > 0 && hooks[k - 1] == ConversationResume(token))
    && (token == "" && hooks[k].conversation != "" <==> k > 0 && hooks[k - 1] == ConversationStart(hooks[k].conversation))
  }

  /** Right before an accepted turn its conversation is resumed or started, and nowhere else. */
  predicate Announced(hooks: seq<Hook>, token: string) {
    && (forall k :: 0 <= k < |hooks| && hooks[k].TurnAccepted? ==> AcceptedRight(hooks, token, k))
    && (forall k :: 0 <= k < |hooks| && hooks[k].ConversationResume? ==>
          hooks[k].token == token != "" && k + 1 < |hooks| && hooks[k + 1] == TurnAccepted(token))
    && (forall k :: 0 <= k < |hooks| && hooks[k].ConversationStart? ==>
          token == "" != hooks[k].token && k + 1 < |hooks| && hooks[k + 1] == TurnAccepted(hooks[k].token))
  }

  predicate AcksTold(t: Turn) {
    && RefusedHooks(t.hooks) == RefusalsIn(t.received)
    && AcceptedHooks(t.hooks) == AcceptancesIn(t.req.token, t.received)
    && Announced(t.hooks, t.req.token)
  }

  predicate OfAnAck(h: Hook) {
    h.TurnRefused? || h.TurnAccepted? || h.ConversationResume? || h.ConversationStart?
  }

  lemma HookMore(hooks: seq<Hook>, h: Hook)
    ensures RefusedHooks(hooks + [h]) == RefusedHooks(hooks) + if h.TurnRefused? then [h.reason] else []
    ensures AcceptedHooks(hooks + [h]) == AcceptedHooks(hooks) + if h.TurnAccepted? then [h.conversation] else []
  {
    assert (hooks + [h])[..|hooks|] == hooks;
  }

  lemma MessageMore(token: string, ms: seq<Message>, m: Message)
    ensures RefusalsIn(ms + [m]) == RefusalsIn(ms) + if m.Ack? && !m.accepted then [m.reason] else []
    ensures AcceptancesIn(token, ms + [m]) == AcceptancesIn(token, ms) +
              if m.Ack? && m.accepted then [if token != "" then token else m.token] else []
  {
    assert (ms + [m])[..|ms|] == ms;
  }

  /** A hook that is about no ack changes nothing of what the acks are told by. */
  lemma BesideTheAcks(hooks: seq<Hook>, h: Hook, token: string)
    requires Announced(hooks, token) && !OfAnAck(h)
    ensures Announced(hooks + [h], token)
    ensures RefusedHooks(hooks + [h]) == RefusedHooks(hooks) && AcceptedHooks(hooks + [h]) == AcceptedHooks(hooks)
  {
    HookMore(hooks, h);
    var more := hooks + [h];
    assert forall k :: 0 <= k < |hooks| ==> more[k] == hooks[k];
  }

  lemma AnnouncedAt(hooks: seq<Hook>, more: seq<Hook>, token: string, k: nat)
    requires Announced(hooks, token) && Announced(more, token)
    requires more != [] ==> !more[0].TurnAccepted? || (token == "" && more[0].conversation == "")
    requires k < |hooks + more| && (hooks + more)[k].TurnAccepted?
    ensures AcceptedRight(hooks + more, token, k)
  {
    var all := hooks + more;
    if k < |hooks| {
      assert all[k] == hooks[k] && (k > 0 ==> all[k - 1] == hooks[k - 1]);
    } else {
      var j := k - |hooks|;
      assert all[k] == more[j];
      if j > 0 {
        assert all[k - 1] == more[j - 1];
      } else if k > 0 {
        assert all[k - 1] == hooks[k - 1] && !hooks[k - 1].ConversationResume? && !hooks[k - 1].ConversationStart?;
      }
    }
  }

  lemma AnnouncedMore(hooks: seq<Hook>, more: seq<Hook>, token: string)
    requires Announced(hooks, token) && Announced(more, token)
    requires more != [] ==> !more[0].TurnAccepted? || (token == "" && more[0].conversation == "")
    ensures Announced(hooks + more, token)
  {
    var all := hooks + more;
    forall k | 0 <= k < |all| && all[k].TurnAccepted? ensures AcceptedRight(all, token, k) {
      AnnouncedAt(hooks, more, token, k);
    }
    forall k | 0 <= k < |all| && (all[k].ConversationResume? || all[k].ConversationStart?)
      ensures k + 1 < |all| && all[k + 1] == TurnAccepted(all[k].token)
      ensures if all[k].ConversationResume? then all[k].token == token != "" else token == "" != all[k].token
    {
      if k < |hooks| {
        assert all[k] == hooks[k] && all[k + 1] == hooks[k + 1];
      } else {
        var j := k - |hooks|;
        assert all[k] == more[j] && more[j + 1] == all[k + 1];
      }
    }
  }

  lemma AckIsTold(t: Turn, accepted: bool, reason: string, token: string, streamGaps: nat)
    requires AcksTold(t) && t.reader.Reading?
    ensures AcksTold(Take(t, Ack(accepted, reason, token), streamGaps))
  {
    hide Announced, RefusedHooks, AcceptedHooks, RefusalsIn, AcceptancesIn;
    var m := Ack(accepted, reason, token);
    var u := Take(t, m, streamGaps);
    MessageMore(t.req.token, t.received, m);
    var more := AckHooks(t.req, Accept(accepted, reason, token));
    if |more| == 1 {
      HookMore(t.hooks, more[0]);
      assert u.hooks == t.hooks + [more[0]];
    } else {
      HookMore(t.hooks, more[0]);
      HookMore(t.hooks + [more[0]], more[1]);
      assert u.hooks == t.hooks + [more[0]] + [more[1]];
    }
    AckAnnounces(t.req, Accept(accepted, reason, token));
    AnnouncedMore(t.hooks, more, t.req.token);
  }

  lemma AckAnnounces(req: Request, ack: Accept)
    ensures var more := AckHooks(req, ack);
            && Announced(more, req.token) && 1 <= |more| <= 2
            && (more[0].TurnAccepted? ==> req.token == "" && more[0].conversation == "")
  {
  }

  lemma StepTellsAcks(t: Turn, a: Action)
    requires AcksTold(t) && EndingInv(t) && Step(t, a).Some?
    ensures AcksTold(Step(t, a).value)
  {
    hide Announced, RefusedHooks, AcceptedHooks, RefusalsIn, AcceptancesIn, WaitFor, OutcomeOf, AckHooks;
    var u := Step(t, a).value;
    if a.Read? && a.next.Got? {
      var m := a.next.message;
      if m.Ack? {
        AckIsTold(t, m.accepted, m.reason, m.token, a.streamGaps);
      } else {
        MessageMore(t.req.token, t.received, m);
        if m.Elicit? {
          BesideTheAcks(t.hooks, QuestionAsked(|t.board.questions|, m.ask), t.req.token);
        }
      }
    } else if a.Report? {
      BesideTheAcks(t.hooks, QuestionAnswered(a.q, t.board.questions[a.q].stage.outcome), t.req.token);
    } else if a.Close? && t.ack.Some? {
      BesideTheAcks(t.hooks, TurnEnd(EndOf(t)), t.req.token);
    } else if a.Submit? && t.req.prompt != "" {
      BesideTheAcks(t.hooks, PromptSubmit(t.req.prompt), t.req.token);
    }
  }

  lemma {:induction false} RunTellsAcks(t: Turn, schedule: seq<Action>)
    requires AcksTold(t) && EndingInv(t) && Run(t, schedule).Some?
    ensures AcksTold(Run(t, schedule).value) && Run(t, schedule).value.req.token == t.req.token
    decreases |schedule|
  {
    hide AcksTold, EndingInv, Step;
    if schedule != [] {
      StepTellsAcks(t, schedule[0]);
      StepKeepsEnding(t, schedule[0]);
      TokenStays(t, schedule[0]);
      RunTellsAcks(Step(t, schedule[0]).value, schedule[1..]);
    }
  }

  lemma TokenStays(t: Turn, a: Action)
    requires Step(t, a).Some?
    ensures Step(t, a).value.req.token == t.req.token
  {
    hide WaitFor, OutcomeOf, AckHooks;
  }

  /**
    In every run the hooks hear one refusal for each ack that refused, with its reason, and
    one acceptance for each that accepted, in order: in the conversation the request named,
    else the one the ack named. A resume stands right before an acceptance exactly when the
    request carried a token, and a start exactly when only the ack did.
   */
  lemma AcksAreReported(req: Request, schedule: seq<Action>)
    requires Run(Begin(req), schedule).Some?
    ensures var t := Run(Begin(req), schedule).value;
            && RefusedHooks(t.hooks) == RefusalsIn(t.received)
            && AcceptedHooks(t.hooks) == AcceptancesIn(req.token, t.received)
            && Announced(t.hooks, req.token)
  {
    RunTellsAcks(Begin(req), schedule);
  }

  // ----- the prompt

  /** What submitting came to, which nothing after it changes. */
  predicate Submitted(t: Turn, req: Request, decision: Decision, opens: bool) {
    && !t.reader.Starting?
    && (req.prompt != "" <==> t.hooks != [] && t.hooks[0] == PromptSubmit(req.prompt))
    && (forall k :: 0 <= k < |t.hooks| && t.hooks[k].PromptSubmit? ==> k == 0)
    && (t.begun <==> (req.prompt == "" || decision.Allow?) && opens)
    && (t.begun ==>
          t.req == Request(if req.prompt != "" && decision.prompt != "" then decision.prompt else req.prompt, req.token))
    && (!t.begun ==>
          && t.reader.Closed? && t.received == []
          && t.returned == Some(if req.prompt != "" && decision.HookErrors? then HookFailed
                                else if req.prompt != "" && decision.Deny? then PromptDenied else NotOpened))
  }

  lemma SubmitSubmits(req: Request, decision: Decision, opens: bool)
    ensures Submitted(Start(Begin(req), decision, opens), req, decision, opens)
  {
  }

  lemma SubmittedCarries(t: Turn, u: Turn, more: seq<Hook>, req: Request, decision: Decision, opens: bool)
    requires Submitted(t, req, decision, opens) && !u.reader.Starting? && u.begun == t.begun && u.req == t.req
    requires u.hooks == t.hooks + more && forall k :: 0 <= k < |more| ==> !more[k].PromptSubmit?
    requires !t.begun ==> u == t
    ensures Submitted(u, req, decision, opens)
  {
    assert forall k :: |t.hooks| <= k < |u.hooks| ==> u.hooks[k] == more[k - |t.hooks|];
  }

  /** A step after the first adds hooks, and none of them about the prompt. */
  lemma StepAddsHooks(t: Turn, a: Action) returns (more: seq<Hook>)
    requires !t.reader.Starting? && Step(t, a).Some?
    ensures var u := Step(t, a).value; !u.reader.Starting? && u.begun == t.begun && u.req == t.req && u.hooks == t.hooks + more
    ensures forall k :: 0 <= k < |more| ==> !more[k].PromptSubmit?
  {
    hide WaitFor, OutcomeOf;
    more := Step(t, a).value.hooks[|t.hooks|..];
  }

  lemma StaysSubmitted(t: Turn, a: Action, req: Request, decision: Decision, opens: bool)
    requires Submitted(t, req, decision, opens) && Step(t, a).Some?
    requires !t.begun ==> t.board.questions == []
    ensures Submitted(Step(t, a).value, req, decision, opens)
    ensures !t.begun ==> Step(t, a).value.board.questions == []
  {
    if t.begun {
      var more := StepAddsHooks(t, a);
      SubmittedCarries(t, Step(t, a).value, more, req, decision, opens);
    }
  }

  lemma {:induction false} RunStaysSubmitted(t: Turn, schedule: seq<Action>, req: Request, decision: Decision, opens: bool)
    requires Submitted(t, req, decision, opens) && Run(t, schedule).Some?
    requires !t.begun ==> t.board.questions == []
    ensures Submitted(Run(t, schedule).value, req, decision, opens)
    decreases |schedule|
  {
    hide Submitted, Step;
    if schedule != [] {
      if t.begun {
        BegunStays(t, schedule[0]);
      }
      StaysSubmitted(t, schedule[0], req, decision, opens);
      RunStaysSubmitted(Step(t, schedule[0]).value, schedule[1..], req, decision, opens);
    }
  }

  lemma BegunStays(t: Turn, a: Action)
    requires Step(t, a).Some? && t.begun
    ensures Step(t, a).value.begun
  {
    hide WaitFor, OutcomeOf, AckHooks;
  }

  /**
    A turn with a prompt tells it first, as it was typed, and once; a hook that errors or
    denies ends the turn there, each with its own error, and one that rewrites the prompt is
    what is sent. Nothing is read of a turn that was not opened.
   */
  lemma PromptIsSubmittedFirst(req: Request, decision: Decision, opens: bool, schedule: seq<Action>)
    requires Run(Begin(req), [Submit(decision, opens)] + schedule).Some?
    ensures Submitted(Run(Begin(req), [Submit(decision, opens)] + schedule).value, req, decision, opens)
  {
    hide Submitted;
    var all := [Submit(decision, opens)] + schedule;
    assert all[1..] == schedule;
    SubmitSubmits(req, decision, opens);
    RunStaysSubmitted(Start(Begin(req), decision, opens), schedule, req, decision, opens);
  }

  // ----- what is kept of a question

  function OutcomeOfStage(stage: Stage): Outcome
    requires !stage.Asking?
  {
    stage.outcome
  }

  /** A question that is past asking was settled, and came to what that settlement comes to. */
  predicate WellSettled(q: Question) {
    if q.stage.Asking? then q.settled.None?
    else q.settled.Some? && !q.settled.value.wait.StillWaiting? &&
         Became(q.ask, q.settled.value.wait, q.settled.value.taken, OutcomeOfStage(q.stage))
  }

  predicate AllWellSettled(qs: seq<Question>) {
    forall q :: 0 <= q < |qs| ==> WellSettled(qs[q])
  }

  lemma StepSettles(t: Turn, a: Action)
    requires AllWellSettled(t.board.questions) && Step(t, a).Some?
    ensures AllWellSettled(Step(t, a).value.board.questions)
  {
    hide WaitFor, OutcomeOf, AckHooks, Became;
    if a.Settle? {
      OutcomeBecame(t.board.questions[a.q].ask, WaitFor(t.board.questions[a.q].ask, a.events).0, a.taken);
    }
  }

  lemma {:induction false} RunSettles(t: Turn, schedule: seq<Action>)
    requires AllWellSettled(t.board.questions) && Run(t, schedule).Some?
    ensures AllWellSettled(Run(t, schedule).value.board.questions)
    decreases |schedule|
  {
    hide AllWellSettled, Step;
    if schedule != [] {
      StepSettles(t, schedule[0]);
      RunSettles(Step(t, schedule[0]).value, schedule[1..]);
    }
  }

  /**
    In every run that is over: a question's closing hook says it was answered exactly when a
    decision was taken, and an answer is kept exactly for a decision that could not be sent
    and names an option the question had; what is kept decides what the person decided, and
    the unsent answers are those and no others.
   */
  lemma HeldIsWhatWasDecided(req: Request, schedule: seq<Action>, q: nat)
    requires Run(Begin(req), schedule).Some?
    requires var t := Run(Begin(req), schedule).value; t.reader.Closed? && t.begun && q < |t.board.questions|
    ensures var t := Run(Begin(req), schedule).value; var question := t.board.questions[q];
            && AllDone(t.board.questions) && question.settled.Some?
            && Became(question.ask, question.settled.value.wait, question.settled.value.taken, question.stage.outcome)
            && QuestionAnswered(q, question.stage.outcome) in t.hooks
            && multiset(t.outUnsent) == HeldAnswers(t.board.questions)
  {
    hide Became, HeldAnswers;
    UnsentIsWhatWasHeld(req, schedule);
    EachQuestionClosesOnce(req, schedule, q);
    RunSettles(Begin(req), schedule);
    assert WellSettled(Run(Begin(req), schedule).value.board.questions[q]);
  }

  // ----- how it ended

  /** What a turn is told of its ack is the last one that arrived. */
  predicate LastAckKept(t: Turn) {
    if t.ack.None? then forall j :: 0 <= j < |t.received| ==> !t.received[j].Ack?
    else exists j :: 0 <= j < |t.received| && IsLastAck(t.received, j) &&
                     t.received[j] == Ack(t.ack.value.accepted, t.ack.value.reason, t.ack.value.token)
  }

  predicate IsLastAck(ms: seq<Message>, j: nat) {
    j < |ms| && ms[j].Ack? && forall k :: j < k < |ms| ==> !ms[k].Ack?
  }

  lemma StepKeepsLastAck(t: Turn, a: Action)
    requires LastAckKept(t) && Step(t, a).Some?
    ensures LastAckKept(Step(t, a).value)
  {
    hide WaitFor, OutcomeOf, AckHooks;
    var u := Step(t, a).value;
    if a.Read? && a.next.Got? {
      assert u.received == t.received + [a.next.message];
      if a.next.message.Ack? {
        assert IsLastAck(u.received, |t.received|);
      } else if t.ack.Some? {
        var j :| 0 <= j < |t.received| && IsLastAck(t.received, j) &&
                 t.received[j] == Ack(t.ack.value.accepted, t.ack.value.reason, t.ack.value.token);
        assert IsLastAck(u.received, j);
      }
    }
  }

  lemma {:induction false} RunKeepsLastAck(t: Turn, schedule: seq<Action>)
    requires LastAckKept(t) && Run(t, schedule).Some?
    ensures LastAckKept(Run(t, schedule).value)
    decreases |schedule|
  {
    hide LastAckKept, Step;
    if schedule != [] {
      StepKeepsLastAck(t, schedule[0]);
      RunKeepsLastAck(Step(t, schedule[0]).value, schedule[1..]);
    }
  }

  /**
    The end of a turn is reported with the conversation of the last ack, whether the last
    message was a result, the code of an error when it was one, and a read error exactly
    when it was neither; RunTask returns that error unless it is the end of the input.
   */
  lemma TurnEndSaysHowItEnded(req: Request, schedule: seq<Action>)
    requires Run(Begin(req), schedule).Some?
    requires var t := Run(Begin(req), schedule).value; t.reader.Closed? && t.ack.Some?
    ensures var t := Run(Begin(req), schedule).value; var n := |t.received| - 1;
            && n >= 0 && t.hooks != [] && t.hooks[|t.hooks| - 1].TurnEnd?
            && var info := t.hooks[|t.hooks| - 1].info; var last := t.received[n];
               && (exists j: nat :: IsLastAck(t.received, j) && info.conversation == t.received[j].token)
               && (info.answered <==> last.TaskResult?)
               && info.code == (if last.TaskError? then last.code else "")
               && (info.err.None? <==> last.TaskResult? || last.TaskError?)
               && t.returned == (if info.err.None? || info.err == Some(TaskStreams.EndOfInput) then None
                                 else Some(Unreadable(info.err.value)))
  {
    TurnEndsOnceAndLast(req, schedule);
    RunKeepsLastAck(Begin(req), schedule);
    InvOf(req, schedule);
    var t := Run(Begin(req), schedule).value;
    assert EndingInv(t) && t.begun;
  }

  /** A read after which nothing more is read. */
  predicate EndsReading(next: TaskStreams.Next) {
    next.Got? ==> next.message.TaskResult? || next.message.TaskError?
  }

  /** What the last read left behind. */
  predicate EndedWith(t: Turn, next: TaskStreams.Next, streamGaps: nat) {
    && (t.reader.Deferred? || t.reader.Closed?)
    && match next
       case Got(m) =>
         && t.endErr.None? && t.gaps == streamGaps
         && t.result == (if m.TaskResult? then Some(m.text) else None)
         && t.error == (if m.TaskError? then Some(m.code) else None)
       case EndOfSet => t.endErr == Some(TaskStreams.EndOfInput)
       case Failed(e) => t.endErr == Some(e)
  }

  lemma {:induction false} StaysEnded(t: Turn, schedule: seq<Action>, next: TaskStreams.Next, streamGaps: nat)
    requires EndedWith(t, next, streamGaps) && Run(t, schedule).Some?
    ensures EndedWith(Run(t, schedule).value, next, streamGaps)
    decreases |schedule|
  {
    hide WaitFor, OutcomeOf, AckHooks;
    if schedule != [] {
      StaysEnded(Step(t, schedule[0]).value, schedule[1..], next, streamGaps);
    }
  }

  lemma ReadEnds(t: Turn, next: TaskStreams.Next, streamGaps: nat)
    requires EndingInv(t) && EndsReading(next) && Step(t, Read(next, streamGaps)).Some?
    ensures EndedWith(Step(t, Read(next, streamGaps)).value, next, streamGaps)
  {
  }

  lemma RunOfFirst(t: Turn, a: Action, rest: seq<Action>)
    requires Run(t, [a] + rest).Some?
    ensures Step(t, a).Some? && Run(t, [a] + rest) == Run(Step(t, a).value, rest)
  {
    hide Step;
    assert ([a] + rest)[1..] == rest;
  }

  /**
    Whatever the questions do around it, the read that ends a set decides what the task comes
    back with: the result or the error it read, with the gaps the stream had counted, or the
    error of the read.
   */
  lemma TheLastReadDecides(req: Request, before: seq<Action>, next: TaskStreams.Next, streamGaps: nat, after: seq<Action>)
    requires EndsReading(next) && Run(Begin(req), before + ([Read(next, streamGaps)] + after)).Some?
    ensures EndedWith(Run(Begin(req), before + ([Read(next, streamGaps)] + after)).value, next, streamGaps)
  {
    hide Run, BoardInv, TraceInv, OrderInv, OutInv, Take, NoEnding, EndedBy;
    RunOfJoin(Begin(req), before, [Read(next, streamGaps)] + after);
    var t := Run(Begin(req), before).value;
    InvOf(req, before);
    RunOfFirst(t, Read(next, streamGaps), after);
    ReadEnds(t, next, streamGaps);
    StaysEnded(Step(t, Read(next, streamGaps)).value, after, next, streamGaps);
  }
}
