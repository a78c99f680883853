/**
  RunTask: the goroutine reading one reply set, and a goroutine for each question it
  carried, in every interleaving the runtime may pick. A step is one thing one of them
  does between two others; what the hooks are told is kept as a trace.
 */
module TaskTurns {
  import opened Wrappers
  import opened Wire
  import opened Questions
  import TaskStreams

  datatype Request = Request(prompt: string, token: string)

  /** What an ack carried. */
  datatype Accept = Accept(accepted: bool, reason: string, token: string)

  datatype EndInfo = EndInfo(
    conversation: string, err: Option<TaskStreams.ReadError>, answered: bool, code: string)

  datatype Hook =
    | PromptSubmit(prompt: string)
    | TurnRefused(reason: string)
    | ConversationResume(token: string)
    | ConversationStart(token: string)
    | TurnAccepted(conversation: string)
    | QuestionAsked(asked: nat, ask: ElicitRequest)
    | QuestionAnswered(closed: nat, outcome: Outcome)
    | TurnEnd(info: EndInfo)

  /** How far one question's goroutine has got. */
  datatype Stage =
    | Asking
    | Settled(outcome: Outcome)   // answerQuestion returned
    | Freed(outcome: Outcome)     // its hold on the idle bound is released
    | Reported(outcome: Outcome)  // QuestionAnswered fired, the answer is not yet kept
    | Done(outcome: Outcome)      // the goroutine is over

  /** How a question's wait ended, and what the agent said to the answer. */
  datatype Settlement = Settlement(wait: Wait, taken: Reply)

  /** A question, with where in the trace its two hooks landed and how it was settled. */
  datatype Question = Question(
    ask: ElicitRequest, stage: Stage, askedAt: nat, closedAt: Option<nat>, settled: Option<Settlement>)

  /** The questions of a turn, and the two things their goroutines share with the reader. */
  datatype Board = Board(questions: seq<Question>, holding: nat, unsent: seq<Answer>)

  function Ask(b: Board, ask: ElicitRequest, at: nat): Board {
    b.(questions := b.questions + [Question(ask, Asking, at, None, None)], holding := b.holding + 1)
  }

  function Move(b: Board, q: nat, stage: Stage): Board
    requires q < |b.questions|
  {
    b.(questions := b.questions[q := b.questions[q].(stage := stage)])
  }

  /** answerQuestion returns. */
  function SettleQuestion(b: Board, q: nat, wait: Wait, taken: Reply): Board
    requires q < |b.questions|
  {
    b.(questions := b.questions[q := b.questions[q].(
         stage := Settled(OutcomeOf(b.questions[q].ask, wait, taken)), settled := Some(Settlement(wait, taken)))])
  }

  /** release() runs before the hook that says the question is done with. */
  function Release(b: Board, q: nat): Board
    requires q < |b.questions| && b.questions[q].stage.Settled?
  {
    Move(b, q, Freed(b.questions[q].stage.outcome)).(holding := if b.holding > 0 then b.holding - 1 else 0)
  }

  function MarkReported(b: Board, q: nat, at: nat): Board
    requires q < |b.questions| && b.questions[q].stage.Freed?
  {
    var o := b.questions[q].stage.outcome;
    b.(questions := b.questions[q := b.questions[q].(
         stage := if o.held.None? then Done(o) else Reported(o), closedAt := Some(at))])
  }

  function KeepAnswer(b: Board, q: nat): Board
    requires q < |b.questions| && b.questions[q].stage.Reported? && b.questions[q].stage.outcome.held.Some?
  {
    var o := b.questions[q].stage.outcome;
    Move(b, q, Done(o)).(unsent := b.unsent + [o.held.value])
  }

  datatype Reader = Starting | Reading | Deferred | Closed

  datatype RunError = HookFailed | PromptDenied | NotOpened | Unreadable(cause: TaskStreams.ReadError)

  datatype Turn = Turn(
    req: Request, reader: Reader, begun: bool,
    ack: Option<Accept>, result: Option<string>, error: Option<string>, gaps: nat,
    endErr: Option<TaskStreams.ReadError>, returned: Option<RunError>,
    board: Board, outUnsent: seq<Answer>,
    blocks: seq<string>, hooks: seq<Hook>,
    // history: the messages the stream gave, in order
    received: seq<Message>)

  function Begin(req: Request): Turn {
    Turn(req, Starting, false, None, None, None, 0, None, None, Board([], 0, []), [], [], [], [])
  }

  datatype Decision = HookErrors | Deny | Allow(prompt: string)

  datatype Action =
    | Submit(decision: Decision, opens: bool)
    | Read(next: TaskStreams.Next, streamGaps: nat)
    | Settle(q: nat, events: seq<Event>, taken: Reply)
    | Free(q: nat)
    | Report(q: nat)
    | Keep(q: nat)
    | Close

  /** What the hooks hear of an ack: a refusal, or the conversation and then the turn. */
  function AckHooks(req: Request, ack: Accept): seq<Hook> {
    if !ack.accepted then [TurnRefused(ack.reason)]
    else if req.token != "" then [ConversationResume(req.token), TurnAccepted(req.token)]
    else if ack.token != "" then [ConversationStart(ack.token), TurnAccepted(ack.token)]
    else [TurnAccepted(ack.token)]
  }

  function EndOf(t: Turn): EndInfo
    requires t.ack.Some?
  {
    EndInfo(t.ack.value.token, t.endErr, t.result.Some?,
      if t.result.None? && t.error.Some? then t.error.value else "")
  }

  function Start(t: Turn, decision: Decision, opens: bool): Turn {
    var told := if t.req.prompt != "" then t.(hooks := t.hooks + [PromptSubmit(t.req.prompt)]) else t;
    if t.req.prompt != "" && decision.HookErrors? then told.(reader := Closed, returned := Some(HookFailed))
    else if t.req.prompt != "" && decision.Deny? then told.(reader := Closed, returned := Some(PromptDenied))
    else
      var sent :=
        if t.req.prompt != "" && decision.prompt != ""
        then told.(req := told.req.(prompt := decision.prompt))
        else told;
      if opens then sent.(reader := Reading, begun := true)
      else sent.(reader := Closed, returned := Some(NotOpened))
  }

  function Take(t: Turn, m: Message, streamGaps: nat): Turn {
    var t := t.(received := t.received + [m]);
    match m
    case Ack(accepted, reason, token) =>
      var ack := Accept(accepted, reason, token);
      t.(ack := Some(ack), hooks := t.hooks + AckHooks(t.req, ack))
    case Event(block) => t.(blocks := t.blocks + [block])
    case Elicit(ask) =>
      t.(board := Ask(t.board, ask, |t.hooks|),
         hooks := t.hooks + [QuestionAsked(|t.board.questions|, ask)])
    case TaskResult(text) => t.(result := Some(text), gaps := streamGaps, reader := Deferred)
    case TaskError(code) => t.(error := Some(code), gaps := streamGaps, reader := Deferred)
    case ToolReply(_, _, _) => t
    case Foreign(_) => t
  }

  function Stop(t: Turn, next: TaskStreams.Next): Turn
    requires !next.Got?
  {
    if next.EndOfSet? || next.error == TaskStreams.EndOfInput
    then t.(endErr := Some(TaskStreams.EndOfInput), reader := Deferred)
    else t.(endErr := Some(next.error), returned := Some(Unreadable(next.error)), reader := Deferred)
  }

  predicate AllDone(qs: seq<Question>) {
    forall i :: 0 <= i < |qs| ==> qs[i].stage.Done?
  }

  function Step(t: Turn, a: Action): Option<Turn> {
    match a
    case Submit(decision, opens) =>
      if t.reader.Starting? then Some(Start(t, decision, opens)) else None
    case Read(next, streamGaps) =>
      if !t.reader.Reading? then None
      else if next.Got? then Some(Take(t, next.message, streamGaps))
      else Some(Stop(t, next))
    case Settle(q, events, taken) =>
      if q < |t.board.questions| && t.board.questions[q].stage.Asking? then
        var ask := t.board.questions[q].ask;
        var wait := WaitFor(ask, events).0;
        if wait.StillWaiting? then None
        else Some(t.(board := SettleQuestion(t.board, q, wait, taken)))
      else None
    case Free(q) =>
      if q < |t.board.questions| && t.board.questions[q].stage.Settled?
      then Some(t.(board := Release(t.board, q)))
      else None
    case Report(q) =>
      if q < |t.board.questions| && t.board.questions[q].stage.Freed? then
        Some(t.(board := MarkReported(t.board, q, |t.hooks|),
                hooks := t.hooks + [QuestionAnswered(q, t.board.questions[q].stage.outcome)]))
      else None
    case Keep(q) =>
      if q < |t.board.questions| && t.board.questions[q].stage.Reported? && t.board.questions[q].stage.outcome.held.Some?
      then Some(t.(board := KeepAnswer(t.board, q)))
      else None
    case Close =>
      if t.reader.Deferred? && AllDone(t.board.questions) then
        var out := t.(outUnsent := t.board.unsent, reader := Closed);
        Some(if t.ack.None? then out else out.(hooks := t.hooks + [TurnEnd(EndOf(t))]))
      else None
  }

  /** The turn after a schedule, or None when it takes a step that was not enabled. */
  function Run(t: Turn, schedule: seq<Action>): Option<Turn>
    decreases |schedule|
  {
    if schedule == [] then Some(t)
    else
      var next := Step(t, schedule[0]);
      if next.None? then None else Run(next.value, schedule[1..])
  }

  // ----- how the set ended, and what RunTask returned for it

  /** No message of these ends a task's set. */
  predicate NoEnding(ms: seq<Message>) {
    forall i :: 0 <= i < |ms| ==> !ms[i].TaskResult? && !ms[i].TaskError?
  }

  /** What a turn has of its set's ending is what the set's last message said, and no other ended it. */
  predicate EndedBy(t: Turn) {
    var n := |t.received| - 1;
    && n >= 0 && NoEnding(t.received[..n])
    && match t.received[n]
       case TaskResult(text) => t.result == Some(text) && t.error.None?
       case TaskError(code) => t.error == Some(code) && t.result.None?
       case _ => false
  }

  predicate EndingInv(t: Turn) {
    && (t.reader.Starting? || t.reader.Reading? ==> NoEnding(t.received))
    && (!t.begun ==> t.received == [])
    && (t.begun && (t.reader.Deferred? || t.reader.Closed?) ==>
          if t.endErr.None? then EndedBy(t) else NoEnding(t.received))
    && (t.reader.Starting? || t.reader.Reading? ==>
          t.result.None? && t.error.None? && t.endErr.None? && t.returned.None?)
    && (t.reader.Starting? ==> !t.begun && t.received == [])
    && (t.reader.Reading? || t.reader.Deferred? ==> t.begun)
    && (!t.begun ==> t.ack.None? && t.endErr.None? && t.result.None? && t.error.None? && t.board.questions == [])
    && (!t.begun && t.reader.Closed? ==> t.returned.Some? && !t.returned.value.Unreadable?)
    && (t.begun && (t.reader.Deferred? || t.reader.Closed?) ==>
          && !(t.result.Some? && t.error.Some?)
          && ((t.result.Some? || t.error.Some?) <==> t.endErr.None?)
          && t.returned == (if t.endErr.None? || t.endErr == Some(TaskStreams.EndOfInput) then None
                            else Some(Unreadable(t.endErr.value))))
  }

  lemma TakeKeepsEnding(t: Turn, m: Message, streamGaps: nat)
    requires EndingInv(t) && t.reader.Reading?
    ensures EndingInv(Take(t, m, streamGaps))
  {
    var u := Take(t, m, streamGaps);
    assert u.received[..|t.received|] == t.received;
  }

  lemma StepKeepsEnding(t: Turn, a: Action)
    requires EndingInv(t) && Step(t, a).Some?
    ensures EndingInv(Step(t, a).value)
  {
    hide AckHooks, WaitFor, OutcomeOf;
    if a.Read? && a.next.Got? {
      TakeKeepsEnding(t, a.next.message, a.streamGaps);
    }
  }

  // ----- the trace of hooks

  predicate AskedAt(t: Turn, q: nat)
    requires q < |t.board.questions|
  {
    var i := t.board.questions[q].askedAt;
    i < |t.hooks| && t.hooks[i] == QuestionAsked(q, t.board.questions[q].ask)
  }

  predicate ClosedAfterAsked(t: Turn, q: nat)
    requires q < |t.board.questions|
  {
    StageTold(t, q, t.board.questions[q].stage)
  }

  /** What the trace has to say of a question that has got so far. */
  predicate StageTold(t: Turn, q: nat, stage: Stage)
    requires q < |t.board.questions|
  {
    match stage
    case Reported(o) => o.held.Some? && HookClosed(t, q, o)
    case Done(o) => HookClosed(t, q, o)
    case _ => t.board.questions[q].closedAt.None?
  }

  predicate HookClosed(t: Turn, q: nat, o: Outcome)
    requires q < |t.board.questions|
  {
    var at := t.board.questions[q].closedAt;
    at.Some? && t.board.questions[q].askedAt < at.value < |t.hooks| && t.hooks[at.value] == QuestionAnswered(q, o)
  }

  predicate TraceInv(t: Turn) {
    && (t.reader.Starting? ==> t.hooks == [])
    && (forall q :: 0 <= q < |t.board.questions| ==> AskedAt(t, q) && ClosedAfterAsked(t, q))
    && (forall i :: 0 <= i < |t.hooks| && t.hooks[i].QuestionAsked? ==>
          t.hooks[i].asked < |t.board.questions| && t.board.questions[t.hooks[i].asked].askedAt == i)
    && (forall i :: 0 <= i < |t.hooks| && t.hooks[i].QuestionAnswered? ==>
          t.hooks[i].closed < |t.board.questions| && t.board.questions[t.hooks[i].closed].closedAt == Some(i))
    && (forall i :: 0 <= i < |t.hooks| && t.hooks[i].TurnEnd? ==>
          t.reader.Closed? && t.ack.Some? && i == |t.hooks| - 1)
    && (t.reader.Closed? && t.ack.Some? ==> t.hooks != [] && t.hooks[|t.hooks| - 1] == TurnEnd(EndOf(t)))
    && (t.reader.Closed? ==> AllDone(t.board.questions))
    && (t.ack.Some? ==> t.begun)
  }

  /** Hooks that are about no question and end nothing leave the trace as good as it was. */
  lemma TraceGrows(t: Turn, u: Turn, more: seq<Hook>)
    requires TraceInv(t) && !t.reader.Closed? && !u.reader.Closed? && !u.reader.Starting?
    requires u.hooks == t.hooks + more && u.board.questions == t.board.questions && (u.ack.Some? ==> u.begun)
    requires forall i :: 0 <= i < |more| ==>
               !more[i].QuestionAsked? && !more[i].QuestionAnswered? && !more[i].TurnEnd?
    ensures TraceInv(u)
  {
    forall q | 0 <= q < |t.board.questions| ensures AskedAt(u, q) && ClosedAfterAsked(u, q) {
      assert AskedAt(t, q) && ClosedAfterAsked(t, q);
    }
    assert forall i :: |t.hooks| <= i < |u.hooks| ==> u.hooks[i] == more[i - |t.hooks|];
  }

  lemma AskKeepsTrace(t: Turn, ask: ElicitRequest, streamGaps: nat)
    requires TraceInv(t) && EndingInv(t) && t.reader.Reading?
    ensures TraceInv(Take(t, Elicit(ask), streamGaps))
  {
    var u := Take(t, Elicit(ask), streamGaps);
    forall q | 0 <= q < |u.board.questions| ensures AskedAt(u, q) && ClosedAfterAsked(u, q) {
      assert q < |t.board.questions| ==> AskedAt(t, q) && ClosedAfterAsked(t, q);
    }
  }

  lemma ReadKeepsTrace(t: Turn, next: TaskStreams.Next, streamGaps: nat)
    requires TraceInv(t) && EndingInv(t) && t.reader.Reading?
    ensures TraceInv(Step(t, Read(next, streamGaps)).value)
  {
    if !next.Got? {
      TraceGrows(t, Stop(t, next), []);
    } else {
      match next.message {
        case Ack(accepted, reason, token) =>
          TraceGrows(t, Take(t, next.message, streamGaps), AckHooks(t.req, Accept(accepted, reason, token)));
        case Elicit(ask) => AskKeepsTrace(t, ask, streamGaps);
        case _ => TraceGrows(t, Take(t, next.message, streamGaps), []);
      }
    }
  }

  /** A question moves on without a hook: everything the trace says of it stays true. */
  lemma MoveKeepsTrace(t: Turn, u: Turn, q: nat, moved: Question)
    requires TraceInv(t) && !t.reader.Closed? && q < |t.board.questions|
    requires u == t.(board := u.board) && u.board.questions == t.board.questions[q := moved]
    requires moved == t.board.questions[q].(stage := moved.stage, settled := moved.settled)
    requires StageTold(t, q, moved.stage)
    ensures TraceInv(u)
  {
    forall p | 0 <= p < |t.board.questions| ensures AskedAt(u, p) && ClosedAfterAsked(u, p) {
      assert AskedAt(t, p) && ClosedAfterAsked(t, p);
    }
  }

  lemma ReportKeepsTrace(t: Turn, q: nat)
    requires TraceInv(t) && !t.reader.Closed? && q < |t.board.questions| && t.board.questions[q].stage.Freed?
    ensures TraceInv(Step(t, Report(q)).value)
  {
    var u := Step(t, Report(q)).value;
    assert AskedAt(t, q) && ClosedAfterAsked(t, q);
    forall p | 0 <= p < |t.board.questions| ensures AskedAt(u, p) && ClosedAfterAsked(u, p) {
      assert AskedAt(t, p) && ClosedAfterAsked(t, p);
    }
  }

  lemma QuestionKeepsTrace(t: Turn, a: Action)
    requires TraceInv(t) && Step(t, a).Some? && (a.Settle? || a.Free? || a.Report? || a.Keep?)
    ensures TraceInv(Step(t, a).value)
  {
    assert !t.reader.Closed? && ClosedAfterAsked(t, a.q);
    if a.Report? {
      ReportKeepsTrace(t, a.q);
    } else {
      var u := Step(t, a).value;
      MoveKeepsTrace(t, u, a.q, u.board.questions[a.q]);
    }
  }

  lemma CloseKeepsTrace(t: Turn)
    requires TraceInv(t) && EndingInv(t) && Step(t, Close).Some?
    ensures TraceInv(Step(t, Close).value)
  {
    var u := Step(t, Close).value;
    assert u.hooks == t.hooks + if t.ack.None? then [] else [TurnEnd(EndOf(t))];
    assert EndOf.requires(t) ==> EndOf(u) == EndOf(t);
    forall q | 0 <= q < |t.board.questions| ensures AskedAt(u, q) && ClosedAfterAsked(u, q) {
      assert AskedAt(t, q) && ClosedAfterAsked(t, q);
    }
  }

  lemma SubmitKeepsTrace(t: Turn, decision: Decision, opens: bool)
    requires TraceInv(t) && EndingInv(t) && t.reader.Starting?
    ensures TraceInv(Start(t, decision, opens))
  {
  }

  lemma StepKeepsTrace(t: Turn, a: Action)
    requires TraceInv(t) && EndingInv(t) && Step(t, a).Some?
    ensures TraceInv(Step(t, a).value)
  {
    match a {
      case Submit(decision, opens) => SubmitKeepsTrace(t, decision, opens);
      case Read(next, streamGaps) => ReadKeepsTrace(t, next, streamGaps);
      case Close => CloseKeepsTrace(t);
      case _ => QuestionKeepsTrace(t, a);
    }
  }

  // ----- what was kept, and what the idle bound is told

  /** The answers whose goroutine is over and that could not be delivered. */
  function Kept(qs: seq<Question>): multiset<Answer> {
    if qs == [] then multiset{}
    else Kept(qs[..|qs| - 1]) + KeptOf(qs[|qs| - 1])
  }

  function KeptOf(q: Question): multiset<Answer> {
    if q.stage.Done? && q.stage.outcome.held.Some? then multiset{q.stage.outcome.held.value} else multiset{}
  }

  lemma {:induction false} KeptAfterMove(qs: seq<Question>, i: nat, q: Question)
    requires i < |qs| && KeptOf(qs[i]) == multiset{}
    ensures Kept(qs[i := q]) == Kept(qs) + KeptOf(q)
  {
    var last := |qs| - 1;
    if i == last {
      assert qs[i := q][..last] == qs[..last];
    } else {
      KeptAfterMove(qs[..last], i, q);
      assert qs[i := q][..last] == qs[..last][i := q];
    }
  }

  predicate Holds(q: Question) {
    q.stage.Asking? || q.stage.Settled?
  }

  function Outstanding(qs: seq<Question>): set<nat> {
    set i | 0 <= i < |qs| && Holds(qs[i])
  }

  /**
    The answers kept are exactly the undeliverable ones of the goroutines that are over,
    and the stream is told of a question from the ask to the release and of nothing else.
   */
  predicate BoardInv(b: Board) {
    multiset(b.unsent) == Kept(b.questions) && b.holding == |Outstanding(b.questions)|
  }

  lemma AskKeepsBoard(b: Board, ask: ElicitRequest, at: nat)
    requires BoardInv(b)
    ensures BoardInv(Ask(b, ask, at))
  {
    var c := Ask(b, ask, at);
    assert c.questions[..|c.questions| - 1] == b.questions;
    assert Outstanding(c.questions) == Outstanding(b.questions) + {|b.questions|};
  }

  lemma MoveKeepsBoard(b: Board, q: nat, moved: Question)
    requires BoardInv(b) && q < |b.questions|
    requires KeptOf(b.questions[q]) == multiset{} && Holds(b.questions[q]) == Holds(moved)
    ensures Kept(b.questions[q := moved]) == multiset(b.unsent) + KeptOf(moved)
    ensures |Outstanding(b.questions[q := moved])| == b.holding
  {
    KeptAfterMove(b.questions, q, moved);
    assert Outstanding(b.questions[q := moved]) == Outstanding(b.questions);
  }

  lemma SettleKeepsBoard(b: Board, q: nat, wait: Wait, taken: Reply)
    requires BoardInv(b) && q < |b.questions| && b.questions[q].stage.Asking?
    ensures BoardInv(SettleQuestion(b, q, wait, taken))
  {
    MoveKeepsBoard(b, q, SettleQuestion(b, q, wait, taken).questions[q]);
  }

  lemma ReportKeepsBoard(b: Board, q: nat, at: nat)
    requires BoardInv(b) && q < |b.questions| && b.questions[q].stage.Freed?
    ensures BoardInv(MarkReported(b, q, at))
  {
    MoveKeepsBoard(b, q, MarkReported(b, q, at).questions[q]);
  }

  lemma KeptOfUnfinished(q: Question)
    requires !q.stage.Done?
    ensures KeptOf(q) == multiset{}
  {
  }

  lemma OutstandingAfterRelease(qs: seq<Question>, q: nat, moved: Question)
    requires q < |qs| && Holds(qs[q]) && !Holds(moved)
    ensures |Outstanding(qs)| == |Outstanding(qs[q := moved])| + 1
  {
    assert Outstanding(qs) == Outstanding(qs[q := moved]) + {q};
  }

  lemma ReleaseKeepsBoard(b: Board, q: nat)
    requires BoardInv(b) && q < |b.questions| && b.questions[q].stage.Settled?
    ensures BoardInv(Release(b, q)) && b.holding > 0
  {
    hide Kept, KeptOf;
    var c := Release(b, q);
    KeptOfUnfinished(b.questions[q]);
    KeptOfUnfinished(c.questions[q]);
    KeptAfterMove(b.questions, q, c.questions[q]);
    assert c.questions == b.questions[q := c.questions[q]];
    OutstandingAfterRelease(b.questions, q, c.questions[q]);
  }

  lemma KeepKeepsBoard(b: Board, q: nat)
    requires BoardInv(b) && q < |b.questions|
    requires b.questions[q].stage.Reported? && b.questions[q].stage.outcome.held.Some?
    ensures BoardInv(KeepAnswer(b, q))
  {
    var c := KeepAnswer(b, q);
    assert c.questions == b.questions[q := c.questions[q]];
    MoveKeepsBoard(b, q, c.questions[q]);
  }

  lemma QuestionKeepsBoard(t: Turn, a: Action)
    requires BoardInv(t.board) && Step(t, a).Some? && (a.Settle? || a.Free? || a.Report? || a.Keep?)
    ensures BoardInv(Step(t, a).value.board)
  {
    if a.Settle? {
      SettleKeepsBoard(t.board, a.q, WaitFor(t.board.questions[a.q].ask, a.events).0, a.taken);
    } else if a.Free? {
      ReleaseKeepsBoard(t.board, a.q);
    } else if a.Report? {
      ReportKeepsBoard(t.board, a.q, |t.hooks|);
    } else {
      KeepKeepsBoard(t.board, a.q);
    }
  }

  lemma StepKeepsBoard(t: Turn, a: Action)
    requires BoardInv(t.board) && Step(t, a).Some?
    ensures BoardInv(Step(t, a).value.board)
  {
    hide BoardInv, WaitFor, OutcomeOf, AckHooks;
    if a.Settle? || a.Free? || a.Report? || a.Keep? {
      QuestionKeepsBoard(t, a);
    } else if a.Read? && a.next.Got? && a.next.message.Elicit? {
      AskKeepsBoard(t.board, a.next.message.ask, |t.hooks|);
    } else {
      assert Step(t, a).value.board == t.board;
    }
  }

  // ----- what the reader told, in the order it read

  function Asks(ms: seq<Message>): seq<ElicitRequest> {
    if ms == [] then []
    else Asks(ms[..|ms| - 1]) + if ms[|ms| - 1].Elicit? then [ms[|ms| - 1].ask] else []
  }

  function Blocks(ms: seq<Message>): seq<string> {
    if ms == [] then []
    else Blocks(ms[..|ms| - 1]) + if ms[|ms| - 1].Event? then [ms[|ms| - 1].block] else []
  }

  /** The hooks the messages of a set call for, in the order they arrived. */
  function HooksFor(req: Request, ms: seq<Message>): seq<Hook> {
    if ms == [] then []
    else
      var before := ms[..|ms| - 1];
      HooksFor(req, before) + HooksOf(req, |Asks(before)|, ms[|ms| - 1])
  }

  /** What one message has the hooks told, after so many questions. */
  function HooksOf(req: Request, asked: nat, m: Message): seq<Hook> {
    match m
    case Ack(accepted, reason, token) => AckHooks(req, Accept(accepted, reason, token))
    case Elicit(ask) => [QuestionAsked(asked, ask)]
    case _ => []
  }

  /** The part of a trace that comes from the reader. */
  function FromReader(hooks: seq<Hook>): seq<Hook> {
    if hooks == [] then []
    else FromReader(hooks[..|hooks| - 1]) +
         if hooks[|hooks| - 1].QuestionAnswered? || hooks[|hooks| - 1].TurnEnd? || hooks[|hooks| - 1].PromptSubmit?
         then [] else [hooks[|hooks| - 1]]
  }

  lemma {:induction false} FromReaderAppends(hooks: seq<Hook>, more: seq<Hook>)
    requires forall h :: h in more ==> !h.QuestionAnswered? && !h.TurnEnd? && !h.PromptSubmit?
    ensures FromReader(hooks + more) == FromReader(hooks) + more
  {
    if more == [] {
      assert hooks + more == hooks;
    } else {
      var front := more[..|more| - 1];
      assert forall h :: h in front ==> h in more;
      assert more[|more| - 1] in more;
      FromReaderAppends(hooks, front);
      assert (hooks + more)[..|hooks + more| - 1] == hooks + front;
      assert more == front + [more[|more| - 1]];
    }
  }

  predicate OrderInv(t: Turn) {
    && FromReader(t.hooks) == HooksFor(t.req, t.received)
    && t.blocks == Blocks(t.received)
    && |t.board.questions| == |Asks(t.received)|
    && (forall i :: 0 <= i < |t.board.questions| ==> t.board.questions[i].ask == Asks(t.received)[i])
    && (t.ack.None? ==> forall m :: m in t.received ==> !m.Ack?)
    && (t.reader.Starting? ==> t.hooks == [] && t.received == [])
  }

  lemma OneMoreRead(req: Request, ms: seq<Message>, m: Message)
    ensures Asks(ms + [m]) == Asks(ms) + if m.Elicit? then [m.ask] else []
    ensures Blocks(ms + [m]) == Blocks(ms) + if m.Event? then [m.block] else []
    ensures HooksFor(req, ms + [m]) == HooksFor(req, ms) + HooksOf(req, |Asks(ms)|, m)
  {
    hide HooksOf;
    assert (ms + [m])[..|ms|] == ms;
  }

  lemma TakeKeepsOrder(t: Turn, m: Message, streamGaps: nat)
    requires OrderInv(t) && t.reader.Reading?
    ensures OrderInv(Take(t, m, streamGaps))
  {
    hide FromReader, HooksFor, Asks, Blocks;
    var u := Take(t, m, streamGaps);
    OneMoreRead(t.req, t.received, m);
    var more := u.hooks[|t.hooks|..];
    assert u.hooks == t.hooks + more;
    FromReaderAppends(t.hooks, more);
  }

  lemma NothingRead(req: Request)
    ensures HooksFor(req, []) == []
  {
  }

  lemma SubmitKeepsOrder(t: Turn, decision: Decision, opens: bool)
    requires OrderInv(t) && t.reader.Starting?
    ensures OrderInv(Start(t, decision, opens))
  {
    hide HooksFor, Asks, Blocks;
    var u := Start(t, decision, opens);
    assert HooksFor(u.req, []) == [] == HooksFor(t.req, []) by { NothingRead(u.req); NothingRead(t.req); }
    assert u.hooks == [] || u.hooks[..|u.hooks| - 1] == [];
    assert FromReader(u.hooks) == [];
  }

  lemma HookBesideReader(t: Turn, h: Hook)
    requires h.QuestionAnswered? || h.TurnEnd?
    ensures FromReader(t.hooks + [h]) == FromReader(t.hooks)
  {
    assert (t.hooks + [h])[..|t.hooks|] == t.hooks;
  }

  /** What is left of a step that reads nothing: the questions asked stay as they were. */
  lemma OrderCarries(t: Turn, u: Turn)
    requires OrderInv(t) && !u.reader.Starting?
    requires u.req == t.req && u.ack == t.ack && u.received == t.received && u.blocks == t.blocks
    requires FromReader(u.hooks) == FromReader(t.hooks) && |u.board.questions| == |t.board.questions|
    requires forall i :: 0 <= i < |t.board.questions| ==> u.board.questions[i].ask == t.board.questions[i].ask
    ensures OrderInv(u)
  {
    hide FromReader, HooksFor, Asks, Blocks;
  }

  lemma QuestionKeepsOrder(t: Turn, a: Action)
    requires OrderInv(t) && Step(t, a).Some? && (a.Settle? || a.Free? || a.Report? || a.Keep?)
    requires !t.reader.Starting?
    ensures OrderInv(Step(t, a).value)
  {
    hide OrderInv, FromReader, WaitFor, OutcomeOf;
    if a.Report? {
      HookBesideReader(t, QuestionAnswered(a.q, t.board.questions[a.q].stage.outcome));
    }
    OrderCarries(t, Step(t, a).value);
  }

  lemma StepKeepsOrder(t: Turn, a: Action)
    requires OrderInv(t) && Step(t, a).Some? && (t.reader.Starting? ==> t.board.questions == [])
    ensures OrderInv(Step(t, a).value)
  {
    hide OrderInv, FromReader, WaitFor, OutcomeOf, Start, Take, AckHooks;
    match a {
      case Submit(decision, opens) => SubmitKeepsOrder(t, decision, opens);
      case Read(next, streamGaps) =>
        if next.Got? {
          TakeKeepsOrder(t, next.message, streamGaps);
        } else {
          OrderCarries(t, Stop(t, next));
        }
      case Close =>
        if t.ack.Some? {
          HookBesideReader(t, TurnEnd(EndOf(t)));
        }
        OrderCarries(t, Step(t, a).value);
      case _ => QuestionKeepsOrder(t, a);
    }
  }

  // ----- every run

  predicate OutInv(t: Turn) {
    t.reader.Closed? && t.begun ==> t.outUnsent == t.board.unsent && AllDone(t.board.questions)
  }

  lemma StepKeepsOut(t: Turn, a: Action)
    requires OutInv(t) && EndingInv(t) && Step(t, a).Some?
    ensures OutInv(Step(t, a).value)
  {
  }

  predicate Inv(t: Turn) {
    EndingInv(t) && TraceInv(t) && BoardInv(t.board) && OrderInv(t) && OutInv(t)
  }

  lemma StepKeepsInv(t: Turn, a: Action)
    requires Inv(t) && Step(t, a).Some?
    ensures Inv(Step(t, a).value)
  {
    StepKeepsEnding(t, a);
    StepKeepsTrace(t, a);
    StepKeepsBoard(t, a);
    StepKeepsOrder(t, a);
    StepKeepsOut(t, a);
  }

  lemma {:induction false} RunKeepsInv(t: Turn, schedule: seq<Action>)
    requires Inv(t) && Run(t, schedule).Some?
    ensures Inv(Run(t, schedule).value)
    decreases |schedule|
  {
    if schedule != [] {
      StepKeepsInv(t, schedule[0]);
      RunKeepsInv(Step(t, schedule[0]).value, schedule[1..]);
    }
  }

  lemma InvOf(req: Request, schedule: seq<Action>)
    requires Run(Begin(req), schedule).Some?
    ensures Inv(Run(Begin(req), schedule).value)
  {
    assert Outstanding([]) == {};
    RunKeepsInv(Begin(req), schedule);
  }

  /**
    A turn the agent acked closes exactly once and last: TurnEnd is in the trace only as
    its last hook, and it is there exactly when the task is over and an ack arrived.
   */
  lemma TurnEndsOnceAndLast(req: Request, schedule: seq<Action>)
    requires Run(Begin(req), schedule).Some?
    ensures var t := Run(Begin(req), schedule).value;
            && (forall i :: 0 <= i < |t.hooks| && t.hooks[i].TurnEnd? ==> i == |t.hooks| - 1)
            && (t.hooks != [] && t.hooks[|t.hooks| - 1].TurnEnd? <==> t.reader.Closed? && t.ack.Some?)
            && (t.ack.None? ==> forall m :: m in t.received ==> !m.Ack?)
            && (t.reader.Closed? && t.ack.Some? ==> t.hooks[|t.hooks| - 1] == TurnEnd(EndOf(t)))
  {
    InvOf(req, schedule);
  }

  /** Once a task is over nothing of it is left to run, so no hook follows. */
  lemma ClosedIsFinal(req: Request, schedule: seq<Action>, a: Action)
    requires Run(Begin(req), schedule).Some? && Run(Begin(req), schedule).value.reader.Closed?
    ensures Step(Run(Begin(req), schedule).value, a).None?
  {
    hide Run, BoardInv, OrderInv, EndingInv, OutInv, WaitFor, OutcomeOf, AskedAt, ClosedAfterAsked;
    InvOf(req, schedule);
  }

  /**
    When a task is over each of its questions was asked once and closed once, in that
    order, with what became of it; and no hook is about any other question.
   */
  lemma EachQuestionClosesOnce(req: Request, schedule: seq<Action>, q: nat)
    requires Run(Begin(req), schedule).Some? && Run(Begin(req), schedule).value.reader.Closed?
    requires q < |Run(Begin(req), schedule).value.board.questions|
    ensures var t := Run(Begin(req), schedule).value;
            AllDone(t.board.questions) &&
            exists i, j :: 0 <= i < j < |t.hooks|
              && t.hooks[i] == QuestionAsked(q, t.board.questions[q].ask)
              && t.hooks[j] == QuestionAnswered(q, t.board.questions[q].stage.outcome)
              && (forall k :: 0 <= k < |t.hooks| && t.hooks[k].QuestionAsked? && t.hooks[k].asked == q ==> k == i)
              && (forall k :: 0 <= k < |t.hooks| && t.hooks[k].QuestionAnswered? && t.hooks[k].closed == q ==> k == j)
  {
    InvOf(req, schedule);
    var t := Run(Begin(req), schedule).value;
    assert AskedAt(t, q) && ClosedAfterAsked(t, q);
    var i, j := t.board.questions[q].askedAt, t.board.questions[q].closedAt.value;
    assert 0 <= i < j < |t.hooks| && t.hooks[i] == QuestionAsked(q, t.board.questions[q].ask);
    assert t.hooks[j] == QuestionAnswered(q, t.board.questions[q].stage.outcome);
  }

  /** Every answer a question ended with and could not deliver, whatever order they ended in. */
  function HeldAnswers(qs: seq<Question>): multiset<Answer>
    requires AllDone(qs)
  {
    if qs == [] then multiset{}
    else
      var last := qs[|qs| - 1].stage.outcome;
      HeldAnswers(qs[..|qs| - 1]) + if last.held.Some? then multiset{last.held.value} else multiset{}
  }

  lemma {:induction false} KeptIsHeld(qs: seq<Question>)
    requires AllDone(qs)
    ensures Kept(qs) == HeldAnswers(qs)
  {
    if qs != [] {
      KeptIsHeld(qs[..|qs| - 1]);
    }
  }

  /** What comes back undelivered is exactly what was held, and no hold outlives the task. */
  lemma UnsentIsWhatWasHeld(req: Request, schedule: seq<Action>)
    requires Run(Begin(req), schedule).Some?
    requires var t := Run(Begin(req), schedule).value; t.reader.Closed? && t.begun
    ensures var t := Run(Begin(req), schedule).value;
            AllDone(t.board.questions) && multiset(t.outUnsent) == HeldAnswers(t.board.questions) && t.board.holding == 0
  {
    InvOf(req, schedule);
    var t := Run(Begin(req), schedule).value;
    KeptIsHeld(t.board.questions);
    assert Outstanding(t.board.questions) == {};
  }

  /**
    Result and Error are never both set. Neither is exactly when no terminal message came,
    which RunTask returns as an error unless what ended the set was its end of input: that
    one comes back with neither set and no error beside it.
   */
  lemma EndingIsClassified(req: Request, schedule: seq<Action>)
    requires Run(Begin(req), schedule).Some?
    requires var t := Run(Begin(req), schedule).value; t.reader.Closed? && t.begun
    ensures var t := Run(Begin(req), schedule).value;
            && !(t.result.Some? && t.error.Some?)
            && (t.result.None? && t.error.None? <==> NoEnding(t.received))
            && (t.result.Some? ==> TaskResult(t.result.value) in t.received)
            && (t.error.Some? ==> TaskError(t.error.value) in t.received)
            && (t.endErr.Some? <==> NoEnding(t.received))
            && (t.returned.Some? <==> t.endErr.Some? && t.endErr != Some(TaskStreams.EndOfInput))
            && (t.returned.Some? ==> t.returned == Some(Unreadable(t.endErr.value)))
  {
    InvOf(req, schedule);
  }

  /** The handler sees the blocks, and the hooks the messages, in the order they arrived. */
  lemma ReaderKeepsOrder(req: Request, schedule: seq<Action>)
    requires Run(Begin(req), schedule).Some?
    ensures var t := Run(Begin(req), schedule).value;
            && t.blocks == Blocks(t.received)
            && FromReader(t.hooks) == HooksFor(t.req, t.received)
            && |t.board.questions| == |Asks(t.received)|
            && (forall i :: 0 <= i < |Asks(t.received)| ==> t.board.questions[i].ask == Asks(t.received)[i])
  {
    InvOf(req, schedule);
  }

  // ----- a turn never gets stuck

  function Left(stage: Stage): nat {
    match stage
    case Asking => 4
    case Settled(_) => 3
    case Freed(_) => 2
    case Reported(_) => 1
    case Done(_) => 0
  }

  function AllLeft(qs: seq<Question>): nat {
    if qs == [] then 0 else AllLeft(qs[..|qs| - 1]) + Left(qs[|qs| - 1].stage)
  }

  lemma {:induction false} AllLeftAfterMove(qs: seq<Question>, i: nat, q: Question)
    requires i < |qs|
    ensures AllLeft(qs[i := q]) == AllLeft(qs) - Left(qs[i].stage) + Left(q.stage)
  {
    var last := |qs| - 1;
    if i == last {
      assert qs[i := q][..last] == qs[..last];
    } else {
      AllLeftAfterMove(qs[..last], i, q);
      assert qs[i := q][..last] == qs[..last][i := q];
    }
  }

  /** A stage between reporting and done holds the answer it is about to keep. */
  predicate ReportedHolds(qs: seq<Question>) {
    forall i :: 0 <= i < |qs| && qs[i].stage.Reported? ==> qs[i].stage.outcome.held.Some?
  }

  /**
    However a set ended and whatever its questions are doing, the task can still be brought
    to its close: once each handler returns, nothing else is waited for.
   */
  lemma NeverStuck(req: Request, schedule: seq<Action>)
    requires Run(Begin(req), schedule).Some? && Run(Begin(req), schedule).value.reader.Deferred?
    ensures var t := Run(Begin(req), schedule).value;
            exists more :: Run(t, more).Some? && Run(t, more).value.reader.Closed?
  {
    InvOf(req, schedule);
    var t := Run(Begin(req), schedule).value;
    forall q | 0 <= q < |t.board.questions| && t.board.questions[q].stage.Reported?
      ensures t.board.questions[q].stage.outcome.held.Some?
    {
      assert ClosedAfterAsked(t, q);
    }
    var more := Closing(t);
  }

  /** A question that is not done can move on, and keeps to what a reported one holds. */
  lemma MovesOn(t: Turn, q: nat) returns (a: Action)
    requires ReportedHolds(t.board.questions) && q < |t.board.questions| && !t.board.questions[q].stage.Done?
    ensures Step(t, a).Some? && Step(t, a).value.reader == t.reader
    ensures ReportedHolds(Step(t, a).value.board.questions)
    ensures AllLeft(Step(t, a).value.board.questions) < AllLeft(t.board.questions)
  {
    hide AllLeft;
    a := match t.board.questions[q].stage
      case Asking => Settle(q, [HandlerDone(Dismissed)], NoAck)
      case Settled(_) => Free(q)
      case Freed(_) => Report(q)
      case Reported(_) => Keep(q);
    var u := Step(t, a).value;
    assert u.board.questions == t.board.questions[q := u.board.questions[q]];
    AllLeftAfterMove(t.board.questions, q, u.board.questions[q]);
  }

  lemma RunFrom(t: Turn, a: Action, rest: seq<Action>)
    requires Step(t, a).Some?
    ensures Run(t, [a] + rest) == Run(Step(t, a).value, rest)
  {
    assert ([a] + rest)[1..] == rest;
  }

  lemma {:induction false} Closing(t: Turn) returns (schedule: seq<Action>)
    requires t.reader.Deferred? && ReportedHolds(t.board.questions)
    ensures Run(t, schedule).Some? && Run(t, schedule).value.reader.Closed?
    decreases AllLeft(t.board.questions)
  {
    hide AllLeft, ReportedHolds;
    if q :| 0 <= q < |t.board.questions| && !t.board.questions[q].stage.Done? {
      var a := MovesOn(t, q);
      var rest := Closing(Step(t, a).value);
      RunFrom(t, a, rest);
      schedule := [a] + rest;
    } else {
      RunFrom(t, Close, []);
      schedule := [Close];
      assert [Close] + [] == schedule;
    }
  }
}
