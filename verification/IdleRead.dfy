/**
  The bounded read of a task stream, as steps against a clock: the reader's select loop,
  the goroutines releasing the questions they held, the message arriving and the caller
  canceling, in any interleaving. While a read is open questions are only released, never
  asked, so one generation spans it and its channel is closed exactly when none is held.
 */
module IdleReads {
  import opened Wrappers

  datatype Outcome = Message | Idle(at: nat)

  datatype Phase =
    | Arming                // the timer is set, suspended() is next
    | Watching(held: bool)  // the outer select, over a channel or over nil
    | Waiting               // the window ran out under a question: the inner select
    | Draining              // only the reader's own answer is waited for
    | Gone(outcome: Outcome)

  datatype Read = Read(
    idle: nat, now: nat, armed: nat, phase: Phase, holding: nat, arrived: bool, canceled: bool,
    // history: when the read began, whether it ever saw a question outstanding, and when
    // the last release so far landed
    start: nat, sawHeld: bool, lastRelease: nat)

  datatype Action = Tick(millis: nat) | Release | Arrive | Cancel | Capture | TakeMessage | SeeCancel | SeeResumed | Fire

  /** A read of a stream with questions outstanding; a bound of zero waits forever. */
  function Begin(idle: nat, now: nat, holding: nat): Read {
    Read(idle, now, now, if idle == 0 then Draining else Arming, holding, false, false, now, false, now)
  }

  function Step(s: Read, a: Action): Option<Read> {
    if s.phase.Gone? then None
    else
      match a
      case Tick(millis) => Some(s.(now := s.now + millis))
      case Release =>
        if s.holding > 0 then Some(s.(holding := s.holding - 1, lastRelease := s.now)) else None
      case Arrive => Some(s.(arrived := true))
      case Cancel => Some(s.(canceled := true))
      case Capture =>
        if s.phase.Arming?
        then Some(s.(phase := Watching(s.holding > 0), sawHeld := s.sawHeld || s.holding > 0))
        else None
      case TakeMessage =>
        if !s.phase.Arming? && s.arrived then Some(s.(phase := Gone(Message))) else None
      case SeeCancel =>
        if (s.phase.Watching? || s.phase.Waiting?) && s.canceled then Some(s.(phase := Draining)) else None
      case SeeResumed =>
        if (s.phase == Watching(true) || s.phase.Waiting?) && s.holding == 0
        then Some(s.(phase := Arming, armed := s.now))
        else None
      case Fire =>
        if s.phase.Watching? && s.now >= s.armed + s.idle then
          if s.phase.held then Some(s.(phase := Waiting))
          else if s.arrived then Some(s.(phase := Gone(Message)))
          else Some(s.(phase := Gone(Idle(s.now))))
        else None
  }

  /** The state after a schedule, or None when it takes a step that was not enabled. */
  function Run(s: Read, schedule: seq<Action>): Option<Read>
    decreases |schedule|
  {
    if schedule == [] then Some(s)
    else
      var next := Step(s, schedule[0]);
      if next.None? then None else Run(next.value, schedule[1..])
  }

  predicate Inv(s: Read) {
    && s.start <= s.armed <= s.now && s.start <= s.lastRelease <= s.now
    && (s.phase == Watching(false) ==> s.holding == 0)
    && (s.phase == Watching(true) || s.phase.Waiting? ==> s.sawHeld)
    && (s.sawHeld && (s.phase.Arming? || s.phase == Watching(false)) ==>
          s.holding == 0 && s.lastRelease <= s.armed)
    && (!s.sawHeld ==> s.armed == s.start)
    && (s.idle == 0 ==> s.phase.Draining? || s.phase == Gone(Message))
    && (s.phase.Gone? && s.phase.outcome.Idle? ==>
          && s.holding == 0 && !s.arrived && s.phase.outcome.at == s.now
          && s.now >= s.armed + s.idle
          && (s.sawHeld ==> s.lastRelease <= s.armed))
  }

  lemma StepKeepsInv(s: Read, a: Action)
    requires Inv(s) && Step(s, a).Some?
    ensures var t := Step(s, a).value;
            Inv(t) && t.idle == s.idle && t.start == s.start && (s.sawHeld ==> t.sawHeld)
  {
    match a {
      case Tick(_) =>
      case Release =>
      case Arrive =>
      case Cancel =>
      case Capture =>
      case TakeMessage =>
      case SeeCancel =>
      case SeeResumed =>
      case Fire =>
    }
  }

  lemma {:induction false} RunKeepsInv(s: Read, schedule: seq<Action>)
    requires Inv(s) && Run(s, schedule).Some?
    ensures var t := Run(s, schedule).value;
            Inv(t) && t.idle == s.idle && t.start == s.start && (s.sawHeld ==> t.sawHeld)
    decreases |schedule|
  {
    if schedule != [] {
      StepKeepsInv(s, schedule[0]);
      RunKeepsInv(Step(s, schedule[0]).value, schedule[1..]);
    }
  }

  /**
    In every interleaving: a read gives up only with no question outstanding, nothing
    arrived and a whole window gone since it began; and one that ever saw a question
    outstanding gives up no sooner than a whole window after the last release.
   */
  lemma GivesUpOnlyOnSilence(idle: nat, now: nat, holding: nat, schedule: seq<Action>)
    requires var r := Run(Begin(idle, now, holding), schedule); r.Some? && r.value.phase.Gone?
    ensures var t := Run(Begin(idle, now, holding), schedule).value;
            t.phase.outcome.Idle? ==>
              && idle > 0 && t.holding == 0 && !t.arrived
              && t.phase.outcome.at >= now + idle
              && (t.sawHeld ==> t.phase.outcome.at >= t.lastRelease + idle)
  {
    RunKeepsInv(Begin(idle, now, holding), schedule);
  }

  /**
    The whole window after the last release is owed to every read that began with a
    question outstanding. It is given unless the last release landed after the timer was
    set and before the read first looked: such a read never saw the question.
   */
  lemma OwedWindow(idle: nat, now: nat, holding: nat, schedule: seq<Action>)
    requires var r := Run(Begin(idle, now, holding), schedule);
             r.Some? && r.value.phase.Gone? && r.value.phase.outcome.Idle?
    ensures var t := Run(Begin(idle, now, holding), schedule).value;
            t.phase.outcome.at >= t.lastRelease + idle || (!t.sawHeld && t.lastRelease > now)
  {
    RunKeepsInv(Begin(idle, now, holding), schedule);
  }

  /** That exception is real: the read can give up before the window it owes has run. */
  lemma ReleaseBeforeFirstLookIsNotOwed(idle: nat, now: nat, delay: nat)
    requires 0 < delay <= idle
    ensures var schedule := [Tick(delay), Release, Capture, Tick(idle - delay), Fire];
            var r := Run(Begin(idle, now, 1), schedule);
            r.Some? && r.value.phase == Gone(Idle(now + idle)) && r.value.lastRelease + idle > now + idle
  {
    var s0 := Begin(idle, now, 1);
    var a := [Tick(delay), Release, Capture, Tick(idle - delay), Fire];
    var s1 := Step(s0, a[0]).value;
    var s2 := Step(s1, a[1]).value;
    var s3 := Step(s2, a[2]).value;
    var s4 := Step(s3, a[3]).value;
    var s5 := Step(s4, a[4]).value;
    assert a[1..][1..] == a[2..] && a[2..][1..] == a[3..] && a[3..][1..] == a[4..] && a[4..][1..] == [];
    assert Run(s4, a[4..]) == Some(s5);
    assert Run(s3, a[3..]) == Some(s5);
    assert Run(s2, a[2..]) == Some(s5);
    assert Run(s1, a[1..]) == Some(s5);
  }

  /** The steps that let a quiet read with nothing outstanding run its window down. */
  function QuietEnding(s: Read): seq<Action> {
    (if s.phase == Watching(true) || s.phase.Waiting? then [SeeResumed] else []) +
    (if s.phase == Watching(false) then [] else [Capture]) +
    [Tick(s.idle), Fire]
  }

  /**
    The bound is lifted for the question and not for the rest of the set: a bounded read
    that nothing arrives for, with no question left outstanding, can always run its window
    down from where it stands and is then given up on within one window.
   */
  lemma BoundAppliesAgain(idle: nat, now: nat, holding: nat, schedule: seq<Action>)
    requires var r := Run(Begin(idle, now, holding), schedule);
             && r.Some? && idle > 0 && r.value.holding == 0 && !r.value.arrived
             && !r.value.phase.Gone? && !r.value.phase.Draining?
    ensures var s := Run(Begin(idle, now, holding), schedule).value;
            var r := Run(s, QuietEnding(s));
            r.Some? && r.value.phase == Gone(Idle(s.now + idle))
  {
    RunKeepsInv(Begin(idle, now, holding), schedule);
    var s := Run(Begin(idle, now, holding), schedule).value;
    var rearmed := if s.phase == Watching(true) || s.phase.Waiting? then Step(s, SeeResumed).value else s;
    var looking := if s.phase == Watching(false) then rearmed else Step(rearmed, Capture).value;
    var late := Step(looking, Tick(s.idle)).value;
    RunTwo(looking, Tick(s.idle), Fire);
    if s.phase != Watching(false) {
      assert ([Capture] + [Tick(s.idle), Fire])[1..] == [Tick(s.idle), Fire];
      if rearmed != s || s.phase.Waiting? || s.phase == Watching(true) {
        assert QuietEnding(s)[1..] == [Capture] + [Tick(s.idle), Fire];
      } else {
        assert QuietEnding(s) == [Capture] + [Tick(s.idle), Fire];
      }
    } else {
      assert QuietEnding(s) == [Tick(s.idle), Fire];
    }
  }

  lemma RunTwo(s: Read, a: Action, b: Action)
    requires Step(s, a).Some?
    ensures Run(s, [a, b]) == Step(Step(s, a).value, b)
  {
    assert [a, b][1..] == [b] && [b][1..] == [];
    assert Run(Step(s, a).value, [b]) == Step(Step(s, a).value, b);
  }
}
