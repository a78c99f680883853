/**
  A caller's view of one task's reply set: the messages as they are read, the gap count,
  and the questions that suspend the idle bound.
 */
module TaskStreams {
  import opened Wrappers
  import opened Wire
  import opened Gaps

  /** What one bounded read returned: a failure, or a body and what checking it finds. */
  datatype Delivery =
    | ReadFailed(cause: ReadError)
    | Body(size: nat, valid: bool, decodes: bool, number: uint64, message: Message)

  datatype ReadError = EndOfInput | AgentUnavailable | TransportFailed | TooLarge | Invalid | Undecodable | NotInSet

  datatype Next = Got(message: Message) | EndOfSet | Failed(error: ReadError)

  /** The channel one suspension of the idle bound is waited on, open until it is closed. */
  class Generation {
    var closed: bool

    constructor ()
      ensures !closed
    {
      closed := false;
    }

    /** Closing a closed channel panics, so nothing may call this twice. */
    method Close()
      requires !closed
      modifies this
      ensures closed
    {
      closed := true;
    }
  }

  /** What suspend hands back: the generation it joined, and whether it was released. */
  class Hold {
    const generation: Generation
    var released: bool

    constructor (generation: Generation)
      ensures this.generation == generation && !released
    {
      this.generation := generation;
      released := false;
    }
  }

  class TaskStream {
    var highest: uint64
    var gaps: uint64
    var done: bool
    var holding: nat
    var resumed: Generation?
    /** The holds given out and not yet released. */
    ghost var holds: set<Hold>
    /** The generations that are over. */
    ghost var past: set<Generation>

    /**
      A generation is open exactly while a question is outstanding, every unreleased hold
      is on that one, and every earlier one is closed.
     */
    ghost predicate Valid()
      reads this, holds, past, if resumed == null then {} else {resumed}
    {
      && holding == |holds|
      && (resumed != null <==> holding > 0)
      && (resumed != null ==> !resumed.closed && resumed !in past)
      && (forall h :: h in holds ==> !h.released && h.generation == resumed)
      && (forall g :: g in past ==> g.closed)
    }

    constructor ()
      ensures Valid() && highest == 0 && gaps == 0 && !done && holds == {} && past == {}
    {
      highest, gaps, done, holding, resumed := 0, 0, false, 0, null;
      holds, past := {}, {};
    }

    method Suspend() returns (h: Hold)
      requires Valid()
      modifies this`holding, this`resumed, this`holds
      ensures Valid() && fresh(h) && !h.released
      ensures holds == old(holds) + {h} && holding == old(holding) + 1
      ensures h.generation == resumed && past == old(past)
      ensures if old(resumed) == null then fresh(resumed) else resumed == old(resumed)
    {
      if holding == 0 {
        resumed := new Generation();
      }
      holding := holding + 1;
      h := new Hold(resumed);
      holds := holds + {h};
    }

    /**
      The release Suspend returned, safe to call any number of times: only the first call
      counts, and only the last outstanding one closes the generation.
     */
    method Release(h: Hold)
      requires Valid() && (h in holds || h.released)
      modifies this`holding, this`resumed, this`holds, this`past, h, h.generation
      ensures Valid() && h.released && holds == old(holds) - {h}
      ensures holding == old(holding) - if old(h.released) then 0 else 1
      ensures old(h.released) ==> unchanged(h.generation) && resumed == old(resumed) && past == old(past)
      ensures !old(h.released) ==>
                if holds == {}
                then resumed == null && h.generation.closed && past == old(past) + {h.generation}
                else resumed == old(resumed) && !resumed.closed && past == old(past)
    {
      if h.released {
        return;
      }
      assert holds == (holds - {h}) + {h};
      h.released := true;
      holds := holds - {h};
      holding := holding - 1;
      if holding > 0 {
        return;
      }
      h.generation.Close();
      past := past + {h.generation};
      resumed := null;
    }

    /** What a read waits on: nothing exactly when the idle bound applies. */
    method Suspended() returns (g: Generation?)
      requires Valid()
      ensures g == resumed && (g == null <==> holds == {})
      ensures g != null ==> !g.closed
    {
      g := resumed;
      if holds != {} {
        var h :| h in holds;
        assert holds == {h} + (holds - {h});
      }
    }

    /** The message after the last one, with a failed read and a finished set told apart. */
    method Next(d: Delivery) returns (r: Next)
      requires Valid()
      modifies this`highest, this`gaps, this`done
      ensures Valid()
      ensures old(done) ==> r == EndOfSet && done && highest == old(highest) && gaps == old(gaps)
      // a body that fails a check is never counted, and the checks come in this order
      ensures !old(done) && d.ReadFailed? ==> r == Failed(d.cause)
      ensures !old(done) && d.Body? && d.size > MAX_MESSAGE_SIZE ==> r == Failed(TooLarge)
      ensures !old(done) && d.Body? && d.size <= MAX_MESSAGE_SIZE && !d.valid ==> r == Failed(Invalid)
      ensures !old(done) && d.Body? && d.size <= MAX_MESSAGE_SIZE && d.valid && !d.decodes ==> r == Failed(Undecodable)
      ensures !old(done) && (d.ReadFailed? || d.size > MAX_MESSAGE_SIZE || !d.valid || !d.decodes) ==>
                !done && highest == old(highest) && gaps == old(gaps)
      ensures !old(done) && d.Body? && d.size <= MAX_MESSAGE_SIZE && d.valid && d.decodes ==>
                && Count(highest, gaps) == Step(Count(old(highest), old(gaps)), d.number)
                && r == (if d.message.ToolReply? || d.message.Foreign? then Failed(NotInSet) else Got(d.message))
                && (done <==> d.message.TaskResult? || d.message.TaskError?)
    {
      if done {
        return EndOfSet;
      }
      if d.ReadFailed? {
        return Failed(d.cause);
      }
      if d.size > MAX_MESSAGE_SIZE {
        return Failed(TooLarge);
      }
      if !d.valid {
        return Failed(Invalid);
      }
      if !d.decodes {
        return Failed(Undecodable);
      }
      CountGap(d.number);
      match d.message
      case Ack(_, _, _) => r := Got(d.message);
      case Event(_) => r := Got(d.message);
      case Elicit(_) => r := Got(d.message);
      case TaskResult(_) => done := true; r := Got(d.message);
      case TaskError(_) => done := true; r := Got(d.message);
      case ToolReply(_, _, _) => r := Failed(NotInSet);
      case Foreign(_) => r := Failed(NotInSet);
    }

    method CountGap(n: uint64)
      modifies this`highest, this`gaps
      ensures Count(highest, gaps) == Step(Count(old(highest), old(gaps)), n)
    {
      if n > Wrap(highest + 1) {
        gaps := Wrap(gaps + n - highest - 1);
      }
      if n > highest {
        highest := n;
      }
    }
  }
}
