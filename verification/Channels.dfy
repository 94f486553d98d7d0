/** The bounded message channel and its depth counter, step by step under every interleaving. */
module Channels {

  const CAPACITY: nat := 256

  /** Where one sender is in its call: the counter goes up first, and down again if nothing was queued. */
  datatype Sending<M> = Idle | Counted(message: M) | Failing

  /** Where the receiver is in its call: a message is taken off the queue before the counter goes down. */
  datatype Receiving = Waiting | Taken | Dropped

  datatype Channel<M> = Channel(depth: nat, queue: seq<M>, senders: seq<Sending<M>>, receiver: Receiving)

  /** One atomic operation by one of the parties. */
  datatype Step<M> =
    | Clone                           // another sender handle
    | Count(sender: nat, message: M)  // send: the counter's increment
    | Queue(sender: nat)              // send: the message goes in
    | Refuse(sender: nat)             // send: the receiver is gone, or there is no room and it does not wait
    | Uncount(sender: nat)            // send: the counter's decrement after a refusal
    | Take                            // recv: the oldest message comes out
    | Settle                          // recv: the counter's saturating decrement
    | Drop                            // the receiver goes away with all that is queued

  predicate Enabled<M>(c: Channel<M>, step: Step<M>) {
    match step
    case Clone => true
    case Count(i, _) => i < |c.senders| && c.senders[i].Idle?
    case Queue(i) => i < |c.senders| && c.senders[i].Counted? && !c.receiver.Dropped? && |c.queue| < CAPACITY
    case Refuse(i) => i < |c.senders| && c.senders[i].Counted? && (c.receiver.Dropped? || |c.queue| == CAPACITY)
    case Uncount(i) => i < |c.senders| && c.senders[i].Failing?
    case Take => c.receiver.Waiting? && c.queue != []
    case Settle => c.receiver.Taken?
    case Drop => c.receiver.Waiting?
  }

  function Apply<M>(c: Channel<M>, step: Step<M>): Channel<M>
    requires Enabled(c, step)
  {
    match step
    case Clone => c.(senders := c.senders + [Idle])
    case Count(i, message) => c.(depth := c.depth + 1, senders := c.senders[i := Counted(message)])
    case Queue(i) => c.(queue := c.queue + [c.senders[i].message], senders := c.senders[i := Idle])
    case Refuse(i) => c.(senders := c.senders[i := Failing])
    case Uncount(i) => c.(depth := if c.depth == 0 then 0xffff_ffff_ffff_ffff else c.depth - 1, senders := c.senders[i := Idle])
    case Take => c.(queue := c.queue[1..], receiver := Taken)
    case Settle => c.(depth := if c.depth == 0 then 0 else c.depth - 1, receiver := Waiting)
    case Drop => c.(queue := [], receiver := Dropped)
  }

  function New<M>(): Channel<M> { Channel(0, [], [Idle], Waiting) }

  /** The channel after the first `n` steps; a step nobody can take is not taken. */
  function Run<M(==)>(steps: seq<Step<M>>, n: nat): Channel<M>
    requires n <= |steps|
  {
    if n == 0 then New()
    else
      var c := Run(steps, n - 1);
      if Enabled(c, steps[n - 1]) then Apply(c, steps[n - 1]) else c
  }

  function OneIf(b: bool): nat { if b then 1 else 0 }

  /** Senders that have counted up and neither queued nor counted down again. */
  function InFlight<M>(senders: seq<Sending<M>>): nat {
    if senders == [] then 0 else InFlight(senders[..|senders| - 1]) + OneIf(!senders[|senders| - 1].Idle?)
  }

  /** Messages that were queued when the receiver went away. */
  function Lost<M(==)>(steps: seq<Step<M>>, n: nat): nat
    requires n <= |steps|
  {
    if n == 0 then 0
    else
      var c := Run(steps, n - 1);
      if steps[n - 1].Drop? && Enabled(c, Drop) then |c.queue| else Lost(steps, n - 1)
  }

  lemma {:induction false} InFlightUpdate<M>(senders: seq<Sending<M>>, i: nat, stage: Sending<M>)
    requires i < |senders|
    ensures InFlight(senders[i := stage]) == InFlight(senders) - OneIf(!senders[i].Idle?) + OneIf(!stage.Idle?)
  {
    var last := |senders| - 1;
    if i == last {
      assert senders[i := stage][..last] == senders[..last];
    } else {
      InFlightUpdate(senders[..last], i, stage);
      assert senders[i := stage][..last] == senders[..last][i := stage];
    }
  }

  lemma InFlightGrows<M>(senders: seq<Sending<M>>)
    ensures InFlight(senders + [Idle]) == InFlight(senders)
  {
    assert (senders + [Idle])[..|senders|] == senders;
  }

  lemma {:induction false} InFlightBound<M>(senders: seq<Sending<M>>)
    ensures InFlight(senders) <= |senders|
    ensures InFlight(senders) == 0 <==> forall i :: 0 <= i < |senders| ==> senders[i].Idle?
  {
    if senders != [] {
      InFlightBound(senders[..|senders| - 1]);
    }
  }

  /** The counter is exact: queued messages, sends under way and receives not counted yet; once the receiver is
      gone, the messages it left behind and the sends under way. */
  predicate Exact<M>(c: Channel<M>, lost: nat) {
    && c.depth == InFlight(c.senders) + (if c.receiver.Dropped? then lost else |c.queue| + OneIf(c.receiver.Taken?))
    && |c.queue| <= CAPACITY
    && (c.receiver.Dropped? ==> c.queue == [])
  }

  lemma StepIsExact<M>(c: Channel<M>, step: Step<M>, lost: nat)
    requires Enabled(c, step) && Exact(c, lost)
    ensures Exact(Apply(c, step), if step.Drop? then |c.queue| else lost)
    ensures step.Settle? || step.Uncount? ==> c.depth > 0
  {
    InFlightGrows(c.senders);
    match step {
      case Count(i, message) => InFlightUpdate(c.senders, i, Counted(message));
      case Queue(i) => InFlightUpdate(c.senders, i, Idle);
      case Refuse(i) => InFlightUpdate(c.senders, i, Failing);
      case Uncount(i) => InFlightUpdate(c.senders, i, Idle);
      case _ =>
    }
  }

  lemma NewIsExact<M>()
    ensures Exact<M>(New(), 0)
  {
    assert InFlight<M>([Idle]) == 0 by {
      assert [Sending<M>.Idle][..0] == [];
    }
  }

  lemma {:induction false} RunIsExact<M>(steps: seq<Step<M>>, n: nat)
    requires n <= |steps|
    ensures Exact(Run(steps, n), Lost(steps, n))
  {
    hide Enabled, Apply, Exact, New;
    if n == 0 {
      NewIsExact<M>();
    } else {
      RunIsExact(steps, n - 1);
      var c := Run(steps, n - 1);
      if Enabled(c, steps[n - 1]) {
        StepIsExact(c, steps[n - 1], Lost(steps, n - 1));
      }
    }
  }

  /** Whatever the interleaving, while the receiver lives the counter is never below the queue's length nor above
      it by more than the parties under way, and it is the queue's length when nobody is. */
  lemma DepthIsExact<M>(steps: seq<Step<M>>, n: nat)
    requires n <= |steps| && !Run(steps, n).receiver.Dropped?
    ensures var c := Run(steps, n);
            && c.depth == |c.queue| + InFlight(c.senders) + OneIf(c.receiver.Taken?)
            && |c.queue| <= c.depth <= 256 + |c.senders| + 1
            && (c.depth == |c.queue| <==>
                  c.receiver.Waiting? && forall i :: 0 <= i < |c.senders| ==> c.senders[i].Idle?)
  {
    hide Run, Lost, InFlight;
    RunIsExact(steps, n);
    InFlightBound(Run(steps, n).senders);
  }

  /** No decrement is ever lost or wraps: the receiver's saturating one never saturates, and a refused send
      takes back its own count even after the receiver is gone. */
  lemma DecrementsAreExact<M>(steps: seq<Step<M>>, n: nat)
    requires n < |steps| && Enabled(Run(steps, n), steps[n])
    requires steps[n].Settle? || steps[n].Uncount?
    ensures Run(steps, n + 1).depth == Run(steps, n).depth - 1
  {
    hide InFlight, Exact, Lost;
    RunIsExact(steps, n);
    StepIsExact(Run(steps, n), steps[n], Lost(steps, n));
  }

  /** With the receiver gone, the counter rests at the number of messages lost with it. */
  lemma DroppedDepthRests<M>(steps: seq<Step<M>>, n: nat)
    requires n <= |steps| && Run(steps, n).receiver.Dropped?
    ensures var c := Run(steps, n);
            c.queue == [] && c.depth == Lost(steps, n) + InFlight(c.senders)
  {
    hide Run, Lost, InFlight;
    RunIsExact(steps, n);
  }

  // ---- order ---------------------------------------------------------------------------------

  /** Messages in the order they went in. */
  function Entered<M(==)>(steps: seq<Step<M>>, n: nat): seq<M>
    requires n <= |steps|
  {
    if n == 0 then []
    else
      var c := Run(steps, n - 1);
      if steps[n - 1].Queue? && Enabled(c, steps[n - 1])
      then Entered(steps, n - 1) + [c.senders[steps[n - 1].sender].message]
      else Entered(steps, n - 1)
  }

  /** Messages in the order they came out. */
  function Left<M(==)>(steps: seq<Step<M>>, n: nat): seq<M>
    requires n <= |steps|
  {
    if n == 0 then []
    else
      var c := Run(steps, n - 1);
      if steps[n - 1].Take? && Enabled(c, steps[n - 1]) then Left(steps, n - 1) + [c.queue[0]] else Left(steps, n - 1)
  }

  lemma FlowStep<M>(c: Channel<M>, step: Step<M>, left: seq<M>, entered: seq<M>)
    requires Enabled(c, step) && left + c.queue == entered && !step.Drop?
    ensures var queue := Apply(c, step).queue;
            if step.Queue? then left + queue == entered + [c.senders[step.sender].message]
            else if step.Take? then left + [c.queue[0]] + queue == entered
            else left + queue == entered
  {
  }

  /** What came out and what is queued is what went in, in order. */
  lemma {:induction false} FirstInFirstOut<M>(steps: seq<Step<M>>, n: nat)
    requires n <= |steps| && !Run(steps, n).receiver.Dropped?
    ensures Left(steps, n) + Run(steps, n).queue == Entered(steps, n)
  {
    hide Apply, Enabled;
    if n == 0 {
      assert [] + New<M>().queue == [];
    } else {
      var c, step := Run(steps, n - 1), steps[n - 1];
      StaysDropped(c, step);
      FirstInFirstOut(steps, n - 1);
      if Enabled(c, step) {
        FlowStep(c, step, Left(steps, n - 1), Entered(steps, n - 1));
      }
    }
  }

  lemma StaysDropped<M>(c: Channel<M>, step: Step<M>)
    ensures Enabled(c, step) && (c.receiver.Dropped? || step.Drop?) ==> Apply(c, step).receiver.Dropped?
    ensures Enabled(c, step) && step.Queue? ==> step.sender < |c.senders| && c.senders[step.sender].Counted?
    ensures Enabled(c, step) && step.Take? ==> c.queue != []
  {
  }
}
