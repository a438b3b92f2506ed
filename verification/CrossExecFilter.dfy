/**
 * The filters that carry calls from a source thread to a target executor. The
 * source enqueues a job per call and is told at once that it succeeded; the target
 * runs the jobs in order. The filter keeps itself alive by a guard it holds, which
 * a terminal job or a queued release lets go.
 */
module CrossExecFilters {
  import opened Common

  type Code = nat

  // `Payload` stands for the calls that may end the stream and whose rejection closes
  // it (object, objectPayload and, on a fetch, endOfGroup and endOfUnknownRange),
  // `Begin` for beginObject, `Finish` for the calls that always end the stream and
  // whose rejection is only logged, `Checkpoint` for checkpoint.
  datatype Call = Payload(id: nat, fin: bool) | Begin(id: nat) | Finish(id: nat) | Checkpoint {
    predicate Terminal() {
      Finish? || (Payload? && fin)
    }

    predicate Closes() {
      Payload? || Begin?
    }
  }

  // What a queued lambda does. `Forward` holds a bare pointer to the filter; the others
  // hold a reference that keeps it alive until they have run.
  datatype Job = Open | Forward(call: Call) | Release | DeliverReset

  datatype State = State(
    queue: seq<Job>, guard: bool, error: Option<Code>, downstream: bool, referenced: bool,
    accepted: seq<Call>, delivered: seq<Call>, verdicts: seq<bool>, resets: nat, ended: bool, closing: bool)

  // The source calls, asks for readiness, resets, or drops its reference; the target runs
  // the next job, to which the downstream consumer may answer with an error.
  datatype Action = Send(call: Call) | Await | Reset(code: Code) | Drop | RunNext(reply: Option<Code>)

  // A subgroup filter waits for its downstream consumer; a fetch filter has it from the start.
  function Initial(subgroup: bool): State {
    State(if subgroup then [Open] else [], true, None, !subgroup, true, [], [], [], 0, false, false)
  }

  // The source makes no call but a reset after a terminal call that succeeded, and none
  // after dropping its reference.
  predicate Allowed(s: State, a: Action) {
    match a
    case Send(_) => s.referenced && !s.ended
    case Await => s.referenced && !s.ended
    case Reset(_) => s.referenced
    case Drop => s.referenced
    case RunNext(_) => |s.queue| > 0
  }

  // Moves the guard into a job at the back of the queue.
  function EnqueueDeactivate(s: State): State {
    if s.guard then s.(queue := s.queue + [Release], guard := false) else s
  }

  function SendCall(s: State, c: Call): State {
    if s.error.Some? then EnqueueDeactivate(s).(closing := true)
    else s.(queue := s.queue + [Forward(c)], accepted := s.accepted + [c],
            ended := s.ended || c.Terminal(), closing := s.closing || c.Terminal())
  }

  // A job that forwards a call: a rejection closes the filter, a terminal call drops the guard.
  function RunForward(s: State, c: Call, reply: Option<Code>): State {
    var rejected := s.downstream && reply.Some? && c != Checkpoint;
    s.(delivered := if s.downstream then s.delivered + [c] else s.delivered,
       verdicts := if s.downstream then s.verdicts + [!rejected] else s.verdicts,
       error := if rejected && c.Closes() then reply else s.error,
       downstream := s.downstream && !(rejected && c.Closes()),
       guard := s.guard && !c.Terminal())
  }

  function RunJob(s: State, job: Job, reply: Option<Code>): State {
    match job
    case Open => if reply.Some? then s.(error := reply) else s.(downstream := true)
    case Forward(c) => RunForward(s, c, reply)
    case Release => s
    case DeliverReset => s.(resets := if s.downstream then s.resets + 1 else s.resets, guard := false)
  }

  function Step(s: State, a: Action): State
    requires Allowed(s, a)
  {
    match a
    case Send(c) => SendCall(s, c)
    case Await => if s.error.Some? then EnqueueDeactivate(s).(closing := true) else s
    case Reset(code) => s.(error := Some(code), queue := s.queue + [DeliverReset], closing := true)
    case Drop => s.(referenced := false)
    case RunNext(reply) => RunJob(s.(queue := s.queue[1..]), s.queue[0], reply)
  }

  // ---- What a step means -----------------------------------------------------------------

  // The source is refused once an error is stored, and the guard is on its way out.
  ghost predicate TurnedAway(s: State, t: State) {
    && t.accepted == s.accepted && t.closing && !t.guard
    && t.queue == (if s.guard then s.queue + [Release] else s.queue)
    && t == s.(queue := t.queue, guard := false, closing := true)
  }

  // A call is queued for the consumer and reported as done.
  ghost predicate Queued(s: State, t: State, c: Call) {
    && t.queue == s.queue + [Forward(c)] && t.accepted == s.accepted + [c]
    && (t.ended <==> s.ended || c.Finish? || (c.Payload? && c.fin))
    && (t.closing <==> s.closing || c.Finish? || (c.Payload? && c.fin))
    && t == s.(queue := t.queue, accepted := t.accepted, ended := t.ended, closing := t.closing)
  }

  // A queued call reaches the consumer while it is connected. Refusing an object
  // disconnects it and stores the error for the source; a refused end is only noted.
  ghost predicate Forwarded(s: State, t: State, c: Call, reply: Option<Code>) {
    && (t.guard <==> s.guard && !(c.Finish? || (c.Payload? && c.fin)))
    && if !s.downstream then t == s.(guard := t.guard)
       else
         && t.delivered == s.delivered + [c]
         && t.verdicts == s.verdicts + [reply.None? || c == Checkpoint]
         && (if reply.Some? && (c.Payload? || c.Begin?) then t.error == reply && !t.downstream
             else t.error == s.error && t.downstream)
         && t == s.(guard := t.guard, delivered := t.delivered, verdicts := t.verdicts, error := t.error, downstream := t.downstream)
  }

  // What a job does, the queue apart.
  ghost predicate Ran(s: State, t: State, job: Job, reply: Option<Code>) {
    match job
    case Open => if reply.Some? then t == s.(error := reply) else t == s.(downstream := true)
    case Forward(c) => Forwarded(s, t, c, reply)
    case Release => t == s
    case DeliverReset => !t.guard && t == s.(guard := false, resets := s.resets + if s.downstream then 1 else 0)
  }

  /** Every step, by what the two sides see of it. */
  lemma StepMeans(s: State, a: Action)
    requires Allowed(s, a)
    ensures var t := Step(s, a);
      match a
      case Send(c) => if s.error.Some? then TurnedAway(s, t) else Queued(s, t, c)
      case Await => if s.error.Some? then TurnedAway(s, t) else t == s
      case Reset(code) => t == s.(error := Some(code), queue := s.queue + [DeliverReset], closing := true)
      case Drop => t == s.(referenced := false)
      case RunNext(reply) => Ran(s.(queue := s.queue[1..]), t, s.queue[0], reply)
  {
  }

  // ---- What every interleaving keeps -------------------------------------------------

  // A later job never forwards a call if an earlier one ends the stream for it.
  predicate Last(job: Job) {
    job.Release? || job.DeliverReset? || (job.Forward? && job.call.Terminal())
  }

  ghost predicate Ordered(q: seq<Job>) {
    && (forall i, j :: 0 <= i < j < |q| && Last(q[i]) ==> !q[j].Forward?)
    && (forall i :: 0 < i < |q| ==> q[i] != Open)
  }

  // The queue forwards nothing any more.
  ghost predicate Quiet(q: seq<Job>) {
    forall i :: 0 <= i < |q| ==> !q[i].Forward?
  }

  /** Why no queued call can run on a filter that is gone, and why a closed one is let go. */
  ghost predicate LifeOk(s: State) {
    && Ordered(s.queue)
    && (s.error.None? ==> Release !in s.queue && DeliverReset !in s.queue)
    && (s.error.None? && !s.ended ==> s.guard)
    && (!s.ended ==> forall i :: 0 <= i < |s.queue| ==> !(s.queue[i].Forward? && s.queue[i].call.Terminal()))
    && (Release in s.queue ==> !s.guard)
    && (!s.guard ==> Quiet(s.queue) || Release in s.queue)
    && (s.closing && s.guard ==> exists i :: 0 <= i < |s.queue| && Last(s.queue[i]))
  }

  // The calls still to be forwarded, in order.
  function Pending(q: seq<Job>): seq<Call> {
    if |q| == 0 then []
    else if q[0].Forward? then [q[0].call] + Pending(q[1..])
    else Pending(q[1..])
  }

  ghost predicate AllTrue(v: seq<bool>, n: int) {
    forall i :: 0 <= i < |v| && i < n ==> v[i]
  }

  /**
   * The downstream consumer has seen a prefix of the accepted calls, in order, and
   * none after one it rejected; while it is connected the rest is in the queue.
   */
  ghost predicate DeliveryOk(s: State) {
    && |s.verdicts| == |s.delivered|
    && s.delivered <= s.accepted
    && AllTrue(s.verdicts, |s.verdicts| - 1)
    && (Open in s.queue ==> !s.downstream && s.delivered == [] && s.accepted == Pending(s.queue))
    && (s.downstream ==> s.accepted == s.delivered + Pending(s.queue))
    && (s.downstream && !AllTrue(s.verdicts, |s.verdicts|) ==> s.ended && Pending(s.queue) == [])
    && (s.resets > 0 ==> s.error.Some? && Pending(s.queue) == [])
    && (!s.downstream && Open !in s.queue ==> s.error.Some? && (s.delivered == [] || Refused(s)))
    && (Refused(s) && s.delivered[|s.delivered| - 1].Closes() ==> s.error.Some? && !s.downstream)
  }

  // The consumer refused the last call it saw.
  ghost predicate Refused(s: State)
    requires |s.verdicts| == |s.delivered|
  {
    |s.verdicts| > 0 && !s.verdicts[|s.verdicts| - 1]
  }

  lemma {:induction false} PendingAppend(q: seq<Job>, job: Job)
    ensures Pending(q + [job]) == Pending(q) + if job.Forward? then [job.call] else []
  {
    if |q| == 0 {
      assert q + [job] == [job] && [job][1..] == [];
    } else {
      PendingAppend(q[1..], job);
      assert (q + [job])[1..] == q[1..] + [job];
    }
  }

  lemma {:induction false} QuietIsDone(q: seq<Job>)
    requires Quiet(q)
    ensures Pending(q) == []
  {
    if |q| > 0 {
      QuietIsDone(q[1..]);
    }
  }

  // ---- One step ------------------------------------------------------------------------

  lemma OrderedAppend(q: seq<Job>, job: Job)
    requires Ordered(q) && job != Open
    requires job.Forward? ==> forall i :: 0 <= i < |q| ==> !Last(q[i])
    ensures Ordered(q + [job])
  {
  }

  lemma OrderedTail(q: seq<Job>)
    requires Ordered(q) && |q| > 0
    ensures Ordered(q[1..])
    ensures Last(q[0]) ==> Quiet(q[1..])
  {
  }

  lemma SourceKeepsLife(s: State, a: Action)
    requires LifeOk(s) && Allowed(s, a) && !a.RunNext?
    ensures LifeOk(Step(s, a))
  {
    var t := Step(s, a);
    if |t.queue| > |s.queue| {
      var job := t.queue[|s.queue|];
      assert t.queue == s.queue + [job];
      OrderedAppend(s.queue, job);
      if job.Forward? ==> job.call.Terminal() {
        assert Last(t.queue[|s.queue|]);
      }
    }
  }

  // The first job is gone; a job that ends the stream leaves no guard behind.
  lemma LifeAfterJob(s: State, t: State)
    requires LifeOk(s) && |s.queue| > 0
    requires t.queue == s.queue[1..] && t.ended == s.ended && t.closing == s.closing
    requires s.error.Some? ==> t.error.Some?
    requires if Last(s.queue[0]) then !t.guard else t.guard == s.guard
    ensures LifeOk(t)
  {
    OrderedTail(s.queue);
    var q := s.queue[1..];
    assert s.queue == [s.queue[0]] + q;
    if s.closing && s.guard && !Last(s.queue[0]) {
      var i :| 0 <= i < |s.queue| && Last(s.queue[i]);
      assert i > 0 && q[i - 1] == s.queue[i];
    }
  }

  lemma TargetKeepsLife(s: State, reply: Option<Code>)
    requires LifeOk(s) && |s.queue| > 0
    ensures LifeOk(Step(s, RunNext(reply)))
  {
    var t := Step(s, RunNext(reply));
    assert s.queue[0] in s.queue;
    LifeAfterJob(s, t);
  }

  lemma SourceKeepsDelivery(s: State, a: Action)
    requires LifeOk(s) && DeliveryOk(s) && Allowed(s, a) && !a.RunNext?
    ensures DeliveryOk(Step(s, a))
  {
    var t := Step(s, a);
    if |t.queue| > |s.queue| {
      PendingAppend(s.queue, t.queue[|s.queue|]);
      assert t.queue == s.queue + [t.queue[|s.queue|]];
    }
  }

  lemma TargetKeepsDelivery(s: State, reply: Option<Code>)
    requires LifeOk(s) && DeliveryOk(s) && |s.queue| > 0
    ensures DeliveryOk(Step(s, RunNext(reply)))
  {
    OrderedTail(s.queue);
    var q := s.queue[1..];
    assert s.queue == [s.queue[0]] + q;
    if Last(s.queue[0]) {
      QuietIsDone(q);
    }
    if s.queue[0].Forward? {
      ForwardKeepsDelivery(s, s.queue[0].call, reply);
    } else {
      OtherKeepsDelivery(s, reply);
    }
  }

  // A job that forwards nothing, given what it leaves of the fields that matter.
  lemma DeliveryAfterJob(s: State, t: State)
    requires DeliveryOk(s) && Ordered(s.queue) && |s.queue| > 0 && !s.queue[0].Forward?
    requires t.queue == s.queue[1..] && t.ended == s.ended
    requires t.accepted == s.accepted && t.delivered == s.delivered && t.verdicts == s.verdicts
    requires s.error.Some? ==> t.error.Some?
    requires t.downstream ==> s.downstream || s.queue[0] == Open
    requires !t.downstream ==> !s.downstream && (s.queue[0] == Open ==> t.error.Some?)
    requires t.resets > 0 ==> s.resets > 0 || (t.error.Some? && Pending(t.queue) == [])
    ensures DeliveryOk(t)
  {
    assert s.queue[0] in s.queue;
    assert Pending(t.queue) == Pending(s.queue);
    assert Open !in t.queue;
  }

  lemma OtherKeepsDelivery(s: State, reply: Option<Code>)
    requires LifeOk(s) && DeliveryOk(s) && |s.queue| > 0 && !s.queue[0].Forward?
    requires Last(s.queue[0]) ==> Pending(s.queue[1..]) == []
    ensures DeliveryOk(Step(s, RunNext(reply)))
  {
    assert s.queue[0] in s.queue;
    DeliveryAfterJob(s, Step(s, RunNext(reply)));
  }

  lemma ForwardKeepsDelivery(s: State, c: Call, reply: Option<Code>)
    requires LifeOk(s) && DeliveryOk(s) && |s.queue| > 0 && s.queue[0] == Forward(c)
    requires c.Terminal() ==> Pending(s.queue[1..]) == []
    ensures DeliveryOk(Step(s, RunNext(reply)))
  {
    var t := Step(s, RunNext(reply));
    assert Pending(s.queue) == [c] + Pending(t.queue);
    assert Open !in t.queue;
    if s.downstream {
      VerdictAppend(s.verdicts, !(reply.Some? && c != Checkpoint));
      assert t.delivered + Pending(t.queue) == s.delivered + Pending(s.queue);
      assert t.delivered <= s.accepted;
    }
  }

  lemma VerdictAppend(v: seq<bool>, b: bool)
    requires AllTrue(v, |v|)
    ensures AllTrue(v + [b], |v|) && (AllTrue(v + [b], |v| + 1) <==> b)
  {
    assert (v + [b])[|v|] == b;
  }

  // ---- Every interleaving ----------------------------------------------------------------

  ghost predicate Permitted(s: State, actions: seq<Action>)
    decreases |actions|
  {
    |actions| == 0 || (Allowed(s, actions[0]) && Permitted(Step(s, actions[0]), actions[1..]))
  }

  ghost function RunAll(s: State, actions: seq<Action>): State
    requires Permitted(s, actions)
    decreases |actions|
  {
    if |actions| == 0 then s else RunAll(Step(s, actions[0]), actions[1..])
  }

  lemma StepKeeps(s: State, a: Action)
    requires LifeOk(s) && DeliveryOk(s) && Allowed(s, a)
    ensures LifeOk(Step(s, a)) && DeliveryOk(Step(s, a))
  {
    if a.RunNext? {
      TargetKeepsLife(s, a.reply);
      TargetKeepsDelivery(s, a.reply);
    } else {
      SourceKeepsLife(s, a);
      SourceKeepsDelivery(s, a);
    }
  }

  lemma {:induction false} RunKeeps(s: State, actions: seq<Action>)
    requires LifeOk(s) && DeliveryOk(s) && Permitted(s, actions)
    ensures LifeOk(RunAll(s, actions)) && DeliveryOk(RunAll(s, actions))
    decreases |actions|
  {
    if |actions| > 0 {
      StepKeeps(s, actions[0]);
      RunKeeps(Step(s, actions[0]), actions[1..]);
    }
  }

  lemma InitialOk(subgroup: bool)
    ensures LifeOk(Initial(subgroup)) && DeliveryOk(Initial(subgroup))
  {
    assert [Open][1..] == [];
  }

  /**
   * Lifetime: in every interleaving each queued call that relies on the filter still
   * has the guard, held by the filter or by a release queued behind it; and once the
   * source has closed the stream, a drained queue means the guard is gone.
   */
  lemma CallsOutliveNothing(subgroup: bool, actions: seq<Action>, i: nat)
    requires Permitted(Initial(subgroup), actions)
    requires i < |RunAll(Initial(subgroup), actions).queue|
    ensures var t := RunAll(Initial(subgroup), actions);
      t.queue[i].Forward? ==> t.guard || exists j :: i < j < |t.queue| && t.queue[j] == Release
  {
    InitialOk(subgroup);
    RunKeeps(Initial(subgroup), actions);
    var t := RunAll(Initial(subgroup), actions);
    if t.queue[i].Forward? && !t.guard {
      var j :| 0 <= j < |t.queue| && t.queue[j] == Release;
      assert Last(t.queue[j]);
    }
  }

  lemma ClosedIsReleased(subgroup: bool, actions: seq<Action>)
    requires Permitted(Initial(subgroup), actions)
    ensures var t := RunAll(Initial(subgroup), actions);
      t.closing && t.queue == [] ==> !t.guard
  {
    InitialOk(subgroup);
    RunKeeps(Initial(subgroup), actions);
  }

  /**
   * Delivery: in every interleaving the downstream consumer has seen, in order, a
   * prefix of the calls the source was told succeeded, and every call it has seen
   * but the last was one it took. While no error is stored the rest is queued, so that
   * a drained queue has delivered everything.
   */
  lemma DeliveredInOrder(subgroup: bool, actions: seq<Action>)
    requires Permitted(Initial(subgroup), actions)
    ensures var t := RunAll(Initial(subgroup), actions);
      && t.delivered <= t.accepted
      && |t.verdicts| == |t.delivered| && AllTrue(t.verdicts, |t.verdicts| - 1)
      && (t.queue == [] && t.downstream ==> t.delivered == t.accepted)
      && (t.error.None? ==> t.accepted == t.delivered + Pending(t.queue))
      && (t.queue == [] && t.error.None? ==> t.delivered == t.accepted)
  {
    InitialOk(subgroup);
    RunKeeps(Initial(subgroup), actions);
  }

  /**
   * In every interleaving the source learns of it when the consumer refuses to open or
   * refuses an object, and a consumer that was never refused anything stays connected.
   */
  lemma RefusalIsStored(subgroup: bool, actions: seq<Action>)
    requires Permitted(Initial(subgroup), actions)
    ensures var t := RunAll(Initial(subgroup), actions);
      && |t.verdicts| == |t.delivered|
      && (Refused(t) && t.delivered[|t.delivered| - 1].Closes() ==> t.error.Some? && !t.downstream)
      && (!t.downstream && Open !in t.queue ==> t.error.Some? && (t.delivered == [] || Refused(t)))
  {
    InitialOk(subgroup);
    RunKeeps(Initial(subgroup), actions);
  }

  /** Once an error is stored no later call succeeds, whatever else happens. */
  lemma {:induction false} ErrorSticks(s: State, actions: seq<Action>)
    requires s.error.Some? && Permitted(s, actions)
    ensures RunAll(s, actions).error.Some? && RunAll(s, actions).accepted == s.accepted
    decreases |actions|
  {
    if |actions| > 0 {
      ErrorSticks(Step(s, actions[0]), actions[1..]);
    }
  }

  /**
   * The rule for the source is needed: a call made after the terminal job has run is
   * accepted, and its job has nothing to keep the filter alive.
   */
  lemma LateCallHasNoGuard(s: State, c: Call)
    requires LifeOk(s) && s.ended && !s.guard && s.error.None?
    ensures var t := SendCall(s, c);
      t.accepted == s.accepted + [c] && Forward(c) in t.queue && !t.guard && Release !in t.queue
  {
    assert SendCall(s, c).queue[|s.queue|] == Forward(c);
  }

  // A release is queued behind job i.
  ghost predicate ReleasedAfter(q: seq<Job>, i: nat) {
    exists j :: i < j < |q| && q[j] == Release
  }

  /**
   * Deactivating lets the guard go, loses no queued call and leaves a release behind
   * each of them; a second time it does nothing. Once an error is stored it keeps the
   * lifetime invariant.
   */
  lemma DeactivateCovers(s: State)
    requires LifeOk(s)
    ensures var t := EnqueueDeactivate(s);
      && !t.guard && Pending(t.queue) == Pending(s.queue) && EnqueueDeactivate(t) == t
      && (forall i :: 0 <= i < |t.queue| && t.queue[i].Forward? ==> ReleasedAfter(t.queue, i))
      && (s.error.Some? ==> LifeOk(t))
  {
    var t := EnqueueDeactivate(s);
    if s.guard {
      PendingAppend(s.queue, Release);
      assert t.queue[|s.queue|] == Release;
    } else {
      forall i | 0 <= i < |t.queue| && t.queue[i].Forward? ensures ReleasedAfter(t.queue, i) {
        var j :| 0 <= j < |t.queue| && t.queue[j] == Release;
        assert Last(t.queue[j]);
      }
    }
  }

  /** The filter itself: source methods on one thread, RunNext on the target executor. */
  class Filter {
    var state: State

    ghost predicate Valid()
      reads this
    {
      LifeOk(state) && DeliveryOk(state)
    }

    constructor (subgroup: bool)
      ensures Valid() && state == Initial(subgroup)
    {
      state := Initial(subgroup);
      new;
      InitialOk(subgroup);
    }

    // object, objectPayload, beginObject, endOf...: success means the job was queued.
    method Send(c: Call) returns (failure: Option<Code>)
      requires Valid() && Allowed(state, Action.Send(c))
      modifies this
      ensures Valid() && state == Step(old(state), Action.Send(c))
      ensures failure == old(state).error
      ensures failure.None? <==> state.accepted == old(state).accepted + [c]
      ensures if failure.Some? then TurnedAway(old(state), state) else Queued(old(state), state, c)
    {
      StepKeeps(state, Action.Send(c));
      failure := state.error;
      if failure.Some? {
        Deactivate();
        state := state.(closing := true);
      } else {
        state := state.(
          queue := state.queue + [Forward(c)], accepted := state.accepted + [c],
          ended := state.ended || c.Terminal(), closing := state.closing || c.Terminal());
      }
    }

    // Lets the filter go once everything queued so far has run.
    method Deactivate()
      requires Valid() && state.error.Some?
      modifies this
      ensures state == EnqueueDeactivate(old(state)) && LifeOk(state)
      ensures !state.guard && Pending(state.queue) == Pending(old(state).queue)
      ensures forall i :: 0 <= i < |state.queue| && state.queue[i].Forward? ==> ReleasedAfter(state.queue, i)
    {
      DeactivateCovers(state);
      if state.guard {
        state := state.(queue := state.queue + [Release], guard := false);
      }
    }

    method Reset(code: Code)
      requires Valid() && Allowed(state, Action.Reset(code))
      modifies this
      ensures Valid() && state == Step(old(state), Action.Reset(code))
      ensures state == old(state).(error := Some(code), queue := old(state).queue + [DeliverReset], closing := true)
    {
      StepKeeps(state, Action.Reset(code));
      state := state.(error := Some(code), queue := state.queue + [DeliverReset], closing := true);
    }

    // Runs the job at the front of the queue; the filter is alive while it does.
    method RunNext(reply: Option<Code>)
      requires Valid() && |state.queue| > 0
      modifies this
      ensures Valid() && state == Step(old(state), Action.RunNext(reply))
      ensures old(state).queue[0].Forward? ==> old(state).guard || Release in old(state).queue[1..]
      ensures Ran(old(state).(queue := old(state).queue[1..]), state, old(state).queue[0], reply)
    {
      StepKeeps(state, Action.RunNext(reply));
      var job := state.queue[0];
      assert state.queue == [job] + state.queue[1..];
      state := RunJob(state.(queue := state.queue[1..]), job, reply);
    }
  }
}
