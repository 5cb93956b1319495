/** getWithRetry, and the requests that call it in sequence over one shared channel.

    Every attempt runs the getter in a goroutine of its own.  All goroutines of a request send on the
    same unbuffered channel, all attempts of a call assign the same captured variable, and the channel
    is closed when the request returns.  The machine interleaves goroutines, the request and the
    cancellation of its context in every possible way; `select` may take any ready branch. */
module Retry {
  import opened Prelude
  import opened Errors

  type Object = Option<int>  // what a getter returns; None is nil

  /** The backoff allows this many attempts. */
  const STEPS: nat := 12

  const CANCELED: Error := Plain("timeout or canceled")
  const TIMED_OUT: Error := Plain("timed out waiting for the condition")

  datatype Reply = Reply(call: nat, attempt: nat, got: Object, err: Option<Error>)

  datatype Phase = Running | Sending(err: Option<Error>) | Finished

  datatype Goroutine = Goroutine(call: nat, attempt: nat, phase: Phase)

  /** Where the request is. */
  datatype Request =
    | Attempting(call: nat, attempt: nat)  // about to start a goroutine
    | Waiting(call: nat, attempt: nat)     // in the select
    | Draining(call: nat, attempt: nat)    // the context is done; waits for the last goroutine
    | Returned(call: nat, attempt: nat, got: Object, err: Option<Error>)
    | Closed(call: nat, err: Option<Error>)  // the channel is closed after this call

  /** `captured` holds the captured variable of each call, `log` every return of a getter in order. */
  datatype World = World(
    calls: nat,
    request: Request,
    goroutines: seq<Goroutine>,
    captured: seq<Object>,
    done: bool,
    log: seq<Reply>)

  datatype Step =
    | Spawn
    | GetterReturns(i: nat, got: Object, err: Option<Error>)
    | Cancel
    | Receive(i: nat)
    | Notice
    | Drain(i: nat)
    | NextCall
    | Close

  function Start(calls: nat): World
    requires calls > 0
  {
    World(calls, Attempting(0, 0), [], seq(calls, _ => None), false, [])
  }

  predicate Ready(w: World, i: nat) { i < |w.goroutines| && w.goroutines[i].phase.Sending? }

  predicate Enabled(w: World, s: Step) {
    match s
    case Spawn => w.request.Attempting?
    case GetterReturns(i, _, _) =>
      i < |w.goroutines| && w.goroutines[i].phase.Running? && w.goroutines[i].call < |w.captured|
    case Cancel => !w.done
    case Receive(i) => w.request.Waiting? && Ready(w, i) && w.request.call < |w.captured|
    case Notice => w.request.Waiting? && w.done
    case Drain(i) => w.request.Draining? && Ready(w, i) && w.request.call < |w.captured|
    case NextCall => w.request.Returned? && w.request.err.None? && w.request.call + 1 < w.calls
    case Close => w.request.Returned? && (w.request.err.Some? || w.request.call + 1 >= w.calls)
  }

  function SetPhase(w: World, i: nat, phase: Phase): World
    requires i < |w.goroutines|
  {
    w.(goroutines := w.goroutines[i := w.goroutines[i].(phase := phase)])
  }

  /** What the body of the backoff loop does with a received error. */
  function Received(call: nat, attempt: nat, got: Object, err: Option<Error>): Request {
    if err.None? || !IsTransient(err.value) then Returned(call, attempt, got, err)
    else if attempt + 1 < STEPS then Attempting(call, attempt + 1)
    else Returned(call, attempt, got, Some(TIMED_OUT))
  }

  function Next(w: World, s: Step): World
    requires Enabled(w, s)
  {
    match s
    case Spawn =>
      var (c, a) := (w.request.call, w.request.attempt);
      w.(request := Waiting(c, a), goroutines := w.goroutines + [Goroutine(c, a, Running)])
    case GetterReturns(i, got, err) =>
      var g := w.goroutines[i];
      SetPhase(w, i, Sending(err)).(captured := w.captured[g.call := got],
                                    log := w.log + [Reply(g.call, g.attempt, got, err)])
    case Cancel => w.(done := true)
    case Receive(i) =>
      var (c, a) := (w.request.call, w.request.attempt);
      SetPhase(w, i, Finished).(request := Received(c, a, w.captured[c], w.goroutines[i].phase.err))
    case Notice => w.(request := Draining(w.request.call, w.request.attempt))
    case Drain(i) =>
      var (c, a) := (w.request.call, w.request.attempt);
      SetPhase(w, i, Finished).(request := Returned(c, a, w.captured[c], Some(CANCELED)))
    case NextCall => w.(request := Attempting(w.request.call + 1, 0))
    case Close => w.(request := Closed(w.request.call, w.request.err))
  }

  predicate Run(w: World, steps: seq<Step>)
    decreases |steps|
  {
    steps == [] || (Enabled(w, steps[0]) && Run(Next(w, steps[0]), steps[1..]))
  }

  function After(w: World, steps: seq<Step>): World
    requires Run(w, steps)
    decreases |steps|
  {
    if steps == [] then w else After(Next(w, steps[0]), steps[1..])
  }

  // ---------------------------------------------------------------- what every step keeps

  predicate Unfinished(w: World, i: nat) { i < |w.goroutines| && !w.goroutines[i].phase.Finished? }

  predicate Selecting(r: Request) { r.Waiting? || r.Draining? }

  /** Nothing but the goroutine of the current attempt is unfinished, and only while the request waits. */
  ghost predicate OneOutstanding(w: World) {
    && (forall i: nat | Unfinished(w, i) :: Selecting(w.request) && i == |w.goroutines| - 1)
    && (Selecting(w.request) ==>
          && |w.goroutines| > 0 && Unfinished(w, |w.goroutines| - 1)
          && w.goroutines[|w.goroutines| - 1].call == w.request.call
          && w.goroutines[|w.goroutines| - 1].attempt == w.request.attempt)
  }

  /** The last `k` replies are the attempts `0 .. k - 1` of the call, all failed transiently. */
  predicate Failures(log: seq<Reply>, call: nat, k: nat) {
    k == 0 || (
      && |log| > 0
      && var r := log[|log| - 1];
      && r.call == call && r.attempt == k - 1 && r.err.Some? && IsTransient(r.err.value)
      && Failures(log[..|log| - 1], call, k - 1))
  }

  /** The last reply is attempt `a` of the call, after `a` transient failures. */
  predicate LastReply(log: seq<Reply>, call: nat, a: nat, got: Object, err: Option<Error>) {
    && |log| > 0 && log[|log| - 1] == Reply(call, a, got, err)
    && Failures(log[..|log| - 1], call, a)
  }

  ghost predicate Bookkeeping(w: World) {
    && |w.captured| == w.calls && (w.request.Draining? ==> w.done) && Succeeded(w.log, w.request.call)
    && match w.request
       case Attempting(c, a) => c < w.calls && a < STEPS && Failures(w.log, c, a)
       case Waiting(c, a) => c < w.calls && a < STEPS && Outstanding(w, c, a)
       case Draining(c, a) => c < w.calls && a < STEPS && Outstanding(w, c, a)
       case Returned(c, a, got, err) =>
         c < w.calls && a < STEPS && exists e ::
           LastReply(w.log, c, a, got, e)
           && ((w.done && err == Some(CANCELED)) || Received(c, a, got, e) == w.request)
       case Closed(c, err) => c < w.calls && (err.None? ==> c + 1 == w.calls && Succeeded(w.log, c + 1))
  }

  /** The call has had a reply without an error. */
  ghost predicate Answered(log: seq<Reply>, c: nat) {
    exists i :: 0 <= i < |log| && log[i].call == c && log[i].err.None?
  }

  /** Each of the first `k` calls has. */
  ghost predicate Succeeded(log: seq<Reply>, k: nat) { forall c: nat | c < k :: Answered(log, c) }

  lemma MoreRepliesSucceed(log: seq<Reply>, r: Reply, k: nat)
    requires Succeeded(log, k)
    ensures Succeeded(log + [r], k)
  {
    forall c: nat | c < k ensures Answered(log + [r], c) {
      assert Answered(log, c);
      var i :| 0 <= i < |log| && log[i].call == c && log[i].err.None?;
      assert (log + [r])[i] == log[i];
    }
  }

  /** A call that returns without an error has had its reply. */
  lemma ReturnedIsAnswered(w: World)
    requires Bookkeeping(w) && w.request.Returned? && w.request.err.None?
    ensures Succeeded(w.log, w.request.call + 1)
  {
    var c, a := w.request.call, w.request.attempt;
    var e :| LastReply(w.log, c, a, w.request.got, e) && Received(c, a, w.request.got, e) == w.request;
    assert w.log[|w.log| - 1].call == c && w.log[|w.log| - 1].err.None?;
    assert Answered(w.log, c);
  }

  predicate Outstanding(w: World, c: nat, a: nat) {
    |w.goroutines| > 0 && c < |w.captured| &&
    match w.goroutines[|w.goroutines| - 1].phase
    case Running => Failures(w.log, c, a)
    case Sending(err) => LastReply(w.log, c, a, w.captured[c], err)
    case Finished => true
  }

  ghost predicate Inv(w: World) { OneOutstanding(w) && Bookkeeping(w) }

  lemma StepKeepsInv(w: World, s: Step)
    requires Inv(w) && Enabled(w, s)
    ensures Inv(Next(w, s))
  {
    match s {
      case Spawn => SpawnKeepsInv(w);
      case GetterReturns(i, got, err) => GetterKeepsInv(w, i, got, err);
      case Receive(i) => ReceiveKeepsInv(w, i);
      case Drain(i) => DrainKeepsInv(w, i);
      case NextCall =>
        ReturnedIsAnswered(w);
        assert forall j: nat :: Unfinished(Next(w, s), j) == Unfinished(w, j);
      case Close =>
        if w.request.err.None? { ReturnedIsAnswered(w); }
        assert forall j: nat :: Unfinished(Next(w, s), j) == Unfinished(w, j);
      case _ => assert forall j: nat :: Unfinished(Next(w, s), j) == Unfinished(w, j);
    }
  }

  lemma SpawnKeepsInv(w: World)
    requires Inv(w) && Enabled(w, Spawn)
    ensures Inv(Next(w, Spawn))
  {
    var w' := Next(w, Spawn);
    assert forall i: nat | i < |w.goroutines| :: w'.goroutines[i] == w.goroutines[i] && !Unfinished(w, i);
  }

  lemma GetterKeepsInv(w: World, i: nat, got: Object, err: Option<Error>)
    requires Inv(w) && Enabled(w, GetterReturns(i, got, err))
    ensures Inv(Next(w, GetterReturns(i, got, err)))
  {
    var w' := Next(w, GetterReturns(i, got, err));
    assert Unfinished(w, i);
    assert w'.log[..|w'.log| - 1] == w.log;
    MoreRepliesSucceed(w.log, Reply(w.goroutines[i].call, w.goroutines[i].attempt, got, err), w.request.call);
    assert forall j: nat | Unfinished(w', j) :: Unfinished(w, j);
  }

  lemma DrainKeepsInv(w: World, i: nat)
    requires Inv(w) && Enabled(w, Drain(i))
    ensures Inv(Next(w, Drain(i)))
  {
    var w' := Next(w, Drain(i));
    assert Unfinished(w, i);
    assert forall j: nat | Unfinished(w', j) :: Unfinished(w, j);
    var c, a, e := w.request.call, w.request.attempt, w.goroutines[i].phase.err;
    assert LastReply(w'.log, c, a, w.captured[c], e);
  }

  lemma ReceiveKeepsInv(w: World, i: nat)
    requires Inv(w) && Enabled(w, Receive(i))
    ensures Inv(Next(w, Receive(i)))
  {
    var w' := Next(w, Receive(i));
    assert Unfinished(w, i);
    assert forall j: nat | Unfinished(w', j) :: Unfinished(w, j);
    var c, a, e := w.request.call, w.request.attempt, w.goroutines[i].phase.err;
    assert LastReply(w.log, c, a, w.captured[c], e);
  }

  lemma {:induction false} RunKeepsInv(w: World, steps: seq<Step>)
    requires Inv(w) && Run(w, steps)
    ensures Inv(After(w, steps))
    decreases |steps|
  {
    if steps != [] {
      StepKeepsInv(w, steps[0]);
      RunKeepsInv(Next(w, steps[0]), steps[1..]);
    }
  }

  // ---------------------------------------------------------------- the discipline of the channel

  /** In every reachable state: at most one goroutine is outstanding, only while the request waits for
      it, and any message delivered is of the current call and attempt.  Once a call has returned, and
      so when the channel is closed, every goroutine has delivered its one message. */
  lemma ChannelDiscipline(calls: nat, steps: seq<Step>)
    requires calls > 0 && Run(Start(calls), steps)
    ensures var w := After(Start(calls), steps);
            && (forall i: nat, j: nat | Unfinished(w, i) && Unfinished(w, j) :: i == j)
            && (forall i: nat | Enabled(w, Receive(i)) || Enabled(w, Drain(i)) ::
                  w.goroutines[i].call == w.request.call && w.goroutines[i].attempt == w.request.attempt)
            && (w.request.Returned? || w.request.Closed? ==> forall i: nat :: !Unfinished(w, i))
  {
    RunKeepsInv(Start(calls), steps);
    var w := After(Start(calls), steps);
    forall i: nat | Enabled(w, Receive(i)) || Enabled(w, Drain(i))
      ensures w.goroutines[i].call == w.request.call && w.goroutines[i].attempt == w.request.attempt
    {
      assert Unfinished(w, i);
    }
  }

  /** The retry loop without goroutines: attempt after attempt until one succeeds, fails for good, or
      the backoff runs out. */
  function Sequential(answer: nat -> (Object, Option<Error>), attempt: nat): (Object, Option<Error>)
    requires attempt < STEPS
    decreases STEPS - attempt
  {
    var (got, err) := answer(attempt);
    if err.None? || !IsTransient(err.value) then (got, err)
    else if attempt + 1 < STEPS then Sequential(answer, attempt + 1)
    else (got, Some(TIMED_OUT))
  }

  /** `answer` is what the last `k` getters in the log returned. */
  ghost predicate Agrees(answer: nat -> (Object, Option<Error>), log: seq<Reply>, k: nat)
    requires k <= |log|
  {
    forall j: nat | j < k :: answer(j) == (log[|log| - k + j].got, log[|log| - k + j].err)
  }

  lemma {:induction false} FailuresAreSkipped(answer: nat -> (Object, Option<Error>), log: seq<Reply>, call: nat,
                                              k: nat)
    requires k < STEPS && k <= |log| && Failures(log, call, k) && Agrees(answer, log, k)
    ensures Sequential(answer, 0) == Sequential(answer, k)
    decreases k
  {
    if k > 0 {
      var before := log[..|log| - 1];
      assert Agrees(answer, before, k - 1) by {
        forall j: nat | j < k - 1
          ensures answer(j) == (before[|before| - (k - 1) + j].got, before[|before| - (k - 1) + j].err)
        {
          assert before[|before| - (k - 1) + j] == log[|log| - k + j];
        }
      }
      FailuresAreSkipped(answer, before, call, k - 1);
      assert answer(k - 1) == (log[|log| - k + (k - 1)].got, log[|log| - k + (k - 1)].err);
    }
  }

  lemma {:induction false} FailuresFit(log: seq<Reply>, call: nat, k: nat)
    requires Failures(log, call, k)
    ensures k <= |log|
    decreases k
  {
    if k > 0 { FailuresFit(log[..|log| - 1], call, k - 1); }
  }

  /** In every reachable state where a call has returned, and its request was not canceled or the call did
      not say so, it returned
      exactly what the plain sequential loop returns for the answers its getters gave.  In particular a
      nil error comes with the object of the last, successful attempt. */
  lemma CallRefinesSequential(calls: nat, steps: seq<Step>, answer: nat -> (Object, Option<Error>))
    requires calls > 0 && Run(Start(calls), steps)
    requires var w := After(Start(calls), steps);
             && w.request.Returned? && (!w.done || w.request.err != Some(CANCELED))
             && (w.request.attempt < |w.log| ==> Agrees(answer, w.log, w.request.attempt + 1))
    ensures var w := After(Start(calls), steps);
            w.request.attempt < |w.log| && Sequential(answer, 0) == (w.request.got, w.request.err)
  {
    RunKeepsInv(Start(calls), steps);
    var w := After(Start(calls), steps);
    var c, a, log := w.request.call, w.request.attempt, w.log;
    var e :| LastReply(log, c, a, w.request.got, e) && Received(c, a, w.request.got, e) == w.request;
    var before := log[..|log| - 1];
    FailuresFit(before, c, a);
    assert Agrees(answer, before, a) by {
      forall j: nat | j < a
        ensures answer(j) == (before[|before| - a + j].got, before[|before| - a + j].err)
      {
        assert before[|before| - a + j] == log[|log| - (a + 1) + j];
      }
    }
    FailuresAreSkipped(answer, before, c, a);
    assert answer(a) == (log[|log| - (a + 1) + a].got, log[|log| - (a + 1) + a].err);
  }

  // ---------------------------------------------------------------- cancellation

  /** Attempt `a` of call `c`, with `k` goroutines started so far, waits for its last goroutine or is over,
      and says so. */
  predicate Abandoned(w: World, c: nat, a: nat, k: nat) {
    && |w.goroutines| == k
    && match w.request
       case Draining(call, attempt) => call == c && attempt == a
       case Returned(call, attempt, _, err) => call == c && attempt == a && err == Some(CANCELED)
       case Closed(call, err) => call == c && err == Some(CANCELED)
       case _ => false
  }

  lemma StepKeepsAbandoned(w: World, s: Step, c: nat, a: nat, k: nat)
    requires Enabled(w, s) && Abandoned(w, c, a, k)
    ensures Abandoned(Next(w, s), c, a, k)
  {
  }

  lemma {:induction false} StaysAbandoned(w: World, steps: seq<Step>, c: nat, a: nat, k: nat)
    requires Run(w, steps) && Abandoned(w, c, a, k)
    ensures Abandoned(After(w, steps), c, a, k)
    decreases |steps|
  {
    if steps != [] {
      StepKeepsAbandoned(w, steps[0], c, a, k);
      StaysAbandoned(Next(w, steps[0]), steps[1..], c, a, k);
    }
  }

  /** Once a call of a reachable state drains, which it does only after the context was canceled, nothing is
      tried again: no goroutine is started any more, and when the call returns, it returns the cancellation,
      with the object of the reply it has drained, whatever that reply says of its success. */
  lemma CanceledCallIsOver(calls: nat, before: seq<Step>, after: seq<Step>)
    requires calls > 0 && Run(Start(calls), before) && After(Start(calls), before).request.Draining?
    requires Run(After(Start(calls), before), after)
    ensures var w, w' := After(Start(calls), before), After(After(Start(calls), before), after);
            && w.done && |w'.goroutines| == |w.goroutines|
            && !w'.request.Attempting? && !w'.request.Waiting?
            && (w'.request.Draining? ==> w'.request == w.request)
            && (w'.request.Returned? ==>
                  && w'.request.call == w.request.call && w'.request.attempt == w.request.attempt
                  && w'.request.err == Some(CANCELED)
                  && exists e :: LastReply(w'.log, w.request.call, w.request.attempt, w'.request.got, e))
  {
    RunKeepsInv(Start(calls), before);
    var w := After(Start(calls), before);
    StaysAbandoned(w, after, w.request.call, w.request.attempt, |w.goroutines|);
    RunKeepsInv(w, after);
  }

  /** A request makes its calls one after the other: in every reachable state all calls before the current
      one have succeeded, and a request that is over without an error has made all of them. */
  lemma RequestMakesItsCalls(calls: nat, steps: seq<Step>)
    requires calls > 0 && Run(Start(calls), steps)
    ensures var w := After(Start(calls), steps);
            && w.request.call < calls && Succeeded(w.log, w.request.call)
            && (w.request.Closed? && w.request.err.None? ==> Succeeded(w.log, calls))
  {
    RunKeepsInv(Start(calls), steps);
    RunKeepsCalls(Start(calls), steps);
  }

  lemma {:induction false} RunKeepsCalls(w: World, steps: seq<Step>)
    requires Run(w, steps)
    ensures After(w, steps).calls == w.calls
    decreases |steps|
  {
    if steps != [] { RunKeepsCalls(Next(w, steps[0]), steps[1..]); }
  }

  // ---------------------------------------------------------------- no deadlock, no endless run

  /** Until the channel is closed some step other than a cancellation can be taken. */
  lemma NeverStuck(calls: nat, steps: seq<Step>)
    requires calls > 0 && Run(Start(calls), steps) && !After(Start(calls), steps).request.Closed?
    ensures exists s: Step :: s != Cancel && Enabled(After(Start(calls), steps), s)
  {
    RunKeepsInv(Start(calls), steps);
    var w := After(Start(calls), steps);
    if w.request.Attempting? {
      assert Enabled(w, Spawn);
    } else if w.request.Returned? {
      assert Enabled(w, NextCall) || Enabled(w, Close);
    } else {
      var i := |w.goroutines| - 1;
      assert Unfinished(w, i);
      assert Enabled(w, GetterReturns(i, None, None)) || Enabled(w, Receive(i)) || Enabled(w, Drain(i));
    }
  }

  /** An upper bound on the steps still to come. */
  function Rank(w: World): int {
    Bit(!w.done) +
    match w.request
    case Closed(_, _) => 0
    case Attempting(c, a) => Budget(w, c, a) + 5
    case Waiting(c, a) => Budget(w, c, a) + 3 + Bit(LastRuns(w))
    case Draining(c, a) => Budget(w, c, a) + 2 + Bit(LastRuns(w))
    case Returned(c, _, _, _) => Budget(w, c + 1, 0) + 6
  }

  function Bit(b: bool): int { if b then 1 else 0 }

  function Budget(w: World, call: nat, attempt: nat): int { 6 * ((w.calls - call) * (STEPS + 1) - attempt) }

  predicate LastRuns(w: World) { |w.goroutines| > 0 && w.goroutines[|w.goroutines| - 1].phase.Running? }

  lemma StepLowersRank(w: World, s: Step)
    requires Inv(w) && Enabled(w, s)
    ensures 0 <= Rank(Next(w, s)) < Rank(w)
  {
    match s {
      case GetterReturns(i, _, _) => assert Unfinished(w, i);
      case Receive(i) => assert Unfinished(w, i);
      case Drain(i) => assert Unfinished(w, i);
      case _ =>
    }
  }

  /** Whatever the getters, the scheduler and the context do, a request on `calls` calls is over after
      at most `78 * calls + 6` steps. */
  lemma {:induction false} RunsAreBounded(w: World, steps: seq<Step>)
    requires Inv(w) && Run(w, steps)
    ensures |steps| <= Rank(w) || steps == []
    ensures forall calls: nat | calls > 0 && w == Start(calls) :: |steps| <= 78 * calls + 6
    decreases |steps|
  {
    if steps != [] {
      StepLowersRank(w, steps[0]);
      StepKeepsInv(w, steps[0]);
      RunsAreBounded(Next(w, steps[0]), steps[1..]);
    }
  }
}
