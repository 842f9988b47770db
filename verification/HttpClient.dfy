/**
 The two-phase load generator of benchmark/sirun/http-client.js.

 `Client` is the state of one `runRequests` call and `Step` what each callback does to it; `Run` folds any list of
 callbacks, so a lemma about `Run` speaks of every interleaving. `RequestRunner` is the program itself, whose
 methods update the variables in place and are proved against the functions.
 */
module HttpClient {
  import opened Wrappers

  /** A started request; `measured` says in which phase it started, `succeeded` how it settled. */
  datatype Request = Request(settled: bool, succeeded: bool, measured: bool)

  /** `timers` counts the pending retry timers; `timedOut` is the exit status 1 of the deadline. */
  datatype Client = Client(
    warmupCount: nat, measuredCount: nat, concurrency: nat,
    phaseRequestCount: nat, requestsStarted: int, requestsCompleted: int,
    stopped: bool, warmingUp: bool, timedOut: bool, lastError: Option<string>,
    requests: seq<Request>, timers: nat)

  /** What the event loop can deliver; an event whose request or timer does not exist is not delivered. */
  datatype Event = Ended(id: nat) | Failed(id: nat, message: Option<string>) | TimerFired | DeadlineReached

  function StartRequest(c: Client): Client {
    if c.stopped || c.requestsStarted >= c.phaseRequestCount then c
    else c.(requestsStarted := c.requestsStarted + 1, requests := c.requests + [Request(false, false, !c.warmingUp)])
  }

  function StartMany(c: Client, n: nat): Client {
    if n == 0 then c else StartRequest(StartMany(c, n - 1))
  }

  function StartPhase(c: Client, count: nat): Client {
    StartMany(c.(phaseRequestCount := count, requestsStarted := 0, requestsCompleted := 0), Min(c.concurrency, count))
  }

  function Retry(c: Client, id: nat, message: Option<string>): Client
    requires id < |c.requests|
  {
    if c.requests[id].settled || c.stopped then c
    else c.(requests := c.requests[id := c.requests[id].(settled := true)],
            requestsStarted := c.requestsStarted - 1,
            lastError := if message.Some? then message else c.lastError,
            timers := c.timers + 1)
  }

  function Complete(c: Client, id: nat): Client
    requires id < |c.requests|
  {
    c.(requests := c.requests[id := c.requests[id].(settled := true, succeeded := true)],
       requestsCompleted := c.requestsCompleted + 1)
  }

  function OnEnd(c: Client, id: nat): Client
    requires id < |c.requests|
  {
    if c.requests[id].settled || c.stopped then c
    else
      var d := Complete(c, id);
      if d.requestsCompleted != d.phaseRequestCount then StartRequest(d)
      else if d.warmingUp then StartPhase(d.(warmingUp := false), d.measuredCount)
      else d.(stopped := true)
  }

  function Step(c: Client, e: Event): Client {
    match e
    case Ended(id) => if id < |c.requests| then OnEnd(c, id) else c
    case Failed(id, message) => if id < |c.requests| then Retry(c, id, message) else c
    case TimerFired => if c.timers > 0 then StartRequest(c.(timers := c.timers - 1)) else c
    case DeadlineReached => if c.stopped then c else c.(stopped := true, timedOut := true)
  }

  function Begin(warmupCount: nat, measuredCount: nat, concurrency: nat): Client {
    StartPhase(Client(warmupCount, measuredCount, concurrency, 0, 0, 0, false, true, false, None, [], 0), warmupCount)
  }

  function Run(c: Client, events: seq<Event>): Client {
    if events == [] then c else Step(Run(c, events[..|events| - 1]), events[|events| - 1])
  }

  // ---------- what a state counts ----------

  function Unsettled(requests: seq<Request>): nat {
    if requests == [] then 0
    else Unsettled(requests[..|requests| - 1]) + if requests[|requests| - 1].settled then 0 else 1
  }

  function Succeeded(requests: seq<Request>, measured: bool): nat {
    if requests == [] then 0
    else Succeeded(requests[..|requests| - 1], measured)
         + if requests[|requests| - 1].succeeded && requests[|requests| - 1].measured == measured then 1 else 0
  }

  /** Requests in flight plus pending retry timers. */
  function Load(c: Client): nat {
    Unsettled(c.requests) + c.timers
  }

  lemma {:induction false} SettleOne(requests: seq<Request>, id: nat, succeeded: bool)
    requires id < |requests| && !requests[id].settled && !requests[id].succeeded
    ensures var after := requests[id := requests[id].(settled := true, succeeded := succeeded)];
            Unsettled(after) == Unsettled(requests) - 1
            && forall m :: Succeeded(after, m)
                           == Succeeded(requests, m) + if succeeded && requests[id].measured == m then 1 else 0
  {
    var after := requests[id := requests[id].(settled := true, succeeded := succeeded)];
    var n := |requests| - 1;
    if id < n {
      SettleOne(requests[..n], id, succeeded);
      assert after[..n] == requests[..n][id := requests[..n][id].(settled := true, succeeded := succeeded)];
    } else {
      assert after[..n] == requests[..n];
    }
  }

  // ---------- the invariant ----------

  /** The most requests and timers a phase can hold: timers of the warmup survive into the measured phase. */
  function MaxLoad(c: Client): nat {
    if c.warmingUp || c.concurrency == 0 then c.concurrency else 2 * c.concurrency - 1
  }

  /** The counters agree with the requests. */
  predicate Counted(c: Client) {
    c.requestsStarted - c.requestsCompleted == Unsettled(c.requests)
    && 0 <= c.requestsCompleted && c.requestsStarted <= c.phaseRequestCount
    && c.phaseRequestCount == (if c.warmingUp then c.warmupCount else c.measuredCount)
    && Succeeded(c.requests, false) == (if c.warmingUp then c.requestsCompleted else c.warmupCount)
    && Succeeded(c.requests, true) == (if c.warmingUp then 0 else c.requestsCompleted)
  }

  /** Every unsettled request belongs to the current phase. */
  predicate Phased(c: Client) {
    forall id :: 0 <= id < |c.requests| ==>
      (c.requests[id].succeeded ==> c.requests[id].settled)
      && (!c.requests[id].settled ==> c.requests[id].measured == !c.warmingUp)
      && (c.warmingUp ==> !c.requests[id].measured)
  }

  predicate Loaded(c: Client) {
    Load(c) <= MaxLoad(c)
    && (!c.stopped ==> Load(c) >= Min(c.concurrency, c.phaseRequestCount - c.requestsCompleted))
  }

  predicate Ending(c: Client) {
    (c.timedOut ==> c.stopped)
    && (c.stopped && !c.timedOut ==> !c.warmingUp && c.requestsCompleted == c.measuredCount)
    && (!c.stopped && c.phaseRequestCount > 0 ==> c.requestsCompleted < c.phaseRequestCount)
  }

  predicate Invariant(c: Client) {
    Counted(c) && Phased(c) && Loaded(c) && Ending(c)
  }

  lemma StartRequestCounts(c: Client)
    requires Counted(c) && Phased(c)
    ensures var d := StartRequest(c);
            Counted(d) && Phased(d)
            && Unsettled(d.requests)
               == Unsettled(c.requests) + if c.stopped || c.requestsStarted >= c.phaseRequestCount then 0 else 1
  {
    var d := StartRequest(c);
    if d != c {
      assert d.requests[..|d.requests| - 1] == c.requests;
    }
  }

  /** `d` is `c` with `n` more requests started. */
  predicate Started(c: Client, d: Client, n: nat) {
    d == c.(requestsStarted := c.requestsStarted + n, requests := d.requests)
    && Counted(d) && Phased(d) && Unsettled(d.requests) == Unsettled(c.requests) + n
  }

  lemma StartedOneMore(c: Client, d: Client, n: nat)
    requires Started(c, d, n) && !c.stopped && c.requestsStarted + n < c.phaseRequestCount
    ensures Started(c, StartRequest(d), n + 1)
  {
    StartRequestCounts(d);
  }

  lemma {:induction false} StartManyCounts(c: Client, n: nat)
    requires Counted(c) && Phased(c) && !c.stopped && c.requestsStarted + n <= c.phaseRequestCount
    ensures Started(c, StartMany(c, n), n)
  {
    if n > 0 {
      StartManyCounts(c, n - 1);
      StartedOneMore(c, StartMany(c, n - 1), n - 1);
    }
  }

  lemma StartPhaseKeeps(c: Client, count: nat)
    requires !c.stopped && !c.timedOut && Phased(c) && Unsettled(c.requests) == 0
    requires count == if c.warmingUp then c.warmupCount else c.measuredCount
    requires Succeeded(c.requests, false) == if c.warmingUp then 0 else c.warmupCount
    requires Succeeded(c.requests, true) == 0
    requires c.timers <= (if c.warmingUp || c.concurrency == 0 then 0 else c.concurrency - 1)
    ensures Invariant(StartPhase(c, count))
  {
    StartManyCounts(c.(phaseRequestCount := count, requestsStarted := 0, requestsCompleted := 0),
                    Min(c.concurrency, count));
  }

  lemma {:induction false} AllSettled(requests: seq<Request>, id: nat)
    requires Unsettled(requests) == 0 && id < |requests|
    ensures requests[id].settled
  {
    if id < |requests| - 1 {
      AllSettled(requests[..|requests| - 1], id);
    }
  }

  lemma OnEndKeeps(c: Client, id: nat)
    requires Invariant(c) && id < |c.requests|
    ensures Invariant(OnEnd(c, id))
  {
    if !c.requests[id].settled && !c.stopped {
      var d := Complete(c, id);
      CompleteCounts(c, id);
      if d.requestsCompleted != d.phaseRequestCount {
        ContinueKeeps(c, d);
      } else if d.warmingUp {
        SwitchKeeps(c, d);
      } else {
        assert Invariant(d.(stopped := true));
      }
    }
  }

  /** `d` is `c` after one more completion, whatever comes next. */
  predicate Completed(c: Client, d: Client) {
    Invariant(c) && !c.stopped && Counted(d) && Phased(d)
    && d == c.(requests := d.requests, requestsCompleted := c.requestsCompleted + 1)
    && Unsettled(d.requests) == Unsettled(c.requests) - 1
  }

  lemma CompleteCounts(c: Client, id: nat)
    requires Invariant(c) && id < |c.requests| && !c.requests[id].settled && !c.stopped
    ensures Completed(c, Complete(c, id))
  {
    SettleOne(c.requests, id, true);
  }

  lemma ContinueKeeps(c: Client, d: Client)
    requires Completed(c, d) && d.requestsCompleted != d.phaseRequestCount
    ensures Invariant(StartRequest(d))
  {
    StartRequestCounts(d);
  }

  lemma SwitchKeeps(c: Client, d: Client)
    requires Completed(c, d) && d.requestsCompleted == d.phaseRequestCount && d.warmingUp
    ensures Invariant(StartPhase(d.(warmingUp := false), d.measuredCount))
  {
    forall k | 0 <= k < |d.requests|
      ensures d.requests[k].settled
    {
      AllSettled(d.requests, k);
    }
    StartPhaseKeeps(d.(warmingUp := false), d.measuredCount);
  }

  lemma RetryKeeps(c: Client, id: nat, message: Option<string>)
    requires Invariant(c) && id < |c.requests|
    ensures Invariant(Retry(c, id, message))
  {
    if !c.requests[id].settled {
      SettleOne(c.requests, id, false);
    }
  }

  lemma StepKeeps(c: Client, e: Event)
    requires Invariant(c)
    ensures Invariant(Step(c, e))
  {
    match e
    case Ended(id) =>
      if id < |c.requests| {
        OnEndKeeps(c, id);
      }
    case Failed(id, message) =>
      if id < |c.requests| {
        RetryKeeps(c, id, message);
      }
    case TimerFired =>
      if c.timers > 0 {
        TimerKeeps(c);
      }
    case DeadlineReached =>
  }

  lemma TimerKeeps(c: Client)
    requires Invariant(c) && c.timers > 0
    ensures Invariant(StartRequest(c.(timers := c.timers - 1)))
  {
    StartRequestCounts(c.(timers := c.timers - 1));
  }

  /** The invariant holds after every interleaving of responses, failures, timers and the deadline. */
  lemma {:induction false} EveryRunKeepsInvariant(warmupCount: nat, measuredCount: nat, concurrency: nat,
                                                  events: seq<Event>)
    ensures Invariant(Run(Begin(warmupCount, measuredCount, concurrency), events))
    decreases |events|
  {
    var begin := Begin(warmupCount, measuredCount, concurrency);
    if events == [] {
      StartPhaseKeeps(Client(warmupCount, measuredCount, concurrency, 0, 0, 0, false, true, false, None, [], 0),
                      warmupCount);
    } else {
      EveryRunKeepsInvariant(warmupCount, measuredCount, concurrency, events[..|events| - 1]);
      StepKeeps(Run(begin, events[..|events| - 1]), events[|events| - 1]);
    }
  }

  // ---------- what follows for every run ----------

  /** A normal stop comes after exactly `warmupCount` and then `measuredCount` completions, with nothing in flight. */
  lemma NormalStop(warmupCount: nat, measuredCount: nat, concurrency: nat, events: seq<Event>)
    ensures var c := Run(Begin(warmupCount, measuredCount, concurrency), events);
            c.stopped && !c.timedOut ==>
              Succeeded(c.requests, false) == c.warmupCount && Succeeded(c.requests, true) == c.measuredCount
              && c.requestsCompleted == c.measuredCount && c.requestsStarted == c.measuredCount
              && Unsettled(c.requests) == 0
  {
    EveryRunKeepsInvariant(warmupCount, measuredCount, concurrency, events);
  }

  function Fresh(measured: bool): Request {
    Request(false, false, measured)
  }

  lemma {:induction false} StartManyAppends(c: Client, n: nat)
    requires !c.stopped && c.requestsStarted + n <= c.phaseRequestCount
    ensures StartMany(c, n) == c.(requestsStarted := c.requestsStarted + n,
                                  requests := c.requests + seq(n, _ => Fresh(!c.warmingUp)))
  {
    if n == 0 {
      assert c.requests + seq(n, _ => Fresh(!c.warmingUp)) == c.requests;
    } else {
      StartManyAppends(c, n - 1);
      assert seq(n, _ => Fresh(!c.warmingUp)) == seq(n - 1, _ => Fresh(!c.warmingUp)) + [Fresh(!c.warmingUp)];
    }
  }

  /**
   The phase switch: it happens on the completion of warmup request number `warmupCount`, finds every earlier
   request settled, and starts the first measured requests, so no warmup request is ever counted as measured.
   */
  lemma SwitchIsClean(warmupCount: nat, measuredCount: nat, concurrency: nat, events: seq<Event>, e: Event)
    requires var c := Run(Begin(warmupCount, measuredCount, concurrency), events);
             c.warmingUp && !Step(c, e).warmingUp
    ensures var c := Run(Begin(warmupCount, measuredCount, concurrency), events);
            var d := Step(c, e);
            && |c.requests| <= |d.requests|
            && (forall id :: 0 <= id < |c.requests| ==> d.requests[id].settled && !d.requests[id].measured)
            && d.requests[|c.requests|..] == seq(Min(concurrency, measuredCount), _ => Fresh(true))
            && Succeeded(d.requests, false) == warmupCount && Succeeded(d.requests, true) == 0
            && d.requestsCompleted == 0 && d.requestsStarted == Min(concurrency, measuredCount)
  {
    var begin := Begin(warmupCount, measuredCount, concurrency);
    var c := Run(begin, events);
    EveryRunKeepsInvariant(warmupCount, measuredCount, concurrency, events);
    StepKeeps(c, e);
    ParametersStay(warmupCount, measuredCount, concurrency, events);
    if e.Failed? {
    } else if e.TimerFired? {
    } else {
      SettleOne(c.requests, e.id, true);
      var d := Complete(c, e.id);
      forall k | 0 <= k < |d.requests|
        ensures d.requests[k].settled
      {
        AllSettled(d.requests, k);
      }
      PhaseAppends(d.(warmingUp := false), measuredCount);
    }
  }

  lemma {:induction false} ParametersStay(warmupCount: nat, measuredCount: nat, concurrency: nat, events: seq<Event>)
    ensures var c := Run(Begin(warmupCount, measuredCount, concurrency), events);
            c.warmupCount == warmupCount && c.measuredCount == measuredCount && c.concurrency == concurrency
    decreases |events|
  {
    if events == [] {
      BeginIsAnswered(warmupCount, measuredCount, concurrency);
    } else {
      ParametersStay(warmupCount, measuredCount, concurrency, events[..|events| - 1]);
      StepParameters(Run(Begin(warmupCount, measuredCount, concurrency), events[..|events| - 1]), events[|events| - 1]);
    }
  }

  lemma StepParameters(c: Client, e: Event)
    ensures var d := Step(c, e);
            d.warmupCount == c.warmupCount && d.measuredCount == c.measuredCount && d.concurrency == c.concurrency
  {
    if e.Ended? && e.id < |c.requests| && !c.requests[e.id].settled && !c.stopped {
      PhaseAppends(Complete(c, e.id).(warmingUp := false), c.measuredCount);
    }
  }

  /** A new phase only appends its first requests. */
  lemma PhaseAppends(c: Client, count: nat)
    requires !c.stopped
    ensures var n := Min(c.concurrency, count);
            StartPhase(c, count) == c.(phaseRequestCount := count, requestsStarted := n, requestsCompleted := 0,
                                       requests := c.requests + seq(n, _ => Fresh(!c.warmingUp)))
  {
    StartManyAppends(c.(phaseRequestCount := count, requestsStarted := 0, requestsCompleted := 0),
                     Min(c.concurrency, count));
  }

  /** A settled request never changes again, whatever is delivered for it: `end`, `aborted` and `error` count once. */
  lemma SettledOnce(c: Client, e: Event, id: nat)
    requires id < |c.requests| && c.requests[id].settled
    ensures id < |Step(c, e).requests| && Step(c, e).requests[id] == c.requests[id]
    ensures (e.Ended? || e.Failed?) && e.id == id ==> Step(c, e) == c
  {
    if e.Ended? && e.id < |c.requests| && !c.requests[e.id].settled && !c.stopped {
      PhaseAppends(Complete(c, e.id).(warmingUp := false), c.measuredCount);
    }
  }

  // ---------- a stop is final ----------

  /** After a stop no callback changes anything but the number of timers left. */
  lemma StopIsFinal(c: Client, e: Event)
    requires c.stopped
    ensures Step(c, e) == c.(timers := if e.TimerFired? && c.timers > 0 then c.timers - 1 else c.timers)
  {
  }

  /** Event `j` of the run is the deadline, and nothing has stopped the run. */
  predicate DeadlineAt(c: Client, events: seq<Event>, j: nat) {
    j < |events| && events[j].DeadlineReached? && !Run(c, events[..j]).stopped
  }

  predicate DeadlineMet(c: Client, events: seq<Event>) {
    exists j :: 0 <= j < |events| && DeadlineAt(c, events, j)
  }

  lemma DeadlineMore(c: Client, events: seq<Event>, e: Event)
    ensures DeadlineMet(c, events + [e])
            <==> DeadlineMet(c, events) || (e.DeadlineReached? && !Run(c, events).stopped)
  {
    var all := events + [e];
    assert all[..|events|] == events;
    forall j | 0 <= j < |events|
      ensures DeadlineAt(c, all, j) <==> DeadlineAt(c, events, j)
    {
      assert all[..j] == events[..j];
    }
    if DeadlineMet(c, events) {
      var j :| 0 <= j < |events| && DeadlineAt(c, events, j);
      assert DeadlineAt(c, all, j);
    }
    assert DeadlineAt(c, all, |events|) <==> e.DeadlineReached? && !Run(c, events).stopped;
  }

  lemma StepTimesOut(c: Client, e: Event)
    ensures Step(c, e).timedOut <==> c.timedOut || (e.DeadlineReached? && !c.stopped)
  {
    if e.Ended? && e.id < |c.requests| && !c.requests[e.id].settled && !c.stopped {
      PhaseAppends(Complete(c, e.id).(warmingUp := false), c.measuredCount);
    }
  }

  /** The exit status is that of a timeout if and only if the deadline came before any stop; it has then stopped. */
  lemma {:induction false} TimeoutIff(warmupCount: nat, measuredCount: nat, concurrency: nat, events: seq<Event>)
    ensures var begin := Begin(warmupCount, measuredCount, concurrency);
            (Run(begin, events).timedOut <==> DeadlineMet(begin, events))
            && (Run(begin, events).timedOut ==> Run(begin, events).stopped)
  {
    var begin := Begin(warmupCount, measuredCount, concurrency);
    EveryRunKeepsInvariant(warmupCount, measuredCount, concurrency, events);
    if events == [] {
      BeginIsAnswered(warmupCount, measuredCount, concurrency);
    } else {
      var init, e := events[..|events| - 1], events[|events| - 1];
      TimeoutIff(warmupCount, measuredCount, concurrency, init);
      StepTimesOut(Run(begin, init), e);
      DeadlineMore(begin, init, e);
      assert init + [e] == events;
    }
  }

  // ---------- the message of the timeout ----------

  /** Event `j` of the run is a failure that counts: its request is in flight and nothing has stopped the run. */
  predicate CountedFailure(c: Client, events: seq<Event>, j: nat) {
    j < |events| && events[j].Failed?
    && var before := Run(c, events[..j]);
       events[j].id < |before.requests| && !before.requests[events[j].id].settled && !before.stopped
  }

  /** Counted failures from event `from` on have no message. */
  predicate SilentFrom(c: Client, events: seq<Event>, from: nat) {
    forall j :: from <= j < |events| && CountedFailure(c, events, j) ==> events[j].message.None?
  }

  /** `error` is the message of the last counted failure that has one, if there is such a failure. */
  predicate LastMessage(c: Client, events: seq<Event>, error: Option<string>) {
    if error.None? then SilentFrom(c, events, 0)
    else exists j :: 0 <= j < |events| && CountedFailure(c, events, j) && events[j].message == error
                     && SilentFrom(c, events, j + 1)
  }

  lemma StepError(c: Client, e: Event)
    ensures Step(c, e).lastError
            == if CountedFailure(c, [e], 0) && e.message.Some? then e.message else c.lastError
  {
    assert [e][..0] == [];
    if e.Ended? && e.id < |c.requests| && !c.requests[e.id].settled && !c.stopped {
      PhaseAppends(Complete(c, e.id).(warmingUp := false), c.measuredCount);
    }
  }

  lemma CountedBefore(c: Client, events: seq<Event>, e: Event, j: nat)
    ensures j < |events| ==> (CountedFailure(c, events + [e], j) <==> CountedFailure(c, events, j))
    ensures CountedFailure(c, events + [e], |events|) <==> CountedFailure(Run(c, events), [e], 0)
  {
    if j < |events| {
      assert (events + [e])[..j] == events[..j];
    }
    assert (events + [e])[..|events|] == events && [e][..0] == [];
  }

  lemma LastMessageMore(c: Client, events: seq<Event>, e: Event, error: Option<string>)
    requires LastMessage(c, events, error)
    ensures LastMessage(c, events + [e],
                        if CountedFailure(Run(c, events), [e], 0) && e.message.Some? then e.message else error)
  {
    var all := events + [e];
    forall j | 0 <= j < |events|
      ensures CountedFailure(c, all, j) <==> CountedFailure(c, events, j)
    {
      CountedBefore(c, events, e, j);
    }
    CountedBefore(c, events, e, 0);
    assert all[|events|] == e;
    if CountedFailure(Run(c, events), [e], 0) && e.message.Some? {
      assert CountedFailure(c, all, |events|) && SilentFrom(c, all, |events| + 1);
    } else if error.Some? {
      var j :| 0 <= j < |events| && CountedFailure(c, events, j) && events[j].message == error
               && SilentFrom(c, events, j + 1);
      assert CountedFailure(c, all, j) && all[j].message == error && SilentFrom(c, all, j + 1);
    }
  }

  /** In every run the last error is the message of the last counted failure that has one. */
  lemma {:induction false} LastErrorTold(warmupCount: nat, measuredCount: nat, concurrency: nat, events: seq<Event>)
    ensures var begin := Begin(warmupCount, measuredCount, concurrency);
            LastMessage(begin, events, Run(begin, events).lastError)
  {
    var begin := Begin(warmupCount, measuredCount, concurrency);
    if events == [] {
      BeginIsAnswered(warmupCount, measuredCount, concurrency);
    } else {
      var init, e := events[..|events| - 1], events[|events| - 1];
      LastErrorTold(warmupCount, measuredCount, concurrency, init);
      StepError(Run(begin, init), e);
      LastMessageMore(begin, init, e, Run(begin, init).lastError);
      assert init + [e] == events;
    }
  }

  // ---------- the protocol gets stuck exactly when a parameter is zero ----------

  /** Not stopped, yet no request or timer can bring it forward: only the deadline is left. */
  predicate Stuck(c: Client) {
    !c.stopped && Load(c) == 0
  }

  /** Requests `0 .. n - 1` answered in order. */
  function Answers(from: nat, n: nat): seq<Event> {
    seq(n, i requires 0 <= i => Ended(from + i))
  }

  lemma {:induction false} AnswerWarmup(w: nat, m: nat, k: nat, t: nat)
    requires w > 0 && k > 0 && t < w
    ensures Run(Begin(w, m, k), Answers(0, t)) == Answered(w, m, k, t)
  {
    if t == 0 {
      BeginIsAnswered(w, m, k);
    } else {
      AnswerWarmup(w, m, k, t - 1);
      assert Answers(0, t)[..t - 1] == Answers(0, t - 1) && Answers(0, t)[t - 1] == Ended(t - 1);
      AnswerOne(w, m, k, t);
    }
  }

  /** The warmup after its first `t` answers. */
  function Answered(w: nat, m: nat, k: nat, t: nat): Client {
    Client(w, m, k, w, Min(w, k + t), t, false, true, false, None,
           seq(Min(w, k + t), i => Request(i < t, i < t, false)), 0)
  }

  lemma BeginIsAnswered(w: nat, m: nat, k: nat)
    ensures Begin(w, m, k) == Answered(w, m, k, 0)
  {
    StartManyAppends(Client(w, m, k, w, 0, 0, false, true, false, None, [], 0), Min(k, w));
    assert Begin(w, m, k).requests == Answered(w, m, k, 0).requests;
  }

  lemma AnswerOne(w: nat, m: nat, k: nat, t: nat)
    requires 0 < t < w && k > 0
    ensures Step(Answered(w, m, k, t - 1), Ended(t - 1)) == Answered(w, m, k, t)
  {
    assert Step(Answered(w, m, k, t - 1), Ended(t - 1)).requests == Answered(w, m, k, t).requests;
  }

  lemma {:induction false} NoneUnsettled(requests: seq<Request>)
    requires forall id :: 0 <= id < |requests| ==> requests[id].settled
    ensures Unsettled(requests) == 0
  {
    if requests != [] {
      NoneUnsettled(requests[..|requests| - 1]);
    }
  }

  lemma NoMeasuredRequests(w: nat, k: nat)
    requires w > 0 && k > 0
    ensures Stuck(Run(Begin(w, 0, k), Answers(0, w)))
  {
    AnswerWarmup(w, 0, k, w - 1);
    assert Answers(0, w)[..w - 1] == Answers(0, w - 1);
    var before := Run(Begin(w, 0, k), Answers(0, w - 1));
    NoneUnsettled(Complete(before, w - 1).requests);
  }

  /** The run with these events ends stuck. */
  predicate StuckAfter(warmupCount: nat, measuredCount: nat, concurrency: nat, events: seq<Event>) {
    Stuck(Run(Begin(warmupCount, measuredCount, concurrency), events))
  }

  /** The protocol can always go on, in every run, if and only if both counts and the concurrency are positive. */
  lemma NeverStuckIff(warmupCount: nat, measuredCount: nat, concurrency: nat)
    ensures warmupCount > 0 && measuredCount > 0 && concurrency > 0
            <==> forall events :: !StuckAfter(warmupCount, measuredCount, concurrency, events)
  {
    if warmupCount > 0 && measuredCount > 0 && concurrency > 0 {
      forall events
        ensures !StuckAfter(warmupCount, measuredCount, concurrency, events)
      {
        EveryRunKeepsInvariant(warmupCount, measuredCount, concurrency, events);
        ParametersStay(warmupCount, measuredCount, concurrency, events);
      }
    } else if warmupCount == 0 || concurrency == 0 {
      assert StuckAfter(warmupCount, measuredCount, concurrency, []);
    } else {
      NoMeasuredRequests(warmupCount, concurrency);
      assert StuckAfter(warmupCount, measuredCount, concurrency, Answers(0, warmupCount));
    }
  }

  // ---------- the protocol stops unless requests fail for ever ----------

  /** The event is delivered before any stop and is about a request in flight or a pending timer; no deadline. */
  predicate Delivers(c: Client, e: Event) {
    !c.stopped
    && match e
       case Ended(id) => id < |c.requests| && !c.requests[id].settled
       case Failed(id, _) => id < |c.requests| && !c.requests[id].settled
       case TimerFired => c.timers > 0
       case DeadlineReached => false
  }

  predicate Continues(c: Client, events: seq<Event>) {
    events == []
    || (Continues(c, events[..|events| - 1]) && Delivers(Run(c, events[..|events| - 1]), events[|events| - 1]))
  }

  function FailureCount(events: seq<Event>): nat {
    if events == [] then 0
    else FailureCount(events[..|events| - 1]) + if events[|events| - 1].Failed? then 1 else 0
  }

  /** Completions still to come in both phases, and pending timers. */
  function Work(c: Client): int {
    c.timers + c.measuredCount + (if c.warmingUp then c.warmupCount - c.requestsCompleted else -c.requestsCompleted)
  }

  /** All three parameters are positive, and the invariant holds without a timeout. */
  predicate Healthy(c: Client) {
    Invariant(c) && c.warmupCount > 0 && c.measuredCount > 0 && c.concurrency > 0 && !c.timedOut
  }

  lemma StepWorks(c: Client, e: Event)
    requires Healthy(c) && Delivers(c, e)
    ensures Healthy(Step(c, e)) && Work(Step(c, e)) == Work(c) + if e.Failed? then 1 else -1
  {
    StepKeeps(c, e);
    if e.Ended? {
      EndWorks(c, e.id);
    } else {
      StepParameters(c, e);
    }
  }

  lemma EndWorks(c: Client, id: nat)
    requires Healthy(c) && !c.stopped && id < |c.requests| && !c.requests[id].settled
    ensures Work(OnEnd(c, id)) == Work(c) - 1
    ensures var d := OnEnd(c, id);
            d.warmupCount == c.warmupCount && d.measuredCount == c.measuredCount && d.concurrency == c.concurrency
            && d.timedOut == c.timedOut
  {
    PhaseAppends(Complete(c, id).(warmingUp := false), c.measuredCount);
  }

  lemma {:induction false} RunWorks(c: Client, events: seq<Event>)
    requires Healthy(c) && Continues(c, events)
    ensures Healthy(Run(c, events)) && Work(Run(c, events)) == Work(c) - |events| + 2 * FailureCount(events)
  {
    if events != [] {
      RunWorks(c, events[..|events| - 1]);
      StepWorks(Run(c, events[..|events| - 1]), events[|events| - 1]);
    }
  }

  lemma {:induction false} FindUnsettled(requests: seq<Request>) returns (id: nat)
    requires Unsettled(requests) > 0
    ensures id < |requests| && !requests[id].settled
  {
    if requests[|requests| - 1].settled {
      id := FindUnsettled(requests[..|requests| - 1]);
    } else {
      id := |requests| - 1;
    }
  }

  lemma CanDeliver(c: Client) returns (e: Event)
    requires Healthy(c) && !c.stopped
    ensures Delivers(c, e) && !e.Failed?
  {
    if c.timers > 0 {
      e := TimerFired;
    } else {
      var id := FindUnsettled(c.requests);
      e := Ended(id);
    }
  }

  lemma {:induction false} ContinuesFirst(c: Client, e: Event, rest: seq<Event>)
    requires Delivers(c, e) && Continues(Step(c, e), rest)
    ensures Continues(c, [e] + rest) && Run(c, [e] + rest) == Run(Step(c, e), rest)
    ensures FailureCount([e] + rest) == FailureCount(rest) + if e.Failed? then 1 else 0
    decreases |rest|
  {
    var all := [e] + rest;
    if rest == [] {
      assert all[..0] == [] && all == [e];
    } else {
      assert all[..|all| - 1] == [e] + rest[..|rest| - 1];
      ContinuesFirst(c, e, rest[..|rest| - 1]);
    }
  }

  /** Without further failures the run reaches its stop. */
  lemma {:induction false} ReachStop(c: Client) returns (rest: seq<Event>)
    requires Healthy(c)
    ensures Continues(c, rest) && FailureCount(rest) == 0 && Run(c, rest).stopped && !Run(c, rest).timedOut
    decreases Work(c)
  {
    if c.stopped {
      rest := [];
    } else {
      var e := CanDeliver(c);
      StepWorks(c, e);
      var after := ReachStop(Step(c, e));
      ContinuesFirst(c, e, after);
      rest := [e] + after;
    }
  }

  /** From `c`, some continuation without failures ends in a normal stop. */
  ghost predicate CanStop(c: Client) {
    exists rest :: Continues(c, rest) && FailureCount(rest) == 0 && Run(c, rest).stopped && !Run(c, rest).timedOut
  }

  /**
   Liveness: whatever happens after `past`, in whatever order, the number of events is bounded by the work that was left
   and twice the failures, no state is a dead end, and a normal stop stays in reach. So only requests that fail for ever
   can keep the protocol from it.
   */
  lemma StopsUnlessFailing(warmupCount: nat, measuredCount: nat, concurrency: nat, past: seq<Event>, more: seq<Event>)
    requires warmupCount > 0 && measuredCount > 0 && concurrency > 0
    requires var c := Run(Begin(warmupCount, measuredCount, concurrency), past); !c.timedOut && Continues(c, more)
    ensures var c := Run(Begin(warmupCount, measuredCount, concurrency), past);
            |more| <= Work(c) + 2 * FailureCount(more)
            && (Run(c, more).stopped || exists e :: Delivers(Run(c, more), e) && !e.Failed?)
            && CanStop(Run(c, more))
  {
    var c := Run(Begin(warmupCount, measuredCount, concurrency), past);
    EveryRunKeepsInvariant(warmupCount, measuredCount, concurrency, past);
    ParametersStay(warmupCount, measuredCount, concurrency, past);
    RunWorks(c, more);
    var d := Run(c, more);
    if !d.stopped {
      var e := CanDeliver(d);
    }
    var rest := ReachStop(d);
  }

  // ---------- the bound of the measured phase is reached ----------

  function Failures(n: nat): seq<Event> {
    seq(n, i requires 0 <= i => Failed(i, None))
  }

  lemma {:induction false} RunConcat(c: Client, a: seq<Event>, b: seq<Event>)
    ensures Run(c, a + b) == Run(Run(c, a), b)
  {
    if b == [] {
      assert a + b == a;
    } else {
      assert (a + b)[..|a + b| - 1] == a + b[..|b| - 1];
      RunConcat(c, a, b[..|b| - 1]);
    }
  }

  /** The first `t` of `k` warmup requests fail: each leaves a retry timer. */
  lemma {:induction false} FailFirst(k: nat, t: nat)
    requires t < k
    ensures Run(Begin(k, k, k), Failures(t))
            == Client(k, k, k, k, k - t, 0, false, true, false, None, seq(k, i => Request(i < t, false, false)), t)
  {
    var c := Run(Begin(k, k, k), Failures(t));
    if t == 0 {
      StartManyAppends(Client(k, k, k, k, 0, 0, false, true, false, None, [], 0), k);
      assert c.requests == seq(k, i => Request(i < 0, false, false));
    } else {
      FailFirst(k, t - 1);
      assert Failures(t)[..t - 1] == Failures(t - 1);
      assert c.requests == seq(k, i => Request(i < t, false, false));
    }
  }

  lemma AnswerLast(k: nat, t: nat, c: Client)
    requires 0 < t < k
    requires c == RestAnswered(k, t - 1)
    ensures Step(c, Ended(k - 1 + (t - 1))) == RestAnswered(k, t)
  {
    assert Step(c, Ended(k + t - 2)).requests == RestAnswered(k, t).requests;
  }

  /** `k - 1` failed requests, `t` answered ones and one in flight. */
  function RestAnswered(k: nat, t: nat): Client
    requires t < k
  {
    Client(k, k, k, k, t + 1, t, false, true, false, None,
           seq(k + t, i => Request(i < k - 1 + t, k - 1 <= i < k - 1 + t, false)), k - 1)
  }

  /** The last of them and its successors succeed while no timer fires. */
  lemma {:induction false} AnswerRest(k: nat, t: nat)
    requires t < k
    ensures Run(Run(Begin(k, k, k), Failures(k - 1)), Answers(k - 1, t))
            == RestAnswered(k, t)
  {
    var events := Answers(k - 1, t);
    if t == 0 {
      FailFirst(k, k - 1);
      assert Run(Begin(k, k, k), Failures(k - 1)).requests == RestAnswered(k, 0).requests;
    } else {
      AnswerRest(k, t - 1);
      assert events[..t - 1] == Answers(k - 1, t - 1) && events[t - 1] == Ended(k - 1 + (t - 1));
      AnswerLast(k, t, RestAnswered(k, t - 1));
    }
  }

  /** `2 * concurrency - 1` is not an artefact of the proof: for every concurrency some run reaches it. */
  lemma MaxLoadIsReached(k: nat)
    requires k > 0
    ensures exists events :: var c := Run(Begin(k, k, k), events); !c.warmingUp && Load(c) == 2 * k - 1
  {
    var events := Answers(k - 1, k);
    AnswerRest(k, k - 1);
    assert events[..k - 1] == Answers(k - 1, k - 1) && events[k - 1] == Ended(2 * k - 2);
    SwitchLoad(k);
    RunConcat(Begin(k, k, k), Failures(k - 1), events);
  }

  lemma SwitchLoad(k: nat)
    requires k > 0
    ensures var c := Step(RestAnswered(k, k - 1), Ended(2 * k - 2)); !c.warmingUp && Load(c) == 2 * k - 1
  {
    var done := Complete(RestAnswered(k, k - 1), 2 * k - 2).(warmingUp := false);
    NoneUnsettled(done.requests);
    StartPhaseLoad(done, k);
  }

  lemma StartPhaseLoad(c: Client, count: nat)
    requires !c.stopped && Unsettled(c.requests) == 0
    ensures Load(StartPhase(c, count)) == c.timers + Min(c.concurrency, count)
    ensures StartPhase(c, count).warmingUp == c.warmingUp
  {
    var n := Min(c.concurrency, count);
    StartManyAppends(c.(phaseRequestCount := count, requestsStarted := 0, requestsCompleted := 0), n);
    UnsettledFresh(c.requests, n, !c.warmingUp);
  }

  lemma {:induction false} UnsettledFresh(requests: seq<Request>, n: nat, measured: bool)
    ensures Unsettled(requests + seq(n, _ => Fresh(measured))) == Unsettled(requests) + n
  {
    var all := requests + seq(n, _ => Fresh(measured));
    if n == 0 {
      assert all == requests;
    } else {
      assert all[..|all| - 1] == requests + seq(n - 1, _ => Fresh(measured));
      UnsettledFresh(requests, n - 1, measured);
    }
  }

  // ---------- the program ----------

  /** One `runRequests` call. `settled` is a flag per started request; `timers` stands for the pending timeouts. */
  class RequestRunner {
    const warmupCount: nat
    const measuredCount: nat
    const concurrency: nat
    var phaseRequestCount: nat
    var requestsStarted: int
    var requestsCompleted: int
    var stopped: bool
    var warmingUp: bool
    var timedOut: bool
    var lastError: Option<string>
    var settled: seq<bool>
    var timers: nat
    ghost var succeeded: seq<bool>
    ghost var measured: seq<bool>

    ghost predicate Valid()
      reads this
    {
      |settled| == |succeeded| == |measured|
    }

    ghost function State(): Client
      requires Valid()
      reads this
    {
      Client(warmupCount, measuredCount, concurrency, phaseRequestCount, requestsStarted, requestsCompleted,
             stopped, warmingUp, timedOut, lastError,
             seq(|settled|, i requires 0 <= i < |settled| && Valid() reads this =>
                              Request(settled[i], succeeded[i], measured[i])),
             timers)
    }

    constructor (warmupCount: nat, measuredCount: nat, concurrency: nat)
      ensures Valid() && State() == Begin(warmupCount, measuredCount, concurrency)
    {
      this.warmupCount, this.measuredCount, this.concurrency := warmupCount, measuredCount, concurrency;
      phaseRequestCount, requestsStarted, requestsCompleted := 0, 0, 0;
      stopped, warmingUp, timedOut, lastError := false, true, false, None;
      settled, succeeded, measured, timers := [], [], [], 0;
      new;
      assert State().requests == [];
      StartPhaseRequests(warmupCount);
    }

    method Start()
      requires Valid()
      modifies this
      ensures Valid() && State() == StartRequest(old(State()))
    {
      if stopped || requestsStarted >= phaseRequestCount {
        return;
      }
      requestsStarted := requestsStarted + 1;
      settled, succeeded, measured := settled + [false], succeeded + [false], measured + [!warmingUp];
      assert State().requests == old(State()).requests + [Fresh(!warmingUp)];
    }

    method StartPhaseRequests(count: nat)
      requires Valid()
      modifies this
      ensures Valid() && State() == StartPhase(old(State()), count)
    {
      phaseRequestCount := count;
      requestsStarted := 0;
      requestsCompleted := 0;
      ghost var reset := State();
      assert reset == old(State()).(phaseRequestCount := count, requestsStarted := 0, requestsCompleted := 0);
      for i := 0 to Min(concurrency, phaseRequestCount)
        invariant Valid() && State() == StartMany(reset, i) && phaseRequestCount == count
      {
        Start();
        StartKeepsCount(StartMany(reset, i));
      }
    }

    /** The request failed, was aborted, or its response failed. */
    method RetryRequest(id: nat, message: Option<string>)
      requires Valid() && id < |settled|
      modifies this
      ensures Valid() && State() == Step(old(State()), Failed(id, message))
    {
      if settled[id] || stopped {
        return;
      }
      settled := settled[id := true];
      requestsStarted := requestsStarted - 1;
      if message.Some? {
        lastError := message;
      }
      timers := timers + 1;
      assert State().requests == Retry(old(State()), id, message).requests;
    }

    /** The response of the request ended. */
    method OnResponseEnd(id: nat)
      requires Valid() && id < |settled|
      modifies this
      ensures Valid() && State() == Step(old(State()), Ended(id))
    {
      if settled[id] || stopped {
        return;
      }
      settled, succeeded := settled[id := true], succeeded[id := true];
      requestsCompleted := requestsCompleted + 1;
      assert State().requests == Complete(old(State()), id).requests;
      if requestsCompleted == phaseRequestCount {
        if warmingUp {
          warmingUp := false;
          assert State().requests == Complete(old(State()), id).requests;
          StartPhaseRequests(measuredCount);
        } else {
          stopped := true;
          assert State().requests == Complete(old(State()), id).requests;
        }
      } else {
        Start();
      }
    }

    method OnRetryTimer()
      requires Valid() && timers > 0
      modifies this
      ensures Valid() && State() == Step(old(State()), TimerFired)
    {
      timers := timers - 1;
      assert State().requests == old(State()).requests;
      Start();
    }

    /** The deadline is cleared on a normal stop, so it can only fire before any stop. */
    method OnDeadline()
      requires Valid() && !stopped
      modifies this
      ensures Valid() && State() == Step(old(State()), DeadlineReached)
    {
      stopped := true;
      timedOut := true;
      assert State().requests == old(State()).requests;
    }
  }

  lemma StartKeepsCount(c: Client)
    ensures StartRequest(c).phaseRequestCount == c.phaseRequestCount && StartRequest(c).concurrency == c.concurrency
  {
  }
}
