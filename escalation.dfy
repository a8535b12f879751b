/** The retry and escalation controller: the original request, then three
    increasingly directive "continue" messages, each tried up to
    MAX_RETRIES + 1 times, then one last-resort message that embeds the
    original request. It stops at the first attempt that completes. */
module Escalation {
  import opened Events
  import opened Watchdog

  // The prompts' wording is abridged; the model relies only on the
  // continue messages being fixed and distinct, and on the last-resort
  // message ending with the original request.
  const CONTINUE_PROMPT: string :=
    "The previous request stalled. Complete all remaining deliverables now."
  const STILL_STALLING: string :=
    "You are still stalling. Write all remaining output files from your own knowledge."
  const WRITE_ONLY: string :=
    "Stop all research. Use only the Write tool for the remaining files."
  const LAST_RESORT_LEAD: string :=
    "All web research has failed. Using only the Write tool and your own built-in knowledge, "
    + "create all the output files required. Here is the original request:\n\n"

  /** The escalating continue messages, in the order they are sent. */
  const CONTINUE_MESSAGES: seq<string> := [CONTINUE_PROMPT, STILL_STALLING, WRITE_ONLY]

  /** The last-resort message: the fixed lead followed by the request. */
  function LastResort(request: string): (m: string)
    ensures |m| == |LAST_RESORT_LEAD| + |request|
    ensures m[..|LAST_RESORT_LEAD|] == LAST_RESORT_LEAD
    ensures m[|LAST_RESORT_LEAD|..] == request
  {
    LAST_RESORT_LEAD + request
  }

  /** Distinct requests give distinct last-resort messages: the message
      determines the request it carries. */
  lemma LastResortInjective(a: string, b: string)
    requires LastResort(a) == LastResort(b)
    ensures a == b
  {
    assert a == LastResort(a)[|LAST_RESORT_LEAD|..];
  }

  /** Every phase sends a different message whatever the request: the
      continue messages differ from each other and from the last resort. */
  lemma PhaseMessagesDistinct(request: string)
    ensures forall i, j :: 0 <= i < j < |CONTINUE_MESSAGES| ==>
      CONTINUE_MESSAGES[i] != CONTINUE_MESSAGES[j]
    ensures LastResort(request) !in CONTINUE_MESSAGES
  {
    assert |LAST_RESORT_LEAD| > |STILL_STALLING| > |CONTINUE_PROMPT| > |WRITE_ONLY|;
    
  }

  /** One escalation phase: its message and how many attempts it gets. */
  datatype Phase = Phase(message: string, budget: nat)

  /** The escalation table for `request`. */
  function Phases(request: string): seq<Phase> {
    [ Phase(request, MAX_RETRIES + 1),
      Phase(CONTINUE_MESSAGES[0], MAX_RETRIES + 1),
      Phase(CONTINUE_MESSAGES[1], MAX_RETRIES + 1),
      Phase(CONTINUE_MESSAGES[2], MAX_RETRIES + 1),
      Phase(LastResort(request), 1) ]
  }

  /** `m` repeated `n` times. */
  function Repeat(m: string, n: nat): (r: seq<string>)
    ensures |r| == n && forall j :: 0 <= j < n ==> r[j] == m
  {
    if n == 0 then [] else [m] + Repeat(m, n - 1)
  }

  /** The messages of a phase table, each repeated as often as its budget
      allows, phase after phase. */
  function Schedule(ps: seq<Phase>): seq<string> {
    if ps == [] then [] else Repeat(ps[0].message, ps[0].budget) + Schedule(ps[1..])
  }

  /** Every message the controller may send for `request`, in order. */
  function Plan(request: string): seq<string> {
    Schedule(Phases(request))
  }

  /** The plan is three copies of the request verbatim, three of each
      continue message in list order, and one last-resort message:
      thirteen attempts in all. */
  lemma PlanShape(request: string)
    ensures var c := CONTINUE_MESSAGES;
      Plan(request) == [request, request, request, c[0], c[0], c[0],
                        c[1], c[1], c[1], c[2], c[2], c[2], LastResort(request)]
  {
    var ps := Phases(request);
    var c := CONTINUE_MESSAGES;
    var last := LastResort(request);
    assert Schedule(ps[4..]) == [last] by {
      assert ps[4..][1..] == [];
      assert Repeat(last, 1) == [last];
    }
    assert Schedule(ps[3..]) == [c[2], c[2], c[2], last] by {
      assert ps[3..][1..] == ps[4..];
      assert Repeat(c[2], 3) == [c[2], c[2], c[2]];
    }
    assert Schedule(ps[2..]) == [c[1], c[1], c[1], c[2], c[2], c[2], last] by {
      assert ps[2..][1..] == ps[3..];
      assert Repeat(c[1], 3) == [c[1], c[1], c[1]];
    }
    assert Schedule(ps[1..]) == [c[0], c[0], c[0], c[1], c[1], c[1], c[2], c[2], c[2], last] by {
      assert ps[1..][1..] == ps[2..];
      assert Repeat(c[0], 3) == [c[0], c[0], c[0]];
    }
    assert Repeat(request, 3) == [request, request, request];
  }

  /** Retry `r` of the original phase sends the request verbatim. */
  lemma OriginalSlot(request: string, r: nat)
    requires r < MAX_RETRIES + 1
    ensures r < |Plan(request)| && Plan(request)[r] == request
  {
    PlanShape(request);
  }

  /** The last plan entry, the thirteenth, is the last-resort message. */
  lemma LastSlot(request: string)
    ensures |Plan(request)| == MAX_RETRIES + 1 + (MAX_RETRIES + 1) * |CONTINUE_MESSAGES| + 1
    ensures Plan(request)[|Plan(request)| - 1] == LastResort(request)
  {
    PlanShape(request);
  }

  /** The position in the plan of retry `r` of continue message `i`. */
  lemma ContinueSlot(request: string, i: nat, r: nat)
    requires i < |CONTINUE_MESSAGES| && r < MAX_RETRIES + 1
    ensures MAX_RETRIES + 1 + (MAX_RETRIES + 1) * i + r < |Plan(request)|
    ensures Plan(request)[MAX_RETRIES + 1 + (MAX_RETRIES + 1) * i + r] == CONTINUE_MESSAGES[i]
  {
    PlanShape(request);
  }

  /** Whether one attempt completes: the watchdog returns true for it. */
  predicate Done(a: Attempt) {
    !Classify(a.stream, INACTIVITY_TIMEOUT).Stalled?
  }

  /** The service's behaviour for the `k`-th query; a query past the end
      of the script is met with silence. */
  function AttemptAt(script: seq<Attempt>, k: nat): Attempt {
    if k < |script| then script[k] else Attempt([], false)
  }

  /** The first attempt from `k` on, below `limit`, that completes; `limit`
      if none does. */
  function FirstDone(script: seq<Attempt>, k: nat, limit: nat): (n: nat)
    requires k <= limit
    ensures k <= n <= limit
    ensures forall j :: k <= j < n ==> !Done(AttemptAt(script, j))
    ensures n < limit ==> Done(AttemptAt(script, n))
    decreases limit - k
  {
    if k == limit || Done(AttemptAt(script, k)) then k else FirstDone(script, k + 1, limit)
  }

  /** How many queries the controller sends for `request`: up to and
      including the first attempt that completes, or the whole plan. */
  function Attempts(request: string, script: seq<Attempt>): nat {
    var n := FirstDone(script, 0, |Plan(request)|);
    if n < |Plan(request)| then n + 1 else n
  }

  /** The calls made on the client by the first `n` attempts of `plan`. */
  function Log(plan: seq<string>, script: seq<Attempt>, n: nat): seq<Action>
    requires n <= |plan|
  {
    if n == 0 then []
    else
      var a := AttemptAt(script, n - 1);
      Log(plan, script, n - 1) + AttemptCalls(plan[n - 1], a, Done(a))
  }

  /** The texts of the queries in `trace`, in order. */
  function Sent(trace: seq<Action>): seq<string> {
    if trace == [] then []
    else (if trace[0].Query? then [trace[0].text] else []) + Sent(trace[1..])
  }

  /** The number of drains in `trace`. */
  function Drains(trace: seq<Action>): nat {
    if trace == [] then 0
    else (if trace[0] == Drain then 1 else 0) + Drains(trace[1..])
  }

  /** The number of attempts among the first `n` that stall. */
  function Stalls(script: seq<Attempt>, n: nat): nat {
    if n == 0 then 0
    else Stalls(script, n - 1) + (if Done(AttemptAt(script, n - 1)) then 0 else 1)
  }

  /** Sends `request` with retries and escalation. `completed` is false
      exactly when no attempt completed (the final warning is shown). */
  method QueryWithRetry(request: string, script: seq<Attempt>) returns (completed: bool, trace: seq<Action>)
    ensures completed <==> FirstDone(script, 0, |Plan(request)|) < |Plan(request)|
    ensures trace == Log(Plan(request), script, Attempts(request, script))
  {
    LastSlot(request);
    ghost var plan := Plan(request);
    trace := [];
    var k := 0;  // queries sent so far; the next one gets the script's k-th entry

    for attempt := 0 to MAX_RETRIES + 1
      invariant k == attempt
      invariant trace == Log(plan, script, k)
      invariant k <= FirstDone(script, 0, |plan|)
    {
      OriginalSlot(request, attempt);
      var ok, calls, _ := SendAndReceive(request, AttemptAt(script, k), INACTIVITY_TIMEOUT);
      trace := trace + calls;
      if ok {
        Stop(request, script, k);
        return true, trace;
      }
      k := k + 1;
    }

    for i := 0 to |CONTINUE_MESSAGES|
      invariant k == MAX_RETRIES + 1 + (MAX_RETRIES + 1) * i
      invariant trace == Log(plan, script, k)
      invariant k <= FirstDone(script, 0, |plan|)
    {
      var message := CONTINUE_MESSAGES[i];
      for retry := 0 to MAX_RETRIES + 1
        invariant k == MAX_RETRIES + 1 + (MAX_RETRIES + 1) * i + retry
        invariant trace == Log(plan, script, k)
        invariant k <= FirstDone(script, 0, |plan|)
      {
        ContinueSlot(request, i, retry);
        var ok, calls, _ := SendAndReceive(message, AttemptAt(script, k), INACTIVITY_TIMEOUT);
        trace := trace + calls;
        if ok {
          Stop(request, script, k);
          return true, trace;
        }
        k := k + 1;
      }
    }

    var ok, calls, _ := SendAndReceive(LastResort(request), AttemptAt(script, k), INACTIVITY_TIMEOUT);
    trace := trace + calls;
    completed := ok;
    if ok {
      Stop(request, script, k);
    } else {
      assert FirstDone(script, 0, |Plan(request)|) == |Plan(request)|;
    }
  }

  /** The attempt that stops the controller is the first that completes. */
  lemma Stop(request: string, script: seq<Attempt>, k: nat)
    requires k < |Plan(request)|
    requires k <= FirstDone(script, 0, |Plan(request)|)
    requires Done(AttemptAt(script, k))
    ensures FirstDone(script, 0, |Plan(request)|) == k
    ensures Attempts(request, script) == k + 1
  {
  }

  lemma {:induction false} SentAppend(t: seq<Action>, u: seq<Action>)
    ensures Sent(t + u) == Sent(t) + Sent(u)
  {
    if t == [] {
      assert t + u == u;
    } else {
      assert (t + u)[0] == t[0];
      assert (t + u)[1..] == t[1..] + u;
      SentAppend(t[1..], u);
    }
  }

  lemma {:induction false} DrainsAppend(t: seq<Action>, u: seq<Action>)
    ensures Drains(t + u) == Drains(t) + Drains(u)
  {
    if t == [] {
      assert t + u == u;
    } else {
      assert (t + u)[0] == t[0];
      assert (t + u)[1..] == t[1..] + u;
      DrainsAppend(t[1..], u);
    }
  }

  /** The queries of the first `n` attempts are the first `n` plan
      entries, in plan order: no phase is skipped or repeated. */
  lemma {:induction false} QueriesFollowPlan(plan: seq<string>, script: seq<Attempt>, n: nat)
    requires n <= |plan|
    ensures Sent(Log(plan, script, n)) == plan[..n]
  {
    if n > 0 {
      var a := AttemptAt(script, n - 1);
      var calls := AttemptCalls(plan[n - 1], a, Done(a));
      QueriesFollowPlan(plan, script, n - 1);
      SentAppend(Log(plan, script, n - 1), calls);
      assert Sent(calls) == [plan[n - 1]] by {
        if !Done(a) {
          assert calls == [Query(plan[n - 1]), Interrupt(!a.interruptFails), Drain];
          assert Sent([Drain]) == [] by { assert [Drain][1..] == []; }
          assert Sent([Interrupt(!a.interruptFails), Drain]) == [] by {
            assert [Interrupt(!a.interruptFails), Drain][1..] == [Drain];
          }
          assert calls[1..] == [Interrupt(!a.interruptFails), Drain];
        } else {
          assert calls == [Query(plan[n - 1])];
          assert calls[1..] == [];
        }
      }
      assert plan[..n] == plan[..n - 1] + [plan[n - 1]];
    }
  }

  /** While attempts stall, every attempt after the first starts only once
      the previous one has been interrupted and drained, and every
      interrupt is followed at once by its drain. */
  lemma {:induction false} DrainBeforeNextQuery(plan: seq<string>, script: seq<Attempt>, n: nat)
    requires n <= |plan|
    requires forall j :: 0 <= j < n - 1 ==> !Done(AttemptAt(script, j))
    ensures var t := Log(plan, script, n);
      (forall p :: 0 < p < |t| && t[p].Query? ==> t[p - 1] == Drain) &&
      (forall p :: 0 <= p < |t| && t[p].Interrupt? ==> p + 1 < |t| && t[p + 1] == Drain) &&
      (0 < n ==> t[0].Query?)
  {
    if n > 0 {
      var prev := Log(plan, script, n - 1);
      var a := AttemptAt(script, n - 1);
      var calls := AttemptCalls(plan[n - 1], a, Done(a));
      DrainBeforeNextQuery(plan, script, n - 1);
      if n > 1 {
        var b := AttemptAt(script, n - 2);
        assert prev == Log(plan, script, n - 2) + AttemptCalls(plan[n - 2], b, Done(b));
        assert prev[|prev| - 1] == Drain;
      }
      var t := prev + calls;
      assert t == Log(plan, script, n);
      forall p | 0 < p < |t| && t[p].Query?
        ensures t[p - 1] == Drain
      {
        if p >= |prev| {
          assert t[p] == calls[p - |prev|];
        }
      }
    }
  }

  /** Every attempt that stalls is drained exactly once, and no completed
      attempt is. */
  lemma {:induction false} OneDrainPerStall(plan: seq<string>, script: seq<Attempt>, n: nat)
    requires n <= |plan|
    ensures Drains(Log(plan, script, n)) == Stalls(script, n)
  {
    if n > 0 {
      var a := AttemptAt(script, n - 1);
      var calls := AttemptCalls(plan[n - 1], a, Done(a));
      OneDrainPerStall(plan, script, n - 1);
      DrainsAppend(Log(plan, script, n - 1), calls);
      assert Drains(calls) == if Done(a) then 0 else 1 by {
        if !Done(a) {
          assert calls == [Query(plan[n - 1]), Interrupt(!a.interruptFails), Drain];
          assert Drains([Drain]) == 1 by { assert [Drain][1..] == []; }
          assert Drains([Interrupt(!a.interruptFails), Drain]) == 1 by {
            assert [Interrupt(!a.interruptFails), Drain][1..] == [Drain];
          }
          assert calls[1..] == [Interrupt(!a.interruptFails), Drain];
        } else {
          assert calls == [Query(plan[n - 1])];
          assert calls[1..] == [];
        }
      }
    }
  }

  /** The controller stops at the first attempt that completes: if that is
      attempt `n`, exactly `n + 1` queries are sent, the first `n + 1`
      entries of the plan. */
  lemma StopsAtFirstCompletion(request: string, script: seq<Attempt>, n: nat)
    requires n < |Plan(request)|
    requires forall j :: 0 <= j < n ==> !Done(AttemptAt(script, j))
    requires Done(AttemptAt(script, n))
    ensures Attempts(request, script) == n + 1
    ensures Sent(Log(Plan(request), script, n + 1)) == Plan(request)[..n + 1]
  {
    QueriesFollowPlan(Plan(request), script, n + 1);
  }

  /** When every attempt stalls the controller sends thirteen queries, in
      this order, and gives up. */
  lemma AllStallExhaustsPlan(request: string, script: seq<Attempt>)
    requires forall j :: 0 <= j < 13 ==> !Done(AttemptAt(script, j))
    ensures Attempts(request, script) == 13
    ensures FirstDone(script, 0, |Plan(request)|) == |Plan(request)|
    ensures var c := CONTINUE_MESSAGES;
      Sent(Log(Plan(request), script, 13)) ==
        [request, request, request, c[0], c[0], c[0],
         c[1], c[1], c[1], c[2], c[2], c[2], LastResort(request)]
    ensures Drains(Log(Plan(request), script, 13)) == 13
  {
    PlanShape(request);
    QueriesFollowPlan(Plan(request), script, 13);
    OneDrainPerStall(Plan(request), script, 13);
    EveryAttemptStalls(script, 13);
    assert Plan(request)[..13] == Plan(request);
  }

  lemma {:induction false} EveryAttemptStalls(script: seq<Attempt>, n: nat)
    requires forall j :: 0 <= j < n ==> !Done(AttemptAt(script, j))
    ensures Stalls(script, n) == n
  {
    if n > 0 {
      EveryAttemptStalls(script, n - 1);
    }
  }

  /** The calls the controller makes for one request: between one and
      thirteen queries that follow the plan, each query after the first
      preceded by the drain of the attempt before it, and one drain per
      stalled attempt, so none when the first attempt completes. */
  lemma ControllerLogShape(request: string, script: seq<Attempt>)
    ensures var n := Attempts(request, script);
      var t := Log(Plan(request), script, n);
      && 1 <= n <= |Plan(request)|
      && Sent(t) == Plan(request)[..n]
      && (forall p :: 0 < p < |t| && t[p].Query? ==> t[p - 1] == Drain)
      && Drains(t) == (if FirstDone(script, 0, |Plan(request)|) < |Plan(request)| then n - 1 else n)
  {
    var plan := Plan(request);
    var f := FirstDone(script, 0, |plan|);
    var n := Attempts(request, script);
    LastSlot(request);
    QueriesFollowPlan(plan, script, n);
    DrainBeforeNextQuery(plan, script, n);
    OneDrainPerStall(plan, script, n);
    if f < |plan| {
      EveryAttemptStalls(script, f);
    } else {
      EveryAttemptStalls(script, n);
    }
  }

  /** Success on the second try of the first continue message: five
      queries, three of the request and two of that continue message, and
      no later phase is reached. */
  lemma SecondContinueTrySucceeds(request: string, script: seq<Attempt>)
    requires forall j :: 0 <= j < 4 ==> !Done(AttemptAt(script, j))
    requires Done(AttemptAt(script, 4))
    ensures Attempts(request, script) == 5
    ensures Sent(Log(Plan(request), script, 5)) ==
      [request, request, request, CONTINUE_PROMPT, CONTINUE_PROMPT]
  {
    PlanShape(request);
    StopsAtFirstCompletion(request, script, 4);
  }

  /** An error while receiving the very first response ends the request:
      one query, no interrupt and no drain. */
  lemma FirstAttemptErrorEndsRequest(request: string, script: seq<Attempt>, gap: nat)
    requires 0 < |script| && 0 < |script[0].stream|
    requires script[0].stream[0] == Item(gap, Error) && gap < INACTIVITY_TIMEOUT
    ensures Attempts(request, script) == 1
    ensures Log(Plan(request), script, Attempts(request, script)) == [Query(request)]
  {
    PlanShape(request);
    EndOrErrorIsNotStall(script[0].stream, 0, INACTIVITY_TIMEOUT);
    StopsAtFirstCompletion(request, script, 0);
  }
}
