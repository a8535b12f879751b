# Stall-resilient querying of a streaming agent service

This project models the stall-resilience logic of a command-line driver for a
remote conversational agent (`agent.py`). The logic has three parts:

- **Watchdog** (`send_and_receive`). It sends one query and pulls the
  response one message at a time. Each wait is bounded by an inactivity timer
  of 300 seconds that is re-armed after every message. The attempt is
  completed when a result message arrives, when the stream closes, or when
  receiving raises an exception other than `TimeoutError`. It stalls when the
  timer fires, or when the stream itself raises `TimeoutError`, which the same
  handler catches. In that case it sends an interrupt and drains before
  returning false.
- **Drainer** (`drain_after_interrupt`). It consumes whatever still arrives on
  the interrupted response, for at most 15 seconds in all. It stops at the
  first result message, at the end of the stream, or on any error, and never
  lets an error escape. A failed interrupt is swallowed before the drain runs.
- **Escalation controller** (`query_with_retry`). It sends the original
  request up to `MAX_RETRIES + 1 = 3` times. Then it sends each of three
  escalating "continue" messages up to 3 times. Last, it makes one attempt with
  a last-resort message that ends with the original request. It stops at the
  first attempt that completes.

The service is a script. Each query is met by an `Attempt`: a list of
`Item(gap, kind)` steps (gap in whole seconds since the previous step) and a
flag saying whether an interrupt raises. A list that runs out means the
service stays silent forever. A query past the end of the script meets such
a silent attempt. The calls the logic makes on the client (`Query(text)`,
`Interrupt(delivered)`, `Drain`) are returned as a log, in order.

Files: `events.dfy` (the service's events, the constants),
`drainer.dfy`, `watchdog.dfy`, `escalation.dfy`.

Two behaviours of the code worth noting:

- An exception other than `TimeoutError` while receiving makes the watchdog
  return true, exactly as a completed response does.
- The drain's 15-second bound is one deadline for the whole drain, not a
  bound per message.

## Model

| member | source | states |
|---|---|---|
| Watchdog.SendAndReceive | agent.py:53-94 | returns true exactly when the attempt does not stall; the calls are one query, followed by one interrupt and one drain on a stall and nothing more; a failed interrupt still drains; a drain happens exactly on a stall, and it is a drain of the rest of the stream from the item the watchdog gave up on |
| Watchdog.Settle | agent.py:68-91 | finds the item that ends the run of in-time assistant messages and stream events: all before it keep the response going, it does not |
| Watchdog.SuccessIff | agent.py:68-91 | an attempt succeeds if and only if a result message arrives and it, and every message before it, came less than the timeout after its predecessor, those before it being assistant messages or stream events |
| Watchdog.StallIff | agent.py:68-83 | an attempt stalls if and only if, after a run of live messages, the next wait reaches the timeout, nothing more ever arrives, or the stream raises `TimeoutError` |
| Watchdog.EndOrErrorIsNotStall | agent.py:72-94 | a stream that closes, or a receive that raises, in time after live messages is a completion (stream end) or a failure (error), never a stall |
| Watchdog.SilenceNotDuration | agent.py:85-91 | heartbeats ten seconds apart keep an attempt alive for any number of them, so a response of any total length succeeds |
| Drainer.DrainAfterInterrupt | agent.py:29-39 | the drain stops at the first result message, stream end or exception of any type, or just before the first message that would arrive at or after 15 seconds; everything it consumes arrives within 15 seconds; it raises nothing and sends no query |
| Drainer.DrainsAsUnique | agent.py:29-39 | the drain's specification admits exactly one outcome per stream |
| Escalation.LastResort | agent.py:140-146 | the last-resort message is the fixed lead followed by the original request verbatim |
| Escalation.LastResortInjective | agent.py:140-146 | distinct requests give distinct last-resort messages |
| Escalation.PhaseMessagesDistinct | agent.py:117-125 | the three continue messages differ from each other and from every last-resort message |
| Escalation.PlanShape | agent.py:107-147 | the attempts, in order: the request verbatim three times, each continue message three times in list order, then the last resort |
| Escalation.FirstDone | agent.py:108-136 | finds the first attempt that completes: every earlier one stalls |
| Escalation.QueryWithRetry | agent.py:97-149 | the calls made are those of the plan's attempts up to and including the first that completes (all thirteen if none does); completed is false exactly when no attempt completed |
| Escalation.QueriesFollowPlan | agent.py:108-147 | the queries of the first n attempts are the first n plan entries, in order: no phase is skipped or repeated |
| Escalation.DrainBeforeNextQuery | agent.py:76-83 | while attempts stall, each query after the first comes right after the previous attempt's drain, and each interrupt is immediately followed by a drain |
| Escalation.OneDrainPerStall | agent.py:76-83 | the number of drains equals the number of stalled attempts |
| Escalation.StopsAtFirstCompletion | agent.py:112-136 | if attempt n is the first to complete, exactly n + 1 queries are sent, the first n + 1 plan entries |
| Escalation.AllStallExhaustsPlan | agent.py:107-149 | when every attempt stalls, exactly thirteen queries are sent in plan order, thirteen drains are made, and the controller returns |
| Escalation.ControllerLogShape | agent.py:97-149 | for any service, between one and thirteen queries follow the plan, each later query comes after a drain, and there is one drain per stalled attempt |
| Escalation.SecondContinueTrySucceeds | agent.py:127-136 | success on the second try of the first continue message gives exactly five queries (three with the request, two with that continue message) |
| Escalation.FirstAttemptErrorEndsRequest | agent.py:92-113 | an error on the very first attempt gives exactly one query and no interrupt or drain |

## Left out

- Timers and concurrency: `asyncio.wait_for` and `asyncio.timeout` become
  whole-second gaps compared against the two timeouts. A wait that exactly
  equals the timeout counts as expired.
- The SDK client (`query`, `receive_response`, `interrupt`) and its message
  classes are replaced by the script and the call log. What an interrupt does
  to the service is part of the script: the drain simply reads on from the
  stalled point (past the `TimeoutError` when the stream raised one).
- Messages left over when a drain expires before the result message are not
  carried into the next attempt's stream: each attempt has its own script.
- A `query` call that raises (agent.py:63 is outside the `try`) is not
  modelled. The service always accepts the query.
- `display_message`, every console message, `load_prompt`, `load_dotenv` and
  `main` (agent definitions, options, the input loop and its `exit` command)
  are glue or I/O.
- The prompts' wording is abridged to short constants. Only their order, their
  distinctness and the request at the end of the last resort are modelled.
- PhaseMessagesDistinct: it states that the continue messages are fixed
  constants, distinct from one another and from the last resort. It does not
  state that they never contain the request's text, because a short request
  can occur inside a fixed message.
- Running the controller twice on the same script gives the same result
  because the model is a function of its inputs. No separate lemma states it.
