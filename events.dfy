/** The agent service as the stall-resilience logic sees it: a scripted
    source of timed events, one script per query, and the calls the logic
    makes on the client. Wall-clock waits are whole seconds. */
module Events {

  /** Seconds of silence after which a response counts as stalled. */
  const INACTIVITY_TIMEOUT: nat := 300

  /** Total seconds the drain after an interrupt may take. */
  const DRAIN_TIMEOUT: nat := 15

  /** Extra attempts per escalation phase after the first one. */
  const MAX_RETRIES: nat := 2

  /** What the response stream delivers next: an assistant message, the
      final result message, any other message (a token-level stream event,
      or a user or system message, all of which only re-arm the timer),
      the end of the stream, an exception of type TimeoutError raised by
      the stream itself, or any other exception raised while receiving. */
  datatype Kind = Content | Result | Heartbeat | EndOfStream | TimedOut | Error

  /** One step of a response stream: `gap` seconds after the previous
      step (or after the query, for the first one), `kind` happens. */
  datatype Item = Item(gap: nat, kind: Kind)

  /** What the service does for one query: the response stream, and
      whether an interrupt sent during it raises. A stream whose list runs
      out stays silent forever. */
  datatype Attempt = Attempt(stream: seq<Item>, interruptFails: bool)

  /** A call made on the client, in the order made. */
  datatype Action = Query(text: string) | Interrupt(delivered: bool) | Drain

  /** Kinds that neither end a response nor signal a failure. */
  predicate Ongoing(k: Kind) {
    k == Content || k == Heartbeat
  }

  /** An item that arrives in time and keeps the response going. */
  predicate Live(it: Item, timeout: nat) {
    it.gap < timeout && Ongoing(it.kind)
  }

  /** The first `n` items of `s` all keep the response going. */
  predicate LivePrefix(s: seq<Item>, n: nat, timeout: nat)
    requires n <= |s|
  {
    forall j :: 0 <= j < n ==> Live(s[j], timeout)
  }

  /** Seconds from the start of `s` until its `n`-th item arrives. */
  function Elapsed(s: seq<Item>, n: nat): nat
    requires n <= |s|
  {
    if n == 0 then 0 else Elapsed(s, n - 1) + s[n - 1].gap
  }

  lemma {:induction false} ElapsedMonotone(s: seq<Item>, m: nat, n: nat)
    requires m <= n <= |s|
    ensures Elapsed(s, m) <= Elapsed(s, n)
    decreases n
  {
    if m < n {
      ElapsedMonotone(s, m, n - 1);
    }
  }
}
