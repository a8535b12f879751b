/** The inactivity watchdog: one query, its response consumed one message
    at a time, each wait bounded by a timer that is re-armed after every
    message. */
module Watchdog {
  import opened Events
  import Drainer

  /** How one attempt ends: the result message arrived, the stream closed
      without one, receiving raised an exception other than TimeoutError,
      or the wait for item `at` ended in a TimeoutError, raised by the
      timer or by the stream itself (`at` is the length of the stream when
      nothing more ever arrives). */
  datatype Outcome = Success | Ended | Failed | Stalled(at: nat)

  /** Index of the item that settles the attempt: the first one that does
      not keep the response going, or the length of `s` if every item
      does. */
  function Settle(s: seq<Item>, timeout: nat): (i: nat)
    ensures i <= |s| && LivePrefix(s, i, timeout)
    ensures i < |s| ==> !Live(s[i], timeout)
    decreases |s|
  {
    if s == [] || !Live(s[0], timeout) then 0
    else
      var i := Settle(s[1..], timeout);
      assert forall j :: 1 <= j < i + 1 ==> s[j] == s[1..][j - 1];
      1 + i
  }

  /** The outcome the watchdog reaches on stream `s`. */
  function Classify(s: seq<Item>, timeout: nat): Outcome {
    var i := Settle(s, timeout);
    if i == |s| || s[i].gap >= timeout || s[i].kind == TimedOut then Stalled(i)
    else if s[i].kind == Result then Success
    else if s[i].kind == EndOfStream then Ended
    else Failed
  }

  /** The calls made on the client during one attempt with `text`. */
  function AttemptCalls(text: string, a: Attempt, ok: bool): seq<Action> {
    [Query(text)] + (if ok then [] else [Interrupt(!a.interruptFails), Drain])
  }

  /** What is left of stream `s` once the watchdog has given up on item
      `i`: if the timer fired after `waited` seconds, item `i` is still to
      come, that much sooner; if item `i` arrived earlier it was the
      stream's own TimeoutError, and the stream goes on after it. */
  function Resume(s: seq<Item>, i: nat, waited: nat): seq<Item>
    requires i <= |s|
  {
    if i == |s| then []
    else if s[i].gap >= waited then [Item(s[i].gap - waited, s[i].kind)] + s[i + 1..]
    else s[i + 1..]
  }

  /** Whether the attempt ended with a drain, and how that drain ended. */
  datatype DrainReport = NoDrain | Drained(end: Drainer.DrainEnd, consumed: nat)

  /** Sends `text`, then waits for each next message for less than
      `timeout` seconds. True when the attempt completed (result, end of
      stream, or an error that is not retried); false when it stalled,
      after an interrupt and a drain of what is left of the stream. */
  method SendAndReceive(text: string, a: Attempt, timeout: nat)
    returns (ok: bool, trace: seq<Action>, drained: DrainReport)
    ensures ok == !Classify(a.stream, timeout).Stalled?
    ensures trace == AttemptCalls(text, a, ok)
    ensures ok <==> drained.NoDrain?
    ensures !ok ==> Drainer.DrainsAs(Resume(a.stream, Settle(a.stream, timeout), timeout),
                                     drained.end, drained.consumed)
  {
    drained := NoDrain;
    trace := [Query(text)];
    var s := a.stream;
    var i := 0;
    while true
      invariant i <= |s|
      invariant LivePrefix(s, i, timeout)
      decreases |s| - i
    {
      if i == |s| || s[i].gap >= timeout || s[i].kind == TimedOut {
        // the timer fired before the next message, or the stream raised TimeoutError
        assert Settle(s, timeout) == i;
        trace := trace + [Interrupt(!a.interruptFails)];
        // a failed interrupt is swallowed; the drain runs regardless
        trace := trace + [Drain];
        var end, consumed := Drainer.DrainAfterInterrupt(Resume(s, i, timeout));
        return false, trace, Drained(end, consumed);
      }
      var it := s[i];
      match it.kind
      case Result =>
        assert Settle(s, timeout) == i;
        return true, trace, NoDrain;
      case EndOfStream =>
        assert Settle(s, timeout) == i;
        return true, trace, NoDrain;
      case Error =>
        assert Settle(s, timeout) == i;
        return true, trace, NoDrain;
      case Content =>
        // shown to the user; re-arm the timer
        i := i + 1;
      case Heartbeat =>
        // re-arm the timer
        i := i + 1;
      case TimedOut =>
        // handled as a stall above
        assert false;
    }
  }

  /** The attempt succeeds exactly when a result message arrives and it
      and every message before it came less than `timeout` seconds after
      its predecessor, the ones before it being assistant messages or
      stream events. */
  lemma SuccessIff(s: seq<Item>, timeout: nat)
    ensures Classify(s, timeout) == Success <==>
      exists i :: 0 <= i < |s| && LivePrefix(s, i, timeout) &&
        s[i].gap < timeout && s[i].kind == Result
  {
    var k := Settle(s, timeout);
    if Classify(s, timeout) == Success {
      assert LivePrefix(s, k, timeout) && s[k].gap < timeout && s[k].kind == Result;
    }
    forall i | 0 <= i < |s| && LivePrefix(s, i, timeout) && s[i].gap < timeout && s[i].kind == Result
      ensures Classify(s, timeout) == Success
    {
      SettleAt(s, i, timeout);
    }
  }

  /** The attempt stalls exactly when, after a run of live messages, the
      next wait reaches the timeout, nothing more ever arrives, or the
      stream itself raises TimeoutError. */
  lemma StallIff(s: seq<Item>, timeout: nat)
    ensures Classify(s, timeout).Stalled? <==>
      exists i :: 0 <= i <= |s| && LivePrefix(s, i, timeout) &&
        (i == |s| || s[i].gap >= timeout || s[i].kind == TimedOut)
  {
    var k := Settle(s, timeout);
    if Classify(s, timeout).Stalled? {
      assert LivePrefix(s, k, timeout) && (k == |s| || s[k].gap >= timeout || s[k].kind == TimedOut);
    }
    forall i | 0 <= i <= |s| && LivePrefix(s, i, timeout) &&
      (i == |s| || s[i].gap >= timeout || s[i].kind == TimedOut)
      ensures Classify(s, timeout).Stalled?
    {
      SettleAt(s, i, timeout);
    }
  }

  /** Any item that settles the attempt is the one Settle finds. */
  lemma SettleAt(s: seq<Item>, i: nat, timeout: nat)
    requires i <= |s| && LivePrefix(s, i, timeout)
    requires i < |s| ==> !Live(s[i], timeout)
    ensures Settle(s, timeout) == i
  {
  }

  /** A stream that closes, or a receive that raises, in time after live
      messages completes the attempt: neither is a stall. */
  lemma EndOrErrorIsNotStall(s: seq<Item>, i: nat, timeout: nat)
    requires i < |s| && LivePrefix(s, i, timeout) && s[i].gap < timeout
    requires s[i].kind == EndOfStream || s[i].kind == Error
    ensures Classify(s, timeout) == (if s[i].kind == EndOfStream then Ended else Failed)
  {
    SettleAt(s, i, timeout);
  }

  /** `n` stream events, each `gap` seconds after the previous one. */
  function Heartbeats(n: nat, gap: nat): (s: seq<Item>)
    ensures |s| == n
    ensures forall j :: 0 <= j < n ==> s[j] == Item(gap, Heartbeat)
  {
    if n == 0 then [] else Heartbeats(n - 1, gap) + [Item(gap, Heartbeat)]
  }

  /** Silence, not duration, is what stalls: heartbeats ten seconds apart
      keep an attempt alive however many there are, so a response of any
      total length succeeds. */
  lemma {:induction false} SilenceNotDuration(n: nat)
    ensures var s := Heartbeats(n, 10) + [Item(10, Result)];
      Classify(s, INACTIVITY_TIMEOUT) == Success &&
      Elapsed(s, |s|) == 10 * (n + 1)
  {
    var s := Heartbeats(n, 10) + [Item(10, Result)];
    SettleAt(s, n, INACTIVITY_TIMEOUT);
    ElapsedHeartbeats(s, n);
  }

  lemma {:induction false} ElapsedHeartbeats(s: seq<Item>, k: nat)
    requires k <= |s|
    requires forall j :: 0 <= j < |s| ==> s[j].gap == 10
    ensures Elapsed(s, k) == 10 * k
  {
    if k > 0 {
      ElapsedHeartbeats(s, k - 1);
    }
  }
}
