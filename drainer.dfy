/** The drain that follows an interrupt: it consumes what is still arriving
    on the interrupted response, for at most DRAIN_TIMEOUT seconds in all,
    and never lets an error escape. */
module Drainer {
  import opened Events

  /** Why the drain stopped: the result message arrived, the stream
      closed, receiving raised (and was swallowed), or the time bound
      expired. */
  datatype DrainEnd = Finished | Closed | Swallowed | Expired

  /** How a drain ends when it consumes an item of kind `k` that stops it;
      both kinds of exception are swallowed alike. */
  function EndFor(k: Kind): DrainEnd
    requires !Ongoing(k)
  {
    match k
    case Result => Finished
    case EndOfStream => Closed
    case TimedOut => Swallowed
    case Error => Swallowed
  }

  /** The first `n` items of `r` are assistant messages or stream events. */
  predicate Quiet(r: seq<Item>, n: nat)
    requires n <= |r|
  {
    forall j :: 0 <= j < n ==> Ongoing(r[j].kind)
  }

  /** `end` and `consumed` describe a drain of `r`: all consumed items
      arrived inside the time bound; the drain stops on the first item
      that is not an assistant message or stream event, or else just
      before the first item that would arrive at or after the bound. */
  predicate DrainsAs(r: seq<Item>, end: DrainEnd, consumed: nat) {
    && consumed <= |r|
    && Elapsed(r, consumed) < DRAIN_TIMEOUT
    && (end.Expired? ==>
          Quiet(r, consumed) &&
          (consumed == |r| || Elapsed(r, consumed + 1) >= DRAIN_TIMEOUT))
    && (!end.Expired? ==>
          0 < consumed && Quiet(r, consumed - 1) &&
          !Ongoing(r[consumed - 1].kind) && EndFor(r[consumed - 1].kind) == end)
  }

  /** Drains the interrupted response `r` (its first item's gap counts
      from the moment the drain starts). */
  method DrainAfterInterrupt(r: seq<Item>) returns (end: DrainEnd, consumed: nat)
    ensures DrainsAs(r, end, consumed)
  {
    consumed := 0;
    var elapsed := 0;
    while consumed < |r|
      invariant consumed <= |r|
      invariant elapsed == Elapsed(r, consumed) < DRAIN_TIMEOUT
      invariant Quiet(r, consumed)
      decreases |r| - consumed
    {
      var it := r[consumed];
      if elapsed + it.gap >= DRAIN_TIMEOUT {
        return Expired, consumed;
      }
      elapsed := elapsed + it.gap;
      consumed := consumed + 1;
      match it.kind
      case Result =>
        return Finished, consumed;
      case EndOfStream =>
        return Closed, consumed;
      case TimedOut =>
        return Swallowed, consumed;
      case Error =>
        return Swallowed, consumed;
      case Content =>
        // shown to the user; the drain goes on
      case Heartbeat =>
    }
    // nothing more ever arrives, so the time bound expires
    end := Expired;
  }

  /** DrainsAs admits exactly one outcome for each stream, so it is a
      complete specification of the drain. */
  lemma DrainsAsUnique(r: seq<Item>, e1: DrainEnd, c1: nat, e2: DrainEnd, c2: nat)
    requires DrainsAs(r, e1, c1) && DrainsAs(r, e2, c2)
    ensures e1 == e2 && c1 == c2
  {
    NotBefore(r, e1, c1, e2, c2);
    NotBefore(r, e2, c2, e1, c1);
  }

  /** No drain outcome stops before another one. */
  lemma NotBefore(r: seq<Item>, e1: DrainEnd, c1: nat, e2: DrainEnd, c2: nat)
    requires DrainsAs(r, e1, c1) && DrainsAs(r, e2, c2)
    ensures c2 <= c1
  {
    if c1 < c2 && e1.Expired? {
      ElapsedMonotone(r, c1 + 1, c2);
    }
  }
}
