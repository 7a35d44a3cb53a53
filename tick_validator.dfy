/** The tick sanity predicate that the native validator library exports:
    a tick is accepted when its bid is positive, its ask lies above the bid
    and its spread in points is positive. */
module TickValidator {
  import opened Bars
  import opened BarMetrics

  /** `validate_tick(bid, ask, time, spread)`. The `time` argument is taken
      and never read. */
  function ValidateTick(bid: real, ask: real, time: real, spread: int): (ok: bool)
    ensures ok ==> 0.0 < ask && 0.0 < ask - bid
    ensures spread <= 0 || ask == bid || bid <= 0.0 ==> !ok
  {
    bid > 0.0 && ask > bid && spread > 0
  }

  /** Acceptance, stated through the quoted spread `ask - bid` rather than an
      ordering of the quotes: positive bid, positive quoted spread and
      positive spread in points, nothing else. */
  lemma AcceptedExactly(bid: real, ask: real, time: real, spread: int)
    ensures ValidateTick(bid, ask, time, spread) <==> 0.0 < bid && 0.0 < ask - bid && 0 < spread
  {
  }

  /** The verdict never depends on the tick's time. */
  lemma TimeIgnored(bid: real, ask: real, t1: real, t2: real, spread: int)
    ensures ValidateTick(bid, ask, t1, spread) == ValidateTick(bid, ask, t2, spread)
  {
  }

  /** A bar whose quotes the validator would accept. */
  predicate QuotesAccepted(b: Bar) {
    b.bid.Some? && b.ask.Some? && ValidateTick(b.bid.value, b.ask.value, b.time as real, b.spread)
  }

  /** A bar with a negative quoted spread, the one the accuracy check counts
      against the batch, is always rejected by the validator. */
  lemma NegativeSpreadRejected(b: Bar)
    requires NegativeSpread(b)
    ensures !QuotesAccepted(b)
  {
  }

  /** A batch of bars that all pass the tick validator has no negative spread,
      so its accuracy is 100 and the accuracy check passes. */
  lemma {:induction false} ValidTicksKeepAccuracy(bars: seq<Bar>)
    requires |bars| > 0
    requires forall i :: 0 <= i < |bars| ==> QuotesAccepted(bars[i])
    ensures NegativeSpreadCount(bars) == 0
    ensures AccuracyPct(bars) == 100.0
  {
    forall i | 0 <= i < |bars| ensures !NegativeSpread(bars[i]) {
      if NegativeSpread(bars[i]) {
        NegativeSpreadRejected(bars[i]);
      }
    }
  }
}
