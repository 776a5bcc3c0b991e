/** Candle classification (signal_engine/monitor.py) and the lifecycle one signal
    goes through when closed one-minute candles are polled. */
module Monitor {
  import opened Common

  datatype Touch = EntryHit | Monitoring | TpHit | SlHit | Ambiguous

  /** Classify one closed candle against the exit levels of an open signal. */
  function EvaluateCandle(l: Levels, high: real, low: real): (t: Touch)
    ensures !t.EntryHit?
  {
    var tpHit := if l.direction.Long? then high >= l.takeProfit else low <= l.takeProfit;
    var slHit := if l.direction.Long? then low <= l.stopLoss else high >= l.stopLoss;
    if tpHit && slHit then Ambiguous else if tpHit then TpHit else if slHit then SlHit else Monitoring
  }

  /** Classify one closed candle against the entry of a pending signal. */
  function EvaluateEntry(l: Levels, high: real, low: real): (t: Touch)
    ensures !t.TpHit? && !t.SlHit?
  {
    var entryHit := if l.direction.Long? then high >= l.entry else low <= l.entry;
    var touchedExit :=
      if l.direction.Long? then high >= l.takeProfit || low <= l.stopLoss
      else low <= l.takeProfit || high >= l.stopLoss;
    if entryHit && touchedExit then Ambiguous else if entryHit then EntryHit else Monitoring
  }

  predicate IsExit(t: Touch) {
    t.TpHit? || t.SlHit?
  }

  /** `price` is at or past `level` in the direction a winning trade moves. */
  predicate Past(l: Levels, price: real, level: real) {
    if l.direction.Long? then price >= level else price <= level
  }

  predicate Against(l: Levels, price: real, level: real) {
    if l.direction.Long? then price <= level else price >= level
  }

  /** Some price between the candle's low and high reached the level. */
  ghost predicate ReachedPast(l: Levels, high: real, low: real, level: real) {
    exists price :: low <= price <= high && Past(l, price, level)
  }

  ghost predicate ReachedAgainst(l: Levels, high: real, low: real, level: real) {
    exists price :: low <= price <= high && Against(l, price, level)
  }

  /** What the classifications say about the prices inside the candle: a hit means some
      price reached that level and no price reached the other, and both reached means the
      order is unknown. */
  lemma ClassificationReadsPrices(l: Levels, high: real, low: real)
    requires low <= high
    ensures
      var (target, stop) := (ReachedPast(l, high, low, l.takeProfit), ReachedAgainst(l, high, low, l.stopLoss));
      && (EvaluateCandle(l, high, low).TpHit? <==> target && !stop)
      && (EvaluateCandle(l, high, low).SlHit? <==> stop && !target)
      && (EvaluateCandle(l, high, low).Ambiguous? <==> target && stop)
    ensures
      var entered := ReachedPast(l, high, low, l.entry);
      var exited := ReachedPast(l, high, low, l.takeProfit) || ReachedAgainst(l, high, low, l.stopLoss);
      && (EvaluateEntry(l, high, low).EntryHit? <==> entered && !exited)
      && (EvaluateEntry(l, high, low).Ambiguous? <==> entered && exited)
  {
    ExtremesDecide(l, high, low, l.takeProfit);
    ExtremesDecide(l, high, low, l.stopLoss);
    ExtremesDecide(l, high, low, l.entry);
  }

  lemma ExtremesDecide(l: Levels, high: real, low: real, level: real)
    requires low <= high
    ensures ReachedPast(l, high, low, level) <==> Past(l, if l.direction.Long? then high else low, level)
    ensures ReachedAgainst(l, high, low, level) <==> Against(l, if l.direction.Long? then low else high, level)
  {
  }

  /** Reflecting prices about zero exchanges LONG and SHORT. */
  function Mirror(l: Levels): Levels {
    Levels(if l.direction.Long? then Short else Long, -l.entry, -l.stopLoss, -l.takeProfit)
  }

  lemma ClassificationIsMirrorSymmetric(l: Levels, high: real, low: real)
    ensures EvaluateEntry(Mirror(l), -low, -high) == EvaluateEntry(l, high, low)
    ensures EvaluateCandle(Mirror(l), -low, -high) == EvaluateCandle(l, high, low)
  {
  }

  /** A candle that enters cleanly never also exits: this is why polling the entry
      candle once more cannot close the position it just opened. */
  lemma CleanEntryIsNoExit(l: Levels, high: real, low: real)
    requires EvaluateEntry(l, high, low).EntryHit?
    ensures EvaluateCandle(l, high, low).Monitoring?
  {
  }

  datatype Phase = Pending | Opened | Closed(exit: Touch, price: real)

  /** One poll of one signal: `_evaluate_pending_entry` then `_evaluate_open_position`. */
  function Poll(l: Levels, p: Phase, c: Candle): Phase {
    match p
    case Pending => if EvaluateEntry(l, c.high, c.low).EntryHit? then Opened else Pending
    case Opened =>
      var t := EvaluateCandle(l, c.high, c.low);
      if IsExit(t) then Closed(t, if t.TpHit? then l.takeProfit else l.stopLoss) else Opened
    case Closed(_, _) => p
  }

  function PollAll(l: Levels, p: Phase, cs: seq<Candle>): Phase {
    if cs == [] then p else Poll(l, PollAll(l, p, cs[..|cs| - 1]), cs[|cs| - 1])
  }

  lemma PollAgainChangesNothing(l: Levels, p: Phase, c: Candle)
    ensures Poll(l, Poll(l, p, c), c) == Poll(l, p, c)
  {
    if p.Pending? && EvaluateEntry(l, c.high, c.low).EntryHit? {
      CleanEntryIsNoExit(l, c.high, c.low);
    }
  }

  lemma {:induction false} PollAllConcat(l: Levels, p: Phase, a: seq<Candle>, b: seq<Candle>)
    ensures PollAll(l, p, a + b) == PollAll(l, PollAll(l, p, a), b)
  {
    if b == [] {
      assert a + b == a;
    } else {
      var n := |b| - 1;
      PollAllConcat(l, p, a, b[..n]);
      assert (a + b)[..|a + b| - 1] == a + b[..n];
    }
  }

  /** Each candle of `cs` polled as often as `times` says. */
  function Stutter(cs: seq<Candle>, times: seq<nat>): seq<Candle>
    requires |cs| == |times|
  {
    if cs == [] then []
    else Stutter(cs[..|cs| - 1], times[..|cs| - 1]) + seq(times[|cs| - 1], _ => cs[|cs| - 1])
  }

  lemma {:induction false} PollRepeated(l: Levels, p: Phase, c: Candle, n: nat)
    requires n >= 1
    ensures PollAll(l, p, seq(n, _ => c)) == Poll(l, p, c)
  {
    var cs := seq(n, _ => c);
    if n == 1 {
      assert cs[..0] == [];
    } else {
      assert cs[..n - 1] == seq(n - 1, _ => c);
      PollRepeated(l, p, c, n - 1);
      PollAgainChangesNothing(l, p, c);
    }
  }

  /** Polling every candle any positive number of times ends in the same phase,
      with the same exit kind and close price, as polling each candle once. */
  lemma {:induction false} PollingIsStutterInvariant(l: Levels, p: Phase, cs: seq<Candle>, times: seq<nat>)
    requires |cs| == |times|
    requires forall i :: 0 <= i < |times| ==> times[i] >= 1
    ensures PollAll(l, p, Stutter(cs, times)) == PollAll(l, p, cs)
  {
    if cs != [] {
      var n := |cs| - 1;
      PollingIsStutterInvariant(l, p, cs[..n], times[..n]);
      PollAllConcat(l, p, Stutter(cs[..n], times[..n]), seq(times[n], _ => cs[n]));
      PollRepeated(l, PollAll(l, p, cs[..n]), cs[n], times[n]);
    }
  }

  /** A close never comes without an open: some earlier prefix was `Opened`, and the
      close price is the configured level of the exit kind. */
  lemma {:induction false} CloseFollowsOpen(l: Levels, cs: seq<Candle>)
    requires PollAll(l, Pending, cs).Closed?
    ensures exists k :: 0 <= k < |cs| && PollAll(l, Pending, cs[..k]).Opened?
    ensures PollAll(l, Pending, cs).price == if PollAll(l, Pending, cs).exit.TpHit? then l.takeProfit else l.stopLoss
    ensures IsExit(PollAll(l, Pending, cs).exit)
  {
    var n := |cs| - 1;
    var before := PollAll(l, Pending, cs[..n]);
    if before.Closed? {
      CloseFollowsOpen(l, cs[..n]);
      var k :| 0 <= k < n && PollAll(l, Pending, cs[..n][..k]).Opened?;
      assert cs[..n][..k] == cs[..k];
    } else {
      assert before.Opened?;
    }
  }
}
