/** The 1H analysis scheduler (signal_engine/scheduler.py): one tick detects the newest
    closed candle, passes the gates, may call the AI once and marks the candle; a circuit
    breaker wraps the tick. The outside world is the tick's input. */
module Scheduler {
  import opened Common

  datatype Outcome =
    | NoNewCandle | AlreadyProcessed | BlockedActiveSignal | Wait | Created | DataUnavailable
    | Rejected | RateLimited | EventBlackout | ErrorOutcome

  datatype Detection = DetectionRejected | DetectionBroke | NothingClosed | NewestClosed(ts: int)

  datatype Gate = GateRaises | GateActive | GateIdle

  datatype Window = WindowRejected | WindowBroke | WindowOf(count: nat, newest: int)

  /** What the analyzer and the signal engine answer for one analysis. */
  datatype Reply =
    | ContextInvalid | ProviderLimited | AnalysisFailed
    | EngineRaised | EngineWait | EngineRejected | EngineFailed
    | EngineCreated | EngineCreatedNothing | EngineBlocked(blocker: Gate)

  /** Everything one tick reads: clock, breaker settings, feeds, gates, replies, and
      whether the marker can be read and written. */
  datatype TickInput = TickInput(
    now: int, breakCount: int, cooldownMs: int, detection: Detection, markerReadable: bool,
    gate: Gate, blackout: bool, window: Window, indicatorsOk: bool, reply: Reply, markerWritable: bool)

  const MIN_REQUIRED_CANDLES := 200

  /** `marker` and `latest` (market time of the newest signal) live in the database;
      the streak and the breaker die with the process. */
  datatype State = State(marker: Option<int>, latest: Option<int>, streak: nat, openUntil: Option<int>)

  function LastProcessed(s: State): Option<int> {
    if s.marker.Some? then s.marker else s.latest
  }

  /** What a tick body did; `outcome` is `None` when an exception leaves the tick. */
  datatype Body = Body(outcome: Option<Outcome>, analyzed: Option<int>, marked: Option<int>, created: bool)

  function Stopped(outcome: Outcome): Body {
    Body(Some(outcome), None, None, false)
  }

  const RAISED := Body(None, None, None, false)

  /** `record_processed_candle` refuses a non-positive timestamp. */
  predicate CanMark(i: TickInput, ts: int) {
    i.markerWritable && ts > 0
  }

  function Answer(i: TickInput, ts: int): Body {
    var marking := (o: Outcome) =>
      if CanMark(i, ts)
      then Body(Some(o), Some(ts), Some(ts), false)
      else Body(Some(ErrorOutcome), Some(ts), None, false);
    match i.reply
    case ContextInvalid => Body(Some(DataUnavailable), Some(ts), None, false)
    case ProviderLimited => marking(RateLimited)
    case AnalysisFailed => Body(Some(ErrorOutcome), Some(ts), None, false)
    case EngineRaised => Body(Some(ErrorOutcome), Some(ts), None, false)
    case EngineWait => marking(Wait)
    case EngineRejected => marking(Rejected)
    case EngineFailed => Body(Some(ErrorOutcome), Some(ts), None, false)
    case EngineCreated => Body(Some(Created), Some(ts), if CanMark(i, ts) then Some(ts) else None, true)
    case EngineCreatedNothing => Body(Some(ErrorOutcome), Some(ts), None, false)
    case EngineBlocked(blocker) =>
      Body(if blocker.GateRaises? then None
           else if blocker.GateActive? then Some(BlockedActiveSignal) else Some(ErrorOutcome),
           Some(ts), None, false)
  }

  function AfterDetection(i: TickInput, detected: int): Body {
    if i.gate.GateRaises? then RAISED
    else if i.gate.GateActive? then Stopped(BlockedActiveSignal)
    else if i.blackout then
      if CanMark(i, detected) then Body(Some(EventBlackout), None, Some(detected), false) else Stopped(ErrorOutcome)
    else
      match i.window
      case WindowRejected => Stopped(DataUnavailable)
      case WindowBroke => Stopped(ErrorOutcome)
      case WindowOf(count, newest) =>
        if count < MIN_REQUIRED_CANDLES || !i.indicatorsOk then Stopped(DataUnavailable) else Answer(i, newest)
  }

  function TickBody(s: State, i: TickInput): Body {
    match i.detection
    case DetectionRejected => Stopped(DataUnavailable)
    case DetectionBroke => Stopped(ErrorOutcome)
    case NothingClosed => Stopped(DataUnavailable)
    case NewestClosed(ts) =>
      if !i.markerReadable then RAISED
      else
        var last := LastProcessed(s);
        if last.Some? && ts == last.value then Stopped(AlreadyProcessed)
        else if last.Some? && ts < last.value then Stopped(NoNewCandle)
        else AfterDetection(i, ts)
  }

  predicate Skips(s: State, i: TickInput) {
    i.breakCount > 0 && s.openUntil.Some? && i.now < s.openUntil.value
  }

  /** The tables after a body: the marker it wrote, the signal it created. */
  function Persist(s: State, b: Body): State {
    s.(marker := if b.marked.Some? then b.marked else s.marker, latest := if b.created then b.analyzed else s.latest)
  }

  function Breaker(s: State, i: TickInput, b: Body): State {
    if i.breakCount <= 0 then s
    else if b.outcome.None? then s.(openUntil := None)
    else if b.outcome.value.ErrorOutcome? then
      s.(streak := s.streak + 1, openUntil := if s.streak + 1 >= i.breakCount then Some(i.now + i.cooldownMs) else None)
    else s.(streak := 0, openUntil := None)
  }

  /** One whole tick. A skipped tick touches nothing and reports DATA_UNAVAILABLE. */
  function TickStep(s: State, i: TickInput): (State, Body) {
    if Skips(s, i) then (s, Stopped(DataUnavailable)) else
      var b := TickBody(s, i);
      (Breaker(Persist(s, b), i, b), b)
  }

  /** A new process over the same database. */
  function Restart(s: State): State {
    s.(streak := 0, openUntil := None)
  }

  // --- The scheduler object ---------------------------------------------------

  /** The two rows of the database the scheduler depends on. */
  class SchedulerStore {
    var marker: Option<int>
    var latestMarketTs: Option<int>

    constructor ()
      ensures marker == None && latestMarketTs == None
    {
      marker, latestMarketTs := None, None;
    }

    method RecordProcessedCandle(ts: int, writable: bool) returns (ok: bool)
      modifies this`marker
      ensures ok == (writable && ts > 0)
      ensures marker == if ok then Some(ts) else old(marker)
    {
      if ts <= 0 || !writable {
        return false;
      }
      marker := Some(ts);
      return true;
    }
  }

  class OneHourScheduler {
    const store: SchedulerStore
    var errorStreak: nat
    var breakerOpenUntilMs: Option<int>
    /** The candles handed to the analyzer so far, in order. */
    var analyzedCandles: seq<int>

    function Now(): State
      reads this, store
    {
      State(store.marker, store.latestMarketTs, errorStreak, breakerOpenUntilMs)
    }

    /** A process starting over an existing database. */
    constructor (store: SchedulerStore)
      ensures this.store == store && Now() == Restart(Now()) && analyzedCandles == []
    {
      this.store := store;
      errorStreak, breakerOpenUntilMs, analyzedCandles := 0, None, [];
    }

    method LastProcessedCandle() returns (last: Option<int>)
      ensures last == LastProcessed(Now())
    {
      if store.marker.Some? {
        return store.marker;
      }
      return store.latestMarketTs;
    }

    method Tick(i: TickInput) returns (outcome: Option<Outcome>)
      modifies this, store
      ensures
        var (next, body) := TickStep(old(Now()), i);
        && Now() == next && outcome == body.outcome
        && analyzedCandles == old(analyzedCandles) + if body.analyzed.Some? then [body.analyzed.value] else []
    {
      if i.breakCount > 0 && breakerOpenUntilMs.Some? {
        if i.now < breakerOpenUntilMs.value {
          return Some(DataUnavailable);
        }
        breakerOpenUntilMs := None;
      }
      outcome := TickLocked(i);
      if i.breakCount > 0 && outcome.Some? {
        if outcome.value.ErrorOutcome? {
          errorStreak := errorStreak + 1;
          if errorStreak >= i.breakCount {
            breakerOpenUntilMs := Some(i.now + i.cooldownMs);
          }
        } else if errorStreak > 0 {
          errorStreak := 0;
          breakerOpenUntilMs := None;
        }
      }
    }

    method Detect(i: TickInput) returns (proceed: Option<int>, outcome: Option<Outcome>)
      ensures proceed.Some? ==>
                i.detection == NewestClosed(proceed.value) && TickBody(Now(), i) == AfterDetection(i, proceed.value)
      ensures proceed.None? ==> TickBody(Now(), i) == Body(outcome, None, None, false)
    {
      match i.detection {
        case DetectionRejected => return None, Some(DataUnavailable);
        case DetectionBroke => return None, Some(ErrorOutcome);
        case NothingClosed => return None, Some(DataUnavailable);
        case NewestClosed(ts) =>
          if !i.markerReadable {
            return None, None;
          }
          var marker := LastProcessedCandle();
          if marker.Some? {
            if ts == marker.value {
              return None, Some(AlreadyProcessed);
            }
            if ts < marker.value {
              return None, Some(NoNewCandle);
            }
          }
          return Some(ts), None;
      }
    }

    /** The serialized body: gates, window, analysis, marking. */
    method TickLocked(i: TickInput) returns (outcome: Option<Outcome>)
      modifies this`analyzedCandles, store
      ensures
        var body := TickBody(old(Now()), i);
        && Now() == Persist(old(Now()), body) && outcome == body.outcome
        && analyzedCandles == old(analyzedCandles) + if body.analyzed.Some? then [body.analyzed.value] else []
    {
      var proceed, stopped := Detect(i);
      if proceed.None? {
        return stopped;
      }
      var detectionTs := proceed.value;
      if i.gate.GateRaises? {
        return None;
      }
      if i.gate.GateActive? {
        return Some(BlockedActiveSignal);
      }
      if i.blackout {
        outcome := MarkThen(i, detectionTs, EventBlackout);
        return;
      }
      if !i.window.WindowOf? {
        return Some(if i.window.WindowRejected? then DataUnavailable else ErrorOutcome);
      }
      if i.window.count < MIN_REQUIRED_CANDLES || !i.indicatorsOk {
        return Some(DataUnavailable);
      }
      outcome := Analyze(i, i.window.newest);
    }

    /** Success is reported only for a candle that is really recorded. */
    method MarkThen(i: TickInput, ts: int, success: Outcome) returns (outcome: Option<Outcome>)
      modifies store`marker
      ensures outcome == Some(if CanMark(i, ts) then success else ErrorOutcome)
      ensures store.marker == if CanMark(i, ts) then Some(ts) else old(store.marker)
    {
      var marked := store.RecordProcessedCandle(ts, i.markerWritable);
      return Some(if marked then success else ErrorOutcome);
    }

    /** One analyzer call and what its answer leads to. */
    method Analyze(i: TickInput, analysisTs: int) returns (outcome: Option<Outcome>)
      modifies this`analyzedCandles, store
      ensures
        var body := Answer(i, analysisTs);
        && Now() == Persist(old(Now()), body) && outcome == body.outcome
        && analyzedCandles == old(analyzedCandles) + [analysisTs]
    {
      analyzedCandles := analyzedCandles + [analysisTs];
      match i.reply {
        case ContextInvalid => return Some(DataUnavailable);
        case EngineCreated =>
          store.latestMarketTs := Some(analysisTs);
          var _ := store.RecordProcessedCandle(analysisTs, i.markerWritable);
          return Some(Created);
        case EngineBlocked(blocker) =>
          if blocker.GateRaises? {
            return None;
          }
          return Some(if blocker.GateActive? then BlockedActiveSignal else ErrorOutcome);
        case ProviderLimited => outcome := MarkThen(i, analysisTs, RateLimited);
        case EngineWait => outcome := MarkThen(i, analysisTs, Wait);
        case EngineRejected => outcome := MarkThen(i, analysisTs, Rejected);
        case AnalysisFailed => return Some(ErrorOutcome);
        case EngineRaised => return Some(ErrorOutcome);
        case EngineFailed => return Some(ErrorOutcome);
        case EngineCreatedNothing => return Some(ErrorOutcome);
      }
    }
  }
}
