/** What one scheduler tick answers, calls and writes, exactly, in terms of what it read. */
module TickOutcomes {
  import opened Common
  import opened Scheduler

  /** The tick is executed, and its detection found a candle newer than the last processed. */
  predicate NewCandle(s: State, i: TickInput) {
    && !Skips(s, i) && i.detection.NewestClosed? && i.markerReadable
    && (LastProcessed(s).Some? ==> i.detection.ts > LastProcessed(s).value)
  }

  /** No active signal and no release window: the analysis window is fetched. */
  predicate Passes(s: State, i: TickInput) {
    NewCandle(s, i) && i.gate.GateIdle? && !i.blackout
  }

  /** It held at least 200 candles, and the indicators could be computed. */
  predicate Reaches(s: State, i: TickInput) {
    Passes(s, i) && i.window.WindowOf? && i.window.count >= 200 && i.indicatorsOk
  }

  predicate Writable(i: TickInput, ts: int) {
    i.markerWritable && ts > 0
  }

  lemma ExecutedTick(s: State, i: TickInput)
    ensures TickStep(s, i).1 == if Skips(s, i) then Stopped(DataUnavailable) else TickBody(s, i)
  {
  }

  /** THE AI CALL, exactly: a new candle, no active signal, no release window, at least 200
      candles and computable indicators; then it is the window's newest candle. */
  lemma AiIsCalledExactlyWhen(s: State, i: TickInput)
    ensures TickStep(s, i).1.analyzed == if Reaches(s, i) then Some(i.window.newest) else None
  {
    ExecutedTick(s, i);
  }

  /** So an event blackout locks the AI on every tick. */
  lemma BlackoutLocksTheAi(s: State, i: TickInput)
    requires i.blackout
    ensures TickStep(s, i).1.analyzed.None? && !TickStep(s, i).1.created
  {
    ExecutedTick(s, i);
  }

  /** BLACKOUT, exactly: a new candle, no active signal, a release window, a writable mark. */
  lemma BlackoutExactlyWhen(s: State, i: TickInput)
    ensures TickStep(s, i).1.outcome == Some(EventBlackout)
       <==> NewCandle(s, i) && i.gate.GateIdle? && i.blackout && Writable(i, i.detection.ts)
  {
    ExecutedTick(s, i);
  }

  /** Which answer stops a tick before the AI is called. */
  lemma EarlyOutcomesExactlyWhen(s: State, i: TickInput)
    ensures
      var o := TickStep(s, i).1.outcome;
      var found := !Skips(s, i) && i.detection.NewestClosed?;
      && (o == Some(AlreadyProcessed) <==> found && i.markerReadable && LastProcessed(s) == Some(i.detection.ts))
      && (o == Some(NoNewCandle)
          <==> found && i.markerReadable && LastProcessed(s).Some? && i.detection.ts < LastProcessed(s).value)
      && (o == Some(BlockedActiveSignal)
          <==> (NewCandle(s, i) && i.gate.GateActive?) || (Reaches(s, i) && i.reply == EngineBlocked(GateActive)))
      && (o == None
          <==> || (found && !i.markerReadable) || (NewCandle(s, i) && i.gate.GateRaises?)
               || (Reaches(s, i) && i.reply == EngineBlocked(GateRaises)))
      && (o == Some(DataUnavailable)
          <==> || Skips(s, i) || i.detection.DetectionRejected? || i.detection.NothingClosed?
               || (Passes(s, i) && (i.window.WindowRejected? || (i.window.WindowOf? && !Reaches(s, i))))
               || (Reaches(s, i) && i.reply.ContextInvalid?))
  {
    ExecutedTick(s, i);
  }

  /** Which answer an analysis ends with. */
  lemma AnalysisOutcomesExactlyWhen(s: State, i: TickInput)
    ensures
      var o := TickStep(s, i).1.outcome;
      && (o == Some(Created) <==> Reaches(s, i) && i.reply.EngineCreated?)
      && (o == Some(Wait) <==> Reaches(s, i) && i.reply.EngineWait? && Writable(i, i.window.newest))
      && (o == Some(Rejected) <==> Reaches(s, i) && i.reply.EngineRejected? && Writable(i, i.window.newest))
      && (o == Some(RateLimited) <==> Reaches(s, i) && i.reply.ProviderLimited? && Writable(i, i.window.newest))
  {
    ExecutedTick(s, i);
  }

  /** ERROR, exactly: a broken fetch, an analysis or engine failure, or a lost mark. */
  lemma ErrorExactlyWhen(s: State, i: TickInput)
    ensures TickStep(s, i).1.outcome == Some(ErrorOutcome)
       <==> !Skips(s, i)
            && (|| i.detection.DetectionBroke?
                || (NewCandle(s, i) && i.gate.GateIdle? && i.blackout && !Writable(i, i.detection.ts))
                || (Passes(s, i) && i.window.WindowBroke?)
                || (Reaches(s, i)
                    && (|| i.reply in {AnalysisFailed, EngineRaised, EngineFailed, EngineCreatedNothing}
                        || i.reply == EngineBlocked(GateIdle)
                        || (i.reply in {ProviderLimited, EngineWait, EngineRejected}
                            && !Writable(i, i.window.newest)))))
  {
    ExecutedTick(s, i);
  }

  /** WHAT A TICK WRITES, exactly: the marker after a finished analysis or a blackout whose
      time can be written, the newest signal's market time after a created signal. */
  lemma TickWritesExactly(s: State, i: TickInput)
    ensures
      var next := TickStep(s, i).0;
      var finished := Reaches(s, i) && i.reply in {ProviderLimited, EngineWait, EngineRejected, EngineCreated};
      && next.marker == (if finished && Writable(i, i.window.newest) then Some(i.window.newest)
                         else if NewCandle(s, i) && i.gate.GateIdle? && i.blackout && Writable(i, i.detection.ts)
                         then Some(i.detection.ts) else s.marker)
      && next.latest == (if Reaches(s, i) && i.reply.EngineCreated? then Some(i.window.newest) else s.latest)
  {
    ExecutedTick(s, i);
  }

  /** A NEW PROCESS keeps the tables and forgets the breaker: its first tick always runs, and
      a first failure alone does not open a breaker that waits for two or more. */
  lemma RestartForgetsTheBreaker(s: State, i: TickInput)
    ensures Restart(s).marker == s.marker && Restart(s).latest == s.latest
    ensures TickStep(Restart(s), i).1.analyzed == if Reaches(Restart(s), i) then Some(i.window.newest) else None
    ensures !Skips(Restart(s), i)
    ensures i.breakCount >= 2 ==> TickStep(Restart(s), i).0.openUntil.None? && TickStep(Restart(s), i).0.streak <= 1
  {
    AiIsCalledExactlyWhen(Restart(s), i);
    hide TickBody;
  }
}
