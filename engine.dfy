/**
 The simulation clock of run in main.py. Starting at sample int(start*sr),
 each step asks for the detections of the window at the clock (moving the
 clock to the first detection, if there is one, when the decision makers
 adapt), filters
 them against the last-detection table, lets every decision maker answer
 and logs the answers, stamps and gates the surviving candidates, and
 advances the clock by int(time_step*sr) samples. The run stops once the
 clock reaches int((start+duration)*sr) or the length of the first trace.

 The STA/LTA levels, the detection window, the first-detection search and
 the decision makers are not part of this model: they are the functions of
 a Collaborators value.
 */
module Engine {
  import opened Common
  import opened Debounce
  import opened Aggregation
  import opened DecisionMakers
  import opened TriggerLog

  /** What the detection window at one clock reports: the trigger flags,
      each station's average SNR and the candidates, in list order. */
  datatype Snapshot = Snapshot(trigs: Trigs, avgSnr: map<Station, real>, candidates: seq<Candidate>)

  /** The collaborators of run, D being a decision maker's state.
      getDetections sees the window start and the decision makers;
      findFirstDetect gives the first detection time among candidates;
      getAction is a decision maker's answer (its new state and action);
      prevAction its last action; newMaker builds one from its station,
      starting level, neighbours, step size and decay rate; show is str()
      on a float. */
  datatype Collaborators<!D> = Collaborators(
    getDetections: (int, map<Station, D>) -> Snapshot,
    findFirstDetect: seq<Candidate> -> Option<int>,
    getAction: (D, Trigs, real) -> (D, real),
    prevAction: D -> real,
    newMaker: (Station, real, seq<Station>, real, real) -> D,
    show: real -> string)

  /** The parameters of run that the clock and the gate depend on.
      levelStations are the stations of the STA/LTA levels, dataLength is
      the length of the first trace, order is the iteration order of the
      decision-maker dictionary. */
  datatype Settings = Settings(
    sr: real, start: real, duration: real, timeStep: real, resetDuration: real,
    triggerLevel: real, stepSize: real, decayRate: real, minStaAgree: int,
    levelStations: set<Station>, dataLength: nat, order: seq<Station>)

  function StartSample(st: Settings): int { Trunc(st.start * st.sr) }

  function EndSample(st: Settings): int { Trunc((st.start + st.duration) * st.sr) }

  function StepSamples(st: Settings): int { Trunc(st.timeStep * st.sr) }

  /** The reset duration in samples (not truncated). */
  function ResetSamples(st: Settings): real { st.resetDuration * st.sr }

  /** The initial table entry: -(reset_duration + 2), in seconds. */
  function Sentinel(st: Settings): real { -1.0 * (st.resetDuration + 2.0) }

  /** The decision makers adapt only when the step size is not zero. */
  predicate Adaptive(st: Settings) { st.stepSize != 0.0 }

  /** The state carried from step to step: the clock, the decision makers,
      the last-detection table, the accepted arrivals and the log lines. */
  datatype State<D> = State(clock: int, makers: map<Station, D>, lastDetect: LastDetect,
                            arrivals: seq<Arrival>, log: seq<string>)

  /** Why a run stops without a result: a candidate from a station without
      a table entry, a decision maker without an average SNR, or warm-start
      levels that miss a station (each a KeyError in main.py). */
  datatype RunError = UnknownStation | MissingSnr | MissingWarmStart

  /** What run returns, with the log lines it writes. */
  datatype Outcome = Outcome(arrivals: seq<Arrival>, endLevels: map<Station, real>, log: seq<string>)

  predicate InWindow<D>(st: Settings, s: State<D>)
  {
    s.clock < EndSample(st) && s.clock < st.dataLength
  }

  /** The window start a step uses: the clock, or, when the decision makers
      adapt, the first detection of the window at the clock if there is one. */
  function WindowStart<D>(st: Settings, col: Collaborators<D>, t: int, makers: map<Station, D>): int
  {
    if Adaptive(st) then
      match col.findFirstDetect(col.getDetections(t, makers).candidates)
      case Some(u) => u
      case None => t
    else t
  }

  /** Every step ends past the clock it started from: the window start
      (resynchronised or not) plus int(time_step*sr) exceeds the clock.
      A step that fails this leaves the clock where it was or moves it
      back, and main.py may then loop forever. */
  ghost predicate Advancing<D(!new)>(st: Settings, col: Collaborators<D>)
  {
    forall t: int, makers: map<Station, D> :: WindowStart(st, col, t, makers) + StepSamples(st) > t
  }

  /** The decision makers after they answer trigs and avgSnr. */
  function Answered<D>(makers: map<Station, D>, trigs: Trigs, avgSnr: map<Station, real>,
                       getAction: (D, Trigs, real) -> (D, real)): map<Station, D>
    requires makers.Keys <= avgSnr.Keys
  {
    map s | s in makers :: getAction(makers[s], trigs, avgSnr[s]).0
  }

  /** The actions the decision makers give when they answer trigs and avgSnr. */
  function Actions<D>(makers: map<Station, D>, trigs: Trigs, avgSnr: map<Station, real>,
                      getAction: (D, Trigs, real) -> (D, real)): map<Station, real>
    requires makers.Keys <= avgSnr.Keys
  {
    map s | s in makers :: getAction(makers[s], trigs, avgSnr[s]).1
  }

  /** One pass of the loop body of run (main.py:124-159). */
  function Step<D>(st: Settings, col: Collaborators<D>, s: State<D>): (r: Result<State<D>, RunError>)
    requires OrderOf(st.order, s.makers.Keys)
    ensures r.Success? ==> r.value.makers.Keys == s.makers.Keys
    ensures r.Success? ==> r.value.clock == WindowStart(st, col, s.clock, s.makers) + StepSamples(st)
    ensures r.Success? ==> s.arrivals <= r.value.arrivals && s.log <= r.value.log
    ensures r.Success? && !Adaptive(st) ==> r.value.makers == s.makers && r.value.log == s.log
  {
    var t := WindowStart(st, col, s.clock, s.makers);
    var snap := col.getDetections(t, s.makers);
    var cs := snap.candidates;
    if !StationsKnown(s.lastDetect, cs) then Failure(UnknownStation)
    else if Adaptive(st) && !(s.makers.Keys <= snap.avgSnr.Keys) then Failure(MissingSnr)
    else
      var trigs := snap.trigs + ZeroFlags(Suppressed(s.lastDetect, cs, ResetSamples(st), |cs|));
      var last := Table(s.lastDetect, cs, |cs|);
      var kept := Kept(s.lastDetect, cs, ResetSamples(st), |cs|);
      var arrivals := Gate(s.arrivals, kept, st.minStaAgree);
      if Adaptive(st) then
        var actions := Actions(s.makers, trigs, snap.avgSnr, col.getAction);
        var line := Join(LogFields(t, actions, st.order, col.show), ',') + "\n";
        Success(State(t + StepSamples(st), Answered(s.makers, trigs, snap.avgSnr, col.getAction), last,
                      arrivals, s.log + [line]))
      else
        Success(State(t + StepSamples(st), s.makers, last, arrivals, s.log))
  }

  /** The loop of run from state s until the clock leaves the window. */
  function RunFrom<D(!new)>(st: Settings, col: Collaborators<D>, s: State<D>): Result<State<D>, RunError>
    requires Advancing(st, col) && OrderOf(st.order, s.makers.Keys)
    decreases EndSample(st) - s.clock
  {
    if !InWindow(st, s) then Success(s)
    else
      match Step(st, col, s)
      case Failure(e) => Failure(e)
      case Success(next) => RunFrom(st, col, next)
  }

  /** The decision makers of initDecisionMakers, or None on a missing
      warm-start level. */
  function InitialMakers<D>(st: Settings, col: Collaborators<D>, nList: NeighborList, warm: map<Station, real>)
    : Option<map<Station, D>>
  {
    match InitialLevels(nList, st.triggerLevel, warm)
    case None => None
    case Some(levels) =>
      Some(BuildMakers(nList, levels, st.stepSize, st.decayRate, col.newMaker))
  }

  /** The table before the first step: every level station's entry is the
      sentinel (main.py:118-120). */
  function InitialTable(st: Settings): LastDetect
  {
    map s | s in st.levelStations :: Sentinel(st)
  }

  /** The state before the first step. */
  function InitialState<D>(st: Settings, makers: map<Station, D>): State<D>
  {
    State(StartSample(st), makers, InitialTable(st), [], [])
  }

  /** run (main.py:103-164) without its file output: the arrivals, each
      decision maker's last action, and the log lines. */
  function Simulate<D(!new)>(st: Settings, col: Collaborators<D>, nList: NeighborList, warm: map<Station, real>)
    : Result<Outcome, RunError>
    requires Advancing(st, col) && OrderOf(st.order, nList.Keys)
  {
    match InitialMakers(st, col, nList, warm)
    case None => Failure(MissingWarmStart)
    case Some(makers) =>
      match RunFrom(st, col, InitialState(st, makers))
      case Failure(e) => Failure(e)
      case Success(f) =>
        Success(Outcome(f.arrivals, LastActions(f.makers, col.prevAction), f.log))
  }

  /** One pass of the loop body of run (main.py:124-159), with
      removeDetections, updateActions, printActions and the gate as the
      methods that model them. */
  method RunStep<D>(st: Settings, col: Collaborators<D>, s: State<D>) returns (r: Result<State<D>, RunError>)
    requires OrderOf(st.order, s.makers.Keys)
    ensures r == Step(st, col, s)
  {
    var clock, makers, log := s.clock, s.makers, s.log;
    var snap := col.getDetections(clock, makers);
    if Adaptive(st) {
      var actualTime := col.findFirstDetect(snap.candidates);
      if actualTime.Some? {
        clock := actualTime.value;
        snap := col.getDetections(clock, makers);
      }
    }
    assert clock == WindowStart(st, col, s.clock, s.makers);
    if !StationsKnown(s.lastDetect, snap.candidates) {
      return Failure(UnknownStation);
    }
    var trigs, kept, last, happened := RemoveDetections(snap.trigs, snap.candidates, s.lastDetect, ResetSamples(st));
    if Adaptive(st) {
      if !(makers.Keys <= snap.avgSnr.Keys) {
        return Failure(MissingSnr);
      }
      var updated, actions := UpdateActions(trigs, snap.avgSnr, makers, col.getAction);
      assert actions == Actions(makers, trigs, snap.avgSnr, col.getAction);
      assert updated == Answered(makers, trigs, snap.avgSnr, col.getAction);
      makers := updated;
      var line := PrintActions(clock, actions, st.order, col.show);
      log := log + [line];
    }
    var stamped, arrivals := Aggregate(s.arrivals, kept, st.minStaAgree);
    clock := clock + StepSamples(st);
    return Success(State(clock, makers, last, arrivals, log));
  }

  /** run (main.py:103-164): set up the decision makers and the table, run
      the steps until the clock leaves the window, and collect each
      decision maker's last action; the result is the one Simulate
      describes. */
  method Run<D(!new)>(st: Settings, col: Collaborators<D>, nList: NeighborList, warm: map<Station, real>)
    returns (r: Result<Outcome, RunError>)
    requires Advancing(st, col) && OrderOf(st.order, nList.Keys)
    ensures r == Simulate(st, col, nList, warm)
  {
    var init := InitDecisionMakers(nList, st.triggerLevel, st.stepSize, st.decayRate, warm, col.newMaker);
    if init.Failure? {
      return Failure(MissingWarmStart);
    }
    var s := InitialState(st, init.value);
    ghost var start := s;
    while InWindow(st, s)
      invariant s.makers.Keys == nList.Keys
      invariant RunFrom(st, col, s) == RunFrom(st, col, start)
      decreases EndSample(st) - s.clock
    {
      var next := RunStep(st, col, s);
      if next.Failure? {
        return Failure(next.error);
      }
      s := next.value;
    }
    assert RunFrom(st, col, start) == Success(s);
    var endLevels := EndLevels(s.makers, col.prevAction);
    return Success(Outcome(s.arrivals, endLevels, s.log));
  }

  /** What every run from s keeps: the decision makers' stations, the
      arrivals and the log only grow, arrivals stay whole gated batches,
      and the run ends with the clock outside the window. */
  lemma {:induction false} RunFromFacts<D(!new)>(st: Settings, col: Collaborators<D>, s: State<D>)
    requires Advancing(st, col) && OrderOf(st.order, s.makers.Keys)
    requires RunFrom(st, col, s).Success?
    ensures var f := RunFrom(st, col, s).value;
            && f.makers.Keys == s.makers.Keys
            && s.arrivals <= f.arrivals && s.log <= f.log
            && !InWindow(st, f)
            && f.clock >= s.clock
            && (Batches(s.arrivals, st.minStaAgree) ==> Batches(f.arrivals, st.minStaAgree))
    decreases EndSample(st) - s.clock
  {
    if InWindow(st, s) {
      var next := Step(st, col, s).value;
      RunFromFacts(st, col, next);
      var kept := Kept(s.lastDetect, col.getDetections(WindowStart(st, col, s.clock, s.makers), s.makers).candidates,
                       ResetSamples(st), |col.getDetections(WindowStart(st, col, s.clock, s.makers), s.makers).candidates|);
      if Batches(s.arrivals, st.minStaAgree) {
        GateKeepsBatches(s.arrivals, kept, st.minStaAgree);
      }
    }
  }

  /** With a zero step size the decision makers never change, nothing is
      logged, and the clock moves on a fixed grid of int(time_step*sr)
      samples. */
  lemma {:induction false} FixedWithoutAdaptation<D(!new)>(st: Settings, col: Collaborators<D>, s: State<D>)
    requires Advancing(st, col) && OrderOf(st.order, s.makers.Keys)
    requires !Adaptive(st) && RunFrom(st, col, s).Success?
    ensures var f := RunFrom(st, col, s).value;
            && f.makers == s.makers && f.log == s.log
            && StepSamples(st) >= 1
            && (f.clock - s.clock) % StepSamples(st) == 0
    decreases EndSample(st) - s.clock
  {
    assert WindowStart(st, col, s.clock, s.makers) + StepSamples(st) > s.clock;
    if InWindow(st, s) {
      var next := Step(st, col, s).value;
      FixedWithoutAdaptation(st, col, next);
      var f := RunFrom(st, col, s).value;
      assert next.clock == s.clock + StepSamples(st);
      MultipleShift(f.clock - next.clock, StepSamples(st));
    }
  }

  lemma MultipleShift(d: int, k: int)
    requires k >= 1 && d % k == 0
    ensures (d + k) % k == 0
  {
    var q, q2, r := d / k, (d + k) / k, (d + k) % k;
    assert d == q * k;
    assert d + k == q2 * k + r;
    var m := q + 1 - q2;
    assert m * k == q * k + k - q2 * k;
    assert r == m * k;
  }

  /** What run promises: every decision maker of the neighbourhood list
      reports an end level, and every arrival belongs to a whole batch of
      nDef candidates from one step with nDef >= minStaAgree. With a zero
      step size the end levels are the starting decision makers' actions
      and nothing is logged. */
  lemma SimulateFacts<D(!new)>(st: Settings, col: Collaborators<D>, nList: NeighborList, warm: map<Station, real>)
    requires Advancing(st, col) && OrderOf(st.order, nList.Keys)
    requires Simulate(st, col, nList, warm).Success?
    ensures var o := Simulate(st, col, nList, warm).value;
            && o.endLevels.Keys == nList.Keys
            && Batches(o.arrivals, st.minStaAgree)
            && (forall i :: 0 <= i < |o.arrivals| ==> o.arrivals[i].nDef >= st.minStaAgree)
            && (!Adaptive(st) ==>
                  o.log == [] &&
                  o.endLevels == LastActions(InitialMakers(st, col, nList, warm).value, col.prevAction))
  {
    var makers := InitialMakers(st, col, nList, warm).value;
    var start := InitialState(st, makers);
    RunFromFacts(st, col, start);
    var o := Simulate(st, col, nList, warm).value;
    BatchesAgree(o.arrivals, st.minStaAgree);
    if !Adaptive(st) {
      FixedWithoutAdaptation(st, col, start);
    }
  }

  /** Each successful step moves the clock forward. */
  lemma StepAdvances<D(!new)>(st: Settings, col: Collaborators<D>, s: State<D>)
    requires Advancing(st, col) && OrderOf(st.order, s.makers.Keys)
    requires Step(st, col, s).Success?
    ensures Step(st, col, s).value.clock > s.clock
  {
    assert WindowStart(st, col, s.clock, s.makers) + StepSamples(st) > s.clock;
  }

  /** The sentinel is in seconds while the reset duration is in samples:
      a station's first candidate is deleted exactly when its sample time
      is below reset_duration * sr - reset_duration - 2, although no
      earlier detection exists. */
  lemma SentinelSuppressesEarly(st: Settings, c: Candidate)
    requires c.station in st.levelStations
    ensures Kept(InitialTable(st), [c], ResetSamples(st), 1) == [] <==>
            (c.time as real) < st.resetDuration * st.sr - st.resetDuration - 2.0
  {
  }
}
