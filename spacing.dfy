/**
 The debounce guarantee over a whole run of main.py. removeDetections keeps
 a candidate only when its station last fired at least the reset duration
 earlier, and the table it consults carries over from step to step. So,
 as long as each station's candidate times never decrease over the whole
 run, any two arrivals of one station that run returns are at least the
 reset duration apart, whichever steps they come from.

 The proof follows every candidate the steps see, in order: the table is
 always the table after all of them, and every arrival is one of them.
 */
module Spacing {
  import opened Common
  import opened Debounce
  import opened Aggregation
  import opened DecisionMakers
  import opened TriggerLog
  import opened Engine

  /** Any two arrivals of one station are at least reset apart. */
  predicate ArrivalsSpaced(arrs: seq<Arrival>, reset: real)
  {
    forall a, b :: 0 <= a < b < |arrs| && arrs[a].station == arrs[b].station ==>
      arrs[b].time as real - arrs[a].time as real >= reset
  }

  /** Every arrival has the station and time of one of the candidates seen. */
  predicate SeenIn(arrs: seq<Arrival>, seen: seq<Candidate>)
  {
    forall i :: 0 <= i < |arrs| ==> Seen(arrs[i], seen)
  }

  /** The arrival has the station and time of one of the candidates seen. */
  predicate Seen(a: Arrival, seen: seq<Candidate>)
  {
    exists k :: 0 <= k < |seen| && SameEvent(seen[k], a)
  }

  /** An arrival with the station and time of a candidate. */
  predicate SameEvent(c: Candidate, a: Arrival)
  {
    c.station == a.station && c.time == a.time
  }

  /** Every candidate in kept comes at least reset after every arrival of its station. */
  predicate AllAfter(arrs: seq<Arrival>, kept: seq<Candidate>, reset: real)
  {
    forall a, b :: 0 <= a < |arrs| && 0 <= b < |kept| && arrs[a].station == kept[b].station ==>
      kept[b].time as real - arrs[a].time as real >= reset
  }

  /** The candidates of the window a step looks at. */
  function StepCandidates<D>(st: Settings, col: Collaborators<D>, s: State<D>): seq<Candidate>
  {
    col.getDetections(WindowStart(st, col, s.clock, s.makers), s.makers).candidates
  }

  /** The candidates of every step of the run from s, in order. */
  function RunCandidates<D(!new)>(st: Settings, col: Collaborators<D>, s: State<D>): seq<Candidate>
    requires Advancing(st, col) && OrderOf(st.order, s.makers.Keys)
    decreases EndSample(st) - s.clock
  {
    if !InWindow(st, s) then []
    else
      match Step(st, col, s)
      case Failure(_) => []
      case Success(next) => StepCandidates(st, col, s) + RunCandidates(st, col, next)
  }

  /** What holds of a state after the candidates seen have passed the filter
      from table t0: the table is the one they leave, every arrival is one
      of them, and the arrivals are spaced. */
  predicate Debounced<D>(s: State<D>, t0: LastDetect, seen: seq<Candidate>, reset: real)
  {
    && s.lastDetect == Table(t0, seen, |seen|)
    && SeenIn(s.arrivals, seen)
    && ArrivalsSpaced(s.arrivals, reset)
  }

  lemma {:induction false} NonDecreasingPrefix(a: seq<Candidate>, b: seq<Candidate>)
    requires NonDecreasingPerStation(a + b)
    ensures NonDecreasingPerStation(a) && NonDecreasingPerStation(b)
  {
    forall i, j | 0 <= i < j < |b| && b[i].station == b[j].station
      ensures b[i].time <= b[j].time
    {
      assert (a + b)[|a| + i] == b[i] && (a + b)[|a| + j] == b[j];
    }
    forall i, j | 0 <= i < j < |a| && a[i].station == a[j].station
      ensures a[i].time <= a[j].time
    {
      assert (a + b)[i] == a[i] && (a + b)[j] == a[j];
    }
  }

  /** A stamped batch has the stations and times of the candidates it came from. */
  lemma {:induction false} StampSeenIn(kept: seq<Candidate>, n: int)
    ensures SeenIn(Stamp(kept, n), kept)
  {
    StampShape(kept, n);
    var s := Stamp(kept, n);
    forall i | 0 <= i < |s|
      ensures Seen(s[i], kept)
    {
      assert SameEvent(kept[i], s[i]);
    }
  }

  /** Kept candidates are candidates of the list. */
  lemma {:induction false} KeptSeenIn(last: LastDetect, cs: seq<Candidate>, reset: real, arrs: seq<Arrival>)
    requires SeenIn(arrs, Kept(last, cs, reset, |cs|))
    ensures SeenIn(arrs, cs)
  {
    var kept := Kept(last, cs, reset, |cs|);
    forall i | 0 <= i < |arrs|
      ensures Seen(arrs[i], cs)
    {
      assert Seen(arrs[i], kept);
      var m :| 0 <= m < |kept| && SameEvent(kept[m], arrs[i]);
      KeptFrom(last, cs, reset, |cs|, m);
      var k :| 0 <= k < |cs| && cs[k] == kept[m] && Passes(last, cs, k, reset);
    }
  }

  /** Arrivals seen among a are seen among a + b, and those seen among b too. */
  lemma {:induction false} SeenInConcat(x: seq<Arrival>, y: seq<Arrival>, a: seq<Candidate>, b: seq<Candidate>)
    requires SeenIn(x, a) && SeenIn(y, b)
    ensures SeenIn(x + y, a + b)
  {
    var z, c := x + y, a + b;
    forall i | 0 <= i < |z|
      ensures Seen(z[i], c)
    {
      if i < |x| {
        assert z[i] == x[i] && Seen(x[i], a);
        var k :| 0 <= k < |a| && SameEvent(a[k], x[i]);
        assert c[k] == a[k];
      } else {
        assert z[i] == y[i - |x|] && Seen(y[i - |x|], b);
        var k :| 0 <= k < |b| && SameEvent(b[k], y[i - |x|]);
        assert c[|a| + k] == b[k];
      }
    }
  }

  /** The cross pairs of one step: a candidate the filter keeps, started
      from the table that the candidates seen leave, comes at least reset
      after every arrival of its station seen among them. */
  lemma {:induction false} KeptAfterSeen(t0: LastDetect, seen: seq<Candidate>, cs: seq<Candidate>, reset: real,
                                         arrs: seq<Arrival>)
    requires NonDecreasingPerStation(seen + cs) && SeenIn(arrs, seen)
    ensures AllAfter(arrs, Kept(Table(t0, seen, |seen|), cs, reset, |cs|), reset)
  {
    var last := Table(t0, seen, |seen|);
    var kept := Kept(last, cs, reset, |cs|);
    forall a, b | 0 <= a < |arrs| && 0 <= b < |kept| && arrs[a].station == kept[b].station
      ensures kept[b].time as real - arrs[a].time as real >= reset
    {
      KeptFrom(last, cs, reset, |cs|, b);
      var k :| 0 <= k < |cs| && cs[k] == kept[b] && Passes(last, cs, k, reset);
      assert Seen(arrs[a], seen);
      var m :| 0 <= m < |seen| && SameEvent(seen[m], arrs[a]);
      TableConcat(t0, seen, cs, k);
      assert (seen + cs)[m] == seen[m];
      TableDominates(t0, seen + cs, |seen| + k, m);
    }
  }

  /** Spaced arrivals followed by a spaced batch that comes after all of
      them are spaced. */
  lemma {:induction false} SpacedAppend(arrs: seq<Arrival>, kept: seq<Candidate>, reset: real)
    requires ArrivalsSpaced(arrs, reset) && Spaced(kept, reset) && AllAfter(arrs, kept, reset)
    ensures ArrivalsSpaced(arrs + Stamp(kept, |kept|), reset)
  {
    var s := Stamp(kept, |kept|);
    StampShape(kept, |kept|);
    var r := arrs + s;
    forall a, b | 0 <= a < b < |r| && r[a].station == r[b].station
      ensures r[b].time as real - r[a].time as real >= reset
    {
      if b < |arrs| {
        assert r[a] == arrs[a] && r[b] == arrs[b];
      } else if a < |arrs| {
        assert r[a] == arrs[a] && r[b] == s[b - |arrs|];
        assert s[b - |arrs|] == StampOne(kept[b - |arrs|], |kept|);
      } else {
        assert r[a] == s[a - |arrs|] && r[b] == s[b - |arrs|];
        assert s[a - |arrs|] == StampOne(kept[a - |arrs|], |kept|);
        assert s[b - |arrs|] == StampOne(kept[b - |arrs|], |kept|);
      }
    }
  }

  /** One step's gate keeps the arrivals spaced and each one a seen candidate. */
  lemma {:induction false} GateDebounced(t0: LastDetect, seen: seq<Candidate>, cs: seq<Candidate>, reset: real,
                                         arrs: seq<Arrival>, minStaAgree: int)
    requires NonDecreasingPerStation(seen + cs)
    requires SeenIn(arrs, seen) && ArrivalsSpaced(arrs, reset)
    ensures var g := Gate(arrs, Kept(Table(t0, seen, |seen|), cs, reset, |cs|), minStaAgree);
            SeenIn(g, seen + cs) && ArrivalsSpaced(g, reset)
  {
    var last := Table(t0, seen, |seen|);
    var kept := Kept(last, cs, reset, |cs|);
    var batch := Stamp(kept, |kept|);
    StampSeenIn(kept, |kept|);
    KeptSeenIn(last, cs, reset, batch);
    SeenInConcat(arrs, batch, seen, cs);
    SeenInConcat(arrs, [], seen, cs);
    assert arrs + [] == arrs;
    NonDecreasingPrefix(seen, cs);
    KeptSpaced(last, cs, reset, |cs|);
    KeptAfterSeen(t0, seen, cs, reset, arrs);
    SpacedAppend(arrs, kept, reset);
  }

  /** A step moves the table and gates the arrivals as the filter over its
      window's candidates says. */
  lemma StepFilters<D>(st: Settings, col: Collaborators<D>, s: State<D>)
    requires OrderOf(st.order, s.makers.Keys) && Step(st, col, s).Success?
    ensures var cs := StepCandidates(st, col, s);
            var next := Step(st, col, s).value;
            && next.lastDetect == Table(s.lastDetect, cs, |cs|)
            && next.arrivals == Gate(s.arrivals, Kept(s.lastDetect, cs, ResetSamples(st), |cs|), st.minStaAgree)
  {
  }

  /** One step keeps a state debounced, with its window's candidates seen. */
  lemma StepDebounced<D>(st: Settings, col: Collaborators<D>, s: State<D>, t0: LastDetect, seen: seq<Candidate>)
    requires OrderOf(st.order, s.makers.Keys) && Step(st, col, s).Success?
    requires Debounced(s, t0, seen, ResetSamples(st))
    requires NonDecreasingPerStation(seen + StepCandidates(st, col, s))
    ensures Debounced(Step(st, col, s).value, t0, seen + StepCandidates(st, col, s), ResetSamples(st))
  {
    var cs := StepCandidates(st, col, s);
    StepFilters(st, col, s);
    TableConcat(t0, seen, cs, |cs|);
    GateDebounced(t0, seen, cs, ResetSamples(st), s.arrivals, st.minStaAgree);
  }

  /** The run from a debounced state ends debounced, with all the run's
      candidates seen. */
  lemma {:induction false} RunDebounced<D(!new)>(st: Settings, col: Collaborators<D>, s: State<D>,
                                                 t0: LastDetect, seen: seq<Candidate>)
    requires Advancing(st, col) && OrderOf(st.order, s.makers.Keys)
    requires RunFrom(st, col, s).Success?
    requires Debounced(s, t0, seen, ResetSamples(st))
    requires NonDecreasingPerStation(seen + RunCandidates(st, col, s))
    ensures Debounced(RunFrom(st, col, s).value, t0, seen + RunCandidates(st, col, s), ResetSamples(st))
    decreases EndSample(st) - s.clock
  {
    if !InWindow(st, s) {
      assert seen + RunCandidates(st, col, s) == seen;
    } else {
      var cs := StepCandidates(st, col, s);
      var next := Step(st, col, s).value;
      var rest := RunCandidates(st, col, next);
      assert seen + RunCandidates(st, col, s) == (seen + cs) + rest;
      NonDecreasingPrefix(seen + cs, rest);
      StepDebounced(st, col, s, t0, seen);
      RunDebounced(st, col, next, t0, seen + cs);
    }
  }

  /** run's debounce guarantee: when each station's candidate times never
      decrease over all the windows the run looks at, any two arrivals of
      one station that run returns are at least the reset duration (in
      samples) apart, whichever steps they come from. */
  lemma SimulateSpaced<D(!new)>(st: Settings, col: Collaborators<D>, nList: NeighborList, warm: map<Station, real>)
    requires Advancing(st, col) && OrderOf(st.order, nList.Keys)
    requires Simulate(st, col, nList, warm).Success?
    requires NonDecreasingPerStation(RunCandidates(st, col, InitialState(st, InitialMakers(st, col, nList, warm).value)))
    ensures ArrivalsSpaced(Simulate(st, col, nList, warm).value.arrivals, ResetSamples(st))
  {
    var start := InitialState(st, InitialMakers(st, col, nList, warm).value);
    var t0 := InitialTable(st);
    assert Debounced(start, t0, [], ResetSamples(st));
    assert [] + RunCandidates(st, col, start) == RunCandidates(st, col, start);
    RunDebounced(st, col, start, t0, []);
  }
}
