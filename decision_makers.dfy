/**
 The decision makers of main.py as seen from the trigger engine: one per
 station of the neighbourhood list, created with a starting trigger level
 (initDecisionMakers) and asked for a new action once per step
 (updateActions). A decision maker's own state and how it answers are not
 part of this model: the type parameter D stands for that state, and the
 constructor and getAction are passed in as functions.
 */
module DecisionMakers {
  import opened Common

  /** The neighbourhood list: each station's neighbours. */
  type NeighborList = map<Station, seq<Station>>

  /** The warm-start levels are used only when there are exactly as many of
      them as there are stations (main.py:249-251). */
  predicate UseWarmStart(nList: NeighborList, warm: map<Station, real>)
  {
    |warm.Keys| == |nList.Keys|
  }

  /** The starting level of every station, or None when the warm-start
      levels are used but one station has none (a KeyError in main.py). */
  function InitialLevels(nList: NeighborList, initVal: real, warm: map<Station, real>): (r: Option<map<Station, real>>)
    ensures r.None? <==> UseWarmStart(nList, warm) && !(nList.Keys <= warm.Keys)
    ensures r.Some? ==> r.value.Keys == nList.Keys
    ensures r.Some? && !UseWarmStart(nList, warm) ==> forall s :: s in nList ==> r.value[s] == initVal
    ensures r.Some? && UseWarmStart(nList, warm) ==> forall s :: s in nList ==> r.value[s] == warm[s]
  {
    if UseWarmStart(nList, warm) then
      if nList.Keys <= warm.Keys then Some(map s | s in nList :: warm[s]) else None
    else
      Some(map s | s in nList :: initVal)
  }

  /** The decision makers built from each station's starting level. */
  function BuildMakers<D>(nList: NeighborList, levels: map<Station, real>, stepSize: real, decayRate: real,
                          newMaker: (Station, real, seq<Station>, real, real) -> D): map<Station, D>
    requires nList.Keys <= levels.Keys
  {
    map s | s in nList :: newMaker(s, levels[s], nList[s], stepSize, decayRate)
  }

  /** main.py:243-259: one decision maker per station of the neighbourhood
      list, each built from its station, its starting level, its neighbours,
      the step size and the decay rate. Fails with a station that the
      warm-start levels lack when they are used. */
  method InitDecisionMakers<D>(nList: NeighborList, initVal: real, stepSize: real, decayRate: real,
                               warm: map<Station, real>,
                               newMaker: (Station, real, seq<Station>, real, real) -> D)
    returns (r: Result<map<Station, D>, Station>)
    ensures r.Success? <==> InitialLevels(nList, initVal, warm).Some?
    ensures r.Success? ==> r.value.Keys == nList.Keys
    ensures r.Success? ==> forall s :: s in nList ==>
      r.value[s] == newMaker(s, InitialLevels(nList, initVal, warm).value[s], nList[s], stepSize, decayRate)
    ensures r.Success? ==> r.value == BuildMakers(nList, InitialLevels(nList, initVal, warm).value, stepSize, decayRate, newMaker)
    ensures r.Failure? ==> r.error in nList && r.error !in warm
  {
    var useCustom := |warm.Keys| == |nList.Keys|;
    var makers: map<Station, D> := map[];
    var remaining := nList.Keys;
    while remaining != {}
      invariant remaining <= nList.Keys
      invariant makers.Keys == nList.Keys - remaining
      invariant forall s :: s in makers ==>
        (if useCustom then s in warm && makers[s] == newMaker(s, warm[s], nList[s], stepSize, decayRate)
         else makers[s] == newMaker(s, initVal, nList[s], stepSize, decayRate))
      decreases remaining
    {
      var sta :| sta in remaining;
      var level: real;
      if useCustom {
        if sta !in warm {
          return Failure(sta);
        }
        level := warm[sta];
      } else {
        level := initVal;
      }
      makers := makers[sta := newMaker(sta, level, nList[sta], stepSize, decayRate)];
      remaining := remaining - {sta};
    }
    assert makers == BuildMakers(nList, InitialLevels(nList, initVal, warm).value, stepSize, decayRate, newMaker);
    return Success(makers);
  }

  /** A subset as large as its superset is the whole superset. */
  lemma SubsetSameSize<T>(a: set<T>, b: set<T>)
    requires a <= b && |a| == |b|
    ensures a == b
  {
    var extra := b - a;
    assert b == a + extra;
    assert a * extra == {};
  }

  /** All or nothing: the starting levels are either all initVal, or taken
      from the warm-start levels, which then name exactly the stations of
      the neighbourhood list. */
  lemma WarmStartAllOrNothing(nList: NeighborList, initVal: real, warm: map<Station, real>)
    requires InitialLevels(nList, initVal, warm).Some?
    ensures var levels := InitialLevels(nList, initVal, warm).value;
            (forall s :: s in nList ==> levels[s] == initVal) ||
            (warm.Keys == nList.Keys && levels == warm)
  {
    var levels := InitialLevels(nList, initVal, warm).value;
    if UseWarmStart(nList, warm) {
      SubsetSameSize(nList.Keys, warm.Keys);
      assert levels.Keys == warm.Keys;
    }
  }

  /** A warm-start set with one station more than the neighbourhood list is
      ignored entirely, even though it covers every station. */
  lemma ExtraWarmEntryIgnored(nList: NeighborList, initVal: real, warm: map<Station, real>, extra: Station)
    requires nList.Keys <= warm.Keys && extra in warm && extra !in nList
    ensures InitialLevels(nList, initVal, warm) == Some(map s | s in nList :: initVal)
  {
    assert nList.Keys < warm.Keys;
    ProperSubsetSmaller(nList.Keys, warm.Keys, extra);
  }

  lemma ProperSubsetSmaller<T>(a: set<T>, b: set<T>, x: T)
    requires a <= b && x in b && x !in a
    ensures |a| < |b|
  {
    assert a <= b - {x};
    SubsetNoLarger(a, b - {x});
  }

  lemma SubsetNoLarger<T>(a: set<T>, b: set<T>)
    requires a <= b
    ensures |a| <= |b|
  {
    assert b == a + (b - a);
  }

  /** main.py:206-210: every decision maker answers the step's triggers and
      its own station's average SNR; the new actions are collected per
      station. Each answer depends only on that station's decision maker,
      so the order of the stations does not matter. */
  method UpdateActions<D>(trigs: Trigs, avgSnr: map<Station, real>, makers: map<Station, D>,
                          getAction: (D, Trigs, real) -> (D, real))
    returns (updated: map<Station, D>, actions: map<Station, real>)
    requires makers.Keys <= avgSnr.Keys
    ensures updated.Keys == makers.Keys && actions.Keys == makers.Keys
    ensures forall s :: s in makers ==>
      (updated[s], actions[s]) == getAction(makers[s], trigs, avgSnr[s])
  {
    updated := map[];
    actions := map[];
    var remaining := makers.Keys;
    while remaining != {}
      invariant remaining <= makers.Keys
      invariant updated.Keys == makers.Keys - remaining && actions.Keys == updated.Keys
      invariant forall s :: s in updated ==>
        (updated[s], actions[s]) == getAction(makers[s], trigs, avgSnr[s])
      decreases remaining
    {
      var sta :| sta in remaining;
      var answer := getAction(makers[sta], trigs, avgSnr[sta]);
      updated := updated[sta := answer.0];
      actions := actions[sta := answer.1];
      remaining := remaining - {sta};
    }
  }

  /** Each decision maker's last action. */
  function LastActions<D>(makers: map<Station, D>, prevAction: D -> real): map<Station, real>
  {
    map s | s in makers :: prevAction(makers[s])
  }

  /** main.py:161-164: the trigger level each decision maker ends on. */
  method EndLevels<D>(makers: map<Station, D>, prevAction: D -> real) returns (levels: map<Station, real>)
    ensures levels.Keys == makers.Keys
    ensures forall s :: s in makers ==> levels[s] == prevAction(makers[s])
    ensures levels == LastActions(makers, prevAction)
  {
    levels := map[];
    var remaining := makers.Keys;
    while remaining != {}
      invariant remaining <= makers.Keys
      invariant levels.Keys == makers.Keys - remaining
      invariant forall s :: s in levels ==> levels[s] == prevAction(makers[s])
      decreases remaining
    {
      var sta :| sta in remaining;
      levels := levels[sta := prevAction(makers[sta])];
      remaining := remaining - {sta};
    }
  }
}
