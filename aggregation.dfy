/**
 The per-step aggregation gate of run in main.py: every candidate that
 survives the debounce filter is stamped with nDef, the number of surviving
 candidates in the step (the list length, so two candidates from one
 station count twice), and the whole batch is appended to the arrivals only
 when nDef reaches minStaAgree.
 */
module Aggregation {
  import opened Common

  /** One candidate with its 'nDef' key set. */
  function StampOne(c: Candidate, nDef: int): Arrival
  {
    Arrival(c.station, c.time, nDef, c.snr)
  }

  /** The batch with every candidate stamped with the same nDef. */
  function Stamp(batch: seq<Candidate>, nDef: int): seq<Arrival>
  {
    if batch == [] then [] else Stamp(batch[..|batch| - 1], nDef) + [StampOne(batch[|batch| - 1], nDef)]
  }

  /** Dropping the 'nDef' key again. */
  function Unstamp(arrs: seq<Arrival>): seq<Candidate>
  {
    if arrs == [] then []
    else
      var a := arrs[|arrs| - 1];
      Unstamp(arrs[..|arrs| - 1]) + [Candidate(a.station, a.time, a.snr)]
  }

  /** The gate (main.py:156): a step's batch is kept when its size reaches minStaAgree. */
  predicate Agreed(batch: seq<Candidate>, minStaAgree: int)
  {
    |batch| >= minStaAgree
  }

  /** The arrivals after a step whose surviving candidates are batch. */
  function Gate(arrivals: seq<Arrival>, batch: seq<Candidate>, minStaAgree: int): seq<Arrival>
  {
    if Agreed(batch, minStaAgree) then arrivals + Stamp(batch, |batch|) else arrivals
  }

  /** main.py:152-157: stamp every surviving candidate with the batch size,
      then append the batch or drop it whole. */
  method Aggregate(arrivals: seq<Arrival>, batch: seq<Candidate>, minStaAgree: int)
    returns (stamped: seq<Arrival>, newArrivals: seq<Arrival>)
    ensures |stamped| == |batch|
    ensures forall i :: 0 <= i < |stamped| ==> stamped[i].nDef == |batch|
    ensures Unstamp(stamped) == batch
    ensures stamped == Stamp(batch, |batch|)
    ensures newArrivals == Gate(arrivals, batch, minStaAgree)
  {
    var nDef := |batch|;
    stamped := [];
    for i := 0 to |batch|
      invariant stamped == Stamp(batch[..i], nDef)
    {
      assert batch[..i + 1][..i] == batch[..i];
      stamped := stamped + [StampOne(batch[i], nDef)];
    }
    assert batch[..|batch|] == batch;
    StampShape(batch, nDef);
    UnstampStamp(batch, nDef);
    if nDef >= minStaAgree {
      newArrivals := arrivals + stamped;
    } else {
      newArrivals := arrivals;
    }
  }

  /** Stamping keeps the batch's length and each candidate's place, and
      gives every element the same nDef. */
  lemma {:induction false} StampShape(batch: seq<Candidate>, nDef: int)
    ensures |Stamp(batch, nDef)| == |batch|
    ensures forall i :: 0 <= i < |batch| ==> Stamp(batch, nDef)[i].nDef == nDef
    ensures forall i :: 0 <= i < |batch| ==> Stamp(batch, nDef)[i] == StampOne(batch[i], nDef)
  {
    if batch != [] {
      StampShape(batch[..|batch| - 1], nDef);
    }
  }

  /** Stamping and then dropping the stamp gives the batch back. */
  lemma {:induction false} UnstampStamp(batch: seq<Candidate>, nDef: int)
    ensures Unstamp(Stamp(batch, nDef)) == batch
  {
    if batch != [] {
      var init := batch[..|batch| - 1];
      UnstampStamp(init, nDef);
      var s := Stamp(batch, nDef);
      assert s[..|s| - 1] == Stamp(init, nDef);
    }
  }

  /** The arrivals are a sequence of whole step batches: each batch is a
      run of n arrivals all stamped n, with n >= 1 and n >= minStaAgree. */
  predicate Batches(arrs: seq<Arrival>, minStaAgree: int)
    decreases |arrs|
  {
    arrs == [] ||
    (var n := arrs[0].nDef;
     && 1 <= n <= |arrs| && n >= minStaAgree
     && (forall k :: 0 <= k < n ==> arrs[k].nDef == n)
     && Batches(arrs[n..], minStaAgree))
  }

  lemma {:induction false} BatchesAppend(a: seq<Arrival>, b: seq<Arrival>, minStaAgree: int)
    requires Batches(a, minStaAgree) && Batches(b, minStaAgree)
    ensures Batches(a + b, minStaAgree)
    decreases |a|
  {
    if a == [] {
      assert a + b == b;
    } else {
      var n := a[0].nDef;
      BatchesAppend(a[n..], b, minStaAgree);
      assert (a + b)[n..] == a[n..] + b;
      assert forall k :: 0 <= k < n ==> (a + b)[k] == a[k];
    }
  }

  /** The gate only ever appends a whole batch: if the arrivals so far are
      whole batches that met the threshold, so are the arrivals after a step. */
  lemma GateKeepsBatches(arrivals: seq<Arrival>, batch: seq<Candidate>, minStaAgree: int)
    requires Batches(arrivals, minStaAgree)
    ensures Batches(Gate(arrivals, batch, minStaAgree), minStaAgree)
    ensures arrivals <= Gate(arrivals, batch, minStaAgree)
  {
    if Agreed(batch, minStaAgree) && batch != [] {
      var s := Stamp(batch, |batch|);
      StampShape(batch, |batch|);
      assert s[|batch|..] == [];
      assert Batches(s, minStaAgree);
      BatchesAppend(arrivals, s, minStaAgree);
    } else if Agreed(batch, minStaAgree) {
      assert Stamp(batch, |batch|) == [];
      assert arrivals + [] == arrivals;
    }
  }

  /** Every arrival in a sequence of whole batches carries an nDef of at
      least minStaAgree. */
  lemma {:induction false} BatchesAgree(arrs: seq<Arrival>, minStaAgree: int)
    requires Batches(arrs, minStaAgree)
    ensures forall i :: 0 <= i < |arrs| ==> arrs[i].nDef >= minStaAgree
    decreases |arrs|
  {
    if arrs != [] {
      var n := arrs[0].nDef;
      BatchesAgree(arrs[n..], minStaAgree);
      forall i | 0 <= i < |arrs|
        ensures arrs[i].nDef >= minStaAgree
      {
        if i >= n {
          assert arrs[i] == arrs[n..][i - n];
        }
      }
    }
  }

  /** nDef counts candidates, not distinct stations: two candidates from
      one station in a step meet minStaAgree = 2 and are both appended,
      each stamped 2. */
  lemma OneStationCountsTwice(s: Station, t1: int, t2: int, snr1: real, snr2: real)
    ensures var batch := [Candidate(s, t1, snr1), Candidate(s, t2, snr2)];
            Gate([], batch, 2) == [Arrival(s, t1, 2, snr1), Arrival(s, t2, 2, snr2)]
  {
    var batch := [Candidate(s, t1, snr1), Candidate(s, t2, snr2)];
    assert batch[..1] == [batch[0]];
    assert [batch[0]][..0] == [];
    assert Stamp([batch[0]], 2) == [StampOne(batch[0], 2)];
    assert Stamp(batch, 2) == Stamp(batch[..1], 2) + [StampOne(batch[1], 2)];
  }
}
