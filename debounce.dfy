/**
 The per-station debounce filter, removeDetections in main.py.

 The filter walks the step's candidates in order. A candidate at station S
 with time t is deleted when the last-detection table says S fired less than
 the reset duration before t; a deleted candidate also forces S's trigger
 flag to 0. Kept or not, every candidate moves S's table entry to t.

 The specification is stated per candidate index: Table gives the
 last-detection table as it stands when a candidate is examined, Passes
 says whether that candidate is kept, Kept and Suppressed collect the
 outcome over a prefix of the candidate list.
 */
module Debounce {
  import opened Common

  /** The last-detection table. Entries are reals: the sentinel is in
      seconds, later entries are sample times. */
  type LastDetect = map<Station, real>

  /** Every candidate's station has a table entry (main.py:175 looks it up). */
  predicate StationsKnown(last: LastDetect, cs: seq<Candidate>)
  {
    forall k :: 0 <= k < |cs| ==> cs[k].station in last
  }

  /** The table after the first n candidates of cs have been seen, in order:
      each has moved its station's entry to its time. */
  function Table(last: LastDetect, cs: seq<Candidate>, n: nat): (r: LastDetect)
    requires n <= |cs|
    ensures last.Keys <= r.Keys
  {
    if n == 0 then last
    else Table(last, cs, n - 1)[cs[n - 1].station := cs[n - 1].time as real]
  }

  /** Candidate k is kept: its station's entry, as the table stands after
      the candidates before it, plus the reset duration does not exceed
      its time. (A station without an entry is a lookup failure in the
      source; StationsKnown excludes it wherever the filter runs.) */
  predicate Passes(last: LastDetect, cs: seq<Candidate>, k: nat, reset: real)
    requires k < |cs|
  {
    var table := Table(last, cs, k);
    cs[k].station in table ==> table[cs[k].station] + reset <= cs[k].time as real
  }

  /** The candidates among the first n that are kept, in their original order. */
  function Kept(last: LastDetect, cs: seq<Candidate>, reset: real, n: nat): (r: seq<Candidate>)
    requires n <= |cs|
    ensures |r| <= n
  {
    if n == 0 then []
    else Kept(last, cs, reset, n - 1) + (if Passes(last, cs, n - 1, reset) then [cs[n - 1]] else [])
  }

  /** The stations of the candidates among the first n that are deleted. */
  function Suppressed(last: LastDetect, cs: seq<Candidate>, reset: real, n: nat): set<Station>
    requires n <= |cs|
  {
    if n == 0 then {}
    else Suppressed(last, cs, reset, n - 1) + (if Passes(last, cs, n - 1, reset) then {} else {cs[n - 1].station})
  }

  /** The flag overrides for the given stations: each forced to 0. */
  function ZeroFlags(stations: set<Station>): Trigs
  {
    map s | s in stations :: 0
  }

  /** removeDetections (main.py:166-184). The caller's list and dictionaries,
      which the source updates in place, come in as values and their new
      contents go out. */
  method RemoveDetections(trigs: Trigs, arrivals: seq<Candidate>, last: LastDetect, reset: real)
    returns (newTrigs: Trigs, kept: seq<Candidate>, newLast: LastDetect, deleted: bool)
    requires StationsKnown(last, arrivals)
    ensures kept == Kept(last, arrivals, reset, |arrivals|)
    ensures newLast == Table(last, arrivals, |arrivals|)
    ensures newTrigs == trigs + ZeroFlags(Suppressed(last, arrivals, reset, |arrivals|))
    ensures deleted <==> Suppressed(last, arrivals, reset, |arrivals|) != {}
  {
    deleted := false;
    newTrigs, kept, newLast := trigs, arrivals, last;
    var i := 0;
    ghost var j := 0;  // candidates examined so far, deleted ones included
    while i < |kept|
      invariant Scanned(trigs, last, arrivals, reset, j, i, kept, newTrigs, newLast, deleted)
      decreases |kept| - i
    {
      ScanFacts(trigs, last, arrivals, reset, j, i, kept, newTrigs, newLast, deleted);
      var sta := kept[i].station;
      var arrTime := kept[i].time;
      if newLast[sta] + reset > arrTime as real {
        ScanDeleted(trigs, last, arrivals, reset, j, i, kept, newTrigs, newLast, deleted);
        newTrigs := newTrigs[sta := 0];
        kept := kept[..i] + kept[i + 1..];
        deleted := true;
      } else {
        ScanKept(trigs, last, arrivals, reset, j, i, kept, newTrigs, newLast, deleted);
        i := i + 1;
      }
      newLast := newLast[sta := arrTime as real];
      j := j + 1;
    }
  }

  /** RemoveDetections' loop invariant: j candidates examined, the first i
      entries of the working list are the ones kept, the rest is the
      unexamined suffix, and the tables reflect the examined prefix. */
  ghost predicate Scanned(trigs: Trigs, last: LastDetect, arrivals: seq<Candidate>, reset: real, j: int, i: int,
                          kept: seq<Candidate>, newTrigs: Trigs, newLast: LastDetect, deleted: bool)
  {
    && 0 <= i <= |kept| && 0 <= j <= |arrivals| && StationsKnown(last, arrivals)
    && kept[..i] == Kept(last, arrivals, reset, j)
    && kept[i..] == arrivals[j..]
    && newLast == Table(last, arrivals, j)
    && newTrigs == trigs + ZeroFlags(Suppressed(last, arrivals, reset, j))
    && (deleted <==> Suppressed(last, arrivals, reset, j) != {})
  }

  /** Under Scanned, the next entry of the working list is the next
      unexamined candidate, and its station has a table entry. */
  lemma ScanFacts(trigs: Trigs, last: LastDetect, arrivals: seq<Candidate>, reset: real, j: int, i: int,
                  kept: seq<Candidate>, newTrigs: Trigs, newLast: LastDetect, deleted: bool)
    requires Scanned(trigs, last, arrivals, reset, j, i, kept, newTrigs, newLast, deleted) && i < |kept|
    ensures j < |arrivals| && kept[i] == arrivals[j] && kept[i].station in newLast
  {
    assert kept[i] == kept[i..][0] == arrivals[j..][0] == arrivals[j];
  }

  /** Examining a candidate that RemoveDetections deletes keeps Scanned. */
  lemma ScanDeleted(trigs: Trigs, last: LastDetect, arrivals: seq<Candidate>, reset: real, j: int, i: int,
                    kept: seq<Candidate>, newTrigs: Trigs, newLast: LastDetect, deleted: bool)
    requires Scanned(trigs, last, arrivals, reset, j, i, kept, newTrigs, newLast, deleted) && i < |kept|
    requires kept[i].station in newLast && newLast[kept[i].station] + reset > kept[i].time as real
    ensures var s, t := kept[i].station, kept[i].time;
            Scanned(trigs, last, arrivals, reset, j + 1, i, kept[..i] + kept[i + 1..], newTrigs[s := 0], newLast[s := t as real], true)
  {
    ScanFacts(trigs, last, arrivals, reset, j, i, kept, newTrigs, newLast, deleted);
    var s := kept[i].station;
    var S := Suppressed(last, arrivals, reset, j);
    assert !Passes(last, arrivals, j, reset);
    assert ZeroFlags(S + {s}) == ZeroFlags(S)[s := 0];
    var rest := kept[..i] + kept[i + 1..];
    assert rest[..i] == kept[..i];
    assert rest[i..] == kept[i..][1..] == arrivals[j + 1..];
  }

  /** Examining a candidate that RemoveDetections keeps keeps Scanned. */
  lemma ScanKept(trigs: Trigs, last: LastDetect, arrivals: seq<Candidate>, reset: real, j: int, i: int,
                 kept: seq<Candidate>, newTrigs: Trigs, newLast: LastDetect, deleted: bool)
    requires Scanned(trigs, last, arrivals, reset, j, i, kept, newTrigs, newLast, deleted) && i < |kept|
    requires kept[i].station in newLast && newLast[kept[i].station] + reset <= kept[i].time as real
    ensures var s, t := kept[i].station, kept[i].time;
            Scanned(trigs, last, arrivals, reset, j + 1, i + 1, kept, newTrigs, newLast[s := t as real], deleted)
  {
    ScanFacts(trigs, last, arrivals, reset, j, i, kept, newTrigs, newLast, deleted);
    assert Passes(last, arrivals, j, reset);
    assert kept[..i + 1] == kept[..i] + [kept[i]];
    assert kept[i + 1..] == kept[i..][1..] == arrivals[j + 1..];
  }

  /** A deletion happened exactly when fewer candidates come out than went in. */
  lemma {:induction false} DeletedIffShorter(last: LastDetect, cs: seq<Candidate>, reset: real, n: nat)
    requires n <= |cs|
    ensures Suppressed(last, cs, reset, n) != {} <==> |Kept(last, cs, reset, n)| < n
  {
    if n > 0 {
      DeletedIffShorter(last, cs, reset, n - 1);
    }
  }

  /** A station's trigger flag is forced to 0 exactly when one of its
      candidates is deleted. */
  lemma {:induction false} SuppressedIff(last: LastDetect, cs: seq<Candidate>, reset: real, n: nat, s: Station)
    requires n <= |cs|
    ensures s in Suppressed(last, cs, reset, n) <==>
            exists k :: 0 <= k < n && cs[k].station == s && !Passes(last, cs, k, reset)
  {
    if n > 0 {
      SuppressedIff(last, cs, reset, n - 1, s);
      if cs[n - 1].station == s && !Passes(last, cs, n - 1, reset) {
        assert s in Suppressed(last, cs, reset, n);
      }
    }
  }

  /** Every station with a candidate ends with the time of its last
      candidate among the first n, whether that candidate was kept or
      deleted. */
  lemma {:induction false} TableLastOccurrence(last: LastDetect, cs: seq<Candidate>, n: nat, k: nat)
    requires k < n <= |cs|
    requires forall j :: k < j < n ==> cs[j].station != cs[k].station
    ensures cs[k].station in Table(last, cs, n)
    ensures Table(last, cs, n)[cs[k].station] == cs[k].time as real
  {
    if k < n - 1 {
      TableLastOccurrence(last, cs, n - 1, k);
    }
  }

  /** A station without candidates among the first n keeps its entry (or
      stays absent). */
  lemma {:induction false} TableUntouched(last: LastDetect, cs: seq<Candidate>, n: nat, s: Station)
    requires n <= |cs|
    requires forall k :: 0 <= k < n ==> cs[k].station != s
    ensures s in Table(last, cs, n) <==> s in last
    ensures s in last ==> Table(last, cs, n)[s] == last[s]
  {
    if n > 0 {
      TableUntouched(last, cs, n - 1, s);
    }
  }

  /** The table over a prefix only depends on that prefix. */
  lemma {:induction false} TablePrefix(last: LastDetect, a: seq<Candidate>, b: seq<Candidate>, n: nat)
    requires n <= |a|
    ensures Table(last, a + b, n) == Table(last, a, n)
  {
    if n > 0 {
      TablePrefix(last, a, b, n - 1);
      assert (a + b)[n - 1] == a[n - 1];
    }
  }

  /** Seeing a and then k candidates of b moves the table as seeing the
      first |a| + k candidates of a + b does. */
  lemma {:induction false} TableConcat(last: LastDetect, a: seq<Candidate>, b: seq<Candidate>, k: nat)
    requires k <= |b|
    ensures Table(last, a + b, |a| + k) == Table(Table(last, a, |a|), b, k)
  {
    if k == 0 {
      TablePrefix(last, a, b, |a|);
    } else {
      TableConcat(last, a, b, k - 1);
      assert (a + b)[|a| + k - 1] == b[k - 1];
    }
  }

  /** Kept over a prefix only depends on that prefix. */
  lemma {:induction false} KeptPrefix(last: LastDetect, a: seq<Candidate>, b: seq<Candidate>, reset: real, n: nat)
    requires n <= |a|
    ensures Kept(last, a + b, reset, n) == Kept(last, a, reset, n)
  {
    if n > 0 {
      KeptPrefix(last, a, b, reset, n - 1);
      TablePrefix(last, a, b, n - 1);
      assert (a + b)[n - 1] == a[n - 1];
    }
  }

  /** Debouncing two consecutive candidate lists, the second call starting
      from the table the first one leaves, keeps what one call over the
      concatenated list keeps. This is how the filter's guarantees carry
      across the steps of a run. */
  lemma {:induction false} KeptConcat(last: LastDetect, a: seq<Candidate>, b: seq<Candidate>, reset: real, n: nat)
    requires n <= |b|
    ensures Kept(last, a + b, reset, |a| + n) == Kept(last, a, reset, |a|) + Kept(Table(last, a, |a|), b, reset, n)
  {
    if n == 0 {
      KeptPrefix(last, a, b, reset, |a|);
    } else {
      KeptConcat(last, a, b, reset, n - 1);
      TableConcat(last, a, b, n - 1);
      assert (a + b)[|a| + n - 1] == b[n - 1];
      var front, back := Kept(last, a, reset, |a|), Kept(Table(last, a, |a|), b, reset, n - 1);
      var x := if Passes(Table(last, a, |a|), b, n - 1, reset) then [b[n - 1]] else [];
      AppendAssoc(front, back, x);
    }
  }

  lemma AppendAssoc<T>(a: seq<T>, b: seq<T>, c: seq<T>)
    ensures (a + b) + c == a + (b + c)
  {
  }

  /** Each station's candidate times never decrease along cs. */
  predicate NonDecreasingPerStation(cs: seq<Candidate>)
  {
    forall i, j :: 0 <= i < j < |cs| && cs[i].station == cs[j].station ==> cs[i].time <= cs[j].time
  }

  /** After the first n candidates, a station's entry is at least the time of
      any of its candidates among them. */
  lemma {:induction false} TableDominates(last: LastDetect, cs: seq<Candidate>, n: nat, i: nat)
    requires i < n <= |cs| && NonDecreasingPerStation(cs)
    ensures cs[i].station in Table(last, cs, n)
    ensures Table(last, cs, n)[cs[i].station] >= cs[i].time as real
  {
    if cs[n - 1].station != cs[i].station {
      TableDominates(last, cs, n - 1, i);
    }
  }

  /** Elements kept from the first n candidates are candidates among them
      that pass the reset check. */
  lemma {:induction false} KeptFrom(last: LastDetect, cs: seq<Candidate>, reset: real, n: nat, a: nat)
    requires n <= |cs|
    requires a < |Kept(last, cs, reset, n)|
    ensures exists k :: 0 <= k < n && cs[k] == Kept(last, cs, reset, n)[a] && Passes(last, cs, k, reset)
  {
    var prev := Kept(last, cs, reset, n - 1);
    if a < |prev| {
      KeptFrom(last, cs, reset, n - 1, a);
    } else {
      assert Kept(last, cs, reset, n)[a] == cs[n - 1];
    }
  }

  /** Any two candidates of one station in r are at least reset apart. */
  predicate Spaced(r: seq<Candidate>, reset: real)
  {
    forall a, b :: 0 <= a < b < |r| && r[a].station == r[b].station ==> r[b].time as real - r[a].time as real >= reset
  }

  /** The debounce invariant: when each station's times never decrease, any
      two kept candidates of one station are at least the reset duration
      apart. It holds because deleted candidates advance the table too. */
  lemma {:induction false} KeptSpaced(last: LastDetect, cs: seq<Candidate>, reset: real, n: nat)
    requires n <= |cs| && NonDecreasingPerStation(cs)
    ensures Spaced(Kept(last, cs, reset, n), reset)
  {
    if n > 0 {
      KeptSpaced(last, cs, reset, n - 1);
      var prev := Kept(last, cs, reset, n - 1);
      var r := Kept(last, cs, reset, n);
      forall a, b | 0 <= a < b < |r| && r[a].station == r[b].station
        ensures r[b].time as real - r[a].time as real >= reset
      {
        if b < |prev| {
          assert r[a] == prev[a] && r[b] == prev[b];
        } else {
          assert Passes(last, cs, n - 1, reset) && r[b] == cs[n - 1] && r[a] == prev[a];
          KeptFrom(last, cs, reset, n - 1, a);
          var k :| 0 <= k < n - 1 && cs[k] == prev[a];
          TableDominates(last, cs, n - 1, k);
          var table := Table(last, cs, n - 1);
          assert cs[k].station == cs[n - 1].station;
          assert table[cs[n - 1].station] + reset <= cs[n - 1].time as real;
        }
      }
    }
  }

  /** The debounce invariant across two consecutive calls: what the first
      call keeps followed by what the second keeps, starting from the table
      the first leaves, is spaced per station, provided each station's
      times never decrease across both candidate lists. */
  lemma SpacedAcrossCalls(last: LastDetect, a: seq<Candidate>, b: seq<Candidate>, reset: real)
    requires NonDecreasingPerStation(a + b)
    ensures Spaced(Kept(last, a, reset, |a|) + Kept(Table(last, a, |a|), b, reset, |b|), reset)
  {
    KeptConcat(last, a, b, reset, |b|);
    KeptSpaced(last, a + b, reset, |a + b|);
  }
}
