/**
 Shared vocabulary of the trigger engine: station names, the candidate and
 arrival records that main.py passes around as dictionaries, the usual
 Option/Result wrappers, and Python's int() conversion of a float.
 */
module Common {

  /** A station name, the key of every per-station dictionary. */
  type Station = string

  datatype Option<T> = None | Some(value: T)

  datatype Result<T, E> = Success(value: T) | Failure(error: E)

  /** A step's trigger flags: station -> 1 if it triggered, 0 if not. */
  type Trigs = map<Station, int>

  /** A raw arrival candidate as produced by the detection window:
      the keys 'station', 'time' (a sample index) and 'snr'. */
  datatype Candidate = Candidate(station: Station, time: int, snr: real)

  /** An accepted arrival: a candidate stamped with its step's 'nDef'. */
  datatype Arrival = Arrival(station: Station, time: int, nDef: int, snr: real)

  /** Python's int(x) on a float: truncation toward zero. */
  function Trunc(x: real): (r: int)
    ensures 0.0 <= x ==> 0 <= r && r as real <= x < r as real + 1.0
    ensures x < 0.0 ==> r <= 0 && r as real - 1.0 < x <= r as real
  {
    if x >= 0.0 then x.Floor else -((-x).Floor)
  }
}
