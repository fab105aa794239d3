/**
 The trigger-level log of main.py: once per step, printActions writes the
 step's sample time followed by every station's new action, comma
 separated, one line per step. The model builds that line, and proves it
 can be read back: splitting it at the commas gives the time, which parses
 back to the same integer, and each station's action text in turn.
 */
module TriggerLog {
  import opened Common

  /** The character of a decimal digit. */
  function DigitChar(d: nat): char
    requires d < 10
  {
    (48 + d) as char
  }

  predicate IsDigit(c: char)
  {
    '0' <= c <= '9'
  }

  predicate AllDigits(s: string)
  {
    forall i :: 0 <= i < |s| ==> IsDigit(s[i])
  }

  /** Python's str() of a non-negative integer: decimal, no leading zeros. */
  function NatToString(n: nat): string
    decreases n
  {
    if n < 10 then [DigitChar(n)] else NatToString(n / 10) + [DigitChar(n % 10)]
  }

  /** Python's str() of an integer. */
  function IntToString(i: int): string
  {
    if i < 0 then "-" + NatToString(-i) else NatToString(i)
  }

  /** The value of a string of decimal digits. */
  function DigitsValue(s: string): nat
    requires AllDigits(s)
  {
    if s == [] then 0 else DigitsValue(s[..|s| - 1]) * 10 + (s[|s| - 1] as int - 48)
  }

  /** Reading an integer back: an optional minus sign and at least one digit. */
  function ParseInt(s: string): Option<int>
  {
    if |s| >= 2 && s[0] == '-' && AllDigits(s[1..]) then Some(0 - DigitsValue(s[1..]))
    else if |s| >= 1 && AllDigits(s) then Some(DigitsValue(s))
    else None
  }

  lemma {:induction false} NatToStringDigits(n: nat)
    ensures |NatToString(n)| >= 1 && AllDigits(NatToString(n))
    ensures DigitsValue(NatToString(n)) == n
    decreases n
  {
    if n >= 10 {
      NatToStringDigits(n / 10);
      var s := NatToString(n);
      assert s[..|s| - 1] == NatToString(n / 10);
    }
  }

  /** str() of an integer parses back to the same integer. */
  lemma ParseIntToString(i: int)
    ensures ParseInt(IntToString(i)) == Some(i)
  {
    var s := IntToString(i);
    if i < 0 {
      NatToStringDigits(-i);
      assert s[0] == '-' && s[1..] == NatToString(-i);
    } else {
      NatToStringDigits(i);
      assert IsDigit(s[0]);
    }
  }

  /** The fields joined with sep between each neighbouring pair. */
  function Join(fields: seq<string>, sep: char): (line: string)
    requires |fields| >= 1
  {
    if |fields| == 1 then fields[0]
    else Join(fields[..|fields| - 1], sep) + [sep] + fields[|fields| - 1]
  }

  /** The position of the last c in s. */
  function LastIndex(s: string, c: char): (k: nat)
    requires c in s
    ensures k < |s| && s[k] == c
    ensures forall j :: k < j < |s| ==> s[j] != c
  {
    if s[|s| - 1] == c then |s| - 1 else LastIndex(s[..|s| - 1], c)
  }

  /** The line cut at every sep, as Python's split does. */
  function Split(line: string, sep: char): (fields: seq<string>)
    ensures |fields| >= 1
    decreases |line|
  {
    if sep !in line then [line]
    else
      var k := LastIndex(line, sep);
      Split(line[..k], sep) + [line[k + 1..]]
  }

  /** Splitting undoes joining, provided no field holds the separator. */
  lemma {:induction false} SplitJoin(fields: seq<string>, sep: char)
    requires |fields| >= 1
    requires forall i :: 0 <= i < |fields| ==> sep !in fields[i]
    ensures Split(Join(fields, sep), sep) == fields
  {
    if |fields| == 1 {
    } else {
      var init, last := fields[..|fields| - 1], fields[|fields| - 1];
      var j := Join(init, sep);
      var line := j + [sep] + last;
      assert line[|j|] == sep;
      assert forall p :: |j| < p < |line| ==> line[p] == last[p - |j| - 1];
      var k := LastIndex(line, sep);
      assert k == |j|;
      assert line[..k] == j;
      assert line[k + 1..] == last;
      SplitJoin(init, sep);
      assert fields == init + [last];
    }
  }

  /** order is a dictionary's iteration order over keys: each key exactly once. */
  predicate OrderOf(order: seq<Station>, keys: set<Station>)
  {
    && (forall i :: 0 <= i < |order| ==> order[i] in keys)
    && (forall s :: s in keys ==> s in order)
    && (forall i, j :: 0 <= i < j < |order| ==> order[i] != order[j])
  }

  /** The text of each listed station's action, in the order given. */
  function ActionTexts(actions: map<Station, real>, order: seq<Station>, show: real -> string): (texts: seq<string>)
    requires forall i :: 0 <= i < |order| ==> order[i] in actions
    ensures |texts| == |order|
    ensures forall i :: 0 <= i < |order| ==> texts[i] == show(actions[order[i]])
  {
    if order == [] then []
    else ActionTexts(actions, order[..|order| - 1], show) + [show(actions[order[|order| - 1]])]
  }

  /** The fields of a step's log line: the time, then the actions. */
  function LogFields(time: int, actions: map<Station, real>, order: seq<Station>, show: real -> string): seq<string>
    requires forall i :: 0 <= i < |order| ==> order[i] in actions
  {
    [IntToString(time)] + ActionTexts(actions, order, show)
  }

  /** main.py:224-228: the step's sample time, then ',' and the text of each
      station's action in the dictionary's iteration order, then a newline.
      The iteration order is the order parameter; show is str() on a float. */
  method PrintActions(time: int, actions: map<Station, real>, order: seq<Station>, show: real -> string)
    returns (line: string)
    requires OrderOf(order, actions.Keys)
    ensures line == Join(LogFields(time, actions, order, show), ',') + "\n"
  {
    assert forall k :: 0 <= k < |order| ==> order[k] in actions;
    var s := IntToString(time);
    for i := 0 to |order|
      invariant s == Join(LogFields(time, actions, order[..i], show), ',')
    {
      var fields := LogFields(time, actions, order[..i + 1], show);
      assert order[..i + 1][..i] == order[..i];
      assert fields[..|fields| - 1] == LogFields(time, actions, order[..i], show);
      s := s + "," + show(actions[order[i]]);
    }
    assert order[..|order|] == order;
    line := s + "\n";
  }

  lemma IntToStringNoComma(i: int)
    ensures ',' !in IntToString(i)
  {
    var s := IntToString(i);
    var digits := NatToString(if i < 0 then -i else i);
    NatToStringDigits(if i < 0 then -i else i);
    forall k | 0 <= k < |s|
      ensures s[k] != ','
    {
      if i < 0 && k >= 1 {
        assert s[k] == digits[k - 1];
      }
    }
  }

  /** A log line reads back: as long as no action's text holds a comma, the
      line without its newline splits into the time, which parses back to
      the step's time, followed by each station's action text in order;
      every station has exactly one field. */
  lemma LogLineReadsBack(time: int, actions: map<Station, real>, order: seq<Station>, show: real -> string)
    requires OrderOf(order, actions.Keys)
    requires forall s :: s in actions ==> ',' !in show(actions[s])
    ensures var fields := Split(Join(LogFields(time, actions, order, show), ','), ',');
            && |fields| == |order| + 1 && |order| == |actions.Keys|
            && ParseInt(fields[0]) == Some(time)
            && (forall i :: 0 <= i < |order| ==> fields[i + 1] == show(actions[order[i]]))
            && (forall s :: s in actions ==> exists i :: 0 <= i < |order| && order[i] == s && fields[i + 1] == show(actions[s]))
  {
    OrderSize(order, actions.Keys);
    var fields := LogFields(time, actions, order, show);
    IntToStringNoComma(time);
    forall i | 0 <= i < |fields|
      ensures ',' !in fields[i]
    {
      var texts := ActionTexts(actions, order, show);
      if i > 0 {
        assert fields[i] == texts[i - 1];
        assert ',' !in show(actions[order[i - 1]]);
      } else {
        assert fields[0] == IntToString(time);
      }
    }
    SplitJoin(fields, ',');
    ParseIntToString(time);
  }

  /** A listing of every key exactly once is as long as the key set. */
  lemma {:induction false} OrderSize(order: seq<Station>, keys: set<Station>)
    requires OrderOf(order, keys)
    ensures |order| == |keys|
    decreases |order|
  {
    if order != [] {
      var last := order[|order| - 1];
      var init := order[..|order| - 1];
      assert last !in init;
      forall s | s in keys - {last}
        ensures s in init
      {
        var i :| 0 <= i < |order| && order[i] == s;
        assert i != |order| - 1;
        assert init[i] == s;
      }
      OrderSize(init, keys - {last});
    }
  }
}
