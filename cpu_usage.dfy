/** `getCpuUsage` of the CPU screen: two readings of the aggregate line of
    `/proc/stat` (the Linux proc(5) layout: the label `cpu`, then user, nice,
    system, idle, iowait, irq and softirq times), the busy fraction of the
    time between them, and a random fallback in [0.30, 0.70] when anything
    goes wrong. Each reading is the text of the line, or `None` when reading
    it throws; the random draw is a parameter. */
module CpuUsage {
  import opened Wrappers
  import opened Numerics
  import opened Text

  /** The number of time fields the screen sums (tokens 1 to 7). */
  const FIELDS: nat := 7
  /** The index of the idle time among them (token 4). */
  const IDLE: nat := 3

  /** `toLong()` of every token, or `None` when one of them throws. */
  function ParseFields(toks: seq<string>): (r: Option<seq<int>>)
    ensures r.Some? <==> forall i :: 0 <= i < |toks| ==> ParseLong(toks[i]).Some?
    ensures r.Some? ==> |r.value| == |toks| && forall i :: 0 <= i < |toks| ==> ParseLong(toks[i]) == Some(r.value[i])
  {
    if toks == [] then Some([])
    else
      match (ParseLong(toks[0]), ParseFields(toks[1..]))
      case (Some(v), Some(rest)) => Some([v] + rest)
      case _ => None
  }

  /** The seven time fields of a `/proc/stat` line: splitting on runs of
      spaces must give at least eight tokens (else the indexing throws), and
      tokens 1 to 7 must be numbers. */
  function ParseStatLine(line: string): (r: Option<seq<int>>)
    ensures r.Some? ==> |r.value| == FIELDS
    ensures r.Some? <==> |SplitSpaces(line)| >= 8 && forall i :: 1 <= i < 8 ==> ParseLong(SplitSpaces(line)[i]).Some?
  {
    var toks := SplitSpaces(line);
    if |toks| < 8 then None
    else
      var r := ParseFields(toks[1..8]);
      assert forall i :: 1 <= i < 8 ==> toks[1..8][i - 1] == toks[i];
      r
  }

  function Idle(fields: seq<int>): int
    requires |fields| == FIELDS
  {
    fields[IDLE]
  }

  /** The sum of the seven time fields. */
  function Total(fields: seq<int>): int
    requires |fields| == FIELDS
  {
    fields[0] + fields[1] + fields[2] + fields[3] + fields[4] + fields[5] + fields[6]
  }

  /** The busy fraction between two readings: the time that was not idle
      over all the time that passed, as a `Float` division. */
  function BusyFraction(first: seq<int>, second: seq<int>): KFloat
    requires |first| == FIELDS && |second| == FIELDS
  {
    var elapsed := Total(second) - Total(first);
    var idle := Idle(second) - Idle(first);
    Div((elapsed - idle) as real, elapsed as real)
  }

  /** The value the screen reports. `randomPercent` is the draw of
      `(30..70).random()`. */
  function CpuUsageOf(firstLine: Option<string>, secondLine: Option<string>, randomPercent: int): (u: KFloat)
    requires 30 <= randomPercent <= 70
    ensures var first := if firstLine.Some? then ParseStatLine(firstLine.value) else None;
            var second := if secondLine.Some? then ParseStatLine(secondLine.value) else None;
            (first.Some? && second.Some? ==> u == BusyFraction(first.value, second.value)) &&
            (!(first.Some? && second.Some?) ==> u.Finite? && 0.3 <= u.v <= 0.7 && u.v * 100.0 == randomPercent as real)
  {
    var fallback := Finite(randomPercent as real / 100.0);
    match firstLine
    case None => fallback
    case Some(line1) =>
      match ParseStatLine(line1)
      case None => fallback
      case Some(first) =>
        match secondLine
        case None => fallback
        case Some(line2) =>
          match ParseStatLine(line2)
          case None => fallback
          case Some(second) => BusyFraction(first, second)
  }

  /** When no counter goes backwards and some time has passed, the fraction
      lies in [0, 1], because the idle time is one of the summed fields. */
  lemma BusyFractionInUnitInterval(first: seq<int>, second: seq<int>)
    requires |first| == FIELDS && |second| == FIELDS
    requires forall i :: 0 <= i < FIELDS ==> first[i] <= second[i]
    requires Total(second) > Total(first)
    ensures BusyFraction(first, second).Finite?
    ensures 0.0 <= BusyFraction(first, second).v <= 1.0
  {
    var elapsed := Total(second) - Total(first);
    var idle := Idle(second) - Idle(first);
    assert 0 <= idle <= elapsed;
    QuotientBetween(elapsed - idle, elapsed);
  }

  lemma QuotientBetween(a: int, b: int)
    requires 0 <= a <= b && b > 0
    ensures 0.0 <= a as real / b as real <= 1.0
  {
    var q := a as real / b as real;
    assert q * b as real == a as real;
  }

  /** Two identical readings leave no elapsed time: the division is 0/0 and
      the screen reports NaN rather than the fallback. */
  lemma IdenticalReadingsGiveNaN(fields: seq<int>)
    requires |fields| == FIELDS
    ensures BusyFraction(fields, fields) == NaN
  {
  }

  /** The decimal tokens of a list of numbers. */
  function Rendered(values: seq<int>): (toks: seq<string>)
    ensures |toks| == |values|
  {
    seq(|values|, i requires 0 <= i < |values| => IntToString(values[i]))
  }

  /** Reading a line written as `cpu` followed by the seven times (and any
      further columns) gives the seven times back. */
  lemma ParseStatLineRoundTrip(fields: seq<int>, extra: seq<int>)
    requires |fields| == FIELDS
    requires forall i :: 0 <= i < FIELDS ==> IsLong(fields[i])
    ensures ParseStatLine(JoinSpaces(["cpu"] + Rendered(fields) + Rendered(extra))) == Some(fields)
  {
    var toks := ["cpu"] + Rendered(fields) + Rendered(extra);
    TokensAreWords(fields, extra);
    SplitJoin(toks);
    assert toks[1..8] == Rendered(fields);
    RenderedParses(fields);
  }

  /** Every token of such a line is non-empty and free of spaces. */
  lemma TokensAreWords(fields: seq<int>, extra: seq<int>)
    ensures var toks := ["cpu"] + Rendered(fields) + Rendered(extra);
            forall k :: 0 <= k < |toks| ==> toks[k] != [] && ' ' !in toks[k]
  {
    var a, b := Rendered(fields), Rendered(extra);
    var toks := ["cpu"] + a + b;
    forall k | 0 <= k < |toks| ensures toks[k] != [] && ' ' !in toks[k] {
      if 0 < k <= |a| {
        assert toks[k] == a[k - 1];
        RenderedWord(fields, k - 1);
      } else if k > |a| {
        assert toks[k] == b[k - 1 - |a|];
        RenderedWord(extra, k - 1 - |a|);
      }
    }
  }

  lemma RenderedWord(values: seq<int>, m: nat)
    requires m < |values|
    ensures Rendered(values)[m] != [] && ' ' !in Rendered(values)[m]
  {
    IntToStringHasNoSpace(values[m]);
  }

  /** Parsing the rendered numbers gives them back. */
  lemma RenderedParses(values: seq<int>)
    requires forall i :: 0 <= i < |values| ==> IsLong(values[i])
    ensures ParseFields(Rendered(values)) == Some(values)
  {
    var toks := Rendered(values);
    forall i | 0 <= i < |values| ensures ParseLong(toks[i]) == Some(values[i]) {
      ParseLongOfIntToString(values[i]);
    }
    var r := ParseFields(toks);
    assert r.Some? && |r.value| == |values|;
    assert forall i :: 0 <= i < |values| ==> r.value[i] == values[i];
    assert r.value == values;
  }

  lemma IntToStringHasNoSpace(n: int)
    ensures ' ' !in IntToString(n)
  {
    var s := IntToString(n);
    if n < 0 {
      assert s == "-" + NatToString(-n);
      assert forall k :: 1 <= k < |s| ==> s[k] == NatToString(-n)[k - 1];
    }
    assert forall k :: 0 <= k < |s| ==> s[k] != ' ';
  }
}
