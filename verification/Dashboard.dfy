/** The dashboard's activity graph: fixed steps back from the current time, and a count for each. */
module Dashboard {

  // Time is counted in microseconds of UTC since the epoch.
  const SECOND := 1_000_000
  const MINUTE := 60 * SECOND
  const HOUR := 60 * MINUTE
  const DAY := 24 * HOUR

  datatype View = Daily | FiveMin | Hourly

  function Delta(v: View): int {
    match v
    case Daily => DAY
    case FiveMin => 5 * MINUTE
    case Hourly => HOUR
  }

  function Steps(v: View): nat {
    match v
    case Daily => 10
    case FiveMin => 48
    case Hourly => 48
  }

  /** `now.replace(...)`: the fields below the given unit set to zero. */
  function Floored(now: int, unit: int): int
    requires unit > 0
  {
    now - now % unit
  }

  /** The start of the last step; for five minutes the minute field is rounded down by itself. */
  function EndDate(now: int, v: View): int {
    match v
    case Daily => Floored(now, DAY)
    case FiveMin =>
      var t := Floored(now, MINUTE);
      var minute := t % HOUR / MINUTE;
      t - minute * MINUTE + minute / 5 * 5 * MINUTE
    case Hourly => Floored(now, HOUR)
  }

  function StartDate(now: int, v: View): int {
    EndDate(now, v) - Delta(v) * (Steps(v) - 1)
  }

  /** The number of timestamps in [from, to). */
  function Count(timestamps: seq<int>, from: int, to: int): nat {
    if timestamps == [] then 0
    else
      var t := timestamps[|timestamps| - 1];
      Count(timestamps[..|timestamps| - 1], from, to) + if from <= t < to then 1 else 0
  }

  /** Rounding the minute field down by itself rounds the whole time down. */
  lemma MinuteFields(now: int)
    ensures EndDate(now, FiveMin) == Floored(now, 5 * MINUTE)
  {
    var t := Floored(now, MINUTE);
    var k := now / MINUTE;
    assert now == MINUTE * k + now % MINUTE;
    assert t == MINUTE * k;
    var h := k / 60;
    assert k == 60 * h + k % 60;
    assert t == HOUR * h + MINUTE * (k % 60);
    assert t % HOUR == MINUTE * (k % 60);
    var m := k % 60;
    assert EndDate(now, FiveMin) == HOUR * h + m / 5 * 5 * MINUTE;
    var five := 5 * MINUTE;
    var q := 12 * h + m / 5;
    assert HOUR == 12 * five;
    assert now == five * q + ((m % 5) * MINUTE + now % MINUTE);
    assert 0 <= (m % 5) * MINUTE + now % MINUTE < five;
    assert now / five == q && now % five == (m % 5) * MINUTE + now % MINUTE;
  }

  /** The current time lies in the last step. */
  lemma NowInLastStep(now: int, v: View)
    ensures EndDate(now, v) <= now < EndDate(now, v) + Delta(v)
  {
    if v == FiveMin {
      MinuteFields(now);
    }
  }

  /** Step `i` covers [StepStart(i), StepStart(i + 1)). */
  function StepStart(now: int, v: View, i: nat): int {
    StartDate(now, v) + Delta(v) * i
  }

  lemma StepNext(now: int, v: View, i: nat)
    ensures StepStart(now, v, i + 1) == StepStart(now, v, i) + Delta(v)
  {
  }

  lemma StepsAscend(now: int, v: View, i: nat, j: nat)
    requires i < j
    ensures StepStart(now, v, i + 1) <= StepStart(now, v, j)
  {
    if i + 1 < j {
      StepsAscend(now, v, i, j - 1);
    }
  }

  /** Every moment of the window lies in exactly one step. */
  lemma StepsTile(now: int, v: View, t: int) returns (i: nat)
    requires StartDate(now, v) <= t < StepStart(now, v, Steps(v))
    ensures i < Steps(v) && StepStart(now, v, i) <= t < StepStart(now, v, i + 1)
    ensures forall j: nat :: StepStart(now, v, j) <= t < StepStart(now, v, j + 1) ==> j == i
  {
    i := 0;
    while t >= StepStart(now, v, i + 1)
      invariant i < Steps(v) && StepStart(now, v, i) <= t
      decreases Steps(v) - i
    {
      i := i + 1;
    }
    forall j: nat | StepStart(now, v, j) <= t < StepStart(now, v, j + 1) ensures j == i {
      if j < i { StepsAscend(now, v, j, i); }
      if i < j { StepsAscend(now, v, i, j); }
    }
  }

  lemma {:induction false} CountSplits(timestamps: seq<int>, a: int, b: int, c: int)
    requires a <= b <= c
    ensures Count(timestamps, a, c) == Count(timestamps, a, b) + Count(timestamps, b, c)
  {
    if timestamps != [] {
      CountSplits(timestamps[..|timestamps| - 1], a, b, c);
    }
  }

  function Sum(data: seq<nat>): nat {
    if data == [] then 0 else Sum(data[..|data| - 1]) + data[|data| - 1]
  }

  /** Bar `i` shows the resources of step `i`. */
  predicate BarRight(timestamps: seq<int>, now: int, v: View, i: nat, at: int, height: nat) {
    at == StepStart(now, v, i) && height == Count(timestamps, at, StepStart(now, v, i + 1))
  }

  lemma LastStepStart(now: int, v: View)
    ensures StepStart(now, v, Steps(v) - 1) == EndDate(now, v)
    ensures StepStart(now, v, Steps(v)) == EndDate(now, v) + Delta(v)
  {
  }

  function Within(timestamps: seq<int>, from: int, to: int): set<nat> {
    set i: nat | 0 <= i < |timestamps| && from <= timestamps[i] < to
  }

  lemma WithinOneMore(before: seq<int>, t: int, from: int, to: int)
    ensures Within(before + [t], from, to) == Within(before, from, to) + if from <= t < to then {|before|} else {}
  {
  }

  /** The number of places that hold a timestamp within the bounds. */
  lemma {:induction false} CountExactly(timestamps: seq<int>, from: int, to: int)
    ensures Count(timestamps, from, to) == |Within(timestamps, from, to)|
  {
    if timestamps != [] {
      var before, t := timestamps[..|timestamps| - 1], timestamps[|timestamps| - 1];
      CountExactly(before, from, to);
      WithinOneMore(before, t, from, to);
      assert timestamps == before + [t];
    }
  }

  /** The windows: ten days from midnight to midnight, 48 hours from full hour to full hour, and four
      hours in steps of five minutes. */
  lemma WindowExactly(now: int, v: View, i: nat) returns (q: int)
    ensures Steps(v) == match v case Daily => 10 case FiveMin => 48 case Hourly => 48
    ensures StepStart(now, v, i + 1) - StepStart(now, v, i) ==
            match v case Daily => 86_400_000_000 case FiveMin => 300_000_000 case Hourly => 3_600_000_000
    ensures EndDate(now, v) ==
            match v case Daily => 86_400_000_000 * q case FiveMin => 300_000_000 * q case Hourly => 3_600_000_000 * q
  {
    match v
    case Daily => q := now / DAY;
    case Hourly => q := now / HOUR;
    case FiveMin =>
      MinuteFields(now);
      q := now / (5 * MINUTE);
  }

  /** The loop over the steps. The bars are the counts of the steps that tile the window, the last
      of which holds the current time, and together they count every resource in it once. */
  method Graph(timestamps: seq<int>, now: int, v: View) returns (labels: seq<int>, data: seq<nat>)
    ensures |labels| == |data| == Steps(v)
    ensures forall i :: 0 <= i < Steps(v) ==> BarRight(timestamps, now, v, i, labels[i], data[i])
    ensures labels[Steps(v) - 1] <= now < labels[Steps(v) - 1] + Delta(v)
    ensures Sum(data) == Count(timestamps, StartDate(now, v), EndDate(now, v) + Delta(v))
  {
    labels, data := [], [];
    var currentStep := StartDate(now, v);
    CountSplits(timestamps, currentStep, currentStep, currentStep);
    for i := 0 to Steps(v)
      invariant |labels| == |data| == i && StartDate(now, v) <= currentStep == StepStart(now, v, i)
      invariant forall j :: 0 <= j < i ==> BarRight(timestamps, now, v, j, labels[j], data[j])
      invariant Sum(data) == Count(timestamps, StartDate(now, v), currentStep)
    {
      StepNext(now, v, i);
      var nextStep := currentStep + Delta(v);
      var val := Count(timestamps, currentStep, nextStep);
      CountSplits(timestamps, StartDate(now, v), currentStep, nextStep);
      SumOneMore(data, val);
      labels := labels + [currentStep];
      data := data + [val];
      currentStep := nextStep;
    }
    LastStepStart(now, v);
    NowInLastStep(now, v);
    assert BarRight(timestamps, now, v, Steps(v) - 1, labels[Steps(v) - 1], data[Steps(v) - 1]);
  }

  lemma SumOneMore(data: seq<nat>, val: nat)
    ensures Sum(data + [val]) == Sum(data) + val
  {
    assert (data + [val])[..|data|] == data;
  }
}
