/** The chart hook: a sliding window over the newest records of the selected
    type, renumbered from 1 with descaled rates, and the y-axis range that
    frames them. The two human-readable date renderings of a point are
    functions of its timestamp and are not part of this model. */
module ChartData {
  import opened ExchangeRate

  /** How many of the newest records the chart shows. */
  const WindowSize: nat := 30

  /** The padding either side of a flat series. */
  const FlatPadding: real := 50.0

  datatype ChartPoint = ChartPoint(index: int, rate: real, timestamp: int, rateType: string)

  datatype Domain = Domain(lower: real, upper: real)

  /** The range shown when there is nothing to plot. */
  const EmptyDomain: Domain := Domain(0.0, 100.0)

  /** `slice(-30)`: the slice starting 30 from the end, clamped to the start. */
  function Window(s: seq<Record>): (w: seq<Record>)
    ensures |w| == (if |s| < WindowSize then |s| else WindowSize)
    ensures w == s[|s| - |w|..]
  {
    var start := if |s| - WindowSize > 0 then |s| - WindowSize else 0;
    s[start..]
  }

  /** One chart point: the record's rate descaled, its timestamp and type
      copied, under the given number. */
  function Point(r: Record, index: int): (p: ChartPoint)
    ensures p.index == index && p.rate * 100.0 == r.rate as real
    ensures p.timestamp == r.timestamp && p.rateType == r.rateType
  {
    ChartPoint(index, Scale(r.rate), r.timestamp, r.rateType)
  }

  /** The `map` step: the k-th record (from 0) becomes the point numbered `first + k`. */
  function Number(s: seq<Record>, first: int): (ps: seq<ChartPoint>)
    ensures |ps| == |s|
    ensures forall k :: 0 <= k < |s| ==> ps[k] == Point(s[k], first + k)
  {
    if s == [] then [] else [Point(s[0], first)] + Number(s[1..], first + 1)
  }

  /** `chartData`. */
  function ChartDataOf(filtered: seq<Record>): (ps: seq<ChartPoint>)
    ensures |ps| <= WindowSize
    ensures forall k :: 0 <= k < |ps| ==> ps[k].index == k + 1
  {
    Number(Window(filtered), 1)
  }

  /** The chart keeps the newest `min(30, n)` records in their order, numbers
      them 1, 2, ..., descales each rate once and copies timestamp and type. */
  lemma ChartDataSpec(filtered: seq<Record>)
    ensures var ps := ChartDataOf(filtered);
      && |ps| == (if |filtered| < WindowSize then |filtered| else WindowSize)
      && forall k :: 0 <= k < |ps| ==>
           var source := filtered[|filtered| - |ps| + k];
           && ps[k].index == k + 1
           && ps[k].rate * 100.0 == source.rate as real
           && ps[k].timestamp == source.timestamp
           && ps[k].rateType == source.rateType
  {
  }

  /** Below 30 points a new record is appended as the next point. */
  lemma ChartDataGrows(filtered: seq<Record>, r: Record)
    requires |filtered| < WindowSize
    ensures ChartDataOf(filtered + [r]) == ChartDataOf(filtered) + [Point(r, |filtered| + 1)]
  {
    var before, after := ChartDataOf(filtered), ChartDataOf(filtered + [r]);
    assert Window(filtered) == filtered && Window(filtered + [r]) == filtered + [r];
    assert |after| == |before| + 1 && after[|before|] == Point(r, |filtered| + 1);
    assert forall k :: 0 <= k < |before| ==> after[k] == before[k];
  }

  /** At 30 points the oldest point drops out, the rest move down one place
      and the new record is the last point. */
  lemma ChartDataSlides(filtered: seq<Record>, r: Record)
    requires |filtered| >= WindowSize
    ensures var before, after := ChartDataOf(filtered), ChartDataOf(filtered + [r]);
      && |after| == |before| == WindowSize
      && after[WindowSize - 1] == Point(r, WindowSize)
      && forall k :: 0 <= k < WindowSize - 1 ==> after[k] == before[k + 1].(index := k + 1)
  {
    var before, after := ChartDataOf(filtered), ChartDataOf(filtered + [r]);
    var n := |filtered|;
    var w, w' := Window(filtered), Window(filtered + [r]);
    assert w == filtered[n - WindowSize..];
    assert w' == filtered[n - WindowSize + 1..] + [r];
    forall k | 0 <= k < WindowSize - 1
      ensures after[k] == before[k + 1].(index := k + 1)
    {
      assert w'[k] == w[k + 1];
    }
  }

  /** `Math.min(...rates)`. */
  function MinRate(ps: seq<ChartPoint>): (m: real)
    requires ps != []
    ensures exists k :: 0 <= k < |ps| && ps[k].rate == m
    ensures forall k :: 0 <= k < |ps| ==> m <= ps[k].rate
  {
    if |ps| == 1 then ps[0].rate
    else
      var rest := MinRate(ps[1..]);
      if ps[0].rate <= rest then ps[0].rate else rest
  }

  /** `Math.max(...rates)`. */
  function MaxRate(ps: seq<ChartPoint>): (m: real)
    requires ps != []
    ensures exists k :: 0 <= k < |ps| && ps[k].rate == m
    ensures forall k :: 0 <= k < |ps| ==> ps[k].rate <= m
  {
    if |ps| == 1 then ps[0].rate
    else
      var rest := MaxRate(ps[1..]);
      if ps[0].rate >= rest then ps[0].rate else rest
  }

  /** `yAxisDomain`: 5% of the spread either side, 50 either side of a flat
      series, the lower end clamped at 0; a fixed range when there is no data. */
  function YAxisDomain(ps: seq<ChartPoint>): (d: Domain)
    ensures ps == [] ==> d == EmptyDomain
    ensures d.lower >= 0.0
  {
    if ps == [] then EmptyDomain
    else
      var min, max := MinRate(ps), MaxRate(ps);
      var spread := (max - min) * 0.05;
      var padding := if spread != 0.0 then spread else FlatPadding;
      Domain(if min - padding > 0.0 then min - padding else 0.0, max + padding)
  }

  /** The domain never reaches below 0 and always ends above every point; the
      padding is the same on both sides unless the lower end is clamped. */
  lemma YAxisDomainSpec(ps: seq<ChartPoint>)
    ensures ps == [] ==> YAxisDomain(ps) == Domain(0.0, 100.0)
    ensures ps != [] ==>
      var d, min, max := YAxisDomain(ps), MinRate(ps), MaxRate(ps);
      && d.lower >= 0.0
      && (forall k :: 0 <= k < |ps| ==> ps[k].rate < d.upper)
      && d.lower == (if min - (d.upper - max) > 0.0 then min - (d.upper - max) else 0.0)
      && (min == max ==> d.upper == max + FlatPadding)
      && (min < max ==> d.upper - max == (max - min) / 20.0)
  {
  }

  /** For rates that are not negative, as exchange rates are, every point
      lies inside the domain and the domain is a proper interval. */
  lemma YAxisDomainFramesPoints(ps: seq<ChartPoint>)
    requires forall k :: 0 <= k < |ps| ==> ps[k].rate >= 0.0
    ensures var d := YAxisDomain(ps);
      && d.lower < d.upper
      && forall k :: 0 <= k < |ps| ==> d.lower <= ps[k].rate < d.upper
  {
  }
}
