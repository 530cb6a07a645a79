/** The network-statistics readout: the colour band chosen for the latency and the
    latency label. */
module NetworkStatsView {
  import JsString

  /** The three colour bands of the latency readout, best first. */
  datatype Band = Good | Fair | Poor {
    /** 0 for the best band, 2 for the worst. */
    function Rank(): nat {
      match this
      case Good => 0
      case Fair => 1
      case Poor => 2
    }

    /** The style class the band is rendered with. */
    function ColorClass(): string {
      match this
      case Good => "text-success"
      case Fair => "text-primary"
      case Poor => "text-destructive"
    }
  }

  /** The band of a latency: the half-open intervals below 50, from 50 below 100, and
      from 100 on. */
  function BandOf(latency: int): (b: Band)
    ensures b == Good <==> latency < 50
    ensures b == Fair <==> 50 <= latency < 100
    ensures b == Poor <==> 100 <= latency
  {
    if latency < 50 then Good
    else if latency < 100 then Fair
    else Poor
  }

  /** `getLatencyColor`: the style class of the latency's band. */
  function LatencyColor(latency: int): (c: string)
    ensures c == "text-success" <==> latency < 50
    ensures c == "text-primary" <==> 50 <= latency < 100
    ensures c == "text-destructive" <==> 100 <= latency
  {
    BandOf(latency).ColorClass()
  }

  /** A higher latency never gets a better band. */
  lemma BandMonotone(lo: int, hi: int)
    requires lo <= hi
    ensures BandOf(lo).Rank() <= BandOf(hi).Rank()
  {
  }

  /** Distinct bands are rendered with distinct classes, so the class names the band. */
  lemma ColorClassInjective(a: Band, b: Band)
    ensures a.ColorClass() == b.ColorClass() ==> a == b
  {
  }

  /** The boundary values fall on the side of the half-open intervals. */
  lemma BandBoundaries()
    ensures BandOf(49) == Good && BandOf(50) == Fair
    ensures BandOf(99) == Fair && BandOf(100) == Poor
  {
  }

  /** The latency label: the decimal integer followed by "ms". */
  function LatencyLabel(latency: nat): (s: string)
    ensures |s| >= 3 && s[|s| - 2..] == "ms"
    ensures forall i :: 0 <= i < |s| - 2 ==> JsString.IsDigit(s[i])
  {
    JsString.Decimal(latency) + "ms"
  }

  /** The label's digits read back as the latency, so the label determines it. */
  lemma LatencyLabelReadsBack(latency: nat)
    ensures var s := LatencyLabel(latency);
      JsString.DigitsValue(s[..|s| - 2]) == latency
  {
    var s := LatencyLabel(latency);
    assert s[..|s| - 2] == JsString.Decimal(latency);
    JsString.DecimalRoundTrip(latency);
  }
}
