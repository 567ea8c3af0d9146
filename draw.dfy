/** Chart requests.  Rendering (matplotlib, fonts, the cache file path) is not
    part of this model: a chart is the request the handler makes, with the
    series, axis label and colour it passes. */
module Draw {
  import opened Wrappers
  import opened I18n

  /** 1024^3: bytes in a gigabyte as the charts count them. */
  const GIB: real := 1073741824.0

  /** byte2GB: every sample divided by 1024^3, in order. */
  function Byte2GB(samples: seq<real>): (r: seq<real>)
    ensures |r| == |samples|
    ensures forall i :: 0 <= i < |samples| ==> r[i] * GIB == samples[i]
  {
    seq(|samples|, i requires 0 <= i < |samples| => samples[i] / GIB)
  }

  /** A requested figure: one series, or two series on twin y-axes.  A series the
      report lacks is passed on as `None`. */
  datatype Chart =
    | Single(series: Option<seq<real>>, axisLabel: Text, color: string)
    | Dual(bottom: Option<seq<real>>, bottomLabel: Text, bottomColor: string,
           top: seq<real>, topLabel: Text, topColor: string)
}
