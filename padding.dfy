/** Alignment of an indicator series with the price series
    (`fillWithNaN` in helpers/stock-helper.js). `None` is the NaN sentinel. */
module Padding {
  import opened Options

  /** The array `fillWithNaN(arr, totalLength)` returns: position `j` holds
      the entry of `arr` that the `forEach` writes to it, if any, or NaN. */
  function Padded(arr: seq<Option<real>>, totalLength: nat): (r: seq<Option<real>>)
    ensures |r| == totalLength
    ensures |arr| <= totalLength ==>
              (forall j :: 0 <= j < totalLength - |arr| ==> r[j].None?) && r[totalLength - |arr|..] == arr
    ensures |arr| > totalLength ==> r == arr[|arr| - totalLength..]
  {
    seq(totalLength, j requires 0 <= j < totalLength =>
      if j < totalLength - |arr| then None else arr[j + |arr| - totalLength])
  }

  /** The source's two steps: an array of NaN, then each entry of `arr`
      written `totalLength - |arr|` places further on. A negative index
      (only when `arr` is the longer one) sets a property of the JavaScript
      array object rather than an element, so it is skipped here. */
  method FillWithNaN(arr: seq<Option<real>>, totalLength: nat) returns (filledArr: seq<Option<real>>)
    ensures filledArr == Padded(arr, totalLength)
  {
    var filled := new Option<real>[totalLength](_ => None);
    var offset := totalLength - |arr|;
    for idx := 0 to |arr|
      invariant forall j :: 0 <= j < totalLength ==>
                  filled[j] == if offset <= j < offset + idx then arr[j - offset] else None
    {
      var j := idx + offset;
      if 0 <= j {
        filled[j] := arr[idx];
      }
    }
    filledArr := filled[..];
  }
}
