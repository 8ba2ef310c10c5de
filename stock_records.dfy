/** Record assembly (`processStockData` in helpers/stock-helper.js): one
    record per timestamp, built in a single forward pass that carries the
    previous strength state and rewrites volume entries in place. The SMA(10),
    SMA(50) and RSI(14) series come from a library whose code is not part of
    this model, so they are parameters here (`None` where the library gives NaN). */
module StockRecords {
  import opened Options
  import opened JsValues
  import opened Interpolation
  import opened Padding
  import opened Crossover
  import opened VolumeFormat

  /** The object each index of the `map` returns, field for field. */
  datatype StockRecord = StockRecord(
    id: nat,
    timestamp: string,
    interpolatedPrice: Option<real>,
    sma10: Option<real>,
    sma50: Option<real>,
    rsi: Option<real>,
    interpolatedVolume: string,
    isSma10Strong: Strength,
    crossType: CrossType,
    closingPrice: Option<real>,
    volume: Option<string>,
    stockSymbol: string)

  /** What the quote arrays of a chart response hold: numbers or `null`. */
  predicate NumbersOrNulls(cells: seq<JsValue>)
  {
    forall i :: 0 <= i < |cells| ==> IsNumberOrNull(cells[i])
  }

  /** A volume array read as numbers; `null` (the only other value a quote
      array holds) is a missing entry. */
  function NumbersOf(cells: seq<JsValue>): (r: seq<Option<real>>)
    ensures |r| == |cells|
    ensures forall i :: 0 <= i < |cells| ==> (r[i].Some? <==> cells[i].Num?)
    ensures forall i :: 0 <= i < |cells| && cells[i].Num? ==> r[i] == Some(cells[i].x)
  {
    seq(|cells|, i requires 0 <= i < |cells| => if cells[i].Num? then Some(cells[i].x) else None)
  }

  /** The JavaScript array entry holding a possibly missing number. */
  function NumberCell(v: Option<real>): (c: JsValue)
    ensures IsNumberOrNull(c)
  {
    match v
    case Some(x) => Num(x)
    case None => Null
  }

  /** JavaScript's numeric conversion of a number or `null`: `null` counts as 0,
      so `null / 1000` is 0. */
  function ToNumber(v: JsValue): real
    requires IsNumberOrNull(v)
  {
    if v.Num? then v.x else 0.0
  }

  /** The interpolated volume shown in thousands; an entry the
      interpolation left missing shows as `"0"`. */
  function VolumeText(v: Option<real>): (t: string)
    ensures v.None? ==> t == "0"
    ensures v.Some? ==> t == FormatNumber(v.value / 1000.0)
  {
    FormatNumber(ToNumber(NumberCell(v)) / 1000.0)
  }

  /** A truthy volume becomes its formatted thousands; a missing or
      zero volume becomes `null`. */
  function FormattedVolume(v: JsValue): (r: Option<string>)
    requires IsNumberOrNull(v)
    ensures r.None? <==> v == Null || v == Num(0.0)
    ensures r.Some? ==> r.value == FormatNumber(v.x / 1000.0)
  {
    if Truthy(v) then Some(FormatNumber(v.x / 1000.0)) else None
  }

  /** The entry written back into the caller's volume array. */
  function VolumeCell(v: Option<string>): JsValue
  {
    match v
    case Some(s) => Str(s)
    case None => Null
  }

  /** The volume array as the call leaves it. */
  function RewrittenVolumes(volumes: seq<JsValue>): (r: seq<JsValue>)
    requires NumbersOrNulls(volumes)
    ensures |r| == |volumes|
  {
    seq(|volumes|, i requires 0 <= i < |volumes| => VolumeCell(FormattedVolume(volumes[i])))
  }

  /** The per-index series the `map` reads, once interpolated and padded. */
  datatype Columns = Columns(
    stockSymbol: string,
    timestamps: seq<string>,
    closingPrices: seq<Option<real>>,
    interpolatedPrices: seq<Option<real>>,
    interpolatedVolumes: seq<Option<real>>,
    sma10: seq<Option<real>>,
    sma50: seq<Option<real>>,
    rsi: seq<Option<real>>,
    volumes: seq<JsValue>)
  {
    predicate Aligned()
    {
      && |closingPrices| == |interpolatedPrices| == |interpolatedVolumes| == |timestamps|
      && |sma10| == |sma50| == |rsi| == |volumes| == |timestamps|
      && NumbersOrNulls(volumes)
    }
  }

  /** The record the `map` callback returns at index `i`. */
  function RecordAt(c: Columns, i: nat): StockRecord
    requires c.Aligned() && i < |c.timestamps|
  {
    StockRecord(
      i + 1,
      c.timestamps[i],
      c.interpolatedPrices[i],
      c.sma10[i],
      c.sma50[i],
      c.rsi[i],
      VolumeText(c.interpolatedVolumes[i]),
      StrengthOf(c.sma10[i], c.sma50[i]),
      Crosses(Strengths(c.sma10, c.sma50))[i],
      c.closingPrices[i],
      FormattedVolume(c.volumes[i]),
      c.stockSymbol)
  }

  function Records(c: Columns): (r: seq<StockRecord>)
    requires c.Aligned()
    ensures |r| == |c.timestamps|
  {
    seq(|c.timestamps|, i requires 0 <= i < |c.timestamps| => RecordAt(c, i))
  }

  /** The columns `processStockData` prepares from its inputs: both quote
      series interpolated with the default window and the three indicator
      series padded to the length of the price series. */
  function ColumnsOf(
      stockSymbol: string,
      timestamps: seq<string>,
      closingPrices: seq<Option<real>>,
      volumes: seq<JsValue>,
      sma10Values: seq<Option<real>>,
      sma50Values: seq<Option<real>>,
      rsiValues: seq<Option<real>>): (c: Columns)
    requires |closingPrices| == |timestamps| == |volumes| && NumbersOrNulls(volumes)
    ensures c.Aligned()
  {
    var n := |closingPrices|;
    Columns(
      stockSymbol,
      timestamps,
      closingPrices,
      Interpolated(closingPrices, DefaultWindowSize),
      Interpolated(NumbersOf(volumes), DefaultWindowSize),
      Padded(sma10Values, n),
      Padded(sma50Values, n),
      Padded(rsiValues, n),
      volumes)
  }

  /** The records `processStockData` returns for the given inputs. */
  function ProcessedRecords(
      stockSymbol: string,
      timestamps: seq<string>,
      closingPrices: seq<Option<real>>,
      volumes: seq<JsValue>,
      sma10Values: seq<Option<real>>,
      sma50Values: seq<Option<real>>,
      rsiValues: seq<Option<real>>): (r: seq<StockRecord>)
    requires |closingPrices| == |timestamps| == |volumes| && NumbersOrNulls(volumes)
    ensures |r| == |timestamps|
    ensures forall i :: 0 <= i < |r| ==>
              && r[i].id == i + 1
              && r[i].timestamp == timestamps[i]
              && r[i].closingPrice == closingPrices[i]
              && r[i].stockSymbol == stockSymbol
    ensures forall i :: 0 <= i < |r| ==>
              && r[i].interpolatedPrice == Interpolated(closingPrices, DefaultWindowSize)[i]
              && r[i].sma10 == Padded(sma10Values, |closingPrices|)[i]
              && r[i].sma50 == Padded(sma50Values, |closingPrices|)[i]
              && r[i].rsi == Padded(rsiValues, |closingPrices|)[i]
    ensures forall i :: 0 <= i < |r| ==>
              && r[i].interpolatedVolume == VolumeText(Interpolated(NumbersOf(volumes), DefaultWindowSize)[i])
              && r[i].volume == FormattedVolume(volumes[i])
  {
    Records(ColumnsOf(stockSymbol, timestamps, closingPrices, volumes, sma10Values, sma50Values, rsiValues))
  }

  /** The strength test: `'unknown'` unless both averages are defined, then
      whether SMA(10) is at least SMA(50). */
  method ClassifyStrength(sma10: Option<real>, sma50: Option<real>) returns (isSma10Strong: Strength)
    ensures isSma10Strong == StrengthOf(sma10, sma50)
  {
    isSma10Strong := Unknown;
    if sma10.Some? && sma50.Some? {
      isSma10Strong := Weak;
      if sma10.value >= sma50.value {
        isSma10Strong := Strong;
      }
    }
  }

  /** The cross test: a cross only when the state flips between two defined values. */
  method ClassifyCross(prevIsSma10Strong: Strength, isSma10Strong: Strength) returns (crossType: CrossType)
    ensures crossType == CrossOf(prevIsSma10Strong, isSma10Strong)
  {
    crossType := NoCross;
    if isSma10Strong != prevIsSma10Strong && prevIsSma10Strong != Unknown && isSma10Strong != Unknown {
      crossType := if isSma10Strong.Strong? then GoldenCross else DeathCross;
    }
  }

  /** The whole of `processStockData`. Besides the records it returns, it
      rewrites every entry of the caller's `volumes` with its formatted value. */
  method ProcessStockData(
      stockSymbol: string,
      timestamps: seq<string>,
      closingPrices: seq<Option<real>>,
      volumes: array<JsValue>,
      sma10Values: seq<Option<real>>,
      sma50Values: seq<Option<real>>,
      rsiValues: seq<Option<real>>)
    returns (objArr: seq<StockRecord>)
    requires |closingPrices| == |timestamps| == volumes.Length
    requires NumbersOrNulls(volumes[..])
    modifies volumes
    ensures objArr == ProcessedRecords(stockSymbol, timestamps, closingPrices, old(volumes[..]), sma10Values, sma50Values, rsiValues)
    ensures volumes[..] == RewrittenVolumes(old(volumes[..]))
  {
    var interpolatedPrices := RollingAverageInterpolation(closingPrices, DefaultWindowSize);
    var interpolatedVolumes := RollingAverageInterpolation(NumbersOf(volumes[..]), DefaultWindowSize);
    var sma10 := FillWithNaN(sma10Values, |interpolatedPrices|);
    var sma50 := FillWithNaN(sma50Values, |interpolatedPrices|);
    var rsi := FillWithNaN(rsiValues, |interpolatedPrices|);
    var c := Columns(stockSymbol, timestamps, closingPrices, interpolatedPrices,
                 interpolatedVolumes, sma10, sma50, rsi, volumes[..]);
    assert c == ColumnsOf(stockSymbol, timestamps, closingPrices, volumes[..], sma10Values, sma50Values, rsiValues);
    objArr := BuildRecords(c, volumes);
  }

  /** The `map` over the timestamps, given the interpolated
      and padded series it reads. */
  method BuildRecords(c: Columns, volumes: array<JsValue>) returns (objArr: seq<StockRecord>)
    requires c.Aligned() && c.volumes == volumes[..]
    modifies volumes
    ensures objArr == Records(c)
    ensures volumes[..] == RewrittenVolumes(c.volumes)
  {
    var n := |c.timestamps|;
    ghost var states := Strengths(c.sma10, c.sma50);
    var prevIsSma10Strong := Unknown;
    objArr := [];
    for index := 0 to n
      invariant objArr == Records(c)[..index]
      invariant prevIsSma10Strong == if index == 0 then Unknown else states[index - 1]
      invariant forall i :: 0 <= i < index ==> volumes[i] == RewrittenVolumes(c.volumes)[i]
      invariant forall i :: index <= i < n ==> volumes[i] == c.volumes[i]
    {
      var isSma10Strong := ClassifyStrength(c.sma10[index], c.sma50[index]);
      var crossType := ClassifyCross(prevIsSma10Strong, isSma10Strong);
      assert crossType == Crosses(states)[index];
      prevIsSma10Strong := isSma10Strong;

      // The interpolated volume is shown in thousands and the
      // caller's volume entry is overwritten in place
      var interpolatedVolume := VolumeText(c.interpolatedVolumes[index]);
      volumes[index] := VolumeCell(FormattedVolume(volumes[index]));

      var rec := StockRecord(
        index + 1,
        c.timestamps[index],
        c.interpolatedPrices[index],
        c.sma10[index],
        c.sma50[index],
        c.rsi[index],
        interpolatedVolume,
        isSma10Strong,
        crossType,
        c.closingPrices[index],
        if volumes[index].Str? then Some(volumes[index].s) else None,
        c.stockSymbol);
      assert rec == RecordAt(c, index);
      assert Records(c)[..index + 1] == Records(c)[..index] + [RecordAt(c, index)];
      objArr := objArr + [rec];
    }
    assert volumes[..] == RewrittenVolumes(c.volumes);
  }

  /** The strength state of a record says how its two averages compare. */
  lemma StrengthStates(
      stockSymbol: string, timestamps: seq<string>, closingPrices: seq<Option<real>>, volumes: seq<JsValue>,
      sma10Values: seq<Option<real>>, sma50Values: seq<Option<real>>, rsiValues: seq<Option<real>>, i: nat)
    requires |closingPrices| == |timestamps| == |volumes| && NumbersOrNulls(volumes)
    requires i < |timestamps|
    ensures var r := ProcessedRecords(stockSymbol, timestamps, closingPrices, volumes, sma10Values, sma50Values, rsiValues);
            && (r[i].isSma10Strong == Unknown <==> r[i].sma10.None? || r[i].sma50.None?)
            && (r[i].isSma10Strong == Strong <==> r[i].sma10.Some? && r[i].sma50.Some? && r[i].sma10.value >= r[i].sma50.value)
            && (r[i].isSma10Strong == Weak <==> r[i].sma10.Some? && r[i].sma50.Some? && r[i].sma10.value < r[i].sma50.value)
  {
    var c := ColumnsOf(stockSymbol, timestamps, closingPrices, volumes, sma10Values, sma50Values, rsiValues);
    assert ProcessedRecords(stockSymbol, timestamps, closingPrices, volumes, sma10Values, sma50Values, rsiValues)[i] == RecordAt(c, i);
  }

  /** A record carries a golden cross exactly when the state went from weak
      at the record before to strong at this one, a death cross exactly on the
      opposite flip, and the first record never carries a cross. */
  lemma CrossesMarkFlips(
      stockSymbol: string, timestamps: seq<string>, closingPrices: seq<Option<real>>, volumes: seq<JsValue>,
      sma10Values: seq<Option<real>>, sma50Values: seq<Option<real>>, rsiValues: seq<Option<real>>, i: nat)
    requires |closingPrices| == |timestamps| == |volumes| && NumbersOrNulls(volumes)
    requires i < |timestamps|
    ensures var r := ProcessedRecords(stockSymbol, timestamps, closingPrices, volumes, sma10Values, sma50Values, rsiValues);
            && (r[i].crossType == GoldenCross <==> i > 0 && r[i - 1].isSma10Strong == Weak && r[i].isSma10Strong == Strong)
            && (r[i].crossType == DeathCross <==> i > 0 && r[i - 1].isSma10Strong == Strong && r[i].isSma10Strong == Weak)
  {
    var r := ProcessedRecords(stockSymbol, timestamps, closingPrices, volumes, sma10Values, sma50Values, rsiValues);
    var c := ColumnsOf(stockSymbol, timestamps, closingPrices, volumes, sma10Values, sma50Values, rsiValues);
    var s := Strengths(c.sma10, c.sma50);
    assert r[i] == RecordAt(c, i);
    assert r[i].crossType == CrossOf(if i == 0 then Unknown else s[i - 1], s[i]);
    if i > 0 {
      assert r[i - 1] == RecordAt(c, i - 1);
    }
  }

  /** Along a stretch where both averages stay defined, golden and death
      crosses alternate: between two golden crosses lies a death cross. */
  lemma GoldenCrossesAlternateInRecords(
      stockSymbol: string, timestamps: seq<string>, closingPrices: seq<Option<real>>, volumes: seq<JsValue>,
      sma10Values: seq<Option<real>>, sma50Values: seq<Option<real>>, rsiValues: seq<Option<real>>, i: nat, j: nat)
    requires |closingPrices| == |timestamps| == |volumes| && NumbersOrNulls(volumes)
    requires i < j < |timestamps|
    requires var r := ProcessedRecords(stockSymbol, timestamps, closingPrices, volumes, sma10Values, sma50Values, rsiValues);
             && r[i].crossType == GoldenCross && r[j].crossType == GoldenCross
             && forall k :: i <= k <= j ==> r[k].isSma10Strong != Unknown
    ensures var r := ProcessedRecords(stockSymbol, timestamps, closingPrices, volumes, sma10Values, sma50Values, rsiValues);
            exists k :: i < k < j && r[k].crossType == DeathCross
  {
    var r := ProcessedRecords(stockSymbol, timestamps, closingPrices, volumes, sma10Values, sma50Values, rsiValues);
    var c := ColumnsOf(stockSymbol, timestamps, closingPrices, volumes, sma10Values, sma50Values, rsiValues);
    var s := Strengths(c.sma10, c.sma50);
    assert r[i] == RecordAt(c, i) && r[j] == RecordAt(c, j);
    forall k | i <= k <= j
      ensures s[k] != Unknown
    {
      assert r[k] == RecordAt(c, k);
    }
    GoldenCrossesAlternate(s, i, j);
    var k :| i < k < j && Crosses(s)[k] == DeathCross;
    assert r[k] == RecordAt(c, k);
  }

  /** While SMA(50) has fewer entries than there are prices, the records before
      its first entry are `'unknown'` and carry no cross. */
  lemma WarmUpIsUnknown(
      stockSymbol: string, timestamps: seq<string>, closingPrices: seq<Option<real>>, volumes: seq<JsValue>,
      sma10Values: seq<Option<real>>, sma50Values: seq<Option<real>>, rsiValues: seq<Option<real>>, i: nat)
    requires |closingPrices| == |timestamps| == |volumes| && NumbersOrNulls(volumes)
    requires i < |timestamps| - |sma50Values|
    ensures var r := ProcessedRecords(stockSymbol, timestamps, closingPrices, volumes, sma10Values, sma50Values, rsiValues);
            r[i].sma50.None? && r[i].isSma10Strong == Unknown && r[i].crossType == NoCross
  {
    var r := ProcessedRecords(stockSymbol, timestamps, closingPrices, volumes, sma10Values, sma50Values, rsiValues);
    StrengthStates(stockSymbol, timestamps, closingPrices, volumes, sma10Values, sma50Values, rsiValues, i);
    CrossesMarkFlips(stockSymbol, timestamps, closingPrices, volumes, sma10Values, sma50Values, rsiValues, i);
  }

  /** With no gap in the closing prices every record's interpolated price is its
      closing price. */
  lemma CompletePricesUnchanged(
      stockSymbol: string, timestamps: seq<string>, closingPrices: seq<Option<real>>, volumes: seq<JsValue>,
      sma10Values: seq<Option<real>>, sma50Values: seq<Option<real>>, rsiValues: seq<Option<real>>)
    requires |closingPrices| == |timestamps| == |volumes| && NumbersOrNulls(volumes)
    requires forall k :: 0 <= k < |closingPrices| ==> closingPrices[k].Some?
    ensures var r := ProcessedRecords(stockSymbol, timestamps, closingPrices, volumes, sma10Values, sma50Values, rsiValues);
            forall i :: 0 <= i < |r| ==> r[i].interpolatedPrice == r[i].closingPrice
  {
  }

  /** The caller's volume array ends up holding each record's `volume` field. */
  lemma RewrittenVolumesMatchRecords(
      stockSymbol: string, timestamps: seq<string>, closingPrices: seq<Option<real>>, volumes: seq<JsValue>,
      sma10Values: seq<Option<real>>, sma50Values: seq<Option<real>>, rsiValues: seq<Option<real>>)
    requires |closingPrices| == |timestamps| == |volumes| && NumbersOrNulls(volumes)
    ensures var r := ProcessedRecords(stockSymbol, timestamps, closingPrices, volumes, sma10Values, sma50Values, rsiValues);
            forall i :: 0 <= i < |r| ==>
              && RewrittenVolumes(volumes)[i] == VolumeCell(r[i].volume)
              && (r[i].volume.None? <==> volumes[i] == Null || volumes[i] == Num(0.0))
  {
  }
}
