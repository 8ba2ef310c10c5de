/** The CSV export of helpers/csv-helper.js (`convertToCSV` inside
    `writeRowsCSVFile` and inside `writeInverseRowsCSVFile`): the records are
    written transposed, one line per property name of the first record holding
    that name and then the property of every record, and the file content
    starts with a byte order mark. */
module CsvExport {
  import opened Options
  import opened JsValues

  /** A JavaScript object as its own enumerable properties, in key order. */
  type JsObject = seq<(string, JsValue)>

  /** `Object.keys(obj)`. */
  function Keys(obj: JsObject): (keys: seq<string>)
    ensures |keys| == |obj|
    ensures forall i :: 0 <= i < |obj| ==> keys[i] == obj[i].0
  {
    seq(|obj|, i requires 0 <= i < |obj| => obj[i].0)
  }

  /** `obj[key]`: the value of the property, `undefined` when there is none. */
  function Get(obj: JsObject, key: string): JsValue
  {
    if obj == [] then Undefined
    else if obj[0].0 == key then obj[0].1
    else Get(obj[1..], key)
  }

  /** The text `Array.prototype.join` writes for an element: nothing for
      `null` and `undefined`, otherwise the value converted to a string. The
      conversion of a number to text is a parameter, `showNumber`. */
  function JoinText(v: JsValue, showNumber: real -> string): string
  {
    match v
    case Undefined => ""
    case Null => ""
    case NaN => "NaN"
    case Bool(b) => if b then "true" else "false"
    case Num(x) => showNumber(x)
    case Str(s) => s
  }

  /** `Array.prototype.join(sep)`: the parts with `sep` between neighbours. */
  function Join(parts: seq<string>, sep: string): string
    decreases |parts|
  {
    if parts == [] then ""
    else if |parts| == 1 then parts[0]
    else parts[0] + sep + Join(parts[1..], sep)
  }

  /** `Array.prototype.reverse()` on a freshly mapped array. */
  function Reverse<T>(s: seq<T>): (r: seq<T>)
    ensures |r| == |s|
    ensures forall i :: 0 <= i < |s| ==> r[i] == s[|s| - 1 - i]
  {
    seq(|s|, i requires 0 <= i < |s| => s[|s| - 1 - i])
  }

  /** The condition under which a string value is quoted. */
  predicate NeedsQuoting(s: string)
  {
    ',' in s || '"' in s || '\n' in s
  }

  /** `value.replace(/"/g, '""')`. */
  function DoubleQuotes(s: string): (t: string)
    ensures |t| >= |s|
  {
    if s == [] then []
    else (if s[0] == '"' then "\"\"" else [s[0]]) + DoubleQuotes(s[1..])
  }

  /** The callback of the inner `map`: a string holding a comma, a double
      quote or a line feed comes back wrapped in double quotes with its own
      double quotes doubled; every other value comes back unchanged. */
  function EncodeField(v: JsValue): (r: JsValue)
    ensures r != v <==> v.Str? && NeedsQuoting(v.s)
    ensures r.Str? <==> v.Str?
    ensures r != v ==> |r.s| >= 2 && r.s[0] == '"' && r.s[|r.s| - 1] == '"' && r.s[1..|r.s| - 1] == DoubleQuotes(v.s)
  {
    if v.Str? && NeedsQuoting(v.s) then Str("\"" + DoubleQuotes(v.s) + "\"") else v
  }

  /** `values`: the encoded property `key` of every record, in record order. */
  function Values(objs: seq<JsObject>, key: string): (values: seq<JsValue>)
    ensures |values| == |objs|
    ensures forall j :: 0 <= j < |objs| ==> values[j] == EncodeField(Get(objs[j], key))
  {
    seq(|objs|, j requires 0 <= j < |objs| => EncodeField(Get(objs[j], key)))
  }

  /** The join texts of the elements of an array. */
  function Texts(values: seq<JsValue>, showNumber: real -> string): (texts: seq<string>)
    ensures |texts| == |values|
    ensures forall j :: 0 <= j < |values| ==> texts[j] == JoinText(values[j], showNumber)
  {
    seq(|values|, j requires 0 <= j < |values| => JoinText(values[j], showNumber))
  }

  /** `[key, ...values].join(',')`. */
  function Line(key: string, values: seq<JsValue>, showNumber: real -> string): string
  {
    Join(Texts([Str(key)] + values, showNumber), ",")
  }

  /** `convertToCSV` of `writeRowsCSVFile`. `Object.keys(objArray[0])` throws
      on an empty array, so there must be a record. */
  function ConvertToCSV(objs: seq<JsObject>, showNumber: real -> string): string
    requires |objs| > 0
  {
    var keys := Keys(objs[0]);
    Join(seq(|keys|, k requires 0 <= k < |keys| => Line(keys[k], Values(objs, keys[k]), showNumber)), "\n")
  }

  /** `convertToCSV` of `writeInverseRowsCSVFile`: the same, with each row's
      values reversed before the join. */
  function ConvertToCSVInverse(objs: seq<JsObject>, showNumber: real -> string): string
    requires |objs| > 0
  {
    var keys := Keys(objs[0]);
    Join(seq(|keys|, k requires 0 <= k < |keys| => Line(keys[k], Reverse(Values(objs, keys[k])), showNumber)), "\n")
  }

  /** The UTF-8 byte order mark, U+FEFF. */
  const Bom: char := '\U{FEFF}'

  /** `bom + csvContent`. */
  function WithBom(csvContent: string): (csvWithBom: string)
    ensures |csvWithBom| == |csvContent| + 1
    ensures csvWithBom[0] == Bom && csvWithBom[1..] == csvContent
  {
    [Bom] + csvContent
  }

  /** The text `writeRowsCSVFile` hands to the file system, or `None` when the
      conversion throws (no records) and the promise is rejected. */
  function RowsFileContent(data: seq<JsObject>, showNumber: real -> string): (r: Option<string>)
    ensures r.None? <==> data == []
    ensures r.Some? ==> |r.value| > 0 && r.value[0] == Bom && r.value[1..] == ConvertToCSV(data, showNumber)
  {
    if data == [] then None else Some(WithBom(ConvertToCSV(data, showNumber)))
  }

  /** The text `writeInverseRowsCSVFile` hands to the file system. */
  function InverseRowsFileContent(data: seq<JsObject>, showNumber: real -> string): (r: Option<string>)
    ensures r.None? <==> data == []
    ensures r.Some? ==> |r.value| > 0 && r.value[0] == Bom && r.value[1..] == ConvertToCSVInverse(data, showNumber)
  {
    if data == [] then None else Some(WithBom(ConvertToCSVInverse(data, showNumber)))
  }
}
