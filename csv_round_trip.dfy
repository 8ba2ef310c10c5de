/** What the export means: read back with the reader of section 2 of RFC 4180,
    the text of `convertToCSV` is the transposed table of the records' values,
    one record per property name of the first record. */
module CsvRoundTrip {
  import opened Options
  import opened JsValues
  import opened CsvExport
  import opened CsvReader

  /** How the export writes a field's text: quoted, with doubled quotes, when
      it holds a comma, a double quote or a line feed, verbatim otherwise. */
  function Written(t: string): string
  {
    if NeedsQuoting(t) then ['"'] + DoubleQuotes(t) + ['"'] else t
  }

  function WrittenAll(ts: seq<string>): (ws: seq<string>)
    ensures |ws| == |ts|
    ensures forall i :: 0 <= i < |ts| ==> ws[i] == Written(ts[i])
  {
    seq(|ts|, i requires 0 <= i < |ts| => Written(ts[i]))
  }

  /** Number texts that need no quoting, as JavaScript's do. */
  ghost predicate PlainNumbers(showNumber: real -> string)
  {
    forall x :: !NeedsQuoting(showNumber(x))
  }

  /** Property names that need no quoting: the export writes names verbatim. */
  predicate PlainKeys(obj: JsObject)
  {
    forall i :: 0 <= i < |obj| ==> !NeedsQuoting(obj[i].0)
  }

  /** The table the export stands for: for each property name of the first
      record, that name followed by the text of the property in every record. */
  function Transposed(objs: seq<JsObject>, showNumber: real -> string): (table: seq<seq<string>>)
    requires |objs| > 0
    ensures |table| == |objs[0]|
    ensures forall k :: 0 <= k < |table| ==> |table[k]| == |objs| + 1 && table[k][0] == objs[0][k].0
    ensures forall k, j :: 0 <= k < |table| && 0 <= j < |objs| ==>
              table[k][j + 1] == JoinText(Get(objs[j], objs[0][k].0), showNumber)
  {
    var keys := Keys(objs[0]);
    seq(|keys|, k requires 0 <= k < |keys| =>
      [keys[k]] + seq(|objs|, j requires 0 <= j < |objs| => JoinText(Get(objs[j], keys[k]), showNumber)))
  }

  /** Each row of a table with its fields after the first reversed. */
  function ReversedFields(table: seq<seq<string>>): (r: seq<seq<string>>)
    requires forall k :: 0 <= k < |table| ==> |table[k]| > 0
    ensures |r| == |table|
    ensures forall k :: 0 <= k < |table| ==> r[k] == [table[k][0]] + Reverse(table[k][1..])
  {
    seq(|table|, k requires 0 <= k < |table| => [table[k][0]] + Reverse(table[k][1..]))
  }

  /** A quoted field's body reads back as the text whose quotes were doubled. */
  lemma {:induction false} ReadQuotedDoubled(t: string, rest: string)
    requires rest == [] || rest[0] != '"'
    ensures ReadQuoted(DoubleQuotes(t) + ['"'] + rest) == Some((t, rest))
    decreases |t|
  {
    var s := DoubleQuotes(t) + ['"'] + rest;
    if t == [] {
      assert s == ['"'] + rest;
      assert s[0] == '"' && s[1..] == rest;
    } else {
      var tail := DoubleQuotes(t[1..]) + ['"'] + rest;
      ReadQuotedDoubled(t[1..], rest);
      var r := ReadQuoted(tail);
      assert r == Some((t[1..], rest));
      if t[0] == '"' {
        assert s == ['"', '"'] + tail;
        assert s[0] == '"' && s[1] == '"' && s[2..] == tail;
        assert ReadQuoted(s) == Some((['"'] + t[1..], rest));
        assert t == ['"'] + t[1..];
      } else {
        assert s == [t[0]] + tail;
        assert s[0] == t[0] && s[1..] == tail;
        assert ReadQuoted(s) == Some(([t[0]] + t[1..], rest));
        assert t == [t[0]] + t[1..];
      }
    }
  }

  /** A text with no comma or line feed reads back whole as an unquoted field. */
  lemma {:induction false} ReadUnquotedPlain(t: string, rest: string)
    requires ',' !in t && '\n' !in t
    requires rest == [] || rest[0] == ',' || rest[0] == '\n'
    ensures ReadUnquoted(t + rest) == (t, rest)
    decreases |t|
  {
    if t == [] {
      assert t + rest == rest;
    } else {
      assert (t + rest)[1..] == t[1..] + rest;
      ReadUnquotedPlain(t[1..], rest);
      assert [t[0]] + t[1..] == t;
    }
  }

  /** A quoted field reads back as the text whose quotes were doubled. */
  lemma ReadFieldQuoted(t: string, rest: string)
    requires rest == [] || rest[0] == ',' || rest[0] == '\n'
    ensures ReadField(['"'] + DoubleQuotes(t) + ['"'] + rest) == Some((t, rest))
  {
    var body := DoubleQuotes(t) + ['"'] + rest;
    assert ['"'] + DoubleQuotes(t) + ['"'] + rest == ['"'] + body;
    assert (['"'] + body)[1..] == body;
    ReadQuotedDoubled(t, rest);
  }

  /** A text with no separator or quote reads back unquoted. */
  lemma ReadFieldPlain(t: string, rest: string)
    requires !NeedsQuoting(t)
    requires rest == [] || rest[0] == ',' || rest[0] == '\n'
    ensures ReadField(t + rest) == Some((t, rest))
  {
    ReadUnquotedPlain(t, rest);
    if t != [] {
      assert (t + rest)[0] == t[0];
    }
  }

  /** Every text reads back from the way the export writes it. */
  lemma ReadFieldWritten(t: string, rest: string)
    requires rest == [] || rest[0] == ',' || rest[0] == '\n'
    ensures ReadField(Written(t) + rest) == Some((t, rest))
  {
    if NeedsQuoting(t) {
      ReadFieldQuoted(t, rest);
    } else {
      ReadFieldPlain(t, rest);
    }
  }

  /** A written record reads back as its fields. */
  lemma {:induction false} ReadRecordWritten(ts: seq<string>, rest: string)
    requires |ts| > 0
    requires rest == [] || rest[0] == '\n'
    ensures ReadRecord(Join(WrittenAll(ts), ",") + rest) == Some((ts, rest))
    decreases |ts|
  {
    var ws := WrittenAll(ts);
    if |ts| == 1 {
      ReadFieldWritten(ts[0], rest);
      assert [ts[0]] == ts;
    } else {
      var tail := Join(WrittenAll(ts[1..]), ",") + rest;
      assert ws[1..] == WrittenAll(ts[1..]);
      assert Join(ws, ",") + rest == Written(ts[0]) + ("," + tail);
      ReadFieldWritten(ts[0], "," + tail);
      assert ("," + tail)[1..] == tail;
      ReadRecordWritten(ts[1..], rest);
      assert [ts[0]] + ts[1..] == ts;
    }
  }

  /** The written lines of a table. */
  function WrittenLines(table: seq<seq<string>>): (lines: seq<string>)
    ensures |lines| == |table|
    ensures forall k :: 0 <= k < |table| ==> lines[k] == Join(WrittenAll(table[k]), ",")
  {
    seq(|table|, k requires 0 <= k < |table| => Join(WrittenAll(table[k]), ","))
  }

  /** A written table whose records have at least two fields reads back as
      that table: no written line is empty, so none is lost. */
  lemma {:induction false} ReadTableWritten(table: seq<seq<string>>)
    requires forall k :: 0 <= k < |table| ==> |table[k]| >= 2
    ensures ReadTable(Join(WrittenLines(table), "\n")) == Some(table)
    decreases |table|
  {
    var lines := WrittenLines(table);
    if |table| > 0 {
      var first := table[0];
      assert |Join(WrittenAll(first), ",")| > 0 by {
        assert Join(WrittenAll(first), ",") == Written(first[0]) + "," + Join(WrittenAll(first)[1..], ",");
      }
      if |table| == 1 {
        ReadRecordWritten(first, []);
        assert Join(WrittenAll(first), ",") + [] == Join(WrittenAll(first), ",");
        assert [first] == table;
      } else {
        var more := Join(WrittenLines(table[1..]), "\n");
        assert lines[1..] == WrittenLines(table[1..]);
        assert Join(lines, "\n") == Join(WrittenAll(first), ",") + ("\n" + more);
        ReadRecordWritten(first, "\n" + more);
        assert ("\n" + more)[1..] == more;
        ReadTableWritten(table[1..]);
        assert [first] + table[1..] == table;
      }
    }
  }

  /** A value's join text after the `map` callback is its own text as written. */
  lemma EncodedText(v: JsValue, showNumber: real -> string)
    requires PlainNumbers(showNumber)
    ensures JoinText(EncodeField(v), showNumber) == Written(JoinText(v, showNumber))
  {
    if v.Num? {
      assert !NeedsQuoting(showNumber(v.x));
    } else if !v.Str? {
      assert !NeedsQuoting(JoinText(v, showNumber));
    }
  }

  /** A line of the export is the written form of the name and the texts. */
  lemma LineWritten(key: string, values: seq<JsValue>, fields: seq<JsValue>, showNumber: real -> string)
    requires PlainNumbers(showNumber) && !NeedsQuoting(key)
    requires |values| == |fields|
    requires forall j :: 0 <= j < |fields| ==> values[j] == EncodeField(fields[j])
    ensures Line(key, values, showNumber) == Join(WrittenAll([key] + Texts(fields, showNumber)), ",")
  {
    var texts := Texts([Str(key)] + values, showNumber);
    var ws := WrittenAll([key] + Texts(fields, showNumber));
    forall j | 0 <= j < |texts|
      ensures texts[j] == ws[j]
    {
      if j > 0 {
        EncodedText(fields[j - 1], showNumber);
      }
    }
    assert texts == ws;
  }

  /** Line `k` of the export is row `k` of the transposed table, written. */
  lemma TransposedLine(objs: seq<JsObject>, showNumber: real -> string, k: nat)
    requires |objs| > 0 && k < |objs[0]|
    requires PlainKeys(objs[0]) && PlainNumbers(showNumber)
    ensures Line(objs[0][k].0, Values(objs, objs[0][k].0), showNumber)
         == Join(WrittenAll(Transposed(objs, showNumber)[k]), ",")
  {
    var key := objs[0][k].0;
    var fields := seq(|objs|, j requires 0 <= j < |objs| => Get(objs[j], key));
    LineWritten(key, Values(objs, key), fields, showNumber);
    assert [key] + Texts(fields, showNumber) == Transposed(objs, showNumber)[k];
  }

  /** Line `k` of the inverse export is row `k` of the transposed table with
      its fields reversed, written. */
  lemma ReversedLine(objs: seq<JsObject>, showNumber: real -> string, k: nat)
    requires |objs| > 0 && k < |objs[0]|
    requires PlainKeys(objs[0]) && PlainNumbers(showNumber)
    ensures Line(objs[0][k].0, Reverse(Values(objs, objs[0][k].0)), showNumber)
         == Join(WrittenAll(ReversedFields(Transposed(objs, showNumber))[k]), ",")
  {
    var key := objs[0][k].0;
    var props := seq(|objs|, j requires 0 <= j < |objs| => Get(objs[j], key));
    var fields := Reverse(props);
    var reversedRow := ReversedFields(Transposed(objs, showNumber))[k];
    assert [key] + Texts(fields, showNumber) == reversedRow by {
      ReversedTexts(objs, showNumber, k);
      ReversedRow(objs, showNumber, k);
    }
    assert Line(key, Reverse(Values(objs, key)), showNumber)
        == Join(WrittenAll([key] + Texts(fields, showNumber)), ",") by {
      ReverseEncoded(props, Values(objs, key));
      LineWritten(key, Reverse(Values(objs, key)), fields, showNumber);
    }
  }

  /** Reversing keeps each value the encoding of its property. */
  lemma ReverseEncoded(props: seq<JsValue>, values: seq<JsValue>)
    requires |values| == |props|
    requires forall j :: 0 <= j < |props| ==> values[j] == EncodeField(props[j])
    ensures forall j :: 0 <= j < |props| ==> Reverse(values)[j] == EncodeField(Reverse(props)[j])
  {
  }

  /** Row `k` of the reversed table is the key and then row `k`'s fields reversed. */
  lemma ReversedRow(objs: seq<JsObject>, showNumber: real -> string, k: nat)
    requires |objs| > 0 && k < |objs[0]|
    ensures ReversedFields(Transposed(objs, showNumber))[k]
         == [objs[0][k].0] + Reverse(Transposed(objs, showNumber)[k][1..])
  {
  }

  /** The texts of the reversed properties are the reversed fields of the row. */
  lemma ReversedTexts(objs: seq<JsObject>, showNumber: real -> string, k: nat)
    requires |objs| > 0 && k < |objs[0]|
    ensures Texts(Reverse(seq(|objs|, j requires 0 <= j < |objs| => Get(objs[j], objs[0][k].0))), showNumber)
         == Reverse(Transposed(objs, showNumber)[k][1..])
  {
    var props := seq(|objs|, j requires 0 <= j < |objs| => Get(objs[j], objs[0][k].0));
    TextsOfReverse(props, showNumber);
    RowFields(objs, showNumber, k);
  }

  /** Taking texts commutes with reversing. */
  lemma TextsOfReverse(values: seq<JsValue>, showNumber: real -> string)
    ensures Texts(Reverse(values), showNumber) == Reverse(Texts(values, showNumber))
  {
  }

  /** The fields of a row after the key are the texts of that property. */
  lemma RowFields(objs: seq<JsObject>, showNumber: real -> string, k: nat)
    requires |objs| > 0 && k < |objs[0]|
    ensures Transposed(objs, showNumber)[k][1..]
         == Texts(seq(|objs|, j requires 0 <= j < |objs| => Get(objs[j], objs[0][k].0)), showNumber)
  {
  }

  /** `convertToCSV` of `writeRowsCSVFile` is exactly the written lines of the
      transposed table joined by line feeds, and read back it is that table:
      one record per property name of the first record, in key order, holding
      the name and then the property's text in every record, in record order. */
  lemma ConvertToCSVReadsBack(objs: seq<JsObject>, showNumber: real -> string)
    requires |objs| > 0
    requires PlainKeys(objs[0]) && PlainNumbers(showNumber)
    ensures ConvertToCSV(objs, showNumber) == Join(WrittenLines(Transposed(objs, showNumber)), "\n")
    ensures ReadTable(ConvertToCSV(objs, showNumber)) == Some(Transposed(objs, showNumber))
  {
    var keys := Keys(objs[0]);
    var table := Transposed(objs, showNumber);
    var lines := seq(|keys|, k requires 0 <= k < |keys| => Line(keys[k], Values(objs, keys[k]), showNumber));
    forall k | 0 <= k < |keys|
      ensures lines[k] == WrittenLines(table)[k]
    {
      TransposedLine(objs, showNumber, k);
    }
    assert lines == WrittenLines(table);
    ReadTableWritten(table);
  }

  /** `convertToCSV` of `writeInverseRowsCSVFile` is exactly the written lines
      of the same table with each record's fields after the name in reverse
      record order, and read back it is that table. */
  lemma ConvertToCSVInverseReadsBack(objs: seq<JsObject>, showNumber: real -> string)
    requires |objs| > 0
    requires PlainKeys(objs[0]) && PlainNumbers(showNumber)
    ensures ConvertToCSVInverse(objs, showNumber) == Join(WrittenLines(ReversedFields(Transposed(objs, showNumber))), "\n")
    ensures ReadTable(ConvertToCSVInverse(objs, showNumber)) == Some(ReversedFields(Transposed(objs, showNumber)))
  {
    var keys := Keys(objs[0]);
    var table := ReversedFields(Transposed(objs, showNumber));
    var lines := seq(|keys|, k requires 0 <= k < |keys| => Line(keys[k], Reverse(Values(objs, keys[k])), showNumber));
    forall k | 0 <= k < |keys|
      ensures lines[k] == WrittenLines(table)[k]
    {
      ReversedLine(objs, showNumber, k);
    }
    assert lines == WrittenLines(table);
    ReadTableWritten(table);
  }

  /** The last character of a join of two or more parts: the last part's last
      character, or the separator's when the last part is empty. */
  lemma {:induction false} JoinEndsWith(parts: seq<string>, sep: string)
    requires |parts| >= 2 && |sep| > 0
    ensures var j, last := Join(parts, sep), parts[|parts| - 1];
      |j| > 0 && j[|j| - 1] == (if last != [] then last[|last| - 1] else sep[|sep| - 1])
    decreases |parts|
  {
    var last := parts[|parts| - 1];
    if |parts| == 2 {
      assert Join(parts[1..], sep) == last;
    } else {
      JoinEndsWith(parts[1..], sep);
      assert parts[1..][|parts[1..]| - 1] == last;
    }
  }

  /** A written field never ends in a line feed: a quoted one ends in its
      closing quote, and an unquoted one holds no line feed. */
  lemma WrittenEnd(t: string)
    requires Written(t) != []
    ensures Written(t)[|Written(t)| - 1] != '\n'
  {
    if !NeedsQuoting(t) {
      assert t[|t| - 1] in t;
    }
  }

  /** A written line of two or more fields is not empty and does not end in a
      line feed. */
  lemma WrittenLineEnd(row: seq<string>)
    requires |row| >= 2
    ensures var l := Join(WrittenAll(row), ","); |l| > 0 && l[|l| - 1] != '\n'
  {
    var ws := WrittenAll(row);
    JoinEndsWith(ws, ",");
    if ws[|ws| - 1] != [] {
      WrittenEnd(row[|row| - 1]);
    }
  }

  /** The written lines of a table, joined by line feeds, are empty or end in
      something other than a line feed. */
  lemma WrittenTableEnd(table: seq<seq<string>>)
    requires forall k :: 0 <= k < |table| ==> |table[k]| >= 2
    ensures var t := Join(WrittenLines(table), "\n"); t == [] || t[|t| - 1] != '\n'
  {
    var lines := WrittenLines(table);
    if |lines| == 1 {
      WrittenLineEnd(table[0]);
    } else if |lines| >= 2 {
      JoinEndsWith(lines, "\n");
      WrittenLineEnd(table[|table| - 1]);
    }
  }

  /** The export has no line feed after its last line. */
  lemma ConvertToCSVNoFinalLineFeed(objs: seq<JsObject>, showNumber: real -> string)
    requires |objs| > 0
    requires PlainKeys(objs[0]) && PlainNumbers(showNumber)
    ensures var t := ConvertToCSV(objs, showNumber); t == [] || t[|t| - 1] != '\n'
  {
    ConvertToCSVReadsBack(objs, showNumber);
    WrittenTableEnd(Transposed(objs, showNumber));
  }

  /** The inverse export has no line feed after its last line. */
  lemma ConvertToCSVInverseNoFinalLineFeed(objs: seq<JsObject>, showNumber: real -> string)
    requires |objs| > 0
    requires PlainKeys(objs[0]) && PlainNumbers(showNumber)
    ensures var t := ConvertToCSVInverse(objs, showNumber); t == [] || t[|t| - 1] != '\n'
  {
    ConvertToCSVInverseReadsBack(objs, showNumber);
    WrittenTableEnd(ReversedFields(Transposed(objs, showNumber)));
  }

  /** The inverse export of the records is the plain export of the records in
      reverse order, as long as the first and the last record have the same
      property names in the same order. */
  lemma InverseIsReversedRecords(objs: seq<JsObject>, showNumber: real -> string)
    requires |objs| > 0
    requires Keys(objs[0]) == Keys(objs[|objs| - 1])
    ensures ConvertToCSVInverse(objs, showNumber) == ConvertToCSV(Reverse(objs), showNumber)
  {
    var keys := Keys(objs[0]);
    var reversed := Reverse(objs);
    assert Keys(reversed[0]) == keys;
    var inverseLines := seq(|keys|, k requires 0 <= k < |keys| => Line(keys[k], Reverse(Values(objs, keys[k])), showNumber));
    var lines := seq(|keys|, k requires 0 <= k < |keys| => Line(keys[k], Values(reversed, keys[k]), showNumber));
    forall k | 0 <= k < |keys|
      ensures inverseLines[k] == lines[k]
    {
      ReverseValues(objs, keys[k]);
    }
    assert inverseLines == lines;
    assert ConvertToCSVInverse(objs, showNumber) == Join(inverseLines, "\n");
    assert ConvertToCSV(reversed, showNumber) == Join(lines, "\n");
  }

  lemma ReverseValues(objs: seq<JsObject>, key: string)
    ensures Reverse(Values(objs, key)) == Values(Reverse(objs), key)
  {
  }

  /** The file content starts with the byte order mark and, read back after
      it, is the transposed table. */
  lemma RowsFileReadsBack(data: seq<JsObject>, showNumber: real -> string)
    requires |data| > 0
    requires PlainKeys(data[0]) && PlainNumbers(showNumber)
    ensures RowsFileContent(data, showNumber).Some?
    ensures ReadTable(RowsFileContent(data, showNumber).value[1..]) == Some(Transposed(data, showNumber))
  {
    ConvertToCSVReadsBack(data, showNumber);
  }
}
