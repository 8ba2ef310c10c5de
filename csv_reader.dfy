/** A reader for the comma-separated values format of section 2 of RFC 4180,
    with a line feed as the line break: fields are separated by commas, records
    by line feeds, and a field in double quotes may hold commas, line feeds and
    doubled double quotes. It is the reference the export is read back with. */
module CsvReader {
  import opened Options

  /** The rest of a quoted field after its opening quote: the text up to the
      closing quote, with each pair of quotes read as one, and what follows
      the closing quote; `None` when the quote is never closed. */
  function ReadQuoted(s: string): (r: Option<(string, string)>)
    ensures r.Some? ==> |r.value.1| < |s|
    decreases |s|
  {
    if s == [] then None
    else if s[0] == '"' then
      if |s| > 1 && s[1] == '"' then
        match ReadQuoted(s[2..])
        case None => None
        case Some((t, rest)) => Some(("\"" + t, rest))
      else Some(("", s[1..]))
    else
      match ReadQuoted(s[1..])
      case None => None
      case Some((t, rest)) => Some(([s[0]] + t, rest))
  }

  /** An unquoted field: everything up to the next comma or line feed. */
  function ReadUnquoted(s: string): (r: (string, string))
    ensures r.0 + r.1 == s
    ensures ',' !in r.0 && '\n' !in r.0
    ensures r.1 == [] || r.1[0] == ',' || r.1[0] == '\n'
    decreases |s|
  {
    if s == [] || s[0] == ',' || s[0] == '\n' then ([], s)
    else
      var r := ReadUnquoted(s[1..]);
      assert s == [s[0]] + (r.0 + r.1);
      ([s[0]] + r.0, r.1)
  }

  /** One field and what follows it. */
  function ReadField(s: string): (r: Option<(string, string)>)
    ensures r.Some? ==> |r.value.1| <= |s|
  {
    if |s| > 0 && s[0] == '"' then ReadQuoted(s[1..]) else Some(ReadUnquoted(s))
  }

  /** One record: its fields, and the rest of the text, which is empty or
      starts with the line feed that ends the record. `None` when a quoted
      field is unterminated or followed by anything but a separator. */
  function ReadRecord(s: string): (r: Option<(seq<string>, string)>)
    ensures r.Some? ==> |r.value.0| > 0 && |r.value.1| <= |s|
    ensures r.Some? ==> r.value.1 == [] || r.value.1[0] == '\n'
    decreases |s|
  {
    match ReadField(s)
    case None => None
    case Some((field, rest)) =>
      if rest == [] || rest[0] == '\n' then Some(([field], rest))
      else if rest[0] == ',' then
        match ReadRecord(rest[1..])
        case None => None
        case Some((fields, after)) => Some(([field] + fields, after))
      else None
  }

  /** The records of a whole text; a final line feed ends the last record. */
  function ReadTable(s: string): (r: Option<seq<seq<string>>>)
    ensures r.Some? ==> forall k :: 0 <= k < |r.value| ==> |r.value[k]| > 0
    decreases |s|
  {
    if s == [] then Some([])
    else
      match ReadRecord(s)
      case None => None
      case Some((fields, rest)) =>
        if rest == [] then Some([fields])
        else
          match ReadTable(rest[1..])
          case None => None
          case Some(records) => Some([fields] + records)
  }
}
