/** The keep-alive schedule of helpers/req-helpers.js: the settings read from
    the environment, the quiet-hours test on the current hour in Taipei, and
    which checks send a request. The clock, the HTTP request and the timer are
    not part of the model: the hour each check observes is a parameter. */
module KeepAlive {
  import opened Options
  import opened Decimal

  /** The white space and line terminators `parseInt` skips before the
      number (sections 12.2 and 12.3 of ECMA-262). */
  predicate IsJsWhiteSpace(c: char)
  {
    c == '\t' || c == '\n' || c == '\U{000B}' || c == '\U{000C}' || c == '\r' || c == ' '
    || c == '\U{00A0}' || c == '\U{1680}' || ('\U{2000}' <= c <= '\U{200A}')
    || c == '\U{2028}' || c == '\U{2029}' || c == '\U{202F}' || c == '\U{205F}'
    || c == '\U{3000}' || c == '\U{FEFF}'
  }

  /** The text with its leading white space removed. */
  function TrimStart(s: string): (t: string)
    ensures |t| <= |s| && t == s[|s| - |t|..]
    ensures forall i :: 0 <= i < |s| - |t| ==> IsJsWhiteSpace(s[i])
    ensures t == [] || !IsJsWhiteSpace(t[0])
  {
    if s != [] && IsJsWhiteSpace(s[0]) then TrimStart(s[1..]) else s
  }

  /** The longest prefix of decimal digits. */
  function LeadingDigits(s: string): (d: string)
    ensures |d| <= |s| && d == s[..|d|] && AllDigits(d)
    ensures |d| == |s| || !IsDigit(s[|d|])
  {
    if s != [] && IsDigit(s[0]) then [s[0]] + LeadingDigits(s[1..]) else []
  }

  /** `parseInt(value, 10)`, with `None` for NaN: leading white space is
      skipped, then the number is read by `ParseSigned`. An unset variable is
      `undefined`, whose text has no digit. */
  function ParseInt(value: Option<string>): (r: Option<int>)
  {
    if value.None? then None else ParseSigned(TrimStart(value.value))
  }

  /** One sign, then the longest run of digits; no digit at all is NaN. */
  function ParseSigned(t: string): (r: Option<int>)
  {
    var negative := t != [] && t[0] == '-';
    var unsigned := if t != [] && (t[0] == '-' || t[0] == '+') then t[1..] else t;
    var digits := LeadingDigits(unsigned);
    if digits == [] then None
    else Some(if negative then -(ValueOf(digits) as int) else ValueOf(digits))
  }

  /** `n || fallback` on the result of `parseInt`: NaN and zero are falsy. */
  function OrDefault(n: Option<int>, fallback: int): int
  {
    if n.Some? && n.value != 0 then n.value else fallback
  }

  const DefaultBreakHour: int := 0
  const DefaultContinueHour: int := 6

  /** `breakHour` from `TOGGLE_RENDER_APP_ALIVE_BREAK_HOUR`. */
  function BreakHour(env: Option<string>): (h: int)
    ensures ParseInt(env).Some? ==> h == ParseInt(env).value
    ensures ParseInt(env).None? ==> h == DefaultBreakHour
  {
    OrDefault(ParseInt(env), DefaultBreakHour)
  }

  /** `continueHour` from `TOGGLE_RENDER_APP_ALIVE_CONTINUE_HOUR`: it is never
      zero, as a zero setting is falsy and falls back to 6 like a missing one. */
  function ContinueHour(env: Option<string>): (h: int)
    ensures h != 0
    ensures ParseInt(env).Some? && ParseInt(env).value != 0 ==> h == ParseInt(env).value
    ensures ParseInt(env).None? || ParseInt(env).value == 0 ==> h == DefaultContinueHour
  {
    OrDefault(ParseInt(env), DefaultContinueHour)
  }

  /** ASCII upper case to lower case; the other characters are unchanged. */
  function LowerAscii(c: char): char
  {
    if 'A' <= c <= 'Z' then (c as int + 32) as char else c
  }

  /** `toggleServer`: `TOGGLE_RENDER_APP_ALIVE?.toLowerCase() === 'true'`. */
  function ToggleOn(env: Option<string>): (on: bool)
    ensures on <==> env.Some? && |env.value| == 4 && forall i :: 0 <= i < 4 ==> LowerAscii(env.value[i]) == "true"[i]
  {
    env.Some? && |env.value| == 4 && LowerAscii(env.value[0]) == 't' && LowerAscii(env.value[1]) == 'r'
    && LowerAscii(env.value[2]) == 'u' && LowerAscii(env.value[3]) == 'e'
  }

  /** `isQuietHours()` at the hour `currentHour`. */
  predicate IsQuietHours(breakHour: int, continueHour: int, currentHour: int)
  {
    if breakHour < continueHour then
      currentHour >= breakHour && currentHour < continueHour
    else
      currentHour >= breakHour || currentHour < continueHour
  }

  /** The two cases of the test; equal hours make every hour quiet. */
  lemma QuietHoursCases(breakHour: int, continueHour: int, currentHour: int)
    ensures breakHour < continueHour ==>
              (IsQuietHours(breakHour, continueHour, currentHour) <==> breakHour <= currentHour < continueHour)
    ensures breakHour >= continueHour ==>
              (IsQuietHours(breakHour, continueHour, currentHour) <==> currentHour >= breakHour || currentHour < continueHour)
    ensures breakHour == continueHour ==> IsQuietHours(breakHour, continueHour, currentHour)
  {
  }

  /** On the 24-hour clock face the quiet hours run forward from `breakHour`,
      included, to `continueHour`, excluded, across midnight when needed; when
      the two are equal the arc is the whole day. */
  lemma QuietIsForwardArc(breakHour: int, continueHour: int, currentHour: int)
    requires 0 <= breakHour < 24 && 0 <= continueHour < 24 && 0 <= currentHour < 24
    ensures IsQuietHours(breakHour, continueHour, currentHour) <==>
              breakHour == continueHour || (currentHour - breakHour) % 24 < (continueHour - breakHour) % 24
  {
    var d := (currentHour - breakHour) % 24;
    var span := (continueHour - breakHour) % 24;
    if currentHour >= breakHour {
      assert d == currentHour - breakHour;
    } else {
      assert d == currentHour - breakHour + 24;
    }
    if continueHour >= breakHour {
      assert span == continueHour - breakHour;
    } else {
      assert span == continueHour - breakHour + 24;
    }
  }

  const HoursPerDay: nat := 24

  /** The number of quiet hours among `0, ..., n - 1`. */
  function QuietCount(breakHour: int, continueHour: int, n: nat): nat
  {
    if n == 0 then 0
    else QuietCount(breakHour, continueHour, n - 1) + (if IsQuietHours(breakHour, continueHour, n - 1) then 1 else 0)
  }

  lemma {:induction false} QuietCountUpTo(breakHour: int, continueHour: int, n: nat)
    requires 0 <= breakHour && 0 <= continueHour
    ensures breakHour < continueHour ==>
              QuietCount(breakHour, continueHour, n) ==
                if n <= breakHour then 0 else if n <= continueHour then n - breakHour else continueHour - breakHour
    ensures breakHour >= continueHour ==>
              QuietCount(breakHour, continueHour, n) ==
                (if n <= continueHour then n else continueHour) + (if n <= breakHour then 0 else n - breakHour)
  {
    if n > 0 {
      QuietCountUpTo(breakHour, continueHour, n - 1);
    }
  }

  /** A day has `continueHour - breakHour` quiet hours, counted forward
      around the clock; equal hours make all 24 quiet. */
  lemma QuietHoursPerDay(breakHour: int, continueHour: int)
    requires 0 <= breakHour < 24 && 0 <= continueHour < 24
    ensures QuietCount(breakHour, continueHour, HoursPerDay) ==
              if breakHour == continueHour then 24 else (continueHour - breakHour) % 24
  {
    QuietCountUpTo(breakHour, continueHour, HoursPerDay);
  }

  /** What one check does: `!isQuietHours() ? reqStockReport() : console.log(...)`. */
  datatype Check = SendRequest | Pause

  function CheckAt(breakHour: int, continueHour: int, hour: int): (c: Check)
    ensures c == SendRequest <==> !IsQuietHours(breakHour, continueHour, hour)
  {
    if !IsQuietHours(breakHour, continueHour, hour) then SendRequest else Pause
  }

  /** The checks `scheduleKeepAliveReq` makes: none when the toggle is off;
      otherwise the immediate one and one per timer tick, each at the hour it
      observes. */
  function Checks(toggle: bool, breakHour: int, continueHour: int, hours: seq<int>): (checks: seq<Check>)
    ensures !toggle ==> checks == []
    ensures toggle ==> |checks| == |hours|
    ensures toggle ==> forall i :: 0 <= i < |hours| ==>
              (checks[i] == SendRequest <==> !IsQuietHours(breakHour, continueHour, hours[i]))
  {
    if !toggle then []
    else seq(|hours|, i requires 0 <= i < |hours| => CheckAt(breakHour, continueHour, hours[i]))
  }

  /** `parseInt` skips the white space before a number, reads its sign and
      ignores whatever follows its digits. */
  lemma ParseIntOfText(ws: string, sign: string, d: string, rest: string)
    requires forall i :: 0 <= i < |ws| ==> IsJsWhiteSpace(ws[i])
    requires sign == "" || sign == "+" || sign == "-"
    requires d != [] && AllDigits(d)
    requires rest == [] || !IsDigit(rest[0])
    ensures ParseInt(Some(ws + (sign + (d + rest)))) == Some(if sign == "-" then -(ValueOf(d) as int) else ValueOf(d))
  {
    var u := d + rest;
    var t := sign + u;
    LeadingDigitsOf(d, rest);
    assert u[0] == d[0];
    assert t != [] && !IsJsWhiteSpace(t[0]);
    TrimWhiteSpace(ws, t);
    assert ParseInt(Some(ws + t)) == ParseSigned(t);
    if sign == "-" {
      assert t[0] == '-' && t[1..] == u;
    } else if sign == "+" {
      assert t[0] == '+' && t[1..] == u;
    } else {
      assert t == u && t[0] != '-' && t[0] != '+';
    }
    assert LeadingDigits(if sign == "" then t else t[1..]) == d;
    ParseSignedOf(t, d);
  }

  lemma ParseSignedOf(t: string, d: string)
    requires d != [] && AllDigits(d)
    requires t != []
    requires LeadingDigits(if t[0] == '-' || t[0] == '+' then t[1..] else t) == d
    ensures ParseSigned(t) == Some(if t[0] == '-' then -(ValueOf(d) as int) else ValueOf(d))
  {
  }

  /** Reading back a written integer, with or without a sign. */
  lemma ParseIntOfDigits(ws: string, sign: string, n: nat, rest: string)
    requires forall i :: 0 <= i < |ws| ==> IsJsWhiteSpace(ws[i])
    requires sign == "" || sign == "+" || sign == "-"
    requires rest == [] || !IsDigit(rest[0])
    ensures ParseInt(Some(ws + (sign + (Digits(n) + rest)))) == Some(if sign == "-" then -(n as int) else n)
  {
    ValueOfDigits(n);
    ParseIntOfText(ws, sign, Digits(n), rest);
  }

  lemma {:induction false} TrimWhiteSpace(ws: string, t: string)
    requires forall i :: 0 <= i < |ws| ==> IsJsWhiteSpace(ws[i])
    requires t == [] || !IsJsWhiteSpace(t[0])
    ensures TrimStart(ws + t) == t
    decreases |ws|
  {
    if ws == [] {
      assert ws + t == t;
    } else {
      assert (ws + t)[1..] == ws[1..] + t;
      TrimWhiteSpace(ws[1..], t);
    }
  }

  lemma {:induction false} LeadingDigitsOf(d: string, rest: string)
    requires AllDigits(d)
    requires rest == [] || !IsDigit(rest[0])
    ensures LeadingDigits(d + rest) == d
    decreases |d|
  {
    if d == [] {
      assert d + rest == rest;
    } else {
      assert (d + rest)[1..] == d[1..] + rest;
      LeadingDigitsOf(d[1..], rest);
      assert [d[0]] + d[1..] == d;
    }
  }

  /** A setting written as a whole number: the break hour is that number; the
      continue hour is too, except that zero gives 6. */
  lemma SettingsOfDecimal(n: nat)
    ensures BreakHour(Some(Digits(n))) == n
    ensures ContinueHour(Some(Digits(n))) == if n == 0 then DefaultContinueHour else n
  {
    ParseIntOfDigits([], [], n, []);
    assert [] + ([] + (Digits(n) + [])) == Digits(n);
  }

  /** With both hours unset, requests are sent from 6 o'clock to midnight and
      never between midnight and 6. */
  lemma DefaultScheduleSkipsNight(toggle: bool, hours: seq<int>)
    requires toggle
    requires forall i :: 0 <= i < |hours| ==> 0 <= hours[i] < 24
    ensures forall i :: 0 <= i < |hours| ==>
              (Checks(toggle, BreakHour(None), ContinueHour(None), hours)[i] == SendRequest <==> 6 <= hours[i])
    ensures QuietCount(BreakHour(None), ContinueHour(None), HoursPerDay) == 6
  {
    QuietHoursPerDay(0, 6);
  }
}
