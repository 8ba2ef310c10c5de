/** Thousands-separated display of volumes (`formatNumber` in
    helpers/stock-helper.js): `Math.round`, then `toString()`, then the regular
    expression `\B(?=(\d{3})+(?!\d))` replaced by `,` everywhere. */
module VolumeFormat {
  import opened Decimal

  /** `Math.round`: the nearest integer, halves rounded up. */
  function Round(x: real): (r: int)
    ensures x - 0.5 < r as real <= x + 0.5
  {
    (x + 0.5).Floor
  }

  /** The regular-expression replacement on a digit string: a comma goes at
      every position inside the string that has a positive multiple of three
      digits after it. */
  function GroupDigits(d: string): (t: string)
    decreases |d|
  {
    if |d| <= 3 then d else GroupDigits(d[..|d| - 3]) + "," + d[|d| - 3..]
  }

  function RemoveCommas(t: string): string
  {
    if t == [] then [] else (if t[0] == ',' then [] else [t[0]]) + RemoveCommas(t[1..])
  }

  /** `Math.round(x).toString()` with separators; a negative number keeps its
      sign in front, as `\B` does not match between `-` and a digit. */
  function FormatInteger(i: int): string
  {
    if i < 0 then "-" + GroupDigits(Digits(-i)) else GroupDigits(Digits(i))
  }

  function FormatNumber(x: real): string
  {
    FormatInteger(Round(x))
  }

  lemma {:induction false} RemoveCommasAppend(a: string, b: string)
    ensures RemoveCommas(a + b) == RemoveCommas(a) + RemoveCommas(b)
  {
    if a == [] {
      assert a + b == b;
    } else {
      assert (a + b)[1..] == a[1..] + b;
      RemoveCommasAppend(a[1..], b);
    }
  }

  lemma {:induction false} RemoveCommasOfDigits(d: string)
    requires AllDigits(d)
    ensures RemoveCommas(d) == d
  {
    if d != [] {
      RemoveCommasOfDigits(d[1..]);
    }
  }

  /** Taking the commas out of a grouped digit string gives the digits back. */
  lemma {:induction false} GroupDigitsKeepsDigits(d: string)
    requires AllDigits(d)
    ensures RemoveCommas(GroupDigits(d)) == d
    decreases |d|
  {
    if |d| <= 3 {
      RemoveCommasOfDigits(d);
    } else {
      var head, tail := d[..|d| - 3], d[|d| - 3..];
      assert AllDigits(head) && AllDigits(tail);
      GroupDigitsKeepsDigits(head);
      RemoveCommasAfterGroup(GroupDigits(head), tail);
      assert d == head + tail;
    }
  }

  /** Taking the commas out of a group, a comma and three digits drops that comma. */
  lemma {:induction false} RemoveCommasAfterGroup(g: string, tail: string)
    requires AllDigits(tail)
    ensures RemoveCommas(g + "," + tail) == RemoveCommas(g) + tail
  {
    assert RemoveCommas(g + [','] + tail) == RemoveCommas(g + [',']) + RemoveCommas(tail) by {
      RemoveCommasAppend(g + [','], tail);
    }
    assert RemoveCommas(g + [',']) == RemoveCommas(g) by {
      RemoveCommasAppend(g, [',']);
      assert RemoveCommas([',']) == [];
    }
    assert RemoveCommas(tail) == tail by {
      RemoveCommasOfDigits(tail);
    }
  }

  /** In a grouped digit string a comma stands exactly where the comma and the
      characters after it make whole `,ddd` groups. */
  lemma {:induction false} GroupDigitsCommaPositions(d: string)
    requires AllDigits(d)
    ensures forall k :: 0 <= k < |GroupDigits(d)| ==>
              (GroupDigits(d)[k] == ',' <==> (|GroupDigits(d)| - k) % 4 == 0)
    ensures |d| > 0 ==> GroupDigits(d)[0] == d[0]
    decreases |d|
  {
    var t := GroupDigits(d);
    if |d| <= 3 {
      assert forall k :: 0 <= k < |t| ==> t[k] != ',' && (|t| - k) % 4 != 0;
    } else {
      var head, tail := d[..|d| - 3], d[|d| - 3..];
      assert AllDigits(head) && AllDigits(tail);
      GroupDigitsCommaPositions(head);
      var g := GroupDigits(head);
      assert t == g + [','] + tail;
      forall k | 0 <= k < |t|
        ensures t[k] == ',' <==> (|t| - k) % 4 == 0
      {
        CommaAfterGroup(g, tail, k);
      }
    }
  }

  /** Appending a comma and three digits to a string whose commas sit at the
      multiples of four from its end keeps them there. */
  lemma CommaAfterGroup(g: string, tail: string, k: nat)
    requires forall j :: 0 <= j < |g| ==> (g[j] == ',' <==> (|g| - j) % 4 == 0)
    requires |tail| == 3 && AllDigits(tail)
    requires k < |g| + 4
    ensures (g + [','] + tail)[k] == ',' <==> (|g| + 4 - k) % 4 == 0
  {
    var t := g + [','] + tail;
    if k < |g| {
      assert t[k] == g[k];
      assert (|t| - k) % 4 == (|g| - k) % 4;
    } else if k > |g| {
      assert t[k] == tail[k - |g| - 1];
    }
  }

  /** The shape of a grouped digit string `t`: the commas sit where
      `GroupDigitsCommaPositions` says, so the first group holds `|t| % 4`
      digits, one to three, and every later group exactly three; there is a
      comma only when there are more than three digits. */
  lemma GroupDigitsShape(d: string)
    requires AllDigits(d)
    ensures RemoveCommas(GroupDigits(d)) == d
    ensures |d| > 0 ==> |GroupDigits(d)| % 4 != 0
    ensures (exists k :: 0 <= k < |GroupDigits(d)| && GroupDigits(d)[k] == ',') <==> |d| > 3
  {
    GroupDigitsKeepsDigits(d);
    GroupDigitsCommaPositions(d);
    var t := GroupDigits(d);
    if |d| > 0 {
      assert t[0] != ',';
    }
    if |d| > 3 {
      var g := GroupDigits(d[..|d| - 3]);
      assert t[|g|] == ',';
    } else {
      assert forall k :: 0 <= k < |t| ==> t[k] == d[k];
    }
  }

  /** `formatNumber(x)` for `x >= 0`: the decimal digits of `Math.round(x)`
      with commas, grouped as `GroupDigitsShape` says; no comma below 1000. */
  lemma FormatNumberShape(x: real)
    requires x >= 0.0
    ensures Round(x) >= 0
    ensures RemoveCommas(FormatNumber(x)) == Digits(Round(x))
    ensures forall k :: 0 <= k < |FormatNumber(x)| ==>
              (FormatNumber(x)[k] == ',' <==> (|FormatNumber(x)| - k) % 4 == 0)
    ensures |FormatNumber(x)| % 4 != 0
    ensures (exists k :: 0 <= k < |FormatNumber(x)| && FormatNumber(x)[k] == ',') <==> Round(x) >= 1000
  {
    var n: nat := Round(x);
    GroupDigitsShape(Digits(n));
    GroupDigitsCommaPositions(Digits(n));
    DigitsLength(n, 3);
  }

  /** For a whole number of shares `v`, rounding `v / 1000` is the integer
      division `(v + 500) / 1000`. */
  lemma RoundThousands(v: nat)
    ensures Round(v as real / 1000.0) == (v + 500) / 1000
  {
    var q := (v + 500) / 1000;
    assert q * 1000 <= v + 500 < (q + 1) * 1000;
    assert v as real / 1000.0 + 0.5 == (v + 500) as real / 1000.0;
    assert (q * 1000) as real <= (v + 500) as real < ((q + 1) * 1000) as real;
  }

  /** A seven-digit volume gets two separators. */
  lemma MillionExample()
    ensures FormatNumber(1234567.0) == "1,234,567"
  {
    assert Round(1234567.0) == 1234567;
    assert Digits(1) == "1";
    assert Digits(12) == Digits(1) + "2";
    assert Digits(123) == Digits(12) + "3";
    assert Digits(1234) == Digits(123) + "4";
    assert Digits(12345) == Digits(1234) + "5";
    assert Digits(123456) == Digits(12345) + "6";
    assert Digits(1234567) == Digits(123456) + "7";
    assert Digits(1234567) == "1234567";
    assert "1234567"[..4] == "1234" && "1234567"[4..] == "567";
    assert "1234"[..1] == "1" && "1234"[1..] == "234";
    assert GroupDigits("1234") == "1,234";
  }

  /** Three digits or fewer get none, and zero is written "0". */
  lemma SmallExamples()
    ensures FormatNumber(999.0) == "999"
    ensures FormatNumber(0.4) == "0"
  {
    assert Round(999.0) == 999;
    assert Digits(999) == "999";
    assert Round(0.4) == 0;
  }
}
