/** Gap repair of a price or volume series by a rolling average
    (`rollingAverageInterpolation` in helpers/stock-helper.js).

    The source copies the series and scans the copy from left to right; a
    `null` at index `i` is replaced by the mean of the non-null entries of the
    copy in the window `[max(0, i - w), min(N, i + w + 1))`. Because the window
    is read from the copy that is being updated, a value filled in at an
    earlier index takes part in the windows of later indices. */
module Interpolation {
  import opened Options

  /** The window size used by every caller in the source. */
  const DefaultWindowSize: nat := 3

  function Max(a: int, b: int): int { if a >= b then a else b }

  function Min(a: int, b: int): int { if a <= b then a else b }

  /** The values of the non-null entries, in order (`filter((p) => p !== null)`). */
  function NonNull(s: seq<Option<real>>): (r: seq<real>)
    ensures |r| <= |s|
    ensures |r| == 0 <==> forall k :: 0 <= k < |s| ==> s[k].None?
  {
    if s == [] then []
    else (if s[0].Some? then [s[0].value] else []) + NonNull(s[1..])
  }

  function Sum(s: seq<real>): real
  {
    if s == [] then 0.0 else s[0] + Sum(s[1..])
  }

  function Mean(s: seq<real>): real
    requires |s| > 0
  {
    Sum(s) / (|s| as real)
  }

  /** The slice `[max(0, i - w), min(N, i + w + 1))` of the current series. */
  function Window(cur: seq<Option<real>>, i: nat, w: nat): (win: seq<Option<real>>)
    requires i < |cur|
    ensures 0 < |win| <= 2 * w + 1
    ensures cur[i] in win
  {
    cur[Max(0, i - w)..Min(|cur|, i + w + 1)]
  }

  /** What a null is replaced by: the mean of the window's non-null values,
      or still null when the whole window is null. */
  function WindowMean(win: seq<Option<real>>): (r: Option<real>)
    ensures r.None? <==> forall k :: 0 <= k < |win| ==> win[k].None?
    ensures r.Some? ==> r.value == Mean(NonNull(win))
  {
    var present := NonNull(win);
    if |present| > 0 then Some(Mean(present)) else None
  }

  /** One iteration of the scan at index `i`. */
  function Step(cur: seq<Option<real>>, i: nat, w: nat): (next: seq<Option<real>>)
    requires i < |cur|
  {
    if cur[i].None? then cur[i := WindowMean(Window(cur, i, w))] else cur
  }

  /** The copy after the iterations at indices `0 .. k-1`. */
  function StepsUpTo(p: seq<Option<real>>, w: nat, k: nat): (cur: seq<Option<real>>)
    requires k <= |p|
    ensures |cur| == |p|
    ensures forall j :: k <= j < |p| ==> cur[j] == p[j]
    ensures forall j :: 0 <= j < |p| && p[j].Some? ==> cur[j] == p[j]
  {
    if k == 0 then p else Step(StepsUpTo(p, w, k - 1), k - 1, w)
  }

  /** The result of the whole scan. */
  function Interpolated(p: seq<Option<real>>, w: nat): (r: seq<Option<real>>)
    ensures |r| == |p|
    ensures forall j :: 0 <= j < |p| && p[j].Some? ==> r[j] == p[j]
    ensures (forall j :: 0 <= j < |p| ==> p[j].Some?) ==> r == p
  {
    StepsUpTo(p, w, |p|)
  }

  /** The value the scan leaves at `i`, given the part `before` of the series
      that lies to the left of `i` when the scan reaches it. */
  function ScanValue(p: seq<Option<real>>, w: nat, before: seq<Option<real>>, i: nat): Option<real>
    requires |before| == i < |p|
  {
    if p[i].Some? then p[i] else WindowMean(Window(before + p[i..], i, w))
  }

  /** The characterisation of the scan that does not mention its steps:
      `r` has the length of `p`, keeps every non-null entry of `p`, and a null
      at `i` becomes the window mean of the series as it stands when the scan
      reaches `i`: already final to the left of `i`, still original from `i` on. */
  ghost predicate IsRollingFill(p: seq<Option<real>>, w: nat, r: seq<Option<real>>)
  {
    && |r| == |p|
    && forall i {:trigger r[..i]} :: 0 <= i < |p| ==> r[i] == ScanValue(p, w, r[..i], i)
  }

  /** An entry is never changed again once the scan has passed it. */
  lemma {:induction false} PassedEntriesAreFinal(p: seq<Option<real>>, w: nat, k: nat, m: nat)
    requires k <= m <= |p|
    ensures forall j :: 0 <= j < k ==> StepsUpTo(p, w, m)[j] == StepsUpTo(p, w, k)[j]
    decreases m - k
  {
    if k < m {
      PassedEntriesAreFinal(p, w, k + 1, m);
    }
  }

  /** When the scan reaches `k`, the series is the final result to the left of
      `k` and the input from `k` on. */
  lemma StateWhenReaching(p: seq<Option<real>>, w: nat, k: nat)
    requires k <= |p|
    ensures StepsUpTo(p, w, k) == Interpolated(p, w)[..k] + p[k..]
  {
    PassedEntriesAreFinal(p, w, k, |p|);
  }

  /** The scan meets its characterisation. */
  lemma InterpolatedIsRollingFill(p: seq<Option<real>>, w: nat)
    ensures IsRollingFill(p, w, Interpolated(p, w))
  {
    var r := Interpolated(p, w);
    forall i | 0 <= i < |p|
      ensures r[i] == ScanValue(p, w, r[..i], i)
    {
      ScanValueAt(p, w, i);
    }
  }

  /** The scan leaves at `i` the value its step at `i` computes. */
  lemma ScanValueAt(p: seq<Option<real>>, w: nat, i: nat)
    requires i < |p|
    ensures Interpolated(p, w)[i] == ScanValue(p, w, Interpolated(p, w)[..i], i)
  {
    StateWhenReaching(p, w, i);
    PassedEntriesAreFinal(p, w, i + 1, |p|);
  }

  /** The characterisation determines the result: no other series satisfies it. */
  lemma RollingFillUnique(p: seq<Option<real>>, w: nat, r1: seq<Option<real>>, r2: seq<Option<real>>)
    requires IsRollingFill(p, w, r1) && IsRollingFill(p, w, r2)
    ensures r1 == r2
  {
    AgreeUpTo(p, w, r1, r2, |p|);
  }

  /** Two rolling fills agree on every index below `k`. */
  lemma {:induction false} AgreeUpTo(p: seq<Option<real>>, w: nat, r1: seq<Option<real>>, r2: seq<Option<real>>, k: nat)
    requires IsRollingFill(p, w, r1) && IsRollingFill(p, w, r2)
    requires k <= |p|
    ensures forall j :: 0 <= j < k ==> r1[j] == r2[j]
  {
    if k > 0 {
      AgreeUpTo(p, w, r1, r2, k - 1);
      AgreeAt(p, w, r1, r2, k - 1);
    }
  }

  /** Two rolling fills that agree before `i` agree at `i`. */
  lemma AgreeAt(p: seq<Option<real>>, w: nat, r1: seq<Option<real>>, r2: seq<Option<real>>, i: nat)
    requires IsRollingFill(p, w, r1) && IsRollingFill(p, w, r2)
    requires i < |p|
    requires forall j :: 0 <= j < i ==> r1[j] == r2[j]
    ensures r1[i] == r2[i]
  {
    assert r1[..i] == r2[..i];
    assert r1[i] == ScanValue(p, w, r1[..i], i);
    assert r2[i] == ScanValue(p, w, r2[..i], i);
  }

  /** A null whose whole window (as the scan sees it) is null stays null. */
  lemma AllNullWindowStaysNull(p: seq<Option<real>>, w: nat, i: nat)
    requires i < |p| && p[i].None?
    requires forall k :: Max(0, i - w) <= k < Min(|p|, i + w + 1) ==>
               (Interpolated(p, w)[..i] + p[i..])[k].None?
    ensures Interpolated(p, w)[i].None?
  {
    InterpolatedIsRollingFill(p, w);
    var r := Interpolated(p, w);
    assert r[i] == ScanValue(p, w, r[..i], i);
    var win := Window(r[..i] + p[i..], i, w);
    assert forall k :: 0 <= k < |win| ==> win[k] == (r[..i] + p[i..])[Max(0, i - w) + k];
  }

  lemma {:induction false} SumWithin(s: seq<real>, lo: real, hi: real)
    requires forall k :: 0 <= k < |s| ==> lo <= s[k] <= hi
    ensures lo * (|s| as real) <= Sum(s) <= hi * (|s| as real)
  {
    if s != [] {
      SumWithin(s[1..], lo, hi);
    }
  }

  /** A filled-in value never leaves the range of the values it averages. */
  lemma MeanWithin(s: seq<real>, lo: real, hi: real)
    requires |s| > 0
    requires forall k :: 0 <= k < |s| ==> lo <= s[k] <= hi
    ensures lo <= Mean(s) <= hi
  {
    SumWithin(s, lo, hi);
  }

  /** Every non-null entry of `s` lies in `[lo, hi]`. */
  ghost predicate ValuesWithin(s: seq<Option<real>>, lo: real, hi: real)
  {
    forall j :: 0 <= j < |s| && s[j].Some? ==> lo <= s[j].value <= hi
  }

  lemma {:induction false} NonNullWithin(s: seq<Option<real>>, lo: real, hi: real)
    requires ValuesWithin(s, lo, hi)
    ensures forall k :: 0 <= k < |NonNull(s)| ==> lo <= NonNull(s)[k] <= hi
  {
    if s != [] {
      assert ValuesWithin(s[1..], lo, hi) by {
        forall j | 0 <= j < |s[1..]| && s[1..][j].Some? ensures lo <= s[1..][j].value <= hi {
          assert s[1..][j] == s[j + 1];
        }
      }
      NonNullWithin(s[1..], lo, hi);
    }
  }

  lemma {:induction false} StepsWithin(p: seq<Option<real>>, w: nat, lo: real, hi: real, k: nat)
    requires k <= |p|
    requires ValuesWithin(p, lo, hi)
    ensures ValuesWithin(StepsUpTo(p, w, k), lo, hi)
  {
    if k > 0 {
      StepsWithin(p, w, lo, hi, k - 1);
      NextStepWithin(p, w, lo, hi, k);
    }
  }

  lemma NextStepWithin(p: seq<Option<real>>, w: nat, lo: real, hi: real, k: nat)
    requires 0 < k <= |p|
    requires ValuesWithin(StepsUpTo(p, w, k - 1), lo, hi)
    ensures ValuesWithin(StepsUpTo(p, w, k), lo, hi)
  {
    var cur := StepsUpTo(p, w, k - 1);
    var next := Step(cur, k - 1, w);
    StepWithin(cur, k - 1, w, lo, hi);
    assert StepsUpTo(p, w, k) == next;
  }

  /** One iteration of the scan keeps the values in range. */
  lemma StepWithin(cur: seq<Option<real>>, i: nat, w: nat, lo: real, hi: real)
    requires i < |cur|
    requires ValuesWithin(cur, lo, hi)
    ensures ValuesWithin(Step(cur, i, w), lo, hi)
  {
    if cur[i].None? {
      var win := Window(cur, i, w);
      assert ValuesWithin(win, lo, hi) by {
        var a := Max(0, i - w);
        forall j | 0 <= j < |win| && win[j].Some? ensures lo <= win[j].value <= hi {
          assert win[j] == cur[a + j];
        }
      }
      WindowMeanWithin(win, lo, hi);
    }
  }

  lemma WindowMeanWithin(win: seq<Option<real>>, lo: real, hi: real)
    requires ValuesWithin(win, lo, hi)
    ensures WindowMean(win).Some? ==> lo <= WindowMean(win).value <= hi
  {
    var present := NonNull(win);
    if |present| > 0 {
      NonNullWithin(win, lo, hi);
      MeanWithin(present, lo, hi);
    }
  }

  /** Every value of the repaired series lies in the range of the input's values. */
  lemma InterpolatedWithin(p: seq<Option<real>>, w: nat, lo: real, hi: real)
    requires ValuesWithin(p, lo, hi)
    ensures ValuesWithin(Interpolated(p, w), lo, hi)
  {
    StepsWithin(p, w, lo, hi, |p|);
  }

  /** Five closing prices with one gap: the gap at index 1 becomes the mean of
      10, 12, 13 and 14 (the window reaches three places on each side). */
  lemma FiveDayScenario()
    ensures Interpolated([Some(10.0), None, Some(12.0), Some(13.0), Some(14.0)], DefaultWindowSize)
         == [Some(10.0), Some(12.25), Some(12.0), Some(13.0), Some(14.0)]
  {
    var p := [Some(10.0), None, Some(12.0), Some(13.0), Some(14.0)];
    var s2 := [Some(10.0), Some(12.25), Some(12.0), Some(13.0), Some(14.0)];
    FiveDayGap(p);
    assert StepsUpTo(p, 3, 3) == s2;
    assert StepsUpTo(p, 3, 4) == s2;
    assert StepsUpTo(p, 3, 5) == s2;
  }

  lemma FiveDayGap(p: seq<Option<real>>)
    requires p == [Some(10.0), None, Some(12.0), Some(13.0), Some(14.0)]
    ensures StepsUpTo(p, 3, 2) == [Some(10.0), Some(12.25), Some(12.0), Some(13.0), Some(14.0)]
  {
    assert StepsUpTo(p, 3, 1) == p;
    assert Window(p, 1, 3) == p;
    assert NonNull(p[4..]) == [14.0];
    assert NonNull(p[3..]) == [13.0, 14.0];
    assert NonNull(p[2..]) == [12.0, 13.0, 14.0];
    assert NonNull(p[1..]) == [12.0, 13.0, 14.0];
    assert NonNull(p) == [10.0, 12.0, 13.0, 14.0];
    assert Sum([14.0]) == 14.0;
    assert Sum([13.0, 14.0]) == 27.0;
    assert Sum([12.0, 13.0, 14.0]) == 39.0;
    assert Sum([10.0, 12.0, 13.0, 14.0]) == 49.0;
    assert WindowMean(p) == Some(12.25);
  }

  lemma FeedFirstGap(p: seq<Option<real>>)
    requires p == [Some(0.0), None, None, Some(6.0)]
    ensures StepsUpTo(p, 1, 2) == [Some(0.0), Some(0.0), None, Some(6.0)]
  {
    assert StepsUpTo(p, 1, 1) == p;
    var w1 := Window(p, 1, 1);
    assert w1 == [Some(0.0), None, None];
    assert NonNull(w1[2..]) == [];
    assert NonNull(w1[1..]) == [];
    assert NonNull(w1) == [0.0];
    assert Sum([0.0]) == 0.0;
    assert WindowMean(w1) == Some(0.0);
  }

  lemma FeedSecondGap(q: seq<Option<real>>)
    requires q == [Some(0.0), Some(0.0), None, Some(6.0)]
    ensures Step(q, 2, 1) == [Some(0.0), Some(0.0), Some(3.0), Some(6.0)]
  {
    var w2 := Window(q, 2, 1);
    assert w2 == [Some(0.0), None, Some(6.0)];
    assert NonNull(w2[2..]) == [6.0];
    assert NonNull(w2[1..]) == [6.0];
    assert NonNull(w2) == [0.0, 6.0];
    assert Sum([6.0]) == 6.0;
    assert Sum([0.0, 6.0]) == 6.0;
    assert WindowMean(w2) == Some(3.0);
  }

  lemma FeedOriginalWindow(p: seq<Option<real>>)
    requires p == [Some(0.0), None, None, Some(6.0)]
    ensures WindowMean(Window(p, 2, 1)) == Some(6.0)
  {
    var w0 := Window(p, 2, 1);
    assert w0 == [None, None, Some(6.0)];
    assert NonNull(w0[2..]) == [6.0];
    assert NonNull(w0[1..]) == [6.0];
    assert NonNull(w0) == [6.0];
    assert Sum([6.0]) == 6.0;
  }

  /** A replacement made earlier in the scan feeds later windows. With a
      window of one place on each side, the scan fills index 1 of
      `[0, null, null, 6]` with 0 and then averages that 0 with 6 at index 2,
      giving 3, where the window of the input alone holds only 6. */
  lemma ReplacementsFeedLaterWindows(p: seq<Option<real>>)
    requires p == [Some(0.0), None, None, Some(6.0)]
    ensures Interpolated(p, 1) == [Some(0.0), Some(0.0), Some(3.0), Some(6.0)]
    ensures WindowMean(Window(p, 2, 1)) == Some(6.0)
  {
    FeedFirstGap(p);
    FeedSecondGap(StepsUpTo(p, 1, 2));
    var s3 := StepsUpTo(p, 1, 3);
    assert s3 == [Some(0.0), Some(0.0), Some(3.0), Some(6.0)];
    assert StepsUpTo(p, 1, 4) == Step(s3, 3, 1) == s3;
    FeedOriginalWindow(p);
  }

  /** The scan as the source runs it: a `for` loop over the copy, writing each
      replacement into the array that later windows are sliced from. */
  method RollingAverageInterpolation(prices: seq<Option<real>>, windowSize: nat) returns (interpolated: seq<Option<real>>)
    ensures interpolated == Interpolated(prices, windowSize)
    ensures IsRollingFill(prices, windowSize, interpolated)
  {
    var copy := new Option<real>[|prices|](j requires 0 <= j < |prices| => prices[j]);
    for i := 0 to copy.Length
      invariant copy[..] == StepsUpTo(prices, windowSize, i)
    {
      ghost var cur := copy[..];
      if copy[i].None? {
        var start := Max(0, i - windowSize);
        var end := Min(copy.Length, i + windowSize + 1);
        assert copy[start..end] == Window(cur, i, windowSize);
        var surroundingValues := NonNull(copy[start..end]);
        if |surroundingValues| > 0 {
          var sum := Sum(surroundingValues);
          copy[i] := Some(sum / |surroundingValues| as real);
        }
        assert copy[..] == cur[i := WindowMean(Window(cur, i, windowSize))];
      }
    }
    interpolated := copy[..];
    InterpolatedIsRollingFill(prices, windowSize);
  }
}
