/** The moving-average crossover classifier of `processStockData`
    (helpers/stock-helper.js): a strength state per index and a cross
    whenever a defined state flips to the other defined state. */
module Crossover {
  import opened Options

  /** `isSma10Strong`: the string `'unknown'`, `false` or `true`. */
  datatype Strength = Unknown | Weak | Strong

  /** `crossType`: `null`, `'golden-cross'` or `'death-cross'`. */
  datatype CrossType = NoCross | GoldenCross | DeathCross

  /** The state at one index from the two padded averages (`None` is NaN). */
  function StrengthOf(sma10: Option<real>, sma50: Option<real>): (s: Strength)
    ensures s == Unknown <==> sma10.None? || sma50.None?
    ensures s == Strong <==> sma10.Some? && sma50.Some? && sma10.value >= sma50.value
    ensures s == Weak <==> sma10.Some? && sma50.Some? && sma10.value < sma50.value
  {
    if sma10.Some? && sma50.Some? then
      if sma10.value >= sma50.value then Strong else Weak
    else Unknown
  }

  /** The cross emitted for a step from `prev` to `cur`: only when the state
      changed and neither side is unknown. */
  function CrossOf(prev: Strength, cur: Strength): (c: CrossType)
    ensures c == GoldenCross <==> prev == Weak && cur == Strong
    ensures c == DeathCross <==> prev == Strong && cur == Weak
  {
    if cur != prev && prev != Unknown && cur != Unknown then
      if cur.Strong? then GoldenCross else DeathCross
    else NoCross
  }

  /** The states of a whole series. */
  function Strengths(sma10: seq<Option<real>>, sma50: seq<Option<real>>): (s: seq<Strength>)
    requires |sma10| == |sma50|
    ensures |s| == |sma10|
    ensures forall i :: 0 <= i < |s| ==> s[i] == StrengthOf(sma10[i], sma50[i])
  {
    seq(|sma10|, i requires 0 <= i < |sma10| => StrengthOf(sma10[i], sma50[i]))
  }

  /** The forward pass: the previous state is threaded through the scan,
      starting from `'unknown'` and updated at every index. */
  function CrossesFrom(prev: Strength, s: seq<Strength>): (c: seq<CrossType>)
    ensures |c| == |s|
    ensures forall i :: 0 <= i < |s| ==> c[i] == CrossOf(if i == 0 then prev else s[i - 1], s[i])
    decreases |s|
  {
    if s == [] then [] else [CrossOf(prev, s[0])] + CrossesFrom(s[0], s[1..])
  }

  function Crosses(s: seq<Strength>): (c: seq<CrossType>)
    ensures |c| == |s|
    ensures forall i :: 0 <= i < |s| ==> c[i] == CrossOf(if i == 0 then Unknown else s[i - 1], s[i])
    ensures |s| > 0 ==> c[0] == NoCross
  {
    CrossesFrom(Unknown, s)
  }

  /** Over a stretch with no unknown state, golden and death crosses alternate:
      between two golden crosses there is a death cross. */
  lemma GoldenCrossesAlternate(s: seq<Strength>, i: nat, j: nat)
    requires i < j < |s|
    requires Crosses(s)[i] == GoldenCross && Crosses(s)[j] == GoldenCross
    requires forall k :: i <= k <= j ==> s[k] != Unknown
    ensures exists k :: i < k < j && Crosses(s)[k] == DeathCross
  {
    assert CrossOf(s[j - 1], s[j]) == GoldenCross;
    assert s[i] == Strong by {
      assert CrossOf(if i == 0 then Unknown else s[i - 1], s[i]) == GoldenCross;
    }
    var k := FirstWeakAfter(s, i, j - 1);
    assert Crosses(s)[k] == DeathCross;
  }

  /** The symmetric statement for death crosses. */
  lemma DeathCrossesAlternate(s: seq<Strength>, i: nat, j: nat)
    requires i < j < |s|
    requires Crosses(s)[i] == DeathCross && Crosses(s)[j] == DeathCross
    requires forall k :: i <= k <= j ==> s[k] != Unknown
    ensures exists k :: i < k < j && Crosses(s)[k] == GoldenCross
  {
    assert CrossOf(s[j - 1], s[j]) == DeathCross;
    assert s[i] == Weak by {
      assert CrossOf(if i == 0 then Unknown else s[i - 1], s[i]) == DeathCross;
    }
    var k := FirstStrongAfter(s, i, j - 1);
    assert Crosses(s)[k] == GoldenCross;
  }

  /** The first weak state after a strong one at `i`, given one at `m`. */
  lemma {:induction false} FirstWeakAfter(s: seq<Strength>, i: nat, m: nat) returns (k: nat)
    requires i < m < |s|
    requires s[i] == Strong && s[m] == Weak
    requires forall n :: i <= n <= m ==> s[n] != Unknown
    ensures i < k <= m && s[k] == Weak && s[k - 1] == Strong
    decreases m - i
  {
    if s[i + 1] == Weak {
      k := i + 1;
    } else {
      k := FirstWeakAfter(s, i + 1, m);
    }
  }

  lemma {:induction false} FirstStrongAfter(s: seq<Strength>, i: nat, m: nat) returns (k: nat)
    requires i < m < |s|
    requires s[i] == Weak && s[m] == Strong
    requires forall n :: i <= n <= m ==> s[n] != Unknown
    ensures i < k <= m && s[k] == Strong && s[k - 1] == Weak
    decreases m - i
  {
    if s[i + 1] == Strong {
      k := i + 1;
    } else {
      k := FirstStrongAfter(s, i + 1, m);
    }
  }
}
