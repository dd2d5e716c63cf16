/** The derivation engine: coerces the raw table and appends, to every row,
    its growth rate and its share of total assets in each period. */
module Derivation {
  import opened Wrappers
  import opened Statement

  /** The stand-in for a zero denominator, 1e-9. */
  const Epsilon: real := 0.000000001

  /** A denominator with zero replaced by `Epsilon`. */
  function SafeDivisor(x: real): (d: real)
    ensures d != 0.0
    ensures x != 0.0 ==> d == x
    ensures x == 0.0 ==> d == Epsilon
  {
    if x != 0.0 then x else Epsilon
  }

  /** Period-over-period growth in percent. With a zero prior value the
      division is by `Epsilon`, which gives a huge but finite result. */
  function GrowthRate(prior: real, current: real): (g: real)
    ensures prior != 0.0 ==> g * prior == (current - prior) * 100.0
    ensures prior == 0.0 ==> g == current * 100000000000.0
  {
    (current - prior) / SafeDivisor(prior) * 100.0
  }

  /** A value as a percentage of the anchor value, with the same zero
      substitution for the anchor. */
  function Share(value: real, anchor: real): (s: real)
    ensures anchor != 0.0 ==> s * anchor == value * 100.0
    ensures anchor == 0.0 ==> s == value * 100000000000.0
  {
    value / SafeDivisor(anchor) * 100.0
  }

  /** A coerced row with its three derived columns. */
  datatype AugmentedRow = AugmentedRow(item: LineItem, growth: real, priorShare: real, currentShare: real)

  /** The structural error: no row is the total-assets anchor. */
  datatype DeriveError = MissingTotalAssets

  /** Raw row `k` is the anchor: the first row whose name contains the
      total-assets key. */
  ghost predicate IsAnchor(raw: seq<RawRow>, k: int)
  {
    0 <= k < |raw|
    && Matches(raw[k].name, TotalAssetsKey)
    && forall j :: 0 <= j < k ==> !Matches(raw[j].name, TotalAssetsKey)
  }

  /** A coerced row with its growth rate and its shares of the anchor's
      values appended. */
  function Augment(item: LineItem, anchor: LineItem): AugmentedRow
  {
    AugmentedRow(item, GrowthRate(item.prior, item.current),
                 Share(item.prior, anchor.prior), Share(item.current, anchor.current))
  }

  /** Derives the augmented table, or fails as a whole when no row names
      total assets. */
  function Derive(raw: seq<RawRow>): (r: Result<seq<AugmentedRow>, DeriveError>)
    ensures r.Failure? <==> forall i :: 0 <= i < |raw| ==> !Matches(raw[i].name, TotalAssetsKey)
    ensures r.Success? ==> |r.value| == |raw|
    ensures r.Success? ==> forall k :: IsAnchor(raw, k) ==>
              forall i :: 0 <= i < |raw| ==> r.value[i] == Augment(CoerceRow(raw[i]), CoerceRow(raw[k]))
  {
    var items := Normalize(raw);
    assert forall i :: 0 <= i < |raw| ==> items[i] == CoerceRow(raw[i]);
    match Find(items, TotalAssetsKey)
    case None => Failure(MissingTotalAssets)
    case Some(a) =>
      AnchorIsFound(raw, a);
      var anchor := items[a];
      Success(seq(|items|, i requires 0 <= i < |items| => Augment(items[i], anchor)))
  }

  /** The anchor is the row the first-match lookup finds in the coerced
      table, and no other row. */
  lemma AnchorIsFound(raw: seq<RawRow>, a: nat)
    requires Find(Normalize(raw), TotalAssetsKey) == Some(a)
    ensures IsAnchor(raw, a)
    ensures forall k :: IsAnchor(raw, k) ==> k == a
  {
    var items := Normalize(raw);
    assert IsFirstMatch(items, TotalAssetsKey, a);
    assert forall j :: 0 <= j < |raw| ==> items[j].name == raw[j].name;
  }

  /** The coerced rows of an augmented table. */
  function Items(table: seq<AugmentedRow>): (items: seq<LineItem>)
    ensures |items| == |table|
    ensures forall i :: 0 <= i < |table| ==> items[i] == table[i].item
  {
    seq(|table|, i requires 0 <= i < |table| => table[i].item)
  }

  /** Derivation keeps the row count, the order, the names and the coerced
      values: only columns are appended. */
  lemma DeriveKeepsRows(raw: seq<RawRow>)
    ensures Derive(raw).Success? ==> Items(Derive(raw).value) == Normalize(raw)
  {
    var items := Normalize(raw);
    if Derive(raw).Success? {
      var a := Find(items, TotalAssetsKey).value;
      assert IsAnchor(raw, a);
    }
  }

  /** Whether derivation fails depends only on the names: rows with the same
      names fail or succeed together, whatever their values hold. */
  lemma DeriveFailureDependsOnlyOnNames(raw: seq<RawRow>, other: seq<RawRow>)
    requires |raw| == |other|
    requires forall i :: 0 <= i < |raw| ==> raw[i].name == other[i].name
    ensures Derive(raw).Failure? <==> Derive(other).Failure?
  {
  }

  /** The anchor row's own share is 100 in every period where its value is
      nonzero. */
  lemma AnchorShareIsHundred(raw: seq<RawRow>, k: int)
    requires IsAnchor(raw, k)
    ensures CoerceRow(raw[k]).prior != 0.0 ==> Derive(raw).value[k].priorShare == 100.0
    ensures CoerceRow(raw[k]).current != 0.0 ==> Derive(raw).value[k].currentShare == 100.0
  {
    var anchor := CoerceRow(raw[k]);
    var row := Derive(raw).value[k];
    assert row == Augment(anchor, anchor);
    if anchor.prior != 0.0 {
      assert row.priorShare * anchor.prior == 100.0 * anchor.prior;
    }
    if anchor.current != 0.0 {
      assert row.currentShare * anchor.current == 100.0 * anchor.current;
    }
  }
}
