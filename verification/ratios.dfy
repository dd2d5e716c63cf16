/** The ratio engine: liquidity, asset efficiency and profitability ratios
    computed from looked-up line items, in a fixed order that stops at the
    first missing line item. */
module Ratios {
  import opened Wrappers
  import opened Statement

  /** A ratio: not computed, the +infinity sentinel, or a value. */
  datatype Ratio = Unavailable | Infinite | Value(v: real)

  datatype RatioSet = RatioSet(
    currentRatioPrior: Ratio,
    currentRatioCurrent: Ratio,
    assetTurnover: Ratio,
    netProfitMarginPrior: Ratio,
    netProfitMarginCurrent: Ratio,
    returnOnAssets: Ratio)

  /** Every ratio starts out unavailable. */
  const NoRatios: RatioSet :=
    RatioSet(Unavailable, Unavailable, Unavailable, Unavailable, Unavailable, Unavailable)

  /** Current assets over current liabilities; +infinity when there are no
      current liabilities. */
  function CurrentRatio(assets: real, liabilities: real): (r: Ratio)
    ensures r != Unavailable
    ensures r == Infinite <==> liabilities == 0.0
    ensures r.Value? ==> r.v * liabilities == assets
  {
    if liabilities != 0.0 then Value(assets / liabilities) else Infinite
  }

  /** `numerator / denominator * scale`, available only for a nonzero
      denominator. */
  function Quotient(numerator: real, denominator: real, scale: real): (r: Ratio)
    ensures r != Infinite
    ensures r.Value? <==> denominator != 0.0
    ensures r.Value? ==> r.v * denominator == numerator * scale
  {
    if denominator != 0.0 then Value(numerator / denominator * scale) else Unavailable
  }

  /** Mean of the prior and current total assets. */
  function AverageTotalAssets(totalAssets: LineItem): (avg: real)
    ensures avg + avg == totalAssets.prior + totalAssets.current
  {
    (totalAssets.current + totalAssets.prior) / 2.0
  }

  /** The ratio block over the five looked-up rows, `None` standing for a
      lookup that found nothing. Lookups run in the order current assets,
      current liabilities (then the current ratios are computed), total
      assets, net revenue, profit after tax; the first one that finds
      nothing ends the block, so ratios assigned before it keep their values
      and the rest stay unavailable. */
  function RatioBlock(assets: Option<LineItem>, liabilities: Option<LineItem>,
                      totalAssets: Option<LineItem>, revenue: Option<LineItem>,
                      profit: Option<LineItem>): (r: RatioSet)
    // a missing current-assets or current-liabilities row: nothing is computed
    ensures assets.None? || liabilities.None? ==> r == NoRatios
    // both found: the two current ratios are computed, each period on its own
    ensures assets.Some? && liabilities.Some? ==>
              && r.currentRatioPrior == CurrentRatio(assets.value.prior, liabilities.value.prior)
              && r.currentRatioCurrent == CurrentRatio(assets.value.current, liabilities.value.current)
    // a later lookup fails: efficiency and profitability ratios stay unavailable
    ensures totalAssets.None? || revenue.None? || profit.None? ==>
              r.assetTurnover == r.netProfitMarginPrior == r.netProfitMarginCurrent
              == r.returnOnAssets == Unavailable
    // every lookup succeeds: each ratio has its own zero-denominator rule
    ensures assets.Some? && liabilities.Some? && totalAssets.Some? && revenue.Some? && profit.Some? ==>
              var avg := AverageTotalAssets(totalAssets.value);
              && r.assetTurnover == Quotient(revenue.value.current, avg, 1.0)
              && r.netProfitMarginCurrent == Quotient(profit.value.current, revenue.value.current, 100.0)
              && r.netProfitMarginPrior == Quotient(profit.value.prior, revenue.value.prior, 100.0)
              && r.returnOnAssets == Quotient(profit.value.current, avg, 100.0)
  {
    match (assets, liabilities)
    case (Some(ca), Some(cl)) =>
      var liquidity := NoRatios.(
        currentRatioPrior := CurrentRatio(ca.prior, cl.prior),
        currentRatioCurrent := CurrentRatio(ca.current, cl.current));
      (match (totalAssets, revenue, profit)
       case (Some(ta), Some(rev), Some(pat)) =>
         var avg := AverageTotalAssets(ta);
         liquidity.(
           assetTurnover := Quotient(rev.current, avg, 1.0),
           netProfitMarginCurrent := Quotient(pat.current, rev.current, 100.0),
           netProfitMarginPrior := Quotient(pat.prior, rev.prior, 100.0),
           returnOnAssets := Quotient(pat.current, avg, 100.0))
       case _ => liquidity)
    case _ => NoRatios
  }

  /** The ratio block run over a table: every required row is found by the
      first-match lookup. */
  function ComputeRatios(items: seq<LineItem>): (r: RatioSet)
    // the current ratios are available exactly when both liquidity rows are found
    ensures r.currentRatioPrior != Unavailable
            <==> Find(items, CurrentAssetsKey).Some? && Find(items, CurrentLiabilitiesKey).Some?
    ensures r.currentRatioCurrent != Unavailable
            <==> Find(items, CurrentAssetsKey).Some? && Find(items, CurrentLiabilitiesKey).Some?
    // any of the five lookups failing leaves the later four ratios unavailable
    ensures NoMatch(items, CurrentAssetsKey) || NoMatch(items, CurrentLiabilitiesKey)
            || NoMatch(items, TotalAssetsKey) || NoMatch(items, NetRevenueKey)
            || NoMatch(items, ProfitAfterTaxKey) ==>
              r.assetTurnover == r.netProfitMarginPrior == r.netProfitMarginCurrent
              == r.returnOnAssets == Unavailable
    // the current ratios are taken from the first matching rows
    ensures Find(items, CurrentAssetsKey).Some? && Find(items, CurrentLiabilitiesKey).Some? ==>
              var ca := items[Find(items, CurrentAssetsKey).value];
              var cl := items[Find(items, CurrentLiabilitiesKey).value];
              && r.currentRatioPrior == CurrentRatio(ca.prior, cl.prior)
              && r.currentRatioCurrent == CurrentRatio(ca.current, cl.current)
    // with all five rows found, the later ratios are too
    ensures && Find(items, CurrentAssetsKey).Some? && Find(items, CurrentLiabilitiesKey).Some?
            && Find(items, TotalAssetsKey).Some? && Find(items, NetRevenueKey).Some?
            && Find(items, ProfitAfterTaxKey).Some? ==>
              var avg := AverageTotalAssets(items[Find(items, TotalAssetsKey).value]);
              var rev := items[Find(items, NetRevenueKey).value];
              var pat := items[Find(items, ProfitAfterTaxKey).value];
              && r.assetTurnover == Quotient(rev.current, avg, 1.0)
              && r.netProfitMarginCurrent == Quotient(pat.current, rev.current, 100.0)
              && r.netProfitMarginPrior == Quotient(pat.prior, rev.prior, 100.0)
              && r.returnOnAssets == Quotient(pat.current, avg, 100.0)
  {
    RatioBlock(Lookup(items, CurrentAssetsKey), Lookup(items, CurrentLiabilitiesKey),
               Lookup(items, TotalAssetsKey), Lookup(items, NetRevenueKey),
               Lookup(items, ProfitAfterTaxKey))
  }

  /** The block is ordered: no efficiency or profitability ratio is ever
      computed without both current ratios having been computed first. */
  lemma LaterRatiosFollowLiquidity(assets: Option<LineItem>, liabilities: Option<LineItem>,
                                   totalAssets: Option<LineItem>, revenue: Option<LineItem>,
                                   profit: Option<LineItem>)
    ensures var r := RatioBlock(assets, liabilities, totalAssets, revenue, profit);
            (r.assetTurnover != Unavailable || r.netProfitMarginPrior != Unavailable
             || r.netProfitMarginCurrent != Unavailable || r.returnOnAssets != Unavailable)
            ==> r.currentRatioPrior != Unavailable && r.currentRatioCurrent != Unavailable
  {
  }

  /** Asset turnover (and return on assets) is a value exactly when all five
      lookups succeed and the average total assets is nonzero. */
  lemma AssetRatioAvailability(items: seq<LineItem>)
    ensures ComputeRatios(items).assetTurnover.Value?
            <==> && Find(items, CurrentAssetsKey).Some?
                 && Find(items, CurrentLiabilitiesKey).Some?
                 && Find(items, TotalAssetsKey).Some?
                 && Find(items, NetRevenueKey).Some?
                 && Find(items, ProfitAfterTaxKey).Some?
                 && items[Find(items, TotalAssetsKey).value].prior
                    + items[Find(items, TotalAssetsKey).value].current != 0.0
    ensures ComputeRatios(items).returnOnAssets.Value? <==> ComputeRatios(items).assetTurnover.Value?
  {
  }

  /** With every row found, each period's margin is computable exactly when
      that period's revenue is nonzero: a zero revenue in one period leaves
      the other period's margin computable. */
  lemma MarginPeriodsIndependent(assets: LineItem, liabilities: LineItem, totalAssets: LineItem,
                                 revenue: LineItem, profit: LineItem)
    ensures var r := RatioBlock(Some(assets), Some(liabilities), Some(totalAssets),
                                Some(revenue), Some(profit));
            && (r.netProfitMarginCurrent.Value? <==> revenue.current != 0.0)
            && (r.netProfitMarginPrior.Value? <==> revenue.prior != 0.0)
  {
  }

  /** The worked liquidity examples: 200 over 100 is 2, 200 over 0 is +infinity. */
  lemma CurrentRatioExamples()
    ensures CurrentRatio(200.0, 100.0) == Value(2.0)
    ensures CurrentRatio(200.0, 0.0) == Infinite
  {
  }
}
