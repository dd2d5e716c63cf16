/** The whole upload path: derive the augmented table, then compute the
    ratio block over it. A structural error stops before any ratio. */
module Pipeline {
  import opened Wrappers
  import opened Statement
  import opened Derivation
  import opened Ratios

  /** What the engine hands to the rendering layer. */
  datatype Report = Report(table: seq<AugmentedRow>, ratios: RatioSet)

  /** Derivation on the uploaded rows, then the ratio block over the derived
      table; a structural error is reported instead of any table or ratio. */
  function Analyze(raw: seq<RawRow>): (r: Result<Report, DeriveError>)
    ensures r.Failure? <==> forall i :: 0 <= i < |raw| ==> !Matches(raw[i].name, TotalAssetsKey)
    ensures r.Success? ==> |r.value.table| == |raw|
    // the table is the derivation's, and the ratios are those of the
    // coerced upload itself
    ensures r.Success? ==> Derive(raw).Success? && r.value.table == Derive(raw).value
    ensures r.Success? ==> r.value.ratios == ComputeRatios(Normalize(raw))
  {
    DeriveKeepsRows(raw);
    match Derive(raw)
    case Failure(e) => Failure(e)
    case Success(table) => Success(Report(table, ComputeRatios(Items(table))))
  }

  /** In the full pipeline the ratio block's total-assets lookup cannot
      fail: it finds the very row the derivation used as its anchor. */
  lemma TotalAssetsLookupNeverFails(raw: seq<RawRow>)
    ensures Analyze(raw).Success? ==>
              && Find(Items(Analyze(raw).value.table), TotalAssetsKey) == Find(Normalize(raw), TotalAssetsKey)
              && Find(Items(Analyze(raw).value.table), TotalAssetsKey).Some?
  {
    DeriveKeepsRows(raw);
  }

  /** Consequently, once derivation has succeeded, the efficiency and
      profitability ratios can only be cut off by a missing liquidity,
      revenue or profit row, never by the total-assets row. */
  lemma AssetTurnoverInPipeline(raw: seq<RawRow>)
    requires Analyze(raw).Success?
    ensures var items := Normalize(raw);
            Analyze(raw).value.ratios.assetTurnover.Value?
            <==> && Find(items, CurrentAssetsKey).Some?
                 && Find(items, CurrentLiabilitiesKey).Some?
                 && Find(items, NetRevenueKey).Some?
                 && Find(items, ProfitAfterTaxKey).Some?
                 && items[Find(items, TotalAssetsKey).value].prior
                    + items[Find(items, TotalAssetsKey).value].current != 0.0
  {
    DeriveKeepsRows(raw);
    AssetRatioAvailability(Normalize(raw));
  }

  /** The worked example: total assets 1000 -> 1200, current assets
      400 -> 500, current liabilities 200 -> 250, net revenue 900 -> 1100,
      profit after tax 90 -> 121. */
  function ExampleStatement(): seq<RawRow>
  {
    [ RawRow(Str(TotalAssetsKey), Num(1000.0), Num(1200.0)),
      RawRow(Str(CurrentAssetsKey), Num(400.0), Num(500.0)),
      RawRow(Str(CurrentLiabilitiesKey), Num(200.0), Num(250.0)),
      RawRow(Str(NetRevenueKey), Num(900.0), Num(1100.0)),
      RawRow(Str(ProfitAfterTaxKey), Num(90.0), Num(121.0)) ]
  }

  // Which example row each key finds. Every earlier name is ruled out by a
  // character of the key that the name lacks.

  lemma TotalAssetsNameIsNotCurrentAssets()
    ensures !Matches(Str(TotalAssetsKey), CurrentAssetsKey)
  {
    // the key's 'Ắ' (index 10)
    assert '\U{1EAE}' !in TotalAssetsKey && '\U{1EAF}' !in TotalAssetsKey;
    AbsentCharacterRulesOut(TotalAssetsKey, CurrentAssetsKey, 10);
  }

  lemma TotalAssetsNameIsNotCurrentLiabilities()
    ensures !Matches(Str(TotalAssetsKey), CurrentLiabilitiesKey)
  {
    // the key's 'Ợ' (index 1)
    assert '\U{1EE2}' !in TotalAssetsKey && '\U{1EE3}' !in TotalAssetsKey;
    AbsentCharacterRulesOut(TotalAssetsKey, CurrentLiabilitiesKey, 1);
  }

  lemma CurrentAssetsNameIsNotCurrentLiabilities()
    ensures !Matches(Str(CurrentAssetsKey), CurrentLiabilitiesKey)
  {
    // the key's 'Ợ' (index 1)
    assert '\U{1EE2}' !in CurrentAssetsKey && '\U{1EE3}' !in CurrentAssetsKey;
    AbsentCharacterRulesOut(CurrentAssetsKey, CurrentLiabilitiesKey, 1);
  }

  lemma TotalAssetsNameIsNotNetRevenue()
    ensures !Matches(Str(TotalAssetsKey), NetRevenueKey)
  {
    // the key's 'D' (index 0)
    assert 'D' !in TotalAssetsKey && 'd' !in TotalAssetsKey;
    AbsentCharacterRulesOut(TotalAssetsKey, NetRevenueKey, 0);
  }

  lemma CurrentAssetsNameIsNotNetRevenue()
    ensures !Matches(Str(CurrentAssetsKey), NetRevenueKey)
  {
    // the key's 'D' (index 0)
    assert 'D' !in CurrentAssetsKey && 'd' !in CurrentAssetsKey;
    AbsentCharacterRulesOut(CurrentAssetsKey, NetRevenueKey, 0);
  }

  lemma CurrentLiabilitiesNameIsNotNetRevenue()
    ensures !Matches(Str(CurrentLiabilitiesKey), NetRevenueKey)
  {
    // the key's 'D' (index 0)
    assert 'D' !in CurrentLiabilitiesKey && 'd' !in CurrentLiabilitiesKey;
    AbsentCharacterRulesOut(CurrentLiabilitiesKey, NetRevenueKey, 0);
  }

  lemma TotalAssetsNameIsNotProfitAfterTax()
    ensures !Matches(Str(TotalAssetsKey), ProfitAfterTaxKey)
  {
    // the key's 'L' (index 0)
    assert 'L' !in TotalAssetsKey && 'l' !in TotalAssetsKey;
    AbsentCharacterRulesOut(TotalAssetsKey, ProfitAfterTaxKey, 0);
  }

  lemma CurrentAssetsNameIsNotProfitAfterTax()
    ensures !Matches(Str(CurrentAssetsKey), ProfitAfterTaxKey)
  {
    // the key's 'L' (index 0)
    assert 'L' !in CurrentAssetsKey && 'l' !in CurrentAssetsKey;
    AbsentCharacterRulesOut(CurrentAssetsKey, ProfitAfterTaxKey, 0);
  }

  lemma CurrentLiabilitiesNameIsNotProfitAfterTax()
    ensures !Matches(Str(CurrentLiabilitiesKey), ProfitAfterTaxKey)
  {
    // the key's 'L' (index 0)
    assert 'L' !in CurrentLiabilitiesKey && 'l' !in CurrentLiabilitiesKey;
    AbsentCharacterRulesOut(CurrentLiabilitiesKey, ProfitAfterTaxKey, 0);
  }

  lemma NetRevenueNameIsNotProfitAfterTax()
    ensures !Matches(Str(NetRevenueKey), ProfitAfterTaxKey)
  {
    // the key's 'L' (index 0)
    assert 'L' !in NetRevenueKey && 'l' !in NetRevenueKey;
    AbsentCharacterRulesOut(NetRevenueKey, ProfitAfterTaxKey, 0);
  }

  /** The example after coercion. */
  function ExampleItems(): seq<LineItem>
  {
    [ LineItem(Str(TotalAssetsKey), 1000.0, 1200.0),
      LineItem(Str(CurrentAssetsKey), 400.0, 500.0),
      LineItem(Str(CurrentLiabilitiesKey), 200.0, 250.0),
      LineItem(Str(NetRevenueKey), 900.0, 1100.0),
      LineItem(Str(ProfitAfterTaxKey), 90.0, 121.0) ]
  }

  lemma ExampleCoercion()
    ensures Normalize(ExampleStatement()) == ExampleItems()
  {
  }

  lemma ExampleFindsTotalAssets()
    ensures Find(ExampleItems(), TotalAssetsKey) == Some(0)
  {
    var items := ExampleItems();
    KeyMatchesItself(TotalAssetsKey);
    assert FindFrom(items, TotalAssetsKey, 0) == Some(0);
  }

  lemma ExampleFindsCurrentAssets()
    ensures Find(ExampleItems(), CurrentAssetsKey) == Some(1)
  {
    var items := ExampleItems();
    TotalAssetsNameIsNotCurrentAssets();
    assert FindFrom(items, CurrentAssetsKey, 0) == FindFrom(items, CurrentAssetsKey, 1);
    KeyMatchesItself(CurrentAssetsKey);
    assert FindFrom(items, CurrentAssetsKey, 1) == Some(1);
  }

  lemma ExampleFindsCurrentLiabilities()
    ensures Find(ExampleItems(), CurrentLiabilitiesKey) == Some(2)
  {
    var items := ExampleItems();
    TotalAssetsNameIsNotCurrentLiabilities();
    assert FindFrom(items, CurrentLiabilitiesKey, 0) == FindFrom(items, CurrentLiabilitiesKey, 1);
    CurrentAssetsNameIsNotCurrentLiabilities();
    assert FindFrom(items, CurrentLiabilitiesKey, 1) == FindFrom(items, CurrentLiabilitiesKey, 2);
    KeyMatchesItself(CurrentLiabilitiesKey);
    assert FindFrom(items, CurrentLiabilitiesKey, 2) == Some(2);
  }

  lemma ExampleFindsNetRevenue()
    ensures Find(ExampleItems(), NetRevenueKey) == Some(3)
  {
    var items := ExampleItems();
    TotalAssetsNameIsNotNetRevenue();
    assert FindFrom(items, NetRevenueKey, 0) == FindFrom(items, NetRevenueKey, 1);
    CurrentAssetsNameIsNotNetRevenue();
    assert FindFrom(items, NetRevenueKey, 1) == FindFrom(items, NetRevenueKey, 2);
    CurrentLiabilitiesNameIsNotNetRevenue();
    assert FindFrom(items, NetRevenueKey, 2) == FindFrom(items, NetRevenueKey, 3);
    KeyMatchesItself(NetRevenueKey);
    assert FindFrom(items, NetRevenueKey, 3) == Some(3);
  }

  lemma ExampleFindsProfitAfterTax()
    ensures Find(ExampleItems(), ProfitAfterTaxKey) == Some(4)
  {
    var items := ExampleItems();
    TotalAssetsNameIsNotProfitAfterTax();
    assert FindFrom(items, ProfitAfterTaxKey, 0) == FindFrom(items, ProfitAfterTaxKey, 1);
    CurrentAssetsNameIsNotProfitAfterTax();
    assert FindFrom(items, ProfitAfterTaxKey, 1) == FindFrom(items, ProfitAfterTaxKey, 2);
    CurrentLiabilitiesNameIsNotProfitAfterTax();
    assert FindFrom(items, ProfitAfterTaxKey, 2) == FindFrom(items, ProfitAfterTaxKey, 3);
    NetRevenueNameIsNotProfitAfterTax();
    assert FindFrom(items, ProfitAfterTaxKey, 3) == FindFrom(items, ProfitAfterTaxKey, 4);
    KeyMatchesItself(ProfitAfterTaxKey);
    assert FindFrom(items, ProfitAfterTaxKey, 4) == Some(4);
  }

  /** The example's ratio block: both current ratios are 2, average total
      assets is 1100 so asset turnover is 1, the margins are 10% (prior) and
      11% (current), and return on assets is 11%. */
  lemma ExampleRatios()
    ensures ComputeRatios(ExampleItems()) == RatioSet(
              Value(2.0), Value(2.0), Value(1.0), Value(10.0), Value(11.0), Value(11.0))
  {
    ExampleFindsTotalAssets();
    ExampleFindsCurrentAssets();
    ExampleFindsCurrentLiabilities();
    ExampleFindsNetRevenue();
    ExampleFindsProfitAfterTax();
    assert AverageTotalAssets(ExampleItems()[0]) == 1100.0;
  }

  /** The example end to end: derivation succeeds, total assets grow by 20%,
      and the ratio block is the one above. */
  lemma ExampleReport()
    ensures Analyze(ExampleStatement()).Success?
    ensures Analyze(ExampleStatement()).value.table[0].growth == 20.0
    ensures Analyze(ExampleStatement()).value.ratios == RatioSet(
              Value(2.0), Value(2.0), Value(1.0), Value(10.0), Value(11.0), Value(11.0))
  {
    var raw := ExampleStatement();
    ExampleCoercion();
    ExampleFindsTotalAssets();
    DeriveKeepsRows(raw);
    ExampleRatios();
    assert IsAnchor(raw, 0);
    assert Derive(raw).value[0].growth == GrowthRate(1000.0, 1200.0);
  }
}
