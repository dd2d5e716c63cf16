# Financial statement analysis engine — Dafny model

This project models the deterministic numeric core of a Streamlit app that
analyses a two-period Vietnamese financial statement. The statement is a
table of line items: a caption ("Chỉ tiêu"), a prior-period value ("Năm
trước") and a current-period value ("Năm sau"). The core has three parts:

- **Row derivation** (`process_financial_data`). Both value columns are
  coerced to numbers, with anything non-numeric becoming 0. Each row gets a
  growth rate, where a zero prior value is replaced by ε = 1e-9. The first
  row whose caption contains `TỔNG CỘNG TÀI SẢN` (total assets), compared
  case-insensitively, is the anchor. Each row gets its prior and current
  share of that anchor, with the same ε substitution applied separately per
  period. A statement with no anchor row fails as a whole with a structural
  error.
- **Line lookup**. A case-insensitive substring search over the captions
  that takes the first match. A caption that is not text never matches.
- **Ratio block**. It computes, in a fixed order:
  - the current ratio for both periods, with +∞ when liabilities are 0;
  - the average total assets;
  - asset turnover;
  - the net profit margin for both periods;
  - return on assets.

  Every ratio starts as "N/A". The first lookup that finds nothing ends the
  block: ratios already computed keep their values and the rest stay
  unavailable.

Modules follow those parts:

- `wrappers.dfy` (`Wrappers`): `Option` and `Result`.
- `text.dfy` (`Text`): character lower-casing, case folding, substring search
  with its reference definition, and the decimal notation used when a text
  cell is coerced.
- `statement.dfy` (`Statement`):
  - the cells, raw rows and line items;
  - the five caption keys;
  - coercion;
  - `Matches` and the first-match `Find`.
- `derivation.dfy` (`Derivation`): ε, the safe divisor, growth rate, asset
  share, and `Derive`.
- `ratios.dfy` (`Ratios`): the three-way `Ratio` type (`Unavailable |
  Infinite | Value`), `RatioSet`, the block itself (`RatioBlock`, over the
  five looked-up rows), and `ComputeRatios`, which feeds it the lookups.
- `pipeline.dfy` (`Pipeline`): `Analyze` (derive, then the ratio block over
  the derived table) and the worked example.

Numbers are Dafny `real`s. Every member is a pure function, so running the
pipeline twice on the same statement gives the same table and ratios.

Three points about the code itself that a reader might not expect:

- **Captions.** The lookups search for the Vietnamese captions
  `TỔNG CỘNG TÀI SẢN`, `TÀI SẢN NGẮN HẠN`, `NỢ NGẮN HẠN`, `DOANH THU
  THUẦN` and `LỢI NHUẬN SAU THUẾ` (python.py:39, 136-159), not English
  names such as "TOTAL ASSETS".
- **Sequential abort.** The ratio block runs its lookups one after another
  inside one `try` (python.py:132-230), so the first failing lookup stops
  everything after it.
  - A missing current-assets or current-liabilities row leaves every ratio
    unavailable.
  - A missing revenue or profit row leaves turnover, both margins and
    return on assets unavailable. This includes return on assets, which
    does not use revenue.
- **Several anchor matches.** The check at python.py:39-42 only rejects a
  table with no total-assets row; when several captions match, `.iloc[0]`
  (python.py:44-45) takes the first.

## Model

| member | source | states |
|---|---|---|
| Text.Lower | python.py:39 | the lower-case map sends each ASCII capital to its small letter (code + 32), keeps every other ASCII character, never maps a non-ASCII character into ASCII, and leaves no ASCII capital; mapping twice equals mapping once (see `LowerIdempotent`); its Vietnamese coverage is what the `LowerCase…Matches` lemmas below rely on |
| Text.LowerIdempotent | python.py:39 | lower-casing an already lower-cased character changes nothing |
| Text.FoldIdempotent | python.py:39 | a case-folded caption is its own fold, so matching compares both sides in one canonical form |
| Text.Contains | python.py:39 | the search answers true exactly when the key occurs at some position of the caption (reference definition `IsSubstring`) |
| Text.ContainsSplice | python.py:39 | any caption made of a prefix, the key and a suffix contains the key |
| Text.ParseDecimal | python.py:29 | text is read as a number exactly when it is in plain decimal notation (`IsPlainDecimal`: an optional '+' or '-', then digits with at most one point and at least one digit); such text holds a digit and nothing but digits, a point and a sign; a leading '-' gives a value ≤ 0, anything else a value ≥ 0 |
| Text.ParsePlainPoint | python.py:29 | plain notation with a point ("+12.50", ".5", "-007.5") reads as plus or minus the whole digits plus the fraction digits over 10^(number of fraction digits) |
| Text.ParsePlainWhole | python.py:29 | plain notation without a point ("+12", "-007") reads as plus or minus the number its digits spell |
| Text.ParseDigits | python.py:29 | a nonempty string of digits reads as the number it spells |
| Text.NoDigitNotDecimal | python.py:29 | text without a digit (a lone sign or point, or any mix of them) is never a number |
| Text.TwoPointsNotUnsigned | python.py:29 | unsigned text with two points (such as "1.000.000") is never a number |
| Text.ParseRenderInt | python.py:29 | text holding the decimal rendering of any integer is read back as exactly that number |
| Text.ParseRenderFixed | python.py:29 | the fixed-point text of n / 10^k (optional '-', whole digits, a point, exactly k fraction digits) reads back as exactly n / 10^k |
| Statement.Coerce | python.py:29 | every cell that is neither a number nor text in plain decimal notation becomes 0 (`errors='coerce'` then `fillna(0)`), including "-", "+", ".", "--5" and "1.2.3"; a numeric cell keeps its value and an empty cell becomes 0; text holding any character other than a digit, a point or a sign becomes 0; a digit string becomes the number it spells; text starting with '-' never coerces above 0 and other text never below 0 |
| Statement.CoercePlainPoint | python.py:29 | a text cell in plain notation with a point coerces to plus or minus its whole digits plus its fraction digits scaled down |
| Statement.CoercePlainWhole | python.py:29 | a text cell in plain notation without a point coerces to plus or minus the number its digits spell |
| Statement.MalformedNumbersCoerceToZero | python.py:29 | "-", "+", ".", "--5" and "1.2.3" are not numbers and coerce to 0 |
| Statement.CoerceRenderedInt | python.py:29 | a text cell spelling an integer coerces to that integer |
| Statement.CoerceRenderedDecimal | python.py:29 | a text cell holding the fixed-point text of n / 10^k coerces to n / 10^k |
| Statement.Normalize | python.py:27-29 | coercion keeps the row count and order; row i keeps row i's caption, and its prior and current values are row i's cells coerced |
| Statement.Matches | python.py:39 | a caption matches exactly when it is text and the key, case-folded, occurs in it, case-folded, as a contiguous run; a non-text caption never matches |
| Statement.KeyMatchesItself | python.py:39 | a caption equal to a key matches it |
| Statement.SameFoldMatches | python.py:39 | a caption equal to a key up to case matches it |
| Statement.LowerCaseTotalAssetsMatches | python.py:39 | the all-lower-case caption "tổng cộng tài sản" matches the total-assets key |
| Statement.LowerCaseCurrentAssetsMatches | python.py:136 | "tài sản ngắn hạn" matches the current-assets key |
| Statement.LowerCaseCurrentLiabilitiesMatches | python.py:140 | "nợ ngắn hạn" matches the current-liabilities key |
| Statement.LowerCaseNetRevenueMatches | python.py:154 | "doanh thu thuần" matches the net-revenue key |
| Statement.LowerCaseProfitAfterTaxMatches | python.py:158 | "lợi nhuận sau thuế" matches the profit-after-tax key |
| Statement.AbsentCharacterRulesOut | python.py:39 | a caption lacking (up to case) some character of the key cannot match it |
| Statement.Find | python.py:136 | the result is the first row whose caption matches, case-insensitively; None exactly when no row matches (the IndexError case) |
| Statement.Lookup | python.py:136-159 | the looked-up line item is the first matching row; None exactly when no row matches |
| Statement.FindIsFirstMatch | python.py:44-45 | `.iloc[0]`: when row i is the first match, the lookup returns i, even if later rows also match |
| Statement.FindDependsOnlyOnNames | python.py:136-159 | the lookup reads only captions: tables with the same captions find the same row whatever their values |
| Derivation.SafeDivisor | python.py:34 | the divisor is never 0; it is the value itself when nonzero and 1e-9 when zero |
| Derivation.GrowthRate | python.py:33-35 | with a nonzero prior, growth times prior is (current − prior)·100; with a zero prior, growth is current·10^11 (finite) |
| Derivation.Share | python.py:48-53 | with a nonzero anchor value, share times anchor is value·100; with a zero anchor value, share is value·10^11 |
| Derivation.Derive | python.py:23-55 | fails iff no caption contains the total-assets key, with no partial table; otherwise row i is `Augment` of coerced row i against the coerced first anchor row: its growth rate and its shares of the anchor's values, per period independently |
| Derivation.DeriveKeepsRows | python.py:23-55 | the derived table keeps row count, order, captions and coerced values; only the three columns are added |
| Derivation.DeriveFailureDependsOnlyOnNames | python.py:39-42 | whether derivation fails depends only on the captions, whatever the other cells hold |
| Derivation.AnchorShareIsHundred | python.py:44-53 | the anchor row's share is 100 in every period in which its value is nonzero |
| Ratios.CurrentRatio | python.py:144-145 | never unavailable; +∞ exactly when liabilities are 0; otherwise the ratio times liabilities equals assets |
| Ratios.Quotient | python.py:166-178 | available exactly when the denominator is nonzero, never +∞, and then the value times the denominator is the scaled numerator |
| Ratios.AverageTotalAssets | python.py:162 | twice the average equals the sum of prior and current total assets |
| Ratios.RatioBlock | python.py:133-178 | a missing current-assets/liabilities row leaves every ratio unavailable; otherwise both current ratios are computed, each period on its own; a missing total-assets/revenue/profit row then leaves turnover, margins and ROA unavailable; with all rows found, turnover and ROA are over the average total assets and each period's margin is over that period's revenue, each with its own zero-denominator rule |
| Ratios.ComputeRatios | python.py:133-178 | over a table, each current ratio is available iff both liquidity rows are found, and is then computed from the first matching current-assets and current-liabilities rows; any of the five lookups failing leaves turnover, margins and ROA unavailable; with all five found, turnover, both margins and ROA are computed from the first matching rows |
| Ratios.LaterRatiosFollowLiquidity | python.py:133-178 | the block's order: no efficiency or profitability ratio is ever available unless both current ratios are |
| Ratios.AssetRatioAvailability | python.py:150-178 | asset turnover is a value iff all five lookups succeed and the average total assets is nonzero; ROA is a value exactly when turnover is |
| Ratios.MarginPeriodsIndependent | python.py:171-174 | with every row found, each period's margin is a value iff that period's revenue is nonzero, whatever the other period's revenue |
| Ratios.CurrentRatioExamples | python.py:144-145 | 200 over 100 is 2; 200 over 0 is +∞ |
| Pipeline.Analyze | python.py:111-113 | the pipeline fails iff no caption contains the total-assets key; otherwise the table is the derivation's, one row per input row, and the ratios are the ratio block over the coerced input rows themselves |
| Pipeline.TotalAssetsLookupNeverFails | python.py:150-151 | after a successful derivation the ratio block's total-assets lookup finds the anchor row and cannot abort |
| Pipeline.AssetTurnoverInPipeline | python.py:150-178 | in the pipeline, turnover is a value iff the liquidity, revenue and profit rows are found and the anchor's two values do not sum to 0 |
| Pipeline.ExampleRatios | python.py:133-178 | on the worked statement, the current ratios are 2 and 2, turnover 1, margins 10% and 11%, ROA 11% |
| Pipeline.ExampleReport | python.py:111 | the worked statement derives successfully, total assets grow 20%, and its ratios are those above |

## Left out

- Page setup, file upload, `read_excel` and the column renaming (python.py:7-19, 87-108): UI and I/O.
- All display and formatting: the dataframe styles, the metric strings, "Vô hạn" and the "Thiếu …" captions, and the markdown serialisation (python.py:117-127, 181-228). These are presentation only.
- The AI summary table (python.py:243-264). It only formats strings for an external call. This includes the growth of current assets it shows at python.py:256.
- The language-model calls, the client set-up, the sidebar chat and its session history (python.py:58-83, 266-275, 290-366). These are network calls and stateful UI.
- The caching decorator (python.py:22): it has no semantic effect.
- IEEE floating point. Values are exact reals and ε is exactly 10^-9. NaN and infinite numeric cells are not modelled, and rounding is not modelled. The only infinity is the explicit +∞ sentinel of the current ratio.
- The `ZeroDivisionError` handler (python.py:234-237) and the `is not None` guards (python.py:162, 166, 171, 173, 177). The explicit zero checks and the first-match lookups mean they can never fire.
- Statement.Coerce: text is read as a number only in plain decimal notation: an optional sign, digits, and an optional point with more digits. The pandas parser also accepts exponents ("1e5"), surrounding whitespace, "inf" and "nan", and reads booleans as numbers. Such cells become 0 in the model, so the ensures that every cell outside `IsNumeric` becomes 0 is a statement about the model's narrower grammar.
- Text.Lower: case-insensitive matching lower-cases one character at a time. It covers Basic Latin, Latin-1, Latin Extended-A (except U+0130), the Vietnamese horn letters U+01A0/U+01AF and Latin Extended Additional. Capitals outside these blocks (Latin Extended-B apart from the two horn letters, such as U+0181 or U+01CD, Greek, Cyrillic, …) match only case-sensitively. The regex engine's extra case equivalences (the Kelvin sign, long s, dotless ı U+0131 matching `I`) are not modelled, and neither is Unicode normalisation: captions are compared as precomposed code points.
- The search runs with regular expressions on. The five keys contain no regular-expression metacharacters, so the model uses plain substring search.
- A caption column that holds no text at all makes the `.str` accessor raise a different exception, which python.py:279-280 catches. The model treats every such caption as non-matching, so it reports the structural error instead. Either way the analysis stops.
