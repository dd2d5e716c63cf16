/** The statement dataset: the three-column table (line-item name,
    prior-period value, current-period value) as read from the uploaded
    workbook, its numeric coercion, and the first-match name lookup. */
module Statement {
  import opened Wrappers
  import opened Text

  /** Line-item keys the engine looks up (Vietnamese statement captions,
      precomposed code points). */
  // "TỔNG CỘNG TÀI SẢN": total assets, the anchor of the asset shares
  const TotalAssetsKey: string := "T\U{1ED4}NG C\U{1ED8}NG T\U{C0}I S\U{1EA2}N"
  // "TÀI SẢN NGẮN HẠN": current assets
  const CurrentAssetsKey: string := "T\U{C0}I S\U{1EA2}N NG\U{1EAE}N H\U{1EA0}N"
  // "NỢ NGẮN HẠN": current liabilities
  const CurrentLiabilitiesKey: string := "N\U{1EE2} NG\U{1EAE}N H\U{1EA0}N"
  // "DOANH THU THUẦN": net revenue
  const NetRevenueKey: string := "DOANH THU THU\U{1EA6}N"
  // "LỢI NHUẬN SAU THUẾ": profit after tax
  const ProfitAfterTaxKey: string := "L\U{1EE2}I NHU\U{1EAC}N SAU THU\U{1EBE}"

  /** One spreadsheet cell: a number, an empty (NaN) cell, or text. */
  datatype Cell = Num(v: real) | Blank | Str(s: string)

  /** One input row before coercion. */
  datatype RawRow = RawRow(name: Cell, prior: Cell, current: Cell)

  /** One line item after coercion: both period values are numbers. */
  datatype LineItem = LineItem(name: Cell, prior: real, current: real)

  /** A cell that coercion reads as a number: a number, or text in plain
      decimal notation. */
  predicate IsNumeric(c: Cell)
  {
    c.Num? || (c.Str? && IsPlainDecimal(c.s))
  }

  /** Numeric coercion of a value cell: numbers are kept, text that reads as
      a decimal number becomes that number, and anything else (an empty
      cell, any other text) becomes 0. */
  function Coerce(c: Cell): (r: real)
    ensures !IsNumeric(c) ==> r == 0.0
    ensures c.Num? ==> r == c.v
    ensures c.Blank? ==> r == 0.0
    ensures c.Str? && (exists i :: 0 <= i < |c.s| && !IsNumberChar(c.s[i])) ==> r == 0.0
    ensures c.Str? && |c.s| > 0 && AllDigits(c.s) ==> r == DigitsValue(c.s) as real
    ensures c.Str? && |c.s| > 0 && c.s[0] == '-' ==> r <= 0.0
    ensures c.Str? && (|c.s| == 0 || c.s[0] != '-') ==> r >= 0.0
  {
    match c
    case Num(v) => v
    case Blank => 0.0
    case Str(s) =>
      ParseDigits(s);
      match ParseDecimal(s)
      case Some(v) => v
      case None => 0.0
  }

  /** Coercing a rendered integer gives that integer back. */
  lemma CoerceRenderedInt(n: int)
    ensures Coerce(Str(RenderInt(n))) == n as real
  {
    ParseRenderInt(n);
  }

  /** Coercing the fixed-point text of `n / 10^k` gives `n / 10^k` back. */
  lemma CoerceRenderedDecimal(n: int, k: nat)
    ensures Coerce(Str(RenderFixed(n, k))) == n as real / Pow10(k) as real
  {
    ParseRenderFixed(n, k);
  }

  /** Text in plain notation with a point coerces to plus or minus its
      whole digits plus its fraction digits over `10^|f|` ("+12.50" to
      12.5, ".5" to 0.5, "-007.5" to -7.5). */
  lemma CoercePlainPoint(sign: string, w: string, f: string)
    requires sign == "" || sign == "+" || sign == "-"
    requires AllDigits(w) && AllDigits(f) && |w| + |f| > 0
    ensures var v := DigitsValue(w) as real + Scaled(DigitsValue(f), |f|);
            Coerce(Str(sign + (w + "." + f))) == if sign == "-" then -v else v
  {
    ParsePlainPoint(sign, w, f);
  }

  /** Text in plain notation without a point coerces to plus or minus its
      digits ("+12" to 12, "-007" to -7). */
  lemma CoercePlainWhole(sign: string, w: string)
    requires sign == "" || sign == "+" || sign == "-"
    requires |w| > 0 && AllDigits(w)
    ensures Coerce(Str(sign + w)) == if sign == "-" then -(DigitsValue(w) as real) else DigitsValue(w) as real
  {
    ParsePlainWhole(sign, w);
  }

  /** Digit-and-sign text that is not plain notation coerces to 0. */
  lemma MalformedNumbersCoerceToZero()
    ensures Coerce(Str("-")) == 0.0 && Coerce(Str("+")) == 0.0 && Coerce(Str(".")) == 0.0
    ensures Coerce(Str("--5")) == 0.0 && Coerce(Str("1.2.3")) == 0.0
  {
    NoDigitNotDecimal("-");
    NoDigitNotDecimal("+");
    NoDigitNotDecimal(".");
    assert !IsPlainUnsigned("-5") by { SignedIsNotUnsigned("-5"); }
    TwoPointsNotUnsigned("1.2.3", 1, 3);
  }

  function CoerceRow(row: RawRow): LineItem
  {
    LineItem(row.name, Coerce(row.prior), Coerce(row.current))
  }

  /** Coercion of the whole table: same rows, same order, same names, and
      each value coerced in place. */
  function Normalize(raw: seq<RawRow>): (items: seq<LineItem>)
    ensures |items| == |raw|
    ensures forall i :: 0 <= i < |raw| ==> items[i].name == raw[i].name
    ensures forall i :: 0 <= i < |raw| ==> items[i].prior == Coerce(raw[i].prior)
    ensures forall i :: 0 <= i < |raw| ==> items[i].current == Coerce(raw[i].current)
  {
    seq(|raw|, i requires 0 <= i < |raw| => CoerceRow(raw[i]))
  }

  /** Case-insensitive substring match of a name cell against a key. A
      cell that is not text never matches. */
  function Matches(name: Cell, key: string): (b: bool)
    ensures b <==> name.Str? && IsSubstring(Fold(key), Fold(name.s))
    ensures !name.Str? ==> !b
  {
    name.Str? && Contains(Fold(name.s), Fold(key))
  }

  /** A name matches a key that is equal to it. */
  lemma KeyMatchesItself(key: string)
    ensures Matches(Str(key), key)
  {
    ContainsSplice([], Fold(key), []);
    assert [] + Fold(key) + [] == Fold(key);
  }

  /** A name matches every key it equals up to case. */
  lemma SameFoldMatches(name: string, key: string)
    requires Fold(name) == Fold(key)
    ensures Matches(Str(name), key)
  {
    KeyMatchesItself(key);
  }

  /* The keys match their captions written in lower case, as the
     case-insensitive search finds them. */

  // "tổng cộng tài sản"
  lemma LowerCaseTotalAssetsMatches()
    ensures Matches(Str("t\U{1ED5}ng c\U{1ED9}ng t\U{E0}i s\U{1EA3}n"), TotalAssetsKey)
  {
    SameFoldMatches("t\U{1ED5}ng c\U{1ED9}ng t\U{E0}i s\U{1EA3}n", TotalAssetsKey);
  }

  // "tài sản ngắn hạn"
  lemma LowerCaseCurrentAssetsMatches()
    ensures Matches(Str("t\U{E0}i s\U{1EA3}n ng\U{1EAF}n h\U{1EA1}n"), CurrentAssetsKey)
  {
    SameFoldMatches("t\U{E0}i s\U{1EA3}n ng\U{1EAF}n h\U{1EA1}n", CurrentAssetsKey);
  }

  // "nợ ngắn hạn"
  lemma LowerCaseCurrentLiabilitiesMatches()
    ensures Matches(Str("n\U{1EE3} ng\U{1EAF}n h\U{1EA1}n"), CurrentLiabilitiesKey)
  {
    SameFoldMatches("n\U{1EE3} ng\U{1EAF}n h\U{1EA1}n", CurrentLiabilitiesKey);
  }

  // "doanh thu thuần"
  lemma LowerCaseNetRevenueMatches()
    ensures Matches(Str("doanh thu thu\U{1EA7}n"), NetRevenueKey)
  {
    SameFoldMatches("doanh thu thu\U{1EA7}n", NetRevenueKey);
  }

  // "lợi nhuận sau thuế"
  lemma LowerCaseProfitAfterTaxMatches()
    ensures Matches(Str("l\U{1EE3}i nhu\U{1EAD}n sau thu\U{1EBF}"), ProfitAfterTaxKey)
  {
    SameFoldMatches("l\U{1EE3}i nhu\U{1EAD}n sau thu\U{1EBF}", ProfitAfterTaxKey);
  }

  /** A name cannot match a key when one of the key's folded characters
      appears nowhere in the folded name. */
  lemma AbsentCharacterRulesOut(name: string, key: string, k: nat)
    requires k < |key|
    requires forall i :: 0 <= i < |name| ==> Lower(name[i]) != Lower(key[k])
    ensures !Matches(Str(name), key)
  {
    forall i | 0 <= i && i + |key| <= |name|
      ensures !OccursAt(Fold(name), Fold(key), i)
    {
      assert Fold(name)[i..i + |key|][k] != Fold(key)[k];
    }
  }

  /** Row `i` is the first row whose name matches `key`. */
  ghost predicate IsFirstMatch(items: seq<LineItem>, key: string, i: int)
  {
    0 <= i < |items|
    && Matches(items[i].name, key)
    && forall j :: 0 <= j < i ==> !Matches(items[j].name, key)
  }

  /** No row's name matches `key`. */
  ghost predicate NoMatch(items: seq<LineItem>, key: string)
  {
    forall j :: 0 <= j < |items| ==> !Matches(items[j].name, key)
  }

  function FindFrom(items: seq<LineItem>, key: string, from: nat): (r: Option<nat>)
    requires from <= |items|
    ensures r.Some? ==> from <= r.value < |items| && Matches(items[r.value].name, key)
    ensures r.Some? ==> forall j :: from <= j < r.value ==> !Matches(items[j].name, key)
    ensures r.None? <==> forall j :: from <= j < |items| ==> !Matches(items[j].name, key)
    decreases |items| - from
  {
    if from == |items| then None
    else if Matches(items[from].name, key) then Some(from)
    else FindFrom(items, key, from + 1)
  }

  /** Index of the first row whose name contains `key` case-insensitively,
      or `None` when no row does (the lookup that raises an index error). */
  function Find(items: seq<LineItem>, key: string): (r: Option<nat>)
    ensures r.Some? ==> IsFirstMatch(items, key, r.value)
    ensures r.None? <==> NoMatch(items, key)
  {
    FindFrom(items, key, 0)
  }

  /** The first matching line item itself, or `None` when no row matches. */
  function Lookup(items: seq<LineItem>, key: string): (r: Option<LineItem>)
    ensures r.None? <==> NoMatch(items, key)
    ensures r.Some? ==> Find(items, key).Some? && r.value == items[Find(items, key).value]
  {
    match Find(items, key)
    case None => None
    case Some(i) => Some(items[i])
  }

  /** The first match is unique, so `Find` returns exactly it. */
  lemma FindIsFirstMatch(items: seq<LineItem>, key: string, i: int)
    requires IsFirstMatch(items, key, i)
    ensures Find(items, key) == Some(i)
  {
  }

  /** The lookup only looks at names: two tables with the same names in the
      same order find the same row, whatever their values. */
  lemma FindDependsOnlyOnNames(a: seq<LineItem>, b: seq<LineItem>, key: string)
    requires |a| == |b|
    requires forall i :: 0 <= i < |a| ==> a[i].name == b[i].name
    ensures Find(a, key) == Find(b, key)
  {
    var ra := Find(a, key);
    if ra.Some? {
      assert IsFirstMatch(b, key, ra.value);
      FindIsFirstMatch(b, key, ra.value);
    } else {
      assert NoMatch(b, key);
    }
  }
}
