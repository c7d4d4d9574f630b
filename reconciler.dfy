/** The post-processing of a decoded receipt: the item sum, the reading of
    the five money figures, the repair of an inconsistent subtotal/total
    pair, the filling of missing figures, the VAT-inclusive override, and the
    write-back of the result together with the currency and `full_text`.

    Amounts are exact reals; the floating-point rounding of PHP's doubles is
    not modelled. The tolerance of every comparison is the constant 0.05. */
module TotalsReconciler {
  import opened PhpValues
  import opened PhpNumeric
  import opened PhpText
  import opened CurrencyInference

  const Tolerance: real := 0.05

  function Abs(x: real): real {
    if x < 0.0 then -x else x
  }

  /** `abs($a - $b) < 0.05`. */
  predicate Near(a: real, b: real) {
    Abs(a - b) < Tolerance
  }

  // ----- The item sum -----

  /** The price an item names: `$item['total_price'] ?? $item['unit_price'] ?? 0`.
      An item that is not an array names neither field. */
  function Price(item: Value): (r: Value)
    ensures IsSet(item, "total_price") ==> r == Index(item, "total_price")
    ensures !IsSet(item, "total_price") && IsSet(item, "unit_price") ==> r == Index(item, "unit_price")
    ensures !IsSet(item, "total_price") && !IsSet(item, "unit_price") ==> r == Num(0.0)
  {
    Coalesce(Index(item, "total_price"), Coalesce(Index(item, "unit_price"), Num(0.0)))
  }

  /** What an item adds to the sum: its price when that is numeric, else 0. */
  function Contribution(item: Value): (r: real)
    ensures IsNumeric(Price(item)) ==> Some(r) == NumericValue(Price(item))
    ensures !IsNumeric(Price(item)) ==> r == 0.0
  {
    NumericValue(Price(item)).GetOr(0.0)
  }

  /** The sum of the contributions of the entries, in order. */
  function ItemSum(items: seq<Entry>): (r: real)
    ensures items == [] ==> r == 0.0
    ensures (forall i :: 0 <= i < |items| ==> Contribution(items[i].val) >= 0.0) ==> r >= 0.0
  {
    if items == [] then 0.0
    else
      var front := items[..|items| - 1];
      assert forall i :: 0 <= i < |front| ==> front[i] == items[i];
      ItemSum(front) + Contribution(items[|items| - 1].val)
  }

  /** The entries summed: those of `items` when it is an array, else none. */
  function ItemsOf(record: Value): seq<Entry> {
    var items := Index(record, "items");
    if items.Arr? then items.entries else []
  }

  /** The `foreach` that accumulates `$calculatedItemSum`. */
  method SumItems(record: Value) returns (sum: real)
    ensures sum == ItemSum(ItemsOf(record))
  {
    sum := 0.0;
    var items := Index(record, "items");
    if items.Arr? {
      var i := 0;
      while i < |items.entries|
        invariant 0 <= i <= |items.entries|
        invariant sum == ItemSum(items.entries[..i])
      {
        var price := Price(items.entries[i].val);
        sum := sum + if IsNumeric(price) then NumericValue(price).value else 0.0;
        ItemSumStep(items.entries, i);
        i := i + 1;
      }
      assert items.entries[..i] == items.entries;
    }
  }

  /** One more item adds its contribution to the sum. */
  lemma ItemSumStep(items: seq<Entry>, i: nat)
    requires i < |items|
    ensures ItemSum(items[..i + 1]) == ItemSum(items[..i]) + Contribution(items[i].val)
  {
    assert items[..i + 1][..i] == items[..i];
  }

  /** A set `total_price` decides the contribution, even when it is not
      numeric: `unit_price` is then not consulted. */
  lemma TotalPriceDecides(item: Value)
    requires IsSet(item, "total_price")
    ensures Contribution(item) == NumericValue(Index(item, "total_price")).GetOr(0.0)
  {
  }

  /** Without a `total_price`, the `unit_price` decides; without either, 0. */
  lemma UnitPriceOtherwise(item: Value)
    requires !IsSet(item, "total_price")
    ensures IsSet(item, "unit_price") ==> Contribution(item) == NumericValue(Index(item, "unit_price")).GetOr(0.0)
    ensures !IsSet(item, "unit_price") ==> Contribution(item) == 0.0
  {
  }

  /** The sum of two runs of items is the sum of their sums. */
  lemma {:induction false} ItemSumAppend(a: seq<Entry>, b: seq<Entry>)
    ensures ItemSum(a + b) == ItemSum(a) + ItemSum(b)
    decreases |b|
  {
    if b != [] {
      var b' := b[..|b| - 1];
      assert (a + b)[..|a + b| - 1] == a + b';
      assert (a + b)[|a + b| - 1] == b[|b| - 1];
      ItemSumAppend(a, b');
    } else {
      assert a + b == a;
    }
  }

  /** A record whose `items` is missing or not an array sums to 0. */
  lemma NoItemsSumToZero(record: Value)
    requires !Index(record, "items").Arr?
    ensures ItemSum(ItemsOf(record)) == 0.0
  {
  }

  // ----- The figures and their reconciliation -----

  /** The five figures as `$getFloat` reads them: a number, or nothing. */
  datatype Figures = Figures(
    subtotal: Option<real>,
    tax: Option<real>,
    vatAmount: Option<real>,
    vatableSales: Option<real>,
    total: Option<real>)

  /** `$getFloat($key)`: the entry of `totals` when it is numeric. */
  function Figure(totals: Value, key: string): (r: Option<real>)
    ensures r.Some? <==> IsSet(totals, key) && IsNumeric(Index(totals, key))
    ensures Index(totals, key).Num? ==> r == Some(Index(totals, key).n)
  {
    NumericValue(Index(totals, key))
  }

  /** The five `$getFloat` reads; a `totals` that is not an array yields none. */
  function ReadFigures(totals: Value): (r: Figures)
    ensures r.subtotal == Figure(totals, "subtotal") && r.tax == Figure(totals, "tax")
    ensures r.vatAmount == Figure(totals, "vat_amount") && r.vatableSales == Figure(totals, "vatable_sales")
    ensures r.total == Figure(totals, "total")
    ensures !totals.Arr? ==> r == Figures(None, None, None, None, None)
  {
    Figures(Figure(totals, "subtotal"), Figure(totals, "tax"), Figure(totals, "vat_amount"),
            Figure(totals, "vatable_sales"), Figure(totals, "total"))
  }

  /** `$tax ?? $vatAmount ?? 0`. */
  function EffectiveTax(f: Figures): (r: real)
    ensures f.tax.Some? ==> r == f.tax.value
    ensures f.tax.None? && f.vatAmount.Some? ==> r == f.vatAmount.value
    ensures f.tax.None? && f.vatAmount.None? ==> r == 0.0
  {
    f.tax.GetOr(f.vatAmount.GetOr(0.0))
  }

  /** The two figures the steps rewrite. */
  datatype Amounts = Amounts(subtotal: Option<real>, total: Option<real>)

  /** The pair is consistent: total = subtotal + tax within the tolerance. */
  predicate Consistent(s: real, t: real, e: real) {
    Near(t, s + e)
  }

  /** The same figure in both fields while there is tax. */
  predicate Duplicated(s: real, t: real, e: real) {
    !Consistent(s, t, e) && Near(t, s) && e > 0.0
  }

  /** The total stands where the subtotal should, and the pre-tax amount in the total. */
  predicate Flipped(s: real, t: real, e: real) {
    !Consistent(s, t, e) && !(Near(t, s) && e > 0.0) && t < s && Near(s, t + e)
  }

  /** The VATable sales plus the tax make the total. */
  predicate VatableFits(f: Figures, t: real, e: real) {
    f.vatableSales.Some? && f.vatableSales.value > 0.0 && Near(t, f.vatableSales.value + e)
  }

  /** The repair of a pair where both figures are present. */
  function Repair(a: Amounts, f: Figures, e: real): (r: Amounts)
    ensures a.subtotal.None? || a.total.None? ==> r == a
    ensures r == a || r == Amounts(f.vatableSales, a.total) || r == Amounts(a.total, a.subtotal)
    ensures r.subtotal.Some? == a.subtotal.Some? && r.total.Some? == a.total.Some?
    ensures a.subtotal.Some? && a.total.Some? && Consistent(a.subtotal.value, a.total.value, e) ==> r == a
  {
    if a.subtotal.Some? && a.total.Some? then
      var s, t := a.subtotal.value, a.total.value;
      if Consistent(s, t, e) then a
      else if Near(t, s) && e > 0.0 then
        if VatableFits(f, t, e) then Amounts(f.vatableSales, a.total) else a
      else if t < s && Near(s, t + e) then Amounts(a.total, a.subtotal)
      else a
    else a
  }

  /** A missing total becomes subtotal + tax, or item sum + tax when the sum is positive. */
  function FillTotal(a: Amounts, e: real, itemSum: real): (r: Amounts)
    ensures r.subtotal == a.subtotal
    ensures a.total.Some? ==> r == a
    ensures r.total.Some? <==> a.total.Some? || a.subtotal.Some? || itemSum > 0.0
  {
    if a.total.Some? then a
    else if a.subtotal.Some? then Amounts(a.subtotal, Some(a.subtotal.value + e))
    else if itemSum > 0.0 then Amounts(a.subtotal, Some(itemSum + e))
    else a
  }

  /** A missing subtotal becomes total - tax, or the item sum when there is no total. */
  function FillSubtotal(a: Amounts, e: real, itemSum: real): (r: Amounts)
    ensures r.total == a.total && r.subtotal.Some?
    ensures a.subtotal.Some? ==> r == a
  {
    if a.subtotal.Some? then a
    else if a.total.Some? then Amounts(Some(a.total.value - e), a.total)
    else Amounts(Some(itemSum), a.total)
  }

  /** VATable sales + VAT make the total. */
  predicate Overrides(f: Figures, t: real) {
    f.vatableSales.Some? && f.vatAmount.Some? && Near(t, f.vatableSales.value + f.vatAmount.value)
  }

  /** The VAT-inclusive override: the subtotal becomes the VATable sales. */
  function VatOverride(a: Amounts, f: Figures): (r: Amounts)
    ensures r.total == a.total
    ensures r == a || r.subtotal == f.vatableSales
    ensures a.total.Some? && Overrides(f, a.total.value) ==> r.subtotal == f.vatableSales && r.subtotal.Some?
    ensures a.total.None? ==> r == a
    ensures !(a.total.Some? && Overrides(f, a.total.value)) ==> r == a
  {
    if a.total.Some? && Overrides(f, a.total.value) then Amounts(f.vatableSales, a.total) else a
  }

  /** All steps in order. */
  function Settle(f: Figures, itemSum: real): (r: Amounts)
    ensures r.subtotal.Some?
    ensures r.total.Some? <==> f.total.Some? || f.subtotal.Some? || itemSum > 0.0
  {
    var e := EffectiveTax(f);
    VatOverride(FillSubtotal(FillTotal(Repair(Amounts(f.subtotal, f.total), f, e), e, itemSum), e, itemSum), f)
  }

  /** The override fixes the subtotal whenever it applies to the final total. */
  lemma OverrideWins(f: Figures, itemSum: real)
    requires Settle(f, itemSum).total.Some? && Overrides(f, Settle(f, itemSum).total.value)
    ensures Settle(f, itemSum).subtotal == f.vatableSales
  {
  }

  /** A consistent pair is kept: the total always, the subtotal unless the override applies. */
  lemma ConsistentPairKept(f: Figures, itemSum: real)
    requires f.subtotal.Some? && f.total.Some?
    requires Consistent(f.subtotal.value, f.total.value, EffectiveTax(f))
    ensures Settle(f, itemSum).total == f.total
    ensures Settle(f, itemSum).subtotal ==
              if Overrides(f, f.total.value) then f.vatableSales else f.subtotal
  {
  }

  /** A duplicated figure keeps the total; the subtotal becomes the VATable
      sales when they fit the total, and otherwise stays. */
  lemma DuplicatedFigureRepaired(f: Figures, itemSum: real)
    requires f.subtotal.Some? && f.total.Some?
    requires Duplicated(f.subtotal.value, f.total.value, EffectiveTax(f))
    ensures Settle(f, itemSum).total == f.total
    ensures Settle(f, itemSum).subtotal ==
              if Overrides(f, f.total.value) || VatableFits(f, f.total.value, EffectiveTax(f))
              then f.vatableSales else f.subtotal
  {
  }

  /** A flipped pair is exchanged. */
  lemma FlippedPairSwapped(f: Figures, itemSum: real)
    requires f.subtotal.Some? && f.total.Some?
    requires Flipped(f.subtotal.value, f.total.value, EffectiveTax(f))
    ensures Settle(f, itemSum).total == f.subtotal
    ensures Settle(f, itemSum).subtotal ==
              if Overrides(f, f.subtotal.value) then f.vatableSales else f.total
  {
  }

  /** A pair that is neither consistent, duplicated nor flipped is kept as it is. */
  lemma OtherPairKept(f: Figures, itemSum: real)
    requires f.subtotal.Some? && f.total.Some?
    requires var s, t, e := f.subtotal.value, f.total.value, EffectiveTax(f);
      !Consistent(s, t, e) && !Duplicated(s, t, e) && !Flipped(s, t, e)
    ensures Settle(f, itemSum).total == f.total
    ensures Settle(f, itemSum).subtotal ==
              if Overrides(f, f.total.value) then f.vatableSales else f.subtotal
  {
  }

  /** Without a total, the total is the subtotal plus the tax. */
  lemma TotalFromSubtotal(f: Figures, itemSum: real)
    requires f.subtotal.Some? && f.total.None?
    ensures Settle(f, itemSum).total == Some(f.subtotal.value + EffectiveTax(f))
    ensures Settle(f, itemSum).subtotal ==
              if Overrides(f, f.subtotal.value + EffectiveTax(f)) then f.vatableSales else f.subtotal
  {
  }

  /** Without a subtotal, the subtotal is the total less the tax. */
  lemma SubtotalFromTotal(f: Figures, itemSum: real)
    requires f.subtotal.None? && f.total.Some?
    ensures Settle(f, itemSum).total == f.total
    ensures Settle(f, itemSum).subtotal ==
              if Overrides(f, f.total.value) then f.vatableSales else Some(f.total.value - EffectiveTax(f))
  {
  }

  /** Without either, the item sum stands in for the subtotal; there is a
      total only when that sum is positive. */
  lemma FiguresFromItems(f: Figures, itemSum: real)
    requires f.subtotal.None? && f.total.None?
    ensures itemSum > 0.0 ==> Settle(f, itemSum).total == Some(itemSum + EffectiveTax(f))
    ensures itemSum > 0.0 ==>
              Settle(f, itemSum).subtotal ==
                (if Overrides(f, itemSum + EffectiveTax(f)) then f.vatableSales else Some(itemSum))
    ensures itemSum <= 0.0 ==> Settle(f, itemSum) == Amounts(Some(itemSum), None)
  {
  }

  /** The figures a second pass reads from the first pass's output. */
  function Resettled(f: Figures, itemSum: real): Figures {
    var r := Settle(f, itemSum);
    Figures(r.subtotal, f.tax, f.vatAmount, f.vatableSales, r.total)
  }

  /** A second pass changes nothing once there is a total, provided the VAT
      amount is not negative while a separate tax is present. */
  lemma SettleIdempotent(f: Figures, itemSum: real)
    requires Settle(f, itemSum).total.Some?
    requires f.vatAmount.None? || f.vatAmount.value >= 0.0 || f.tax.None?
    ensures Settle(Resettled(f, itemSum), itemSum) == Settle(f, itemSum)
  {
  }

  /** Without any amount and without positive items the total stays missing,
      and a second pass then fills it in from the tax. */
  lemma SecondPassFillsTotal()
    ensures Settle(Figures(None, Some(10.0), None, None, None), 0.0) == Amounts(Some(0.0), None)
    ensures Settle(Resettled(Figures(None, Some(10.0), None, None, None), 0.0), 0.0) == Amounts(Some(0.0), Some(10.0))
  {
  }

  /** A negative VAT amount beside a tax: the override leaves a flipped pair,
      which a second pass exchanges. */
  lemma SecondPassSwaps()
    ensures Settle(Figures(None, Some(10.0), Some(-10.0), Some(100.0), Some(90.0)), 0.0) == Amounts(Some(100.0), Some(90.0))
    ensures Settle(Resettled(Figures(None, Some(10.0), Some(-10.0), Some(100.0), Some(90.0)), 0.0), 0.0) == Amounts(Some(90.0), Some(100.0))
  {
  }

  /** An inconsistent pair no rule fits is written back as it came. */
  lemma InconsistentPairSurvives()
    ensures Settle(Figures(Some(100.0), Some(0.0), None, None, Some(300.0)), 0.0) == Amounts(Some(100.0), Some(300.0))
  {
  }

  /** Items of 100 and 50 with a tax of 15 and no amounts: total 165, subtotal 150. */
  lemma ItemsWithTax()
    ensures Settle(Figures(None, Some(15.0), None, None, None), 150.0) == Amounts(Some(150.0), Some(165.0))
  {
  }

  /** The total in both fields with VAT 20 and VATable sales 180: subtotal 180. */
  lemma VatInclusiveDuplicate()
    ensures Settle(Figures(Some(200.0), None, Some(20.0), Some(180.0), Some(200.0)), 0.0) == Amounts(Some(180.0), Some(200.0))
  {
  }

  /** Subtotal 500, total 450, tax 50: exchanged. */
  lemma FlippedExample()
    ensures Settle(Figures(Some(500.0), Some(50.0), None, None, Some(450.0)), 0.0) == Amounts(Some(450.0), Some(500.0))
  {
  }

  // ----- The record -----

  /** Why post-processing stops with an error (a response with status 500):
      a `totals` that is a scalar cannot take the write-back (a PHP `Error`);
      an address that is an array cannot be passed as a string (a
      `TypeError`); a line that is an array cannot be joined into text (a
      warning, which the framework turns into an `ErrorException`). */
  datatype Fault = TotalsNotArray | AddressNotText | LineNotText

  /** The fault is an `Exception`, which the controller's `catch` takes;
      the other two are `Error`s, which pass it by. */
  predicate IsException(f: Fault) {
    f == LineNotText
  }

  datatype Outcome = Done(record: Value) | Failed(fault: Fault)

  function NumOrNull(x: Option<real>): Value {
    match x
    case Some(n) => Num(n)
    case None => Null
  }

  /** Lines 177-179: a missing or null `totals` becomes an empty array. */
  function WithTotals(record: Value): (r: Value)
    requires record.Arr?
    ensures r.Arr? && IsSet(r, "totals")
    ensures IsSet(record, "totals") ==> r == record
    ensures forall k :: k != StrKey("totals") ==> Lookup(r.entries, k) == Lookup(record.entries, k)
  {
    if IsSet(record, "totals") then record else Put(record, "totals", Arr([]))
  }

  /** The array the write-back writes into: `totals` itself, or a fresh one
      when it is `false` (which PHP converts, with a deprecation notice). */
  function WriteTarget(totals: Value): Option<Value> {
    if totals.Arr? then Some(totals)
    else if totals == Bool(false) then Some(Arr([]))
    else None
  }

  /** `$decoded['totals']['subtotal'] = ...; $decoded['totals']['total'] = ...;` */
  function WrittenBack(totals: Value, a: Amounts): (r: Option<Value>)
    requires a.subtotal.Some?
    ensures r.Some? <==> totals.Arr? || totals == Bool(false)
    ensures r.Some? ==> r.value.Arr?
  {
    match WriteTarget(totals)
    case Some(t) => Some(Put(Put(t, "subtotal", Num(a.subtotal.value)), "total", NumOrNull(a.total)))
    case None => None
  }

  /** Lines 253-258: an empty currency is inferred from the merchant address;
      nothing when the address is an array. */
  function CurrencyFilled(totals: Value, address: Value, numText: real -> string): (r: Option<Value>)
    requires totals.Arr?
    ensures r.None? <==> Falsy(Index(totals, "currency")) && address.Arr?
    ensures r.Some? ==> r.value.Arr? && !Falsy(Index(r.value, "currency"))
    ensures !Falsy(Index(totals, "currency")) ==> r == Some(totals)
  {
    if Falsy(Index(totals, "currency")) then
      match AsText(Coalesce(address, Str("")), numText)
      case Some(text) =>
        InferredCodeIsThreeLetters(text);
        Some(Put(totals, "currency", Str(InferCurrency(text))))
      case None => None
    else Some(totals)
  }

  /** Lines 260-265: `full_text` from a non-empty `lines` array joined by
      newlines, or the empty text when `full_text` is empty and `lines` is set;
      nothing when a line is an array. */
  function TextRebuilt(record: Value, numText: real -> string): (r: Option<Value>)
    requires record.Arr?
    ensures r.Some? ==> r.value.Arr?
    ensures r.None? <==> NestedLine(record)
  {
    var lines := Index(record, "lines");
    if lines.Arr? && lines.entries != [] then
      match AllText(lines.entries, numText)
      case Some(texts) => Some(Put(record, "full_text", Str(Join(texts, "\n"))))
      case None => None
    else if Falsy(Index(record, "full_text")) && lines != Null then Some(Put(record, "full_text", Str("")))
    else Some(record)
  }

  /** The merchant address the currency is inferred from. */
  function Address(record: Value): Value {
    Index(Index(record, "merchant"), "address")
  }

  /** The whole post-processing of a decoded record. */
  function Reconciled(decoded: Value, numText: real -> string): (r: Outcome)
    requires decoded.Arr?
    ensures r.Done? ==> r.record.Arr?
  {
    Finished(WithTotals(decoded), SettledOf(decoded), numText)
  }

  /** The amounts a record's figures and items settle to. The figures are
      read from `totals` after line 178 has created it; an empty array gives
      the same figures as a missing one (`FreshTotalsSameFigures`). */
  function SettledOf(decoded: Value): (r: Amounts)
    ensures r.subtotal.Some?
  {
    Settle(ReadFigures(Index(decoded, "totals")), ItemSum(ItemsOf(decoded)))
  }

  /** Lines 245-265: the writes that follow the computation of the figures. */
  function Finished(record: Value, settled: Amounts, numText: real -> string): (r: Outcome)
    requires record.Arr? && settled.subtotal.Some?
    ensures r.Done? ==> r.record.Arr?
  {
    match WrittenBack(Index(record, "totals"), settled)
    case None => Failed(TotalsNotArray)
    case Some(totals) =>
      match CurrencyFilled(totals, Address(record), numText)
      case None => Failed(AddressNotText)
      case Some(totals') =>
        match TextRebuilt(Put(record, "totals", totals'), numText)
        case None => Failed(LineNotText)
        case Some(result) => Done(result)
  }

  /** Lines 193-242 over the controller's local variables, from the five
      figures `$getFloat` read. */
  method SettleAmounts(f: Figures, calculatedItemSum: real) returns (subtotal: Option<real>, total: Option<real>)
    ensures Amounts(subtotal, total) == Settle(f, calculatedItemSum)
    ensures subtotal.Some?
  {
    subtotal := f.subtotal;
    var tax := f.tax;
    var vatAmount := f.vatAmount;
    var vatableSales := f.vatableSales;
    total := f.total;
    var effectiveTax := tax.GetOr(vatAmount.GetOr(0.0));
    assert effectiveTax == EffectiveTax(f);
    if total.Some? && subtotal.Some? {
      if Near(total.value, subtotal.value + effectiveTax) {
      } else if Near(total.value, subtotal.value) && effectiveTax > 0.0 {
        if vatableSales.Some? && vatableSales.value > 0.0 && Near(total.value, vatableSales.value + effectiveTax) {
          subtotal := vatableSales;
        }
      } else if total.value < subtotal.value && Near(subtotal.value, total.value + effectiveTax) {
        var temp := total;
        total := subtotal;
        subtotal := temp;
      }
    }
    ghost var repaired := Amounts(subtotal, total);
    assert repaired == Repair(Amounts(f.subtotal, f.total), f, effectiveTax);
    if total.None? {
      if subtotal.Some? {
        total := Some(subtotal.value + effectiveTax);
      } else if calculatedItemSum > 0.0 {
        total := Some(calculatedItemSum + effectiveTax);
      }
    }
    ghost var filled := Amounts(subtotal, total);
    assert filled == FillTotal(repaired, effectiveTax, calculatedItemSum);
    if subtotal.None? {
      if total.Some? {
        subtotal := Some(total.value - effectiveTax);
      } else {
        subtotal := Some(calculatedItemSum);
      }
    }
    assert Amounts(subtotal, total) == FillSubtotal(filled, effectiveTax, calculatedItemSum);
    if vatableSales.Some? && vatAmount.Some? && total.Some? {
      if Near(total.value, vatableSales.value + vatAmount.value) {
        subtotal := vatableSales;
      }
    }
  }

  /** The figures of a `totals` created empty are those of the missing one. */
  lemma FreshTotalsSameFigures(decoded: Value)
    requires decoded.Arr?
    ensures ReadFigures(Index(WithTotals(decoded), "totals")) == ReadFigures(Index(decoded, "totals"))
  {
  }

  /** `totals` holds a scalar other than `false`, which the write-back cannot index. */
  predicate TotalsUnwritable(record: Value) {
    var t := Index(record, "totals");
    t != Null && !t.Arr? && t != Bool(false)
  }

  /** The currency will be inferred: after the write-back it is empty. */
  predicate CurrencyMissing(record: Value) {
    Falsy(Index(Index(record, "totals"), "currency"))
  }

  /** `lines` is an array one of whose entries is an array. */
  predicate NestedLine(record: Value) {
    var lines := Index(record, "lines");
    lines.Arr? && exists i :: 0 <= i < |lines.entries| && lines.entries[i].val.Arr?
  }

  /** The written-back `totals` keeps every entry but the two figures,
      whatever kind its key is. */
  lemma WrittenBackKeeps(read: Value, a: Amounts, j: Key)
    requires a.subtotal.Some? && WrittenBack(read, a).Some?
    requires j != StrKey("subtotal") && j != StrKey("total")
    ensures Lookup(WrittenBack(read, a).value.entries, j) == Lookup(WriteTarget(read).value.entries, j)
  {
  }

  /** The written-back `totals` holds the two figures. */
  lemma WrittenBackHolds(read: Value, a: Amounts)
    requires a.subtotal.Some? && WrittenBack(read, a).Some?
    ensures Field(WrittenBack(read, a).value, "subtotal") == Some(Num(a.subtotal.value))
    ensures Field(WrittenBack(read, a).value, "total") == Some(NumOrNull(a.total))
  {
    var t1 := Put(WriteTarget(read).value, "subtotal", Num(a.subtotal.value));
    PutOther(t1, "total", NumOrNull(a.total), "subtotal");
  }

  /** The currency step touches no entry of `totals` but `currency`. */
  lemma CurrencyFilledKeeps(totals: Value, address: Value, numText: real -> string, j: Key)
    requires totals.Arr? && CurrencyFilled(totals, address, numText).Some? && j != StrKey("currency")
    ensures Lookup(CurrencyFilled(totals, address, numText).value.entries, j) == Lookup(totals.entries, j)
  {
  }

  /** The text step touches no entry of the record but `full_text`. */
  lemma TextRebuiltKeeps(record: Value, numText: real -> string, j: Key)
    requires record.Arr? && TextRebuilt(record, numText).Some? && j != StrKey("full_text")
    ensures Lookup(TextRebuilt(record, numText).value.entries, j) == Lookup(record.entries, j)
  {
  }

  /** The record `Finished` hands to the text step. */
  function BeforeText(record: Value, settled: Amounts, numText: real -> string): (r: Option<Value>)
    requires record.Arr? && settled.subtotal.Some?
    ensures r.Some? ==> r.value.Arr?
  {
    match WrittenBack(Index(record, "totals"), settled)
    case None => None
    case Some(totals) =>
      match CurrencyFilled(totals, Address(record), numText)
      case None => None
      case Some(totals') => Some(Put(record, "totals", totals'))
  }

  lemma FinishedByText(record: Value, settled: Amounts, numText: real -> string)
    requires record.Arr? && settled.subtotal.Some?
    ensures BeforeText(record, settled, numText).None? ==> Finished(record, settled, numText).Failed?
    ensures BeforeText(record, settled, numText).Some? ==>
              match TextRebuilt(BeforeText(record, settled, numText).value, numText)
              case None => Finished(record, settled, numText) == Failed(LineNotText)
              case Some(out) => Finished(record, settled, numText) == Done(out)
  {
  }

  /** Post-processing fails exactly when `totals` is a scalar other than
      `false`, when a missing currency meets an address that is an array, or
      when a line is an array; and it says which. */
  lemma FinishedFailures(record: Value, settled: Amounts, numText: real -> string)
    requires record.Arr? && IsSet(record, "totals") && settled.subtotal.Some?
    ensures Finished(record, settled, numText) == Failed(TotalsNotArray) <==> TotalsUnwritable(record)
    ensures Finished(record, settled, numText) == Failed(AddressNotText) <==>
              !TotalsUnwritable(record) && CurrencyMissing(record) && Address(record).Arr?
    ensures Finished(record, settled, numText) == Failed(LineNotText) <==>
              !TotalsUnwritable(record) && !(CurrencyMissing(record) && Address(record).Arr?) && NestedLine(record)
  {
    FinishedByText(record, settled, numText);
    BeforeTextFails(record, settled, numText);
    var before := BeforeText(record, settled, numText);
    if before.Some? {
      PutOther(record, "totals", Index(before.value, "totals"), "lines");
      assert NestedLine(before.value) == NestedLine(record);
    }
  }

  /** The writes before the text step fail on a scalar `totals`, and then on
      an address that is an array when the currency is missing. */
  lemma BeforeTextFails(record: Value, settled: Amounts, numText: real -> string)
    requires record.Arr? && IsSet(record, "totals") && settled.subtotal.Some?
    ensures TotalsUnwritable(record) ==> Finished(record, settled, numText) == Failed(TotalsNotArray)
    ensures !TotalsUnwritable(record) && CurrencyMissing(record) && Address(record).Arr? ==>
              Finished(record, settled, numText) == Failed(AddressNotText)
    ensures BeforeText(record, settled, numText).Some? <==>
              !TotalsUnwritable(record) && !(CurrencyMissing(record) && Address(record).Arr?)
  {
    if !TotalsUnwritable(record) {
      WrittenBackKeeps(Index(record, "totals"), settled, StrKey("currency"));
    }
  }

  /** A finished record holds the settled figures in `totals`, a currency
      that is the one given or, when that is empty, the one inferred from the
      address, and every other entry of `totals` as it was. */
  lemma FinishedTotals(record: Value, settled: Amounts, numText: real -> string, out: Value, j: Key)
    requires record.Arr? && settled.subtotal.Some? && Finished(record, settled, numText) == Done(out)
    requires j != StrKey("subtotal") && j != StrKey("total") && j != StrKey("currency")
    ensures Field(Index(out, "totals"), "subtotal") == Some(Num(settled.subtotal.value))
    ensures Field(Index(out, "totals"), "total") == Some(NumOrNull(settled.total))
    ensures Index(out, "totals").Arr? &&
            Lookup(Index(out, "totals").entries, j) == Lookup(WriteTarget(Index(record, "totals")).value.entries, j)
    ensures !CurrencyMissing(record) ==> Field(Index(out, "totals"), "currency") == Field(Index(record, "totals"), "currency")
    ensures CurrencyMissing(record) ==>
              (AsText(Coalesce(Address(record), Str("")), numText).Some? &&
               Field(Index(out, "totals"), "currency") ==
                 Some(Str(InferCurrency(AsText(Coalesce(Address(record), Str("")), numText).value))))
  {
    FinishedByText(record, settled, numText);
    var read := Index(record, "totals");
    var totals := WrittenBack(read, settled).value;
    var totals' := CurrencyFilled(totals, Address(record), numText).value;
    var before := Put(record, "totals", totals');
    TextRebuiltKeeps(before, numText, StrKey("totals"));
    assert Index(out, "totals") == totals';
    WrittenBackHolds(read, settled);
    WrittenBackKeeps(read, settled, StrKey("currency"));
    WrittenBackKeeps(read, settled, j);
    CurrencyFilledKeeps(totals, Address(record), numText, StrKey("subtotal"));
    CurrencyFilledKeeps(totals, Address(record), numText, StrKey("total"));
    CurrencyFilledKeeps(totals, Address(record), numText, j);
    if !CurrencyMissing(record) {
      if read.Arr? {
        assert Field(WriteTarget(read).value, "currency") == Field(read, "currency");
      }
    }
  }

  /** A finished record keeps every entry but `totals` and `full_text`. */
  lemma FinishedKeeps(record: Value, settled: Amounts, numText: real -> string, out: Value, j: Key)
    requires record.Arr? && settled.subtotal.Some? && Finished(record, settled, numText) == Done(out)
    requires j != StrKey("totals") && j != StrKey("full_text")
    ensures out.Arr? && Lookup(out.entries, j) == Lookup(record.entries, j)
  {
    FinishedByText(record, settled, numText);
    var before := BeforeText(record, settled, numText).value;
    TextRebuiltKeeps(before, numText, j);
  }

  /** `full_text` of a finished record: the lines joined by newlines when
      `lines` is a non-empty array; the empty text when `full_text` was empty
      and `lines` is set; otherwise as it was. */
  lemma FinishedText(record: Value, settled: Amounts, numText: real -> string, out: Value)
    requires record.Arr? && settled.subtotal.Some? && Finished(record, settled, numText) == Done(out)
    ensures var lines := Index(record, "lines");
      if lines.Arr? && lines.entries != [] then
        AllText(lines.entries, numText).Some? &&
        Field(out, "full_text") == Some(Str(Join(AllText(lines.entries, numText).value, "\n")))
      else if Falsy(Index(record, "full_text")) && lines != Null then Field(out, "full_text") == Some(Str(""))
      else Field(out, "full_text") == Field(record, "full_text")
  {
    FinishedByText(record, settled, numText);
    var before := BeforeText(record, settled, numText).value;
    PutOther(record, "totals", Index(before, "totals"), "lines");
    PutOther(record, "totals", Index(before, "totals"), "full_text");
  }

  lemma FinishedJoinsLines(record: Value, settled: Amounts, numText: real -> string, out: Value, lines: seq<Entry>)
    requires record.Arr? && settled.subtotal.Some? && Finished(record, settled, numText) == Done(out)
    requires Index(record, "lines") == Arr(lines) && lines != []
    ensures AllText(lines, numText).Some?
    ensures Field(out, "full_text") == Some(Str(Join(AllText(lines, numText).value, "\n")))
  {
    FinishedText(record, settled, numText, out);
  }

  /** The whole post-processing fails as `FinishedFailures` says, read on the
      decoded record. */
  lemma FailureCases(decoded: Value, numText: real -> string)
    requires decoded.Arr?
    ensures Reconciled(decoded, numText) == Failed(TotalsNotArray) <==> TotalsUnwritable(decoded)
    ensures Reconciled(decoded, numText) == Failed(AddressNotText) <==>
              !TotalsUnwritable(decoded) && CurrencyMissing(decoded) && Address(decoded).Arr?
    ensures Reconciled(decoded, numText) == Failed(LineNotText) <==>
              !TotalsUnwritable(decoded) && !(CurrencyMissing(decoded) && Address(decoded).Arr?) && NestedLine(decoded)
  {
    FinishedFailures(WithTotals(decoded), SettledOf(decoded), numText);
    WithTotalsSameConditions(decoded);
  }

  /** A reconciled record holds the settled figures in `totals`. */
  lemma ReconciledFigures(decoded: Value, numText: real -> string, out: Value)
    requires decoded.Arr? && Reconciled(decoded, numText) == Done(out)
    ensures Field(Index(out, "totals"), "subtotal") == Some(Num(SettledOf(decoded).subtotal.value))
    ensures Field(Index(out, "totals"), "total") == Some(NumOrNull(SettledOf(decoded).total))
  {
    FinishedTotals(WithTotals(decoded), SettledOf(decoded), numText, out, StrKey("tax"));
  }

  /** A reconciled record always has a non-empty currency: the one given, or
      a three-letter code inferred from the address. */
  lemma ReconciledCurrency(decoded: Value, numText: real -> string, out: Value)
    requires decoded.Arr? && Reconciled(decoded, numText) == Done(out)
    ensures !Falsy(Index(Index(out, "totals"), "currency"))
  {
    var record := WithTotals(decoded);
    FinishedTotals(record, SettledOf(decoded), numText, out, StrKey("tax"));
    if CurrencyMissing(record) {
      InferredCodeIsThreeLetters(AsText(Coalesce(Address(record), Str("")), numText).value);
    }
  }

  /** When `lines` is a non-empty array, a reconciled record's `full_text` is
      its lines joined by newlines. */
  lemma ReconciledJoinsLines(decoded: Value, numText: real -> string, out: Value)
    requires decoded.Arr? && Reconciled(decoded, numText) == Done(out)
    requires Index(decoded, "lines").Arr? && Index(decoded, "lines").entries != []
    ensures AllText(Index(decoded, "lines").entries, numText).Some?
    ensures Field(out, "full_text") == Some(Str(Join(AllText(Index(decoded, "lines").entries, numText).value, "\n")))
  {
    var lines := Index(decoded, "lines");
    WithTotalsKeeps(decoded, "lines");
    FinishedJoinsLines(WithTotals(decoded), SettledOf(decoded), numText, out, lines.entries);
  }

  /** Without a non-empty `lines` array, `full_text` becomes the empty text
      when it was empty and `lines` is set, and is left as it was otherwise. */
  lemma ReconciledTextWithoutLines(decoded: Value, numText: real -> string, out: Value)
    requires decoded.Arr? && Reconciled(decoded, numText) == Done(out)
    requires !(Index(decoded, "lines").Arr? && Index(decoded, "lines").entries != [])
    ensures Field(out, "full_text") ==
              if Falsy(Index(decoded, "full_text")) && Index(decoded, "lines") != Null then Some(Str(""))
              else Field(decoded, "full_text")
  {
    WithTotalsKeeps(decoded, "lines");
    WithTotalsKeeps(decoded, "full_text");
    FinishedText(WithTotals(decoded), SettledOf(decoded), numText, out);
  }

  /** An empty currency is replaced by the one inferred from the merchant
      address, a missing address counting as the empty text. */
  lemma ReconciledInfersCurrency(decoded: Value, numText: real -> string, out: Value)
    requires decoded.Arr? && Reconciled(decoded, numText) == Done(out) && CurrencyMissing(decoded)
    ensures AsText(Coalesce(Address(decoded), Str("")), numText).Some?
    ensures Field(Index(out, "totals"), "currency") ==
              Some(Str(InferCurrency(AsText(Coalesce(Address(decoded), Str("")), numText).value)))
  {
    WithTotalsSameConditions(decoded);
    FinishedTotals(WithTotals(decoded), SettledOf(decoded), numText, out, StrKey("tax"));
  }

  /** A record with neither `lines` nor `full_text` comes out without
      `full_text`: the text is not guaranteed to be present. */
  lemma MissingTextStaysMissing(decoded: Value, numText: real -> string, out: Value)
    requires decoded.Arr? && Reconciled(decoded, numText) == Done(out)
    requires Field(decoded, "lines") == None && Field(decoded, "full_text") == None
    ensures Field(out, "full_text") == None
  {
    ReconciledTextWithoutLines(decoded, numText, out);
  }

  /** The empty record reconciles, and has no `full_text` afterwards. */
  lemma EmptyRecordHasNoText(numText: real -> string)
    ensures Reconciled(Arr([]), numText).Done?
    ensures Field(Reconciled(Arr([]), numText).record, "full_text") == None
  {
    FailureCases(Arr([]), numText);
    MissingTextStaysMissing(Arr([]), numText, Reconciled(Arr([]), numText).record);
  }

  /** Lines "A", "B", "C" become the text "A\nB\nC", whatever `full_text` held. */
  lemma ThreeLinesJoined(decoded: Value, numText: real -> string, out: Value)
    requires decoded.Arr? && Reconciled(decoded, numText) == Done(out)
    requires Index(decoded, "lines") == Arr([Entry(IntKey(0), Str("A")), Entry(IntKey(1), Str("B")), Entry(IntKey(2), Str("C"))])
    ensures Field(out, "full_text") == Some(Str("A\nB\nC"))
  {
    ReconciledJoinsLines(decoded, numText, out);
    ThreeLinesText(numText);
  }

  lemma ThreeLinesText(numText: real -> string)
    ensures AllText([Entry(IntKey(0), Str("A")), Entry(IntKey(1), Str("B")), Entry(IntKey(2), Str("C"))], numText)
              == Some(["A", "B", "C"])
    ensures Join(["A", "B", "C"], "\n") == "A\nB\nC"
  {
    var lines := [Entry(IntKey(0), Str("A")), Entry(IntKey(1), Str("B")), Entry(IntKey(2), Str("C"))];
    var texts := AllText(lines, numText).value;
    assert texts[0] == "A" && texts[1] == "B" && texts[2] == "C";
    assert texts == ["A", "B", "C"];
    var parts := ["A", "B", "C"];
    assert parts[1..] == ["B", "C"] && parts[1..][1..] == ["C"];
  }

  /** A reconciled record keeps every entry of the decoded one but `totals`
      and `full_text`. */
  lemma ReconciledKeeps(decoded: Value, numText: real -> string, out: Value, j: Key)
    requires decoded.Arr? && Reconciled(decoded, numText) == Done(out)
    requires j != StrKey("totals") && j != StrKey("full_text")
    ensures out.Arr? && Lookup(out.entries, j) == Lookup(decoded.entries, j)
  {
    FinishedKeeps(WithTotals(decoded), SettledOf(decoded), numText, out, j);
  }

  /** The figures a reconciled record holds are those of a second pass over
      the written figures, and its items are the ones summed. */
  lemma ReconciledFiguresResettled(decoded: Value, numText: real -> string, out: Value)
    requires decoded.Arr? && Reconciled(decoded, numText) == Done(out)
    ensures ReadFigures(Index(out, "totals")) ==
              Resettled(ReadFigures(Index(decoded, "totals")), ItemSum(ItemsOf(decoded)))
    ensures ItemsOf(out) == ItemsOf(decoded)
  {
    var record, settled := WithTotals(decoded), SettledOf(decoded);
    FinishedTotals(record, settled, numText, out, StrKey("tax"));
    FinishedTotals(record, settled, numText, out, StrKey("vat_amount"));
    FinishedTotals(record, settled, numText, out, StrKey("vatable_sales"));
    ReconciledKeeps(decoded, numText, out, StrKey("items"));
  }

  /** Reconciling a reconciled record again leaves its subtotal, total and
      currency as they were, under the conditions of `SettleIdempotent`. */
  lemma ReconcileTwiceSettled(decoded: Value, numText: real -> string, out: Value, again: Value)
    requires decoded.Arr? && Reconciled(decoded, numText) == Done(out)
    requires Reconciled(out, numText) == Done(again)
    requires SettledOf(decoded).total.Some?
    requires var f := ReadFigures(Index(decoded, "totals"));
               f.vatAmount.None? || f.vatAmount.value >= 0.0 || f.tax.None?
    ensures Field(Index(again, "totals"), "subtotal") == Field(Index(out, "totals"), "subtotal")
    ensures Field(Index(again, "totals"), "total") == Field(Index(out, "totals"), "total")
    ensures Field(Index(again, "totals"), "currency") == Field(Index(out, "totals"), "currency")
  {
    ReconciledFiguresResettled(decoded, numText, out);
    SettleIdempotent(ReadFigures(Index(decoded, "totals")), ItemSum(ItemsOf(decoded)));
    assert SettledOf(out) == SettledOf(decoded);
    ReconciledFigures(decoded, numText, out);
    ReconciledFigures(out, numText, again);
    ReconciledCurrency(decoded, numText, out);
    FinishedTotals(WithTotals(out), SettledOf(out), numText, again, StrKey("tax"));
  }

  lemma WithTotalsKeeps(decoded: Value, k: string)
    requires decoded.Arr? && k != "totals"
    ensures Field(WithTotals(decoded), k) == Field(decoded, k)
  {
    assert StrKey(k) != StrKey("totals");
  }

  /** Creating an empty `totals` changes none of the failure conditions. */
  lemma WithTotalsSameConditions(decoded: Value)
    requires decoded.Arr?
    ensures TotalsUnwritable(WithTotals(decoded)) == TotalsUnwritable(decoded)
    ensures CurrencyMissing(WithTotals(decoded)) == CurrencyMissing(decoded)
    ensures Address(WithTotals(decoded)) == Address(decoded)
    ensures NestedLine(WithTotals(decoded)) == NestedLine(decoded)
  {
    assert Index(WithTotals(decoded), "lines") == Index(decoded, "lines");
    assert Index(WithTotals(decoded), "merchant") == Index(decoded, "merchant");
  }

  /** The controller's steps over its local variables and `$decoded`. */
  method Reconcile(decoded: Value, numText: real -> string) returns (outcome: Outcome)
    requires decoded.Arr?
    ensures outcome == Reconciled(decoded, numText)
  {
    var record := decoded;
    var calculatedItemSum := SumItems(record);
    if !IsSet(record, "totals") {
      record := Put(record, "totals", Arr([]));
    }
    var subtotal, total := SettleAmounts(ReadFigures(Index(record, "totals")), calculatedItemSum);
    FreshTotalsSameFigures(decoded);
    outcome := WriteResults(record, subtotal, total, numText);
  }

  /** Lines 245-265 on `$decoded`. */
  method WriteResults(decoded: Value, subtotal: Option<real>, total: Option<real>, numText: real -> string)
    returns (outcome: Outcome)
    requires decoded.Arr? && subtotal.Some?
    ensures outcome == Finished(decoded, Amounts(subtotal, total), numText)
  {
    var record := decoded;
    var totals := WriteBack(Index(record, "totals"), subtotal, total);
    if totals.None? {
      return Failed(TotalsNotArray);
    }
    record := Put(record, "totals", totals.value);
    PutOther(decoded, "totals", totals.value, "merchant");
    totals := FillCurrency(Index(record, "totals"), Index(Index(record, "merchant"), "address"), numText);
    if totals.None? {
      return Failed(AddressNotText);
    }
    PutTwice(decoded, "totals", Index(record, "totals"), totals.value);
    record := Put(record, "totals", totals.value);
    var rebuilt := RebuildText(record, numText);
    if rebuilt.None? {
      return Failed(LineNotText);
    }
    return Done(rebuilt.value);
  }

  /** Lines 245-246: the two figures written into `totals`. */
  method WriteBack(read: Value, subtotal: Option<real>, total: Option<real>) returns (totals: Option<Value>)
    requires subtotal.Some?
    ensures totals == WrittenBack(read, Amounts(subtotal, total))
  {
    var target := read;
    if target == Bool(false) {
      target := Arr([]);
    } else if !target.Arr? {
      return None;
    }
    target := Put(target, "subtotal", Num(subtotal.value));
    target := Put(target, "total", NumOrNull(total));
    return Some(target);
  }

  /** Lines 253-258. */
  method FillCurrency(read: Value, address: Value, numText: real -> string) returns (totals: Option<Value>)
    requires read.Arr?
    ensures totals == CurrencyFilled(read, address, numText)
  {
    totals := Some(read);
    if Falsy(Index(read, "currency")) {
      var argument := Coalesce(address, Str(""));
      if argument.Arr? {
        return None;
      }
      var text := AsText(argument, numText).value;
      totals := Some(Put(read, "currency", Str(InferCurrency(text))));
    }
  }

  /** Lines 260-265. */
  method RebuildText(decoded: Value, numText: real -> string) returns (record: Option<Value>)
    requires decoded.Arr?
    ensures record == TextRebuilt(decoded, numText)
  {
    record := Some(decoded);
    var lines := Index(decoded, "lines");
    if lines.Arr? && lines.entries != [] {
      var texts := AllText(lines.entries, numText);
      if texts.None? {
        return None;
      }
      record := Some(Put(decoded, "full_text", Str(Join(texts.value, "\n"))));
    } else if Falsy(Index(decoded, "full_text")) && lines != Null {
      record := Some(Put(decoded, "full_text", Str("")));
    }
  }
}
