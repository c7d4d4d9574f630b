# Receipt extraction post-processing

A Dafny model of the deterministic part of the receipt scanner's
`OcrController`. It covers what happens after the vision model has answered:

- **Decoding**: the reply text is turned into a record in up to three stages.
  1. Trim the text, strip a markdown JSON fence, and parse.
  2. After a parse error, parse the span from the first `{` to the last `}`.
  3. Otherwise use a fixed fallback record that carries the reply verbatim.
- **Reconciliation**: the record's totals are repaired and completed. The
  steps are the item sum, the five money figures read as number-or-null, the
  effective tax, the repair of the subtotal/total pair, the filling of a
  missing total and subtotal, and the VAT-inclusive override. The result is
  then written back with an inferred currency and a rebuilt `full_text`.
- **Currency inference**: `inferCurrencyFromAddress` scans an ordered table
  of currency codes and keywords. It returns the first code one of whose
  keywords occurs in the lower-cased address, and "PHP" when none does.

Modules, one per file:

| file | module | content |
|---|---|---|
| `values.dfy` | `PhpValues` | decoded JSON values; PHP arrays as ordered association lists; `??`, `isset`, `empty` and array writes |
| `text.dfy` | `PhpText` | `trim`, PCRE `\s`, `strtolower`, `str_contains`, `implode` and the conversion of a value to text |
| `numeric.dfy` | `PhpNumeric` | `is_numeric` and `(float)` on values, using PHP 8's numeric-string grammar |
| `currency.dfy` | `CurrencyInference` | the keyword table and the first-match search |
| `decoder.dfy` | `ResponseDecoder` | the three decoding stages, as pure functions and as the controller's method |
| `reconciler.dfy` | `TotalsReconciler` | the reconciliation, as specification functions and as methods over the controller's variables |
| `pipeline.dfy` | `ReceiptPipeline` | decoding followed by reconciliation, giving the JSON response, the controller's error body, or an error the controller does not catch |

Two library services are parameters of the model:

- `parse: string -> Option<Value>` stands for `json_decode($s, true)`.
  `None` stands for a call after which `json_last_error()` reports an error.
- `numText: real -> string` stands for PHP's conversion of a number to text.
  Only `implode` and the `string` parameter of `inferCurrencyFromAddress` use it.

Amounts are exact reals, so `abs($a - $b) < 0.05` is `Near` with the constant
`Tolerance`.

Post-processing can stop early. The model names the three ways this
happens (`Fault`), and which of them the controller's `catch (\Exception $e)`
at lines 274-276 takes (`IsException`):

- `TotalsNotArray`: `totals` holds a scalar other than `false`. The write-back
  cannot index it and PHP throws an `Error`. A `false` is converted to an
  array, with only a deprecation notice.
- `AddressNotText`: the currency is empty and the merchant address is an
  array. Passing it to the `string` parameter throws a `TypeError`.
- `LineNotText`: an entry of a non-empty `lines` array is an array, and
  `implode` raises the "Array to string conversion" warning, which the
  framework turns into an `ErrorException`.

Only `LineNotText` is an `Exception`. It gets the controller's logged JSON
error body (the `Unexpected` response). The other two are `Error`s, which pass
the `catch` by and reach the framework's own error handler (the `Uncaught`
response).

## Model

All source paths are in `app/Http/Controllers/OcrController.php`.

| member | source | states |
|---|---|---|
| PhpValues.LookupFirst | app/Http/Controllers/OcrController.php:183 | a read of a key finds the first entry with that key |
| PhpValues.LookupAbsent | app/Http/Controllers/OcrController.php:183 | a key with no entry reads as nothing, which `??` turns into its default |
| PhpValues.Update | app/Http/Controllers/OcrController.php:245-246 | after `$a[k] = v` the key reads `v` and every other key reads as before; an existing entry is replaced where it stands, a new key is appended at the end |
| PhpValues.Index | app/Http/Controllers/OcrController.php:183 | `$v[k] ?? null` is the stored value, and null for a missing key or when `v` is not an array |
| PhpValues.IsSet | app/Http/Controllers/OcrController.php:170 | `isset($v[k])` holds exactly when `v` is an array with an entry for `k` that is not null |
| PhpValues.Coalesce | app/Http/Controllers/OcrController.php:172 | `$a ?? $b` is `$a` unless it is null, and `$b` then; null only when both are |
| PhpValues.Falsy | app/Http/Controllers/OcrController.php:254 | `empty` holds of null, `false`, 0, "" and "0" and the empty array, and of nothing else |
| PhpValues.UpdateExisting | app/Http/Controllers/OcrController.php:245-246 | writing the value a key already holds leaves the array unchanged |
| PhpValues.UpdateTwice | app/Http/Controllers/OcrController.php:245-246 | a second write to a key overrides the first and keeps its position |
| PhpValues.Put | app/Http/Controllers/OcrController.php:178 | `$v[k] = x` on an array gives an array in which `k` holds `x` and every other key is unchanged |
| PhpValues.PutOther | app/Http/Controllers/OcrController.php:255 | writing one string key leaves every other string key's field as it was |
| PhpValues.PutExisting | app/Http/Controllers/OcrController.php:255 | writing the value already held changes nothing |
| PhpValues.PutTwice | app/Http/Controllers/OcrController.php:262-264 | two writes to one key amount to the last |
| PhpText.TrimStart | app/Http/Controllers/OcrController.php:143 | the result is a suffix of the text that does not start with a trim character, and everything cut off is trim characters |
| PhpText.TrimEnd | app/Http/Controllers/OcrController.php:143 | the result is a prefix of the text that does not end with a trim character, and everything cut off is trim characters |
| PhpText.Trim | app/Http/Controllers/OcrController.php:143 | `trim` gives a slice of the text that neither starts nor ends with a space, tab, newline, return, NUL or vertical tab, and everything cut from either end is such a character |
| PhpText.TrimKeeps | app/Http/Controllers/OcrController.php:143 | text that starts and ends with a kept character is unchanged by `trim` |
| PhpText.DropSpaces | app/Http/Controllers/OcrController.php:143 | the `\s*` after the opening fence removes exactly the leading run of `\s` characters |
| PhpText.DropTrailingSpaces | app/Http/Controllers/OcrController.php:143 | the `\s*` before the closing fence removes exactly the trailing run of `\s` characters |
| PhpText.Lower | app/Http/Controllers/OcrController.php:285 | `strtolower` keeps the length and lower-cases each ASCII letter in place |
| PhpText.LowerIdempotent | app/Http/Controllers/OcrController.php:285 | lower-casing twice is lower-casing once |
| PhpText.Contains | app/Http/Controllers/OcrController.php:339 | `str_contains` holds exactly when the needle occurs at some position of the haystack |
| PhpText.ContainsPiece | app/Http/Controllers/OcrController.php:339 | a text containing a word contains every piece of that word |
| PhpText.ContainsNeedsRoom | app/Http/Controllers/OcrController.php:339 | a needle longer than the haystack never occurs |
| PhpText.Join | app/Http/Controllers/OcrController.php:262 | `implode` of a single part is that part |
| PhpText.AsText | app/Http/Controllers/OcrController.php:256 | every value but an array has a text; a string is its own text |
| PhpText.AllText | app/Http/Controllers/OcrController.php:262 | the texts of a list exist exactly when no entry is an array, and then there is one per entry, in order |
| PhpNumeric.NumericValue | app/Http/Controllers/OcrController.php:184 | a number is numeric with its own value; booleans, null and arrays are not numeric |
| PhpNumeric.NumericStringShape | app/Http/Controllers/OcrController.php:184 | a string is numeric exactly when it is spaces, an optional sign, digits with an optional point and at least one digit, an optional exponent with digits, and spaces |
| PhpNumeric.ShapeScans | app/Http/Controllers/OcrController.php:184 | every string of the numeric shape is recognised |
| PhpNumeric.ScannedShape | app/Http/Controllers/OcrController.php:184 | every recognised string has the numeric shape, with the parts the scanner found |
| PhpNumeric.DigitStringIsNumeric | app/Http/Controllers/OcrController.php:173 | a non-empty run of decimal digits is numeric and has its decimal value |
| PhpNumeric.ExampleDecimal | app/Http/Controllers/OcrController.php:173 | "12.50" is numeric with value 12.5 |
| PhpNumeric.ExampleSpaces | app/Http/Controllers/OcrController.php:173 | " 7 " is numeric: leading and trailing spaces are allowed |
| PhpNumeric.ExampleNegative | app/Http/Controllers/OcrController.php:173 | "-3" is numeric with value -3 |
| PhpNumeric.ExampleExponent | app/Http/Controllers/OcrController.php:173 | "1e3" is numeric with value 1000 |
| PhpNumeric.ExamplePoint | app/Http/Controllers/OcrController.php:173 | ".5" is numeric with value 0.5 |
| PhpNumeric.ExampleTrailingPoint | app/Http/Controllers/OcrController.php:173 | "5." is numeric with value 5 |
| PhpNumeric.ExampleEmpty | app/Http/Controllers/OcrController.php:184 | the empty string is not numeric |
| PhpNumeric.ExampleDot | app/Http/Controllers/OcrController.php:184 | "." is not numeric |
| PhpNumeric.ExampleBareE | app/Http/Controllers/OcrController.php:184 | "1e" is not numeric: an exponent needs digits |
| PhpNumeric.ExampleComma | app/Http/Controllers/OcrController.php:184 | "1,234.50" is not numeric, so a price with a thousands separator counts as missing |
| CurrencyInference.SearchFrom | app/Http/Controllers/OcrController.php:337-343 | the nested search yields the code of the first row, in table order, that has a keyword occurring in the address, and nothing only when no row has one |
| CurrencyInference.MentionsFromSome | app/Http/Controllers/OcrController.php:338-342 | the inner loop succeeds exactly when some keyword of the row occurs in the address |
| CurrencyInference.InferCurrency | app/Http/Controllers/OcrController.php:283-346 | the result is always one of the table's codes; the default "PHP" is the first row's code |
| CurrencyInference.InferredCodeIsThreeLetters | app/Http/Controllers/OcrController.php:288-335 | every possible result is a three-letter code, so never empty |
| CurrencyInference.InferFirstMatch | app/Http/Controllers/OcrController.php:337-343 | the first row, in table order, whose keywords occur in the lower-cased address decides the result |
| CurrencyInference.InferDefault | app/Http/Controllers/OcrController.php:345 | when no keyword occurs in the lower-cased address the result is "PHP" |
| CurrencyInference.InferIgnoresCase | app/Http/Controllers/OcrController.php:285 | addresses that lower-case alike infer the same currency, and so does the lower-cased address itself |
| CurrencyInference.KeywordsNonEmpty | app/Http/Controllers/OcrController.php:288-335 | no keyword of the table is the empty text |
| CurrencyInference.EmptyAddressDefault | app/Http/Controllers/OcrController.php:345 | the empty address, which is what a missing address becomes, yields "PHP" |
| CurrencyInference.InferWithin | app/Http/Controllers/OcrController.php:337-343 | a row whose keywords the address mentions bounds the result: it is that row's code or an earlier row's |
| CurrencyInference.KeywordMentions | app/Http/Controllers/OcrController.php:338-340 | containing any one keyword of a row is enough for that row to match |
| CurrencyInference.ManilaWins | app/Http/Controllers/OcrController.php:290 | an address naming Manila is Philippine, whatever else it names (London included) |
| CurrencyInference.MakatiIsPhilippine | app/Http/Controllers/OcrController.php:290 | an address naming Makati is Philippine |
| CurrencyInference.TitleCaseMakati | app/Http/Controllers/OcrController.php:285-290 | "Makati" with a capital anywhere in the address is Philippine too |
| CurrencyInference.AyalaAvenueIsPhilippine | app/Http/Controllers/OcrController.php:283-346 | "123 Ayala Ave, Makati City" is inferred as "PHP" |
| CurrencyInference.EarlyRows | app/Http/Controllers/OcrController.php:290-296 | the table opens with PHP, USD, JPY and GBP; "usa" is a US keyword and "uk" a British one |
| CurrencyInference.BusanReadsAsUnitedStates | app/Http/Controllers/OcrController.php:292 | an address naming Busan is never Korean: "busan" contains the earlier US keyword "usa" |
| CurrencyInference.PhuketReadsAsBritish | app/Http/Controllers/OcrController.php:296 | an address naming Phuket is never Thai: "phuket" contains the earlier British keyword "uk" |
| ResponseDecoder.StripFences | app/Http/Controllers/OcrController.php:143 | the fence removal never lengthens the text and leaves unfenced text unchanged |
| ResponseDecoder.Cleaned | app/Http/Controllers/OcrController.php:143 | the cleaned text is never longer than the reply, and a reply without surrounding white space or fences is cleaned to itself |
| ResponseDecoder.FirstFrom | app/Http/Controllers/OcrController.php:150 | finds the first occurrence of a character, or reports that there is none |
| ResponseDecoder.LastBefore | app/Http/Controllers/OcrController.php:150 | finds the last occurrence of a character, or reports that there is none |
| ResponseDecoder.BracePair | app/Http/Controllers/OcrController.php:150 | the positions found hold the first `{` of the reply and its last `}`, the `{` coming first |
| ResponseDecoder.BraceSpan | app/Http/Controllers/OcrController.php:150 | a matched span is the slice of the reply from its first `{` to its last `}`, so it opens with `{` and closes with `}` |
| ResponseDecoder.BraceSpanMeaning | app/Http/Controllers/OcrController.php:150 | `/\{.*\}/s` matches exactly when some `}` follows some `{`, and the match runs from the first `{` to the last `}` |
| ResponseDecoder.Fallback | app/Http/Controllers/OcrController.php:156-165 | the fallback record is an array with the reply verbatim as `full_text`, empty `items` and `lines`, and no `totals` |
| ResponseDecoder.AsRecord | app/Http/Controllers/OcrController.php:156 | a parse result is kept exactly when it parsed to an array |
| ResponseDecoder.Recovered | app/Http/Controllers/OcrController.php:146-156 | a recovered record is always an array |
| ResponseDecoder.Decode | app/Http/Controllers/OcrController.php:146-166 | decoding never fails: the record is always an array |
| ResponseDecoder.DecodeReply | app/Http/Controllers/OcrController.php:143-166 | the controller's reassignments of `$decoded`, read through the last parse's error flag, compute `Decode` |
| ResponseDecoder.FirstStageWins | app/Http/Controllers/OcrController.php:146 | a cleaned reply that parses to an array is the record |
| ResponseDecoder.ScalarReplyFallsBack | app/Http/Controllers/OcrController.php:149-156 | a cleaned reply that parses to a scalar without error goes straight to the fallback; the brace span is not tried |
| ResponseDecoder.SpanStage | app/Http/Controllers/OcrController.php:149-151 | after a parse error, the brace span of the raw reply is parsed, and it is the record when it parses to an array |
| ResponseDecoder.UnusableReplyKeepsText | app/Http/Controllers/OcrController.php:156-165 | when no stage yields an array, the record's `full_text` is the reply verbatim, `items` and `lines` are empty, and `totals` is absent |
| ResponseDecoder.BraceSpanFramed | app/Http/Controllers/OcrController.php:150 | text without braces around a reply does not change its brace span |
| ResponseDecoder.StripBothFences | app/Http/Controllers/OcrController.php:143 | a text with both fences keeps what lies between them, less the `\s` next to each fence |
| ResponseDecoder.FencedBodyIsCleaned | app/Http/Controllers/OcrController.php:143 | a body wrapped in a "```json" fence reaches the first parse exactly as written |
| ResponseDecoder.FencedSpan | app/Http/Controllers/OcrController.php:150 | the fence lines do not change the brace span |
| ResponseDecoder.FencedReplyDecodesLikeBody | app/Http/Controllers/OcrController.php:143-153 | a fenced body goes through both parse stages as the bare body does |
| ResponseDecoder.FencedRecordIsBodyRecord | app/Http/Controllers/OcrController.php:143-166 | a fenced body whose bare form yields a record decodes to that same record |
| ResponseDecoder.SameStagesSameRecord | app/Http/Controllers/OcrController.php:146-156 | replies with the same cleaned text and the same brace span recover the same record |
| ResponseDecoder.SameRecordSameDecode | app/Http/Controllers/OcrController.php:156-166 | replies that recover the same record decode alike |
| TotalsReconciler.SumItems | app/Http/Controllers/OcrController.php:169-175 | the `foreach` computes the item sum of the record's `items` |
| TotalsReconciler.Price | app/Http/Controllers/OcrController.php:172 | an item's price is its set `total_price`, else its set `unit_price`, else 0 |
| TotalsReconciler.Contribution | app/Http/Controllers/OcrController.php:173 | an item adds the value of its price when that is numeric, and 0 otherwise |
| TotalsReconciler.ItemSum | app/Http/Controllers/OcrController.php:169-175 | no items sum to 0, and items that contribute nothing negative sum to something non-negative |
| TotalsReconciler.TotalPriceDecides | app/Http/Controllers/OcrController.php:172-173 | a set `total_price` decides the contribution even when it is not numeric; `unit_price` is then not consulted |
| TotalsReconciler.UnitPriceOtherwise | app/Http/Controllers/OcrController.php:172-173 | without a `total_price` the `unit_price` decides, and without either the item adds 0 |
| TotalsReconciler.ItemSumAppend | app/Http/Controllers/OcrController.php:171-174 | the sum of two runs of items is the sum of their sums |
| TotalsReconciler.NoItemsSumToZero | app/Http/Controllers/OcrController.php:170 | a missing or non-array `items` sums to 0 |
| TotalsReconciler.WithTotals | app/Http/Controllers/OcrController.php:177-179 | afterwards `totals` is set; a set `totals` is untouched; no other key changes |
| TotalsReconciler.FreshTotalsSameFigures | app/Http/Controllers/OcrController.php:177-191 | the figures read from a freshly created empty `totals` are those of the missing one |
| TotalsReconciler.Figure | app/Http/Controllers/OcrController.php:182-185 | a figure is read exactly when the entry is set and numeric, and a number is read as itself |
| TotalsReconciler.ReadFigures | app/Http/Controllers/OcrController.php:187-191 | the five figures are the reads of their five keys, and a scalar `totals` yields none |
| TotalsReconciler.EffectiveTax | app/Http/Controllers/OcrController.php:194 | the tax wins, then the VAT amount, and 0 when neither was read |
| TotalsReconciler.Repair | app/Http/Controllers/OcrController.php:199-215 | a pair missing a figure is kept and so is a consistent pair; otherwise the pair is kept, its subtotal replaced by the VATable sales, or the two exchanged, and which figures are present never changes |
| TotalsReconciler.FillTotal | app/Http/Controllers/OcrController.php:217-224 | the subtotal is untouched, a present total is kept, and afterwards there is a total exactly when there was a total, a subtotal or a positive item sum |
| TotalsReconciler.FillSubtotal | app/Http/Controllers/OcrController.php:226-233 | the total is untouched, a present subtotal is kept, and afterwards there is always a subtotal |
| TotalsReconciler.VatOverride | app/Http/Controllers/OcrController.php:235-242 | the total is untouched; when VATable sales plus VAT match it the subtotal becomes the VATable sales, and otherwise nothing changes |
| TotalsReconciler.Settle | app/Http/Controllers/OcrController.php:193-242 | the settled subtotal is always present; the total is present exactly when a total, a subtotal or a positive item sum was there |
| TotalsReconciler.SettleAmounts | app/Http/Controllers/OcrController.php:193-242 | the controller's reassignments of `$subtotal` and `$total` compute `Settle`, and leave a subtotal |
| TotalsReconciler.OverrideWins | app/Http/Controllers/OcrController.php:237-242 | when VATable sales plus VAT match the final total, the subtotal is the VATable sales, whatever came before |
| TotalsReconciler.ConsistentPairKept | app/Http/Controllers/OcrController.php:199-201 | a pair where total ≈ subtotal + tax keeps its total, and its subtotal unless the override applies |
| TotalsReconciler.DuplicatedFigureRepaired | app/Http/Controllers/OcrController.php:202-207 | the same figure in both fields, with tax, keeps the total; the subtotal becomes the VATable sales when they fit the total |
| TotalsReconciler.FlippedPairSwapped | app/Http/Controllers/OcrController.php:208-214 | a pair with total < subtotal ≈ total + tax is exchanged |
| TotalsReconciler.OtherPairKept | app/Http/Controllers/OcrController.php:199-215 | an inconsistent pair that is neither duplicated nor flipped is kept |
| TotalsReconciler.TotalFromSubtotal | app/Http/Controllers/OcrController.php:218-220 | without a total, the total is subtotal + tax |
| TotalsReconciler.SubtotalFromTotal | app/Http/Controllers/OcrController.php:227-229 | without a subtotal, the subtotal is total − tax |
| TotalsReconciler.FiguresFromItems | app/Http/Controllers/OcrController.php:221-231 | without either, the item sum stands in for the subtotal, and a total exists only when that sum is positive |
| TotalsReconciler.SettleIdempotent | app/Http/Controllers/OcrController.php:193-242 | on the figures alone: once there is a total, settling the settled subtotal and total again, beside the same tax, VAT amount and VATable sales, changes nothing, provided the VAT amount is not negative beside a tax |
| TotalsReconciler.SecondPassFillsTotal | app/Http/Controllers/OcrController.php:218-231 | a record with only a tax leaves the total missing, and a second pass fills it in |
| TotalsReconciler.SecondPassSwaps | app/Http/Controllers/OcrController.php:208-242 | a negative VAT amount beside a tax leaves a flipped pair, which a second pass exchanges |
| TotalsReconciler.InconsistentPairSurvives | app/Http/Controllers/OcrController.php:199-215 | subtotal 100, tax 0 and total 300 come out as they went in |
| TotalsReconciler.ItemsWithTax | app/Http/Controllers/OcrController.php:218-233 | items summing to 150 with tax 15 and no amounts give subtotal 150 and total 165 |
| TotalsReconciler.VatInclusiveDuplicate | app/Http/Controllers/OcrController.php:202-207 | 200 in both fields, VAT 20 and VATable sales 180 give subtotal 180 and total 200 |
| TotalsReconciler.FlippedExample | app/Http/Controllers/OcrController.php:208-214 | subtotal 500, total 450 and tax 50 are exchanged |
| TotalsReconciler.WrittenBack | app/Http/Controllers/OcrController.php:245-246 | the write-back succeeds exactly when `totals` is an array or `false`, and gives an array |
| TotalsReconciler.WrittenBackHolds | app/Http/Controllers/OcrController.php:245-246 | the written `totals` holds the settled subtotal and the total, null when missing |
| TotalsReconciler.WrittenBackKeeps | app/Http/Controllers/OcrController.php:245-246 | the write-back touches no entry of `totals`, string- or integer-keyed, but the two figures |
| TotalsReconciler.CurrencyFilled | app/Http/Controllers/OcrController.php:253-258 | the currency step fails exactly when the currency is empty and the address is an array; a non-empty currency is kept as it is, and afterwards the currency is never empty |
| TotalsReconciler.CurrencyFilledKeeps | app/Http/Controllers/OcrController.php:254-258 | the currency step touches no entry of `totals`, string- or integer-keyed, but `currency` |
| TotalsReconciler.TextRebuilt | app/Http/Controllers/OcrController.php:260-265 | the text step fails exactly when a line of `lines` is an array, and otherwise gives an array |
| TotalsReconciler.TextRebuiltKeeps | app/Http/Controllers/OcrController.php:261-265 | the text step touches no key of the record but `full_text` |
| TotalsReconciler.Finished | app/Http/Controllers/OcrController.php:245-265 | a finished record is an array |
| TotalsReconciler.Reconciled | app/Http/Controllers/OcrController.php:169-265 | a reconciled record is an array |
| TotalsReconciler.BeforeTextFails | app/Http/Controllers/OcrController.php:245-258 | the write-back fails on a scalar `totals`, and the currency step on an array address when the currency is empty, and only then |
| TotalsReconciler.FinishedFailures | app/Http/Controllers/OcrController.php:245-265 | the writes fail exactly in the three fault cases, in order, and report which |
| TotalsReconciler.FinishedTotals | app/Http/Controllers/OcrController.php:245-258 | after the writes `totals` holds the settled figures, the given currency or the inferred one, and every other entry, string- or integer-keyed, as it was |
| TotalsReconciler.FinishedKeeps | app/Http/Controllers/OcrController.php:245-265 | the writes change no key of the record, string or integer, but `totals` and `full_text` |
| TotalsReconciler.FinishedText | app/Http/Controllers/OcrController.php:261-265 | `full_text` is the joined lines for a non-empty `lines` array, "" when it was empty and `lines` is set, and otherwise as it was |
| TotalsReconciler.FinishedJoinsLines | app/Http/Controllers/OcrController.php:261-262 | a non-empty `lines` array has texts, and `full_text` is them joined by newlines |
| TotalsReconciler.FailureCases | app/Http/Controllers/OcrController.php:177-265 | post-processing of a decoded record fails exactly in the three fault cases, and reports which |
| TotalsReconciler.ReconciledFigures | app/Http/Controllers/OcrController.php:245-246 | the output's `totals.subtotal` is always a number and `totals.total` is the settled total or null |
| TotalsReconciler.ReconciledCurrency | app/Http/Controllers/OcrController.php:254-258 | the output's currency is never empty |
| TotalsReconciler.ReconciledInfersCurrency | app/Http/Controllers/OcrController.php:254-258 | an empty currency becomes the one inferred from the merchant address, a missing address counting as "" |
| TotalsReconciler.ReconciledJoinsLines | app/Http/Controllers/OcrController.php:261-262 | for a non-empty `lines` array, `full_text` is the lines joined by newlines, whatever it held before |
| TotalsReconciler.ReconciledTextWithoutLines | app/Http/Controllers/OcrController.php:263-265 | otherwise `full_text` becomes "" when it was empty and `lines` is set, and is kept as it was in every other case |
| TotalsReconciler.MissingTextStaysMissing | app/Http/Controllers/OcrController.php:261-265 | a record with neither `lines` nor `full_text` comes out without `full_text` |
| TotalsReconciler.EmptyRecordHasNoText | app/Http/Controllers/OcrController.php:177-265 | the empty record reconciles and has no `full_text` afterwards |
| TotalsReconciler.ThreeLinesText | app/Http/Controllers/OcrController.php:262 | the lines "A", "B", "C" have those texts and join to "A\nB\nC" |
| TotalsReconciler.ThreeLinesJoined | app/Http/Controllers/OcrController.php:261-262 | the lines "A", "B", "C" give `full_text` "A\nB\nC", whatever it held before |
| TotalsReconciler.ReconciledKeeps | app/Http/Controllers/OcrController.php:177-265 | post-processing changes no key, string or integer, but `totals` and `full_text`: `items`, `merchant`, `lines` and the rest pass through |
| TotalsReconciler.ReconciledFiguresResettled | app/Http/Controllers/OcrController.php:169-246 | the figures a reconciled record holds are the ones a second pass over the written subtotal and total would read, beside the original tax, VAT amount and VATable sales, and its items are the items summed |
| TotalsReconciler.ReconcileTwiceSettled | app/Http/Controllers/OcrController.php:169-258 | reconciling a reconciled record again keeps its subtotal, total and currency, once there is a total and unless a negative VAT amount stands beside a tax |
| TotalsReconciler.WithTotalsKeeps | app/Http/Controllers/OcrController.php:177-179 | creating `totals` changes no other field |
| TotalsReconciler.WithTotalsSameConditions | app/Http/Controllers/OcrController.php:177-179 | creating an empty `totals` changes none of the conditions under which the writes fail |
| TotalsReconciler.Reconcile | app/Http/Controllers/OcrController.php:169-265 | the controller's steps on `$decoded` and its local variables compute `Reconciled` |
| TotalsReconciler.WriteResults | app/Http/Controllers/OcrController.php:245-265 | the writes on `$decoded` compute `Finished` |
| TotalsReconciler.WriteBack | app/Http/Controllers/OcrController.php:245-246 | the two assignments into `totals` compute `WrittenBack`, failing on a scalar |
| TotalsReconciler.FillCurrency | app/Http/Controllers/OcrController.php:254-258 | the currency backfill computes `CurrencyFilled` |
| TotalsReconciler.RebuildText | app/Http/Controllers/OcrController.php:261-265 | the `full_text` rebuild computes `TextRebuilt` |
| ReceiptPipeline.Processed | app/Http/Controllers/OcrController.php:140-276 | a response with the record carries the reply as `raw_text` and an array as `parsed`; the controller's error body is given only for an `Exception`, and every other fault passes the `catch` by |
| ReceiptPipeline.Answer | app/Http/Controllers/OcrController.php:168-276 | the answer for a decoded record carries the reply and an array when reconciliation succeeds, the error body only for an `Exception`, and the uncaught fault otherwise |
| ReceiptPipeline.ResponseKinds | app/Http/Controllers/OcrController.php:140-276 | read on the decoded record: the uncaught `Error` for a scalar `totals`, the uncaught `TypeError` for an array address that must be read, the error body for a line that is an array, and the record otherwise, each exactly in its case |
| ReceiptPipeline.AnswerKinds | app/Http/Controllers/OcrController.php:168-276 | for any decoded array, each of the four answers is given exactly in its case |
| ReceiptPipeline.Extract | app/Http/Controllers/OcrController.php:143-276 | decoding then reconciling, as the controller runs them, computes `Processed` |
| ReceiptPipeline.FallbackReads | app/Http/Controllers/OcrController.php:157-165 | the fallback record has no `totals` and no merchant, empty `lines`, no items, and the reply as `full_text` |
| ReceiptPipeline.FallbackSettles | app/Http/Controllers/OcrController.php:218-233 | the fallback record settles to subtotal 0 and no total |
| ReceiptPipeline.FallbackReconciles | app/Http/Controllers/OcrController.php:156-265 | post-processing of the fallback record never fails |
| ReceiptPipeline.FallbackOutput | app/Http/Controllers/OcrController.php:156-265 | the reconciled fallback has subtotal 0, total null, currency "PHP", no items, and the reply as `full_text` unless the reply is "" or "0" |
| ReceiptPipeline.FallbackTotals | app/Http/Controllers/OcrController.php:218-258 | the reconciled fallback has subtotal 0, a null total and the currency "PHP" |
| ReceiptPipeline.FallbackText | app/Http/Controllers/OcrController.php:260-265 | the reconciled fallback has no items and the reply as `full_text` unless the reply is "" or "0" |
| ReceiptPipeline.UnusableReplyResponse | app/Http/Controllers/OcrController.php:156-269 | a reply from which no record can be recovered still gets a successful response, carrying the reconciled fallback record |

## Behaviour worth knowing

The model follows the code. These lemmas show what it does in cases where a
reader might expect something else:

- Reconciling twice is not always the same as reconciling once.
  `SecondPassFillsTotal` gives a record whose total stays missing after the
  first pass and is filled in by the second. `SecondPassSwaps` gives a
  negative VAT amount beside a tax, which leaves a pair that a second pass
  exchanges. Outside those two cases a second pass keeps the subtotal, the
  total and the currency of the reconciled record (`ReconcileTwiceSettled`,
  which rests on `SettleIdempotent` and `ReconciledFiguresResettled`). The
  rest of the record is not proved stable.
- "total ≈ subtotal + tax" is not established when both figures are given.
  An inconsistent pair that no repair rule fits is written back unchanged
  (`InconsistentPairSurvives`, `OtherPairKept`).
- `full_text` is not always present. A record with neither `lines` nor
  `full_text` comes out without it (`MissingTextStaysMissing`,
  `EmptyRecordHasNoText`).
- A reply that cannot be decoded does not always keep its text. The decoded
  fallback record holds the reply verbatim (`UnusableReplyKeepsText`). But when
  the reply is "0", PHP's `empty` counts it as empty, and the text step then
  replaces it with "" (`FallbackOutput`).
- A fenced reply that falls back does not keep just its body. The fallback
  record's `full_text` is the whole reply, fence lines included. So
  `FencedRecordIsBodyRecord` compares fenced and bare replies only when the
  bare body yields a record.
- Containing a known keyword does not always give that keyword's currency.
  The first row in table order wins, and a keyword can contain an earlier
  row's keyword. "busan" contains "usa", so Busan is never Korean
  (`BusanReadsAsUnitedStates`). "phuket" contains "uk", so Phuket is never
  Thai (`PhuketReadsAsBritish`).
- The figures the code does not rewrite do not become numbers. A `tax`,
  `vat_amount` or `vatable_sales` that was a string stays a string
  (`FinishedTotals`, `ReconciledKeeps`). Only `subtotal` and `total` are
  written as numbers or null.
- Not every failure gets the controller's error body. A scalar `totals` and an
  array address raise `Error`s, which `catch (\Exception $e)` does not take
  (`ResponseKinds`).

## Left out

- The HTTP request and response plumbing is not modelled. This covers request
  validation, reading and encoding the image, the call to the Groq API and its
  failure branch (lines 13-140), and the JSON encoding of the responses
  (lines 267-276). The reply text `content` is an input. The controller's
  logged error body is the `Unexpected` response. The framework's answer to
  an uncaught `Error` is the `Uncaught` response, whose content is not
  modelled. The three `Fault` kinds are the only failures the
  post-processing can raise.
- `Decode`: it assumes the reply is a string. A reply missing from the API
  response, which PHP reads as null, is not modelled.
- `json_decode` is the `parse` parameter, and its grammar is not modelled.
  Nothing stops `parse` from returning an array with a duplicate key, which
  real JSON decoding merges.
- Floating point is not modelled. Amounts are exact reals, so the rounding of
  `(float)`, of the additions and of the `abs(...) < 0.05` tests is left out,
  and so are INF and NaN.
- Converting a number to text is the `numText` parameter. PHP's precision
  rules for it are not modelled.
- The `if ($tax === null && $vatAmount !== null)` block at lines 248-251 is
  empty and has no effect.
- `strtolower` is the ASCII lower-casing of PHP 8.2 and later. Strings are
  sequences of characters, which agrees with PHP's byte comparisons on valid
  UTF-8 text.
- `false` in `totals` is converted to an array. PHP 8.1 and later report a
  deprecation there but carry on.
- PhpText.Join: its contract states only the one-part case. The joining of
  several parts is stated through `ThreeLinesText` and the lemmas that use
  `Join` directly.
- CurrencyInference.BusanReadsAsUnitedStates: states "PHP or USD" rather than
  "USD", because an address naming Busan may also name an earlier Philippine
  place.
- CurrencyInference.PhuketReadsAsBritish: states "not THB" rather than an
  exact code, because an earlier row may match first.
- The browser-side image resizing, routing, configuration, the persistence
  model and the migration are outside the post-processing. `imageProcess.js`,
  `web.php`, `AppServiceProvider.php`, `OcrResult.php` and the migration are
  not part of this model.
