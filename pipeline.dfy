/** The receipt extraction after the vision model has replied: the reply
    text is decoded into a record, the record is reconciled, and the response
    carries the raw reply and the record, or is an error when post-processing
    fails. Only an `Exception` reaches the controller's
    `catch`, which logs it and answers with its own error body; an `Error`
    passes it by and the framework's handler answers instead. */
module ReceiptPipeline {
  import opened PhpValues
  import opened PhpText
  import opened CurrencyInference
  import opened ResponseDecoder
  import opened TotalsReconciler

  /** The response: `raw_text` and `parsed`; the controller's error body
      for a caught exception; or the framework's answer to an uncaught error. */
  datatype Response =
    | Parsed(rawText: string, parsed: Value)
    | Unexpected(fault: Fault)
    | Uncaught(fault: Fault)

  /** Lines 140-276 from the reply text on. */
  function Processed(content: string, parse: string -> Option<Value>, numText: real -> string): (r: Response)
    ensures r.Parsed? ==> r.rawText == content && r.parsed.Arr?
    ensures r.Unexpected? ==> IsException(r.fault)
    ensures r.Uncaught? ==> !IsException(r.fault)
  {
    Answer(content, Decode(content, parse), numText)
  }

  /** Lines 168-276: the answer for a reply and the record decoded from it. */
  function Answer(content: string, decoded: Value, numText: real -> string): (r: Response)
    requires decoded.Arr?
    ensures r.Parsed? ==> r.rawText == content && r.parsed.Arr?
    ensures r.Unexpected? ==> IsException(r.fault)
    ensures r.Uncaught? ==> !IsException(r.fault)
  {
    match Reconciled(decoded, numText)
    case Done(record) => Parsed(content, record)
    case Failed(f) => if IsException(f) then Unexpected(f) else Uncaught(f)
  }

  /** Which answer a reply gets, read on its decoded record: the error body
      only for a line that is an array, the framework's error for a scalar
      `totals` or an array address that must be read, and the record
      otherwise. */
  lemma ResponseKinds(content: string, parse: string -> Option<Value>, numText: real -> string)
    ensures var d := Decode(content, parse);
      Processed(content, parse, numText) == Uncaught(TotalsNotArray) <==> TotalsUnwritable(d)
    ensures var d := Decode(content, parse);
      Processed(content, parse, numText) == Uncaught(AddressNotText) <==>
        !TotalsUnwritable(d) && CurrencyMissing(d) && Address(d).Arr?
    ensures var d := Decode(content, parse);
      Processed(content, parse, numText) == Unexpected(LineNotText) <==>
        !TotalsUnwritable(d) && !(CurrencyMissing(d) && Address(d).Arr?) && NestedLine(d)
    ensures var d := Decode(content, parse);
      Processed(content, parse, numText).Parsed? <==>
        !TotalsUnwritable(d) && !(CurrencyMissing(d) && Address(d).Arr?) && !NestedLine(d)
  {
    AnswerKinds(content, Decode(content, parse), numText);
  }

  /** `ResponseKinds` for any decoded record. */
  lemma AnswerKinds(content: string, d: Value, numText: real -> string)
    requires d.Arr?
    ensures Answer(content, d, numText) == Uncaught(TotalsNotArray) <==> TotalsUnwritable(d)
    ensures Answer(content, d, numText) == Uncaught(AddressNotText) <==>
              !TotalsUnwritable(d) && CurrencyMissing(d) && Address(d).Arr?
    ensures Answer(content, d, numText) == Unexpected(LineNotText) <==>
              !TotalsUnwritable(d) && !(CurrencyMissing(d) && Address(d).Arr?) && NestedLine(d)
    ensures Answer(content, d, numText).Parsed? <==>
              !TotalsUnwritable(d) && !(CurrencyMissing(d) && Address(d).Arr?) && !NestedLine(d)
  {
    FailureCases(d, numText);
  }

  method Extract(content: string, parse: string -> Option<Value>, numText: real -> string) returns (response: Response)
    ensures response == Processed(content, parse, numText)
  {
    var decoded := DecodeReply(content, parse);
    var outcome := Reconcile(decoded, numText);
    if outcome.Failed? {
      if IsException(outcome.fault) {
        return Unexpected(outcome.fault);
      }
      return Uncaught(outcome.fault);
    }
    response := Parsed(content, outcome.record);
  }

  /** What post-processing reads from the fallback record. */
  lemma FallbackReads(content: string)
    ensures Index(Fallback(content), "totals") == Null
    ensures Address(Fallback(content)) == Null
    ensures Index(Fallback(content), "lines") == Arr([])
    ensures Index(Fallback(content), "full_text") == Str(content)
    ensures ItemsOf(Fallback(content)) == []
  {
    LookupAbsent(Fallback(content).entries, StrKey("merchant"));
  }

  /** The fallback record settles to a zero subtotal and no total. */
  lemma FallbackSettles(content: string)
    ensures SettledOf(Fallback(content)) == Amounts(Some(0.0), None)
  {
    FallbackReads(content);
    var none := Figures(None, None, None, None, None);
    assert ReadFigures(Null) == none;
    FiguresFromItems(none, 0.0);
  }

  /** The fallback record always reconciles: its `totals` is missing, it has
      no merchant and its lines are none. */
  lemma FallbackReconciles(content: string, numText: real -> string)
    ensures Reconciled(Fallback(content), numText).Done?
  {
    FallbackReads(content);
    FailureCases(Fallback(content), numText);
  }

  /** The reconciled fallback record has subtotal 0, no total, the default
      currency, no items, and the reply as `full_text` unless PHP counts the
      reply as empty ("" or "0"), in which case `full_text` is "". */
  lemma FallbackOutput(content: string, numText: real -> string, out: Value)
    requires Reconciled(Fallback(content), numText) == Done(out)
    ensures Field(Index(out, "totals"), "subtotal") == Some(Num(0.0))
    ensures Field(Index(out, "totals"), "total") == Some(Null)
    ensures Field(Index(out, "totals"), "currency") == Some(Str(DefaultCurrency))
    ensures Field(out, "items") == Some(Arr([]))
    ensures Field(out, "full_text") == Some(Str(if content == "" || content == "0" then "" else content))
  {
    FallbackTotals(content, numText, out);
    FallbackText(content, numText, out);
  }

  /** The figures and the currency of the reconciled fallback record. */
  lemma FallbackTotals(content: string, numText: real -> string, out: Value)
    requires Reconciled(Fallback(content), numText) == Done(out)
    ensures Field(Index(out, "totals"), "subtotal") == Some(Num(0.0))
    ensures Field(Index(out, "totals"), "total") == Some(Null)
    ensures Field(Index(out, "totals"), "currency") == Some(Str(DefaultCurrency))
  {
    var decoded := Fallback(content);
    FallbackReads(content);
    FallbackSettles(content);
    ReconciledFigures(decoded, numText, out);
    ReconciledInfersCurrency(decoded, numText, out);
    EmptyAddressDefault();
  }

  /** The items and the text of the reconciled fallback record. */
  lemma FallbackText(content: string, numText: real -> string, out: Value)
    requires Reconciled(Fallback(content), numText) == Done(out)
    ensures Field(out, "items") == Some(Arr([]))
    ensures Field(out, "full_text") == Some(Str(if content == "" || content == "0" then "" else content))
  {
    var decoded := Fallback(content);
    FallbackReads(content);
    ReconciledTextWithoutLines(decoded, numText, out);
    ReconciledKeeps(decoded, numText, out, StrKey("items"));
  }

  /** A reply from which no record can be recovered still gets a response
      with status 200, carrying the reconciled fallback record. */
  lemma UnusableReplyResponse(content: string, parse: string -> Option<Value>, numText: real -> string)
    requires Recovered(content, parse).None?
    ensures Processed(content, parse, numText).Parsed?
    ensures Reconciled(Fallback(content), numText) == Done(Processed(content, parse, numText).parsed)
  {
    FallbackReconciles(content, numText);
  }
}
