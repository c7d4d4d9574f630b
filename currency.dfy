/** `inferCurrencyFromAddress`: the ISO 4217 code of the first currency, in
    table order, one of whose keywords (country, city and region names) occurs
    in the lower-cased address; "PHP" when none does. */
module CurrencyInference {
  import opened PhpValues
  import opened PhpText

  /** One row of the table: a currency code and the keywords that select it. */
  datatype Mapping = Mapping(code: string, keywords: seq<string>)

  /** The app's primary market, returned when no keyword matches. */
  const DefaultCurrency: string := "PHP"

  /** The keyword table, in the order the search visits it. */
  const Mappings: seq<Mapping> := [
      Mapping("PHP", ["philippines", "manila", "cebu", "davao", "quezon", "makati", "taguig", "pasig", "pasay", "caloocan", "muntinlupa", "paranaque", "marikina", "cavite", "laguna", "bulacan", "pampanga", "batangas", "rizal"]),
      Mapping("USD", ["united states", "usa", "u.s.a", "u.s.", "new york", "los angeles", "chicago", "houston", "phoenix", "california", "texas", "florida", "illinois"]),
      Mapping("JPY", ["japan", "tokyo", "osaka", "kyoto", "yokohama", "nagoya", "sapporo", "fukuoka"]),
      Mapping("GBP", ["united kingdom", "england", "london", "manchester", "birmingham", "scotland", "wales", "uk"]),
      Mapping("EUR", ["germany", "france", "italy", "spain", "netherlands", "belgium", "austria", "ireland", "portugal", "greece", "finland", "berlin", "paris", "rome", "madrid", "amsterdam", "vienna"]),
      Mapping("KRW", ["south korea", "korea", "seoul", "busan", "incheon"]),
      Mapping("SGD", ["singapore"]),
      Mapping("THB", ["thailand", "bangkok", "chiang mai", "phuket", "pattaya"]),
      Mapping("AUD", ["australia", "sydney", "melbourne", "brisbane", "perth"]),
      Mapping("CAD", ["canada", "toronto", "vancouver", "montreal", "ottawa", "calgary"]),
      Mapping("CNY", ["china", "beijing", "shanghai", "shenzhen", "guangzhou"]),
      Mapping("INR", ["india", "mumbai", "delhi", "bangalore", "hyderabad", "chennai"]),
      Mapping("IDR", ["indonesia", "jakarta", "bali", "surabaya", "bandung"]),
      Mapping("MYR", ["malaysia", "kuala lumpur", "penang", "johor"]),
      Mapping("VND", ["vietnam", "ho chi minh", "hanoi", "da nang"]),
      Mapping("TWD", ["taiwan", "taipei", "kaohsiung"]),
      Mapping("HKD", ["hong kong"]),
      Mapping("NZD", ["new zealand", "auckland", "wellington"]),
      Mapping("CHF", ["switzerland", "zurich", "geneva", "bern"]),
      Mapping("BRL", ["brazil", "são paulo", "sao paulo", "rio de janeiro"]),
      Mapping("MXN", ["mexico", "mexico city", "guadalajara", "monterrey"]),
      Mapping("ZAR", ["south africa", "johannesburg", "cape town", "durban"]),
      Mapping("RUB", ["russia", "moscow", "saint petersburg"])
    ]

  /** One of the keywords from position `j` on occurs in the address. */
  predicate MentionsFrom(address: string, keywords: seq<string>, j: nat)
    decreases |keywords| - j
  {
    j < |keywords| && (Contains(address, keywords[j]) || MentionsFrom(address, keywords, j + 1))
  }

  lemma {:induction false} MentionsFromSome(address: string, keywords: seq<string>, j: nat)
    ensures MentionsFrom(address, keywords, j) <==>
      exists k :: j <= k < |keywords| && Contains(address, keywords[k])
    decreases |keywords| - j
  {
    if j < |keywords| {
      MentionsFromSome(address, keywords, j + 1);
    }
  }

  /** The inner loop: some keyword of the row occurs in the address. */
  predicate Mentions(address: string, keywords: seq<string>) {
    MentionsFrom(address, keywords, 0)
  }

  /** Row `i` is the first row whose keywords the address mentions. */
  predicate FirstMentionAt(address: string, i: int) {
    0 <= i < |Mappings| && Mentions(address, Mappings[i].keywords) &&
    forall j :: 0 <= j < i ==> !Mentions(address, Mappings[j].keywords)
  }

  /** The outer loop from row `i` on: the code of the first row whose
      keywords the address mentions. */
  function SearchFrom(address: string, i: nat): (r: Option<string>)
    requires i <= |Mappings|
    requires forall j :: 0 <= j < i ==> !Mentions(address, Mappings[j].keywords)
    ensures r.Some? ==> exists k :: FirstMentionAt(address, k) && Mappings[k].code == r.value
    ensures r.None? ==> forall k :: 0 <= k < |Mappings| ==> !Mentions(address, Mappings[k].keywords)
    decreases |Mappings| - i
  {
    if i >= |Mappings| then None
    else if Mentions(address, Mappings[i].keywords) then
      assert FirstMentionAt(address, i);
      Some(Mappings[i].code)
    else SearchFrom(address, i + 1)
  }

  /** `inferCurrencyFromAddress($address)`. */
  function InferCurrency(address: string): (code: string)
    ensures exists i :: 0 <= i < |Mappings| && Mappings[i].code == code
  {
    match SearchFrom(Lower(address), 0)
    case Some(c) => c
    case None => assert Mappings[0].code == DefaultCurrency; DefaultCurrency
  }

  /** Every code the inference can return is a three-letter code, so never empty. */
  lemma InferredCodeIsThreeLetters(address: string)
    ensures |InferCurrency(address)| == 3
  {
    var i :| 0 <= i < |Mappings| && Mappings[i].code == InferCurrency(address);
    assert forall k :: 0 <= k < |Mappings| ==> |Mappings[k].code| == 3;
  }

  /** The first row, in table order, whose keywords occur in the lower-cased
      address decides the currency, whatever later rows would match. */
  lemma InferFirstMatch(address: string, i: nat)
    requires i < |Mappings|
    requires Mentions(Lower(address), Mappings[i].keywords)
    requires forall j :: 0 <= j < i ==> !Mentions(Lower(address), Mappings[j].keywords)
    ensures InferCurrency(address) == Mappings[i].code
  {
    var r := SearchFrom(Lower(address), 0);
    if r.Some? {
      var k :| FirstMentionAt(Lower(address), k) && Mappings[k].code == r.value;
      assert k == i;
    }
  }

  /** When no keyword occurs in the lower-cased address the default is returned. */
  lemma InferDefault(address: string)
    requires forall i, j :: 0 <= i < |Mappings| && 0 <= j < |Mappings[i].keywords| ==>
      !Contains(Lower(address), Mappings[i].keywords[j])
    ensures InferCurrency(address) == DefaultCurrency
  {
    forall i | 0 <= i < |Mappings|
      ensures !Mentions(Lower(address), Mappings[i].keywords)
    {
      MentionsFromSome(Lower(address), Mappings[i].keywords, 0);
    }
  }

  /** Matching ignores ASCII case: an address and its lower-cased form, or any
      two addresses that lower-case alike, infer the same currency. */
  lemma InferIgnoresCase(address: string, other: string)
    requires Lower(address) == Lower(other)
    ensures InferCurrency(address) == InferCurrency(other)
    ensures InferCurrency(Lower(address)) == InferCurrency(address)
  {
    LowerIdempotent(address);
  }
  /** Every keyword of the table has at least one character. */
  lemma KeywordsNonEmpty()
    ensures forall i, j :: 0 <= i < |Mappings| && 0 <= j < |Mappings[i].keywords| ==> |Mappings[i].keywords[j]| > 0
  {
    forall i | 0 <= i < |Mappings|
      ensures forall j :: 0 <= j < |Mappings[i].keywords| ==> |Mappings[i].keywords[j]| > 0
    {
    }
  }

  /** An empty address, which is what a missing one becomes, yields the default. */
  lemma EmptyAddressDefault()
    ensures InferCurrency("") == DefaultCurrency
  {
    KeywordsNonEmpty();
    forall i, j | 0 <= i < |Mappings| && 0 <= j < |Mappings[i].keywords|
      ensures !Contains(Lower(""), Mappings[i].keywords[j])
    {
      ContainsNeedsRoom(Lower(""), Mappings[i].keywords[j]);
    }
    InferDefault("");
  }

  /** A row whose keywords the address mentions bounds the result: it is
      the code of that row or of an earlier one. */
  lemma InferWithin(address: string, i: nat)
    requires i < |Mappings| && Mentions(Lower(address), Mappings[i].keywords)
    ensures exists k :: 0 <= k <= i && InferCurrency(address) == Mappings[k].code
  {
    var r := SearchFrom(Lower(address), 0);
    var k :| FirstMentionAt(Lower(address), k) && Mappings[k].code == r.value;
    assert k <= i;
  }

  /** Row `i` is mentioned because the address contains its `j`-th keyword. */
  lemma KeywordMentions(address: string, i: nat, j: nat)
    requires i < |Mappings| && j < |Mappings[i].keywords|
    requires Contains(Lower(address), Mappings[i].keywords[j])
    ensures Mentions(Lower(address), Mappings[i].keywords)
  {
    MentionsFromSome(Lower(address), Mappings[i].keywords, 0);
  }

  /** An address naming Manila is Philippine whatever else it names, London
      included: the Philippine row comes first. */
  lemma ManilaWins(address: string)
    requires Contains(Lower(address), "manila")
    ensures InferCurrency(address) == "PHP"
  {
    assert Mappings[0].keywords[1] == "manila";
    KeywordMentions(address, 0, 1);
    InferFirstMatch(address, 0);
  }

  /** An address in Makati City, in any letter case, is Philippine. */
  lemma MakatiIsPhilippine(address: string)
    requires Contains(Lower(address), "makati")
    ensures InferCurrency(address) == "PHP"
  {
    assert Mappings[0].keywords[5] == "makati";
    KeywordMentions(address, 0, 5);
    InferFirstMatch(address, 0);
  }

  /** "Makati" written with a capital, anywhere in the address, is Philippine. */
  lemma TitleCaseMakati(address: string, i: nat)
    requires OccursAt(address, "Makati", i)
    ensures InferCurrency(address) == "PHP"
  {
    var l := Lower(address);
    forall t | 0 <= t < 6
      ensures l[i + t] == "makati"[t]
    {
      assert address[i + t] == "Makati"[t];
    }
    assert l[i..i + 6] == "makati";
    assert OccursAt(l, "makati", i);
    MakatiIsPhilippine(address);
  }

  /** A merchant on Ayala Avenue in Makati City is inferred to price in pesos. */
  lemma AyalaAvenueIsPhilippine()
    ensures InferCurrency("123 Ayala Ave, Makati City") == "PHP"
  {
    var a := "123 Ayala Ave, Makati City";
    assert a[15..21] == "Makati";
    TitleCaseMakati(a, 15);
  }

  /** The first four rows and the two short keywords that shadow later rows. */
  lemma EarlyRows()
    ensures Mappings[0].code == "PHP" && Mappings[1].code == "USD"
    ensures Mappings[2].code == "JPY" && Mappings[3].code == "GBP"
    ensures Mappings[1].keywords[1] == "usa" && Mappings[3].keywords[7] == "uk"
  {
  }

  /** "busan" contains "usa", a keyword of the earlier US row: an address
      naming Busan is never inferred as Korean. */
  lemma BusanReadsAsUnitedStates(address: string)
    requires Contains(Lower(address), "busan")
    ensures InferCurrency(address) == "PHP" || InferCurrency(address) == "USD"
  {
    assert OccursAt("busan", "usa", 1);
    ContainsPiece(Lower(address), "busan", "usa", 1);
    EarlyRows();
    KeywordMentions(address, 1, 1);
    InferWithin(address, 1);
  }

  /** "phuket" contains "uk", a keyword of the earlier British row: an
      address naming Phuket is never inferred as Thai. */
  lemma PhuketReadsAsBritish(address: string)
    requires Contains(Lower(address), "phuket")
    ensures InferCurrency(address) != "THB"
  {
    assert OccursAt("phuket", "uk", 2);
    ContainsPiece(Lower(address), "phuket", "uk", 2);
    EarlyRows();
    KeywordMentions(address, 3, 7);
    InferWithin(address, 3);
  }
}

