/**
 * The three field validators. Each one strips the fields it reads (a
 * missing key reads as ""), runs its checks one after another without
 * stopping at the first failure, and returns either every error found, in
 * check order, or the cleaned-up service data with numeric fields parsed.
 */
module ValidateUserInput {
  import opened Text

  datatype Option<T> = None | Some(value: T)

  /** One error a validator can report; Message() is the text it appends. */
  datatype FieldError =
    | LocationRequired
    | BudgetNotPositive
    | HotelAddressTooShort
    | NumberOfPeopleNotPositive
    | TotalBudgetNotPositive
    | MaxTicketPriceNotPositive
    | PublicTransportNotYesNo
    | DaysSpentNotPositive
  {
    function Message(): string {
      match this
      case LocationRequired => "Location is required."
      case BudgetNotPositive => "Budget must be a positive number."
      case HotelAddressTooShort => "Hotel address must be at least 5 characters long."
      case NumberOfPeopleNotPositive => "Number of people must be a positive number."
      case TotalBudgetNotPositive => "Total budget must be a positive number."
      case MaxTicketPriceNotPositive => "Max ticket price must be a positive number."
      case PublicTransportNotYesNo => "Public transport should be 'yes' or 'no'."
      case DaysSpentNotPositive => "Days spent must be a positive number."
    }
  }

  /** {"success": False, "errors": [...]} or {"success": True, "service_data": {...}}. */
  datatype Validation<D> = Failure(errors: seq<FieldError>) | Success(serviceData: D)

  datatype RestaurantData = RestaurantData(
    location: string, budget: Option<nat>, theme: Option<string>, hotelAddress: string)

  datatype HistoricalData = HistoricalData(
    location: string, hotelAddress: string,
    numPeople: Option<nat>, totalBudget: Option<nat>, maxTicketPrice: Option<nat>)

  datatype MysteryData = MysteryData(
    publicTransport: Option<string>, budget: Option<nat>, daysSpent: Option<nat>,
    preferences: Option<string>)

  /** user_data.get(key, "") */
  function Get(userData: map<string, string>, key: string): string {
    if key in userData then userData[key] else ""
  }

  // ---------------------------------------------------------------------
  // What the checks mean, stated on the raw field text
  // ---------------------------------------------------------------------

  /** A field that is absent or made of whitespace only. */
  predicate Blank(raw: string) {
    AllSpace(raw)
  }

  /** Decimal digits only, at least one of them not '0'. */
  predicate PositiveDecimal(t: string) {
    AllDigits(t) && exists i :: 0 <= i < |t| && t[i] != '0'
  }

  /** A numeric field the validators refuse: something is there, and it is
      not a positive decimal integer. */
  predicate RejectedNumber(raw: string) {
    var t := Strip(raw);
    t != "" && !PositiveDecimal(t)
  }

  /** raw[i..j] starts with a non-whitespace character and only
      whitespace lies outside it. */
  predicate Core(raw: string, i: int, j: int) {
    0 <= i < j <= |raw| && !IsSpace(raw[i]) && AllSpace(raw[..i]) && AllSpace(raw[j..])
  }

  /** A hotel address that is given but whose text, from its first to its
      last non-whitespace character, is shorter than five characters. */
  predicate ShortAddress(raw: string) {
    exists i, j | 0 <= i < j <= |raw| :: Core(raw, i, j) && j - i < 5
  }

  /** A public-transport answer that is given but, with the whitespace
      around it dropped, is not a spelling of yes or no. */
  predicate NotYesOrNo(raw: string) {
    var t := Strip(raw);
    t != "" && !SpellsYes(t) && !SpellsNo(t)
  }

  // ---------------------------------------------------------------------
  // The checks as the validators write them
  // ---------------------------------------------------------------------

  /** `t and (not t.isdigit() or int(t) <= 0)` on an already stripped t. */
  function NotPositiveNumber(t: string): (bad: bool)
    ensures bad <==> t != "" && !PositiveDecimal(t)
  {
    var bad := t != "" && (!IsDigits(t) || DigitsValue(t) <= 0);
    if AllDigits(t) then DigitsPositiveIff(t); bad else bad
  }

  /** `not t` on the stripped field. */
  function MissingText(raw: string): (bad: bool)
    ensures bad <==> Blank(raw)
  {
    Strip(raw) == ""
  }

  /** The positive-number check of a stripped numeric field. */
  function BadNumber(raw: string): (bad: bool)
    ensures bad <==> RejectedNumber(raw)
  {
    NotPositiveNumber(Strip(raw))
  }

  /** `t and len(t) < 5` on the stripped hotel address. */
  function TooShortAddress(raw: string): (bad: bool)
    ensures bad <==> ShortAddress(raw)
  {
    var t := Strip(raw);
    StrippedCore(raw);
    t != "" && |t| < 5
  }

  /** strip() keeps exactly the shortest core of the field. */
  lemma StrippedCore(raw: string)
    ensures ShortAddress(raw) <==> Strip(raw) != "" && |Strip(raw)| < 5
  {
    var t := Strip(raw);
    if t != [] {
      var k := StripIsCore(raw);
      assert 0 <= k < k + |t| <= |raw| && Core(raw, k, k + |t|);
    }
    if ShortAddress(raw) {
      var i, j :| 0 <= i < j <= |raw| && Core(raw, i, j) && j - i < 5;
      CoreWithin(raw, i, j);
    }
  }

  lemma StripIsCore(raw: string) returns (k: int)
    requires Strip(raw) != ""
    ensures 0 <= k && k + |Strip(raw)| <= |raw| && Core(raw, k, k + |Strip(raw)|)
  {
    var t := Strip(raw);
    k :| TrimmedSlice(raw, k, t);
    SliceEnds(raw, k, t);
  }

  lemma CoreWithin(raw: string, i: int, j: int)
    requires Core(raw, i, j)
    ensures Strip(raw) != "" && |Strip(raw)| <= j - i
  {
    StripWithin(raw, i, j);
    assert !IsSpace(raw[i]);
  }

  /** `t and t.lower() not in ["yes", "no"]` on the stripped answer. */
  function NotYesNo(raw: string): (bad: bool)
    ensures bad <==> NotYesOrNo(raw)
  {
    var t := Strip(raw);
    LowerIsYes(t);
    LowerIsNo(t);
    t != "" && Lower(t) !in ["yes", "no"]
  }

  /** `int(t) if t.isdigit() else None` */
  function ParsedNumber(t: string): (n: Option<nat>)
    ensures n.Some? <==> IsDigits(t)
    ensures n.Some? ==> n.value == DigitsValue(t)
  {
    if IsDigits(t) then Some(DigitsValue(t)) else None
  }

  /** `t if t else None` on the stripped field. */
  function OrNone(raw: string): (o: Option<string>)
    ensures o.None? <==> Blank(raw)
    ensures o.Some? ==> o.value == Strip(raw)
  {
    var t := Strip(raw);
    if t != "" then Some(t) else None
  }

  /** `errors.append(e)` guarded by `if failed`. */
  function When(failed: bool, e: FieldError): seq<FieldError> {
    if failed then [e] else []
  }

  /** xs can be obtained from ys by deleting elements (order is kept). */
  predicate IsSubsequence<T(==)>(xs: seq<T>, ys: seq<T>)
    decreases |ys|
  {
    if xs == [] then true
    else if ys == [] then false
    else (xs[|xs| - 1] == ys[|ys| - 1] && IsSubsequence(xs[..|xs| - 1], ys[..|ys| - 1]))
         || IsSubsequence(xs, ys[..|ys| - 1])
  }

  /** One more guarded append keeps the errors in check order. */
  lemma AppendInOrder(xs: seq<FieldError>, ys: seq<FieldError>, failed: bool, e: FieldError)
    requires IsSubsequence(xs, ys)
    ensures IsSubsequence(xs + When(failed, e), ys + [e])
  {
    var ys' := ys + [e];
    assert ys'[..|ys'| - 1] == ys;
    if failed {
      var xs' := xs + [e];
      assert xs'[..|xs'| - 1] == xs;
    } else {
      assert xs + When(failed, e) == xs;
    }
  }

  // ---------------------------------------------------------------------
  // validate_restaurant_finder
  // ---------------------------------------------------------------------

  /** Lines 16-28 of the restaurant validator on the outcomes of its three
      checks: each failed check appends its error, in check order. */
  function RestaurantErrorList(locationMissing: bool, budgetBad: bool, addressShort: bool)
    : (errors: seq<FieldError>)
    ensures LocationRequired in errors <==> locationMissing
    ensures BudgetNotPositive in errors <==> budgetBad
    ensures HotelAddressTooShort in errors <==> addressShort
    ensures errors != [] ==> locationMissing || budgetBad || addressShort
  {
    var e1 := When(locationMissing, LocationRequired);
    var e2 := e1 + When(budgetBad, BudgetNotPositive);
    e2 + When(addressShort, HotelAddressTooShort)
  }

  lemma RestaurantErrorOrder(a: bool, b: bool, c: bool)
    ensures IsSubsequence(RestaurantErrorList(a, b, c), [LocationRequired, BudgetNotPositive, HotelAddressTooShort])
  {
    var e1 := When(a, LocationRequired);
    var e2 := e1 + When(b, BudgetNotPositive);
    AppendInOrder([], [], a, LocationRequired);
    assert [LocationRequired] == [] + [LocationRequired];
    AppendInOrder(e1, [LocationRequired], b, BudgetNotPositive);
    assert [LocationRequired, BudgetNotPositive] == [LocationRequired] + [BudgetNotPositive];
    AppendInOrder(e2, [LocationRequired, BudgetNotPositive], c, HotelAddressTooShort);
    assert [LocationRequired, BudgetNotPositive, HotelAddressTooShort]
        == [LocationRequired, BudgetNotPositive] + [HotelAddressTooShort];
  }

  /** The errors list of validate_restaurant_finder. */
  function RestaurantErrors(userData: map<string, string>): (errors: seq<FieldError>)
    ensures LocationRequired in errors <==> Blank(Get(userData, "location"))
    ensures BudgetNotPositive in errors <==> RejectedNumber(Get(userData, "budget"))
    ensures HotelAddressTooShort in errors <==> ShortAddress(Get(userData, "hotel_address"))
    ensures errors != [] ==>
      Blank(Get(userData, "location")) || RejectedNumber(Get(userData, "budget"))
      || ShortAddress(Get(userData, "hotel_address"))
  {
    RestaurantErrorList(
      MissingText(Get(userData, "location")),
      BadNumber(Get(userData, "budget")),
      TooShortAddress(Get(userData, "hotel_address")))
  }

  function ValidateRestaurantFinder(userData: map<string, string>): (r: Validation<RestaurantData>)
    ensures r.Failure? <==> RestaurantErrors(userData) != []
    ensures r.Failure? ==> r.errors == RestaurantErrors(userData)
    ensures r.Success? ==>
      var data := r.serviceData;
      && data.location == Strip(Get(userData, "location")) && data.location != ""
      && ParsedAs(data.budget, Get(userData, "budget"))
      && (data.theme.None? <==> Blank(Get(userData, "theme")))
      && (data.theme.Some? ==> data.theme.value == Strip(Get(userData, "theme")))
      && data.hotelAddress == Strip(Get(userData, "hotel_address"))
      && (data.hotelAddress == "" || |data.hotelAddress| >= 5)
  {
    var errors := RestaurantErrors(userData);
    if errors != [] then
      Failure(errors)
    else
      var budget := Strip(Get(userData, "budget"));
      var service := RestaurantData(
        Strip(Get(userData, "location")), ParsedNumber(budget),
        OrNone(Get(userData, "theme")), Strip(Get(userData, "hotel_address")));
      DigitsPositiveIff(budget);
      Success(service)
  }

  // ---------------------------------------------------------------------
  // validate_historical_places
  // ---------------------------------------------------------------------

  /** Lines 60-80 of the historical-places validator on the outcomes of its
      five checks. */
  function HistoricalErrorList(
    locationMissing: bool, addressShort: bool, peopleBad: bool, totalBad: bool, ticketBad: bool)
    : (errors: seq<FieldError>)
    ensures LocationRequired in errors <==> locationMissing
    ensures HotelAddressTooShort in errors <==> addressShort
    ensures NumberOfPeopleNotPositive in errors <==> peopleBad
    ensures TotalBudgetNotPositive in errors <==> totalBad
    ensures MaxTicketPriceNotPositive in errors <==> ticketBad
    ensures errors != [] ==> locationMissing || addressShort || peopleBad || totalBad || ticketBad
  {
    When(locationMissing, LocationRequired) + When(addressShort, HotelAddressTooShort)
    + When(peopleBad, NumberOfPeopleNotPositive) + When(totalBad, TotalBudgetNotPositive)
    + When(ticketBad, MaxTicketPriceNotPositive)
  }

  function HistoricalChecks(): seq<FieldError> {
    [LocationRequired, HotelAddressTooShort, NumberOfPeopleNotPositive,
     TotalBudgetNotPositive, MaxTicketPriceNotPositive]
  }

  lemma HistoricalErrorOrder(a: bool, b: bool, c: bool, d: bool, e: bool)
    ensures IsSubsequence(HistoricalErrorList(a, b, c, d, e), HistoricalChecks())
  {
    var k := HistoricalChecks();
    var e1 := When(a, k[0]);
    var e2 := e1 + When(b, k[1]);
    var e3 := e2 + When(c, k[2]);
    var e4 := e3 + When(d, k[3]);
    AppendInOrder([], [], a, k[0]);
    assert k[..1] == [] + [k[0]];
    AppendInOrder(e1, k[..1], b, k[1]);
    assert k[..2] == k[..1] + [k[1]];
    AppendInOrder(e2, k[..2], c, k[2]);
    assert k[..3] == k[..2] + [k[2]];
    AppendInOrder(e3, k[..3], d, k[3]);
    assert k[..4] == k[..3] + [k[3]];
    AppendInOrder(e4, k[..4], e, k[4]);
    assert k == k[..4] + [k[4]];
  }

  /** The errors list of validate_historical_places. */
  function HistoricalErrors(userData: map<string, string>): (errors: seq<FieldError>)
    ensures LocationRequired in errors <==> Blank(Get(userData, "location"))
    ensures HotelAddressTooShort in errors <==> ShortAddress(Get(userData, "hotel_address"))
    ensures NumberOfPeopleNotPositive in errors <==> RejectedNumber(Get(userData, "number_of_people"))
    ensures TotalBudgetNotPositive in errors <==> RejectedNumber(Get(userData, "total_budget"))
    ensures MaxTicketPriceNotPositive in errors <==> RejectedNumber(Get(userData, "max_ticket_price"))
    ensures errors != [] ==>
      Blank(Get(userData, "location")) || ShortAddress(Get(userData, "hotel_address"))
      || RejectedNumber(Get(userData, "number_of_people"))
      || RejectedNumber(Get(userData, "total_budget"))
      || RejectedNumber(Get(userData, "max_ticket_price"))
  {
    HistoricalErrorList(
      MissingText(Get(userData, "location")),
      TooShortAddress(Get(userData, "hotel_address")),
      BadNumber(Get(userData, "number_of_people")),
      BadNumber(Get(userData, "total_budget")),
      BadNumber(Get(userData, "max_ticket_price")))
  }

  /** A parsed optional number as the validators return it: None for a
      blank field, otherwise the positive value of its digits. */
  predicate ParsedAs(n: Option<nat>, raw: string) {
    && (n.None? <==> Blank(raw))
    && (n.Some? ==> n.value > 0 && AllDigits(Strip(raw)) && n.value == DigitsValue(Strip(raw)))
  }

  function ValidateHistoricalPlaces(userData: map<string, string>): (r: Validation<HistoricalData>)
    ensures r.Failure? <==> HistoricalErrors(userData) != []
    ensures r.Failure? ==> r.errors == HistoricalErrors(userData)
    ensures r.Success? ==>
      var data := r.serviceData;
      && data.location == Strip(Get(userData, "location")) && data.location != ""
      && data.hotelAddress == Strip(Get(userData, "hotel_address"))
      && (data.hotelAddress == "" || |data.hotelAddress| >= 5)
      && ParsedAs(data.numPeople, Get(userData, "number_of_people"))
      && ParsedAs(data.totalBudget, Get(userData, "total_budget"))
      && ParsedAs(data.maxTicketPrice, Get(userData, "max_ticket_price"))
  {
    var errors := HistoricalErrors(userData);
    if errors != [] then
      Failure(errors)
    else
      var numPeople := Strip(Get(userData, "number_of_people"));
      var totalBudget := Strip(Get(userData, "total_budget"));
      var maxTicketPrice := Strip(Get(userData, "max_ticket_price"));
      DigitsPositiveIff(numPeople);
      DigitsPositiveIff(totalBudget);
      DigitsPositiveIff(maxTicketPrice);
      Success(HistoricalData(
        Strip(Get(userData, "location")), Strip(Get(userData, "hotel_address")),
        ParsedNumber(numPeople), ParsedNumber(totalBudget), ParsedNumber(maxTicketPrice)))
  }

  // ---------------------------------------------------------------------
  // validate_mystery_guide
  // ---------------------------------------------------------------------

  /** Lines 112-124 of the mystery-guide validator on the outcomes of its
      three checks. */
  function MysteryErrorList(transportBad: bool, budgetBad: bool, daysBad: bool)
    : (errors: seq<FieldError>)
    ensures PublicTransportNotYesNo in errors <==> transportBad
    ensures BudgetNotPositive in errors <==> budgetBad
    ensures DaysSpentNotPositive in errors <==> daysBad
    ensures errors != [] ==> transportBad || budgetBad || daysBad
  {
    When(transportBad, PublicTransportNotYesNo) + When(budgetBad, BudgetNotPositive)
    + When(daysBad, DaysSpentNotPositive)
  }

  lemma MysteryErrorOrder(a: bool, b: bool, c: bool)
    ensures IsSubsequence(MysteryErrorList(a, b, c),
                          [PublicTransportNotYesNo, BudgetNotPositive, DaysSpentNotPositive])
  {
    var e1 := When(a, PublicTransportNotYesNo);
    var e2 := e1 + When(b, BudgetNotPositive);
    AppendInOrder([], [], a, PublicTransportNotYesNo);
    assert [PublicTransportNotYesNo] == [] + [PublicTransportNotYesNo];
    AppendInOrder(e1, [PublicTransportNotYesNo], b, BudgetNotPositive);
    assert [PublicTransportNotYesNo, BudgetNotPositive]
        == [PublicTransportNotYesNo] + [BudgetNotPositive];
    AppendInOrder(e2, [PublicTransportNotYesNo, BudgetNotPositive], c, DaysSpentNotPositive);
    assert [PublicTransportNotYesNo, BudgetNotPositive, DaysSpentNotPositive]
        == [PublicTransportNotYesNo, BudgetNotPositive] + [DaysSpentNotPositive];
  }

  /** The errors list of validate_mystery_guide. */
  function MysteryErrors(userData: map<string, string>): (errors: seq<FieldError>)
    ensures PublicTransportNotYesNo in errors <==> NotYesOrNo(Get(userData, "public_transport"))
    ensures BudgetNotPositive in errors <==> RejectedNumber(Get(userData, "budget"))
    ensures DaysSpentNotPositive in errors <==> RejectedNumber(Get(userData, "days_spent"))
    ensures errors != [] ==>
      NotYesOrNo(Get(userData, "public_transport")) || RejectedNumber(Get(userData, "budget"))
      || RejectedNumber(Get(userData, "days_spent"))
  {
    MysteryErrorList(
      NotYesNo(Get(userData, "public_transport")),
      BadNumber(Get(userData, "budget")),
      BadNumber(Get(userData, "days_spent")))
  }

  function ValidateMysteryGuide(userData: map<string, string>): (r: Validation<MysteryData>)
    ensures r.Failure? <==> MysteryErrors(userData) != []
    ensures r.Failure? ==> r.errors == MysteryErrors(userData)
    ensures r.Success? ==>
      var data := r.serviceData;
      && (data.publicTransport.None? <==> Blank(Get(userData, "public_transport")))
      && (data.publicTransport.Some? ==>
            data.publicTransport.value == Lower(Strip(Get(userData, "public_transport")))
            && data.publicTransport.value in ["yes", "no"])
      && ParsedAs(data.budget, Get(userData, "budget"))
      && ParsedAs(data.daysSpent, Get(userData, "days_spent"))
      && (data.preferences.None? <==> Blank(Get(userData, "preferences")))
      && (data.preferences.Some? ==> data.preferences.value == Strip(Get(userData, "preferences")))
  {
    var errors := MysteryErrors(userData);
    if errors != [] then
      Failure(errors)
    else
      assert PublicTransportNotYesNo !in errors && BudgetNotPositive !in errors
        && DaysSpentNotPositive !in errors;
      Success(MysteryData(
        TransportField(Get(userData, "public_transport")),
        NumberField(Get(userData, "budget")), NumberField(Get(userData, "days_spent")),
        OrNone(Get(userData, "preferences"))))
  }

  /** `public_transport.lower() if public_transport else None` on the
      stripped answer. */
  function TransportField(raw: string): (p: Option<string>)
    ensures p.None? <==> Blank(raw)
    ensures p.Some? ==> p.value == Lower(Strip(raw))
    ensures p.Some? && !NotYesOrNo(raw) ==> p.value in ["yes", "no"]
  {
    var t := Strip(raw);
    if t != "" then
      LowerIsYes(t);
      LowerIsNo(t);
      Some(Lower(t))
    else None
  }

  /** `int(t) if t.isdigit() else None` on a stripped numeric field that
      passed its check. */
  function NumberField(raw: string): (n: Option<nat>)
    ensures !RejectedNumber(raw) ==> ParsedAs(n, raw)
  {
    var t := Strip(raw);
    if AllDigits(t) then DigitsPositiveIff(t); ParsedNumber(t) else ParsedNumber(t)
  }

  // ---------------------------------------------------------------------
  // Properties across the validators
  // ---------------------------------------------------------------------

  /** A numeric field holding str(n) is accepted and parsed back to n
      exactly when n is positive. */
  lemma {:induction false} NumberRoundTrip(n: nat)
    ensures RejectedNumber(DecimalString(n)) <==> n == 0
    ensures n > 0 ==> ParsedNumber(Strip(DecimalString(n))) == Some(n)
  {
    var s := DecimalString(n);
    DecimalStripped(n);
    DecimalRoundTrip(n);
    DigitsPositiveIff(s);
  }

  /** The mystery guide has no required field: an empty form is valid and
      every field of its data is None. */
  lemma EmptyMysteryForm()
    ensures ValidateMysteryGuide(map[]) == Success(MysteryData(None, None, None, None))
  {
    assert Strip("") == "";
  }

  /** The restaurant form of the first unit test. */
  lemma RestaurantExample()
    ensures var r := ValidateRestaurantFinder(
      map["location" := "Paris", "budget" := "500", "theme" := "vegan",
          "hotel_address" := "123 Paris St"]);
      r.Success? && r.serviceData.location == "Paris" && r.serviceData.budget == Some(500)
  {
    var u := map["location" := "Paris", "budget" := "500", "theme" := "vegan",
                 "hotel_address" := "123 Paris St"];
    assert Get(u, "location") == "Paris" && Get(u, "budget") == "500";
    assert Get(u, "hotel_address") == "123 Paris St";
    ExampleFields();
    assert RestaurantErrors(u) == [];
  }

  lemma ExampleFields()
    ensures Strip("Paris") == "Paris" && !Blank("Paris")
    ensures !RejectedNumber("500") && DigitsValue(Strip("500")) == 500
    ensures !ShortAddress("123 Paris St")
  {
    StripKeeps("Paris");
    assert !IsSpace("Paris"[0]);
    FiveHundred();
    LongAddress("123 Paris St");
  }

  lemma FiveHundred()
    ensures !RejectedNumber("500") && DigitsValue(Strip("500")) == 500
  {
    AcceptedNumber("500");
    ValueOfFiveHundred();
  }

  lemma ValueOfFiveHundred()
    ensures DigitsValue("500") == 500
  {
    assert "500"[..2] == "50" && "50"[..1] == "5" && "5"[..0] == "";
  }

  /** An address with no whitespace at either end and at least five
      characters is not too short. */
  lemma LongAddress(raw: string)
    requires |raw| >= 5 && !IsSpace(raw[0]) && !IsSpace(raw[|raw| - 1])
    ensures !ShortAddress(raw)
  {
    StripKeeps(raw);
    StrippedCore(raw);
  }

  /** The unit test with a negative budget: "-10" is not a digit string,
      so the budget error is the only one reported. */
  lemma NegativeBudgetExample()
    ensures ValidateRestaurantFinder(map["location" := "Paris", "budget" := "-10"])
         == Failure([BudgetNotPositive])
  {
    var u := map["location" := "Paris", "budget" := "-10"];
    assert Get(u, "location") == "Paris" && Get(u, "budget") == "-10";
    assert Get(u, "hotel_address") == "";
    NegativeBudgetFields();
    OnlyBudgetRejected(u);
    assert ValidateRestaurantFinder(u).errors == [BudgetNotPositive];
  }

  /** A form that fails only the budget check gets the budget error alone. */
  lemma OnlyBudgetRejected(u: map<string, string>)
    requires !MissingText(Get(u, "location")) && BadNumber(Get(u, "budget"))
    requires !TooShortAddress(Get(u, "hotel_address"))
    ensures RestaurantErrors(u) == [BudgetNotPositive]
  {
    var location, budget, address :=
      MissingText(Get(u, "location")), BadNumber(Get(u, "budget")), TooShortAddress(Get(u, "hotel_address"));
    assert RestaurantErrors(u) == RestaurantErrorList(location, budget, address);
    assert RestaurantErrorList(false, true, false) == [BudgetNotPositive];
  }

  lemma NegativeBudgetFields()
    ensures !MissingText("Paris") && BadNumber("-10") && !TooShortAddress("")
  {
    assert !IsSpace("Paris"[0]);
    RefusedNumber("-10");
  }

  /** A digit string without a leading zero is its own strip and passes
      the numeric check. */
  lemma AcceptedNumber(t: string)
    requires t != [] && AllDigits(t) && t[0] != '0'
    ensures Strip(t) == t && !RejectedNumber(t) && !BadNumber(t)
  {
    assert IsDigit(t[0]) && IsDigit(t[|t| - 1]);
    StripKeeps(t);
  }

  /** A text with no whitespace at either end that is not a positive
      decimal fails the numeric check. */
  lemma RefusedNumber(t: string)
    requires t != [] && !IsSpace(t[0]) && !IsSpace(t[|t| - 1]) && !PositiveDecimal(t)
    ensures RejectedNumber(t) && BadNumber(t)
  {
    StripKeeps(t);
  }

  /** The numeric check on sample texts: a sign, a zero or a letter is
      refused. */
  lemma RefusedExamples()
    ensures RejectedNumber("-10") && RejectedNumber("0") && RejectedNumber("abc")
  {
    RefusedNumber("-10");
    RefusedNumber("abc");
    ZeroNotPositive();
    RefusedNumber("0");
  }

  lemma ZeroNotPositive()
    ensures !PositiveDecimal("0")
  {
    assert "0"[0] == '0';
  }

  /** A field that is absent or only whitespace is never refused. */
  lemma BlankNumberAccepted(raw: string)
    requires AllSpace(raw)
    ensures !RejectedNumber(raw) && Blank(raw)
  {
  }

  /** An absent field fails none of the checks that allow it to be empty. */
  lemma AbsentFieldPasses()
    ensures !BadNumber("") && !TooShortAddress("") && !NotYesNo("")
  {
    assert Strip("") == "";
  }
}
