/** frontend/src/components/inventory.js: the add-product form, its ordered
    validation, and the reset after the server accepts the product. */
module AddProductForm {
  import opened Common

  const ALL_FIELDS_REQUIRED := "All fields are required."
  const PRICE_NOT_POSITIVE := "Price must be a positive number."
  const QUANTITY_BELOW_ONE := "Quantity must be at least 1."
  const DATE_IN_PAST := "Expiration date cannot be in the past."
  const SELECT_UNIT := "Please select a unit."

  /** The six text inputs of the form. */
  datatype Fields = Fields(
    name: string, category: string, price: string, quantity: string, unit: string, expireDate: string)

  predicate AllFilled(f: Fields)
  {
    f.name != "" && f.category != "" && f.price != "" && f.quantity != "" && f.unit != "" && f.expireDate != ""
  }

  /** The price check passes for a parsed number above 0 (None is NaN). */
  predicate PriceOk(parsedPrice: Option<real>) { parsedPrice.Some? && parsedPrice.value > 0.0 }

  /** The quantity check passes for a parsed integer of at least 1. */
  predicate QuantityOk(parsedQuantity: Option<int>) { parsedQuantity.Some? && parsedQuantity.value > 0 }

  /** isPastDate as written. A date input "YYYY-MM-DD" denotes the midnight
      (UTC) that starts day number `day` since the epoch; None is a date that
      does not parse, which compares false. */
  predicate IsPastDateAsWritten(day: Option<int>, now: int)
  {
    day.Some? && day.value * DAY_MS < now
  }

  /** The day number of the instant `now`. */
  function Today(now: int): int
  {
    now / DAY_MS
  }

  /** Today's date counts as past whenever the form is sent after midnight,
      so a product expiring today cannot be added. */
  lemma TodayIsPastAsWritten(now: int)
    requires now % DAY_MS != 0
    ensures IsPastDateAsWritten(Some(Today(now)), now)
    ensures !IsPastDay(Some(Today(now)), now)
  {
  }

  /** For instance, noon of day 20000 rejects day 20000 itself. */
  lemma TodayIsPastExample()
    ensures IsPastDateAsWritten(Some(20000), 20000 * DAY_MS + DAY_MS / 2)
    ensures !IsPastDay(Some(20000), 20000 * DAY_MS + DAY_MS / 2)
  {
    TodayIsPastAsWritten(20000 * DAY_MS + DAY_MS / 2);
  }

  /** The date test as intended: a day before today. */
  predicate IsPastDay(day: Option<int>, now: int)
  {
    day.Some? && day.value < Today(now)
  }

  /** The intended test rejects exactly the days before today, and it differs
      from the written one only on today's date after midnight. */
  lemma PastDayMeaning(day: Option<int>, now: int)
    ensures day.Some? ==> (IsPastDay(day, now) <==> (day.value + 1) * DAY_MS <= now - now % DAY_MS)
    ensures day == Some(Today(now)) ==> !IsPastDay(day, now)
    ensures IsPastDateAsWritten(day, now) <==>
      IsPastDay(day, now) || (day == Some(Today(now)) && now % DAY_MS != 0)
  {
  }

  /** The message of handleSubmit's validation: the checks run in order and
      the first that fails decides. `pastDate` is the outcome of the date
      test. */
  function ValidationError(f: Fields, parsedPrice: Option<real>, parsedQuantity: Option<int>, pastDate: bool)
    : (r: Option<string>)
    ensures r.None? <==> AllFilled(f) && PriceOk(parsedPrice) && QuantityOk(parsedQuantity) && !pastDate
    ensures r == Some(ALL_FIELDS_REQUIRED) <==> !AllFilled(f)
    ensures r == Some(PRICE_NOT_POSITIVE) <==> AllFilled(f) && !PriceOk(parsedPrice)
    ensures r == Some(QUANTITY_BELOW_ONE) <==> AllFilled(f) && PriceOk(parsedPrice) && !QuantityOk(parsedQuantity)
    ensures r == Some(DATE_IN_PAST) <==>
      AllFilled(f) && PriceOk(parsedPrice) && QuantityOk(parsedQuantity) && pastDate
  {
    if !AllFilled(f) then Some(ALL_FIELDS_REQUIRED)
    else if parsedPrice.None? || parsedPrice.value <= 0.0 then Some(PRICE_NOT_POSITIVE)
    else if parsedQuantity.None? || parsedQuantity.value <= 0 then Some(QUANTITY_BELOW_ONE)
    else if pastDate then Some(DATE_IN_PAST)
    else if f.unit == "" then Some(SELECT_UNIT)
    else None
  }

  /** The unit check at the end of the chain never fires: an empty unit has
      already failed the first check. */
  lemma SelectUnitUnreachable(f: Fields, parsedPrice: Option<real>, parsedQuantity: Option<int>, pastDate: bool)
    ensures ValidationError(f, parsedPrice, parsedQuantity, pastDate) != Some(SELECT_UNIT)
  {
  }

  const EMPTY_FIELDS := Fields("", "", "", "", "", "")
  const NETWORK_ERROR := "Network error: Unable to add product"
  const GENERIC_ERROR := "An error occurred"

  /** What the POST to /api/products/create comes back with: nothing usable
      (the fetch fails, or the body is not JSON), or a status and the
      `message` of the JSON body. */
  datatype ServerAnswer = Unreachable | Answer(ok: bool, message: Option<string>)

  /** The error line the page shows for an answer: none on success, the
      network message when there is no usable answer, otherwise the server's
      message or the generic one. */
  function AnswerError(a: ServerAnswer): (r: string)
    ensures r == "" <==> a.Answer? && a.ok
    ensures a.Unreachable? ==> r == NETWORK_ERROR
    ensures a.Answer? && !a.ok ==>
      if a.message.Some? && a.message.value != "" then r == a.message.value else r == GENERIC_ERROR
  {
    match a
    case Unreachable => NETWORK_ERROR
    case Answer(ok, message) =>
      if ok then ""
      else if message.Some? && message.value != "" then message.value
      else GENERIC_ERROR
  }

  /** The add-product page. */
  class AddProduct {
    var fields: Fields
    var error: string

    constructor ()
      ensures fields == EMPTY_FIELDS && error == ""
    {
      fields := EMPTY_FIELDS;
      error := "";
    }

    /** handleSubmit, with the parsed price, quantity and expiry day and the
        server's answer. A form that fails validation shows the message and
        sends nothing; one that the server accepts is emptied; otherwise the
        fields stay and the answer's error is shown. The date test is
        isPastDate as written, so today's date is refused after midnight. */
    method Submit(parsedPrice: Option<real>, parsedQuantity: Option<int>, expiryDay: Option<int>, now: int,
                  answer: ServerAnswer) returns (sent: bool)
      modifies this
      ensures sent <==>
        ValidationError(old(fields), parsedPrice, parsedQuantity, IsPastDateAsWritten(expiryDay, now)).None?
      ensures !sent ==>
        && fields == old(fields)
        && error == ValidationError(old(fields), parsedPrice, parsedQuantity, IsPastDateAsWritten(expiryDay, now)).value
      ensures sent && answer.Answer? && answer.ok ==> fields == EMPTY_FIELDS && error == ""
      ensures sent && !(answer.Answer? && answer.ok) ==>
        fields == old(fields) && error == AnswerError(answer) && error != ""
    {
      error := "";
      var e := ValidationError(fields, parsedPrice, parsedQuantity, IsPastDateAsWritten(expiryDay, now));
      if e.Some? {
        error := e.value;
        return false;
      }
      if answer.Answer? && answer.ok {
        fields := EMPTY_FIELDS;
      } else {
        error := AnswerError(answer);
      }
      return true;
    }
  }

  /** A product expiring today, sent at noon with every other field in order,
      is refused by the page as written. */
  method RefusesToday(f: Fields, price: real, quantity: int, today: int) returns (page: AddProduct)
    requires AllFilled(f) && price > 0.0 && quantity > 0
    ensures page.fields == f && page.error == DATE_IN_PAST
  {
    page := new AddProduct();
    page.fields := f;
    TodayIsPastAsWritten(today * DAY_MS + DAY_MS / 2);
    var sent := page.Submit(Some(price), Some(quantity), Some(today), today * DAY_MS + DAY_MS / 2, Answer(true, None));
    assert !sent;
  }
}
