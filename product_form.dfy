/**
 * The dashboard "new product" form: a chain of checks on the typed fields,
 * each stopping the submission with one message, then one create request
 * whose body carries the parsed numbers, a slug derived from the name and a
 * fixed status.
 */
module ProductForm {
  import opened Wrappers
  import opened Text
  import opened Slug
  import ProductsRoute
  import Db

  // ---------------------------------------------------------------- Number(s)

  predicate IsDigit(c: char) { '0' <= c <= '9' }

  predicate AllDigits(s: string) {
    forall i :: 0 <= i < |s| ==> IsDigit(s[i])
  }

  /** The value of a run of decimal digits, most significant first. */
  function DigitsValue(s: string): nat
    requires AllDigits(s)
  {
    if s == [] then 0 else DigitsValue(s[..|s| - 1]) * 10 + (s[|s| - 1] as int - '0' as int)
  }

  /** An optionally signed run of decimal digits; anything else is not a number. */
  function ParseSigned(t: string): Option<int> {
    if t == [] then None
    else if t[0] == '-' || t[0] == '+' then
      var digits := t[1..];
      if digits != [] && AllDigits(digits) then
        var v: int := DigitsValue(digits);
        Some(if t[0] == '-' then -v else v)
      else None
    else if AllDigits(t) then Some(DigitsValue(t))
    else None
  }

  /**
   * `Number(s)` on integer text: surrounding white space is ignored, a blank
   * string is 0, and `None` stands for `NaN`.
   */
  function ParseNumber(s: string): (r: Option<int>)
    ensures IsBlank(s) ==> r == Some(0)
    ensures s != [] && AllDigits(s) ==> r == Some(DigitsValue(s))
  {
    DigitsAreTrimmed(s);
    if IsBlank(s) then Some(0) else ParseSigned(TrimEnd(TrimStart(s)))
  }

  /** A run of digits has no white space to trim and no sign. */
  lemma DigitsAreTrimmed(s: string)
    ensures s != [] && AllDigits(s) ==> Trim(s) == s && !IsBlank(s) && s[0] != '-' && s[0] != '+'
  {
    if s != [] && AllDigits(s) {
      assert NoSpace(s) by {
        forall i | 0 <= i < |s| ensures !IsSpace(s[i]) {
          assert IsDigit(s[i]);
        }
      }
      TrimNoSpace(s);
      assert IsDigit(s[0]);
    }
  }

  /** The decimal text of `n`, without sign or leading zeros. */
  function Decimal(n: nat): (s: string)
    ensures s != [] && AllDigits(s)
  {
    if n < 10 then [('0' as int + n) as char]
    else Decimal(n / 10) + [('0' as int + n % 10) as char]
  }

  lemma {:induction false} DecimalValue(n: nat)
    ensures DigitsValue(Decimal(n)) == n
  {
    if n >= 10 {
      DecimalValue(n / 10);
      var s := Decimal(n);
      assert s[..|s| - 1] == Decimal(n / 10);
    }
  }

  /** `Number` reads back the decimal text of every natural number. */
  lemma ParseDecimal(n: nat)
    ensures ParseNumber(Decimal(n)) == Some(n)
  {
    DecimalValue(n);
  }

  // ---------------------------------------------------------------- submit

  datatype Problem = NoName | NoDescription | BadPrice | BadStock | NoBrand | NoCategory | NoImage

  /** The form's fields as typed; an empty brand or category choice is `None`. */
  datatype Fields = Fields(
    name: string, description: string, technicalSpecifications: string,
    price: string, stock: string, brandId: Option<nat>, categoryId: Option<nat>, image: string)

  /** `!price || isNaN(Number(price)) || Number(price) <= 0`. */
  predicate PriceRejected(price: string) {
    price == [] || ParseNumber(price).None? || ParseNumber(price).value <= 0
  }

  /** `!stock || isNaN(Number(stock)) || Number(stock) < 0`. */
  predicate StockRejected(stock: string) {
    stock == [] || ParseNumber(stock).None? || ParseNumber(stock).value < 0
  }

  /** The checks of `handleSubmit` in order; the first failure is the one reported. */
  function FirstProblem(f: Fields): (r: Option<Problem>)
    ensures r == None ==>
      && !IsBlank(f.name) && !IsBlank(f.description) && !PriceRejected(f.price) && !StockRejected(f.stock)
      && f.brandId.Some? && f.categoryId.Some? && f.image != []
  {
    if IsBlank(f.name) then Some(NoName)
    else if IsBlank(f.description) then Some(NoDescription)
    else if PriceRejected(f.price) then Some(BadPrice)
    else if StockRejected(f.stock) then Some(BadStock)
    else if f.brandId.None? then Some(NoBrand)
    else if f.categoryId.None? then Some(NoCategory)
    else if f.image == [] then Some(NoImage)
    else None
  }

  /** Each failed check is reported only when every earlier one passed. */
  lemma ProblemOrder(f: Fields)
    ensures FirstProblem(f) == Some(NoName) <==> IsBlank(f.name)
    ensures FirstProblem(f) == Some(BadPrice) <==>
      !IsBlank(f.name) && !IsBlank(f.description) && PriceRejected(f.price)
    ensures FirstProblem(f) == Some(BadStock) <==>
      !IsBlank(f.name) && !IsBlank(f.description) && !PriceRejected(f.price) && StockRejected(f.stock)
    ensures FirstProblem(f) == Some(NoImage) <==>
      && !IsBlank(f.name) && !IsBlank(f.description) && !PriceRejected(f.price) && !StockRejected(f.stock)
      && f.brandId.Some? && f.categoryId.Some? && f.image == []
    ensures FirstProblem(f) == None ==>
      && ParseNumber(f.price).Some? && ParseNumber(f.price).value > 0
      && ParseNumber(f.stock).Some? && ParseNumber(f.stock).value >= 0
  {
  }

  lemma ParseZero()
    ensures ParseNumber("0") == Some(0)
  {
    assert Decimal(0) == "0";
    ParseDecimal(0);
  }

  /** A price of "0" is refused while a stock of "0" is accepted. */
  lemma ZeroPriceRefusedZeroStockAccepted()
    ensures PriceRejected("0")
    ensures !StockRejected("0")
  {
    ParseZero();
  }

  /** The JSON body posted: numbers parsed, slug from the name, status `AVAILABLE`. */
  function Payload(f: Fields): (req: ProductsRoute.ProductRequest)
    requires FirstProblem(f) == None
    ensures req.stock.Some? && req.stock.value >= 0 && req.price.Some? && req.price.value > 0
    ensures req.stock == ParseNumber(f.stock) && req.price == ParseNumber(f.price)
    ensures req.slug == Some(GenerateSlug(f.name))
    ensures req.name == Some(f.name) && req.description == Some(f.description) && req.image == Some(f.image)
    ensures req.brandId == f.brandId && req.categoryId == f.categoryId
    ensures req.status == Some("AVAILABLE")
  {
    ProductsRoute.ProductRequest(
      Some(f.name), Some(GenerateSlug(f.name)), Some(f.image), Some(f.description),
      Some(f.technicalSpecifications), Some(ParseNumber(f.stock).value), Some("AVAILABLE"),
      Some(ParseNumber(f.price).value), f.categoryId, f.brandId)
  }

  /**
   * A body the form lets through still misses the route's required fields
   * exactly when its stock is 0 or its name yields an empty slug.
   */
  lemma RouteRequiredFields(f: Fields)
    requires FirstProblem(f) == None
    ensures ProductsRoute.RequiredPresent(Payload(f)) <==>
      ParseNumber(f.stock).value != 0 && GenerateSlug(f.name) != []
  {
    NotBlankIsTruthy(f.name);
    NotBlankIsTruthy(f.description);
  }

  /** A product entered with stock "0" passes the form and is refused by the route (400). */
  lemma ZeroStockRefusedByRoute(f: Fields, products: map<nat, Db.Product>,
                                brands: map<nat, Db.Brand>, categories: map<nat, Db.Category>)
    requires FirstProblem(f) == None && f.stock == "0"
    ensures ProductsRoute.Guard(Payload(f), products, brands, categories) == Some(ProductsRoute.MissingFields)
  {
    ParseZero();
    RouteRequiredFields(f);
  }

  datatype Outcome = Invalid(problem: Problem) | Saved | SaveFailed

  class Page {
    var fields: Fields
    var loading: bool
    /** The request bodies posted so far, in order. */
    var sent: seq<ProductsRoute.ProductRequest>

    /** `handleSubmit`; `accepted` is whether the server answers with an ok status. */
    method HandleSubmit(accepted: bool) returns (o: Outcome)
      modifies this`loading, this`sent
      ensures FirstProblem(fields).Some? ==>
        o == Invalid(FirstProblem(fields).value) && sent == old(sent) && loading == old(loading)
      ensures FirstProblem(fields) == None ==>
        && sent == old(sent) + [Payload(fields)]
        && !loading
        && o == (if accepted then Saved else SaveFailed)
    {
      var problem := FirstProblem(fields);
      if problem.Some? {
        return Invalid(problem.value);
      }
      loading := true;
      sent := sent + [Payload(fields)];
      o := if accepted then Saved else SaveFailed;
      loading := false;
    }
  }
}
