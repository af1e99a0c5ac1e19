/**
 * The investment form of app.js: `fetchPrice` chooses the price endpoint and keeps
 * the total value of the last price fetched in `currentPrice`; `handleSubmit`
 * refuses to send a record without a value. `parseFloat` results are `Option<real>`,
 * with `None` standing for NaN; the endpoint's answer is a parameter.
 */
module Form {
  import opened Wrappers
  import Pricing

  /** A number the client tests with `if (x)` / `!x`: present and not zero. */
  predicate Truthy(x: Option<real>) {
    x.Some? && x.value != 0.0
  }

  predicate IsMetal(investmentType: string) {
    investmentType == "GOLD" || investmentType == "SILVER"
  }

  /** What `fetchPrice` does with the chosen type and amount. */
  datatype PricePlan = AskForInput | NoFetch | FetchFrom(endpoint: string)

  /** A missing type or a missing or zero amount is refused, a CUSTOM investment
      needs no price, GOLD and SILVER are priced by the metals route and everything
      else by the crypto route. */
  function PlanPriceFetch(investmentType: string, amount: Option<real>): (p: PricePlan)
    ensures p == AskForInput <==> investmentType == "" || !Truthy(amount)
    ensures p == NoFetch <==> investmentType == "CUSTOM" && Truthy(amount)
    ensures p.FetchFrom? ==>
              p.endpoint == (if IsMetal(investmentType) then "/api/metals/" else "/api/crypto/") + investmentType
  {
    if investmentType == "" || !Truthy(amount) then AskForInput
    else if investmentType == "CUSTOM" then NoFetch
    else if IsMetal(investmentType) then FetchFrom("/api/metals/" + investmentType)
    else FetchFrom("/api/crypto/" + investmentType)
  }

  /** What `handleSubmit` does: refuse with a message, or post the record. */
  datatype Submission =
    | Rejected(message: string)
    | Send(investmentName: string, investmentType: string, amount: Option<real>, value: real)

  /** The record is sent only with a value: the custom value for CUSTOM, the fetched
      total otherwise. The amount is passed on as it is. */
  function Submit(investmentName: string, investmentType: string, amount: Option<real>,
                  customValue: Option<real>, currentPrice: Option<real>): (r: Submission)
    ensures r.Send? <==> if investmentType == "CUSTOM" then Truthy(customValue) else Truthy(currentPrice)
    ensures r.Send? ==>
              && r.investmentName == investmentName && r.investmentType == investmentType && r.amount == amount
              && r.value != 0.0
              && Some(r.value) == (if investmentType == "CUSTOM" then customValue else currentPrice)
    ensures r.Rejected? ==>
              r.message == (if investmentType == "CUSTOM" then "Please enter a custom value"
                            else "Please fetch the current price first")
  {
    if investmentType == "CUSTOM" then
      if !Truthy(customValue) then Rejected("Please enter a custom value")
      else Send(investmentName, investmentType, amount, customValue.value)
    else
      if !Truthy(currentPrice) then Rejected("Please fetch the current price first")
      else Send(investmentName, investmentType, amount, currentPrice.value)
  }

  /** The form's `currentPrice`, the only state the two handlers share. */
  class PriceForm {
    var currentPrice: Option<real>

    constructor()
      ensures currentPrice == None
    {
      currentPrice := None;
    }

    /** Choosing another type forgets the fetched price. */
    method ChangeType()
      modifies this
      ensures currentPrice == None
    {
      currentPrice := None;
    }

    /** Runs the plan for the type and amount; `price` is the `price` field of the
        endpoint's answer (`None` when absent or when the request failed). A truthy
        price sets `currentPrice` to the total for the amount; otherwise it is
        left as it was. */
    method FetchPrice(investmentType: string, amount: Option<real>, price: Option<real>)
      returns (plan: PricePlan)
      modifies this
      ensures plan == PlanPriceFetch(investmentType, amount)
      ensures plan.FetchFrom? && Truthy(price) ==> currentPrice == Some(price.value * amount.value)
      ensures !(plan.FetchFrom? && Truthy(price)) ==> currentPrice == old(currentPrice)
    {
      plan := PlanPriceFetch(investmentType, amount);
      if plan.AskForInput? || plan.NoFetch? {
        return;
      }
      if Truthy(price) {
        currentPrice := Some(price.value * amount.value);
      }
    }

    /** A non-CUSTOM record is sent with the last fetched total. */
    function SubmitWith(investmentName: string, investmentType: string, amount: Option<real>,
                        customValue: Option<real>): (r: Submission)
      reads this
      ensures investmentType != "CUSTOM" ==> (r.Send? <==> Truthy(currentPrice))
      ensures investmentType != "CUSTOM" && r.Send? ==> r.value == currentPrice.value
      ensures investmentType == "CUSTOM" ==> r == Submit(investmentName, investmentType, amount, customValue, None)
    {
      Submit(investmentName, investmentType, amount, customValue, currentPrice)
    }

    /** A successful save resets the form. */
    method Saved()
      modifies this
      ensures currentPrice == None
    {
      currentPrice := None;
    }
  }

  /** After a price is fetched for a non-CUSTOM type and amount, submitting sends
      that total; without a fetch (or after a type change) nothing is sent. */
  lemma {:induction false} FetchThenSubmit(investmentName: string, investmentType: string,
                                           amount: Option<real>, price: Option<real>, customValue: Option<real>)
    requires PlanPriceFetch(investmentType, amount).FetchFrom? && Truthy(price)
    ensures Submit(investmentName, investmentType, amount, customValue, Some(price.value * amount.value)) ==
              Send(investmentName, investmentType, amount, price.value * amount.value)
    ensures Submit(investmentName, investmentType, amount, customValue, None).Rejected?
  {
    var a, p := amount.value, price.value;
    assert a != 0.0 && p != 0.0;
    NonzeroProduct(p, a);
  }

  lemma NonzeroProduct(x: real, y: real)
    requires x != 0.0 && y != 0.0
    ensures x * y != 0.0
  {
  }

  /** A crypto request from the form is answered by the server's crypto route, which
      only contacts CoinGecko for the five supported tickers. */
  lemma CryptoEndpointRoute(investmentType: string, amount: Option<real>, reply: Pricing.CoinReply)
    requires PlanPriceFetch(investmentType, amount).FetchFrom?
    requires !IsMetal(investmentType)
    ensures PlanPriceFetch(investmentType, amount).endpoint == "/api/crypto/" + investmentType
    ensures Pricing.CryptoPrice(investmentType, reply).requested.Some? <==>
              Pricing.UpperAscii(investmentType) in Pricing.SupportedCoins
  {
  }

  /** A metals request from the form gets a positive price whenever every provider
      that answers gives a positive one: every metal the form asks for has a
      positive fallback. */
  lemma MetalEndpointPriced(investmentType: string, amount: Option<real>, yahoo: Option<real>,
                            alphaKey: Option<string>, alpha: Option<real>,
                            commoditiesKey: Option<string>, commodities: Option<real>)
    requires PlanPriceFetch(investmentType, amount).FetchFrom?
    requires IsMetal(investmentType)
    requires yahoo.Some? ==> yahoo.value > 0.0
    requires alpha.Some? ==> alpha.value > 0.0
    requires commodities.Some? ==> commodities.value > 0.0
    ensures PlanPriceFetch(investmentType, amount).endpoint == "/api/metals/" + investmentType
    ensures Pricing.MetalPrice(investmentType, yahoo, alphaKey, alpha, commoditiesKey, commodities).price > 0.0
  {
    assert Pricing.UpperAscii(investmentType) == investmentType;
    Pricing.MetalPricePositive(investmentType, yahoo, alphaKey, alpha, commoditiesKey, commodities);
  }
}
