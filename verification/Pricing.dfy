/** Exact served-provider cost. Decimals are `real`; a normalized cost is a number of 10^-10 USD units. */
module Pricing {
  import opened Basics

  datatype ModelPrices = ModelPrices(input: real, output: real)

  datatype ProviderPrices = ProviderPrices(cost: ModelPrices, cachedInput: Option<real>)

  datatype Usage = Usage(promptTokens: nat, completionTokens: nat)

  const TOKENS_PER_MILLION: real := 1000000.0

  /** Units of the ledger's ten decimal places in one dollar. */
  const UNITS_PER_USD: real := 10000000000.0

  predicate NonNegative(prices: ProviderPrices) {
    && prices.cost.input >= 0.0
    && prices.cost.output >= 0.0
    && (prices.cachedInput.Some? ==> prices.cachedInput.value >= 0.0)
  }

  /** Prices as a price table hands them out. */
  type ValidPrices = prices: ProviderPrices | NonNegative(prices)
    witness ProviderPrices(ModelPrices(0.0, 0.0), None)

  function NormalizeCost(usd: real): Option<nat> {
    if usd < 0.0 then None else Some((usd * UNITS_PER_USD + 0.5).Floor)
  }

  function RoundedCost(costPerMillion: real): nat
    requires costPerMillion >= 0.0
  {
    NormalizeCost(costPerMillion / TOKENS_PER_MILLION).value
  }

  function Charge(tokens: nat, price: real): (usd: real)
    requires price >= 0.0
    ensures usd >= 0.0
  {
    tokens as real * price
  }

  function CostUsd(prices: ModelPrices, usage: Usage): nat
    requires prices.input >= 0.0 && prices.output >= 0.0
  {
    RoundedCost(Charge(usage.promptTokens, prices.input) + Charge(usage.completionTokens, prices.output))
  }

  /** The unrounded charge when part of the prompt was read from the cache. */
  function CachedCharge(prices: ModelPrices, cachedPrice: real, usage: Usage, cached: nat): (usd: real)
    requires prices.input >= 0.0 && prices.output >= 0.0 && cachedPrice >= 0.0
    requires cached <= usage.promptTokens
    ensures usd >= 0.0
  {
    Charge(usage.promptTokens - cached, prices.input) + Charge(cached, cachedPrice)
    + Charge(usage.completionTokens, prices.output)
  }

  function ProviderCost(prices: ValidPrices, usage: Usage, cachedTokens: Option<nat>): Option<nat>
  {
    match (prices.cachedInput, cachedTokens)
    case (None, _) => Some(CostUsd(prices.cost, usage))
    case (Some(_), None) => None
    case (Some(cachedPrice), Some(cached)) =>
      if cached > usage.promptTokens then None
      else Some(RoundedCost(CachedCharge(prices.cost, cachedPrice, usage, cached)))
  }

  /** `units` is the multiple of 10^-10 nearest to `usd`, the larger one on a tie. */
  ghost predicate IsNearest(units: int, usd: real) {
    var exact := usd * 10000000000.0;
    && (forall other: int :: Distance(units, exact) <= Distance(other, exact))
    && (forall other: int :: other != units && Distance(units, exact) == Distance(other, exact) ==> other < units)
  }

  function Distance(units: int, exact: real): real {
    if units as real <= exact then exact - units as real else units as real - exact
  }

  /** Normalizing rejects exactly the negative costs and otherwise finds the nearest amount. */
  lemma NormalizedIsNearest(usd: real, units: int)
    ensures NormalizeCost(usd) == None <==> usd < 0.0
    ensures usd >= 0.0 ==> (IsNearest(units, usd) <==> NormalizeCost(usd) == Some(units))
  {
    if usd >= 0.0 {
      var exact := usd * UNITS_PER_USD;
      var rounded := (exact + 0.5).Floor;
      assert rounded as real <= exact + 0.5 < rounded as real + 1.0;
      forall other: int
        ensures Distance(rounded, exact) <= Distance(other, exact)
        ensures other != rounded && Distance(rounded, exact) == Distance(other, exact) ==> other < rounded
      {
        if other < rounded {
          assert other as real <= rounded as real - 1.0;
        } else if other > rounded {
          assert other as real >= rounded as real + 1.0;
        }
      }
      assert IsNearest(rounded, usd);
      assert IsNearest(units, usd) ==> Distance(units, exact) == Distance(rounded, exact);
    }
  }

  /** A cost that already has ten decimal places is left alone. */
  lemma NormalizingIsIdempotent(units: nat)
    ensures NormalizeCost(units as real / UNITS_PER_USD) == Some(units)
  {
    assert units as real / UNITS_PER_USD * UNITS_PER_USD == units as real;
  }

  lemma CostIsNearestToCharges(prices: ValidPrices, usage: Usage, cachedTokens: Option<nat>, units: nat)
    ensures prices.cachedInput.None? ==>
              (ProviderCost(prices, usage, cachedTokens) == Some(units) <==>
               IsNearest(units, (Charge(usage.promptTokens, prices.cost.input)
                                 + Charge(usage.completionTokens, prices.cost.output)) / 1000000.0))
    ensures prices.cachedInput.Some? && cachedTokens.Some? && cachedTokens.value <= usage.promptTokens ==>
              (ProviderCost(prices, usage, cachedTokens) == Some(units) <==>
               IsNearest(units, (Charge(usage.promptTokens - cachedTokens.value, prices.cost.input)
                                 + Charge(cachedTokens.value, prices.cachedInput.value)
                                 + Charge(usage.completionTokens, prices.cost.output)) / 1000000.0))
    ensures ProviderCost(prices, usage, cachedTokens) == None <==>
            prices.cachedInput.Some? && (cachedTokens.None? || cachedTokens.value > usage.promptTokens)
  {
    hide IsNearest, RoundedCost, Charge;
    var output := Charge(usage.completionTokens, prices.cost.output);
    if prices.cachedInput.None? {
      RoundedIsNearest(Charge(usage.promptTokens, prices.cost.input) + output, units);
    } else if cachedTokens.Some? && cachedTokens.value <= usage.promptTokens {
      RoundedIsNearest(
        Charge(usage.promptTokens - cachedTokens.value, prices.cost.input)
        + Charge(cachedTokens.value, prices.cachedInput.value) + output, units);
    }
  }

  /**
   * The cost is the ledger amount nearest to the exact price of the tokens, the cached ones at their own price; it is
   * missing exactly when cached prompts have a price of their own and their count is unknown or impossible.
   */
  lemma CostIsNearestToExact(prices: ValidPrices, usage: Usage, cachedTokens: Option<nat>, units: nat)
    ensures prices.cachedInput.None? ==>
              (ProviderCost(prices, usage, cachedTokens) == Some(units) <==>
               IsNearest(units, (usage.promptTokens as real * prices.cost.input
                                 + usage.completionTokens as real * prices.cost.output) / 1000000.0))
    ensures prices.cachedInput.Some? && cachedTokens.Some? && cachedTokens.value <= usage.promptTokens ==>
              (ProviderCost(prices, usage, cachedTokens) == Some(units) <==>
               IsNearest(units, ((usage.promptTokens - cachedTokens.value) as real * prices.cost.input
                                 + cachedTokens.value as real * prices.cachedInput.value
                                 + usage.completionTokens as real * prices.cost.output) / 1000000.0))
    ensures ProviderCost(prices, usage, cachedTokens) == None <==>
            prices.cachedInput.Some? && (cachedTokens.None? || cachedTokens.value > usage.promptTokens)
  {
    CostIsNearestToCharges(prices, usage, cachedTokens, units);
    hide IsNearest, ProviderCost;
    ChargeIsProduct(usage.promptTokens, prices.cost.input);
    ChargeIsProduct(usage.completionTokens, prices.cost.output);
    hide Charge;
    assert prices.cachedInput.None? ==>
        (Charge(usage.promptTokens, prices.cost.input) + Charge(usage.completionTokens, prices.cost.output)) / 1000000.0
        == (usage.promptTokens as real * prices.cost.input
            + usage.completionTokens as real * prices.cost.output) / 1000000.0;
    if prices.cachedInput.Some? && cachedTokens.Some? && cachedTokens.value <= usage.promptTokens {
      ChargeIsProduct(usage.promptTokens - cachedTokens.value, prices.cost.input);
      ChargeIsProduct(cachedTokens.value, prices.cachedInput.value);
      assert (Charge(usage.promptTokens - cachedTokens.value, prices.cost.input)
              + Charge(cachedTokens.value, prices.cachedInput.value)
              + Charge(usage.completionTokens, prices.cost.output)) / 1000000.0
          == ((usage.promptTokens - cachedTokens.value) as real * prices.cost.input
              + cachedTokens.value as real * prices.cachedInput.value
              + usage.completionTokens as real * prices.cost.output) / 1000000.0;
    }
  }

  lemma ChargeIsProduct(tokens: nat, price: real)
    requires price >= 0.0
    ensures Charge(tokens, price) == tokens as real * price
  {}

  lemma RoundedIsNearest(costPerMillion: real, units: int)
    requires costPerMillion >= 0.0
    ensures RoundedCost(costPerMillion) == units <==> IsNearest(units, costPerMillion / 1000000.0)
  {
    hide IsNearest;
    NormalizedIsNearest(costPerMillion / TOKENS_PER_MILLION, units);
  }

  lemma ChargeIsMonotone(a: nat, b: nat, price: real)
    requires a <= b && price >= 0.0
    ensures Charge(a, price) <= Charge(b, price)
  {}

  lemma RoundingIsMonotone(a: real, b: real)
    requires 0.0 <= a <= b
    ensures RoundedCost(a) <= RoundedCost(b)
  {
    assert a / TOKENS_PER_MILLION <= b / TOKENS_PER_MILLION;
    assert a / TOKENS_PER_MILLION * UNITS_PER_USD <= b / TOKENS_PER_MILLION * UNITS_PER_USD;
  }

  /** More tokens at the same cached count never cost less. */
  lemma CostIsMonotone(prices: ValidPrices, less: Usage, more: Usage, cached: Option<nat>)
    requires less.promptTokens <= more.promptTokens && less.completionTokens <= more.completionTokens
    ensures ProviderCost(prices, less, cached).Some? ==>
              ProviderCost(prices, more, cached).Some?
              && ProviderCost(prices, less, cached).value <= ProviderCost(prices, more, cached).value
  {
    ChargeIsMonotone(less.completionTokens, more.completionTokens, prices.cost.output);
    match (prices.cachedInput, cached)
    case (None, _) =>
      ChargeIsMonotone(less.promptTokens, more.promptTokens, prices.cost.input);
      RoundingIsMonotone(
        Charge(less.promptTokens, prices.cost.input) + Charge(less.completionTokens, prices.cost.output),
        Charge(more.promptTokens, prices.cost.input) + Charge(more.completionTokens, prices.cost.output));
    case (Some(_), None) =>
    case (Some(price), Some(c)) =>
      if c <= less.promptTokens {
        ChargeIsMonotone(less.promptTokens - c, more.promptTokens - c, prices.cost.input);
        RoundingIsMonotone(
          CachedCharge(prices.cost, price, less, c), CachedCharge(prices.cost, price, more, c));
      }
  }

  lemma ChargeSplits(a: nat, b: nat, price: real)
    requires price >= 0.0
    ensures Charge(a + b, price) == Charge(a, price) + Charge(b, price)
  {
    assert (a + b) as real == a as real + b as real;
  }

  lemma ChargeGrowsWithPrice(tokens: nat, lower: real, higher: real)
    requires 0.0 <= lower <= higher
    ensures Charge(tokens, lower) <= Charge(tokens, higher)
  {}

  /** Moving tokens from the full price to a discounted one lowers the charge. */
  lemma CachingLowersCharge(prompt: nat, fewer: nat, more: nat, input: real, price: real)
    requires 0.0 <= price <= input && fewer <= more <= prompt
    ensures Charge(prompt - more, input) + Charge(more, price)
         <= Charge(prompt - fewer, input) + Charge(fewer, price)
  {
    hide Charge;
    var moved := more - fewer;
    ChargeSplits(prompt - more, moved, input);
    ChargeSplits(fewer, moved, price);
    ChargeGrowsWithPrice(moved, price, input);
  }

  /**
   * With a discounted cache price, caching more tokens never raises the cost, caching none
   * gives the plain formula, and so the cost never exceeds the uncached one.
   */
  lemma CachingNeverRaisesCost(prices: ValidPrices, usage: Usage, fewer: nat, more: nat)
    requires prices.cachedInput.Some? && prices.cachedInput.value <= prices.cost.input
    requires fewer <= more <= usage.promptTokens
    ensures ProviderCost(prices, usage, Some(0)) == Some(CostUsd(prices.cost, usage))
    ensures ProviderCost(prices, usage, Some(more)).value <= ProviderCost(prices, usage, Some(fewer)).value
    ensures ProviderCost(prices, usage, Some(more)).value <= CostUsd(prices.cost, usage)
  {
    var price := prices.cachedInput.value;
    assert Charge(0, price) == 0.0;
    CachingLowersCharge(usage.promptTokens, fewer, more, prices.cost.input, price);
    CachingLowersCharge(usage.promptTokens, 0, more, prices.cost.input, price);
    var before, after, none := CachedCharge(prices.cost, price, usage, fewer),
      CachedCharge(prices.cost, price, usage, more), CachedCharge(prices.cost, price, usage, 0);
    RoundingIsMonotone(after, before);
    RoundingIsMonotone(after, none);
  }
}
