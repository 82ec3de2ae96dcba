/** The product-level filters: the price shown in the catalogue, the price
    getter, and the two `woocommerce_is_purchasable` filters. */
module ProductFilters {
  import opened PhpNumbers
  import opened PostMeta

  /** What `woocommerce_get_price_html` ends up showing: the incoming markup, or
      the formatted hourly rate followed by the "per hour" suffix. */
  datatype PriceHtml = Incoming(html: string) | PerHour(rate: string)

  /** replace_price_with_hourly_rate: an hourly product with a true rate shows that
      rate per hour; every other product keeps the markup it came with. */
  function ReplacePriceWithHourlyRate(priceHtml: string, meta: Meta, id: int): (r: PriceHtml)
    ensures r.PerHour? <==> IsHourly(meta, id) && Truthy(HourlyRate(meta, id))
    ensures r.PerHour? ==> r.rate == HourlyRate(meta, id)
    ensures r.Incoming? ==> r.html == priceHtml
  {
    if HourlyPriced(meta, id) then PerHour(HourlyRate(meta, id)) else Incoming(priceHtml)
  }

  /** set_hourly_product_price (price and regular-price getters): the stored hourly
      rate replaces the price of an hourly product with a true rate; any other
      product's price passes through. */
  function SetHourlyProductPrice(price: string, meta: Meta, id: int): (r: string)
    ensures IsHourly(meta, id) && Truthy(HourlyRate(meta, id)) ==> r == HourlyRate(meta, id)
    ensures !(IsHourly(meta, id) && Truthy(HourlyRate(meta, id))) ==> r == price
  {
    if HourlyPriced(meta, id) then HourlyRate(meta, id) else price
  }

  /** The displayed price and the price getter make the same decision: the
      markup shows the rate per hour exactly when the getter answers the rate
      whatever price it is given. */
  lemma PriceFiltersAgree(priceHtml: string, meta: Meta, id: int)
    ensures ReplacePriceWithHourlyRate(priceHtml, meta, id).PerHour? <==>
              (forall p :: SetHourlyProductPrice(p, meta, id) == HourlyRate(meta, id))
    ensures ReplacePriceWithHourlyRate(priceHtml, meta, id).PerHour? ==>
              ReplacePriceWithHourlyRate(priceHtml, meta, id).rate == SetHourlyProductPrice("", meta, id)
  {
    if !HourlyPriced(meta, id) {
      var other := HourlyRate(meta, id) + "x";
      assert SetHourlyProductPrice(other, meta, id) != HourlyRate(meta, id);
    }
  }

  /** The price getter is idempotent, so applying it through both the price and
      the regular-price hook never compounds. */
  lemma SetHourlyProductPriceIdempotent(price: string, meta: Meta, id: int)
    ensures SetHourlyProductPrice(SetHourlyProductPrice(price, meta, id), meta, id) ==
            SetHourlyProductPrice(price, meta, id)
  {
  }

  /** make_hourly_products_not_purchasable (registered first): hourly products are
      not purchasable; others keep the incoming answer. */
  function MakeHourlyProductsNotPurchasable(purchasable: bool, meta: Meta, id: int): (r: bool)
    ensures IsHourly(meta, id) ==> !r
    ensures !IsHourly(meta, id) ==> r == purchasable
  {
    if IsHourly(meta, id) then false else purchasable
  }

  /** make_hourly_products_purchasable (registered second): hourly products are
      purchasable; others keep the incoming answer. */
  function MakeHourlyProductsPurchasable(purchasable: bool, meta: Meta, id: int): (r: bool)
    ensures IsHourly(meta, id) ==> r
    ensures !IsHourly(meta, id) ==> r == purchasable
  {
    if IsHourly(meta, id) then true else purchasable
  }

  /** Both filters sit at priority 10, so they run in registration order. */
  function IsPurchasable(purchasable: bool, meta: Meta, id: int): (r: bool)
    ensures r <==> IsHourly(meta, id) || purchasable
  {
    MakeHourlyProductsPurchasable(MakeHourlyProductsNotPurchasable(purchasable, meta, id), meta, id)
  }

  /** The later filter wins: the chain answers what the second filter alone
      answers, so the first filter has no effect on any product, while on its
      own it would refuse every hourly product. */
  lemma LaterPurchasableFilterWins(purchasable: bool, meta: Meta, id: int)
    ensures IsPurchasable(purchasable, meta, id) == MakeHourlyProductsPurchasable(purchasable, meta, id)
    ensures IsHourly(meta, id) ==>
              IsPurchasable(purchasable, meta, id) != MakeHourlyProductsNotPurchasable(purchasable, meta, id)
  {
  }
}
