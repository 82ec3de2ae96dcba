/** The cart: its lines, the price of each line's product object, and the
    notices shown to the shopper; the four `woocommerce_before_calculate_totals`
    hooks that reprice the lines and check the rates; and the AJAX handler
    that puts a submitted quote into the cart. */
module CartTotals {
  import opened PhpArrays
  import opened PhpNumbers
  import opened PostMeta
  import opened Submission
  import opened WpSanitize

  /** One cart line: the product, the quantity the cart stores, and the
      cart-item data the line was added with. */
  datatype CartLine = CartLine(productId: int, quantity: int, item: PhpArray<Value>)

  const RateNotice := "Hourly rate must be set and greater than 0 for hourly products."

  /** The three hooks that call `set_price`, in the order they are registered. */
  datatype Hook = HourlyForm | CustomHoursTotal | CustomHoursUnit

  /** The price one hook leaves on one line's product. `adminNonAjax` is
      `is_admin() && !defined('DOING_AJAX')`, which makes the first and the
      third hook return at once; the second has no such guard. */
  function HookPrice(hook: Hook, line: CartLine, meta: Meta, adminNonAjax: bool, price: real): (r: real)
    ensures adminNonAjax && hook != CustomHoursTotal ==> r == price
    ensures hook == HourlyForm && !("hourly_hours" in Keys(line.item) && "hourly_rate" in Keys(line.item)) ==> r == price
    ensures hook != HourlyForm && !("custom_hours" in Keys(line.item) && Truthy(HourlyRate(meta, line.productId))) ==> r == price
  {
    match hook
    case HourlyForm =>
      var hours: Option<Value> := Get(line.item, "hourly_hours");
      var rate: Option<Value> := Get(line.item, "hourly_rate");
      if !adminNonAjax && hours.Some? && rate.Some? then NumVal(hours.value) * NumVal(rate.value) else price
    case CustomHoursTotal =>
      var hours: Option<Value> := Get(line.item, "custom_hours");
      var rate := HourlyRate(meta, line.productId);
      if hours.Some? && Truthy(rate) then FloatVal(rate) * NumVal(hours.value) else price
    case CustomHoursUnit =>
      var hours: Option<Value> := Get(line.item, "custom_hours");
      var rate := HourlyRate(meta, line.productId);
      if !adminNonAjax && hours.Some? && IntValOf(hours.value) > 0 && Truthy(rate) then FloatVal(rate) else price
  }

  /** The prices after one hook has run over every line. */
  function Repriced(hook: Hook, lines: seq<CartLine>, meta: Meta, adminNonAjax: bool, prices: seq<real>): seq<real>
    requires |prices| == |lines|
  {
    seq(|lines|, i requires 0 <= i < |lines| => HookPrice(hook, lines[i], meta, adminNonAjax, prices[i]))
  }

  /** The prices after the three repricing hooks, in registration order. */
  function Recompute(lines: seq<CartLine>, meta: Meta, adminNonAjax: bool, prices: seq<real>): (r: seq<real>)
    requires |prices| == |lines|
    ensures |r| == |lines|
    ensures adminNonAjax ==> r == Repriced(CustomHoursTotal, lines, meta, adminNonAjax, prices)
  {
    var afterForm := Repriced(HourlyForm, lines, meta, adminNonAjax, prices);
    var afterTotal := Repriced(CustomHoursTotal, lines, meta, adminNonAjax, afterForm);
    Repriced(CustomHoursUnit, lines, meta, adminNonAjax, afterTotal)
  }

  /** The price a full recompute sets on a line, stated line by line without
      reference to the hooks: a `custom_hours` line of a product with a true
      rate is charged the rate per unit when its hours read as a positive
      integer (and the guard is off), otherwise rate times hours; failing that,
      a line from the hourly form is charged hours times rate (guard off);
      every other line keeps its price (None). */
  function RecomputedPrice(line: CartLine, meta: Meta, adminNonAjax: bool): (p: Option<real>)
    ensures p.Some? <==>
              ("custom_hours" in Keys(line.item) && Truthy(HourlyRate(meta, line.productId))) ||
              (!adminNonAjax && "hourly_hours" in Keys(line.item) && "hourly_rate" in Keys(line.item))
  {
    var customHours: Option<Value> := Get(line.item, "custom_hours");
    var formHours: Option<Value> := Get(line.item, "hourly_hours");
    var formRate: Option<Value> := Get(line.item, "hourly_rate");
    var rate := HourlyRate(meta, line.productId);
    if customHours.Some? && Truthy(rate) then
      if !adminNonAjax && IntValOf(customHours.value) > 0 then Some(FloatVal(rate))
      else Some(FloatVal(rate) * NumVal(customHours.value))
    else if !adminNonAjax && formHours.Some? && formRate.Some? then
      Some(NumVal(formHours.value) * NumVal(formRate.value))
    else None
  }

  function PriceOr(p: Option<real>, price: real): real {
    if p.Some? then p.value else price
  }

  /** On one line, the three hooks in order set the price the table gives. */
  lemma LineFollowsTable(line: CartLine, meta: Meta, adminNonAjax: bool, price: real)
    ensures HookPrice(CustomHoursUnit, line, meta, adminNonAjax,
              HookPrice(CustomHoursTotal, line, meta, adminNonAjax,
                HookPrice(HourlyForm, line, meta, adminNonAjax, price)))
            == PriceOr(RecomputedPrice(line, meta, adminNonAjax), price)
  {
  }

  /** A full recompute sets every line's price as the table says, and leaves
      the lines the table does not cover as they were. */
  lemma RecomputeFollowsTable(lines: seq<CartLine>, meta: Meta, adminNonAjax: bool, prices: seq<real>)
    requires |prices| == |lines|
    ensures |Recompute(lines, meta, adminNonAjax, prices)| == |lines|
    ensures forall i :: 0 <= i < |lines| ==>
              Recompute(lines, meta, adminNonAjax, prices)[i] ==
              PriceOr(RecomputedPrice(lines[i], meta, adminNonAjax), prices[i])
  {
    forall i | 0 <= i < |lines|
      ensures Recompute(lines, meta, adminNonAjax, prices)[i] ==
              PriceOr(RecomputedPrice(lines[i], meta, adminNonAjax), prices[i])
    {
      LineFollowsTable(lines[i], meta, adminNonAjax, prices[i]);
    }
  }

  /** The recompute pass is idempotent: running it again changes no price. */
  lemma RecomputeIdempotent(lines: seq<CartLine>, meta: Meta, adminNonAjax: bool, prices: seq<real>)
    requires |prices| == |lines|
    ensures Recompute(lines, meta, adminNonAjax, Recompute(lines, meta, adminNonAjax, prices)) ==
            Recompute(lines, meta, adminNonAjax, prices)
  {
    var once := Recompute(lines, meta, adminNonAjax, prices);
    RecomputeFollowsTable(lines, meta, adminNonAjax, prices);
    RecomputeFollowsTable(lines, meta, adminNonAjax, once);
  }

  /** Every price the pass writes depends only on the line's data and the
      product's meta, never on the price it finds: two carts with the same
      lines agree after the pass on every line the table covers. */
  lemma RecomputeIgnoresCurrentPrice(lines: seq<CartLine>, meta: Meta, adminNonAjax: bool,
                                     prices: seq<real>, others: seq<real>, i: nat)
    requires |prices| == |lines| && |others| == |lines| && i < |lines|
    requires RecomputedPrice(lines[i], meta, adminNonAjax).Some?
    ensures Recompute(lines, meta, adminNonAjax, prices)[i] == Recompute(lines, meta, adminNonAjax, others)[i]
  {
    RecomputeFollowsTable(lines, meta, adminNonAjax, prices);
    RecomputeFollowsTable(lines, meta, adminNonAjax, others);
  }

  /** A line with neither `custom_hours` nor both hourly-form entries keeps
      its price, and so does a `custom_hours` line whose product rate is false
      when the hourly form did not set one either. */
  lemma RecomputeLeavesOtherLines(lines: seq<CartLine>, meta: Meta, adminNonAjax: bool, prices: seq<real>, i: nat)
    requires |prices| == |lines| && i < |lines|
    requires !Truthy(HourlyRate(meta, lines[i].productId)) || "custom_hours" !in Keys(lines[i].item)
    requires "hourly_hours" !in Keys(lines[i].item) || "hourly_rate" !in Keys(lines[i].item)
    ensures Recompute(lines, meta, adminNonAjax, prices)[i] == prices[i]
  {
    RecomputeFollowsTable(lines, meta, adminNonAjax, prices);
  }

  /** validate_hourly_product_price's test: an hourly product whose rate is
      false, or reads as a number not above zero. */
  predicate NeedsRateNotice(line: CartLine, meta: Meta)
    ensures NeedsRateNotice(line, meta) ==> IsHourly(meta, line.productId)
    ensures IsHourly(meta, line.productId) && !Truthy(HourlyRate(meta, line.productId)) ==> NeedsRateNotice(line, meta)
  {
    var rate := HourlyRate(meta, line.productId);
    IsHourly(meta, line.productId) && (!Truthy(rate) || FloatVal(rate) <= 0.0)
  }

  /** The notices the check adds, line by line in cart order. */
  function Notices(lines: seq<CartLine>, meta: Meta): seq<string> {
    if lines == [] then []
    else
      var last := lines[|lines| - 1];
      Notices(lines[..|lines| - 1], meta) + (if NeedsRateNotice(last, meta) then [RateNotice] else [])
  }

  /** The positions of the lines that need a notice. */
  ghost function Offending(lines: seq<CartLine>, meta: Meta): set<int> {
    set i | 0 <= i < |lines| && NeedsRateNotice(lines[i], meta)
  }

  /** The offending positions of a cart are those of all its lines but the
      last, plus the last position when that line needs a notice. */
  lemma OffendingSnoc(lines: seq<CartLine>, meta: Meta)
    requires lines != []
    ensures |lines| - 1 !in Offending(lines[..|lines| - 1], meta)
    ensures Offending(lines, meta) ==
              Offending(lines[..|lines| - 1], meta) +
              (if NeedsRateNotice(lines[|lines| - 1], meta) then {|lines| - 1} else {})
  {
  }

  /** One notice per offending line, each the rate notice. */
  lemma {:induction false} NoticeCount(lines: seq<CartLine>, meta: Meta)
    ensures |Notices(lines, meta)| == |Offending(lines, meta)|
    ensures forall k :: 0 <= k < |Notices(lines, meta)| ==> Notices(lines, meta)[k] == RateNotice
  {
    if lines != [] {
      NoticeCount(lines[..|lines| - 1], meta);
      OffendingSnoc(lines, meta);
    }
  }

  /** A rate of "0.00" is a true string, so the repricing hooks charge it,
      and at the same time the check flags it as not above zero. */
  lemma ZeroRateIsChargedAndFlagged(line: CartLine, meta: Meta, adminNonAjax: bool)
    requires IsHourly(meta, line.productId) && HourlyRate(meta, line.productId) == "0.00"
    requires "custom_hours" in Keys(line.item)
    ensures RecomputedPrice(line, meta, adminNonAjax) == Some(0.0)
    ensures NeedsRateNotice(line, meta)
  {
    ZeroWithDecimalsIsTruthy();
  }

  /** A quote line whose hours were typed as a whole number of at least one
      (and so was added with that quantity), of a product whose rate is a
      true string: outside the admin the recompute
      sets the line's price slot to the product's rate; in an admin request
      that is not AJAX it sets the slot to rate times hours. */
  lemma QuoteLinePrices(line: CartLine, meta: Meta, hours: string)
    requires AllDigits(hours) && IntVal(hours) >= 1
    requires Get(line.item, "custom_hours") == Some(Str(hours))
    requires Truthy(HourlyRate(meta, line.productId))
    ensures RecomputedPrice(line, meta, false) == Some(FloatVal(HourlyRate(meta, line.productId)))
    ensures RecomputedPrice(line, meta, true).Some?
    ensures RecomputedPrice(line, meta, true).value == FloatVal(HourlyRate(meta, line.productId)) * IntVal(hours) as real
  {
    FloatValOfDigits(hours);
    assert IntValOf(Str(hours)) > 0 && NumVal(Str(hours)) == IntVal(hours) as real;
  }

  /** The `hours` field of the quote form is stored under `custom_hours`. */
  lemma HoursFieldKey()
    ensures CustomKey("hours") == "custom_hours"
  {
    var hours := "hours";
    assert forall i :: 0 <= i < |hours| ==> IsKeyChar(hours[i]);
    SanitizeKeyOfKeyChars(hours);
  }

  /** The reply add_to_cart_with_custom_data sends. */
  datatype AjaxResponse = JsonSuccess(cartUrl: string) | JsonError(message: string)

  /** The cart. Each line's product object is a price slot of `prices`: the
      hooks write it through `set_price`. The lines themselves, and so their
      quantities, are only read by the hooks: `foreach` hands them each line
      by value, so their writes to `$cart_item['quantity']` change a copy. */
  class Cart {
    var lines: seq<CartLine>
    var prices: array<real>
    var notices: seq<string>

    ghost predicate Valid()
      reads this
    {
      prices.Length == |lines|
    }

    constructor ()
      ensures Valid() && lines == [] && notices == []
    {
      lines := [];
      prices := new real[0];
      notices := [];
    }

    /** update_cart_item_price: a line from the hourly form costs hours times rate. */
    method UpdateCartItemPrice(adminNonAjax: bool)
      requires Valid()
      modifies prices
      ensures Valid()
      ensures prices[..] == Repriced(HourlyForm, lines, map[], adminNonAjax, old(prices[..]))
    {
      if adminNonAjax {
        assert prices[..] == Repriced(HourlyForm, lines, map[], adminNonAjax, prices[..]);
        return;
      }
      var i := 0;
      while i < |lines|
        invariant 0 <= i <= |lines|
        invariant forall j :: 0 <= j < i ==>
                    prices[j] == HookPrice(HourlyForm, lines[j], map[], adminNonAjax, old(prices[j]))
        invariant forall j :: i <= j < |lines| ==> prices[j] == old(prices[j])
      {
        var cartItem := lines[i].item;
        var hours: Option<Value> := Get(cartItem, "hourly_hours");
        var rate: Option<Value> := Get(cartItem, "hourly_rate");
        if hours.Some? && rate.Some? {
          prices[i] := NumVal(hours.value) * NumVal(rate.value);
        }
        i := i + 1;
      }
    }

    /** calculate_quantity_and_disable_cart_quantity: a `custom_hours` line of
        a product with a true rate costs rate times hours. */
    method CalculateQuantityAndDisableCartQuantity(meta: Meta)
      requires Valid()
      modifies prices
      ensures Valid()
      ensures prices[..] == Repriced(CustomHoursTotal, lines, meta, false, old(prices[..]))
    {
      var i := 0;
      while i < |lines|
        invariant 0 <= i <= |lines|
        invariant forall j :: 0 <= j < i ==>
                    prices[j] == HookPrice(CustomHoursTotal, lines[j], meta, false, old(prices[j]))
        invariant forall j :: i <= j < |lines| ==> prices[j] == old(prices[j])
      {
        var cartItem := lines[i].item;
        var hours: Option<Value> := Get(cartItem, "custom_hours");
        if hours.Some? {
          var hourlyRate := GetPostMeta(meta, lines[i].productId, "_hourly_rate");
          if Truthy(hourlyRate) {
            prices[i] := FloatVal(hourlyRate) * NumVal(hours.value);
          }
        }
        assert prices[i] == HookPrice(CustomHoursTotal, lines[i], meta, false, old(prices[i]));
        i := i + 1;
      }
    }

    /** update_cart_quantity_based_on_hours: a `custom_hours` line whose hours
        read as a positive integer, of a product with a true rate, costs the
        rate per unit. */
    method UpdateCartQuantityBasedOnHours(meta: Meta, adminNonAjax: bool)
      requires Valid()
      modifies prices
      ensures Valid()
      ensures prices[..] == Repriced(CustomHoursUnit, lines, meta, adminNonAjax, old(prices[..]))
    {
      if adminNonAjax {
        assert prices[..] == Repriced(CustomHoursUnit, lines, meta, adminNonAjax, prices[..]);
        return;
      }
      var i := 0;
      while i < |lines|
        invariant 0 <= i <= |lines|
        invariant forall j :: 0 <= j < i ==>
                    prices[j] == HookPrice(CustomHoursUnit, lines[j], meta, adminNonAjax, old(prices[j]))
        invariant forall j :: i <= j < |lines| ==> prices[j] == old(prices[j])
      {
        var cartItem := lines[i].item;
        var customHours: Option<Value> := Get(cartItem, "custom_hours");
        if customHours.Some? {
          var hours := IntValOf(customHours.value);
          if hours > 0 {
            var hourlyRate := GetPostMeta(meta, lines[i].productId, "_hourly_rate");
            if Truthy(hourlyRate) {
              prices[i] := FloatVal(hourlyRate);
            }
          }
        }
        i := i + 1;
      }
    }

    /** validate_hourly_product_price: one notice per hourly line whose rate
        is missing or not above zero; no line and no price changes. */
    method ValidateHourlyProductPrice(meta: Meta)
      modifies this`notices
      ensures notices == old(notices) + Notices(lines, meta)
    {
      var i := 0;
      while i < |lines|
        invariant 0 <= i <= |lines|
        invariant notices == old(notices) + Notices(lines[..i], meta)
      {
        assert lines[..i + 1][..i] == lines[..i];
        var productId := lines[i].productId;
        var isHourlyRate := GetPostMeta(meta, productId, "_is_hourly_rate");
        var hourlyRate := GetPostMeta(meta, productId, "_hourly_rate");
        assert NeedsRateNotice(lines[i], meta) <==>
               isHourlyRate == "yes" && (!Truthy(hourlyRate) || FloatVal(hourlyRate) <= 0.0);
        if isHourlyRate == "yes" && (!Truthy(hourlyRate) || FloatVal(hourlyRate) <= 0.0) {
          notices := notices + [RateNotice];
        }
        assert notices == old(notices) + Notices(lines[..i + 1], meta);
        i := i + 1;
      }
      assert lines[..i] == lines;
    }

    /** The four `woocommerce_before_calculate_totals` hooks in registration
        order. The lines, and so every quantity, stay as they are. */
    method CalculateTotals(meta: Meta, adminNonAjax: bool)
      requires Valid()
      modifies prices, this`notices
      ensures lines == old(lines)
      ensures Valid()
      ensures prices[..] == Recompute(lines, meta, adminNonAjax, old(prices[..]))
      ensures notices == old(notices) + Notices(lines, meta)
    {
      UpdateCartItemPrice(adminNonAjax);
      assert Repriced(HourlyForm, lines, map[], adminNonAjax, old(prices[..])) ==
             Repriced(HourlyForm, lines, meta, adminNonAjax, old(prices[..]));
      CalculateQuantityAndDisableCartQuantity(meta);
      assert Repriced(CustomHoursTotal, lines, meta, false, Repriced(HourlyForm, lines, meta, adminNonAjax, old(prices[..]))) ==
             Repriced(CustomHoursTotal, lines, meta, adminNonAjax, Repriced(HourlyForm, lines, meta, adminNonAjax, old(prices[..])));
      UpdateCartQuantityBasedOnHours(meta, adminNonAjax);
      ValidateHourlyProductPrice(meta);
    }

    /** WC()->cart->add_to_cart, an opaque call that may refuse (`accepted`).
        When it accepts, the `woocommerce_add_cart_item_data` filter runs on
        the item data and a line is appended whose product costs `basePrice`. */
    method AddToCart(productId: int, quantity: int, itemData: PhpArray<Value>,
                     post: map<string, string>, uniqueKey: string, basePrice: real, accepted: bool)
      returns (added: bool)
      requires Valid()
      modifies this
      ensures Valid() && added == accepted && notices == old(notices)
      ensures accepted ==>
                && lines == old(lines) + [CartLine(productId, quantity, AddHourlyRateToCart(itemData, post, uniqueKey))]
                && fresh(prices) && prices[..] == old(prices[..]) + [basePrice]
      ensures !accepted ==> lines == old(lines) && prices == old(prices)
    {
      if !accepted {
        return false;
      }
      var data := AddHourlyRateToCart(itemData, post, uniqueKey);
      var current := prices;
      var grown := new real[current.Length + 1];
      var i := 0;
      while i < current.Length
        modifies grown
        invariant 0 <= i <= current.Length
        invariant grown[..i] == current[..i]
      {
        grown[i] := current[i];
        i := i + 1;
      }
      grown[current.Length] := basePrice;
      assert grown[..] == current[..] + [basePrice];
      lines := lines + [CartLine(productId, quantity, data)];
      prices := grown;
      added := true;
    }
  }

  /** `!$product_id || !wc_get_product($product_id)`, with `catalog` the ids
      wc_get_product finds. */
  predicate InvalidProduct(productId: int, catalog: set<int>)
    ensures !InvalidProduct(productId, catalog) ==> productId != 0 && productId in catalog
    ensures productId == 0 ==> InvalidProduct(productId, catalog)
  {
    productId == 0 || productId !in catalog
  }

  /** add_to_cart_with_custom_data: `formData` is `$_POST['form_data']` when it
      is an array. Every error reply leaves the cart as it was; on success the
      cart gains one line with the submitted product, the quantity read from
      `hours` and the `custom_` item data. */
  method AddToCartWithCustomData(cart: Cart, formData: Option<seq<FormPair>>, catalog: set<int>,
                                 post: map<string, string>, uniqueKey: string, basePrice: real,
                                 accepted: bool, checkoutUrl: string)
    returns (response: AjaxResponse)
    requires cart.Valid()
    modifies cart
    ensures cart.Valid() && cart.notices == old(cart.notices)
    ensures formData.None? ==> response == JsonError("Invalid data.")
    ensures formData.Some? && InvalidProduct(ProductIdOf(Flattened(formData.value)), catalog) ==>
              response == JsonError("Invalid Product ID.")
    ensures formData.Some? && !InvalidProduct(ProductIdOf(Flattened(formData.value)), catalog) ==>
              response == if accepted then JsonSuccess(checkoutUrl) else JsonError("Failed to add product to cart.")
    ensures response.JsonError? ==> cart.lines == old(cart.lines) && cart.prices == old(cart.prices)
    ensures response.JsonSuccess? ==>
              var data := Flattened(formData.value);
              && cart.lines == old(cart.lines) +
                   [CartLine(ProductIdOf(data), QuantityOf(data), AddHourlyRateToCart(CartItemDataFor(data), post, uniqueKey))]
              && cart.prices[..] == old(cart.prices[..]) + [basePrice]
  {
    if formData.None? {
      return JsonError("Invalid data.");
    }
    var data := FlattenFormData(formData.value);
    var productId := ProductIdOf(data);
    if productId == 0 || productId !in catalog {
      return JsonError("Invalid Product ID.");
    }
    var cartItemData := BuildCartItemData(data);
    var quantity := QuantityOf(data);
    var added := cart.AddToCart(productId, quantity, cartItemData, post, uniqueKey, basePrice, accepted);
    if added {
      response := JsonSuccess(checkoutUrl);
    } else {
      response := JsonError("Failed to add product to cart.");
    }
  }
}
