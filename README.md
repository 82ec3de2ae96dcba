# Request a Quote with Hourly Billing — a Dafny model of the plugin core

This project models the logic core of the WooCommerce plugin in `ini.php`:

- **The quote-form schema.** The admin Fields tab saves the posted field rows into the `request_quote_fields` option: every row's `required` becomes a boolean, and loading falls back to an empty list. The product page reads the options string of a checkbox, radio or select field with `explode(',')` and `trim`.
- **The AJAX quote submission.** The serialised `{name, value}` pairs are flattened into one map, last occurrence winning. The product id is checked. Every other entry is copied into the cart item under `custom_<sanitize_key(name)>`, and the quantity comes from `hours`. The `woocommerce_add_cart_item_data` filter adds the hourly form's hours, rate and unique key. The cart display and the order line item read back every key that *contains* `custom_`.
- **The cart totals recompute.** Four hooks on `woocommerce_before_calculate_totals` run in registration order over the cart lines. Three of them write the price of each line's product object, and the fourth adds one error notice per cart line of an hourly product whose rate is missing or not above zero. `foreach` hands each line over by value, so the hooks' writes to `$cart_item['quantity']` change a copy: the cart's quantities never change.
- **The product filters.** These are the price HTML, the price getter, and the two `woocommerce_is_purchasable` filters, which run in registration order.

Modules, one per file:

| module | what it holds |
|---|---|
| `PhpArrays` | PHP ordered arrays with string keys, as sequences of (key, value) entries: `$a[$k] = $v` and assignment loops |
| `PhpStrings` | `trim`, `explode`/`implode`, `strpos(...) !== false`, `str_replace($p, '', $s)` |
| `PhpNumbers` | `intval`, `floatval` (as left-to-right scanners over exact reals), string truthiness |
| `WpSanitize` | `sanitize_key` and `sanitize_text_field`, as simple stated filters |
| `PostMeta` | product post-meta, and `get_post_meta` with its `''` default |
| `QuoteFields` | schema save and load, the `QuoteSettings` option slot, options parsing, how a stored field renders |
| `Submission` | form flattening, cart-item data, the hourly-form filter, the display and order passes |
| `CartTotals` | the `Cart` class (lines, a price slot per line, notices), the recompute hooks, the notice check, the AJAX handler |
| `ProductFilters` | the price and purchasable filters |

## Model

| member | source | states |
|---|---|---|
| PhpArrays.Get | ini.php:416-430 | a key reads `Some` exactly when it is among the array's keys |
| PhpArrays.PutSpec | ini.php:412 | `$a[$k] = $v` binds `k` to `v`, leaves every other key's value alone, keeps an existing key in its place and appends a new one |
| PhpArrays.PutKeepsKeysDistinct | ini.php:412 | an assignment never creates a duplicate key |
| PhpArrays.PutAllKeys | ini.php:411-413 | after an assignment loop, the keys are the old keys plus every key assigned |
| PhpArrays.PutAllLastWins | ini.php:411-413 | a key ends bound to the value of its last assignment in the loop |
| PhpArrays.PutAllUntouched | ini.php:423-427 | a key that no assignment names keeps its old binding, or stays absent |
| PhpArrays.PutAllKeepsKeysDistinct | ini.php:411-413 | an assignment loop keeps keys distinct |
| PhpStrings.Trim | ini.php:299 | `trim` yields a string that neither starts nor ends with a trim character, never longer than its input, and returns a string without trim characters unchanged |
| PhpStrings.TrimOfTrimmed | ini.php:299 | a string with no trim character at either end is its own trim |
| PhpStrings.TrimCutsOnlyTrimChars | ini.php:299 | `trim` returns the infix of its input left after cutting characters from both ends, and every character cut is a trim character |
| PhpStrings.TrimAddsNoChar | ini.php:299 | `trim` adds no character |
| PhpStrings.TrimIdempotent | ini.php:299 | `trim` is idempotent |
| PhpStrings.Explode | ini.php:297 | `explode` always yields at least one piece, even for the empty string |
| PhpStrings.ExplodePiecesAreSeparatorFree | ini.php:297 | no piece of `explode` contains the separator |
| PhpStrings.ExplodeCount | ini.php:297 | `explode` yields one piece more than there are separators, so empty pieces are kept |
| PhpStrings.JoinExplode | ini.php:297 | joining the pieces with the separator gives back the original string |
| PhpStrings.ExplodeJoin | ini.php:297 | exploding a join of separator-free pieces gives back the pieces |
| PhpStrings.RemoveAll | ini.php:449 | `str_replace($p, '', $s)` never lengthens `s` |
| PhpStrings.RemoveAllChangesIffContains | ini.php:447-449 | `str_replace('custom_', '', $k)` changes `k` exactly when `strpos($k, 'custom_') !== false` |
| PhpStrings.RemoveAllAfterPrefix | ini.php:449 | a leading occurrence of the pattern is removed and the scan goes on after it |
| PhpStrings.RemoveAllCutsFirstOccurrence | ini.php:449 | the first occurrence of the pattern is removed wherever it stands, the text before it is kept, and the scan goes on after it, so every occurrence goes (`a_custom_b_custom_c` shows as `a_b_c`) |
| PhpStrings.ContainsPrefix | ini.php:447 | a string that starts with the pattern contains it |
| PhpNumbers.IntVal | ini.php:430 | `intval` is never negative unless the string, after leading whitespace, starts with `-`, and never positive when it does |
| PhpNumbers.FloatValSign | ini.php:488 | `floatval` obeys the same sign rule |
| PhpNumbers.FloatValOfDigits | ini.php:503-508 | on a string of digits, `floatval` and `intval` read the same whole number |
| PhpNumbers.DigitsFromNatToString | ini.php:430 | reading the digits of a decimal number gives back the number |
| PhpNumbers.DecimalFromOfDigits | ini.php:488 | on a string of digits only, `floatval` reads the same number `intval` reads |
| PhpNumbers.DecimalFromBounds | ini.php:503-508 | the decimal reading lies in `[n, n + 1)` above the integer reading `n` |
| PhpNumbers.IntValOfNatToString | ini.php:430 | `intval` reads back a whole number typed as plain digits |
| PhpNumbers.FloatValOfNatToString | ini.php:488 | `floatval` reads a plain decimal number as the same amount |
| PhpNumbers.IntValTruncatesFloatVal | ini.php:502-508 | for every string, `intval` is `floatval` truncated toward zero (within one unit, on the side of zero) |
| PhpNumbers.Truthy | ini.php:487 | a true string is never empty, and every string of two or more characters (`"0.00"`, `"00"`) is true; only `""` and `"0"` are false |
| PhpNumbers.ZeroWithDecimalsIsTruthy | ini.php:487 | `"0.00"` is a true string, yet it reads as 0 |
| WpSanitize.SanitizeKey | ini.php:425 | `sanitize_key` keeps only `a-z`, `0-9`, `_` and `-`, and never lengthens the key |
| WpSanitize.SanitizeKeyOfKeyChars | ini.php:425 | a key made only of kept characters passes through unchanged |
| WpSanitize.SanitizeKeyIdempotent | ini.php:425 | `sanitize_key` is idempotent |
| PostMeta.GetPostMeta | ini.php:486 | `get_post_meta($id, $key, true)` returns the stored string, and a non-empty answer always comes from a stored entry (otherwise it is `''`) |
| PostMeta.IsHourly | ini.php:562 | `_is_hourly_rate === 'yes'` holds only for a product that has that meta stored |
| PostMeta.HourlyRate | ini.php:486 | a true rate is always a stored `_hourly_rate` |
| PostMeta.HourlyPriced | ini.php:548 | the price filters' test holds only for a product with both metas stored |
| ProductFilters.ReplacePriceWithHourlyRate | ini.php:82-91 | the price HTML shows the rate per hour exactly when the product is hourly (`'yes'`) and the rate is true; otherwise it is the incoming markup |
| ProductFilters.SetHourlyProductPrice | ini.php:543-553 | the price getter answers the stored rate exactly for an hourly product with a true rate, and passes the incoming price through otherwise |
| ProductFilters.PriceFiltersAgree | ini.php:82-91 | the price HTML and the price getter make the same decision and show the same rate |
| ProductFilters.SetHourlyProductPriceIdempotent | ini.php:540-553 | the price getter is idempotent, so hooking it on both price and regular price never compounds |
| ProductFilters.MakeHourlyProductsNotPurchasable | ini.php:95-101 | hourly products are not purchasable; every other product keeps the incoming answer |
| ProductFilters.MakeHourlyProductsPurchasable | ini.php:529-538 | hourly products are purchasable; every other product keeps the incoming answer |
| ProductFilters.IsPurchasable | ini.php:94-101 | the two filters in registration order answer true for hourly products and the incoming value otherwise |
| ProductFilters.LaterPurchasableFilterWins | ini.php:528-538 | the chain answers what the later filter alone answers, and differs from the earlier filter on every hourly product |
| QuoteFields.NormalizeRowSpec | ini.php:191 | the save sets `required` to true exactly when the key was posted; every other entry keeps its value and position |
| QuoteFields.CollectFields | ini.php:188-194 | the save loop keeps the posted rows' count and order and normalises each; with no `fields` posted it collects none |
| QuoteFields.QuoteSettings.constructor | ini.php:198 | a fresh options table holds no schema |
| QuoteFields.QuoteSettings.LoadFields | ini.php:198 | loading returns the saved list, or the empty list when nothing was saved |
| QuoteFields.QuoteSettings.RenderFieldsTab | ini.php:186-198 | a submitted tab replaces the whole schema with the normalised posted rows (an empty list when none were posted); an unsubmitted one leaves it; the tab lists the schema as loaded |
| QuoteFields.SavedRowRequired | ini.php:191 | a saved row renders as required exactly when its checkbox was ticked |
| QuoteFields.IsRequired | ini.php:283 | a row without `required` renders as optional, and one whose `required` is `true` as required |
| QuoteFields.OptionsText | ini.php:297 | `$field['options'] ?? ''` is `''` when the row has no options |
| QuoteFields.ParseOptions | ini.php:297-299 | the choices are one per `explode` piece |
| QuoteFields.ParseOptionsCount | ini.php:297 | there are as many choices as commas plus one: nothing is deduplicated or dropped |
| QuoteFields.ParseOptionsTokens | ini.php:297-299 | every choice is trimmed and holds no comma |
| QuoteFields.ParseOptionsOfJoin | ini.php:297-299 | for any options string written as comma-free pieces joined by commas, choice i is the trim of piece i |
| QuoteFields.ParseOptionsExamples | ini.php:297-299 | `""` parses as `[""]` and `"A,B,"` as `["A", "B", ""]` |
| QuoteFields.RenderedControl | ini.php:287-318 | a stored field renders as a choice group exactly when its type is checkbox, radio or select, and the group offers exactly the parsed options |
| QuoteFields.ChoiceGroupControl | ini.php:296-307 | a checkbox or radio field renders as its group of parsed options, whatever its `required` entry says |
| QuoteFields.RequiredNotEnforcedOnChoiceGroups | ini.php:296-307 | a required checkbox or radio group renders exactly as an optional one |
| Submission.FlattenFormData | ini.php:410-413 | the flattening loop builds the last-wins map of the posted pairs |
| Submission.FlattenedKeys | ini.php:410-413 | the flat map's keys are exactly the posted names, each once |
| Submission.FlattenedLastWins | ini.php:410-413 | each name is bound to the value of its last occurrence |
| Submission.CheckboxGroupKeepsLastBox | ini.php:410-413 | two ticked boxes of one group post `name[]` twice, and the flat map keeps only the last |
| Submission.ProductIdOf | ini.php:416 | a submission without `product_id` gets the id 0, which the handler refuses |
| Submission.QuantityOf | ini.php:430 | without `hours` the quantity is 1 |
| Submission.QuantityOfPlainHours | ini.php:430 | hours posted as a plain whole number become the quantity |
| Submission.CustomKey | ini.php:425 | every stored key contains `custom_` |
| Submission.CustomAssignmentsSound | ini.php:423-427 | every cart-item assignment comes from a flattened entry other than `product_id` |
| Submission.CustomAssignmentsComplete | ini.php:423-427 | every flattened entry other than `product_id` makes an assignment |
| Submission.BuildCartItemData | ini.php:422-427 | the cart-item loop builds exactly those assignments in order |
| Submission.CartItemDataKeys | ini.php:422-427 | the cart-item keys are exactly `custom_` + `sanitize_key(name)` of the submitted names other than `product_id`; `product_id` is never a key; no key repeats |
| Submission.CartItemDataLastWins | ini.php:422-427 | a `custom_` key holds the sanitised value of the last entry of the flattened map, other than `product_id`, whose name sanitises to that key; a name posted again stays where it was first posted, so this is the order of first posting |
| Submission.RepostedNameKeepsFirstPlace | ini.php:411-413 | a name posted again keeps the place of its first posting and takes its last value |
| Submission.FirstPostingOrderDecides | ini.php:411-427 | posting `Hours`, `hours`, `Hours` flattens to `Hours` (last value) then `hours`, so `custom_hours` holds the `hours` value although `Hours` was submitted last |
| Submission.AddHourlyRateToCartSpec | ini.php:123-130 | with both `hourly_hours` and `hourly_rate` posted, the item gets the hours as `intval`, the rate as `floatval` and the unique key, and nothing else changes; otherwise the data passes through unchanged |
| Submission.SelectCustomIff | ini.php:446-447 | an entry is selected exactly when its key contains `custom_` anywhere |
| Submission.SelectCustomAppend | ini.php:446-447 | the selection keeps cart-item order: the selection of `a + b` is that of `a` followed by that of `b` |
| Submission.DisplayCustomCartItemData | ini.php:445-455 | the display appends one cleaned row per custom entry, in cart-item order, to the rows it was given |
| Submission.OrderItem.AddMetaData | ini.php:461 | `add_meta_data` appends one entry |
| Submission.SaveCustomCartItemDataToOrder | ini.php:458-464 | the order line item gains one entry per custom entry, in order, with every `custom_` removed from the name and the value as stored |
| Submission.DisplayAndOrderAgree | ini.php:445-464 | the cart display and the order copy list the same entries in the same order |
| Submission.SubmittedDataIsAllDisplayed | ini.php:422-451 | every entry the AJAX handler stores is shown in the cart |
| Submission.SelectAllCustom | ini.php:446-447 | when every key contains `custom_`, the selection keeps the whole item |
| Submission.FormFieldPrefixIsStripped | ini.php:333 | for a name made only of `sanitize_key` characters (lower-case letters, digits, `_`, `-`; so not `custom_Note`), a field posted as `custom_<name>` is stored as `custom_custom_<name>` and shown under the same name `<name>` would be |
| CartTotals.HookPrice | ini.php:134-513 | the hourly-form and per-unit hooks change nothing in an admin request that is not AJAX; the hourly-form hook changes only lines with both `hourly_hours` and `hourly_rate`; the other two change only `custom_hours` lines of a product with a true rate |
| CartTotals.Recompute | ini.php:133-513 | the pass keeps one price per line, and in an admin request that is not AJAX only the rate × hours hook acts |
| CartTotals.RecomputedPrice | ini.php:481-513 | a line is repriced exactly when it has `custom_hours` and its product a true rate, or, outside the admin guard, it has both hourly-form entries |
| CartTotals.LineFollowsTable | ini.php:133-145 | on one line, the three repricing hooks in order set the price the reference table gives |
| CartTotals.RecomputeFollowsTable | ini.php:133-145 | a full pass sets every line's price as the reference table says: for a `custom_hours` line of a product whose rate is true, the rate when the hours read as a positive integer (guard off) and rate × hours otherwise; failing that, hours × rate from the hourly form (guard off); every other price is kept |
| CartTotals.RecomputeIdempotent | ini.php:481-513 | running the pass again changes no price |
| CartTotals.RecomputeIgnoresCurrentPrice | ini.php:481-513 | every price the pass writes depends only on the line's data and the product meta, never on the price it finds |
| CartTotals.RecomputeLeavesOtherLines | ini.php:487 | a line that does not carry both `hourly_hours` and `hourly_rate` keeps its price when it has no `custom_hours` or its product's rate is false |
| CartTotals.NeedsRateNotice | ini.php:562 | only lines of hourly products are flagged, and every such line whose rate is false is |
| CartTotals.OffendingSnoc | ini.php:556-565 | the offending lines of a cart are those before its last line, plus the last line when it needs a notice |
| CartTotals.NoticeCount | ini.php:556-565 | the check adds exactly one notice per offending line, each the rate notice |
| CartTotals.ZeroRateIsChargedAndFlagged | ini.php:487 | for a `custom_hours` line of an hourly product, a rate of `"0.00"` is charged (price 0) and also flagged by the check |
| CartTotals.QuoteLinePrices | ini.php:496-513 | for a quote line whose hours are typed as a whole number n ≥ 1, of a product whose rate is true, the pass sets the line's price slot to the rate; in an admin request that is not AJAX it sets the slot to rate × n |
| CartTotals.HoursFieldKey | ini.php:327 | the quote form's `hours` field is stored under `custom_hours` |
| CartTotals.InvalidProduct | ini.php:417 | a product id is accepted only when it is non-zero and `wc_get_product` finds it; the id 0 is always refused |
| CartTotals.Cart.UpdateCartItemPrice | ini.php:134-145 | the hourly-form hook reprices every line as its per-line rule says and changes nothing else |
| CartTotals.Cart.CalculateQuantityAndDisableCartQuantity | ini.php:482-492 | the rate × hours hook reprices every line as its per-line rule says, with no admin guard |
| CartTotals.Cart.UpdateCartQuantityBasedOnHours | ini.php:496-513 | the per-unit hook reprices every line as its per-line rule says |
| CartTotals.Cart.ValidateHourlyProductPrice | ini.php:556-566 | the check appends the notices of the offending lines in cart order and changes no line or price |
| CartTotals.Cart.CalculateTotals | ini.php:133-566 | the four hooks leave the lines, and so every quantity, unchanged, set the prices of the full pass and append the check's notices |
| CartTotals.Cart.AddToCart | ini.php:433 | an accepted add appends one line whose data went through the hourly-form filter, and one price slot; a refused add changes neither lines nor prices; the notices are left as they were (the platform's own notices are not modelled) |
| CartTotals.AddToCartWithCustomData | ini.php:404-440 | missing form data, a zero or unknown product id, or a refused add each give its error and leave the cart as it was; success appends one line with the product, the quantity from `hours` and the `custom_` data |

## Left out

- All HTML, CSS and jQuery output is left out. This includes the product-page inputs, the settings page, the AJAX script, the echo-based order meta display (ini.php:467-478) and the disabled quantity input (ini.php:517-526). Only the choice of control and the options it lists are modelled (`QuoteFields.RenderedControl`).
- The meta boxes that save `_is_hourly_rate` and `_hourly_rate` (ini.php:15-79) are left out: post-meta is a given map.
- AJAX transport and JSON are left out. `wp_send_json_*` becomes an `AjaxResponse` value, and the checkout URL is a parameter.
- Persistence is left out. `update_option`/`get_option` and the `json_encode`/`json_decode` round trip become an in-memory option field.
- The `md5(microtime() . rand())` unique key is nondeterministic, so it is a parameter.
- `CartTotals.Cart.AddToCart`: `WC()->cart->add_to_cart` is a platform call whose source is not shown. Whether it accepts is a parameter. Merging identical lines and refusing a quantity of zero or less are not modelled. Nor are the error notice the platform adds when it refuses, or the totals pass its `woocommerce_add_to_cart` action runs after an accepted add: the model's notices stay as they were across an add.
- `CartTotals.AddToCartWithCustomData`: `wc_get_product` is a set of known ids. `$_POST['form_data']` that is not an array is the `None` case.
- `CartTotals.HookPrice`: amounts are exact reals, not IEEE doubles. `set_price` stores the number, and the later `woocommerce_product_get_price` filter on the product object is not composed with the price slot.
- `CartTotals.NeedsRateNotice`: `$hourly_rate <= 0` is read numerically for every string. In PHP 8 a rate that is not a numeric string (wholly non-numeric, or leading-numeric such as `0abc`) compares as a string instead, so ini.php:562 gives no notice for it while the model reads its leading number and flags the line when that is not above zero. For a wholly non-numeric rate the arithmetic at ini.php:488 would throw, and the model reads that rate as 0.
- `CartTotals.HookPrice`: a wholly non-numeric `custom_hours` value makes `$hourly_rate * $cart_item['custom_hours']` at ini.php:488 throw in PHP 8; the model reads such hours as 0.
- `PhpNumbers.FloatVal`, `PhpNumbers.IntVal`: exponent notation, hexadecimal, infinities and integer overflow of `intval` are not modelled. PHP 7.1 and later give `intval("1e2") == 100`, and the `type="number"` hours input (ini.php:327) accepts `1e2`; the model reads it as 1.
- `WpSanitize.SanitizeTextField`: it is reduced to its final `trim`. Tag stripping, octet removal and whitespace collapsing are not modelled, because the WordPress source is not part of this model.
- `Submission.CleanValue`: `CleanValue` passes numbers through unchanged, where `wc_clean` would turn them into strings.
- `is_admin() && !defined('DOING_AJAX')` is a boolean parameter.
- Each cart line has its own product object, so each line has its own price slot. Aliasing between lines is not modelled.
- The recompute is stated on the price slot that `set_price` writes (`CartTotals.QuoteLinePrices`). The price the product then reports goes through the `woocommerce_product_get_price` filter (ini.php:540-553, `ProductFilters.SetHourlyProductPrice`), which answers the stored rate for an hourly product with a true rate whatever the slot holds. The model does not compose the filter with the slot, so it states no line total.

Behaviour of ini.php the model keeps:

- `explode` keeps a trailing empty piece: `"A,B,"` gives a third, empty choice.
- Two posted names that sanitise to the same key collide in the cart item, and the one that comes later in the flattened map wins. The flattened map keeps each name where it was first posted, so `Hours`, `hours`, `Hours` stores the `hours` value (`Submission.FirstPostingOrderDecides`).
- Nothing validates a submission against the schema on the server. `required` exists only as an HTML attribute, and checkbox and radio groups never carry it.
- The repricing hooks never change a cart quantity. A `custom_hours` line of a product whose rate is true (ini.php:487, 507) is priced at rate × hours, and then overwritten with the rate per unit when `intval` of its hours is above zero (ini.php:504); so hours `"0"` with rate `"50"` leave the slot at 0. In an admin request that is not AJAX the slot keeps rate × hours. With a false rate the line is not repriced by either hook.
- An invalid rate does not stop the repricing: `"0.00"` is charged at 0 and flagged in the same pass.
- The AJAX handler neither requires the product to be hourly nor checks `hours >= 1`.
