# Shipping Tracking Number for WooCommerce — a verified model

This project models the core of the WooCommerce plugin "Shipping Tracking
Number": an inline editor in the admin order list that lets an operator set
one order meta field, `_shipping_tracking_number`, through an AJAX request,
together with the small filters the plugin hooks into WooCommerce.

- `strings.dfy` (module `Strings`): PHP's `trim`, jQuery's `$.trim` and PHP's
  truthiness of a string.
- `php_array.dfy` (module `PhpArray`): PHP's ordered arrays with string keys
  as sequences of (key, value) pairs; `array_keys`, `array_values`,
  `array_search`, `$a[$k] = $v` and `array_combine`.
- `plugin.dfy` (module `Plugin`): `admin_shipping_fields`,
  `email_order_meta_keys`, `shop_order_columns` and the widget markup chosen
  by `render_shop_order_columns`.
- `save_endpoint.dfy` (module `SaveEndpoint`): the AJAX action
  `save_tracking_number`. The order database is a class `OrderStore` whose
  `orders` map sends an order id to what `wc_get_order` finds there (a
  `WC_Order` with its meta, or another object). The method
  `SaveTrackingNumber` is tied to two specification functions, and the
  lemmas beside them state what the endpoint promises. The WordPress calls
  behind `check_ajax_referer` (which request field holds the nonce, and
  `wp_verify_nonce`), `sanitize_text_field` and `intval` are uninterpreted
  function parameters. Whether `$order->save()` persisted is a boolean
  parameter.
- `widget.dfy` (module `Widget`): the script `assets/js/wc-shipping-tracking.js`.
  The state of one row is `RowView`: what is visible, the input's text,
  `data-original`, and the disabled flag. Each handler is a pure transition
  on that state. The class `TrackingRow` runs the same handlers in place on
  its fields. `React` and `Run` dispatch events to those handlers.
  `Consistent` is the invariant every reachable state keeps.
- `common.dfy` (module `Common`): `Option`.

Behaviour of the code that the model keeps on purpose:

- The endpoint echoes the sanitized value even when the id finds no
  `WC_Order` (`EchoedWithoutWrite`).
- The endpoint never inspects the result of `save()`. A save that does not
  persist still echoes the value, so an echoed value does not mean the
  order was written.
- `shop_order_columns` leaves a shipping column in first position alone,
  because `if( $i )` reads index 0 as false.
- When a `shipping_address_custom` column already exists, `array_combine`
  merges the two entries (`ShopOrderColumnsMergesExisting`).
- The stored value "0" renders as if empty: the input is shown and the edit
  link hidden. A "0" response, by contrast, is displayed with the edit link
  (`ZeroRendersAsEmptyButRespondsAsValue`).
- An empty response hides the value span without updating its text. A
  later cancel shows the old text again while `data-original` is ""
  (`EmptyResponseThenCancelShowsOldText`).
- Only a response re-enables the input. There is no failure callback
  (`OnlyResponseReenables`).
- PHP's `trim` (inside `sanitize_text_field`) and jQuery's `$.trim` strip
  different characters: PHP keeps, for example, U+00A0 at the end of a
  value, and jQuery strips it. A response ending in such a character makes
  the next unchanged blur save again, which is why
  `ResponseThenBlurCancels` asks for a response with no JavaScript
  whitespace at its ends.

## Model

| member | source | states |
|---|---|---|
| `Strings.PhpTrim` | wc-shipping-tracking.php:266 | the trimmed value is empty exactly when every character is one of PHP's default trim characters; a non-empty result has no such character at either end |
| `Strings.JsTrim` | assets/js/wc-shipping-tracking.js:100 | the trimmed text is empty exactly when every character is JavaScript whitespace; a non-empty result has none at either end |
| `Strings.Trim` | wc-shipping-tracking.php:266 | the result is the infix of the input between the stripped prefix and the stripped suffix, it has no strippable character at either end, and it is empty exactly when every character is strippable |
| `PhpArray.Search` | wc-shipping-tracking.php:149 | `array_search` finds nothing exactly when the key is absent; otherwise it returns the first position holding the key |
| `PhpArray.Keys` | wc-shipping-tracking.php:146 | `array_keys` lists the keys in entry order, one per entry |
| `PhpArray.Values` | wc-shipping-tracking.php:147 | `array_values` lists the values in entry order, one per entry |
| `PhpArray.Lookup` | wc-shipping-tracking.php:136 | the subscript read `$a[$k]`, used to state what the writes at lines 105 and 136 leave in the array: it fails exactly when the key is absent, and in an array with distinct keys it returns the value paired with that key |
| `PhpArray.Assign` | wc-shipping-tracking.php:105-108 | `$a[$k] = $v` keeps the position of an existing key and appends a new one; afterwards `k` maps to `v`, every other key maps to what it did, other entries are untouched, and keys stay distinct |
| `PhpArray.Combine` | wc-shipping-tracking.php:153 | `array_combine` yields distinct keys, exactly the given keys; with distinct keys it is the pairwise zip of keys and values |
| `PhpArray.CombineLastWins` | wc-shipping-tracking.php:153 | in `array_combine`, a repeated key takes the value of its last occurrence |
| `Plugin.StoredTrackingNumber` | wc-shipping-tracking.php:180 | `get_meta( '_shipping_tracking_number', true )` gives the stored value when the order has one and "" otherwise |
| `Plugin.AdminShippingFields` | wc-shipping-tracking.php:101-110 | only the entry `tracking_number` is set, to the label and class array; every other entry and the key order are unchanged, and a new key goes last |
| `Plugin.EmailOrderMetaKeys` | wc-shipping-tracking.php:135-138 | only the entry under the label is set, to `_shipping_tracking_number`; every other entry and the key order are unchanged |
| `Plugin.ShopOrderColumns` | wc-shipping-tracking.php:145-157 | the input comes back unchanged when `shipping_address` is absent or first; when it is at position i > 0 (and no `shipping_address_custom` column exists) the length is kept, position i becomes (`shipping_address_custom`, Ship to) and every other entry is unchanged; keys stay distinct |
| `Plugin.ShopOrderColumnsMergesExisting` | wc-shipping-tracking.php:146-153 | with an existing `shipping_address_custom` column the shipping column disappears, the merged entry takes the later of the two values, and every other column keeps its value |
| `Plugin.RenderTrackingCell` | wc-shipping-tracking.php:164-195 | a widget is rendered exactly for the custom column of an order with an address; it carries the order id and the stored value; the input starts shown exactly when the value is PHP-falsy and exactly one of input and edit link is shown |
| `SaveEndpoint.OrderStore.SaveTrackingNumber` | wc-shipping-tracking.php:262-282 | the response and the new order store are those of the endpoint's specification functions, which the lemmas below characterise |
| `SaveEndpoint.NonceCheckedFirst` | wc-shipping-tracking.php:264-266 | a request whose nonce fails is rejected and changes no order, and any request carrying the same nonce is treated the same, whatever its value and order-id fields hold |
| `SaveEndpoint.InvalidFieldsChangeNothing` | wc-shipping-tracking.php:266-278 | a missing value, a value that trims to "", or a missing order id changes no order and echoes nothing |
| `SaveEndpoint.AtMostTargetWritten` | wc-shipping-tracking.php:269-274 | every order other than `intval(order_id)` of a valid request is still in the store and unchanged |
| `SaveEndpoint.StoreKeepsItsIds` | wc-shipping-tracking.php:270-274 | no call adds or removes an order: the store keeps exactly its ids |
| `SaveEndpoint.TargetGetsSanitizedValue` | wc-shipping-tracking.php:267-274 | a saved `WC_Order` holds the sanitized value under `_shipping_tracking_number`, and its other meta is unchanged |
| `SaveEndpoint.EchoedWithoutWrite` | wc-shipping-tracking.php:272-277 | a valid request echoes the sanitized value even when the id finds no `WC_Order` or the save does not persist, and the store is then unchanged |
| `SaveEndpoint.ResaveIsIdempotent` | wc-shipping-tracking.php:272-274 | saving the value an order already holds leaves the store as it was |
| `SaveEndpoint.BlankValueRefused` | wc-shipping-tracking.php:266 | the value "   " changes no order and echoes nothing |
| `SaveEndpoint.ExampleRoundTrip` | wc-shipping-tracking.php:266-277 | "1Z999AA10123456784" saved on order 42 is echoed back, and the row is then rendered with that value, the input hidden and the edit link shown |
| `Widget.Rendered` | wc-shipping-tracking.php:185-189 | the rendered row is consistent: span, input and `data-original` hold the stored value, the loader is hidden, the input is enabled, and input and edit link follow their classes |
| `Widget.Cancelled` | assets/js/wc-shipping-tracking.js:25-32 | cancel hides the input and resets its text to `data-original`, shows span and edit link, leaves `data-original`, span text, disabled flag and loader alone, and keeps consistency |
| `Widget.Saving` | assets/js/wc-shipping-tracking.js:47-49 | save shows the loader and disables the input, changing nothing else |
| `Widget.SaveRequest` | assets/js/wc-shipping-tracking.js:52-64 | the request carries the action `save_tracking_number`, the row's order id, the untrimmed input text and the page's nonce |
| `Widget.Responded` | assets/js/wc-shipping-tracking.js:67-89 | after a response, input text and `data-original` both equal it; a non-empty one hides the input and shows span (with the response) and edit link; an empty one shows only the input; the input is enabled and the loader hidden; the result is consistent from any state |
| `Widget.EditOpened` | assets/js/wc-shipping-tracking.js:130-133 | edit click hides edit link and span and shows the input, changing nothing else, and keeps consistency |
| `Widget.React` | assets/js/wc-shipping-tracking.js:14-20 | every handler keeps the row consistent, and any request sent is the save request of the current state |
| `Widget.Run` | assets/js/wc-shipping-tracking.js:14-20 | a consistent row stays consistent through any sequence of events, and every request it sends is a save for its own order with the page's nonce |
| `Widget.RenderedRunsStayConsistent` | wc-shipping-tracking.php:182-183 | every state a rendered row reaches has exactly one of input and edit link visible, the loader exactly while disabled, and a hidden input holding `data-original` |
| `Widget.OnlyResponseReenables` | assets/js/wc-shipping-tracking.js:83-89 | no event other than a response re-enables a disabled input |
| `Widget.KeysIgnoreTheOriginal` | assets/js/wc-shipping-tracking.js:110-125 | Esc on keyup always cancels and Enter on keypress always saves the current text, with no comparison against `data-original` |
| `Widget.ResponseThenBlurCancels` | assets/js/wc-shipping-tracking.js:67-104 | after a response with no blanks at its ends, a blur without an edit takes the cancel path |
| `Widget.UnchangedEditCancels` | assets/js/wc-shipping-tracking.js:95-105 | editing "ABC123" and blurring without a change sends nothing and shows "ABC123" again |
| `Widget.EscapeRestoresOriginal` | assets/js/wc-shipping-tracking.js:110-114 | Esc while editing restores the original text, hides the input, sends nothing |
| `Widget.EmptyResponseThenCancelShowsOldText` | assets/js/wc-shipping-tracking.js:71-79 | an empty response followed by a cancel shows the span's previous text while input and `data-original` are "" |
| `Widget.ZeroRendersAsEmptyButRespondsAsValue` | wc-shipping-tracking.php:182-183 | a stored "0" renders with the input shown and the edit link hidden, while a "0" response shows the edit link and hides the input |
| `Widget.TrackingRow.constructor` | wc-shipping-tracking.php:185-189 | a new row's state is the rendered state of its cell |
| `Widget.TrackingRow.HandleCancel` | assets/js/wc-shipping-tracking.js:25-32 | the row's new state is `Cancelled` of the old one |
| `Widget.TrackingRow.HandleSave` | assets/js/wc-shipping-tracking.js:37-65 | the row's new state is `Saving` of the old one and the returned request is `SaveRequest` of the old state |
| `Widget.TrackingRow.OnSaveResponse` | assets/js/wc-shipping-tracking.js:67-89 | the row's new state is `Responded` of the old one |
| `Widget.TrackingRow.OnInputBlur` | assets/js/wc-shipping-tracking.js:95-105 | saves (with the request) exactly when the trimmed text differs from `data-original`, and cancels otherwise |
| `Widget.TrackingRow.OnInputKeyUp` | assets/js/wc-shipping-tracking.js:110-114 | Esc cancels; any other key changes nothing |
| `Widget.TrackingRow.OnInputKeyPress` | assets/js/wc-shipping-tracking.js:119-125 | Enter prevents the default action and saves; any other key changes nothing |
| `Widget.TrackingRow.OnEditClick` | assets/js/wc-shipping-tracking.js:130-133 | prevents the default action and opens the input |

## Left out

- Hook registration and bootstrap (`init`, `load_plugin_textdomain`, the final `add_action`): host glue with no logic of its own.
- `admin_enqueue_script`, `admin_head_styles`, `plugin_url`, `plugin_path`: script and stylesheet loading and path helpers. The stylesheet's effects on the widget (`.hide` hides, `.show` shows, the loader starts hidden) are part of `Widget.Rendered`.
- `after_customer_details` and all markup: echo strings, `esc_attr`, `esc_url`, `esc_html`, the `<br>` replacement in the address, and the HTML reading of the response by `$display.html`. The span text is modelled as plain text.
- Where `check_ajax_referer` finds the nonce (`$_REQUEST['security']`, with WordPress's own fallbacks): a `Host` parameter, `nonceOf`, not modelled.
- `sanitize_text_field`, `wp_verify_nonce` (behind `check_ajax_referer`), `intval`, `wc_get_order`, `save()` and `__()`: host functions. They are parameters, and their behaviour is not modelled. `save()` is an all-or-nothing boolean outcome.
- The request that `check_ajax_referer` refuses is `Rejected`. The host's own answer to it (WordPress sends -1 with status 403) is not modelled.
- The link between the widget's `Request` and the endpoint's `$_POST` map: jQuery's form encoding of the order id and its `intval` on the server are not modelled. WordPress adds slashes to `$_POST` before the action runs and the endpoint sanitizes without `wp_unslash`, so a quote is stored and echoed with a backslash; the model's `Post` holds the already slashed strings, and the slashing itself is not modelled.
- jQuery's `.data()` type conversion (for example "123" becomes a number and "true" a boolean) and JavaScript's loose `!=` in `onInputBlur`: `data-original` is compared as a string.
- DOM mechanics: which events a hidden or disabled input still receives, focus, the `fadeOut` animation, and the `typeof $input === 'undefined'` guards. The handlers never receive an undefined input.
- Asynchrony: overlapping saves and responses arriving out of order. A response is one discrete event, and a failed request is the absence of one.
- PHP arrays with integer keys, and the loose comparison of `array_search` between such keys and strings. `$_POST` fields that are arrays rather than strings.
- Strings are sequences of characters. PHP's bytes and JavaScript's UTF-16 code units are not distinguished.
- Plugin.ShopOrderColumns: when a `shipping_address_custom` column already exists, the contract states only distinct keys; the merged lookups are in `ShopOrderColumnsMergesExisting`, and the resulting length is not stated.
