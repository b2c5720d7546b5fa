/**
 * The AJAX action `save_tracking_number`: checks the nonce, validates the
 * POST fields, writes the sanitized tracking number into at most one order's
 * meta, and echoes the sanitized value.
 *
 * The host's functions are uninterpreted parameters (`Host`), the order
 * database is a map from order id to what `wc_get_order` finds there, and
 * whether `$order->save()` actually persisted is a boolean parameter.
 */
module SaveEndpoint {
  import opened Common
  import opened Strings
  import opened Plugin

  /** The action the nonce is bound to, and the POST fields the endpoint reads. */
  const NonceAction := "wc-shipping-tracking"
  const NonceField := "security"
  const OrderIdField := "order_id"

  /** `$_POST` as the endpoint sees it (after WordPress's slashing): field name to string. */
  type Post = map<string, string>

  /** What `wc_get_order` finds under an id: an order with its meta, or an object that is not a `WC_Order`. */
  datatype Stored = Order(meta: Meta) | NotAnOrder

  /**
   * The WordPress functions the endpoint relies on, left uninterpreted:
   * the request field `check_ajax_referer` takes the nonce from (`nonceOf`),
   * `wp_verify_nonce($nonce, $action)` behind it, `sanitize_text_field` and
   * `intval`.
   */
  datatype Host = Host(nonceOf: Post -> string,
                       verifyNonce: (string, string) -> bool,
                       sanitizeTextField: string -> string,
                       intval: string -> int)

  /**
   * The outcome of one request: `check_ajax_referer` refused it (the host
   * ends the request itself), or the endpoint echoed `body` and died.
   */
  datatype Response = Rejected | Echoed(body: string)

  /** `check_ajax_referer( NonceAction, NonceField )` accepts the request. */
  predicate NoncePasses(post: Post, host: Host) {
    host.verifyNonce(host.nonceOf(post), NonceAction)
  }

  /** The guard of line 266: a value that is not blank after `trim`, and an order id. */
  predicate FieldsValid(post: Post) {
    InputName in post && PhpTrim(post[InputName]) != "" && OrderIdField in post
  }

  /** `sanitize_text_field( $_POST['wc_shipping_tracking'] )`. */
  function SanitizedValue(post: Post, host: Host): string
    requires InputName in post
  {
    host.sanitizeTextField(post[InputName])
  }

  /** `intval( $_POST['order_id'] )`. */
  function TargetId(post: Post, host: Host): int
    requires OrderIdField in post
  {
    host.intval(post[OrderIdField])
  }

  /** What the endpoint answers. It reads no order, so it is the same whatever the store holds. */
  function EndpointResponse(post: Post, host: Host): Response {
    if !NoncePasses(post, host) then Rejected
    else if FieldsValid(post) then Echoed(SanitizedValue(post, host))
    else Echoed("")
  }

  /** The order store once the endpoint has run. */
  function OrdersAfterSave(orders: map<int, Stored>, post: Post, host: Host, saveSucceeds: bool)
    : map<int, Stored>
  {
    if !NoncePasses(post, host) || !FieldsValid(post) then orders
    else
      var id := TargetId(post, host);
      if id in orders && orders[id].Order? && saveSucceeds
      then orders[id := Order(orders[id].meta[MetaKey := SanitizedValue(post, host)])]
      else orders
  }

  /** The host's order database, as far as the endpoint sees it. */
  class OrderStore {
    var orders: map<int, Stored>

    constructor (orders: map<int, Stored>)
      ensures this.orders == orders
    {
      this.orders := orders;
    }

    /**
     * `save_tracking_number()`. `saveSucceeds` says whether `$order->save()`
     * persisted; the endpoint never looks at it.
     */
    method SaveTrackingNumber(post: Post, host: Host, saveSucceeds: bool) returns (response: Response)
      modifies this
      ensures response == EndpointResponse(post, host)
      ensures orders == OrdersAfterSave(old(orders), post, host, saveSucceeds)
    {
      if !host.verifyNonce(host.nonceOf(post), NonceAction) {
        // check_ajax_referer ends the request before anything else is read.
        return Rejected;
      }
      var body := "";
      if InputName in post && PhpTrim(post[InputName]) != "" && OrderIdField in post {
        var value := host.sanitizeTextField(post[InputName]);
        var orderId := host.intval(post[OrderIdField]);
        if orderId in orders && orders[orderId].Order? {
          var updated := orders[orderId].meta[MetaKey := value];
          if saveSucceeds {
            orders := orders[orderId := Order(updated)];
          }
        }
        body := value;
      }
      response := Echoed(body);
    }
  }

  /**
   * The nonce is checked before anything else: a request whose nonce fails
   * is rejected and changes nothing, whatever the fields other than the
   * nonce hold.
   */
  lemma NonceCheckedFirst(orders: map<int, Stored>, post: Post, other: Post, host: Host, saved: bool, otherSaved: bool)
    requires !NoncePasses(post, host)
    requires host.nonceOf(other) == host.nonceOf(post)
    ensures EndpointResponse(post, host) == EndpointResponse(other, host) == Rejected
    ensures OrdersAfterSave(orders, post, host, saved) == OrdersAfterSave(orders, other, host, otherSaved) == orders
  {
  }

  /**
   * A missing value, a value that trims to "", or a missing order id: no
   * order is touched and the body is empty.
   */
  lemma InvalidFieldsChangeNothing(orders: map<int, Stored>, post: Post, host: Host, saved: bool)
    requires NoncePasses(post, host)
    requires InputName !in post || PhpTrim(post[InputName]) == "" || OrderIdField !in post
    ensures EndpointResponse(post, host) == Echoed("")
    ensures OrdersAfterSave(orders, post, host, saved) == orders
  {
  }

  /**
   * At most one order is written per call, the one with id
   * `intval(order_id)`; every other entry of the store is unchanged.
   */
  lemma AtMostTargetWritten(orders: map<int, Stored>, post: Post, host: Host, saved: bool, id: int)
    requires id in orders
    requires !(NoncePasses(post, host) && FieldsValid(post) && id == TargetId(post, host))
    ensures id in OrdersAfterSave(orders, post, host, saved)
    ensures OrdersAfterSave(orders, post, host, saved)[id] == orders[id]
  {
  }

  /** The endpoint never adds or removes an order: the store keeps its ids. */
  lemma StoreKeepsItsIds(orders: map<int, Stored>, post: Post, host: Host, saved: bool)
    ensures OrdersAfterSave(orders, post, host, saved).Keys == orders.Keys
  {
  }

  /**
   * When the request passes and the id names a `WC_Order` that is saved, that
   * order's tracking number becomes the sanitized value and its other meta
   * is unchanged.
   */
  lemma TargetGetsSanitizedValue(orders: map<int, Stored>, post: Post, host: Host)
    requires NoncePasses(post, host) && FieldsValid(post)
    requires TargetId(post, host) in orders && orders[TargetId(post, host)].Order?
    ensures var after := OrdersAfterSave(orders, post, host, true)[TargetId(post, host)];
            var before := orders[TargetId(post, host)];
            && after.Order?
            && StoredTrackingNumber(after.meta) == SanitizedValue(post, host)
            && after.meta.Keys == before.meta.Keys + {MetaKey}
            && forall k :: k in before.meta && k != MetaKey ==> after.meta[k] == before.meta[k]
  {
  }

  /**
   * A valid request is answered with the sanitized value even when the id
   * finds no `WC_Order` or the save does not persist; the store is then unchanged.
   */
  lemma EchoedWithoutWrite(orders: map<int, Stored>, post: Post, host: Host, saved: bool)
    requires NoncePasses(post, host) && FieldsValid(post)
    requires TargetId(post, host) !in orders || orders[TargetId(post, host)].NotAnOrder? || !saved
    ensures EndpointResponse(post, host) == Echoed(SanitizedValue(post, host))
    ensures OrdersAfterSave(orders, post, host, saved) == orders
  {
  }

  /** Saving the value an order already holds leaves the store as it was. */
  lemma ResaveIsIdempotent(orders: map<int, Stored>, post: Post, host: Host, saved: bool)
    requires NoncePasses(post, host) && FieldsValid(post)
    requires TargetId(post, host) in orders && orders[TargetId(post, host)].Order?
    requires var meta := orders[TargetId(post, host)].meta;
             MetaKey in meta && meta[MetaKey] == SanitizedValue(post, host)
    ensures OrdersAfterSave(orders, post, host, saved) == orders
  {
    var id := TargetId(post, host);
    var meta := orders[id].meta;
    assert meta[MetaKey := SanitizedValue(post, host)] == meta;
    assert orders[id := Order(meta)] == orders;
  }

  /** A value made only of blanks is refused: nothing is written and the body is empty. */
  lemma BlankValueRefused(orders: map<int, Stored>, host: Host, nonce: string, orderId: string, saved: bool)
    requires NoncePasses(map[NonceField := nonce, InputName := "   ", OrderIdField := orderId], host)
    ensures var post := map[NonceField := nonce, InputName := "   ", OrderIdField := orderId];
            && EndpointResponse(post, host) == Echoed("")
            && OrdersAfterSave(orders, post, host, saved) == orders
  {
    var post := map[NonceField := nonce, InputName := "   ", OrderIdField := orderId];
    assert PhpTrim(post[InputName]) == "" by {
      assert forall i :: 0 <= i < |post[InputName]| ==> IsPhpTrimChar(post[InputName][i]);
    }
  }

  /**
   * A round trip: "1Z999AA10123456784" saved on order 42 is echoed back, and
   * the order list then renders it in the widget with the edit link shown.
   */
  lemma ExampleRoundTrip(orders: map<int, Stored>, host: Host, nonce: string, address: string)
    requires NoncePasses(map[NonceField := nonce, InputName := "1Z999AA10123456784", OrderIdField := "42"], host)
    requires host.sanitizeTextField("1Z999AA10123456784") == "1Z999AA10123456784"
    requires host.intval("42") == 42
    requires 42 in orders && orders[42].Order?
    requires PhpTruthy(address)
    ensures var post := map[NonceField := nonce, InputName := "1Z999AA10123456784", OrderIdField := "42"];
            var after := OrdersAfterSave(orders, post, host, true);
            && EndpointResponse(post, host) == Echoed("1Z999AA10123456784")
            && after[42].Order?
            && RenderTrackingCell(CustomColumn, address, 42, after[42].meta)
               == Some(TrackingCell(42, "1Z999AA10123456784", Hide, Show))
  {
    var post := map[NonceField := nonce, InputName := "1Z999AA10123456784", OrderIdField := "42"];
    var v := "1Z999AA10123456784";
    assert post[InputName] == v && post[OrderIdField] == "42";
    assert !IsPhpTrimChar(v[0]);
    assert PhpTrim(v) != "";
    assert FieldsValid(post);
    assert TargetId(post, host) == 42 && SanitizedValue(post, host) == v;
    var after := OrdersAfterSave(orders, post, host, true);
    assert after[42] == Order(orders[42].meta[MetaKey := v]);
    assert StoredTrackingNumber(after[42].meta) == v;
    assert PhpTruthy(v);
  }
}
