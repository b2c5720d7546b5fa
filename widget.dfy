/**
 * The inline editor of the order list (assets/js/wc-shipping-tracking.js):
 * one widget per row made of a value span, a text input carrying
 * `data-original` and `data-order_id`, an edit link and a loader.
 *
 * `RowView` is the state of one row; each handler is a pure transition on it
 * (`Cancelled`, `Saving`, `Responded`, `EditOpened`, `Typed`), and the class
 * `TrackingRow` performs the same handlers in place on its fields.
 */
module Widget {
  import opened Common
  import opened Strings
  import opened Plugin

  /** The `e.which` codes the key handlers react to. */
  const KeyEnter := 13
  const KeyEsc := 27

  /** The `action` field routing the request to the endpoint. */
  const SaveAction := "save_tracking_number"

  /** The POST request `handle_save` sends: action, `order_id`, `wc_shipping_tracking`, `security`. */
  datatype Request = Request(action: string, orderId: int, trackingNumber: string, security: string)

  /** One row's widget: what is visible, the input's text, `data-original`, the disabled flag. */
  datatype RowView = RowView(
    spanVisible: bool, spanText: string,
    inputVisible: bool, inputText: string, original: string, disabled: bool,
    editVisible: bool, loaderVisible: bool)

  /**
   * What every reachable state satisfies: exactly one of the input and the
   * edit link is visible, the loader shows exactly while the input is
   * disabled, a hidden input holds `data-original`, and the edit link is only
   * shown beside the value span.
   */
  predicate Consistent(v: RowView) {
    && v.inputVisible != v.editVisible
    && v.loaderVisible == v.disabled
    && (!v.inputVisible ==> v.inputText == v.original)
    && (v.editVisible ==> v.spanVisible)
  }

  /**
   * The row as `render_shop_order_columns` emits it: the span shows the stored
   * value, input and `data-original` hold it, the loader is hidden by the
   * stylesheet, and the input and edit link take their show/hide classes.
   */
  function Rendered(cell: TrackingCell): (v: RowView)
    requires cell.inputClass != cell.editClass
    ensures Consistent(v)
    ensures v.inputVisible == (cell.inputClass == Show) && v.editVisible == (cell.editClass == Show)
    ensures v.spanVisible && v.spanText == cell.value
    ensures v.inputText == cell.value && v.original == cell.value
    ensures !v.disabled && !v.loaderVisible
  {
    RowView(true, cell.value, cell.inputClass == Show, cell.value, cell.value, false,
            cell.editClass == Show, false)
  }

  /**
   * `handle_cancel`: hides the input and resets its text to `data-original`,
   * shows the value span and the edit link; `data-original` is unchanged.
   */
  function Cancelled(v: RowView): (r: RowView)
    ensures Consistent(v) ==> Consistent(r)
    ensures !r.inputVisible && r.inputText == v.original && r.spanVisible && r.editVisible
    ensures r.original == v.original && r.spanText == v.spanText
    ensures r.disabled == v.disabled && r.loaderVisible == v.loaderVisible
  {
    v.(inputVisible := false, inputText := v.original, spanVisible := true, editVisible := true)
  }

  /** `handle_save` before the request leaves: the loader shows and the input is disabled. */
  function Saving(v: RowView): (r: RowView)
    ensures Consistent(v) ==> Consistent(r)
    ensures r.loaderVisible && r.disabled
    ensures r.inputVisible == v.inputVisible && r.inputText == v.inputText && r.original == v.original
    ensures r.spanVisible == v.spanVisible && r.spanText == v.spanText && r.editVisible == v.editVisible
  {
    v.(loaderVisible := true, disabled := true)
  }

  /** The request `handle_save` sends: the untrimmed input text, the row's order id and the page's nonce. */
  function SaveRequest(v: RowView, orderId: int, security: string): (q: Request)
    ensures q.action == SaveAction && q.orderId == orderId && q.security == security
    ensures q.trackingNumber == v.inputText
  {
    Request(SaveAction, orderId, v.inputText, security)
  }

  /**
   * The `success` then `done` callbacks on a response: input text and
   * `data-original` both become the response; a non-empty response is
   * displayed with the edit link, an empty one leaves only the input
   * visible; then the input is re-enabled and the loader hidden. Whatever the
   * state before, the state after is consistent.
   */
  function Responded(v: RowView, response: string): (r: RowView)
    ensures Consistent(r)
    ensures r.inputText == response && r.original == response
    ensures response != "" ==> !r.inputVisible && r.spanVisible && r.spanText == response && r.editVisible
    ensures response == "" ==> r.inputVisible && !r.spanVisible && !r.editVisible && r.spanText == v.spanText
    ensures !r.disabled && !r.loaderVisible
  {
    var w := v.(inputText := response, original := response);
    var w := if response != "" then w.(inputVisible := false, spanText := response, spanVisible := true, editVisible := true)
             else w.(inputVisible := true, spanVisible := false, editVisible := false);
    w.(disabled := false, loaderVisible := false)
  }

  /** `onEditClick`: hides the edit link and the value span and shows the input. */
  function EditOpened(v: RowView): (r: RowView)
    ensures Consistent(v) ==> Consistent(r)
    ensures r.inputVisible && !r.editVisible && !r.spanVisible
    ensures r.inputText == v.inputText && r.original == v.original && r.spanText == v.spanText
    ensures r.disabled == v.disabled && r.loaderVisible == v.loaderVisible
  {
    v.(editVisible := false, inputVisible := true, spanVisible := false)
  }

  /** The browser's own effect of typing: only a visible, enabled input takes the new text. */
  function Typed(v: RowView, text: string): (r: RowView)
    ensures Consistent(v) ==> Consistent(r)
    ensures r.inputText == if v.inputVisible && !v.disabled then text else v.inputText
    ensures r == v.(inputText := r.inputText)
  {
    if v.inputVisible && !v.disabled then v.(inputText := text) else v
  }

  /** `onInputBlur` saves exactly when the trimmed text differs from `data-original`. */
  predicate BlurSaves(v: RowView) {
    JsTrim(v.inputText) != v.original
  }

  /** The events the script listens to on the row, and the response to a save. */
  datatype Event =
    | Blur
    | KeyUp(which: int)
    | KeyPress(which: int)
    | EditClick
    | UserInput(text: string)
    | SaveResponse(body: string)

  /**
   * The handlers bound in the `wcShippingTracking` constructor, plus the
   * response callbacks: the next state and the request sent, if any.
   */
  function React(v: RowView, e: Event, orderId: int, security: string): (r: (RowView, Option<Request>))
    ensures Consistent(v) ==> Consistent(r.0)
    ensures r.1.Some? ==> r.1.value == SaveRequest(v, orderId, security)
  {
    match e
    case Blur => if BlurSaves(v) then (Saving(v), Some(SaveRequest(v, orderId, security))) else (Cancelled(v), None)
    case KeyUp(which) => if which == KeyEsc then (Cancelled(v), None) else (v, None)
    case KeyPress(which) => if which == KeyEnter then (Saving(v), Some(SaveRequest(v, orderId, security))) else (v, None)
    case EditClick => (EditOpened(v), None)
    case UserInput(text) => (Typed(v, text), None)
    case SaveResponse(body) => (Responded(v, body), None)
  }

  /** A row after a sequence of events, and every request it sent, in order. */
  function Run(v: RowView, events: seq<Event>, orderId: int, security: string): (r: (RowView, seq<Request>))
    ensures Consistent(v) ==> Consistent(r.0)
    ensures forall q :: q in r.1 ==> q.action == SaveAction && q.orderId == orderId && q.security == security
    decreases |events|
  {
    if events == [] then (v, [])
    else
      var (w, sent) := React(v, events[0], orderId, security);
      var (u, rest) := Run(w, events[1..], orderId, security);
      (u, (if sent.Some? then [sent.value] else []) + rest)
  }

  /** Every state a rendered row reaches is consistent. */
  lemma RenderedRunsStayConsistent(cell: TrackingCell, events: seq<Event>, security: string)
    requires cell.inputClass != cell.editClass
    ensures Consistent(Run(Rendered(cell), events, cell.orderId, security).0)
  {
  }

  /**
   * Only a response re-enables the input: cancel, edit, typing and another
   * save all leave a disabled input disabled (there is no failure callback).
   */
  lemma OnlyResponseReenables(v: RowView, e: Event, orderId: int, security: string)
    requires v.disabled
    requires !e.SaveResponse?
    ensures React(v, e, orderId, security).0.disabled
  {
  }

  /** Esc on keyup cancels whatever the input holds; Enter on keypress saves whatever it holds. */
  lemma KeysIgnoreTheOriginal(v: RowView, orderId: int, security: string)
    ensures React(v, KeyUp(KeyEsc), orderId, security) == (Cancelled(v), None)
    ensures React(v, KeyPress(KeyEnter), orderId, security)
            == (Saving(v), Some(Request(SaveAction, orderId, v.inputText, security)))
  {
  }

  /**
   * After a response, blurring without an edit takes the cancel path, as
   * long as the response has no blanks at its ends that jQuery's trim would drop.
   */
  lemma ResponseThenBlurCancels(v: RowView, response: string)
    requires response == [] || (!IsJsWhitespace(response[0]) && !IsJsWhitespace(response[|response| - 1]))
    ensures !BlurSaves(Responded(v, response))
  {
    TrimOfTrimmed(response, IsJsWhitespace);
  }

  /**
   * Clicking edit and blurring again without a change sends nothing and
   * shows the stored value again ("ABC123").
   */
  lemma UnchangedEditCancels(orderId: int, security: string)
    ensures var v0 := Rendered(TrackingCell(orderId, "ABC123", Hide, Show));
            var (v1, _) := React(v0, EditClick, orderId, security);
            var (v2, _) := React(v1, UserInput("ABC123"), orderId, security);
            var (v3, sent) := React(v2, Blur, orderId, security);
            && sent == None
            && v3.spanVisible && v3.spanText == "ABC123" && v3.editVisible
            && !v3.inputVisible && v3.inputText == "ABC123"
  {
    var s := "ABC123";
    assert !IsJsWhitespace(s[0]) && !IsJsWhitespace(s[|s| - 1]);
    TrimOfTrimmed(s, IsJsWhitespace);
  }

  /** Escape while editing "XYZ999" restores the original and sends nothing. */
  lemma EscapeRestoresOriginal(v: RowView, orderId: int, security: string)
    requires Consistent(v) && v.inputVisible && v.inputText == "XYZ999"
    ensures var (w, sent) := React(v, KeyUp(KeyEsc), orderId, security);
            && sent == None && !w.inputVisible && w.inputText == v.original
            && w.spanVisible && w.editVisible && Consistent(w)
  {
  }

  /**
   * An empty response hides the value span without updating it, so a later
   * cancel shows the span's old text again while `data-original` is "".
   */
  lemma EmptyResponseThenCancelShowsOldText(v: RowView)
    ensures var w := Cancelled(Responded(v, ""));
            && w.spanVisible && w.spanText == v.spanText && w.original == "" && w.inputText == ""
  {
  }

  /**
   * The value "0" renders with the input shown and the edit link hidden
   * (PHP reads "0" as false), whereas a "0" response is displayed with the
   * edit link, as any non-empty response is.
   */
  lemma ZeroRendersAsEmptyButRespondsAsValue(orderId: int, address: string, meta: Meta, v: RowView)
    requires PhpTruthy(address) && MetaKey in meta && meta[MetaKey] == "0"
    ensures var cell := RenderTrackingCell(CustomColumn, address, orderId, meta);
            && cell.Some?
            && Rendered(cell.value).inputVisible && !Rendered(cell.value).editVisible
            && !Responded(v, "0").inputVisible && Responded(v, "0").editVisible
  {
  }

  /** One rendered row of the order list, with its state held in place. */
  class TrackingRow {
    /** `data-order_id`. */
    const orderId: int
    var spanVisible: bool
    var spanText: string
    var inputVisible: bool
    var inputText: string
    /** `data-original`. */
    var original: string
    var disabled: bool
    var editVisible: bool
    var loaderVisible: bool

    function View(): RowView
      reads this
    {
      RowView(spanVisible, spanText, inputVisible, inputText, original, disabled, editVisible, loaderVisible)
    }

    /** The row as rendered for `cell`. */
    constructor (cell: TrackingCell)
      requires cell.inputClass != cell.editClass
      ensures View() == Rendered(cell) && orderId == cell.orderId
    {
      orderId := cell.orderId;
      spanVisible, spanText := true, cell.value;
      inputVisible := cell.inputClass == Show;
      inputText, original := cell.value, cell.value;
      disabled := false;
      editVisible := cell.editClass == Show;
      loaderVisible := false;
    }

    /** `handle_cancel`. */
    method HandleCancel()
      modifies this
      ensures View() == Cancelled(old(View()))
    {
      inputVisible := false;
      inputText := original;
      spanVisible := true;
      editVisible := true;
    }

    /** `handle_save`: shows the loader, disables the input and returns the request it sends. */
    method HandleSave(security: string) returns (request: Request)
      modifies this
      ensures View() == Saving(old(View()))
      ensures request == SaveRequest(old(View()), orderId, security)
    {
      loaderVisible := true;
      disabled := true;
      request := Request(SaveAction, orderId, inputText, security);
    }

    /** The `success` and then the `done` callback of the save request. */
    method OnSaveResponse(response: string)
      modifies this
      ensures View() == Responded(old(View()), response)
    {
      inputText := response;
      original := response;
      if response != "" {
        inputVisible := false;
        spanText := response;
        spanVisible := true;
        editVisible := true;
      } else {
        inputVisible := true;
        spanVisible := false;
        editVisible := false;
      }
      disabled := false;
      loaderVisible := false;
    }

    /** `onInputBlur`: saves when the trimmed text differs from `data-original`, cancels otherwise. */
    method OnInputBlur(security: string) returns (request: Option<Request>)
      modifies this
      ensures (View(), request) == React(old(View()), Blur, orderId, security)
    {
      if JsTrim(inputText) != original {
        var q := HandleSave(security);
        request := Some(q);
      } else {
        HandleCancel();
        request := None;
      }
    }

    /** `onInputKeyUp`: Esc cancels. */
    method OnInputKeyUp(which: int)
      modifies this
      ensures (View(), None) == React(old(View()), KeyUp(which), orderId, "")
    {
      if which == KeyEsc {
        HandleCancel();
      }
    }

    /** `onInputKeyPress`: Enter suppresses the default action and saves. */
    method OnInputKeyPress(which: int, security: string) returns (preventDefault: bool, request: Option<Request>)
      modifies this
      ensures preventDefault == (which == KeyEnter)
      ensures (View(), request) == React(old(View()), KeyPress(which), orderId, security)
    {
      preventDefault := false;
      request := None;
      if which == KeyEnter {
        preventDefault := true;
        var q := HandleSave(security);
        request := Some(q);
      }
    }

    /** `onEditClick`: suppresses the link's default action and opens the input. */
    method OnEditClick() returns (preventDefault: bool)
      modifies this
      ensures preventDefault
      ensures View() == EditOpened(old(View()))
    {
      preventDefault := true;
      editVisible := false;
      inputVisible := true;
      spanVisible := false;
    }

    /** The user types `text` into the input. */
    method OnUserInput(text: string)
      modifies this
      ensures View() == Typed(old(View()), text)
    {
      if inputVisible && !disabled {
        inputText := text;
      }
    }
  }
}
