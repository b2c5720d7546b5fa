/**
 * The WooCommerce-facing filters of the Shipping Tracking Number plugin
 * (class `WC_Shipping_Tracking`): the admin shipping-field registration, the
 * e-mail meta keys, the renaming of the order list's shipping column, and the
 * initial show/hide choice of the inline editor rendered in that column.
 */
module Plugin {
  import opened Common
  import opened Strings
  import opened PhpArray

  /** `WC_Shipping_Tracking::$id`: the input's name, also the POST field of the value. */
  const InputName := "wc_shipping_tracking"

  /** `WC_Shipping_Tracking::$meta`: the order meta key holding the tracking number. */
  const MetaKey := "_shipping_tracking_number"

  /**
   * The admin field key: `MetaKey` with "_shipping_" removed by `str_replace`.
   * WooCommerce prefixes "_shipping_" again when it reads and writes the field.
   */
  const FieldKey := "tracking_number"

  /** The CSS classes given to the admin field. */
  const FieldClass := "_shipping_tracking_number_field _shipping_state_field"

  /** The order list's own shipping column and the plugin's replacement for it. */
  const ShippingAddressColumn := "shipping_address"
  const CustomColumn := "shipping_address_custom"

  /** An order's meta data, by key. */
  type Meta = map<string, string>

  /** `$order->get_meta( MetaKey, true )`: the stored value, or "" when there is none. */
  function StoredTrackingNumber(meta: Meta): (v: string)
    ensures MetaKey in meta ==> v == meta[MetaKey]
    ensures MetaKey !in meta ==> v == ""
  {
    if MetaKey in meta then meta[MetaKey] else ""
  }

  /** The attribute array `admin_shipping_fields` registers for the field. */
  function TrackingFieldSpec(trackingLabel: string): seq<(string, string)> {
    [("label", trackingLabel), ("class", FieldClass)]
  }

  /**
   * `admin_shipping_fields($fields)`: sets the one entry `tracking_number`
   * (in place when present, appended otherwise) and leaves every other entry
   * and the key order alone. `trackingLabel` is the translated "Tracking Number".
   */
  function AdminShippingFields(fields: seq<(string, seq<(string, string)>)>, trackingLabel: string)
    : (r: seq<(string, seq<(string, string)>)>)
    ensures Lookup(r, FieldKey) == Some(TrackingFieldSpec(trackingLabel))
    ensures forall k :: k != FieldKey ==> Lookup(r, k) == Lookup(fields, k)
    ensures Keys(r) == if FieldKey in Keys(fields) then Keys(fields) else Keys(fields) + [FieldKey]
    ensures DistinctKeys(fields) ==> DistinctKeys(r)
  {
    Assign(fields, FieldKey, TrackingFieldSpec(trackingLabel))
  }

  /**
   * `email_order_meta_keys($keys)`: maps the translated label `trackingLabel` to the meta key
   * and leaves every other entry and the key order alone.
   */
  function EmailOrderMetaKeys(keys: seq<(string, string)>, trackingLabel: string): (r: seq<(string, string)>)
    ensures Lookup(r, trackingLabel) == Some(MetaKey)
    ensures forall k :: k != trackingLabel ==> Lookup(r, k) == Lookup(keys, k)
    ensures Keys(r) == if trackingLabel in Keys(keys) then Keys(keys) else Keys(keys) + [trackingLabel]
    ensures DistinctKeys(keys) ==> DistinctKeys(r)
  {
    Assign(keys, trackingLabel, MetaKey)
  }

  /**
   * `shop_order_columns($columns)`: the `shipping_address` column becomes
   * `shipping_address_custom`, labelled `shipTo` (the translated "Ship to"),
   * at the same position. `if( $i )` reads position 0 as "not found", so a
   * shipping column in first position is left alone.
   */
  function ShopOrderColumns(columns: seq<(string, string)>, shipTo: string): (r: seq<(string, string)>)
    requires DistinctKeys(columns)
    ensures DistinctKeys(r)
    ensures ShippingAddressColumn !in Keys(columns) ==> r == columns
    ensures columns != [] && columns[0].0 == ShippingAddressColumn ==> r == columns
    ensures forall i :: 0 < i < |columns| && columns[i].0 == ShippingAddressColumn
                        && CustomColumn !in Keys(columns) ==>
              && |r| == |columns|
              && r[i] == (CustomColumn, shipTo)
              && forall j :: 0 <= j < |columns| && j != i ==> r[j] == columns[j]
  {
    var keys := Keys(columns);
    var values := Values(columns);
    var found := Search(keys, ShippingAddressColumn);
    if found.Some? && found.value != 0 then
      var i := found.value;
      RenamedKeysDistinct(keys, i, CustomColumn);
      Combine(keys[i := CustomColumn], values[i := shipTo])
    else
      columns
  }

  /** Overwriting one key of a distinct list with a key it lacks keeps it distinct. */
  lemma RenamedKeysDistinct(ks: seq<string>, i: nat, k: string)
    requires Distinct(ks) && i < |ks|
    ensures k !in ks ==> Distinct(ks[i := k])
  {
  }

  /**
   * When a `shipping_address_custom` column already exists, `array_combine`
   * merges the two entries under that key: the renamed shipping column
   * disappears, the merged entry keeps the value of whichever of the two
   * comes later, and every other column keeps its value.
   */
  lemma ShopOrderColumnsMergesExisting(columns: seq<(string, string)>, shipTo: string, i: nat, j: nat)
    requires DistinctKeys(columns)
    requires 0 < i < |columns| && columns[i].0 == ShippingAddressColumn
    requires j < |columns| && columns[j].0 == CustomColumn
    ensures var r := ShopOrderColumns(columns, shipTo);
            && Lookup(r, ShippingAddressColumn) == None
            && Lookup(r, CustomColumn) == Some(if j < i then shipTo else columns[j].1)
            && forall k :: k != ShippingAddressColumn && k != CustomColumn ==> Lookup(r, k) == Lookup(columns, k)
  {
    MergedDropsShipping(columns, shipTo, i);
    MergedCustomValue(columns, shipTo, i, j);
    MergedKeepsOthers(columns, shipTo, i);
  }

  /** With the shipping column at a later position, the filter renames it and combines again. */
  lemma ShopOrderColumnsRenames(columns: seq<(string, string)>, shipTo: string, i: nat)
    requires DistinctKeys(columns)
    requires 0 < i < |columns| && columns[i].0 == ShippingAddressColumn
    ensures ShopOrderColumns(columns, shipTo) == Combine(Keys(columns)[i := CustomColumn], Values(columns)[i := shipTo])
  {
    assert Search(Keys(columns), ShippingAddressColumn) == Some(i);
  }

  /** Once the shipping column is renamed, no shipping column is left. */
  lemma MergedDropsShipping(columns: seq<(string, string)>, shipTo: string, i: nat)
    requires DistinctKeys(columns)
    requires 0 < i < |columns| && columns[i].0 == ShippingAddressColumn
    ensures Lookup(ShopOrderColumns(columns, shipTo), ShippingAddressColumn) == None
  {
    var ks := Keys(columns)[i := CustomColumn];
    ShopOrderColumnsRenames(columns, shipTo, i);
    assert ShippingAddressColumn !in ks by {
      forall m | 0 <= m < |ks| ensures ks[m] != ShippingAddressColumn {
        if m != i { assert Keys(columns)[m] != Keys(columns)[i]; }
      }
    }
  }

  /**
   * Renaming the shipping column `i` to the key of the existing column `j`
   * leaves the key twice; combining keeps the value of the later of the two.
   */
  lemma MergedCustomValue(columns: seq<(string, string)>, shipTo: string, i: nat, j: nat)
    requires DistinctKeys(columns)
    requires 0 < i < |columns| && columns[i].0 == ShippingAddressColumn
    requires j < |columns| && columns[j].0 == CustomColumn
    ensures Lookup(ShopOrderColumns(columns, shipTo), CustomColumn) == Some(if j < i then shipTo else columns[j].1)
  {
    ShopOrderColumnsRenames(columns, shipTo, i);
    RenamedLookupCustom(columns, shipTo, i, j);
  }

  /** Renaming entry `i` to the key of entry `j`: combining keeps the value of the later one. */
  lemma RenamedLookupCustom(columns: seq<(string, string)>, shipTo: string, i: nat, j: nat)
    requires DistinctKeys(columns) && i < |columns| && j < |columns| && i != j
    requires columns[j].0 == CustomColumn
    ensures Lookup(Combine(Keys(columns)[i := CustomColumn], Values(columns)[i := shipTo]), CustomColumn)
            == Some(if j < i then shipTo else columns[j].1)
  {
    var ks := Keys(columns)[i := CustomColumn];
    var vs := Values(columns)[i := shipTo];
    var last := if j < i then i else j;
    assert ks[last] == CustomColumn;
    assert vs[last] == if j < i then shipTo else columns[j].1;
    forall m | last < m < |ks| ensures ks[m] != CustomColumn {
      assert Keys(columns)[m] != Keys(columns)[j];
    }
    CombineLastWins(ks, vs, last);
  }

  /** Renaming the shipping column leaves every column other than the two merged ones alone. */
  lemma MergedKeepsOthers(columns: seq<(string, string)>, shipTo: string, i: nat)
    requires DistinctKeys(columns)
    requires 0 < i < |columns| && columns[i].0 == ShippingAddressColumn
    ensures forall k :: k != ShippingAddressColumn && k != CustomColumn ==>
              Lookup(ShopOrderColumns(columns, shipTo), k) == Lookup(columns, k)
  {
    ShopOrderColumnsRenames(columns, shipTo, i);
    RenamedLookupOthers(columns, shipTo, i);
  }

  /** Renaming entry `i` to the custom column and combining again leaves every third key alone. */
  lemma RenamedLookupOthers(columns: seq<(string, string)>, shipTo: string, i: nat)
    requires DistinctKeys(columns) && i < |columns|
    ensures forall k :: k != columns[i].0 && k != CustomColumn ==>
              Lookup(Combine(Keys(columns)[i := CustomColumn], Values(columns)[i := shipTo]), k) == Lookup(columns, k)
  {
    var ks := Keys(columns)[i := CustomColumn];
    var vs := Values(columns)[i := shipTo];
    forall k | k != columns[i].0 && k != CustomColumn
      ensures Lookup(Combine(ks, vs), k) == Lookup(columns, k)
    {
      RenamedLookupOther(columns, ks, vs, i, k);
    }
  }

  /** Renaming entry `i` and combining again leaves the lookup of any third key alone. */
  lemma RenamedLookupOther(columns: seq<(string, string)>, ks: seq<string>, vs: seq<string>, i: nat, k: string)
    requires DistinctKeys(columns) && i < |columns|
    requires ks == Keys(columns)[i := CustomColumn] && |vs| == |ks|
    requires forall m :: 0 <= m < |columns| && m != i ==> vs[m] == columns[m].1
    requires k != columns[i].0 && k != CustomColumn
    ensures Lookup(Combine(ks, vs), k) == Lookup(columns, k)
  {
    var keys := Keys(columns);
    if m :| 0 <= m < |columns| && columns[m].0 == k {
      assert ks[m] == k;
      forall j | m < j < |ks| ensures ks[j] != ks[m] {
        if j != i { assert keys[j] != keys[m]; }
      }
      CombineLastWins(ks, vs, m);
    } else {
      assert k !in keys;
      assert k !in ks;
    }
  }

  /** The show/hide class of an element of the rendered row. */
  datatype Visibility = Show | Hide

  /**
   * What `render_shop_order_columns` emits for one order's tracking widget:
   * the order id and stored value (in the input's `data-order_id`,
   * `data-original` and `value`, and in the value span), and the classes of
   * the input and of the edit link.
   */
  datatype TrackingCell = TrackingCell(orderId: int, value: string, inputClass: Visibility, editClass: Visibility)

  /**
   * `render_shop_order_columns($column)` for the current order: nothing for
   * another column, a dash (no widget) when the order has no shipping
   * address, otherwise the widget. The input starts shown exactly when the
   * stored value is PHP-falsy ("" or "0"), the edit link exactly when it is not.
   */
  function RenderTrackingCell(column: string, address: string, orderId: int, meta: Meta)
    : (r: Option<TrackingCell>)
    ensures r.Some? <==> column == CustomColumn && PhpTruthy(address)
    ensures r.Some? ==> r.value.orderId == orderId && r.value.value == StoredTrackingNumber(meta)
    ensures r.Some? ==> (r.value.inputClass == Show <==> !PhpTruthy(StoredTrackingNumber(meta)))
    ensures r.Some? ==> (r.value.inputClass == Show <==> r.value.editClass == Hide)
  {
    if column != CustomColumn || !PhpTruthy(address) then None
    else
      var value := StoredTrackingNumber(meta);
      Some(TrackingCell(orderId, value,
                        if PhpTruthy(value) then Hide else Show,
                        if PhpTruthy(value) then Show else Hide))
  }
}
