/** Turning a quote-form submission into cart-item data, the hourly-form filter
    on cart-item data, and the passes that read the custom data back for the
    cart display and for the order line item. */
module Submission {
  import opened PhpArrays
  import opened PhpStrings
  import opened PhpNumbers
  import opened WpSanitize

  /** A value stored in a cart item: the sanitised submitted strings, the
      integer hours and float rate of the hourly form, the unique key. */
  datatype Value = Str(s: string) | Int(i: int) | Float(r: real)

  /** The value a cart-item entry takes in arithmetic. */
  function NumVal(v: Value): real {
    match v
    case Str(s) => FloatVal(s)
    case Int(i) => i as real
    case Float(r) => r
  }

  /** intval() of a cart-item entry; a float is truncated toward zero. */
  function IntValOf(v: Value): int {
    match v
    case Str(s) => IntVal(s)
    case Int(i) => i
    case Float(r) => if r >= 0.0 then r.Floor else -((-r).Floor)
  }

  /** One `{name, value}` object of the serialised quote form. */
  datatype FormPair = FormPair(name: string, value: string)

  function Assignments(formData: seq<FormPair>): (es: seq<(string, string)>)
    ensures |es| == |formData|
    ensures forall i :: 0 <= i < |formData| ==> es[i] == (formData[i].name, formData[i].value)
  {
    seq(|formData|, i requires 0 <= i < |formData| => (formData[i].name, formData[i].value))
  }

  /** The flat map `$data[$item['name']] = $item['value']` builds. */
  function Flattened(formData: seq<FormPair>): PhpArray<string> {
    PutAll([], Assignments(formData))
  }

  /** The flattening loop of add_to_cart_with_custom_data. */
  method FlattenFormData(formData: seq<FormPair>) returns (data: PhpArray<string>)
    ensures data == Flattened(formData)
  {
    data := [];
    var i := 0;
    while i < |formData|
      invariant 0 <= i <= |formData|
      invariant data == PutAll([], Assignments(formData[..i]))
    {
      assert Assignments(formData[..i + 1]) == Assignments(formData[..i]) + [(formData[i].name, formData[i].value)];
      PutAllStep([], Assignments(formData[..i]), (formData[i].name, formData[i].value));
      data := Put(data, formData[i].name, formData[i].value);
      i := i + 1;
    }
    assert formData[..i] == formData;
  }

  /** The flat map's keys are exactly the posted names, each once. */
  lemma FlattenedKeys(formData: seq<FormPair>, k: string)
    ensures k in Keys(Flattened(formData)) <==> exists i :: 0 <= i < |formData| && formData[i].name == k
    ensures DistinctKeys(Flattened(formData))
  {
    var es := Assignments(formData);
    PutAllKeys([], es, k);
    PutAllKeepsKeysDistinct([], es);
    if exists i :: 0 <= i < |formData| && formData[i].name == k {
      var i :| 0 <= i < |formData| && formData[i].name == k;
      assert es[i].0 == k;
    }
    if exists i :: 0 <= i < |es| && es[i].0 == k {
      var i :| 0 <= i < |es| && es[i].0 == k;
      assert formData[i].name == k;
    }
  }

  /** Last wins: each name is bound to the value of its last occurrence. */
  lemma FlattenedLastWins(formData: seq<FormPair>, i: nat)
    requires i < |formData|
    requires forall j :: i < j < |formData| ==> formData[j].name != formData[i].name
    ensures Get(Flattened(formData), formData[i].name) == Some(formData[i].value)
  {
    PutAllLastWins([], Assignments(formData), i);
  }

  /** Ticking two boxes of a checkbox group posts `name[]` twice; the flat map
      keeps only the box that came last. */
  lemma CheckboxGroupKeepsLastBox(name: string, first: string, second: string)
    ensures Flattened([FormPair(name + "[]", first), FormPair(name + "[]", second)]) ==
            [(name + "[]", second)]
  {
    var n := name + "[]";
    var es := Assignments([FormPair(n, first), FormPair(n, second)]);
    assert es == [(n, first)] + [(n, second)];
    PutAllStep([], [(n, first)], (n, second));
    PutAllStep([], [], (n, first));
    assert [] + [(n, first)] == [(n, first)];
  }

  /** `isset($data['product_id']) ? intval($data['product_id']) : 0`. */
  function ProductIdOf(data: PhpArray<string>): (id: int)
    ensures "product_id" !in Keys(data) ==> id == 0
  {
    var v: Option<string> := Get(data, "product_id");
    if v.Some? then IntVal(v.value) else 0
  }

  /** `isset($data['hours']) ? intval($data['hours']) : 1`. */
  function QuantityOf(data: PhpArray<string>): (q: int)
    ensures "hours" !in Keys(data) ==> q == 1
  {
    var v: Option<string> := Get(data, "hours");
    if v.Some? then IntVal(v.value) else 1
  }

  /** Hours submitted as a plain decimal number become the quantity. */
  lemma QuantityOfPlainHours(data: PhpArray<string>, n: nat)
    requires Get(data, "hours") == Some(NatToString(n))
    ensures QuantityOf(data) == n
  {
    IntValOfNatToString(n);
  }

  /** The key a submitted field is stored under in the cart item. */
  function CustomKey(k: string): (r: string)
    ensures Contains(r, "custom_")
  {
    ContainsPrefix("custom_", SanitizeKey(k));
    "custom_" + SanitizeKey(k)
  }

  /** `$cart_item_data['custom_' . sanitize_key($key)] = sanitize_text_field($value)`. */
  function Assignment(entry: (string, string)): (string, Value) {
    (CustomKey(entry.0), Str(SanitizeTextField(entry.1)))
  }

  /** The assignments the cart-item loop makes: one per flattened entry other
      than `product_id`, in order. */
  function CustomAssignments(data: PhpArray<string>): (es: seq<(string, Value)>)
    ensures |es| <= |data|
  {
    if data == [] then []
    else
      var init := CustomAssignments(data[..|data| - 1]);
      var entry := data[|data| - 1];
      if entry.0 == "product_id" then init else init + [Assignment(entry)]
  }

  /** Each assignment comes from a flattened entry other than `product_id`. */
  lemma {:induction false} CustomAssignmentsSound(data: PhpArray<string>, e: (string, Value))
    requires e in CustomAssignments(data)
    ensures exists j :: 0 <= j < |data| && data[j].0 != "product_id" && e == Assignment(data[j])
  {
    var init := data[..|data| - 1];
    var last := |data| - 1;
    var pre := CustomAssignments(init);
    assert CustomAssignments(data) ==
           if data[last].0 != "product_id" then pre + [Assignment(data[last])] else pre;
    if e in pre {
      CustomAssignmentsSound(init, e);
      var j :| 0 <= j < |init| && init[j].0 != "product_id" && e == Assignment(init[j]);
      assert data[j] == init[j];
    }
  }

  /** Each flattened entry other than `product_id` makes an assignment. */
  lemma {:induction false} CustomAssignmentsComplete(data: PhpArray<string>, j: nat)
    requires j < |data| && data[j].0 != "product_id"
    ensures Assignment(data[j]) in CustomAssignments(data)
  {
    var init := data[..|data| - 1];
    var last := |data| - 1;
    var pre := CustomAssignments(init);
    assert CustomAssignments(data) ==
           if data[last].0 != "product_id" then pre + [Assignment(data[last])] else pre;
    if j < last {
      assert init[j] == data[j];
      CustomAssignmentsComplete(init, j);
    }
  }

  /** The `$cart_item_data` add_to_cart_with_custom_data builds. */
  function CartItemDataFor(data: PhpArray<string>): PhpArray<Value> {
    PutAll([], CustomAssignments(data))
  }

  /** The cart-item loop of add_to_cart_with_custom_data. */
  method BuildCartItemData(data: PhpArray<string>) returns (itemData: PhpArray<Value>)
    ensures itemData == CartItemDataFor(data)
  {
    itemData := [];
    var i := 0;
    while i < |data|
      invariant 0 <= i <= |data|
      invariant itemData == PutAll([], CustomAssignments(data[..i]))
    {
      var (key, value) := data[i];
      assert data[..i + 1][..i] == data[..i];
      if key != "product_id" {
        PutAllStep([], CustomAssignments(data[..i]), Assignment(data[i]));
        itemData := Put(itemData, CustomKey(key), Str(SanitizeTextField(value)));
      }
      i := i + 1;
    }
    assert data[..i] == data;
  }

  /** Every cart-item key is `custom_` followed by the sanitised name of a
      submitted field other than `product_id`, and every such field has one;
      so `product_id` itself is never among them, and no key repeats. */
  lemma CartItemDataKeys(data: PhpArray<string>, k: string)
    ensures k in Keys(CartItemDataFor(data)) <==>
              exists j :: 0 <= j < |data| && data[j].0 != "product_id" && k == CustomKey(data[j].0)
    ensures "product_id" !in Keys(CartItemDataFor(data))
    ensures DistinctKeys(CartItemDataFor(data))
  {
    var es := CustomAssignments(data);
    PutAllKeepsKeysDistinct([], es);
    PutAllKeys([], es, k);
    PutAllKeys([], es, "product_id");
    if i :| 0 <= i < |es| && es[i].0 == k {
      CustomAssignmentsSound(data, es[i]);
    }
    if j :| 0 <= j < |data| && data[j].0 != "product_id" && k == CustomKey(data[j].0) {
      CustomAssignmentsComplete(data, j);
      var i :| 0 <= i < |es| && es[i] == Assignment(data[j]);
    }
    forall i | 0 <= i < |es| ensures es[i].0 != "product_id" {
      CustomAssignmentsSound(data, es[i]);
      assert es[i].0[0] == 'c';
    }
  }

  /** Last wins among colliding names: a `custom_` key holds the sanitised
      value of the last entry of the flattened map (other than `product_id`)
      whose name sanitises to that key. A name posted again stays where it
      was first posted, so this is the order of first posting
      (see `FirstPostingOrderDecides`). */
  lemma {:induction false} CartItemDataLastWins(data: PhpArray<string>, j: nat)
    requires j < |data| && data[j].0 != "product_id"
    requires forall j' :: j < j' < |data| && data[j'].0 != "product_id" ==>
               CustomKey(data[j'].0) != CustomKey(data[j].0)
    ensures Get(CartItemDataFor(data), CustomKey(data[j].0)) == Some(Str(SanitizeTextField(data[j].1)))
  {
    var key := CustomKey(data[j].0);
    var init := data[..|data| - 1];
    var last := |data| - 1;
    var pre := CustomAssignments(init);
    if j < last {
      assert init[j] == data[j];
      forall j' | j < j' < |init| && init[j'].0 != "product_id"
        ensures CustomKey(init[j'].0) != key
      {
        assert init[j'] == data[j'];
      }
      CartItemDataLastWins(init, j);
    }
    if data[last].0 == "product_id" {
      assert CustomAssignments(data) == pre;
    } else {
      var e := Assignment(data[last]);
      assert CustomAssignments(data) == pre + [e];
      PutAllStep([], pre, e);
      PutSpec(PutAll([], pre), e.0, e.1);
      assert j < last ==> e.0 != key;
    }
  }

  /** Posting `Hours`, `hours`, `Hours`: the flattened map keeps `Hours` in
      its first place with its last value, so `hours` comes last in the map
      and decides `custom_hours`, although `Hours` was submitted last. */
  lemma FirstPostingOrderDecides(a: string, b: string, c: string)
    ensures Flattened([FormPair("Hours", a), FormPair("hours", b), FormPair("Hours", c)]) ==
            [("Hours", c), ("hours", b)]
    ensures Get(CartItemDataFor([("Hours", c), ("hours", b)]), "custom_hours") ==
            Some(Str(SanitizeTextField(b)))
  {
    RepostedNameKeepsFirstPlace("Hours", "hours", a, b, c);
    HoursNamesShareKey();
    CartItemDataLastWins([("Hours", c), ("hours", b)], 1);
  }

  /** A name posted again keeps its first place and takes its last value. */
  lemma RepostedNameKeepsFirstPlace(n: string, m: string, a: string, b: string, c: string)
    requires n != m
    ensures Flattened([FormPair(n, a), FormPair(m, b), FormPair(n, c)]) == [(n, c), (m, b)]
  {
    var first, second, third := (n, a), (m, b), (n, c);
    assert Assignments([FormPair(n, a), FormPair(m, b), FormPair(n, c)]) == [first, second] + [third];
    PutAllStep([], [first, second], third);
    PutAllStep([], [first], second);
    PutAllStep([], [], first);
    assert [] + [first] == [first];
    assert [first] + [second] == [first, second];
  }

  /** `Hours` and `hours` both sanitise to the key `custom_hours`. */
  lemma HoursNamesShareKey()
    ensures CustomKey("Hours") == "custom_hours" == CustomKey("hours")
  {
    var tail := "ours";
    assert forall i :: 0 <= i < |tail| ==> IsKeyChar(tail[i]);
    SanitizeKeyOfKeyChars(tail);
    assert "Hours"[1..] == tail && "hours"[1..] == tail;
    assert SanitizeKey("Hours") == "h" + tail;
    assert SanitizeKey("hours") == "h" + tail;
  }

  /** add_hourly_rate_to_cart: when both `hourly_hours` and `hourly_rate` were
      posted, the cart item gets the hours as an integer, the rate as a float
      and a fresh unique key (so it never merges with another line);
      otherwise the data passes through unchanged. */
  function AddHourlyRateToCart(itemData: PhpArray<Value>, post: map<string, string>, uniqueKey: string): PhpArray<Value> {
    if "hourly_hours" in post && "hourly_rate" in post then
      var withHours := Put(itemData, "hourly_hours", Int(IntVal(post["hourly_hours"])));
      var withRate := Put(withHours, "hourly_rate", Float(FloatVal(post["hourly_rate"])));
      Put(withRate, "unique_key", Str(uniqueKey))
    else itemData
  }

  /** The hourly form's entries are added only when both were posted, each
      read as PHP reads it, and nothing else in the cart item changes. */
  lemma AddHourlyRateToCartSpec(itemData: PhpArray<Value>, post: map<string, string>, uniqueKey: string)
    ensures !("hourly_hours" in post && "hourly_rate" in post) ==>
              AddHourlyRateToCart(itemData, post, uniqueKey) == itemData
    ensures "hourly_hours" in post && "hourly_rate" in post ==>
              var r := AddHourlyRateToCart(itemData, post, uniqueKey);
              && Get(r, "hourly_hours") == Some(Int(IntVal(post["hourly_hours"])))
              && Get(r, "hourly_rate") == Some(Float(FloatVal(post["hourly_rate"])))
              && Get(r, "unique_key") == Some(Str(uniqueKey))
              && forall k :: k != "hourly_hours" && k != "hourly_rate" && k != "unique_key" ==>
                   Get(r, k) == Get(itemData, k)
  {
    if "hourly_hours" in post && "hourly_rate" in post {
      var withHours := Put(itemData, "hourly_hours", Int(IntVal(post["hourly_hours"])));
      var withRate := Put(withHours, "hourly_rate", Float(FloatVal(post["hourly_rate"])));
      PutSpec(itemData, "hourly_hours", Int(IntVal(post["hourly_hours"])));
      PutSpec(withHours, "hourly_rate", Float(FloatVal(post["hourly_rate"])));
      PutSpec(withRate, "unique_key", Str(uniqueKey));
    }
  }

  /** The entries of a cart item whose key contains `custom_` anywhere, in order. */
  function SelectCustom(item: PhpArray<Value>): (sel: PhpArray<Value>)
    ensures |sel| <= |item|
  {
    if item == [] then []
    else
      var init := SelectCustom(item[..|item| - 1]);
      var e := item[|item| - 1];
      if Contains(e.0, "custom_") then init + [e] else init
  }

  /** Exactly the entries whose key contains `custom_` are selected. */
  lemma {:induction false} SelectCustomIff(item: PhpArray<Value>, e: (string, Value))
    ensures e in SelectCustom(item) <==> e in item && Contains(e.0, "custom_")
  {
    if item != [] {
      var init := item[..|item| - 1];
      SelectCustomIff(init, e);
      assert item == init + [item[|item| - 1]];
    }
  }

  /** Selection keeps cart-item order and drops nothing: the selection of a
      split item is the selection of its front followed by that of its back. */
  lemma {:induction false} SelectCustomAppend(a: PhpArray<Value>, b: PhpArray<Value>)
    ensures SelectCustom(a + b) == SelectCustom(a) + SelectCustom(b)
    decreases |b|
  {
    if b == [] {
      assert a + b == a;
    } else {
      var init, last := b[..|b| - 1], b[|b| - 1];
      var ab := a + b;
      assert ab[..|ab| - 1] == a + init;
      assert ab[|ab| - 1] == last;
      SelectCustomAppend(a, init);
      if Contains(last.0, "custom_") {
        assert SelectCustom(ab) == SelectCustom(a + init) + [last];
        assert SelectCustom(b) == SelectCustom(init) + [last];
      } else {
        assert SelectCustom(ab) == SelectCustom(a + init);
        assert SelectCustom(b) == SelectCustom(init);
      }
    }
  }

  /** `wc_clean()` of a value: strings are sanitised, numbers pass as they are. */
  function CleanValue(v: Value): Value {
    match v
    case Str(s) => Str(SanitizeTextField(s))
    case _ => v
  }

  /** One `['name' => ..., 'value' => ...]` row of the cart's item data. */
  datatype ItemDataRow = ItemDataRow(name: string, value: Value)

  /** The name shown for a custom key: every `custom_` removed. */
  function DisplayName(key: string): string {
    RemoveAll(key, "custom_")
  }

  function DisplayRows(item: PhpArray<Value>): (rows: seq<ItemDataRow>)
    ensures |rows| == |SelectCustom(item)|
  {
    var sel := SelectCustom(item);
    seq(|sel|, j requires 0 <= j < |sel| =>
      ItemDataRow(SanitizeTextField(DisplayName(sel[j].0)), CleanValue(sel[j].1)))
  }

  /** display_custom_cart_item_data: appends one row per custom entry of the
      cart item, in the item's order, to the rows it was given. */
  method DisplayCustomCartItemData(itemData: seq<ItemDataRow>, cartItem: PhpArray<Value>) returns (rows: seq<ItemDataRow>)
    ensures rows == itemData + DisplayRows(cartItem)
  {
    rows := itemData;
    var i := 0;
    while i < |cartItem|
      invariant 0 <= i <= |cartItem|
      invariant rows == itemData + DisplayRows(cartItem[..i])
    {
      var (key, value) := cartItem[i];
      assert cartItem[..i + 1][..i] == cartItem[..i];
      if Contains(key, "custom_") {
        rows := rows + [ItemDataRow(SanitizeTextField(DisplayName(key)), CleanValue(value))];
      }
      i := i + 1;
    }
    assert cartItem[..i] == cartItem;
  }

  /** The meta list of an order line item. */
  class OrderItem {
    var meta: seq<(string, Value)>

    constructor ()
      ensures meta == []
    {
      meta := [];
    }

    /** add_meta_data($key, $value) without the unique flag: always appends. */
    method AddMetaData(key: string, value: Value)
      modifies this
      ensures meta == old(meta) + [(key, value)]
    {
      meta := meta + [(key, value)];
    }
  }

  function OrderRows(values: PhpArray<Value>): (rows: seq<(string, Value)>)
    ensures |rows| == |SelectCustom(values)|
  {
    var sel := SelectCustom(values);
    seq(|sel|, j requires 0 <= j < |sel| => (DisplayName(sel[j].0), sel[j].1))
  }

  /** save_custom_cart_item_data_to_order: copies every custom entry of the
      cart item onto the order line item, name stripped, value as stored. */
  method SaveCustomCartItemDataToOrder(item: OrderItem, values: PhpArray<Value>)
    modifies item
    ensures item.meta == old(item.meta) + OrderRows(values)
  {
    var i := 0;
    while i < |values|
      invariant 0 <= i <= |values|
      invariant item.meta == old(item.meta) + OrderRows(values[..i])
    {
      var (key, value) := values[i];
      assert values[..i + 1][..i] == values[..i];
      if Contains(key, "custom_") {
        item.AddMetaData(DisplayName(key), value);
      }
      i := i + 1;
    }
    assert values[..i] == values;
  }

  /** The cart display and the order copy list the same custom entries in the
      same order: the display only cleans the names and values further. */
  lemma DisplayAndOrderAgree(values: PhpArray<Value>)
    ensures |DisplayRows(values)| == |OrderRows(values)|
    ensures forall j :: 0 <= j < |OrderRows(values)| ==>
              DisplayRows(values)[j] == ItemDataRow(SanitizeTextField(OrderRows(values)[j].0), CleanValue(OrderRows(values)[j].1))
  {
  }

  /** Every entry add_to_cart_with_custom_data stores is shown in the cart. */
  lemma SubmittedDataIsAllDisplayed(data: PhpArray<string>)
    ensures SelectCustom(CartItemDataFor(data)) == CartItemDataFor(data)
  {
    var item := CartItemDataFor(data);
    forall i | 0 <= i < |item| ensures Contains(item[i].0, "custom_") {
      KeysAt(item, i);
      CartItemDataKeys(data, item[i].0);
    }
    SelectAllCustom(item);
  }

  lemma {:induction false} SelectAllCustom(item: PhpArray<Value>)
    requires forall i :: 0 <= i < |item| ==> Contains(item[i].0, "custom_")
    ensures SelectCustom(item) == item
  {
    if item != [] {
      SelectAllCustom(item[..|item| - 1]);
    }
  }

  /** The quote form's note field is posted as `custom_note`: a field posted
      as `custom_<name>` is stored under `custom_custom_<name>` and shown in
      the cart under the name with both prefixes stripped. */
  lemma FormFieldPrefixIsStripped(name: string)
    requires forall i :: 0 <= i < |name| ==> IsKeyChar(name[i])
    ensures CustomKey("custom_" + name) == "custom_custom_" + name
    ensures DisplayName(CustomKey("custom_" + name)) == DisplayName(name)
  {
    var prefix := "custom_";
    var field := prefix + name;
    assert CustomKey(field) == prefix + field by {
      assert forall i :: 0 <= i < |field| ==> IsKeyChar(field[i]) by {
        assert forall i :: 0 <= i < |prefix| ==> IsKeyChar(prefix[i]);
        assert forall i :: |prefix| <= i < |field| ==> field[i] == name[i - |prefix|];
      }
      SanitizeKeyOfKeyChars(field);
    }
    assert prefix + field == "custom_custom_" + name;
    assert DisplayName(prefix + field) == DisplayName(name) by {
      RemoveAllAfterPrefix(prefix, field);
      RemoveAllAfterPrefix(prefix, name);
    }
  }
}
