/** Exchange actions. */
module OrderActions {
  // Exchange actions as the signer hashes them: JSON objects whose key order matters. Every builder writes
  // the venue's order, and `CanonicalAction` rebuilds that order for an action that has been through storage.

  import opened Common
  import opened OrderRounding
  import opened DecimalText

  datatype Json =
    | Null
    | Bool(b: bool)
    | Int(i: int)
    | Real(x: real)
    | Str(s: string)
    | List(items: seq<Json>)
    | Obj(fields: seq<Field>)

  /** One entry of an object, in insertion order. */
  datatype Field = Field(key: string, value: Json)

  type Built = Result<Json, OrderError>

  const TIFS: set<string> := {"Gtc", "Ioc", "Alo"}

  /** `mapping.get(key)`. */
  function Get(fields: seq<Field>, key: string): Json {
    if fields == [] then Null else if fields[0].key == key then fields[0].value else Get(fields[1..], key)
  }

  function Keys(fields: seq<Field>): set<string> {
    set i | 0 <= i < |fields| :: fields[i].key
  }

  predicate Truthy(j: Json) {
    match j
    case Null => false
    case Bool(b) => b
    case Int(i) => i != 0
    case Real(x) => x != 0.0
    case Str(s) => s != ""
    case List(items) => items != []
    case Obj(fields) => fields != []
  }

  predicate IsCloid(s: string) {
    |s| == 34 && s[..2] == "0x" && forall k :: 2 <= k < 34 ==> ('0' <= s[k] <= '9' || 'a' <= s[k] <= 'f')
  }

  predicate PriceText(j: Json) {
    j.Str? && Accepted(j.s)
  }

  function Wire(asset: int, isBuy: bool, limitPx: string, size: string, reduceOnly: bool, tif: string,
      cloid: Option<string>): Json {
    var base := [Field("a", Int(asset)), Field("b", Bool(isBuy)), Field("p", Str(limitPx)), Field("s", Str(size)),
                 Field("r", Bool(reduceOnly)), Field("t", Obj([Field("limit", Obj([Field("tif", Str(tif))]))]))];
    Obj(if cloid.Some? then base + [Field("c", Str(cloid.value))] else base)
  }

  function OrderWire(asset: Json, isBuy: Json, limitPx: Json, size: Json, reduceOnly: Json, tif: Json,
      cloid: Json): Built {
    if !asset.Int? || asset.i < 0 then Err(OrderFormat)
    else if tif.List? || tif.Obj? then Err(WrongType)
    else if !tif.Str? || tif.s !in TIFS then Err(OrderFormat)
    else if !isBuy.Bool? || !reduceOnly.Bool? then Err(OrderFormat)
    else if !PriceText(limitPx) || !PriceText(size) then Err(OrderFormat)
    else if cloid.Null? then Ok(Wire(asset.i, isBuy.b, limitPx.s, size.s, reduceOnly.b, tif.s, None))
    else if !cloid.Str? || !IsCloid(cloid.s) then Err(OrderFormat)
    else Ok(Wire(asset.i, isBuy.b, limitPx.s, size.s, reduceOnly.b, tif.s, Some(cloid.s)))
  }

  /** `(j or {}).get(key)`. */
  function Inside(j: Json, key: string): Built {
    if !Truthy(j) then Ok(Null) else if j.Obj? then Ok(Get(j.fields, key)) else Err(WrongType)
  }

  function Tif(order: seq<Field>): Built {
    match Inside(Get(order, "t"), "limit")
    case Err(e) => Err(e)
    case Ok(limit) => Inside(limit, "tif")
  }

  function CanonicalOrderWire(order: Json): Built {
    if !order.Obj? then Err(WrongType)
    else if !(Keys(order.fields) <= {"a", "b", "p", "s", "r", "t", "c"}) then Err(OrderFormat)
    else
      var fs := order.fields;
      match Tif(fs)
      case Err(e) => Err(e)
      case Ok(tif) => OrderWire(Get(fs, "a"), Get(fs, "b"), Get(fs, "p"), Get(fs, "s"), Get(fs, "r"), tif, Get(fs, "c"))
  }

  function CanonicalOrders(orders: seq<Json>): Result<seq<Json>, OrderError> {
    if orders == [] then Ok([])
    else match CanonicalOrderWire(orders[0])
      case Err(e) => Err(e)
      case Ok(w) =>
        match CanonicalOrders(orders[1..])
        case Err(e) => Err(e)
        case Ok(ws) => Ok([w] + ws)
  }

  function OrderAction(orders: seq<Json>): Built {
    if orders == [] then Err(OrderFormat)
    else match CanonicalOrders(orders)
      case Err(e) => Err(e)
      case Ok(ws) => Ok(Obj([Field("type", Str("order")), Field("orders", List(ws)), Field("grouping", Str("na"))]))
  }

  function CancelAction(asset: Json, oid: Json): Built {
    if !oid.Int? || oid.i <= 0 then Err(OrderFormat)
    else Ok(Obj([Field("type", Str("cancel")), Field("cancels", List([Obj([Field("a", asset), Field("o", oid)])]))]))
  }

  function CancelByCloidAction(asset: Json, cloid: Json): Built {
    if !Truthy(cloid) then Err(OrderFormat)
    else if !cloid.Str? then Err(WrongType)
    else if !IsCloid(cloid.s) then Err(OrderFormat)
    else
      var cancel := Obj([Field("asset", asset), Field("cloid", cloid)]);
      Ok(Obj([Field("type", Str("cancelByCloid")), Field("cancels", List([cancel]))]))
  }

  function ModifyAction(oid: Json, order: Json): Built {
    if !oid.Int? || oid.i <= 0 then Err(OrderFormat)
    else match CanonicalOrderWire(order)
      case Err(e) => Err(e)
      case Ok(w) =>
        var entry := Obj([Field("oid", oid), Field("order", w)]);
        Ok(Obj([Field("type", Str("batchModify")), Field("modifies", List([entry]))]))
  }

  /** `_single`: the one entry of a list, with exactly these keys. */
  function Single(items: Json, keys: set<string>): Result<seq<Field>, OrderError> {
    if items.List? && |items.items| == 1 && items.items[0].Obj? && Keys(items.items[0].fields) == keys
    then Ok(items.items[0].fields)
    else Err(OrderFormat)
  }

  function CanonicalAction(action: Json): Built {
    if !action.Obj? then Err(WrongType)
    else
      var fs := action.fields;
      var kind := Get(fs, "type");
      if kind == Str("order") then
        var orders := Get(fs, "orders");
        if !Truthy(orders) then OrderAction([]) else if orders.List? then OrderAction(orders.items) else Err(WrongType)
      else if kind == Str("cancel") then
        match Single(Get(fs, "cancels"), {"a", "o"})
        case Err(e) => Err(e)
        case Ok(c) => CancelAction(Get(c, "a"), Get(c, "o"))
      else if kind == Str("cancelByCloid") then
        match Single(Get(fs, "cancels"), {"asset", "cloid"})
        case Err(e) => Err(e)
        case Ok(c) => CancelByCloidAction(Get(c, "asset"), Get(c, "cloid"))
      else if kind == Str("batchModify") then
        match Single(Get(fs, "modifies"), {"oid", "order"})
        case Err(e) => Err(e)
        case Ok(m) => ModifyAction(Get(m, "oid"), Get(m, "order"))
      else Err(OrderFormat)
  }

  // ----- Reading fields

  lemma TwoFields(k: string, x: Json, l: string, y: Json)
    requires k != l
    ensures var fs := [Field(k, x), Field(l, y)]; Get(fs, k) == x && Get(fs, l) == y && Keys(fs) == {k, l}
  {
    var fs := [Field(k, x), Field(l, y)];
    assert fs[1..] == [Field(l, y)];
    assert Keys(fs) == {fs[0].key, fs[1].key};
  }

  predicate DistinctKeys(fields: seq<Field>) {
    forall i, j :: 0 <= i < j < |fields| ==> fields[i].key != fields[j].key
  }

  lemma {:induction false} GetAt(fs: seq<Field>, i: nat)
    requires i < |fs| && DistinctKeys(fs)
    ensures Get(fs, fs[i].key) == fs[i].value
  {
    if i > 0 { GetAt(fs[1..], i - 1); }
  }

  lemma {:induction false} GetMissing(fs: seq<Field>, key: string)
    requires key !in Keys(fs)
    ensures Get(fs, key) == Null
  {
    if fs != [] {
      assert fs[0].key in Keys(fs);
      assert forall i :: 0 <= i < |fs[1..]| ==> fs[1..][i].key == fs[i + 1].key && fs[i + 1].key in Keys(fs);
      GetMissing(fs[1..], key);
    }
  }

  /** The venue's own key order. */
  const WIRE_KEYS: seq<string> := ["a", "b", "p", "s", "r", "t", "c"]

  lemma WireKeysDistinct()
    ensures forall i, j :: 0 <= i < j < 7 ==> WIRE_KEYS[i] != WIRE_KEYS[j]
  {
    assert forall i :: 0 <= i < 7 ==> |WIRE_KEYS[i]| == 1;
    assert WIRE_KEYS[0][0] == 'a' && WIRE_KEYS[1][0] == 'b' && WIRE_KEYS[2][0] == 'p' && WIRE_KEYS[3][0] == 's';
    assert WIRE_KEYS[4][0] == 'r' && WIRE_KEYS[5][0] == 't' && WIRE_KEYS[6][0] == 'c';
    assert forall i, j :: 0 <= i < j < 7 ==> WIRE_KEYS[i][0] != WIRE_KEYS[j][0];
  }

  /** Every order wire carries the venue's keys in the venue's order. */
  lemma WireInVenueOrder(asset: int, isBuy: bool, px: string, size: string, reduceOnly: bool, tif: string,
      cloid: Option<string>)
    ensures var fs := Wire(asset, isBuy, px, size, reduceOnly, tif, cloid).fields;
      && |fs| == (if cloid.Some? then 7 else 6)
      && (forall i :: 0 <= i < |fs| ==> fs[i].key == WIRE_KEYS[i])
      && DistinctKeys(fs)
  {
    WireKeysDistinct();
  }

  lemma WireScalars(asset: int, isBuy: bool, px: string, size: string, reduceOnly: bool, tif: string,
      cloid: Option<string>)
    ensures var fs := Wire(asset, isBuy, px, size, reduceOnly, tif, cloid).fields;
      && Get(fs, "a") == Int(asset) && Get(fs, "b") == Bool(isBuy) && Get(fs, "p") == Str(px)
        && Get(fs, "s") == Str(size)
      && Get(fs, "r") == Bool(reduceOnly) && Get(fs, "t") == Obj([Field("limit", Obj([Field("tif", Str(tif))]))])
  {
    var fs := Wire(asset, isBuy, px, size, reduceOnly, tif, cloid).fields;
    WireInVenueOrder(asset, isBuy, px, size, reduceOnly, tif, cloid);
    GetAt(fs, 0);
    GetAt(fs, 1);
    GetAt(fs, 2);
    GetAt(fs, 3);
    GetAt(fs, 4);
    GetAt(fs, 5);
  }

  lemma WireCloid(asset: int, isBuy: bool, px: string, size: string, reduceOnly: bool, tif: string,
      cloid: Option<string>)
    ensures var fs := Wire(asset, isBuy, px, size, reduceOnly, tif, cloid).fields;
      Get(fs, "c") == (if cloid.Some? then Str(cloid.value) else Null)
  {
    var fs := Wire(asset, isBuy, px, size, reduceOnly, tif, cloid).fields;
    WireInVenueOrder(asset, isBuy, px, size, reduceOnly, tif, cloid);
    if cloid.Some? {
      GetAt(fs, 6);
    } else {
      WireKeysDistinct();
      assert WIRE_KEYS[6] == "c";
      GetMissing(fs, "c");
    }
  }

  lemma WireKeysAllowed(asset: int, isBuy: bool, px: string, size: string, reduceOnly: bool, tif: string,
      cloid: Option<string>)
    ensures Keys(Wire(asset, isBuy, px, size, reduceOnly, tif, cloid).fields) <= {"a", "b", "p", "s", "r", "t", "c"}
  {
    WireInVenueOrder(asset, isBuy, px, size, reduceOnly, tif, cloid);
  }

  /** A wire read back field by field is the same wire. */
  lemma WireReadsBack(asset: int, isBuy: bool, px: string, size: string, reduceOnly: bool, tif: string,
      cloid: Option<string>)
    ensures CanonicalOrderWire(Wire(asset, isBuy, px, size, reduceOnly, tif, cloid))
      == OrderWire(Int(asset), Bool(isBuy), Str(px), Str(size), Bool(reduceOnly), Str(tif),
                   if cloid.Some? then Str(cloid.value) else Null)
  {
    WireScalars(asset, isBuy, px, size, reduceOnly, tif, cloid);
    WireCloid(asset, isBuy, px, size, reduceOnly, tif, cloid);
    WireKeysAllowed(asset, isBuy, px, size, reduceOnly, tif, cloid);
    assert Tif(Wire(asset, isBuy, px, size, reduceOnly, tif, cloid).fields) == Ok(Str(tif));
  }

  // ----- What a wire carries

  /** What an order may be built from. */
  predicate Orderable(a: Json, b: Json, p: Json, s: Json, r: Json, t: Json, c: Json) {
    && a.Int? && a.i >= 0 && b.Bool? && r.Bool?
    && p.Str? && WireText(p.s) && s.Str? && WireText(s.s)
    && t in {Str("Gtc"), Str("Ioc"), Str("Alo")}
    && (c.Null? || (c.Str? && IsCloid(c.s)))
  }

  /** The wire says what was asked: each part under its own key, and a client id exactly when one is given. */
  predicate Carries(wire: Json, a: Json, b: Json, p: Json, s: Json, r: Json, t: Json, c: Json) {
    && wire.Obj?
    && Get(wire.fields, "a") == a && Get(wire.fields, "b") == b && Get(wire.fields, "p") == p
    && Get(wire.fields, "s") == s && Get(wire.fields, "r") == r && Get(wire.fields, "c") == c
    && Tif(wire.fields) == Ok(t)
    && Keys(wire.fields) == {"a", "b", "p", "s", "r", "t"} + (if c.Null? then {} else {"c"})
  }

  lemma WireKeys(asset: int, isBuy: bool, px: string, size: string, reduceOnly: bool, tif: string,
      cloid: Option<string>)
    ensures Keys(Wire(asset, isBuy, px, size, reduceOnly, tif, cloid).fields)
      == {"a", "b", "p", "s", "r", "t"} + (if cloid.Some? then {"c"} else {})
  {
    var fs := Wire(asset, isBuy, px, size, reduceOnly, tif, cloid).fields;
    assert fs[0].key == "a" && fs[1].key == "b" && fs[2].key == "p" && fs[3].key == "s" && fs[4].key == "r"
      && fs[5].key == "t";
    forall i | 0 <= i < |fs| ensures fs[i].key in Keys(fs) {
    }
    if cloid.Some? { assert fs[6].key == "c"; }
  }

  lemma WireCarries(asset: int, isBuy: bool, px: string, size: string, reduceOnly: bool, tif: string,
      cloid: Option<string>)
    ensures Carries(Wire(asset, isBuy, px, size, reduceOnly, tif, cloid), Int(asset), Bool(isBuy), Str(px), Str(size),
      Bool(reduceOnly), Str(tif), if cloid.Some? then Str(cloid.value) else Null)
  {
    WireKeys(asset, isBuy, px, size, reduceOnly, tif, cloid);
    WireScalars(asset, isBuy, px, size, reduceOnly, tif, cloid);
    WireCloid(asset, isBuy, px, size, reduceOnly, tif, cloid);
    WireTif(asset, isBuy, px, size, reduceOnly, tif, cloid);
  }

  lemma WireTif(asset: int, isBuy: bool, px: string, size: string, reduceOnly: bool, tif: string, cloid: Option<string>)
    ensures Tif(Wire(asset, isBuy, px, size, reduceOnly, tif, cloid).fields) == Ok(Str(tif))
  {
    WireScalars(asset, isBuy, px, size, reduceOnly, tif, cloid);
    hide Wire;
  }

  lemma PriceIsWireText(j: Json)
    ensures PriceText(j) <==> j.Str? && WireText(j.s)
  {
    if j.Str? { AcceptedExactly(j.s); }
  }

  lemma KnownTif(t: Json)
    ensures t.Str? && t.s in TIFS <==> t in {Str("Gtc"), Str("Ioc"), Str("Alo")}
  {
  }

  lemma OrderWireAsks(a: Json, b: Json, p: Json, s: Json, r: Json, t: Json, c: Json)
    ensures OrderWire(a, b, p, s, r, t, c).Ok? <==> Orderable(a, b, p, s, r, t, c)
    ensures Orderable(a, b, p, s, r, t, c) ==>
      OrderWire(a, b, p, s, r, t, c) == Ok(Wire(a.i, b.b, p.s, s.s, r.b, t.s, if c.Null? then None else Some(c.s)))
  {
    hide Wire, PriceText, WireText, IsCloid;
    PriceIsWireText(p);
    PriceIsWireText(s);
    KnownTif(t);
  }

  /** An order is built exactly from what it may be built from, and its wire says what was asked. */
  lemma OrderWireBuilt(a: Json, b: Json, p: Json, s: Json, r: Json, t: Json, c: Json)
    ensures OrderWire(a, b, p, s, r, t, c).Ok? <==> Orderable(a, b, p, s, r, t, c)
    ensures Orderable(a, b, p, s, r, t, c) ==> Carries(OrderWire(a, b, p, s, r, t, c).value, a, b, p, s, r, t, c)
  {
    OrderWireAsks(a, b, p, s, r, t, c);
    hide Wire, OrderWire, Carries, WireText, IsCloid;
    if Orderable(a, b, p, s, r, t, c) {
      WireCarries(a.i, b.b, p.s, s.s, r.b, t.s, if c.Null? then None else Some(c.s));
    }
  }

  /** The rebuilt wire says what the order said, under every key the venue has, and no other key was there. */
  predicate SaysTheSame(wire: Json, order: Json) {
    && order.Obj? && wire.Obj? && Keys(order.fields) <= {"a", "b", "p", "s", "r", "t", "c"}
    && (forall key :: key in {"a", "b", "p", "s", "r", "c"} ==> Get(wire.fields, key) == Get(order.fields, key))
    && Tif(wire.fields) == Tif(order.fields) && Tif(order.fields).Ok?
  }

  lemma CanonicalSaysTheSame(order: Json)
    requires CanonicalOrderWire(order).Ok?
    ensures SaysTheSame(CanonicalOrderWire(order).value, order)
  {
    var fs := order.fields;
    OrderWireBuilt(Get(fs, "a"), Get(fs, "b"), Get(fs, "p"), Get(fs, "s"), Get(fs, "r"), Tif(fs).value, Get(fs, "c"));
    hide OrderWire, Orderable, Tif;
  }

  lemma {:induction false} OrdersSayTheSame(orders: seq<Json>)
    requires CanonicalOrders(orders).Ok?
    ensures var ws := CanonicalOrders(orders).value;
      |ws| == |orders| && forall i :: 0 <= i < |ws| ==> SaysTheSame(ws[i], orders[i])
  {
    if orders != [] {
      hide SaysTheSame, CanonicalOrderWire;
      CanonicalSaysTheSame(orders[0]);
      OrdersSayTheSame(orders[1..]);
    }
  }

  /** The one entry under a key of the rebuilt action has the same values under these keys as the one that came in. */
  predicate SameUnder(out: seq<Field>, fs: seq<Field>, list: string, keys: set<string>) {
    && Single(Get(out, list), keys).Ok? && Single(Get(fs, list), keys).Ok?
    && forall key :: key in keys ==>
      Get(Single(Get(out, list), keys).value, key) == Get(Single(Get(fs, list), keys).value, key)
  }

  /** What a rebuilt action says of the action that came in. */
  predicate ActionSaysTheSame(out: Json, action: Json) {
    && out.Obj? && action.Obj? && Get(out.fields, "type") == Get(action.fields, "type")
    && var kind, orders, ws := Get(action.fields, "type"), Get(action.fields, "orders"), Get(out.fields, "orders");
    if kind == Str("order") then
      && Get(out.fields, "grouping") == Str("na") && orders.List? && ws.List? && |ws.items| == |orders.items| > 0
      && forall i :: 0 <= i < |ws.items| ==> SaysTheSame(ws.items[i], orders.items[i])
    else if kind == Str("cancel") then SameUnder(out.fields, action.fields, "cancels", {"a", "o"})
    else if kind == Str("cancelByCloid") then SameUnder(out.fields, action.fields, "cancels", {"asset", "cloid"})
    else kind == Str("batchModify") && ModifySaysTheSame(out.fields, action.fields)
  }

  predicate ModifySaysTheSame(out: seq<Field>, fs: seq<Field>) {
    && Single(Get(out, "modifies"), {"oid", "order"}).Ok? && Single(Get(fs, "modifies"), {"oid", "order"}).Ok?
    && var m, n := Single(Get(out, "modifies"), {"oid", "order"}).value,
      Single(Get(fs, "modifies"), {"oid", "order"}).value;
    Get(m, "oid") == Get(n, "oid") && SaysTheSame(Get(m, "order"), Get(n, "order"))
  }

  lemma OneEntry(kind: string, list: string, k: string, x: Json, l: string, y: Json)
    requires k != l && list != "type"
    ensures var out := [Field("type", Str(kind)), Field(list, List([Obj([Field(k, x), Field(l, y)])]))];
      && Get(out, "type") == Str(kind) && Single(Get(out, list), {k, l}) == Ok([Field(k, x), Field(l, y)])
      && Get([Field(k, x), Field(l, y)], k) == x && Get([Field(k, x), Field(l, y)], l) == y
  {
    TwoFields(k, x, l, y);
    TwoFields("type", Str(kind), list, List([Obj([Field(k, x), Field(l, y)])]));
  }

  lemma ReadsThree(ws: seq<Json>)
    ensures var fs := [Field("type", Str("order")), Field("orders", List(ws)), Field("grouping", Str("na"))];
      Get(fs, "type") == Str("order") && Get(fs, "orders") == List(ws) && Get(fs, "grouping") == Str("na")
  {
    var fs := [Field("type", Str("order")), Field("orders", List(ws)), Field("grouping", Str("na"))];
    assert |fs[0].key| == 4 && |fs[1].key| == 6 && |fs[2].key| == 8;
    assert DistinctKeys(fs);
    GetAt(fs, 0);
    GetAt(fs, 1);
    GetAt(fs, 2);
  }

  lemma OrderActionSays(action: Json)
    requires CanonicalAction(action).Ok? && action.Obj? && Get(action.fields, "type") == Str("order")
    ensures ActionSaysTheSame(CanonicalAction(action).value, action)
  {
    hide CanonicalOrders, SaysTheSame;
    var orders := Get(action.fields, "orders").items;
    OrdersSayTheSame(orders);
    ReadsThree(CanonicalOrders(orders).value);
    assert CanonicalOrders([]) == Ok([]) by { NoOrders(); }
  }

  lemma NoOrders()
    ensures CanonicalOrders([]) == Ok([])
  {
  }

  lemma ModifyActionSays(action: Json)
    requires CanonicalAction(action).Ok? && action.Obj? && Get(action.fields, "type") == Str("batchModify")
    ensures ActionSaysTheSame(CanonicalAction(action).value, action)
  {
    var m := Single(Get(action.fields, "modifies"), {"oid", "order"}).value;
    CanonicalSaysTheSame(Get(m, "order"));
    hide CanonicalOrderWire, SaysTheSame;
    OneEntry("batchModify", "modifies", "oid", Get(m, "oid"), "order", CanonicalOrderWire(Get(m, "order")).value);
  }

  /** An order that can be rebuilt. */
  predicate OrderAcceptable(order: Json) {
    && order.Obj? && Keys(order.fields) <= {"a", "b", "p", "s", "r", "t", "c"} && Tif(order.fields).Ok?
    && var fs := order.fields;
    Orderable(Get(fs, "a"), Get(fs, "b"), Get(fs, "p"), Get(fs, "s"), Get(fs, "r"), Tif(fs).value, Get(fs, "c"))
  }

  /** An id the venue gives to orders. */
  predicate OrderId(j: Json) { j.Int? && j.i >= 1 }

  /** An action that can be rebuilt. */
  predicate Acceptable(action: Json) {
    && action.Obj?
    && var kind, fs := Get(action.fields, "type"), action.fields;
    if kind == Str("order") then
      && Get(fs, "orders").List? && Get(fs, "orders").items != []
      && forall i :: 0 <= i < |Get(fs, "orders").items| ==> OrderAcceptable(Get(fs, "orders").items[i])
    else if kind == Str("cancel") then
      var c := Single(Get(fs, "cancels"), {"a", "o"}); c.Ok? && OrderId(Get(c.value, "o"))
    else if kind == Str("cancelByCloid") then
      var c := Single(Get(fs, "cancels"), {"asset", "cloid"});
      c.Ok? && Get(c.value, "cloid").Str? && IsCloid(Get(c.value, "cloid").s)
    else
      && kind == Str("batchModify")
      && var m := Single(Get(fs, "modifies"), {"oid", "order"});
      m.Ok? && OrderId(Get(m.value, "oid")) && OrderAcceptable(Get(m.value, "order"))
  }

  lemma OrderRebuilt(order: Json)
    ensures CanonicalOrderWire(order).Ok? <==> OrderAcceptable(order)
  {
    if order.Obj? && Tif(order.fields).Ok? {
      var fs := order.fields;
      OrderWireBuilt(Get(fs, "a"), Get(fs, "b"), Get(fs, "p"), Get(fs, "s"), Get(fs, "r"), Tif(fs).value, Get(fs, "c"));
    }
    hide OrderWire, Orderable, Tif;
  }

  lemma AllAcceptable(orders: seq<Json>)
    requires orders != []
    ensures (forall i :: 0 <= i < |orders| ==> OrderAcceptable(orders[i]))
      <==> OrderAcceptable(orders[0]) && forall i :: 0 <= i < |orders[1..]| ==> OrderAcceptable(orders[1..][i])
  {
    hide OrderAcceptable;
    assert forall i :: 1 <= i < |orders| ==> orders[i] == orders[1..][i - 1];
  }

  lemma {:induction false} OrdersRebuilt(orders: seq<Json>)
    ensures CanonicalOrders(orders).Ok? <==> forall i :: 0 <= i < |orders| ==> OrderAcceptable(orders[i])
  {
    if orders != [] {
      hide OrderAcceptable, CanonicalOrderWire;
      OrderRebuilt(orders[0]);
      OrdersRebuilt(orders[1..]);
      AllAcceptable(orders);
    }
  }

  /** An action is rebuilt exactly when it is one of the four kinds, made of what such an action may be made of. */
  lemma RebuiltExactly(action: Json)
    ensures CanonicalAction(action).Ok? <==> Acceptable(action)
  {
    hide CanonicalOrders, CanonicalOrderWire, OrderAcceptable;
    NoOrders();
    if action.Obj? {
      var fs := action.fields;
      if Get(fs, "orders").List? { OrdersRebuilt(Get(fs, "orders").items); }
      var m := Single(Get(fs, "modifies"), {"oid", "order"});
      if m.Ok? { OrderRebuilt(Get(m.value, "order")); }
    }
  }

  /** A rebuilt action asks for what the action asked for: the same orders, the same ids, the same assets. */
  lemma RebuiltSaysTheSame(action: Json)
    requires CanonicalAction(action).Ok?
    ensures ActionSaysTheSame(CanonicalAction(action).value, action)
  {
    var fs := action.fields;
    var kind := Get(fs, "type");
    if kind == Str("order") {
      OrderActionSays(action);
    } else if kind == Str("batchModify") {
      ModifyActionSays(action);
    } else if kind == Str("cancel") {
      var c := Single(Get(fs, "cancels"), {"a", "o"}).value;
      OneEntry("cancel", "cancels", "a", Get(c, "a"), "o", Get(c, "o"));
    } else {
      var c := Single(Get(fs, "cancels"), {"asset", "cloid"}).value;
      OneEntry("cancelByCloid", "cancels", "asset", Get(c, "asset"), "cloid", Get(c, "cloid"));
    }
  }

  // ----- Rebuilding what was built

  lemma OrderWireFixed(order: Json)
    requires CanonicalOrderWire(order).Ok?
    ensures CanonicalOrderWire(CanonicalOrderWire(order).value) == CanonicalOrderWire(order)
  {
    var fs := order.fields;
    var cloid := Get(fs, "c");
    WireReadsBack(Get(fs, "a").i, Get(fs, "b").b, Get(fs, "p").s, Get(fs, "s").s, Get(fs, "r").b, Tif(fs).value.s,
                  if cloid.Null? then None else Some(cloid.s));
  }

  lemma {:induction false} OrdersFixed(orders: seq<Json>)
    requires CanonicalOrders(orders).Ok?
    ensures CanonicalOrders(CanonicalOrders(orders).value) == CanonicalOrders(orders)
    ensures |CanonicalOrders(orders).value| == |orders|
  {
    if orders != [] {
      OrderWireFixed(orders[0]);
      OrdersFixed(orders[1..]);
      var ws := CanonicalOrders(orders).value;
      assert ws[1..] == CanonicalOrders(orders[1..]).value;
    }
  }

  lemma ReadsOrders(ws: seq<Json>)
    requires ws != []
    ensures var action := Obj([Field("type", Str("order")), Field("orders", List(ws)), Field("grouping", Str("na"))]);
      CanonicalAction(action) == OrderAction(ws)
  {
    var fs := [Field("type", Str("order")), Field("orders", List(ws)), Field("grouping", Str("na"))];
    assert |fs[0].key| == 4 && |fs[1].key| == 6 && |fs[2].key| == 8;
    assert DistinctKeys(fs);
    GetAt(fs, 0);
    GetAt(fs, 1);
  }

  lemma OrderActionFixed(orders: seq<Json>)
    requires OrderAction(orders).Ok?
    ensures CanonicalAction(OrderAction(orders).value) == OrderAction(orders)
  {
    OrdersFixed(orders);
    ReadsOrders(CanonicalOrders(orders).value);
  }

  lemma CancelFixed(asset: Json, oid: Json)
    requires CancelAction(asset, oid).Ok?
    ensures CanonicalAction(CancelAction(asset, oid).value) == CancelAction(asset, oid)
  {
    TwoFields("a", asset, "o", oid);
    TwoFields("type", Str("cancel"), "cancels", List([Obj([Field("a", asset), Field("o", oid)])]));
  }

  lemma CancelByCloidFixed(asset: Json, cloid: Json)
    requires CancelByCloidAction(asset, cloid).Ok?
    ensures CanonicalAction(CancelByCloidAction(asset, cloid).value) == CancelByCloidAction(asset, cloid)
  {
    TwoFields("asset", asset, "cloid", cloid);
    TwoFields("type", Str("cancelByCloid"), "cancels", List([Obj([Field("asset", asset), Field("cloid", cloid)])]));
  }

  lemma ReadsModify(oid: Json, order: Json)
    ensures var action := Obj([Field("type", Str("batchModify")),
      Field("modifies", List([Obj([Field("oid", oid), Field("order", order)])]))]);
      CanonicalAction(action) == ModifyAction(oid, order)
  {
    TwoFields("oid", oid, "order", order);
    TwoFields("type", Str("batchModify"), "modifies", List([Obj([Field("oid", oid), Field("order", order)])]));
  }

  lemma ModifyFixed(oid: Json, order: Json)
    requires ModifyAction(oid, order).Ok?
    ensures CanonicalAction(ModifyAction(oid, order).value) == ModifyAction(oid, order)
  {
    OrderWireFixed(order);
    ReadsModify(oid, CanonicalOrderWire(order).value);
  }

  /** Rebuilding an action that was rebuilt changes nothing, not even the order of its keys. */
  lemma CanonicalActionFixed(action: Json)
    requires CanonicalAction(action).Ok?
    ensures CanonicalAction(CanonicalAction(action).value) == CanonicalAction(action)
  {
    var fs := action.fields;
    var kind := Get(fs, "type");
    if kind == Str("order") {
      OrderActionFixed(Get(fs, "orders").items);
    } else if kind == Str("cancel") {
      var c := Single(Get(fs, "cancels"), {"a", "o"}).value;
      CancelFixed(Get(c, "a"), Get(c, "o"));
    } else if kind == Str("cancelByCloid") {
      var c := Single(Get(fs, "cancels"), {"asset", "cloid"}).value;
      CancelByCloidFixed(Get(c, "asset"), Get(c, "cloid"));
    } else {
      var m := Single(Get(fs, "modifies"), {"oid", "order"}).value;
      ModifyFixed(Get(m, "oid"), Get(m, "order"));
    }
  }

  // ----- Storage may reorder keys

  /** The same JSON, up to the order of the keys of every object in it. */
  predicate Same(a: Json, b: Json)
    decreases a
  {
    match a
    case Obj(fs) =>
      && b.Obj? && DistinctKeys(fs) && DistinctKeys(b.fields) && Keys(fs) == Keys(b.fields)
      && forall i :: 0 <= i < |fs| ==> Same(fs[i].value, Get(b.fields, fs[i].key))
    case List(items) =>
      b.List? && |items| == |b.items| && forall i :: 0 <= i < |items| ==> Same(items[i], b.items[i])
    case _ => a == b
  }

  lemma GetSame(a: Json, b: Json, key: string)
    requires a.Obj? && Same(a, b)
    ensures Same(Get(a.fields, key), Get(b.fields, key))
  {
    if key in Keys(a.fields) {
      var i :| 0 <= i < |a.fields| && a.fields[i].key == key;
      GetAt(a.fields, i);
    } else {
      GetMissing(a.fields, key);
      GetMissing(b.fields, key);
    }
  }

  lemma SameTruth(a: Json, b: Json)
    requires Same(a, b)
    ensures Truthy(a) == Truthy(b)
  {
    if a.Obj? {
      if a.fields != [] { assert a.fields[0].key in Keys(b.fields); }
      if b.fields != [] { assert b.fields[0].key in Keys(a.fields); }
    }
  }

  lemma InsideSame(a: Json, b: Json, key: string)
    requires Same(a, b)
    ensures Inside(a, key).Err? ==> Inside(b, key) == Inside(a, key)
    ensures Inside(a, key).Ok? ==> Inside(b, key).Ok? && Same(Inside(a, key).value, Inside(b, key).value)
  {
    SameTruth(a, b);
    if Truthy(a) && a.Obj? { GetSame(a, b, key); }
  }

  predicate Scalar(j: Json) { !j.Obj? && !j.List? }

  /** Equal, or two objects, or two lists. */
  predicate Alike(a: Json, b: Json) {
    a.Obj? == b.Obj? && a.List? == b.List? && (Scalar(a) ==> a == b)
  }

  lemma FieldAlike(a: Json, b: Json, key: string)
    requires a.Obj? && Same(a, b)
    ensures Alike(Get(a.fields, key), Get(b.fields, key))
  {
    GetSame(a, b, key);
  }

  lemma TifAlike(a: Json, b: Json)
    requires a.Obj? && Same(a, b)
    ensures Tif(a.fields).Err? ==> Tif(b.fields) == Tif(a.fields)
    ensures Tif(a.fields).Ok? ==> Tif(b.fields).Ok? && Alike(Tif(a.fields).value, Tif(b.fields).value)
  {
    GetSame(a, b, "t");
    var x, y := Get(a.fields, "t"), Get(b.fields, "t");
    InsideSame(x, y, "limit");
    if Inside(x, "limit").Ok? { InsideSame(Inside(x, "limit").value, Inside(y, "limit").value, "tif"); }
  }

  lemma WireAlike(a: Json, b: Json, p: Json, s: Json, r: Json, t: Json, c: Json,
                  a': Json, b': Json, p': Json, s': Json, r': Json, t': Json, c': Json)
    requires Alike(a, a') && Alike(b, b') && Alike(p, p') && Alike(s, s') && Alike(r, r') && Alike(t, t')
      && Alike(c, c')
    ensures OrderWire(a, b, p, s, r, t, c) == OrderWire(a', b', p', s', r', t', c')
  {
  }

  /** An order wire is all scalars, so its text does not depend on any key order in what it came from. */
  lemma OrderWireSame(a: Json, b: Json)
    requires Same(a, b)
    ensures CanonicalOrderWire(a) == CanonicalOrderWire(b)
  {
    if a.Obj? {
      var f, g := a.fields, b.fields;
      FieldAlike(a, b, "a");
      FieldAlike(a, b, "b");
      FieldAlike(a, b, "p");
      FieldAlike(a, b, "s");
      FieldAlike(a, b, "r");
      FieldAlike(a, b, "c");
      TifAlike(a, b);
      if Tif(f).Ok? {
        WireAlike(Get(f, "a"), Get(f, "b"), Get(f, "p"), Get(f, "s"), Get(f, "r"), Tif(f).value, Get(f, "c"),
                  Get(g, "a"), Get(g, "b"), Get(g, "p"), Get(g, "s"), Get(g, "r"), Tif(g).value, Get(g, "c"));
      }
    }
  }

  lemma {:induction false} OrdersSame(a: seq<Json>, b: seq<Json>)
    requires |a| == |b| && forall i :: 0 <= i < |a| ==> Same(a[i], b[i])
    ensures CanonicalOrders(a) == CanonicalOrders(b)
  {
    if a != [] {
      OrderWireSame(a[0], b[0]);
      OrdersSame(a[1..], b[1..]);
    }
  }

  lemma SingleSame(a: Json, b: Json, keys: set<string>)
    requires Same(a, b)
    ensures Single(a, keys).Err? ==> Single(b, keys) == Single(a, keys)
    ensures Single(a, keys).Ok? ==> Single(b, keys).Ok? && Same(Obj(Single(a, keys).value), Obj(Single(b, keys).value))
  {
    if a.List? && |a.items| == 1 { assert Same(a.items[0], b.items[0]); }
  }

  /** A one-entry list with these keys, on both sides or on neither, with the same fields. */
  ghost predicate SameEntry(x: Json, y: Json, keys: set<string>) {
    && (Single(x, keys).Err? ==> Single(y, keys) == Single(x, keys))
    && (Single(x, keys).Ok? ==> (Single(y, keys).Ok?
          && forall key :: Same(Get(Single(x, keys).value, key), Get(Single(y, keys).value, key))))
  }

  lemma EntrySame(x: Json, y: Json, keys: set<string>)
    requires Same(x, y)
    ensures SameEntry(x, y, keys)
  {
    SingleSame(x, y, keys);
    if Single(x, keys).Ok? {
      forall key ensures Same(Get(Single(x, keys).value, key), Get(Single(y, keys).value, key)) {
        GetSame(Obj(Single(x, keys).value), Obj(Single(y, keys).value), key);
      }
    }
  }

  /** What an accepted action carries unread: the asset of a cancel. */
  function PassedOn(action: Json): Json {
    if !action.Obj? then Null
    else
      var kind, cancels := Get(action.fields, "type"), Get(action.fields, "cancels");
      if kind == Str("cancel") && Single(cancels, {"a", "o"}).Ok? then Get(Single(cancels, {"a", "o"}).value, "a")
      else if kind == Str("cancelByCloid") && Single(cancels, {"asset", "cloid"}).Ok? then
        Get(Single(cancels, {"asset", "cloid"}).value, "asset")
      else Null
  }

  lemma OrdersKindSame(a: Json, b: Json)
    requires a.Obj? && Same(a, b) && Get(a.fields, "type") == Str("order")
    ensures CanonicalAction(a) == CanonicalAction(b)
  {
    GetSame(a, b, "type");
    GetSame(a, b, "orders");
    var x, y := Get(a.fields, "orders"), Get(b.fields, "orders");
    SameTruth(x, y);
    if x.List? { OrdersSame(x.items, y.items); }
  }

  lemma CancelCarriesAsset(x: Json, y: Json, oid: Json)
    ensures CancelAction(x, oid) == CancelAction(y, oid) <==> CancelAction(x, oid).Err? || x == y
  {
    if CancelAction(x, oid).Ok? && x != y {
      var cx, cy := Obj([Field("a", x), Field("o", oid)]), Obj([Field("a", y), Field("o", oid)]);
      assert cx.fields[0] != cy.fields[0];
      assert List([cx]).items[0] != List([cy]).items[0];
      assert CancelAction(x, oid).value.fields[1] != CancelAction(y, oid).value.fields[1];
    }
  }

  lemma CloidCarriesAsset(x: Json, y: Json, cloid: Json)
    ensures CancelByCloidAction(x, cloid) == CancelByCloidAction(y, cloid) <==>
      CancelByCloidAction(x, cloid).Err? || x == y
  {
    if CancelByCloidAction(x, cloid).Ok? && x != y {
      var cx, cy := Obj([Field("asset", x), Field("cloid", cloid)]), Obj([Field("asset", y), Field("cloid", cloid)]);
      assert cx.fields[0] != cy.fields[0];
      assert List([cx]).items[0] != List([cy]).items[0];
      assert CancelByCloidAction(x, cloid).value.fields[1] != CancelByCloidAction(y, cloid).value.fields[1];
    }
  }

  lemma OidAlike(x: Json, y: Json, oid: Json, oid': Json)
    requires Same(oid, oid')
    ensures CancelAction(x, oid).Err? ==> CancelAction(y, oid') == CancelAction(x, oid)
    ensures CancelAction(x, oid).Ok? ==> oid == oid'
  {
  }

  lemma CloidAlike(x: Json, y: Json, cloid: Json, cloid': Json)
    requires Same(cloid, cloid')
    ensures CancelByCloidAction(x, cloid).Err? ==> CancelByCloidAction(y, cloid') == CancelByCloidAction(x, cloid)
    ensures CancelByCloidAction(x, cloid).Ok? ==> cloid == cloid'
  {
    SameTruth(cloid, cloid');
  }

  lemma CancelKindSame(a: Json, b: Json)
    requires a.Obj? && Same(a, b) && Get(a.fields, "type") == Str("cancel")
    ensures CanonicalAction(a) == CanonicalAction(b) <==> CanonicalAction(a).Err? || PassedOn(a) == PassedOn(b)
  {
    GetSame(a, b, "type");
    GetSame(a, b, "cancels");
    var x, y := Get(a.fields, "cancels"), Get(b.fields, "cancels");
    EntrySame(x, y, {"a", "o"});
    if Single(x, {"a", "o"}).Ok? {
      var c, d := Single(x, {"a", "o"}).value, Single(y, {"a", "o"}).value;
      OidAlike(Get(c, "a"), Get(d, "a"), Get(c, "o"), Get(d, "o"));
      CancelCarriesAsset(Get(c, "a"), Get(d, "a"), Get(c, "o"));
    }
  }

  lemma CloidKindSame(a: Json, b: Json)
    requires a.Obj? && Same(a, b) && Get(a.fields, "type") == Str("cancelByCloid")
    ensures CanonicalAction(a) == CanonicalAction(b) <==> CanonicalAction(a).Err? || PassedOn(a) == PassedOn(b)
  {
    GetSame(a, b, "type");
    GetSame(a, b, "cancels");
    var x, y := Get(a.fields, "cancels"), Get(b.fields, "cancels");
    EntrySame(x, y, {"asset", "cloid"});
    if Single(x, {"asset", "cloid"}).Ok? {
      var c, d := Single(x, {"asset", "cloid"}).value, Single(y, {"asset", "cloid"}).value;
      CloidAlike(Get(c, "asset"), Get(d, "asset"), Get(c, "cloid"), Get(d, "cloid"));
      CloidCarriesAsset(Get(c, "asset"), Get(d, "asset"), Get(c, "cloid"));
    }
  }

  lemma ModifyKindSame(a: Json, b: Json)
    requires a.Obj? && Same(a, b) && Get(a.fields, "type") == Str("batchModify")
    ensures CanonicalAction(a) == CanonicalAction(b)
  {
    GetSame(a, b, "type");
    GetSame(a, b, "modifies");
    var x, y := Get(a.fields, "modifies"), Get(b.fields, "modifies");
    EntrySame(x, y, {"oid", "order"});
    if Single(x, {"oid", "order"}).Ok? {
      OrderWireSame(Get(Single(x, {"oid", "order"}).value, "order"), Get(Single(y, {"oid", "order"}).value, "order"));
    }
  }

  /**
   However storage reordered an action's keys, at any depth: both are refused alike, or the rebuilt actions
   are the same one exactly when what they carry unread, the asset of a cancel, is the same.
   */
  lemma KeyOrderDoesNotMatter(a: Json, b: Json)
    requires Same(a, b)
    ensures CanonicalAction(a) == CanonicalAction(b) <==> CanonicalAction(a).Err? || PassedOn(a) == PassedOn(b)
  {
    if a.Obj? {
      var kind := Get(a.fields, "type");
      FieldAlike(a, b, "type");
      if kind == Str("order") { OrdersKindSame(a, b); }
      else if kind == Str("cancel") { CancelKindSame(a, b); }
      else if kind == Str("cancelByCloid") { CloidKindSame(a, b); }
      else if kind == Str("batchModify") { ModifyKindSame(a, b); }
    }
  }

  // ----- What has only one key order

  /** No object names a key twice, as no mapping can. */
  predicate Proper(j: Json) {
    match j
    case Obj(fs) => DistinctKeys(fs) && forall i :: 0 <= i < |fs| ==> Proper(fs[i].value)
    case List(items) => forall i :: 0 <= i < |items| ==> Proper(items[i])
    case _ => true
  }

  /** No object has two keys, at any depth. */
  predicate OneOrder(j: Json) {
    match j
    case Obj(fs) => |fs| <= 1 && forall i :: 0 <= i < |fs| ==> OneOrder(fs[i].value)
    case List(items) => forall i :: 0 <= i < |items| ==> OneOrder(items[i])
    case _ => true
  }

  lemma {:induction false} SameItself(j: Json)
    requires Proper(j)
    ensures Same(j, j)
  {
    match j
    case Obj(fs) =>
      forall i | 0 <= i < |fs| ensures Same(fs[i].value, Get(fs, fs[i].key)) {
        GetAt(fs, i);
        SameItself(fs[i].value);
      }
    case List(items) =>
      forall i | 0 <= i < |items| ensures Same(items[i], items[i]) {
        SameItself(items[i]);
      }
    case _ =>
  }

  /** Without two keys in one object there is nothing to reorder. */
  lemma {:induction false} SameIsEqual(a: Json, b: Json)
    requires Same(a, b) && OneOrder(a)
    ensures a == b
    decreases a
  {
    match a
    case Obj(fs) =>
      SameLength(fs, b.fields);
      if fs != [] {
        assert fs[0].key in Keys(fs);
        assert b.fields[0].key == fs[0].key;
        SameIsEqual(fs[0].value, Get(b.fields, fs[0].key));
        assert fs[0] == b.fields[0];
      }
    case List(items) =>
      forall i | 0 <= i < |items| ensures items[i] == b.items[i] {
        SameIsEqual(items[i], b.items[i]);
      }
    case _ =>
  }

  lemma KeyIn(fs: seq<Field>, i: nat, keys: set<string>)
    requires i < |fs| && Keys(fs) == keys
    ensures fs[i].key in keys
  {
  }

  lemma SomeKey(fs: seq<Field>, key: string)
    requires key in Keys(fs)
    ensures fs != []
  {
  }

  lemma KeyOfOne(fs: seq<Field>, key: string)
    requires |fs| <= 1 && key in Keys(fs)
    ensures fs != [] && key == fs[0].key
  {
  }

  lemma NoKeys(gs: seq<Field>)
    ensures gs != [] ==> Keys(gs) != {}
  {
    if gs != [] { assert gs[0].key in Keys(gs); }
  }

  lemma TwoKeysDiffer(gs: seq<Field>)
    requires DistinctKeys(gs)
    ensures |gs| >= 2 ==> gs[0].key != gs[1].key
  {
  }

  /** At most one key has one place. */
  lemma SameLength(fs: seq<Field>, gs: seq<Field>)
    requires |fs| <= 1 && DistinctKeys(gs) && Keys(fs) == Keys(gs)
    ensures |fs| == |gs|
  {
    TwoKeysDiffer(gs);
    forall i | 0 <= i < |gs| ensures fs != [] && gs[i].key == fs[0].key {
      KeyIn(gs, i, Keys(fs));
      KeyOfOne(fs, gs[i].key);
    }
    if fs != [] {
      KeyIn(fs, 0, Keys(gs));
      SomeKey(gs, fs[0].key);
    } else {
      NoKeys(gs);
    }
  }

  /** The same object with one value written another way. */
  lemma FieldReplaced(fs: seq<Field>, i: nat, v: Json)
    requires i < |fs| && Proper(Obj(fs)) && Same(fs[i].value, v)
    ensures var gs := fs[i := Field(fs[i].key, v)];
      Same(Obj(fs), Obj(gs)) && forall key :: Get(gs, key) == if key == fs[i].key then v else Get(fs, key)
  {
    var gs := fs[i := Field(fs[i].key, v)];
    assert forall j :: 0 <= j < |fs| ==> gs[j].key == fs[j].key;
    SameKeys(fs, gs);
    forall j | 0 <= j < |fs| ensures Same(fs[j].value, Get(gs, fs[j].key)) {
      GetAt(gs, j);
      if j != i { SameItself(fs[j].value); }
    }
    forall key ensures Get(gs, key) == if key == fs[i].key then v else Get(fs, key) {
      if key in Keys(fs) {
        var j :| 0 <= j < |fs| && fs[j].key == key;
        GetAt(fs, j);
        GetAt(gs, j);
      } else {
        GetMissing(fs, key);
        GetMissing(gs, key);
      }
    }
  }

  lemma SameKeys(fs: seq<Field>, gs: seq<Field>)
    requires |fs| == |gs| && forall j :: 0 <= j < |fs| ==> gs[j].key == fs[j].key
    ensures Keys(fs) == Keys(gs)
  {
    forall key ensures key in Keys(fs) <==> key in Keys(gs) {
      if key in Keys(fs) {
        var j :| 0 <= j < |fs| && fs[j].key == key;
        assert gs[j].key == key;
      }
      if key in Keys(gs) {
        var j :| 0 <= j < |gs| && gs[j].key == key;
        assert fs[j].key == key;
      }
    }
  }

  lemma SwappedKeys(fs: seq<Field>, gs: seq<Field>)
    requires |fs| >= 2 && gs == [fs[1], fs[0]] + fs[2..]
    ensures Keys(fs) == Keys(gs)
  {
    assert forall i :: 2 <= i < |fs| ==> gs[i] == fs[i];
    forall key ensures key in Keys(fs) <==> key in Keys(gs) {
      if key in Keys(fs) {
        var i :| 0 <= i < |fs| && fs[i].key == key;
        assert gs[if i < 2 then 1 - i else i].key == key;
      }
      if key in Keys(gs) {
        var i :| 0 <= i < |gs| && gs[i].key == key;
        assert fs[if i < 2 then 1 - i else i].key == key;
      }
    }
  }

  /** Two keys of an object can change places. */
  lemma Swapped(fs: seq<Field>)
    requires |fs| >= 2 && Proper(Obj(fs))
    ensures var gs := [fs[1], fs[0]] + fs[2..]; Same(Obj(fs), Obj(gs)) && gs != fs
  {
    var gs := [fs[1], fs[0]] + fs[2..];
    assert gs[0] != fs[0];
    assert forall i :: 2 <= i < |fs| ==> gs[i] == fs[i];
    SwappedKeys(fs, gs);
    forall i | 0 <= i < |fs| ensures Same(fs[i].value, Get(gs, fs[i].key)) {
      GetAt(gs, if i < 2 then 1 - i else i);
      SameItself(fs[i].value);
    }
  }

  /** What holds an object with two keys can be written in another order. */
  lemma {:induction false} Reordered(j: Json) returns (k: Json)
    requires Proper(j) && !OneOrder(j)
    ensures Same(j, k) && k != j
  {
    match j
    case Obj(fs) =>
      if |fs| >= 2 {
        Swapped(fs);
        k := Obj([fs[1], fs[0]] + fs[2..]);
      } else {
        var v := Reordered(fs[0].value);
        FieldReplaced(fs, 0, v);
        k := Obj(fs[0 := Field(fs[0].key, v)]);
        assert k.fields[0] != fs[0];
      }
    case List(items) =>
      var i :| 0 <= i < |items| && !OneOrder(items[i]);
      var v := Reordered(items[i]);
      k := List(items[i := v]);
      forall l | 0 <= l < |items| ensures Same(items[l], k.items[l]) {
        if l != i { SameItself(items[l]); }
      }
      assert k.items[i] != items[i];
  }

  lemma Holds(fs: seq<Field>, key: string) returns (i: nat)
    requires DistinctKeys(fs) && Get(fs, key) != Null
    ensures i < |fs| && fs[i].key == key && fs[i].value == Get(fs, key)
  {
    if key !in Keys(fs) { GetMissing(fs, key); }
    i :| 0 <= i < |fs| && fs[i].key == key;
    GetAt(fs, i);
  }

  /** A one-entry list with one value of its entry written another way. */
  lemma EntryReordered(cancels: Json, keys: set<string>, key: string) returns (other: Json)
    requires Proper(cancels) && Single(cancels, keys).Ok? && !OneOrder(Get(Single(cancels, keys).value, key))
    ensures Same(cancels, other) && Single(other, keys).Ok?
      && Get(Single(other, keys).value, key) != Get(Single(cancels, keys).value, key)
  {
    var fs := cancels.items[0].fields;
    assert Proper(cancels.items[0]);
    var i := Holds(fs, key);
    var v := Reordered(fs[i].value);
    FieldReplaced(fs, i, v);
    other := List([Obj(fs[i := Field(fs[i].key, v)])]);
  }

  /** An action that carries an object with two keys unread can be reordered into one that carries another. */
  lemma ActionReordered(a: Json) returns (b: Json)
    requires Proper(a) && !OneOrder(PassedOn(a))
    ensures Same(a, b) && PassedOn(a) != PassedOn(b)
  {
    var fs := a.fields;
    var i := Holds(fs, "cancels");
    var cancels := fs[i].value;
    var other;
    if Get(fs, "type") == Str("cancel") {
      other := EntryReordered(cancels, {"a", "o"}, "a");
    } else {
      other := EntryReordered(cancels, {"asset", "cloid"}, "asset");
    }
    FieldReplaced(fs, i, other);
    b := Obj(fs[i := Field(fs[i].key, other)]);
  }

  /**
   A rebuilt action is the same however storage ordered the keys exactly when it is refused or carries no
   object with two keys unread; orders and modifies carry nothing unread.
   */
  lemma KeyOrderExactly(a: Json)
    requires Proper(a)
    ensures (forall b :: Same(a, b) ==> CanonicalAction(a) == CanonicalAction(b))
      <==> (CanonicalAction(a).Err? || OneOrder(PassedOn(a)))
  {
    hide CanonicalAction, PassedOn, OneOrder, Proper;
    if OneOrder(PassedOn(a)) || CanonicalAction(a).Err? {
      forall b | Same(a, b) ensures CanonicalAction(a) == CanonicalAction(b) {
        KeyOrderDoesNotMatter(a, b);
        if OneOrder(PassedOn(a)) {
          PassedOnSame(a, b);
          SameIsEqual(PassedOn(a), PassedOn(b));
        }
      }
    } else {
      var b := ActionReordered(a);
      KeyOrderDoesNotMatter(a, b);
    }
  }

  lemma PassedOnSame(a: Json, b: Json)
    requires Same(a, b)
    ensures Same(PassedOn(a), PassedOn(b))
  {
    if a.Obj? {
      FieldAlike(a, b, "type");
      GetSame(a, b, "cancels");
      var x, y := Get(a.fields, "cancels"), Get(b.fields, "cancels");
      EntrySame(x, y, {"a", "o"});
      EntrySame(x, y, {"asset", "cloid"});
    }
  }
}
