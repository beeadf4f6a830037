/*
  The decision logic of the REST server (server/index.js): the
  `removeMenuItems` projection, the order tally, and the route handlers for
  listing, reading, creating, replacing and deleting restaurants, plus the
  start-up load, all over the abstract store of module Storage. A handler's
  reply is a status code and a payload; the HTTP framework, logging, the
  monitoring agent, the clock and the file system are outside the model.
*/
module Server {
  import opened Js
  import opened Model
  import opened Storage

  /** A reply's JSON payload. */
  datatype Body =
    | Record(props: map<string, Value>)
    | Records(list: seq<map<string, Value>>)
    | Errors(errors: seq<string>)
    | ErrorText(text: string)
    | NoBody
    | OrderId(id: int)

  datatype Response = Response(status: int, body: Body)

  // ---------------------------------------------------------------------
  // removeMenuItems

  /** The object without its `menuItems` property. */
  function WithoutMenuItems(obj: map<string, Value>): map<string, Value> {
    map k | k in obj.Keys - {"menuItems"} :: obj[k]
  }

  /** `removeMenuItems(restaurant)`: copy every own property but `menuItems`
      into a fresh object, one key at a time. */
  method RemoveMenuItems(restaurant: map<string, Value>) returns (clone: map<string, Value>)
    ensures clone == WithoutMenuItems(restaurant)
  {
    clone := map[];
    var keys := restaurant.Keys;
    ghost var done: set<string> := {};
    while keys != {}
      invariant keys + done == restaurant.Keys && keys !! done
      invariant clone.Keys == done - {"menuItems"}
      invariant forall k :: k in clone ==> clone[k] == restaurant[k]
      decreases keys
    {
      var key :| key in keys;
      if key != "menuItems" {
        clone := clone[key := restaurant[key]];
      }
      keys := keys - {key};
      done := done + {key};
    }
  }

  /** The projection keeps every other key with its value and drops
      `menuItems`. */
  lemma WithoutMenuItemsKeeps(obj: map<string, Value>)
    ensures WithoutMenuItems(obj).Keys == obj.Keys - {"menuItems"}
    ensures "menuItems" !in WithoutMenuItems(obj)
    ensures forall k :: k in obj && k != "menuItems" ==> WithoutMenuItems(obj)[k] == obj[k]
  {
  }

  /** Projecting twice is projecting once. */
  lemma WithoutMenuItemsIdempotent(obj: map<string, Value>)
    ensures WithoutMenuItems(WithoutMenuItems(obj)) == WithoutMenuItems(obj)
  {
  }

  /** A record's view without its menu items is exactly its attributes:
      the projection undoes adding `menuItems`. */
  lemma WithoutMenuItemsOfView(attrs: map<string, Value>, items: Value)
    requires "menuItems" !in attrs
    ensures WithoutMenuItems(attrs["menuItems" := items]) == attrs
  {
    var w := WithoutMenuItems(attrs["menuItems" := items]);
    assert w.Keys == attrs.Keys;
  }

  // ---------------------------------------------------------------------
  // The order tally

  /** An order line: a quantity and a unit price. */
  datatype OrderItem = OrderItem(qty: real, price: real)

  /** The parts of an order body the handler reads. */
  datatype Order = Order(items: seq<OrderItem>, customerName: Value, restaurantName: Value)

  /** The custom attributes reported to the monitoring agent. */
  datatype OrderAttributes = OrderAttributes(customer: Value, restaurant: Value, itemCount: real, orderTotal: real)

  /** The sum of the quantities. */
  function ItemCount(items: seq<OrderItem>): real {
    if items == [] then 0.0 else ItemCount(items[..|items| - 1]) + items[|items| - 1].qty
  }

  /** The sum of price times quantity. */
  function OrderTotal(items: seq<OrderItem>): real {
    if items == [] then 0.0
    else OrderTotal(items[..|items| - 1]) + items[|items| - 1].price * items[|items| - 1].qty
  }

  /** The tally of `order.items`: both accumulators start at 0 and take each
      item in turn. */
  method Tally(items: seq<OrderItem>) returns (itemCount: real, orderTotal: real)
    ensures itemCount == ItemCount(items) && orderTotal == OrderTotal(items)
  {
    itemCount, orderTotal := 0.0, 0.0;
    for i := 0 to |items|
      invariant itemCount == ItemCount(items[..i])
      invariant orderTotal == OrderTotal(items[..i])
    {
      assert items[..i + 1][..i] == items[..i];
      itemCount := itemCount + items[i].qty;
      orderTotal := orderTotal + items[i].price * items[i].qty;
    }
    assert items[..|items|] == items;
  }

  /** Tallying two lists of lines adds their tallies. */
  lemma {:induction false} TallyAppend(a: seq<OrderItem>, b: seq<OrderItem>)
    ensures ItemCount(a + b) == ItemCount(a) + ItemCount(b)
    ensures OrderTotal(a + b) == OrderTotal(a) + OrderTotal(b)
    decreases |b|
  {
    if b == [] {
      assert a + b == a;
    } else {
      var b' := b[..|b| - 1];
      assert (a + b)[..|a + b| - 1] == a + b';
      TallyAppend(a, b');
    }
  }

  /** An empty order counts no items and costs nothing; with no negative
      quantities the count is not negative, and with no price above `p`
      the total is at most `p` times the count. */
  lemma {:induction false} TallyBounds(items: seq<OrderItem>, p: real)
    requires forall i :: 0 <= i < |items| ==> items[i].qty >= 0.0 && items[i].price <= p
    ensures items == [] ==> ItemCount(items) == 0.0 && OrderTotal(items) == 0.0
    ensures ItemCount(items) >= 0.0
    ensures OrderTotal(items) <= p * ItemCount(items)
    decreases |items|
  {
    if items != [] {
      var last := items[|items| - 1];
      TallyBounds(items[..|items| - 1], p);
      assert last.price * last.qty <= p * last.qty by {
        assert (p - last.price) * last.qty >= 0.0;
      }
    }
  }

  /** The order route: tally the items for the monitoring agent and reply
      201 with the current time as the order id. */
  method PostOrder(order: Order, now: int) returns (attributes: OrderAttributes, resp: Response)
    ensures attributes.customer == order.customerName && attributes.restaurant == order.restaurantName
    ensures attributes.itemCount == ItemCount(order.items) && attributes.orderTotal == OrderTotal(order.items)
    ensures resp == Response(201, OrderId(now))
  {
    var itemCount, orderTotal := Tally(order.items);
    attributes := OrderAttributes(order.customerName, order.restaurantName, itemCount, orderTotal);
    resp := Response(201, OrderId(now));
  }

  // ---------------------------------------------------------------------
  // The restaurant routes

  const NotFoundPrefix: string := "No restaurant with id \""

  /** The error text for an id that is not stored: it starts with the
      fixed prefix and quotes the id right after it. */
  function NotFound(id: string): (text: string)
    ensures |text| == |NotFoundPrefix| + |id| + 2
    ensures text[..|NotFoundPrefix|] == NotFoundPrefix
    ensures text[|NotFoundPrefix|..|NotFoundPrefix| + |id|] == id
  {
    NotFoundPrefix + id + "\"!"
  }

  /** Distinct ids give distinct error texts. */
  lemma NotFoundInjective(a: string, b: string)
    requires NotFound(a) == NotFound(b)
    ensures a == b
  {
  }

  /** `GET /api/restaurant`: every stored record without its menu items,
      once per id; `ids` names the id of each entry. */
  method GetAllRestaurants(storage: Memory) returns (resp: Response, ghost ids: seq<Value>)
    requires storage.Valid()
    ensures resp.status == 200 && resp.body.Records?
    ensures |resp.body.list| == |storage.records| && |ids| == |resp.body.list|
    ensures forall i, j :: 0 <= i < j < |ids| ==> ids[i] != ids[j]
    ensures IdSet(ids) == storage.records.Keys
    ensures forall i :: 0 <= i < |resp.body.list| ==>
      ids[i] in storage.records && resp.body.list[i] == storage.records[ids[i]].attrs
  {
    var all;
    all, ids := storage.GetAll();
    var list: seq<map<string, Value>> := [];
    for i := 0 to |all|
      invariant |list| == i
      invariant forall j :: 0 <= j < i ==> list[j] == all[j].attrs
    {
      var r := all[i];
      var clone := RemoveMenuItems(r.View());
      WithoutMenuItemsOfView(r.attrs, List(ItemValues(r.menuItems)));
      list := list + [clone];
    }
    resp := Response(200, Records(list));
  }

  /** `GET /api/restaurant/:id`: 200 with the record, or 400 naming the id. */
  method GetRestaurant(storage: Memory, id: string) returns (resp: Response)
    ensures Str(id) in storage.records ==> resp == Response(200, Record(storage.records[Str(id)].View()))
    ensures Str(id) !in storage.records ==> resp == Response(400, ErrorText(NotFound(id)))
  {
    var restaurant := storage.GetById(Str(id));
    if restaurant.Some? {
      return Response(200, Record(restaurant.value.View()));
    }
    return Response(400, ErrorText(NotFound(id)));
  }

  /** `POST /api/restaurant`: construct from the body; store it and reply
      201 when it validates, else leave the store alone and reply 400 with
      the errors. */
  method PostRestaurant(storage: Memory, body: map<string, Value>) returns (resp: Response)
    requires storage.Valid() && Constructible(body)
    modifies storage
    ensures storage.Valid()
    ensures resp.status == 201 <==> Truthy(Get(body, "name"))
    ensures resp.status == 201 ==>
      var id := ConstructedAttrs(body)["id"];
      && resp.body == Record(ConstructedView(body))
      && storage.records.Keys == old(storage.records).Keys + {id}
      && (forall k :: k in old(storage.records) && k != id ==> storage.records[k] == old(storage.records)[k])
      && (id !in old(storage.records) ==>
            storage.records[id].attrs == ConstructedAttrs(body) && storage.records[id].View() == ConstructedView(body))
    ensures resp.status != 201 ==>
      resp == Response(400, Errors([NameMandatory])) && storage.records == old(storage.records)
  {
    var restaurant := new Restaurant(body);
    ghost var id := restaurant.attrs["id"];
    assert storage.Valid();
    var errors := new ErrorList();
    var ok := restaurant.Validate(errors);
    assert storage.Valid() && restaurant.Valid();
    ConstructedName(body);
    assert ok <==> Truthy(Get(body, "name"));
    if ok {
      resp := StoreCreated(storage, restaurant, body);
      return;
    }
    assert errors.messages == [NameMandatory];
    assert storage.records == old(storage.records);
    return Response(400, Errors(errors.messages));
  }

  /** The success branch shared by POST and PUT: store the new record and
      reply 201 with it. */
  method StoreCreated(storage: Memory, restaurant: Restaurant, ghost body: map<string, Value>) returns (resp: Response)
    requires storage.Valid() && restaurant.Valid() && Constructible(body)
    requires restaurant.attrs == ConstructedAttrs(body) && restaurant.menuItems == UpdatedItems([], body)
    modifies storage
    ensures storage.Valid()
    ensures var id := ConstructedAttrs(body)["id"];
      && resp == Response(201, Record(ConstructedView(body)))
      && storage.records.Keys == old(storage.records).Keys + {id}
      && (forall k :: k in old(storage.records) && k != id ==> storage.records[k] == old(storage.records)[k])
      && (id !in old(storage.records) ==>
            storage.records[id].attrs == ConstructedAttrs(body) && storage.records[id].View() == ConstructedView(body))
  {
    assert restaurant.View() == ConstructedView(body);
    storage.Add(restaurant);
    return Response(201, Record(restaurant.View()));
  }

  /** `PUT /api/restaurant/:id`: a stored record is updated in place, with
      no validation, and sent back with 200; for an unknown id the body is
      handled as by POST, so the new record's id comes from the body or its
      name, never from the URL. */
  method PutRestaurant(storage: Memory, id: string, body: map<string, Value>) returns (resp: Response)
    requires storage.Valid() && Updatable(body) && (Str(id) !in storage.records ==> Constructible(body))
    modifies storage, storage.records.Values
    ensures storage.Valid()
    ensures Str(id) in old(storage.records) ==>
      var r := old(storage.records)[Str(id)];
      && storage.records == old(storage.records)
      && r.attrs == UpdatedAttrs(old(r.attrs), body)
      && r.menuItems == UpdatedItems(old(r.menuItems), body)
      && resp == Response(200, Record(r.View()))
      && (forall o :: o in old(storage.records).Values && o != r ==> unchanged(o))
    ensures Str(id) !in old(storage.records) ==>
      && (forall o :: o in old(storage.records).Values ==> unchanged(o))
      && (resp.status == 201 <==> Truthy(Get(body, "name")))
      && (resp.status == 201 ==>
            var newId := ConstructedAttrs(body)["id"];
            && resp.body == Record(ConstructedView(body))
            && storage.records.Keys == old(storage.records).Keys + {newId}
            && (forall k :: k in old(storage.records) && k != newId ==> storage.records[k] == old(storage.records)[k])
            && (newId !in old(storage.records) ==>
                  storage.records[newId].attrs == ConstructedAttrs(body)
                  && storage.records[newId].View() == ConstructedView(body)))
      && (resp.status != 201 ==>
            resp == Response(400, Errors([NameMandatory])) && storage.records == old(storage.records))
  {
    var restaurant := storage.GetById(Str(id));
    if restaurant.Some? {
      var r := restaurant.value;
      r.Update(body);
      return Response(200, Record(r.View()));
    }
    resp := PostRestaurant(storage, body);
  }

  /** `DELETE /api/restaurant/:id`: 204 exactly when a record was removed,
      else 400 naming the id. */
  method DeleteRestaurant(storage: Memory, id: string) returns (resp: Response)
    requires storage.Valid()
    modifies storage
    ensures storage.Valid()
    ensures storage.records == old(storage.records) - {Str(id)}
    ensures resp.status == 204 <==> Str(id) in old(storage.records)
    ensures resp.status == 204 ==> resp.body == NoBody
    ensures resp.status != 204 ==> resp == Response(400, ErrorText(NotFound(id)))
  {
    var removed := storage.DeleteById(Str(id));
    if removed {
      return Response(204, NoBody);
    }
    return Response(400, ErrorText(NotFound(id)));
  }

  // ---------------------------------------------------------------------
  // Start-up

  /** The data file: unreadable (or not JSON), or its parsed array. */
  datatype DataFile = Unreadable | Parsed(entries: seq<map<string, Value>>)

  /** The own properties of the records built from `entries`, entry by
      entry. */
  function LoadedViews(entries: seq<map<string, Value>>): (built: seq<map<string, Value>>)
    requires forall i :: 0 <= i < |entries| ==> Constructible(entries[i])
    ensures |built| == |entries|
    ensures forall i :: 0 <= i < |built| ==> "id" in built[i]
  {
    if entries == [] then []
    else LoadedViews(entries[..|entries| - 1]) + [ConstructedView(entries[|entries| - 1])]
  }

  /** Entry `i` gives the record `new Restaurant(entries[i])`. */
  lemma {:induction false} LoadedViewsAt(entries: seq<map<string, Value>>, i: nat)
    requires forall i :: 0 <= i < |entries| ==> Constructible(entries[i])
    requires i < |entries|
    ensures LoadedViews(entries)[i] == ConstructedView(entries[i])
    decreases |entries|
  {
    var init := entries[..|entries| - 1];
    if i < |entries| - 1 {
      LoadedViewsAt(init, i);
      assert init[i] == entries[i];
    }
  }

  /** The ids of the first `n` built records. */
  function IdsUpTo(built: seq<map<string, Value>>, n: nat): set<Value> {
    set i | 0 <= i < n && i < |built| :: Get(built[i], "id")
  }

  lemma IdsUpToStep(built: seq<map<string, Value>>, n: nat)
    requires n < |built|
    ensures IdsUpTo(built, n + 1) == IdsUpTo(built, n) + {Get(built[n], "id")}
  {
  }

  /** The ids the load stores. */
  function LoadedIds(entries: seq<map<string, Value>>): set<Value>
    requires forall i :: 0 <= i < |entries| ==> Constructible(entries[i])
  {
    IdsUpTo(LoadedViews(entries), |entries|)
  }

  /** Entries sharing an id are stored as one record, so a load never
      stores more ids than there are entries. */
  lemma {:induction false} IdsUpToBound(built: seq<map<string, Value>>, n: nat)
    requires n <= |built|
    ensures |IdsUpTo(built, n)| <= n
  {
    if n > 0 {
      IdsUpToBound(built, n - 1);
      IdsUpToStep(built, n - 1);
    }
  }

  /** Every id in `view` that was not in `before` holds one of the first `n`
      built records, under that record's own id. */
  ghost predicate BuiltFrom(before: set<Value>, view: map<Value, map<string, Value>>,
                            built: seq<map<string, Value>>, n: nat)
  {
    forall id :: id in view && id !in before ==>
      exists i :: 0 <= i < n && i < |built| && Get(built[i], "id") == id && view[id] == built[i]
  }

  lemma BuiltFromStep(before: set<Value>, prev: map<Value, map<string, Value>>, cur: map<Value, map<string, Value>>,
                      built: seq<map<string, Value>>, n: nat)
    requires n < |built|
    requires BuiltFrom(before, prev, built, n)
    requires cur == prev[Get(built[n], "id") := built[n]] || (Get(built[n], "id") in prev && cur == prev)
    ensures BuiltFrom(before, cur, built, n + 1)
  {
    forall id | id in cur && id !in before
      ensures exists i :: 0 <= i < n + 1 && i < |built| && Get(built[i], "id") == id && cur[id] == built[i]
    {
      if id == Get(built[n], "id") && cur[id] == built[n] {
      } else {
        var i :| 0 <= i < n && i < |built| && Get(built[i], "id") == id && prev[id] == built[i];
      }
    }
  }

  /** The store after the first `n` entries have been loaded into it,
      starting from `before`. */
  ghost predicate LoadedUpTo(storage: Memory, before: map<Value, Restaurant>, built: seq<map<string, Value>>, n: nat)
    reads storage, storage.records.Values
  {
    && storage.Valid()
    && storage.records.Keys == before.Keys + IdsUpTo(built, n)
    && (forall id :: id in before && id !in IdsUpTo(built, n) ==> storage.records[id] == before[id])
    && BuiltFrom(before.Keys, RecordViews(storage.records), built, n)
  }

  /** One step of the load loop: build the record for `entry` and store it
      under its id. */
  method AddRecord(storage: Memory, entry: map<string, Value>)
    requires storage.Valid() && Constructible(entry)
    modifies storage
    ensures storage.Valid()
    ensures var id := Get(ConstructedAttrs(entry), "id");
      && storage.records.Keys == old(storage.records).Keys + {id}
      && (forall k :: k in old(storage.records) && k != id ==> storage.records[k] == old(storage.records)[k])
      && (RecordViews(storage.records) == old(RecordViews(storage.records))[id := ConstructedView(entry)]
          || (id in old(storage.records) && RecordViews(storage.records) == old(RecordViews(storage.records))))
  {
    ghost var view := RecordViews(storage.records);
    var r := new Restaurant(entry);
    assert RecordViews(storage.records) == view;
    storage.Add(r);
  }

  /** One step of the load loop: the record built from entry `n` is
      stored, and the store holds the first `n + 1` entries. */
  method LoadEntry(storage: Memory, entry: map<string, Value>, ghost built: seq<map<string, Value>>, n: nat,
                   ghost before: map<Value, Restaurant>)
    requires n < |built| && Constructible(entry) && built[n] == ConstructedView(entry)
    requires LoadedUpTo(storage, before, built, n)
    modifies storage
    ensures LoadedUpTo(storage, before, built, n + 1)
  {
    ghost var prev := RecordViews(storage.records);
    ghost var prevRecords := storage.records;
    AddRecord(storage, entry);
    LoadKeysStep(before, prevRecords, storage.records, built, n);
    BuiltFromStep(before.Keys, prev, RecordViews(storage.records), built, n);
  }

  /** Every built view is the view of the record constructed from its entry. */
  lemma LoadedViewsAll(entries: seq<map<string, Value>>)
    requires forall i :: 0 <= i < |entries| ==> Constructible(entries[i])
    ensures forall i :: 0 <= i < |entries| ==> LoadedViews(entries)[i] == ConstructedView(entries[i])
  {
    forall i | 0 <= i < |entries|
      ensures LoadedViews(entries)[i] == ConstructedView(entries[i])
    {
      LoadedViewsAt(entries, i);
    }
  }

  /** What `BuiltFrom` says once every entry is loaded, in terms of the
      entries themselves: each new id holds the whole record (menu items
      included) constructed from some entry with that id. */
  lemma BuiltFromEntries(before: set<Value>, records: map<Value, Restaurant>, entries: seq<map<string, Value>>,
                         built: seq<map<string, Value>>)
    requires |built| == |entries|
    requires forall i :: 0 <= i < |entries| ==> Constructible(entries[i]) && built[i] == ConstructedView(entries[i])
    requires BuiltFrom(before, RecordViews(records), built, |entries|)
    ensures forall id :: id in records && id !in before ==>
      exists i :: (0 <= i < |entries| && Constructible(entries[i]) && ConstructedAttrs(entries[i])["id"] == id
                   && records[id].View() == ConstructedView(entries[i]))
  {
    var views := RecordViews(records);
    forall id | id in records && id !in before
      ensures exists i :: (0 <= i < |entries| && Constructible(entries[i]) && ConstructedAttrs(entries[i])["id"] == id
                           && records[id].View() == ConstructedView(entries[i]))
    {
      assert id in views;
      var i :| 0 <= i < |entries| && i < |built| && Get(built[i], "id") == id && views[id] == built[i];
      assert ConstructedView(entries[i])["id"] == ConstructedAttrs(entries[i])["id"];
    }
  }

  lemma LoadKeysStep(before: map<Value, Restaurant>, prev: map<Value, Restaurant>, cur: map<Value, Restaurant>,
                     built: seq<map<string, Value>>, n: nat)
    requires n < |built|
    requires prev.Keys == before.Keys + IdsUpTo(built, n)
    requires forall id :: id in before && id !in IdsUpTo(built, n) ==> prev[id] == before[id]
    requires cur.Keys == prev.Keys + {Get(built[n], "id")}
    requires forall id :: id in prev && id != Get(built[n], "id") ==> cur[id] == prev[id]
    ensures cur.Keys == before.Keys + IdsUpTo(built, n + 1)
    ensures forall id :: id in before && id !in IdsUpTo(built, n + 1) ==> cur[id] == before[id]
  {
    IdsUpToStep(built, n);
  }

  /** Start-up: on a read error nothing is stored and the server does not
      start; otherwise each entry in turn is built into a record and stored
      under its id, and the server starts. */
  method Load(storage: Memory, file: DataFile) returns (started: bool)
    requires storage.Valid()
    requires file.Parsed? ==> forall i :: 0 <= i < |file.entries| ==> Constructible(file.entries[i])
    modifies storage
    ensures storage.Valid()
    ensures started <==> file.Parsed?
    ensures file.Unreadable? ==> storage.records == old(storage.records)
    ensures file.Parsed? ==> storage.records.Keys == old(storage.records).Keys + LoadedIds(file.entries)
    ensures file.Parsed? ==> forall id :: id in old(storage.records) && id !in LoadedIds(file.entries) ==>
      storage.records[id] == old(storage.records)[id]
    ensures file.Parsed? ==> forall id :: id in storage.records && id !in old(storage.records) ==>
      exists i :: (0 <= i < |file.entries| && Constructible(file.entries[i]) && ConstructedAttrs(file.entries[i])["id"] == id
                   && storage.records[id].View() == ConstructedView(file.entries[i]))
    ensures file.Parsed? ==> LoadedUpTo(storage, old(storage.records), LoadedViews(file.entries), |file.entries|)
  {
    if file.Unreadable? {
      return false;
    }
    var entries := file.entries;
    ghost var built := LoadedViews(entries);
    for n := 0 to |entries|
      invariant LoadedUpTo(storage, old(storage.records), built, n)
    {
      LoadedViewsAt(entries, n);
      LoadEntry(storage, entries[n], built, n, old(storage.records));
    }
    LoadedViewsAll(entries);
    BuiltFromEntries(old(storage.records).Keys, storage.records, entries, built);
    return true;
  }
}
