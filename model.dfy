/**
  The restaurant record of server/model.js: id derivation from the name,
  the day-code table, the `Restaurant` object (constructor, `update`,
  `validate`, `fromArray`) and the `MenuItem` value it owns.
 */
module Model {
  import opened Js

  // ---------------------------------------------------------------------
  // idFromName

  /** The id text of a name, `name.toLowerCase().replace(/\W/g, '')`: it
      holds only `[a-z0-9_]`. */
  function IdOf(name: string): (id: string)
    ensures forall i :: 0 <= i < |id| ==> IsIdChar(id[i])
  {
    LowerWordsAreIdChars(name);
    RemoveNonWord(ToLowerCase(name))
  }

  /** `idFromName(name)`, i.e. `name && name.toLowerCase().replace(/\W/g, '')`:
      a falsy name comes back unchanged, a string name gives its id text.
      (A truthy name that is not a string has no `toLowerCase` and throws.) */
  function IdFromName(name: Value): (id: Value)
    requires Truthy(name) ==> name.Str?
    ensures !Truthy(name) ==> id == name
    ensures Truthy(name) ==> id.Str? && forall i :: 0 <= i < |id.s| ==> IsIdChar(id.s[i])
  {
    if !Truthy(name) then name else Str(IdOf(name.s))
  }

  /** `RemoveNonWord` keeps only characters of its input. */
  lemma {:induction false} RemoveNonWordKeeps(s: string)
    ensures forall i :: 0 <= i < |RemoveNonWord(s)| ==> RemoveNonWord(s)[i] in s
  {
    if s != [] {
      RemoveNonWordKeeps(s[1..]);
      forall i | 0 <= i < |RemoveNonWord(s)| ensures RemoveNonWord(s)[i] in s {
        var r := RemoveNonWord(s[1..]);
        if IsWordChar(s[0]) && i > 0 {
          assert RemoveNonWord(s)[i] == r[i - 1];
          assert r[i - 1] in s[1..];
        } else if !IsWordChar(s[0]) {
          assert r[i] in s[1..];
        }
      }
    }
  }

  /** Lower-casing leaves no capital for `\W` to keep, so what survives
      is in `[a-z0-9_]`. */
  lemma LowerWordsAreIdChars(name: string)
    ensures forall i :: 0 <= i < |RemoveNonWord(ToLowerCase(name))| ==> IsIdChar(RemoveNonWord(ToLowerCase(name))[i])
  {
    var lower := ToLowerCase(name);
    var id := RemoveNonWord(lower);
    RemoveNonWordKeeps(lower);
    forall i | 0 <= i < |id| ensures IsIdChar(id[i]) {
      var c := id[i];
      assert IsWordChar(c);
      var j :| 0 <= j < |lower| && lower[j] == c;
    }
  }

  lemma {:induction false} IdOfOfIdChars(s: string)
    requires forall i :: 0 <= i < |s| ==> IsIdChar(s[i])
    ensures IdOf(s) == s
  {
    if s != [] {
      IdOfOfIdChars(s[1..]);
      assert IsIdChar(s[0]);
      assert ToLowerCase(s) == [s[0]] + ToLowerCase(s[1..]);
      assert IsWordChar(s[0]);
      assert ToLowerCase(s)[0] == s[0] && ToLowerCase(s)[1..] == ToLowerCase(s[1..]);
    }
  }

  /** A string is its own id exactly when it holds only `[a-z0-9_]`. */
  lemma IdOfFixpoint(s: string)
    ensures IdOf(s) == s <==> forall i :: 0 <= i < |s| ==> IsIdChar(s[i])
  {
    if forall i :: 0 <= i < |s| ==> IsIdChar(s[i]) {
      IdOfOfIdChars(s);
    }
  }

  /** Deriving an id twice gives the same id as deriving it once. */
  lemma IdFromNameIdempotent(name: Value)
    requires Truthy(name) ==> name.Str?
    ensures var id := IdFromName(name); (Truthy(id) ==> id.Str?) && IdFromName(id) == id
  {
    if Truthy(name) {
      IdOfOfIdChars(IdOf(name.s));
    }
  }

  /** The id of a name is the concatenation of the ids of its pieces. */
  lemma IdOfAppend(a: string, b: string)
    ensures IdOf(a + b) == IdOf(a) + IdOf(b)
  {
    ToLowerCaseAppend(a, b);
    RemoveNonWordAppend(ToLowerCase(a), ToLowerCase(b));
  }

  /** The id of a name, one character at a time. */
  lemma IdOfCons(c: char, s: string)
    ensures IdOf([c] + s) == RemoveNonWord(LowerChar(c)) + IdOf(s)
  {
    IdOfAppend([c], s);
    assert [c][1..] == [];
    assert ToLowerCase([c]) == LowerChar(c) + [];
    assert LowerChar(c) + [] == LowerChar(c);
  }

  // ---------------------------------------------------------------------
  // DAYS and parseDays

  /** The day-code table `DAYS`: Sunday is 0, Saturday is 6. */
  const DayCodes: map<string, int> :=
    map["Su" := 0, "Mo" := 1, "Tu" := 2, "We" := 3, "Th" := 4, "Fr" := 5, "Sa" := 6]

  /** The inverse of the table: the code of each day number. */
  function DayName(d: int): (token: string)
    requires 0 <= d <= 6
    ensures token in DayCodes && DayCodes[token] == d
  {
    ["Su", "Mo", "Tu", "We", "Th", "Fr", "Sa"][d]
  }

  /** `DAYS[token]` read as an own property of the table: the day number, or
      undefined for any other token. */
  function DayOf(token: string): (v: Value)
    ensures v == Undefined || (v.Num? && 0.0 <= v.x <= 6.0)
  {
    if token in DayCodes then IntValue(DayCodes[token]) else Undefined
  }

  /** `parseDays(str)`: one entry per comma-separated token, in order. */
  function ParseDays(str: string): (days: seq<Value>)
    ensures |days| == |Split(str, ',')|
    ensures forall i :: 0 <= i < |days| ==> days[i] == DayOf(Split(str, ',')[i])
  {
    var tokens := Split(str, ',');
    seq(|tokens|, i requires 0 <= i < |tokens| => DayOf(tokens[i]))
  }

  /** A token gives day `d` exactly when it is that day's code; every other
      token gives undefined. */
  lemma DayOfIff(token: string, d: int)
    requires 0 <= d <= 6
    ensures DayOf(token) == IntValue(d) <==> token == DayName(d)
    ensures DayOf(token) == Undefined <==> token !in DayCodes
  {
    if DayOf(token) == IntValue(d) {
      DayNameOfCode(token);
    }
  }

  /** Every code in the table is the code of its own day number. */
  lemma DayNameOfCode(token: string)
    requires token in DayCodes
    ensures 0 <= DayCodes[token] <= 6 && DayName(DayCodes[token]) == token
  {
    var names := ["Su", "Mo", "Tu", "We", "Th", "Fr", "Sa"];
    assert forall j :: 0 <= j <= 6 ==> DayCodes[names[j]] == j;
    assert token in multiset(names);
  }

  /** The number of entries is the number of commas plus one. */
  lemma ParseDaysLength(str: string)
    ensures |ParseDays(str)| == Occurrences(str, ',') + 1
  {
    SplitLength(str, ',');
  }

  /** Writing day numbers as their codes joined by commas and parsing the
      result gives the day numbers back. */
  lemma ParseDaysOfJoined(ds: seq<int>)
    requires |ds| >= 1 && forall i :: 0 <= i < |ds| ==> 0 <= ds[i] <= 6
    ensures var codes := seq(|ds|, i requires 0 <= i < |ds| => DayName(ds[i]));
      ParseDays(Join(codes, ',')) == seq(|ds|, i requires 0 <= i < |ds| => IntValue(ds[i]))
  {
    var codes := seq(|ds|, i requires 0 <= i < |ds| => DayName(ds[i]));
    forall i | 0 <= i < |codes| ensures ',' !in codes[i] {
      assert codes[i] in DayCodes.Keys;
    }
    SplitJoin(codes, ',');
  }

  /** A single token that is not a day code parses to one undefined entry. */
  lemma ParseDaysUnknownToken(token: string)
    requires ',' !in token && token !in DayCodes
    ensures ParseDays(token) == [Undefined]
  {
    SplitWithoutSeparator(token, ',');
  }

  lemma ParseDaysExample(str: string)
    requires str == "Mo,We,Fr"
    ensures ParseDays(str) == [IntValue(1), IntValue(3), IntValue(5)]
  {
    SplitJoin(["Mo", "We", "Fr"], ',');
    assert Join(["Mo", "We", "Fr"], ',') == str;
  }

  // ---------------------------------------------------------------------
  // parseDays as written

  /** The property names `Object.prototype` gives to every object literal. */
  const ObjectPrototypeMembers: set<string> :=
    { "constructor", "hasOwnProperty", "isPrototypeOf", "propertyIsEnumerable",
      "toString", "toLocaleString", "valueOf", "__proto__",
      "__defineGetter__", "__defineSetter__", "__lookupGetter__", "__lookupSetter__" }

  /** What `DAYS[token]` reads in the source, where `DAYS` is an object
      literal: a day number, an inherited member of `Object.prototype`, or
      undefined. */
  datatype Lookup = Day(d: int) | Inherited(member: string) | Missing

  function DayLookupAsWritten(token: string): (l: Lookup)
    ensures l.Day? <==> token in DayCodes
  {
    if token in DayCodes then Day(DayCodes[token])
    else if token in ObjectPrototypeMembers then Inherited(token)
    else Missing
  }

  function ParseDaysAsWritten(str: string): (days: seq<Lookup>)
    ensures |days| == |Split(str, ',')|
  {
    var tokens := Split(str, ',');
    seq(|tokens|, i requires 0 <= i < |tokens| => DayLookupAsWritten(tokens[i]))
  }

  /** As written, the token `toString` reads the function inherited from
      `Object.prototype`, where the day table is meant to give undefined
      (as `ParseDaysUnknownToken` shows `ParseDays` does). */
  lemma ParseDaysAsWrittenInherits(token: string)
    requires token == "toString"
    ensures ParseDaysAsWritten(token) == [Inherited(token)]
    ensures ParseDays(token) == [Undefined]
  {
    assert token !in DayCodes && token in ObjectPrototypeMembers;
    assert ',' !in token;
    SplitWithoutSeparator(token, ',');
    ParseDaysUnknownToken(token);
  }

  // ---------------------------------------------------------------------
  // MenuItem

  /** A menu item: exactly a name and a price, copied verbatim. */
  datatype MenuItem = MenuItem(name: Value, price: Value) {
    /** The item as a plain object, as it is serialised. */
    function ToValue(): (v: Value)
      ensures v.Object? && v.props.Keys == {"name", "price"}
    {
      Object(map["name" := name, "price" := price])
    }
  }

  /** `data[key]` for a value that is neither null nor undefined; only plain
      objects have a `name` or `price` property. */
  function PropOf(data: Value, key: string): Value
    requires key == "name" || key == "price"
  {
    if data.Object? then Get(data.props, key) else Undefined
  }

  /** `new MenuItem(data)` (reading a property of null or undefined throws). */
  function MenuItemOf(data: Value): (m: MenuItem)
    requires !data.Undefined? && !data.Null?
    ensures m.name == PropOf(data, "name") && m.price == PropOf(data, "price")
  {
    MenuItem(PropOf(data, "name"), PropOf(data, "price"))
  }

  /** Rebuilding a menu item from a menu item gives it back unchanged. */
  lemma MenuItemRoundTrip(m: MenuItem)
    ensures MenuItemOf(m.ToValue()) == m
  {
  }

  /** `MenuItem.fromArray(data)`: position 1 is the name and position 2 the
      price, read by `parseFloat`, which is left abstract; position 0 (the
      owning restaurant in the flat format) is ignored. */
  function MenuItemFromArray(data: seq<Value>, parseFloat: Value -> Value): (m: MenuItem)
    ensures m.name == (if |data| > 1 then data[1] else Undefined)
    ensures m.price == parseFloat(if |data| > 2 then data[2] else Undefined)
  {
    MenuItem(if |data| > 1 then data[1] else Undefined,
             parseFloat(if |data| > 2 then data[2] else Undefined))
  }

  /** The first field only names the owning restaurant: it does not affect
      the item. */
  lemma MenuItemFromArrayIgnoresOwner(data: seq<Value>, owner: Value, parseFloat: Value -> Value)
    requires |data| > 0
    ensures MenuItemFromArray([owner] + data[1..], parseFloat) == MenuItemFromArray(data, parseFloat)
  {
  }

  predicate ItemsDefined(raw: seq<Value>) {
    forall i :: 0 <= i < |raw| ==> !raw[i].Undefined? && !raw[i].Null?
  }

  /** `raw.map(function(data) { return new MenuItem(data); })`. */
  function MenuItemsOf(raw: seq<Value>): (items: seq<MenuItem>)
    requires ItemsDefined(raw)
    ensures |items| == |raw|
  {
    seq(|raw|, i requires 0 <= i < |raw| => MenuItemOf(raw[i]))
  }

  function ItemValues(items: seq<MenuItem>): (raw: seq<Value>)
    ensures |raw| == |items| && ItemsDefined(raw)
  {
    seq(|items|, i requires 0 <= i < |items| => items[i].ToValue())
  }

  /** Re-mapping items that are already menu items leaves them equal. */
  lemma RebuildItems(items: seq<MenuItem>)
    ensures MenuItemsOf(ItemValues(items)) == items
  {
    forall i | 0 <= i < |items| ensures MenuItemsOf(ItemValues(items))[i] == items[i] {
      MenuItemRoundTrip(items[i]);
    }
  }

  // ---------------------------------------------------------------------
  // The record's specification

  const NameMandatory: string := "Invalid: \"name\" is a mandatory field!"

  /** Keys that `update` would copy over the record's own methods or its
      prototype; incoming data is required not to use them. */
  const ReservedKeys: set<string> := {"update", "validate", "__proto__"}

  /** What `update(data)` needs in order not to throw: `menuItems`, when
      given, is an array with no null or undefined element. */
  predicate Updatable(data: map<string, Value>) {
    && ReservedKeys !! data.Keys
    && ("menuItems" in data ==> data["menuItems"].List? && ItemsDefined(data["menuItems"].items))
  }

  /** What `new Restaurant(data)` needs: `update` succeeds, and when no
      truthy id is given, a truthy name is a string. */
  predicate Constructible(data: map<string, Value>) {
    && Updatable(data)
    && (!Truthy(Get(data, "id")) && Truthy(Get(data, "name")) ==> Get(data, "name").Str?)
  }

  /** The record's attributes (every own property but `menuItems`) keep
      `days`, `price` and `rating`, never hold text in `price` or `rating`
      (any other value given there is copied as it is), and never use a
      reserved key. */
  predicate CoercedAttrs(attrs: map<string, Value>) {
    && "menuItems" !in attrs
    && "days" in attrs && "price" in attrs && "rating" in attrs
    && !attrs["price"].Str? && !attrs["rating"].Str?
    && ReservedKeys !! attrs.Keys
  }

  /** The defaults the constructor sets before `update`. */
  function DefaultAttrs(): (attrs: map<string, Value>)
    ensures CoercedAttrs(attrs)
  {
    map["days" := List([IntValue(1), IntValue(2), IntValue(3), IntValue(4), IntValue(5), IntValue(6)]),
        "price" := IntValue(0),
        "rating" := IntValue(0)]
  }

  /** The value `update` stores under `key`: text in `price` or `rating` is
      read by `parseInt(text, 10)`, everything else is copied verbatim. */
  function Coerce(key: string, v: Value): (r: Value)
    ensures (key == "price" || key == "rating") ==> !r.Str?
    ensures (key == "price" || key == "rating") && v.Str? ==> r == ParseInt(v.s)
    ensures !((key == "price" || key == "rating") && v.Str?) ==> r == v
  {
    if (key == "price" || key == "rating") && v.Str? then ParseInt(v.s) else v
  }

  /** The attributes after the keys in `done` of `data` have been copied. */
  function Overlay(attrs: map<string, Value>, data: map<string, Value>, done: set<string>): map<string, Value>
    requires done <= data.Keys
  {
    map k | k in (attrs.Keys + done) - {"menuItems"} :: if k in done then Coerce(k, data[k]) else attrs[k]
  }

  /** Copying one more key of `data`. */
  lemma OverlayStep(attrs: map<string, Value>, data: map<string, Value>, done: set<string>, key: string)
    requires done <= data.Keys && key in data
    ensures key == "menuItems" ==> Overlay(attrs, data, done + {key}) == Overlay(attrs, data, done)
    ensures key != "menuItems" ==>
      Overlay(attrs, data, done + {key}) == Overlay(attrs, data, done)[key := Coerce(key, data[key])]
  {
  }

  /** The attributes after `update(data)`. */
  function UpdatedAttrs(attrs: map<string, Value>, data: map<string, Value>): (r: map<string, Value>)
    requires Updatable(data)
    ensures r.Keys == (attrs.Keys + data.Keys) - {"menuItems"}
    ensures forall k :: k in data && k != "menuItems" ==> r[k] == Coerce(k, data[k])
    ensures forall k :: k in attrs && k !in data && k != "menuItems" ==> r[k] == attrs[k]
    ensures CoercedAttrs(attrs) ==> CoercedAttrs(r)
  {
    Overlay(attrs, data, data.Keys)
  }

  /** The menu items after `update(data)`: rebuilt from `data.menuItems` when
      given; otherwise the old items, rebuilt, which leaves them equal. */
  function UpdatedItems(items: seq<MenuItem>, data: map<string, Value>): (r: seq<MenuItem>)
    requires Updatable(data)
    ensures "menuItems" !in data ==> r == items
    ensures "menuItems" in data ==>
      (|r| == |data["menuItems"].items| &&
       forall i :: 0 <= i < |r| ==> r[i] == MenuItemOf(data["menuItems"].items[i]))
  {
    if "menuItems" in data then MenuItemsOf(data["menuItems"].items) else items
  }

  /** `this.id || idFromName(this.name)`. */
  function DerivedId(attrs: map<string, Value>): (id: Value)
    requires !Truthy(Get(attrs, "id")) && Truthy(Get(attrs, "name")) ==> Get(attrs, "name").Str?
    ensures Truthy(Get(attrs, "id")) ==> id == attrs["id"]
    ensures !Truthy(Get(attrs, "id")) ==> id == IdFromName(Get(attrs, "name"))
  {
    if Truthy(Get(attrs, "id")) then attrs["id"] else IdFromName(Get(attrs, "name"))
  }

  /** The attributes of `new Restaurant(data)`. */
  function ConstructedAttrs(data: map<string, Value>): (attrs: map<string, Value>)
    requires Constructible(data)
    ensures CoercedAttrs(attrs) && "id" in attrs
  {
    var updated := UpdatedAttrs(DefaultAttrs(), data);
    updated["id" := DerivedId(updated)]
  }

  /** `validate`'s contribution to the error list. */
  function NameErrors(attrs: map<string, Value>): (errors: seq<string>)
    ensures errors == [] <==> Truthy(Get(attrs, "name"))
    ensures errors != [] ==> errors == [NameMandatory]
  {
    if Truthy(Get(attrs, "name")) then [] else [NameMandatory]
  }

  // ---------------------------------------------------------------------
  // Properties of the specification

  /** Constructing from an empty object gives the defaults and an
      undefined id. */
  lemma ConstructEmpty()
    ensures ConstructedAttrs(map[]) == DefaultAttrs()["id" := Undefined]
    ensures UpdatedItems([], map[]) == []
  {
  }

  /** Every key of the constructed record. */
  lemma ConstructedKeys(data: map<string, Value>)
    requires Constructible(data)
    ensures ConstructedAttrs(data).Keys == ({"days", "price", "rating", "id"} + data.Keys) - {"menuItems"}
  {
  }

  /** Where each value of the constructed record comes from. */
  lemma ConstructedFields(data: map<string, Value>)
    requires Constructible(data)
    ensures var attrs := ConstructedAttrs(data);
      && attrs["days"] == (if "days" in data then data["days"] else DefaultAttrs()["days"])
      && attrs["price"] == (if "price" in data then Coerce("price", data["price"]) else IntValue(0))
      && attrs["rating"] == (if "rating" in data then Coerce("rating", data["rating"]) else IntValue(0))
      && attrs["id"] == (if Truthy(Get(data, "id")) then data["id"] else IdFromName(Get(data, "name")))
      && forall k :: k in data && k !in {"days", "price", "rating", "id", "menuItems"} ==> attrs[k] == data[k]
  {
  }

  /** The name is copied verbatim: a constructed record has a name exactly
      when the data does. */
  lemma ConstructedName(data: map<string, Value>)
    requires Constructible(data)
    ensures Get(ConstructedAttrs(data), "name") == Get(data, "name")
  {
    assert "name" !in DefaultAttrs();
  }

  /** The own properties of `new Restaurant(data)`, as sent to a client. */
  function ConstructedView(data: map<string, Value>): (props: map<string, Value>)
    requires Constructible(data)
    ensures props.Keys == ConstructedAttrs(data).Keys + {"menuItems"}
    ensures forall k :: k in ConstructedAttrs(data) ==> props[k] == ConstructedAttrs(data)[k]
    ensures "id" in props && props["id"] == ConstructedAttrs(data)["id"]
  {
    ConstructedAttrs(data)["menuItems" := List(ItemValues(UpdatedItems([], data)))]
  }

  /** A constructed record's id is the supplied id when truthy; otherwise it
      is derived from the name, and then it is falsy or made of
      `[a-z0-9_]` only. */
  lemma ConstructedId(data: map<string, Value>)
    requires Constructible(data)
    ensures var id := ConstructedAttrs(data)["id"];
      Truthy(Get(data, "id")) ==> id == data["id"]
    ensures var id := ConstructedAttrs(data)["id"];
      !Truthy(Get(data, "id")) ==> !Truthy(id) || (id.Str? && forall i :: 0 <= i < |id.s| ==> IsIdChar(id.s[i]))
  {
  }

  /** Text prices and ratings become numbers: `{price: "3"}` gives 3, and so
      does `{price: 3}`. */
  lemma UpdatePriceExample(attrs: map<string, Value>)
    ensures UpdatedAttrs(attrs, map["price" := Str("3")])["price"] == IntValue(3)
    ensures UpdatedAttrs(attrs, map["price" := IntValue(3)])["price"] == IntValue(3)
  {
    ParseIntOfDecimal("", 3, "");
    assert "" + DecimalString(3) + "" == "3";
  }

  /** Applying the same update twice is the same as applying it once. */
  lemma UpdateIdempotent(attrs: map<string, Value>, items: seq<MenuItem>, data: map<string, Value>)
    requires Updatable(data)
    ensures UpdatedAttrs(UpdatedAttrs(attrs, data), data) == UpdatedAttrs(attrs, data)
    ensures UpdatedItems(UpdatedItems(items, data), data) == UpdatedItems(items, data)
  {
  }

  /** Updating a record with its own serialised view (as a client that read
      it and sends it back does) changes nothing. */
  lemma UpdateWithOwnView(attrs: map<string, Value>, items: seq<MenuItem>)
    requires CoercedAttrs(attrs)
    ensures var view := attrs["menuItems" := List(ItemValues(items))];
      Updatable(view) && UpdatedAttrs(attrs, view) == attrs && UpdatedItems(items, view) == items
  {
    var view := attrs["menuItems" := List(ItemValues(items))];
    assert UpdatedAttrs(attrs, view) == attrs;
    RebuildItems(items);
  }

  /** Data whose keys cover the attributes, with no menu items and no text
      in `price` or `rating`, replaces the attributes outright. */
  lemma UpdateWithCoercedData(attrs: map<string, Value>, data: map<string, Value>)
    requires Updatable(data) && "menuItems" !in data && attrs.Keys <= data.Keys
    requires "price" in data ==> !data["price"].Str?
    requires "rating" in data ==> !data["rating"].Str?
    ensures UpdatedAttrs(attrs, data) == data
  {
    var r := UpdatedAttrs(attrs, data);
    assert r.Keys == data.Keys;
    forall k | k in data
      ensures r[k] == data[k]
    {
      assert Coerce(k, data[k]) == data[k];
    }
  }

  /** An error list is empty after `validate` exactly when it was empty
      before and the name is truthy. */
  lemma ValidateVerdict(attrs: map<string, Value>, before: seq<string>)
    ensures |before + NameErrors(attrs)| == 0 <==> before == [] && Truthy(Get(attrs, "name"))
    ensures |before + NameErrors(attrs)| <= |before| + 1
  {
  }

  /** The caller's error list, which `validate` appends to. */
  class ErrorList {
    var messages: seq<string>

    constructor ()
      ensures messages == []
    {
      messages := [];
    }
  }

  /** `Restaurant.fromArray(data)`'s object: fixed positions, absent ones
      undefined; `days` parsed by `parseDays`, `price` and `rating` by
      `parseInt(…, 10)`, for which an absent field reads as "undefined". */
  function FieldAt(fields: seq<string>, i: nat): Value {
    if i < |fields| then Str(fields[i]) else Undefined
  }

  /** `parseInt(data[i], 10)`: an absent field is undefined, which
      `parseInt` reads as the text "undefined" and so as NaN (lemma
      `ParseIntOfUndefined`). */
  function NumberAt(fields: seq<string>, i: nat): (v: Value)
    ensures v.NaN? || v.Num?
    ensures i >= |fields| ==> v == NaN
  {
    if i < |fields| then ParseInt(fields[i]) else NaN
  }

  /** The text `parseInt` makes of undefined is not a number. */
  lemma ParseIntOfUndefined(u: string)
    requires u == "undefined"
    ensures ParseInt(u) == NaN
  {
    assert u[0] == 'u';
    ParseIntOfNonNumeral(u);
  }

  function FromArrayData(fields: seq<string>): (data: map<string, Value>)
    requires |fields| > 5
    ensures data.Keys
      == {"id", "name", "cuisine", "opens", "closes", "days", "price", "rating", "location", "description"}
  {
    map["id" := FieldAt(fields, 1),
        "name" := FieldAt(fields, 0),
        "cuisine" := FieldAt(fields, 2),
        "opens" := FieldAt(fields, 3),
        "closes" := FieldAt(fields, 4),
        "days" := List(ParseDays(fields[5])),
        "price" := NumberAt(fields, 6),
        "rating" := NumberAt(fields, 7),
        "location" := FieldAt(fields, 8),
        "description" := FieldAt(fields, 9)]
  }

  /** The keys and values of `fromArray`'s object that construction
      depends on. */
  lemma FromArrayDataFacts(fields: seq<string>)
    requires |fields| > 5
    ensures var data := FromArrayData(fields);
      && "menuItems" !in data && ReservedKeys !! data.Keys
      && "days" in data && "price" in data && "rating" in data
      && !data["price"].Str? && !data["rating"].Str?
      && (data["price"].NaN? || data["price"].Num?) && (data["rating"].NaN? || data["rating"].Num?)
      && Get(data, "name") == Str(fields[0]) && Get(data, "id") == Str(fields[1])
  {
    var data := FromArrayData(fields);
    FromArrayKeysAllowed(fields);
    assert data["price"] == NumberAt(fields, 6);
    assert data["rating"] == NumberAt(fields, 7);
    assert data["name"] == Str(fields[0]);
    assert data["id"] == Str(fields[1]);
  }

  lemma FromArrayKeysAllowed(fields: seq<string>)
    requires |fields| > 5
    ensures var data := FromArrayData(fields);
      && "menuItems" !in data && ReservedKeys !! data.Keys
      && "days" in data && "price" in data && "rating" in data
  {
    FromArrayKeysNotReserved(fields);
    assert "menuItems" !in FromArrayData(fields).Keys;
  }

  lemma FromArrayKeysNotReserved(fields: seq<string>)
    requires |fields| > 5
    ensures ReservedKeys !! FromArrayData(fields).Keys
  {
    var keys := FromArrayData(fields).Keys;
    assert "update" !in keys;
    assert "validate" !in keys;
    assert "__proto__" !in keys;
  }

  lemma FromArrayConstructible(fields: seq<string>)
    requires |fields| > 5
    ensures Constructible(FromArrayData(fields))
  {
    FromArrayDataFacts(fields);
  }

  /** Constructing from `fromArray`'s object keeps that object as it is
      (its price and rating are each a number or NaN already, its days are
      given) except for the id, which is the id field when non-empty and is
      otherwise derived from the name. */
  lemma FromArrayRecord(fields: seq<string>)
    requires |fields| > 5
    ensures (FromArrayConstructible(fields);
      ConstructedAttrs(FromArrayData(fields))
        == FromArrayData(fields)["id" := if fields[1] != "" then Str(fields[1]) else IdFromName(Str(fields[0]))])
  {
    var data := FromArrayData(fields);
    FromArrayDataFacts(fields);
    FromArrayConstructible(fields);
    ConstructCoveringData(data);
  }

  /** Data that already covers the defaults, with no menu items and no text
      in price or rating, is constructed as it is apart from the id. */
  lemma ConstructCoveringData(data: map<string, Value>)
    requires Constructible(data) && "menuItems" !in data
    requires "days" in data && "price" in data && "rating" in data
    requires !data["price"].Str? && !data["rating"].Str?
    ensures ConstructedAttrs(data) == data["id" := DerivedId(data)]
  {
    UpdateWithCoercedData(DefaultAttrs(), data);
  }

  /** A row without a rating column gets NaN as its rating. */
  lemma FromArrayShortRow(fields: seq<string>)
    requires 5 < |fields| <= 7
    ensures (FromArrayConstructible(fields); ConstructedAttrs(FromArrayData(fields))["rating"] == NaN)
  {
    FromArrayRecord(fields);
    var data := FromArrayData(fields);
    assert data["rating"] == NumberAt(fields, 7);
  }

  // ---------------------------------------------------------------------
  // The Restaurant object

  class Restaurant {
    /** Every own property except `menuItems`. */
    var attrs: map<string, Value>
    var menuItems: seq<MenuItem>

    /** The object invariant (unrelated to `validate`, which checks the
        name): attributes coerced and an id property present. */
    ghost predicate Valid()
      reads this
    {
      CoercedAttrs(attrs) && "id" in attrs
    }

    /** The object's own properties as a plain object. */
    function View(): (props: map<string, Value>)
      reads this
      ensures props.Keys == attrs.Keys + {"menuItems"}
    {
      attrs["menuItems" := List(ItemValues(menuItems))]
    }

    /** `new Restaurant(data)`: defaults, then `update(data)`, then the id. */
    constructor (data: map<string, Value>)
      requires Constructible(data)
      ensures Valid()
      ensures attrs == ConstructedAttrs(data)
      ensures menuItems == UpdatedItems([], data)
    {
      attrs := DefaultAttrs();
      menuItems := [];
      new;
      Update(data);
      attrs := attrs["id" := DerivedId(attrs)];
    }

    /** `update(data)`: copy every key of `data` (coercing text prices and
        ratings), then rebuild every menu item. */
    method Update(data: map<string, Value>)
      requires CoercedAttrs(attrs) && Updatable(data)
      modifies this
      ensures CoercedAttrs(attrs)
      ensures attrs == UpdatedAttrs(old(attrs), data)
      ensures menuItems == UpdatedItems(old(menuItems), data)
      ensures "id" in old(attrs) ==> Valid()
    {
      // `raw` is `this.menuItems` while the keys are being copied.
      var raw := ItemValues(menuItems);
      var done: set<string> := {};
      while done != data.Keys
        invariant done <= data.Keys
        invariant attrs == Overlay(old(attrs), data, done)
        invariant raw == if "menuItems" in done then data["menuItems"].items else ItemValues(old(menuItems))
        decreases data.Keys - done
      {
        assert data.Keys - done != {};
        var key :| key in data.Keys - done;
        OverlayStep(old(attrs), data, done, key);
        if key == "menuItems" {
          raw := data[key].items;
        } else if (key == "price" || key == "rating") && data[key].Str? {
          attrs := attrs[key := ParseInt(data[key].s)];
        } else {
          attrs := attrs[key := data[key]];
        }
        done := done + {key};
      }
      RebuildItems(old(menuItems));
      menuItems := MenuItemsOf(raw);
    }

    /** `validate(errors)`: append the name error when the name is falsy,
        then report whether the list is empty. */
    method Validate(errors: ErrorList) returns (ok: bool)
      modifies errors
      ensures errors.messages == old(errors.messages) + NameErrors(attrs)
      ensures ok <==> errors.messages == []
      ensures ok <==> old(errors.messages) == [] && Truthy(Get(attrs, "name"))
    {
      if !Truthy(Get(attrs, "name")) {
        errors.messages := errors.messages + [NameMandatory];
      }
      ok := |errors.messages| == 0;
    }

    /** `Restaurant.fromArray(fields)`. */
    static method FromArray(fields: seq<string>) returns (r: Restaurant)
      requires |fields| > 5
      ensures fresh(r) && r.Valid()
      ensures (FromArrayConstructible(fields); r.attrs == ConstructedAttrs(FromArrayData(fields)))
      ensures r.menuItems == []
    {
      FromArrayConstructible(fields);
      r := new Restaurant(FromArrayData(fields));
    }
  }
}
