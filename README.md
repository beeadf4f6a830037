# FoodMe restaurant server and checkout, modelled in Dafny

This project models the core of the FoodMe sample application:

- **The restaurant record** of `server/model.js`:
  - `idFromName`;
  - the `DAYS` table and `parseDays`;
  - the `Restaurant` constructor, `update`, `validate` and `fromArray`;
  - `MenuItem` and `MenuItem.fromArray`.
- **The decision logic of the REST server** in `server/index.js`:
  - the `removeMenuItems` projection;
  - the order tally;
  - the handlers that list, read, create, update and delete restaurants;
  - the start-up load.
- **The browser's checkout controller** (`app/js/controllers/CheckoutController.js`):
  - the American Express check;
  - the `submitting` guard that lets an order go out at most once.

Files and modules:

- `js.dfy` (module `Js`): the JavaScript values the code handles.
  - JSON values plus `undefined` and `NaN`, with JavaScript truthiness.
  - `toLowerCase`, `replace(/\W/g, '')`, `split`/`join` on one character, and `parseInt(…, 10)`.
  - Each built-in comes with lemmas on how it behaves: concatenation, round trips, reading back a numeral.
- `model.dfy` (module `Model`):
  - Pure specification functions: `UpdatedAttrs`, `UpdatedItems`, `ConstructedAttrs`, `NameErrors`, `ParseDays`, `IdFromName`.
  - A `Restaurant` class whose methods are proved against those functions. The constructor sets the defaults in one assignment, runs `Update` and then sets the id. `Update` changes the record's fields in place. `Validate` leaves the record alone and appends to the caller's `ErrorList`.
  - `update`'s `forEach` over the keys is a loop. Its invariant says that the keys copied so far have been overlaid onto the old attributes.
- `storage.dfy` (module `Storage`): the store as an abstract map from id to record.
  - `add`, `getById`, `deleteById` and `getAll`.
  - Contracts say only what the handlers rely on.
- `server.dfy` (module `Server`):
  - The handlers, as methods that change the store and return a status and a payload.
  - `removeMenuItems` and the tally as loops proved against reference functions.
  - The load loop. It is proved to store the old ids plus the id of every entry's constructed record, and each new id holds the whole record, menu items included, constructed from some entry with that id. Which of several entries sharing an id survives is not stated, because the store's overwrite policy is left open.
- `checkout.dfy` (module `Checkout`):
  - `purchase` as a transition function on the controller's state.
  - A class whose `Purchase` method performs that transition.
  - Lemmas about any sequence of purchases.

## Model

| member | source | states |
|---|---|---|
| Js.Truthy | server/model.js:3 | the falsy values are exactly undefined, null, NaN, false, 0 and the empty string (the tests at server/model.js:41, 63 and server/index.js:101, 113 use the same rule) |
| Js.LowerChar | server/model.js:3 | ASCII capitals map to their small letters, other ASCII is kept, and no result holds an ASCII capital |
| Js.ToLowerCase | server/model.js:3 | no ASCII capital survives, and the text never gets shorter |
| Js.RemoveNonWord | server/model.js:3 | only word characters `[A-Za-z0-9_]` remain, and the text never gets longer |
| Js.Split | server/model.js:24 | at least one piece, and no piece holds the separator |
| Js.ParseInt | server/model.js:49 | the result is NaN or an integer |
| Js.ParseIntOfDecimal | server/model.js:49 | `parseInt(s, 10)` reads back the numeral of any integer after any leading white space and before any non-digit text |
| Js.ParseIntOfNumeral | server/model.js:49 | the numeral of an integer, followed by non-digit text, parses to that integer (negative numbers included) |
| Js.ParseIntOfNatural | server/model.js:49 | the digits of a natural number, followed by non-digit text, parse to that number |
| Js.ParseIntOfNegative | server/model.js:49 | a minus sign and the digits of `-n`, followed by non-digit text, parse to the negative integer `n` |
| Js.ParseIntOfMinus | server/model.js:49 | `parseInt` reads a leading minus sign and then the digits as the negated value |
| Js.ParseIntSkipsWhiteSpace | server/model.js:49 | leading white space does not change what `parseInt` reads |
| Js.ParseIntOfNonNumeral | server/model.js:49 | text that starts with neither white space, a sign nor a digit gives NaN |
| Js.ReadDigitsOfDecimal | server/model.js:49 | the digit reader recovers a natural number from its decimal digits when a non-digit follows |
| Js.DigitsValueOfDecimal | server/model.js:49 | the value of a number's decimal digits is the number |
| Js.DigitPrefixOfDigits | server/model.js:49 | the longest digit prefix of digits followed by a non-digit is exactly those digits |
| Js.TrimStartOfWhiteSpace | server/model.js:49 | stripping leading white space removes exactly the white-space prefix |
| Js.SplitLength | server/model.js:24 | `split(',')` yields one more piece than there are commas |
| Js.JoinSplit | server/model.js:24 | joining the pieces of a split with the separator restores the text |
| Js.SplitJoin | server/model.js:24 | splitting the join of separator-free pieces gives the pieces back |
| Js.SplitPrefix | server/model.js:24 | a separator-free prefix is glued onto the first piece of the rest |
| Js.SplitWithoutSeparator | server/model.js:24 | text without the separator splits into itself alone |
| Js.RemoveNonWordAppend | server/model.js:3 | stripping non-word characters distributes over concatenation |
| Js.ToLowerCaseAppend | server/model.js:3 | lower-casing distributes over concatenation |
| Model.IdOf | server/model.js:3 | the lower-cased, stripped name holds only `[a-z0-9_]` |
| Model.IdFromName | server/model.js:2-4 | a falsy name is returned unchanged; a truthy (string) name gives a string made only of `[a-z0-9_]` |
| Model.RemoveNonWordKeeps | server/model.js:3 | stripping keeps only characters of its input |
| Model.LowerWordsAreIdChars | server/model.js:3 | after lower-casing, every character that `\W` keeps is in `[a-z0-9_]` |
| Model.IdOfOfIdChars | server/model.js:3 | a string made of `[a-z0-9_]` is its own id |
| Model.IdOfFixpoint | server/model.js:3 | a string is its own id exactly when it holds only `[a-z0-9_]` |
| Model.IdFromNameIdempotent | server/model.js:2-4 | deriving an id twice gives the same id as once, including the falsy case |
| Model.IdOfAppend | server/model.js:3 | the id of a concatenation is the concatenation of the ids |
| Model.IdOfCons | server/model.js:3 | the id of a name, one character at a time |
| Model.DayName | server/model.js:12-20 | each day number 0..6 has a code in the table that maps back to it |
| Model.DayOf | server/model.js:25 | a table lookup gives undefined or a day number in 0..6 |
| Model.DayOfIff | server/model.js:12-25 | a token gives day `d` exactly when it is that day's code; it gives undefined exactly when it is not a code |
| Model.DayNameOfCode | server/model.js:12-20 | every code in the table is the code of its own day number (the table is one-to-one) |
| Model.ParseDays | server/model.js:23-27 | one entry per comma-separated token, each the table lookup of that token |
| Model.ParseDaysLength | server/model.js:24 | the number of entries is the number of commas plus one |
| Model.ParseDaysOfJoined | server/model.js:23-27 | parsing day codes joined by commas gives back the day numbers |
| Model.ParseDaysUnknownToken | server/model.js:25 | a single token that is not a code gives one undefined entry |
| Model.ParseDaysExample | server/model.js:23-27 | `"Mo,We,Fr"` parses to 1, 3, 5 |
| Model.DayLookupAsWritten | server/model.js:25 | the lookup as written gives a day number exactly for the seven codes |
| Model.ParseDaysAsWritten | server/model.js:23-27 | as written, one entry per comma-separated token |
| Model.ParseDaysAsWrittenInherits | server/model.js:25 | as written, the token `toString` reads an inherited member of `Object.prototype`, where the intended table gives undefined |
| Model.MenuItem.ToValue | server/model.js:87-90 | a menu item serialises to an object with exactly `name` and `price` |
| Model.MenuItemOf | server/model.js:87-90 | `new MenuItem(data)` holds exactly `data.name` and `data.price` |
| Model.MenuItemRoundTrip | server/model.js:87-90 | rebuilding a menu item from its own object gives it back |
| Model.MenuItemFromArray | server/model.js:93-98 | name from position 1, price from `parseFloat` of position 2, absent positions undefined |
| Model.MenuItemFromArrayIgnoresOwner | server/model.js:93-98 | position 0 does not affect the item |
| Model.MenuItemsOf | server/model.js:56-58 | one item per raw element |
| Model.ItemValues | server/model.js:56-58 | serialised items are never null or undefined, so they can be rebuilt |
| Model.RebuildItems | server/model.js:56-58 | mapping items that already are menu items through `new MenuItem` leaves them equal |
| Model.DefaultAttrs | server/model.js:32-35 | the defaults hold `days`, `price` and `rating`, with no text in `price` or `rating`, no menu items and no reserved key |
| Model.Coerce | server/model.js:47-52 | text under `price` or `rating` becomes `parseInt(text, 10)`; every other key or value is copied verbatim |
| Model.OverlayStep | server/model.js:46-53 | copying one more key sets exactly that key, and `menuItems` never reaches the attributes |
| Model.UpdatedAttrs | server/model.js:45-53 | keys are old plus given (minus `menuItems`); every given key holds its coerced value; every other key keeps its old value; coercion is preserved |
| Model.UpdatedItems | server/model.js:56-58 | given `menuItems` are rebuilt element by element; otherwise the old items stay equal |
| Model.DerivedId | server/model.js:41 | a truthy id is kept; otherwise the id is derived from the name |
| Model.ConstructedAttrs | server/model.js:30-42 | a constructed record is coerced and always has an `id` property |
| Model.ConstructedView | server/model.js:30-59 | the own properties of a constructed record are its attributes, each unchanged, plus `menuItems`; its id is the constructed id |
| Model.NameErrors | server/model.js:63-65 | no error exactly when the name is truthy, and otherwise exactly the mandatory-name message |
| Model.ConstructEmpty | server/model.js:32-41 | construction from `{}` gives days 1..6, price 0, rating 0, no menu items and an undefined id |
| Model.ConstructedKeys | server/model.js:30-42 | a constructed record's keys are the defaults, `id` and every given key except `menuItems` |
| Model.ConstructedFields | server/model.js:30-42 | where each value comes from: given or default days, coerced or 0 price and rating, supplied-or-derived id, every other key verbatim |
| Model.ConstructedName | server/model.js:30-42 | the name is copied verbatim |
| Model.ConstructedId | server/model.js:41 | the id is the supplied id when truthy; otherwise it is falsy or made of `[a-z0-9_]` only |
| Model.UpdatePriceExample | server/model.js:48-51 | `{price: "3"}` and `{price: 3}` both store the number 3 |
| Model.UpdateIdempotent | server/model.js:45-59 | updating twice with the same data equals updating once |
| Model.UpdateWithOwnView | server/model.js:45-59 | updating a record with its own serialised properties changes nothing |
| Model.UpdateWithCoercedData | server/model.js:45-53 | data that covers every attribute, has no menu items and has no text in price or rating replaces the attributes outright |
| Model.ValidateVerdict | server/model.js:62-68 | the list is empty after validation exactly when it was empty before and the name is truthy; at most one message is added |
| Model.ErrorList.constructor | server/index.js:58 | the caller's error list starts empty |
| Model.NumberAt | server/model.js:79-80 | `parseInt` of a field is a number or NaN, and an absent field gives NaN |
| Model.ParseIntOfUndefined | server/model.js:79-80 | the text `"undefined"` that `parseInt` makes of an absent field is NaN |
| Model.FromArrayData | server/model.js:72-83 | `fromArray`'s object has exactly the ten listed keys |
| Model.FromArrayKeysNotReserved | server/model.js:72-83 | none of those keys overwrites a method or the prototype |
| Model.FromArrayKeysAllowed | server/model.js:72-83 | the object has no `menuItems`, no reserved key, and has days, price and rating |
| Model.FromArrayDataFacts | server/model.js:72-83 | the object's price and rating are each a number or NaN (never text), its name is field 0 and its id field 1 |
| Model.FromArrayConstructible | server/model.js:71-84 | the object built from a row can always be constructed |
| Model.FromArrayRecord | server/model.js:71-84 | the record is the object unchanged except for the id, which is field 1 when non-empty and otherwise derived from field 0 |
| Model.ConstructCoveringData | server/model.js:30-53 | data that already holds days, price and rating, with no menu items and no text in price or rating, is constructed unchanged except for the id |
| Model.FromArrayShortRow | server/model.js:80 | a row without a rating column gets a NaN rating |
| Model.Restaurant.View | server/model.js:30-59 | the own properties are the attributes plus `menuItems` |
| Model.Restaurant.constructor | server/model.js:30-42 | the new record's attributes are `ConstructedAttrs(data)` and its items are the given menu items, rebuilt |
| Model.Restaurant.Update | server/model.js:45-59 | the new attributes are `UpdatedAttrs(old, data)` and the new items are `UpdatedItems(old, data)`; coercion is kept |
| Model.Restaurant.Validate | server/model.js:62-68 | appends `NameErrors(attrs)` to the list and returns whether the list is then empty |
| Model.Restaurant.FromArray | server/model.js:71-84 | a fresh record equal to constructing from the row's object, with no menu items |
| Storage.Memory.constructor | server/index.js:37 | the store starts empty |
| Storage.Memory.Add | server/index.js:62 | the id is present afterwards, other ids keep their records, and a new id holds the added record; the stored views change only at that id, to the added record's whole view (menu items included), unless the id was already taken |
| Storage.Memory.GetById | server/index.js:100 | the record stored under the id, or nothing exactly when there is none |
| Storage.Memory.DeleteById | server/index.js:130 | removes the id and reports whether it was present |
| Storage.Memory.GetAll | server/index.js:52 | one entry per stored id: the ghost list of ids is duplicate-free and holds exactly the stored ids, and entry `i` is the record stored under id `i` |
| Server.RemoveMenuItems | server/index.js:21-32 | the clone is `WithoutMenuItems` of the input; the input is a value and is untouched |
| Server.WithoutMenuItemsKeeps | server/index.js:21-32 | the projection has every key but `menuItems`, each with its original value |
| Server.WithoutMenuItemsIdempotent | server/index.js:21-32 | projecting twice equals projecting once |
| Server.WithoutMenuItemsOfView | server/index.js:52 | projecting a record's properties gives back exactly its attributes |
| Server.Tally | server/index.js:78-83 | the accumulators end as the sum of quantities and the sum of price times quantity |
| Server.TallyAppend | server/index.js:78-83 | tallying two lists of items adds their tallies |
| Server.TallyBounds | server/index.js:78-83 | an empty order tallies 0 and 0; non-negative quantities give a non-negative count; the total is at most the highest price times the count |
| Server.PostOrder | server/index.js:70-96 | reports customer, restaurant and both tallies, and replies 201 with the given time as the order id |
| Server.NotFound | server/index.js:104 | the error text starts with the fixed prefix and quotes the id right after it |
| Server.NotFoundInjective | server/index.js:104 | distinct ids give distinct error texts |
| Server.GetAllRestaurants | server/index.js:51-53 | 200 with one entry per stored id: the ghost list of ids is duplicate-free and holds exactly the stored ids, and entry `i` is exactly the attributes (no menu items) of the record under id `i` |
| Server.GetRestaurant | server/index.js:99-105 | 200 with the stored record when present, else 400 with the text naming the id |
| Server.PostRestaurant | server/index.js:56-67 | 201 exactly when the name is truthy; then the constructed record is returned and stored under its id, and a new id holds exactly the constructed attributes and the constructed own properties, menu items included; otherwise 400 with the name error and the store unchanged |
| Server.StoreCreated | server/index.js:62-63 | the constructed record is stored under its id, other ids keep their records, a new id holds exactly the constructed attributes and own properties (menu items included), and the reply is 201 with the record |
| Server.PutRestaurant | server/index.js:108-126 | an existing record is updated in place without validation (the body need only be updatable, not constructible), the store is unchanged and the reply is 200; a missing id behaves as POST, with the new id taken from the body, and a new id holds the constructed attributes and own properties, menu items included |
| Server.DeleteRestaurant | server/index.js:129-134 | the id is removed; 204 exactly when it was present, else 400 naming the id |
| Server.LoadedViews | server/index.js:144-146 | one record view per entry, each with an `id` property |
| Server.LoadedViewsAt | server/index.js:144-146 | view `i` is exactly the own properties (menu items included) of the record constructed from entry `i` |
| Server.LoadedViewsAll | server/index.js:144-146 | the same for every entry at once |
| Server.IdsUpToStep | server/index.js:144-146 | loading one more entry adds exactly its id |
| Server.IdsUpToBound | server/index.js:144-146 | a load stores no more ids than there are entries |
| Server.BuiltFromStep | server/index.js:144-146 | every newly stored id still holds, as its whole view, the record of one loaded entry with that id |
| Server.BuiltFromEntries | server/index.js:144-146 | once all entries are loaded, each new id holds the whole record (menu items included) constructed from some entry with that id |
| Server.LoadKeysStep | server/index.js:144-146 | after one more entry the keys are the old keys plus the ids loaded so far, and untouched old records stay |
| Server.AddRecord | server/index.js:145 | the constructed record's id is present afterwards, other ids keep their records, and its whole view (attributes and menu items) is stored under that id unless the id was already taken |
| Server.LoadEntry | server/index.js:144-146 | storing entry `n` extends the loaded prefix from `n` to `n + 1` entries: the keys gain its id, old records no entry reused stay, and every new id's whole view (menu items included) is that of a loaded entry with that id |
| Server.Load | server/index.js:137-153 | an unreadable file stores nothing and does not start; a parsed file starts, the stored ids become the old ids plus the ids of the entries' constructed records, an old id that no entry reuses keeps its record, and each new id holds the whole record (attributes and menu items) constructed from some entry with that id |
| Checkout.IsAmericanExpress | app/js/controllers/CheckoutController.js:13-15 | true exactly when the first two characters are "34" or "37" |
| Checkout.AmericanExpressIff | app/js/controllers/CheckoutController.js:13-15 | the check is true exactly for numbers starting with "34" or "37" |
| Checkout.AmericanExpressPrefix | app/js/controllers/CheckoutController.js:13-15 | digits after the first two never change the verdict |
| Checkout.PurchaseStep | app/js/controllers/CheckoutController.js:18-36 | submitting: nothing changes; American Express: one more alert and still not submitting; otherwise submitting and one more submission |
| Checkout.SubmittingIsFinal | app/js/controllers/CheckoutController.js:20 | once submitting, any further purchases change nothing |
| Checkout.AmericanExpressOnly | app/js/controllers/CheckoutController.js:23-27 | purchases with American Express cards only add alerts and never submit |
| Checkout.SubmitsAtMostOnce | app/js/controllers/CheckoutController.js:20-35 | from a state that is not submitting, at most one submission ever happens; it happens exactly when some card is not American Express, and then the flag stays set |
| Checkout.CheckoutController.constructor | app/js/controllers/CheckoutController.js:7-10 | the controller starts not submitting, for the cart's restaurant |
| Checkout.CheckoutController.Purchase | app/js/controllers/CheckoutController.js:18-36 | the new state is `PurchaseStep(old state, card number)` and the restaurant id is kept |

## Left out

- The HTTP framework is outside the model: Express, morgan, static files, `bodyParser` and response objects (server/index.js:36-46). A handler returns a status code and a payload.
- Restaurant bodies are not parsed as written. Only the order route installs `jsonParser` (server/index.js:70). `app` is local to `exports.start` (server/index.js:36) and is never exported, so nothing else can add a parser. On the POST and PUT restaurant routes (server/index.js:56, 108) `req.body` is therefore undefined. Every such request throws at `Object.keys(undefined)` (server/model.js:46), through the constructor or through `update` (server/index.js:114, 119), and ends in a 500. `Server.PostRestaurant` and `Server.PutRestaurant` model these handlers with a parsed JSON body, as the order route receives one.
- New Relic, the pino logger and `open` are foreign side effects. `PostOrder` returns the custom attributes it would report instead.
- `Date.now()` is a clock: `PostOrder` takes the time as a parameter.
- `fs.readFile`, `JSON.parse`, the SIGINT handler, `fs.writeFile` and `process.exit` are I/O. `Load` takes the file as already parsed or unreadable. Saving on SIGINT is not modelled.
- Server.Tally: the sums are exact real numbers, not IEEE doubles, so rounding is not modelled.
- Model.Restaurant.FromArray: uses the corrected day lookup `Model.ParseDays` from "## Findings". A days field holding a token such as `toString` stores undefined here; as written it stores the function inherited from `Object.prototype`. `Model.FromArrayData` and `Model.FromArrayRecord` share this.
- Server.PostOrder: the order always has `items`, `deliverTo` and `restaurant`. A body missing `items` throws at `order.items.forEach` (server/index.js:80). A body missing `deliverTo` or `restaurant` throws at `.name` of undefined (server/index.js:87-88). Each ends in a 500, not the 201 the model always gives.
- Server.OrderItem: `qty` and `price` are numbers. Bodies where they are strings are not modelled; there `itemCount += item.qty` (server/index.js:81) would concatenate text. Bodies where they are missing are not modelled either; there the tallies become NaN.
- Model.MenuItemFromArray: `parseFloat` is an abstract function parameter, because it is floating-point parsing.
- `server/storage.js` is not part of this model.
- Storage.Memory.Add: does not state whether an id that is already stored keeps the old record or takes the new one, because the store's own source is not available.
  - Every lemma and handler above allows either outcome.
- Storage.Memory.GetAll: the order of the listed records is not stated, for the same reason.
- Ids in URLs are `Str` values, while records are stored under their `id` value. A record whose id is a number is not found by a URL lookup in the model. JavaScript's string coercion of property keys is not modelled.
- Calls in which the source throws are excluded by preconditions rather than modelled:
  - `menuItems` that is not an array, or that holds null or undefined (`update` throws at server/model.js:56);
  - on construction only, a truthy non-string name with no truthy id (`idFromName` throws at server/model.js:3). `Server.PutRestaurant` on a stored id admits such a body, as the source does;
  - `fromArray` on a row with fewer than six fields, where `parseDays(undefined)` throws;
  - `MenuItem` of null or undefined.
- Data keys `update`, `validate` and `__proto__` are excluded by preconditions because they corrupt the record, not because the copy throws. Setting `__proto__` to a non-object is ignored. Setting `update` or `validate` makes an own property that shadows the method, so the next `validate` (server/index.js:61) or `update` (server/index.js:114) call throws.
- Model.IdFromName: lower-casing is exact on ASCII and on the two non-ASCII letters whose lower case contains an ASCII word character. Every other non-ASCII character is removed by `\W` either way, but the length of its lower case is not modelled.
- `parseInt` on `"-0"` gives 0 here; JavaScript gives negative zero. Precision loss above 2^53 is not modelled.
- The checkout controller records `alert` and `cart.submitOrder()` as counters. The navigation in the `then` callback and the asynchrony are not modelled.
- The card number is a string. A non-string card number, which the regular expression would coerce, is not modelled.
- The key order of objects is not modelled: records are maps.
- `isString` (server/model.js:7-9) is the `Str?` test inside `Model.Coerce`.

## Findings

| source | as written | input that shows it | evidently intended | confidence | as-written member | corrected member |
|---|---|---|---|---|---|---|
| server/model.js:25 | `DAYS[day]` reads the object literal, which inherits `Object.prototype`'s members | the day string `"toString"` yields the inherited function instead of undefined | only the seven day codes map to a value; every other token is undefined | not executed | Model.ParseDaysAsWrittenInherits | Model.ParseDaysUnknownToken |
