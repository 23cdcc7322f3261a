# E-commerce MERN store: backend controllers and client cart, in Dafny

This project models the core of a small MERN shop:

- **Backend controllers:**
  - user registration and login;
  - the one-admin gate;
  - the product catalogue;
  - checkout and the admin's order views.
- **Client logic:**
  - the cart context, with entry normalisation, price parsing, totals and the offline edits;
  - the checkout page's prechecks, line totals and messages;
  - the home page's product search.

Each MongoDB collection is a class (`Store.UserStore`, `Store.OrderStore`, …) holding a `seq` of documents. Its ghost `Valid()` says ids (and user e-mails) are unique, or that there is at most one admin. `Store.NotificationStore` has no `Valid()`: its methods keep no invariant over the notifications. Controllers are methods that take the stores they touch and say, in `ensures`, what each reply is and what each collection becomes. The client's React state is also classes: `CartContext.CartState`, `CheckoutPage.CheckoutForm` and `HomePage.HomeState`. Their methods update fields the way `setState` does. The pure parts are functions, with lemmas that connect them to independent statements of what they should do:

- `filter` keeps exactly the passing elements, every copy of them, in order; `reduce` sums split and append.
- `parseFloat` reads any digit string as the number it spells (`Text.DigitsValue`) and `w.f` as `w` plus the fraction `f / 10^|f|`; a leading `-` negates what it reads.
- `parseInt` and `Number()` read any digit string as the number it spells; `parseInt` of a text that starts with a letter is NaN.
- `Number(String(i))` is `i` for every whole number `i`. `String()` of a fractional number is not modelled.
- Truthiness of `a || b` is that of either side, and `||` chains associate.

The server's checkout and the client's two cart edits (remove, update quantity) each have a specification function: `OrderController.CheckoutSpec`, `CartContext.RemoveStep` and `CartContext.UpdateStep`. The method's `ensures` equals that function, and lemmas prove the properties the code promises about it.

Some inputs are parameters because the code gets them from outside: the id the database hands a new document, the bcrypt salt, `Date.now()`, the server's reply to a client request, and whether creating the admin notification fails. bcrypt is a symbolic digest that keeps the 72 key bytes bcrypt's key schedule reads: the password's UTF-8 bytes and a NUL byte, repeated. So `compare(p, hash(p))` holds, and two passwords that share their first 72 bytes match each other's digests. For passwords of at most 72 bytes without a NUL character, a digest accepts exactly the password it was made from. A JWT is a token that records its subject and its 12-hour lifetime. Prices and totals are exact reals.

JavaScript's `parseFloat` is modelled as the longest valid prefix. On the server side, after cleaning, that prefix is digits, then `.` and digits. The client also keeps a leading sign. `parseInt` is an optional sign plus a run of decimal digits, or `0x` followed by hexadecimal digits.

## Model

| member | source | states |
|---|---|---|
| OrderController.Checkout | Backend/src/Controller/order.controller.js:7-77 | replies, warnings and collections after the call equal `CheckoutSpec` of the collections before it; store invariants are kept |
| OrderController.CheckoutRefusedChangesNothing | Backend/src/Controller/order.controller.js:12-13 | checkout is refused (404/400) exactly when the user is unknown or has an empty cart, and then no collection changes and no warning is logged |
| OrderController.CheckoutPlacesOneOrder | Backend/src/Controller/order.controller.js:16-47 | on success exactly one order is appended with the user, the cart's snapshot and its total; that user's cart is emptied and every other user is unchanged; one notification is added unless creating it failed |
| OrderController.PlaceOrder | Backend/src/Controller/order.controller.js:43-72 | a 201 reply carrying the saved order whatever the notification does; the order is appended, the cart cleared, the notification added only when it did not fail |
| OrderController.BuildOrder | Backend/src/Controller/order.controller.js:16-41 | builds the order `PlacedOrder` describes and warns exactly when the address has neither street nor postal code |
| OrderController.OrderDefaults | Backend/src/Controller/order.controller.js:34-38 | the stored address and method are never falsy; a missing address, or one with neither street nor postal code, is warned about; a missing method is stored as 'unknown' |
| OrderController.StoreOrder | Backend/src/Controller/order.controller.js:43 | appends the order and keeps order ids unique |
| OrderController.ClearCart | Backend/src/Controller/order.controller.js:46-47 | only that user's cart becomes empty; ids and e-mails stay unique |
| OrderController.NotifyAdmin | Backend/src/Controller/order.controller.js:49-70 | a failure to create the notification stores nothing and is swallowed; otherwise exactly one notification is appended |
| OrderController.Populate | Backend/src/Controller/order.controller.js:10 | finds the product with the cart line's id, or reports that no product has it |
| OrderController.Snapshot | Backend/src/Controller/order.controller.js:16-25 | one order line per cart line, in cart order |
| OrderController.SnapshotCopiesProduct | Backend/src/Controller/order.controller.js:17-24 | for an existing product the line references its id and copies its title, image and non-empty price; the quantity is `quantity \|\| 1` |
| OrderController.SnapshotOfMissingProduct | Backend/src/Controller/order.controller.js:17-24 | a line whose product is gone still yields an item: `{}` with '' , '0', '' and `quantity \|\| 1` |
| OrderController.OrOne | Backend/src/Controller/order.controller.js:23 | a quantity of 0 becomes 1 and any other quantity is kept, so a line never has quantity 0 |
| OrderController.BackendPriceNonNegative | Backend/src/Controller/order.controller.js:29 | a parsed server-side price is never negative, whatever the text, as `-` is stripped |
| OrderController.BackendPriceReadsDecimal | Backend/src/Controller/order.controller.js:29 | a price `w.f`, with any currency sign or other non-price characters in front, is the whole part plus the fraction |
| OrderController.BackendPriceDropsSign | Backend/src/Controller/order.controller.js:29 | a minus sign is stripped: "-t" costs what "t" costs |
| OrderController.TotalAmountNonNegative | Backend/src/Controller/order.controller.js:28-31 | with no negative quantity the order total is not negative |
| OrderController.TotalAmountAppend | Backend/src/Controller/order.controller.js:28-31 | the total of two runs of lines is the sum of their totals |
| OrderController.TenDollars | Backend/src/Controller/order.controller.js:29 | "$10.00" is 10 |
| OrderController.NineteenNinetyNine | Backend/src/Controller/order.controller.js:29 | "19.99" is 19.99 |
| OrderController.TotalAmountExample | Backend/src/Controller/order.controller.js:28-31 | two lines at "$10.00" and one at "19.99" total 39.99 |
| OrderController.UserName | Backend/src/Controller/order.controller.js:51 | the full name when it is non-empty, else the e-mail when that is non-empty, else the user id |
| OrderController.NotificationMarksCod | Backend/src/Controller/order.controller.js:61-64 | the message contains " (COD)" exactly when the payment method is `'cod'` (for a name without parentheses and a hexadecimal order id) |
| OrderController.NameCanCarryCodMarker | Backend/src/Controller/order.controller.js:51-64 | without the no-parenthesis hypothesis the marker can come from the name: "Bob (COD)" paying by card gets a message containing " (COD)" |
| OrderController.Limit | Backend/src/Controller/order.controller.js:82 | never 0; 8 without a query, for NaN and for 0; otherwise the whole number `parseInt` reads, so a digit string gives the number it spells |
| OrderController.LimitExamples | Backend/src/Controller/order.controller.js:82 | "5" gives 5, "0" and "abc" give 8 |
| OrderController.RecentOrdersAreNewest | Backend/src/Controller/order.controller.js:82-83 | the orders read are newest first, drawn from the store, as many as the limit allows (8 by default), and no order left out is newer than any order read |
| OrderController.GetRecentOrders | Backend/src/Controller/order.controller.js:80-103 | the entries are the lines of the newest orders, order by order, each order's lines in order; as many entries as those orders have lines |
| OrderController.PushOrderRows | Backend/src/Controller/order.controller.js:88-100 | appends one entry per line of the order, in line order |
| OrderController.OrderRows | Backend/src/Controller/order.controller.js:88-100 | entry `j` is built from line `j` and carries its order's id, time, buyer and address |
| OrderController.RowOrigin | Backend/src/Controller/order.controller.js:87-101 | every entry comes from some line of some listed order |
| OrderController.FlattenRowsLength | Backend/src/Controller/order.controller.js:87-101 | the entry count equals the total number of lines |
| OrderController.OrderedBy | Backend/src/Controller/order.controller.js:97 | the buyer shown is the user the order names, or none when that user is gone |
| OrderController.GetAllOrders | Backend/src/Controller/order.controller.js:111-119 | every order, newest first, each with its populated buyer (`OrderedBy`: the id, name and e-mail of the user with the order's user id, or null when no such user exists) |
| OrderController.DeleteOrder | Backend/src/Controller/order.controller.js:124-137 | empty id 400; uncastable id 500; unknown id 404; all three leave the store unchanged; otherwise exactly that order is removed and returned and its id is gone |
| AuthController.Validate | Backend/src/Controller/auth.controller.js:12-46 | the first failing check in the fixed order (fields, name, e-mail, phone, password), every earlier one passing; none exactly when all pass; the name and password lengths are counted in UTF-16 code units, as `.length` counts them (`Text.Utf16Length`) |
| AuthController.RegisterUser | Backend/src/Controller/auth.controller.js:7-82 | a failed check answers 400 with its own message and stores nothing; a taken e-mail answers 400 and the store still holds exactly one user with it; otherwise the user is stored with a bcrypt digest and a 12-hour token for the new id is returned with no password |
| AuthController.StoreRegistration | Backend/src/Controller/auth.controller.js:48-82 | the duplicate check, then the insertion and the reply, for a registration that passed validation |
| AuthController.UniqueEmailCount | Backend/src/Controller/auth.controller.js:48-56 | with unique e-mails a stored user's address is held once |
| AuthController.SampleValid | Backend/src/Controller/auth.controller.js:12-46 | a typical registration passes every check |
| AuthController.RejectsMissingField | Backend/src/Controller/auth.controller.js:12-16 | an empty name fails the first check |
| AuthController.RejectsShortName | Backend/src/Controller/auth.controller.js:19 | a two-letter name fails the name check |
| AuthController.RejectsBadEmail | Backend/src/Controller/auth.controller.js:26-27 | a text without `@` fails the e-mail check |
| AuthController.RejectsShortPhone | Backend/src/Controller/auth.controller.js:34-35 | five digits fail the phone check |
| AuthController.RejectsShortPassword | Backend/src/Controller/auth.controller.js:42 | a six-character password fails the password check |
| AuthController.AcceptsAstralPassword | Backend/src/Controller/auth.controller.js:42 | four emoji, eight UTF-16 code units, pass the password check |
| AuthController.AcceptsAstralName | Backend/src/Controller/auth.controller.js:19 | a name of two emoji, four UTF-16 code units, passes the name check |
| Text.Utf16LengthBmp | Backend/src/Controller/auth.controller.js:42 | text inside the Basic Multilingual Plane has one code unit per character |
| Text.Utf16LengthAstral | Backend/src/Controller/auth.controller.js:42 | text outside the Basic Multilingual Plane has two code units per character |
| AuthController.LoginUser | Backend/src/Controller/auth.controller.js:84-116 | a login succeeds only for a stored e-mail and a password its digest accepts (`Credentials.Compare`), with a token for that user and no password in the reply |
| AuthController.LoginFailsUniformly | Backend/src/Controller/auth.controller.js:87-101 | an unknown e-mail and a wrong password give the identical 400 reply |
| AuthController.LoginSucceeds | Backend/src/Controller/auth.controller.js:95-115 | a password the stored digest accepts logs in as that user |
| AuthController.LoginWithSharedPrefix | Backend/src/Controller/auth.controller.js:95-115 | a user registered with a password of 72 bytes or more also logs in with any password sharing its first 72 bytes |
| AuthController.RegisterThenLogin | Backend/src/Controller/auth.controller.js:58-115 | who just registered can log in with the same password |
| EmailPattern.EmailHasOneAt | Backend/src/Controller/auth.controller.js:26 | an accepted address contains exactly one `@` |
| EmailPattern.EmailEndsWithSuffix | Backend/src/Controller/auth.controller.js:26 | an accepted address ends with `.` and two or three word characters |
| EmailPattern.AcceptsPlainAddress | Backend/src/Controller/auth.controller.js:26 | "asha@mail.com" is accepted |
| EmailPattern.RejectsWithoutAt | Backend/src/Controller/auth.controller.js:26 | "not-an-email" is rejected |
| EmailPattern.NoAtRejected | Backend/src/Controller/auth.controller.js:26 | no text without `@` is accepted |
| EmailPattern.RejectsShortSuffix | Backend/src/Controller/auth.controller.js:26 | "a@b.c" is rejected |
| Credentials.Hash | Backend/src/Controller/auth.controller.js:58 | cost 10, the drawn salt, and the digest accepts the password it was made from |
| Credentials.CompareHash | Backend/src/Controller/auth.controller.js:95 | for passwords of at most 72 UTF-8 bytes without a NUL character, a digest accepts exactly the password it was made from |
| Credentials.SharedPrefixAccepted | Backend/src/Controller/auth.controller.js:95 | passwords of 72 bytes or more that share their first 72 bytes match each other's digests |
| Credentials.LongPasswordsCollide | Backend/src/Controller/auth.controller.js:95 | the digest of 72 letters 'a' and "1" accepts 72 letters 'a' and "2" |
| Credentials.Utf8Injective | Backend/src/Controller/auth.controller.js:95 | different texts have different UTF-8 encodings |
| Credentials.DecodeCharBytes | Backend/src/Controller/auth.controller.js:95 | decoding the UTF-8 bytes of a character gives its code point back |
| AdminController.RegisterAdmin | Backend/src/Controller/admin.controller.js:5-53 | with an admin present 403 before any other check, store unchanged; the three cases cover every input, so the duplicate-e-mail 400 is never answered; a missing password is 500; otherwise the one admin is stored hashed and the reply shows id, e-mail and name only; at most one admin is kept |
| AdminController.LoginAdmin | Backend/src/Controller/admin.controller.js:55-93 | success exactly for a stored e-mail with a password its digest accepts (`Credentials.Compare`), with a token for that admin; an unknown e-mail or a password the digest refuses give the same 400 |
| AdminController.CheckAdminExists | Backend/src/Controller/admin.controller.js:95-106 | reports existence exactly when the admin store is non-empty, with the matching message |
| ProductController.CreateProduct | Backend/src/Controller/product.controller.js:6-23 | a missing title or price gives 400 and changes nothing; a title that is blank once trimmed (the schema in Backend/src/Model/product.model.js requires the trimmed title) gives 500 and changes nothing; otherwise the product is appended with the trimmed title, the given price and image, seller 'seller' and the time of the call |
| ProductController.GetProducts | Backend/src/Controller/product.controller.js:25-33 | every product, newest first |
| ProductController.CreatedProductListedFirst | Backend/src/Controller/product.controller.js:27 | a product newer than all others heads the listing |
| ProductController.DeleteProduct | Backend/src/Controller/product.controller.js:36-49 | empty id 400; uncastable id 500; unknown id 404; all three leave the catalogue unchanged; otherwise exactly that product is removed and returned (orders hold copies and are not touched) |
| Seqs.SortDescending | Backend/src/Controller/product.controller.js:27 | the result is ordered by descending key and is a permutation of the input |
| Seqs.NewestFirst | Backend/src/Controller/order.controller.js:113 | a document strictly newest comes first |
| Seqs.TakeDescending | Backend/src/Controller/order.controller.js:83 | a prefix of a sorted listing is sorted, drawn from it, and no element after it has a greater key than any element in it |
| Seqs.TakeLeavesSmaller | Backend/src/Controller/order.controller.js:83 | every element a prefix of a sorted listing leaves out has a key no greater than every element it took |
| Seqs.FilterCounts | Frontend/src/Context/CartContext.jsx:115 | `filter` keeps every copy of an element that passes and none of one that does not |
| CartContext.NormalizeEntry | Frontend/src/Context/CartContext.jsx:13-22 | a non-empty string product is the id, and the id is truthy when the clock is not 0; the title is always truthy and is the product's own when that is truthy; the price is never nullish and is the product's own when that is not nullish; the image is never nullish; the quantity is a number, non-zero unless the entry's quantity is the number 0, and a numeric quantity is kept |
| CartContext.NormalizedIdChain | Frontend/src/Context/CartContext.jsx:14-15 | the id is `_id`, else `id`, else the entry's product, else the clock, each taken exactly when the ones before it are falsy |
| CartContext.NormalizedTextChains | Frontend/src/Context/CartContext.jsx:16-19 | the title is `title`, else `name`, else 'Unknown product'; the image is `img`, else `image`, else '' |
| CartContext.NormalizedPriceAndQuantity | Frontend/src/Context/CartContext.jsx:18-20 | a nullish price becomes '$0.00'; a quantity that is not a number is `parseInt(String(q)) || 1` |
| CartContext.NormalizesTextEntry | Frontend/src/Context/CartContext.jsx:13-22 | `{ product: "p1", quantity: "3" }` becomes three of "p1", titled 'Unknown product' and priced '$0.00' |
| CartContext.NormalizeAll | Frontend/src/Context/CartContext.jsx:129 | one item per entry, in order |
| CartContext.Quantity | Frontend/src/Context/CartContext.jsx:20 | a number is kept; anything else becomes a non-zero whole number |
| CartContext.QuantityOfDigits | Frontend/src/Context/CartContext.jsx:20 | a digit string is the number it spells, or 1 when that is 0 |
| CartContext.QuantityOfNonText | Frontend/src/Context/CartContext.jsx:20 | a boolean, null, undefined or object quantity is 1 |
| CartContext.ParsedQuantity | Frontend/src/Context/CartContext.jsx:184 | a non-zero whole number; a digit string gives the number it spells, or 1 when that is 0 |
| CartContext.ParsedQuantityOfNoNumber | Frontend/src/Context/CartContext.jsx:184 | a text starting with neither white space, a sign nor a digit gives 1 |
| CartContext.ParsePrice | Frontend/src/Context/CartContext.jsx:170-179 | nullish is 0, a number is itself, any other non-string is 0 (the string case is stated by the lemmas below) |
| CartContext.NoPriceCharsIsZero | Frontend/src/Context/CartContext.jsx:174-176 | a text with no digit, `.` or `-` is priced 0 |
| CartContext.PrefixIgnored | Frontend/src/Context/CartContext.jsx:174-176 | characters other than digits, `.` and `-` in front of a price, such as a currency sign, do not change it |
| CartContext.PriceReadsDigits | Frontend/src/Context/CartContext.jsx:174-176 | a price written as digits is the number they spell |
| CartContext.PriceReadsDecimal | Frontend/src/Context/CartContext.jsx:174-176 | a price written `w.f` is the whole part plus the fraction |
| CartContext.PriceKeepsSign | Frontend/src/Context/CartContext.jsx:175-176 | a minus sign in front of a price that starts with a digit negates it |
| CartContext.ParsesDollarPrice | Frontend/src/Context/CartContext.jsx:174-176 | "$12.99" is 12.99 |
| CartContext.KeepsMinusSign | Frontend/src/Context/CartContext.jsx:175 | "-5" is -5: the client keeps the sign the server drops |
| CartContext.RemoveLowersTotal | Frontend/src/Context/CartContext.jsx:181-187 | the total is the remaining items' total plus the removed product's items' total |
| CartContext.TotalPriceAppend | Frontend/src/Context/CartContext.jsx:181-187 | the total of two runs of items is the sum of their totals |
| CartContext.CartCount | Frontend/src/Context/CartContext.jsx:190-192 | the count exists exactly when every quantity is a number, and is then the sum of the quantities |
| CartContext.NormalizedCartCounts | Frontend/src/Context/CartContext.jsx:190-192 | a cart built from server entries always has a count |
| CartContext.RemoveOffline | Frontend/src/Context/CartContext.jsx:113-116 | no kept item has the id; every other item is kept, with all its copies, in order |
| CartContext.RemoveAbsentKeepsCart | Frontend/src/Context/CartContext.jsx:115 | removing an id no item has leaves the cart as it was |
| CartContext.RemoveTwice | Frontend/src/Context/CartContext.jsx:115 | removing twice is removing once |
| CartContext.UpdateOffline | Frontend/src/Context/CartContext.jsx:144-147 | same length; matching items get the quantity; every other item unchanged |
| CartContext.UpdateTwice | Frontend/src/Context/CartContext.jsx:146 | updating twice to the same quantity is updating once |
| CartContext.RemoveAfterUpdate | Frontend/src/Context/CartContext.jsx:113-147 | removing an id after updating it is removing it |
| CartContext.ServerStep | Frontend/src/Context/CartContext.jsx:126-133 | an ok reply replaces the items with the server's normalised cart and ends normally; a reply that is not ok throws `data.message || failure` and keeps the items; an unanswered request throws its error and keeps the items |
| CartContext.RemoveStep | Frontend/src/Context/CartContext.jsx:112-135 | without a token the removal is local and never fails |
| CartContext.UpdateStep | Frontend/src/Context/CartContext.jsx:138-166 | a quantity of 0 or less behaves exactly as removal; without a token a positive quantity is a local update |
| CartContext.MergeEntry | Frontend/src/Context/CartContext.jsx:98-102 | the merged item keeps the server's quantity; a matching preview supplies the other fields; otherwise the item is the normalised entry |
| CartContext.MergeAll | Frontend/src/Context/CartContext.jsx:98-102 | one merged item per entry, in order |
| CartContext.MergeEntryAsWritten | Frontend/src/Context/CartContext.jsx:98-101 | as written, a matching preview replaces the normalised entry outright, so its `product.quantity || 1` becomes the quantity |
| CartContext.MergeKeepsQuantities | Frontend/src/Context/CartContext.jsx:98-102 | after adding, every quantity and the cart count are the server's |
| CartContext.MergeAsWrittenDropsQuantity | Frontend/src/Context/CartContext.jsx:93-101 | as written, an entry with quantity 2 shows quantity 1 after the merge |
| CartContext.CartState.constructor | Frontend/src/Context/CartContext.jsx:10 | the cart starts empty, with the given login token |
| CartContext.CartState.AddToCart | Frontend/src/Context/CartContext.jsx:65-109 | without a token it throws the login message; with a nullish product it throws a TypeError; a failed request throws the server's message or the default, an unanswered one the request's error; all of these leave the cart unchanged; success sets the corrected merge of the server cart (`MergeAll`) |
| CartContext.CartState.RemoveFromCart | Frontend/src/Context/CartContext.jsx:112-135 | the new items and outcome are `RemoveStep` of the old items |
| CartContext.CartState.UpdateQuantity | Frontend/src/Context/CartContext.jsx:138-166 | the new items and outcome are `UpdateStep` of the old items |
| CartContext.CartState.ClearCart | Frontend/src/Context/CartContext.jsx:195-197 | the cart is empty, its total 0 and its count 0 |
| CheckoutPage.ParsePrice | Frontend/src/pages/CheckoutPage.jsx:68-73 | nullish is 0, a number is itself, and a string is priced exactly as the cart prices it (`CartContext.PriceReadsDecimal`, `PriceKeepsSign` and the other cart price lemmas apply) |
| CheckoutPage.ParsersAgree | Frontend/src/pages/CheckoutPage.jsx:68-73 | the page and the cart parse every price alike; a boolean or an object is priced 0 |
| CheckoutPage.LineTotal | Frontend/src/pages/CheckoutPage.jsx:182 | a falsy quantity counts as 1, so the line is the price; a truthy quantity is converted to a number and the line is the price times it, or NaN when it does not convert |
| CheckoutPage.TextQuantityLine | Frontend/src/pages/CheckoutPage.jsx:182 | a quantity kept as digit text multiplies the price by the number it spells |
| CheckoutPage.LineIsShareOfTotal | Frontend/src/pages/CheckoutPage.jsx:182 | for a non-zero numeric quantity the line equals the item's share of the cart total |
| CheckoutPage.ZeroQuantityLine | Frontend/src/pages/CheckoutPage.jsx:180-182 | a quantity of 0 shows the price on its line but adds 0 to the total |
| CheckoutPage.PageCheckIsStricter | Frontend/src/pages/CheckoutPage.jsx:34-36 | an address the page sends is never one the server warns about |
| CheckoutPage.ServerTakesWhatPageRefuses | Frontend/src/pages/CheckoutPage.jsx:34-36 | a street alone is refused by the page and accepted by the server without a warning |
| CheckoutPage.SuccessMessageMarksCod | Frontend/src/pages/CheckoutPage.jsx:53-57 | the success message announces Cash on Delivery exactly when the method is `'cod'` |
| CheckoutPage.PlainMessageIsNotCod | Frontend/src/pages/CheckoutPage.jsx:56 | the other success message never starts with the Cash on Delivery notice |
| CheckoutPage.CheckoutForm.HandleSubmit | Frontend/src/pages/CheckoutPage.jsx:25-66 | a request is sent exactly with a token and a complete address; no token gives the login message first; an incomplete address the address message; success clears the cart, keeps the order and sets the success message; failure sets the error text or 'Checkout failed' and keeps the cart; loading is false afterwards |
| CheckoutPage.CheckoutForm.constructor | Frontend/src/pages/CheckoutPage.jsx:10-23 | an empty address, card payment, not loading, no message and no order |
| HomePage.FilteredProducts | Frontend/src/pages/Home.jsx:86-88 | nothing while no search is active; an order-preserving subsequence; a product is listed exactly when its lower-cased title contains the lower-cased search text |
| HomePage.SearchIgnoresCase | Frontend/src/pages/Home.jsx:87 | upper- or lower-casing the search text does not change the list |
| HomePage.ErasedSearchListsAll | Frontend/src/pages/Home.jsx:86-88 | an active search whose text was erased lists every product |
| HomePage.HomeState.constructor | Frontend/src/pages/Home.jsx:11-12 | the search starts as "" and inactive |
| HomePage.HomeState.SetSearch | Frontend/src/pages/Home.jsx:125 | only the search text changes |
| HomePage.HomeState.HandleSearch | Frontend/src/pages/Home.jsx:71-77 | an all-blank text alerts and leaves the search state unchanged; any other text activates the search |
| HomePage.ShownProducts | Frontend/src/pages/Home.jsx:168-173 | every product while no search is active; once one is, an order-preserving subsequence holding a product exactly when its title matches |
| HomePage.HomeState.HandleClearSearch | Frontend/src/pages/Home.jsx:80-83 | the search is "" and inactive, and the page shows every product again |
| Text.TrimEmptyIffBlank | Frontend/src/pages/Home.jsx:72 | a trimmed text is empty exactly when every character is white space |
| Text.LowerForgetsCase | Frontend/src/pages/Home.jsx:87 | lower-casing an upper- or lower-cased text gives the lower-cased text |
| JsNumbers.ParseInt | Frontend/src/Context/CartContext.jsx:20 | a parsed integer is whole; a digit string gives the number it spells; the empty text is NaN |
| JsNumbers.ParseIntNoDigits | Frontend/src/Context/CartContext.jsx:20 | a text starting with neither white space, a sign nor a digit is NaN |
| JsNumbers.ParseFloat | Frontend/src/Context/CartContext.jsx:176 | a digit string reads as the number it spells |
| JsNumbers.ParseFloatReadsDecimal | Frontend/src/Context/CartContext.jsx:176 | `w.f` reads as the whole part plus `f / 10^|f|` |
| JsNumbers.ParseFloatNegates | Frontend/src/Context/CartContext.jsx:176 | a leading minus sign negates what is read |
| JsNumbers.ToNumber | Frontend/src/pages/CheckoutPage.jsx:182 | `Number` of a digit string is the number it spells |
| JsNumbers.NumberReadsIntText | Frontend/src/Context/CartContext.jsx:100 | `Number(String(i))` is `i` for every whole number |
| JsNumbers.OrElseTruthy | Frontend/src/Context/CartContext.jsx:176 | `x || d` is never 0 when `d` is not, and a second `|| d` changes nothing |
| JsValues.OrTruthy | Frontend/src/Context/CartContext.jsx:14-19 | `a || b` is truthy exactly when one side is; `||` chains can be grouped either way |

## Left out

- I/O is not modelled: HTTP plumbing beyond status and body, `fetch`, cookies, `localStorage`, `alert`, `setTimeout` and navigation. The server's answer to a client request is a parameter.
- JSX rendering is not modelled beyond which products the home page shows (`HomePage.ShownProducts`). The loading of the cart from the server or from `localStorage` on mount (`useEffect`) is left out too.
- Mongoose is not modelled. Queries are reads of the document sequences. `populate('user', 'Fullname Email')` is a lookup by id (`OrderController.OrderedBy`). `sort({ createdAt: -1 })` is `Seqs.SortDescending`, which fixes one order among documents with equal `createdAt`; MongoDB may return such documents in any order, so the model gives one of the possible answers. Store failures that make `create`, `save` or `find` throw (answered with 500) are not modelled. The only throws the model includes are the admin notification's failure, an uncastable id, a missing password, and `Product.create` refusing a title that is blank once trimmed (`ProductController.CreateProduct`, 500).
- The notification's `meta` object is reduced to the fields the admin list shows (order id, total, payment method).
- bcrypt and JWT are symbolic. Salts, fresh ids and `Date.now()` are parameters. The Blowfish rounds are not computed: a digest is taken to depend on its salt, its cost and the 72 key bytes only, with no collisions between different key bytes.
- Floating point is not modelled: prices and totals are exact reals. `parseFloat` does not read exponents or `Infinity`, and `toFixed` formatting is left out.
- JsNumbers.ToNumber: reads decimal and `0x` literals only; `0b` and `0o` literals, exponents (`Number("1e3")` is 1000) and `Infinity`, which `Number` accepts, give NaN here, and so does a text quantity written that way in a checkout line total.
- `String()` of a number with a fractional part is not modelled. Members that need the text of a value require one the model can write (`OrderIdText`, `ToStr`). A fractional numeric id never matches a preview in `addToCart`.
- Only ASCII is modelled for `trim`, `toLowerCase` and `\w`.
- Texts are sequences of Unicode scalar values. A JavaScript string holding a lone surrogate has no counterpart, so neither its `.length` nor bcrypt's encoding of it is modelled.
- JsValues.StrictEquals: two objects are never equal, since the model has no object identity. A cart entry whose id is the object `c.product` itself (CartContext.jsx:15) is therefore not removed by `removeFromCart`, where JavaScript would remove it when the same reference is passed.
- CartContext.CartCount: answers None where a quantity is not a number, rather than modelling JavaScript's string concatenation or NaN there. Items the client builds always have numeric quantities (`NormalizedCartCounts`).
- CartContext.CartState.AddToCart: sets the corrected merge (`MergeAll`, the server's quantity kept), not the merge as written at CartContext.jsx:98-101; the as-written merge is `MergeEntryAsWritten` (see "## Findings"). The TypeError of a nullish product is one fixed value, not the engine's message.
- OrderController.NotificationMarksCod: assumes a user name without parentheses; `NameCanCarryCodMarker` shows a name that carries the marker itself.
- Request bodies are taken with string fields (`AuthController` registration and login, `ProductController.CreateProduct`). A numeric `Fullname` that throws a TypeError at `trim`, a numeric `Password` that passes the length check and then makes `bcrypt.hash` throw, and an object `Email` that reaches `findOne` as a query are not modelled. Nor is a numeric `price: 0` in `createProduct`, which is falsy and answered with 400, while the text `"0"` creates the product.
- `data.cart || []` is given as a sequence of entries; a reply without a cart is the empty sequence.
- An order id that Mongoose cannot cast (`Store.IsObjectIdText`) is answered with 500 by the delete handlers. Casting itself is not modelled beyond the length and hex-digit rule.
- Concurrency and interleaving are not modelled, including concurrent cart updates and a crash between creating the order and clearing the cart.
- The authentication middleware, routing and other pages are not part of this model.

## Findings

| source | as written | input that shows it | evidently intended | confidence | as-written member | corrected member |
|---|---|---|---|---|---|---|
| Frontend/src/Context/CartContext.jsx:98-101 | `{ ...normalized, ...merge }` lets every preview field override the server's entry, the preview's `quantity: product.quantity \|\| 1` included | a server entry `{ product: "p1", quantity: 2 }` merged with the product `{ id: "p1", title: "Mouse" }` shows quantity 1 | the preview supplies only what the item shows (title, price, image), and the quantity stays the server's | not executed | CartContext.MergeEntryAsWritten (shown by CartContext.MergeAsWrittenDropsQuantity) | CartContext.MergeEntry (proved by CartContext.MergeKeepsQuantities) |
