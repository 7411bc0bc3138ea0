# Cheburechnaya storefront: a verified model of its client-side logic

The storefront is a React application. Customers browse a catalog of
cheburek products, pick a size, collect them in a cart kept in browser
storage, and order through a checkout form. The back office has pages for
orders, deliveries, employees, products and a dashboard. This project
models the sequential logic inside those pages and proves what it promises.

The model covers:
- **The cart store.** The `cheburechnaya_basket` slot of `localStorage` is
  the class `Basket.LocalStorage`. The slot is missing, holds text that does
  not parse, or holds a list of lines.
- **Cart pages.** The add-to-cart merge of the catalog page, and the list
  operations, totals and counts of the cart, checkout and home pages.
- **The product normaliser.** It has fixed translation tables, default
  calories and weights, and size variants. Catalog search, category
  extraction and sorting sit next to it.
- **Russian phone numbers.** The eleven-digit check, the display formatter
  and the progressive input mask. The same code is copied into the checkout,
  employees and deliveries pages.
- **Back-office records.** The case-probing field lookup, the status update
  that writes `Status` while reads prefer `status`, the action buttons each
  status offers, the delete filters, and the status counters.
- **String utilities.** Truncation, status colours, the e-mail and phone
  patterns, camel-casing, and the dashboard's thousands grouping.

## Modelling choices
- **Values.** A back-end record is a map from keys to values of type
  `Js.Value`: null, a boolean, a whole number or a string. An absent key
  reads as null.
- **JavaScript semantics.** JavaScript truthiness, `||` and loose `==` are
  written out in `Js`. The built-ins the core calls are modelled as
  functions too: `toLowerCase` is `Text.Lower` (Latin and Cyrillic capitals),
  `trim` is `Text.Trim` (the white space `String.prototype.trim` removes),
  loose `==` is `Js.LooseEq`, and `String(x)` is `Js.ToText`. `getField` and `getProductField` are loop methods,
  each proved equal to a function.
- **Numbers.** They are unbounded integers. Product prices and weights are
  natural numbers. `Math.round(n * 1.5)` is the exact integer `(3n + 1) / 2`
  (`Catalog.RoundMulSizes`), so no floating point is needed.
- **Parameters.** Generated ids, clocks and the outcome of a back-end call
  are parameters: the line id, `now`, the order id, `success` and `throws`.
- **Pure and stateful code.** Pure functions of the source are Dafny
  functions. Handlers that read, change and write back page state or
  storage are methods on the classes `CatalogPageModel.CatalogPage`,
  `CartPageModel.CartPage` and `CheckoutPageModel.CheckoutPage`. Each such
  method states every field it may change against those functions, on
  every path, including the paths where the source throws before an
  assignment and the field keeps its old value.
- **Where code and description disagree, the code is followed.** A number
  typed as `89991234567` reaches the server as `89991234567`. The leading 8
  is not normalised. `CheckoutPageModel.PayloadPhoneAsTyped` shows it.
- **The admin phone copies set no error state at all.** Their
  `validatePhone` and `formatPhone` are the checkout ones, and their input
  handler computes the same displayed value as the checkout mask
  (`Phone.Mask`) but records no error; `Phone.MaskError` belongs to the
  checkout page only. The model has one `Phone` module for all three pages. The table cites the checkout
  copy. The other copies are `validatePhone` at
  src/pages/admin/AdminEmployees.js:17-27, `formatPhone` at
  src/pages/admin/AdminEmployees.js:29-39 and
  src/pages/admin/AdminDeliveries.js:30-40, and the input handler at
  src/pages/admin/AdminEmployees.js:41-90 and
  src/pages/admin/AdminDeliveries.js:42-91.
- **One `getField`.** The orders, employees and deliveries pages each carry
  the same `getField`. `Fields.FieldOf` models all three. The table cites
  the employees copy. The others are at
  src/pages/admin/AdminDeliveries.js:188-205 and
  src/pages/admin/AdminOrders.js:61-78.

## Model

| member | source | states |
|---|---|---|
| Basket.BasketOf | src/pages/CatalogPage.js:235-243 | a stored cart reads as its lines; a missing slot or text that does not parse reads as the empty cart |
| Basket.LocalStorage.ReadBasket | src/pages/CatalogPage.js:235-243 | reading the slot yields `BasketOf` of its current content and changes nothing |
| Basket.LocalStorage.SaveBasket | src/pages/CatalogPage.js:249-255 | the slot afterwards holds exactly the given lines; the auth slot is untouched |
| Basket.LocalStorage.RemoveBasket | src/pages/CheckoutPage.js:209 | the slot is deleted (not set to an empty list); the auth slot is untouched |
| Basket.SaveThenRead | src/pages/CatalogPage.js:235-255 | a saved cart reads back as itself |
| Basket.Total | src/pages/CartPage.js:92-94 | the `reduce` over price × quantity; never negative when no price or quantity is |
| Basket.ItemCount | src/pages/CartPage.js:96-98 | the `reduce` over quantities; at least the number of lines when every line holds a piece |
| Basket.FoldsAppend | src/pages/CartPage.js:92-98 | total and piece count of a concatenation are the sums of the parts |
| Basket.FoldsSingle | src/pages/CartPage.js:92-98 | a one-line cart totals price × quantity and counts its quantity |
| Basket.FoldsUpdate | src/pages/CartPage.js:92-98 | replacing one line changes total and count by exactly that line's difference |
| Basket.ItemCountNonNegative | src/pages/CartPage.js:96-98 | with non-negative quantities the count is non-negative, and 0 exactly when every quantity is 0 |
| Basket.FindLine | src/pages/CatalogPage.js:454-456 | the index of the first line with that product id and size id, or -1 when no line has them |
| Basket.Bumped | src/pages/CatalogPage.js:459-460 | the line's quantity rises by one and its `updatedAt` is set; every other field stays |
| Basket.AddLine | src/pages/CatalogPage.js:452-463 | an existing product and size keeps the length; a new one is appended at the end |
| Basket.AddLineExisting | src/pages/CatalogPage.js:458-460 | the matched line gains exactly one piece and keeps its price, name, size and id; all other lines are unchanged |
| Basket.AddLineKeepsKeysUnique | src/pages/CatalogPage.js:454-463 | if product-and-size pairs are unique before a merge they are unique after it |
| Basket.AddLineFolds | src/pages/CatalogPage.js:465-468 | a merge adds one piece to the count and one unit price to the total (the stored price of the joined line, else the new line's price) |
| Basket.BumpFolds | src/pages/CatalogPage.js:458-468 | raising one line by a piece adds one to the count and that line's stored price to the total |
| Basket.AddTimesOneLine | src/pages/CatalogPage.js:454-463 | adding one product and size n times to a cart without it yields one new last line with quantity n |
| Basket.Without | src/pages/CartPage.js:80 | no kept line has the removed id, and nothing is added |
| Basket.WithQuantity | src/pages/CartPage.js:71-73 | same length; lines with the id get the new quantity and every other line is unchanged |
| Basket.WithoutInOrder | src/pages/CartPage.js:79-80 | the kept lines are in their original order |
| Basket.WithoutCounts | src/pages/CartPage.js:79-80 | every line of another id is kept as many times as it occurs; lines with the id are all dropped |
| Basket.WithoutAbsent | src/pages/CartPage.js:79-80 | removing an id that no line has leaves the cart as it is |
| Basket.WithQuantityCount | src/pages/CartPage.js:71-73 | setting the quantity of the one matching line changes count and total by exactly that line's difference |
| CartPageModel.Updated | src/pages/CartPage.js:65-73 | a quantity below 1 is the removal of the id; otherwise the quantity is set |
| CartPageModel.UpdatedKeepsShape | src/pages/CartPage.js:71-73 | a quantity of 1 or more keeps length, order and every field other than the matched lines' quantities |
| CartPageModel.ProceedsToCheckout | src/pages/CartPage.js:100-106 | the page navigates exactly when the cart has lines |
| CartPageModel.CartPage.LoadCart | src/pages/CartPage.js:46-57 | a stored cart replaces the list; a missing or broken slot leaves it; loading ends either way |
| CartPageModel.CartPage.RemoveItem | src/pages/CartPage.js:79-83 | the list becomes `Without` the id and the slot holds exactly the new list |
| CartPageModel.CartPage.UpdateQuantity | src/pages/CartPage.js:65-77 | the list becomes `Updated` and the slot holds exactly the new list |
| CartPageModel.CartPage.ClearCart | src/pages/CartPage.js:85-90 | once confirmed the list is empty and the slot is deleted; unconfirmed, nothing changes |
| CartPageModel.CartPage.CalculateTotal | src/pages/CartPage.js:92-94 | the page total is `Basket.Total` of the current list, 0 for an empty one |
| CartPageModel.CartPage.CalculateItemCount | src/pages/CartPage.js:96-98 | the page count is `Basket.ItemCount` of the current list, 0 for an empty one |
| CartPageModel.EmptyCart | src/pages/CartPage.js:92-106 | an empty cart totals 0, counts 0 and does not proceed to checkout |
| CartPageModel.RemoveThenRead | src/pages/CartPage.js:79-83 | after a removal the slot reads back as the remaining lines, a subsequence of the old cart |
| CartPageModel.TotalExample | src/pages/CartPage.js:92-98 | lines 2 × 120 and 1 × 100 total 340 with 3 pieces |
| HomePageModel.CartItemCount | src/pages/HomePage.js:24-33 | the sum of stored quantities; 0 for a missing slot or one that does not parse |
| HomePageModel.IsAdminAuthenticated | src/pages/HomePage.js:13-22 | the stored record's `isAuthenticated` value as it is; `false` for a missing or broken slot |
| HomePageModel.BadgeAfterAdd | src/pages/HomePage.js:24-33 | after one add on the catalog the home badge is one higher |
| HomePageModel.AuthNeedsFlag | src/pages/HomePage.js:13-22 | the admin link is let through only for a stored record with a truthy flag |
| Catalog.RoundMul | src/pages/CatalogPage.js:212-213 | the result is `Math.round` of base × multiplier/10, half rounded up |
| Catalog.RoundMulSizes | src/pages/CatalogPage.js:29-33 | the multipliers 1.0, 1.5 and 2.0 round to n, (3n+1)/2 and 2n |
| Catalog.RussianName | src/pages/CatalogPage.js:121-133 | a name in the table is translated; any other name passes through |
| Catalog.RussianNameIdempotent | src/pages/CatalogPage.js:121-133 | translating twice is translating once |
| Catalog.Description | src/pages/CatalogPage.js:136-148 | a known name gets its fixed text; any other gets the generated sentence with the lower-cased name |
| Catalog.RussianCategory | src/pages/CatalogPage.js:169-173 | Bakery, Pizza, Salads and Drinks become Выпечка, Пицца, Салаты and Напитки; any other value passes through; "Выпечка" comes exactly from Bakery or itself |
| Catalog.CaloriesAndWeight | src/pages/CatalogPage.js:175-185 | Bakery 400 kcal / 150 g, Pizza 800 / 350, Salads 250 / 200, Drinks 100 / 300, any other category 300 / 150 |
| Catalog.EnglishCategory | src/pages/CatalogPage.js:169 | the category is never empty: a missing one becomes Bakery |
| Catalog.EnglishName | src/pages/CatalogPage.js:166 | the product name if given, else the name, else the placeholder; never empty |
| Catalog.PlaceholderName | src/pages/CatalogPage.js:166 | "Product " followed by the decimal digits of index + 1 |
| Catalog.BasePrice | src/pages/CatalogPage.js:186 | the base price is always positive: a falsy price becomes 100 |
| Catalog.VariantsFor | src/pages/CatalogPage.js:208-222 | Bakery gets three variants; any other category the one standard portion at the base price |
| Catalog.Normalize | src/pages/CatalogPage.js:166-228 | the product is always available, cooks 15 minutes, rates 4.5, has a truthy id and a positive price; its name is the translated English name, its category the translated English category, its calories and weight those of the English category, its description the one for that name and category, its one tag the lower-cased category, and it carries the variants of its category |
| Catalog.BakeryVariants | src/pages/CatalogPage.js:208-213 | a Bakery or uncategorised product is Выпечка, 400 kcal, 150 g, with small, medium and large variants at rounded prices and weights, in that order |
| Catalog.OtherCategoryVariant | src/pages/CatalogPage.js:214-222 | any other category yields exactly one standard variant at the base price |
| Catalog.TableCategories | src/pages/CatalogPage.js:169-228 | a Pizza, Salads or Drinks record comes out as Пицца 800 / 350, Салаты 250 / 200 or Напитки 100 / 300, with one standard portion of that weight at the base price |
| Catalog.NormalizeIgnores | src/pages/CatalogPage.js:175-203 | the incoming calories, weight, availability, rating and cooking time are ignored |
| Catalog.NormalizeDefaults | src/pages/CatalogPage.js:186-191 | a falsy id becomes index + 1 and a falsy price becomes 100; truthy ones are kept |
| Catalog.UntranslatedCategory | src/pages/CatalogPage.js:170-185 | an unknown category passes through with 300 kcal, 150 g and one standard variant |
| Catalog.NormalizeAll | src/pages/CatalogPage.js:494-499 | one normalised product per record, each at its own index |
| Catalog.UntranslatedCatalog | src/pages/CatalogPage.js:170-185 | a catalog whose categories all lie outside the table normalizes to available products at 300 kcal and 150 g, with the raw id or the position-based one, each in one standard variant at its base price |
| Catalog.FallbackCatalog | src/pages/CatalogPage.js:35-112 | the four fallback products come out available, 300 kcal, 150 g, ids 1-4, one standard variant each |
| Catalog.Distinct | src/pages/CatalogPage.js:387-390 | no duplicates, and exactly the non-empty values of the input |
| Catalog.DistinctFirstSeenOrder | src/pages/CatalogPage.js:387-390 | the distinct values are ordered by their first occurrence |
| Catalog.FirstIndex | src/pages/CatalogPage.js:387-390 | the first position of a value that occurs |
| Catalog.ExtractCategories | src/pages/CatalogPage.js:387-390 | "all" first, then the distinct categories |
| Catalog.CategoriesOf | src/pages/CatalogPage.js:388 | the category of each product, in order |
| Catalog.ExtractCategoriesContents | src/pages/CatalogPage.js:387-390 | after "all" come each non-empty category of some product, once |
| Catalog.Select | src/pages/CatalogPage.js:538-550 | never longer than the catalog |
| Catalog.SelectSpec | src/pages/CatalogPage.js:538-550 | exactly the products passing the search and category filters, each as often as it occurs |
| Catalog.SortModeOf | src/pages/CatalogPage.js:552-576 | the five numeric settings choose their key, an unknown setting keeps catalog order, and exactly the two name orders are outside the model |
| Catalog.Insert | src/pages/CatalogPage.js:552-576 | inserting into a sorted list keeps it sorted and adds exactly that product |
| Catalog.InsertLast | src/pages/CatalogPage.js:552-576 | a sorted list with a larger last element stays sorted |
| Catalog.Sort | src/pages/CatalogPage.js:552-576 | the result is sorted by the key and a permutation of the input |
| Catalog.SortSortedIdentity | src/pages/CatalogPage.js:552-576 | an already sorted list is left as it is |
| Catalog.InsertStable | src/pages/CatalogPage.js:552-576 | inserting keeps the products of every key in their order and puts the new one after those of its own key |
| Catalog.InsertStableStep | src/pages/CatalogPage.js:552-576 | the same when the new product goes in before the last element |
| Catalog.SortStable | src/pages/CatalogPage.js:552-576 | the sort is stable: the products of any one key come out in the order they went in |
| Catalog.Filtered | src/pages/CatalogPage.js:535-579 | a permutation of the selected products; sorted by the key when one is chosen; in catalog order for the default |
| Catalog.FilteredStable | src/pages/CatalogPage.js:535-579 | under a key order, the shown products of any one key keep their catalog order |
| Catalog.FilteredContents | src/pages/CatalogPage.js:535-579 | a product is shown exactly when it is in the catalog and passes both filters |
| Catalog.FilterNothing | src/pages/CatalogPage.js:535-579 | a blank search in "all" with the default order shows the catalog unchanged |
| Catalog.SelectAll | src/pages/CatalogPage.js:538-550 | a blank search in "all" keeps every product |
| Catalog.MatchesQuery | src/pages/CatalogPage.js:539-545 | the name, description, category or a tag contains the query once lower-cased; the empty query matches every product |
| Catalog.Passes | src/pages/CatalogPage.js:538-550 | a product outside a chosen category never passes; a blank search passes every product of the chosen category; a non-blank search passes only matching products |
| CatalogPageModel.SelectedSize | src/pages/CatalogPage.js:414 | the size recorded under the text of the product id, or empty when none is |
| CatalogPageModel.SelectThenRead | src/pages/CatalogPage.js:402-414 | a size selected for a product is read back for it and any id with the same text; other products keep their choice |
| CatalogPageModel.FindVariant | src/pages/CatalogPage.js:425 | a found variant is one of the product's and has that id; none is found exactly when no variant has it |
| CatalogPageModel.AddCheck | src/pages/CatalogPage.js:414-430 | accepted exactly with a selected size, an available product and a matching variant; refused for a missing size first, then for an unavailable product, then for a size the product does not offer |
| CatalogPageModel.NewLine | src/pages/CatalogPage.js:436-450 | the new line has quantity 1 and the variant's price, weight and size |
| CatalogPageModel.CatalogPage.InitializeBasket | src/pages/CatalogPage.js:392-395 | the badge starts at the number of stored lines |
| CatalogPageModel.CatalogPage.SelectSize | src/pages/CatalogPage.js:402-407 | the size is recorded under the product id as text; nothing else changes |
| CatalogPageModel.CatalogPage.AddToBasket | src/pages/CatalogPage.js:413-473 | a refused add leaves storage and badge; an accepted one stores the merge of the new line and sets the badge to the piece count |
| CatalogPageModel.AddedMessage | src/pages/CatalogPage.js:470 | the notice starts with the product name and names the size and the price |
| CatalogPageModel.CatalogPage.ClearBasket | src/pages/CatalogPage.js:527-533 | once confirmed the slot holds an empty list and the badge is 0 |
| CatalogPageModel.CatalogPage.LoadTestData | src/pages/CatalogPage.js:494-508 | the normalised fallback catalog and its categories, offline and without error |
| CatalogPageModel.BadgeCountsDiffer | src/pages/CatalogPage.js:392-395 | when every stored line holds a piece and one holds two, the badge set on page load (the number of lines) is below the number of pieces the add handler shows |
| CatalogPageModel.BadgeOneLineExample | src/pages/CatalogPage.js:392-395 | one stored line of two pieces: 1 line on load, 2 pieces, and 3 pieces after one more add of that line |
| CatalogPageModel.NormalizedSizeAccepted | src/pages/CatalogPage.js:414-430 | selecting any variant of a normalised product lets the add through |
| Phone.FormatPhone | src/pages/CheckoutPage.js:34-44 | empty gives empty, an invalid number is returned as typed, a valid one shows as `+7 (` digits 2-4 `) ` digits 5-7 `-` digits 8-9 `-` digits 10-11, 18 characters whose digits are 7 and then digits 2-11 |
| Phone.DigitsOfFormatted | src/pages/CheckoutPage.js:40 | the digits of the display form are 7 and digits 2-11 of the number |
| Phone.FormatPhoneIdempotent | src/pages/CheckoutPage.js:34-44 | formatting keeps a valid number valid and formatting twice is formatting once |
| Phone.FormatOfParts | src/pages/CheckoutPage.js:34-44 | any input whose digits are a 7 or 8 followed by groups of 3, 3, 2 and 2 digits shows as `+7 (` the first group `) ` the second `-` the third `-` the fourth |
| Phone.FormatOfGroups | src/pages/CheckoutPage.js:34-44 | a 7 or 8 written directly before groups of 3, 3, 2 and 2 digits shows as `+7 (` the first group `) ` the second `-` the third `-` the fourth |
| Phone.FormatOfMask | src/pages/CheckoutPage.js:34-104 | a non-empty masked input without error formats to `+7 (` and the groups of the first 11 typed digits |
| Phone.FormatExample | src/pages/CheckoutPage.js:34-44 | 89991234567 shows as +7 (999) 123-45-67 |
| Phone.ValidationExampleEight | src/pages/CheckoutPage.js:22-32 | 89991234567 is valid |
| Phone.ValidationExampleSeven | src/pages/CheckoutPage.js:22-32 | "+79991234567" is valid, with digits 79991234567 |
| Phone.ValidationExampleShort | src/pages/CheckoutPage.js:22-32 | 12345 is not valid |
| Phone.ValidatePhone | src/pages/CheckoutPage.js:22-32 | a valid input is non-empty with eleven digits starting 7 or 8, so it has at least eleven characters |
| Phone.MaskedDigits | src/pages/CheckoutPage.js:49-53 | at most 11 digits, a prefix of the typed digits, all of them when there are at most 11 |
| Phone.Piece | src/pages/CheckoutPage.js:60-71 | one appended group contributes exactly the digits in its range |
| Phone.Groups | src/pages/CheckoutPage.js:59-72 | the groups after the prefix carry exactly the digits after the first |
| Phone.PiecesTelescope | src/pages/CheckoutPage.js:59-72 | the four groups together carry exactly the digits after the first |
| Phone.MaskOfDigits | src/pages/CheckoutPage.js:55-103 | the mask of a digit string carries exactly those digits |
| Phone.Mask | src/pages/CheckoutPage.js:46-104 | the field shows a string whose digits are the first 11 typed digits |
| Phone.MaskIdempotent | src/pages/CheckoutPage.js:46-104 | masking the masked field again changes nothing |
| Phone.MaskInput | src/pages/CheckoutPage.js:46-104 | the step-by-step build equals the mask, whose digits are the first 11 typed digits |
| Phone.AppendGroups | src/pages/CheckoutPage.js:59-72 | the `+=` steps append exactly the groups of the digits |
| Phone.MaskError | src/pages/CheckoutPage.js:55-103 | no error exactly for no digits or a Russian mobile number; the length error exactly for a short number starting 7 or 8; the prefix error exactly when the digits start with neither 7 nor 8, and then the raw digits are kept |
| Phone.MaskWithoutErrorIsValid | src/pages/CheckoutPage.js:55-103 | a non-empty mask without error text passes `validatePhone` |
| Phone.PhoneBlurError | src/pages/CheckoutPage.js:223-229 | no error exactly for an empty or valid phone |
| CheckoutPageModel.SubmitCheck | src/pages/CheckoutPage.js:159-172 | accepted exactly with lines, a name and a valid phone; an empty cart is reported first, then missing fields, then an invalid phone |
| CheckoutPageModel.OrderItems | src/pages/CheckoutPage.js:187-193 | one item per cart line, in order, with product id, name, quantity, price and size |
| CheckoutPageModel.BuildOrder | src/pages/CheckoutPage.js:177-201 | the phone is the bare digits, the items are the cart lines, the total is the cart total without delivery |
| CheckoutPageModel.GrandTotal | src/pages/CheckoutPage.js:575-577 | 150 more than the cart total for delivery, the cart total otherwise |
| CheckoutPageModel.CheckoutPage.LoadCheckoutData | src/pages/CheckoutPage.js:112-134 | a stored cart replaces the list; the three mock employees with the first selected, except when the stored cart does not parse: the parse throws, so employees and selection keep their values; loading ends on every path; nothing else changes |
| CheckoutPageModel.CheckoutPage.HandlePhoneChange | src/pages/CheckoutPage.js:46-109 | the field becomes the mask of the input with its error text; its digits are the first 11 typed |
| CheckoutPageModel.CheckoutPage.HandlePhoneBlur | src/pages/CheckoutPage.js:223-229 | the error text becomes the blur error of the field |
| CheckoutPageModel.CheckoutPage.SubmitOrder | src/pages/CheckoutPage.js:156-221 | a refused order keeps the slot; an accepted one removes it unless the submit throws, and returns the built order |
| CheckoutPageModel.PlacedMessage | src/pages/CheckoutPage.js:211 | the confirmation names the order id and the phone in its display format |
| CheckoutPageModel.AcceptedOrder | src/pages/CheckoutPage.js:177-201 | an accepted order's phone is eleven digits starting 7 or 8, and the grand total adds 150 only for delivery |
| CheckoutPageModel.PayloadPhoneAsTyped | src/pages/CheckoutPage.js:177 | 89991234567 is sent as typed while "+79991234567" is sent as 79991234567 |
| CheckoutPageModel.MaskedPhonePassesGate | src/pages/CheckoutPage.js:164-172 | a masked phone without error text passes the gate when cart and name are present |
| Fields.Capitalize | src/pages/admin/AdminEmployees.js:228 | the first character upper-cased, the rest as it was |
| Fields.FirstPresent | src/pages/admin/AdminEmployees.js:231-237 | null exactly when every probed key is null or absent; otherwise the value of the first key that has one |
| Fields.FirstPresentAt | src/pages/admin/AdminEmployees.js:231-237 | the first key holding a value decides the result |
| Fields.FieldOf | src/pages/admin/AdminEmployees.js:221-238 | null for a null object; otherwise the first non-null value among the name, lower case, upper case and capitalised spellings |
| Fields.FieldOfOrder | src/pages/admin/AdminEmployees.js:224-229 | the spellings are probed in the order name, lower case, upper case, capitalised |
| Fields.GetField | src/pages/admin/AdminEmployees.js:221-238 | the loop with its early return computes `FieldOf` |
| Fields.ProductFieldOf | src/pages/admin/AdminProducts.js:123-138 | the first non-null value among the name, lower case, capitalised and upper case spellings |
| Fields.ProductFieldOfOrder | src/pages/admin/AdminProducts.js:123-138 | the product lookup probes capitalised before upper case |
| Fields.GetProductField | src/pages/admin/AdminProducts.js:123-138 | the loop with its early return computes `ProductFieldOf` |
| Fields.LookupOrdersDiffer | src/pages/admin/AdminProducts.js:123-138 | a record with both `ID` and `Id` reads `ID` through `getField` but `Id` through `getProductField` |
| Fields.IdOf | src/pages/admin/AdminProducts.js:111 | `id || Id || ID`: the first truthy of the three, else the value of `ID` |
| AdminStatus.SetStatus | src/pages/admin/AdminOrders.js:88 | `Status` holds the new status and every other key is unchanged |
| AdminStatus.StatusSpellings | src/pages/admin/AdminOrders.js:61-78 | reading `status` probes status, status, STATUS, Status |
| AdminStatus.StatusAfterSet | src/pages/admin/AdminOrders.js:85-91 | after the write the read gives the new status only if the record has no `status` and no `STATUS`; an existing `status` value shadows it |
| AdminStatus.CapitalStatusAfterSet | src/pages/admin/AdminDeliveries.js:429-430 | the second read, of `Status`, always gives the new status |
| AdminStatus.IdSpellings | src/pages/admin/AdminOrders.js:61-78 | reading `id` probes id, id, ID, Id |
| AdminDeliveriesModel.PrepareDelivery | src/pages/admin/AdminDeliveries.js:117-130 | accepted exactly for a valid driver phone; the driver phone sent is exactly the digits of the typed one, with every other field as typed |
| AdminDeliveriesModel.UpdateDeliveryStatus | src/pages/admin/AdminDeliveries.js:167-186 | on success each delivery whose `id||Id||ID` loosely equals the target gets `Status` set and every other is unchanged; on failure nothing changes |
| AdminDeliveriesModel.Targets | src/pages/admin/AdminDeliveries.js:173-174 | a delivery is targeted by its own id; a truthy `id` decides alone, before `Id` and `ID` |
| AdminDeliveriesModel.DeliveryStatus | src/pages/admin/AdminDeliveries.js:214 | the status read is never falsy: it falls back to "Unknown" |
| AdminDeliveriesModel.UpdatedRowShows | src/pages/admin/AdminDeliveries.js:172-178 | a targeted row shows the new status unless an old `status` value shadows it; other rows show what they showed |
| AdminDeliveriesModel.RowId | src/pages/admin/AdminDeliveries.js:406 | the id the buttons send is never falsy |
| AdminDeliveriesModel.RowButtonsTarget | src/pages/admin/AdminDeliveries.js:444 | a row with a truthy `id` is updated by its own button; a row with no id key is not updated by its button |
| AdminDeliveriesModel.DeliveryActions | src/pages/admin/AdminDeliveries.js:484-510 | In Transit is offered exactly from Pending, Delivered exactly from In Transit, Cancelled from everything but Delivered |
| AdminDeliveriesModel.DeliveryTransitions | src/pages/admin/AdminDeliveries.js:484-510 | the button lists per status, and nothing leads back to Pending |
| AdminDeliveriesModel.DeliveryStats | src/pages/admin/AdminDeliveries.js:207-225 | each counter is the number of deliveries with exactly that status, and together they are at most the number of deliveries |
| AdminDeliveriesModel.CountersCaseSensitive | src/pages/admin/AdminDeliveries.js:218-220 | a lower-case "pending" counts in no bucket |
| AdminOrdersModel.FilteredOrders | src/pages/admin/AdminOrders.js:112-114 | "all" keeps the orders; any other filter keeps only orders with exactly that status |
| AdminOrdersModel.FilteredOrdersSpec | src/pages/admin/AdminOrders.js:112-114 | an order is kept exactly when it has that status, and the kept orders are in order |
| AdminOrdersModel.UpdateOrderStatus | src/pages/admin/AdminOrders.js:80-99 | on success orders whose `id` loosely equals the target get `Status` set and every other is unchanged; on failure nothing changes |
| AdminOrdersModel.UpdatedOrderFiltered | src/pages/admin/AdminOrders.js:85-91 | a targeted order joins the new status's filter when it has no `status` or `STATUS` value; with a `status` value it stays under its old status |
| AdminOrdersModel.RowStatus | src/pages/admin/AdminOrders.js:230 | the row status is never falsy and is the stored status when that is truthy |
| AdminOrdersModel.OrderActions | src/pages/admin/AdminOrders.js:265-291 | Processing and Cancelled are offered exactly from Pending, Completed exactly from Processing |
| AdminOrdersModel.OrderTransitions | src/pages/admin/AdminOrders.js:265-291 | Completed and Cancelled offer nothing, nothing leads back to Pending, an order without status offers nothing |
| AdminOrdersModel.OrderStats | src/pages/admin/AdminOrders.js:116-131 | each counter is the number of orders with exactly that status, and together they are at most the number of orders |
| AdminOrdersModel.PendingCountMatchesFilter | src/pages/admin/AdminOrders.js:112-131 | the pending counter equals the length of the Pending filter |
| AdminOrdersModel.CountIsFilterLength | src/pages/admin/AdminOrders.js:112-131 | counting a test is the length of the filter by an equivalent test |
| AdminProductsModel.DeleteProduct | src/pages/admin/AdminProducts.js:97-121 | a failed delete leaves the list; a successful one never lengthens it |
| AdminProductsModel.DeleteProductSpec | src/pages/admin/AdminProducts.js:108-113 | a product is kept exactly when its `id||Id||ID` loosely differs from the target, in order |
| AdminProductsModel.DisplayedId | src/pages/admin/AdminProducts.js:338-340 | the displayed id is never falsy |
| AdminProductsModel.DisplayedIdOrder | src/pages/admin/AdminProducts.js:338-340 | `id`, else `Id`, else index + 1 |
| AdminProductsModel.ProductIdSpellings | src/pages/admin/AdminProducts.js:123-138 | the probes for `id` and for `Id` |
| AdminProductsModel.DeleteRowProduct | src/pages/admin/AdminProducts.js:376 | a product with a truthy `id` is removed by its own button; one with no id key is kept |
| AdminEmployeesModel.EmployeeSubmit | src/pages/admin/AdminEmployees.js:141-156 | accepted exactly with a non-blank name, a position and a valid phone; blanks are reported as missing fields, otherwise the refusal is an invalid phone; the phone sent is exactly the digits of the typed one, with every other field as typed |
| AdminEmployeesModel.ValidPhoneNotBlank | src/pages/admin/AdminEmployees.js:141-149 | a valid phone is never blank, so the blank-phone test never decides alone |
| AdminEmployeesModel.WithoutEmployee | src/pages/admin/AdminEmployees.js:208-211 | no kept employee's id loosely equals the deleted one |
| AdminEmployeesModel.WithoutEmployeeSpec | src/pages/admin/AdminEmployees.js:206-211 | exactly the employees whose id loosely differs are kept, in order |
| AdminEmployeesModel.DeleteByRowText | src/pages/admin/AdminEmployees.js:521 | an employee with numeric id n is removed by the text id the button sends |
| AdminEmployeesModel.FindPosition | src/pages/admin/AdminEmployees.js:251-254 | the first position whose id reads as the key; none exactly when no id does |
| AdminEmployeesModel.PositionName | src/pages/admin/AdminEmployees.js:247-262 | empty when the employee has no position id or no position matches; otherwise the title of the first matching position |
| AdminEmployeesModel.PositionTitle | src/pages/admin/AdminEmployees.js:256-259 | the first truthy of `title`, `name` and `positionTitle` as text, else empty |
| AdminEmployeesModel.EmployeeStats | src/pages/admin/AdminEmployees.js:240-273 | each counter is the number of employees whose lower-cased position name contains that word |
| AdminEmployeesModel.UnplacedCountsNowhere | src/pages/admin/AdminEmployees.js:247-268 | an employee without a resolvable position counts in no bucket |
| AdminEmployeesModel.SharedTitleCountsTwice | src/pages/admin/AdminEmployees.js:266-268 | a "Cook manager" counts both as cook and as manager |
| AdminEmployeesModel.ExperienceText | src/pages/admin/AdminEmployees.js:476-479 | "<1 года" for 0, otherwise the number and its unit |
| AdminEmployeesModel.ExperienceUnit | src/pages/admin/AdminEmployees.js:477-479 | the unit is one of год, года, лет |
| AdminEmployeesModel.ExperienceUnitRules | src/pages/admin/AdminEmployees.js:476-479 | 5 and more read лет, below 5 except 1 read года; 21 reads "21 лет" and -1 reads "-1 года" |
| AdminDashboardModel.FormatNumber | src/pages/admin/AdminDashboard.js:114-116 | a negative number keeps its sign in front of the grouped digits |
| AdminDashboardModel.Group | src/pages/admin/AdminDashboard.js:115 | grouping never shortens the digits, keeps the first digit in front and the last three digits at the end |
| AdminDashboardModel.GroupUngroups | src/pages/admin/AdminDashboard.js:115 | deleting the spaces gives the digits back; one space per complete group of three after the first |
| AdminDashboardModel.GroupSpaces | src/pages/admin/AdminDashboard.js:115 | the first group has 1-3 digits, every later group is a space and 3 digits, no space at the start |
| AdminDashboardModel.FormatNumberUngroups | src/pages/admin/AdminDashboard.js:114-116 | deleting the spaces of the formatted number gives its decimal text |
| AdminDashboardModel.FormatCurrencyUngroups | src/pages/admin/AdminDashboard.js:118-120 | deleting the spaces of a currency text gives the decimal text followed by ₽ |
| AdminDashboardModel.FormatSmallExample | src/pages/admin/AdminDashboard.js:114-116 | 999 stays 999 |
| AdminDashboardModel.FormatRevenueExample | src/pages/admin/AdminDashboard.js:118-120 | 2480 shows as "2 480" and "2 480 ₽" |
| AdminDashboardModel.FormatMillionExample | src/pages/admin/AdminDashboard.js:114-116 | 1234567 shows as "1 234 567" |
| AdminDashboardModel.StatsAfterLoad | src/pages/admin/AdminDashboard.js:41-78 | a throw in any of the three requests shows 4 orders, 2480 revenue, 1 pending, 2 completed, 9 products, 0 low stock, even over statistics that had loaded; a response that is not ok keeps the previous statistics; otherwise the loaded ones are shown |
| AdminDashboardModel.FirstLoadNotOk | src/pages/admin/AdminDashboard.js:7-48 | on the first load a response that is not ok leaves the all-zero statistics, which differ from the fallback |
| AdminDashboardModel.PendingNote | src/pages/admin/AdminDashboard.js:266 | the warning exactly when more than 5 orders wait |
| AdminDashboardModel.StockNote | src/pages/admin/AdminDashboard.js:278-281 | the low-stock count when positive; otherwise the full-stock figure total minus low stock |
| AdminDashboardModel.FallbackNotes | src/pages/admin/AdminDashboard.js:41-78 | whenever a load throws, the figures shown are consistent and show "all under control" and 9 fully stocked |
| AdminDashboardModel.RoleLabel | src/pages/admin/AdminDashboard.js:161-165 | the generic "Сотрудник" exactly when the role is none of the five known ones |
| AdminDashboardModel.UserName | src/pages/admin/AdminDashboard.js:158 | never falsy; the full name when truthy; "Администратор" without user info |
| Helpers.TruncateText | src/utils/helpers.js:20-24 | empty stays empty, short text is kept, longer text is its first max characters and "..." (max + 3 long) |
| Helpers.TruncateShape | src/utils/helpers.js:20-24 | the text is shown whole or cut to its first max characters and "...", never longer than max + 3 |
| Helpers.StatusColorAsWritten | src/utils/helpers.js:26-38 | the table lookup hits an inherited member exactly for "constructor" and "__proto__" in any case |
| Helpers.StatusColorPrototypeLeak | src/utils/helpers.js:37 | "Constructor" and "__proto__" fetch prototype members instead of a class name |
| Helpers.StatusColor | src/utils/helpers.js:26-38 | the class of the lower-cased status in the eight-entry table, else "secondary" |
| Helpers.StatusColorCaseInsensitive | src/utils/helpers.js:26-38 | case does not matter and the result is one of six class names |
| Helpers.StatusColorAgrees | src/utils/helpers.js:26-38 | apart from the two prototype keys the code and the corrected lookup agree |
| Helpers.EmailPatternAgrees | src/utils/helpers.js:40-43 | the regular expression matches exactly when there is one `@`, no whitespace, and a dot in the domain with text on both sides |
| Helpers.IsValidEmail | src/utils/helpers.js:40-43 | an accepted address contains an `@` and has at least five characters |
| Helpers.EmailExamples | src/utils/helpers.js:40-43 | a@b.c is valid; a@b@c.d and a@bc. are not |
| Helpers.IsValidPhoneDigits | src/utils/helpers.js:45-48 | valid exactly when the phone has 2-15 digits and the first is not 0 |
| Helpers.IsValidPhone | src/utils/helpers.js:45-48 | an accepted phone has at least two characters |
| Helpers.RussianPhoneIsValid | src/utils/helpers.js:45-48 | every Russian mobile number passes; 12345 passes here but not the checkout check |
| Helpers.ToCamelCase | src/utils/helpers.js:50-54 | never longer than the input |
| Helpers.FirstNotLower | src/utils/helpers.js:50-54 | a string that does not start with a lower-case letter gives a non-empty result that does not start with one either |
| Helpers.CamelHasNoPair | src/utils/helpers.js:50-54 | the result has no `-` or `_` followed by a lower-case letter |
| Helpers.NoPairUnchanged | src/utils/helpers.js:50-54 | a string without such a pair passes through unchanged |
| Helpers.CamelIdempotent | src/utils/helpers.js:50-54 | camel-casing twice is camel-casing once |
| Helpers.CamelExample | src/utils/helpers.js:50-54 | "a_b-c" becomes "aBC" and "a-1" is unchanged |

## Left out
- Network I/O is not modelled: the API probe, the fetches with timeouts, polling and the back-end calls. Their outcomes are the parameters `success` and `throws`, and for the dashboard statistics `AdminDashboardModel.StatsFetch` and `laterThrows`.
- The simulated 1500 ms submit delay, `setInterval` and the cross-tab `storage` event are timer- and event-driven and are not modelled.
- Randomness and clocks are parameters: generated line ids, the order id, `toISOString` timestamps, and the experience years the employees page computes from dates.
- Floating point is left out: salary, amount and revenue sums, profit and margin statistics, `toFixed`, the 4.5 rating (kept as the tenths 45), and `monthlyRevenue / 30`.
- Locale formatting (`formatPrice`, `formatDate`, `toLocaleDateString`) and the name sorts by `localeCompare` are left out; `Catalog.SortModeOf` gives those two orders no numeric key.
- JSX, images, CSS, `alert`/`confirm` dialogs and `window.location` navigation are not modelled; a dialog's answer is the parameter `confirmed`.
- Case mapping covers ASCII and the basic Cyrillic letters only; JavaScript's full Unicode case tables and UTF-16 lengths are not modelled.
- A stored cart that parses to something other than a list, and failing storage writes, are not modelled; a slot is missing, unparsable, or a list of lines.
- `Js.ToNumber` models the text-to-number conversion of loose equality for optionally signed decimal integers only; fractions, exponents and hexadecimal text are not modelled.
- A position name that is not a string would make the employees page throw; the model reads it as its text.
- The catalog page's summary figures are not modelled: the product count, the filtered count, and the available, unavailable, total-calories and average-price figures over the whole product list; the average needs `Math.round` of a division.
- Prototype keys in lookups other than `getStatusColor` (the name, description and image tables of the normaliser) are not modelled.
- The supplier, login and layout pages, the route table, the API services and the React hooks are not part of this model.
- `AdminDashboardModel.FormatCurrency`: has no contract of its own; its meaning is stated by `FormatCurrencyUngroups` and `FormatRevenueExample`.

## Findings

| source | as written | input that shows it | evidently intended | confidence | as-written member | corrected member |
|---|---|---|---|---|---|---|
| src/utils/helpers.js:37 | `statuses[status?.toLowerCase()]` indexes a plain object literal, so inherited members answer too | "Constructor" (or "__proto__") yields a function (or the object prototype) instead of a class name | an unknown status, whatever its spelling, gets "secondary" | not executed | Helpers.StatusColorPrototypeLeak | Helpers.StatusColorCaseInsensitive |
