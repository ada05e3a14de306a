# Foodgram relational core in Dafny

This project models the business logic of the Foodgram recipe API's request
handlers (`backend/api/views.py`). Users follow authors, mark recipes as favorites and put recipes into a
shopping cart. The handlers check and change these relation tables, add up a
shopping list from the cart, and resolve a recipe's short link.

- `rows.dfy` (module `Rows`): a relation table as a sequence of rows in
  insertion order. `NoDups` is the unique-together constraint. `Without`
  deletes a row.
- `catalog.dfy` (module `Catalog`): users, ingredients, recipes with their line
  items, the relation rows, and the `short_url` lookup.
- `api.dfy` (module `Api`): the class `Store` holds the users, the catalog and the three relation
  tables. Its methods `Subscribe`, `Favorite` and `ShoppingCart` are the
  POST/DELETE handlers. They change only their own table. They keep the invariant `Valid()`: no
  duplicate rows, no self-subscription, every row refers to a stored user and
  recipe. Its functions `Subscriptions`, `DownloadShoppingCart` and `ShortUrl`
  are the read-only handlers.
- `shopping_list.dfy` (module `ShoppingList`): the `download_shopping_cart`
  query. It joins the cart rows to the line items, groups by (ingredient name,
  measurement unit), sums the amounts, and renders `"{name} - {sum} ({unit})"`
  lines joined by `'\n'`.
- `text.dfy` (module `Text`): `str(n)` for a non-negative integer, `'\n'.join`
  and its inverse `split`.

Replies collapse HTTP statuses into `Reply`:
- `Ok` is 201 or 204.
- `NotFound` is the 404 of `get_object_or_404`.
- `SelfSubscribe`, `AlreadyExists` and `NotPresent` are the 400 answers. Each
  carries the handler's message verbatim.

The model follows the code, including these points:

- Removing a subscription that does not exist is a 400 "not subscribed" answer
  (`NotPresent`), not a not-found error.
- The subscription handler looks the author up first (404 for an unknown id)
  and only then refuses self-subscription. It does so for POST and DELETE
  alike.
- The shopping list is grouped by (ingredient name, measurement unit) as the
  query's `.values(...)` does, not by ingredient id.
- The query fixes no order. The model emits groups in the order their key
  first appears among the joined rows: cart rows in table order, then each
  recipe's line items in order. The properties are stated per key and do not
  depend on this choice.
- The message for removing an absent favorite or cart entry says the recipe
  was "removed" (`удален`). It is kept verbatim.

## Model

| member | source | states |
|---|---|---|
| Api.Store.Subscribe | backend/api/views.py:118-154 | Unknown author: NotFound, relation unchanged. Self-subscription: refused for both verbs before the verb is looked at, relation unchanged. POST on an existing pair: "already subscribed", no second row. POST otherwise: exactly that row appended. DELETE on an absent pair: "not subscribed", relation unchanged. DELETE on a present pair: exactly that row removed. Only the subscription table changes. No duplicate rows and no self-subscription are kept as invariants. |
| Api.Store.Favorite | backend/api/views.py:204-229 | Missing recipe: NotFound before any change, for both verbs. Duplicate POST: AlreadyExists with a message starting with the recipe name, favorites unchanged. POST otherwise: exactly one row appended, so at most one row per pair. DELETE: removes exactly the pair when present, otherwise NotPresent naming the recipe and nothing changes. Only the favorites table changes. |
| Api.Store.ShoppingCart | backend/api/views.py:238-260 | The same not-found, duplicate and absent-pair rules as favorites, with the cart's messages. Only the cart table changes; favorites and subscriptions are untouched. |
| Api.Store.Subscriptions | backend/api/views.py:103-112 | The listed authors are exactly those of the user's subscription rows. No author is listed twice, and the user never appears. |
| Api.FollowedAuthors | backend/api/views.py:105-107 | The list comprehension over the user's subscription rows: an author is in the list iff a (user, author) row exists. Repeat-free rows give a repeat-free list, no longer than the table. |
| Api.Store.DownloadShoppingCart | backend/api/views.py:269-282 | A user with no cart rows downloads the empty text. A non-empty text ends with `)`, never with a newline. |
| Api.Store.ShortUrl | backend/api/views.py:301-309 | Redirects to a recipe whose stored short link equals the requested URI. Answers not-found exactly when no recipe stores that link. |
| Api.FavoriteThenUnfavorite | backend/api/views.py:207-229 | Adding a favorite and then removing it restores the original favorites table and touches no other table. |
| Api.SubscribeThenUnsubscribe | backend/api/views.py:129-154 | Subscribing and then unsubscribing restores the original subscription table. |
| Api.AddToCartExtendsList | backend/api/views.py:248-276 | A successful cart POST adds exactly that recipe's line items to the rows the user's list is aggregated from. Other users' rows are unchanged. |
| Api.RecipeDetail | backend/api/views.py:209-260 | The favorite and cart error messages contain the recipe's name, right after the message's lead (empty, or the single space of the duplicate-cart message). |
| Rows.Without | backend/api/views.py:219-225 | Deleting a row: a row survives iff it was present and differs from the deleted one. An absent row leaves the table as it was. Uniqueness is kept. Deleting a present unique row shrinks the table by exactly one. |
| Rows.AppendKeepsNoDups | backend/api/views.py:209-214 | Inserting a row only after checking it is absent keeps the table free of duplicate rows. |
| Rows.WithoutAppended | backend/api/views.py:214-224 | Deleting the row just inserted gives back exactly the previous table (add then remove restores). |
| Catalog.ResolveShortLink | backend/api/views.py:304-305 | The lookup returns a recipe storing the requested link, and returns None iff no recipe stores it. |
| Catalog.ShortLinkRoundTrip | backend/api/views.py:304-308 | Following a recipe's stored short link leads back to that recipe, as long as links are unique. |
| ShoppingList.RecipeLines | backend/api/views.py:271-274 | Joining a recipe's line items to the catalog gives one row per item, carrying the ingredient's name and unit and the item's amount. |
| ShoppingList.CartLinesOwnRows | backend/api/views.py:272-273 | The joined rows depend only on the user's own cart rows; other users' carts contribute nothing. |
| ShoppingList.OtherUsersIgnored | backend/api/views.py:271-276 | Two carts that agree on the user's rows give the user the same shopping list. |
| ShoppingList.CartLinesAppend | backend/api/views.py:271-273 | A new cart row of the user adds that recipe's line items to the joined rows. A row of another user adds nothing. |
| ShoppingList.AddLine | backend/api/views.py:274-275 | Folding one row into the groups adds its key to the key set and keeps keys distinct. It adds its amount to its key's total and to no other key. |
| ShoppingList.Group | backend/api/views.py:274-275 | Group-by-sum: keys are distinct, the keys are exactly those of the rows, and every key's total is the sum of the amounts of the rows with that key. |
| ShoppingList.TotalOfDistinct | backend/api/views.py:275 | With distinct keys, a key's total is the total of the single entry holding it. |
| ShoppingList.DistinctKeysCount | backend/api/views.py:274 | With distinct keys there are as many entries as keys. |
| ShoppingList.AggregateSpec | backend/api/views.py:271-276 | Exactly one entry per distinct (name, unit) among the line items of the recipes in the user's cart. Each entry's total is the sum of all contributing amounts. |
| ShoppingList.EmptyCartNoEntries | backend/api/views.py:271-276 | A user with no cart rows gets no entries. |
| ShoppingList.EmptyCartEmptyText | backend/api/views.py:271-282 | A user with no cart rows downloads the empty text. |
| ShoppingList.FormatAll | backend/api/views.py:277-281 | One formatted line per entry, each `"{name} - {sum} ({unit})"`. |
| ShoppingList.FormatEntryNewlineFree | backend/api/views.py:278-279 | A formatted line has no newline when the ingredient name and unit have none. |
| ShoppingList.RenderLines | backend/api/views.py:277-281 | The empty list renders as the empty text. Otherwise, splitting the text at newlines gives back exactly the formatted lines, one per group, when names and units hold no newline. |
| ShoppingList.JoinEndsWithLastPart | backend/api/views.py:277 | `'\n'.join` places separators only between parts, so a non-empty last part ends the text. |
| ShoppingList.RenderNoTrailingNewline | backend/api/views.py:277-281 | The text is empty iff the list is. A non-empty text ends with `)`, never with a trailing newline. |
| ShoppingList.SaltExample | backend/api/views.py:271-282 | Salt 5 g and salt 3 g from two recipes in the cart give the single line `salt - 8 (g)`. Another user's cart row adds nothing. |
| Text.NatToString | backend/api/views.py:278 | The rendered sum is a non-empty string of decimal digits. It has no leading zero unless the sum is 0, and is one digit long iff the sum is below 10. |
| Text.ParseNatToString | backend/api/views.py:278 | Reading back the rendered sum gives the sum. |
| Text.SplitJoin | backend/api/views.py:277 | Splitting the newline-joined lines gives back the lines when there is at least one and none contains a newline. |
| Text.JoinSplit | backend/api/views.py:277 | Joining the pieces of a split gives back the text. |

## Left out

- Avatar upload and delete (`views.py:75-94`): image storage I/O.
- `me`, `get_serializer_class`, `perform_create` and the tag, ingredient and
  recipe CRUD bindings: framework dispatch. The serializers, filters and
  permissions they delegate to are not part of this model. So recipe create,
  update and delete are not modelled, nor the cascade of a recipe's deletion
  into favorites and carts.
- Response bodies: the serialized subscription, favorite and cart entry, and
  each followed author's recipe count and preview. The serializers are not
  part of this model; `Reply` keeps only the status and the error message.
- Pagination of `subscriptions` (`paginate_queryset`): page-size
  configuration of a library class.
- `get_short_link`: it builds a URL with `reverse` and `build_absolute_uri`,
  which are framework calls. For `short_url`, the absolute URI of the request
  is the `link` parameter. How the stored token is generated is not part of
  this model.
- Api.Store.ShortUrl: the store keeps short links unique, so the
  multiple-match error of `get_object_or_404` is not modelled.
- Authentication: the requesting `user` is taken to be a stored user, which is
  what the framework's authentication gives the handlers. Anonymous requests
  are not modelled.
- The check-then-insert race between concurrent requests in `favorite` and
  `shopping_cart` (`views.py:209-214`, `243-248`). Each handler is modelled
  as one sequential step.
- Ordering of the downloaded lines: the query sets none. The model fixes
  first-appearance order, as described above.
- ShoppingList.RenderLines: one line per group holds only if no ingredient name
  or unit contains a newline. The source does not enforce this, so the lemma
  requires it.
- Amounts are unbounded natural numbers. The database column's width and the
  "amount > 0" validation belong to the model classes, which are not part of
  this model.
- The `is_favorited` and `is_in_shopping_cart` annotations and the recipe
  filters are computed by serializers and filters, which are not part of this
  model.
- `backend/recipes/admin.py`, `backend/users/admin.py`, `backend/api/pagination.py`
  and the frontend page: admin and UI configuration with no logic of the core.
