/** The request handlers of the recipe API over the relational store.

    The store is one object whose relation tables (subscriptions, favorites,
    shopping cart) the `subscribe`, `favorite` and `shopping_cart` handlers
    change in place; users, recipes and ingredients are read only. Each handler
    serves both POST (add) and DELETE (remove), so it takes the verb. */
module Api {
  import opened Catalog
  import opened Rows
  import ShoppingList

  datatype Verb = Post | Delete

  /** The answer of a handler: success, a missing object (404), or one of the
      400 answers with the message the handler puts in the body. */
  datatype Reply =
    | Ok
    | NotFound
    | SelfSubscribe(detail: string)
    | AlreadyExists(detail: string)
    | NotPresent(detail: string)

  const SelfSubscribeDetail: string := "Вы не можете подписаться на себя."
  const AlreadySubscribedDetail: string := "Вы уже подписаны на этого автора."
  const NotSubscribedDetail: string := "Вы не подписаны на этого автора."

  /** `detail` contains `name` at position `at`. */
  predicate MentionsAt(detail: string, name: string, at: nat)
  {
    at + |name| <= |detail| && detail[at..at + |name|] == name
  }

  /** The messages of the favorite and cart handlers name the recipe:
      `lead`, then the recipe's name, then `tail`. */
  function RecipeDetail(lead: string, name: string, tail: string): (d: string)
    ensures MentionsAt(d, name, |lead|)
  {
    lead + name + tail
  }

  const FavoriteExistsTail: string := " уже в избранном."
  const FavoriteAbsentTail: string := " удален из избранного."
  const CartExistsTail: string := " уже добавлен."
  const CartAbsentTail: string := " удален из списка покупок."

  /** The authors `user` follows, one per subscription row of `user`, in row
      order. */
  function FollowedAuthors(subscriptions: seq<Subscription>, user: UserId): (r: seq<UserId>)
    ensures forall a :: a in r <==> Subscription(user, a) in subscriptions
    ensures NoDups(subscriptions) ==> NoDups(r)
    ensures |r| <= |subscriptions|
  {
    if |subscriptions| == 0 then []
    else
      var rest := FollowedAuthors(subscriptions[1..], user);
      var s := subscriptions[0];
      if s.subscriber == user then
        assert NoDups(subscriptions) ==> s !in subscriptions[1..];
        [s.author] + rest
      else
        rest
  }

  class Store {
    var users: set<UserId>
    var ingredients: map<IngredientId, Ingredient>
    var recipes: map<RecipeId, Recipe>
    var subscriptions: seq<Subscription>
    var favorites: seq<Membership>
    var carts: seq<Membership>

    /** The database constraints the handlers rely on and keep: every row
        refers to stored users and recipes, no row is stored twice, and nobody
        follows themselves. */
    ghost predicate Valid()
      reads this
    {
      && ItemsResolve(recipes, ingredients)
      && LinksUnique(recipes)
      && NoDups(subscriptions)
      && NoDups(favorites)
      && NoDups(carts)
      && (forall s :: s in subscriptions ==> s.subscriber != s.author && s.subscriber in users && s.author in users)
      && (forall m :: m in favorites ==> m.user in users && m.recipe in recipes)
      && (forall m :: m in carts ==> m.user in users && m.recipe in recipes)
    }

    /** A store holding the given users and catalog, with empty relations. */
    constructor (users: set<UserId>, ingredients: map<IngredientId, Ingredient>, recipes: map<RecipeId, Recipe>)
      requires ItemsResolve(recipes, ingredients) && LinksUnique(recipes)
      ensures Valid()
      ensures this.users == users && this.ingredients == ingredients && this.recipes == recipes
      ensures subscriptions == [] && favorites == [] && carts == []
    {
      this.users := users;
      this.ingredients := ingredients;
      this.recipes := recipes;
      subscriptions := [];
      favorites := [];
      carts := [];
    }

    /** `subscribe`: POST makes `user` follow `author`, DELETE stops it. The
        author must exist, and following oneself is refused for both verbs
        before the verb is looked at. Only the subscription table changes. */
    method Subscribe(user: UserId, author: UserId, verb: Verb) returns (reply: Reply)
      requires Valid() && user in users
      modifies this`subscriptions
      ensures Valid()
      ensures author !in users ==> reply == NotFound && subscriptions == old(subscriptions)
      ensures author in users && user == author ==>
        reply == SelfSubscribe(SelfSubscribeDetail) && subscriptions == old(subscriptions)
      ensures author in users && user != author && verb == Post ==>
        if Subscription(user, author) in old(subscriptions)
        then reply == AlreadyExists(AlreadySubscribedDetail) && subscriptions == old(subscriptions)
        else reply == Ok && subscriptions == old(subscriptions) + [Subscription(user, author)]
      ensures author in users && user != author && verb == Delete ==>
        if Subscription(user, author) in old(subscriptions)
        then reply == Ok && subscriptions == Without(old(subscriptions), Subscription(user, author))
        else reply == NotPresent(NotSubscribedDetail) && subscriptions == old(subscriptions)
    {
      if author !in users {
        return NotFound;
      }
      if user == author {
        return SelfSubscribe(SelfSubscribeDetail);
      }
      var row := Subscription(user, author);
      match verb
      case Post =>
        if row in subscriptions {
          return AlreadyExists(AlreadySubscribedDetail);
        }
        AppendKeepsNoDups(subscriptions, row);
        subscriptions := subscriptions + [row];
        reply := Ok;
      case Delete =>
        if row !in subscriptions {
          return NotPresent(NotSubscribedDetail);
        }
        subscriptions := Without(subscriptions, row);
        reply := Ok;
    }

    /** `favorite`: POST marks `recipe` as a favorite of `user`, DELETE unmarks
        it. A missing recipe is "not found" for both verbs; a duplicate or an
        absent mark is refused with a message naming the recipe. Only the
        favorites table changes. */
    method Favorite(user: UserId, recipe: RecipeId, verb: Verb) returns (reply: Reply)
      requires Valid() && user in users
      modifies this`favorites
      ensures Valid()
      ensures recipe !in recipes ==> reply == NotFound && favorites == old(favorites)
      ensures recipe in recipes && verb == Post ==>
        if Membership(user, recipe) in old(favorites)
        then reply == AlreadyExists(RecipeDetail("", recipes[recipe].name, FavoriteExistsTail)) && favorites == old(favorites)
        else reply == Ok && favorites == old(favorites) + [Membership(user, recipe)]
      ensures recipe in recipes && verb == Delete ==>
        if Membership(user, recipe) in old(favorites)
        then reply == Ok && favorites == Without(old(favorites), Membership(user, recipe))
        else reply == NotPresent(RecipeDetail("", recipes[recipe].name, FavoriteAbsentTail)) && favorites == old(favorites)
    {
      if recipe !in recipes {
        return NotFound;
      }
      var name := recipes[recipe].name;
      var row := Membership(user, recipe);
      match verb
      case Post =>
        if row in favorites {
          return AlreadyExists(RecipeDetail("", name, FavoriteExistsTail));
        }
        AppendKeepsNoDups(favorites, row);
        favorites := favorites + [row];
        reply := Ok;
      case Delete =>
        if row in favorites {
          favorites := Without(favorites, row);
          return Ok;
        }
        reply := NotPresent(RecipeDetail("", name, FavoriteAbsentTail));
    }

    /** `shopping_cart`: the same rules as `favorite`, applied to the cart
        table with the cart's own messages. Only the cart table changes. */
    method ShoppingCart(user: UserId, recipe: RecipeId, verb: Verb) returns (reply: Reply)
      requires Valid() && user in users
      modifies this`carts
      ensures Valid()
      ensures recipe !in recipes ==> reply == NotFound && carts == old(carts)
      ensures recipe in recipes && verb == Post ==>
        if Membership(user, recipe) in old(carts)
        then reply == AlreadyExists(RecipeDetail(" ", recipes[recipe].name, CartExistsTail)) && carts == old(carts)
        else reply == Ok && carts == old(carts) + [Membership(user, recipe)]
      ensures recipe in recipes && verb == Delete ==>
        if Membership(user, recipe) in old(carts)
        then reply == Ok && carts == Without(old(carts), Membership(user, recipe))
        else reply == NotPresent(RecipeDetail("", recipes[recipe].name, CartAbsentTail)) && carts == old(carts)
    {
      if recipe !in recipes {
        return NotFound;
      }
      var name := recipes[recipe].name;
      var row := Membership(user, recipe);
      match verb
      case Post =>
        if row in carts {
          return AlreadyExists(RecipeDetail(" ", name, CartExistsTail));
        }
        AppendKeepsNoDups(carts, row);
        carts := carts + [row];
        reply := Ok;
      case Delete =>
        if row in carts {
          carts := Without(carts, row);
          return Ok;
        }
        reply := NotPresent(RecipeDetail("", name, CartAbsentTail));
    }

    /** `subscriptions`: the authors `user` follows, without repeats. */
    function Subscriptions(user: UserId): (r: seq<UserId>)
      reads this
      requires Valid()
      ensures forall a :: a in r <==> Subscription(user, a) in subscriptions
      ensures NoDups(r) && user !in r
    {
      FollowedAuthors(subscriptions, user)
    }

    /** `download_shopping_cart`: the text of `user`'s shopping list. */
    function DownloadShoppingCart(user: UserId): (text: string)
      reads this
      requires Valid()
      ensures (forall i :: 0 <= i < |carts| ==> carts[i].user != user) ==> text == ""
      ensures text != "" ==> text[|text| - 1] == ')'
    {
      ShoppingList.EmptyCartEmptyText(carts, recipes, ingredients, user);
      ShoppingList.RenderNoTrailingNewline(ShoppingList.Aggregate(carts, recipes, ingredients, user));
      ShoppingList.Download(carts, recipes, ingredients, user)
    }

    /** `short_url`: the recipe a short link redirects to, or None (not found). */
    function ShortUrl(link: string): (r: Option<RecipeId>)
      reads this
      requires Valid()
      ensures r.Some? ==> r.value in recipes && recipes[r.value].shortLink == link
      ensures r.None? <==> forall id :: id in recipes ==> recipes[id].shortLink != link
    {
      ResolveShortLink(recipes, link)
    }
  }

  /** Marking a favorite and then unmarking it leaves the favorites as they
      were, and touches no other table. */
  method FavoriteThenUnfavorite(store: Store, user: UserId, recipe: RecipeId)
    requires store.Valid() && user in store.users && recipe in store.recipes
    requires Membership(user, recipe) !in store.favorites
    modifies store
    ensures store.Valid()
    ensures store.favorites == old(store.favorites)
    ensures store.carts == old(store.carts) && store.subscriptions == old(store.subscriptions)
  {
    var added := store.Favorite(user, recipe, Post);
    assert added == Ok;
    var removed := store.Favorite(user, recipe, Delete);
    assert removed == Ok;
    WithoutAppended(old(store.favorites), Membership(user, recipe));
  }

  /** Following and then unfollowing leaves the subscriptions as they were. */
  method SubscribeThenUnsubscribe(store: Store, user: UserId, author: UserId)
    requires store.Valid() && user in store.users && author in store.users && user != author
    requires Subscription(user, author) !in store.subscriptions
    modifies store
    ensures store.Valid()
    ensures store.subscriptions == old(store.subscriptions)
  {
    var added := store.Subscribe(user, author, Post);
    var removed := store.Subscribe(user, author, Delete);
    assert removed == Ok;
    WithoutAppended(old(store.subscriptions), Subscription(user, author));
  }

  /** Putting a recipe into the cart adds exactly that recipe's line items to
      the rows the user's shopping list is aggregated from; other users' rows
      stay as they were. */
  method AddToCartExtendsList(store: Store, user: UserId, recipe: RecipeId, other: UserId)
    requires store.Valid() && user in store.users && recipe in store.recipes
    requires Membership(user, recipe) !in store.carts && other != user
    modifies store`carts
    ensures store.Valid()
    ensures ShoppingList.CartLines(store.carts, store.recipes, store.ingredients, user) ==
      ShoppingList.CartLines(old(store.carts), store.recipes, store.ingredients, user) +
      ShoppingList.RecipeLines(store.recipes[recipe].items, store.ingredients)
    ensures ShoppingList.CartLines(store.carts, store.recipes, store.ingredients, other) ==
      ShoppingList.CartLines(old(store.carts), store.recipes, store.ingredients, other)
  {
    var reply := store.ShoppingCart(user, recipe, Post);
    ShoppingList.CartLinesAppend(old(store.carts), Membership(user, recipe), store.recipes, store.ingredients, user);
    ShoppingList.CartLinesAppend(old(store.carts), Membership(user, recipe), store.recipes, store.ingredients, other);
  }
}
