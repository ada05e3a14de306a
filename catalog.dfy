/** The stored entities the handlers read: users, ingredients, recipes with their
    line items, and the three relation rows (subscriptions, favorites, cart). */
module Catalog {

  type UserId = nat
  type RecipeId = nat
  type IngredientId = nat

  datatype Option<T> = None | Some(value: T)

  /** Reference data: an ingredient and the unit it is measured in. */
  datatype Ingredient = Ingredient(name: string, unit: string)

  /** One RecipeIngredient row: how much of which ingredient a recipe needs. */
  datatype LineItem = LineItem(ingredient: IngredientId, amount: nat)

  /** A recipe as the handlers see it: its name (used in error messages), its
      author, its stored short link and its ingredient line items. */
  datatype Recipe = Recipe(name: string, author: UserId, shortLink: string, items: seq<LineItem>)

  /** A Subscription row: `subscriber` follows `author`. */
  datatype Subscription = Subscription(subscriber: UserId, author: UserId)

  /** A Favorite or ShoppingCart row: `user` marked `recipe`. */
  datatype Membership = Membership(user: UserId, recipe: RecipeId)

  /** Every line item refers to an ingredient of the catalog (a foreign key). */
  predicate ItemsResolve(recipes: map<RecipeId, Recipe>, ingredients: map<IngredientId, Ingredient>)
  {
    forall id, k :: id in recipes && 0 <= k < |recipes[id].items| ==> recipes[id].items[k].ingredient in ingredients
  }

  /** No two recipes store the same short link (a unique column). */
  predicate LinksUnique(recipes: map<RecipeId, Recipe>)
  {
    forall a, b :: a in recipes && b in recipes && recipes[a].shortLink == recipes[b].shortLink ==> a == b
  }

  /** The recipe whose stored short link equals the requested absolute URI, or
      None when no recipe has it (the handler then answers "not found"). */
  function ResolveShortLink(recipes: map<RecipeId, Recipe>, link: string): (r: Option<RecipeId>)
    requires LinksUnique(recipes)
    ensures r.Some? ==> r.value in recipes && recipes[r.value].shortLink == link
    ensures r.None? <==> forall id :: id in recipes ==> recipes[id].shortLink != link
  {
    if exists id :: id in recipes && recipes[id].shortLink == link then
      var id :| id in recipes && recipes[id].shortLink == link;
      Some(id)
    else
      None
  }

  /** Following the short link stored for a recipe leads back to that recipe. */
  lemma ShortLinkRoundTrip(recipes: map<RecipeId, Recipe>, id: RecipeId)
    requires LinksUnique(recipes) && id in recipes
    ensures ResolveShortLink(recipes, recipes[id].shortLink) == Some(id)
  {
  }
}
