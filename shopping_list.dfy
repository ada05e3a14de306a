/** The shopping-list download: join the user's cart rows to the line items of
    the recipes in the cart, group by (ingredient name, measurement unit), sum
    the amounts per group and render one text line per group.

    The query sets no order; this model emits the groups in the order their key
    first appears among the joined rows (cart rows in table order, each
    recipe's line items in order). */
module ShoppingList {
  import opened Catalog
  import Text

  /** The grouping key: ingredient name and measurement unit. */
  type Key = (string, string)

  /** One joined row: a line item of a recipe in the cart, with its
      ingredient's name and unit. */
  datatype Line = Line(name: string, unit: string, amount: nat)
  {
    function Key(): Key { (name, unit) }
  }

  /** One group of the result: the summed amount of a (name, unit) pair. */
  datatype Entry = Entry(name: string, unit: string, total: nat)
  {
    function Key(): Key { (name, unit) }
  }

  /** Every cart row refers to a stored recipe (a foreign key). */
  predicate CartResolves(carts: seq<Membership>, recipes: map<RecipeId, Recipe>)
  {
    forall i :: 0 <= i < |carts| ==> carts[i].recipe in recipes
  }

  /** The line items of one recipe, joined to the catalog. */
  function RecipeLines(items: seq<LineItem>, ingredients: map<IngredientId, Ingredient>): (r: seq<Line>)
    requires forall k :: 0 <= k < |items| ==> items[k].ingredient in ingredients
    ensures |r| == |items|
    ensures forall k :: 0 <= k < |r| ==>
      r[k] == Line(ingredients[items[k].ingredient].name, ingredients[items[k].ingredient].unit, items[k].amount)
  {
    if |items| == 0 then []
    else
      var ing := ingredients[items[0].ingredient];
      [Line(ing.name, ing.unit, items[0].amount)] + RecipeLines(items[1..], ingredients)
  }

  /** The rows of `RecipeIngredient` joined to the cart rows of `user`: one copy
      of a recipe's line items per cart row of that user naming it. */
  function CartLines(carts: seq<Membership>, recipes: map<RecipeId, Recipe>,
                     ingredients: map<IngredientId, Ingredient>, user: UserId): seq<Line>
    requires CartResolves(carts, recipes) && ItemsResolve(recipes, ingredients)
  {
    if |carts| == 0 then []
    else
      var own := if carts[0].user == user then RecipeLines(recipes[carts[0].recipe].items, ingredients) else [];
      own + CartLines(carts[1..], recipes, ingredients, user)
  }

  /** The cart rows that belong to `user`. */
  function OwnRows(carts: seq<Membership>, user: UserId): (r: seq<Membership>)
    ensures forall i :: 0 <= i < |r| ==> r[i].user == user && r[i] in carts
    ensures forall m :: m in carts && m.user == user ==> m in r
  {
    if |carts| == 0 then []
    else if carts[0].user == user then [carts[0]] + OwnRows(carts[1..], user)
    else OwnRows(carts[1..], user)
  }

  /** Other users' cart rows contribute nothing: the joined rows depend only on
      the user's own cart rows. */
  lemma {:induction false} CartLinesOwnRows(carts: seq<Membership>, recipes: map<RecipeId, Recipe>,
                                            ingredients: map<IngredientId, Ingredient>, user: UserId)
    requires CartResolves(carts, recipes) && ItemsResolve(recipes, ingredients)
    ensures CartResolves(OwnRows(carts, user), recipes)
    ensures CartLines(carts, recipes, ingredients, user) == CartLines(OwnRows(carts, user), recipes, ingredients, user)
  {
    if |carts| > 0 {
      CartLinesOwnRows(carts[1..], recipes, ingredients, user);
      if carts[0].user == user {
        var r := [carts[0]] + OwnRows(carts[1..], user);
        assert r[1..] == OwnRows(carts[1..], user);
      }
    }
  }

  /** Adding a recipe to the end of the user's cart adds exactly that recipe's
      line items to the joined rows; a row of another user adds nothing. */
  lemma {:induction false} CartLinesAppend(carts: seq<Membership>, m: Membership, recipes: map<RecipeId, Recipe>,
                                           ingredients: map<IngredientId, Ingredient>, user: UserId)
    requires CartResolves(carts, recipes) && m.recipe in recipes && ItemsResolve(recipes, ingredients)
    ensures CartResolves(carts + [m], recipes)
    ensures CartLines(carts + [m], recipes, ingredients, user) ==
      CartLines(carts, recipes, ingredients, user) +
      (if m.user == user then RecipeLines(recipes[m.recipe].items, ingredients) else [])
  {
    var c := carts + [m];
    if |carts| == 0 {
      assert c[1..] == [];
    } else {
      assert c[1..] == carts[1..] + [m];
      CartLinesAppend(carts[1..], m, recipes, ingredients, user);
    }
  }

  // ----- grouping -----

  predicate KeysDistinct(es: seq<Entry>)
  {
    forall i, j :: 0 <= i < j < |es| ==> es[i].Key() != es[j].Key()
  }

  function EntryKeys(es: seq<Entry>): set<Key>
  {
    set i | 0 <= i < |es| :: es[i].Key()
  }

  function LineKeys(lines: seq<Line>): set<Key>
  {
    set i | 0 <= i < |lines| :: lines[i].Key()
  }

  /** The sum of `amount` over the rows whose key is `k`. */
  function SumFor(lines: seq<Line>, k: Key): nat
  {
    if |lines| == 0 then 0
    else SumFor(lines[..|lines| - 1], k) + (if lines[|lines| - 1].Key() == k then lines[|lines| - 1].amount else 0)
  }

  /** The total the entries give to key `k`. */
  function TotalFor(es: seq<Entry>, k: Key): nat
  {
    if |es| == 0 then 0
    else (if es[0].Key() == k then es[0].total else 0) + TotalFor(es[1..], k)
  }

  lemma EntryKeysCons(e: Entry, es: seq<Entry>)
    ensures EntryKeys([e] + es) == {e.Key()} + EntryKeys(es)
  {
    var s := [e] + es;
    forall k | k in EntryKeys(s) ensures k in {e.Key()} + EntryKeys(es) {
      var i :| 0 <= i < |s| && s[i].Key() == k;
      if i > 0 { assert s[i] == es[i - 1]; }
    }
    forall k | k in EntryKeys(es) ensures k in EntryKeys(s) {
      var i :| 0 <= i < |es| && es[i].Key() == k;
      assert s[i + 1] == es[i];
    }
    assert s[0] == e;
  }

  lemma LineKeysSnoc(lines: seq<Line>, l: Line)
    ensures LineKeys(lines + [l]) == LineKeys(lines) + {l.Key()}
  {
    var s := lines + [l];
    forall k | k in LineKeys(s) ensures k in LineKeys(lines) + {l.Key()} {
      var i :| 0 <= i < |s| && s[i].Key() == k;
      if i < |lines| { assert s[i] == lines[i]; }
    }
    forall k | k in LineKeys(lines) ensures k in LineKeys(s) {
      var i :| 0 <= i < |lines| && lines[i].Key() == k;
      assert s[i] == lines[i];
    }
    assert s[|lines|] == l;
  }

  /** Folds one joined row into the groups: its amount is added to the group
      with the same key, or a new group is opened at the end. */
  function AddLine(es: seq<Entry>, l: Line): (r: seq<Entry>)
    ensures EntryKeys(r) == EntryKeys(es) + {l.Key()}
    ensures KeysDistinct(es) ==> KeysDistinct(r)
    ensures forall k :: TotalFor(r, k) == TotalFor(es, k) + (if k == l.Key() then l.amount else 0)
  {
    if |es| == 0 then
      var r := [Entry(l.name, l.unit, l.amount)];
      assert r[1..] == [];
      assert EntryKeys(r) == {l.Key()} by { EntryKeysCons(r[0], []); assert [r[0]] + [] == r; }
      r
    else if es[0].Key() == l.Key() then
      var r := [es[0].(total := es[0].total + l.amount)] + es[1..];
      assert r[1..] == es[1..];
      EntryKeysCons(r[0], es[1..]);
      EntryKeysCons(es[0], es[1..]);
      assert [es[0]] + es[1..] == es;
      assert KeysDistinct(es) ==> KeysDistinct(r) by {
        if KeysDistinct(es) {
          forall i, j | 0 <= i < j < |r| ensures r[i].Key() != r[j].Key() {
            assert r[j] == es[j];
            if i > 0 { assert r[i] == es[i]; }
          }
        }
      }
      r
    else
      var rest := AddLine(es[1..], l);
      var r := [es[0]] + rest;
      assert r[1..] == rest;
      EntryKeysCons(es[0], rest);
      EntryKeysCons(es[0], es[1..]);
      assert [es[0]] + es[1..] == es;
      assert KeysDistinct(es) ==> KeysDistinct(r) by {
        if KeysDistinct(es) {
          assert KeysDistinct(es[1..]) by {
            forall i, j | 0 <= i < j < |es[1..]| ensures es[1..][i].Key() != es[1..][j].Key() {
              assert es[1..][i] == es[i + 1] && es[1..][j] == es[j + 1];
            }
          }
          assert es[0].Key() !in EntryKeys(es[1..]) by {
            forall i | 0 <= i < |es[1..]| ensures es[1..][i].Key() != es[0].Key() {
              assert es[1..][i] == es[i + 1];
            }
          }
          forall i, j | 0 <= i < j < |r| ensures r[i].Key() != r[j].Key() {
            assert r[j] == rest[j - 1];
            if i == 0 {
              assert rest[j - 1].Key() in EntryKeys(rest);
            } else {
              assert r[i] == rest[i - 1];
            }
          }
        }
      }
      r
  }

  /** The grouped, summed shopping list of some joined rows: exactly one entry
      per distinct (name, unit) among the rows, whose total is the sum of the
      amounts of all rows with that key. */
  function Group(lines: seq<Line>): (r: seq<Entry>)
    ensures KeysDistinct(r)
    ensures EntryKeys(r) == LineKeys(lines)
    ensures forall k :: TotalFor(r, k) == SumFor(lines, k)
  {
    if |lines| == 0 then
      assert EntryKeys([]) == {};
      []
    else
      var init := lines[..|lines| - 1];
      var last := lines[|lines| - 1];
      LineKeysSnoc(init, last);
      assert init + [last] == lines;
      AddLine(Group(init), last)
  }

  /** With distinct keys, the total of key `k` is the total of the one entry
      holding it. */
  lemma {:induction false} TotalOfDistinct(es: seq<Entry>, i: nat)
    requires KeysDistinct(es) && i < |es|
    ensures TotalFor(es, es[i].Key()) == es[i].total
  {
    var k := es[i].Key();
    if i == 0 {
      TotalAbsent(es[1..], k);
    } else {
      assert es[0].Key() != k;
      assert KeysDistinct(es[1..]) by {
        forall a, b | 0 <= a < b < |es[1..]| ensures es[1..][a].Key() != es[1..][b].Key() {
          assert es[1..][a] == es[a + 1] && es[1..][b] == es[b + 1];
        }
      }
      assert es[1..][i - 1] == es[i];
      TotalOfDistinct(es[1..], i - 1);
    }
  }

  lemma {:induction false} TotalAbsent(es: seq<Entry>, k: Key)
    requires forall j :: 0 <= j < |es| ==> es[j].Key() != k
    ensures TotalFor(es, k) == 0
  {
    if |es| > 0 {
      TotalAbsent(es[1..], k);
    }
  }

  /** Distinct keys: the number of entries is the number of keys. */
  lemma {:induction false} DistinctKeysCount(es: seq<Entry>)
    requires KeysDistinct(es)
    ensures |EntryKeys(es)| == |es|
  {
    if |es| > 0 {
      var rest := es[1..];
      assert KeysDistinct(rest) by {
        forall a, b | 0 <= a < b < |rest| ensures rest[a].Key() != rest[b].Key() {
          assert rest[a] == es[a + 1] && rest[b] == es[b + 1];
        }
      }
      DistinctKeysCount(rest);
      EntryKeysCons(es[0], rest);
      assert [es[0]] + rest == es;
      assert es[0].Key() !in EntryKeys(rest) by {
        forall j | 0 <= j < |rest| ensures rest[j].Key() != es[0].Key() {
          assert rest[j] == es[j + 1];
        }
      }
    }
  }

  /** The grouped shopping list of `user`. */
  function Aggregate(carts: seq<Membership>, recipes: map<RecipeId, Recipe>,
                     ingredients: map<IngredientId, Ingredient>, user: UserId): seq<Entry>
    requires CartResolves(carts, recipes) && ItemsResolve(recipes, ingredients)
  {
    Group(CartLines(carts, recipes, ingredients, user))
  }

  /** What the aggregation promises: one entry per distinct (name, unit) among
      the line items of the recipes in the user's cart (so as many entries as
      there are such keys), and each entry's total is the sum of all the
      amounts contributing to it. */
  lemma AggregateSpec(carts: seq<Membership>, recipes: map<RecipeId, Recipe>,
                      ingredients: map<IngredientId, Ingredient>, user: UserId)
    requires CartResolves(carts, recipes) && ItemsResolve(recipes, ingredients)
    ensures var lines := CartLines(carts, recipes, ingredients, user);
            var es := Aggregate(carts, recipes, ingredients, user);
            && KeysDistinct(es)
            && EntryKeys(es) == LineKeys(lines)
            && |es| == |LineKeys(lines)|
            && forall i :: 0 <= i < |es| ==> es[i].total == SumFor(lines, es[i].Key())
  {
    var lines := CartLines(carts, recipes, ingredients, user);
    var es := Group(lines);
    DistinctKeysCount(es);
    forall i | 0 <= i < |es| ensures es[i].total == SumFor(lines, es[i].Key()) {
      TotalOfDistinct(es, i);
    }
  }

  /** Only the user's own cart rows matter: two stores whose carts agree on the
      user's rows give the user the same shopping list. */
  lemma OtherUsersIgnored(c1: seq<Membership>, c2: seq<Membership>, recipes: map<RecipeId, Recipe>,
                          ingredients: map<IngredientId, Ingredient>, user: UserId)
    requires CartResolves(c1, recipes) && CartResolves(c2, recipes) && ItemsResolve(recipes, ingredients)
    requires OwnRows(c1, user) == OwnRows(c2, user)
    ensures Aggregate(c1, recipes, ingredients, user) == Aggregate(c2, recipes, ingredients, user)
  {
    CartLinesOwnRows(c1, recipes, ingredients, user);
    CartLinesOwnRows(c2, recipes, ingredients, user);
  }

  /** A user with no cart rows gets an empty list. */
  lemma {:induction false} EmptyCartNoEntries(carts: seq<Membership>, recipes: map<RecipeId, Recipe>,
                                              ingredients: map<IngredientId, Ingredient>, user: UserId)
    requires CartResolves(carts, recipes) && ItemsResolve(recipes, ingredients)
    ensures (forall i :: 0 <= i < |carts| ==> carts[i].user != user) ==>
              CartLines(carts, recipes, ingredients, user) == [] && Aggregate(carts, recipes, ingredients, user) == []
  {
    if |carts| > 0 {
      EmptyCartNoEntries(carts[1..], recipes, ingredients, user);
    }
  }

  // ----- rendering -----

  /** One line of the downloaded file: `"{name} - {sum} ({unit})"`. */
  function FormatEntry(e: Entry): string
  {
    e.name + " - " + Text.NatToString(e.total) + " (" + e.unit + ")"
  }

  function FormatAll(es: seq<Entry>): (r: seq<string>)
    ensures |r| == |es| && forall i :: 0 <= i < |es| ==> r[i] == FormatEntry(es[i])
  {
    if |es| == 0 then [] else [FormatEntry(es[0])] + FormatAll(es[1..])
  }

  /** The downloaded text: the formatted entries joined by newlines. */
  function Render(es: seq<Entry>): string
  {
    Text.Join(FormatAll(es), '\n')
  }

  /** The full download of `user`'s shopping list. */
  function Download(carts: seq<Membership>, recipes: map<RecipeId, Recipe>,
                    ingredients: map<IngredientId, Ingredient>, user: UserId): string
    requires CartResolves(carts, recipes) && ItemsResolve(recipes, ingredients)
  {
    Render(Aggregate(carts, recipes, ingredients, user))
  }

  predicate NewlineFree(es: seq<Entry>)
  {
    forall i :: 0 <= i < |es| ==> '\n' !in es[i].name && '\n' !in es[i].unit
  }

  lemma FormatEntryNewlineFree(e: Entry)
    requires '\n' !in e.name && '\n' !in e.unit
    ensures '\n' !in FormatEntry(e)
  {
  }

  /** The rendered text has one line per entry, each exactly the entry's
      formatted line; an empty list renders as the empty text. */
  lemma RenderLines(es: seq<Entry>)
    requires NewlineFree(es)
    ensures es == [] ==> Render(es) == ""
    ensures es != [] ==> Text.Split(Render(es), '\n') == FormatAll(es)
  {
    if es != [] {
      var parts := FormatAll(es);
      forall i | 0 <= i < |parts| ensures '\n' !in parts[i] {
        FormatEntryNewlineFree(es[i]);
      }
      Text.SplitJoin(parts, '\n');
    }
  }

  /** Join puts separators only between parts: a non-empty last part ends the
      text. */
  lemma {:induction false} JoinEndsWithLastPart(parts: seq<string>, sep: char)
    requires |parts| >= 1 && |parts[|parts| - 1]| >= 1
    ensures var s := Text.Join(parts, sep);
            |s| >= 1 && s[|s| - 1] == parts[|parts| - 1][|parts[|parts| - 1]| - 1]
  {
    if |parts| > 1 {
      JoinEndsWithLastPart(parts[1..], sep);
    }
  }

  /** No trailing newline: a non-empty list's text ends with the closing
      parenthesis of its last line. */
  lemma RenderNoTrailingNewline(es: seq<Entry>)
    ensures es == [] <==> Render(es) == ""
    ensures var s := Render(es); s != "" ==> s[|s| - 1] == ')'
  {
    if es != [] {
      JoinEndsWithLastPart(FormatAll(es), '\n');
    }
  }

  /** A user with an empty cart downloads an empty text. */
  lemma EmptyCartEmptyText(carts: seq<Membership>, recipes: map<RecipeId, Recipe>,
                           ingredients: map<IngredientId, Ingredient>, user: UserId)
    requires CartResolves(carts, recipes) && ItemsResolve(recipes, ingredients)
    ensures (forall i :: 0 <= i < |carts| ==> carts[i].user != user) ==> Download(carts, recipes, ingredients, user) == ""
  {
    EmptyCartNoEntries(carts, recipes, ingredients, user);
  }

  /** Two recipes in one cart that both need salt, 5 g and 3 g, give the single
      line "salt - 8 (g)"; another user's cart row for the same recipe adds
      nothing. */
  lemma SaltExample()
    ensures var recipes := map[10 := Recipe("Soup", 2, "s1", [LineItem(7, 5)]),
                               20 := Recipe("Stew", 2, "s2", [LineItem(7, 3)])];
            var ingredients := map[7 := Ingredient("salt", "g")];
            var carts := [Membership(1, 10), Membership(3, 10), Membership(1, 20)];
            && CartResolves(carts, recipes) && ItemsResolve(recipes, ingredients)
            && Download(carts, recipes, ingredients, 1) == "salt - 8 (g)"
  {
    var recipes := map[10 := Recipe("Soup", 2, "s1", [LineItem(7, 5)]),
                       20 := Recipe("Stew", 2, "s2", [LineItem(7, 3)])];
    var ingredients := map[7 := Ingredient("salt", "g")];
    var carts := [Membership(1, 10), Membership(3, 10), Membership(1, 20)];
    SaltJoin(carts, recipes, ingredients);
    SaltGroup();
    assert FormatEntry(Entry("salt", "g", 8)) == "salt - 8 (g)";
  }

  lemma SaltJoin(carts: seq<Membership>, recipes: map<RecipeId, Recipe>, ingredients: map<IngredientId, Ingredient>)
    requires recipes == map[10 := Recipe("Soup", 2, "s1", [LineItem(7, 5)]),
                            20 := Recipe("Stew", 2, "s2", [LineItem(7, 3)])]
    requires ingredients == map[7 := Ingredient("salt", "g")]
    requires carts == [Membership(1, 10), Membership(3, 10), Membership(1, 20)]
    ensures CartResolves(carts, recipes) && ItemsResolve(recipes, ingredients)
    ensures CartLines(carts, recipes, ingredients, 1) == [Line("salt", "g", 5), Line("salt", "g", 3)]
  {
    assert RecipeLines(recipes[10].items, ingredients) == [Line("salt", "g", 5)];
    assert RecipeLines(recipes[20].items, ingredients) == [Line("salt", "g", 3)];
    assert CartLines(carts[3..], recipes, ingredients, 1) == [];
    assert CartLines(carts[2..], recipes, ingredients, 1) == [Line("salt", "g", 3)];
    assert CartLines(carts[1..], recipes, ingredients, 1) == [Line("salt", "g", 3)];
  }

  lemma SaltGroup()
    ensures Group([Line("salt", "g", 5), Line("salt", "g", 3)]) == [Entry("salt", "g", 8)]
  {
  }
}
