/**
 * The part of the database the menu collection handler reads and writes:
 * the menus, and for each recipe only its own id and the menu it belongs to.
 * Ids are opaque strings chosen by the store.
 */
module MenuStore {
  import opened Base

  datatype Menu = Menu(
    id: string,
    name: string,
    nameKo: Option<string>,
    category: Option<string>,
    sortOrder: int)

  /** What the collection handler sees of a recipe: its id and its owning menu. */
  datatype RecipeLink = RecipeLink(id: string, menuId: string)

  datatype Store = Store(menus: seq<Menu>, recipes: seq<RecipeLink>)

  predicate HasMenu(menus: seq<Menu>, id: string)
  {
    exists i :: 0 <= i < |menus| && menus[i].id == id
  }

  /**
   * The constraints the schema enforces: menu ids and recipe ids are unique,
   * every recipe belongs to a stored menu, and a menu has at most one recipe.
   */
  predicate Valid(st: Store)
  {
    (forall i, j :: 0 <= i < j < |st.menus| ==> st.menus[i].id != st.menus[j].id)
    && (forall i, j :: 0 <= i < j < |st.recipes| ==> st.recipes[i].id != st.recipes[j].id)
    && (forall i, j :: 0 <= i < j < |st.recipes| ==> st.recipes[i].menuId != st.recipes[j].menuId)
    && (forall k :: 0 <= k < |st.recipes| ==> HasMenu(st.menus, st.recipes[k].menuId))
  }

  /**
   * The id of the recipe that belongs to `menuId`, or `None` when it has
   * none. A found id comes from a recipe of that menu; `None` means no
   * recipe of that menu exists.
   */
  function RecipeOf(recipes: seq<RecipeLink>, menuId: string): (r: Option<string>)
    ensures r.Some? ==> exists k :: 0 <= k < |recipes| && recipes[k] == RecipeLink(r.value, menuId)
    ensures r.None? <==> forall k :: 0 <= k < |recipes| ==> recipes[k].menuId != menuId
  {
    if recipes == [] then None
    else if recipes[0].menuId == menuId then Some(recipes[0].id)
    else
      var r := RecipeOf(recipes[1..], menuId);
      assert forall k :: 1 <= k < |recipes| ==> recipes[k] == recipes[1..][k - 1];
      r
  }

  /**
   * In a valid store the annotation is exact: a menu's recipe id is `rid`
   * exactly when the store holds the recipe `rid` of that menu.
   */
  lemma RecipeOfExact(st: Store, menuId: string, rid: string)
    requires Valid(st)
    ensures RecipeOf(st.recipes, menuId) == Some(rid)
            <==> exists k :: 0 <= k < |st.recipes| && st.recipes[k] == RecipeLink(rid, menuId)
  {
    var r := RecipeOf(st.recipes, menuId);
    if k :| 0 <= k < |st.recipes| && st.recipes[k] == RecipeLink(rid, menuId) {
      assert r.Some?;
      var k' :| 0 <= k' < |st.recipes| && st.recipes[k'] == RecipeLink(r.value, menuId);
      assert k' == k;
    }
  }

  /** A menu id the store does not hold has no recipe, since every recipe belongs to a stored menu. */
  lemma NoRecipeForUnknownMenu(st: Store, menuId: string)
    requires Valid(st) && !HasMenu(st.menus, menuId)
    ensures RecipeOf(st.recipes, menuId) == None
  {
    forall k | 0 <= k < |st.recipes|
      ensures st.recipes[k].menuId != menuId
    {
      assert HasMenu(st.menus, st.recipes[k].menuId);
    }
  }
}
