/**
 * The menu collection handler: GET lists every menu in (sort key, name)
 * order with its recipe id, and POST validates and normalises a JSON body
 * into a new menu. Every failure is answered with a fixed message; the
 * failure's own detail is only logged.
 *
 * The store's own failures (unreachable database, rejected value) are a
 * parameter `fault`: `Some(detail)` when the store call throws. The id a
 * created menu receives is chosen by the store and is a parameter too.
 */
module MenusRoute {
  import opened Base
  import opened JsString
  import opened Json
  import opened MenuStore
  import opened MenuOrder

  const ListFailed := "메뉴 목록을 불러오지 못했습니다."
  const NameRequired := "메뉴명(name)이 필요합니다."
  const CreateFailed := "메뉴를 등록하지 못했습니다."

  /** A listed menu: the menu and, of its recipe, only the id. */
  datatype ListedMenu = ListedMenu(menu: Menu, recipe: Option<string>)

  datatype Body =
    | MenuBody(menu: Menu)
    | ListBody(items: seq<ListedMenu>)
    | ErrorBody(error: string)

  datatype Response = Response(status: nat, body: Body)

  /** A handler's answer and the store after it. */
  datatype Handled = Handled(response: Response, store: Store)

  // ---------------------------------------------------------------------------
  // GET
  // ---------------------------------------------------------------------------

  function ListedMenus(items: seq<ListedMenu>): (r: seq<Menu>)
    ensures |r| == |items| && forall i :: 0 <= i < |items| ==> r[i] == items[i].menu
  {
    seq(|items|, i requires 0 <= i < |items| => items[i].menu)
  }

  /** Attaches to each menu the id of its recipe, if it has one. */
  function Annotate(menus: seq<Menu>, recipes: seq<RecipeLink>): (r: seq<ListedMenu>)
    ensures ListedMenus(r) == menus
    ensures forall i :: 0 <= i < |r| ==> r[i].recipe == RecipeOf(recipes, r[i].menu.id)
  {
    var r := seq(|menus|, i requires 0 <= i < |menus| => ListedMenu(menus[i], RecipeOf(recipes, menus[i].id)));
    assert ListedMenus(r) == menus;
    r
  }

  /**
   * GET /api/menus. Without a store failure: status 200 and every stored
   * menu exactly once, in (sort key, name) order, each with its recipe id or
   * `None`. With one: status 500 and the fixed message.
   */
  function Get(st: Store, fault: Option<string>): (r: Response)
    ensures r.status == 200 || r.status == 500
    ensures r.status == 500 <==> fault.Some?
    ensures r.status == 500 ==> r.body == ErrorBody(ListFailed)
    ensures r.status == 200 ==>
              r.body.ListBody?
              && Sorted(ListedMenus(r.body.items))
              && multiset(ListedMenus(r.body.items)) == multiset(st.menus)
              && forall i :: 0 <= i < |r.body.items| ==>
                   r.body.items[i].recipe == RecipeOf(st.recipes, r.body.items[i].menu.id)
  {
    if fault.Some? then Response(500, ErrorBody(ListFailed))
    else Response(200, ListBody(Annotate(SortMenus(st.menus), st.recipes)))
  }

  /**
   * The list GET returns agrees, position by position, on sort key and name
   * with any ordered rearrangement of the stored menus. So the order of the
   * stored menus affects only how menus that share both are ordered.
   */
  lemma GetOrderIsDetermined(st: Store, s: seq<Menu>)
    requires Sorted(s) && multiset(s) == multiset(st.menus)
    ensures Keys(ListedMenus(Get(st, None).body.items)) == Keys(s)
  {
    SortedRearrangementsAgree(ListedMenus(Get(st, None).body.items), s);
  }

  /**
   * Menus stored with sort keys 2, 0 and 1 are listed with sort keys 0, 1
   * and 2: the sort key decides, and the name only breaks ties.
   */
  lemma GetOrdersBySortKey()
    ensures var st := Store([Menu("b", "B", None, None, 2), Menu("a", "A", None, None, 0), Menu("c", "C", None, None, 1)], []);
            var items := Get(st, None).body.items;
            |items| == 3
            && items[0].menu.sortOrder == 0 && items[1].menu.sortOrder == 1 && items[2].menu.sortOrder == 2
  {
  }

  // ---------------------------------------------------------------------------
  // POST
  // ---------------------------------------------------------------------------

  /** Why a body was refused: a missing name (400), or a thrown error (500). */
  datatype Refusal = MissingName | Thrown

  /** The fields of a menu to create, as the handler hands them to the store. */
  datatype Draft = Draft(name: string, nameKo: Option<string>, category: Option<string>, sortOrder: int)

  /** `name` passes the check `!name || typeof name !== "string"` only as a non-empty string. */
  predicate IsNonEmptyText(p: Prop)
  {
    p.Defined? && p.value.JStr? && p.value.s != ""
  }

  /**
   * `v?.trim() ?? null` for an optional text field: `undefined` and `null`
   * give `None`, a string gives its trimmed form (even when that is empty),
   * and any other value has no `trim` method, so the call throws.
   */
  function OptionalText(p: Prop): (r: Result<Option<string>, Refusal>)
    ensures r.Err? <==> p.Defined? && !p.value.JNull? && !p.value.JStr?
    ensures r.Err? ==> r.error == Thrown
    ensures r == Ok(None) <==> p == Undefined || p == Defined(JNull)
    ensures r.Ok? && r.value.Some? ==> r.value.value == Trim(p.value.s) && Trimmed(r.value.value)
  {
    match p
    case Undefined => Ok(None)
    case Defined(JNull) => Ok(None)
    case Defined(JStr(s)) => Ok(Some(Trim(s)))
    case Defined(_) => Err(Thrown)
  }

  /** `typeof sortOrder === "number" ? sortOrder : 0`. */
  function SortKey(p: Prop): int
  {
    if p.Defined? && p.value.JNum? then p.value.n else 0
  }

  /**
   * Validation and normalisation of the request body, in the handler's
   * order: an unparsable body or `null` throws (destructuring `null` fails);
   * then the name is checked; then the optional text fields are trimmed,
   * `nameKo` before `category`.
   */
  function Normalise(body: Option<Json>): (r: Result<Draft, Refusal>)
    ensures body.None? || body == Some(JNull) ==> r == Err(Thrown)
    ensures r.Ok? <==>
              body.Some? && body.value != JNull
              && IsNonEmptyText(Property(body.value, "name"))
              && OptionalText(Property(body.value, "nameKo")).Ok?
              && OptionalText(Property(body.value, "category")).Ok?
    ensures r == Err(MissingName) <==>
              body.Some? && body.value != JNull && !IsNonEmptyText(Property(body.value, "name"))
    ensures r.Ok? ==>
              var j := body.value;
              j != JNull
              && IsNonEmptyText(Property(j, "name"))
              && r.value.name == Trim(Property(j, "name").value.s)
              && OptionalText(Property(j, "nameKo")) == Ok(r.value.nameKo)
              && OptionalText(Property(j, "category")) == Ok(r.value.category)
              && r.value.sortOrder == SortKey(Property(j, "sortOrder"))
  {
    match body
    case None => Err(Thrown)
    case Some(j) =>
      if j == JNull then Err(Thrown)
      else
        var name := Property(j, "name");
        if !IsNonEmptyText(name) then Err(MissingName)
        else
          match OptionalText(Property(j, "nameKo"))
          case Err(e) => Err(e)
          case Ok(nameKo) =>
            match OptionalText(Property(j, "category"))
            case Err(e) => Err(e)
            case Ok(category) =>
              Ok(Draft(Trim(name.value.s), nameKo, category, SortKey(Property(j, "sortOrder"))))
  }

  /**
   * POST /api/menus. `body` is `None` when the request body is not JSON.
   * A refused body gets 400 with the name message or 500 with the fixed
   * message; a store failure, or an id the store already holds, gets 500;
   * otherwise the store gains exactly the new menu, which is returned.
   */
  function Post(st: Store, body: Option<Json>, newId: string, fault: Option<string>): (r: Handled)
    ensures r.response.status in {200, 400, 500}
    ensures r.response.status == 400 <==> Normalise(body) == Err(MissingName)
    ensures r.response.status == 400 ==> r.response.body == ErrorBody(NameRequired)
    ensures r.response.status == 500 ==> r.response.body == ErrorBody(CreateFailed)
    ensures r.response.status != 200 ==> r.store == st
    ensures r.response.status == 200 <==>
              Normalise(body).Ok? && fault.None? && !HasMenu(st.menus, newId)
    ensures r.response.status == 200 ==>
              var d := Normalise(body).value;
              r.response.body == MenuBody(Menu(newId, d.name, d.nameKo, d.category, d.sortOrder))
              && r.store == st.(menus := st.menus + [r.response.body.menu])
  {
    match Normalise(body)
    case Err(MissingName) => Handled(Response(400, ErrorBody(NameRequired)), st)
    case Err(Thrown) => Handled(Response(500, ErrorBody(CreateFailed)), st)
    case Ok(d) =>
      if fault.Some? || HasMenu(st.menus, newId) then
        Handled(Response(500, ErrorBody(CreateFailed)), st)
      else
        var m := Menu(newId, d.name, d.nameKo, d.category, d.sortOrder);
        Handled(Response(200, MenuBody(m)), st.(menus := st.menus + [m]))
  }

  // ---------------------------------------------------------------------------
  // Properties of POST
  // ---------------------------------------------------------------------------

  /**
   * A body without a usable name gets 400 and leaves the store as it was:
   * the name is absent, `null`, the empty string or not a string at all, or
   * the body is not an object (no property of a number, string, boolean or
   * array is named `name`).
   */
  lemma MissingNameIsRefused(st: Store, j: Json, newId: string, fault: Option<string>)
    requires j != JNull
    requires !j.JObj? || "name" !in j.fields || j.fields["name"] == JStr("") || !j.fields["name"].JStr?
    ensures Post(st, Some(j), newId, fault) == Handled(Response(400, ErrorBody(NameRequired)), st)
  {
  }

  /** An unparsable body, a `null` body, or a non-text `nameKo` or `category` makes the handler throw: 500. */
  lemma ThrowingBodiesFail(st: Store, body: Option<Json>, newId: string, fault: Option<string>)
    requires body.None? || body == Some(JNull)
             || (body.value.JObj? && IsNonEmptyText(Property(body.value, "name"))
                 && (OptionalText(Property(body.value, "nameKo")).Err?
                     || OptionalText(Property(body.value, "category")).Err?))
    ensures Post(st, body, newId, fault) == Handled(Response(500, ErrorBody(CreateFailed)), st)
  {
  }

  /** A name is checked before it is trimmed: a name of white space only is accepted and stored as "". */
  lemma BlankNameIsStoredEmpty(st: Store, fields: map<string, Json>, s: string, newId: string)
    requires "name" in fields && fields["name"] == JStr(s) && s != [] && AllTrimSpace(s)
    requires "nameKo" !in fields && "category" !in fields
    requires !HasMenu(st.menus, newId)
    ensures var r := Post(st, Some(JObj(fields)), newId, None);
            r.response.status == 200 && r.response.body.menu.name == ""
  {
    TrimAllSpace(s);
  }

  /** A blank `nameKo` is stored as the empty string, not as `null`. */
  lemma BlankNameKoIsKept(st: Store, fields: map<string, Json>, s: string, newId: string)
    requires IsNonEmptyText(Property(JObj(fields), "name"))
    requires "nameKo" in fields && fields["nameKo"] == JStr(s) && AllTrimSpace(s)
    requires "category" !in fields
    requires !HasMenu(st.menus, newId)
    ensures var r := Post(st, Some(JObj(fields)), newId, None);
            r.response.status == 200 && r.response.body.menu.nameKo == Some("")
  {
    TrimAllSpace(s);
  }

  /** Only a JSON number sets the sort key; anything else, a numeric string included, gives 0. */
  lemma SortKeyDefaultsToZero(st: Store, fields: map<string, Json>, newId: string)
    requires IsNonEmptyText(Property(JObj(fields), "name"))
    requires "nameKo" !in fields && "category" !in fields
    requires "sortOrder" in fields ==> !fields["sortOrder"].JNum?
    requires !HasMenu(st.menus, newId)
    ensures var r := Post(st, Some(JObj(fields)), newId, None);
            r.response.status == 200 && r.response.body.menu.sortOrder == 0
  {
  }

  /** A JSON number given as `sortOrder` is stored as it is, negative numbers included. */
  lemma NumericSortKeyIsKept(st: Store, fields: map<string, Json>, n: int, newId: string)
    requires IsNonEmptyText(Property(JObj(fields), "name"))
    requires "nameKo" !in fields && "category" !in fields
    requires "sortOrder" in fields && fields["sortOrder"] == JNum(n)
    requires !HasMenu(st.menus, newId)
    ensures var r := Post(st, Some(JObj(fields)), newId, None);
            r.response.status == 200 && r.response.body.menu.sortOrder == n
  {
  }

  /** Every text field a created menu holds is trimmed. */
  lemma CreatedMenuIsTrimmed(st: Store, body: Option<Json>, newId: string, fault: Option<string>)
    ensures var r := Post(st, body, newId, fault);
            r.response.status == 200 ==>
              var m := r.response.body.menu;
              Trimmed(m.name)
              && (m.nameKo.Some? ==> Trimmed(m.nameKo.value))
              && (m.category.Some? ==> Trimmed(m.category.value))
  {
  }

  /** The fields of a menu as a JSON object, as the handler returns a created menu. */
  function MenuFields(m: Menu): (r: Json)
    ensures r.JObj? && "name" in r.fields && r.fields["name"] == JStr(m.name)
  {
    JObj(map[
      "id" := JStr(m.id),
      "name" := JStr(m.name),
      "nameKo" := OptionalJson(m.nameKo),
      "category" := OptionalJson(m.category),
      "sortOrder" := JNum(m.sortOrder)])
  }

  /**
   * Sending back the fields of a menu with trimmed text and a non-empty
   * name creates a menu with the same name, nameKo, category and sort key:
   * normalisation leaves already normal data alone.
   */
  lemma RepostKeepsFields(m: Menu)
    requires m.name != [] && Trimmed(m.name)
    requires m.nameKo.Some? ==> Trimmed(m.nameKo.value)
    requires m.category.Some? ==> Trimmed(m.category.value)
    ensures Normalise(Some(MenuFields(m))) == Ok(Draft(m.name, m.nameKo, m.category, m.sortOrder))
  {
    var j := MenuFields(m);
    assert Property(j, "name") == Defined(JStr(m.name));
    assert Property(j, "nameKo") == Defined(OptionalJson(m.nameKo));
    assert Property(j, "category") == Defined(OptionalJson(m.category));
    assert Property(j, "sortOrder") == Defined(JNum(m.sortOrder));
    TrimOfTrimmed(m.name);
    if m.nameKo.Some? {
      TrimmedTextReadsBack(m.nameKo.value);
    }
    if m.category.Some? {
      TrimmedTextReadsBack(m.category.value);
    }
  }

  /** An optional text field as JSON: its string, or `null`. */
  function OptionalJson(o: Option<string>): (r: Json)
    ensures r == JNull <==> o.None?
  {
    if o.Some? then JStr(o.value) else JNull
  }

  /** A text field that is already trimmed reads back as itself. */
  lemma TrimmedTextReadsBack(t: string)
    requires Trimmed(t)
    ensures OptionalText(Defined(OptionalJson(Some(t)))) == Ok(Some(t))
  {
    TrimOfTrimmed(t);
  }

  /**
   * A menu created from a non-blank name can be sent back unchanged: the
   * result of POST is a fixed point of normalisation.
   */
  lemma CreatedMenuReposts(st: Store, body: Option<Json>, newId: string, fault: Option<string>)
    requires Post(st, body, newId, fault).response.status == 200
    requires Post(st, body, newId, fault).response.body.menu.name != ""
    ensures var m := Post(st, body, newId, fault).response.body.menu;
            Normalise(Some(MenuFields(m))) == Ok(Draft(m.name, m.nameKo, m.category, m.sortOrder))
  {
    CreatedMenuIsTrimmed(st, body, newId, fault);
    RepostKeepsFields(Post(st, body, newId, fault).response.body.menu);
  }

  /** POST keeps the store valid: the new id is fresh and no recipe changes. */
  lemma PostPreservesValid(st: Store, body: Option<Json>, newId: string, fault: Option<string>)
    requires Valid(st)
    ensures Valid(Post(st, body, newId, fault).store)
  {
    var r := Post(st, body, newId, fault);
    if r.response.status == 200 {
      var menus := r.store.menus;
      assert menus == st.menus + [r.response.body.menu];
      forall k | 0 <= k < |st.recipes|
        ensures HasMenu(menus, st.recipes[k].menuId)
      {
        assert HasMenu(st.menus, st.recipes[k].menuId);
        var i :| 0 <= i < |st.menus| && st.menus[i].id == st.recipes[k].menuId;
        assert menus[i] == st.menus[i];
      }
    }
  }

  /**
   * After a successful POST the list holds one more menu, and the new menu
   * appears in it with no recipe.
   */
  lemma PostThenGetListsMenu(st: Store, body: Option<Json>, newId: string)
    requires Valid(st)
    requires Post(st, body, newId, None).response.status == 200
    ensures var r := Post(st, body, newId, None);
            var listed := Get(r.store, None).body.items;
            |listed| == |st.menus| + 1
            && exists i :: 0 <= i < |listed| && listed[i] == ListedMenu(r.response.body.menu, None)
  {
    var r := Post(st, body, newId, None);
    var m := r.response.body.menu;
    var listed := Get(r.store, None).body.items;
    NoRecipeForUnknownMenu(st, newId);
    assert multiset(ListedMenus(listed)) == multiset(st.menus + [m]);
    assert |ListedMenus(listed)| == |st.menus + [m]| by {
      assert |multiset(ListedMenus(listed))| == |multiset(st.menus + [m])|;
    }
    assert m in multiset(ListedMenus(listed));
    var i :| 0 <= i < |listed| && ListedMenus(listed)[i] == m;
    assert listed[i] == ListedMenu(m, None);
  }

  // ---------------------------------------------------------------------------
  // Failures
  // ---------------------------------------------------------------------------

  /**
   * The detail of a store failure never reaches the client: two failures
   * with different details give the same response, and a failing call
   * changes nothing.
   */
  lemma FailureDetailIsNotLeaked(st: Store, body: Option<Json>, newId: string, x: string, y: string)
    ensures Get(st, Some(x)) == Get(st, Some(y)) == Response(500, ErrorBody(ListFailed))
    ensures Post(st, body, newId, Some(x)) == Post(st, body, newId, Some(y))
    ensures Post(st, body, newId, Some(x)).store == st
    ensures Post(st, body, newId, Some(x)).response.body.ErrorBody?
  {
  }
}
