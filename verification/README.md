# Menu-to-recipe: request filter and menu collection handler

A Dafny model of two small pieces of the menu-to-recipe web application. Both
are stateless or work on an explicit store value.

- **The request filter** (`src/middleware.ts`) runs in front of every route.
  It refuses with 403 any path that one of thirty scanner and credential-probe
  regular expressions matches. It refuses with 400 a POST to exactly `/`. It
  passes every other request on. Each regular expression is written in a small
  finite pattern language (module `ScannerPatterns`). A pattern has an anchor,
  a sequence of pieces of literal alternatives, and a tail condition. Case is
  ignored the way the `i` flag ignores it for ASCII pattern text.
- **The menu collection handler** (`src/app/api/menus/route.ts`).
  - `GET` lists every menu ordered by sort key, then by name, each with the id
    of its recipe or `null`.
  - `POST` validates and normalises a JSON body into a new menu. The name must
    be a non-empty string. Text fields are trimmed with JavaScript `trim`.
    Absent optional fields become `null`. The sort key defaults to 0.
  - Any failure in either handler is answered with a fixed message.

Files:

| file | module | contents |
|---|---|---|
| `base.dfy` | `Base` | `Option`, `Result` |
| `js_string.dfy` | `JsString` | ASCII case folding, `String.prototype.trim` |
| `scanner_patterns.dfy` | `ScannerPatterns` | the pattern language, the thirty patterns, `IsScannerPath` |
| `middleware.dfy` | `Middleware` | the filter decision |
| `json.dfy` | `Json` | JSON values and property reads |
| `menu_store.dfy` | `MenuStore` | menus, recipe links, schema invariants |
| `menu_order.dfy` | `MenuOrder` | the (sort key, name) order and a sort |
| `menus_route.dfy` | `MenusRoute` | `Get`, `Post` and their properties |

Notes on how the model reads the code:

- **Store failures and new ids are parameters.** A store failure is
  `fault: Option<string>`, where `Some(detail)` means the store call threw.
  The id the store gives a new menu is `newId`. If that id is already taken,
  the store's unique constraint fails, which is also a 500.
- **Where a JavaScript operation throws, the model returns 500.** Such a throw
  lands in the handler's `catch`. There are three cases:
  - a body that is not JSON (`request.json()` rejects);
  - a body that is JSON `null` (destructuring `null` throws);
  - a `nameKo` or `category` that is neither a string nor `null`/absent
    (`v?.trim()` calls a missing method).
- **Some bodies get 500 where one might expect 400.** This follows the code:
  a malformed body is treated as a thrown error, not as a validation error.
- **A name is validated before it is trimmed.** A name of white space only is
  accepted and stored as `""` (`BlankNameIsStoredEmpty`). An empty or blank
  `nameKo` is stored as `""`, not `null` (`BlankNameKoIsKept`).
- **Names compare code point by code point** (`MenuOrder.NameLe`). This is the
  order the store's default binary collation gives UTF-8 text.

## Model

| member | source | states |
|---|---|---|
| JsString.LowerIdempotent | src/middleware.ts:5-35 | ASCII case folding keeps the length and folding twice changes nothing |
| JsString.Trim | src/app/api/menus/route.ts:36-38 | `trim` removes only white space, the removed prefix and suffix are all white space, and the result has no white space at either end |
| JsString.TrimUnique | src/app/api/menus/route.ts:36-38 | the trimmed text is the only infix with nothing but white space around it and none at its ends |
| JsString.TrimAllSpace | src/app/api/menus/route.ts:36 | a string of white space only trims to `""` |
| JsString.TrimOfTrimmed | src/app/api/menus/route.ts:36-38 | a string without white space at its ends is left unchanged by `trim` |
| JsString.TrimIdempotent | src/app/api/menus/route.ts:36-38 | trimming twice is trimming once |
| ScannerPatterns.StartsWithLitIff | src/middleware.ts:5-35 | a literal piece matches exactly when the path's prefix of that length equals it after ASCII lower-casing |
| ScannerPatterns.MatchAlternativesIff | src/middleware.ts:10-35 | a group of alternatives matches exactly when one alternative matches and the rest of the pattern matches after it |
| ScannerPatterns.MatchSomewhereIff | src/middleware.ts:7-35 | an unanchored pattern matches exactly when it matches at the start of some suffix of the path |
| ScannerPatterns.AnyPatternMatchesIff | src/middleware.ts:38-40 | `some` over a pattern list holds exactly when some listed pattern matches |
| ScannerPatterns.IsScannerPathIffSomePattern | src/middleware.ts:38-40 | a path is a scanner path exactly when at least one of the thirty patterns matches it |
| ScannerPatterns.IsScannerPathIgnoresCase | src/middleware.ts:5-35 | paths equal after ASCII lower-casing are blocked alike, and a path is blocked exactly when its lower-cased form is |
| ScannerPatterns.ScannerPatternsSigned | src/middleware.ts:5-35 | every listed pattern has a piece all of whose alternatives contain one of `. b c d f k r t v` |
| ScannerPatterns.UnsignedPathIsNotScannerPath | src/middleware.ts:5-40 | a path containing none of `. b c d f k r t v`, in either case, is not a scanner path |
| ScannerPatterns.AppPathsAreNotScannerPaths | src/middleware.ts:5-40 | `/`, `/api/menus` and `/menu/new` are not scanner paths |
| ScannerPatterns.MatchingPatternMakesScannerPath | src/middleware.ts:38-40 | a path that a listed pattern matches is a scanner path |
| ScannerPatterns.EnvAtRootMatches | src/middleware.ts:6 | a path starting with `/.env`, in any case, matches the first pattern |
| ScannerPatterns.EnvSuffixMatches | src/middleware.ts:9 | a path ending with `.env`, in any case, matches the fourth pattern |
| ScannerPatterns.EnvPathIsScannerPath | src/middleware.ts:6-9 | a path starting with `/.env` or ending with `.env`, in any case, is a scanner path |
| ScannerPatterns.DirectoryRuleIff | src/middleware.ts:15 | the directory rule matches exactly the paths that start with one of the six directory names, in any case, followed by `/` or by nothing |
| ScannerPatterns.DirectoryRuleMatchesBareDirectory | src/middleware.ts:15 | `/tmp` matches the directory rule |
| ScannerPatterns.DirectoryRuleMatchesPathBelowDirectory | src/middleware.ts:15 | `/backup/x` matches the directory rule |
| ScannerPatterns.DirectoryRuleNeedsBoundary | src/middleware.ts:15 | `/backups` does not match the directory rule |
| Middleware.Filter | src/middleware.ts:42-55 | the outcome is exactly one of 403 with no body, 400 with no body, or pass-through; 403 exactly for scanner paths; 400 exactly for a POST to `/` that is not a scanner path |
| Middleware.EnvPathsForbidden | src/middleware.ts:46-48 | a path starting with `/.env` or ending with `.env`, in any case, gets 403 for every method |
| Middleware.PostToEnvIsForbidden | src/middleware.ts:46-53 | a POST to `/.env` gets 403, not 400, because the scanner check comes first |
| Middleware.RootPostIsBadRequest | src/middleware.ts:51-53 | a POST to `/` gets 400 |
| Middleware.OrdinaryRequestsPass | src/middleware.ts:51-55 | a non-POST to `/`, and any request to `/api/menus` or `/menu/new`, passes through |
| Middleware.FilterIgnoresPathCase | src/middleware.ts:42-55 | paths equal after ASCII lower-casing get the same outcome |
| Middleware.FilterSeesLowerCasedPath | src/middleware.ts:42-55 | filtering the lower-cased path gives the same outcome as filtering the path |
| MenuStore.RecipeOf | src/app/api/menus/route.ts:8-12 | a found recipe id belongs to a recipe of that menu, and `None` means no recipe of that menu exists |
| MenuStore.RecipeOfExact | src/app/api/menus/route.ts:8-12 | in a valid store a menu's recipe id is `rid` exactly when the store holds recipe `rid` of that menu |
| MenuStore.NoRecipeForUnknownMenu | src/app/api/menus/route.ts:8-12 | a menu id the store does not hold has no recipe |
| MenuOrder.NameLeIff | src/app/api/menus/route.ts:7 | the name order is the lexicographic order: a prefix, or a smaller character at the first difference |
| MenuOrder.NameLeTotal | src/app/api/menus/route.ts:7 | any two names are comparable |
| MenuOrder.NameLeTransitive | src/app/api/menus/route.ts:7 | the name order is transitive |
| MenuOrder.NameLeAntisymmetric | src/app/api/menus/route.ts:7 | names ordered both ways are equal |
| MenuOrder.MenuLeTotal | src/app/api/menus/route.ts:7 | any two menus are comparable by (sort key, name) |
| MenuOrder.MenuLeTransitive | src/app/api/menus/route.ts:7 | the (sort key, name) order is transitive |
| MenuOrder.SortedPairwise | src/app/api/menus/route.ts:7 | a list ordered pair by adjacent pair is ordered for every pair of positions |
| MenuOrder.Insert | src/app/api/menus/route.ts:6-7 | inserting into an ordered list keeps it ordered and adds exactly that one menu |
| MenuOrder.SortedRearrangementsAgree | src/app/api/menus/route.ts:6-7 | two rearrangements of the same menus that are both ordered by (sort key, name) agree position by position on sort key and name |
| MenuOrder.SortMenus | src/app/api/menus/route.ts:6-7 | the result is ordered by (sort key, name) and is a rearrangement of the input |
| MenusRoute.Get | src/app/api/menus/route.ts:4-22 | without a store failure: 200 and a rearrangement of all stored menus, ordered by (sort key, name), each with its recipe id or `None`; with one: 500 and the fixed list message |
| MenusRoute.GetOrderIsDetermined | src/app/api/menus/route.ts:6-7 | the listed menus agree position by position on (sort key, name) with every ordered rearrangement of the stored menus |
| MenusRoute.GetOrdersBySortKey | src/app/api/menus/route.ts:6-7 | menus stored with sort keys 2, 0, 1 are listed with sort keys 0, 1, 2 |
| MenusRoute.Normalise | src/app/api/menus/route.ts:26-39 | an unparsable or `null` body throws; the name error occurs exactly for bodies without a non-empty string `name`; a body is accepted exactly when it has a non-empty string `name` and each of `nameKo` and `category` is a string, `null` or absent; an accepted body gives the trimmed name, the normalised optional fields and the sort key |
| MenusRoute.Post | src/app/api/menus/route.ts:24-50 | the status is 200, 400 or 500. It is 400 with the name message exactly on the name error. It is 500 with the fixed message on any throw, store failure or taken id. Every non-200 answer leaves the store unchanged. A 200 adds exactly the returned menu, built from the normalised fields and the new id |
| MenusRoute.MissingNameIsRefused | src/app/api/menus/route.ts:28-33 | a body whose name is absent, empty or not a string, or that is not an object, gets 400 and leaves the store unchanged |
| MenusRoute.ThrowingBodiesFail | src/app/api/menus/route.ts:43-49 | an unparsable body, a `null` body, or, with a valid name, a non-text `nameKo`/`category` gets 500 with the fixed message and leaves the store unchanged |
| MenusRoute.BlankNameIsStoredEmpty | src/app/api/menus/route.ts:28-36 | a name of white space only passes validation and is stored as `""` |
| MenusRoute.BlankNameKoIsKept | src/app/api/menus/route.ts:37 | a blank `nameKo` is stored as `""`, not `null` |
| MenusRoute.SortKeyDefaultsToZero | src/app/api/menus/route.ts:39 | a missing or non-number `sortOrder` is stored as 0 |
| MenusRoute.NumericSortKeyIsKept | src/app/api/menus/route.ts:39 | a JSON number given as `sortOrder` is stored unchanged |
| MenusRoute.CreatedMenuIsTrimmed | src/app/api/menus/route.ts:36-38 | every text field of a created menu has no white space at its ends |
| MenusRoute.RepostKeepsFields | src/app/api/menus/route.ts:36-39 | re-sending a menu's fields with trimmed text and a non-empty name yields the same name, nameKo, category and sort key |
| MenusRoute.CreatedMenuReposts | src/app/api/menus/route.ts:34-42 | a created menu with a non-empty name is a fixed point of normalisation |
| MenusRoute.PostPreservesValid | src/app/api/menus/route.ts:34-41 | POST keeps menu ids unique and every recipe attached to a stored menu |
| MenusRoute.PostThenGetListsMenu | src/app/api/menus/route.ts:4-42 | after a successful POST the list is one longer and holds the new menu with no recipe |
| MenusRoute.FailureDetailIsNotLeaked | src/app/api/menus/route.ts:15-49 | store failures with different details give identical answers, always an error body with a fixed message, and leave the store unchanged |

## Left out

- The request's path is taken as given. How the framework extracts
  `nextUrl.pathname` from the URL (percent-encoding, dot segments) is not
  modelled.
- The regular expression engine is replaced by the pattern language. Only
  the constructs the thirty expressions use are expressible: literals,
  groups of alternatives, optional groups, `^`, `$` and `(\/|$)`.
- `NextResponse`, `NextResponse.next()`, JSON serialisation of responses and
  `console.error` logging are left out. A response is a status with a body
  datatype.
- The database is an explicit value. The relative order of menus that share
  both sort key and name is left open. `Get` fixes everything else
  (`GetOrderIsDetermined`).
- Json: numbers are integers only. A fractional `sortOrder` or one outside
  the database column's range reaches the store, whose rejection is a store
  failure (`fault`).
- Json: a JSON object is a map, so duplicate keys and keys such as
  `__proto__` are not modelled.
- MenusRoute.Post: the created menu's response body holds the fields the
  handler writes and the id. Columns the schema may add, such as timestamps,
  are left out: `prisma/schema.prisma` is not part of this model.
- The menu-by-id handlers and the recipe handlers are not modelled:
  `src/app/api/menus/[id]/route.ts` and
  `src/app/api/menus/[id]/recipe/route.ts`. Neither are the pages,
  components, layout, manifest and seed script. These are UI or separate
  CRUD plumbing.
