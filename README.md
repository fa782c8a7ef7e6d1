# Kitchen-table inventory core, modelled in Dafny

This project models the server side of a household inventory app. The app has
three document tables:

- `users`, looked up by the identity provider's `clerkId`;
- a shared `ingredients` catalog;
- `userInventory` rows, each holding one ingredient for one user in the fridge,
  pantry or freezer with optional expiry, purchase and thaw dates.

The model also covers the inventory page's expiry badge and its "Items Expiring
Soon" alert.

Each table is a sequence of rows in insertion order. The indexes the handlers
use (`by_clerk_id`, `by_user`, `by_user_location`, `by_category`,
`by_barcode`) return rows with equal keys in creation order, which is sequence
order here. Store-assigned ids come from per-table counters. The clock
(`Date.now()`, which the store freezes for one handler run) is a `now`
parameter.

## Modules

| Module | What it models |
|---|---|
| `Wrappers` | `Option`, for optional schema fields and for lookups that can miss. |
| `Seqs` | `filter` and `.first()` as generic functions, with the facts the query contracts rest on. |
| `Schema` | The three tables' row shapes, the location union, `DayMs`, and JavaScript truthiness of an optional number. |
| `Catalog` | The catalog queries as functions. `createIngredient` is a method on the `IngredientTable` class. |
| `Seed` | The 47-entry built-in list. `seedIngredients` is a method with its emptiness guard and insert loop. |
| `UserInventory` | The user upsert; the soft-failing read queries with their ingredient join and stable expiry sort; the statistics; the add, patch and delete mutations. Each mutation is a function of the tables, and the `InventoryStore` class's methods are proved against those functions. |
| `InventoryPage` | `getExpiryStatus` and the alert's "first three plus N more" slice. |

## Decisions

- **Falsy expiry dates.** JavaScript treats an `expiryDate` of 0 as false. The
  listing comparator, the statistics and the badge therefore treat 0 as
  undated. `getExpiringItems` instead filters on "defined" and keeps such a row.
  `UserInventory.ExpiringSoonVersusList` states the resulting gap between the
  two counts.
- **Purchase date.** `purchaseDate || now` replaces both a missing date and 0
  with `now`.
- **Sorting.** `Array.prototype.sort` is stable, so the listings use a stable
  insertion sort. It is proved to be ordered by key, to be a permutation, and to
  keep input order within each key.
- **Just-expired items.** The day count rounds up. An item one millisecond past
  its expiry date therefore shows "Expires today" (critical). It shows "Expired"
  only once a whole day has passed (`InventoryPage.JustExpiredIsCritical`).
- **Missing ids.** Patching or deleting a missing id raises an error in the
  store. The methods return `found = false` and change nothing.
- **Unreachable error.** In `addToInventory`, a user has just been found or
  inserted, so the "Failed to create or find user" error cannot occur and is not
  modelled.

## Model

| member | source | states |
|---|---|---|
| Schema.ParseLocation | convex/schema.ts:42 | A location is accepted exactly when it is one of "fridge", "pantry" or "freezer", and the parsed value names that literal. |
| Schema.ParseLocationName | convex/schema.ts:42 | Every location survives the trip to its wire name and back. |
| Catalog.Lower | convex/ingredients.ts:28 | The lower-cased name or term has no upper-case ASCII letter and differs from the input only in letter case. |
| Catalog.LowerIdempotent | convex/ingredients.ts:28 | Lower-casing an already lower-cased string changes nothing. |
| Catalog.LowerEqualIffSameUpToCase | convex/ingredients.ts:27-29 | Two strings lower-case to the same string exactly when they differ at most in letter case. `SearchIgnoresCase` rests on this. |
| Catalog.ContainsEmpty | convex/ingredients.ts:28 | Every string contains the empty string. |
| Catalog.IngredientsByCategory | convex/ingredients.ts:12-20 | Returns exactly the rows whose category equals the argument (case-sensitive), each with its full multiplicity. |
| Catalog.SearchIngredients | convex/ingredients.ts:23-31 | Returns exactly the rows whose lower-cased name contains the lower-cased term, each with its full multiplicity. |
| Catalog.SearchEmptyTermIsAll | convex/ingredients.ts:5-9 | Searching for "" returns the whole catalog in order, which is what listing all ingredients returns. |
| Catalog.AllIngredients | convex/ingredients.ts:5-9 | Every catalog row, in order. It has no contract of its own; `SearchEmptyTermIsAll` states that searching for "" gives the same rows. |
| Catalog.SearchIgnoresCase | convex/ingredients.ts:27-29 | Terms differing only in letter case give the same rows in the same order. |
| Catalog.QueriesKeepCatalogOrder | convex/ingredients.ts:15-18 | The category and search results keep catalog (insertion) order. |
| Catalog.IngredientByBarcode | convex/ingredients.ts:61-69 | None exactly when no row has the barcode; otherwise the first row with exactly that barcode. |
| Catalog.GetIngredient | convex/userInventory.ts:68 | Point lookup by id: None exactly when no row has the id; otherwise a catalog row with that id. |
| Catalog.IngredientTable.CreateIngredient | convex/ingredients.ts:34-58 | Appends exactly one row with the given fields, a fresh id and `createdAt = now`. There is no duplicate check, and every existing row is unchanged. |
| Seed.SeedIngredients | convex/seed.ts:66-81 | The loop leaves the catalog equal to `Seeded`: unchanged when it was non-empty, otherwise the 47 built-in rows with consecutive fresh ids. |
| Seed.Seeded | convex/seed.ts:66-81 | The catalog after seeding. It has no contract of its own; `SeedIngredients`, `SeedFromEmpty`, `SeedNonEmptyIsNoop` and `SeedIdempotent` state what it is. |
| Seed.SeedRows | convex/seed.ts:74-81 | The rows the insert loop adds. It has no contract of its own; `SeedFromEmpty` states their fields and order. |
| Seed.BuiltInSize | convex/seed.ts:5-64 | The built-in list has 47 entries. |
| Seed.SeedFromEmpty | convex/seed.ts:74-81 | An empty catalog ends with exactly the built-in (name, category, unit) entries in list order, with no barcode, no nutrition data and `createdAt = now`. |
| Seed.SeedNonEmptyIsNoop | convex/seed.ts:67-71 | A non-empty catalog is left as it is. |
| Seed.SeedIdempotent | convex/seed.ts:67-81 | Seeding twice gives the catalog that seeding once gives. |
| UserInventory.GetUser | convex/userInventory.ts:35-42 | None exactly when no user has the `clerkId`; otherwise a stored user with that `clerkId`. |
| UserInventory.UpsertUser | convex/userInventory.ts:13-31 | `createUser` on the tables. It has no contract of its own; `UpsertUserEffect`, `UpsertUserIdempotent` and `UpsertUserKeepsValid` state its behaviour. |
| UserInventory.GetUserFindsMember | convex/userInventory.ts:35-42 | When the user table keeps `clerkId`s unique (part of `UsersValid`), the lookup returns the user itself. |
| UserInventory.UpsertUserEffect | convex/userInventory.ts:14-30 | A repeat call returns the existing id and adds no row. A first call appends exactly one user carrying the call's fields with `createdAt = updatedAt = now`. |
| UserInventory.UpsertUserIdempotent | convex/userInventory.ts:14-21 | A second call with the same `clerkId` returns the first call's id and changes nothing, whatever its other fields, so the stored email, name and image keep their first values. |
| UserInventory.UpsertUserKeepsValid | convex/userInventory.ts:23-30 | The upsert keeps user ids fresh and ascending and `clerkId`s unique, and the returned id names a stored user. |
| UserInventory.JoinMembership | convex/userInventory.ts:66-74 | A joined row is one of the user's rows paired with the ingredient looked up by its `ingredientId` (None when missing), and every such pair occurs. |
| UserInventory.Join | convex/userInventory.ts:66-74 | The ingredient join. It has no contract of its own; `JoinMembership` states which pairs it holds. |
| UserInventory.ComparatorsAgreeWithKeys | convex/userInventory.ts:77-82 | The listing comparator orders and ties exactly as the key (dated by date, falsy dates last) does. So does the expiring comparator on its raw dates. |
| UserInventory.CompareByExpiry | convex/userInventory.ts:77-82 | The listing comparator. It has no contract of its own; `ComparatorsAgreeWithKeys` states the order it induces. |
| UserInventory.CompareExpiring | convex/userInventory.ts:170 | The expiring-items comparator. It has no contract of its own; `ComparatorsAgreeWithKeys` states the order it induces. |
| UserInventory.SortBy | convex/userInventory.ts:77 | The sort returns a permutation of its input. |
| UserInventory.SortBySorted | convex/userInventory.ts:77-82 | The sort's output is ordered by key for every pair of positions. |
| UserInventory.SortByStable | convex/userInventory.ts:77-82 | Among elements with equal keys, the sort keeps the input order. |
| UserInventory.JoinAndSort | convex/userInventory.ts:66-82 | The joined and sorted rows are ordered by key, are a permutation of the join, and contain exactly the joined pairs. |
| UserInventory.GetUserInventory | convex/userInventory.ts:45-84 | An unknown user gets `[]`. Otherwise the result is a permutation of exactly that user's rows, each joined with its ingredient. Dated rows come in non-decreasing expiry order, and rows with a falsy expiry come after all dated rows. |
| UserInventory.GetInventoryByLocation | convex/userInventory.ts:87-128 | The same as the listing, restricted to exactly the user's rows at the given location. |
| UserInventory.GetExpiringItems | convex/userInventory.ts:131-172 | An unknown user gets `[]`. Otherwise: every returned row has an expiry no later than `now + 3 days` (past dates included); every such row of the user is returned, with its multiplicity; the result ascends by expiry. |
| UserInventory.ListingIsStable | convex/userInventory.ts:77-82 | In the listing, rows with equal sort keys (undated rows in particular) keep their table order. |
| UserInventory.LocationListingIsStable | convex/userInventory.ts:121-126 | In the per-location listing, rows with equal sort keys (undated rows in particular) keep their table order. |
| UserInventory.LocationsPartition | convex/userInventory.ts:325-329 | The three per-location counts of any row set add up to its size. |
| UserInventory.GetInventoryStats | convex/userInventory.ts:284-334 | An unknown user gets all-zero stats. For a known user: `totalItems` counts the user's rows; `expiringSoon` and `expiringThisWeek` count the user's rows with a truthy expiry no later than `now + 3 days` and `now + 7 days`; each location field counts the user's rows in that location. The location counts add up to `totalItems`, and `expiringSoon` <= `expiringThisWeek` <= `totalItems`. |
| UserInventory.WeekCountIncludesSoon | convex/userInventory.ts:319-324 | The windows are cumulative: `expiringThisWeek - expiringSoon` counts exactly the user's rows due after three days and no later than seven. |
| UserInventory.CumulativeWindows | convex/userInventory.ts:319-328 | Rows due in two and in six days, in the fridge and the pantry, give `expiringSoon = 1`, `expiringThisWeek = 2`, total 2, and location counts 1, 1, 0. |
| UserInventory.ExpiresWithin | convex/userInventory.ts:319-324 | The stats' truthy-date window. It has no contract of its own; `GetInventoryStats` states the counts it gives. |
| UserInventory.ExpiringSoonVersusList | convex/userInventory.ts:146-157 | `expiringSoon` never exceeds the length of the expiring list. It equals that length unless one of the user's rows has `expiryDate` 0. |
| UserInventory.WithoutZeroDatesWindowsAgree | convex/userInventory.ts:150-155 | When none of the user's rows has `expiryDate` 0, the truthy window of the stats and the defined window of the expiring list select the same rows in the same order. |
| UserInventory.UpsertKeepsStoreValid | convex/userInventory.ts:6-32 | `createUser` keeps the store invariant, and its id names a stored user. |
| UserInventory.AddRaisesSlotTotal | convex/userInventory.ts:218-250 | Adding raises the quantity held in the (user, ingredient, location) slot by exactly the added amount, merged or inserted. Every other slot's total is unchanged. |
| UserInventory.AddedItemsEffect | convex/userInventory.ts:218-250 | A merge changes only the first matching row: quantity becomes old + new, `updatedAt` becomes `now`, and the row count is unchanged. An insert appends exactly one row with the call's fields, `purchaseDate` defaulting to `now` when falsy, and `createdAt = updatedAt = now`. |
| UserInventory.AddedItems | convex/userInventory.ts:218-250 | The inventory after `addToInventory`. It has no contract of its own; `AddedItemsEffect`, `AddRaisesSlotTotal`, `AddTwiceMerges`, `AddElsewhereSeparates` and `AddKeepsValid` state its behaviour. |
| UserInventory.MergeTarget | convex/userInventory.ts:217-227 | The `existingItem` lookup: the first of the user's rows with the ingredient and location. It has no contract of its own; `Seqs.FirstIndex` states that it is the first match, and `AddedItemsEffect` what the add does with it. |
| UserInventory.NewRow | convex/userInventory.ts:238-250 | The inserted row. It has no contract of its own; `AddedItemsEffect` states its fields. |
| UserInventory.AddTwiceMerges | convex/userInventory.ts:229-250 | Starting from a slot with no row, adding the same ingredient to the same place twice appends one row. It holds `q1 + q2`, stamped with the second call's time. |
| UserInventory.AddTwiceToHeldSlot | convex/userInventory.ts:229-235 | When the slot already has a row, two adds raise that first row by `q1 + q2` and stamp it with the second call's time. No row is added and no other row changes. |
| UserInventory.AddElsewhereSeparates | convex/userInventory.ts:221-227 | The same ingredient added to two different locations yields two separate rows. |
| UserInventory.AddKeepsValid | convex/userInventory.ts:229-250 | A merge or insert keeps item ids fresh and ascending and every row owned by a stored user. |
| UserInventory.PatchChangesOnlySuppliedFields | convex/userInventory.ts:267-272 | A patch sets each supplied field, stamps `updatedAt`, and keeps every other field: owner, ingredient, purchase date and creation time. |
| UserInventory.PatchesCompose | convex/userInventory.ts:267-272 | Two successive patches act as their right-biased merge applied once. |
| UserInventory.ApplyPatch | convex/userInventory.ts:267-272 | One patched row. It has no contract of its own; `PatchChangesOnlySuppliedFields` and `PatchesCompose` state its behaviour. |
| UserInventory.PatchedItems | convex/userInventory.ts:255-273 | The inventory after `updateInventoryItem`. It has no contract of its own; `PatchTouchesOnlyTarget` and `PatchKeepsValid` state its behaviour. |
| UserInventory.DeletedItems | convex/userInventory.ts:279 | The inventory after `deleteInventoryItem`. It has no contract of its own; `DeleteRemovesOnlyTarget`, `DeletedNeverListed` and `DeleteKeepsValid` state its behaviour. |
| UserInventory.PatchTouchesOnlyTarget | convex/userInventory.ts:267-272 | In a valid table, the row with the id is patched and no other row changes. |
| UserInventory.DeleteRemovesOnlyTarget | convex/userInventory.ts:276-281 | In a valid table, deleting removes exactly the row with the id and keeps the others in order. |
| UserInventory.DeletedNeverListed | convex/userInventory.ts:276-281 | After a delete, no user's listing shows the deleted id. |
| UserInventory.PatchKeepsValid | convex/userInventory.ts:267-272 | A patch keeps the store invariant. |
| UserInventory.DeleteKeepsValid | convex/userInventory.ts:276-281 | A delete keeps the store invariant. |
| UserInventory.RemoveKeepsItemsValid | convex/userInventory.ts:279 | Removing any one row keeps item ids fresh and ascending. |
| UserInventory.RemoveKeepsOwners | convex/userInventory.ts:279 | Removing any one row leaves every remaining row with a stored owner. |
| UserInventory.InventoryStore.CreateUser | convex/userInventory.ts:6-32 | The new tables and the returned id are exactly `UpsertUser`'s. The store invariant holds and the inventory is untouched. |
| UserInventory.InventoryStore.AddToInventory | convex/userInventory.ts:175-252 | Resolves or creates the user as `UpsertUser` does, then leaves the inventory equal to `AddedItems`. It returns the new id exactly when it inserted. |
| UserInventory.InventoryStore.MergeOrInsert | convex/userInventory.ts:218-250 | For a stored user, adds the quantity to the first row of the slot, or inserts a row with the next id. The inventory ends equal to `AddedItems`, the result is the new id exactly when it inserted, and the users are unchanged. |
| UserInventory.InventoryStore.UpdateInventoryItem | convex/userInventory.ts:255-273 | Reports whether the id exists, and leaves the inventory equal to `PatchedItems`. The users and id counters are unchanged. |
| UserInventory.InventoryStore.DeleteInventoryItem | convex/userInventory.ts:276-281 | Reports whether the id exists, and leaves the inventory equal to `DeletedItems`. The users and id counters are unchanged. |
| InventoryPage.DaysUntilExpiry | src/app/inventory/page.tsx:97 | The day count `n` satisfies `(n - 1) days < expiry - now <= n days`, so it is the ceiling. |
| InventoryPage.DaysUntilExpiryIsCeiling | src/app/inventory/page.tsx:97 | Any integer in that bracket is the day count. |
| InventoryPage.DecimalString | src/app/inventory/page.tsx:101-103 | The text of a count is non-empty, all decimal digits, with no leading zero. |
| InventoryPage.DecimalRoundTrip | src/app/inventory/page.tsx:101-103 | The decimal text of a count reads back as that count. |
| InventoryPage.GetExpiryStatus | src/app/inventory/page.tsx:93-104 | A falsy date gives the gray "No expiry date" badge. Otherwise, in milliseconds to expiry `d`: expired iff `d <= -1 day`; critical iff `-1 day < d <= 1 day`; warning iff `1 < d <= 3 days`; caution iff `3 < d <= 7 days`; good iff `d > 7 days`. Each status has its colour. Expired and critical have fixed texts; warning, caution and good show the day count, as `BadgeTextShowsDays` states. |
| InventoryPage.BadgeTextShowsDays | src/app/inventory/page.tsx:101-103 | Warning, caution and good badges read "N days left", where N >= 2 is the day count and parses back from the text. |
| InventoryPage.StatusMonotone | src/app/inventory/page.tsx:97-103 | A later expiry date is never more urgent. |
| InventoryPage.StatusWorsensOverTime | src/app/inventory/page.tsx:97-103 | As time passes, a badge never becomes less urgent. |
| InventoryPage.JustExpiredIsCritical | src/app/inventory/page.tsx:97-100 | One millisecond past expiry is critical ("Expires today"). One full day past expiry is expired. |
| InventoryPage.ZeroDateIsUndated | src/app/inventory/page.tsx:94 | An expiry date of 0 is shown as undated. |
| InventoryPage.WindowsMatchBadges | src/app/inventory/page.tsx:99-102 | A dated row is within the three-day window exactly when its badge is expired, critical or warning. It is within the seven-day window exactly when its badge is one of those or caution. |
| InventoryPage.StatusNameInjective | src/app/inventory/page.tsx:94-103 | The status strings are distinct, so testing the string identifies the status. |
| InventoryPage.VariantByStatus | src/app/inventory/page.tsx:136-137 | The card is destructive exactly for expired and critical badges, that is, for a dated row due within a day. It is secondary exactly for warning, and outline for the rest. |
| InventoryPage.Variant | src/app/inventory/page.tsx:136-137 | The variant chosen from the status string. It has no contract of its own; `VariantByStatus` states it. |
| InventoryPage.ExpiringAlert | src/app/inventory/page.tsx:250-273 | The alert is absent exactly when the list is empty. Otherwise it shows min(3, n) lines for the first items in list order, and "+(n - 3) more" exactly when n > 3; the lines and the count account for all n items. |
| InventoryPage.LineFor | src/app/inventory/page.tsx:263-268 | One alert line: the ingredient's name and the badge text. It has no contract of its own; `ExpiringAlert` states which item each line shows. |

## Left out

- The recipe, meal-plan, health-goal and shopping-list tables, and the unused indexes (`by_email`, `by_name`, `by_user_expiry`, `by_ingredient`): no modelled handler uses them.
- The document store itself: index lookups, id generation and `ctx.db`. They are replaced by sequences in insertion order and per-table id counters.
- `Date.now()`: it is the `now` parameter.
- The `Promise.all` fan-out of the joins: it is a sequential map.
- The read-then-write race in `addToInventory`: concurrency is out of scope. The model runs each handler alone.
- Floating point. Timestamps are integer milliseconds and quantities unbounded reals. So `DaysUntilExpiry` is the exact ceiling; the page's float division can differ from it only for timestamps far beyond realistic ranges. NaN, the other falsy number, is not modelled.
- `toLowerCase` beyond ASCII: only `A`-`Z` are lower-cased.
- Identity-provider authentication, route protection and the UI. This includes the page's rendering, apart from the badge variant chosen from the status, and the client-side ingredient filter, which repeats `searchIngredients`.
- The `console.log` messages of the seed handler.
- Argument validation by the store (for example a `location` outside the union): the model's types exclude such calls.
- `getAllIngredients` is the identity on the catalog, so it carries no contract of its own. `SearchEmptyTermIsAll` states what it returns.
- Ownership and referential checks: the source makes none. Any caller may patch or delete any row, a row's ingredient id may name no catalog row (its join is then None), and deleting rows cascades nothing.
