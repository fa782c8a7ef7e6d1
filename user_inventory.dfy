/** The user directory and the per-user inventory service: the create-if-absent
    user upsert, the soft-failing read queries (listing, by location, expiring
    soon, statistics) with their ingredient join and expiry sort, and the
    add / patch / delete mutations over the `users` and `userInventory` tables.
    Each table is the sequence of its rows in insertion order, which is the
    order the `by_user` and `by_user_location` indexes return one user's rows in. */
module UserInventory {
  import opened Wrappers
  import opened Schema
  import opened Seqs
  import Catalog

  // ================================================================ arguments and results

  /** The identity fields every handler receives from the identity provider. */
  datatype Identity = Identity(clerkId: string, email: string, name: Option<string>, imageUrl: Option<string>)

  /** The item fields of an `addToInventory` call. */
  datatype NewItem = NewItem(
    ingredientId: IngredientId,
    quantity: real,
    unit: string,
    location: Location,
    expiryDate: Option<int>,
    purchaseDate: Option<int>,
    isFrozen: bool,
    thawDate: Option<int>)

  /** The `updates` object of `updateInventoryItem`: `None` is "not supplied". */
  datatype ItemPatch = ItemPatch(
    quantity: Option<real>,
    unit: Option<string>,
    location: Option<Location>,
    expiryDate: Option<int>,
    isFrozen: Option<bool>,
    thawDate: Option<int>)

  /** `{...item, ingredient}`: a row with the catalog entry it refers to, absent
      when the id matches no catalog row. */
  datatype InventoryView = InventoryView(item: InventoryItem, ingredient: Option<Ingredient>)

  datatype ByLocation = ByLocation(fridge: nat, pantry: nat, freezer: nat)

  /** The object `getInventoryStats` returns. */
  datatype InventoryStats = InventoryStats(
    totalItems: nat,
    expiringSoon: nat,
    expiringThisWeek: nat,
    byLocation: ByLocation)

  const NoStats := InventoryStats(0, 0, 0, ByLocation(0, 0, 0))

  // ================================================================ user directory

  /** `getUser`: the first user with this `clerkId` (via `by_clerk_id`). */
  function GetUser(users: seq<User>, clerkId: string): (r: Option<User>)
    ensures r.None? <==> forall u :: u in users ==> u.clerkId != clerkId
    ensures r.Some? ==> r.value in users && r.value.clerkId == clerkId
  {
    match FirstIndex(users, (u: User) => u.clerkId == clerkId)
    case Some(i) => Some(users[i])
    case None => None
  }

  /** Ids are fresh and ascending, and no two users share a `clerkId`. */
  ghost predicate UsersValid(users: seq<User>, nextId: nat) {
    && (forall i, j :: 0 <= i < j < |users| ==> users[i].id.n < users[j].id.n)
    && (forall i :: 0 <= i < |users| ==> users[i].id.n < nextId)
    && (forall i, j :: 0 <= i < j < |users| ==> users[i].clerkId != users[j].clerkId)
  }

  /** What a `createUser` call leaves behind: the users table, the id it
      returns and the next fresh id. */
  datatype Upsert = Upsert(users: seq<User>, id: UserId, nextId: nat)

  /** `createUser`: the existing user's id if the `clerkId` is known (no field is
      refreshed), otherwise a new user stamped `createdAt = updatedAt = now`. */
  function UpsertUser(users: seq<User>, nextId: nat, who: Identity, now: int): Upsert {
    match GetUser(users, who.clerkId)
    case Some(u) => Upsert(users, u.id, nextId)
    case None =>
      Upsert(users + [User(UserId(nextId), who.clerkId, who.email, who.name, who.imageUrl, now, now)],
             UserId(nextId), nextId + 1)
  }

  /** With unique `clerkId`s a user is found by its own `clerkId`. */
  lemma GetUserFindsMember(users: seq<User>, nextId: nat, i: nat)
    requires UsersValid(users, nextId) && i < |users|
    ensures GetUser(users, users[i].clerkId) == Some(users[i])
  {
    var r := GetUser(users, users[i].clerkId);
    var k :| 0 <= k < |users| && users[k] == r.value;
    assert k == i;
  }

  /** A first call inserts exactly one user, carrying the call's fields with
      `createdAt = updatedAt = now`; a repeat call returns the existing id and
      adds nothing. */
  lemma UpsertUserEffect(users: seq<User>, nextId: nat, who: Identity, now: int)
    ensures var r := UpsertUser(users, nextId, who, now);
      match GetUser(users, who.clerkId)
      case Some(u) => r.users == users && r.id == u.id
      case None =>
        && r.users[..|users|] == users && |r.users| == |users| + 1
        && r.users[|users|] == User(r.id, who.clerkId, who.email, who.name, who.imageUrl, now, now)
  {
    var r := UpsertUser(users, nextId, who, now);
    if GetUser(users, who.clerkId).None? {
      assert r.users[..|users|] == users;
    }
  }

  /** `createUser` is idempotent on `clerkId`: a second call with the same
      `clerkId` (whatever its email, name, image or time) returns the first
      call's id and changes nothing, so the stored fields keep the values of
      the call that created the user. */
  lemma {:induction false} UpsertUserIdempotent(users: seq<User>, nextId: nat, who1: Identity, t1: int, who2: Identity, t2: int)
    requires who2.clerkId == who1.clerkId
    ensures var r1 := UpsertUser(users, nextId, who1, t1);
      UpsertUser(r1.users, r1.nextId, who2, t2) == r1
  {
    var r1 := UpsertUser(users, nextId, who1, t1);
    if GetUser(users, who1.clerkId).None? {
      var u := User(UserId(nextId), who1.clerkId, who1.email, who1.name, who1.imageUrl, t1, t1);
      FirstIndexAppend(users, u, (x: User) => x.clerkId == who1.clerkId);
      assert GetUser(r1.users, who2.clerkId) == Some(u);
    }
  }

  /** The upsert keeps the users table valid. */
  lemma UpsertUserKeepsValid(users: seq<User>, nextId: nat, who: Identity, now: int)
    requires UsersValid(users, nextId)
    ensures var r := UpsertUser(users, nextId, who, now);
      UsersValid(r.users, r.nextId) && r.nextId >= nextId && r.id in UserIds(r.users)
      && UserIds(r.users) >= UserIds(users)
  {
    var r := UpsertUser(users, nextId, who, now);
    match GetUser(users, who.clerkId)
    case Some(u) =>
      assert r.id in UserIds(r.users);
    case None =>
      var nu := User(UserId(nextId), who.clerkId, who.email, who.name, who.imageUrl, now, now);
      assert r.users == users + [nu];
      forall i | 0 <= i < |users| ensures users[i].clerkId != who.clerkId {
        assert users[i] in users;
      }
      assert nu in r.users;
  }

  /** The ids of a users table. */
  function UserIds(users: seq<User>): set<UserId> {
    set u | u in users :: u.id
  }

  // ================================================================ joins and the expiry sort

  /** The rows that belong to `uid`. */
  function OwnedBy(uid: UserId): InventoryItem -> bool {
    (x: InventoryItem) => x.userId == uid
  }

  /** The rows that belong to `uid` and are kept at `location`. */
  function OwnedAt(uid: UserId, location: Location): InventoryItem -> bool {
    (x: InventoryItem) => x.userId == uid && x.location == location
  }

  /** The rows that belong to `uid` and have an expiry date no later than `limit`. */
  function OwnedExpiring(uid: UserId, limit: int): InventoryItem -> bool {
    (x: InventoryItem) => x.userId == uid && x.expiryDate.Some? && x.expiryDate.value <= limit
  }

  /** The per-row ingredient lookup, `ctx.db.get(item.ingredientId)`. */
  function Join(rows: seq<InventoryItem>, catalog: seq<Ingredient>): seq<InventoryView> {
    seq(|rows|, i requires 0 <= i < |rows| => InventoryView(rows[i], Catalog.GetIngredient(catalog, rows[i].ingredientId)))
  }

  /** A joined row is one of the rows, paired with its own lookup. */
  lemma JoinMembership(rows: seq<InventoryItem>, catalog: seq<Ingredient>)
    ensures forall v :: v in Join(rows, catalog) <==>
      v.item in rows && v.ingredient == Catalog.GetIngredient(catalog, v.item.ingredientId)
  {
    var j := Join(rows, catalog);
    forall v: InventoryView | v.item in rows && v.ingredient == Catalog.GetIngredient(catalog, v.item.ingredientId)
      ensures v in j
    {
      var i :| 0 <= i < |rows| && rows[i] == v.item;
      assert j[i] == v;
    }
  }

  /** Sort keys: a dated row sorts by its date; undated rows sort after all
      dated ones. */
  datatype SortKey = Dated(at: int) | Undated

  predicate KeyLe(a: SortKey, b: SortKey) {
    match b
    case Undated => true
    case Dated(y) => a.Dated? && a.at <= y
  }

  /** The listing comparator's key: a falsy `expiryDate` (absent or 0) is undated. */
  function ListingKey(v: InventoryView): SortKey {
    if Truthy(v.item.expiryDate) then Dated(v.item.expiryDate.value) else Undated
  }

  /** The expiring-items comparator's key: the raw `expiryDate`. */
  function ExpiringKey(v: InventoryView): SortKey {
    match v.item.expiryDate
    case Some(e) => Dated(e)
    case None => Undated
  }

  /** The listing comparator written in the handlers (negative: `a` first). */
  function CompareByExpiry(a: InventoryView, b: InventoryView): int {
    if !Truthy(a.item.expiryDate) && !Truthy(b.item.expiryDate) then 0
    else if !Truthy(a.item.expiryDate) then 1
    else if !Truthy(b.item.expiryDate) then -1
    else a.item.expiryDate.value - b.item.expiryDate.value
  }

  /** The expiring-items comparator, `a.expiryDate! - b.expiryDate!`. */
  function CompareExpiring(a: InventoryView, b: InventoryView): int
    requires a.item.expiryDate.Some? && b.item.expiryDate.Some?
  {
    a.item.expiryDate.value - b.item.expiryDate.value
  }

  /** Each comparator orders exactly as its key does, and ties exactly on equal keys. */
  lemma ComparatorsAgreeWithKeys(a: InventoryView, b: InventoryView)
    ensures CompareByExpiry(a, b) <= 0 <==> KeyLe(ListingKey(a), ListingKey(b))
    ensures CompareByExpiry(a, b) == 0 <==> ListingKey(a) == ListingKey(b)
    ensures a.item.expiryDate.Some? && b.item.expiryDate.Some? ==>
      (CompareExpiring(a, b) <= 0 <==> KeyLe(ExpiringKey(a), ExpiringKey(b))) &&
      (CompareExpiring(a, b) == 0 <==> ExpiringKey(a) == ExpiringKey(b))
  {
  }

  ghost predicate SortedBy(s: seq<InventoryView>, key: InventoryView -> SortKey) {
    forall i, j :: 0 <= i < j < |s| ==> KeyLe(key(s[i]), key(s[j]))
  }

  /** The views whose key is `k`. */
  function KeyIs(key: InventoryView -> SortKey, k: SortKey): InventoryView -> bool {
    (v: InventoryView) => key(v) == k
  }

  /** Inserts `x` before the first element whose key is not below its own. */
  function InsertByKey(x: InventoryView, s: seq<InventoryView>, key: InventoryView -> SortKey): (r: seq<InventoryView>)
    ensures |r| == |s| + 1
    ensures multiset(r) == multiset(s) + multiset{x}
    decreases |s|
  {
    if |s| == 0 then [x]
    else if KeyLe(key(x), key(s[0])) then [x] + s
    else
      assert s == [s[0]] + s[1..];
      [s[0]] + InsertByKey(x, s[1..], key)
  }

  /** A stable sort by key (`Array.prototype.sort` is stable). */
  function SortBy(s: seq<InventoryView>, key: InventoryView -> SortKey): (r: seq<InventoryView>)
    ensures |r| == |s|
    ensures multiset(r) == multiset(s)
    decreases |s|
  {
    if |s| == 0 then []
    else
      assert s == [s[0]] + s[1..];
      InsertByKey(s[0], SortBy(s[1..], key), key)
  }

  lemma {:induction false} InsertSorted(x: InventoryView, s: seq<InventoryView>, key: InventoryView -> SortKey)
    requires SortedBy(s, key)
    ensures SortedBy(InsertByKey(x, s, key), key)
    decreases |s|
  {
    if |s| > 0 && !KeyLe(key(x), key(s[0])) {
      var tail := s[1..];
      SortedSplit(s, key);
      InsertSorted(x, tail, key);
      InsertKeepsLowerBound(key(s[0]), x, tail, key);
      ConsSorted(s[0], InsertByKey(x, tail, key), key);
    }
  }

  /** A sorted sequence is its head, below everything after it, and a sorted tail. */
  lemma SortedSplit(s: seq<InventoryView>, key: InventoryView -> SortKey)
    requires |s| > 0 && SortedBy(s, key)
    ensures SortedBy(s[1..], key)
    ensures forall j :: 0 <= j < |s[1..]| ==> KeyLe(key(s[0]), key(s[1..][j]))
  {
    var tail := s[1..];
    forall i, j | 0 <= i < j < |tail| ensures KeyLe(key(tail[i]), key(tail[j])) {
      assert tail[i] == s[i + 1] && tail[j] == s[j + 1];
    }
    forall j | 0 <= j < |tail| ensures KeyLe(key(s[0]), key(tail[j])) {
      assert tail[j] == s[j + 1];
    }
  }

  /** A head below everything in a sorted sequence extends it sorted. */
  lemma ConsSorted(h: InventoryView, rest: seq<InventoryView>, key: InventoryView -> SortKey)
    requires SortedBy(rest, key)
    requires forall j :: 0 <= j < |rest| ==> KeyLe(key(h), key(rest[j]))
    ensures SortedBy([h] + rest, key)
  {
    var r := [h] + rest;
    forall i, j | 0 <= i < j < |r| ensures KeyLe(key(r[i]), key(r[j])) {
      if i == 0 {
        assert r[0] == h && r[j] == rest[j - 1];
      } else {
        assert r[i] == rest[i - 1] && r[j] == rest[j - 1];
      }
    }
  }

  /** A key below `x`'s and every key of `s` is below every key after insertion. */
  lemma InsertKeepsLowerBound(b: SortKey, x: InventoryView, s: seq<InventoryView>, key: InventoryView -> SortKey)
    requires KeyLe(b, key(x))
    requires forall j :: 0 <= j < |s| ==> KeyLe(b, key(s[j]))
    ensures forall j :: 0 <= j < |InsertByKey(x, s, key)| ==> KeyLe(b, key(InsertByKey(x, s, key)[j]))
  {
    var r := InsertByKey(x, s, key);
    forall j | 0 <= j < |r| ensures KeyLe(b, key(r[j])) {
      var y := r[j];
      assert y in multiset(r);
      if y != x {
        assert y in s;
        var k :| 0 <= k < |s| && s[k] == y;
      }
    }
  }

  /** The sort orders by key. */
  lemma {:induction false} SortBySorted(s: seq<InventoryView>, key: InventoryView -> SortKey)
    ensures SortedBy(SortBy(s, key), key)
    decreases |s|
  {
    if |s| > 0 {
      SortBySorted(s[1..], key);
      InsertSorted(s[0], SortBy(s[1..], key), key);
    }
  }

  /** Past a head with a smaller key, insertion keeps the head in front. */
  lemma InsertPastHead(x: InventoryView, s: seq<InventoryView>, key: InventoryView -> SortKey)
    requires |s| > 0 && !KeyLe(key(x), key(s[0]))
    ensures InsertByKey(x, s, key) == [s[0]] + InsertByKey(x, s[1..], key)
  {
  }

  /** Two prefixes of which at most one is non-empty commute. */
  lemma SwapPrefixes(a: seq<InventoryView>, b: seq<InventoryView>, f: seq<InventoryView>)
    requires a == [] || b == []
    ensures a + (b + f) == b + (a + f)
  {
    if a == [] {
      assert a + (b + f) == b + f == b + (a + f);
    } else {
      assert a + (b + f) == a + f == b + (a + f);
    }
  }

  /** The inductive step of `InsertStable`, where `x` moves past `s[0]`. */
  lemma {:induction false} InsertStableStep(x: InventoryView, s: seq<InventoryView>, key: InventoryView -> SortKey, k: SortKey)
    requires |s| > 0 && !KeyLe(key(x), key(s[0]))
    requires Filter(InsertByKey(x, s[1..], key), KeyIs(key, k)) == (if key(x) == k then [x] else []) + Filter(s[1..], KeyIs(key, k))
    ensures Filter(InsertByKey(x, s, key), KeyIs(key, k)) == (if key(x) == k then [x] else []) + Filter(s, KeyIs(key, k))
  {
    var p := KeyIs(key, k);
    var tail := s[1..];
    var a := if p(s[0]) then [s[0]] else [];
    var b := if key(x) == k then [x] else [];
    InsertPastHead(x, s, key);
    FilterCons(s[0], InsertByKey(x, tail, key), p);
    FilterCons(s[0], tail, p);
    assert [s[0]] + tail == s;
    // `s[0]` and `x` never share a key here, so at most one of them is kept
    SwapPrefixes(a, b, Filter(tail, p));
  }

  lemma {:induction false} InsertStable(x: InventoryView, s: seq<InventoryView>, key: InventoryView -> SortKey, k: SortKey)
    ensures Filter(InsertByKey(x, s, key), KeyIs(key, k)) == (if key(x) == k then [x] else []) + Filter(s, KeyIs(key, k))
    decreases |s|
  {
    if |s| == 0 {
      FilterCons(x, s, KeyIs(key, k));
      assert [x] + s == [x];
    } else if KeyLe(key(x), key(s[0])) {
      FilterCons(x, s, KeyIs(key, k));
    } else {
      InsertStable(x, s[1..], key, k);
      InsertStableStep(x, s, key, k);
    }
  }

  /** The sort is stable: among views with any one key, the input order is kept. */
  lemma {:induction false} SortByStable(s: seq<InventoryView>, key: InventoryView -> SortKey, k: SortKey)
    ensures Filter(SortBy(s, key), KeyIs(key, k)) == Filter(s, KeyIs(key, k))
    decreases |s|
  {
    if |s| > 0 {
      var tail := s[1..];
      assert SortBy(s, key) == InsertByKey(s[0], SortBy(tail, key), key);
      SortByStable(tail, key, k);
      InsertStable(s[0], SortBy(tail, key), key, k);
      FilterCons(s[0], tail, KeyIs(key, k));
      assert [s[0]] + tail == s;
    }
  }

  /** Dated rows come first, in non-decreasing expiry order; rows whose expiry
      is falsy come after all dated rows. */
  ghost predicate ListingOrder(r: seq<InventoryView>) {
    forall i, j :: 0 <= i < j < |r| && Truthy(r[j].item.expiryDate) ==>
      Truthy(r[i].item.expiryDate) && r[i].item.expiryDate.value <= r[j].item.expiryDate.value
  }

  /** Join the rows, then sort by key: the shared tail of the three listings. */
  function JoinAndSort(rows: seq<InventoryItem>, catalog: seq<Ingredient>, key: InventoryView -> SortKey): (r: seq<InventoryView>)
    ensures |r| == |rows|
    ensures SortedBy(r, key)
    ensures multiset(r) == multiset(Join(rows, catalog))
    ensures forall v :: v in r <==> v.item in rows && v.ingredient == Catalog.GetIngredient(catalog, v.item.ingredientId)
  {
    var j := Join(rows, catalog);
    SortBySorted(j, key);
    JoinMembership(rows, catalog);
    var r := SortBy(j, key);
    assert forall v :: v in r <==> v in j by {
      forall v ensures v in r <==> v in j {
        assert v in r <==> v in multiset(r);
        assert v in j <==> v in multiset(j);
      }
    }
    r
  }

  // ================================================================ read queries

  /** `getUserInventory`: unknown user gives `[]`; otherwise every row of the
      user (with multiplicity), each joined with its ingredient, in listing order. */
  function GetUserInventory(users: seq<User>, items: seq<InventoryItem>, catalog: seq<Ingredient>, clerkId: string)
    : (r: seq<InventoryView>)
    ensures GetUser(users, clerkId).None? ==> r == []
    ensures GetUser(users, clerkId).Some? ==>
      multiset(r) == multiset(Join(Filter(items, OwnedBy(GetUser(users, clerkId).value.id)), catalog))
    ensures forall v :: v in r <==>
      && GetUser(users, clerkId).Some?
      && v.item in items && v.item.userId == GetUser(users, clerkId).value.id
      && v.ingredient == Catalog.GetIngredient(catalog, v.item.ingredientId)
    ensures ListingOrder(r)
  {
    match GetUser(users, clerkId)
    case None => []
    case Some(u) => JoinAndSort(Filter(items, OwnedBy(u.id)), catalog, ListingKey)
  }

  /** `getInventoryByLocation`: like the listing, restricted to one location. */
  function GetInventoryByLocation(users: seq<User>, items: seq<InventoryItem>, catalog: seq<Ingredient>,
                                  clerkId: string, location: Location)
    : (r: seq<InventoryView>)
    ensures GetUser(users, clerkId).None? ==> r == []
    ensures GetUser(users, clerkId).Some? ==>
      multiset(r) == multiset(Join(Filter(items, OwnedAt(GetUser(users, clerkId).value.id, location)), catalog))
    ensures forall v :: v in r <==>
      && GetUser(users, clerkId).Some?
      && v.item in items && v.item.userId == GetUser(users, clerkId).value.id && v.item.location == location
      && v.ingredient == Catalog.GetIngredient(catalog, v.item.ingredientId)
    ensures ListingOrder(r)
  {
    match GetUser(users, clerkId)
    case None => []
    case Some(u) => JoinAndSort(Filter(items, OwnedAt(u.id, location)), catalog, ListingKey)
  }

  /** `getExpiringItems`: the user's rows whose expiry date is set and no later
      than three days from `now` (past dates included), ascending by expiry. */
  function GetExpiringItems(users: seq<User>, items: seq<InventoryItem>, catalog: seq<Ingredient>,
                            clerkId: string, now: int)
    : (r: seq<InventoryView>)
    ensures GetUser(users, clerkId).None? ==> r == []
    ensures GetUser(users, clerkId).Some? ==>
      && multiset(r) == multiset(Join(Filter(items, OwnedExpiring(GetUser(users, clerkId).value.id, now + 3 * DayMs)), catalog))
      && |r| == |Filter(items, OwnedExpiring(GetUser(users, clerkId).value.id, now + 3 * DayMs))|
    ensures forall v :: v in r <==>
      && GetUser(users, clerkId).Some?
      && v.item in items && v.item.userId == GetUser(users, clerkId).value.id
      && v.item.expiryDate.Some? && v.item.expiryDate.value <= now + 3 * DayMs
      && v.ingredient == Catalog.GetIngredient(catalog, v.item.ingredientId)
    ensures forall i, j :: 0 <= i < j < |r| ==>
      r[i].item.expiryDate.Some? && r[j].item.expiryDate.Some? &&
      r[i].item.expiryDate.value <= r[j].item.expiryDate.value
  {
    match GetUser(users, clerkId)
    case None => []
    case Some(u) =>
      var r := JoinAndSort(Filter(items, OwnedExpiring(u.id, now + 3 * DayMs)), catalog, ExpiringKey);
      assert forall i :: 0 <= i < |r| ==> r[i].item.expiryDate.Some? by {
        forall i | 0 <= i < |r| ensures r[i].item.expiryDate.Some? {
          assert r[i] in r;
        }
      }
      r
  }

  /** The rows of a listing whose sort key is `k` keep the order the rows have
      in the table (undated rows in particular stay in insertion order). */
  lemma ListingIsStable(users: seq<User>, items: seq<InventoryItem>, catalog: seq<Ingredient>, clerkId: string, k: SortKey)
    requires GetUser(users, clerkId).Some?
    ensures Filter(GetUserInventory(users, items, catalog, clerkId), KeyIs(ListingKey, k)) ==
            Filter(Join(Filter(items, OwnedBy(GetUser(users, clerkId).value.id)), catalog), KeyIs(ListingKey, k))
  {
    var u := GetUser(users, clerkId).value;
    SortByStable(Join(Filter(items, OwnedBy(u.id)), catalog), ListingKey, k);
  }

  /** The same holds of the listing for one location. */
  lemma LocationListingIsStable(users: seq<User>, items: seq<InventoryItem>, catalog: seq<Ingredient>,
                                clerkId: string, location: Location, k: SortKey)
    requires GetUser(users, clerkId).Some?
    ensures Filter(GetInventoryByLocation(users, items, catalog, clerkId, location), KeyIs(ListingKey, k)) ==
            Filter(Join(Filter(items, OwnedAt(GetUser(users, clerkId).value.id, location)), catalog), KeyIs(ListingKey, k))
  {
    var u := GetUser(users, clerkId).value;
    SortByStable(Join(Filter(items, OwnedAt(u.id, location)), catalog), ListingKey, k);
  }

  // ================================================================ statistics

  /** `item.expiryDate && item.expiryDate <= limit`: a falsy date never counts. */
  function ExpiresWithin(limit: int): InventoryItem -> bool {
    (x: InventoryItem) => Truthy(x.expiryDate) && x.expiryDate.value <= limit
  }

  function AtLocation(location: Location): InventoryItem -> bool {
    (x: InventoryItem) => x.location == location
  }

  /** Every row is in exactly one of the three locations. */
  lemma {:induction false} LocationsPartition(s: seq<InventoryItem>)
    ensures |Filter(s, AtLocation(Fridge))| + |Filter(s, AtLocation(Pantry))| + |Filter(s, AtLocation(Freezer))| == |s|
    decreases |s|
  {
    if |s| > 0 {
      LocationsPartition(s[1..]);
    }
  }

  /** `getInventoryStats`: all zero for an unknown user. Otherwise the counts
      of the user's rows: all of them, those with a truthy expiry date within
      three days, those within seven days, and those in each location. */
  function GetInventoryStats(users: seq<User>, items: seq<InventoryItem>, clerkId: string, now: int): (r: InventoryStats)
    ensures GetUser(users, clerkId).None? ==> r == NoStats
    ensures GetUser(users, clerkId).Some? ==>
      var uid := GetUser(users, clerkId).value.id;
      && r.totalItems == |Filter(items, OwnedBy(uid))|
      && r.expiringSoon == |Filter(items, OwnedWithin(uid, now + 3 * DayMs))|
      && r.expiringThisWeek == |Filter(items, OwnedWithin(uid, now + 7 * DayMs))|
      && r.byLocation.fridge == |Filter(items, OwnedAt(uid, Fridge))|
      && r.byLocation.pantry == |Filter(items, OwnedAt(uid, Pantry))|
      && r.byLocation.freezer == |Filter(items, OwnedAt(uid, Freezer))|
    ensures r.byLocation.fridge + r.byLocation.pantry + r.byLocation.freezer == r.totalItems
    ensures r.expiringSoon <= r.expiringThisWeek <= r.totalItems
  {
    match GetUser(users, clerkId)
    case None => NoStats
    case Some(u) =>
      var inventory := Filter(items, OwnedBy(u.id));
      var threeDaysFromNow := now + 3 * DayMs;
      var sevenDaysFromNow := now + 7 * DayMs;
      LocationsPartition(inventory);
      FilterLengthMono(inventory, ExpiresWithin(threeDaysFromNow), ExpiresWithin(sevenDaysFromNow));
      FilterFilter(items, OwnedBy(u.id), ExpiresWithin(threeDaysFromNow), OwnedWithin(u.id, threeDaysFromNow));
      FilterFilter(items, OwnedBy(u.id), ExpiresWithin(sevenDaysFromNow), OwnedWithin(u.id, sevenDaysFromNow));
      FilterFilter(items, OwnedBy(u.id), AtLocation(Fridge), OwnedAt(u.id, Fridge));
      FilterFilter(items, OwnedBy(u.id), AtLocation(Pantry), OwnedAt(u.id, Pantry));
      FilterFilter(items, OwnedBy(u.id), AtLocation(Freezer), OwnedAt(u.id, Freezer));
      InventoryStats(
        |inventory|,
        |Filter(inventory, ExpiresWithin(threeDaysFromNow))|,
        |Filter(inventory, ExpiresWithin(sevenDaysFromNow))|,
        ByLocation(
          |Filter(inventory, AtLocation(Fridge))|,
          |Filter(inventory, AtLocation(Pantry))|,
          |Filter(inventory, AtLocation(Freezer))|))
  }

  /** The week count includes the three-day count: the difference is exactly
      the user's rows due after three days and within seven. */
  lemma WeekCountIncludesSoon(users: seq<User>, items: seq<InventoryItem>, clerkId: string, now: int)
    requires GetUser(users, clerkId).Some?
    ensures var r := GetInventoryStats(users, items, clerkId, now);
      r.expiringThisWeek - r.expiringSoon ==
        |Filter(items, OwnedBetween(GetUser(users, clerkId).value.id, now + 3 * DayMs, now + 7 * DayMs))|
  {
    var uid := GetUser(users, clerkId).value.id;
    FilterCountSplit(items, OwnedWithin(uid, now + 7 * DayMs), OwnedWithin(uid, now + 3 * DayMs),
                     OwnedBetween(uid, now + 3 * DayMs, now + 7 * DayMs));
  }

  /** The windows are cumulative: a row due in two days and one due in six
      count once and twice. */
  lemma CumulativeWindows(u: User, a: InventoryItem, b: InventoryItem, now: int)
    requires a.userId == u.id && b.userId == u.id
    requires a.expiryDate == Some(now + 2 * DayMs) && b.expiryDate == Some(now + 6 * DayMs)
    requires now + 2 * DayMs != 0 && now + 6 * DayMs != 0
    requires a.location == Fridge && b.location == Pantry
    ensures GetInventoryStats([u], [a, b], u.clerkId, now) == InventoryStats(2, 1, 2, ByLocation(1, 1, 0))
  {
    assert GetUser([u], u.clerkId) == Some(u);
    FilterPair(a, b, OwnedBy(u.id));
    FilterPair(a, b, OwnedWithin(u.id, now + 3 * DayMs));
    FilterPair(a, b, OwnedWithin(u.id, now + 7 * DayMs));
    FilterPair(a, b, OwnedAt(u.id, Fridge));
    FilterPair(a, b, OwnedAt(u.id, Pantry));
    FilterPair(a, b, OwnedAt(u.id, Freezer));
    var r := GetInventoryStats([u], [a, b], u.clerkId, now);
    assert r.totalItems == 2 && r.expiringSoon == 1 && r.expiringThisWeek == 2;
    assert r.byLocation == ByLocation(1, 1, 0);
  }

  lemma {:induction false} FilterFilter(s: seq<InventoryItem>, p: InventoryItem -> bool, q: InventoryItem -> bool,
                                        pq: InventoryItem -> bool)
    requires forall x :: pq(x) == (p(x) && q(x))
    ensures Filter(Filter(s, p), q) == Filter(s, pq)
    decreases |s|
  {
    if |s| > 0 {
      FilterFilter(s[1..], p, q, pq);
      FilterAppend(if p(s[0]) then [s[0]] else [], Filter(s[1..], p), q);
    }
  }

  /** The rows of `uid` whose expiry date is truthy and no later than `limit`. */
  function OwnedWithin(uid: UserId, limit: int): InventoryItem -> bool {
    (x: InventoryItem) => x.userId == uid && Truthy(x.expiryDate) && x.expiryDate.value <= limit
  }

  /** The rows of `uid` whose expiry date is truthy, after `lo` and no later than `hi`. */
  function OwnedBetween(uid: UserId, lo: int, hi: int): InventoryItem -> bool {
    (x: InventoryItem) => x.userId == uid && Truthy(x.expiryDate) && lo < x.expiryDate.value <= hi
  }

  /** The stats' `expiringSoon` never exceeds the length of the expiring list,
      and equals it unless some row of the user has `expiryDate` 0: the list
      keeps such a row (it only asks for a defined date) while the count drops
      it (0 is falsy). */
  lemma ExpiringSoonVersusList(users: seq<User>, items: seq<InventoryItem>, catalog: seq<Ingredient>, clerkId: string, now: int)
    ensures GetInventoryStats(users, items, clerkId, now).expiringSoon <= |GetExpiringItems(users, items, catalog, clerkId, now)|
    ensures (forall x :: x in items && x.expiryDate == Some(0) ==> GetUser(users, clerkId).None? || x.userId != GetUser(users, clerkId).value.id) ==>
      GetInventoryStats(users, items, clerkId, now).expiringSoon == |GetExpiringItems(users, items, catalog, clerkId, now)|
  {
    if GetUser(users, clerkId).Some? {
      var uid := GetUser(users, clerkId).value.id;
      FilterLengthMono(items, OwnedWithin(uid, now + 3 * DayMs), OwnedExpiring(uid, now + 3 * DayMs));
      if forall x :: x in items && x.expiryDate == Some(0) ==> x.userId != uid {
        WithoutZeroDatesWindowsAgree(items, uid, now + 3 * DayMs);
      }
    }
  }

  /** Without a zero expiry date among `uid`'s rows, the truthy and the
      defined window select the same rows. */
  lemma WithoutZeroDatesWindowsAgree(items: seq<InventoryItem>, uid: UserId, limit: int)
    requires forall x :: x in items && x.expiryDate == Some(0) ==> x.userId != uid
    ensures Filter(items, OwnedWithin(uid, limit)) == Filter(items, OwnedExpiring(uid, limit))
  {
    forall i | 0 <= i < |items| ensures OwnedWithin(uid, limit)(items[i]) == OwnedExpiring(uid, limit)(items[i]) {
      assert items[i] in items;
    }
    FilterAgree(items, OwnedWithin(uid, limit), OwnedExpiring(uid, limit));
  }

  // ================================================================ mutations, as functions of the tables

  /** Item ids are fresh and ascending; distinct rows have distinct ids. */
  ghost predicate ItemsValid(items: seq<InventoryItem>, nextId: nat) {
    && (forall i, j :: 0 <= i < j < |items| ==> items[i].id.n < items[j].id.n)
    && (forall i :: 0 <= i < |items| ==> items[i].id.n < nextId)
  }

  /** Every row belongs to an existing user (users are never deleted here). */
  ghost predicate OwnersExist(users: seq<User>, items: seq<InventoryItem>) {
    forall i :: 0 <= i < |items| ==> items[i].userId in UserIds(users)
  }

  /** The store's invariant: both tables valid, every row with an owner. */
  ghost predicate StoreValid(users: seq<User>, nextUserId: nat, items: seq<InventoryItem>, nextItemId: nat) {
    UsersValid(users, nextUserId) && ItemsValid(items, nextItemId) && OwnersExist(users, items)
  }

  /** `createUser` keeps the store valid, and its id names a stored user. */
  lemma UpsertKeepsStoreValid(users: seq<User>, nextUserId: nat, items: seq<InventoryItem>, nextItemId: nat,
                              who: Identity, now: int)
    requires StoreValid(users, nextUserId, items, nextItemId)
    ensures var r := UpsertUser(users, nextUserId, who, now);
      StoreValid(r.users, r.nextId, items, nextItemId) && r.id in UserIds(r.users)
  {
    UpsertUserKeepsValid(users, nextUserId, who, now);
  }

  /** The (user, ingredient, location) slot that `addToInventory` merges into. */
  function InSlot(uid: UserId, ingredientId: IngredientId, location: Location): InventoryItem -> bool {
    (x: InventoryItem) => x.userId == uid && x.ingredientId == ingredientId && x.location == location
  }

  /** The first row of the user in that slot, if any. */
  function MergeTarget(items: seq<InventoryItem>, uid: UserId, a: NewItem): Option<nat> {
    FirstIndex(items, InSlot(uid, a.ingredientId, a.location))
  }

  /** The row `addToInventory` inserts: `purchaseDate || now` and
      `createdAt = updatedAt = now`. */
  function NewRow(id: InventoryId, uid: UserId, a: NewItem, now: int): InventoryItem {
    InventoryItem(id, uid, a.ingredientId, a.quantity, a.unit, a.location, a.expiryDate,
                  if Truthy(a.purchaseDate) then a.purchaseDate else Some(now),
                  a.isFrozen, a.thawDate, now, now)
  }

  /** The inventory table after `addToInventory` for user `uid`: merge the
      quantity into the first row of the slot (stamping `updatedAt`), or append
      a new row with the next id. */
  function AddedItems(items: seq<InventoryItem>, nextId: nat, uid: UserId, a: NewItem, now: int): seq<InventoryItem> {
    match MergeTarget(items, uid, a)
    case Some(k) => items[k := items[k].(quantity := items[k].quantity + a.quantity, updatedAt := now)]
    case None => items + [NewRow(InventoryId(nextId), uid, a, now)]
  }

  /** The user's total quantity held in one slot. */
  function SlotTotal(items: seq<InventoryItem>, slot: InventoryItem -> bool): real
    decreases |items|
  {
    if |items| == 0 then 0.0
    else (if slot(items[0]) then items[0].quantity else 0.0) + SlotTotal(items[1..], slot)
  }

  lemma {:induction false} SlotTotalAppend(items: seq<InventoryItem>, y: InventoryItem, slot: InventoryItem -> bool)
    ensures SlotTotal(items + [y], slot) == SlotTotal(items, slot) + (if slot(y) then y.quantity else 0.0)
    decreases |items|
  {
    if |items| == 0 {
      assert items + [y] == [y];
    } else {
      assert (items + [y])[1..] == items[1..] + [y];
      SlotTotalAppend(items[1..], y, slot);
    }
  }

  lemma {:induction false} SlotTotalUpdate(items: seq<InventoryItem>, k: nat, y: InventoryItem, slot: InventoryItem -> bool)
    requires k < |items|
    ensures SlotTotal(items[k := y], slot) ==
      SlotTotal(items, slot) - (if slot(items[k]) then items[k].quantity else 0.0) + (if slot(y) then y.quantity else 0.0)
    decreases |items|
  {
    if k > 0 {
      assert items[k := y][1..] == items[1..][k - 1 := y];
      SlotTotalUpdate(items[1..], k - 1, y, slot);
    } else {
      assert items[k := y][1..] == items[1..];
    }
  }

  /** Merge by addition: `addToInventory` raises the quantity held in the
      call's slot by exactly the call's quantity, whether it merged or inserted,
      and leaves the total of every other slot of every user unchanged. */
  lemma AddRaisesSlotTotal(items: seq<InventoryItem>, nextId: nat, uid: UserId, a: NewItem, now: int,
                           other: InventoryItem -> bool)
    requires forall x :: other(x) ==> !InSlot(uid, a.ingredientId, a.location)(x)
    ensures SlotTotal(AddedItems(items, nextId, uid, a, now), InSlot(uid, a.ingredientId, a.location)) ==
            SlotTotal(items, InSlot(uid, a.ingredientId, a.location)) + a.quantity
    ensures SlotTotal(AddedItems(items, nextId, uid, a, now), other) == SlotTotal(items, other)
  {
    var slot := InSlot(uid, a.ingredientId, a.location);
    match MergeTarget(items, uid, a)
    case Some(k) =>
      var y := items[k].(quantity := items[k].quantity + a.quantity, updatedAt := now);
      SlotTotalUpdate(items, k, y, slot);
      SlotTotalUpdate(items, k, y, other);
    case None =>
      SlotTotalAppend(items, NewRow(InventoryId(nextId), uid, a, now), slot);
      SlotTotalAppend(items, NewRow(InventoryId(nextId), uid, a, now), other);
  }

  /** A merge changes only the target row, and only its quantity (old plus new)
      and `updatedAt`; an insert appends one row with the call's fields. */
  lemma AddedItemsEffect(items: seq<InventoryItem>, nextId: nat, uid: UserId, a: NewItem, now: int)
    ensures var r := AddedItems(items, nextId, uid, a, now);
      match MergeTarget(items, uid, a)
      case Some(k) =>
        && |r| == |items|
        && (forall j :: 0 <= j < |items| && j != k ==> r[j] == items[j])
        && r[k].quantity == items[k].quantity + a.quantity && r[k].updatedAt == now
        && r[k] == items[k].(quantity := r[k].quantity, updatedAt := now)
      case None =>
        && r[..|items|] == items && |r| == |items| + 1
        && var row := r[|items|];
           && row.id == InventoryId(nextId)
           && row.userId == uid && row.ingredientId == a.ingredientId && row.quantity == a.quantity
           && row.unit == a.unit && row.location == a.location && row.expiryDate == a.expiryDate
           && row.isFrozen == a.isFrozen && row.thawDate == a.thawDate
           && row.purchaseDate == (if Truthy(a.purchaseDate) then a.purchaseDate else Some(now))
           && row.createdAt == now && row.updatedAt == now
  {
    var r := AddedItems(items, nextId, uid, a, now);
    if MergeTarget(items, uid, a).None? {
      assert r[..|items|] == items;
    }
  }

  /** Adding the same ingredient to the same place twice (starting from no row
      there) leaves one row holding the sum of both quantities. */
  lemma AddTwiceMerges(items: seq<InventoryItem>, nextId: nat, uid: UserId, a1: NewItem, t1: int, a2: NewItem, t2: int)
    requires MergeTarget(items, uid, a1).None?
    requires a2.ingredientId == a1.ingredientId && a2.location == a1.location
    ensures var s2 := AddedItems(AddedItems(items, nextId, uid, a1, t1), nextId + 1, uid, a2, t2);
      && |s2| == |items| + 1 && s2[..|items|] == items
      && s2[|items|] == NewRow(InventoryId(nextId), uid, a1, t1).(quantity := a1.quantity + a2.quantity, updatedAt := t2)
  {
    var row := NewRow(InventoryId(nextId), uid, a1, t1);
    var s1 := AddedItems(items, nextId, uid, a1, t1);
    assert s1 == items + [row];
    FirstIndexAppend(items, row, InSlot(uid, a1.ingredientId, a1.location));
    assert MergeTarget(s1, uid, a2) == Some(|items|);
    var s2 := AddedItems(s1, nextId + 1, uid, a2, t2);
    assert s2[..|items|] == items;
  }

  /** Adding twice to a slot that already has a row raises that first row by
      both quantities, stamps it with the second call's time and adds no row. */
  lemma AddTwiceToHeldSlot(items: seq<InventoryItem>, nextId: nat, uid: UserId, a1: NewItem, t1: int, a2: NewItem, t2: int)
    requires MergeTarget(items, uid, a1).Some?
    requires a2.ingredientId == a1.ingredientId && a2.location == a1.location
    ensures var k := MergeTarget(items, uid, a1).value;
      var s2 := AddedItems(AddedItems(items, nextId, uid, a1, t1), nextId, uid, a2, t2);
      && |s2| == |items|
      && (forall j :: 0 <= j < |items| && j != k ==> s2[j] == items[j])
      && s2[k] == items[k].(quantity := items[k].quantity + a1.quantity + a2.quantity, updatedAt := t2)
  {
    var k := MergeTarget(items, uid, a1).value;
    var s1 := AddedItems(items, nextId, uid, a1, t1);
    var slot := InSlot(uid, a1.ingredientId, a1.location);
    assert slot(s1[k]);
    assert forall j :: 0 <= j < k ==> s1[j] == items[j];
    assert MergeTarget(s1, uid, a2) == Some(k);
  }

  /** The same ingredient added to two different locations yields two rows. */
  lemma AddElsewhereSeparates(items: seq<InventoryItem>, nextId: nat, uid: UserId, a1: NewItem, t1: int, a2: NewItem, t2: int)
    requires MergeTarget(items, uid, a1).None? && MergeTarget(items, uid, a2).None?
    requires a2.ingredientId == a1.ingredientId && a2.location != a1.location
    ensures AddedItems(AddedItems(items, nextId, uid, a1, t1), nextId + 1, uid, a2, t2) ==
            items + [NewRow(InventoryId(nextId), uid, a1, t1), NewRow(InventoryId(nextId + 1), uid, a2, t2)]
  {
    var row := NewRow(InventoryId(nextId), uid, a1, t1);
    FirstIndexAppend(items, row, InSlot(uid, a2.ingredientId, a2.location));
  }

  /** A row that `addToInventory` creates or merges into stays valid. */
  lemma AddKeepsValid(users: seq<User>, nextUserId: nat, items: seq<InventoryItem>, nextId: nat, uid: UserId, a: NewItem, now: int)
    requires StoreValid(users, nextUserId, items, nextId) && uid in UserIds(users)
    ensures StoreValid(users, nextUserId, AddedItems(items, nextId, uid, a, now),
                       if MergeTarget(items, uid, a).Some? then nextId else nextId + 1)
  {
  }

  /** `{...updates, updatedAt: now}` applied to one row. */
  function ApplyPatch(x: InventoryItem, p: ItemPatch, now: int): InventoryItem {
    x.(quantity := p.quantity.GetOr(x.quantity),
       unit := p.unit.GetOr(x.unit),
       location := p.location.GetOr(x.location),
       expiryDate := if p.expiryDate.Some? then p.expiryDate else x.expiryDate,
       isFrozen := p.isFrozen.GetOr(x.isFrozen),
       thawDate := if p.thawDate.Some? then p.thawDate else x.thawDate,
       updatedAt := now)
  }

  /** Right-biased merge of two patches: a field supplied by `q` wins. */
  function MergePatches(p: ItemPatch, q: ItemPatch): ItemPatch {
    ItemPatch(
      if q.quantity.Some? then q.quantity else p.quantity,
      if q.unit.Some? then q.unit else p.unit,
      if q.location.Some? then q.location else p.location,
      if q.expiryDate.Some? then q.expiryDate else p.expiryDate,
      if q.isFrozen.Some? then q.isFrozen else p.isFrozen,
      if q.thawDate.Some? then q.thawDate else p.thawDate)
  }

  /** A patch sets each supplied field, keeps every other field (owner,
      ingredient, purchase date, creation time included) and stamps `updatedAt`. */
  lemma PatchChangesOnlySuppliedFields(x: InventoryItem, p: ItemPatch, now: int)
    ensures var y := ApplyPatch(x, p, now);
      && y.id == x.id && y.userId == x.userId && y.ingredientId == x.ingredientId
      && y.purchaseDate == x.purchaseDate && y.createdAt == x.createdAt && y.updatedAt == now
      && y.quantity == (if p.quantity.Some? then p.quantity.value else x.quantity)
      && y.unit == (if p.unit.Some? then p.unit.value else x.unit)
      && y.location == (if p.location.Some? then p.location.value else x.location)
      && y.expiryDate == (if p.expiryDate.Some? then p.expiryDate else x.expiryDate)
      && y.isFrozen == (if p.isFrozen.Some? then p.isFrozen.value else x.isFrozen)
      && y.thawDate == (if p.thawDate.Some? then p.thawDate else x.thawDate)
  {
  }

  /** Two successive patches act as their merge applied once. */
  lemma PatchesCompose(x: InventoryItem, p: ItemPatch, q: ItemPatch, t1: int, t2: int)
    ensures ApplyPatch(ApplyPatch(x, p, t1), q, t2) == ApplyPatch(x, MergePatches(p, q), t2)
  {
  }

  /** The row with this id, by position. */
  function ItemIndex(items: seq<InventoryItem>, id: InventoryId): Option<nat> {
    FirstIndex(items, (x: InventoryItem) => x.id == id)
  }

  /** The table after `updateInventoryItem`; unchanged when no row has the id. */
  function PatchedItems(items: seq<InventoryItem>, id: InventoryId, p: ItemPatch, now: int): seq<InventoryItem> {
    match ItemIndex(items, id)
    case Some(k) => items[k := ApplyPatch(items[k], p, now)]
    case None => items
  }

  /** The table after `deleteInventoryItem`; unchanged when no row has the id. */
  function DeletedItems(items: seq<InventoryItem>, id: InventoryId): seq<InventoryItem> {
    match ItemIndex(items, id)
    case Some(k) => items[..k] + items[k + 1..]
    case None => items
  }

  /** In a valid table a patch reaches the row with the id and no other row. */
  lemma PatchTouchesOnlyTarget(items: seq<InventoryItem>, nextId: nat, id: InventoryId, p: ItemPatch, now: int)
    requires ItemsValid(items, nextId)
    ensures |PatchedItems(items, id, p, now)| == |items|
    ensures forall j :: 0 <= j < |items| ==>
      PatchedItems(items, id, p, now)[j] == if items[j].id == id then ApplyPatch(items[j], p, now) else items[j]
  {
  }

  /** The rows whose id is not `id`. */
  function IdIsNot(id: InventoryId): InventoryItem -> bool {
    (x: InventoryItem) => x.id != id
  }

  /** In a valid table a delete removes exactly the row with the id, keeping
      the order of the others. */
  lemma {:induction false} DeleteRemovesOnlyTarget(items: seq<InventoryItem>, nextId: nat, id: InventoryId)
    requires ItemsValid(items, nextId)
    ensures DeletedItems(items, id) == Filter(items, IdIsNot(id))
  {
    match ItemIndex(items, id)
    case None =>
      FilterAll(items, IdIsNot(id));
    case Some(k) =>
      IdsDistinct(items, nextId, k);
      FilterDropsOne(items, k, IdIsNot(id));
  }

  /** In a valid table no other row shares the id of row `k`. */
  lemma IdsDistinct(items: seq<InventoryItem>, nextId: nat, k: nat)
    requires ItemsValid(items, nextId) && k < |items|
    ensures forall i :: 0 <= i < |items| && i != k ==> IdIsNot(items[k].id)(items[i])
  {
    forall i | 0 <= i < |items| && i != k ensures items[i].id != items[k].id {
      if i < k {
        assert items[i].id.n < items[k].id.n;
      } else {
        assert items[k].id.n < items[i].id.n;
      }
    }
  }

  /** After `deleteInventoryItem(id)` no listing of any user shows that id. */
  lemma DeletedNeverListed(users: seq<User>, items: seq<InventoryItem>, nextId: nat, catalog: seq<Ingredient>,
                           id: InventoryId, clerkId: string)
    requires ItemsValid(items, nextId)
    ensures forall v :: v in GetUserInventory(users, DeletedItems(items, id), catalog, clerkId) ==> v.item.id != id
  {
    DeleteRemovesOnlyTarget(items, nextId, id);
  }

  /** Patches keep the table valid. */
  lemma PatchKeepsValid(users: seq<User>, nextUserId: nat, items: seq<InventoryItem>, nextId: nat, id: InventoryId, p: ItemPatch, now: int)
    requires StoreValid(users, nextUserId, items, nextId)
    ensures StoreValid(users, nextUserId, PatchedItems(items, id, p, now), nextId)
  {
  }

  /** Removing one row keeps ids fresh and ascending. */
  lemma RemoveKeepsItemsValid(items: seq<InventoryItem>, nextId: nat, k: nat)
    requires ItemsValid(items, nextId) && k < |items|
    ensures ItemsValid(items[..k] + items[k + 1..], nextId)
  {
    var d := items[..k] + items[k + 1..];
    RemoveAtIndex(items, k, d);
    forall i, j | 0 <= i < j < |d| ensures d[i].id.n < d[j].id.n {
      assert d[i] == items[if i < k then i else i + 1];
      assert d[j] == items[if j < k then j else j + 1];
    }
  }

  /** Removing one row keeps every remaining row's owner. */
  lemma RemoveKeepsOwners(users: seq<User>, items: seq<InventoryItem>, k: nat)
    requires OwnersExist(users, items) && k < |items|
    ensures OwnersExist(users, items[..k] + items[k + 1..])
  {
    RemoveAtIndex(items, k, items[..k] + items[k + 1..]);
  }

  /** Deletes keep the table valid. */
  lemma DeleteKeepsValid(users: seq<User>, nextUserId: nat, items: seq<InventoryItem>, nextId: nat, id: InventoryId)
    requires StoreValid(users, nextUserId, items, nextId)
    ensures StoreValid(users, nextUserId, DeletedItems(items, id), nextId)
  {
    match ItemIndex(items, id)
    case None =>
    case Some(k) =>
      RemoveKeepsItemsValid(items, nextId, k);
      RemoveKeepsOwners(users, items, k);
  }

  // ================================================================ the store

  /** The `users` and `userInventory` tables with their id counters. */
  class InventoryStore {
    var users: seq<User>
    var items: seq<InventoryItem>
    var nextUserId: nat
    var nextItemId: nat

    ghost predicate Valid()
      reads this
    {
      StoreValid(users, nextUserId, items, nextItemId)
    }

    constructor ()
      ensures Valid() && users == [] && items == [] && nextUserId == 0 && nextItemId == 0
    {
      users, items := [], [];
      nextUserId, nextItemId := 0, 0;
    }

    /** `createUser`. */
    method CreateUser(who: Identity, now: int) returns (id: UserId)
      requires Valid()
      modifies this
      ensures Valid()
      ensures Upsert(users, id, nextUserId) == UpsertUser(old(users), old(nextUserId), who, now)
      ensures id in UserIds(users)
      ensures items == old(items) && nextItemId == old(nextItemId)
    {
      UpsertKeepsStoreValid(users, nextUserId, items, nextItemId, who, now);
      var existing := GetUser(users, who.clerkId);
      if existing.Some? {
        return existing.value.id;
      }
      id := UserId(nextUserId);
      users := users + [User(id, who.clerkId, who.email, who.name, who.imageUrl, now, now)];
      nextUserId := nextUserId + 1;
    }

    /** `addToInventory`: resolve (or create) the user, then merge into the
        first row of the slot or insert a new row. Returns the new row's id, or
        `None` when it merged (a patch returns nothing). */
    method AddToInventory(who: Identity, a: NewItem, now: int) returns (inserted: Option<InventoryId>)
      requires Valid()
      modifies this
      ensures Valid()
      ensures var u := UpsertUser(old(users), old(nextUserId), who, now);
        && users == u.users && nextUserId == u.nextId
        && items == AddedItems(old(items), old(nextItemId), u.id, a, now)
        && inserted == (if MergeTarget(old(items), u.id, a).Some? then None else Some(InventoryId(old(nextItemId))))
        && nextItemId == (if inserted.Some? then old(nextItemId) + 1 else old(nextItemId))
    {
      var uid := CreateUser(who, now);
      inserted := MergeOrInsert(uid, a, now);
    }

    /** The second half of `addToInventory`, for a stored user `uid`: add the
        quantity to the first row of the slot, or insert a row with the next id. */
    method MergeOrInsert(uid: UserId, a: NewItem, now: int) returns (inserted: Option<InventoryId>)
      requires Valid() && uid in UserIds(users)
      modifies this
      ensures Valid()
      ensures users == old(users) && nextUserId == old(nextUserId)
      ensures items == AddedItems(old(items), old(nextItemId), uid, a, now)
      ensures inserted == (if MergeTarget(old(items), uid, a).Some? then None else Some(InventoryId(old(nextItemId))))
      ensures nextItemId == (if inserted.Some? then old(nextItemId) + 1 else old(nextItemId))
    {
      AddKeepsValid(users, nextUserId, items, nextItemId, uid, a, now);
      var target := MergeTarget(items, uid, a);
      if target.Some? {
        var k := target.value;
        items := items[k := items[k].(quantity := items[k].quantity + a.quantity, updatedAt := now)];
        inserted := None;
      } else {
        inserted := Some(InventoryId(nextItemId));
        items := items + [NewRow(InventoryId(nextItemId), uid, a, now)];
        nextItemId := nextItemId + 1;
      }
    }

    /** `updateInventoryItem`: patch the row with this id; `false` (and no
        change) when there is none, where the store raises an error. */
    method UpdateInventoryItem(id: InventoryId, updates: ItemPatch, now: int) returns (found: bool)
      requires Valid()
      modifies this
      ensures Valid()
      ensures found == ItemIndex(old(items), id).Some?
      ensures items == PatchedItems(old(items), id, updates, now)
      ensures users == old(users) && nextUserId == old(nextUserId) && nextItemId == old(nextItemId)
    {
      PatchKeepsValid(users, nextUserId, items, nextItemId, id, updates, now);
      var k := ItemIndex(items, id);
      found := k.Some?;
      if found {
        items := items[k.value := ApplyPatch(items[k.value], updates, now)];
      }
    }

    /** `deleteInventoryItem`: remove the row with this id; `false` (and no
        change) when there is none, where the store raises an error. */
    method DeleteInventoryItem(id: InventoryId) returns (found: bool)
      requires Valid()
      modifies this
      ensures Valid()
      ensures found == ItemIndex(old(items), id).Some?
      ensures items == DeletedItems(old(items), id)
      ensures users == old(users) && nextUserId == old(nextUserId) && nextItemId == old(nextItemId)
    {
      DeleteKeepsValid(users, nextUserId, items, nextItemId, id);
      var k := ItemIndex(items, id);
      found := k.Some?;
      if found {
        items := items[..k.value] + items[k.value + 1..];
      }
    }
  }
}
