/** The shared ingredient catalog: its read queries (list, category, name
    search, barcode lookup, point lookup by id) and the table that
    `createIngredient` inserts into. A catalog is the sequence of its rows in
    insertion order, which is also the order the store's indexes return rows
    with equal keys in. */
module Catalog {
  import opened Wrappers
  import opened Schema
  import opened Seqs

  // ---------------------------------------------------------------- strings

  /** ASCII lower-casing of one character. */
  function LowerChar(c: char): char {
    if 'A' <= c <= 'Z' then (c as int + 32) as char else c
  }

  /** `toLowerCase`, restricted to ASCII letters: the result has no upper-case
      letter and differs from `s` only in letter case. */
  function Lower(s: string): (r: string)
    ensures forall i :: 0 <= i < |r| ==> !('A' <= r[i] <= 'Z')
    ensures SameUpToCase(s, r)
  {
    seq(|s|, i requires 0 <= i < |s| => LowerChar(s[i]))
  }

  /** Lower-casing twice is lower-casing once. */
  lemma LowerIdempotent(s: string)
    ensures Lower(Lower(s)) == Lower(s)
  {
  }

  /** Two strings lower-case to the same string exactly when they differ at
      most in letter case. */
  lemma LowerEqualIffSameUpToCase(a: string, b: string)
    ensures Lower(a) == Lower(b) <==> SameUpToCase(a, b)
  {
    if Lower(a) == Lower(b) {
      forall i | 0 <= i < |a| ensures LowerChar(a[i]) == LowerChar(b[i]) {
        assert Lower(a)[i] == LowerChar(a[i]) && Lower(b)[i] == LowerChar(b[i]);
      }
    }
  }

  /** `t` occurs in `s` starting at position `k`. */
  predicate OccursAt(s: string, t: string, k: nat) {
    k + |t| <= |s| && s[k..k + |t|] == t
  }

  /** `s.includes(t)`: `t` occurs in `s` as a contiguous block. */
  predicate Contains(s: string, t: string) {
    exists k :: 0 <= k <= |s| && OccursAt(s, t, k)
  }

  /** Two strings that differ at most in the case of ASCII letters. */
  predicate SameUpToCase(a: string, b: string) {
    |a| == |b| && forall i :: 0 <= i < |a| ==> LowerChar(a[i]) == LowerChar(b[i])
  }

  /** The search predicate: the lower-cased name contains the lower-cased term. */
  predicate NameMatches(ing: Ingredient, term: string) {
    Contains(Lower(ing.name), Lower(term))
  }

  /** Rows are in insertion order: ids strictly increase along the catalog. */
  ghost predicate IdsAscending(rows: seq<Ingredient>) {
    Ordered(rows, (a: Ingredient, b: Ingredient) => a.id.n < b.id.n)
  }

  // ---------------------------------------------------------------- queries

  /** `getAllIngredients`: every row, in catalog order. */
  function AllIngredients(rows: seq<Ingredient>): seq<Ingredient> {
    rows
  }

  /** `getIngredientsByCategory`: the rows whose category is exactly `category`
      (case-sensitive), with their multiplicities and in catalog order. */
  function IngredientsByCategory(rows: seq<Ingredient>, category: string): (r: seq<Ingredient>)
    ensures forall x :: x in r <==> x in rows && x.category == category
    ensures forall x :: multiset(r)[x] == if x.category == category then multiset(rows)[x] else 0
  {
    FilterMultiset(rows, (x: Ingredient) => x.category == category);
    Filter(rows, (x: Ingredient) => x.category == category)
  }

  /** `searchIngredients`: the rows whose lower-cased name contains the
      lower-cased term, filtered from a full scan. */
  function SearchIngredients(rows: seq<Ingredient>, term: string): (r: seq<Ingredient>)
    ensures forall x :: x in r <==> x in rows && NameMatches(x, term)
    ensures forall x :: multiset(r)[x] == if NameMatches(x, term) then multiset(rows)[x] else 0
  {
    FilterMultiset(rows, (x: Ingredient) => NameMatches(x, term));
    Filter(rows, (x: Ingredient) => NameMatches(x, term))
  }

  /** `getIngredientByBarcode`: the first row with exactly this barcode. */
  function IngredientByBarcode(rows: seq<Ingredient>, barcode: string): (r: Option<Ingredient>)
    ensures r.None? <==> forall x :: x in rows ==> x.barcode != Some(barcode)
    ensures r.Some? ==> r.value.barcode == Some(barcode)
    ensures r.Some? ==> exists i :: 0 <= i < |rows| && rows[i] == r.value &&
                          (forall j :: 0 <= j < i ==> rows[j].barcode != Some(barcode))
  {
    match FirstIndex(rows, (x: Ingredient) => x.barcode == Some(barcode))
    case Some(i) => Some(rows[i])
    case None => None
  }

  /** `ctx.db.get(id)` on the catalog: the row with that id, if any. With
      distinct ids it is the only one. */
  function GetIngredient(rows: seq<Ingredient>, id: IngredientId): (r: Option<Ingredient>)
    ensures r.None? <==> forall x :: x in rows ==> x.id != id
    ensures r.Some? ==> r.value in rows && r.value.id == id
  {
    match FirstIndex(rows, (x: Ingredient) => x.id == id)
    case Some(i) => Some(rows[i])
    case None => None
  }

  // ---------------------------------------------------------------- lemmas

  /** Every string contains the empty string. */
  lemma ContainsEmpty(s: string)
    ensures Contains(s, "")
  {
    assert OccursAt(s, "", 0);
  }

  /** `searchIngredients("")` is the whole catalog, in order. */
  lemma SearchEmptyTermIsAll(rows: seq<Ingredient>)
    ensures SearchIngredients(rows, "") == AllIngredients(rows)
  {
    assert Lower("") == "";
    forall i | 0 <= i < |rows| ensures NameMatches(rows[i], "") {
      ContainsEmpty(Lower(rows[i].name));
    }
    FilterAll(rows, (x: Ingredient) => NameMatches(x, ""));
  }

  /** Search ignores letter case: terms that differ only in case give the same
      rows in the same order. */
  lemma SearchIgnoresCase(rows: seq<Ingredient>, t1: string, t2: string)
    requires SameUpToCase(t1, t2)
    ensures SearchIngredients(rows, t1) == SearchIngredients(rows, t2)
  {
    LowerEqualIffSameUpToCase(t1, t2);
    FilterAgree(rows, (x: Ingredient) => NameMatches(x, t1), (x: Ingredient) => NameMatches(x, t2));
  }

  /** The filtering queries keep catalog order. */
  lemma QueriesKeepCatalogOrder(rows: seq<Ingredient>, category: string, term: string)
    requires IdsAscending(rows)
    ensures IdsAscending(IngredientsByCategory(rows, category))
    ensures IdsAscending(SearchIngredients(rows, term))
  {
    var lt := (a: Ingredient, b: Ingredient) => a.id.n < b.id.n;
    FilterOrdered(rows, (x: Ingredient) => x.category == category, lt);
    FilterOrdered(rows, (x: Ingredient) => NameMatches(x, term), lt);
  }

  // ---------------------------------------------------------------- table

  /** The `ingredients` table: its rows and the next fresh id. */
  class IngredientTable {
    var rows: seq<Ingredient>
    var nextId: nat

    /** Ids are fresh (below `nextId`) and increase in insertion order. */
    ghost predicate Valid()
      reads this
    {
      IdsAscending(rows) && forall i :: 0 <= i < |rows| ==> rows[i].id.n < nextId
    }

    constructor ()
      ensures Valid() && rows == [] && nextId == 0
    {
      rows := [];
      nextId := 0;
    }

    /** `createIngredient`: appends one row with the given fields and
        `createdAt = now`; nothing is checked for duplicates and no existing
        row changes. */
    method CreateIngredient(name: string, category: string, unit: string,
                            nutritionPerUnit: Option<Nutrition>, barcode: Option<string>, now: int)
      returns (id: IngredientId)
      requires Valid()
      modifies this
      ensures Valid()
      ensures id == IngredientId(old(nextId)) && nextId == old(nextId) + 1
      ensures rows == old(rows) + [Ingredient(id, name, category, unit, nutritionPerUnit, barcode, now)]
    {
      id := IngredientId(nextId);
      rows := rows + [Ingredient(id, name, category, unit, nutritionPerUnit, barcode, now)];
      nextId := nextId + 1;
    }
  }
}
