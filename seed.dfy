/** The seed mutation: when the catalog is empty it bulk-loads the built-in
    list, one insert per entry and in list order; when the catalog holds any row
    at all it does nothing. */
module Seed {
  import opened Wrappers
  import opened Schema
  import opened Catalog

  /** One built-in catalog entry. */
  datatype SeedEntry = SeedEntry(name: string, category: string, unit: string)

  /** The built-in list, in the order it is inserted. */
  const BuiltIn: seq<SeedEntry> := [
      SeedEntry("Carrots", "vegetables", "kg"),
      SeedEntry("Onions", "vegetables", "kg"),
      SeedEntry("Tomatoes", "vegetables", "kg"),
      SeedEntry("Potatoes", "vegetables", "kg"),
      SeedEntry("Bell Peppers", "vegetables", "piece"),
      SeedEntry("Broccoli", "vegetables", "head"),
      SeedEntry("Spinach", "vegetables", "bunch"),
      SeedEntry("Lettuce", "vegetables", "head"),
      SeedEntry("Cucumber", "vegetables", "piece"),
      SeedEntry("Zucchini", "vegetables", "piece"),
      SeedEntry("Apples", "fruits", "kg"),
      SeedEntry("Bananas", "fruits", "bunch"),
      SeedEntry("Oranges", "fruits", "kg"),
      SeedEntry("Lemons", "fruits", "piece"),
      SeedEntry("Strawberries", "fruits", "kg"),
      SeedEntry("Blueberries", "fruits", "kg"),
      SeedEntry("Grapes", "fruits", "kg"),
      SeedEntry("Avocado", "fruits", "piece"),
      SeedEntry("Chicken Breast", "meat", "kg"),
      SeedEntry("Ground Beef", "meat", "kg"),
      SeedEntry("Salmon", "fish", "kg"),
      SeedEntry("Eggs", "dairy", "dozen"),
      SeedEntry("Tofu", "protein", "kg"),
      SeedEntry("Greek Yogurt", "dairy", "kg"),
      SeedEntry("Cheese", "dairy", "kg"),
      SeedEntry("Milk", "dairy", "L"),
      SeedEntry("Rice", "grains", "kg"),
      SeedEntry("Pasta", "grains", "kg"),
      SeedEntry("Bread", "grains", "loaf"),
      SeedEntry("Olive Oil", "pantry", "L"),
      SeedEntry("Salt", "pantry", "kg"),
      SeedEntry("Black Pepper", "pantry", "g"),
      SeedEntry("Garlic", "pantry", "kg"),
      SeedEntry("Ginger", "pantry", "kg"),
      SeedEntry("Flour", "pantry", "kg"),
      SeedEntry("Sugar", "pantry", "kg"),
      SeedEntry("Basil", "herbs", "bunch"),
      SeedEntry("Parsley", "herbs", "bunch"),
      SeedEntry("Cilantro", "herbs", "bunch"),
      SeedEntry("Oregano", "herbs", "bunch"),
      SeedEntry("Thyme", "herbs", "bunch"),
      SeedEntry("Rosemary", "herbs", "bunch"),
      SeedEntry("Canned Tomatoes", "canned", "can"),
      SeedEntry("Canned Beans", "canned", "can"),
      SeedEntry("Canned Corn", "canned", "can"),
      SeedEntry("Olives", "canned", "jar"),
      SeedEntry("Pickles", "canned", "jar")
    ]

  /** The rows the insert loop writes into an empty catalog whose next id is
      `firstId`: the built-in entries in order, without barcode or nutrition
      data, all stamped with the same `now`. */
  function SeedRows(firstId: nat, now: int): (r: seq<Ingredient>)
  {
    seq(|BuiltIn|, i requires 0 <= i < |BuiltIn| =>
      Ingredient(IngredientId(firstId + i), BuiltIn[i].name, BuiltIn[i].category, BuiltIn[i].unit, None, None, now))
  }

  /** The catalog after a seed call: unchanged if non-empty, else the seed rows. */
  function Seeded(rows: seq<Ingredient>, nextId: nat, now: int): seq<Ingredient> {
    if |rows| > 0 then rows else SeedRows(nextId, now)
  }

  /** `seedIngredients`: the emptiness guard, then the insert loop. */
  method SeedIngredients(t: IngredientTable, now: int)
    requires t.Valid()
    modifies t
    ensures t.Valid()
    ensures t.rows == Seeded(old(t.rows), old(t.nextId), now)
    ensures t.nextId == if |old(t.rows)| > 0 then old(t.nextId) else old(t.nextId) + |BuiltIn|
  {
    if |t.rows| > 0 {
      return;
    }
    ghost var all := SeedRows(t.nextId, now);
    ghost var firstId := t.nextId;
    for i := 0 to |BuiltIn|
      invariant t.Valid()
      invariant t.nextId == firstId + i
      invariant t.rows == all[..i]
    {
      var e := BuiltIn[i];
      var _ := t.CreateIngredient(e.name, e.category, e.unit, None, None, now);
      assert t.rows == all[..i + 1];
    }
    assert all[..|BuiltIn|] == all;
  }

  /** The built-in list holds 47 entries. */
  lemma BuiltInSize()
    ensures |BuiltIn| == 47
  {
  }

  /** Seeding an empty catalog yields exactly the built-in (name, category,
      unit) entries in list order, with no barcode, no nutrition data and
      `createdAt = now`. */
  lemma SeedFromEmpty(nextId: nat, now: int)
    ensures |Seeded([], nextId, now)| == |BuiltIn|
    ensures forall i :: 0 <= i < |BuiltIn| ==>
      var row := Seeded([], nextId, now)[i];
      && row.name == BuiltIn[i].name && row.category == BuiltIn[i].category && row.unit == BuiltIn[i].unit
      && row.barcode.None? && row.nutritionPerUnit.None? && row.createdAt == now
  {
  }

  /** Any pre-existing row makes seeding a no-op. */
  lemma SeedNonEmptyIsNoop(rows: seq<Ingredient>, nextId: nat, now: int)
    requires |rows| > 0
    ensures Seeded(rows, nextId, now) == rows
  {
  }

  /** Seeding twice gives the catalog that seeding once gives, whatever the
      second call's time and id counter. */
  lemma SeedIdempotent(rows: seq<Ingredient>, n1: nat, t1: int, n2: nat, t2: int)
    ensures Seeded(Seeded(rows, n1, t1), n2, t2) == Seeded(rows, n1, t1)
  {
  }
}
