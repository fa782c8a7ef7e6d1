/** The three tables the inventory handlers use (users, ingredients,
    userInventory), their row shapes, and the storage-location union.
    Timestamps are integer milliseconds since the epoch; quantities and
    nutrition values are JavaScript numbers, modelled as reals. */
module Schema {
  import opened Wrappers

  /** Milliseconds in one day, `1000 * 60 * 60 * 24`. */
  const DayMs: int := 86_400_000

  /** Store-assigned document identifiers, one type per table. */
  datatype UserId = UserId(n: nat)
  datatype IngredientId = IngredientId(n: nat)
  datatype InventoryId = InventoryId(n: nat)

  /** Where an inventory row is kept. */
  datatype Location = Fridge | Pantry | Freezer

  /** The wire name of a location, one of the three literals of the union. */
  function LocationName(l: Location): string {
    match l
    case Fridge => "fridge"
    case Pantry => "pantry"
    case Freezer => "freezer"
  }

  /** The location validator: accepts exactly the three literals. */
  function ParseLocation(s: string): (r: Option<Location>)
    ensures r.Some? <==> s == "fridge" || s == "pantry" || s == "freezer"
    ensures r.Some? ==> LocationName(r.value) == s
  {
    if s == "fridge" then Some(Fridge)
    else if s == "pantry" then Some(Pantry)
    else if s == "freezer" then Some(Freezer)
    else None
  }

  /** Every location survives the trip to its wire name and back. */
  lemma ParseLocationName(l: Location)
    ensures ParseLocation(LocationName(l)) == Some(l)
  {
  }

  /** A row of `users`; looked up by `clerkId` (the identity provider's id). */
  datatype User = User(
    id: UserId,
    clerkId: string,
    email: string,
    name: Option<string>,
    imageUrl: Option<string>,
    createdAt: int,
    updatedAt: int)

  /** Nutrition facts per unit; each field is independently optional. */
  datatype Nutrition = Nutrition(
    calories: Option<real>,
    protein: Option<real>,
    carbs: Option<real>,
    fat: Option<real>,
    fiber: Option<real>)

  /** A row of the shared `ingredients` catalog. */
  datatype Ingredient = Ingredient(
    id: IngredientId,
    name: string,
    category: string,
    unit: string,
    nutritionPerUnit: Option<Nutrition>,
    barcode: Option<string>,
    createdAt: int)

  /** A row of `userInventory`: one ingredient held by one user in one place. */
  datatype InventoryItem = InventoryItem(
    id: InventoryId,
    userId: UserId,
    ingredientId: IngredientId,
    quantity: real,
    unit: string,
    location: Location,
    expiryDate: Option<int>,
    purchaseDate: Option<int>,
    isFrozen: bool,
    thawDate: Option<int>,
    createdAt: int,
    updatedAt: int)

  /** JavaScript truthiness of an optional number: absent and 0 are falsy
      (NaN, the other falsy number, is not modelled). */
  predicate Truthy(t: Option<int>) {
    t.Some? && t.value != 0
  }
}
